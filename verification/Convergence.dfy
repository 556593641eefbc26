// One epoch of the step machine in `Failover`: every run without fences and
// promotions, with crashes between any two steps and any call lost, aborts included.
// The standby may then keep rows of operations that were given up.
module Convergence {
  import opened Wrappers
  import opened ControllerTables
  import opened Failover
  import Replay
  import Replication

  // ---- what a pair looks like when the standby keeps rows nobody asks for ----------------

  /** The standby without the rows of operations the active does not have. */
  function Kept(a: Database, b: Database): Database {
    b.(prepared := map id | id in b.prepared && id in a.operations :: b.prepared[id])
  }

  function EntryOf(id: string, p: PreparedRow): Entry {
    Entry(id, p.kind, p.payload, p.epoch, p.generation)
  }

  /** What the standby applied, or will apply for the active, the active has applied. */
  ghost predicate EntriesFit(a: Database, b: Database) {
    && (forall e :: e in b.journal ==> e in a.journal)
    && (forall id :: id in b.prepared && id in a.operations ==> EntryOf(id, b.prepared[id]) in a.journal)
  }

  ghost predicate Fits(a: Database, b: Database) {
    && Replication.Paired(a, Kept(a, b))
    && EntriesFit(a, b)
    && (forall id :: id in b.prepared ==> b.prepared[id].epoch == b.epoch)
  }

  /** A message the active may still commit in this epoch. */
  predicate Proposed(a: Database, m: Message) {
    && m.operationId !in a.operations && m.epoch == a.epoch
    && a.generation <= m.generation && (m.kind == Policy ==> a.generation < m.generation)
  }

  ghost predicate JobFits(a: Database, job: Job) {
    match job
    case Holding(m) => Proposed(a, m)
    case HasSigned(m, _) => Proposed(a, m)
    case PeerPrepared(m, _) => Proposed(a, m)
    case Abandoned(m) => m.operationId !in a.operations
    case Recovering(rows) => forall r :: r in rows ==> Replication.Known(a, r)
    case RecoverPrepared(rows) => forall r :: r in rows ==> Replication.Known(a, r)
    case RecoverCommitted(rows) => forall r :: r in rows ==> Replication.Known(a, r)
    case _ => true
  }

  predicate Quiet(side: Side) {
    side.job == Idle || side.job == Recovering([])
  }

  ghost predicate InEpoch(p: Pair) {
    Safe(p) && Fits(p.me.db, p.peer.db) && JobFits(p.me.db, p.me.job) && Quiet(p.peer)
  }

  predicate KeepsEpoch(e: Event) {
    !e.ReceiveFence? && !e.AskFence? && !e.SwapRole?
  }

  // ---- what a step does to the two databases -----------------------------------------------

  // Tables no decision of replication in this epoch depends on.
  lemma SideTablesFit(a: Database, b: Database, a1: Database, b1: Database)
    requires Fits(a, b) && Sound(a1) && Sound(b1)
    requires a1 == a.(replay := a1.replay, outbound := a1.outbound, lagDegraded := a1.lagDegraded)
    requires b1 == b.(replay := b1.replay, lagDegraded := b1.lagDegraded)
    ensures Fits(a1, b1)
  {
    var k, k1 := Kept(a, b), Kept(a1, b1);
    assert k1.prepared == k.prepared;
    SideTablesPaired(a, k, a1, k1);
  }

  lemma SideTablesPaired(a: Database, b: Database, a1: Database, b1: Database)
    requires a1 == a.(replay := a1.replay, outbound := a1.outbound, lagDegraded := a1.lagDegraded)
    requires b1 == b.(replay := b1.replay, lagDegraded := b1.lagDegraded)
    ensures Replication.Paired(a, b) && Sound(a1) && Sound(b1) ==> Replication.Paired(a1, b1)
  {
    assert forall id :: id in b1.prepared && Replication.PreparedOk(a, b, id) ==> Replication.PreparedOk(a1, b1, id);
    assert forall id, g :: Replication.PolicyRow(b1, id, g) <==> Replication.PolicyRow(b, id, g);
  }

  // A row of an operation the active does not have may come and go.
  lemma StrayFits(a: Database, b: Database, b1: Database, id: string)
    requires Fits(a, b) && Sound(b1) && id !in a.operations
    requires b1 == b.(replay := b1.replay, prepared := b1.prepared)
    requires b1.prepared - {id} == b.prepared - {id}
    requires id in b1.prepared ==> b1.prepared[id].epoch == b.epoch
    ensures Fits(a, b1)
  {
    StrayKept(a, b, b1, id);
    SameKept(a, b, b1);
  }

  lemma StrayKept(a: Database, b: Database, b1: Database, id: string)
    requires id !in a.operations && b1.prepared - {id} == b.prepared - {id}
    ensures Kept(a, b1).prepared == Kept(a, b).prepared
    ensures forall x :: x in b1.prepared && x != id ==> x in b.prepared && b1.prepared[x] == b.prepared[x]
  {
    RowsBut(b.prepared, b1.prepared, id);
  }

  lemma SameKept(a: Database, b: Database, b1: Database)
    requires b1 == b.(replay := b1.replay, prepared := b1.prepared)
    requires Kept(a, b1).prepared == Kept(a, b).prepared
    requires forall x :: x in b1.prepared ==> b1.prepared[x].epoch == b.epoch
    ensures Fits(a, b) && Sound(b1) ==> Fits(a, b1)
  {
    var k, k1 := Kept(a, b), Kept(a, b1);
    SideTablesPaired(a, k, a, k1);
    SoundKept(a, b1);
    assert EntriesFit(a, b) ==> EntriesFit(a, b1) by {
      forall x | x in b1.prepared && x in a.operations ensures x in b.prepared && b.prepared[x] == b1.prepared[x] {
        assert k1.prepared[x] == k.prepared[x];
      }
    }
  }

  lemma SoundKept(a: Database, b: Database)
    ensures Sound(Kept(a, b)) <==> Sound(b)
  {
  }

  lemma RowsBut(p: map<string, PreparedRow>, q: map<string, PreparedRow>, id: string)
    requires p - {id} == q - {id}
    ensures forall x :: x != id ==> (x in p <==> x in q) && (x in p ==> p[x] == q[x])
  {
    forall x | x != id ensures (x in p <==> x in q) && (x in p ==> p[x] == q[x]) {
      assert x in p <==> x in p - {id};
      assert x in p ==> (p - {id})[x] == p[x];
    }
  }

  // The active's operations are at the standby, applied or still to be applied.
  lemma Held(a: Database, b: Database, id: string)
    requires Fits(a, b)
    ensures id in a.operations && id !in b.operations ==>
              id in b.prepared && b.prepared[id].fingerprint == a.operations[id].fingerprint
    ensures id in b.operations ==>
              id in a.operations && b.operations[id].fingerprint == a.operations[id].fingerprint
              && b.operations[id].state == Committed && !(id in b.prepared && id in a.operations)
  {
    var k := Kept(a, b);
    assert id in k.prepared ==> Replication.PreparedOk(a, k, id);
  }

  /** A local commit whose row the standby holds with the same effect. */
  lemma LocalCommitFits(a: Database, b: Database, m: Message, o: Outer)
    requires Fits(a, b) && Proposed(a, m) && LocalCommit(a, m, o).Some? && ValidInput(m, o)
    requires m.operationId in b.prepared && Replication.HeldFor(b.prepared[m.operationId], m)
    requires b.prepared[m.operationId].fingerprint == m.original.fingerprint
    ensures Fits(LocalCommit(a, m, o).value, b)
  {
    var a1 := LocalCommit(a, m, o).value;
    LocalCommitKeeps(a, m, o);
    Replication.LocalCommitWrites(a, m, o);
    LocalCommitJournaled(a, m, o);
    Held(a, b, m.operationId);
    LocallyCommittedFits(a, b, a1, m);
  }

  lemma LocallyCommittedFits(a: Database, b: Database, a1: Database, m: Message)
    requires m.operationId !in a.operations && m.operationId !in b.operations && m.operationId in b.prepared
    requires var row := b.prepared[m.operationId];
             Replication.HeldFor(row, m) && row.fingerprint == m.original.fingerprint
    requires a1.operations == a.operations[m.operationId := OperationRow(m.source, m.epoch, m.generation, m.original.fingerprint, Pending)]
    requires a1.policies == if m.kind == Policy then a.policies[m.generation := m.original] else a.policies
    requires a1.generation == m.generation && a1.role == a.role && a1.epoch == a.epoch
    requires a1.journal == a.journal + [Entry(m.operationId, m.kind, m.payload, m.epoch, m.generation)]
    requires Replication.Applicable(m.kind, m.payload) && (m.kind == Policy ==> m.generation !in a.policies)
    ensures Fits(a, b) && Sound(a1) && Proposed(a, m) ==> Fits(a1, b)
  {
    WithKept(a.operations, a1.operations, b.prepared, m.operationId);
    LocalCommitPaired(a, Kept(a, b), a1, Kept(a1, b), m, b.prepared[m.operationId]);
    NewEntryFits(a, b, a1, m);
  }

  lemma WithKept(operations: map<string, OperationRow>, more: map<string, OperationRow>,
                 rows: map<string, PreparedRow>, id: string)
    requires id in rows && more.Keys == operations.Keys + {id}
    ensures (map x | x in rows && x in more :: rows[x]) == (map x | x in rows && x in operations :: rows[x])[id := rows[id]]
  {
    assert forall x :: x in more <==> x in operations || x == id;
  }

  lemma LocalCommitJournaled(a: Database, m: Message, o: Outer)
    requires LocalCommit(a, m, o).Some?
    ensures LocalCommit(a, m, o).value.journal
            == a.journal + [Entry(m.operationId, m.kind, m.payload, m.epoch, m.generation)]
  {
  }

  lemma NewEntryFits(a: Database, b: Database, a1: Database, m: Message)
    requires m.operationId in b.prepared && Replication.HeldFor(b.prepared[m.operationId], m)
    requires a1.journal == a.journal + [Entry(m.operationId, m.kind, m.payload, m.epoch, m.generation)]
    requires a1.operations.Keys == a.operations.Keys + {m.operationId}
    ensures EntriesFit(a, b) ==> EntriesFit(a1, b)
  {
    assert a1.journal[|a.journal|] == EntryOf(m.operationId, b.prepared[m.operationId]);
    assert forall e :: e in a.journal ==> e in a1.journal;
  }

  lemma LocalCommitPaired(a: Database, k: Database, a1: Database, k1: Database, m: Message, row: PreparedRow)
    requires m.operationId !in a.operations && m.operationId !in k.operations && m.operationId !in k.prepared
    requires k1 == k.(prepared := k.prepared[m.operationId := row])
    requires Replication.HeldFor(row, m) && row.fingerprint == m.original.fingerprint
    requires Replication.Applicable(m.kind, m.payload)
    requires a1.operations == a.operations[m.operationId := OperationRow(m.source, m.epoch, m.generation, m.original.fingerprint, Pending)]
    requires m.kind == Policy ==> m.generation !in a.policies
    requires a1.policies == if m.kind == Policy then a.policies[m.generation := m.original] else a.policies
    requires a1.generation == m.generation && a1.role == a.role && a1.epoch == a.epoch
    ensures Replication.Paired(a, k) && Sound(a1) && Proposed(a, m) ==> Replication.Paired(a1, k1)
  {
    if Replication.Paired(a, k) && Proposed(a, m) {
      Replication.PendingOperations(a, k, a1, k1, m, row);
      Replication.PendingPolicies(a, k, a1, k1, m, row);
    }
  }

  /** The standby's commit of an operation the active has. */
  lemma CommitFits(a: Database, b: Database, id: string)
    requires Fits(a, b) && id in a.operations
    ensures var (b1, reply) := Commit(b, id); Fits(a, b1) && reply == Yes && id in b1.operations
  {
    var k := Kept(a, b);
    var b1 := Commit(b, id).0;
    SoundKept(a, b);
    CommitKeeps(b, id);
    Held(a, b, id);
    Replication.CommitPaired(a, k, id);
    CommitKept(a, b, id);
    CommitEntries(a, b, id);
  }

  lemma CommitKept(a: Database, b: Database, id: string)
    requires id in a.operations
    ensures Commit(Kept(a, b), id) == (Kept(a, Commit(b, id).0), Commit(b, id).1)
  {
    var kept := Kept(a, b).prepared;
    CommitOtherRows(b, kept, id);
    CommitRows(b, id);
    WithoutKept(a.operations, b.prepared, kept, id);
  }

  lemma ApplyOtherRows(d: Database, rows: map<string, PreparedRow>, id: string, p: PreparedRow)
    ensures var mine := Apply(d, id, p.kind, p.payload, p.original, p.epoch, p.generation);
            var theirs := Apply(d.(prepared := rows), id, p.kind, p.payload, p.original, p.epoch, p.generation);
            if mine.Applied? then theirs == Applied(mine.db.(prepared := rows)) && mine.db.prepared == d.prepared
            else theirs == mine
  {
  }

  // The rows of other operations do not matter to a commit.
  lemma CommitOtherRows(b: Database, rows: map<string, PreparedRow>, id: string)
    requires id in rows <==> id in b.prepared
    requires id in rows ==> rows[id] == b.prepared[id]
    ensures var (b1, reply) := Commit(b, id);
            Commit(b.(prepared := rows), id)
            == (b1.(prepared := if id !in b.operations && reply == Yes then rows - {id} else rows), reply)
  {
    if id in b.prepared {
      var p := b.prepared[id];
      ApplyOtherRows(b, rows, id, p);
      ApplyOtherRows(b.(role := Follower, epoch := p.epoch), rows, id, p);
    }
  }

  lemma WithoutKept(operations: map<string, OperationRow>, rows: map<string, PreparedRow>,
                    kept: map<string, PreparedRow>, id: string)
    requires kept == map x | x in rows && x in operations :: rows[x]
    ensures kept - {id} == map x | x in rows - {id} && x in operations :: (rows - {id})[x]
  {
  }

  lemma CommitEntries(a: Database, b: Database, id: string)
    requires EntriesFit(a, b) && id in a.operations
    ensures EntriesFit(a, Commit(b, id).0)
    ensures Commit(b, id).1 == Yes && (forall x :: x in b.prepared ==> b.prepared[x].epoch == b.epoch)
        ==> var b1 := Commit(b, id).0; forall x :: x in b1.prepared ==> b1.prepared[x].epoch == b1.epoch
  {
    if id !in b.operations && Commit(b, id).1 == Yes {
      CommitWrites(b, id);
    }
  }

  lemma MarkFits(a: Database, b: Database, id: string)
    requires Fits(a, b) && id in b.operations
    ensures Fits(MarkReplicated(a, id), b)
  {
    var a1 := MarkReplicated(a, id);
    Held(a, b, id);
    Replication.MarkPaired(a, Kept(a, b), id);
    assert Kept(a1, b).prepared == Kept(a, b).prepared;
  }

  // A prepare of an operation the active has finds it held and changes nothing.
  lemma PrepareHeld(a: Database, b: Database, row: OutboxRow, authentic: bool)
    requires Fits(a, b) && Replication.Known(a, row)
    ensures Prepare(b, row.message, row.envelope, authentic) == (b, authentic)
  {
    Held(a, b, row.operationId);
  }

  // ---- the active's steps --------------------------------------------------------------------

  ghost predicate Midway(p: Pair) {
    Fits(p.me.db, p.peer.db) && JobFits(p.me.db, p.me.job)
  }

  /** The one step that spoils an epoch: the active commits an operation for which the
      standby holds a row with the same fingerprint but another kind, payload,
      generation or policy. */
  predicate Misfiled(p: Pair, e: Event) {
    && e.CommitLocally? && p.me.job.PeerPrepared?
    && LocalCommit(p.me.db, p.me.job.message, p.me.job.outer).Some?
    && var m := p.me.job.message;
       m.operationId in p.peer.db.prepared && !Replication.HeldFor(p.peer.db.prepared[m.operationId], m)
  }

  lemma BeginMidway(p: Pair, req: Request)
    requires Midway(p) && BothSound(p)
    ensures Midway(OnBegin(p, req))
  {
    if Reserve(p.me.db, p.me.name, req).Reserved? { ReserveKeeps(p.me.db, p.me.name, req); }
    SideTablesFit(p.me.db, p.peer.db, OnBegin(p, req).me.db, p.peer.db);
  }

  lemma SignMidway(p: Pair, signer: Option<string>, nonce: string)
    requires Midway(p) && BothSound(p)
    ensures Midway(OnSign(p, signer, nonce))
  {
    SideTablesKeep(p.me.db, OnSign(p, signer, nonce).me.db);
    SideTablesFit(p.me.db, p.peer.db, OnSign(p, signer, nonce).me.db, p.peer.db);
  }

  lemma PrepareRows(b: Database, m: Message, o: Outer, authentic: bool)
    ensures var b1 := Prepare(b, m, o, authentic).0;
            && b1 == b.(replay := b1.replay, prepared := b1.prepared)
            && b1.prepared - {m.operationId} == b.prepared - {m.operationId}
            && (m.operationId in b1.prepared ==>
                  b1.prepared[m.operationId].epoch == m.epoch || b1.prepared == b.prepared)
  {
  }

  lemma CallPrepareMidway(p: Pair, fate: Fate, authentic: bool)
    requires Midway(p) && BothSound(p)
    ensures Midway(OnCallPrepare(p, fate, authentic))
  {
    if p.me.job.HasSigned? && Runs(fate, p.peer) {
      var m, o := p.me.job.message, p.me.job.outer;
      PrepareKeeps(p.peer.db, m, o, authentic);
      PrepareRows(p.peer.db, m, o, authentic);
      StrayFits(p.me.db, p.peer.db, Prepare(p.peer.db, m, o, authentic).0, m.operationId);
    }
  }

  lemma CommitLocallyMidway(p: Pair)
    requires Midway(p) && JobOk(p.me, p.peer) && !Misfiled(p, CommitLocally)
    ensures Midway(OnCommitLocally(p))
  {
    if p.me.job.PeerPrepared? && LocalCommit(p.me.db, p.me.job.message, p.me.job.outer).Some? {
      Held(p.me.db, p.peer.db, p.me.job.message.operationId);
      LocalCommitFits(p.me.db, p.peer.db, p.me.job.message, p.me.job.outer);
    }
  }

  lemma CommitAtFits(a: Database, peer: Side, id: string, fate: Fate)
    requires Fits(a, peer.db) && id in a.operations
    ensures Fits(a, CommitAt(peer, id, fate).0.db)
  {
    if Runs(fate, peer) {
      CommitFits(a, peer.db, id);
    }
  }

  lemma CallCommitMidway(p: Pair, fate: Fate)
    requires Midway(p) && JobOk(p.me, p.peer)
    ensures Midway(OnCallCommit(p, fate))
  {
    if p.me.job.CommittedHere? {
      CommitAtFits(p.me.db, p.peer, p.me.job.message.operationId, fate);
    }
  }

  lemma MarkMidway(p: Pair)
    requires Midway(p) && JobOk(p.me, p.peer)
    ensures Midway(OnMark(p))
  {
    if p.me.job.CommittedThere? {
      MarkFits(p.me.db, p.peer.db, p.me.job.message.operationId);
    }
  }

  lemma CallAbortMidway(p: Pair, fate: Fate)
    requires Midway(p) && BothSound(p)
    ensures Midway(OnCallAbort(p, fate))
  {
    if p.me.job.Abandoned? && Runs(fate, p.peer) {
      var id := p.me.job.message.operationId;
      AbortKeeps(p.peer.db, id);
      StrayFits(p.me.db, p.peer.db, Abort(p.peer.db, id), id);
    }
  }

  lemma UnreserveMidway(p: Pair)
    requires Midway(p) && BothSound(p)
    ensures Midway(OnUnreserve(p))
  {
    if p.me.job.Unreserving? { RemoveReplayKeeps(p.me.db, p.me.job.message.original); }
    SideTablesFit(p.me.db, p.peer.db, OnUnreserve(p).me.db, p.peer.db);
  }

  lemma StartRecoveryMidway(p: Pair)
    requires Midway(p) && BothSound(p)
    ensures Midway(OnStartRecovery(p))
  {
    Replication.OutboxKnown(p.me.db);
  }

  lemma RecoverPrepareMidway(p: Pair, fate: Fate, authentic: bool)
    requires Midway(p)
    ensures Midway(OnRecoverPrepare(p, fate, authentic))
  {
    if p.me.job.Recovering? && p.me.job.rows != [] {
      PrepareHeld(p.me.db, p.peer.db, p.me.job.rows[0], authentic);
    }
  }

  lemma RecoverCommitMidway(p: Pair, fate: Fate)
    requires Midway(p)
    ensures Midway(OnRecoverCommit(p, fate))
  {
    if p.me.job.RecoverPrepared? && p.me.job.rows != [] {
      assert Replication.Known(p.me.db, p.me.job.rows[0]);
      CommitAtFits(p.me.db, p.peer, p.me.job.rows[0].message.operationId, fate);
      RecoverCommitEnds(p, fate);
    }
  }

  lemma RecoverCommitEnds(p: Pair, fate: Fate)
    requires p.me.job.RecoverPrepared? && p.me.job.rows != []
    ensures var q, rows := OnRecoverCommit(p, fate), p.me.job.rows;
            && q.me.db == p.me.db && q.peer == CommitAt(p.peer, rows[0].message.operationId, fate).0
            && (q.me.job == Idle || q.me.job == RecoverCommitted(rows) || q.me.job == Recovering(rows[1..]))
  {
  }

  lemma RecoverMarkMidway(p: Pair)
    requires Midway(p) && JobOk(p.me, p.peer)
    ensures Midway(OnRecoverMark(p))
  {
    if p.me.job.RecoverCommitted? {
      var rows := p.me.job.rows;
      assert Replication.Known(p.me.db, rows[0]);
      MarkFits(p.me.db, p.peer.db, rows[0].message.operationId);
      MarkKnown(p.me.db, rows, rows[0].message.operationId);
    }
  }

  lemma MarkKnown(a: Database, rows: seq<OutboxRow>, id: string)
    requires forall r :: r in rows ==> Replication.Known(a, r)
    ensures forall r :: r in rows ==> Replication.Known(MarkReplicated(a, id), r)
  {
    forall r | r in rows ensures Replication.Known(MarkReplicated(a, id), r) {
      assert Replication.Known(a, r);
    }
  }

  lemma IdleMidway(p: Pair, e: Event)
    requires Midway(p) && BothSound(p) && (e.Crash? || e.SetLag?)
    ensures Midway(Step(p, e))
  {
    SideTablesKeep(p.me.db, Step(p, e).me.db);
    SideTablesFit(p.me.db, p.peer.db, Step(p, e).me.db, p.peer.db);
  }

  lemma StepMidway(p: Pair, e: Event)
    requires Midway(p) && Safe(p) && KeepsEpoch(e) && !Misfiled(p, e)
    ensures Midway(Step(p, e))
  {
    match e {
      case Begin(req) => BeginMidway(p, req);
      case Sign(signer, nonce) => SignMidway(p, signer, nonce);
      case CallPrepare(fate, authentic) => CallPrepareMidway(p, fate, authentic);
      case CommitLocally => CommitLocallyMidway(p);
      case CallCommit(fate) => CallCommitMidway(p, fate);
      case Mark => MarkMidway(p);
      case CallAbort(fate) => CallAbortMidway(p, fate);
      case Unreserve => UnreserveMidway(p);
      case StartRecovery => StartRecoveryMidway(p);
      case RecoverPrepare(fate, authentic) => RecoverPrepareMidway(p, fate, authentic);
      case RecoverCommit(fate) => RecoverCommitMidway(p, fate);
      case RecoverMark => RecoverMarkMidway(p);
      case _ => IdleMidway(p, e);
    }
  }

  // ---- the standby's own steps, and every run --------------------------------------------------

  // A standby has no outbox, so of its own accord it only starts empty recoveries.
  lemma StandbySteps(p: Pair, e: Event)
    requires p.me.db.role != Active && p.me.db.outbox == [] && Quiet(p.me) && KeepsEpoch(e)
    ensures var q := Step(p, e);
            && q.peer == p.peer && q.acked == p.acked && Quiet(q.me)
            && q.me.db == p.me.db.(lagDegraded := q.me.db.lagDegraded)
  {
  }

  lemma NoOutbox(a: Database, b: Database)
    requires Fits(a, b)
    ensures b.outbox == [] && b.role != Active
  {
    if b.outbox != [] {
      assert b.outbox[0].operationId in OutboxIds(b.outbox);
      assert IsPending(b.operations, b.outbox[0].operationId);
      Held(a, b, b.outbox[0].operationId);
    }
  }

  /** A standby of this epoch is quiet whatever it does itself, and the active's
      steps leave its job alone. */
  lemma StepInEpoch(p: Pair, move: Move)
    requires InEpoch(p) && KeepsEpoch(move.event) && !(move.byMe && Misfiled(p, move.event))
    ensures InEpoch(StepBy(p, move))
  {
    if move.byMe {
      StepSafe(p, move.event);
      StepMidway(p, move.event);
      PeerJobKept(p, move.event);
    } else {
      StepSafe(p.Swapped(), move.event);
      NoOutbox(p.me.db, p.peer.db);
      StandbySteps(p.Swapped(), move.event);
      SideTablesFit(p.me.db, p.peer.db, p.me.db, StepBy(p, move).peer.db);
    }
  }

  lemma PeerJobKept(p: Pair, e: Event)
    ensures Step(p, e).peer.job == p.peer.job
  {
  }

  predicate OneEpoch(moves: seq<Move>) {
    forall i :: 0 <= i < |moves| ==> KeepsEpoch(moves[i].event)
  }

  ghost predicate NeverMisfiled(p: Pair, moves: seq<Move>)
    decreases |moves|
  {
    moves != [] ==> !(moves[0].byMe && Misfiled(p, moves[0].event)) && NeverMisfiled(StepBy(p, moves[0]), moves[1..])
  }

  lemma {:induction false} RunInEpoch(p: Pair, moves: seq<Move>)
    requires InEpoch(p) && OneEpoch(moves) && NeverMisfiled(p, moves)
    ensures InEpoch(Run(p, moves))
    decreases |moves|
  {
    if moves != [] {
      StepInEpoch(p, moves[0]);
      RunInEpoch(StepBy(p, moves[0]), moves[1..]);
    }
  }

  lemma InitialInEpoch(p: Pair)
    requires Initial(p)
    ensures InEpoch(p)
  {
    InitialSafe(p);
    Replication.FreshPaired(p.peer.db.role, p.peer.db.epoch);
    assert Kept(p.me.db, p.peer.db) == p.peer.db;
  }

  // ---- recovery -----------------------------------------------------------------------------------

  lemma RecoverRowFits(a: Database, b: Database, row: OutboxRow)
    requires Fits(a, b) && Replication.Known(a, row)
    ensures var (a1, b1, more) := Replication.RecoverRow(a, b, row, Replication.REACHABLE);
            more && a1 == MarkReplicated(a, row.operationId) && b1 == Commit(b, row.operationId).0 && Fits(a1, b1)
  {
    var id := row.operationId;
    var b1 := Commit(b, id).0;
    PrepareHeld(a, b, row, true);
    CommitFits(a, b, id);
    MarkFits(a, b1, id);
    RecoverHeldRow(a, b, row, b1);
  }

  lemma RecoverHeldRow(a: Database, b: Database, row: OutboxRow, b1: Database)
    requires Prepare(b, row.message, row.envelope, true) == (b, true)
    requires Commit(b, row.message.operationId) == (b1, Yes)
    ensures Replication.RecoverRow(a, b, row, Replication.REACHABLE)
            == (MarkReplicated(a, row.message.operationId), b1, true)
  {
  }

  function MarkAll(a: Database, rows: seq<OutboxRow>): Database
    decreases |rows|
  {
    if rows == [] then a else MarkAll(MarkReplicated(a, rows[0].operationId), rows[1..])
  }

  // Rows still to be recovered, all of whose calls will be answered.
  predicate Recoverable(a: Database, rows: seq<OutboxRow>, nets: seq<Replication.Net>) {
    && |nets| == |rows|
    && (forall r :: r in rows ==> Replication.Known(a, r))
    && (forall i :: 0 <= i < |nets| ==> nets[i] == Replication.REACHABLE)
  }

  lemma RestRecoverable(a: Database, rows: seq<OutboxRow>, nets: seq<Replication.Net>, id: string)
    requires Recoverable(a, rows, nets) && rows != []
    ensures Recoverable(MarkReplicated(a, id), rows[1..], nets[1..])
  {
    MarkKnown(a, rows, id);
  }

  lemma {:induction false} RecoverFits(a: Database, b: Database, rows: seq<OutboxRow>, nets: seq<Replication.Net>)
    requires Fits(a, b) && Recoverable(a, rows, nets)
    ensures var (a', b') := Replication.RecoverRows(a, b, rows, nets); Fits(a', b') && a' == MarkAll(a, rows)
    decreases |rows|
  {
    if rows != [] {
      RecoverFirst(a, b, rows, nets);
      RestRecoverable(a, rows, nets, rows[0].operationId);
      RecoverFits(MarkReplicated(a, rows[0].operationId), Commit(b, rows[0].operationId).0, rows[1..], nets[1..]);
    }
  }

  lemma {:induction false} RecoverFirst(a: Database, b: Database, rows: seq<OutboxRow>, nets: seq<Replication.Net>)
    requires |nets| == |rows| > 0 && nets[0] == Replication.REACHABLE
    requires Fits(a, b) && Replication.Known(a, rows[0])
    ensures var a1, b1 := MarkReplicated(a, rows[0].operationId), Commit(b, rows[0].operationId).0;
            Fits(a1, b1)
            && Replication.RecoverRows(a, b, rows, nets) == Replication.RecoverRows(a1, b1, rows[1..], nets[1..])
  {
    RecoverRowFits(a, b, rows[0]);
  }

  lemma {:induction false} MarkAllClears(a: Database, rows: seq<OutboxRow>)
    ensures forall r :: r in MarkAll(a, rows).outbox ==> r in a.outbox
    ensures forall i :: 0 <= i < |rows| ==> rows[i].operationId !in OutboxIds(MarkAll(a, rows).outbox)
    decreases |rows|
  {
    if rows != [] {
      MarkAllClears(MarkReplicated(a, rows[0].operationId), rows[1..]);
      assert forall i :: 0 < i < |rows| ==> rows[i] == rows[1..][i - 1];
    }
  }

  /** The same operations, applied with the same payloads at the same epochs and
      generations, the same policies, and nothing left to send. */
  ghost predicate SameContents(a: Database, b: Database) {
    && a.outbox == []
    && a.operations.Keys == b.operations.Keys
    && (forall id :: id in a.operations ==>
          Replication.CommittedIn(a, id, b.operations[id].fingerprint) && b.operations[id].state == Committed)
    && (forall e :: e in a.journal <==> e in b.journal)
    && a.policies == b.policies
  }

  lemma NothingPendingSame(a: Database, b: Database)
    requires Fits(a, b) && a.outbox == []
    ensures SameContents(a, b)
  {
    SoundKept(a, b);
    Replication.NothingPendingConverged(a, Kept(a, b));
    SameEntries(a, b);
  }

  lemma SameEntries(a: Database, b: Database)
    requires JournalMatches(a.journal, a.operations) && JournalMatches(b.journal, b.operations)
    requires a.operations.Keys == b.operations.Keys && forall e :: e in b.journal ==> e in a.journal
    ensures forall e :: e in a.journal <==> e in b.journal
  {
    forall e | e in a.journal ensures e in b.journal {
      assert e.operationId in EntryIds(a.journal);
      assert EntryIds(b.journal) == EntryIds(a.journal);
      var f :| f in b.journal && f.operationId == e.operationId;
      assert f in a.journal;
      var i :| 0 <= i < |a.journal| && a.journal[i] == e;
      var j :| 0 <= j < |a.journal| && a.journal[j] == f;
      assert i == j;
    }
  }

  // ---- after a misfiled commit ----------------------------------------------------------------------

  function EntryFrom(m: Message): Entry {
    Entry(m.operationId, m.kind, m.payload, m.epoch, m.generation)
  }

  /** The standby holds or has applied something else for the operation of `m`. */
  ghost predicate Apart(b: Database, m: Message) {
    if m.operationId in b.operations then
      || EntryFrom(m) !in b.journal
      || (m.kind == Policy && m.generation in b.policies && b.policies[m.generation] != m.original)
    else
      m.operationId in b.prepared && !Replication.HeldFor(b.prepared[m.operationId], m)
  }

  ghost predicate HasApplied(a: Database, m: Message) {
    && m.operationId in a.operations && EntryFrom(m) in a.journal
    && (m.kind == Policy ==> m.generation in a.policies && a.policies[m.generation] == m.original)
  }

  predicate JobApart(a: Database, job: Job) {
    (job.Holding? || job.HasSigned? || job.PeerPrepared? || job.Abandoned?) ==> job.message.operationId !in a.operations
  }

  ghost predicate Spoiled(p: Pair, m: Message) {
    && Safe(p) && HasApplied(p.me.db, m) && Apart(p.peer.db, m) && JobApart(p.me.db, p.me.job)
    && p.peer.db.role != Active && p.peer.db.outbox == [] && Quiet(p.peer)
  }

  lemma PrepareApart(b: Database, m: Message, message: Message, o: Outer, authentic: bool)
    requires Apart(b, m)
    ensures Apart(Prepare(b, message, o, authentic).0, m)
  {
  }

  lemma AbortApart(b: Database, m: Message, id: string)
    requires Apart(b, m) && id != m.operationId
    ensures Apart(Abort(b, id), m)
  {
  }

  lemma CommitApart(b: Database, m: Message, id: string)
    requires Apart(b, m) && Sound(b)
    ensures Apart(Commit(b, id).0, m)
  {
    if id !in b.operations && Commit(b, id).1 == Yes {
      var b1 := Commit(b, id).0;
      CommitWrites(b, id);
      CommitPolicies(b, id);
      CommitRows(b, id);
      assert EntryFrom(m) in b.journal ==> EntryFrom(m).operationId in EntryIds(b.journal);
      CommittedApart(b, b1, m, id);
    }
  }

  lemma CommittedApart(b: Database, b1: Database, m: Message, id: string)
    requires Apart(b, m) && id !in b.operations && id in b.prepared
    requires m.operationId !in b.operations ==> EntryFrom(m) !in b.journal
    requires b1.prepared == b.prepared - {id} && b1.operations == b.operations[id := CommittedRow(b.prepared[id])]
    requires var p := b.prepared[id];
             && b1.journal == b.journal + [EntryOf(id, p)]
             && (p.kind == Policy ==> p.generation !in b.policies)
             && b1.policies == if p.kind == Policy then b.policies[p.generation := p.original] else b.policies
    ensures Apart(b1, m)
  {
  }

  lemma ProgressHasApplied(a: Database, a1: Database, m: Message)
    requires HasApplied(a, m) && Progresses(a, a1)
    ensures HasApplied(a1, m)
  {
  }

  lemma JobApartKept(p: Pair, e: Event)
    requires JobApart(p.me.db, p.me.job)
    ensures JobApart(Step(p, e).me.db, Step(p, e).me.job)
  {
  }

  lemma StepApart(p: Pair, e: Event, m: Message)
    requires Spoiled(p, m) && KeepsEpoch(e)
    ensures Apart(Step(p, e).peer.db, m)
  {
    var me, b := p.me, p.peer.db;
    match e {
      case CallPrepare(_, authentic) =>
        if me.job.HasSigned? { PrepareApart(b, m, me.job.message, me.job.outer, authentic); }
      case RecoverPrepare(_, authentic) =>
        if me.job.Recovering? && me.job.rows != [] {
          PrepareApart(b, m, me.job.rows[0].message, me.job.rows[0].envelope, authentic);
        }
      case CallCommit(_) => if me.job.CommittedHere? { CommitApart(b, m, me.job.message.operationId); }
      case RecoverCommit(_) =>
        if me.job.RecoverPrepared? && me.job.rows != [] { CommitApart(b, m, me.job.rows[0].message.operationId); }
      case CallAbort(_) => if me.job.Abandoned? { AbortApart(b, m, me.job.message.operationId); }
      case _ =>
    }
  }

  lemma StandbyStays(p: Pair, e: Event)
    requires KeepsEpoch(e) && p.peer.db.role != Active && p.peer.db.outbox == []
    ensures Step(p, e).peer.db.role != Active && Step(p, e).peer.db.outbox == []
  {
    var me, b := p.me, p.peer.db;
    match e {
      case CallPrepare(_, authentic) =>
        if me.job.HasSigned? { PrepareRows(b, me.job.message, me.job.outer, authentic); }
      case RecoverPrepare(_, authentic) =>
        if me.job.Recovering? && me.job.rows != [] {
          PrepareRows(b, me.job.rows[0].message, me.job.rows[0].envelope, authentic);
        }
      case CallCommit(_) => if me.job.CommittedHere? { CommitStandby(b, me.job.message.operationId); }
      case RecoverCommit(_) =>
        if me.job.RecoverPrepared? && me.job.rows != [] { CommitStandby(b, me.job.rows[0].message.operationId); }
      case _ =>
    }
  }

  lemma CommitStandby(b: Database, id: string)
    ensures b.role != Active ==> Commit(b, id).0.role != Active
    ensures Commit(b, id).0.outbox == b.outbox
  {
  }

  lemma StepSpoiled(p: Pair, move: Move, m: Message)
    requires Spoiled(p, m) && KeepsEpoch(move.event)
    ensures Spoiled(StepBy(p, move), m)
  {
    if move.byMe {
      StepSafe(p, move.event);
      ProgressHasApplied(p.me.db, Step(p, move.event).me.db, m);
      StepApart(p, move.event, m);
      JobApartKept(p, move.event);
      StandbyStays(p, move.event);
      PeerJobKept(p, move.event);
    } else {
      StepSafe(p.Swapped(), move.event);
      StandbySteps(p.Swapped(), move.event);
    }
  }

  lemma {:induction false} RunSpoiled(p: Pair, moves: seq<Move>, m: Message)
    requires Spoiled(p, m) && OneEpoch(moves)
    ensures Spoiled(Run(p, moves), m)
    decreases |moves|
  {
    if moves != [] {
      StepSpoiled(p, moves[0], m);
      RunSpoiled(StepBy(p, moves[0]), moves[1..], m);
    }
  }

  lemma MisfiledSpoils(p: Pair)
    requires InEpoch(p) && Misfiled(p, CommitLocally)
    ensures Spoiled(OnCommitLocally(p), p.me.job.message)
  {
    var m, o := p.me.job.message, p.me.job.outer;
    StepSafe(p, CommitLocally);
    Replication.LocalCommitWrites(p.me.db, m, o);
    LocalCommitJournaled(p.me.db, m, o);
    Held(p.me.db, p.peer.db, m.operationId);
    NoOutbox(p.me.db, p.peer.db);
    assert EntryFrom(m) == LocalCommit(p.me.db, m, o).value.journal[|p.me.db.journal|];
  }

  ghost predicate SomeSpoiled(p: Pair) {
    exists m :: Spoiled(p, m)
  }

  lemma {:induction false} EverSpoiled(p: Pair, moves: seq<Move>)
    requires InEpoch(p) && OneEpoch(moves) && !NeverMisfiled(p, moves)
    ensures SomeSpoiled(Run(p, moves))
    decreases |moves|
  {
    if moves[0].byMe && Misfiled(p, moves[0].event) {
      MisfiledSpoils(p);
      RunSpoiled(StepBy(p, moves[0]), moves[1..], p.me.job.message);
    } else {
      StepInEpoch(p, moves[0]);
      EverSpoiled(StepBy(p, moves[0]), moves[1..]);
    }
  }

  lemma RecoverRowSpoiled(a: Database, b: Database, row: OutboxRow, net: Replication.Net, m: Message)
    requires Sound(a) && Sound(b) && HasApplied(a, m) && Apart(b, m)
    ensures var (a1, b1, _) := Replication.RecoverRow(a, b, row, net);
            Sound(a1) && Sound(b1) && HasApplied(a1, m) && Apart(b1, m)
  {
    var id := row.message.operationId;
    var b0 := Prepare(b, row.message, row.envelope, net.authentic).0;
    PrepareKeeps(b, row.message, row.envelope, net.authentic);
    PrepareApart(b, m, row.message, row.envelope, net.authentic);
    CommitKeeps(b0, id);
    CommitApart(b0, m, id);
    MarkReplicatedKeeps(a, id);
    ProgressHasApplied(a, MarkReplicated(a, id), m);
    RecoverRowEnds(a, b, row, net);
  }

  lemma RecoverRowEnds(a: Database, b: Database, row: OutboxRow, net: Replication.Net)
    ensures var (a1, b1, _) := Replication.RecoverRow(a, b, row, net);
            var id := row.message.operationId;
            var b0 := Prepare(b, row.message, row.envelope, net.authentic).0;
            (a1 == a || a1 == MarkReplicated(a, id)) && (b1 == b || b1 == b0 || b1 == Commit(b0, id).0)
  {
  }

  lemma {:induction false} RecoverSpoiled(a: Database, b: Database, rows: seq<OutboxRow>,
                                          nets: seq<Replication.Net>, m: Message)
    requires Sound(a) && Sound(b) && HasApplied(a, m) && Apart(b, m) && |nets| == |rows|
    ensures var (a', b') := Replication.RecoverRows(a, b, rows, nets); !SameContents(a', b')
    decreases |rows|
  {
    if rows == [] {
      assert EntryFrom(m) in b.journal ==> EntryFrom(m).operationId in EntryIds(b.journal);
    } else {
      RecoverRowSpoiled(a, b, rows[0], nets[0], m);
      var (a1, b1, _) := Replication.RecoverRow(a, b, rows[0], nets[0]);
      RecoverSpoiled(a1, b1, rows[1..], nets[1..], m);
      RecoverSpoiled(a1, b1, [], [], m);
    }
  }

  // ---- the main theorem ---------------------------------------------------------------------------------

  ghost function Recovered(p: Pair): (Database, Database) {
    Replication.Do(p.me.db, p.peer.db, p.me.name, Replication.RecoverCall(_ => Replication.REACHABLE))
  }

  /** After any run of one epoch, however calls and aborts were lost and whenever either
      side crashed, recovery against an answering standby makes the two controllers
      hold the same, exactly if no commit of the run was misfiled. */
  lemma ConvergesExactly(p: Pair, moves: seq<Move>)
    requires Initial(p) && OneEpoch(moves)
    ensures var (a, b) := Recovered(Run(p, moves)); SameContents(a, b) <==> NeverMisfiled(p, moves)
  {
    var q := Run(p, moves);
    var a := q.me.db;
    var nets := seq(|a.outbox|, i => Replication.REACHABLE);
    RecoveredRows(q, nets);
    InitialInEpoch(p);
    if NeverMisfiled(p, moves) {
      RunInEpoch(p, moves);
      Replication.OutboxKnown(a);
      RecoverFits(a, q.peer.db, a.outbox, nets);
      MarkAllClears(a, a.outbox);
      var (a', b') := Recovered(q);
      Replication.NoneLeft(a.outbox, a'.outbox);
      NothingPendingSame(a', b');
    } else {
      EverSpoiled(p, moves);
      var m :| Spoiled(q, m);
      RecoverSpoiled(a, q.peer.db, a.outbox, nets, m);
    }
  }

  lemma RecoveredRows(q: Pair, nets: seq<Replication.Net>)
    requires nets == seq(|q.me.db.outbox|, i => Replication.REACHABLE)
    ensures Recovered(q) == Replication.RecoverRows(q.me.db, q.peer.db, q.me.db.outbox, nets)
  {
    var call := Replication.RecoverCall(_ => Replication.REACHABLE);
    assert seq(|q.me.db.outbox|, i => call.fates(i)) == nets;
  }

  // ---- crashes alone never misfile a commit ---------------------------------------------------------------

  /** An abort that does not reach a standby holding the row. */
  predicate AbortLost(p: Pair, e: Event) {
    && e.CallAbort? && p.me.job.Abandoned? && !Runs(e.fate, p.peer)
    && p.me.job.message.operationId in p.peer.db.prepared
  }

  ghost predicate NoAbortLost(p: Pair, moves: seq<Move>)
    decreases |moves|
  {
    moves != [] ==> !(moves[0].byMe && AbortLost(p, moves[0].event)) && NoAbortLost(StepBy(p, moves[0]), moves[1..])
  }

  /** Fingerprints are digests of whole envelopes, so each determines a nonce. */
  predicate Digests(event: Event, nonceOf: string -> string) {
    event.Begin? ==> nonceOf(event.request.envelope.fingerprint) == event.request.envelope.nonce
  }

  // `mutate` holds the replay slot of its envelope.
  predicate HoldsSlot(job: Job) {
    job.Holding? || job.HasSigned? || job.PeerPrepared? || job.Abandoned? || job.Unreserving?
  }

  predicate JobSpent(a: Database, job: Job, nonceOf: string -> string) {
    HoldsSlot(job) ==>
      var e := job.message.original;
      e.nonce in a.replay.nonces && nonceOf(e.fingerprint) == e.nonce
  }

  /** The nonce of a row that was given up stays spent at the active; only the row of
      the call in progress may have that call's nonce. */
  predicate StraySpent(a: Database, job: Job, id: string, r: PreparedRow, nonceOf: string -> string) {
    && r.original.nonce in a.replay.nonces && nonceOf(r.fingerprint) == r.original.nonce
    && (HoldsSlot(job) && r.original.nonce == job.message.original.nonce ==>
          (job.PeerPrepared? || job.Abandoned?) && id == job.message.operationId && Replication.HeldFor(r, job.message))
  }

  ghost predicate Spent(p: Pair, nonceOf: string -> string) {
    && JobSpent(p.me.db, p.me.job, nonceOf)
    && forall id :: id in p.peer.db.prepared && id !in p.me.db.operations ==>
         StraySpent(p.me.db, p.me.job, id, p.peer.db.prepared[id], nonceOf)
  }

  lemma CallPrepareSpent(p: Pair, fate: Fate, authentic: bool, nonceOf: string -> string)
    requires InEpoch(p) && Spent(p, nonceOf)
    ensures Spent(OnCallPrepare(p, fate, authentic), nonceOf)
  {
    if p.me.job.HasSigned? {
      var m, o := p.me.job.message, p.me.job.outer;
      Held(p.me.db, p.peer.db, m.operationId);
      assert m.operationId in p.peer.db.prepared ==>
          StraySpent(p.me.db, p.me.job, m.operationId, p.peer.db.prepared[m.operationId], nonceOf);
      FreshPrepareRows(p.peer.db, m, o, authentic);
    }
  }

  lemma FreshPrepareRows(b: Database, m: Message, o: Outer, authentic: bool)
    requires m.operationId !in b.operations
    requires m.operationId in b.prepared ==> b.prepared[m.operationId].fingerprint != m.original.fingerprint
    ensures var (b1, ok) := Prepare(b, m, o, authentic);
            b1.prepared == if ok then b.prepared[m.operationId := Replication.PreparedFrom(m, o)] else b.prepared
  {
  }

  lemma CallAbortSpent(p: Pair, fate: Fate, nonceOf: string -> string)
    requires Spent(p, nonceOf) && !AbortLost(p, CallAbort(fate))
    ensures Spent(OnCallAbort(p, fate), nonceOf)
  {
  }

  lemma UnreserveSpent(p: Pair, nonceOf: string -> string)
    requires Spent(p, nonceOf)
    ensures Spent(OnUnreserve(p), nonceOf)
  {
    if p.me.job.Unreserving? {
      var e := p.me.job.message.original;
      assert forall n :: n in p.me.db.replay.nonces && n != e.nonce ==> n in OnUnreserve(p).me.db.replay.nonces;
    }
  }

  lemma CommitAtSpent(p: Pair, id: string, fate: Fate)
    ensures forall x :: x in CommitAt(p.peer, id, fate).0.db.prepared ==>
        x in p.peer.db.prepared && CommitAt(p.peer, id, fate).0.db.prepared[x] == p.peer.db.prepared[x]
  {
    CommitRows(p.peer.db, id);
  }

  lemma BeginSpent(p: Pair, req: Request, nonceOf: string -> string)
    requires Spent(p, nonceOf) && Digests(Begin(req), nonceOf)
    ensures Spent(OnBegin(p, req), nonceOf)
  {
  }

  lemma SignSpent(p: Pair, signer: Option<string>, nonce: string, nonceOf: string -> string)
    requires Spent(p, nonceOf)
    ensures Spent(OnSign(p, signer, nonce), nonceOf)
  {
  }

  lemma CommitLocallySpent(p: Pair, nonceOf: string -> string)
    requires Spent(p, nonceOf)
    ensures Spent(OnCommitLocally(p), nonceOf)
  {
  }

  // No row appears, no nonce is given back and no replay slot is taken.
  ghost predicate Fewer(p: Pair, q: Pair) {
    && (HoldsSlot(q.me.job) ==> q.me.job == p.me.job)
    && q.me.db.replay == p.me.db.replay && q.me.db.operations.Keys == p.me.db.operations.Keys
    && (forall id :: id in q.peer.db.prepared ==>
          id in p.peer.db.prepared && q.peer.db.prepared[id] == p.peer.db.prepared[id])
  }

  lemma FewerSpent(p: Pair, q: Pair, nonceOf: string -> string)
    requires Spent(p, nonceOf) && Fewer(p, q)
    ensures Spent(q, nonceOf)
  {
    forall id | id in q.peer.db.prepared && id !in q.me.db.operations
      ensures StraySpent(q.me.db, q.me.job, id, q.peer.db.prepared[id], nonceOf) {
      assert StraySpent(p.me.db, p.me.job, id, p.peer.db.prepared[id], nonceOf);
    }
  }

  lemma CommitsFewer(p: Pair, e: Event)
    requires e.CallCommit? || e.RecoverCommit?
    ensures Fewer(p, Step(p, e))
  {
    match e {
      case CallCommit(fate) =>
        if p.me.job.CommittedHere? { CommitAtSpent(p, p.me.job.message.operationId, fate); }
      case RecoverCommit(fate) =>
        if p.me.job.RecoverPrepared? && p.me.job.rows != [] {
          CommitAtSpent(p, p.me.job.rows[0].message.operationId, fate);
        }
    }
  }

  lemma RecoverPrepareFewer(p: Pair, fate: Fate, authentic: bool)
    requires Midway(p)
    ensures Fewer(p, OnRecoverPrepare(p, fate, authentic))
  {
    if p.me.job.Recovering? && p.me.job.rows != [] {
      var row := p.me.job.rows[0];
      PrepareHeld(p.me.db, p.peer.db, row, authentic);
      assert PrepareAt(p.peer, row.message, row.envelope, authentic, fate).0 == p.peer;
    }
    RecoverPrepareEnds(p, fate, authentic);
  }

  lemma RecoverPrepareEnds(p: Pair, fate: Fate, authentic: bool)
    ensures var q := OnRecoverPrepare(p, fate, authentic);
            && q.me.db == p.me.db && (!HoldsSlot(q.me.job) || q.me.job == p.me.job)
            && (q.peer != p.peer ==>
                  && p.me.job.Recovering? && p.me.job.rows != []
                  && q.peer == PrepareAt(p.peer, p.me.job.rows[0].message, p.me.job.rows[0].envelope, authentic, fate).0)
  {
  }

  lemma OthersFewer(p: Pair, e: Event)
    requires e.Mark? || e.StartRecovery? || e.RecoverMark? || e.Crash? || e.SetLag?
    ensures Fewer(p, Step(p, e))
  {
  }

  lemma StepSpent(p: Pair, e: Event, nonceOf: string -> string)
    requires InEpoch(p) && Spent(p, nonceOf) && KeepsEpoch(e) && Digests(e, nonceOf) && !AbortLost(p, e)
    ensures Spent(Step(p, e), nonceOf)
  {
    match e {
      case Begin(req) => BeginSpent(p, req, nonceOf);
      case Sign(signer, nonce) => SignSpent(p, signer, nonce, nonceOf);
      case CallPrepare(fate, authentic) => CallPrepareSpent(p, fate, authentic, nonceOf);
      case CommitLocally => CommitLocallySpent(p, nonceOf);
      case CallAbort(fate) => CallAbortSpent(p, fate, nonceOf);
      case Unreserve => UnreserveSpent(p, nonceOf);
      case RecoverPrepare(fate, authentic) =>
        RecoverPrepareFewer(p, fate, authentic);
        FewerSpent(p, Step(p, e), nonceOf);
      case _ =>
        if e.CallCommit? || e.RecoverCommit? { CommitsFewer(p, e); } else { OthersFewer(p, e); }
        FewerSpent(p, Step(p, e), nonceOf);
    }
  }

  lemma SpentNotMisfiled(p: Pair, nonceOf: string -> string)
    requires InEpoch(p) && Spent(p, nonceOf)
    ensures !Misfiled(p, CommitLocally)
  {
    if p.me.job.PeerPrepared? {
      var id := p.me.job.message.operationId;
      Held(p.me.db, p.peer.db, id);
      assert id in p.peer.db.prepared ==> StraySpent(p.me.db, p.me.job, id, p.peer.db.prepared[id], nonceOf);
    }
  }

  /** As long as no abort is lost no commit is misfiled, wherever the active crashes. */
  lemma {:induction false} CrashesNeverMisfile(p: Pair, moves: seq<Move>, nonceOf: string -> string)
    requires InEpoch(p) && Spent(p, nonceOf) && OneEpoch(moves) && NoAbortLost(p, moves)
    requires forall i :: 0 <= i < |moves| ==> Digests(moves[i].event, nonceOf)
    ensures NeverMisfiled(p, moves)
    decreases |moves|
  {
    if moves != [] {
      SpentNotMisfiled(p, nonceOf);
      StepInEpoch(p, moves[0]);
      if moves[0].byMe {
        StepSpent(p, moves[0].event, nonceOf);
      } else {
        NoOutbox(p.me.db, p.peer.db);
        StandbySteps(p.Swapped(), moves[0].event);
      }
      CrashesNeverMisfile(StepBy(p, moves[0]), moves[1..], nonceOf);
    }
  }

  /** Crashes of either side and lost replies cost no contents: if aborts reach a standby
      that holds their row, recovery always makes the two controllers hold the same. */
  lemma CrashesConverge(p: Pair, moves: seq<Move>, nonceOf: string -> string)
    requires Initial(p) && OneEpoch(moves) && NoAbortLost(p, moves)
    requires forall i :: 0 <= i < |moves| ==> Digests(moves[i].event, nonceOf)
    ensures var (a, b) := Recovered(Run(p, moves)); SameContents(a, b)
  {
    InitialInEpoch(p);
    CrashesNeverMisfile(p, moves, nonceOf);
    ConvergesExactly(p, moves);
  }

  // ---- a lost abort that does ----------------------------------------------------------------------------

  // `mutate` up to its local commit.
  function Attempt(req: Request, key: string, nonce: string, fate: Fate): seq<Move> {
    [Move(true, Begin(req)), Move(true, Sign(Some(key), nonce)), Move(true, CallPrepare(fate, true)),
     Move(true, CommitLocally)]
  }

  ghost function Attempted(p: Pair, req: Request, key: string, nonce: string, fate: Fate): Pair {
    OnCommitLocally(OnCallPrepare(OnSign(OnBegin(p, req), Some(key), nonce), fate, true))
  }

  lemma {:induction false} RunAttempt(p: Pair, req: Request, key: string, nonce: string, fate: Fate, after: seq<Move>)
    ensures Run(p, Attempt(req, key, nonce, fate) + after) == Run(Attempted(p, req, key, nonce, fate), after)
    ensures Misfiled(OnCallPrepare(OnSign(OnBegin(p, req), Some(key), nonce), fate, true), CommitLocally)
        ==> !NeverMisfiled(p, Attempt(req, key, nonce, fate) + after)
  {
    var m := Attempt(req, key, nonce, fate) + after;
    RunFour(p, m);
    assert m[1..][1..] == m[2..] && m[2..][1..] == m[3..] && m[4..] == after;
    var p2 := OnSign(OnBegin(p, req), Some(key), nonce);
    assert NeverMisfiled(p, m) ==> NeverMisfiled(OnBegin(p, req), m[1..]);
    assert NeverMisfiled(OnBegin(p, req), m[1..]) ==> NeverMisfiled(p2, m[2..]);
    assert NeverMisfiled(p2, m[2..]) ==> NeverMisfiled(OnCallPrepare(p2, fate, true), m[3..]);
  }

  lemma {:induction false} MisfiledLater(p: Pair, before: seq<Move>, after: seq<Move>)
    requires !NeverMisfiled(Run(p, before), after)
    ensures !NeverMisfiled(p, before + after)
    decreases |before|
  {
    if before == [] {
      assert before + after == after;
    } else {
      MisfiledLater(StepBy(p, before[0]), before[1..], after);
      MisfiledNext(p, before[0], before[1..] + after);
      assert before + after == [before[0]] + (before[1..] + after);
    }
  }

  lemma MisfiledNext(p: Pair, move: Move, moves: seq<Move>)
    ensures NeverMisfiled(p, [move] + moves) ==> NeverMisfiled(StepBy(p, move), moves)
  {
    assert ([move] + moves)[1..] == moves;
  }

  // The standby holds the policy of `req` at a generation the active has passed.
  predicate HeldTooEarly(p: Pair, req: Request) {
    var id := OperationId(req.envelope);
    && p.me.job == Idle && p.peer.job == Idle
    && p.me.db.generation + 1 !in p.me.db.policies
    && id in p.peer.db.prepared && id !in p.peer.db.operations
    && p.peer.db.prepared[id].fingerprint == req.envelope.fingerprint
    && p.peer.db.prepared[id].generation != p.me.db.generation + 1
  }

  /** A policy given up with its abort lost is sent again at a later generation: the
      standby takes its old row for the new one. */
  lemma RetryMisfiles(p: Pair, req: Request, key: string, nonce: string)
    requires Reserve(p.me.db, p.me.name, req).Reserved? && req.kind == Policy && HeldTooEarly(p, req)
    ensures !NeverMisfiled(p, Attempt(req, key, nonce, Answered))
  {
    var m := MakeMessage(p.me.db, p.me.name, req);
    var p2 := OnSign(OnBegin(p, req), Some(key), nonce);
    assert PrepareAt(p2.peer, m, p2.me.job.outer, true, Answered) == (p.peer, true);
    assert p2.me.job == HasSigned(m, p2.me.job.outer);
    var p3 := OnCallPrepare(p2, Answered, true);
    assert p3.me.job == PeerPrepared(m, p2.me.job.outer);
    assert p3.me.db == p2.me.db && p3.peer == p.peer;
    RetryCommits(p2.me.db, m, p2.me.job.outer);
    assert LocalCommit(p3.me.db, m, p2.me.job.outer).Some?;
    assert !Replication.HeldFor(p.peer.db.prepared[m.operationId], m);
    assert Misfiled(p3, CommitLocally);
    RunAttempt(p, req, key, nonce, Answered, []);
    assert Attempt(req, key, nonce, Answered) + [] == Attempt(req, key, nonce, Answered);
  }

  lemma RetryCommits(a: Database, m: Message, o: Outer)
    requires a.role == Active && a.epoch == m.epoch && m.operationId !in a.operations
    requires m.kind == Policy && m.generation !in a.policies
    ensures LocalCommit(a, m, o).Some?
  {
  }

  // The policy call that was given up, and the one that succeeds after it.
  function GivenUp(req: Request, key: string, nonce: string): seq<Move> {
    Attempt(req, key, nonce, ReplyLost) + [Move(true, CallAbort(NotDelivered)), Move(true, Unreserve)]
  }

  lemma GivenUpLeavesRow(p: Pair, req: Request, key: string, nonce: string)
    requires Initial(p) && req.kind == Policy && Reserve(p.me.db, p.me.name, req).Reserved?
    requires key != req.envelope.keyId && nonce != req.envelope.nonce
    ensures var q := Run(p, GivenUp(req, key, nonce));
            var m := MakeMessage(p.me.db, p.me.name, req);
            var o := SignMessage(p.me.db, key, nonce, m);
            && q.me == p.me.(db := p.me.db.(outbound := map[key := 1]))
            && Prepare(p.peer.db, m, o, true).1 && q.peer == p.peer.(db := Prepare(p.peer.db, m, o, true).0)
            && q.peer.db.prepared == map[m.operationId := Replication.PreparedFrom(m, o)]
  {
    RunAttempt(p, req, key, nonce, ReplyLost, [Move(true, CallAbort(NotDelivered)), Move(true, Unreserve)]);
  }

  function Succeeded(req: Request, key: string, nonce: string): seq<Move> {
    Attempt(req, key, nonce, Answered) + [Move(true, CallCommit(Answered)), Move(true, Mark)]
  }

  // The standby will take the policy as new.
  predicate Takes(p: Pair, req: Request, key: string, nonce: string) {
    var m := MakeMessage(p.me.db, p.me.name, req);
    && Prepare(p.peer.db, m, SignMessage(p.me.db, key, nonce, m), true).1
    && m.operationId !in p.peer.db.prepared && m.operationId !in p.peer.db.operations
    && p.peer.db.epoch == m.epoch
    && m.generation !in p.me.db.policies && m.generation !in p.peer.db.policies
  }

  lemma TakenPolicy(p: Pair, req: Request, key: string, nonce: string)
    requires p.me.job == Idle && p.peer.job == Idle && req.kind == Policy
    requires Reserve(p.me.db, p.me.name, req).Reserved? && Takes(p, req, key, nonce)
    ensures var u, m := Attempted(p, req, key, nonce, Answered), MakeMessage(p.me.db, p.me.name, req);
            var o := SignMessage(p.me.db, key, nonce, m);
            var held := CountOutbound(Reserve(p.me.db, p.me.name, req).db, key);
            LocalCommit(held, m, o).Some?
            && u == p.(me := p.me.(db := LocalCommit(held, m, o).value, job := CommittedHere(m)),
                       peer := p.peer.(db := Prepare(p.peer.db, m, o, true).0))
  {
    var m := MakeMessage(p.me.db, p.me.name, req);
    var held := CountOutbound(Reserve(p.me.db, p.me.name, req).db, key);
    RetryCommits(held, m, SignMessage(p.me.db, key, nonce, m));
  }

  lemma SucceededAddsPolicy(p: Pair, req: Request, key: string, nonce: string)
    requires p.me.job == Idle && p.peer.job == Idle && req.kind == Policy
    requires Reserve(p.me.db, p.me.name, req).Reserved? && Takes(p, req, key, nonce)
    ensures Added(p, Run(p, Succeeded(req, key, nonce)), req)
  {
    var u, m := Attempted(p, req, key, nonce, Answered), MakeMessage(p.me.db, p.me.name, req);
    var o := SignMessage(p.me.db, key, nonce, m);
    var held := CountOutbound(Reserve(p.me.db, p.me.name, req).db, key);
    TakenPolicy(p, req, key, nonce);
    RunAttempt(p, req, key, nonce, Answered, [Move(true, CallCommit(Answered)), Move(true, Mark)]);
    LocalCommitShape(held, m, o);
    TakenCommits(p.peer.db, m, o);
    CommittedThenMarked(u, m);
    MarkShape(LocalCommit(held, m, o).value, m.operationId);
  }

  lemma {:induction false} CommittedThenMarked(u: Pair, m: Message)
    requires u.me.job == CommittedHere(m) && u.peer.job == Idle && Commit(u.peer.db, m.operationId).1 == Yes
    ensures var q := Run(u, [Move(true, CallCommit(Answered)), Move(true, Mark)]);
            && q.me == u.me.(db := MarkReplicated(u.me.db, m.operationId), job := Idle)
            && q.peer == u.peer.(db := Commit(u.peer.db, m.operationId).0)
  {
    var ending := [Move(true, CallCommit(Answered)), Move(true, Mark)];
    assert ending[1..][1..] == [];
    assert Run(u, ending) == OnMark(OnCallCommit(u, Answered));
  }

  // `q` is `p` with the policy of `req` committed at both.
  predicate Added(p: Pair, q: Pair, req: Request) {
    var m := MakeMessage(p.me.db, p.me.name, req);
    && q.me.job == Idle && q.peer.job == Idle && q.me.name == p.me.name
    && q.me.db.role == p.me.db.role && q.me.db.epoch == p.me.db.epoch && q.me.db.generation == m.generation
    && q.me.db.replay == Replay.Record(p.me.db.replay, req.envelope.keyId, req.envelope.nonce, req.envelope.sequence)
    && q.me.db.operations.Keys == p.me.db.operations.Keys + {m.operationId}
    && q.me.db.policies.Keys == p.me.db.policies.Keys + {m.generation}
    && q.peer.db.operations.Keys == p.peer.db.operations.Keys + {m.operationId}
    && q.peer.db.prepared == p.peer.db.prepared
  }

  lemma LocalCommitShape(a: Database, m: Message, o: Outer)
    requires LocalCommit(a, m, o).Some? && m.kind == Policy
    ensures var a1 := LocalCommit(a, m, o).value;
            && a1.role == a.role && a1.epoch == a.epoch && a1.generation == m.generation && a1.replay == a.replay
            && a1.operations.Keys == a.operations.Keys + {m.operationId}
            && a1.policies.Keys == a.policies.Keys + {m.generation}
  {
  }

  lemma MarkShape(a: Database, id: string)
    requires id in a.operations
    ensures var a1 := MarkReplicated(a, id);
            a1 == a.(operations := a1.operations, outbox := a1.outbox) && a1.operations.Keys == a.operations.Keys
  {
  }

  lemma TakenCommits(b: Database, m: Message, o: Outer)
    requires Prepare(b, m, o, true).1 && m.kind == Policy && b.epoch == m.epoch && m.generation !in b.policies
    requires m.operationId !in b.operations && m.operationId !in b.prepared
    ensures var (b1, reply) := Commit(Prepare(b, m, o, true).0, m.operationId);
            && reply == Yes && b1.prepared == b.prepared
            && b1.operations.Keys == b.operations.Keys + {m.operationId}
  {
    var b0 := Prepare(b, m, o, true).0;
    Replication.PrepareWrites(b, m, o, true);
    Replication.CommitHeld(b0, m.operationId);
    assert b0.prepared - {m.operationId} == b.prepared;
  }

  predicate PlainPolicy(req: Request) {
    req.kind == Policy && req.authentic
    && req.envelope.payload.expectedEpoch == Absent && req.envelope.payload.expectedGeneration == Absent
  }

  lemma SecondTaken(p: Pair, q: Pair, first: Request, second: Request, key: string, n1: string, n2: string)
    requires Initial(p) && PlainPolicy(first) && PlainPolicy(second)
    requires OperationId(first.envelope) != OperationId(second.envelope)
    requires key != first.envelope.keyId && key != second.envelope.keyId
    requires first.envelope.keyId != second.envelope.keyId && first.envelope.nonce != second.envelope.nonce
    requires n1 != n2 && n2 != first.envelope.nonce && n1 != second.envelope.nonce && n2 != second.envelope.nonce
    requires q.me == p.me.(db := p.me.db.(outbound := map[key := 1]))
    requires var m := MakeMessage(p.me.db, p.me.name, first);
             var o := SignMessage(p.me.db, key, n1, m);
             && Prepare(p.peer.db, m, o, true).1
             && q.peer == p.peer.(db := Prepare(p.peer.db, m, o, true).0)
    ensures Reserve(q.me.db, q.me.name, second).Reserved? && Takes(q, second, key, n2)
  {
  }

  lemma FirstHeldTooEarly(p: Pair, q: Pair, r: Pair, first: Request, second: Request, o: Outer)
    requires Initial(p) && PlainPolicy(first) && PlainPolicy(second) && Reserve(q.me.db, q.me.name, second).Reserved?
    requires OperationId(first.envelope) != OperationId(second.envelope)
    requires first.envelope.keyId != second.envelope.keyId && first.envelope.nonce != second.envelope.nonce
    requires q.me == p.me.(db := p.me.db.(outbound := q.me.db.outbound)) && q.peer.db.operations == map[]
    requires q.peer.db.prepared == map[OperationId(first.envelope) := Replication.PreparedFrom(MakeMessage(p.me.db, p.me.name, first), o)]
    requires Added(q, r, second)
    ensures Reserve(r.me.db, r.me.name, first).Reserved? && HeldTooEarly(r, first)
  {
  }

  function LostAbortRun(first: Request, second: Request, key: string, n1: string, n2: string, n3: string): seq<Move> {
    GivenUp(first, key, n1) + (Succeeded(second, key, n2) + Attempt(first, key, n3, Answered))
  }

  lemma LostAbortOneEpoch(first: Request, second: Request, key: string, n1: string, n2: string, n3: string)
    ensures OneEpoch(LostAbortRun(first, second, key, n1, n2, n3))
  {
  }

  /** One policy loses its prepare reply and its abort, a second one is accepted, the first is
      sent again: whatever the two policies are, recovery cannot make the controllers agree. */
  lemma LostAbortDiverges(p: Pair, first: Request, second: Request, key: string, n1: string, n2: string, n3: string)
    requires Initial(p) && PlainPolicy(first) && PlainPolicy(second)
    requires OperationId(first.envelope) != OperationId(second.envelope)
    requires key != first.envelope.keyId && key != second.envelope.keyId
    requires first.envelope.keyId != second.envelope.keyId && first.envelope.nonce != second.envelope.nonce
    requires n1 != n2 && n1 != first.envelope.nonce && n2 != first.envelope.nonce
    requires n1 != second.envelope.nonce && n2 != second.envelope.nonce
    ensures var moves := LostAbortRun(first, second, key, n1, n2, n3);
            var (a, b) := Recovered(Run(p, moves));
            OneEpoch(moves) && !NeverMisfiled(p, moves) && !SameContents(a, b)
  {
    LostAbortMisfiles(p, first, second, key, n1, n2, n3);
    LostAbortOneEpoch(first, second, key, n1, n2, n3);
    ConvergesExactly(p, LostAbortRun(first, second, key, n1, n2, n3));
  }

  lemma LostAbortMisfiles(p: Pair, first: Request, second: Request, key: string, n1: string, n2: string, n3: string)
    requires Initial(p) && PlainPolicy(first) && PlainPolicy(second)
    requires OperationId(first.envelope) != OperationId(second.envelope)
    requires key != first.envelope.keyId && key != second.envelope.keyId
    requires first.envelope.keyId != second.envelope.keyId && first.envelope.nonce != second.envelope.nonce
    requires n1 != n2 && n1 != first.envelope.nonce && n2 != first.envelope.nonce
    requires n1 != second.envelope.nonce && n2 != second.envelope.nonce
    ensures !NeverMisfiled(p, LostAbortRun(first, second, key, n1, n2, n3))
  {
    var q := Run(p, GivenUp(first, key, n1));
    var r := Run(q, Succeeded(second, key, n2));
    GivenUpLeavesRow(p, first, key, n1);
    SecondTaken(p, q, first, second, key, n1, n2);
    SucceededAddsPolicy(q, second, key, n2);
    FirstHeldTooEarly(p, q, r, first, second, SignMessage(p.me.db, key, n1, MakeMessage(p.me.db, p.me.name, first)));
    RetryMisfiles(r, first, key, n3);
    MisfiledLater(q, Succeeded(second, key, n2), Attempt(first, key, n3, Answered));
    MisfiledLater(p, GivenUp(first, key, n1), Succeeded(second, key, n2) + Attempt(first, key, n3, Answered));
  }
}
