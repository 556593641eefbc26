// Where what the controllers hold comes from: every applied payload from a request that was
// authentic and met its expectations, every active role from a promotion that was asked for
// with a verified receipt. Over every run of `Failover`.
module Origins {
  import opened Wrappers
  import opened ControllerTables
  import opened Failover
  import Replication

  // ---- requests --------------------------------------------------------------------------

  /** `req` is the authentic, valid request behind an operation of this epoch and generation,
      and the epoch and generation it expects, if any, are those it found. */
  predicate Asks(req: Request, id: string, kind: Kind, envelope: Envelope, epoch: nat, generation: nat) {
    && req.authentic && req.kind == kind && req.envelope == envelope
    && id == (if envelope.payload.operationId.Some? then envelope.payload.operationId.value else envelope.nonce)
    && (kind == Quota ==> envelope.payload.quotaValid)
    && (envelope.payload.expectedEpoch == Absent || envelope.payload.expectedEpoch == Exactly(epoch))
    && (kind == Policy ==> 0 < generation)
    && (envelope.payload.expectedGeneration == Absent
        || envelope.payload.expectedGeneration == Exactly(if kind == Policy then generation - 1 else generation))
  }

  ghost predicate Asked(asked: set<Request>, id: string, kind: Kind, envelope: Envelope, epoch: nat, generation: nat) {
    exists req :: req in asked && Asks(req, id, kind, envelope, epoch, generation)
  }

  ghost predicate MessageAsked(asked: set<Request>, m: Message) {
    m.payload == m.original.payload && Asked(asked, m.operationId, m.kind, m.original, m.epoch, m.generation)
  }

  ghost predicate RowAsked(asked: set<Request>, id: string, p: PreparedRow) {
    && p.payload == p.original.payload && p.fingerprint == p.original.fingerprint
    && Asked(asked, id, p.kind, p.original, p.epoch, p.generation)
  }

  /** The request behind an applied entry. */
  predicate EntryFits(req: Request, e: Entry) {
    req.envelope.payload == e.payload && Asks(req, e.operationId, e.kind, req.envelope, e.epoch, e.generation)
  }

  ghost predicate EntryAsked(asked: set<Request>, e: Entry) {
    exists req :: req in asked && EntryFits(req, e)
  }

  /** The request behind an operation row. */
  predicate OperationFits(req: Request, id: string, row: OperationRow) {
    req.envelope.fingerprint == row.fingerprint
    && Asks(req, id, req.kind, req.envelope, row.epoch, row.generation)
  }

  ghost predicate OperationAsked(asked: set<Request>, id: string, row: OperationRow) {
    exists req :: req in asked && OperationFits(req, id, row)
  }

  predicate PolicyFits(req: Request, generation: nat, envelope: Envelope) {
    && req.authentic && req.kind == Policy && req.envelope == envelope && 0 < generation
    && (envelope.payload.expectedGeneration == Absent || envelope.payload.expectedGeneration == Exactly(generation - 1))
  }

  ghost predicate PolicyAsked(asked: set<Request>, generation: nat, envelope: Envelope) {
    exists req :: req in asked && PolicyFits(req, generation, envelope)
  }

  /** Everything a controller has applied was asked for. */
  ghost predicate AppliedAsked(asked: set<Request>, d: Database) {
    && (forall e :: e in d.journal ==> EntryAsked(asked, e))
    && (forall id :: id in d.operations ==> OperationAsked(asked, id, d.operations[id]))
    && (forall g :: g in d.policies ==> PolicyAsked(asked, g, d.policies[g]))
  }

  ghost predicate HeldAsked(asked: set<Request>, d: Database) {
    && (forall id :: id in d.prepared ==> RowAsked(asked, id, d.prepared[id]))
    && (forall r :: r in d.outbox ==> MessageAsked(asked, r.message))
  }

  ghost predicate JobAsked(asked: set<Request>, job: Job) {
    match job
    case Holding(m) => MessageAsked(asked, m)
    case HasSigned(m, _) => MessageAsked(asked, m)
    case PeerPrepared(m, _) => MessageAsked(asked, m)
    case Recovering(rows) => forall r :: r in rows ==> MessageAsked(asked, r.message)
    case RecoverPrepared(rows) => forall r :: r in rows ==> MessageAsked(asked, r.message)
    case RecoverCommitted(rows) => forall r :: r in rows ==> MessageAsked(asked, r.message)
    case _ => true
  }

  ghost predicate SideAsked(asked: set<Request>, s: Side) {
    AppliedAsked(asked, s.db) && HeldAsked(asked, s.db) && JobAsked(asked, s.job)
  }

  ghost predicate BothAsked(asked: set<Request>, p: Pair) {
    SideAsked(asked, p.me) && SideAsked(asked, p.peer)
  }

  lemma ReserveAsked(asked: set<Request>, d: Database, self: string, req: Request)
    requires req in asked && Reserve(d, self, req).Reserved?
    ensures MessageAsked(asked, Reserve(d, self, req).message)
  {
    var m := Reserve(d, self, req).message;
    assert Asks(req, m.operationId, m.kind, m.original, m.epoch, m.generation);
  }

  lemma PrepareAsked(asked: set<Request>, d: Database, m: Message, o: Outer, authentic: bool)
    requires HeldAsked(asked, d) && MessageAsked(asked, m)
    ensures var u := Prepare(d, m, o, authentic).0;
            && HeldAsked(asked, u)
            && u == d.(replay := u.replay, prepared := u.prepared)
  {
  }

  // What applying an asked operation writes.
  lemma EntryOfAsked(asked: set<Request>, id: string, kind: Kind, envelope: Envelope, epoch: nat, generation: nat)
    requires Asked(asked, id, kind, envelope, epoch, generation)
    ensures EntryAsked(asked, Entry(id, kind, envelope.payload, epoch, generation))
    ensures forall source, state ::
              OperationAsked(asked, id, OperationRow(source, epoch, generation, envelope.fingerprint, state))
    ensures kind == Policy ==> PolicyAsked(asked, generation, envelope)
  {
    var req :| req in asked && Asks(req, id, kind, envelope, epoch, generation);
    assert EntryFits(req, Entry(id, kind, envelope.payload, epoch, generation));
    forall source, state
      ensures OperationAsked(asked, id, OperationRow(source, epoch, generation, envelope.fingerprint, state))
    {
      assert OperationFits(req, id, OperationRow(source, epoch, generation, envelope.fingerprint, state));
    }
    assert kind == Policy ==> PolicyFits(req, generation, envelope);
  }

  lemma LocalCommitAsked(asked: set<Request>, d: Database, m: Message, o: Outer)
    requires AppliedAsked(asked, d) && HeldAsked(asked, d) && MessageAsked(asked, m) && LocalCommit(d, m, o).Some?
    ensures AppliedAsked(asked, LocalCommit(d, m, o).value) && HeldAsked(asked, LocalCommit(d, m, o).value)
  {
    Replication.LocalCommitWrites(d, m, o);
    LocalCommitRows(d, m, o);
    LocallyCommittedAsked(asked, d, LocalCommit(d, m, o).value, m, o);
  }

  lemma LocalCommitRows(d: Database, m: Message, o: Outer)
    requires LocalCommit(d, m, o).Some?
    ensures var u, id := LocalCommit(d, m, o).value, m.operationId;
            && u.journal == d.journal + [Entry(id, m.kind, m.payload, m.epoch, m.generation)]
            && u.outbox == Dropped(d.outbox, id) + [OutboxRow(id, m, o, m.original.fingerprint)]
            && u.prepared == d.prepared
  {
  }

  lemma LocallyCommittedAsked(asked: set<Request>, d: Database, u: Database, m: Message, o: Outer)
    requires var id := m.operationId;
             && u.journal == d.journal + [Entry(id, m.kind, m.payload, m.epoch, m.generation)]
             && u.operations == d.operations[id := OperationRow(m.source, m.epoch, m.generation, m.original.fingerprint, Pending)]
             && u.policies == (if m.kind == Policy then d.policies[m.generation := m.original] else d.policies)
             && u.outbox == Dropped(d.outbox, id) + [OutboxRow(id, m, o, m.original.fingerprint)]
             && u.prepared == d.prepared
    ensures AppliedAsked(asked, d) && HeldAsked(asked, d) && MessageAsked(asked, m)
        ==> AppliedAsked(asked, u) && HeldAsked(asked, u)
  {
    if MessageAsked(asked, m) {
      EntryOfAsked(asked, m.operationId, m.kind, m.original, m.epoch, m.generation);
    }
  }

  lemma CommitAsked(asked: set<Request>, d: Database, id: string)
    requires AppliedAsked(asked, d) && HeldAsked(asked, d)
    ensures AppliedAsked(asked, Commit(d, id).0) && HeldAsked(asked, Commit(d, id).0)
  {
    if id !in d.operations && Commit(d, id).1 == Yes {
      CommitWrites(d, id);
      CommitPolicies(d, id);
      CommitRows(d, id);
      CommittedAsked(asked, d, Commit(d, id).0, id);
    } else {
      CommitNothing(d, id);
    }
  }

  lemma CommitNothing(d: Database, id: string)
    requires id in d.operations || Commit(d, id).1 != Yes
    ensures Commit(d, id).0 == d
  {
  }

  lemma CommittedAsked(asked: set<Request>, d: Database, u: Database, id: string)
    requires id in d.prepared
    requires var p := d.prepared[id];
             && u.journal == d.journal + [Entry(id, p.kind, p.payload, p.epoch, p.generation)]
             && u.operations == d.operations[id := CommittedRow(p)] && u.outbox == d.outbox
             && u.policies == (if p.kind == Policy then d.policies[p.generation := p.original] else d.policies)
             && u.prepared == d.prepared - {id}
    ensures AppliedAsked(asked, d) && HeldAsked(asked, d) ==> AppliedAsked(asked, u) && HeldAsked(asked, u)
  {
    var p := d.prepared[id];
    if RowAsked(asked, id, p) {
      EntryOfAsked(asked, id, p.kind, p.original, p.epoch, p.generation);
    }
  }

  lemma MarkAsked(asked: set<Request>, d: Database, id: string)
    requires AppliedAsked(asked, d) && HeldAsked(asked, d)
    ensures AppliedAsked(asked, MarkReplicated(d, id)) && HeldAsked(asked, MarkReplicated(d, id))
  {
    if id in d.operations {
      var req :| req in asked && OperationFits(req, id, d.operations[id]);
      assert OperationFits(req, id, d.operations[id].(state := Committed));
    }
  }

  // ---- steps ---------------------------------------------------------------------------------

  /** The request a step brings in is in `asked`. */
  predicate Counted(asked: set<Request>, e: Event) {
    e.Begin? ==> e.request in asked
  }

  lemma PrepareAtAsked(asked: set<Request>, peer: Side, m: Message, o: Outer, authentic: bool, fate: Fate)
    requires SideAsked(asked, peer) && MessageAsked(asked, m)
    ensures SideAsked(asked, PrepareAt(peer, m, o, authentic, fate).0)
  {
    PrepareAsked(asked, peer.db, m, o, authentic);
  }

  lemma CommitAtAsked(asked: set<Request>, peer: Side, id: string, fate: Fate)
    requires SideAsked(asked, peer)
    ensures SideAsked(asked, CommitAt(peer, id, fate).0)
  {
    CommitAsked(asked, peer.db, id);
  }

  lemma AbortAtAsked(asked: set<Request>, peer: Side, id: string, fate: Fate)
    requires SideAsked(asked, peer)
    ensures SideAsked(asked, AbortAt(peer, id, fate))
  {
  }

  lemma MutateAsked(asked: set<Request>, p: Pair, e: Event)
    requires BothAsked(asked, p) && Counted(asked, e)
    requires e.Begin? || e.Sign? || e.CallPrepare? || e.CommitLocally? || e.CallCommit? || e.Mark?
    ensures BothAsked(asked, Step(p, e))
  {
    var me := p.me;
    match e {
      case Begin(req) => if Reserve(me.db, me.name, req).Reserved? { ReserveAsked(asked, me.db, me.name, req); }
      case Sign(_, _) =>
      case CallPrepare(fate, authentic) =>
        if me.job.HasSigned? { PrepareAtAsked(asked, p.peer, me.job.message, me.job.outer, authentic, fate); }
      case CommitLocally =>
        if me.job.PeerPrepared? && LocalCommit(me.db, me.job.message, me.job.outer).Some? {
          LocalCommitAsked(asked, me.db, me.job.message, me.job.outer);
        }
      case CallCommit(fate) =>
        if me.job.CommittedHere? { CommitAtAsked(asked, p.peer, me.job.message.operationId, fate); }
      case Mark =>
        if me.job.CommittedThere? { MarkAsked(asked, me.db, me.job.message.operationId); }
    }
  }

  lemma RecoverPrepareAsked(asked: set<Request>, p: Pair, fate: Fate, authentic: bool)
    requires BothAsked(asked, p)
    ensures BothAsked(asked, OnRecoverPrepare(p, fate, authentic))
  {
    if p.me.job.Recovering? && p.me.job.rows != [] {
      PrepareAtAsked(asked, p.peer, p.me.job.rows[0].message, p.me.job.rows[0].envelope, authentic, fate);
    }
  }

  lemma RecoverCommitAsked(asked: set<Request>, p: Pair, fate: Fate)
    requires BothAsked(asked, p)
    ensures BothAsked(asked, OnRecoverCommit(p, fate))
  {
    if p.me.job.RecoverPrepared? && p.me.job.rows != [] {
      CommitAtAsked(asked, p.peer, p.me.job.rows[0].message.operationId, fate);
    }
  }

  lemma RecoverMarkAsked(asked: set<Request>, p: Pair)
    requires BothAsked(asked, p)
    ensures BothAsked(asked, OnRecoverMark(p))
  {
    if p.me.job.RecoverCommitted? && p.me.job.rows != [] {
      MarkAsked(asked, p.me.db, p.me.job.rows[0].message.operationId);
    }
  }

  lemma RecoverAsked(asked: set<Request>, p: Pair, e: Event)
    requires BothAsked(asked, p)
    requires e.StartRecovery? || e.RecoverPrepare? || e.RecoverCommit? || e.RecoverMark?
    ensures BothAsked(asked, Step(p, e))
  {
    match e {
      case StartRecovery =>
      case RecoverPrepare(fate, authentic) => RecoverPrepareAsked(asked, p, fate, authentic);
      case RecoverCommit(fate) => RecoverCommitAsked(asked, p, fate);
      case RecoverMark => RecoverMarkAsked(asked, p);
    }
  }

  lemma OthersAsked(asked: set<Request>, p: Pair, e: Event)
    requires BothAsked(asked, p)
    requires e.CallAbort? || e.Unreserve? || e.Crash? || e.ReceiveFence? || e.AskFence? || e.SwapRole? || e.SetLag?
    ensures BothAsked(asked, Step(p, e))
  {
    match e {
      case CallAbort(fate) =>
        if p.me.job.Abandoned? { AbortAtAsked(asked, p.peer, p.me.job.message.operationId, fate); }
      case _ =>
    }
  }

  lemma StepAsked(asked: set<Request>, p: Pair, e: Event)
    requires BothAsked(asked, p) && Counted(asked, e)
    ensures BothAsked(asked, Step(p, e))
  {
    if e.Begin? || e.Sign? || e.CallPrepare? || e.CommitLocally? || e.CallCommit? || e.Mark? {
      MutateAsked(asked, p, e);
    } else if e.StartRecovery? || e.RecoverPrepare? || e.RecoverCommit? || e.RecoverMark? {
      RecoverAsked(asked, p, e);
    } else {
      OthersAsked(asked, p, e);
    }
  }

  // ---- every run --------------------------------------------------------------------------------

  lemma {:induction false} RunAsked(asked: set<Request>, p: Pair, moves: seq<Move>)
    requires BothAsked(asked, p) && forall m :: m in moves ==> Counted(asked, m.event)
    ensures BothAsked(asked, Run(p, moves))
    decreases |moves|
  {
    if moves != [] {
      assert moves[0] in moves;
      StepAsked(asked, p, moves[0].event);
      StepAsked(asked, p.Swapped(), moves[0].event);
      RunAsked(asked, StepBy(p, moves[0]), moves[1..]);
    }
  }

  function Requests(moves: seq<Move>): set<Request> {
    set m | m in moves && m.event.Begin? :: m.event.request
  }

  /** After every run whatever either controller has applied, and every policy it serves, came
      from a request of the run that was authentic and valid, and that found the epoch and the
      generation it expected. */
  lemma AppliedWasAsked(p: Pair, moves: seq<Move>)
    requires Initial(p)
    ensures var q := Run(p, moves);
            AppliedAsked(Requests(moves), q.me.db) && AppliedAsked(Requests(moves), q.peer.db)
  {
    RunAsked(Requests(moves), p, moves);
  }

  /** A forged request, and a promotion request that is forged or comes with a receipt that
      does not verify, change nothing at either side. */
  lemma ForgedIgnored(p: Pair, req: Request, promotion: Promotion, authentic: bool, verified: bool, fate: Fate)
    ensures !req.authentic ==> Step(p, Begin(req)) == p
    ensures !authentic || !verified ==> Step(p, AskFence(promotion, authentic, verified, fate)) == p
  {
  }

  // ---- promotions ----------------------------------------------------------------------------------

  /** The promotions for which this side asked, authentically and with a verified receipt, and
      got the answer that the peer is fenced. */
  function Granted(moves: seq<Move>, byMe: bool): set<Promotion> {
    set m | m in moves && m.byMe == byMe && m.event.AskFence? && m.event.authentic && m.event.verified
            && m.event.fate == Answered :: m.event.promotion
  }

  lemma {:induction false} FencedWereGranted(p: Pair, moves: seq<Move>, mine: set<Promotion>, theirs: set<Promotion>)
    requires p.me.fenced <= mine && p.peer.fenced <= theirs
    requires Granted(moves, true) <= mine && Granted(moves, false) <= theirs
    ensures Run(p, moves).me.fenced <= mine && Run(p, moves).peer.fenced <= theirs
    decreases |moves|
  {
    if moves != [] {
      assert moves[0] in moves;
      StepFenced(p, moves[0].event);
      StepFenced(p.Swapped(), moves[0].event);
      FencedWereGranted(StepBy(p, moves[0]), moves[1..], mine, theirs);
    }
  }

  lemma StepFenced(p: Pair, e: Event)
    ensures Step(p, e).peer.fenced == p.peer.fenced
    ensures forall f :: f in Step(p, e).me.fenced && f !in p.me.fenced ==>
              e.AskFence? && e.promotion == f && e.authentic && e.verified && e.fate == Answered
  {
  }

  // Calls from the other side never make a controller active.
  lemma PreparedStays(peer: Side, m: Message, o: Outer, authentic: bool, fate: Fate)
    ensures PrepareAt(peer, m, o, authentic, fate).0.db.role == peer.db.role
  {
  }

  lemma CommittedStays(peer: Side, id: string, fate: Fate)
    requires peer.db.role != Active
    ensures CommitAt(peer, id, fate).0.db.role != Active
  {
  }

  lemma AbortedStays(peer: Side, id: string, fate: Fate)
    ensures AbortAt(peer, id, fate).db.role == peer.db.role
  {
  }

  lemma PeerStays(p: Pair, e: Event)
    requires p.peer.db.role != Active
    ensures Step(p, e).peer.db.role != Active
  {
    var job := p.me.job;
    match e {
      case CallPrepare(fate, authentic) =>
        if job.HasSigned? { PreparedStays(p.peer, job.message, job.outer, authentic, fate); }
      case RecoverPrepare(fate, authentic) =>
        if job.Recovering? && job.rows != [] {
          PreparedStays(p.peer, job.rows[0].message, job.rows[0].envelope, authentic, fate);
        }
      case CallCommit(fate) =>
        if job.CommittedHere? { CommittedStays(p.peer, job.message.operationId, fate); }
      case RecoverCommit(fate) =>
        if job.RecoverPrepared? && job.rows != [] {
          CommittedStays(p.peer, job.rows[0].message.operationId, fate);
        }
      case CallAbort(fate) =>
        if job.Abandoned? { AbortedStays(p.peer, job.message.operationId, fate); }
      case _ =>
    }
  }

  lemma StepActivates(p: Pair, e: Event)
    ensures p.me.db.role != Active && Step(p, e).me.db.role == Active ==>
              && e.SwapRole? && e.promotion in p.me.fenced
              && p.me.db.epoch < e.promotion.epoch == Step(p, e).me.db.epoch
  {
    if e.CommitLocally? && p.me.job.PeerPrepared? && LocalCommit(p.me.db, p.me.job.message, p.me.job.outer).Some? {
      Replication.LocalCommitWrites(p.me.db, p.me.job.message, p.me.job.outer);
    }
  }

  /** In every run a controller becomes active only by completing a promotion to a later
      epoch for which it has earlier asked, with an authentic request and a verified receipt,
      and heard that its peer is fenced. */
  lemma ActiveWasGranted(p: Pair, moves: seq<Move>, move: Move)
    requires Initial(p)
    ensures var q := Run(p, moves);
            var r := StepBy(q, move);
            && (q.me.db.role != Active && r.me.db.role == Active ==>
                  && move.byMe && move.event.SwapRole? && move.event.promotion in Granted(moves, true)
                  && q.me.db.epoch < r.me.db.epoch == move.event.promotion.epoch)
            && (q.peer.db.role != Active && r.peer.db.role == Active ==>
                  && !move.byMe && move.event.SwapRole? && move.event.promotion in Granted(moves, false)
                  && q.peer.db.epoch < r.peer.db.epoch == move.event.promotion.epoch)
  {
    var q := Run(p, moves);
    FencedWereGranted(p, moves, Granted(moves, true), Granted(moves, false));
    StepActivates(q, move.event);
    StepActivates(q.Swapped(), move.event);
    if q.peer.db.role != Active { PeerStays(q, move.event); }
    if q.me.db.role != Active { PeerStays(q.Swapped(), move.event); }
  }
}
