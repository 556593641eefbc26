// Two controllers, each the other's peer, under every interleaving of their
// transactions, with crashes, lost replies, repeated fences and any number of
// promotions in flight.
//
// A controller holds its mutation lock for the whole of `mutate` and of
// `recover_pending_operations`, so each side has at most one job, and a call
// that needs the lock of a busy peer is refused. Fences and promotions ignore
// the lock here, which allows more interleavings than the code does.
module Failover {
  import opened Wrappers
  import opened ControllerTables
  import Replication

  datatype Job =
    | Idle
    | Holding(message: Message)                         // mutate: replay slot taken
    | HasSigned(message: Message, outer: Outer)
    | PeerPrepared(message: Message, outer: Outer)
    | CommittedHere(message: Message)
    | CommittedThere(message: Message)
    | Abandoned(message: Message)                       // must abort at the peer
    | Unreserving(message: Message)                     // must give the replay slot back
    | Recovering(rows: seq<OutboxRow>)
    | RecoverPrepared(rows: seq<OutboxRow>)             // the peer holds rows[0]
    | RecoverCommitted(rows: seq<OutboxRow>)            // the peer committed rows[0]

  datatype Promotion = Promotion(envelope: Envelope, epoch: nat)

  // `fenced`: promotions whose fence call the peer has answered with success.
  datatype Side = Side(name: string, db: Database, job: Job, fenced: set<Promotion>)

  datatype Ack = Ack(operationId: string, fingerprint: string)

  // `acked`: every mutation some `mutate` call has reported as accepted.
  datatype Pair = Pair(me: Side, peer: Side, acked: set<Ack>) {
    function Swapped(): Pair { Pair(peer, me, acked) }
  }

  datatype Event =
    | Begin(request: Request)
    | Sign(signer: Option<string>, nonce: string)
    | CallPrepare(fate: Fate, authentic: bool)
    | CommitLocally
    | CallCommit(fate: Fate)
    | Mark
    | CallAbort(fate: Fate)
    | Unreserve
    | StartRecovery
    | RecoverPrepare(fate: Fate, authentic: bool)
    | RecoverCommit(fate: Fate)
    | RecoverMark
    | Crash
    | ReceiveFence(epoch: nat)
    | AskFence(promotion: Promotion, authentic: bool, verified: bool, fate: Fate)
    | SwapRole(promotion: Promotion)
    | SetLag(degraded: bool)

  // ---- calls to the peer ---------------------------------------------------------

  predicate Runs(fate: Fate, peer: Side) {
    fate != NotDelivered && peer.job == Idle
  }

  // The peer after a prepare call, and whether the caller saw it succeed.
  function PrepareAt(peer: Side, m: Message, o: Outer, authentic: bool, fate: Fate): (Side, bool) {
    if !Runs(fate, peer) then (peer, false)
    else
      var (db, ok) := Prepare(peer.db, m, o, authentic);
      (peer.(db := db), ok && fate == Answered)
  }

  function CommitAt(peer: Side, id: string, fate: Fate): (Side, Reply) {
    if !Runs(fate, peer) then (peer, No)
    else
      var (db, reply) := Commit(peer.db, id);
      (peer.(db := db), if fate == Answered then reply else No)
  }

  ghost function AbortAt(peer: Side, id: string, fate: Fate): Side {
    if Runs(fate, peer) then peer.(db := Abort(peer.db, id)) else peer
  }

  function Rest(rows: seq<OutboxRow>): Job
    requires rows != []
  {
    Recovering(rows[1..])
  }

  // ---- one step of `me`; an event that does not apply changes nothing --------------

  function OnBegin(p: Pair, req: Request): Pair {
    if p.me.job != Idle then p
    else
      match Reserve(p.me.db, p.me.name, req)
      case Refused => p
      case AlreadyCommitted =>
        p.(acked := p.acked + {Ack(OperationId(req.envelope), req.envelope.fingerprint)})
      case Reserved(db, m) => p.(me := p.me.(db := db, job := Holding(m)))
  }

  function OnSign(p: Pair, signer: Option<string>, nonce: string): Pair {
    if !p.me.job.Holding? then p
    else
      var m := p.me.job.message;
      match signer
      case None => p.(me := p.me.(job := Abandoned(m)))
      case Some(key) =>
        p.(me := p.me.(db := CountOutbound(p.me.db, key), job := HasSigned(m, SignMessage(p.me.db, key, nonce, m))))
  }

  function OnCallPrepare(p: Pair, fate: Fate, authentic: bool): Pair {
    if !p.me.job.HasSigned? then p
    else
      var m, o := p.me.job.message, p.me.job.outer;
      var (peer, ok) := PrepareAt(p.peer, m, o, authentic, fate);
      p.(peer := peer, me := p.me.(job := if ok then PeerPrepared(m, o) else Abandoned(m)))
  }

  function OnCommitLocally(p: Pair): Pair {
    if !p.me.job.PeerPrepared? then p
    else
      var m, o := p.me.job.message, p.me.job.outer;
      match LocalCommit(p.me.db, m, o)
      case None => p.(me := p.me.(job := Abandoned(m)))
      case Some(db) => p.(me := p.me.(db := db, job := CommittedHere(m)))
  }

  function OnCallCommit(p: Pair, fate: Fate): Pair {
    if !p.me.job.CommittedHere? then p
    else
      var m := p.me.job.message;
      var (peer, reply) := CommitAt(p.peer, m.operationId, fate);
      p.(peer := peer, me := p.me.(job := if reply == Yes then CommittedThere(m) else Idle))
  }

  function OnMark(p: Pair): Pair {
    if !p.me.job.CommittedThere? then p
    else
      var m := p.me.job.message;
      p.(me := p.me.(db := MarkReplicated(p.me.db, m.operationId), job := Idle),
         acked := p.acked + {Ack(m.operationId, m.original.fingerprint)})
  }

  ghost function OnCallAbort(p: Pair, fate: Fate): Pair {
    if !p.me.job.Abandoned? then p
    else
      var m := p.me.job.message;
      p.(peer := AbortAt(p.peer, m.operationId, fate), me := p.me.(job := Unreserving(m)))
  }

  ghost function OnUnreserve(p: Pair): Pair {
    if !p.me.job.Unreserving? then p
    else p.(me := p.me.(db := RemoveReplay(p.me.db, p.me.job.message.original), job := Idle))
  }

  function OnStartRecovery(p: Pair): Pair {
    if p.me.job != Idle then p else p.(me := p.me.(job := Recovering(p.me.db.outbox)))
  }

  function OnRecoverPrepare(p: Pair, fate: Fate, authentic: bool): Pair {
    if !p.me.job.Recovering? then p
    else
      var rows := p.me.job.rows;
      if rows == [] then p.(me := p.me.(job := Idle))
      else
        var (peer, ok) := PrepareAt(p.peer, rows[0].message, rows[0].envelope, authentic, fate);
        p.(peer := peer, me := p.me.(job := if ok then RecoverPrepared(rows) else Rest(rows)))
  }

  function OnRecoverCommit(p: Pair, fate: Fate): Pair {
    if !p.me.job.RecoverPrepared? || p.me.job.rows == [] then p
    else
      var rows := p.me.job.rows;
      var (peer, reply) := CommitAt(p.peer, rows[0].message.operationId, fate);
      p.(peer := peer, me := p.me.(job := match reply
                                          case Yes => RecoverCommitted(rows)
                                          case No => Rest(rows)
                                          case Raised => Idle))
  }

  function OnRecoverMark(p: Pair): Pair {
    if !p.me.job.RecoverCommitted? || p.me.job.rows == [] then p
    else
      var rows := p.me.job.rows;
      p.(me := p.me.(db := MarkReplicated(p.me.db, rows[0].message.operationId), job := Rest(rows)))
  }

  function OnReceiveFence(p: Pair, epoch: nat): Pair {
    p.(me := p.me.(db := Fence(p.me.db, epoch).0))
  }

  function OnAskFence(p: Pair, promotion: Promotion, authentic: bool, verified: bool, fate: Fate): Pair {
    if !MayPromote(p.me.db, promotion.epoch, authentic, verified) || fate == NotDelivered then p
    else
      var (db, ok) := Fence(p.peer.db, promotion.epoch);
      p.(peer := p.peer.(db := db),
         me := if ok && fate == Answered then p.me.(fenced := p.me.fenced + {promotion}) else p.me)
  }

  function OnSwapRole(p: Pair, promotion: Promotion): Pair {
    if promotion !in p.me.fenced then p
    else
      var done := p.me.(fenced := p.me.fenced - {promotion});
      match PromoteSwap(p.me.db, promotion.envelope, promotion.epoch)
      case None => p.(me := done)
      case Some(db) => p.(me := done.(db := db))
  }

  ghost function Step(p: Pair, e: Event): Pair {
    match e
    case Begin(req) => OnBegin(p, req)
    case Sign(signer, nonce) => OnSign(p, signer, nonce)
    case CallPrepare(fate, authentic) => OnCallPrepare(p, fate, authentic)
    case CommitLocally => OnCommitLocally(p)
    case CallCommit(fate) => OnCallCommit(p, fate)
    case Mark => OnMark(p)
    case CallAbort(fate) => OnCallAbort(p, fate)
    case Unreserve => OnUnreserve(p)
    case StartRecovery => OnStartRecovery(p)
    case RecoverPrepare(fate, authentic) => OnRecoverPrepare(p, fate, authentic)
    case RecoverCommit(fate) => OnRecoverCommit(p, fate)
    case RecoverMark => OnRecoverMark(p)
    case Crash => p.(me := p.me.(job := Idle, fenced := {}))
    case ReceiveFence(epoch) => OnReceiveFence(p, epoch)
    case AskFence(promotion, authentic, verified, fate) => OnAskFence(p, promotion, authentic, verified, fate)
    case SwapRole(promotion) => OnSwapRole(p, promotion)
    case SetLag(degraded) => p.(me := p.me.(db := p.me.db.(lagDegraded := degraded)))
  }

  // ---- the invariant ---------------------------------------------------------------

  /** The peer has `id` with fingerprint `fp`, committed or still prepared. */
  predicate Holds(db: Database, id: string, fp: string) {
    if id in db.operations then db.operations[id].fingerprint == fp
    else id in db.prepared && db.prepared[id].fingerprint == fp
  }

  predicate HasOperation(db: Database, id: string, fp: string) {
    id in db.operations && db.operations[id].fingerprint == fp
  }

  predicate MessageOk(m: Message) {
    && m.original.payload == m.payload
    && m.operationId == OperationId(m.original)
    && m.fingerprint == Some(m.original.fingerprint)
  }

  predicate RowOk(db: Database, r: OutboxRow) {
    && r.message.operationId == r.operationId
    && HasOperation(db, r.operationId, r.message.original.fingerprint)
  }

  /** Jobs that rely on what the peer still has prepared. */
  predicate Relying(job: Job) {
    job.PeerPrepared? || job.CommittedHere? || job.RecoverPrepared?
  }

  ghost predicate JobOk(me: Side, peer: Side) {
    match me.job
    case Holding(m) => MessageOk(m) && me.db.generation <= m.generation
    case HasSigned(m, o) => MessageOk(m) && o.message == m && me.db.generation <= m.generation
    case PeerPrepared(m, o) =>
      && ValidInput(m, o) && me.db.generation <= m.generation
      && Holds(peer.db, m.operationId, m.original.fingerprint)
    case CommittedHere(m) =>
      && HasOperation(me.db, m.operationId, m.original.fingerprint)
      && Holds(peer.db, m.operationId, m.original.fingerprint)
    case CommittedThere(m) =>
      && HasOperation(me.db, m.operationId, m.original.fingerprint)
      && m.operationId in peer.db.operations
    case Recovering(rows) => forall r :: r in rows ==> RowOk(me.db, r)
    case RecoverPrepared(rows) =>
      && rows != [] && (forall r :: r in rows ==> RowOk(me.db, r))
      && Holds(peer.db, rows[0].operationId, rows[0].message.original.fingerprint)
    case RecoverCommitted(rows) =>
      && rows != [] && (forall r :: r in rows ==> RowOk(me.db, r))
      && rows[0].operationId in peer.db.operations
    case _ => true
  }

  ghost predicate FencesReached(me: Side, peer: Side) {
    && (me.db.role == Active ==> me.db.epoch <= peer.db.epoch)
    && (forall f :: f in me.fenced ==> f.epoch <= peer.db.epoch)
  }

  ghost predicate CommittedAtBoth(mine: map<string, OperationRow>, theirs: map<string, OperationRow>) {
    forall id :: id in mine && mine[id].state == Committed ==> id in theirs
  }

  ghost predicate Agree(mine: map<string, OperationRow>, theirs: map<string, OperationRow>) {
    forall id :: id in mine && id in theirs ==> mine[id].fingerprint == theirs[id].fingerprint
  }

  ghost predicate Half(me: Side, peer: Side) {
    && FencesReached(me, peer)
    && CommittedAtBoth(me.db.operations, peer.db.operations)
    && JobOk(me, peer)
  }

  ghost predicate AckedAtBoth(p: Pair) {
    forall a :: a in p.acked ==>
      && HasOperation(p.me.db, a.operationId, a.fingerprint)
      && HasOperation(p.peer.db, a.operationId, a.fingerprint)
  }

  /** What ties the two controllers together. */
  ghost predicate Linked(p: Pair) {
    && Half(p.me, p.peer)
    && Half(p.peer, p.me)
    && Agree(p.me.db.operations, p.peer.db.operations)
    && !(p.me.db.role == Active && p.peer.db.role == Active)
    && !(Relying(p.me.job) && Relying(p.peer.job))
    && AckedAtBoth(p)
  }

  ghost predicate BothSound(p: Pair) {
    Sound(p.me.db) && Sound(p.peer.db)
  }

  ghost predicate Safe(p: Pair) {
    BothSound(p) && Linked(p)
  }

  /** What one step guarantees beyond the invariant. */
  ghost predicate Forward(p: Pair, q: Pair) {
    && Progresses(p.me.db, q.me.db)
    && Progresses(p.peer.db, q.peer.db)
    && p.acked <= q.acked
  }

  // ---- each step keeps both databases sound -------------------------------------------

  lemma PrepareAtSound(peer: Side, m: Message, o: Outer, authentic: bool, fate: Fate)
    requires Sound(peer.db)
    ensures var (q, _) := PrepareAt(peer, m, o, authentic, fate); Sound(q.db) && Progresses(peer.db, q.db)
  {
    PrepareKeeps(peer.db, m, o, authentic);
  }

  lemma CommitAtSound(peer: Side, id: string, fate: Fate)
    requires Sound(peer.db)
    ensures var (q, _) := CommitAt(peer, id, fate); Sound(q.db) && Progresses(peer.db, q.db)
  {
    CommitKeeps(peer.db, id);
  }

  lemma MutateSound(p: Pair, e: Event)
    requires BothSound(p) && JobOk(p.me, p.peer)
    requires e.Begin? || e.CallPrepare? || e.CommitLocally? || e.CallCommit?
    ensures BothSound(Step(p, e)) && Forward(p, Step(p, e))
  {
    var me := p.me;
    match e {
      case Begin(req) => if Reserve(me.db, me.name, req).Reserved? { ReserveKeeps(me.db, me.name, req); }
      case CallPrepare(fate, authentic) =>
        if me.job.HasSigned? { PrepareAtSound(p.peer, me.job.message, me.job.outer, authentic, fate); }
      case CommitLocally =>
        if me.job.PeerPrepared? && LocalCommit(me.db, me.job.message, me.job.outer).Some? {
          LocalCommitKeeps(me.db, me.job.message, me.job.outer);
        }
      case CallCommit(fate) =>
        if me.job.CommittedHere? { CommitAtSound(p.peer, me.job.message.operationId, fate); }
    }
  }

  lemma FinishSound(p: Pair, e: Event)
    requires BothSound(p) && (e.Mark? || e.CallAbort? || e.Unreserve? || e.Sign? || e.Crash? || e.SetLag?)
    ensures BothSound(Step(p, e)) && Forward(p, Step(p, e))
  {
    var me := p.me;
    match e {
      case Mark => if me.job.CommittedThere? { MarkReplicatedKeeps(me.db, me.job.message.operationId); }
      case CallAbort(_) => if me.job.Abandoned? { AbortKeeps(p.peer.db, me.job.message.operationId); }
      case Unreserve => if me.job.Unreserving? { RemoveReplayKeeps(me.db, me.job.message.original); }
      case _ =>
        SideTablesKeep(me.db, Step(p, e).me.db);
        SideTablesKeep(p.peer.db, p.peer.db);
    }
  }

  lemma RecoverSound(p: Pair, e: Event)
    requires BothSound(p) && JobOk(p.me, p.peer)
    requires e.StartRecovery? || e.RecoverPrepare? || e.RecoverCommit? || e.RecoverMark?
    ensures BothSound(Step(p, e)) && Forward(p, Step(p, e))
  {
    var me := p.me;
    match e {
      case StartRecovery =>
      case RecoverPrepare(fate, authentic) =>
        if me.job.Recovering? && me.job.rows != [] {
          PrepareAtSound(p.peer, me.job.rows[0].message, me.job.rows[0].envelope, authentic, fate);
        }
      case RecoverCommit(fate) =>
        if me.job.RecoverPrepared? { CommitAtSound(p.peer, me.job.rows[0].message.operationId, fate); }
      case RecoverMark =>
        if me.job.RecoverCommitted? { MarkReplicatedKeeps(me.db, me.job.rows[0].message.operationId); }
    }
  }

  lemma RoleSound(p: Pair, e: Event)
    requires BothSound(p) && (e.ReceiveFence? || e.AskFence? || e.SwapRole?)
    ensures BothSound(Step(p, e)) && Forward(p, Step(p, e))
  {
    match e {
      case ReceiveFence(epoch) => FenceKeeps(p.me.db, epoch);
      case AskFence(promotion, authentic, verified, fate) => AskFenceSound(p, promotion, authentic, verified, fate);
      case SwapRole(promotion) => SwapRoleSound(p, promotion);
    }
  }

  lemma AskFenceSound(p: Pair, promotion: Promotion, authentic: bool, verified: bool, fate: Fate)
    requires BothSound(p)
    ensures BothSound(OnAskFence(p, promotion, authentic, verified, fate))
    ensures Forward(p, OnAskFence(p, promotion, authentic, verified, fate))
  {
    FenceKeeps(p.peer.db, promotion.epoch);
  }

  lemma SwapRoleSound(p: Pair, promotion: Promotion)
    requires BothSound(p)
    ensures BothSound(OnSwapRole(p, promotion)) && Forward(p, OnSwapRole(p, promotion))
  {
    if PromoteSwap(p.me.db, promotion.envelope, promotion.epoch).Some? {
      PromoteSwapKeeps(p.me.db, promotion.envelope, promotion.epoch);
    }
  }

  lemma StepSound(p: Pair, e: Event)
    requires BothSound(p) && JobOk(p.me, p.peer)
    ensures BothSound(Step(p, e)) && Forward(p, Step(p, e))
  {
    if e.Begin? || e.CallPrepare? || e.CommitLocally? || e.CallCommit? { MutateSound(p, e); }
    else if e.StartRecovery? || e.RecoverPrepare? || e.RecoverCommit? || e.RecoverMark? { RecoverSound(p, e); }
    else if e.ReceiveFence? || e.AskFence? || e.SwapRole? { RoleSound(p, e); }
    else { FinishSound(p, e); }
  }

  // ---- each step keeps the two controllers linked ---------------------------------------

  lemma PrepareAtLinked(p: Pair, m: Message, o: Outer, authentic: bool, fate: Fate)
    requires Linked(p)
    ensures var (peer, ok) := PrepareAt(p.peer, m, o, authentic, fate);
            && Half(peer, p.me)
            && peer.db.operations == p.peer.db.operations
            && peer.db.role == p.peer.db.role && peer.db.epoch == p.peer.db.epoch && peer.job == p.peer.job
            && (ok ==> ValidInput(m, o) && peer.job == Idle
                       && Holds(peer.db, m.operationId, m.original.fingerprint))
  {
  }

  /** What a commit call can do to the peer's tables. */
  lemma CommitEffect(d: Database, id: string)
    ensures var (u, reply) := Commit(d, id);
            && d.epoch <= u.epoch
            && (u.role == Active ==> d.role == Active && u.epoch == d.epoch)
            && (u.operations == d.operations
                || (id !in d.operations && id in d.prepared
                    && u.operations == d.operations[id := CommittedRow(d.prepared[id])]))
            && (reply == Yes ==> id in u.operations)
            && u.generation >= d.generation
  {
  }

  lemma CommitAtLinked(p: Pair, id: string, fate: Fate)
    requires Linked(p) && Relying(p.me.job)
    requires id in p.me.db.operations && Holds(p.peer.db, id, p.me.db.operations[id].fingerprint)
    ensures var (peer, reply) := CommitAt(p.peer, id, fate);
            && Half(peer, p.me)
            && FencesReached(p.me, peer)
            && CommittedAtBoth(p.me.db.operations, peer.db.operations)
            && Agree(p.me.db.operations, peer.db.operations)
            && (forall x :: x in p.peer.db.operations ==>
                  x in peer.db.operations && peer.db.operations[x] == p.peer.db.operations[x])
            && (peer.db.role == Active ==> p.peer.db.role == Active)
            && peer.job == p.peer.job
            && (reply == Yes ==> id in peer.db.operations)
  {
    CommitEffect(p.peer.db, id);
  }

  lemma BeginLinked(p: Pair, req: Request)
    requires Linked(p)
    ensures Linked(OnBegin(p, req))
  {
  }

  lemma SignLinked(p: Pair, signer: Option<string>, nonce: string)
    requires Linked(p)
    ensures Linked(OnSign(p, signer, nonce))
  {
  }

  lemma CallPrepareLinked(p: Pair, fate: Fate, authentic: bool)
    requires Linked(p)
    ensures Linked(OnCallPrepare(p, fate, authentic))
  {
    if p.me.job.HasSigned? {
      PrepareAtLinked(p, p.me.job.message, p.me.job.outer, authentic, fate);
    }
  }

  lemma CommitLocallyLinked(p: Pair)
    requires Linked(p)
    ensures Linked(OnCommitLocally(p))
  {
    if p.me.job.PeerPrepared? && LocalCommit(p.me.db, p.me.job.message, p.me.job.outer).Some? {
      LocallyCommittedLinked(p, LocalCommit(p.me.db, p.me.job.message, p.me.job.outer).value);
    }
  }

  lemma LocallyCommittedLinked(p: Pair, db: Database)
    requires Linked(p) && p.me.job.PeerPrepared?
    requires LocalCommit(p.me.db, p.me.job.message, p.me.job.outer) == Some(db)
    ensures Linked(p.(me := p.me.(db := db, job := CommittedHere(p.me.job.message))))
  {
    Replication.LocalCommitWrites(p.me.db, p.me.job.message, p.me.job.outer);
    PendingLinked(p, db, p.me.job.message);
  }

  lemma PendingLinked(p: Pair, db: Database, m: Message)
    requires p.me.job.PeerPrepared? && p.me.job.message == m && m.operationId !in p.me.db.operations
    requires db.operations == p.me.db.operations[m.operationId := OperationRow(m.source, m.epoch, m.generation, m.original.fingerprint, Pending)]
    requires db.role == p.me.db.role && db.epoch == p.me.db.epoch
    ensures Linked(p) ==> Linked(p.(me := p.me.(db := db, job := CommittedHere(m))))
  {
  }

  lemma CallCommitLinked(p: Pair, fate: Fate)
    requires Linked(p)
    ensures Linked(OnCallCommit(p, fate))
  {
    if p.me.job.CommittedHere? {
      CommitAtLinked(p, p.me.job.message.operationId, fate);
    }
  }

  lemma MarkLinked(p: Pair)
    requires Linked(p)
    ensures Linked(OnMark(p))
  {
  }

  lemma CallAbortLinked(p: Pair, fate: Fate)
    requires Linked(p)
    ensures Linked(OnCallAbort(p, fate))
  {
  }

  lemma UnreserveLinked(p: Pair)
    requires Linked(p)
    ensures Linked(OnUnreserve(p))
  {
  }

  lemma StartRecoveryLinked(p: Pair)
    requires Safe(p)
    ensures Linked(OnStartRecovery(p))
  {
    forall r | r in p.me.db.outbox ensures RowOk(p.me.db, r) {
      assert r.operationId in OutboxIds(p.me.db.outbox);
      assert IsPending(p.me.db.operations, r.operationId);
    }
  }

  lemma RecoverPrepareLinked(p: Pair, fate: Fate, authentic: bool)
    requires Linked(p)
    ensures Linked(OnRecoverPrepare(p, fate, authentic))
  {
    if p.me.job.Recovering? && p.me.job.rows != [] {
      var row := p.me.job.rows[0];
      assert RowOk(p.me.db, row);
      PrepareAtLinked(p, row.message, row.envelope, authentic, fate);
    }
  }

  lemma RecoverCommitLinked(p: Pair, fate: Fate)
    requires Linked(p)
    ensures Linked(OnRecoverCommit(p, fate))
  {
    if p.me.job.RecoverPrepared? {
      assert RowOk(p.me.db, p.me.job.rows[0]);
      CommitAtLinked(p, p.me.job.rows[0].operationId, fate);
    }
  }

  lemma RecoverMarkLinked(p: Pair)
    requires Linked(p)
    ensures Linked(OnRecoverMark(p))
  {
    if p.me.job.RecoverCommitted? {
      var rows := p.me.job.rows;
      assert RowOk(p.me.db, rows[0]);
      var u := MarkReplicated(p.me.db, rows[0].message.operationId);
      forall r | r in rows[1..] ensures RowOk(u, r) {
        assert r in rows && RowOk(p.me.db, r);
      }
    }
  }

  lemma ReceiveFenceLinked(p: Pair, epoch: nat)
    requires Linked(p)
    ensures Linked(OnReceiveFence(p, epoch))
  {
  }

  lemma AskFenceLinked(p: Pair, promotion: Promotion, authentic: bool, verified: bool, fate: Fate)
    requires Linked(p)
    ensures Linked(OnAskFence(p, promotion, authentic, verified, fate))
  {
  }

  lemma SwapRoleLinked(p: Pair, promotion: Promotion)
    requires Linked(p)
    ensures Linked(OnSwapRole(p, promotion))
  {
  }

  lemma MutateLinked(p: Pair, e: Event)
    requires Linked(p)
    requires e.Begin? || e.Sign? || e.CallPrepare? || e.CommitLocally? || e.CallCommit? || e.Mark?
             || e.CallAbort? || e.Unreserve?
    ensures Linked(Step(p, e))
  {
    match e {
      case Begin(req) => BeginLinked(p, req);
      case Sign(signer, nonce) => SignLinked(p, signer, nonce);
      case CallPrepare(fate, authentic) => CallPrepareLinked(p, fate, authentic);
      case CommitLocally => CommitLocallyLinked(p);
      case CallCommit(fate) => CallCommitLinked(p, fate);
      case Mark => MarkLinked(p);
      case CallAbort(fate) => CallAbortLinked(p, fate);
      case Unreserve => UnreserveLinked(p);
    }
  }

  lemma OthersLinked(p: Pair, e: Event)
    requires Safe(p)
    requires !(e.Begin? || e.Sign? || e.CallPrepare? || e.CommitLocally? || e.CallCommit? || e.Mark?
               || e.CallAbort? || e.Unreserve?)
    ensures Linked(Step(p, e))
  {
    match e {
      case StartRecovery => StartRecoveryLinked(p);
      case RecoverPrepare(fate, authentic) => RecoverPrepareLinked(p, fate, authentic);
      case RecoverCommit(fate) => RecoverCommitLinked(p, fate);
      case RecoverMark => RecoverMarkLinked(p);
      case ReceiveFence(epoch) => ReceiveFenceLinked(p, epoch);
      case AskFence(promotion, authentic, verified, fate) => AskFenceLinked(p, promotion, authentic, verified, fate);
      case SwapRole(promotion) => SwapRoleLinked(p, promotion);
      case _ =>
    }
  }

  lemma StepSafe(p: Pair, e: Event)
    requires Safe(p)
    ensures Safe(Step(p, e)) && Forward(p, Step(p, e))
  {
    StepSound(p, e);
    if e.Begin? || e.Sign? || e.CallPrepare? || e.CommitLocally? || e.CallCommit? || e.Mark? || e.CallAbort? || e.Unreserve? {
      MutateLinked(p, e);
    } else {
      OthersLinked(p, e);
    }
  }

  // ---- every run --------------------------------------------------------------------------

  datatype Move = Move(byMe: bool, event: Event)

  ghost function StepBy(p: Pair, move: Move): Pair {
    if move.byMe then Step(p, move.event) else Step(p.Swapped(), move.event).Swapped()
  }

  ghost function Run(p: Pair, moves: seq<Move>): Pair
    decreases |moves|
  {
    if moves == [] then p else Run(StepBy(p, moves[0]), moves[1..])
  }

  /** Equal epochs, one controller active, the other not. */
  predicate Initial(p: Pair) {
    && p.acked == {}
    && p.me.job == Idle && p.peer.job == Idle && p.me.fenced == {} && p.peer.fenced == {}
    && p.me.db == Replication.Fresh(p.me.db.role, p.me.db.epoch)
    && p.peer.db == Replication.Fresh(p.peer.db.role, p.peer.db.epoch)
    && p.me.db.epoch == p.peer.db.epoch
    && p.me.db.role == Active && p.peer.db.role != Active
  }

  lemma InitialSafe(p: Pair)
    requires Initial(p)
    ensures Safe(p)
  {
  }

  lemma {:induction false} RunSafe(p: Pair, moves: seq<Move>)
    requires Safe(p)
    ensures Safe(Run(p, moves)) && Forward(p, Run(p, moves))
    decreases |moves|
  {
    if moves != [] {
      var q := StepBy(p, moves[0]);
      if moves[0].byMe {
        StepSafe(p, moves[0].event);
      } else {
        StepSafe(p.Swapped(), moves[0].event);
      }
      RunSafe(q, moves[1..]);
      var r := Run(q, moves[1..]);
      ProgressesTransitive(p.me.db, q.me.db, r.me.db);
      ProgressesTransitive(p.peer.db, q.peer.db, r.peer.db);
    }
  }

  /** The two controllers are never both active. */
  lemma NeverTwoActive(p: Pair, moves: seq<Move>)
    requires Initial(p)
    ensures var q := Run(p, moves); !(q.me.db.role == Active && q.peer.db.role == Active)
  {
    InitialSafe(p);
    RunSafe(p, moves);
  }

  /** An acknowledged mutation is in both operations tables with the acknowledged
      fingerprint in every later state, whatever fails or is promoted in between. */
  lemma AcknowledgedSurvive(p: Pair, before: seq<Move>, after: seq<Move>, a: Ack)
    requires Initial(p) && a in Run(p, before).acked
    ensures var q := Run(Run(p, before), after);
            HasOperation(q.me.db, a.operationId, a.fingerprint) && HasOperation(q.peer.db, a.operationId, a.fingerprint)
  {
    InitialSafe(p);
    RunSafe(p, before);
    RunSafe(Run(p, before), after);
  }

  /** On each controller a payload is applied at most once and in epoch order,
      and epochs, generations, policies and operations never go backwards. */
  lemma AppliedOnceInEpochOrder(p: Pair, before: seq<Move>, after: seq<Move>)
    requires Initial(p)
    ensures var q := Run(p, before);
            var r := Run(q, after);
            && Sound(r.me.db) && Sound(r.peer.db)
            && Progresses(q.me.db, r.me.db) && Progresses(q.peer.db, r.peer.db)
  {
    InitialSafe(p);
    RunSafe(p, before);
    RunSafe(Run(p, before), after);
  }

  // ---- the whole calls are runs of these steps ------------------------------------------------

  function Quiet(a: Side, b: Side, acked: set<Ack>): Pair {
    Pair(a.(job := Idle), b.(job := Idle), acked)
  }

  function MutateEvents(req: Request, signer: Replication.Signer, net: Replication.Net): seq<Move> {
    var (key, nonce) := match signer case NoSigner => (None, "") case Signer(k, n) => (Some(k), n);
    [Move(true, Begin(req)), Move(true, Sign(key, nonce)), Move(true, CallPrepare(net.prepare, net.authentic)),
     Move(true, CommitLocally), Move(true, CallCommit(net.commit)), Move(true, Mark),
     Move(true, CallAbort(Answered)), Move(true, Unreserve)]
  }

  ghost function Reserving(p: Pair, m: seq<Move>): Pair
    requires |m| == 8
  {
    StepBy(StepBy(StepBy(StepBy(p, m[0]), m[1]), m[2]), m[3])
  }

  ghost function Finishing(p: Pair, m: seq<Move>): Pair
    requires |m| == 8
  {
    StepBy(StepBy(StepBy(StepBy(p, m[4]), m[5]), m[6]), m[7])
  }

  lemma RunEight(p: Pair, m: seq<Move>)
    requires |m| == 8
    ensures Run(p, m) == Finishing(Reserving(p, m), m)
  {
    RunFour(p, m);
    var q := Reserving(p, m);
    RunFour(q, m[4..]);
    assert Run(q, m[4..]) == Run(Finishing(q, m), m[4..][4..]);
  }

  lemma RunFour(p: Pair, m: seq<Move>)
    requires 4 <= |m|
    ensures Run(p, m) == Run(StepBy(StepBy(StepBy(StepBy(p, m[0]), m[1]), m[2]), m[3]), m[4..])
  {
    var p1 := StepBy(p, m[0]);
    var p2 := StepBy(p1, m[1]);
    var p3 := StepBy(p2, m[2]);
    assert m[1..][1..] == m[2..] && m[2..][1..] == m[3..] && m[3..][1..] == m[4..];
    assert Run(p, m) == Run(p1, m[1..]);
    assert Run(p1, m[1..]) == Run(p2, m[2..]);
    assert Run(p2, m[2..]) == Run(p3, m[3..]);
  }

  /** `Replication.Mutate`, the call as one function, ends where its eight steps end,
      and reports acceptance exactly when the steps do. */
  lemma MutateIsARun(a: Side, b: Side, acked: set<Ack>, req: Request, signer: Replication.Signer, net: Replication.Net)
    ensures var p := Quiet(a, b, acked);
            var q := Run(p, MutateEvents(req, signer, net));
            var (da, db, out) := Replication.Mutate(a.db, b.db, a.name, req, signer, net);
            && q.me == p.me.(db := da) && q.peer == p.peer.(db := db)
            && q.acked == if out == Replication.Accepted
                          then acked + {Ack(OperationId(req.envelope), req.envelope.fingerprint)} else acked
  {
    RunEight(Quiet(a, b, acked), MutateEvents(req, signer, net));
    FinishingEnds(a, b, acked, req, signer, net);
  }

  lemma FinishingEnds(a: Side, b: Side, acked: set<Ack>, req: Request, signer: Replication.Signer, net: Replication.Net)
    ensures var p, m := Quiet(a, b, acked), MutateEvents(req, signer, net);
            var q := Finishing(Reserving(p, m), m);
            var (da, db, out) := Replication.Mutate(a.db, b.db, a.name, req, signer, net);
            && q.me == p.me.(db := da) && q.peer == p.peer.(db := db)
            && q.acked == if out == Replication.Accepted
                          then acked + {Ack(OperationId(req.envelope), req.envelope.fingerprint)} else acked
  {
    var p := Quiet(a, b, acked);
    var m := MutateEvents(req, signer, net);
    var q := Reserving(p, m);
    ReservingEnds(a, b, acked, req, signer, net);
    LastFour(q, req, signer, net);
  }

  // Of the last four steps those that do not apply to the job change nothing.
  lemma LastFour(q: Pair, req: Request, signer: Replication.Signer, net: Replication.Net)
    ensures var m := MutateEvents(req, signer, net);
            && (q.me.job.Abandoned? ==> Finishing(q, m) == OnUnreserve(OnCallAbort(q, Answered)))
            && (q.me.job.CommittedHere? ==> Finishing(q, m) == OnMark(OnCallCommit(q, net.commit)))
            && (q.me.job.Idle? ==> Finishing(q, m) == q)
  {
  }

  lemma ReservingEnds(a: Side, b: Side, acked: set<Ack>, req: Request, signer: Replication.Signer, net: Replication.Net)
    ensures var p := Quiet(a, b, acked);
            var q := Reserving(p, MutateEvents(req, signer, net));
            match Reserve(a.db, a.name, req)
            case Refused => q == p
            case AlreadyCommitted =>
              q == p.(acked := p.acked + {Ack(OperationId(req.envelope), req.envelope.fingerprint)})
            case Reserved(held, m) =>
              match signer
              case NoSigner => q == p.(me := p.me.(db := held, job := Abandoned(m)))
              case Signer(keyId, nonce) =>
                var o := SignMessage(held, keyId, nonce, m);
                var signed := CountOutbound(held, keyId);
                var (prepared, ok) := Replication.PrepareCall(b.db, m, o, net);
                var peer := p.peer.(db := prepared);
                if !ok then q == p.(me := p.me.(db := signed, job := Abandoned(m)), peer := peer)
                else
                  match LocalCommit(signed, m, o)
                  case None => q == p.(me := p.me.(db := signed, job := Abandoned(m)), peer := peer)
                  case Some(db) => q == p.(me := p.me.(db := db, job := CommittedHere(m)), peer := peer)
  {
    var p := Quiet(a, b, acked);
    var m := MutateEvents(req, signer, net);
    var p1 := OnBegin(p, req);
    var p2 := OnSign(p1, m[1].event.signer, m[1].event.nonce);
    var p3 := OnCallPrepare(p2, net.prepare, net.authentic);
    assert Reserving(p, m) == OnCommitLocally(p3);
    if p1.me.job.Holding? && signer.Signer? {
      assert p3.peer.db == Replication.PrepareCall(b.db, p1.me.job.message, p2.me.job.outer, net).0;
    }
  }

  /** `Replication.Promote` is two steps: asking for the fence, and the swap. */
  lemma PromoteIsARun(p: Pair, promotion: Promotion, authentic: bool, verified: bool, fate: Fate)
    requires promotion !in p.me.fenced
    ensures var q := Run(p, [Move(true, AskFence(promotion, authentic, verified, fate)), Move(true, SwapRole(promotion))]);
            var (a, b, _) := Replication.Promote(p.me.db, p.peer.db, promotion.envelope, promotion.epoch, authentic, verified, fate);
            q == p.(me := p.me.(db := a), peer := p.peer.(db := b))
  {
    var moves := [Move(true, AskFence(promotion, authentic, verified, fate)), Move(true, SwapRole(promotion))];
    assert moves[1..][1..] == [];
    var q := OnAskFence(p, promotion, authentic, verified, fate);
    assert Run(p, moves) == Run(q, moves[1..]);
    assert Run(q, moves[1..]) == Run(OnSwapRole(q, promotion), moves[1..][1..]);
    assert p.me.fenced + {promotion} - {promotion} == p.me.fenced;
  }

  // The steps of recovering one row, and of ending a recovery.
  function RecoverMoves(nets: seq<Replication.Net>): seq<Move> {
    if nets == [] then [Move(true, RecoverPrepare(Answered, true))]
    else
      [Move(true, RecoverPrepare(nets[0].prepare, nets[0].authentic)), Move(true, RecoverCommit(nets[0].commit)),
       Move(true, RecoverMark)] + RecoverMoves(nets[1..])
  }

  lemma RunThree(p: Pair, m: seq<Move>, rest: seq<Move>)
    requires |m| == 3
    ensures Run(p, m + rest) == Run(StepBy(StepBy(StepBy(p, m[0]), m[1]), m[2]), rest)
  {
    var all := m + rest;
    assert all[1..][1..] == all[2..] && all[2..][1..] == rest;
    assert Run(p, all) == Run(StepBy(p, m[0]), all[1..]);
    assert Run(StepBy(p, m[0]), all[1..]) == Run(StepBy(StepBy(p, m[0]), m[1]), all[2..]);
  }

  // One row's three steps do what `RecoverRow` does.
  lemma RecoverRowSteps(p: Pair, rows: seq<OutboxRow>, net: Replication.Net)
    requires p.me.job == Recovering(rows) && rows != [] && p.peer.job == Idle
    ensures var (a, b, more) := Replication.RecoverRow(p.me.db, p.peer.db, rows[0], net);
            OnRecoverMark(OnRecoverCommit(OnRecoverPrepare(p, net.prepare, net.authentic), net.commit))
            == p.(me := p.me.(db := a, job := if more then Rest(rows) else Idle), peer := p.peer.(db := b))
  {
    var q := OnRecoverPrepare(p, net.prepare, net.authentic);
    assert q.peer.db == Replication.PrepareCall(p.peer.db, rows[0].message, rows[0].envelope, net).0;
  }

  lemma {:induction false} IdleRun(p: Pair, nets: seq<Replication.Net>)
    requires p.me.job == Idle
    ensures Run(p, RecoverMoves(nets)) == p
    decreases |nets|
  {
    if nets != [] {
      RunThree(p, RecoverMoves(nets)[..3], RecoverMoves(nets[1..]));
      assert RecoverMoves(nets) == RecoverMoves(nets)[..3] + RecoverMoves(nets[1..]);
      IdleRun(p, nets[1..]);
    } else {
      assert RecoverMoves(nets)[1..] == [];
    }
  }

  lemma {:induction false} RecoveringIsARun(p: Pair, rows: seq<OutboxRow>, nets: seq<Replication.Net>)
    requires p.me.job == Recovering(rows) && p.peer.job == Idle && |nets| == |rows|
    ensures var (a, b) := Replication.RecoverRows(p.me.db, p.peer.db, rows, nets);
            Run(p, RecoverMoves(nets)) == p.(me := p.me.(db := a, job := Idle), peer := p.peer.(db := b))
    decreases |rows|
  {
    if rows == [] {
      assert RecoverMoves(nets)[1..] == [];
    } else {
      var m, rest := RecoverMoves(nets)[..3], RecoverMoves(nets[1..]);
      assert RecoverMoves(nets) == m + rest;
      RunThree(p, m, rest);
      RecoverRowSteps(p, rows, nets[0]);
      var q := StepBy(StepBy(StepBy(p, m[0]), m[1]), m[2]);
      if q.me.job == Idle {
        IdleRun(q, nets[1..]);
      } else {
        RecoveringIsARun(q, rows[1..], nets[1..]);
      }
    }
  }

  /** A whole recovery is a run of the single steps, and ends where they do. */
  lemma RecoverIsARun(p: Pair, nets: seq<Replication.Net>)
    requires p.me.job == Idle && p.peer.job == Idle && |nets| == |p.me.db.outbox|
    ensures var (a, b) := Replication.RecoverRows(p.me.db, p.peer.db, p.me.db.outbox, nets);
            Run(p, [Move(true, StartRecovery)] + RecoverMoves(nets))
            == p.(me := p.me.(db := a), peer := p.peer.(db := b))
  {
    var q := OnStartRecovery(p);
    assert ([Move(true, StartRecovery)] + RecoverMoves(nets))[1..] == RecoverMoves(nets);
    RecoveringIsARun(q, p.me.db.outbox, nets);
  }

  /** A promotion succeeds exactly when an authentic request with a verified receipt asks a
      controller that is not active for a later epoch, the old active may be fenced there, the
      answer arrives and the promotion envelope is fresh. Then the roles and epochs of both
      are settled at once; a forged request or receipt does not even fence the peer. */
  lemma PromoteExactly(a: Database, b: Database, e: Envelope, receiptEpoch: nat,
                       authentic: bool, verified: bool, fate: Fate)
    ensures var (a', b', ok) := Replication.Promote(a, b, e, receiptEpoch, authentic, verified, fate);
            var asks := authentic && verified && a.role != Active && a.epoch < receiptEpoch;
            var fenceable := && b.epoch <= receiptEpoch
                             && (b.lagDegraded ==> b.role == Follower && b.epoch == receiptEpoch);
            && (ok <==> && asks && fenceable && fate == Answered
                        && e.nonce !in a.replay.nonces
                        && (e.keyId in a.replay.sequences ==> a.replay.sequences[e.keyId] < e.sequence))
            && (ok ==> a'.role == Active && b'.role == Follower && a'.epoch == b'.epoch == receiptEpoch)
            && (ok ==> a' == a.(role := Active, epoch := receiptEpoch, replay := a'.replay) && e.nonce in a'.replay.nonces)
            && (!ok ==> a' == a)
            && b' == if asks && fenceable && fate != NotDelivered then b.(role := Follower, epoch := receiptEpoch) else b
  {
  }
}
