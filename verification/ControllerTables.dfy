// The database of one controller, and each controller transaction as a function on it.
module ControllerTables {
  import opened Wrappers
  import opened Replay

  datatype Role = Active | Standby | Follower

  // Unknown stands for every kind name outside the controller's scope table.
  datatype Kind = HostReport | Event | Quota | ApplyReceipt | Policy | Unknown

  // An optional compare-and-swap field of a mutation payload.
  datatype Expected = Absent | Malformed | Exactly(value: nat)

  datatype Payload = Payload(
    operationId: Option<string>,
    expectedEpoch: Expected,
    expectedGeneration: Expected,
    hostId: string,
    quotaValid: bool,
    body: string)

  // `fingerprint` is the digest of the whole signed envelope. It is a field, so
  // equal envelopes have equal fingerprints and nothing else is assumed of it.
  datatype Envelope = Envelope(keyId: string, nonce: string, sequence: nat, payload: Payload, fingerprint: string)

  datatype Message = Message(
    source: string, epoch: nat, generation: nat, operationId: string,
    kind: Kind, payload: Payload, original: Envelope, fingerprint: Option<string>)

  // The envelope the active controller signs around one message.
  datatype Outer = Outer(keyId: string, nonce: string, sequence: nat, message: Message)

  datatype ReplicationState = Pending | Committed

  datatype OperationRow = OperationRow(source: string, epoch: nat, generation: nat, fingerprint: string,
                                       state: ReplicationState)
  datatype PreparedRow = PreparedRow(source: string, epoch: nat, generation: nat, kind: Kind, payload: Payload,
                                     envelope: Outer, original: Envelope, fingerprint: string)
  datatype OutboxRow = OutboxRow(operationId: string, message: Message, envelope: Outer, fingerprint: string)

  // One application of a payload: the rows it wrote to the host, event, quota,
  // receipt or policy table, kept in the order they were written.
  datatype Entry = Entry(operationId: string, kind: Kind, payload: Payload, epoch: nat, generation: nat)

  datatype Database = Database(
    role: Role,
    epoch: nat,
    generation: nat,
    lagDegraded: bool,
    replay: Tables,
    outbound: map<string, nat>,
    operations: map<string, OperationRow>,
    prepared: map<string, PreparedRow>,
    outbox: seq<OutboxRow>,             // in row order
    policies: map<nat, Envelope>,
    journal: seq<Entry>)

  datatype Reply = Yes | No | Raised    // Raised: the call ended in an exception

  // What becomes of one call to the peer: it never runs, it runs and its reply is
  // lost, or it runs and is answered.
  datatype Fate = NotDelivered | ReplyLost | Answered

  datatype Request = Request(kind: Kind, envelope: Envelope, authentic: bool)

  function OperationId(e: Envelope): string {
    e.payload.operationId.GetOr(e.nonce)
  }

  predicate ValidPayload(kind: Kind, payload: Payload) {
    kind == Quota ==> payload.quotaValid
  }

  // ---- outbox rows -------------------------------------------------------------

  function OutboxIds(rows: seq<OutboxRow>): set<string> {
    set r | r in rows :: r.operationId
  }

  function Dropped(rows: seq<OutboxRow>, id: string): (r: seq<OutboxRow>)
    ensures forall row :: row in r <==> row in rows && row.operationId != id
  {
    if rows == [] then []
    else if rows[0].operationId == id then Dropped(rows[1..], id)
    else [rows[0]] + Dropped(rows[1..], id)
  }

  // ---- payloads ----------------------------------------------------------------

  datatype ApplyResult = Applied(db: Database) | InvalidPayload | GenerationTaken

  function Apply(d: Database, id: string, kind: Kind, payload: Payload, envelope: Envelope,
                 epoch: nat, generation: nat): ApplyResult
  {
    var journaled := d.(journal := d.journal + [Entry(id, kind, payload, epoch, generation)]);
    if kind == Unknown || !ValidPayload(kind, payload) || (kind == HostReport && payload.hostId == "") then
      InvalidPayload
    else if kind != Policy then
      Applied(journaled)
    else if generation in d.policies then
      GenerationTaken
    else
      Applied(journaled.(policies := d.policies[generation := envelope]))
  }

  // ---- mutate, at the active controller ----------------------------------------

  datatype ReserveResult = Refused | AlreadyCommitted | Reserved(db: Database, message: Message)

  predicate Matches(expected: Expected, actual: nat) {
    expected == Absent || expected == Exactly(actual)
  }

  function MakeMessage(d: Database, self: string, req: Request): Message {
    Message(self, d.epoch, d.generation + (if req.kind == Policy then 1 else 0), OperationId(req.envelope),
            req.kind, req.envelope.payload, req.envelope, Some(req.envelope.fingerprint))
  }

  // First transaction of `mutate`, with the checks in front of it.
  function Reserve(d: Database, self: string, req: Request): ReserveResult {
    var e := req.envelope;
    var id := OperationId(e);
    if !req.authentic || !ValidPayload(req.kind, e.payload) then Refused
    else if d.role != Active then Refused
    else if id in d.operations then
      if d.operations[id].fingerprint == e.fingerprint && d.operations[id].state == Committed
      then AlreadyCommitted else Refused
    else if !Matches(e.payload.expectedEpoch, d.epoch) || !Matches(e.payload.expectedGeneration, d.generation) then
      Refused
    else if !Acceptable(d.replay, e.keyId, e.nonce, e.sequence) then Refused
    else Reserved(d.(replay := Record(d.replay, e.keyId, e.nonce, e.sequence)), MakeMessage(d, self, req))
  }

  function NextOutbound(d: Database, keyId: string): nat {
    if keyId in d.outbound then d.outbound[keyId] + 1 else 1
  }

  function CountOutbound(d: Database, keyId: string): Database {
    d.(outbound := d.outbound[keyId := NextOutbound(d, keyId)])
  }

  function SignMessage(d: Database, keyId: string, nonce: string, message: Message): Outer {
    Outer(keyId, nonce, NextOutbound(d, keyId), message)
  }

  // Second transaction of `mutate`; None is any exception, after which nothing is kept.
  function LocalCommit(d: Database, message: Message, outer: Outer): Option<Database> {
    var id := message.operationId;
    if d.role != Active || d.epoch != message.epoch then None
    else
      match Apply(d, id, message.kind, message.payload, message.original, message.epoch, message.generation)
      case InvalidPayload => None
      case GenerationTaken => None
      case Applied(a) =>
        if id in d.operations then None
        else
          var fp := message.original.fingerprint;
          Some(a.(operations := a.operations[id := OperationRow(message.source, message.epoch, message.generation, fp, Pending)],
                  outbox := Dropped(a.outbox, id) + [OutboxRow(id, message, outer, fp)],
                  generation := message.generation))
  }

  function MarkReplicated(d: Database, id: string): Database {
    d.(operations := if id in d.operations then d.operations[id := d.operations[id].(state := Committed)] else d.operations,
       outbox := Dropped(d.outbox, id))
  }

  ghost function RemoveReplay(d: Database, e: Envelope): Database {
    d.(replay := Remove(d.replay, e.keyId, e.nonce, e.sequence))
  }

  // ---- the peer's side of replication ------------------------------------------

  predicate ValidInput(message: Message, outer: Outer) {
    && outer.message == message
    && message.kind != Unknown
    && message.original.payload == message.payload
    && message.operationId == OperationId(message.original)
    && (message.fingerprint.Some? ==> message.fingerprint.value == message.original.fingerprint)
  }

  function Prepare(d: Database, message: Message, outer: Outer, authentic: bool): (Database, bool) {
    var id := message.operationId;
    var e := message.original;
    if !authentic || !ValidInput(message, outer) then (d, false)
    else if id in d.operations then (d, d.operations[id].fingerprint == e.fingerprint)
    else if id in d.prepared then (d, d.prepared[id].fingerprint == e.fingerprint)
    else if message.epoch < d.epoch || message.generation < d.generation then (d, false)
    else if !Acceptable(d.replay, outer.keyId, outer.nonce, outer.sequence) then (d, false)
    else
      var once := Record(d.replay, outer.keyId, outer.nonce, outer.sequence);
      if !Acceptable(once, e.keyId, e.nonce, e.sequence) then (d, false)
      else
        (d.(replay := Record(once, e.keyId, e.nonce, e.sequence),
            prepared := d.prepared[id := PreparedRow(message.source, message.epoch, message.generation, message.kind,
                                                     message.payload, outer, e, e.fingerprint)]),
         true)
  }

  function CommittedRow(p: PreparedRow): OperationRow {
    OperationRow(p.source, p.epoch, p.generation, p.fingerprint, Committed)
  }

  function Commit(d: Database, id: string): (Database, Reply) {
    if id in d.operations then (d, if d.operations[id].state == Committed then Yes else No)
    else if id !in d.prepared then (d, No)
    else
      var p := d.prepared[id];
      if p.epoch < d.epoch then (d, No)
      else
        var fenced := if p.epoch > d.epoch then d.(role := Follower, epoch := p.epoch) else d;
        match Apply(fenced, id, p.kind, p.payload, p.original, p.epoch, p.generation)
        case InvalidPayload => (d, No)
        case GenerationTaken => (d, Raised)
        case Applied(a) =>
          (a.(operations := a.operations[id := CommittedRow(p)],
              prepared := a.prepared - {id},
              generation := if p.generation > a.generation then p.generation else a.generation),
           Yes)
  }

  ghost function Abort(d: Database, id: string): Database {
    if id !in d.prepared then d
    else
      var p := d.prepared[id];
      var once := Remove(d.replay, p.envelope.keyId, p.envelope.nonce, p.envelope.sequence);
      d.(replay := Remove(once, p.original.keyId, p.original.nonce, p.original.sequence),
         prepared := d.prepared - {id})
  }

  // ---- fencing and promotion ----------------------------------------------------

  function Fence(d: Database, epoch: nat): (Database, bool) {
    if epoch < d.epoch then (d, false)
    else if epoch == d.epoch && d.role == Follower then (d, true)
    else if d.lagDegraded then (d, false)
    else (d.(role := Follower, epoch := epoch), true)
  }

  // What `promote` checks before it asks the peer to fence itself.
  predicate MayPromote(d: Database, receiptEpoch: nat, authentic: bool, verified: bool) {
    authentic && d.role != Active && d.epoch < receiptEpoch && verified
  }

  // The compare-and-swap at the end of `promote`.
  function PromoteSwap(d: Database, e: Envelope, receiptEpoch: nat): Option<Database> {
    if d.role == Active || receiptEpoch <= d.epoch then None
    else if !Acceptable(d.replay, e.keyId, e.nonce, e.sequence) then None
    else Some(d.(replay := Record(d.replay, e.keyId, e.nonce, e.sequence), role := Active, epoch := receiptEpoch))
  }

  // ---- what every transaction keeps ----------------------------------------------

  function EntryIds(journal: seq<Entry>): set<string> {
    set e | e in journal :: e.operationId
  }

  /** Every operation row was applied exactly once, at the epoch and generation of its row. */
  ghost predicate JournalMatches(journal: seq<Entry>, operations: map<string, OperationRow>) {
    && (forall i, j :: 0 <= i < j < |journal| ==> journal[i].operationId != journal[j].operationId)
    && EntryIds(journal) == operations.Keys
    && (forall e :: e in journal && e.operationId in operations ==>
          e.epoch == operations[e.operationId].epoch && e.generation == operations[e.operationId].generation)
  }

  /** Payloads were applied in epoch order, none beyond `epoch`. */
  ghost predicate EpochsInOrder(journal: seq<Entry>, epoch: nat) {
    && (forall i, j :: 0 <= i < j < |journal| ==> journal[i].epoch <= journal[j].epoch)
    && (forall e :: e in journal ==> e.epoch <= epoch)
  }

  predicate IsPending(operations: map<string, OperationRow>, id: string) {
    id in operations && operations[id].state == Pending
  }

  ghost predicate Distinct(rows: seq<OutboxRow>) {
    forall i, j :: 0 <= i < j < |rows| ==> rows[i].operationId != rows[j].operationId
  }

  predicate RowCoherent(r: OutboxRow, row: OperationRow) {
    && ValidInput(r.message, r.envelope)
    && r.message.operationId == r.operationId
    && r.message.original.fingerprint == r.fingerprint == row.fingerprint
    && r.message.epoch == row.epoch
    && r.message.generation == row.generation
  }

  ghost predicate OutboxMatches(outbox: seq<OutboxRow>, operations: map<string, OperationRow>) {
    && Distinct(outbox)
    && (forall id :: id in OutboxIds(outbox) <==> IsPending(operations, id))
    && (forall r :: r in outbox && r.operationId in operations ==> RowCoherent(r, operations[r.operationId]))
  }

  /** The invariant of one controller's database: payloads were applied once each
      and in epoch order, no policy is ahead of the generation, the outbox holds
      the pending operations and nothing else, and the replay fence is intact. */
  ghost predicate Sound(d: Database) {
    && Consistent(d.replay)
    && JournalMatches(d.journal, d.operations)
    && EpochsInOrder(d.journal, d.epoch)
    && (forall g :: g in d.policies ==> g <= d.generation)
    && OutboxMatches(d.outbox, d.operations)
  }

  /** What never goes backwards between two moments of one database. */
  ghost predicate Progresses(d: Database, u: Database) {
    && d.epoch <= u.epoch
    && d.generation <= u.generation
    && d.journal <= u.journal
    && (forall id :: id in d.operations ==>
          && id in u.operations
          && u.operations[id].(state := d.operations[id].state) == d.operations[id]
          && (d.operations[id].state == Committed ==> u.operations[id].state == Committed))
    && (forall g :: g in d.policies ==> g in u.policies && u.policies[g] == d.policies[g])
  }

  lemma ProgressesTransitive(d: Database, u: Database, v: Database)
    requires Progresses(d, u) && Progresses(u, v)
    ensures Progresses(d, v)
  {
  }

  lemma {:induction false} DroppedDistinct(rows: seq<OutboxRow>, id: string)
    requires Distinct(rows)
    ensures Distinct(Dropped(rows, id))
  {
    if rows != [] {
      DroppedDistinct(rows[1..], id);
      var rest := Dropped(rows[1..], id);
      forall k | 0 <= k < |rest| ensures rows[0].operationId != rest[k].operationId {
        assert rest[k] in rest;
        assert rest[k] in rows[1..];
      }
    }
  }

  lemma OutboxAppended(outbox: seq<OutboxRow>, operations: map<string, OperationRow>, r: OutboxRow, row: OperationRow)
    requires OutboxMatches(outbox, operations) && r.operationId !in operations
    requires row.state == Pending && RowCoherent(r, row)
    ensures OutboxMatches(Dropped(outbox, r.operationId) + [r], operations[r.operationId := row])
  {
    var id := r.operationId;
    var kept := Dropped(outbox, id);
    var all := kept + [r];
    DroppedDistinct(outbox, id);
    forall i, j | 0 <= i < j < |all| ensures all[i].operationId != all[j].operationId {
      assert kept[i] in kept;
    }
    forall x ensures x in OutboxIds(all) <==> IsPending(operations[id := row], x) {
      if x in OutboxIds(outbox) {
        var o :| o in outbox && o.operationId == x;
        assert o in kept && o in all;
      }
      assert all[|kept|] in all;
    }
  }

  lemma OutboxMarked(outbox: seq<OutboxRow>, operations: map<string, OperationRow>, id: string)
    requires OutboxMatches(outbox, operations) && id in operations
    ensures OutboxMatches(Dropped(outbox, id), operations[id := operations[id].(state := Committed)])
  {
    var kept := Dropped(outbox, id);
    DroppedDistinct(outbox, id);
    forall x ensures x in OutboxIds(kept) <==> IsPending(operations[id := operations[id].(state := Committed)], x) {
      if x in OutboxIds(outbox) && x != id {
        var o :| o in outbox && o.operationId == x;
        assert o in kept;
      }
    }
  }

  lemma OutboxUnaffected(outbox: seq<OutboxRow>, operations: map<string, OperationRow>, id: string, row: OperationRow)
    requires OutboxMatches(outbox, operations) && id !in operations && row.state == Committed
    ensures OutboxMatches(outbox, operations[id := row])
  {
    forall r | r in outbox ensures r.operationId != id {
      assert r.operationId in OutboxIds(outbox);
    }
  }

  /** Roles, the lag flag, outbound counters and prepared rows are outside the invariant. */
  lemma SideTablesKeep(d: Database, u: Database)
    requires Sound(d)
    requires u == d.(role := u.role, lagDegraded := u.lagDegraded, outbound := u.outbound, prepared := u.prepared)
    ensures Sound(u) && Progresses(d, u)
  {
  }

  lemma ReserveKeeps(d: Database, self: string, req: Request)
    requires Sound(d) && Reserve(d, self, req).Reserved?
    ensures Sound(Reserve(d, self, req).db) && Progresses(d, Reserve(d, self, req).db)
  {
    var e := req.envelope;
    RecordKeepsConsistent(d.replay, e.keyId, e.nonce, e.sequence);
  }

  lemma RemoveReplayKeeps(d: Database, e: Envelope)
    requires Sound(d)
    ensures Sound(RemoveReplay(d, e)) && Progresses(d, RemoveReplay(d, e))
  {
    RemoveKeepsConsistent(d.replay, e.keyId, e.nonce, e.sequence);
  }

  lemma PrepareKeeps(d: Database, message: Message, outer: Outer, authentic: bool)
    requires Sound(d)
    ensures Sound(Prepare(d, message, outer, authentic).0)
    ensures Progresses(d, Prepare(d, message, outer, authentic).0)
  {
    var e := message.original;
    if Prepare(d, message, outer, authentic).0 != d {
      RecordKeepsConsistent(d.replay, outer.keyId, outer.nonce, outer.sequence);
      RecordKeepsConsistent(Record(d.replay, outer.keyId, outer.nonce, outer.sequence), e.keyId, e.nonce, e.sequence);
    }
  }

  lemma AbortKeeps(d: Database, id: string)
    requires Sound(d)
    ensures Sound(Abort(d, id)) && Progresses(d, Abort(d, id))
  {
    if id in d.prepared {
      var p := d.prepared[id];
      RemoveKeepsConsistent(d.replay, p.envelope.keyId, p.envelope.nonce, p.envelope.sequence);
      RemoveKeepsConsistent(Remove(d.replay, p.envelope.keyId, p.envelope.nonce, p.envelope.sequence),
                            p.original.keyId, p.original.nonce, p.original.sequence);
    }
  }

  lemma JournalExtended(journal: seq<Entry>, operations: map<string, OperationRow>, e: Entry, row: OperationRow)
    requires JournalMatches(journal, operations) && e.operationId !in operations
    requires row.epoch == e.epoch && row.generation == e.generation
    ensures JournalMatches(journal + [e], operations[e.operationId := row])
  {
    var all := journal + [e];
    assert EntryIds(all) == EntryIds(journal) + {e.operationId} by {
      assert all[|journal|] in all;
      forall x | x in journal ensures x in all {}
    }
    forall x | x in journal ensures x.operationId in operations {
      assert x.operationId in EntryIds(journal);
    }
  }

  lemma EpochsExtended(journal: seq<Entry>, epoch: nat, e: Entry)
    requires EpochsInOrder(journal, epoch) && epoch <= e.epoch
    ensures EpochsInOrder(journal + [e], e.epoch)
  {
    forall i | 0 <= i < |journal| ensures journal[i].epoch <= epoch {
      assert journal[i] in journal;
    }
  }

  lemma LocalCommitJournal(d: Database, message: Message, outer: Outer)
    requires JournalMatches(d.journal, d.operations) && EpochsInOrder(d.journal, d.epoch)
    requires LocalCommit(d, message, outer).Some?
    ensures var u := LocalCommit(d, message, outer).value;
            JournalMatches(u.journal, u.operations) && EpochsInOrder(u.journal, u.epoch)
  {
    var id := message.operationId;
    var row := OperationRow(message.source, message.epoch, message.generation, message.original.fingerprint, Pending);
    var entry := Entry(id, message.kind, message.payload, message.epoch, message.generation);
    JournalExtended(d.journal, d.operations, entry, row);
    EpochsExtended(d.journal, d.epoch, entry);
  }

  lemma LocalCommitOutbox(d: Database, message: Message, outer: Outer)
    requires OutboxMatches(d.outbox, d.operations)
    requires LocalCommit(d, message, outer).Some? && ValidInput(message, outer)
    ensures var u := LocalCommit(d, message, outer).value; OutboxMatches(u.outbox, u.operations)
  {
    var id := message.operationId;
    var fp := message.original.fingerprint;
    var row := OperationRow(message.source, message.epoch, message.generation, fp, Pending);
    OutboxAppended(d.outbox, d.operations, OutboxRow(id, message, outer, fp), row);
  }

  lemma LocalCommitProgresses(d: Database, message: Message, outer: Outer)
    requires LocalCommit(d, message, outer).Some? && d.generation <= message.generation
    ensures Progresses(d, LocalCommit(d, message, outer).value)
  {
  }

  lemma LocalCommitKeeps(d: Database, message: Message, outer: Outer)
    requires Sound(d) && LocalCommit(d, message, outer).Some?
    requires ValidInput(message, outer) && d.generation <= message.generation
    ensures Sound(LocalCommit(d, message, outer).value)
    ensures Progresses(d, LocalCommit(d, message, outer).value)
  {
    LocalCommitJournal(d, message, outer);
    LocalCommitOutbox(d, message, outer);
    LocalCommitProgresses(d, message, outer);
  }

  lemma JournalMarked(journal: seq<Entry>, operations: map<string, OperationRow>, id: string)
    requires JournalMatches(journal, operations) && id in operations
    ensures JournalMatches(journal, operations[id := operations[id].(state := Committed)])
  {
  }

  lemma MarkReplicatedKeeps(d: Database, id: string)
    requires Sound(d)
    ensures Sound(MarkReplicated(d, id)) && Progresses(d, MarkReplicated(d, id))
  {
    if id in d.operations {
      OutboxMarked(d.outbox, d.operations, id);
      JournalMarked(d.journal, d.operations, id);
    } else {
      DroppedDistinct(d.outbox, id);
      forall r | r in d.outbox ensures r.operationId != id {
        assert r.operationId in OutboxIds(d.outbox);
      }
      assert OutboxIds(Dropped(d.outbox, id)) == OutboxIds(d.outbox);
    }
  }

  // What a commit that applies an operation writes.
  lemma CommitWrites(d: Database, id: string)
    requires id !in d.operations && Commit(d, id).1 == Yes
    ensures id in d.prepared
    ensures var u, p := Commit(d, id).0, d.prepared[id];
            && u.journal == d.journal + [Entry(id, p.kind, p.payload, p.epoch, p.generation)]
            && u.operations == d.operations[id := CommittedRow(p)] && u.outbox == d.outbox
            && u.epoch == p.epoch && d.epoch <= p.epoch
  {
  }

  /** A commit call answers yes exactly if the operation is committed here afterwards. */
  lemma CommitYesMeansCommitted(d: Database, id: string)
    ensures var (u, reply) := Commit(d, id);
            && (reply == Yes <==> id in u.operations && u.operations[id].state == Committed)
            && (reply != Yes ==> u == d)
  {
  }

  lemma CommitRows(b: Database, id: string)
    ensures var (b1, reply) := Commit(b, id);
            b1.prepared == if id !in b.operations && reply == Yes then b.prepared - {id} else b.prepared
  {
  }

  lemma CommitPolicies(b: Database, id: string)
    requires id !in b.operations && Commit(b, id).1 == Yes && id in b.prepared
    ensures var p := b.prepared[id];
            && (p.kind == Policy ==> p.generation !in b.policies)
            && Commit(b, id).0.policies == if p.kind == Policy then b.policies[p.generation := p.original] else b.policies
  {
  }

  lemma CommitJournal(d: Database, id: string)
    requires JournalMatches(d.journal, d.operations) && EpochsInOrder(d.journal, d.epoch)
    ensures var u := Commit(d, id).0; JournalMatches(u.journal, u.operations) && EpochsInOrder(u.journal, u.epoch)
  {
    if id !in d.operations && Commit(d, id).1 == Yes {
      CommitWrites(d, id);
      var p := d.prepared[id];
      var entry := Entry(id, p.kind, p.payload, p.epoch, p.generation);
      JournalExtended(d.journal, d.operations, entry, CommittedRow(p));
      EpochsExtended(d.journal, d.epoch, entry);
    }
  }

  lemma CommitOutbox(d: Database, id: string)
    requires OutboxMatches(d.outbox, d.operations)
    ensures var u := Commit(d, id).0; OutboxMatches(u.outbox, u.operations)
  {
    if id !in d.operations && Commit(d, id).1 == Yes {
      var p := d.prepared[id];
      OutboxUnaffected(d.outbox, d.operations, id,
                       CommittedRow(p));
    }
  }

  lemma CommitProgresses(d: Database, id: string)
    ensures Progresses(d, Commit(d, id).0)
  {
    if id !in d.operations && Commit(d, id).1 == Yes {
      CommitWrites(d, id);
    }
  }

  lemma CommitKeeps(d: Database, id: string)
    requires Sound(d)
    ensures Sound(Commit(d, id).0) && Progresses(d, Commit(d, id).0)
  {
    CommitJournal(d, id);
    CommitOutbox(d, id);
    CommitProgresses(d, id);
  }

  lemma FenceKeeps(d: Database, epoch: nat)
    requires Sound(d)
    ensures Sound(Fence(d, epoch).0) && Progresses(d, Fence(d, epoch).0)
    ensures Fence(d, epoch).1 ==> Fence(d, epoch).0.role == Follower && Fence(d, epoch).0.epoch == epoch
  {
  }

  lemma PromoteSwapKeeps(d: Database, e: Envelope, receiptEpoch: nat)
    requires Sound(d) && PromoteSwap(d, e, receiptEpoch).Some?
    ensures Sound(PromoteSwap(d, e, receiptEpoch).value) && Progresses(d, PromoteSwap(d, e, receiptEpoch).value)
  {
    RecordKeepsConsistent(d.replay, e.keyId, e.nonce, e.sequence);
  }

  /** A prepare call is refused, and changes nothing, unless both envelopes authenticate, the
      message is the one signed, its kind is known, and payload, id and fingerprint are those
      of the original envelope. */
  lemma ForgedPrepareRefused(d: Database, message: Message, outer: Outer, authentic: bool)
    requires var e := message.original;
             || !authentic || outer.message != message || message.kind == Unknown || message.payload != e.payload
             || message.operationId != (if e.payload.operationId.Some? then e.payload.operationId.value else e.nonce)
             || (message.fingerprint.Some? && message.fingerprint.value != e.fingerprint)
    ensures Prepare(d, message, outer, authentic) == (d, false)
  {
  }

  /** A newly recorded prepare followed by abort is the identity on every table. */
  lemma AbortUndoesPrepare(d: Database, message: Message, outer: Outer, authentic: bool)
    requires Consistent(d.replay)
    requires message.operationId !in d.prepared
    ensures Abort(Prepare(d, message, outer, authentic).0, message.operationId) == d
  {
    var u := Prepare(d, message, outer, authentic).0;
    var e := message.original;
    if u != d {
      RemoveUndoesTwoRecords(d.replay, outer.keyId, outer.nonce, outer.sequence, e.keyId, e.nonce, e.sequence);
      assert u.prepared - {message.operationId} == d.prepared;
    }
  }
}
