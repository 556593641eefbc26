// One epoch of an active controller and its standby. `mutate` and
// `recover_pending_operations` hold the active's lock from start to end, so each
// is one function on the pair of databases; `Failover` interleaves their steps.
module Replication {
  import opened Wrappers
  import opened Replay
  import opened ControllerTables

  datatype Outcome = Accepted | Unfinished | Refusal

  // The signing key of the active, if it has one, and the fresh nonce of its envelope.
  datatype Signer = NoSigner | Signer(keyId: string, nonce: string)

  datatype Net = Net(prepare: Fate, authentic: bool, commit: Fate)

  const REACHABLE := Net(Answered, true, Answered)

  function PrepareCall(b: Database, m: Message, o: Outer, net: Net): (Database, bool) {
    if net.prepare == NotDelivered then (b, false)
    else
      var (u, ok) := Prepare(b, m, o, net.authentic);
      (u, ok && net.prepare == Answered)
  }

  function CommitCall(b: Database, id: string, net: Net): (Database, Reply) {
    if net.commit == NotDelivered then (b, No)
    else
      var (u, reply) := Commit(b, id);
      (u, if net.commit == Answered then reply else No)
  }

  ghost function GiveUp(a: Database, b: Database, m: Message): (Database, Database, Outcome) {
    (RemoveReplay(a, m.original), Abort(b, m.operationId), Refusal)
  }

  /** `mutate` once its replay slot is held; aborts always take effect. */
  ghost function SendAndCommit(held: Database, b: Database, m: Message, keyId: string, nonce: string, net: Net)
    : (Database, Database, Outcome)
  {
    var o := SignMessage(held, keyId, nonce, m);
    var signed := CountOutbound(held, keyId);
    var (prepared, ok) := PrepareCall(b, m, o, net);
    if !ok then GiveUp(signed, prepared, m)
    else
      match LocalCommit(signed, m, o)
      case None => GiveUp(signed, prepared, m)
      case Some(pending) =>
        var (committed, reply) := CommitCall(prepared, m.operationId, net);
        if reply == Yes then (MarkReplicated(pending, m.operationId), committed, Accepted)
        else (pending, committed, Unfinished)
  }

  /** `mutate` at `a` with standby `b`. */
  ghost function Mutate(a: Database, b: Database, self: string, req: Request, signer: Signer, net: Net)
    : (Database, Database, Outcome)
  {
    match Reserve(a, self, req)
    case Refused => (a, b, Refusal)
    case AlreadyCommitted => (a, b, Accepted)
    case Reserved(held, m) =>
      match signer
      case NoSigner => GiveUp(held, b, m)
      case Signer(keyId, nonce) => SendAndCommit(held, b, m, keyId, nonce, net)
  }

  /** One outbox row of `recover_pending_operations`; false when an exception ended the loop. */
  function RecoverRow(a: Database, b: Database, row: OutboxRow, net: Net): (Database, Database, bool) {
    var (prepared, ok) := PrepareCall(b, row.message, row.envelope, net);
    if !ok then (a, prepared, true)
    else
      var (committed, reply) := CommitCall(prepared, row.message.operationId, net);
      match reply
      case Yes => (MarkReplicated(a, row.message.operationId), committed, true)
      case No => (a, committed, true)
      case Raised => (a, committed, false)
  }

  // `nets[i]` is the fate of the calls made for `rows[i]`.
  function RecoverRows(a: Database, b: Database, rows: seq<OutboxRow>, nets: seq<Net>): (Database, Database)
    requires |nets| == |rows|
    decreases |rows|
  {
    if rows == [] then (a, b)
    else
      var (a1, b1, more) := RecoverRow(a, b, rows[0], nets[0]);
      if more then RecoverRows(a1, b1, rows[1..], nets[1..]) else (a1, b1)
  }

  /** The ids `recover_pending_operations` reports, in the order it recovered them. */
  function RecoveredIds(a: Database, b: Database, rows: seq<OutboxRow>, nets: seq<Net>): seq<string>
    requires |nets| == |rows|
    decreases |rows|
  {
    if rows == [] then []
    else
      var (a1, b1, more) := RecoverRow(a, b, rows[0], nets[0]);
      (if RowRecovered(b, rows[0], nets[0]) then [rows[0].message.operationId] else []) +
      (if more then RecoveredIds(a1, b1, rows[1..], nets[1..]) else [])
  }

  function RecoverFrom(a: Database, b: Database, rows: seq<OutboxRow>, nets: seq<Net>, i: nat): (Database, Database)
    requires |nets| == |rows| && i <= |rows|
  {
    RecoverRows(a, b, rows[i..], nets[i..])
  }

  function RecoveredFrom(a: Database, b: Database, rows: seq<OutboxRow>, nets: seq<Net>, i: nat): seq<string>
    requires |nets| == |rows| && i <= |rows|
  {
    RecoveredIds(a, b, rows[i..], nets[i..])
  }

  lemma RecoverAll(a: Database, b: Database, rows: seq<OutboxRow>, nets: seq<Net>)
    requires |nets| == |rows|
    ensures RecoverFrom(a, b, rows, nets, 0) == RecoverRows(a, b, rows, nets)
    ensures RecoveredFrom(a, b, rows, nets, 0) == RecoveredIds(a, b, rows, nets)
  {
    assert rows[0..] == rows && nets[0..] == nets;
  }

  lemma RecoverNext(a: Database, b: Database, rows: seq<OutboxRow>, nets: seq<Net>, i: nat, before: seq<string>)
    requires |nets| == |rows| && i < |rows|
    ensures var (a1, b1, more) := RecoverRow(a, b, rows[i], nets[i]);
            var recovered := if RowRecovered(b, rows[i], nets[i]) then before + [rows[i].message.operationId] else before;
            && RecoverFrom(a, b, rows, nets, i) == (if more then RecoverFrom(a1, b1, rows, nets, i + 1) else (a1, b1))
            && before + RecoveredFrom(a, b, rows, nets, i)
               == (if more then recovered + RecoveredFrom(a1, b1, rows, nets, i + 1) else recovered)
  {
    RecoverHead(a, b, rows[i..], nets[i..], before);
    assert rows[i..][0] == rows[i] && nets[i..][0] == nets[i];
    assert rows[i..][1..] == rows[i + 1..] && nets[i..][1..] == nets[i + 1..];
  }

  lemma RecoverHead(a: Database, b: Database, rows: seq<OutboxRow>, nets: seq<Net>, before: seq<string>)
    requires |nets| == |rows| && rows != []
    ensures var (a1, b1, more) := RecoverRow(a, b, rows[0], nets[0]);
            var recovered := if RowRecovered(b, rows[0], nets[0]) then before + [rows[0].message.operationId] else before;
            && RecoverRows(a, b, rows, nets) == (if more then RecoverRows(a1, b1, rows[1..], nets[1..]) else (a1, b1))
            && before + RecoveredIds(a, b, rows, nets)
               == (if more then recovered + RecoveredIds(a1, b1, rows[1..], nets[1..]) else recovered)
  {
    var (a1, b1, more) := RecoverRow(a, b, rows[0], nets[0]);
    var first := if RowRecovered(b, rows[0], nets[0]) then [rows[0].message.operationId] else [];
    Concatenated(before, first, if more then RecoveredIds(a1, b1, rows[1..], nets[1..]) else []);
  }

  lemma Concatenated(x: seq<string>, y: seq<string>, z: seq<string>)
    ensures x + (y + z) == (x + y) + z && x + [] == x && (x + y) + [] == x + y
  {
  }

  lemma RecoverNone(a: Database, b: Database, rows: seq<OutboxRow>, nets: seq<Net>)
    requires |nets| == |rows|
    ensures RecoverFrom(a, b, rows, nets, |rows|) == (a, b) && RecoveredFrom(a, b, rows, nets, |rows|) == []
  {
  }

  predicate RowRecovered(b: Database, row: OutboxRow, net: Net) {
    var (prepared, ok) := PrepareCall(b, row.message, row.envelope, net);
    ok && CommitCall(prepared, row.message.operationId, net).1 == Yes
  }

  /** `promote` at `a`, asking `b` to fence itself first. */
  function Promote(a: Database, b: Database, e: Envelope, receiptEpoch: nat,
                   authentic: bool, verified: bool, fate: Fate): (Database, Database, bool)
  {
    if !MayPromote(a, receiptEpoch, authentic, verified) || fate == NotDelivered then (a, b, false)
    else
      var (fenced, ok) := Fence(b, receiptEpoch);
      if !ok || fate != Answered then (a, fenced, false)
      else
        match PromoteSwap(a, e, receiptEpoch)
        case None => (a, fenced, false)
        case Some(promoted) => (promoted, fenced, true)
  }

  // ---- the invariant of one epoch -------------------------------------------------

  predicate PolicyRow(b: Database, id: string, generation: nat) {
    id in b.prepared && b.prepared[id].kind == Policy && b.prepared[id].generation == generation
  }

  /** A prepared row at the standby is the active's pending operation, ready to be applied. */
  predicate PreparedOk(a: Database, b: Database, id: string)
    requires id in b.prepared
  {
    var p := b.prepared[id];
    && IsPending(a.operations, id)
    && id !in b.operations
    && p.fingerprint == a.operations[id].fingerprint
    && p.epoch == b.epoch
    && p.generation <= a.generation
    && Applicable(p.kind, p.payload)
    && (p.kind == Policy ==> p.generation in a.policies && a.policies[p.generation] == p.original
                             && p.generation !in b.policies)
  }

  ghost predicate OperationsPaired(a: Database, b: Database) {
    && (forall id :: id in b.operations ==>
          && id in a.operations && b.operations[id].state == Committed
          && b.operations[id].fingerprint == a.operations[id].fingerprint)
    && (forall id :: id in a.operations ==> id in b.operations || id in b.prepared)
    && (forall id :: id in b.prepared ==> PreparedOk(a, b, id))
  }

  ghost predicate PoliciesPaired(a: Database, b: Database) {
    && (forall g :: g in b.policies ==> g in a.policies && a.policies[g] == b.policies[g])
    && (forall g :: g in a.policies && g !in b.policies ==> exists id :: PolicyRow(b, id, g))
    && (forall x, y, g :: PolicyRow(b, x, g) && PolicyRow(b, y, g) ==> x == y)
  }

  /** Active and standby in one epoch. Every pending operation of the active is
      prepared or committed at the standby, and nothing else is prepared there. */
  ghost predicate Paired(a: Database, b: Database) {
    && Sound(a) && Sound(b)
    && a.role == Active && b.role != Active
    && a.epoch == b.epoch
    && b.generation <= a.generation
    && OperationsPaired(a, b)
    && PoliciesPaired(a, b)
  }

  // ---- the steps of mutate ----------------------------------------------------------

  /** Giving up restores both databases, whatever became of the prepare call. */
  lemma GiveUpRestores(a: Database, b: Database, self: string, req: Request, signed: Database, o: Outer, net: Net)
    requires Sound(a) && Sound(b) && Reserve(a, self, req).Reserved?
    requires signed == Reserve(a, self, req).db.(outbound := signed.outbound)
    requires OperationId(req.envelope) !in b.prepared
    ensures var m := MakeMessage(a, self, req);
            var (a', b', out) := GiveUp(signed, PrepareCall(b, m, o, net).0, m);
            out == Refusal && b' == b && a' == a.(outbound := signed.outbound)
  {
    var m := MakeMessage(a, self, req);
    var e := req.envelope;
    RemoveUndoesRecord(a.replay, e.keyId, e.nonce, e.sequence);
    AbortUndoesPrepare(b, m, o, net.authentic);
  }

  function PreparedFrom(m: Message, o: Outer): PreparedRow {
    PreparedRow(m.source, m.epoch, m.generation, m.kind, m.payload, o, m.original, m.original.fingerprint)
  }

  // What a first accepted prepare writes.
  lemma PrepareWrites(b: Database, m: Message, o: Outer, authentic: bool)
    requires Prepare(b, m, o, authentic).1 && m.operationId !in b.operations && m.operationId !in b.prepared
    ensures var b1 := Prepare(b, m, o, authentic).0;
            && b1 == b.(replay := b1.replay, prepared := b.prepared[m.operationId := PreparedFrom(m, o)])
            && b.epoch <= m.epoch && b.generation <= m.generation
  {
  }

  // What a local commit writes.
  lemma LocalCommitWrites(a: Database, m: Message, o: Outer)
    requires LocalCommit(a, m, o).Some?
    ensures var a1, id := LocalCommit(a, m, o).value, m.operationId;
            && id !in a.operations && m.epoch == a.epoch && Applicable(m.kind, m.payload)
            && a1.operations == a.operations[id := OperationRow(m.source, m.epoch, m.generation, m.original.fingerprint, Pending)]
            && (m.kind == Policy ==> m.generation !in a.policies)
            && a1.policies == (if m.kind == Policy then a.policies[m.generation := m.original] else a.policies)
            && a1.generation == m.generation && a1.role == a.role && a1.epoch == a.epoch
  {
  }

  predicate Applicable(kind: Kind, payload: Payload) {
    kind != Unknown && ValidPayload(kind, payload) && (kind == HostReport ==> payload.hostId != "")
  }

  /** After prepare and local commit the pair is paired again, with one more pending operation. */
  lemma PendingPaired(a: Database, b: Database, m: Message, o: Outer, authentic: bool)
    requires Paired(a, b) && ValidInput(m, o) && m.operationId !in a.operations
    requires a.generation <= m.generation && (m.kind == Policy ==> a.generation < m.generation)
    requires Prepare(b, m, o, authentic).1
    requires LocalCommit(a, m, o).Some?
    ensures var b1 := Prepare(b, m, o, authentic).0;
            var a1 := LocalCommit(a, m, o).value;
            && Paired(a1, b1) && m.operationId in b1.prepared && m.operationId !in b1.operations
            && a1.operations[m.operationId].fingerprint == m.original.fingerprint
            && IsPending(a1.operations, m.operationId)
  {
    var b1 := Prepare(b, m, o, authentic).0;
    var a1 := LocalCommit(a, m, o).value;
    LocalCommitKeeps(a, m, o);
    PrepareKeeps(b, m, o, authentic);
    NotHeld(a, b, m.operationId);
    PrepareWrites(b, m, o, authentic);
    LocalCommitWrites(a, m, o);
    PendingOperations(a, b, a1, b1, m, PreparedFrom(m, o));
    PendingPolicies(a, b, a1, b1, m, PreparedFrom(m, o));
  }

  lemma NotHeld(a: Database, b: Database, id: string)
    requires OperationsPaired(a, b) && id !in a.operations
    ensures id !in b.operations && id !in b.prepared
  {
    assert id in b.prepared ==> PreparedOk(a, b, id);
  }

  /** Applying the held row writes what applying the message writes. */
  predicate HeldFor(row: PreparedRow, m: Message) {
    && row.kind == m.kind && row.payload == m.payload
    && row.epoch == m.epoch && row.generation == m.generation
    && (m.kind == Policy ==> row.original == m.original)
  }

  lemma PendingOperations(a: Database, b: Database, a1: Database, b1: Database, m: Message, row: PreparedRow)
    requires OperationsPaired(a, b) && m.operationId !in a.operations && m.operationId !in b.operations
    requires HeldFor(row, m) && row.fingerprint == m.original.fingerprint
    requires a1.operations == a.operations[m.operationId := OperationRow(m.source, m.epoch, m.generation, m.original.fingerprint, Pending)]
    requires b1 == b.(replay := b1.replay, prepared := b.prepared[m.operationId := row])
    requires m.epoch == b.epoch && a.generation <= m.generation == a1.generation && Applicable(m.kind, m.payload)
    requires a1.policies == if m.kind == Policy then a.policies[m.generation := m.original] else a.policies
    requires m.kind == Policy ==> m.generation !in a.policies && m.generation !in b.policies
    ensures OperationsPaired(a1, b1)
  {
    forall x | x in b1.prepared ensures PreparedOk(a1, b1, x) {
      if x != m.operationId {
        assert PreparedOk(a, b, x);
      }
    }
  }

  lemma PendingPolicies(a: Database, b: Database, a1: Database, b1: Database, m: Message, row: PreparedRow)
    requires OperationsPaired(a, b) && PoliciesPaired(a, b) && m.operationId !in b.prepared
    requires b1 == b.(replay := b1.replay, prepared := b.prepared[m.operationId := row]) && HeldFor(row, m)
    requires a1.policies == if m.kind == Policy then a.policies[m.generation := m.original] else a.policies
    requires m.kind == Policy ==> a.generation < m.generation && m.generation !in a.policies
    ensures PoliciesPaired(a1, b1)
  {
    var id := m.operationId;
    forall x, g ensures PolicyRow(b1, x, g) <==> (PolicyRow(b, x, g) || (x == id && m.kind == Policy && g == m.generation)) {
    }
    forall g | g in a1.policies && g !in b1.policies ensures exists x :: PolicyRow(b1, x, g) {
      if g in a.policies {
        var x :| PolicyRow(b, x, g);
        assert PolicyRow(b1, x, g);
      } else {
        assert PolicyRow(b1, id, g);
      }
    }
    forall x, g: nat | PolicyRow(b, x, g) ensures g <= a.generation {
      assert PreparedOk(a, b, x);
    }
  }

  // What the standby's commit of a prepared row writes.
  lemma CommitHeld(b: Database, id: string)
    requires id in b.prepared && id !in b.operations && b.prepared[id].epoch == b.epoch
    requires Applicable(b.prepared[id].kind, b.prepared[id].payload)
    requires b.prepared[id].kind == Policy ==> b.prepared[id].generation !in b.policies
    ensures Commit(b, id).1 == Yes && CommittedFrom(b, Commit(b, id).0, id)
  {
  }

  predicate CommittedFrom(b: Database, b1: Database, id: string)
    requires id in b.prepared
  {
    var p := b.prepared[id];
    && b1.operations == b.operations[id := CommittedRow(p)] && b1.prepared == b.prepared - {id}
    && b1.policies == (if p.kind == Policy then b.policies[p.generation := p.original] else b.policies)
    && b1.role == b.role && b1.epoch == b.epoch
    && b1.generation == if p.generation > b.generation then p.generation else b.generation
  }

  /** A commit call at the standby for an operation it holds keeps the pair paired,
      and an answered one reports success. */
  lemma CommitPaired(a: Database, b: Database, id: string)
    requires Paired(a, b) && id in a.operations
    ensures var (b1, reply) := Commit(b, id);
            Paired(a, b1) && reply == Yes && id in b1.operations && id !in b1.prepared
  {
    CommitKeeps(b, id);
    assert id in b.prepared ==> PreparedOk(a, b, id);
    if id in b.prepared {
      var b1 := Commit(b, id).0;
      CommitHeld(b, id);
      CommittedOperations(a, b, b1, id);
      CommittedPolicies(a, b, b1, id);
    }
  }

  lemma CommittedOperations(a: Database, b: Database, b1: Database, id: string)
    requires OperationsPaired(a, b) && PoliciesPaired(a, b) && id in b.prepared && CommittedFrom(b, b1, id)
    ensures OperationsPaired(a, b1)
  {
    assert PreparedOk(a, b, id);
    forall x | x in b1.prepared ensures PreparedOk(a, b1, x) {
      assert PreparedOk(a, b, x);
      if b.prepared[x].kind == Policy && b.prepared[id].kind == Policy {
        assert PolicyRow(b, x, b.prepared[x].generation) && PolicyRow(b, id, b.prepared[id].generation);
      }
    }
  }

  lemma CommittedPolicies(a: Database, b: Database, b1: Database, id: string)
    requires PoliciesPaired(a, b) && id in b.prepared && PreparedOk(a, b, id) && CommittedFrom(b, b1, id)
    ensures PoliciesPaired(a, b1)
  {
    forall x, g ensures PolicyRow(b1, x, g) <==> PolicyRow(b, x, g) && x != id {
    }
    forall g | g in a.policies && g !in b1.policies ensures exists x :: PolicyRow(b1, x, g) {
      var x :| PolicyRow(b, x, g);
      assert PolicyRow(b1, x, g);
    }
  }

  lemma MarkPaired(a: Database, b: Database, id: string)
    requires Paired(a, b) && id in b.operations && id !in b.prepared
    ensures Paired(MarkReplicated(a, id), b)
    ensures id in a.operations && MarkReplicated(a, id).operations[id] == a.operations[id].(state := Committed)
  {
    MarkReplicatedKeeps(a, id);
    var a1 := MarkReplicated(a, id);
    forall x | x in b.prepared ensures PreparedOk(a1, b, x) {
      assert PreparedOk(a, b, x);
    }
  }

  // ---- the three outcomes of mutate -------------------------------------------------------

  predicate CommittedIn(d: Database, id: string, fp: string) {
    id in d.operations && d.operations[id].state == Committed && d.operations[id].fingerprint == fp
  }

  ghost predicate OutcomeHolds(a: Database, b: Database, a': Database, b': Database, out: Outcome,
                               id: string, fp: string)
  {
    match out
    case Accepted => CommittedIn(a', id, fp) && CommittedIn(b', id, fp)
    case Unfinished =>
      && IsPending(a'.operations, id) && a'.operations[id].fingerprint == fp
      && id in OutboxIds(a'.outbox)
      && (CommittedIn(b', id, fp) || (id in b'.prepared && b'.prepared[id].fingerprint == fp))
    case Refusal => b' == b && a' == a.(outbound := a'.outbound)
  }

  /** Committed at both; or pending at the active with an outbox row while the
      standby holds it prepared or committed; or refused with both databases as
      they were, but for the active's count of signed envelopes. */
  lemma MutateOutcomes(a: Database, b: Database, self: string, req: Request, signer: Signer, net: Net)
    requires Paired(a, b)
    ensures var (a', b', out) := Mutate(a, b, self, req, signer, net);
            Paired(a', b') && OutcomeHolds(a, b, a', b', out, OperationId(req.envelope), req.envelope.fingerprint)
  {
    var id := OperationId(req.envelope);
    match Reserve(a, self, req) {
      case Refused =>
      case AlreadyCommitted =>
        assert id in b.operations by {
          assert id in b.prepared ==> PreparedOk(a, b, id);
        }
      case Reserved(held, m) => ReservedOutcomes(a, b, self, req, signer, net);
    }
  }

  lemma OutboundPaired(a: Database, b: Database, a1: Database)
    requires Paired(a, b) && a1 == a.(outbound := a1.outbound)
    ensures Paired(a1, b)
  {
    SideTablesKeep(a, a1);
    forall x | x in b.prepared ensures PreparedOk(a1, b, x) {
      assert PreparedOk(a, b, x);
    }
  }

  lemma ReplayPaired(a: Database, b: Database, a1: Database)
    requires Paired(a, b) && a1 == a.(replay := a1.replay, outbound := a1.outbound) && Consistent(a1.replay)
    ensures Paired(a1, b)
  {
    forall x | x in b.prepared ensures PreparedOk(a1, b, x) {
      assert PreparedOk(a, b, x);
    }
  }

  lemma GaveUpOutcome(a: Database, b: Database, self: string, req: Request, signed: Database, o: Outer, net: Net)
    requires Paired(a, b) && Reserve(a, self, req).Reserved?
    requires signed == Reserve(a, self, req).db.(outbound := signed.outbound)
    requires OperationId(req.envelope) !in b.prepared
    ensures var m := MakeMessage(a, self, req);
            var (a', b', out) := GiveUp(signed, PrepareCall(b, m, o, net).0, m);
            Paired(a', b') && OutcomeHolds(a, b, a', b', out, OperationId(req.envelope), req.envelope.fingerprint)
  {
    GiveUpRestores(a, b, self, req, signed, o, net);
    OutboundPaired(a, b, a.(outbound := signed.outbound));
  }

  lemma ReservedOutcomes(a: Database, b: Database, self: string, req: Request, signer: Signer, net: Net)
    requires Paired(a, b) && Reserve(a, self, req).Reserved?
    ensures var (a', b', out) := Mutate(a, b, self, req, signer, net);
            Paired(a', b') && OutcomeHolds(a, b, a', b', out, OperationId(req.envelope), req.envelope.fingerprint)
  {
    var m := MakeMessage(a, self, req);
    var held := Reserve(a, self, req).db;
    assert OperationId(req.envelope) !in b.prepared by {
      assert OperationId(req.envelope) in b.prepared ==> PreparedOk(a, b, OperationId(req.envelope));
    }
    match signer {
      case NoSigner =>
        GaveUpOutcome(a, b, self, req, held, Outer("", "", 0, m), Net(NotDelivered, false, NotDelivered));
      case Signer(keyId, nonce) => SentOutcome(a, b, self, req, keyId, nonce, net);
    }
  }

  lemma SentOutcome(a: Database, b: Database, self: string, req: Request, keyId: string, nonce: string, net: Net)
    requires Paired(a, b) && Reserve(a, self, req).Reserved? && OperationId(req.envelope) !in b.prepared
    ensures var m := MakeMessage(a, self, req);
            var (a', b', out) := SendAndCommit(Reserve(a, self, req).db, b, m, keyId, nonce, net);
            Paired(a', b') && OutcomeHolds(a, b, a', b', out, OperationId(req.envelope), req.envelope.fingerprint)
  {
    var m := MakeMessage(a, self, req);
    var held := Reserve(a, self, req).db;
    var o := SignMessage(held, keyId, nonce, m);
    var signed := CountOutbound(held, keyId);
    if PrepareCall(b, m, o, net).1 && LocalCommit(signed, m, o).Some? {
      ReserveKeeps(a, self, req);
      ReplayPaired(a, b, signed);
      FinishOutcomes(signed, b, m, o, net);
    } else {
      GaveUpOutcome(a, b, self, req, signed, o, net);
    }
  }

  /** The end of `mutate`, once both sides hold the operation. */
  lemma FinishOutcomes(a: Database, b: Database, m: Message, o: Outer, net: Net)
    requires Paired(a, b) && ValidInput(m, o) && m.operationId !in a.operations
    requires a.generation <= m.generation && (m.kind == Policy ==> a.generation < m.generation)
    requires PrepareCall(b, m, o, net).1 && LocalCommit(a, m, o).Some?
    ensures var id := m.operationId;
            var fp := m.original.fingerprint;
            var pending := LocalCommit(a, m, o).value;
            var (committed, reply) := CommitCall(PrepareCall(b, m, o, net).0, id, net);
            && Paired(pending, committed)
            && OutcomeHolds(a, b, pending, committed, Unfinished, id, fp)
            && (reply == Yes ==>
                  && Paired(MarkReplicated(pending, id), committed)
                  && OutcomeHolds(a, b, MarkReplicated(pending, id), committed, Accepted, id, fp))
  {
    var id := m.operationId;
    PendingPaired(a, b, m, o, net.authentic);
    var pending := LocalCommit(a, m, o).value;
    var prepared := PrepareCall(b, m, o, net).0;
    assert id in OutboxIds(pending.outbox);
    assert PreparedOk(pending, prepared, id);
    CommitPaired(pending, prepared, id);
    var (committed, reply) := CommitCall(prepared, id, net);
    if reply == Yes { MarkPaired(pending, committed, id); }
  }

  /** With nothing wrong in the request itself, acceptance depends on the network alone. */
  lemma MutateAcceptsExactly(a: Database, b: Database, self: string, req: Request, signer: Signer, net: Net)
    requires Paired(a, b) && Reserve(a, self, req).Reserved? && signer.Signer?
    requires req.kind != Unknown && (req.kind == HostReport ==> req.envelope.payload.hostId != "")
    requires var e := req.envelope;
             var sequence := NextOutbound(a, signer.keyId);
             && Acceptable(b.replay, signer.keyId, signer.nonce, sequence)
             && Acceptable(Record(b.replay, signer.keyId, signer.nonce, sequence), e.keyId, e.nonce, e.sequence)
    ensures var (a', b', out) := Mutate(a, b, self, req, signer, net);
            && (out == Accepted <==> net == REACHABLE)
            && (out == Unfinished <==> net.prepare == Answered && net.authentic && net.commit != Answered)
  {
    var id := OperationId(req.envelope);
    var m := MakeMessage(a, self, req);
    var held := Reserve(a, self, req).db;
    var o := SignMessage(held, signer.keyId, signer.nonce, m);
    var signed := CountOutbound(held, signer.keyId);
    assert id !in b.prepared && id !in b.operations by {
      assert id in b.prepared ==> PreparedOk(a, b, id);
    }
    FreshPrepare(b, m, o, net);
    FreshLocalCommit(signed, m, o);
    if PrepareCall(b, m, o, net).1 {
      assert Paired(signed, b) by {
        ReserveKeeps(a, self, req);
        ReplayPaired(a, b, signed);
      }
      FreshCommit(signed, b, m, o, net);
    }
  }

  /** A request that is not authentic changes nothing at either side. */
  lemma ForgedMutateRefused(a: Database, b: Database, self: string, req: Request, signer: Signer, net: Net)
    requires !req.authentic
    ensures Mutate(a, b, self, req, signer, net) == (a, b, Refusal)
  {
  }

  /** What a new request must satisfy at the active: a known kind, the expected epoch and
      generation it names, and a nonce and sequence that are not spent. */
  predicate Sendable(a: Database, req: Request) {
    var e := req.envelope;
    && req.kind != Unknown && (req.kind == HostReport ==> e.payload.hostId != "")
    && (e.payload.expectedEpoch == Absent || e.payload.expectedEpoch == Exactly(a.epoch))
    && (e.payload.expectedGeneration == Absent || e.payload.expectedGeneration == Exactly(a.generation))
    && e.nonce !in a.replay.nonces && (e.keyId in a.replay.sequences ==> a.replay.sequences[e.keyId] < e.sequence)
  }

  /** What the standby must not have seen: the nonce and sequence of the active's own
      envelope, and after those the nonce and sequence of the request. */
  predicate Receivable(a: Database, b: Database, req: Request, keyId: string, nonce: string) {
    var e := req.envelope;
    var sequence := if keyId in a.outbound then a.outbound[keyId] + 1 else 1;
    && nonce !in b.replay.nonces && (keyId in b.replay.sequences ==> b.replay.sequences[keyId] < sequence)
    && e.nonce !in b.replay.nonces && e.nonce != nonce
    && (if e.keyId == keyId then sequence < e.sequence
        else e.keyId in b.replay.sequences ==> b.replay.sequences[e.keyId] < e.sequence)
  }

  /** Which requests are accepted, which stay pending, and which are refused. */
  lemma MutateExactly(a: Database, b: Database, self: string, req: Request, signer: Signer, net: Net)
    requires Paired(a, b)
    ensures var e := req.envelope;
            var id := if e.payload.operationId.Some? then e.payload.operationId.value else e.nonce;
            var out := Mutate(a, b, self, req, signer, net).2;
            var heard := req.authentic && (req.kind == Quota ==> e.payload.quotaValid);
            var sent := && heard && id !in a.operations && Sendable(a, req)
                        && signer.Signer? && Receivable(a, b, req, signer.keyId, signer.nonce)
                        && net.prepare == Answered && net.authentic;
            && (out == Accepted
                <==> || (sent && net.commit == Answered)
                     || (heard && CommittedIn(a, id, e.fingerprint)))
            && (out == Unfinished <==> sent && net.commit != Answered)
  {
    if Reserve(a, self, req).Reserved? {
      assert OperationId(req.envelope) !in b.prepared && OperationId(req.envelope) !in b.operations by {
        assert OperationId(req.envelope) in b.prepared ==> PreparedOk(a, b, OperationId(req.envelope));
      }
      if signer.Signer? {
        SentExactly(a, b, self, req, signer, net);
      }
    }
  }

  lemma SentExactly(a: Database, b: Database, self: string, req: Request, signer: Signer, net: Net)
    requires Paired(a, b) && Reserve(a, self, req).Reserved? && signer.Signer?
    ensures var e := req.envelope;
            var out := Mutate(a, b, self, req, signer, net).2;
            var sent := && req.kind != Unknown && (req.kind == HostReport ==> e.payload.hostId != "")
                        && Receivable(a, b, req, signer.keyId, signer.nonce)
                        && net.prepare == Answered && net.authentic;
            (out == Accepted <==> sent && net.commit == Answered) && (out == Unfinished <==> sent && net.commit != Answered)
  {
    var e := req.envelope;
    if req.kind != Unknown && (req.kind == HostReport ==> e.payload.hostId != "")
       && Receivable(a, b, req, signer.keyId, signer.nonce) {
      MutateAcceptsExactly(a, b, self, req, signer, net);
    } else {
      var m := MakeMessage(a, self, req);
      var held := Reserve(a, self, req).db;
      assert OperationId(e) in b.prepared ==> PreparedOk(a, b, OperationId(e));
      if req.kind == Unknown || !Receivable(a, b, req, signer.keyId, signer.nonce) {
        NotReceived(a, b, req, signer.keyId, signer.nonce, m, net);
      } else {
        NotApplicable(CountOutbound(held, signer.keyId), m, SignMessage(held, signer.keyId, signer.nonce, m));
      }
    }
  }

  // Without that the standby does not prepare the message,
  lemma NotReceived(a: Database, b: Database, req: Request, keyId: string, nonce: string, m: Message, net: Net)
    requires m.original == req.envelope && m.kind == req.kind
    requires m.operationId !in b.operations && m.operationId !in b.prepared
    requires m.kind == Unknown || !Receivable(a, b, req, keyId, nonce)
    ensures !PrepareCall(b, m, SignMessage(a, keyId, nonce, m), net).1
  {
  }

  // or the active cannot apply it.
  lemma NotApplicable(a: Database, m: Message, o: Outer)
    requires m.kind == HostReport && m.payload.hostId == ""
    ensures LocalCommit(a, m, o).None?
  {
  }

  lemma FreshPrepare(b: Database, m: Message, o: Outer, net: Net)
    requires m.operationId !in b.prepared && m.operationId !in b.operations
    requires ValidInput(m, o) && b.epoch <= m.epoch && b.generation <= m.generation
    requires Acceptable(b.replay, o.keyId, o.nonce, o.sequence)
    requires Acceptable(Record(b.replay, o.keyId, o.nonce, o.sequence),
                        m.original.keyId, m.original.nonce, m.original.sequence)
    ensures PrepareCall(b, m, o, net).1 <==> net.prepare == Answered && net.authentic
  {
  }

  lemma FreshLocalCommit(a: Database, m: Message, o: Outer)
    requires a.role == Active && a.epoch == m.epoch && m.operationId !in a.operations
    requires m.kind != Unknown && ValidPayload(m.kind, m.payload) && (m.kind == HostReport ==> m.payload.hostId != "")
    requires m.kind == Policy ==> m.generation !in a.policies
    ensures LocalCommit(a, m, o).Some?
  {
  }

  lemma FreshCommit(a: Database, b: Database, m: Message, o: Outer, net: Net)
    requires Paired(a, b) && ValidInput(m, o) && m.operationId !in a.operations
    requires a.generation <= m.generation && (m.kind == Policy ==> a.generation < m.generation)
    requires PrepareCall(b, m, o, net).1 && LocalCommit(a, m, o).Some?
    ensures CommitCall(PrepareCall(b, m, o, net).0, m.operationId, net).1 == Yes <==> net.commit == Answered
  {
    PendingPaired(a, b, m, o, net.authentic);
    CommitPaired(LocalCommit(a, m, o).value, PrepareCall(b, m, o, net).0, m.operationId);
  }

  // ---- recovery --------------------------------------------------------------------------

  predicate Known(a: Database, row: OutboxRow) {
    row.operationId in a.operations && RowCoherent(row, a.operations[row.operationId])
  }

  /** Recovery adds no operation and no outbox row, and changes no row but its state. */
  ghost predicate OnlyMarks(a: Database, a': Database) {
    && a'.operations.Keys == a.operations.Keys
    && (forall id :: id in a.operations ==> a'.operations[id].(state := a.operations[id].state) == a.operations[id])
    && (forall r :: r in a'.outbox ==> r in a.outbox)
  }

  lemma RecoverRowPaired(a: Database, b: Database, row: OutboxRow, net: Net)
    requires Paired(a, b) && Known(a, row)
    ensures var (a', b', more) := RecoverRow(a, b, row, net);
            && Paired(a', b') && more && OnlyMarks(a, a')
            && (net == REACHABLE ==> row.operationId !in OutboxIds(a'.outbox))
  {
    var id := row.operationId;
    HeldPrepareUnchanged(a, b, row, net);
    CommitPaired(a, b, id);
    var b1 := Commit(b, id).0;
    RecoverRowCases(a, b, row, net, b1);
    MarkPaired(a, b1, id);
    MarkOnlyMarks(a, id);
  }

  // The three ends of recovering one row that the standby holds.
  lemma RecoverRowCases(a: Database, b: Database, row: OutboxRow, net: Net, b1: Database)
    requires PrepareCall(b, row.message, row.envelope, net).0 == b
    requires Commit(b, row.message.operationId) == (b1, Yes)
    ensures var r := RecoverRow(a, b, row, net);
            || r == (a, b, true) || r == (a, b1, true)
            || r == (MarkReplicated(a, row.message.operationId), b1, true)
    ensures net == REACHABLE && PrepareCall(b, row.message, row.envelope, net).1
        ==> RecoverRow(a, b, row, net) == (MarkReplicated(a, row.message.operationId), b1, true)
  {
  }

  lemma MarkOnlyMarks(a: Database, id: string)
    ensures OnlyMarks(a, MarkReplicated(a, id)) && OnlyMarks(a, a)
    ensures id !in OutboxIds(MarkReplicated(a, id).outbox)
  {
  }

  lemma HeldPrepareUnchanged(a: Database, b: Database, row: OutboxRow, net: Net)
    requires Paired(a, b) && Known(a, row)
    ensures PrepareCall(b, row.message, row.envelope, net).0 == b
    ensures net == REACHABLE ==> PrepareCall(b, row.message, row.envelope, net).1
  {
    if row.operationId !in b.operations { assert PreparedOk(a, b, row.operationId); }
  }

  lemma {:induction false} RecoverPaired(a: Database, b: Database, rows: seq<OutboxRow>, nets: seq<Net>)
    requires Paired(a, b) && |nets| == |rows| && forall r :: r in rows ==> Known(a, r)
    ensures var (a', b') := RecoverRows(a, b, rows, nets);
            && Paired(a', b') && OnlyMarks(a, a')
            && forall i :: 0 <= i < |rows| && nets[i] == REACHABLE ==> rows[i].operationId !in OutboxIds(a'.outbox)
    decreases |rows|
  {
    if rows != [] {
      RecoverRowPaired(a, b, rows[0], nets[0]);
      var (a1, b1, _) := RecoverRow(a, b, rows[0], nets[0]);
      forall r | r in rows[1..] ensures Known(a1, r) {
        assert r in rows && Known(a, r);
      }
      RecoverPaired(a1, b1, rows[1..], nets[1..]);
      var (a', b') := RecoverRows(a, b, rows, nets);
      OnlyMarksTransitive(a, a1, a');
      forall i | 0 <= i < |rows| && nets[i] == REACHABLE ensures rows[i].operationId !in OutboxIds(a'.outbox) {
        if i == 0 { ClearedStays(a1, a', rows[0].operationId); }
        else { assert rows[i] == rows[1..][i - 1] && nets[i] == nets[1..][i - 1]; }
      }
    }
  }

  lemma OnlyMarksTransitive(a: Database, a1: Database, a2: Database)
    requires OnlyMarks(a, a1) && OnlyMarks(a1, a2)
    ensures OnlyMarks(a, a2)
  {
  }

  lemma ClearedStays(a: Database, a': Database, id: string)
    requires OnlyMarks(a, a') && id !in OutboxIds(a.outbox)
    ensures id !in OutboxIds(a'.outbox)
  {
  }

  function RowIds(rows: seq<OutboxRow>): seq<string> {
    if rows == [] then [] else [rows[0].operationId] + RowIds(rows[1..])
  }

  // The ids of the rows both of whose calls are authentic and answered, in row order.
  function ReachedIds(rows: seq<OutboxRow>, nets: seq<Net>): seq<string>
    requires |nets| == |rows|
    decreases |rows|
  {
    if rows == [] then []
    else
      (if nets[0].prepare == Answered && nets[0].authentic && nets[0].commit == Answered then [rows[0].operationId] else [])
      + ReachedIds(rows[1..], nets[1..])
  }

  lemma RowRecoveredExactly(a: Database, b: Database, row: OutboxRow, net: Net)
    requires Paired(a, b) && Known(a, row)
    ensures RowRecovered(b, row, net) <==> net.prepare == Answered && net.authentic && net.commit == Answered
  {
    HeldPrepareUnchanged(a, b, row, REACHABLE);
    CommitPaired(a, b, row.operationId);
    HeldPrepareAnswers(b, row, net);
  }

  lemma HeldPrepareAnswers(b: Database, row: OutboxRow, net: Net)
    requires Prepare(b, row.message, row.envelope, true) == (b, true)
    ensures PrepareCall(b, row.message, row.envelope, net) == (b, net.prepare == Answered && net.authentic)
  {
  }

  /** Recovery reports exactly the rows both of whose calls were authentic and answered. */
  lemma {:induction false} RecoveredExactly(a: Database, b: Database, rows: seq<OutboxRow>, nets: seq<Net>)
    requires Paired(a, b) && |nets| == |rows| && forall r :: r in rows ==> Known(a, r)
    ensures RecoveredIds(a, b, rows, nets) == ReachedIds(rows, nets)
    decreases |rows|
  {
    if rows != [] {
      RecoverRowPaired(a, b, rows[0], nets[0]);
      RowRecoveredExactly(a, b, rows[0], nets[0]);
      var (a1, b1, _) := RecoverRow(a, b, rows[0], nets[0]);
      forall r | r in rows[1..] ensures Known(a1, r) {
        assert r in rows && Known(a, r);
      }
      RecoveredExactly(a1, b1, rows[1..], nets[1..]);
    }
  }

  /** A recovery that reaches the standby reports every row, in row order. */
  lemma RecoveredInOrder(a: Database, b: Database, rows: seq<OutboxRow>, nets: seq<Net>)
    requires Paired(a, b) && |nets| == |rows| && forall r :: r in rows ==> Known(a, r)
    requires forall i :: 0 <= i < |nets| ==> nets[i] == REACHABLE
    ensures RecoveredIds(a, b, rows, nets) == RowIds(rows)
  {
    RecoveredExactly(a, b, rows, nets);
    ReachedAll(rows, nets);
  }

  lemma {:induction false} ReachedAll(rows: seq<OutboxRow>, nets: seq<Net>)
    requires |nets| == |rows| && forall i :: 0 <= i < |nets| ==> nets[i] == REACHABLE
    ensures ReachedIds(rows, nets) == RowIds(rows)
    decreases |rows|
  {
    if rows != [] {
      ReachedAll(rows[1..], nets[1..]);
    }
  }

  // ---- every run of one epoch ---------------------------------------------------------------

  datatype Call =
    | MutateCall(request: Request, signer: Signer, net: Net)
    | RecoverCall(fates: int -> Net)

  ghost function Do(a: Database, b: Database, self: string, call: Call): (Database, Database) {
    match call
    case MutateCall(req, signer, net) =>
      var (a', b', _) := Mutate(a, b, self, req, signer, net);
      (a', b')
    case RecoverCall(net) => RecoverRows(a, b, a.outbox, seq(|a.outbox|, i => net(i)))
  }

  ghost function Run(a: Database, b: Database, self: string, calls: seq<Call>): (Database, Database)
    decreases |calls|
  {
    if calls == [] then (a, b)
    else
      var (a', b') := Do(a, b, self, calls[0]);
      Run(a', b', self, calls[1..])
  }

  lemma OutboxKnown(a: Database)
    requires Sound(a)
    ensures forall r :: r in a.outbox ==> Known(a, r)
  {
    forall r | r in a.outbox ensures Known(a, r) {
      assert r.operationId in OutboxIds(a.outbox);
      assert IsPending(a.operations, r.operationId);
    }
  }

  lemma {:induction false} RunPaired(a: Database, b: Database, self: string, calls: seq<Call>)
    requires Paired(a, b)
    ensures var (a', b') := Run(a, b, self, calls); Paired(a', b')
    decreases |calls|
  {
    if calls != [] {
      match calls[0] {
        case MutateCall(req, signer, net) => MutateOutcomes(a, b, self, req, signer, net);
        case RecoverCall(net) =>
          OutboxKnown(a);
          RecoverPaired(a, b, a.outbox, seq(|a.outbox|, i => net(i)));
      }
      var (a', b') := Do(a, b, self, calls[0]);
      RunPaired(a', b', self, calls[1..]);
    }
  }

  function Fresh(role: Role, epoch: nat): Database {
    Database(role, epoch, 0, false, EMPTY, map[], map[], map[], [], map[], [])
  }

  lemma FreshPaired(role: Role, epoch: nat)
    requires role != Active
    ensures Paired(Fresh(Active, epoch), Fresh(role, epoch))
  {
  }

  ghost predicate Converged(a: Database, b: Database) {
    && a.outbox == [] && b.prepared == map[]
    && a.operations.Keys == b.operations.Keys
    && (forall id :: id in a.operations ==> CommittedIn(a, id, b.operations[id].fingerprint)
                                            && b.operations[id].state == Committed)
    && a.policies == b.policies
  }

  /** From every state a fresh pair reaches, recovery against an answering standby
      whose envelopes still authenticate empties the outbox, and then both
      controllers hold the same operations and the same policies. */
  lemma RecoveryConverges(role: Role, epoch: nat, self: string, calls: seq<Call>)
    requires role != Active
    ensures var (a, b) := Run(Fresh(Active, epoch), Fresh(role, epoch), self, calls);
            var (a', b') := Do(a, b, self, RecoverCall(_ => REACHABLE));
            Paired(a, b) && Paired(a', b') && Converged(a', b') && a'.operations.Keys == a.operations.Keys
  {
    FreshPaired(role, epoch);
    RunPaired(Fresh(Active, epoch), Fresh(role, epoch), self, calls);
    var (a, b) := Run(Fresh(Active, epoch), Fresh(role, epoch), self, calls);
    var nets := seq(|a.outbox|, i => REACHABLE);
    OutboxKnown(a);
    RecoverPaired(a, b, a.outbox, nets);
    var call := RecoverCall(_ => REACHABLE);
    assert seq(|a.outbox|, i => call.fates(i)) == nets;
    var (a', b') := Do(a, b, self, call);
    assert (a', b') == RecoverRows(a, b, a.outbox, nets);
    NoneLeft(a.outbox, a'.outbox);
    NothingPendingConverged(a', b');
  }

  // An outbox left with old rows but with none of the old ids is empty.
  lemma NoneLeft(outbox: seq<OutboxRow>, left: seq<OutboxRow>)
    requires forall r :: r in left ==> r in outbox
    requires forall i :: 0 <= i < |outbox| ==> outbox[i].operationId !in OutboxIds(left)
    ensures left == []
  {
    assert left != [] ==> left[0] in outbox && left[0].operationId in OutboxIds(left);
  }

  lemma NothingPendingConverged(a: Database, b: Database)
    requires Paired(a, b) && a.outbox == []
    ensures Converged(a, b)
  {
    forall id ensures !IsPending(a.operations, id) {
      assert id !in OutboxIds(a.outbox);
    }
    forall id ensures id !in b.prepared {
      assert id in b.prepared ==> PreparedOk(a, b, id);
    }
    assert b.prepared == map[];
    forall id | id in a.operations ensures id in b.operations && a.operations[id].state == Committed {
      assert !IsPending(a.operations, id);
    }
    forall g | g in a.policies ensures g in b.policies {
      assert g !in b.policies ==> exists x :: PolicyRow(b, x, g);
    }
    assert a.policies == b.policies;
  }
}
