// The controller and its store as objects whose tables are updated in place.
module Controllers {
  import opened Wrappers
  import opened Replay
  import opened ControllerTables
  import opened Replication

  /** One field per table, and one per name of the `state` table. */
  class ControllerStore {
    var role: Role
    var epoch: nat
    var generation: nat
    var lagDegraded: bool
    var replayNonces: map<string, NonceRow>
    var replaySequences: map<string, nat>
    var outboundSequences: map<string, nat>
    var operations: map<string, OperationRow>
    var preparedOperations: map<string, PreparedRow>
    var replicationOutbox: seq<OutboxRow>
    var policyBundles: map<nat, Envelope>
    var journal: seq<Entry>

    function Db(): Database
      reads this
    {
      Database(role, epoch, generation, lagDegraded, Tables(replayNonces, replaySequences), outboundSequences,
               operations, preparedOperations, replicationOutbox, policyBundles, journal)
    }

    constructor (role: Role, epoch: nat)
      ensures Db() == Fresh(role, epoch)
    {
      this.role, this.epoch, generation, lagDegraded := role, epoch, 0, false;
      replayNonces, replaySequences, outboundSequences := map[], map[], map[];
      operations, preparedOperations, replicationOutbox := map[], map[], [];
      policyBundles, journal := map[], [];
    }

    // What a commit writes once the payload is applied.
    method FinishCommit(id: string, p: PreparedRow)
      modifies this`operations, this`preparedOperations, this`generation
      ensures operations == old(operations)[id := CommittedRow(p)]
      ensures preparedOperations == old(preparedOperations) - {id}
      ensures generation == if p.generation > old(generation) then p.generation else old(generation)
    {
      operations := operations[id := CommittedRow(p)];
      preparedOperations := preparedOperations - {id};
      if p.generation > generation {
        generation := p.generation;
      }
    }

    // Ends a transaction that raised: everything written since `saved` is undone.
    method Rollback(saved: Database)
      modifies this
      ensures Db() == saved
    {
      role, epoch, generation, lagDegraded := saved.role, saved.epoch, saved.generation, saved.lagDegraded;
      replayNonces, replaySequences := saved.replay.nonces, saved.replay.sequences;
      outboundSequences, operations, preparedOperations := saved.outbound, saved.operations, saved.prepared;
      replicationOutbox, policyBundles, journal := saved.outbox, saved.policies, saved.journal;
    }

    method ReplayAccept(keyId: string, nonce: string, sequence: nat) returns (ok: bool)
      modifies this`replayNonces, this`replaySequences
      ensures ok == Acceptable(old(Db().replay), keyId, nonce, sequence)
      ensures Db() == if ok then old(Db()).(replay := Record(old(Db().replay), keyId, nonce, sequence)) else old(Db())
    {
      if nonce in replayNonces {
        return false;
      }
      if keyId in replaySequences && sequence <= replaySequences[keyId] {
        return false;
      }
      replayNonces := replayNonces[nonce := NonceRow(keyId, sequence)];
      replaySequences := replaySequences[keyId := sequence];
      return true;
    }

    method SelectMax(keyId: string) returns (m: Option<nat>)
      ensures m == MaxSequence(replayNonces, keyId)
    {
      m := None;
      var rest := replayNonces.Keys;
      while rest != {}
        invariant rest <= replayNonces.Keys
        invariant m.None? ==> forall n :: n in replayNonces && n !in rest ==> replayNonces[n].keyId != keyId
        invariant m.Some? ==> exists n :: n in replayNonces && replayNonces[n] == NonceRow(keyId, m.value)
        invariant m.Some? ==>
                    forall n :: n in replayNonces && n !in rest && replayNonces[n].keyId == keyId ==>
                      replayNonces[n].sequence <= m.value
      {
        var n :| n in rest;
        rest := rest - {n};
        if replayNonces[n].keyId == keyId && (m.None? || m.value < replayNonces[n].sequence) {
          m := Some(replayNonces[n].sequence);
          assert replayNonces[n] == NonceRow(keyId, m.value);
        }
      }
      if m.Some? {
        assert IsMax(replayNonces, keyId, m.value);
      }
    }

    method ReplayRemove(keyId: string, nonce: string, sequence: nat)
      modifies this`replayNonces, this`replaySequences
      ensures Db() == old(Db()).(replay := Remove(old(Db().replay), keyId, nonce, sequence))
    {
      if nonce in replayNonces && replayNonces[nonce] == NonceRow(keyId, sequence) {
        replayNonces := replayNonces - {nonce};
      }
      var m := SelectMax(keyId);
      if m.None? {
        replaySequences := replaySequences - {keyId};
      } else if keyId in replaySequences {
        replaySequences := replaySequences[keyId := m.value];
      }
    }

    method NextOutboundSequence(keyId: string) returns (sequence: nat)
      modifies this`outboundSequences
      ensures sequence == NextOutbound(old(Db()), keyId)
      ensures Db() == CountOutbound(old(Db()), keyId)
    {
      sequence := if keyId in outboundSequences then outboundSequences[keyId] + 1 else 1;
      outboundSequences := outboundSequences[keyId := sequence];
    }

    // Writes the rows of one payload; on failure nothing is written.
    method ApplyPayload(id: string, kind: Kind, payload: Payload, envelope: Envelope, epoch: nat, generation: nat)
      returns (raised: Option<Reply>)
      modifies this`journal, this`policyBundles
      ensures match Apply(old(Db()), id, kind, payload, envelope, epoch, generation)
              case InvalidPayload => raised == Some(No) && Db() == old(Db())
              case GenerationTaken => raised == Some(Raised) && Db() == old(Db())
              case Applied(d) => raised == None && Db() == d
    {
      if kind == Unknown || !ValidPayload(kind, payload) || (kind == HostReport && payload.hostId == "") {
        return Some(No);
      }
      if kind == Policy {
        if generation in policyBundles {
          return Some(Raised);
        }
        policyBundles := policyBundles[generation := envelope];
      }
      journal := journal + [Entry(id, kind, payload, epoch, generation)];
      return None;
    }

    method MarkRow(id: string)
      modifies this`operations, this`replicationOutbox
      ensures Db() == MarkReplicated(old(Db()), id)
    {
      if id in operations {
        operations := operations[id := operations[id].(state := Committed)];
      }
      replicationOutbox := Dropped(replicationOutbox, id);
    }
  }

  class Controller {
    const name: string
    const store: ControllerStore

    constructor (name: string, role: Role, epoch: nat)
      ensures fresh(store) && this.name == name && store.Db() == Fresh(role, epoch)
    {
      this.name := name;
      store := new ControllerStore(role, epoch);
    }

    method PrepareReplication(message: Message, outer: Outer, authentic: bool) returns (ok: bool)
      modifies store
      ensures (store.Db(), ok) == Prepare(old(store.Db()), message, outer, authentic)
    {
      if !authentic || !ValidInput(message, outer) {
        return false;
      }
      var id, original := message.operationId, message.original;
      if id in store.operations {
        return store.operations[id].fingerprint == original.fingerprint;
      }
      if id in store.preparedOperations {
        return store.preparedOperations[id].fingerprint == original.fingerprint;
      }
      if message.epoch < store.epoch || message.generation < store.generation {
        return false;
      }
      var saved := store.Db();
      ok := store.ReplayAccept(outer.keyId, outer.nonce, outer.sequence);
      if ok {
        ok := store.ReplayAccept(original.keyId, original.nonce, original.sequence);
      }
      if !ok {
        store.Rollback(saved);
        return;
      }
      var row := PreparedRow(message.source, message.epoch, message.generation, message.kind, message.payload,
                             outer, original, original.fingerprint);
      store.preparedOperations := store.preparedOperations[id := row];
    }

    method CommitReplication(id: string) returns (reply: Reply)
      modifies store
      ensures (store.Db(), reply) == Commit(old(store.Db()), id)
    {
      if id in store.operations {
        return if store.operations[id].state == Committed then Yes else No;
      }
      if id !in store.preparedOperations {
        return No;
      }
      var p := store.preparedOperations[id];
      if p.epoch < store.epoch {
        return No;
      }
      var saved := store.Db();
      if p.epoch > store.epoch {
        store.role, store.epoch := Follower, p.epoch;
      }
      var raised := store.ApplyPayload(id, p.kind, p.payload, p.original, p.epoch, p.generation);
      if raised.Some? {
        store.Rollback(saved);
        return raised.value;
      }
      store.FinishCommit(id, p);
      return Yes;
    }

    method AbortReplication(id: string)
      modifies store
      ensures store.Db() == Abort(old(store.Db()), id)
    {
      if id in store.preparedOperations {
        var p := store.preparedOperations[id];
        store.ReplayRemove(p.envelope.keyId, p.envelope.nonce, p.envelope.sequence);
        store.ReplayRemove(p.original.keyId, p.original.nonce, p.original.sequence);
        store.preparedOperations := store.preparedOperations - {id};
      }
    }

    method FenceOff(epoch: nat) returns (ok: bool)
      modifies store
      ensures (store.Db(), ok) == Fence(old(store.Db()), epoch)
    {
      if epoch < store.epoch {
        return false;
      }
      if epoch == store.epoch && store.role == Follower {
        return true;
      }
      if store.lagDegraded {
        return false;
      }
      store.role, store.epoch := Follower, epoch;
      return true;
    }

    // Second transaction of `Mutate`; false is any exception in it.
    method CommitLocally(m: Message, o: Outer) returns (ok: bool)
      modifies store
      ensures match LocalCommit(old(store.Db()), m, o)
              case None => !ok && store.Db() == old(store.Db())
              case Some(d) => ok && store.Db() == d
    {
      if store.role != Active || store.epoch != m.epoch {
        return false;
      }
      var id, fp, saved := m.operationId, m.original.fingerprint, store.Db();
      var raised := store.ApplyPayload(id, m.kind, m.payload, m.original, m.epoch, m.generation);
      if raised.Some? || id in store.operations {
        store.Rollback(saved);
        return false;
      }
      store.operations := store.operations[id := OperationRow(m.source, m.epoch, m.generation, fp, Pending)];
      store.replicationOutbox := Dropped(store.replicationOutbox, id) + [OutboxRow(id, m, o, fp)];
      store.generation := m.generation;
      return true;
    }

    method Discard(peer: Controller, m: Message)
      requires store != peer.store
      modifies store, peer.store
      ensures store.Db() == RemoveReplay(old(store.Db()), m.original)
      ensures peer.store.Db() == Abort(old(peer.store.Db()), m.operationId)
    {
      peer.AbortReplication(m.operationId);
      store.ReplayRemove(m.original.keyId, m.original.nonce, m.original.sequence);
    }

    // First transaction of `Mutate`.
    method ReserveSlot(req: Request) returns (r: ReserveResult)
      modifies store
      ensures r == Reserve(old(store.Db()), name, req)
      ensures store.Db() == if r.Reserved? then r.db else old(store.Db())
    {
      var e := req.envelope;
      if !req.authentic || !ValidPayload(req.kind, e.payload) || store.role != Active {
        return Refused;
      }
      var id := OperationId(e);
      if id in store.operations {
        var known := store.operations[id];
        return if known.fingerprint == e.fingerprint && known.state == Committed then AlreadyCommitted else Refused;
      }
      if !Matches(e.payload.expectedEpoch, store.epoch) || !Matches(e.payload.expectedGeneration, store.generation) {
        return Refused;
      }
      var ok := store.ReplayAccept(e.keyId, e.nonce, e.sequence);
      if !ok {
        return Refused;
      }
      return Reserved(store.Db(), MakeMessage(store.Db(), name, req));
    }

    /** One mutation at the active controller: it ends committed at both, or pending with
        the peer holding it, or refused with both databases as they were. */
    method Mutate(peer: Controller, req: Request, signer: Signer, net: Net) returns (out: Outcome)
      requires store != peer.store
      modifies store, peer.store
      ensures (store.Db(), peer.store.Db(), out)
              == Replication.Mutate(old(store.Db()), old(peer.store.Db()), name, req, signer, net)
      ensures Paired(old(store.Db()), old(peer.store.Db())) ==>
                && Paired(store.Db(), peer.store.Db())
                && OutcomeHolds(old(store.Db()), old(peer.store.Db()), store.Db(), peer.store.Db(), out,
                                OperationId(req.envelope), req.envelope.fingerprint)
    {
      if Paired(store.Db(), peer.store.Db()) {
        MutateOutcomes(store.Db(), peer.store.Db(), name, req, signer, net);
      }
      var r := ReserveSlot(req);
      if !r.Reserved? {
        return if r.Refused? then Refusal else Accepted;
      }
      var m := r.message;
      if signer.NoSigner? {
        Discard(peer, m);
        return Refusal;
      }
      out := Replicate(peer, m, signer.keyId, signer.nonce, net);
    }

    // The rest of `Mutate` once the slot is held: sign, prepare, commit here, commit there.
    method Replicate(peer: Controller, m: Message, keyId: string, nonce: string, net: Net) returns (out: Outcome)
      requires store != peer.store
      modifies store, peer.store
      ensures (store.Db(), peer.store.Db(), out)
              == SendAndCommit(old(store.Db()), old(peer.store.Db()), m, keyId, nonce, net)
    {
      var sequence := store.NextOutboundSequence(keyId);
      var o := Outer(keyId, nonce, sequence, m);
      var prepared := false;
      if net.prepare != NotDelivered {
        prepared := peer.PrepareReplication(m, o, net.authentic);
      }
      if !prepared || net.prepare != Answered {
        Discard(peer, m);
        return Refusal;
      }
      var committed := CommitLocally(m, o);
      if !committed {
        Discard(peer, m);
        return Refusal;
      }
      if net.commit == NotDelivered {
        return Unfinished;
      }
      var reply := peer.CommitReplication(m.operationId);
      if reply != Yes || net.commit != Answered {
        return Unfinished;
      }
      store.MarkRow(m.operationId);
      return Accepted;
    }

    method RecoverOne(peer: Controller, row: OutboxRow, net: Net) returns (recovered: bool, more: bool)
      requires store != peer.store
      modifies store, peer.store
      ensures (store.Db(), peer.store.Db(), more) == RecoverRow(old(store.Db()), old(peer.store.Db()), row, net)
      ensures recovered == RowRecovered(old(peer.store.Db()), row, net)
    {
      var prepared := false;
      if net.prepare != NotDelivered {
        prepared := peer.PrepareReplication(row.message, row.envelope, net.authentic);
      }
      if !prepared || net.prepare != Answered || net.commit == NotDelivered {
        return false, true;
      }
      var reply := peer.CommitReplication(row.message.operationId);
      if net.commit != Answered || reply == No {
        return false, true;
      }
      if reply == Raised {
        return false, false;
      }
      store.MarkRow(row.message.operationId);
      return true, true;
    }

    /** Replays every outbox row to the peer, in row order, and reports the ids that were
        replicated; an exception from the peer ends the loop. */
    method RecoverPendingOperations(peer: Controller, nets: seq<Net>) returns (recovered: seq<string>)
      requires store != peer.store && |nets| == |store.replicationOutbox|
      modifies store, peer.store
      ensures (store.Db(), peer.store.Db())
              == RecoverRows(old(store.Db()), old(peer.store.Db()), old(store.replicationOutbox), nets)
      ensures recovered == RecoveredIds(old(store.Db()), old(peer.store.Db()), old(store.replicationOutbox), nets)
    {
      recovered := [];
      var rows := store.replicationOutbox;
      ghost var a, b := store.Db(), peer.store.Db();
      var i := 0;
      RecoverAll(a, b, rows, nets);
      while i < |rows|
        invariant 0 <= i <= |rows|
        invariant RecoverRows(a, b, rows, nets) == RecoverFrom(store.Db(), peer.store.Db(), rows, nets, i)
        invariant RecoveredIds(a, b, rows, nets) == recovered + RecoveredFrom(store.Db(), peer.store.Db(), rows, nets, i)
      {
        RecoverNext(store.Db(), peer.store.Db(), rows, nets, i, recovered);
        var done, more := RecoverOne(peer, rows[i], nets[i]);
        if done {
          recovered := recovered + [rows[i].message.operationId];
        }
        if !more {
          return;
        }
        i := i + 1;
      }
      RecoverNone(store.Db(), peer.store.Db(), rows, nets);
    }

    method Promote(peer: Controller, e: Envelope, receiptEpoch: nat, authentic: bool, verified: bool, fate: Fate)
      returns (ok: bool)
      requires store != peer.store
      modifies store, peer.store
      ensures (store.Db(), peer.store.Db(), ok)
              == Replication.Promote(old(store.Db()), old(peer.store.Db()), e, receiptEpoch, authentic, verified, fate)
    {
      if !authentic || store.role == Active || receiptEpoch <= store.epoch || !verified || fate == NotDelivered {
        return false;
      }
      ok := peer.FenceOff(receiptEpoch);
      if !ok || fate != Answered {
        return false;
      }
      if store.role == Active || receiptEpoch <= store.epoch {
        return false;
      }
      ok := store.ReplayAccept(e.keyId, e.nonce, e.sequence);
      if ok {
        store.role, store.epoch := Active, receiptEpoch;
      }
    }
  }
}
