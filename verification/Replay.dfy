// The replay fence of the controller store: which nonces were spent, and the
// highest sequence each signing key has used.
module Replay {
  import opened Wrappers

  datatype NonceRow = NonceRow(keyId: string, sequence: nat)

  // Tables `replay_nonces` and `replay_sequences`, each keyed by its primary key.
  datatype Tables = Tables(nonces: map<string, NonceRow>, sequences: map<string, nat>)

  const EMPTY := Tables(map[], map[])

  /** `m` is the largest sequence `keyId` has in the nonce table. */
  ghost predicate IsMax(nonces: map<string, NonceRow>, keyId: string, m: nat) {
    && (exists n :: n in nonces && nonces[n] == NonceRow(keyId, m))
    && (forall n :: n in nonces && nonces[n].keyId == keyId ==> nonces[n].sequence <= m)
  }

  ghost predicate HasKey(nonces: map<string, NonceRow>, keyId: string) {
    exists n :: n in nonces && nonces[n].keyId == keyId
  }

  /** The sequence table is exactly the per-key maximum of the nonce table. */
  ghost predicate Consistent(t: Tables) {
    forall keyId :: if HasKey(t.nonces, keyId)
                    then keyId in t.sequences && IsMax(t.nonces, keyId, t.sequences[keyId])
                    else keyId !in t.sequences
  }

  predicate Acceptable(t: Tables, keyId: string, nonce: string, sequence: nat) {
    nonce !in t.nonces && (keyId in t.sequences ==> t.sequences[keyId] < sequence)
  }

  function Record(t: Tables, keyId: string, nonce: string, sequence: nat): Tables {
    Tables(t.nonces[nonce := NonceRow(keyId, sequence)], t.sequences[keyId := sequence])
  }

  // SELECT MAX(sequence) ... WHERE key_id = ?
  ghost function MaxSequence(nonces: map<string, NonceRow>, keyId: string): (m: Option<nat>)
    ensures m.None? <==> !HasKey(nonces, keyId)
    ensures m.Some? ==> IsMax(nonces, keyId, m.value)
  {
    if !HasKey(nonces, keyId) then None
    else
      MaxExists(nonces, keyId);
      var m: nat :| IsMax(nonces, keyId, m);
      Some(m)
  }

  lemma {:induction false} MaxExists(nonces: map<string, NonceRow>, keyId: string)
    requires HasKey(nonces, keyId)
    ensures exists m: nat :: IsMax(nonces, keyId, m)
    decreases |nonces|
  {
    var n :| n in nonces && nonces[n].keyId == keyId;
    var rest := nonces - {n};
    assert nonces == rest[n := nonces[n]];
    assert |rest| < |nonces| by {
      assert rest.Keys == nonces.Keys - {n};
    }
    if HasKey(rest, keyId) {
      MaxExists(rest, keyId);
      var m: nat :| IsMax(rest, keyId, m);
      assert IsMax(nonces, keyId, if m < nonces[n].sequence then nonces[n].sequence else m);
    } else {
      assert IsMax(nonces, keyId, nonces[n].sequence);
    }
  }

  function Without(nonces: map<string, NonceRow>, keyId: string, nonce: string, sequence: nat): map<string, NonceRow> {
    if nonce in nonces && nonces[nonce] == NonceRow(keyId, sequence) then nonces - {nonce} else nonces
  }

  // DELETE the nonce row, then recompute the key's sequence; UPDATE touches an existing row only.
  ghost function Remove(t: Tables, keyId: string, nonce: string, sequence: nat): Tables {
    var nonces := Without(t.nonces, keyId, nonce, sequence);
    match MaxSequence(nonces, keyId)
    case None => Tables(nonces, t.sequences - {keyId})
    case Some(m) => Tables(nonces, if keyId in t.sequences then t.sequences[keyId := m] else t.sequences)
  }

  lemma RecordKeepsConsistent(t: Tables, keyId: string, nonce: string, sequence: nat)
    requires Consistent(t) && Acceptable(t, keyId, nonce, sequence)
    ensures Consistent(Record(t, keyId, nonce, sequence))
  {
    var u := Record(t, keyId, nonce, sequence);
    forall k
      ensures if HasKey(u.nonces, k) then k in u.sequences && IsMax(u.nonces, k, u.sequences[k])
              else k !in u.sequences
    {
      assert u.nonces[nonce] == NonceRow(keyId, sequence);
      if k == keyId {
        if keyId in t.sequences {
          assert HasKey(t.nonces, keyId);
        }
        assert IsMax(u.nonces, k, sequence);
      } else {
        assert HasKey(u.nonces, k) <==> HasKey(t.nonces, k) by {
          if HasKey(t.nonces, k) {
            var n :| n in t.nonces && t.nonces[n].keyId == k;
            assert n in u.nonces && u.nonces[n] == t.nonces[n];
          }
        }
        if HasKey(t.nonces, k) {
          var n :| n in t.nonces && t.nonces[n] == NonceRow(k, t.sequences[k]);
          assert n in u.nonces && u.nonces[n] == NonceRow(k, u.sequences[k]);
        }
      }
    }
  }

  lemma RemoveKeepsConsistent(t: Tables, keyId: string, nonce: string, sequence: nat)
    requires Consistent(t)
    ensures Consistent(Remove(t, keyId, nonce, sequence))
  {
    var u := Remove(t, keyId, nonce, sequence);
    forall k
      ensures if HasKey(u.nonces, k) then k in u.sequences && IsMax(u.nonces, k, u.sequences[k])
              else k !in u.sequences
    {
      if k == keyId {
        if HasKey(u.nonces, k) {
          var n :| n in u.nonces && u.nonces[n].keyId == k;
          assert n in t.nonces && t.nonces[n].keyId == k;
        }
      } else {
        assert forall n :: n in t.nonces && t.nonces[n].keyId == k ==> n in u.nonces && u.nonces[n] == t.nonces[n];
        assert HasKey(u.nonces, k) <==> HasKey(t.nonces, k);
      }
    }
  }

  /** Consistent tables are determined by their nonces. */
  lemma ConsistentUnique(t: Tables, u: Tables)
    requires Consistent(t) && Consistent(u) && t.nonces == u.nonces
    ensures t == u
  {
    forall k
      ensures k in t.sequences <==> k in u.sequences
      ensures k in t.sequences ==> t.sequences[k] == u.sequences[k]
    {
      if HasKey(t.nonces, k) {
        assert IsMax(t.nonces, k, t.sequences[k]) && IsMax(t.nonces, k, u.sequences[k]);
      }
    }
    assert t.sequences == u.sequences;
  }

  // ---- every run ------------------------------------------------------------

  datatype Op =
    | AcceptOp(keyId: string, nonce: string, sequence: nat)
    | RemoveOp(keyId: string, nonce: string, sequence: nat)

  ghost function Step(t: Tables, op: Op): Tables {
    match op
    case AcceptOp(k, n, s) => if Acceptable(t, k, n, s) then Record(t, k, n, s) else t
    case RemoveOp(k, n, s) => Remove(t, k, n, s)
  }

  ghost function Run(t: Tables, ops: seq<Op>): Tables
    decreases |ops|
  {
    if ops == [] then t else Run(Step(t, ops[0]), ops[1..])
  }

  /** Over every run, each key's sequence is the maximum over its retained nonces,
      and a key without nonces has none. */
  lemma {:induction false} FenceOverRuns(t: Tables, ops: seq<Op>)
    requires Consistent(t)
    ensures Consistent(Run(t, ops))
    decreases |ops|
  {
    if ops != [] {
      match ops[0] {
        case AcceptOp(k, n, s) =>
          if Acceptable(t, k, n, s) { RecordKeepsConsistent(t, k, n, s); }
        case RemoveOp(k, n, s) => RemoveKeepsConsistent(t, k, n, s);
      }
      FenceOverRuns(Step(t, ops[0]), ops[1..]);
    }
  }

  /** Accept then remove is the identity. */
  lemma RemoveUndoesRecord(t: Tables, keyId: string, nonce: string, sequence: nat)
    requires Consistent(t) && Acceptable(t, keyId, nonce, sequence)
    ensures Remove(Record(t, keyId, nonce, sequence), keyId, nonce, sequence) == t
  {
    var u := Record(t, keyId, nonce, sequence);
    RecordKeepsConsistent(t, keyId, nonce, sequence);
    RemoveKeepsConsistent(u, keyId, nonce, sequence);
    assert Remove(u, keyId, nonce, sequence).nonces == t.nonces;
    ConsistentUnique(Remove(u, keyId, nonce, sequence), t);
  }

  /** Two records taken back in the order they were made, not in reverse, also
      restore the tables, whether or not the two share a key. */
  lemma RemoveUndoesTwoRecords(t: Tables, k1: string, n1: string, s1: nat, k2: string, n2: string, s2: nat)
    requires Consistent(t) && Acceptable(t, k1, n1, s1)
    requires Acceptable(Record(t, k1, n1, s1), k2, n2, s2)
    ensures Remove(Remove(Record(Record(t, k1, n1, s1), k2, n2, s2), k1, n1, s1), k2, n2, s2) == t
  {
    var u := Record(t, k1, n1, s1);
    var v := Record(u, k2, n2, s2);
    RecordKeepsConsistent(t, k1, n1, s1);
    RecordKeepsConsistent(u, k2, n2, s2);
    RemoveKeepsConsistent(v, k1, n1, s1);
    var w := Remove(v, k1, n1, s1);
    RemoveKeepsConsistent(w, k2, n2, s2);
    WithoutUndoesTwoUpdates(t.nonces, k1, n1, s1, k2, n2, s2);
    ConsistentUnique(Remove(w, k2, n2, s2), t);
  }

  lemma WithoutUndoesTwoUpdates(nonces: map<string, NonceRow>,
                                k1: string, n1: string, s1: nat, k2: string, n2: string, s2: nat)
    requires n1 !in nonces && n2 !in nonces && n1 != n2
    ensures Without(Without(nonces[n1 := NonceRow(k1, s1)][n2 := NonceRow(k2, s2)], k1, n1, s1), k2, n2, s2) == nonces
  {
    assert nonces[n1 := NonceRow(k1, s1)][n2 := NonceRow(k2, s2)] - {n1} == nonces[n2 := NonceRow(k2, s2)];
    assert nonces[n2 := NonceRow(k2, s2)] - {n2} == nonces;
  }

  /** A spent nonce stays refused until it is removed, whatever key and sequence come with it. */
  lemma {:induction false} SpentNonceRefused(t: Tables, ops: seq<Op>, keyId: string, nonce: string, sequence: nat)
    requires Consistent(t) && Acceptable(t, keyId, nonce, sequence)
    requires forall i :: 0 <= i < |ops| && ops[i].RemoveOp? ==> ops[i].nonce != nonce
    ensures var u := Run(Record(t, keyId, nonce, sequence), ops);
            forall k, s: nat :: !Acceptable(u, k, nonce, s)
  {
    SpentNonceKept(Record(t, keyId, nonce, sequence), ops, nonce);
  }

  lemma {:induction false} SpentNonceKept(t: Tables, ops: seq<Op>, nonce: string)
    requires nonce in t.nonces
    requires forall i :: 0 <= i < |ops| && ops[i].RemoveOp? ==> ops[i].nonce != nonce
    ensures nonce in Run(t, ops).nonces
    decreases |ops|
  {
    if ops != [] {
      SpentNonceKept(Step(t, ops[0]), ops[1..], nonce);
    }
  }
}
