// The policy cache: accepted bundles are written before they are adopted, and their replay
// fences come back from the file after a restart.
module PolicyCaches {
  import opened Wrappers

  datatype Bundle = Bundle(keyId: string, nonce: string, sequence: nat, issuedAt: int, expiresAt: int,
                           payload: string, payloadDigest: string, signature: string)

  /** What the cache is built with: the verifier of one key, the digest of a payload, the
      clock skew, and which bundles survive being written and read back. */
  datatype Environment = Environment(verify: (string, Bundle) -> bool, digest: string -> string, skew: nat,
                                     parses: Bundle -> bool)

  datatype Saved = Saved(active: Bundle, highestSequence: nat, seenNonces: set<string>)

  datatype Memory = Memory(keys: map<string, string>, revoked: set<string>, active: Option<Bundle>,
                           highestSequence: int, seenNonces: set<string>)

  datatype Reason =
    | PayloadDigestMismatch | UntrustedKey | InvalidSignature | IssuedInFuture | BundleExpired
    | SequenceReplay | NonceReplay | CachePersistFailed | Missing | Invalid | IoError

  /** A write of the file: the rename may fail, or fail to be reported as done. */
  datatype Persist = Written | NotWritten | WrittenUnreported

  function Booted(keys: map<string, string>): Memory {
    Memory(keys, {}, None, -1, {})
  }

  // ---- the checks ---------------------------------------------------------------------------

  predicate Trusted(m: Memory, keyId: string) {
    keyId in m.keys && keyId !in m.revoked
  }

  function Freshness(env: Environment, b: Bundle, now: int): Option<Reason> {
    if b.issuedAt > now + env.skew then Some(IssuedInFuture)
    else if b.expiresAt <= now then Some(BundleExpired)
    else None
  }

  function Validate(env: Environment, m: Memory, b: Bundle, now: int): Option<Reason> {
    if b.payloadDigest != env.digest(b.payload) then Some(PayloadDigestMismatch)
    else if !Trusted(m, b.keyId) then Some(UntrustedKey)
    else if !env.verify(m.keys[b.keyId], b) then Some(InvalidSignature)
    else if Freshness(env, b, now).Some? then Freshness(env, b, now)
    else if b.sequence <= m.highestSequence then Some(SequenceReplay)
    else if b.nonce in m.seenNonces then Some(NonceReplay)
    else None
  }

  /** Genuine, trusted and in date: everything but the replay fences. */
  predicate Genuine(env: Environment, m: Memory, b: Bundle, now: int) {
    && b.payloadDigest == env.digest(b.payload)
    && Trusted(m, b.keyId) && env.verify(m.keys[b.keyId], b)
    && b.issuedAt <= now + env.skew && now < b.expiresAt
  }

  function Adopted(m: Memory, b: Bundle): Memory {
    m.(active := Some(b), highestSequence := b.sequence, seenNonces := m.seenNonces + {b.nonce})
  }

  function SavedFrom(m: Memory, b: Bundle): Saved {
    Saved(b, b.sequence, m.seenNonces + {b.nonce})
  }

  /** Why a restore is refused, or None. */
  function RestoreReason(env: Environment, m: Memory, file: Option<Saved>, now: int, readable: bool): Option<Reason> {
    if !readable then Some(IoError)
    else if file.None? then Some(Missing)
    else
      var saved := file.value;
      var b := saved.active;
      if !env.parses(b) then Some(Invalid)
      else if !Trusted(m, b.keyId) then Some(UntrustedKey)
      else if !env.verify(m.keys[b.keyId], b) then Some(InvalidSignature)
      else if Freshness(env, b, now).Some? then Freshness(env, b, now)
      else if b.payloadDigest != env.digest(b.payload) || saved.highestSequence != b.sequence || b.nonce !in saved.seenNonces
      then Some(Invalid)
      else if m.active.Some? && saved.highestSequence <= m.highestSequence then Some(Invalid)
      else None
  }

  function Restored(m: Memory, saved: Saved): Memory {
    m.(active := Some(saved.active), highestSequence := saved.highestSequence, seenNonces := saved.seenNonces)
  }

  // ---- runs over one file -----------------------------------------------------------------------

  datatype Event =
    | Apply(bundle: Bundle, now: int, persist: Persist)
    | Restart(keys: map<string, string>)
    | Restore(now: int, readable: bool)
    | AddKey(keyId: string, key: string)
    | RevokeKey(keyId: string)

  function Revoked(m: Memory, keyId: string): Memory {
    m.(revoked := m.revoked + {keyId}, active := if m.active.Some? && m.active.value.keyId == keyId then None else m.active)
  }

  predicate Accepts(env: Environment, m: Memory, e: Event) {
    e.Apply? && Validate(env, m, e.bundle, e.now).None? && e.persist == Written
  }

  /** What one event does to the memory and the file. */
  function Next(env: Environment, m: Memory, file: Option<Saved>, e: Event): (Memory, Option<Saved>) {
    match e
    case Apply(b, now, persist) =>
      if Validate(env, m, b, now).Some? || persist == NotWritten then (m, file)
      else if persist == WrittenUnreported then (m, Some(SavedFrom(m, b)))
      else (Adopted(m, b), Some(SavedFrom(m, b)))
    case Restart(keys) => (Booted(keys), file)
    case Restore(now, readable) =>
      if RestoreReason(env, m, file, now, readable).Some? then (m, file) else (Restored(m, file.value), file)
    case AddKey(keyId, key) => (if keyId in m.revoked then m else m.(keys := m.keys[keyId := key]), file)
    case RevokeKey(keyId) => (Revoked(m, keyId), file)
  }

  /** Which bundles a memory or a file fences: the accepted ones from `floor` on, and
      bundles that were written but never reported as accepted. */
  datatype Fences = Fences(floor: nat, strays: seq<Bundle>)

  /** `accepted` is every bundle apply reported accepted, in order, over all restarts;
      `held` is what the memory fences of it, `saved` what the file does. */
  datatype Machine = Machine(memory: Memory, file: Option<Saved>, accepted: seq<Bundle>, held: Fences, saved: Fences)

  function Remembered(accepted: seq<Bundle>, f: Fences): seq<Bundle> {
    (if f.floor <= |accepted| then accepted[f.floor..] else []) + f.strays
  }

  function Step(env: Environment, s: Machine, e: Event): Machine {
    var (m, file) := Next(env, s.memory, s.file, e);
    match e
    case Apply(b, now, persist) =>
      if Validate(env, s.memory, b, now).Some? || persist == NotWritten then s
      else if persist == WrittenUnreported then
        Machine(m, file, s.accepted, s.held, Fences(s.held.floor, s.held.strays + [b]))
      else Machine(m, file, s.accepted + [b], s.held, s.held)
    case Restart(_) => Machine(m, file, s.accepted, Fences(|s.accepted|, []), s.saved)
    case Restore(now, readable) =>
      if RestoreReason(env, s.memory, s.file, now, readable).Some? then s
      else Machine(m, file, s.accepted, s.saved, s.saved)
    case _ => Machine(m, file, s.accepted, s.held, s.saved)
  }

  function Run(env: Environment, s: Machine, events: seq<Event>): Machine
    decreases |events|
  {
    if events == [] then s else Run(env, Step(env, s, events[0]), events[1..])
  }

  function Installed(keys: map<string, string>): Machine {
    Machine(Booted(keys), None, [], Fences(0, []), Fences(0, []))
  }

  // ---- memory and file fence exactly what they remember -----------------------------------------

  predicate Earlier(b: Bundle, c: Bundle) { b.sequence < c.sequence && b.nonce != c.nonce }

  function Nonces(bundles: seq<Bundle>): set<string> {
    set b | b in bundles :: b.nonce
  }

  ghost predicate IsTop(bundles: seq<Bundle>, highest: int) {
    && (forall b :: b in bundles ==> b.sequence <= highest)
    && if bundles == [] then highest == -1 else exists b :: b in bundles && b.sequence == highest
  }

  ghost predicate ExactFences(bundles: seq<Bundle>, highest: int, nonces: set<string>) {
    IsTop(bundles, highest) && nonces == Nonces(bundles)
  }

  ghost predicate Tracked(s: Machine) {
    && s.held.floor <= |s.accepted| && s.saved.floor <= |s.accepted|
    && ExactFences(Remembered(s.accepted, s.held), s.memory.highestSequence, s.memory.seenNonces)
    && (s.file.Some? ==>
          ExactFences(Remembered(s.accepted, s.saved), s.file.value.highestSequence, s.file.value.seenNonces))
  }

  /** Exact fences let through what is later than every bundle behind them. */
  lemma FencesDecide(bundles: seq<Bundle>, highest: int, nonces: set<string>, b: Bundle)
    requires ExactFences(bundles, highest, nonces)
    ensures highest < b.sequence && b.nonce !in nonces <==> forall f :: f in bundles ==> Earlier(f, b)
  {
    if forall f :: f in bundles ==> Earlier(f, b) {
      assert forall f :: f in bundles ==> f.sequence < b.sequence && f.nonce != b.nonce;
    }
  }

  lemma FenceAdded(bundles: seq<Bundle>, highest: int, nonces: set<string>, b: Bundle, more: seq<Bundle>)
    requires ExactFences(bundles, highest, nonces) && highest < b.sequence
    requires forall x :: x in more <==> x in bundles || x == b
    ensures ExactFences(more, b.sequence, nonces + {b.nonce})
  {
    assert b in more;
    assert Nonces(more) == Nonces(bundles) + {b.nonce};
  }

  // An accepted bundle is fenced besides what was.
  lemma AcceptedFenced(accepted: seq<Bundle>, f: Fences, highest: int, nonces: set<string>, b: Bundle)
    requires f.floor <= |accepted| && ExactFences(Remembered(accepted, f), highest, nonces) && highest < b.sequence
    ensures ExactFences(Remembered(accepted + [b], f), b.sequence, nonces + {b.nonce})
  {
    assert (accepted + [b])[f.floor..] == accepted[f.floor..] + [b];
    FenceAdded(Remembered(accepted, f), highest, nonces, b, Remembered(accepted + [b], f));
  }

  // So is a stray one.
  lemma StrayFenced(accepted: seq<Bundle>, f: Fences, highest: int, nonces: set<string>, b: Bundle)
    requires f.floor <= |accepted| && ExactFences(Remembered(accepted, f), highest, nonces) && highest < b.sequence
    ensures ExactFences(Remembered(accepted, Fences(f.floor, f.strays + [b])), b.sequence, nonces + {b.nonce})
  {
    FenceAdded(Remembered(accepted, f), highest, nonces, b, Remembered(accepted, Fences(f.floor, f.strays + [b])));
  }

  lemma ApplyTracked(env: Environment, s: Machine, e: Event)
    requires Tracked(s) && e.Apply?
    ensures Tracked(Step(env, s, e))
  {
    if Validate(env, s.memory, e.bundle, e.now).None? {
      if e.persist == Written {
        AdoptedTracked(s, e.bundle);
      } else if e.persist == WrittenUnreported {
        StrayTracked(s, e.bundle);
      }
    }
  }

  lemma AdoptedTracked(s: Machine, b: Bundle)
    requires Tracked(s) && s.memory.highestSequence < b.sequence
    ensures Tracked(Machine(Adopted(s.memory, b), Some(SavedFrom(s.memory, b)), s.accepted + [b], s.held, s.held))
  {
    AcceptedFenced(s.accepted, s.held, s.memory.highestSequence, s.memory.seenNonces, b);
  }

  lemma StrayTracked(s: Machine, b: Bundle)
    requires Tracked(s) && s.memory.highestSequence < b.sequence
    ensures Tracked(Machine(s.memory, Some(SavedFrom(s.memory, b)), s.accepted, s.held,
                            Fences(s.held.floor, s.held.strays + [b])))
  {
    StrayFenced(s.accepted, s.held, s.memory.highestSequence, s.memory.seenNonces, b);
  }

  lemma StepTracked(env: Environment, s: Machine, e: Event)
    requires Tracked(s)
    ensures Tracked(Step(env, s, e))
  {
    match e {
      case Apply(_, _, _) => ApplyTracked(env, s, e);
      case Restart(_) => assert Remembered(s.accepted, Fences(|s.accepted|, [])) == [];
      case _ =>
    }
  }

  lemma {:induction false} RunTracked(env: Environment, s: Machine, events: seq<Event>)
    requires Tracked(s)
    ensures Tracked(Run(env, s, events))
    decreases |events|
  {
    if events != [] {
      StepTracked(env, s, events[0]);
      RunTracked(env, Step(env, s, events[0]), events[1..]);
    }
  }

  /** After every run of events, whatever failed: a bundle is accepted, for the first time or
      again, exactly when it is genuine and later than every bundle the memory remembers. */
  lemma ReplayExactly(env: Environment, keys: map<string, string>, events: seq<Event>, b: Bundle, now: int)
    ensures var s := Run(env, Installed(keys), events);
            && (Accepts(env, s.memory, Apply(b, now, Written))
                <==> Genuine(env, s.memory, b, now)
                     && forall f :: f in Remembered(s.accepted, s.held) ==> Earlier(f, b))
            && (Reported(events) ==> s.held.floor <= |s.accepted| && Remembered(s.accepted, s.held) == s.accepted[s.held.floor..])
  {
    var s := Run(env, Installed(keys), events);
    RunTracked(env, Installed(keys), events);
    FencesDecide(Remembered(s.accepted, s.held), s.memory.highestSequence, s.memory.seenNonces, b);
    if Reported(events) {
      RunMirrored(env, Installed(keys), events);
    }
  }

  // ---- what that means for whole runs ---------------------------------------------------------------

  /** Accepted sequences strictly increase and no nonce is accepted twice. */
  ghost predicate NoReplay(accepted: seq<Bundle>) {
    forall i, j {:trigger Earlier(accepted[i], accepted[j])} :: 0 <= i < j < |accepted| ==> Earlier(accepted[i], accepted[j])
  }

  /** No accepted bundle is behind one that the memory had forgotten by then. */
  ghost predicate AheadOfForgotten(env: Environment, s: Machine, events: seq<Event>)
    decreases |events|
  {
    events == []
    || ((Accepts(env, s.memory, events[0]) ==> AfterForgotten(s, events[0].bundle)) && AheadOfForgotten(env, Step(env, s, events[0]), events[1..]))
  }

  ghost predicate AfterForgotten(s: Machine, b: Bundle) {
    forall i :: 0 <= i < s.held.floor && i < |s.accepted| ==> Earlier(s.accepted[i], b)
  }

  lemma StepNoReplay(env: Environment, s: Machine, e: Event)
    requires Tracked(s) && NoReplay(s.accepted)
    ensures NoReplay(Step(env, s, e).accepted) <==> (Accepts(env, s.memory, e) ==> AfterForgotten(s, e.bundle))
  {
    if Accepts(env, s.memory, e) {
      var b, n := e.bundle, |s.accepted|;
      var more := s.accepted + [b];
      FencesDecide(Remembered(s.accepted, s.held), s.memory.highestSequence, s.memory.seenNonces, b);
      forall i | s.held.floor <= i < n ensures Earlier(s.accepted[i], b) {
        assert s.accepted[i] == s.accepted[s.held.floor..][i - s.held.floor];
        assert s.accepted[i] in Remembered(s.accepted, s.held);
      }
      if NoReplay(more) {
        forall i | 0 <= i < n ensures Earlier(s.accepted[i], b) {
          assert Earlier(more[i], more[n]);
        }
      }
      if AfterForgotten(s, b) {
        forall i, j | 0 <= i < j < |more| ensures Earlier(more[i], more[j]) {
          assert j < n ==> Earlier(s.accepted[i], s.accepted[j]);
        }
      }
    }
  }

  lemma {:induction false} AcceptedGrows(env: Environment, s: Machine, events: seq<Event>)
    ensures s.accepted <= Run(env, s, events).accepted
    decreases |events|
  {
    if events != [] {
      AcceptedGrows(env, Step(env, s, events[0]), events[1..]);
    }
  }

  lemma NoReplayBefore(accepted: seq<Bundle>, later: seq<Bundle>)
    requires accepted <= later && NoReplay(later)
    ensures NoReplay(accepted)
  {
    forall i, j | 0 <= i < j < |accepted| ensures Earlier(accepted[i], accepted[j]) {
      assert Earlier(later[i], later[j]);
    }
  }

  lemma {:induction false} RunNoReplay(env: Environment, s: Machine, events: seq<Event>)
    requires Tracked(s) && NoReplay(s.accepted)
    ensures NoReplay(Run(env, s, events).accepted) <==> AheadOfForgotten(env, s, events)
    decreases |events|
  {
    if events != [] {
      var t := Step(env, s, events[0]);
      StepTracked(env, s, events[0]);
      StepNoReplay(env, s, events[0]);
      if NoReplay(t.accepted) {
        RunNoReplay(env, t, events[1..]);
      } else {
        AcceptedGrows(env, t, events[1..]);
        if NoReplay(Run(env, s, events).accepted) {
          NoReplayBefore(t.accepted, Run(env, t, events[1..]).accepted);
        }
      }
    }
  }

  /** Over every run from installation the accepted sequences strictly increase without a
      repeated nonce exactly when no accepted bundle was behind a forgotten one. */
  lemma NoReplayExactly(env: Environment, keys: map<string, string>, events: seq<Event>)
    ensures NoReplay(Run(env, Installed(keys), events).accepted) <==> AheadOfForgotten(env, Installed(keys), events)
  {
    RunNoReplay(env, Installed(keys), events);
  }

  /** Nothing is accepted while the memory has forgotten an accepted bundle: after a restart
      the file is restored first. */
  ghost predicate Careful(env: Environment, s: Machine, events: seq<Event>)
    decreases |events|
  {
    events == []
    || ((Accepts(env, s.memory, events[0]) ==> s.held.floor == 0) && Careful(env, Step(env, s, events[0]), events[1..]))
  }

  lemma {:induction false} CarefulAhead(env: Environment, s: Machine, events: seq<Event>)
    requires Careful(env, s, events)
    ensures AheadOfForgotten(env, s, events)
    decreases |events|
  {
    if events != [] {
      CarefulAhead(env, Step(env, s, events[0]), events[1..]);
    }
  }

  /** No accepted sequence or nonce is accepted again, through failed writes and restarts. */
  lemma ReplayFenced(env: Environment, keys: map<string, string>, events: seq<Event>)
    requires Careful(env, Installed(keys), events)
    ensures NoReplay(Run(env, Installed(keys), events).accepted)
  {
    CarefulAhead(env, Installed(keys), events);
    NoReplayExactly(env, keys, events);
  }

  /** A restart whose restore fails keeps booted memory, which has forgotten every bundle. */
  lemma ForgottenAfterFailedRestore(env: Environment, s: Machine, keys: map<string, string>, now: int, readable: bool)
    requires RestoreReason(env, Booted(keys), s.file, now, readable).Some?
    ensures var t := Step(env, Step(env, s, Restart(keys)), Restore(now, readable));
            t == Machine(Booted(keys), s.file, s.accepted, Fences(|s.accepted|, []), s.saved)
  {
  }

  const Low: Bundle := Bundle("k", "low", 1, 0, 10, "p", "p", "s")
  const High: Bundle := Low.(nonce := "high", sequence := 5)
  const Lenient: Environment := Environment((key: string, b: Bundle) => true, (p: string) => p, 0, (b: Bundle) => true)
  const Keys: map<string, string> := map["k" := "key"]

  lemma RunOne(env: Environment, s: Machine, e: Event, events: seq<Event>)
    ensures Run(env, s, [e] + events) == Run(env, Step(env, s, e), events)
  {
    assert ([e] + events)[1..] == events;
  }

  lemma RunThree(env: Environment, s: Machine, d: Event, e: Event, f: Event)
    ensures Run(env, s, [d, e, f]) == Step(env, Step(env, Step(env, s, d), e), f)
  {
    assert [d, e, f] == [d] + ([e] + ([f] + []));
    RunOne(env, s, d, [e] + ([f] + []));
    RunOne(env, Step(env, s, d), e, [f] + []);
    RunOne(env, Step(env, Step(env, s, d), e), f, []);
  }

  /** One unreadable file is enough: the same bundle is accepted again. */
  lemma ReplayAfterReadError()
    ensures var s := Run(Lenient, Installed(Keys), [Apply(High, 1, Written), Restart(Keys), Restore(2, false)]);
            High in s.accepted && Accepts(Lenient, s.memory, Apply(High, 3, Written))
  {
    RunThree(Lenient, Installed(Keys), Apply(High, 1, Written), Restart(Keys), Restore(2, false));
    var s := Step(Lenient, Installed(Keys), Apply(High, 1, Written));
    assert s.accepted == [High] && Nonces([]) == {};
  }

  /** And once another bundle was accepted without the fences, a restore that succeeds does
      not bring them back. */
  lemma ReplayAfterOverwrite()
    ensures var s := Run(Lenient, Installed(Keys), [Apply(High, 1, Written), Restart(Keys), Restore(2, false)]);
            var t := Run(Lenient, s, [Apply(Low, 3, Written), Restart(Keys), Restore(4, true)]);
            && t.accepted == [High, Low] && t.memory.active == Some(Low) && t.held.floor == 1
            && Accepts(Lenient, t.memory, Apply(High, 5, Written))
  {
    RunThree(Lenient, Installed(Keys), Apply(High, 1, Written), Restart(Keys), Restore(2, false));
    var s := Step(Lenient, Step(Lenient, Step(Lenient, Installed(Keys), Apply(High, 1, Written)), Restart(Keys)), Restore(2, false));
    assert s.accepted == [High] && s.memory == Booted(Keys) && s.held == Fences(1, []);
    RunThree(Lenient, s, Apply(Low, 3, Written), Restart(Keys), Restore(4, true));
    var t := Step(Lenient, s, Apply(Low, 3, Written));
    assert t.accepted == [High, Low] && Booted(Keys).seenNonces + {"low"} == {"low"};
  }

  // ---- revocation -----------------------------------------------------------------------------------

  predicate NoRestart(events: seq<Event>) {
    forall e :: e in events ==> !e.Restart?
  }

  /** Until the next restart no bundle of a revoked key is accepted or active, whatever is
      applied, restored or added, and the key cannot be added again. */
  lemma {:induction false} RevokedStays(env: Environment, s: Machine, keyId: string, events: seq<Event>)
    requires NoRestart(events)
    ensures var r := Step(env, s, RevokeKey(keyId));
            var t := Run(env, r, events);
            && s.accepted == r.accepted <= t.accepted
            && (forall i :: |s.accepted| <= i < |t.accepted| ==> t.accepted[i].keyId != keyId)
            && (t.memory.active.Some? ==> t.memory.active.value.keyId != keyId)
            && (forall b: Bundle, now, persist :: b.keyId == keyId ==> !Accepts(env, t.memory, Apply(b, now, persist)))
            && (forall key :: Step(env, t, AddKey(keyId, key)) == t)
  {
    RunDistrusts(env, Step(env, s, RevokeKey(keyId)), keyId, events);
  }

  predicate Distrusts(m: Memory, keyId: string) {
    keyId in m.revoked && (m.active.Some? ==> m.active.value.keyId != keyId)
  }

  lemma {:induction false} RunDistrusts(env: Environment, s: Machine, keyId: string, events: seq<Event>)
    requires Distrusts(s.memory, keyId) && NoRestart(events)
    ensures var t := Run(env, s, events);
            && Distrusts(t.memory, keyId) && s.accepted <= t.accepted
            && forall i :: |s.accepted| <= i < |t.accepted| ==> t.accepted[i].keyId != keyId
    decreases |events|
  {
    if events != [] {
      assert events[0] in events;
      StepDistrusts(env, s, keyId, events[0]);
      RunDistrusts(env, Step(env, s, events[0]), keyId, events[1..]);
    }
  }

  lemma StepDistrusts(env: Environment, s: Machine, keyId: string, e: Event)
    requires Distrusts(s.memory, keyId) && !e.Restart?
    ensures var t := Step(env, s, e);
            Distrusts(t.memory, keyId) && (t.accepted == s.accepted || (e.Apply? && e.bundle.keyId != keyId
                                                                         && t.accepted == s.accepted + [e.bundle]))
  {
  }

  /** A restart forgets every revocation: which keys are trusted then is up to its configuration. */
  lemma RestartForgetsRevocations(env: Environment, s: Machine, keys: map<string, string>, keyId: string)
    ensures Trusted(Step(env, s, Restart(keys)).memory, keyId) <==> keyId in keys
  {
  }

  /** The reason names the first check that fails, in this order. */
  lemma FirstReason(env: Environment, m: Memory, b: Bundle, now: int)
    ensures var reason := Validate(env, m, b, now);
            var intact := env.digest(b.payload) == b.payloadDigest;
            var trusted := intact && b.keyId in m.keys && b.keyId !in m.revoked;
            var signed := trusted && env.verify(m.keys[b.keyId], b);
            var issued := signed && b.issuedAt <= now + env.skew;
            var current := issued && now < b.expiresAt;
            var later := current && m.highestSequence < b.sequence;
            && (reason == Some(PayloadDigestMismatch) <==> !intact)
            && (reason == Some(UntrustedKey) <==> intact && !trusted)
            && (reason == Some(InvalidSignature) <==> trusted && !signed)
            && (reason == Some(IssuedInFuture) <==> signed && !issued)
            && (reason == Some(BundleExpired) <==> issued && !current)
            && (reason == Some(SequenceReplay) <==> current && !later)
            && (reason == Some(NonceReplay) <==> later && b.nonce in m.seenNonces)
            && (reason.None? <==> later && b.nonce !in m.seenNonces)
  {
  }

  /** A restore adopts the file exactly if it can be read and parsed, its bundle is genuine, its
      fences cover that bundle, and it is ahead of the active bundle, if there is one. */
  lemma RestoredExactly(env: Environment, m: Memory, saved: Saved, now: int, readable: bool)
    ensures RestoreReason(env, m, Some(saved), now, readable).None?
       <==> && readable && env.parses(saved.active) && Genuine(env, m, saved.active, now)
            && saved.highestSequence == saved.active.sequence && saved.active.nonce in saved.seenNonces
            && (m.active.Some? ==> m.highestSequence < saved.highestSequence)
    ensures RestoreReason(env, m, None, now, readable) == Some(if readable then Missing else IoError)
  {
  }

  /** A refused restore names its first failing check too: readable, parsed, key, signature,
      issue time, expiry, and then the file's own consistency. */
  lemma FirstRestoreReason(env: Environment, m: Memory, saved: Saved, now: int)
    ensures var reason := RestoreReason(env, m, Some(saved), now, true);
            var b := saved.active;
            var trusted := env.parses(b) && b.keyId in m.keys && b.keyId !in m.revoked;
            var signed := trusted && env.verify(m.keys[b.keyId], b);
            var issued := signed && b.issuedAt <= now + env.skew;
            var current := issued && now < b.expiresAt;
            && (reason == Some(UntrustedKey) <==> env.parses(b) && !trusted)
            && (reason == Some(InvalidSignature) <==> trusted && !signed)
            && (reason == Some(IssuedInFuture) <==> signed && !issued)
            && (reason == Some(BundleExpired) <==> issued && !current)
            && (reason.Some? && (current || !env.parses(b)) ==> reason == Some(Invalid))
  {
  }

  /** An accepted bundle is the active one, a refused one changes nothing the cache serves, and a
      restored one is the file's. */
  lemma AcceptedIsServed(env: Environment, s: Machine, e: Event)
    ensures var t := Step(env, s, e);
            && (Accepts(env, s.memory, e) ==> t.memory.active == Some(e.bundle))
            && (e.Apply? && !Accepts(env, s.memory, e) ==> t.memory == s.memory)
            && (e.Restore? && t.memory != s.memory ==> s.file.Some? && t.memory.active == Some(s.file.value.active))
  {
  }

  /** A key that is not revoked is trusted once it is added, with the key material given last. */
  lemma AddedKeyIsTrusted(env: Environment, s: Machine, keyId: string, key: string)
    requires keyId !in s.memory.revoked
    ensures var t := Step(env, s, AddKey(keyId, key));
            && Trusted(t.memory, keyId) && t.memory.keys[keyId] == key
            && t == s.(memory := s.memory.(keys := t.memory.keys))
            && forall k :: k != keyId ==> (Trusted(t.memory, k) <==> Trusted(s.memory, k))
  {
  }

  // ---- what the file holds ---------------------------------------------------------------------------

  /** The file holds the last accepted bundle, and nothing that was not reported. */
  ghost predicate Mirrored(env: Environment, s: Machine) {
    && s.held.floor <= |s.accepted| && s.held.strays == [] && s.saved.strays == []
    && (s.accepted == [] <==> s.file.None?)
    && (s.file.Some? ==>
          var saved := s.file.value;
          && saved.active == s.accepted[|s.accepted| - 1] && s.saved.floor < |s.accepted|
          && saved.highestSequence == saved.active.sequence && saved.active.nonce in saved.seenNonces
          && saved.active.payloadDigest == env.digest(saved.active.payload))
  }

  ghost predicate Reported(events: seq<Event>) {
    forall e :: e in events && e.Apply? ==> e.persist != WrittenUnreported
  }

  lemma StepMirrored(env: Environment, s: Machine, e: Event)
    requires Mirrored(env, s) && (e.Apply? ==> e.persist != WrittenUnreported)
    ensures Mirrored(env, Step(env, s, e))
  {
  }

  lemma {:induction false} RunMirrored(env: Environment, s: Machine, events: seq<Event>)
    requires Mirrored(env, s) && Reported(events)
    ensures Mirrored(env, Run(env, s, events))
    decreases |events|
  {
    if events != [] {
      assert events[0] in events;
      StepMirrored(env, s, events[0]);
      RunMirrored(env, Step(env, s, events[0]), events[1..]);
    }
  }

  lemma {:induction false} CarefulFloor(env: Environment, s: Machine, events: seq<Event>)
    requires Careful(env, s, events) && Reported(events) && s.saved.floor == 0
    ensures Run(env, s, events).saved.floor == 0
    decreases |events|
  {
    if events != [] {
      assert events[0] in events;
      CarefulFloor(env, Step(env, s, events[0]), events[1..]);
    }
  }

  /** After every run whose writes were reported, the file holds the last accepted bundle
      with exactly the fences of the accepted ones from its floor on, all of them if the run
      was careful. A restart gets them back exactly when the file can be read and parsed and
      its bundle is still trusted, verified and in date. */
  lemma RestoreExactly(env: Environment, start: map<string, string>, events: seq<Event>, keys: map<string, string>,
                       now: int, readable: bool)
    requires Reported(events) && Run(env, Installed(start), events).accepted != []
    ensures var s := Run(env, Installed(start), events);
            var last := s.accepted[|s.accepted| - 1];
            var t := Step(env, Step(env, s, Restart(keys)), Restore(now, readable));
            && s.file.Some? && s.file.value.active == last && s.file.value.highestSequence == last.sequence
            && s.saved.floor < |s.accepted|
            && ExactFences(s.accepted[s.saved.floor..], s.file.value.highestSequence, s.file.value.seenNonces)
            && (Careful(env, Installed(start), events) ==> s.saved.floor == 0)
            && t.memory == (if readable && env.parses(last) && Genuine(env, Booted(keys), last, now)
                            then Restored(Booted(keys), s.file.value) else Booted(keys))
  {
    var s := Run(env, Installed(start), events);
    RunMirrored(env, Installed(start), events);
    RunTracked(env, Installed(start), events);
    assert Remembered(s.accepted, s.saved) == s.accepted[s.saved.floor..];
    if Careful(env, Installed(start), events) {
      CarefulFloor(env, Installed(start), events);
    }
  }

  // ---- the cache ----------------------------------------------------------------------------------------

  class PolicyFile {
    var content: Option<Saved>

    constructor ()
      ensures content == None
    {
      content := None;
    }

    // Writes a temporary file and renames it over the old one.
    method Persist(state: Saved, outcome: Persist) returns (ok: bool)
      modifies this
      ensures ok == (outcome == Written)
      ensures content == if outcome == NotWritten then old(content) else Some(state)
    {
      if outcome != NotWritten {
        content := Some(state);
      }
      ok := outcome == Written;
    }
  }

  class PolicyCache {
    const env: Environment
    const file: PolicyFile
    var keys: map<string, string>
    var revoked: set<string>
    var active: Option<Bundle>
    var highestSequence: int
    var seenNonces: set<string>

    constructor (env: Environment, file: PolicyFile, keys: map<string, string>)
      ensures this.env == env && this.file == file && Now() == Booted(keys)
    {
      this.env, this.file, this.keys := env, file, keys;
      revoked, active, highestSequence, seenNonces := {}, None, -1, {};
    }

    function Now(): Memory
      reads this
    {
      Memory(keys, revoked, active, highestSequence, seenNonces)
    }

    method ApplyNow(b: Bundle, now: int, outcome: Persist) returns (reason: Option<Reason>)
      modifies this, file
      ensures reason.None? <==> Accepts(env, old(Now()), Apply(b, now, outcome))
      ensures (Now(), file.content) == Next(env, old(Now()), old(file.content), Apply(b, now, outcome))
    {
      reason := Validate(env, Now(), b, now);
      if reason.Some? { return; }
      var nonces := seenNonces + {b.nonce};
      var written := file.Persist(Saved(b, b.sequence, nonces), outcome);
      if !written { return Some(CachePersistFailed); }
      active := Some(b);
      highestSequence := b.sequence;
      seenNonces := nonces;
    }

    method RestoreNow(now: int, readable: bool) returns (reason: Option<Reason>)
      modifies this
      ensures reason == RestoreReason(env, old(Now()), file.content, now, readable)
      ensures (Now(), file.content) == Next(env, old(Now()), old(file.content), Event.Restore(now, readable))
    {
      reason := RestoreReason(env, Now(), file.content, now, readable);
      if reason.Some? { return; }
      var saved := file.content.value;
      active := Some(saved.active);
      highestSequence := saved.highestSequence;
      seenNonces := saved.seenNonces;
    }

    method AddKey(keyId: string, key: string) returns (ok: bool)
      modifies this`keys
      ensures ok == (keyId !in revoked)
      ensures (Now(), file.content) == Next(env, old(Now()), old(file.content), Event.AddKey(keyId, key))
    {
      ok := keyId !in revoked;
      if ok {
        keys := keys[keyId := key];
      }
    }

    method RevokeKey(keyId: string)
      modifies this`revoked, this`active
      ensures (Now(), file.content) == Next(env, old(Now()), old(file.content), Event.RevokeKey(keyId))
    {
      revoked := revoked + {keyId};
      if active.Some? && active.value.keyId == keyId {
        active := None;
      }
    }
  }
}
