// Parking a transcript that keeps producing the same output.
module Containment {
  import opened Wrappers

  datatype RingEntry = RingEntry(hash: string, normalized: string, time: int)

  datatype Observation = Observation(transcriptId: string, hash: string, count: nat, park: bool, alreadyParked: bool)

  // ---- the rule over the whole history -------------------------------------------------------

  predicate NotLater(e: RingEntry, x: RingEntry) { e.time <= x.time }

  predicate Nondecreasing(h: seq<RingEntry>) {
    forall i, j {:trigger NotLater(h[i], h[j])} :: 0 <= i < j < |h| ==> NotLater(h[i], h[j])
  }

  predicate Old(e: RingEntry, now: int, windowMs: int) { now - e.time > windowMs }

  /** An output counts towards a later one that it equals and is still in the window of. */
  predicate Repeats(e: RingEntry, x: RingEntry, windowMs: int) { e.hash == x.hash && !Old(e, x.time, windowMs) }

  /** The last `threshold` outputs are equal and the oldest of them is within the window of
      the newest. */
  predicate Loops(h: seq<RingEntry>, threshold: nat, windowMs: int)
    requires 0 < threshold
  {
    && threshold <= |h|
    && (forall i :: |h| - threshold <= i < |h| ==> h[i].hash == h[|h| - 1].hash)
    && h[|h| - 1].time - h[|h| - threshold].time <= windowMs
  }

  // How many entries at the end of `h` repeat as `x`.
  function RunLength(h: seq<RingEntry>, x: RingEntry, windowMs: int): (n: nat)
    ensures n <= |h|
    decreases |h|
  {
    if h == [] || !Repeats(h[|h| - 1], x, windowMs) then 0 else 1 + RunLength(h[..|h| - 1], x, windowMs)
  }

  lemma {:induction false} RunLengthMeaning(h: seq<RingEntry>, x: RingEntry, windowMs: int)
    ensures var n := RunLength(h, x, windowMs);
            && (forall i {:trigger Repeats(h[i], x, windowMs)} :: |h| - n <= i < |h| ==> Repeats(h[i], x, windowMs))
            && (n < |h| ==> !Repeats(h[|h| - n - 1], x, windowMs))
    decreases |h|
  {
    if h != [] && Repeats(h[|h| - 1], x, windowMs) {
      var rest := h[..|h| - 1];
      RunLengthMeaning(rest, x, windowMs);
      forall i | |h| - RunLength(h, x, windowMs) <= i < |h| ensures Repeats(h[i], x, windowMs) {
        assert i < |h| - 1 ==> Repeats(rest[i], x, windowMs);
      }
    }
  }

  /** The rule counts the outputs up to the newest one that repeat it within the window. */
  lemma LoopsByRun(h: seq<RingEntry>, x: RingEntry, threshold: nat, windowMs: int)
    requires 0 < threshold && 0 < windowMs && Nondecreasing(h)
    requires h != [] ==> NotLater(h[|h| - 1], x)
    ensures Loops(h + [x], threshold, windowMs) <==> threshold <= RunLength(h, x, windowMs) + 1
  {
    var n, k := RunLength(h, x, windowMs), |h| + 1 - threshold;
    RunLengthMeaning(h, x, windowMs);
    if n + 1 < threshold <= |h| + 1 {
      assert !Repeats(h[|h| - n - 1], x, windowMs);
      assert k < |h| - n - 1 ==> NotLater(h[k], h[|h| - n - 1]);
      assert (h + [x])[k] == h[k] && (h + [x])[|h| - n - 1] == h[|h| - n - 1];
    } else if threshold <= n + 1 {
      forall i | k <= i < |h| + 1 ensures (h + [x])[i].hash == x.hash {
        assert i < |h| ==> Repeats(h[i], x, windowMs);
      }
      assert threshold > 1 ==> Repeats(h[k], x, windowMs);
    }
  }

  // ---- the ring ----------------------------------------------------------------------------------

  function Fresh(ring: seq<RingEntry>, now: int, windowMs: int): seq<RingEntry> {
    if ring == [] then []
    else if !Old(ring[0], now, windowMs) then [ring[0]] + Fresh(ring[1..], now, windowMs)
    else Fresh(ring[1..], now, windowMs)
  }

  function Last(s: seq<RingEntry>, n: nat): seq<RingEntry> {
    if n <= |s| then s[|s| - n..] else s
  }

  function Min(a: nat, b: nat): nat { if a <= b then a else b }

  // The last of the `n` outputs of a run, as many as the threshold asks for.
  function Kept(h: seq<RingEntry>, n: nat, threshold: nat): (r: seq<RingEntry>)
    requires n <= |h|
    ensures |r| == Min(n, threshold)
  {
    h[|h| - Min(n, threshold)..]
  }

  lemma KeptLast(h: seq<RingEntry>, n: nat, threshold: nat)
    requires n <= |h| && 0 < threshold
    ensures Kept(h, n, threshold) == [] <==> n == 0
    ensures n > 0 ==> Kept(h, n, threshold)[Min(n, threshold) - 1] == h[|h| - 1]
  {
  }

  /** The ring keeps as much of the current repetition as the threshold asks for. */
  ghost predicate RingOf(h: seq<RingEntry>, ring: seq<RingEntry>, threshold: nat, windowMs: int) {
    if h == [] then ring == []
    else ring == Kept(h, RunLength(h, h[|h| - 1], windowMs), threshold)
  }

  // Dropping what is too old from a run in time order drops from its front.
  lemma {:induction false} FreshIsSuffix(h: seq<RingEntry>, now: int, windowMs: int, a: nat, b: nat)
    requires a <= b <= |h|
    requires forall i {:trigger Old(h[i], now, windowMs)} :: a <= i < |h| ==> (Old(h[i], now, windowMs) <==> i < b)
    ensures Fresh(h[a..], now, windowMs) == h[b..]
    decreases |h| - a
  {
    if a < |h| {
      assert h[a..][1..] == h[a + 1..];
      assert Old(h[a], now, windowMs) <==> a < b;
      if a < b {
        FreshIsSuffix(h, now, windowMs, a + 1, b);
      } else {
        FreshIsSuffix(h, now, windowMs, a + 1, a + 1);
        assert h[a..] == [h[a]] + h[a + 1..];
      }
    }
  }

  /** A later equal output can only see fewer of the earlier ones. */
  lemma {:induction false} RunShrinks(h: seq<RingEntry>, y: RingEntry, x: RingEntry, windowMs: int)
    requires y.hash == x.hash && NotLater(y, x)
    ensures RunLength(h, x, windowMs) <= RunLength(h, y, windowMs)
    decreases |h|
  {
    if h != [] && Repeats(h[|h| - 1], x, windowMs) {
      RunShrinks(h[..|h| - 1], y, x, windowMs);
    }
  }

  // Of the outputs the previous run counts, those the new one does not count are too old.
  lemma OldInRun(h: seq<RingEntry>, x: RingEntry, windowMs: int, i: nat)
    requires h != [] && h[|h| - 1].hash == x.hash && Nondecreasing(h)
    requires |h| - RunLength(h, h[|h| - 1], windowMs) <= i < |h|
    ensures Old(h[i], x.time, windowMs) <==> i < |h| - RunLength(h, x, windowMs)
  {
    var n := RunLength(h, x, windowMs);
    RunLengthMeaning(h, x, windowMs);
    if i < |h| - n {
      var k := |h| - n - 1;
      RunLengthMeaning(h, h[|h| - 1], windowMs);
      assert Repeats(h[k], h[|h| - 1], windowMs) && !Repeats(h[k], x, windowMs);
      assert i < k ==> NotLater(h[i], h[k]);
    } else {
      assert Repeats(h[i], x, windowMs);
    }
  }

  /** What is still fresh in the ring is the repetition the new output continues. */
  lemma FreshRing(h: seq<RingEntry>, x: RingEntry, threshold: nat, windowMs: int)
    requires h != [] && h[|h| - 1].hash == x.hash && NotLater(h[|h| - 1], x) && Nondecreasing(h)
    ensures Fresh(Kept(h, RunLength(h, h[|h| - 1], windowMs), threshold), x.time, windowMs)
         == Kept(h, RunLength(h, x, windowMs), threshold)
  {
    var m, n := RunLength(h, h[|h| - 1], windowMs), RunLength(h, x, windowMs);
    RunShrinks(h, h[|h| - 1], x, windowMs);
    forall i: nat | |h| - Min(m, threshold) <= i < |h| ensures Old(h[i], x.time, windowMs) <==> i < |h| - Min(n, threshold) {
      OldInRun(h, x, windowMs, i);
    }
    FreshKept(h, m, n, threshold, x.time, windowMs);
  }

  lemma FreshKept(h: seq<RingEntry>, m: nat, n: nat, threshold: nat, now: int, windowMs: int)
    requires n <= m <= |h|
    requires forall i {:trigger Old(h[i], now, windowMs)} ::
               |h| - Min(m, threshold) <= i < |h| ==> (Old(h[i], now, windowMs) <==> i < |h| - Min(n, threshold))
    ensures Fresh(Kept(h, m, threshold), now, windowMs) == Kept(h, n, threshold)
  {
    FreshIsSuffix(h, now, windowMs, |h| - Min(m, threshold), |h| - Min(n, threshold));
  }

  lemma {:induction false} FreshFrom(ring: seq<RingEntry>, now: int, windowMs: int)
    ensures forall e :: e in Fresh(ring, now, windowMs) ==> e in ring
  {
    if ring != [] {
      FreshFrom(ring[1..], now, windowMs);
    }
  }

  function Next(ring: seq<RingEntry>, x: RingEntry, windowMs: int): seq<RingEntry> {
    var left := Fresh(ring, x.time, windowMs);
    if left != [] && (left[|left| - 1].hash == x.hash || left[|left| - 1].normalized == x.normalized)
    then left + [x] else [x]
  }

  /** The ring after the filter, when an equal output arrives. */
  lemma NextSame(h: seq<RingEntry>, ring: seq<RingEntry>, x: RingEntry, threshold: nat, windowMs: int)
    requires 0 < threshold && RingOf(h, ring, threshold, windowMs) && Nondecreasing(h)
    requires h != [] && h[|h| - 1].hash == x.hash && NotLater(h[|h| - 1], x)
    ensures Next(ring, x, windowMs) == Kept(h, RunLength(h, x, windowMs), threshold) + [x]
  {
    FreshRing(h, x, threshold, windowMs);
    KeptLast(h, RunLength(h, x, windowMs), threshold);
  }

  predicate SameForm(e: RingEntry, x: RingEntry) { e.normalized == x.normalized }

  /** A different output starts over. */
  lemma NextOther(h: seq<RingEntry>, ring: seq<RingEntry>, x: RingEntry, threshold: nat, windowMs: int)
    requires RingOf(h, ring, threshold, windowMs)
    requires h != [] && h[|h| - 1].hash != x.hash
    requires forall e {:trigger SameForm(e, x)} :: e in h && SameForm(e, x) ==> e.hash == x.hash
    ensures Next(ring, x, windowMs) == Kept(h, RunLength(h, x, windowMs), threshold) + [x]
  {
    var y := h[|h| - 1];
    RunLengthMeaning(h, y, windowMs);
    FreshFrom(ring, x.time, windowMs);
    forall e | e in ring ensures e.hash != x.hash && !SameForm(e, x) {
      var i :| 0 <= i < |ring| && ring[i] == e;
      assert e == h[|h| - |ring| + i] && e in h;
      assert Repeats(h[|h| - |ring| + i], y, windowMs);
    }
  }

  lemma RingGrows(h: seq<RingEntry>, x: RingEntry, n: nat, threshold: nat)
    requires 0 < threshold && n <= |h|
    ensures Last(Kept(h, n, threshold) + [x], threshold) == Kept(h + [x], n + 1, threshold)
  {
    KeptAppend(h, x, n, threshold);
    LastKept(h + [x], n, threshold);
  }

  lemma LastKept(all: seq<RingEntry>, n: nat, threshold: nat)
    requires 0 < threshold && n + 1 <= |all|
    ensures Last(all[|all| - 1 - Min(n, threshold)..], threshold) == Kept(all, n + 1, threshold)
  {
    if threshold <= n {
      assert Min(n, threshold) == Min(n + 1, threshold) == threshold;
      LongSuffix(all, |all| - 1 - threshold, threshold);
    } else {
      assert Min(n, threshold) == n && Min(n + 1, threshold) == n + 1;
      ShortSuffix(all, |all| - 1 - n, threshold);
    }
  }

  lemma KeptAppend(h: seq<RingEntry>, x: RingEntry, n: nat, threshold: nat)
    requires n <= |h|
    ensures Kept(h, n, threshold) + [x] == (h + [x])[|h| - Min(n, threshold)..]
  {
  }

  lemma LongSuffix(s: seq<RingEntry>, i: nat, n: nat)
    requires i + n <= |s|
    ensures Last(s[i..], n) == s[|s| - n..]
  {
    SuffixOfSuffix(s, i, |s| - n);
  }

  lemma ShortSuffix(s: seq<RingEntry>, i: nat, n: nat)
    requires i <= |s| <= i + n
    ensures Last(s[i..], n) == s[i..]
  {
  }

  lemma SuffixOfSuffix(s: seq<RingEntry>, i: nat, j: nat)
    requires i <= j <= |s|
    ensures s[i..][j - i..] == s[j..]
  {
  }

  /** One output later the ring is the repetition before it, capped, and itself. */
  lemma NextRing(h: seq<RingEntry>, ring: seq<RingEntry>, x: RingEntry, threshold: nat, windowMs: int)
    requires 0 < threshold && RingOf(h, ring, threshold, windowMs) && Nondecreasing(h)
    requires h != [] ==> NotLater(h[|h| - 1], x)
    requires forall e {:trigger SameForm(e, x)} :: e in h && SameForm(e, x) ==> e.hash == x.hash
    ensures Next(ring, x, windowMs) == Kept(h, RunLength(h, x, windowMs), threshold) + [x]
  {
    if h != [] {
      if h[|h| - 1].hash == x.hash {
        NextSame(h, ring, x, threshold, windowMs);
      } else {
        NextOther(h, ring, x, threshold, windowMs);
      }
    }
  }

  lemma RunAppended(h: seq<RingEntry>, x: RingEntry, windowMs: int)
    requires 0 < windowMs
    ensures RunLength(h + [x], x, windowMs) == RunLength(h, x, windowMs) + 1
  {
    assert (h + [x])[..|h|] == h;
  }

  lemma RingGrown(h: seq<RingEntry>, x: RingEntry, threshold: nat, windowMs: int)
    requires 0 < threshold && 0 < windowMs
    ensures RingOf(h + [x], Last(Kept(h, RunLength(h, x, windowMs), threshold) + [x], threshold), threshold, windowMs)
  {
    RunAppended(h, x, windowMs);
    RingGrows(h, x, RunLength(h, x, windowMs), threshold);
    assert (h + [x])[|h + [x]| - 1] == x;
  }

  predicate Hashed(e: RingEntry, digest: string -> string) { e.hash == digest(e.normalized) }

  /** Outputs in time order, each with the hash of its normal form. */
  ghost predicate Recorded(h: seq<RingEntry>, digest: string -> string) {
    Nondecreasing(h) && forall e {:trigger Hashed(e, digest)} :: e in h ==> Hashed(e, digest)
  }

  /** What one more output does to a transcript's history and ring. */
  lemma Observed(h: seq<RingEntry>, ring: seq<RingEntry>, x: RingEntry, threshold: nat, windowMs: int, digest: string -> string)
    requires 0 < threshold && 0 < windowMs && RingOf(h, ring, threshold, windowMs) && Recorded(h, digest)
    requires Hashed(x, digest) && (h != [] ==> NotLater(h[|h| - 1], x))
    ensures var next := Next(ring, x, windowMs);
            && |next| == Min(RunLength(h, x, windowMs), threshold) + 1
            && (|next| >= threshold <==> Loops(h + [x], threshold, windowMs))
            && RingOf(h + [x], Last(next, threshold), threshold, windowMs)
  {
    forall e | e in h && SameForm(e, x) ensures e.hash == x.hash {
      assert Hashed(e, digest);
    }
    NextRing(h, ring, x, threshold, windowMs);
    RingGrown(h, x, threshold, windowMs);
    LoopsByRun(h, x, threshold, windowMs);
  }

  lemma RecordedMore(h: seq<RingEntry>, x: RingEntry, digest: string -> string)
    requires Recorded(h, digest) && Hashed(x, digest) && (h != [] ==> NotLater(h[|h| - 1], x))
    ensures Recorded(h + [x], digest)
  {
    forall i, j | 0 <= i < j < |h + [x]| ensures NotLater((h + [x])[i], (h + [x])[j]) {
      if j < |h| {
        assert NotLater(h[i], h[j]);
      } else if i < |h| - 1 {
        assert NotLater(h[i], h[|h| - 1]);
      }
    }
    forall e | e in h + [x] ensures Hashed(e, digest) {
      assert e in h || e == x;
    }
  }

  ghost predicate RingsOf(histories: map<string, seq<RingEntry>>, rings: map<string, seq<RingEntry>>,
                          threshold: nat, windowMs: int, digest: string -> string, clock: int)
  {
    && rings.Keys == histories.Keys
    && forall id {:trigger RecentRing(histories[id], rings[id], threshold, windowMs, digest, clock)} ::
         id in rings ==> RecentRing(histories[id], rings[id], threshold, windowMs, digest, clock)
  }

  ghost predicate RecentRing(h: seq<RingEntry>, ring: seq<RingEntry>, threshold: nat, windowMs: int,
                             digest: string -> string, clock: int)
  {
    h != [] && h[|h| - 1].time <= clock && Recorded(h, digest) && RingOf(h, ring, threshold, windowMs)
  }

  lemma RingsUpdated(histories: map<string, seq<RingEntry>>, rings: map<string, seq<RingEntry>>, threshold: nat,
                     windowMs: int, digest: string -> string, clock: int, now: int, id: string,
                     h: seq<RingEntry>, ring: seq<RingEntry>)
    requires RingsOf(histories, rings, threshold, windowMs, digest, clock) && clock <= now
    requires RecentRing(h, ring, threshold, windowMs, digest, now)
    ensures RingsOf(histories[id := h], rings[id := ring], threshold, windowMs, digest, now)
  {
    var updated := rings[id := ring];
    forall other | other in updated
      ensures RecentRing(histories[id := h][other], updated[other], threshold, windowMs, digest, now)
    {
      if other != id {
        assert RecentRing(histories[other], rings[other], threshold, windowMs, digest, clock);
      }
    }
  }

  /** What an observation says about a history and leaves of it. */
  ghost predicate Reports(o: Observation, h: seq<RingEntry>, x: RingEntry, threshold: nat, windowMs: int)
    requires 0 < threshold
  {
    && o.park == Loops(h + [x], threshold, windowMs)
    && o.count == Min(RunLength(h, x, windowMs), threshold) + 1
  }

  lemma RingsObserved(histories: map<string, seq<RingEntry>>, rings: map<string, seq<RingEntry>>, threshold: nat,
                      windowMs: int, digest: string -> string, clock: int, id: string, x: RingEntry)
    requires RingsOf(histories, rings, threshold, windowMs, digest, clock) && clock <= x.time
    requires 0 < threshold && 0 < windowMs && x.hash == digest(x.normalized)
    ensures var h := if id in histories then histories[id] else [];
            var next := Next(if id in rings then rings[id] else [], x, windowMs);
            && RingsOf(histories[id := h + [x]], rings[id := Last(next, threshold)], threshold, windowMs, digest, x.time)
            && Reports(Observation(id, x.hash, |next|, |next| >= threshold, false), h, x, threshold, windowMs)
  {
    var h := if id in histories then histories[id] else [];
    var ring := if id in rings then rings[id] else [];
    if id in rings {
      assert RecentRing(histories[id], rings[id], threshold, windowMs, digest, clock);
    }
    Observed(h, ring, x, threshold, windowMs, digest);
    RecordedMore(h, x, digest);
    RingsUpdated(histories, rings, threshold, windowMs, digest, clock, x.time, id, h + [x],
                 Last(Next(ring, x, windowMs), threshold));
  }

  // ---- the detector ---------------------------------------------------------------------------------

  class ContainmentDetector {
    var threshold: int
    var windowMs: int
    const normalize: string -> string
    const digest: string -> string
    var rings: map<string, seq<RingEntry>>
    var parked: set<string>
    // The outputs of each transcript since it was last resumed or the policy changed.
    ghost var histories: map<string, seq<RingEntry>>
    ghost var clock: int

    constructor (threshold: Option<int>, windowMs: Option<int>, normalize: string -> string, digest: string -> string)
      ensures Valid() && histories == map[] && parked == {}
      ensures this.threshold == AtLeastOne(threshold, 5) && this.windowMs == AtLeastOne(windowMs, 120000)
    {
      this.threshold, this.windowMs := AtLeastOne(threshold, 5), AtLeastOne(windowMs, 120000);
      this.normalize, this.digest := normalize, digest;
      rings, parked, histories, clock := map[], {}, map[], 0;
    }

    // The given limit or else the default one, raised to one.
    static function AtLeastOne(option: Option<int>, default: int): (limit: int)
      ensures option == None && 1 <= default ==> limit == default
      ensures forall n :: option == Some(n) && 1 <= n ==> limit == n
      ensures 1 <= limit && (limit == 1 || option == Some(limit) || (option == None && limit == default))
    {
      var n := if option.Some? then option.value else default;
      if n < 1 then 1 else n
    }

    ghost predicate Valid()
      reads this
    {
      0 < threshold && 0 < windowMs && RingsOf(histories, rings, threshold, windowMs, digest, clock)
    }

    ghost function History(id: string): seq<RingEntry>
      reads this
    {
      if id in histories then histories[id] else []
    }

    /** How often the last output of a history has been repeated, up to the threshold. */
    static function CurrentRun(h: seq<RingEntry>, threshold: nat, windowMs: int): nat {
      if h == [] then 0 else Min(RunLength(h, h[|h| - 1], windowMs), threshold)
    }

    method UpdatePolicy(threshold: Option<int>, windowMs: Option<int>)
      requires Valid()
      modifies this
      ensures Valid() && histories == map[] && parked == old(parked) && clock == old(clock)
      ensures this.threshold == AtLeastOne(threshold, old(this.threshold))
      ensures this.windowMs == AtLeastOne(windowMs, old(this.windowMs))
    {
      this.threshold := AtLeastOne(threshold, this.threshold);
      this.windowMs := AtLeastOne(windowMs, this.windowMs);
      rings := map[];
      histories := map[];
    }

    /** Reports park exactly when the outputs since the last resume or policy change loop. */
    method Observe(output: string, transcriptId: string, markParked: bool, now: int) returns (o: Observation)
      requires Valid() && clock <= now
      modifies this
      ensures Valid() && threshold == old(threshold) && windowMs == old(windowMs)
      ensures o.transcriptId == transcriptId && o.hash == digest(normalize(output))
      ensures o.alreadyParked == (transcriptId in old(parked))
      ensures clock == if o.alreadyParked then old(clock) else now
      ensures o.alreadyParked ==> !o.park && histories == old(histories) && parked == old(parked)
      ensures o.alreadyParked ==> o.count == CurrentRun(old(History(transcriptId)), threshold, windowMs)
      ensures !o.alreadyParked ==>
                var x := RingEntry(o.hash, normalize(output), now);
                && histories == old(histories)[transcriptId := old(History(transcriptId)) + [x]]
                && Reports(o, old(History(transcriptId)), x, threshold, windowMs)
                && parked == old(parked) + (if o.park && markParked then {transcriptId} else {})
    {
      var normalized := normalize(output);
      var hash := digest(normalized);
      if transcriptId in parked {
        if transcriptId in rings {
          assert RecentRing(histories[transcriptId], rings[transcriptId], threshold, windowMs, digest, clock);
        }
        return Observation(transcriptId, hash, if transcriptId in rings then |rings[transcriptId]| else 0, false, true);
      }
      var x := RingEntry(hash, normalized, now);
      var previous := if transcriptId in rings then rings[transcriptId] else [];
      var next := Next(previous, x, windowMs);
      ghost var h := History(transcriptId);
      RingsObserved(histories, rings, threshold, windowMs, digest, clock, transcriptId, x);
      rings := rings[transcriptId := Last(next, threshold)];
      histories := histories[transcriptId := h + [x]];
      clock := now;
      var park := |next| >= threshold;
      if park && markParked {
        parked := parked + {transcriptId};
      }
      return Observation(transcriptId, hash, |next|, park, false);
    }

    method Resume(transcriptId: string)
      requires Valid()
      modifies this
      ensures Valid() && threshold == old(threshold) && windowMs == old(windowMs) && clock == old(clock)
      ensures parked == old(parked) - {transcriptId}
      ensures histories == old(histories) - {transcriptId}
    {
      parked := parked - {transcriptId};
      rings := rings - {transcriptId};
      histories := histories - {transcriptId};
    }
  }
}
