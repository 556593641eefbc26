// Splicing the managed region between its two marker lines, and the lens laws it obeys.
module ManagedRegion {
  import opened Wrappers
  import opened JsonText
  import opened Markers
  import opened Sorting
  import opened Capacity
  import opened Distribution
  import opened ManagedText

  /** The two marker texts. */
  datatype Marks = Marks(begin: Text, end: Text)

  const MODELCTL: Marks := Marks(Codes("# BEGIN modelctl managed"), Codes("# END modelctl managed"))

  predicate ProperMarks(k: Marks) {
    IsMarker(k.begin) && IsMarker(k.end) && k.begin != k.end
  }

  lemma ModelctlProper()
    ensures ProperMarks(MODELCTL) && !(MODELCTL.begin <= MODELCTL.end) && !(MODELCTL.end <= MODELCTL.begin)
  {
    assert MODELCTL.begin[2] != MODELCTL.end[2];
  }

  // A stretch of the text.
  datatype Span = Span(start: nat, stop: nat)

  // ---- lines ------------------------------------------------------------------------------------

  predicate LineStart(s: Text, i: nat) {
    i <= |s| && (i == 0 || s[i - 1] == LF || (s[i - 1] == CR && !(i < |s| && s[i] == LF)))
  }

  /** One line with its terminator: "\n", "\r\n", "\r", or the end of the text. */
  ghost predicate Line(s: Text, a: nat, b: nat) {
    && a < b <= |s| && LineStart(s, a) && (b == |s| || LineStart(s, b))
    && forall i :: a < i < b ==> !LineStart(s, i)
  }

  function Stripped(line: Text): Text {
    if line != [] && (line[|line| - 1] == LF || line[|line| - 1] == CR) then Stripped(line[..|line| - 1]) else line
  }

  ghost predicate MarkerLine(s: Text, m: Text, a: nat, b: nat) {
    Line(s, a, b) && Stripped(s[a..b]) == m
  }

  /** The only occurrence of the marker is a whole line. */
  ghost predicate SoleMarkerLine(s: Text, m: Text, a: nat, b: nat) {
    Once(s, m) && MarkerLine(s, m, a, b)
  }

  // The first occurrence at or after `i`.
  function NextOf(s: Text, m: Text, i: nat): Option<nat>
    decreases |s| + 1 - i
  {
    if i > |s| then None else if Occurs(s, m, i) then Some(i) else NextOf(s, m, i + 1)
  }

  // Where the line that starts at `a` stops.
  function LineStop(s: Text, a: nat): nat
    requires a < |s|
    decreases |s| - a
  {
    if s[a] == LF || a + 1 == |s| then a + 1
    else if s[a] == CR then (if s[a + 1] == LF then a + 2 else a + 1)
    else LineStop(s, a + 1)
  }

  /** The line that is the only occurrence of the marker. */
  function MarkerLineOf(s: Text, m: Text): Option<Span> {
    var place := NextOf(s, m, 0);
    if place.None? || place.value >= |s| || NextOf(s, m, place.value + 1).Some? || !LineStart(s, place.value) then None
    else
      var a, b := place.value, LineStop(s, place.value);
      if a < b <= |s| && Stripped(s[a..b]) == m then Some(Span(a, b)) else None
  }

  datatype Region = Region(b0: nat, b1: nat, e0: nat, e1: nat)

  /** The region lies between the begin line [b0, b1) and the end line [e0, e1). */
  function RegionOf(k: Marks, s: Text): Option<Region> {
    var begin, end := MarkerLineOf(s, k.begin), MarkerLineOf(s, k.end);
    if begin.None? || end.None? || begin.value.start >= end.value.start then None
    else Some(Region(begin.value.start, begin.value.stop, end.value.start, end.value.stop))
  }

  predicate Marked(k: Marks, s: Text) {
    RegionOf(k, s).Some?
  }

  /** A line is the marker's exactly if it is the marker and nothing after it but terminators. */
  lemma {:induction false} StrippedExactly(line: Text, m: Text)
    requires m != [] && m[|m| - 1] != LF && m[|m| - 1] != CR
    ensures Stripped(line) == m <==> m <= line && forall i :: |m| <= i < |line| ==> line[i] == LF || line[i] == CR
    decreases |line|
  {
    if line != [] && (line[|line| - 1] == LF || line[|line| - 1] == CR) {
      var rest := line[..|line| - 1];
      StrippedExactly(rest, m);
      assert m <= line ==> line[|m| - 1] == m[|m| - 1];
      assert m <= line && |m| < |line| ==> m <= rest;
    }
  }

  lemma {:induction false} StrippedPrefix(line: Text)
    ensures Stripped(line) <= line
    decreases |line|
  {
    if line != [] && (line[|line| - 1] == LF || line[|line| - 1] == CR) {
      StrippedPrefix(line[..|line| - 1]);
    }
  }

  lemma MarkerLineOccurs(s: Text, m: Text, a: nat, b: nat)
    requires MarkerLine(s, m, a, b)
    ensures Occurs(s, m, a) && a + |m| <= b
  {
    StrippedPrefix(s[a..b]);
    OccursAt(s, m, a);
    assert s[a..b][..|m|] == s[a..a + |m|];
  }

  lemma SameLine(s: Text, a: nat, b: nat, c: nat)
    requires Line(s, a, b) && Line(s, a, c)
    ensures b == c
  {
  }

  lemma {:induction false} NextOfMeaning(s: Text, m: Text, i: nat)
    ensures var p := NextOf(s, m, i);
            && (p.Some? ==> p.value >= i && Occurs(s, m, p.value) && forall j: nat :: i <= j < p.value ==> !Occurs(s, m, j))
            && (p.None? ==> forall j: nat :: i <= j ==> !Occurs(s, m, j))
    decreases |s| + 1 - i
  {
    if i <= |s| && !Occurs(s, m, i) {
      NextOfMeaning(s, m, i + 1);
    }
  }

  lemma {:induction false} LineStopMeaning(s: Text, a: nat)
    requires a < |s|
    ensures var b := LineStop(s, a);
            && a < b <= |s| && (b == |s| || LineStart(s, b)) && forall i :: a < i < b ==> !LineStart(s, i)
    decreases |s| - a
  {
    if !(s[a] == LF || a + 1 == |s| || s[a] == CR) {
      LineStopMeaning(s, a + 1);
    }
  }

  lemma OnlyPlace(s: Text, m: Text, a: nat)
    requires NextOf(s, m, 0) == Some(a) && NextOf(s, m, a + 1) == None
    ensures Occurs(s, m, a) && OnlyAt(s, m, a) && Once(s, m)
  {
    NextOfMeaning(s, m, 0);
    NextOfMeaning(s, m, a + 1);
  }

  lemma MarkerLineFound(s: Text, m: Text)
    requires MarkerLineOf(s, m).Some?
    ensures var p := MarkerLineOf(s, m).value; SoleMarkerLine(s, m, p.start, p.stop)
  {
    var Span(a, b) := MarkerLineOf(s, m).value;
    OnlyPlace(s, m, a);
    LineStopMeaning(s, a);
  }

  /** A text has at most one line that is its sole marker. */
  lemma MarkerLineIs(s: Text, m: Text, a: nat, b: nat)
    requires SoleMarkerLine(s, m, a, b)
    ensures MarkerLineOf(s, m) == Some(Span(a, b))
  {
    MarkerLineOccurs(s, m, a, b);
    NextOfMeaning(s, m, 0);
    NextOfMeaning(s, m, a + 1);
    LineStopMeaning(s, a);
    SameLine(s, a, b, LineStop(s, a));
  }

  lemma MarkerLineNone(s: Text, m: Text)
    requires !Once(s, m)
    ensures MarkerLineOf(s, m) == None
  {
    if MarkerLineOf(s, m).Some? {
      MarkerLineFound(s, m);
    }
  }

  lemma SoleAt(s: Text, m: Text, a: nat, b: nat)
    requires MarkerLineOf(s, m) == Some(Span(a, b))
    ensures Occurs(s, m, a) && OnlyAt(s, m, a) && a + |m| <= b <= |s| && a < b
  {
    MarkerLineFound(s, m);
    MarkerLineOccurs(s, m, a, b);
  }

  lemma RegionFacts(k: Marks, s: Text, r: Region)
    requires RegionOf(k, s) == Some(r)
    ensures MarkerLineOf(s, k.begin) == Some(Span(r.b0, r.b1)) && MarkerLineOf(s, k.end) == Some(Span(r.e0, r.e1)) && r.b0 < r.e0
  {
  }

  // ---- the splice ---------------------------------------------------------------------------------

  function Splice(s: Text, managed: Text, b1: nat, e0: nat): Text
    requires b1 <= e0 <= |s|
  {
    s[..b1] + managed + s[e0..]
  }

  predicate EndsLine(t: Text) {
    t != [] && (t[|t| - 1] == LF || t[|t| - 1] == CR)
  }

  lemma TerminatorOccurs(front: Text, c: Unit, m: Text, i: nat)
    requires IsMarker(m) && (c == LF || c == CR)
    ensures Occurs(front + [c], m, i) <==> Occurs(front, m, i)
  {
    MarkerShape(m);
    assert front + [c] == front + [c] + [];
    BarrierOccurs(front, c, [], m, i);
  }

  // A marker lies on one side of a line end.
  lemma CutOccurs(a: Text, b: Text, m: Text, i: nat)
    requires IsMarker(m) && (a == [] || EndsLine(a))
    ensures Occurs(a + b, m, i) <==> Occurs(a, m, i) || (i >= |a| && Occurs(b, m, i - |a|))
  {
    if a == [] {
      assert a + b == b;
      NoHash(a, m);
    } else {
      TerminatedCut(a[..|a| - 1], a[|a| - 1], b, m, i);
      assert a[..|a| - 1] + [a[|a| - 1]] == a;
    }
  }

  lemma TerminatedCut(front: Text, c: Unit, b: Text, m: Text, i: nat)
    requires IsMarker(m) && (c == LF || c == CR)
    ensures Occurs(front + [c] + b, m, i)
       <==> Occurs(front + [c], m, i) || (i >= |front + [c]| && Occurs(b, m, i - |front + [c]|))
  {
    MarkerShape(m);
    TerminatorOccurs(front, c, m, i);
    BarrierOccurs(front, c, b, m, i);
  }

  lemma SpliceOccurs(p: Text, managed: Text, q: Text, m: Text, i: nat)
    requires IsMarker(m) && EndsLine(p) && (managed == [] || EndsLine(managed))
    ensures Occurs(p + managed + q, m, i)
       <==> || Occurs(p, m, i) || (i >= |p| && Occurs(managed, m, i - |p|))
            || (i >= |p| + |managed| && Occurs(q, m, i - |p| - |managed|))
  {
    assert p + managed + q == p + (managed + q);
    CutOccurs(p, managed + q, m, i);
    if i >= |p| {
      CutOccurs(managed, q, m, i - |p|);
    }
  }

  /** Where the region of a text lies and what its lines look like. */
  lemma RegionShape(k: Marks, s: Text, r: Region)
    requires RegionOf(k, s) == Some(r) && ProperMarks(k)
    ensures r.b0 < r.b1 <= r.e0 < r.e1 <= |s| && EndsLine(s[..r.b1]) && s[r.e0] == HASH
  {
    RegionFacts(k, s, r);
    LinesApart(s, k.begin, k.end, r.b0, r.b1, r.e0, r.e1);
  }

  lemma LinesApart(s: Text, l: Text, m: Text, b0: nat, b1: nat, e0: nat, e1: nat)
    requires MarkerLineOf(s, l) == Some(Span(b0, b1)) && MarkerLineOf(s, m) == Some(Span(e0, e1)) && b0 < e0 && IsMarker(m)
    ensures b0 < b1 <= e0 < e1 <= |s| && EndsLine(s[..b1]) && s[e0] == HASH
  {
    SoleAt(s, m, e0, e1);
    MarkerShape(m);
    assert s[e0..][0] == m[0];
    MarkerLineFound(s, l);
    MarkerLineFound(s, m);
    assert b1 > e0 ==> !LineStart(s, e0);
  }

  // A marker that occurs once occurs in a beginning or an end of the text, or in neither.
  lemma OnceBefore(s: Text, m: Text, a: nat, b1: nat, i: nat)
    requires Occurs(s, m, a) && OnlyAt(s, m, a) && b1 <= |s|
    ensures Occurs(s[..b1], m, i) <==> i == a && a + |m| <= b1
  {
    OccursAt(s[..b1], m, i);
    OccursAt(s, m, i);
    if i + |m| <= b1 {
      assert s[..b1][i..i + |m|] == s[i..i + |m|];
    }
  }

  lemma OnceAfter(s: Text, m: Text, a: nat, e0: nat, i: nat)
    requires Occurs(s, m, a) && OnlyAt(s, m, a) && e0 <= |s|
    ensures Occurs(s[e0..], m, i) <==> e0 + i == a
  {
    if e0 + i <= |s| {
      assert s[e0..][i..] == s[e0 + i..];
      assert Occurs(s[e0..], m, i) == Occurs(s, m, e0 + i);
    }
  }

  /** `p` has the begin marker at `b0` and `q` starts with the end marker; no others. */
  ghost predicate Surrounds(k: Marks, p: Text, q: Text, m: Text, b0: nat) {
    && (forall i: nat {:trigger Occurs(p, m, i)} :: Occurs(p, m, i) <==> m == k.begin && i == b0)
    && (forall i: nat {:trigger Occurs(q, m, i)} :: Occurs(q, m, i) <==> m == k.end && i == 0)
  }

  lemma RegionSurrounds(k: Marks, s: Text, m: Text, r: Region)
    requires ProperMarks(k) && (m == k.begin || m == k.end) && RegionOf(k, s) == Some(r) && r.b1 <= r.e0 <= |s|
    ensures Surrounds(k, s[..r.b1], s[r.e0..], m, r.b0)
  {
    RegionShape(k, s, r);
    RegionFacts(k, s, r);
    SoleAt(s, k.begin, r.b0, r.b1);
    SoleAt(s, k.end, r.e0, r.e1);
    var a := if m == k.begin then r.b0 else r.e0;
    forall i: nat ensures Occurs(s[..r.b1], m, i) <==> m == k.begin && i == r.b0 {
      OnceBefore(s, m, a, r.b1, i);
    }
    forall i: nat ensures Occurs(s[r.e0..], m, i) <==> m == k.end && i == 0 {
      OnceAfter(s, m, a, r.e0, i);
    }
  }

  // Where the marker `m` of the spliced text lies if the managed text has none.
  function OldMarker(k: Marks, m: Text, managed: Text, b0: nat, b1: nat): nat {
    if m == k.begin then b0 else b1 + |managed|
  }

  /** The markers of a spliced text: the two old ones, and those of the managed text. */
  lemma SpliceMarkers(k: Marks, p: Text, managed: Text, q: Text, m: Text, b0: nat, i: nat)
    requires ProperMarks(k) && (m == k.begin || m == k.end)
    requires EndsLine(p) && WholeLines(managed) && Surrounds(k, p, q, m, b0)
    ensures Occurs(p + managed + q, m, i)
       <==> i == OldMarker(k, m, managed, b0, |p|) || (i >= |p| && Occurs(managed, m, i - |p|))
  {
    SpliceOccurs(p, managed, q, m, i);
    if i >= |p| + |managed| {
      assert Occurs(q, m, i - |p| - |managed|) <==> m == k.end && i == |p| + |managed|;
    }
  }

  lemma OnceAround(k: Marks, p: Text, managed: Text, q: Text, m: Text, b0: nat)
    requires ProperMarks(k) && (m == k.begin || m == k.end)
    requires EndsLine(p) && WholeLines(managed) && Surrounds(k, p, q, m, b0) && b0 < |p|
    ensures Once(p + managed + q, m) <==> !Contains(managed, m)
  {
    var out, place := p + managed + q, OldMarker(k, m, managed, b0, |p|);
    SpliceMarkers(k, p, managed, q, m, b0, place);
    if i: nat :| Occurs(managed, m, i) {
      OccursAt(managed, m, i);
      SpliceMarkers(k, p, managed, q, m, b0, i + |p|);
      assert Occurs(out, m, i + |p|) && Occurs(out, m, place) && i + |p| != place;
      assert !Once(out, m);
    } else {
      forall j: nat | Occurs(out, m, j) ensures j == place {
        SpliceMarkers(k, p, managed, q, m, b0, j);
      }
      assert OnlyAt(out, m, place);
    }
  }

  // ---- the lens laws ------------------------------------------------------------------------------

  lemma SpliceBefore(s: Text, managed: Text, b1: nat, e0: nat)
    requires b1 <= e0 < |s| && EndsLine(s[..b1]) && s[e0] == HASH && WholeLines(managed)
    ensures var out := Splice(s, managed, b1, e0);
            b1 <= |out| && LineStart(out, b1) && forall i :: 0 <= i < b1 ==> out[i] == s[i]
  {
    var out := Splice(s, managed, b1, e0);
    assert out[b1] == if managed == [] then s[e0] else managed[0];
    assert s[..b1][b1 - 1] == s[b1 - 1];
  }

  // A line reads the same in any text that agrees up to its end and starts a line there.
  lemma SameStart(s: Text, out: Text, m: Text, b0: nat, b1: nat)
    requires MarkerLine(s, m, b0, b1) && b1 <= |out| && LineStart(out, b1)
    requires forall i :: 0 <= i < b1 ==> out[i] == s[i]
    ensures MarkerLine(out, m, b0, b1)
  {
    assert forall i :: 0 <= i < b1 ==> LineStart(out, i) == LineStart(s, i);
    assert out[b0..b1] == s[b0..b1];
  }

  lemma ShiftedLine(s: Text, out: Text, m: Text, e0: nat, e1: nat, f0: nat)
    requires MarkerLine(s, m, e0, e1) && f0 <= |out| && out[f0..] == s[e0..] && LineStart(out, f0)
    ensures MarkerLine(out, m, f0, f0 + (e1 - e0))
  {
    assert out[f0..][..e1 - e0] == s[e0..][..e1 - e0];
    assert out[f0..f0 + (e1 - e0)] == s[e0..e1];
    forall i: nat | f0 < i <= f0 + (e1 - e0) ensures LineStart(out, i) == LineStart(s, i - f0 + e0) {
      assert out[i - 1] == out[f0..][i - 1 - f0] && s[i - 1 - f0 + e0] == s[e0..][i - 1 - f0];
      if i < |out| {
        assert out[i] == out[f0..][i - f0] && s[i - f0 + e0] == s[e0..][i - f0];
      }
    }
  }

  lemma SpliceAfter(s: Text, managed: Text, b1: nat, e0: nat)
    requires b1 <= e0 < |s| && EndsLine(s[..b1]) && WholeLines(managed) && s[e0] == HASH
    ensures var out := Splice(s, managed, b1, e0);
            b1 + |managed| <= |out| && out[b1 + |managed|..] == s[e0..] && LineStart(out, b1 + |managed|)
  {
    var out := Splice(s, managed, b1, e0);
    assert out[b1 + |managed|..] == s[e0..];
    assert out[b1 + |managed|] == HASH;
  }

  lemma SpliceOnce(k: Marks, s: Text, managed: Text, m: Text, r: Region)
    requires ProperMarks(k) && (m == k.begin || m == k.end)
    requires RegionOf(k, s) == Some(r) && r.b1 <= r.e0 <= |s| && WholeLines(managed)
    ensures Once(Splice(s, managed, r.b1, r.e0), m) <==> !Contains(managed, m)
  {
    RegionShape(k, s, r);
    RegionSurrounds(k, s, m, r);
    OnceAround(k, s[..r.b1], managed, s[r.e0..], m, r.b0);
  }

  lemma BeginLineFound(s: Text, out: Text, m: Text, b0: nat, b1: nat)
    requires MarkerLineOf(s, m) == Some(Span(b0, b1)) && Once(out, m)
    requires b1 <= |s| && b1 <= |out| && LineStart(out, b1) && forall i :: 0 <= i < b1 ==> out[i] == s[i]
    ensures MarkerLineOf(out, m) == Some(Span(b0, b1))
  {
    MarkerLineFound(s, m);
    SameStart(s, out, m, b0, b1);
    MarkerLineIs(out, m, b0, b1);
  }

  lemma EndLineFound(s: Text, out: Text, m: Text, e0: nat, e1: nat, f0: nat)
    requires e0 < e1 <= |s|
    ensures MarkerLineOf(s, m) == Some(Span(e0, e1)) && Once(out, m)
            && f0 <= |out| && out[f0..] == s[e0..] && LineStart(out, f0)
        ==> MarkerLineOf(out, m) == Some(Span(f0, f0 + (e1 - e0)))
  {
    if MarkerLineOf(s, m) == Some(Span(e0, e1)) && Once(out, m) && f0 <= |out| && out[f0..] == s[e0..] && LineStart(out, f0) {
      MarkerLineFound(s, m);
      ShiftedLine(s, out, m, e0, e1, f0);
      MarkerLineIs(out, m, f0, f0 + (e1 - e0));
    }
  }

  lemma BeginLineKept(s: Text, managed: Text, m: Text, b0: nat, b1: nat, e0: nat)
    requires b1 <= e0 < |s|
    requires MarkerLineOf(s, m) == Some(Span(b0, b1)) && Once(Splice(s, managed, b1, e0), m)
    requires EndsLine(s[..b1]) && s[e0] == HASH && WholeLines(managed)
    ensures MarkerLineOf(Splice(s, managed, b1, e0), m) == Some(Span(b0, b1))
  {
    SpliceBefore(s, managed, b1, e0);
    BeginLineFound(s, Splice(s, managed, b1, e0), m, b0, b1);
  }

  lemma EndLineKept(s: Text, managed: Text, m: Text, b1: nat, e0: nat, e1: nat)
    requires b1 <= e0 < e1 <= |s| && EndsLine(s[..b1]) && s[e0] == HASH && WholeLines(managed)
    requires MarkerLineOf(s, m) == Some(Span(e0, e1)) && Once(Splice(s, managed, b1, e0), m)
    ensures MarkerLineOf(Splice(s, managed, b1, e0), m) == Some(Span(b1 + |managed|, b1 + |managed| + (e1 - e0)))
  {
    SpliceAfter(s, managed, b1, e0);
    EndLineFound(s, Splice(s, managed, b1, e0), m, e0, e1, b1 + |managed|);
  }

  /** With both marker lines kept the managed text is the region. */
  lemma SpliceKept(k: Marks, s: Text, managed: Text, r: Region)
    requires r.b0 < r.b1 <= r.e0 < r.e1 <= |s|
    requires MarkerLineOf(Splice(s, managed, r.b1, r.e0), k.begin) == Some(Span(r.b0, r.b1))
    requires MarkerLineOf(Splice(s, managed, r.b1, r.e0), k.end)
          == Some(Span(r.b1 + |managed|, r.b1 + |managed| + (r.e1 - r.e0)))
    ensures RegionOf(k, Splice(s, managed, r.b1, r.e0))
         == Some(Region(r.b0, r.b1, r.b1 + |managed|, r.b1 + |managed| + (r.e1 - r.e0)))
  {
  }

  lemma KeptBegin(k: Marks, s: Text, managed: Text, r: Region)
    requires RegionOf(k, s) == Some(r) && r.b1 <= r.e0 < |s| && EndsLine(s[..r.b1]) && s[r.e0] == HASH
    requires WholeLines(managed) && Once(Splice(s, managed, r.b1, r.e0), k.begin)
    ensures MarkerLineOf(Splice(s, managed, r.b1, r.e0), k.begin) == Some(Span(r.b0, r.b1))
  {
    BeginLineKept(s, managed, k.begin, r.b0, r.b1, r.e0);
  }

  lemma KeptEnd(k: Marks, s: Text, managed: Text, r: Region)
    requires RegionOf(k, s) == Some(r) && r.b1 <= r.e0 < r.e1 <= |s| && EndsLine(s[..r.b1]) && s[r.e0] == HASH
    requires WholeLines(managed) && Once(Splice(s, managed, r.b1, r.e0), k.end)
    ensures MarkerLineOf(Splice(s, managed, r.b1, r.e0), k.end)
         == Some(Span(r.b1 + |managed|, r.b1 + |managed| + (r.e1 - r.e0)))
  {
    EndLineKept(s, managed, k.end, r.b1, r.e0, r.e1);
  }

  /** Managed text with a marker leaves no region. */
  lemma SpliceLost(k: Marks, s: Text, managed: Text, m: Text, r: Region)
    requires ProperMarks(k) && RegionOf(k, s) == Some(r) && r.b1 <= r.e0 <= |s| && WholeLines(managed)
    requires (m == k.begin || m == k.end) && Contains(managed, m)
    ensures RegionOf(k, Splice(s, managed, r.b1, r.e0)) == None
  {
    SpliceOnce(k, s, managed, m, r);
    MarkerLineNone(Splice(s, managed, r.b1, r.e0), m);
  }

  /** The config with its region replaced; None when the markers are missing or malformed. */
  ghost function ConfigWith(k: Marks, s: Text, managed: Text): Option<Text>
    requires ProperMarks(k)
  {
    if Marked(k, s) then
      var r := RegionOf(k, s).value;
      RegionShape(k, s, r);
      Some(Splice(s, managed, r.b1, r.e0))
    else None
  }

  // What lies up to the region, in it, and after it.
  ghost function Parts(k: Marks, s: Text): (p: (Text, Text, Text))
    requires ProperMarks(k) && Marked(k, s)
    ensures s == p.0 + p.1 + p.2
  {
    var r := RegionOf(k, s).value;
    RegionShape(k, s, r);
    (s[..r.b1], s[r.b1..r.e0], s[r.e0..])
  }

  lemma SpliceCut(p: Text, managed: Text, q: Text)
    ensures var out := p + managed + q;
            && |p| + |managed| <= |out| && out[..|p|] == p && out[|p|..|p| + |managed|] == managed
            && out[|p| + |managed|..] == q
  {
  }

  /** The config after a render renders again exactly when the rendered text carries neither
      marker. Then its region is the rendered text, everything else is as it was, rendering
      the same text changes nothing, and an earlier render leaves no trace. */
  lemma LensLaws(k: Marks, s: Text, managed: Text, again: Text)
    requires ProperMarks(k) && Marked(k, s) && WholeLines(managed)
    ensures ConfigWith(k, s, managed).Some?
    ensures var out := ConfigWith(k, s, managed).value;
            && (Marked(k, out) <==> !Contains(managed, k.begin) && !Contains(managed, k.end))
            && (Marked(k, out) ==>
                  && Parts(k, out) == (Parts(k, s).0, managed, Parts(k, s).2)
                  && ConfigWith(k, out, managed) == Some(out)
                  && ConfigWith(k, out, again) == ConfigWith(k, s, again))
  {
    var r := RegionOf(k, s).value;
    RegionShape(k, s, r);
    if Contains(managed, k.begin) {
      SpliceLost(k, s, managed, k.begin, r);
    } else if Contains(managed, k.end) {
      SpliceLost(k, s, managed, k.end, r);
    } else {
      SpliceOnce(k, s, managed, k.begin, r);
      SpliceOnce(k, s, managed, k.end, r);
      KeptBegin(k, s, managed, r);
      KeptEnd(k, s, managed, r);
      SpliceKept(k, s, managed, r);
      SpliceCut(s[..r.b1], managed, s[r.e0..]);
    }
  }

  // ---- the operation --------------------------------------------------------------------------------

  /** `out` is the config `s` rendered for these engines and routes. */
  ghost predicate RenderedFor(k: Marks, s: Text, engines: seq<Engine>, routes: seq<Route>, out: Text)
    requires ProperMarks(k)
  {
    exists entries :: IsRendering(engines, routes, entries) && Addressed(entries)
                      && ConfigWith(k, s, ManagedBytes(entries)) == Some(out)
  }

  lemma RenderingAddressed(engines: seq<Engine>, routes: seq<Route>, entries: seq<Entry>)
    requires IsRendering(engines, routes, entries)
    ensures Addressed(entries)
  {
    forall n | n in entries ensures n.engine.baseUrl.Some? {
      assert EntryOf(n.engine, Group(routes, n.engine.id), n);
    }
  }

  /** No route that gets slots has a marker text in its alias, model, base URL or id. */
  ghost predicate MarkerFree(k: Marks, engines: seq<Engine>, routes: seq<Route>) {
    forall e, r :: e in engines && e.Eligible() && r in Group(routes, e.id) && NeedsEntry(e, Group(routes, e.id), r)
      ==> e.baseUrl.Some? && !Carries(e, r, k.begin) && !Carries(e, r, k.end)
  }

  /** Rendering a policy, then another: the first result renders again exactly when no
      rendered alias, model, base URL or id carries a marker; then rendering the first policy
      twice is rendering it once, and the second render forgets the first. */
  lemma RenderTwice(k: Marks, s: Text, engines: seq<Engine>, routes: seq<Route>, once: Text,
                    others: seq<Engine>, otherRoutes: seq<Route>, twice: Text)
    requires ProperMarks(k) && RenderedFor(k, s, engines, routes, once)
    ensures Marked(k, s) && (Marked(k, once) <==> MarkerFree(k, engines, routes))
    ensures Marked(k, once) ==> Parts(k, once).0 == Parts(k, s).0 && Parts(k, once).2 == Parts(k, s).2
    ensures RenderedFor(k, once, engines, routes, twice) ==> twice == once
    ensures Marked(k, once) ==>
              (RenderedFor(k, once, others, otherRoutes, twice) <==> RenderedFor(k, s, others, otherRoutes, twice))
  {
    var entries :| IsRendering(engines, routes, entries) && Addressed(entries)
                   && ConfigWith(k, s, ManagedBytes(entries)) == Some(once);
    var managed := ManagedBytes(entries);
    ManagedWholeLines(entries);
    LensLaws(k, s, managed, managed);
    MarkersOfRendering(k, engines, routes, entries);
    if RenderedFor(k, once, engines, routes, twice) {
      var same :| IsRendering(engines, routes, same) && Addressed(same) && ConfigWith(k, once, ManagedBytes(same)) == Some(twice);
      RenderingUnique(engines, routes, entries, same);
    }
    if Marked(k, once) {
      forall other | IsRendering(others, otherRoutes, other) && Addressed(other)
        ensures ConfigWith(k, once, ManagedBytes(other)) == ConfigWith(k, s, ManagedBytes(other))
      {
        LensLaws(k, s, managed, ManagedBytes(other));
      }
    }
  }

  // ---- a policy that renders once -------------------------------------------------------------

  /** Two marker lines and nothing else. */
  function Bare(k: Marks): Text {
    k.begin + [LF] + (k.end + [LF])
  }

  // A marker occurs in a marker at its start or not at all.
  lemma MarkerInMarker(x: Text, m: Text, i: nat)
    requires IsMarker(x) && IsMarker(m)
    ensures Occurs(x, m, i) <==> i == 0 && m <= x
  {
    assert MarkerUnit(m, 0);
    assert i < |x| ==> MarkerUnit(x, i) && x[i..][0] == x[i];
    assert x[0..] == x;
  }

  lemma BareOccurs(k: Marks, m: Text, i: nat)
    requires ProperMarks(k) && IsMarker(m)
    ensures Occurs(Bare(k), m, i) <==> (i == 0 && m <= k.begin) || (i == |k.begin| + 1 && m <= k.end)
  {
    MarkerShape(m);
    BarrierOccurs(k.begin, LF, k.end + [LF], m, i);
    MarkerInMarker(k.begin, m, i);
    if i > |k.begin| {
      TerminatorOccurs(k.end, LF, m, i - |k.begin| - 1);
      MarkerInMarker(k.end, m, i - |k.begin| - 1);
    }
  }

  lemma BareOnce(k: Marks)
    requires ProperMarks(k) && !(k.begin <= k.end) && !(k.end <= k.begin)
    ensures Once(Bare(k), k.begin) && Once(Bare(k), k.end)
  {
    forall i: nat ensures Occurs(Bare(k), k.begin, i) <==> i == 0 {
      BareOccurs(k, k.begin, i);
    }
    forall i: nat ensures Occurs(Bare(k), k.end, i) <==> i == |k.begin| + 1 {
      BareOccurs(k, k.end, i);
    }
    assert OnlyAt(Bare(k), k.begin, 0) && OnlyAt(Bare(k), k.end, |k.begin| + 1);
  }

  // A terminated marker is a line wherever a line may start.
  lemma MarkerIsLine(s: Text, m: Text, a: nat)
    requires IsMarker(m) && Terminated(s, m, a)
    ensures MarkerLine(s, m, a, a + |m| + 1)
  {
    MarkerShape(m);
    assert s[a + |m|] == (m + [LF])[|m|];
    forall i: nat | a < i < a + |m| + 1 ensures !LineStart(s, i) {
      assert s[i - 1] == s[a..a + |m| + 1][i - 1 - a] == m[i - 1 - a];
    }
    assert (m + [LF])[..|m|] == m && m[|m| - 1] in m;
  }

  lemma BareMarked(k: Marks)
    requires ProperMarks(k) && !(k.begin <= k.end) && !(k.end <= k.begin)
    ensures Marked(k, Bare(k))
  {
    BareOnce(k);
    BareCut(k);
    TwoMarkers(k, Bare(k), |k.begin| + 1);
  }

  lemma TwoMarkers(k: Marks, s: Text, b: nat)
    requires ProperMarks(k) && 0 < b
    ensures Once(s, k.begin) && Once(s, k.end) && Terminated(s, k.begin, 0) && Terminated(s, k.end, b) ==> Marked(k, s)
  {
    TerminatedMarker(s, k.begin, 0);
    TerminatedMarker(s, k.end, b);
  }

  predicate Terminated(s: Text, m: Text, a: nat) {
    a + |m| + 1 <= |s| && LineStart(s, a) && s[a..a + |m| + 1] == m + [LF]
  }

  lemma BareCut(k: Marks)
    ensures Terminated(Bare(k), k.begin, 0) && Terminated(Bare(k), k.end, |k.begin| + 1)
  {
    var s, b := Bare(k), |k.begin| + 1;
    assert s[0..0 + |k.begin| + 1] == k.begin + [LF] && s[b..b + |k.end| + 1] == k.end + [LF] && s[b - 1] == LF;
  }

  lemma TerminatedMarker(s: Text, m: Text, a: nat)
    requires IsMarker(m)
    ensures Once(s, m) && Terminated(s, m, a) ==> MarkerLineOf(s, m) == Some(Span(a, a + |m| + 1))
  {
    if Once(s, m) && Terminated(s, m, a) {
      MarkerIsLine(s, m, a);
      MarkerLineIs(s, m, a, a + |m| + 1);
    }
  }

  const Loud: Engine := Engine("box", Some("http://box"), ActiveState, Healthy, 1, 0, 0)
  const Marking: Route := Route("# BEGIN modelctl managed", "box", "m", 1, false, false)

  lemma MarkingRendered()
    ensures ValidRoutes([Marking]) && Consistent([Loud], [Marking]) && !MissingUrl([Loud], [Marking])
    ensures IsRendering([Loud], [Marking], [Entry(Marking, 1, Loud)]) && !MarkerFree(MODELCTL, [Loud], [Marking])
  {
    var routes := [Marking];
    SingleRoute(OnEngine("box"), Weight, Marking);
    SingleRoute(IsServing, Weight, Marking);
    SingleRoute(IsServing, Shares(1, routes), Marking);
    assert forall e :: e in [Loud] ==> e == Loud;
    SharesAddUp(1, routes);
    assert Slots(Loud, routes, Marking) == 1;
    assert NeedsEntry(Loud, routes, Marking);
    assert Entry(Marking, 1, Loud) in [Entry(Marking, 1, Loud)];
    MarkingCarries();
  }

  lemma MarkingCarries()
    ensures Carries(Loud, Marking, MODELCTL.begin)
  {
    assert Codes(Marking.alias)[0..] == MODELCTL.begin;
    assert Occurs(Codes(Marking.alias), MODELCTL.begin, 0);
  }

  /** A route whose alias is a marker is accepted: the bare config takes its entry, and what
      that gives is refused by every later render. */
  lemma MarkerAliasRendersOnce()
    ensures ProperMarks(MODELCTL) && Marked(MODELCTL, Bare(MODELCTL))
    ensures ValidRoutes([Marking]) && Consistent([Loud], [Marking]) && !MissingUrl([Loud], [Marking])
    ensures exists once :: RenderedFor(MODELCTL, Bare(MODELCTL), [Loud], [Marking], once) && !Marked(MODELCTL, once)
  {
    MarkingRendered();
    ModelctlProper();
    BareMarked(MODELCTL);
    RendersOnce(MODELCTL, Bare(MODELCTL), [Loud], [Marking], [Entry(Marking, 1, Loud)]);
  }

  lemma RendersOnce(k: Marks, s: Text, engines: seq<Engine>, routes: seq<Route>, entries: seq<Entry>)
    requires ProperMarks(k) && Marked(k, s) && IsRendering(engines, routes, entries) && !MarkerFree(k, engines, routes)
    ensures exists once :: RenderedFor(k, s, engines, routes, once) && !Marked(k, once)
  {
    RenderingAddressed(engines, routes, entries);
    var once := ConfigWith(k, s, ManagedBytes(entries)).value;
    assert RenderedFor(k, s, engines, routes, once);
    RenderTwice(k, s, engines, routes, once, engines, routes, once);
  }

  lemma MarkersOfRendering(k: Marks, engines: seq<Engine>, routes: seq<Route>, entries: seq<Entry>)
    requires ProperMarks(k) && IsRendering(engines, routes, entries) && Addressed(entries)
    ensures !Contains(ManagedBytes(entries), k.begin) && !Contains(ManagedBytes(entries), k.end)
       <==> MarkerFree(k, engines, routes)
  {
    ManagedContains(entries, k.begin);
    ManagedContains(entries, k.end);
    forall n | n in entries
      ensures n.engine in engines && n.engine.Eligible() && n.route in Group(routes, n.engine.id)
              && NeedsEntry(n.engine, Group(routes, n.engine.id), n.route)
    {
      assert EntryOf(n.engine, Group(routes, n.engine.id), n);
    }
    if MarkerFree(k, engines, routes) {
      forall n | n in entries ensures !Carries(n.engine, n.route, k.begin) && !Carries(n.engine, n.route, k.end) {
      }
    }
  }

  // ---- the loops --------------------------------------------------------------------------------------

  /** Every occurrence counted without overlap, from `i` on. */
  method Count(s: Text, m: Text) returns (n: nat)
    requires IsMarker(m)
    ensures n == 1 <==> Once(s, m)
  {
    MarkerShape(m);
    n := 0;
    var i := 0;
    ghost var first, second := 0, 0;
    while i + |m| <= |s|
      invariant n == 0 ==> NoneBefore(s, m, i)
      invariant n == 1 ==> OneBefore(s, m, i, first)
      invariant n > 1 ==> Occurs(s, m, first) && Occurs(s, m, second) && first != second
      decreases |s| - i
    {
      OccursAt(s, m, i);
      if s[i..i + |m|] == m {
        if n == 0 { first := i; } else if n == 1 { second := i; }
        n := n + 1;
        AfterMatch(s, m, i);
        i := i + |m|;
      } else {
        AfterMiss(s, m, i, first);
        i := i + 1;
      }
    }
    CountDone(s, m, i, n, first, second);
  }

  lemma CountDone(s: Text, m: Text, i: nat, n: nat, first: nat, second: nat)
    requires IsMarker(m) && i + |m| > |s|
    requires n == 0 ==> NoneBefore(s, m, i)
    requires n == 1 ==> OneBefore(s, m, i, first)
    requires n > 1 ==> Occurs(s, m, first) && Occurs(s, m, second) && first != second
    ensures n == 1 <==> Once(s, m)
  {
    forall j: nat | Occurs(s, m, j) ensures j < i {
      OccursAt(s, m, j);
    }
    if n == 1 {
      assert OnlyAt(s, m, first);
    }
  }

  lemma AfterMiss(s: Text, m: Text, i: nat, first: nat)
    requires !Occurs(s, m, i)
    ensures NoneBefore(s, m, i) ==> NoneBefore(s, m, i + 1)
    ensures OneBefore(s, m, i, first) ==> OneBefore(s, m, i + 1, first)
  {
  }

  ghost predicate NoneBefore(s: Text, m: Text, i: nat) {
    forall j: nat :: j < i ==> !Occurs(s, m, j)
  }

  ghost predicate OneBefore(s: Text, m: Text, i: nat, first: nat) {
    first < i && Occurs(s, m, first) && forall j: nat :: j < i && j != first ==> !Occurs(s, m, j)
  }

  lemma AfterMatch(s: Text, m: Text, i: nat)
    requires IsMarker(m) && Occurs(s, m, i)
    ensures NoneBefore(s, m, i) ==> OneBefore(s, m, i + |m|, i)
  {
    MarkerShape(m);
    forall j: nat | i < j < i + |m| ensures !Occurs(s, m, j) {
      NoOverlap(s, m, i, j);
    }
  }

  lemma NoOverlap(s: Text, m: Text, i: nat, j: nat)
    requires IsMarker(m) && Occurs(s, m, i) && i < j < i + |m|
    ensures !Occurs(s, m, j)
  {
    MarkerShape(m);
    assert MarkerUnit(m, j - i);
    assert s[i..][j - i] == m[j - i];
    assert s[j..][0] == s[j] && s[j] != m[0];
  }

  // Where the last of the spans ends.
  function Reached(spans: seq<Span>): nat {
    if spans == [] then 0 else spans[|spans| - 1].stop
  }

  /** Consecutive lines from the start of the text. */
  ghost predicate Lines(s: Text, spans: seq<Span>)
    decreases |spans|
  {
    spans == [] || (var last := |spans| - 1;
                    Lines(s, spans[..last]) && spans[last].start == Reached(spans[..last]) && Line(s, spans[last].start, spans[last].stop))
  }

  /** The lines of a text in order, each with its terminator. */
  method SplitLines(s: Text) returns (spans: seq<Span>)
    ensures Lines(s, spans) && Reached(spans) == |s|
  {
    spans := [];
    var offset := 0;
    while offset < |s|
      invariant offset <= |s| && (offset == |s| || LineStart(s, offset))
      invariant Lines(s, spans) && offset == Reached(spans)
    {
      var end := LineEnd(s, offset);
      spans := spans + [Span(offset, end)];
      offset := end;
    }
  }

  method LineEnd(s: Text, a: nat) returns (b: nat)
    requires a < |s| && LineStart(s, a)
    ensures Line(s, a, b)
  {
    b := a;
    while b < |s| && s[b] != LF && s[b] != CR
      invariant a <= b <= |s|
      invariant forall i :: a <= i < b ==> s[i] != LF && s[i] != CR
    {
      b := b + 1;
    }
    if b < |s| {
      if s[b] == CR && b + 1 < |s| && s[b + 1] == LF {
        b := b + 2;
      } else {
        b := b + 1;
      }
    }
  }

  // Consecutive lines leave out none.
  lemma {:induction false} LineListed(s: Text, spans: seq<Span>, a: nat, b: nat)
    requires Lines(s, spans) && Line(s, a, b) && a < Reached(spans)
    ensures Span(a, b) in spans
    decreases |spans|
  {
    var last := |spans| - 1;
    if a < spans[last].start {
      LineListed(s, spans[..last], a, b);
    } else {
      SameLine(s, a, b, spans[last].stop);
      assert spans[last] == Span(a, b);
    }
  }

  lemma {:induction false} LinesAt(s: Text, spans: seq<Span>, k: nat)
    requires Lines(s, spans) && k < |spans|
    ensures Line(s, spans[k].start, spans[k].stop)
    decreases |spans|
  {
    if k < |spans| - 1 {
      LinesAt(s, spans[..|spans| - 1], k);
    }
  }

  /** The first line that is the marker, which is the only one that can be. */
  method FirstMarkerLine(s: Text, spans: seq<Span>, m: Text) returns (r: Option<Span>)
    requires Lines(s, spans) && Reached(spans) == |s| && Once(s, m)
    ensures r == MarkerLineOf(s, m)
  {
    for i := 0 to |spans|
      invariant forall j :: 0 <= j < i ==> !MarkerLine(s, m, spans[j].start, spans[j].stop)
    {
      LinesAt(s, spans, i);
      if Stripped(s[spans[i].start..spans[i].stop]) == m {
        MarkerLineIs(s, m, spans[i].start, spans[i].stop);
        return Some(spans[i]);
      }
    }
    NoMarkerLine(s, spans, m);
    return None;
  }

  lemma NoMarkerLine(s: Text, spans: seq<Span>, m: Text)
    requires Lines(s, spans) && Reached(spans) == |s|
    requires forall p :: p in spans ==> !MarkerLine(s, m, p.start, p.stop)
    ensures MarkerLineOf(s, m) == None
  {
    if MarkerLineOf(s, m).Some? {
      var Span(a, b) := MarkerLineOf(s, m).value;
      MarkerLineFound(s, m);
      LineListed(s, spans, a, b);
    }
  }

  /** Where the two marker lines are; None unless each marker text occurs once, each as a
      whole line, the begin line first. */
  method MarkerLines(k: Marks, s: Text) returns (r: Option<Region>)
    requires ProperMarks(k)
    ensures r == RegionOf(k, s)
  {
    var begins := Count(s, k.begin);
    var ends := Count(s, k.end);
    if begins != 1 || ends != 1 {
      MarkerLineNone(s, if begins != 1 then k.begin else k.end);
      return None;
    }
    var spans := SplitLines(s);
    var begin := FirstMarkerLine(s, spans, k.begin);
    var end := FirstMarkerLine(s, spans, k.end);
    if begin.None? || end.None? || begin.value.start >= end.value.start {
      return None;
    }
    return Some(Region(begin.value.start, begin.value.stop, end.value.start, end.value.stop));
  }

  /** The config for a policy; None when the markers or the policy are refused. */
  method RenderConfig(k: Marks, s: Text, engines: seq<Engine>, routes: seq<Route>) returns (r: Option<Text>)
    requires ProperMarks(k) && ValidRoutes(routes)
    ensures r.None? <==> !Marked(k, s) || !Consistent(engines, routes) || MissingUrl(engines, routes)
    ensures r.Some? ==> RenderedFor(k, s, engines, routes, r.value)
  {
    var region := MarkerLines(k, s);
    if region.None? {
      return None;
    }
    var entries := RenderManagedRegion(engines, routes);
    if entries.None? {
      return None;
    }
    RenderingAddressed(engines, routes, entries.value);
    var managed := ManagedBytes(entries.value);
    RegionShape(k, s, region.value);
    r := Some(s[..region.value.b1] + managed + s[region.value.e0..]);
  }
}
