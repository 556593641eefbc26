// Finding a marker text: occurrences, what separates them, and encodings that keep them.
module Markers {
  import opened JsonText

  predicate Occurs(s: Text, m: Text, i: nat) {
    i <= |s| && m <= s[i..]
  }

  ghost predicate Contains(s: Text, m: Text) {
    exists i: nat :: Occurs(s, m, i)
  }

  /** Text that occurs at exactly one place. */
  ghost predicate Once(s: Text, m: Text) {
    exists i: nat :: Occurs(s, m, i) && OnlyAt(s, m, i)
  }

  ghost predicate OnlyAt(s: Text, m: Text, i: nat) {
    forall j: nat :: Occurs(s, m, j) ==> j == i
  }

  lemma OccursAt(s: Text, m: Text, i: nat)
    ensures Occurs(s, m, i) <==> i + |m| <= |s| && s[i..i + |m|] == m
  {
    if i <= |s| && |m| <= |s[i..]| {
      assert s[i..][..|m|] == s[i..i + |m|];
    }
  }

  /** A unit that is not in the text keeps what lies left and right of it apart. */
  lemma BarrierOccurs(a: Text, c: Unit, b: Text, m: Text, i: nat)
    requires c !in m && m != []
    ensures Occurs(a + [c] + b, m, i)
       <==> Occurs(a, m, i) || (i > |a| && Occurs(b, m, i - |a| - 1))
  {
    var s := a + [c] + b;
    OccursAt(s, m, i);
    OccursAt(a, m, i);
    if i > |a| {
      if i <= |s| {
        assert s[i..] == b[i - |a| - 1..];
      }
    } else if i + |m| <= |a| {
      assert s[i..i + |m|] == a[i..i + |m|];
    } else if i + |m| <= |s| {
      assert s[i..i + |m|][|a| - i] == c && c != m[|a| - i];
    }
  }

  lemma Barrier(a: Text, c: Unit, b: Text, m: Text)
    requires c !in m && m != []
    ensures Contains(a + [c] + b, m) <==> Contains(a, m) || Contains(b, m)
  {
    var s := a + [c] + b;
    if i: nat :| Occurs(s, m, i) {
      BarrierOccurs(a, c, b, m, i);
    }
    if i: nat :| Occurs(a, m, i) {
      BarrierOccurs(a, c, b, m, i);
    }
    if i: nat :| Occurs(b, m, i) {
      BarrierOccurs(a, c, b, m, i + |a| + 1);
      assert Occurs(s, m, i + |a| + 1);
    }
  }

  // Texts with the same unit between neighbours.
  function Joined(texts: seq<Text>, c: Unit): Text {
    if texts == [] then []
    else if |texts| == 1 then texts[0]
    else texts[0] + [c] + Joined(texts[1..], c)
  }

  ghost predicate AnyContains(texts: seq<Text>, m: Text) {
    exists k :: 0 <= k < |texts| && Contains(texts[k], m)
  }

  lemma {:induction false} JoinedContains(texts: seq<Text>, c: Unit, m: Text)
    requires c !in m && m != []
    ensures Contains(Joined(texts, c), m) <==> AnyContains(texts, m)
    decreases |texts|
  {
    if |texts| > 1 {
      Barrier(texts[0], c, Joined(texts[1..], c), m);
      JoinedContains(texts[1..], c, m);
      if k :| 0 <= k < |texts[1..]| && Contains(texts[1..][k], m) {
        assert Contains(texts[k + 1], m);
      }
      if AnyContains(texts, m) {
        var k :| 0 <= k < |texts| && Contains(texts[k], m);
        assert k > 0 ==> texts[k] == texts[1..][k - 1];
      }
    } else if |texts| == 1 {
      assert AnyContains(texts, m) <==> Contains(texts[0], m);
    } else {
      forall i: nat ensures !Occurs([], m, i) {
        OccursAt([], m, i);
      }
    }
  }

  // ---- texts encoded unit by unit ---------------------------------------------------------

  function Coded(code: Unit -> Text, t: Text): Text
    decreases |t|
  {
    if t == [] then [] else code(t[0]) + Coded(code, t[1..])
  }

  /** An encoding that leaves the units of `m` alone and codes no other unit into
      something a part of `m` could be read from. */
  ghost predicate Transparent(code: Unit -> Text, m: Text)
    requires m != []
  {
    && (forall u :: u in m ==> code(u) == [u])
    && (forall u :: u !in m ==> code(u) != [] && code(u)[0] !in m && m[0] !in code(u))
  }

  lemma {:induction false} CodedPrefix(code: Unit -> Text, t: Text, m: Text, k: nat)
    requires m != [] && Transparent(code, m) && k <= |m|
    ensures m[k..] <= Coded(code, t) <==> m[k..] <= t
    decreases |m| - k
  {
    if k < |m| && t != [] {
      var c := code(t[0]);
      var all := Coded(code, t);
      assert all[0] == c[0];
      if t[0] in m {
        assert all[1..] == Coded(code, t[1..]);
        CodedPrefix(code, t[1..], m, k + 1);
        PrefixStep(m[k..], all);
        PrefixStep(m[k..], t);
        assert m[k..][1..] == m[k + 1..];
      } else {
        assert m[k] in m;
        assert m[k..][0] == m[k];
        PrefixStep(m[k..], all);
        PrefixStep(m[k..], t);
      }
    }
  }

  lemma PrefixStep(p: Text, s: Text)
    requires p != [] && s != []
    ensures p <= s <==> p[0] == s[0] && p[1..] <= s[1..]
  {
    if p[0] == s[0] && p[1..] <= s[1..] {
      assert s == [s[0]] + s[1..] && p == [p[0]] + p[1..];
      assert |p| <= |s|;
      forall i | 0 <= i < |p| ensures p[i] == s[i] {
        if i > 0 { assert p[1..][i - 1] == s[1..][i - 1]; }
      }
    }
    if p <= s {
      assert p[1..] == s[1..|p|];
      assert s[1..][..|p| - 1] == s[1..|p|];
    }
  }

  lemma ContainsStep(s: Text, m: Text)
    requires s != []
    ensures Contains(s, m) <==> m <= s || Contains(s[1..], m)
  {
    assert s[0..] == s;
    if m <= s {
      assert Occurs(s, m, 0);
    }
    if i: nat :| Occurs(s, m, i) {
      if i > 0 {
        assert s[1..][i - 1..] == s[i..];
        assert Occurs(s[1..], m, i - 1);
      }
    }
    if i: nat :| Occurs(s[1..], m, i) {
      assert s[1..][i..] == s[i + 1..];
      assert Occurs(s, m, i + 1);
    }
  }

  // Units that cannot start the marker may be dropped from the front.
  lemma {:induction false} ContainsSkip(c: Text, s: Text, m: Text)
    requires m != [] && m[0] !in c
    ensures Contains(c + s, m) <==> Contains(s, m)
    decreases |c|
  {
    if c == [] {
      assert c + s == s;
    } else {
      assert (c + s)[1..] == c[1..] + s;
      ContainsStep(c + s, m);
      ContainsSkip(c[1..], s, m);
      assert (c + s)[0] == c[0];
    }
  }

  /** A transparent encoding neither makes nor hides an occurrence. */
  lemma {:induction false} CodedContains(code: Unit -> Text, t: Text, m: Text)
    requires m != [] && Transparent(code, m)
    ensures Contains(Coded(code, t), m) <==> Contains(t, m)
    decreases |t|
  {
    if t != [] {
      var c, rest := code(t[0]), Coded(code, t[1..]);
      CodedContains(code, t[1..], m);
      ContainsStep(t, m);
      if t[0] in m {
        assert Coded(code, t)[1..] == rest;
        ContainsStep(Coded(code, t), m);
        CodedPrefix(code, t, m, 0);
        assert m[0..] == m;
      } else {
        ContainsSkip(c, rest, m);
        assert m[0] in m;
      }
    }
  }
}
