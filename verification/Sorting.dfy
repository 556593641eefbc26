// Orders on strings and the stable sort the renderers rely on.
module Sorting {

  function StringLeq(a: string, b: string): bool {
    if a == "" then true
    else if b == "" then false
    else if a[0] != b[0] then a[0] < b[0]
    else StringLeq(a[1..], b[1..])
  }

  lemma {:induction false} StringLeqTotal(a: string, b: string)
    ensures StringLeq(a, b) || StringLeq(b, a)
    ensures StringLeq(a, b) && StringLeq(b, a) ==> a == b
  {
    if a != "" && b != "" && a[0] == b[0] {
      StringLeqTotal(a[1..], b[1..]);
      assert a == [a[0]] + a[1..] && b == [b[0]] + b[1..];
    }
  }

  lemma {:induction false} StringLeqTransitive(a: string, b: string, c: string)
    requires StringLeq(a, b) && StringLeq(b, c)
    ensures StringLeq(a, c)
  {
    if a != "" && b != "" && c != "" && a[0] == b[0] == c[0] {
      StringLeqTransitive(a[1..], b[1..], c[1..]);
    }
  }

  ghost predicate IsOrder<T(!new)>(leq: (T, T) -> bool) {
    && (forall x, y :: leq(x, y) || leq(y, x))
    && (forall x, y, z :: leq(x, y) && leq(y, z) ==> leq(x, z))
  }

  ghost predicate SortedBy<T>(leq: (T, T) -> bool, s: seq<T>) {
    forall i, j :: 0 <= i < j < |s| ==> leq(s[i], s[j])
  }

  function Insert<T>(leq: (T, T) -> bool, x: T, s: seq<T>): seq<T> {
    if s == [] || leq(x, s[0]) then [x] + s else [s[0]] + Insert(leq, x, s[1..])
  }

  function Sort<T>(leq: (T, T) -> bool, s: seq<T>): seq<T> {
    if s == [] then [] else Insert(leq, s[0], Sort(leq, s[1..]))
  }

  lemma {:induction false} InsertPermutes<T>(leq: (T, T) -> bool, x: T, s: seq<T>)
    ensures multiset(Insert(leq, x, s)) == multiset(s) + multiset{x}
  {
    if !(s == [] || leq(x, s[0])) {
      InsertPermutes(leq, x, s[1..]);
      assert s == [s[0]] + s[1..];
    }
  }

  lemma {:induction false} SortPermutes<T>(leq: (T, T) -> bool, s: seq<T>)
    ensures multiset(Sort(leq, s)) == multiset(s) && |Sort(leq, s)| == |s|
  {
    if s != [] {
      SortPermutes(leq, s[1..]);
      InsertPermutes(leq, s[0], Sort(leq, s[1..]));
      assert s == [s[0]] + s[1..];
      assert |multiset(Sort(leq, s))| == |multiset(s)|;
    }
  }

  lemma {:induction false} InsertSorted<T(!new)>(leq: (T, T) -> bool, x: T, s: seq<T>)
    requires IsOrder(leq) && SortedBy(leq, s)
    ensures SortedBy(leq, Insert(leq, x, s))
  {
    if s != [] {
      if leq(x, s[0]) {
        forall k | 0 <= k < |s| ensures leq(x, s[k]) {
          assert leq(s[0], s[k]);
        }
      } else {
        InsertSorted(leq, x, s[1..]);
        InsertPermutes(leq, x, s[1..]);
        var rest := Insert(leq, x, s[1..]);
        forall k | 0 <= k < |rest| ensures leq(s[0], rest[k]) {
          assert rest[k] in multiset(rest);
        }
      }
    }
  }

  lemma {:induction false} SortSorted<T(!new)>(leq: (T, T) -> bool, s: seq<T>)
    requires IsOrder(leq)
    ensures SortedBy(leq, Sort(leq, s))
  {
    if s != [] {
      SortSorted(leq, s[1..]);
      InsertSorted(leq, s[0], Sort(leq, s[1..]));
    }
  }

  // ---- sums that do not depend on order ---------------------------------------------

  function Total<T>(f: T -> int, s: seq<T>): int {
    if s == [] then 0 else f(s[0]) + Total(f, s[1..])
  }

  lemma {:induction false} TotalAppend<T>(f: T -> int, s: seq<T>, t: seq<T>)
    ensures Total(f, s + t) == Total(f, s) + Total(f, t)
  {
    if s == [] {
      assert s + t == t;
    } else {
      assert (s + t)[1..] == s[1..] + t;
      TotalAppend(f, s[1..], t);
    }
  }

  lemma RemovedAt<T>(t: seq<T>, i: nat)
    requires i < |t|
    ensures multiset(t[..i] + t[i + 1..]) == multiset(t) - multiset{t[i]}
  {
    assert t == t[..i] + ([t[i]] + t[i + 1..]);
  }

  lemma BothEmpty<T>(s: seq<T>, t: seq<T>)
    requires forall x :: x in s <==> x in t
    ensures s == [] <==> t == []
  {
    if s != [] { assert s[0] in t; }
    if t != [] { assert t[0] in s; }
  }

  lemma OccursTwice<T>(t: seq<T>, i: nat, j: nat)
    requires i < j < |t| && t[i] == t[j]
    ensures multiset(t)[t[i]] >= 2
  {
    var rest := t[..i] + t[i + 1..];
    RemovedAt(t, i);
    assert rest[j - 1] == t[j] && t[j] in multiset(rest);
  }

  lemma {:induction false} OccursOnce<T>(t: seq<T>, x: T)
    requires forall i, j :: 0 <= i < j < |t| ==> t[i] != t[j]
    ensures multiset(t)[x] <= 1
    decreases |t|
  {
    if t != [] {
      OccursOnce(t[1..], x);
      assert t == [t[0]] + t[1..];
      if t[0] == x {
        assert x !in t[1..];
        assert x !in multiset(t[1..]);
      }
    }
  }

  lemma TotalRemoved<T>(f: T -> int, t: seq<T>, i: nat)
    requires i < |t|
    ensures Total(f, t) == f(t[i]) + Total(f, t[..i] + t[i + 1..])
  {
    TotalAppend(f, t[..i], t[i + 1..]);
    TotalAppend(f, t[..i], [t[i]] + t[i + 1..]);
    assert t == t[..i] + ([t[i]] + t[i + 1..]);
    assert ([t[i]] + t[i + 1..])[1..] == t[i + 1..];
  }

  lemma {:induction false} TotalPermuted<T>(f: T -> int, s: seq<T>, t: seq<T>)
    requires multiset(s) == multiset(t)
    ensures Total(f, s) == Total(f, t)
    decreases |s|
  {
    if s == [] {
      assert |multiset(t)| == 0;
    } else {
      assert s[0] in multiset(t);
      var i :| 0 <= i < |t| && t[i] == s[0];
      var rest := t[..i] + t[i + 1..];
      RemovedAt(t, i);
      assert s == [s[0]] + s[1..];
      assert multiset(s[1..]) == multiset(s) - multiset{s[0]};
      TotalPermuted(f, s[1..], rest);
      TotalRemoved(f, t, i);
    }
  }

  lemma {:induction false} TotalMonotone<T>(f: T -> int, g: T -> int, s: seq<T>)
    requires forall x :: x in s ==> f(x) <= g(x)
    ensures Total(f, s) <= Total(g, s)
  {
    if s != [] {
      TotalMonotone(f, g, s[1..]);
    }
  }

  lemma {:induction false} TotalStrict<T>(f: T -> int, g: T -> int, s: seq<T>, x: T)
    requires x in s && f(x) < g(x) && forall y :: y in s ==> f(y) <= g(y)
    ensures Total(f, s) < Total(g, s)
  {
    if x in s[1..] {
      TotalStrict(f, g, s[1..], x);
    } else {
      TotalMonotone(f, g, s[1..]);
    }
  }

  lemma {:induction false} TotalSum<T>(f: T -> int, g: T -> int, h: T -> int, s: seq<T>)
    requires forall x :: x in s ==> h(x) == f(x) + g(x)
    ensures Total(h, s) == Total(f, s) + Total(g, s)
  {
    if s != [] {
      TotalSum(f, g, h, s[1..]);
    }
  }

  lemma {:induction false} TotalScaled<T>(f: T -> int, g: T -> int, k: int, s: seq<T>)
    requires forall x :: x in s ==> g(x) == k * f(x)
    ensures Total(g, s) == k * Total(f, s)
  {
    if s != [] {
      TotalScaled(f, g, k, s[1..]);
      assert k * (f(s[0]) + Total(f, s[1..])) == k * f(s[0]) + k * Total(f, s[1..]);
    }
  }
}
