// The canonical printer behind every digest and signature: members by key, no spaces.
module CanonicalJson {
  import opened Wrappers
  import opened JsonText
  import opened Sorting

  datatype Json = Null | Bool(b: bool) | Int(n: int) | Str(s: Text) | Arr(items: seq<Json>) | Obj(members: seq<Member>)

  // The members of an object in the order they were added.
  datatype Member = Member(key: Text, value: Json)

  /** The value a JSON document denotes: an object is a map, whatever order it was built in. */
  datatype Value = NullV | BoolV(b: bool) | IntV(n: int) | StrV(s: Text) | ArrV(items: seq<Value>) | ObjV(members: map<Text, Value>)

  const COMMA: Unit := 44
  const COLON: Unit := 58
  const LBRACKET: Unit := 91
  const RBRACKET: Unit := 93
  const LBRACE: Unit := 123
  const RBRACE: Unit := 125

  // ---- key order -------------------------------------------------------------------------

  function TextLeq(a: Text, b: Text): bool
    decreases |a|
  {
    if a == [] then true
    else if b == [] then false
    else if a[0] != b[0] then a[0] < b[0]
    else TextLeq(a[1..], b[1..])
  }

  lemma {:induction false} TextLeqTotal(a: Text, b: Text)
    ensures TextLeq(a, b) || TextLeq(b, a)
    ensures TextLeq(a, b) && TextLeq(b, a) ==> a == b
    decreases |a|
  {
    if a != [] && b != [] && a[0] == b[0] {
      TextLeqTotal(a[1..], b[1..]);
      assert a == [a[0]] + a[1..] && b == [b[0]] + b[1..];
    }
  }

  lemma {:induction false} TextLeqTransitive(a: Text, b: Text, c: Text)
    requires TextLeq(a, b) && TextLeq(b, c)
    ensures TextLeq(a, c)
    decreases |a|
  {
    if a != [] && b != [] && c != [] && a[0] == b[0] == c[0] {
      TextLeqTransitive(a[1..], b[1..], c[1..]);
    }
  }

  const ByKey: (Member, Member) -> bool := (m: Member, n: Member) => TextLeq(m.key, n.key)

  lemma ByKeyIsOrder()
    ensures IsOrder(ByKey)
  {
    forall m, n ensures ByKey(m, n) || ByKey(n, m) {
      TextLeqTotal(m.key, n.key);
    }
    forall l, m, n | ByKey(l, m) && ByKey(m, n) ensures ByKey(l, n) {
      TextLeqTransitive(l.key, m.key, n.key);
    }
  }

  function Ordered(members: seq<Member>): (r: seq<Member>)
    ensures |r| == |members| && forall i :: 0 <= i < |r| ==> r[i] in members
  {
    SortPermutes(ByKey, members);
    var r := Sort(ByKey, members);
    assert forall i :: 0 <= i < |r| ==> r[i] in multiset(r) && r[i] in multiset(members);
    r
  }

  // ---- the printer -------------------------------------------------------------------------

  function Join(texts: seq<Text>): Text {
    if texts == [] then []
    else if |texts| == 1 then texts[0]
    else texts[0] + [COMMA] + Join(texts[1..])
  }

  function Print(d: Dialect, v: Json): (t: Text)
    decreases v
  {
    match v
    case Null => [110, 117, 108, 108]
    case Bool(b) => if b then [116, 114, 117, 101] else [102, 97, 108, 115, 101]
    case Int(n) => Decimal(n)
    case Str(s) => Quote(d, s)
    case Arr(items) => [LBRACKET] + Join(ItemTexts(d, v)) + [RBRACKET]
    case Obj(_) => [LBRACE] + Join(MemberTexts(d, v)) + [RBRACE]
  }

  function ItemTexts(d: Dialect, v: Json): (r: seq<Text>)
    requires v.Arr?
    ensures |r| == |v.items|
    decreases v, 0
  {
    seq(|v.items|, i requires 0 <= i < |v.items| => Print(d, v.items[i]))
  }

  function MemberTexts(d: Dialect, v: Json): (r: seq<Text>)
    requires v.Obj?
    ensures |r| == |v.members|
    decreases v, 0
  {
    var ordered := Ordered(v.members);
    seq(|ordered|, i requires 0 <= i < |ordered| =>
      assert ordered[i] in v.members;
      Quote(d, ordered[i].key) + [COLON] + Print(d, ordered[i].value))
  }

  // ---- what a document means -----------------------------------------------------------------

  function Keys(members: seq<Member>): set<Text> {
    set m | m in members :: m.key
  }

  predicate DistinctKeys(members: seq<Member>) {
    forall i, j :: 0 <= i < j < |members| ==> members[i].key != members[j].key
  }

  /** Every object in the document has distinct keys, as an object or a dict does. */
  predicate Proper(v: Json)
    decreases v
  {
    match v
    case Arr(items) => forall x :: x in items ==> Proper(x)
    case Obj(members) => DistinctKeys(members) && forall m :: m in members ==> Proper(m.value)
    case _ => true
  }

  function Lookup(members: seq<Member>, k: Text): (r: Json)
    requires k in Keys(members)
    ensures Member(k, r) in members
  {
    if members[0].key == k then members[0].value else Lookup(members[1..], k)
  }

  function Meaning(v: Json): Value
    decreases v
  {
    match v
    case Null => NullV
    case Bool(b) => BoolV(b)
    case Int(n) => IntV(n)
    case Str(s) => StrV(s)
    case Arr(items) => ArrV(seq(|items|, i requires 0 <= i < |items| => Meaning(items[i])))
    case Obj(members) =>
      ObjV(map k | k in Keys(members) :: assert Member(k, Lookup(members, k)) in members; Meaning(Lookup(members, k)))
  }

  lemma LookupOnly(members: seq<Member>, m: Member)
    requires DistinctKeys(members) && m in members
    ensures m.key in Keys(members) && Lookup(members, m.key) == m.value
  {
    var n := Member(m.key, Lookup(members, m.key));
    var i :| 0 <= i < |members| && members[i] == m;
    var j :| 0 <= j < |members| && members[j] == n;
    assert i == j;
  }

  // ---- reading documents back --------------------------------------------------------------

  const NULL: Text := [110, 117, 108, 108]
  const TRUE: Text := [116, 114, 117, 101]
  const FALSE: Text := [102, 97, 108, 115, 101]

  /** A JSON value at the start of a text, and what follows it. White space, fractions and
      exponents, which no canonical text has, are not read. */
  function ReadValue(t: Text): (r: Option<(Value, Text)>)
    ensures r.Some? ==> |r.value.1| < |t|
    decreases |t|, 0
  {
    if t == [] then None
    else if t[0] == QUOTE then
      match ReadString(t[1..]) case None => None case Some(p) => Some((StrV(p.0), p.1))
    else if t[0] == LBRACKET then
      if |t| > 1 && t[1] == RBRACKET then Some((ArrV([]), t[2..]))
      else match ReadItems(t[1..]) case None => None case Some(p) => Some((ArrV(p.0), p.1))
    else if t[0] == LBRACE then
      if |t| > 1 && t[1] == RBRACE then Some((ObjV(map[]), t[2..]))
      else match ReadMembers(t[1..]) case None => None case Some(p) => Some((ObjV(p.0), p.1))
    else if t[0] == NULL[0] then if NULL <= t then Some((NullV, t[4..])) else None
    else if t[0] == TRUE[0] then if TRUE <= t then Some((BoolV(true), t[4..])) else None
    else if t[0] == FALSE[0] then if FALSE <= t then Some((BoolV(false), t[5..])) else None
    else match ReadInt(t) case None => None case Some(p) => Some((IntV(p.0), p.1))
  }

  // The values up to the closing bracket of an array.
  function ReadItems(t: Text): (r: Option<(seq<Value>, Text)>)
    ensures r.Some? ==> |r.value.1| < |t|
    decreases |t|, 1
  {
    match ReadValue(t)
    case None => None
    case Some((v, rest)) =>
      if rest == [] then None
      else if rest[0] == RBRACKET then Some(([v], rest[1..]))
      else if rest[0] != COMMA then None
      else match ReadItems(rest[1..]) case None => None case Some(p) => Some(([v] + p.0, p.1))
  }

  // The members up to the closing brace of an object; the last of equal keys counts.
  function ReadMembers(t: Text): (r: Option<(map<Text, Value>, Text)>)
    ensures r.Some? ==> |r.value.1| < |t|
    decreases |t|, 1
  {
    if t == [] || t[0] != QUOTE then None
    else
      match ReadString(t[1..])
      case None => None
      case Some((k, after)) =>
        if after == [] || after[0] != COLON then None
        else
          match ReadValue(after[1..])
          case None => None
          case Some((v, rest)) =>
            if rest == [] then None
            else if rest[0] == RBRACE then Some((map[k := v], rest[1..]))
            else if rest[0] != COMMA then None
            else match ReadMembers(rest[1..]) case None => None case Some(p) => Some((map[k := v] + p.0, p.1))
  }

  /** What may follow a printed value inside or after a document. */
  predicate Ends(a: Text) {
    a == [] || a[0] == COMMA || a[0] == RBRACKET || a[0] == RBRACE
  }

  // The rest of an array or object from one of its elements on.
  function Closing(xs: seq<Text>, close: Unit, a: Text): Text {
    Join(xs) + [close] + a
  }

  // What follows the first of the elements.
  function AfterFirst(xs: seq<Text>, close: Unit, a: Text): Text
    requires xs != []
  {
    if |xs| == 1 then [close] + a else [COMMA] + Closing(xs[1..], close, a)
  }

  lemma ClosingFirst(xs: seq<Text>, close: Unit, a: Text)
    requires xs != []
    ensures Closing(xs, close, a) == xs[0] + AfterFirst(xs, close, a)
  {
    if |xs| > 1 {
      assert Join(xs) == xs[0] + [COMMA] + Join(xs[1..]);
    }
  }

  function Meanings(items: seq<Json>): seq<Value> {
    seq(|items|, i requires 0 <= i < |items| => Meaning(items[i]))
  }

  // The map that a list of members denotes, the last of equal keys counting.
  function MapOf(members: seq<Member>): map<Text, Value> {
    if members == [] then map[]
    else map[members[0].key := Meaning(members[0].value)] + MapOf(members[1..])
  }

  /** A printed document reads back as the value it denotes, whatever follows it. */
  lemma {:induction false} ReadPrinted(d: Dialect, v: Json, a: Text)
    requires Proper(v) && Ends(a)
    ensures ReadValue(Print(d, v) + a) == Some((Meaning(v), a))
    decreases v
  {
    match v {
      case Int(n) => ReadPrintedInt(d, n, a);
      case Str(s) => ReadPrintedString(d, s, a);
      case Arr(items) =>
        if items != [] {
          ReadPrintedItems(d, v, 0, a);
        }
        ReadPrintedArray(d, v, a);
      case Obj(members) =>
        if members != [] {
          ReadPrintedMembers(d, v, 0, a);
        }
        ReadPrintedObject(d, v, a);
      case _ => ReadPrintedWord(d, v, a);
    }
  }

  lemma ReadPrintedWord(d: Dialect, v: Json, a: Text)
    requires v.Null? || v.Bool?
    ensures ReadValue(Print(d, v) + a) == Some((Meaning(v), a))
  {
    var w := Print(d, v);
    assert (w + a)[..|w|] == w && (w + a)[|w|..] == a;
  }

  lemma ReadPrintedInt(d: Dialect, n: int, a: Text)
    requires Ends(a)
    ensures ReadValue(Decimal(n) + a) == Some((IntV(n), a))
  {
    ReadDecimal(n, a);
    var t := Decimal(n) + a;
    assert t[0] == Decimal(n)[0];
  }

  lemma ReadPrintedString(d: Dialect, s: Text, a: Text)
    ensures ReadValue(Quote(d, s) + a) == Some((StrV(s), a))
  {
    ReadQuoted(d, s, a);
    assert (Quote(d, s) + a)[1..] == Tail(d, s, a);
  }

  // The first unit of a printed value is no closing bracket.
  lemma PrintOpens(d: Dialect, v: Json)
    ensures Print(d, v) != [] && !Ends(Print(d, v))
  {
  }

  lemma ReadArray(rest: Text, vs: seq<Value>, a: Text)
    requires rest != [] && rest[0] != RBRACKET && ReadItems(rest) == Some((vs, a))
    ensures ReadValue([LBRACKET] + rest) == Some((ArrV(vs), a))
  {
    assert ([LBRACKET] + rest)[1..] == rest;
  }

  lemma ReadObject(rest: Text, members: map<Text, Value>, a: Text)
    requires rest != [] && rest[0] != RBRACE && ReadMembers(rest) == Some((members, a))
    ensures ReadValue([LBRACE] + rest) == Some((ObjV(members), a))
  {
    assert ([LBRACE] + rest)[1..] == rest;
  }

  // An array's or object's text starts with its bracket and goes on with its first element.
  lemma BracketedText(xs: seq<Text>, open: Unit, close: Unit, a: Text)
    ensures [open] + Join(xs) + [close] + a == [open] + Closing(xs, close, a)
    ensures xs == [] ==> Closing(xs, close, a) == [close] + a
    ensures xs != [] && xs[0] != [] ==> Closing(xs, close, a)[0] == xs[0][0]
  {
    if xs != [] {
      ClosingFirst(xs, close, a);
    }
  }

  lemma ReadPrintedArray(d: Dialect, v: Json, a: Text)
    requires v.Arr?
    requires v.items != [] ==> ReadItems(Closing(ItemTexts(d, v), RBRACKET, a)) == Some((Meanings(v.items), a))
    ensures ReadValue(Print(d, v) + a) == Some((Meaning(v), a))
  {
    BracketedText(ItemTexts(d, v), LBRACKET, RBRACKET, a);
    assert Meaning(v).items == Meanings(v.items);
    if v.items == [] {
      assert ([LBRACKET] + ([RBRACKET] + a))[2..] == a && Meanings(v.items) == [];
    } else {
      PrintOpens(d, v.items[0]);
      ReadArray(Closing(ItemTexts(d, v), RBRACKET, a), Meanings(v.items), a);
    }
  }

  lemma ReadPrintedObject(d: Dialect, v: Json, a: Text)
    requires v.Obj? && DistinctKeys(v.members)
    requires v.members != [] ==> ReadMembers(Closing(MemberTexts(d, v), RBRACE, a)) == Some((MapOf(Ordered(v.members)), a))
    ensures ReadValue(Print(d, v) + a) == Some((Meaning(v), a))
  {
    BracketedText(MemberTexts(d, v), LBRACE, RBRACE, a);
    MapOfOrdered(v.members);
    if v.members == [] {
      assert ([LBRACE] + ([RBRACE] + a))[2..] == a;
    } else {
      assert MemberTexts(d, v)[0][0] == QUOTE;
      ReadObject(Closing(MemberTexts(d, v), RBRACE, a), MapOf(Ordered(v.members)), a);
    }
  }

  lemma {:induction false} ReadPrintedItems(d: Dialect, v: Json, k: nat, a: Text)
    requires v.Arr? && Proper(v) && k < |v.items|
    ensures ReadItems(Closing(ItemTexts(d, v)[k..], RBRACKET, a)) == Some((Meanings(v.items[k..]), a))
    decreases v, |v.items| - k
  {
    var texts, items := ItemTexts(d, v)[k..], v.items[k..];
    var after := AfterFirst(texts, RBRACKET, a);
    assert v.items[k] in v.items;
    ClosingFirst(texts, RBRACKET, a);
    ReadPrinted(d, v.items[k], after);
    if k + 1 == |v.items| {
      assert after[1..] == a;
      assert Meanings(items) == [Meaning(v.items[k])];
    } else {
      ReadPrintedItems(d, v, k + 1, a);
      assert texts[1..] == ItemTexts(d, v)[k + 1..] && items[1..] == v.items[k + 1..];
      assert after[1..] == Closing(texts[1..], RBRACKET, a);
      assert Meanings(items) == [Meaning(v.items[k])] + Meanings(items[1..]);
    }
  }

  lemma {:induction false} ReadPrintedMembers(d: Dialect, v: Json, k: nat, a: Text)
    requires v.Obj? && Proper(v) && k < |v.members|
    ensures ReadMembers(Closing(MemberTexts(d, v)[k..], RBRACE, a)) == Some((MapOf(Ordered(v.members)[k..]), a))
    decreases v, |v.members| - k
  {
    var texts, members := MemberTexts(d, v)[k..], Ordered(v.members)[k..];
    var m := Ordered(v.members)[k];
    var after := AfterFirst(texts, RBRACE, a);
    assert m in v.members;
    ClosingFirst(texts, RBRACE, a);
    ReadPrinted(d, m.value, after);
    ReadMember(d, m, after);
    assert texts[0] == MemberText(d, m) && members[0] == m;
    if k + 1 == |v.members| {
      assert after[1..] == a;
      assert members[1..] == [] && MapOf(members) == map[m.key := Meaning(m.value)];
    } else {
      ReadPrintedMembers(d, v, k + 1, a);
      assert texts[1..] == MemberTexts(d, v)[k + 1..] && members[1..] == Ordered(v.members)[k + 1..];
      assert after[1..] == Closing(texts[1..], RBRACE, a);
    }
  }

  function MemberText(d: Dialect, m: Member): Text {
    Quote(d, m.key) + [COLON] + Print(d, m.value)
  }

  lemma ReadMember(d: Dialect, m: Member, after: Text)
    requires ReadValue(Print(d, m.value) + after) == Some((Meaning(m.value), after)) && after != []
    ensures ReadMembers(MemberText(d, m) + after)
         == if after[0] == RBRACE then Some((map[m.key := Meaning(m.value)], after[1..]))
            else if after[0] != COMMA then None
            else match ReadMembers(after[1..])
                 case None => None
                 case Some(p) => Some((map[m.key := Meaning(m.value)] + p.0, p.1))
  {
    var rest := Print(d, m.value) + after;
    ReadKey(d, m.key, rest);
    Reassociate(Quote(d, m.key), [COLON], Print(d, m.value), after);
    ReadMemberAt(Quote(d, m.key) + ([COLON] + rest), m.key, rest, Meaning(m.value), after);
  }

  lemma Reassociate(a: Text, b: Text, c: Text, e: Text)
    ensures a + b + c + e == a + (b + (c + e))
  {
  }

  lemma ReadMemberAt(t: Text, k: Text, rest: Text, v: Value, after: Text)
    requires t != [] && t[0] == QUOTE && ReadString(t[1..]) == Some((k, [COLON] + rest))
    requires ReadValue(rest) == Some((v, after)) && after != []
    ensures ReadMembers(t)
         == if after[0] == RBRACE then Some((map[k := v], after[1..]))
            else if after[0] != COMMA then None
            else match ReadMembers(after[1..])
                 case None => None
                 case Some(p) => Some((map[k := v] + p.0, p.1))
  {
    assert ([COLON] + rest)[1..] == rest;
  }

  lemma ReadKey(d: Dialect, k: Text, rest: Text)
    ensures var t := Quote(d, k) + ([COLON] + rest);
            t[0] == QUOTE && ReadString(t[1..]) == Some((k, [COLON] + rest)) && ([COLON] + rest)[1..] == rest
  {
    ReadQuoted(d, k, [COLON] + rest);
    assert (Quote(d, k) + ([COLON] + rest))[1..] == Tail(d, k, [COLON] + rest);
  }

  lemma {:induction false} MapOfMembers(members: seq<Member>)
    requires DistinctKeys(members)
    ensures MapOf(members).Keys == Keys(members)
    ensures forall m :: m in members ==> m.key in MapOf(members) && MapOf(members)[m.key] == Meaning(m.value)
  {
    if members != [] {
      MapOfMembers(members[1..]);
      forall m | m in members
        ensures m.key in MapOf(members) && MapOf(members)[m.key] == Meaning(m.value)
      {
        if m in members[1..] {
          assert m.key in MapOf(members[1..]);
        } else {
          assert m == members[0] && m.key !in Keys(members[1..]);
        }
      }
    }
  }

  /** Members in key order denote the object's map. */
  lemma MapOfOrdered(members: seq<Member>)
    requires DistinctKeys(members)
    ensures ObjV(MapOf(Ordered(members))) == Meaning(Obj(members))
  {
    MeaningKeys(members);
    MapOfOrderedKeys(members);
    forall k | k in Keys(members) ensures MapOf(Ordered(members))[k] == Meaning(Lookup(members, k)) {
      MapOfOrderedAt(members, k);
    }
    EqualMaps(MapOf(Ordered(members)), Meaning(Obj(members)).members);
  }

  lemma EqualMaps(m: map<Text, Value>, n: map<Text, Value>)
    requires m.Keys == n.Keys && forall k :: k in m ==> m[k] == n[k]
    ensures m == n
  {
  }

  lemma MapOfOrderedKeys(members: seq<Member>)
    requires DistinctKeys(members)
    ensures MapOf(Ordered(members)).Keys == Keys(members)
  {
    OrderedDistinct(members);
    OrderedHasAll(members);
    MapOfMembers(Ordered(members));
  }

  lemma MapOfOrderedAt(members: seq<Member>, k: Text)
    requires DistinctKeys(members) && k in Keys(members)
    ensures k in MapOf(Ordered(members)) && MapOf(Ordered(members))[k] == Meaning(Lookup(members, k))
  {
    OrderedDistinct(members);
    OrderedHasAll(members);
    MapOfMembers(Ordered(members));
    assert Member(k, Lookup(members, k)) in Ordered(members);
  }

  lemma MeaningKeys(members: seq<Member>)
    ensures Meaning(Obj(members)).members.Keys == Keys(members)
    ensures forall k :: k in Keys(members) ==> Meaning(Obj(members)).members[k] == Meaning(Lookup(members, k))
  {
  }

  lemma OrderedDistinct(members: seq<Member>)
    requires DistinctKeys(members)
    ensures DistinctKeys(Ordered(members))
  {
    OrderedIncreasing(members);
  }

  lemma OrderedHasAll(members: seq<Member>)
    ensures Keys(Ordered(members)) == Keys(members)
    ensures forall m :: m in members <==> m in Ordered(members)
  {
    SortPermutes(ByKey, members);
    forall m ensures m in members <==> m in Ordered(members) {
      assert m in members <==> m in multiset(members);
      assert m in Ordered(members) <==> m in multiset(Ordered(members));
    }
  }

  // ---- equal value means equal text ----------------------------------------------------------

  ghost predicate Increasing(ks: seq<Text>) {
    forall i, j :: 0 <= i < j < |ks| ==> TextLeq(ks[i], ks[j]) && ks[i] != ks[j]
  }

  /** A set of keys has one increasing listing. */
  lemma {:induction false} IncreasingUnique(ks: seq<Text>, ls: seq<Text>)
    requires Increasing(ks) && Increasing(ls)
    requires forall k :: k in ks <==> k in ls
    ensures ks == ls
    decreases |ks|
  {
    if ks != [] && ls != [] {
      assert ks[0] in ls && ls[0] in ks;
      TextLeqTotal(ks[0], ls[0]);
      assert ks[0] == ls[0];
      forall k ensures k in ks[1..] <==> k in ls[1..] {
        assert k in ks <==> k == ks[0] || k in ks[1..];
        assert k in ls <==> k == ls[0] || k in ls[1..];
      }
      IncreasingUnique(ks[1..], ls[1..]);
      assert ks == [ks[0]] + ks[1..] && ls == [ls[0]] + ls[1..];
    } else {
      BothEmpty(ks, ls);
    }
  }

  function KeyList(members: seq<Member>): (r: seq<Text>)
    ensures |r| == |members|
  {
    seq(|members|, i requires 0 <= i < |members| => members[i].key)
  }

  lemma OrderedIncreasing(members: seq<Member>)
    requires DistinctKeys(members)
    ensures Increasing(KeyList(Ordered(members)))
    ensures DistinctKeys(Ordered(members))
  {
    ByKeyIsOrder();
    SortSorted(ByKey, members);
    SortPermutes(ByKey, members);
    var ms := Ordered(members);
    forall i, j | 0 <= i < j < |ms| ensures TextLeq(ms[i].key, ms[j].key) && ms[i].key != ms[j].key {
      assert ByKey(ms[i], ms[j]);
      if ms[i].key == ms[j].key {
        assert ms[i] in members && ms[j] in members;
        LookupOnly(members, ms[i]);
        LookupOnly(members, ms[j]);
        OneCopy(members, ms, i, j);
      }
    }
  }

  // A rearrangement of members with distinct keys lists no member twice.
  lemma OneCopy(members: seq<Member>, ms: seq<Member>, i: nat, j: nat)
    requires DistinctKeys(members) && multiset(ms) == multiset(members) && i < j < |ms|
    ensures ms[i] != ms[j]
  {
    if ms[i] == ms[j] {
      OccursTwice(ms, i, j);
      OccursOnce(members, ms[i]);
    }
  }

  lemma {:induction false} SameMeaningSameText(d: Dialect, v: Json, w: Json)
    requires Proper(v) && Proper(w) && Meaning(v) == Meaning(w)
    ensures Print(d, v) == Print(d, w)
    decreases v
  {
    match v {
      case Arr(items) =>
        forall i | 0 <= i < |items| ensures Print(d, items[i]) == Print(d, w.items[i]) {
          assert Meaning(v).items[i] == Meaning(items[i]) && Meaning(w).items[i] == Meaning(w.items[i]);
          SameMeaningSameText(d, items[i], w.items[i]);
        }
        assert |Meaning(v).items| == |items| && |Meaning(w).items| == |w.items|;
        assert ItemTexts(d, v) == ItemTexts(d, w);
      case Obj(members) =>
        SameKeys(members, w.members);
        var ms, ns := Ordered(members), Ordered(w.members);
        forall i | 0 <= i < |ms| ensures Print(d, ms[i].value) == Print(d, ns[i].value) {
          assert ms[i] in members && ns[i] in w.members;
          LookupOnly(members, ms[i]);
          LookupOnly(w.members, ns[i]);
          assert Meaning(v).members[ms[i].key] == Meaning(w).members[ns[i].key];
          SameMeaningSameText(d, ms[i].value, ns[i].value);
        }
        assert MemberTexts(d, v) == MemberTexts(d, w);
      case _ =>
    }
  }

  lemma SameKeys(members: seq<Member>, others: seq<Member>)
    requires DistinctKeys(members) && DistinctKeys(others) && Meaning(Obj(members)) == Meaning(Obj(others))
    ensures |members| == |others|
    ensures forall i :: 0 <= i < |members| ==> Ordered(members)[i].key == Ordered(others)[i].key
  {
    assert Meaning(Obj(members)).members.Keys == Keys(members);
    assert Meaning(Obj(others)).members.Keys == Keys(others);
    OrderedIncreasing(members);
    OrderedIncreasing(others);
    OrderedHasAll(members);
    OrderedHasAll(others);
    var ks, ls := KeyList(Ordered(members)), KeyList(Ordered(others));
    KeyListKeys(Ordered(members));
    KeyListKeys(Ordered(others));
    IncreasingUnique(ks, ls);
    assert forall i :: 0 <= i < |members| ==> ks[i] == Ordered(members)[i].key && ls[i] == Ordered(others)[i].key;
  }

  lemma KeyListKeys(members: seq<Member>)
    ensures forall k :: k in KeyList(members) <==> k in Keys(members)
  {
    forall k ensures k in KeyList(members) <==> k in Keys(members) {
      if k in Keys(members) {
        var i :| 0 <= i < |members| && members[i].key == k;
        assert KeyList(members)[i] == k;
      }
    }
  }

  /** The printed text of a document, read as JSON, is its value and nothing is left. */
  lemma RoundTrip(d: Dialect, v: Json)
    requires Proper(v)
    ensures ReadValue(Print(d, v)) == Some((Meaning(v), []))
  {
    ReadPrinted(d, v, []);
    assert Print(d, v) + [] == Print(d, v);
  }

  /** Two documents print equally exactly when they are equal as JSON values. */
  lemma CanonicalText(d: Dialect, v: Json, w: Json)
    requires Proper(v) && Proper(w)
    ensures Print(d, v) == Print(d, w) <==> Meaning(v) == Meaning(w)
  {
    if Print(d, v) == Print(d, w) {
      RoundTrip(d, v);
      RoundTrip(d, w);
    }
    if Meaning(v) == Meaning(w) {
      SameMeaningSameText(d, v, w);
    }
  }

  // ---- what a signature covers ------------------------------------------------------------------

  datatype Header = Header(expiresAt: Text, issuedAt: Text, keyId: Text, nonce: Text, payloadDigest: Text, sequence: int)

  function HeaderKey(i: nat): string
    requires i < 6
  {
    match i
    case 0 => "expiresAt" case 1 => "issuedAt" case 2 => "keyId" case 3 => "nonce" case 4 => "payloadDigest" case 5 => "sequence"
  }

  function Field(h: Header, i: nat): Json
    requires i < 6
  {
    match i
    case 0 => Str(h.expiresAt)
    case 1 => Str(h.issuedAt)
    case 2 => Str(h.keyId)
    case 3 => Str(h.nonce)
    case 4 => Str(h.payloadDigest)
    case 5 => Int(h.sequence)
  }

  /** The object whose canonical text is signed. */
  function SigningInput(h: Header): Json {
    Obj(seq(6, i requires 0 <= i < 6 => Member(Codes(HeaderKey(i)), Field(h, i))))
  }

  lemma HeaderKeysDiffer(i: nat, j: nat)
    requires i < j < 6
    ensures Codes(HeaderKey(i)) != Codes(HeaderKey(j))
  {
    assert |Codes(HeaderKey(i))| != |Codes(HeaderKey(j))| || Codes(HeaderKey(i))[0] != Codes(HeaderKey(j))[0];
  }

  lemma SigningInputProper(h: Header)
    ensures Proper(SigningInput(h))
  {
    var members := SigningInput(h).members;
    forall i, j | 0 <= i < j < 6 ensures members[i].key != members[j].key {
      HeaderKeysDiffer(i, j);
    }
    forall m | m in members ensures Proper(m.value) {
      assert m.value.Str? || m.value.Int?;
    }
  }

  /** The signed text is the same for two headers only if every field is the same. */
  lemma SignatureCoversHeader(d: Dialect, h: Header, g: Header)
    ensures Print(d, SigningInput(h)) == Print(d, SigningInput(g)) <==> h == g
  {
    if Print(d, SigningInput(h)) == Print(d, SigningInput(g)) {
      SigningInputProper(h);
      SigningInputProper(g);
      CanonicalText(d, SigningInput(h), SigningInput(g));
      SameFields(h, g);
    }
  }

  lemma SameFields(h: Header, g: Header)
    requires Proper(SigningInput(h)) && Proper(SigningInput(g)) && Meaning(SigningInput(h)) == Meaning(SigningInput(g))
    ensures h == g
  {
    forall i: nat | i < 6 ensures Field(h, i) == Field(g, i) {
      SameAtKey(SigningInput(h), SigningInput(g), i);
    }
    SameHeader(h, g);
  }

  lemma SameHeader(h: Header, g: Header)
    requires forall i: nat :: i < 6 ==> Field(h, i) == Field(g, i)
    ensures h == g
  {
    assert Field(h, 0) == Field(g, 0) && Field(h, 1) == Field(g, 1) && Field(h, 2) == Field(g, 2);
    assert Field(h, 3) == Field(g, 3) && Field(h, 4) == Field(g, 4) && Field(h, 5) == Field(g, 5);
  }

  lemma SameAtKey(v: Json, w: Json, i: nat)
    requires v.Obj? && w.Obj? && Proper(v) && Proper(w) && Meaning(v) == Meaning(w)
    requires i < |v.members| == |w.members| && v.members[i].key == w.members[i].key
    ensures Meaning(v.members[i].value) == Meaning(w.members[i].value)
  {
    LookupOnly(v.members, v.members[i]);
    LookupOnly(w.members, w.members[i]);
    var k := v.members[i].key;
    assert Meaning(v).members[k] == Meaning(w).members[k];
  }
}
