// The text of the managed region of the LiteLLM config, and the marker texts in it.
module ManagedText {
  import opened Wrappers
  import opened JsonText
  import opened Markers
  import opened Capacity
  import opened Distribution

  const LF: Unit := 10
  const CR: Unit := 13
  const HASH: Unit := 35

  predicate MarkerUnit(m: Text, i: nat)
    requires i < |m|
  {
    0x20 <= m[i] < 0x7F && m[i] != QUOTE && m[i] != BACKSLASH && (m[i] == HASH <==> i == 0)
  }

  /** A marker text: printable, on one line, recognisable by its only "#". */
  predicate IsMarker(m: Text) {
    m != [] && forall i: nat {:trigger MarkerUnit(m, i)} :: i < |m| ==> MarkerUnit(m, i)
  }

  lemma MarkerShape(m: Text)
    requires IsMarker(m)
    ensures m != [] && m[0] == HASH && CR !in m && LF !in m && QUOTE !in m
  {
    assert MarkerUnit(m, 0);
    PrintableUnits(m);
  }

  lemma PrintableUnits(m: Text)
    requires IsMarker(m)
    ensures forall u :: u in m ==> 0x20 <= u < 0x7F && u != QUOTE && u != BACKSLASH
  {
    forall u | u in m ensures 0x20 <= u < 0x7F && u != QUOTE && u != BACKSLASH {
      var i :| 0 <= i < |m| && m[i] == u;
      assert MarkerUnit(m, i);
    }
  }

  // ---- the text between the markers -----------------------------------------------------------

  function Quoted(s: string): Text { Quote(Python, Codes(s)) }

  function TextField(key: string, s: string, rest: Text): Text {
    Codes(key) + Quoted(s) + rest
  }

  function NumberField(key: string, n: int, rest: Text): Text {
    Codes(key) + Decimal(n) + rest
  }

  /** One list entry and what follows it; its four strings are JSON literals. */
  function EntryWith(n: Entry, rest: Text): Text
    requires n.engine.baseUrl.Some?
  {
    TextField("- model_name: ", n.route.alias,
    TextField("\n  litellm_params:\n    api_base: ", n.engine.baseUrl.value,
    NumberField("\n    max_parallel_requests: ", n.slots,
    TextField("\n    model: ", n.route.model,
    NumberField("\n    weight: ", n.route.weight,
    TextField("\n  model_info:\n    id: ", n.engine.id + ":" + n.route.alias, rest))))))
  }

  function EntryText(n: Entry): Text
    requires n.engine.baseUrl.Some?
  {
    EntryWith(n, [])
  }

  predicate Addressed(entries: seq<Entry>) {
    forall n :: n in entries ==> n.engine.baseUrl.Some?
  }

  function EntryTexts(entries: seq<Entry>): (r: seq<Text>)
    requires Addressed(entries)
    ensures |r| == |entries|
  {
    seq(|entries|, i requires 0 <= i < |entries| => EntryText(entries[i]))
  }

  function RegionText(entries: seq<Entry>): Text
    requires Addressed(entries)
  {
    Joined(EntryTexts(entries), LF) + if entries == [] then [] else [LF]
  }

  const Utf8Unit: Unit -> Text := (u: Unit) =>
    if u < 0x80 then [u]
    else if u < 0x800 then [0xC0 + u / 0x40, 0x80 + u % 0x40]
    else if u < 0x10000 then [0xE0 + u / 0x1000, 0x80 + u / 0x40 % 0x40, 0x80 + u % 0x40]
    else [0xF0 + u / 0x40000, 0x80 + u / 0x1000 % 0x40, 0x80 + u / 0x40 % 0x40, 0x80 + u % 0x40]

  const PythonEscape: Unit -> Text := (u: Unit) => EscapeOne(Python, u)

  /** The bytes of a text, as units below 256. */
  function Utf8(t: Text): Text { Coded(Utf8Unit, t) }

  function ManagedBytes(entries: seq<Entry>): Text
    requires Addressed(entries)
  {
    Utf8(RegionText(entries))
  }

  lemma Utf8Transparent(m: Text)
    requires IsMarker(m)
    ensures m != [] && Transparent(Utf8Unit, m)
  {
    MarkerShape(m);
    PrintableUnits(m);
    forall u | u !in m ensures Utf8Unit(u) != [] && Utf8Unit(u)[0] !in m && m[0] !in Utf8Unit(u) {
      assert m[0] in m;
    }
  }

  lemma EscapeTransparent(m: Text)
    requires IsMarker(m)
    ensures m != [] && Transparent(PythonEscape, m)
  {
    MarkerShape(m);
    PrintableUnits(m);
    forall u | u !in m ensures PythonEscape(u) != [] && PythonEscape(u)[0] !in m && m[0] !in PythonEscape(u) {
      assert m[0] in m;
      if u < 0x20 && Letter(u) == 0 {
        HexHasNoHash(u);
      }
    }
  }

  lemma HexHasNoHash(u: Unit)
    requires u < 0x20
    ensures HASH !in [BACKSLASH, 117] + Hex4(u)
  {
  }

  lemma {:induction false} EscapedIsCoded(s: Text)
    ensures Escaped(Python, s) == Coded(PythonEscape, s)
    decreases |s|
  {
    if s != [] {
      EscapedIsCoded(s[1..]);
    }
  }

  lemma QuotedContains(s: string, m: Text)
    requires IsMarker(m)
    ensures Contains(Escaped(Python, Codes(s)), m) <==> Contains(Codes(s), m)
  {
    EscapeTransparent(m);
    EscapedIsCoded(Codes(s));
    CodedContains(PythonEscape, Codes(s), m);
  }

  /** Some string written into the entry of the route carries the marker text. */
  ghost predicate Carries(e: Engine, r: Route, m: Text)
    requires e.baseUrl.Some?
  {
    || Contains(Codes(r.alias), m) || Contains(Codes(e.baseUrl.value), m)
    || Contains(Codes(r.model), m) || Contains(Codes(e.id + ":" + r.alias), m)
  }

  lemma NoHash(t: Text, m: Text)
    requires IsMarker(m) && HASH !in t
    ensures !Contains(t, m)
  {
    MarkerShape(m);
    forall i: nat ensures !Occurs(t, m, i) {
      assert i < |t| ==> t[i..][0] == t[i] && t[i] != HASH;
    }
  }

  predicate PlainKey(key: string) { HASH !in Codes(key) }

  lemma LongKeysPlain()
    ensures PlainKey("\n  litellm_params:\n    api_base: ") && PlainKey("\n    max_parallel_requests: ")
  {
  }

  lemma KeysPlain()
    ensures PlainKey("- model_name: ") && PlainKey("\n    model: ") && PlainKey("\n    weight: ")
    ensures PlainKey("\n  model_info:\n    id: ")
  {
  }

  // A field brings a marker into the text only through its string.
  lemma TextFieldContains(key: string, s: string, rest: Text, m: Text)
    requires IsMarker(m)
    ensures PlainKey(key) ==> (Contains(TextField(key, s, rest), m) <==> Contains(Codes(s), m) || Contains(rest, m))
  {
    if PlainKey(key) {
      MarkerShape(m);
      var head, inner := Codes(key) + [QUOTE], Escaped(Python, Codes(s));
      assert TextField(key, s, rest) == head + (inner + [QUOTE] + rest);
      ContainsSkip(head, inner + [QUOTE] + rest, m);
      Barrier(inner, QUOTE, rest, m);
      QuotedContains(s, m);
    }
  }

  lemma NumberFieldContains(key: string, n: int, rest: Text, m: Text)
    requires IsMarker(m)
    ensures PlainKey(key) ==> (Contains(NumberField(key, n, rest), m) <==> Contains(rest, m))
  {
    if PlainKey(key) {
      MarkerShape(m);
      assert HASH !in Decimal(n);
      ContainsSkip(Codes(key) + Decimal(n), rest, m);
    }
  }

  // Only the four strings of an entry can bring a marker into it.
  lemma EntryContains(n: Entry, m: Text)
    requires IsMarker(m) && n.engine.baseUrl.Some?
    ensures Contains(EntryText(n), m) <==> Carries(n.engine, n.route, m)
  {
    KeysPlain();
    LongKeysPlain();
    var f := TextField("\n  model_info:\n    id: ", n.engine.id + ":" + n.route.alias, []);
    var e := NumberField("\n    weight: ", n.route.weight, f);
    var d := TextField("\n    model: ", n.route.model, e);
    var c := NumberField("\n    max_parallel_requests: ", n.slots, d);
    var b := TextField("\n  litellm_params:\n    api_base: ", n.engine.baseUrl.value, c);
    TextFieldContains("\n  model_info:\n    id: ", n.engine.id + ":" + n.route.alias, [], m);
    NumberFieldContains("\n    weight: ", n.route.weight, f, m);
    TextFieldContains("\n    model: ", n.route.model, e, m);
    NumberFieldContains("\n    max_parallel_requests: ", n.slots, d, m);
    TextFieldContains("\n  litellm_params:\n    api_base: ", n.engine.baseUrl.value, c, m);
    TextFieldContains("- model_name: ", n.route.alias, b, m);
    NothingContained(m);
  }

  lemma NothingContained(m: Text)
    requires IsMarker(m)
    ensures !Contains([], m)
  {
    NoHash([], m);
  }

  // ---- reading the region back ---------------------------------------------------------------

  /** What the keys of an entry are set to. */
  datatype Fields = Fields(modelName: Text, apiBase: Text, maxParallelRequests: int, model: Text, weight: int, id: Text)

  function FieldsOf(n: Entry): Fields
    requires n.engine.baseUrl.Some?
  {
    Fields(Codes(n.route.alias), Codes(n.engine.baseUrl.value), n.slots, Codes(n.route.model), n.route.weight,
           Codes(n.engine.id + ":" + n.route.alias))
  }

  function ReadText(key: string, t: Text): (r: Option<(Text, Text)>)
    ensures r.Some? ==> |r.value.1| < |t|
  {
    var l := Codes(key) + [QUOTE];
    if l <= t then ReadString(t[|l|..]) else None
  }

  function ReadNumber(key: string, t: Text): (r: Option<(int, Text)>)
    ensures r.Some? ==> |r.value.1| < |t|
  {
    if Codes(key) <= t then ReadInt(t[|key|..]) else None
  }

  /** The keys of one entry in their order, and what follows the entry. */
  function ReadEntry(t: Text): (r: Option<(Fields, Text)>)
    ensures r.Some? ==> |r.value.1| < |t|
  {
    match ReadText("- model_name: ", t) case None => None case Some((alias, t1)) =>
    match ReadText("\n  litellm_params:\n    api_base: ", t1) case None => None case Some((url, t2)) =>
    match ReadNumber("\n    max_parallel_requests: ", t2) case None => None case Some((slots, t3)) =>
    match ReadText("\n    model: ", t3) case None => None case Some((model, t4)) =>
    match ReadNumber("\n    weight: ", t4) case None => None case Some((weight, t5)) =>
    match ReadText("\n  model_info:\n    id: ", t5) case None => None case Some((id, t6)) =>
    Some((Fields(alias, url, slots, model, weight, id), t6))
  }

  /** Entries, each with a line end behind it. */
  function ReadRegion(t: Text): Option<seq<Fields>>
    decreases |t|
  {
    if t == [] then Some([])
    else
      match ReadEntry(t)
      case None => None
      case Some((fields, rest)) =>
        if rest == [] || rest[0] != LF then None
        else match ReadRegion(rest[1..]) case None => None case Some(more) => Some([fields] + more)
  }

  lemma ReadTextField(key: string, s: string, rest: Text)
    ensures ReadText(key, TextField(key, s, rest)) == Some((Codes(s), rest))
  {
    var l, t := Codes(key) + [QUOTE], TextField(key, s, rest);
    assert t == l + Tail(Python, Codes(s), rest);
    assert t[..|l|] == l && t[|l|..] == Tail(Python, Codes(s), rest);
    ReadQuoted(Python, Codes(s), rest);
  }

  lemma ReadNumberField(key: string, n: int, rest: Text)
    requires rest != [] && !Digit(rest[0])
    ensures ReadNumber(key, NumberField(key, n, rest)) == Some((n, rest))
  {
    var t := NumberField(key, n, rest);
    assert t == Codes(key) + (Decimal(n) + rest);
    assert t[..|key|] == Codes(key) && t[|key|..] == Decimal(n) + rest;
    ReadDecimal(n, rest);
  }

  /** An entry reads back as its alias, base URL, slots, model, weight and id under their keys. */
  lemma EntryReadsBack(n: Entry, rest: Text)
    requires n.engine.baseUrl.Some?
    ensures ReadEntry(EntryWith(n, rest)) == Some((FieldsOf(n), rest))
  {
    var f := TextField("\n  model_info:\n    id: ", n.engine.id + ":" + n.route.alias, rest);
    var e := NumberField("\n    weight: ", n.route.weight, f);
    var d := TextField("\n    model: ", n.route.model, e);
    var c := NumberField("\n    max_parallel_requests: ", n.slots, d);
    var b := TextField("\n  litellm_params:\n    api_base: ", n.engine.baseUrl.value, c);
    ReadTextField("- model_name: ", n.route.alias, b);
    ReadTextField("\n  litellm_params:\n    api_base: ", n.engine.baseUrl.value, c);
    ReadNumberField("\n    max_parallel_requests: ", n.slots, d);
    ReadTextField("\n    model: ", n.route.model, e);
    ReadNumberField("\n    weight: ", n.route.weight, f);
    ReadTextField("\n  model_info:\n    id: ", n.engine.id + ":" + n.route.alias, rest);
  }

  lemma TextFieldAppend(key: string, s: string, rest: Text, more: Text)
    ensures TextField(key, s, rest) + more == TextField(key, s, rest + more)
  {
  }

  lemma NumberFieldAppend(key: string, n: int, rest: Text, more: Text)
    ensures NumberField(key, n, rest) + more == NumberField(key, n, rest + more)
  {
  }

  lemma EntryAppend(n: Entry, more: Text)
    requires n.engine.baseUrl.Some?
    ensures EntryText(n) + more == EntryWith(n, more)
  {
    var f := TextField("\n  model_info:\n    id: ", n.engine.id + ":" + n.route.alias, []);
    var e := NumberField("\n    weight: ", n.route.weight, f);
    var d := TextField("\n    model: ", n.route.model, e);
    var c := NumberField("\n    max_parallel_requests: ", n.slots, d);
    var b := TextField("\n  litellm_params:\n    api_base: ", n.engine.baseUrl.value, c);
    TextFieldAppend("- model_name: ", n.route.alias, b, more);
    TextFieldAppend("\n  litellm_params:\n    api_base: ", n.engine.baseUrl.value, c, more);
    NumberFieldAppend("\n    max_parallel_requests: ", n.slots, d, more);
    TextFieldAppend("\n    model: ", n.route.model, e, more);
    NumberFieldAppend("\n    weight: ", n.route.weight, f, more);
    TextFieldAppend("\n  model_info:\n    id: ", n.engine.id + ":" + n.route.alias, [], more);
    assert [] + more == more;
  }

  function AllFields(entries: seq<Entry>): seq<Fields>
    requires Addressed(entries)
  {
    seq(|entries|, i requires 0 <= i < |entries| => FieldsOf(entries[i]))
  }

  /** The rendered region reads back as its entries, in order. */
  lemma {:induction false} RegionReadsBack(entries: seq<Entry>)
    requires Addressed(entries)
    ensures ReadRegion(RegionText(entries)) == Some(AllFields(entries))
  {
    if entries == [] {
      assert RegionText(entries) == [] && AllFields(entries) == [];
    } else {
      var rest := entries[1..];
      AddressedRest(entries);
      RegionReadsBack(rest);
      RegionStep(entries);
      var n := entries[0];
      EntryAppend(n, [LF] + RegionText(rest));
      EntryReadsBack(n, [LF] + RegionText(rest));
      assert ([LF] + RegionText(rest))[1..] == RegionText(rest);
      ReadRegionStep(RegionText(entries), [LF] + RegionText(rest), FieldsOf(n));
      FieldsStep(entries);
    }
  }

  lemma ReadRegionStep(t: Text, rest: Text, fields: Fields)
    requires ReadEntry(t) == Some((fields, rest)) && rest != [] && rest[0] == LF
    ensures ReadRegion(t) == match ReadRegion(rest[1..]) case None => None case Some(more) => Some([fields] + more)
  {
  }

  lemma RegionStep(entries: seq<Entry>)
    requires Addressed(entries) && entries != []
    ensures Addressed(entries[1..]) && RegionText(entries) == EntryText(entries[0]) + ([LF] + RegionText(entries[1..]))
  {
    AddressedRest(entries);
    TextsStep(entries);
    EachEnded(EntryTexts(entries));
  }

  lemma TextsStep(entries: seq<Entry>)
    requires Addressed(entries) && entries != []
    ensures Addressed(entries[1..]) && EntryTexts(entries)[1..] == EntryTexts(entries[1..])
  {
    AddressedRest(entries);
  }

  lemma EachEnded(texts: seq<Text>)
    requires texts != []
    ensures Joined(texts, LF) + [LF]
         == texts[0] + ([LF] + (Joined(texts[1..], LF) + if texts[1..] == [] then [] else [LF]))
  {
    if |texts| > 1 {
      assert Joined(texts, LF) == texts[0] + [LF] + Joined(texts[1..], LF);
    }
  }

  lemma AddressedRest(entries: seq<Entry>)
    requires Addressed(entries) && entries != []
    ensures Addressed(entries[1..])
  {
  }

  lemma FieldsStep(entries: seq<Entry>)
    requires Addressed(entries) && entries != []
    ensures Addressed(entries[1..]) && AllFields(entries) == [FieldsOf(entries[0])] + AllFields(entries[1..])
  {
    AddressedRest(entries);
  }

  /** The rendered text carries a marker exactly when some string of some entry does. */
  lemma ManagedContains(entries: seq<Entry>, m: Text)
    requires IsMarker(m) && Addressed(entries)
    ensures Contains(ManagedBytes(entries), m) <==> exists n :: n in entries && Carries(n.engine, n.route, m)
  {
    MarkerShape(m);
    var texts := EntryTexts(entries);
    Utf8Transparent(m);
    CodedContains(Utf8Unit, RegionText(entries), m);
    JoinedContains(texts, LF, m);
    if entries == [] {
      assert RegionText(entries) == [];
      NoHash([], m);
    } else {
      Barrier(Joined(texts, LF), LF, [], m);
      NoHash([], m);
      assert Joined(texts, LF) + [LF] + [] == RegionText(entries);
      if k :| 0 <= k < |texts| && Contains(texts[k], m) {
        EntryContains(entries[k], m);
        assert entries[k] in entries;
      }
      if n :| n in entries && Carries(n.engine, n.route, m) {
        EntryContains(n, m);
        var k :| 0 <= k < |entries| && entries[k] == n;
        assert Contains(texts[k], m);
      }
    }
  }

  /** Text that fits between two lines: empty, or whole lines. */
  predicate WholeLines(t: Text) {
    t == [] || (t[0] != LF && t[|t| - 1] == LF)
  }

  lemma {:induction false} CodedAppend(code: Unit -> Text, s: Text, t: Text)
    ensures Coded(code, s + t) == Coded(code, s) + Coded(code, t)
    decreases |s|
  {
    if s == [] {
      assert s + t == t;
    } else {
      assert (s + t)[1..] == s[1..] + t;
      CodedAppend(code, s[1..], t);
    }
  }

  lemma ManagedWholeLines(entries: seq<Entry>)
    requires Addressed(entries)
    ensures WholeLines(ManagedBytes(entries))
  {
    if entries != [] {
      var texts := EntryTexts(entries);
      var body := Joined(texts, LF);
      EntryStart(entries[0]);
      assert body[0] == texts[0][0] == 45;
      CodedAppend(Utf8Unit, body, [LF]);
      assert Utf8([LF]) == [LF];
      assert Utf8(body)[0] == 45;
    }
  }

  lemma EntryStart(n: Entry)
    requires n.engine.baseUrl.Some?
    ensures EntryText(n) != [] && EntryText(n)[0] == 45
  {
  }
}
