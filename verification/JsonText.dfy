// JSON string literals and decimal numbers, as both printers write them.
module JsonText {
  import opened Wrappers

  // A code point, or in the TypeScript printer one UTF-16 code unit.
  type Unit = u: int | 0 <= u < 0x110000
  type Text = seq<Unit>

  /** JavaScript's printer escapes a surrogate that has no partner; Python's, told not to
      force ASCII, writes every unit from 0x20 up as it is. */
  datatype Dialect = TypeScript | Python

  const QUOTE: Unit := 34
  const BACKSLASH: Unit := 92
  const ZERO: Unit := 48
  const MINUS: Unit := 45

  function Codes(s: string): (t: Text)
    ensures |t| == |s| && forall i :: 0 <= i < |s| ==> t[i] == s[i] as int
  {
    seq(|s|, i requires 0 <= i < |s| => s[i] as int)
  }

  predicate High(u: Unit) { 0xD800 <= u < 0xDC00 }
  predicate Low(u: Unit) { 0xDC00 <= u < 0xE000 }

  // ---- strings ---------------------------------------------------------------------------

  function HexDigit(n: int): Unit
    requires 0 <= n < 16
  {
    if n < 10 then ZERO + n else 87 + n
  }

  function Hex4(u: Unit): Text
    requires u < 0x10000
  {
    [HexDigit(u / 4096), HexDigit(u / 256 % 16), HexDigit(u / 16 % 16), HexDigit(u % 16)]
  }

  // The letter of a two-character escape, if `u` has one.
  function Letter(u: Unit): int {
    if u == QUOTE then 34
    else if u == BACKSLASH then 92
    else if u == 8 then 98
    else if u == 9 then 116
    else if u == 10 then 110
    else if u == 12 then 102
    else if u == 13 then 114
    else 0
  }

  /** One unit that is not half of a surrogate pair. */
  function EscapeOne(d: Dialect, u: Unit): Text {
    if Letter(u) != 0 then [BACKSLASH, Letter(u)]
    else if u < 0x20 || (d.TypeScript? && (High(u) || Low(u))) then [BACKSLASH, 117] + Hex4(u)
    else [u]
  }

  predicate StartsPair(d: Dialect, s: Text) {
    d.TypeScript? && |s| > 1 && High(s[0]) && Low(s[1])
  }

  function Escaped(d: Dialect, s: Text): (t: Text)
    decreases |s|
  {
    if s == [] then []
    else if StartsPair(d, s) then s[..2] + Escaped(d, s[2..])
    else EscapeOne(d, s[0]) + Escaped(d, s[1..])
  }

  function Quote(d: Dialect, s: Text): Text {
    [QUOTE] + Escaped(d, s) + [QUOTE]
  }

  // The text of a literal after its opening quote, and whatever follows the literal.
  function Tail(d: Dialect, s: Text, a: Text): Text {
    Escaped(d, s) + [QUOTE] + a
  }

  /** The form of each unit: two characters for the seven that have a short escape, a \u escape
      with lower-case digits for other control characters and, in TypeScript only, for
      surrogates without a partner, and the unit itself for everything else. */
  lemma EscapeForms(d: Dialect, u: Unit)
    ensures var e := EscapeOne(d, u);
            if u in {8, 9, 10, 12, 13, 34, 92} then |e| == 2 && e[0] == BACKSLASH && e[1] != 117
            else if u < 32 || (d == TypeScript && 0xD800 <= u < 0xE000) then
              && |e| == 6 && e[..2] == [BACKSLASH, 117]
              && forall i :: 2 <= i < 6 ==> 48 <= e[i] < 58 || 97 <= e[i] < 103
            else e == [u]
  {
  }

  /** A surrogate pair is written as it is, and so is every unit neither dialect escapes. */
  lemma PairsKept(d: Dialect, high: Unit, low: Unit, s: Text)
    requires 0xD800 <= high < 0xDC00 <= low < 0xE000
    ensures Escaped(d, [high, low] + s) == [high, low] + Escaped(d, s)
  {
    var t := [high, low] + s;
    assert t[2..] == s && t[1..][1..] == s && t[..2] == [high, low];
    assert d == Python ==> EscapeOne(d, high) == [high] && EscapeOne(d, low) == [low];
    assert d == Python ==> Escaped(d, t) == [high] + ([low] + Escaped(d, s));
  }

  // ---- reading strings back ---------------------------------------------------------------

  // The values of RFC 8259, section 7; negative for anything else.
  function HexValue(u: Unit): int {
    if ZERO <= u < ZERO + 10 then u - ZERO
    else if 97 <= u < 103 then u - 87
    else if 65 <= u < 71 then u - 55
    else -1
  }

  function LetterValue(u: Unit): int {
    if u == 34 || u == 92 || u == 47 then u
    else if u == 98 then 8
    else if u == 102 then 12
    else if u == 110 then 10
    else if u == 114 then 13
    else if u == 116 then 9
    else -1
  }

  function Hex4Value(t: Text): int
    requires |t| >= 4
  {
    var a, b, c, d := HexValue(t[0]), HexValue(t[1]), HexValue(t[2]), HexValue(t[3]);
    if a < 0 || b < 0 || c < 0 || d < 0 then -1 else a * 4096 + b * 256 + c * 16 + d
  }

  function Prepend(u: int, r: Option<(Text, Text)>): Option<(Text, Text)> {
    if r.None? || u < 0 || u >= 0x110000 then None else Some(([u as Unit] + r.value.0, r.value.1))
  }

  /** A string literal by the grammar, from after its opening quote: its units, and what
      follows the closing quote. */
  function ReadString(t: Text): (r: Option<(Text, Text)>)
    ensures r.Some? ==> |r.value.1| < |t|
    decreases |t|
  {
    if t == [] || t[0] < 0x20 then None
    else if t[0] == QUOTE then Some(([], t[1..]))
    else if t[0] != BACKSLASH then Prepend(t[0], ReadString(t[1..]))
    else if |t| < 2 then None
    else if t[1] != 117 then Prepend(LetterValue(t[1]), ReadString(t[2..]))
    else if |t| < 6 then None
    else Prepend(Hex4Value(t[2..]), ReadString(t[6..]))
  }

  lemma Hex4Read(u: Unit, a: Text)
    requires u < 0x10000
    ensures Hex4Value(Hex4(u) + a) == u
  {
    var t := Hex4(u) + a;
    assert t[0] == HexDigit(u / 4096) && t[1] == HexDigit(u / 256 % 16) && t[2] == HexDigit(u / 16 % 16) && t[3] == HexDigit(u % 16);
    assert u / 16 == (u / 256) * 16 + u / 16 % 16;
    assert u / 256 == (u / 4096) * 16 + u / 256 % 16;
  }

  lemma ReadLetter(u: Unit, a: Text)
    requires Letter(u) != 0
    ensures ReadString([BACKSLASH, Letter(u)] + a) == Prepend(u, ReadString(a))
  {
    assert ([BACKSLASH, Letter(u)] + a)[2..] == a;
  }

  lemma ReadHex(u: Unit, a: Text)
    requires u < 0x10000
    ensures ReadString([BACKSLASH, 117] + Hex4(u) + a) == Prepend(u, ReadString(a))
  {
    var t := [BACKSLASH, 117] + Hex4(u) + a;
    assert t[2..] == Hex4(u) + a && t[6..] == a;
    Hex4Read(u, a);
  }

  /** An escape reads as the unit it stands for. */
  lemma ReadOne(d: Dialect, u: Unit, a: Text)
    ensures ReadString(EscapeOne(d, u) + a) == Prepend(u, ReadString(a))
  {
    if Letter(u) != 0 {
      ReadLetter(u, a);
    } else if |EscapeOne(d, u)| == 6 {
      ReadHex(u, a);
    } else {
      ReadRaw(u, a);
    }
  }

  /** A literal reads back as its string, whatever follows it. */
  lemma {:induction false} ReadQuoted(d: Dialect, s: Text, a: Text)
    ensures ReadString(Tail(d, s, a)) == Some((s, a))
    decreases |s|
  {
    if s == [] {
      assert Tail(d, s, a) == [QUOTE] + a;
      assert ([QUOTE] + a)[1..] == a;
    } else if StartsPair(d, s) {
      ReadQuoted(d, s[2..], a);
      ReadPair(d, s, a);
      assert s == [s[0]] + ([s[1]] + s[2..]);
    } else {
      ReadQuoted(d, s[1..], a);
      TailOne(d, s, a);
      ReadOne(d, s[0], Tail(d, s[1..], a));
      assert s == [s[0]] + s[1..];
    }
  }

  lemma TailOne(d: Dialect, s: Text, a: Text)
    requires s != [] && !StartsPair(d, s)
    ensures Tail(d, s, a) == EscapeOne(d, s[0]) + Tail(d, s[1..], a)
  {
    assert Escaped(d, s) == EscapeOne(d, s[0]) + Escaped(d, s[1..]);
  }

  lemma ReadPair(d: Dialect, s: Text, a: Text)
    requires StartsPair(d, s)
    ensures ReadString(Tail(d, s, a)) == Prepend(s[0], Prepend(s[1], ReadString(Tail(d, s[2..], a))))
  {
    var rest := Tail(d, s[2..], a);
    assert Escaped(d, s) == s[..2] + Escaped(d, s[2..]);
    assert Tail(d, s, a) == [s[0]] + ([s[1]] + rest);
    ReadRaw(s[0], [s[1]] + rest);
    ReadRaw(s[1], rest);
  }

  lemma ReadRaw(u: Unit, a: Text)
    requires u >= 0x20 && u != QUOTE && u != BACKSLASH
    ensures ReadString([u] + a) == Prepend(u, ReadString(a))
  {
    assert ([u] + a)[1..] == a;
  }

  // ---- numbers -----------------------------------------------------------------------------

  predicate Digit(u: Unit) { ZERO <= u < ZERO + 10 }

  function Digits(n: nat): (t: Text)
    ensures t != [] && forall i :: 0 <= i < |t| ==> Digit(t[i])
  {
    if n < 10 then [ZERO + n] else Digits(n / 10) + [ZERO + n % 10]
  }

  function Decimal(n: int): (t: Text)
    ensures t != [] && (t[0] == MINUS || Digit(t[0]))
    ensures forall i :: 1 <= i < |t| ==> Digit(t[i])
  {
    if n < 0 then [MINUS] + Digits(-n) else Digits(n)
  }

  // Reads digits as long as there are any, on top of those already read.
  function ReadDigits(t: Text, n: nat): (r: (nat, Text))
    ensures |r.1| <= |t|
    decreases |t|
  {
    if t != [] && Digit(t[0]) then ReadDigits(t[1..], 10 * n + (t[0] - ZERO)) else (n, t)
  }

  /** An integer by the grammar: no superfluous zero in front. */
  function ReadInt(t: Text): (r: Option<(int, Text)>)
    ensures r.Some? ==> |r.value.1| < |t|
  {
    var (sign, u) := if t != [] && t[0] == MINUS then (-1, t[1..]) else (1, t);
    if u == [] || !Digit(u[0]) then None
    else if u[0] == ZERO then Some((0, u[1..]))
    else
      var (n, rest) := ReadDigits(u[1..], u[0] - ZERO);
      Some((sign * n, rest))
  }

  lemma {:induction false} DigitsRead(m: nat, a: Text)
    ensures ReadDigits(Digits(m) + a, 0) == ReadDigits(a, m)
  {
    if m < 10 {
      assert ([ZERO + m] + a)[1..] == a;
    } else {
      var last := [ZERO + m % 10] + a;
      assert Digits(m) + a == Digits(m / 10) + last;
      DigitsRead(m / 10, last);
      assert last[1..] == a;
    }
  }

  lemma {:induction false} NoLeadingZero(m: nat)
    ensures Digits(m)[0] == ZERO <==> m == 0
  {
    if m >= 10 {
      NoLeadingZero(m / 10);
    }
  }

  /** A sign exactly for negative numbers, and no leading zero but in zero itself. */
  lemma DecimalForm(n: int)
    ensures Decimal(n)[0] == MINUS <==> n < 0
    ensures n == 0 ==> Decimal(n) == [ZERO]
    ensures n > 0 ==> Decimal(n)[0] != ZERO
    ensures n < 0 ==> |Decimal(n)| > 1 && Decimal(n)[1] != ZERO
  {
    NoLeadingZero(if n < 0 then -n else n);
  }

  /** A number reads back as its value as long as no digit follows it. */
  lemma ReadDecimal(n: int, a: Text)
    requires a == [] || !Digit(a[0])
    ensures ReadInt(Decimal(n) + a) == Some((n, a))
  {
    var m: nat := if n < 0 then -n else n;
    var t := Digits(m) + a;
    NoLeadingZero(m);
    DigitsRead(m, a);
    assert t[0] == Digits(m)[0];
    if n < 0 {
      assert Decimal(n) + a == [MINUS] + t && ([MINUS] + t)[1..] == t;
    }
    if m == 0 {
      assert t[1..] == a;
    }
  }
}
