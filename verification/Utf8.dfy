/** UTF-8 as defined in RFC 3629, and the self-synchronisation that cutting a
    string at a rune start relies on. */
module Utf8 {
  import opened Common

  /** A Unicode scalar value. */
  newtype Rune = r: int | 0 <= r <= 0x10FFFF && !(0xD800 <= r <= 0xDFFF)

  type Runes = seq<Rune>

  /** utf8.RuneStart: anything but a continuation byte. */
  predicate RuneStart(b: byte) {
    !(0x80 <= b <= 0xBF)
  }

  // ---------------------------------------------------------------- encoding (section 3 of RFC 3629)

  function Encode(r: Rune): (b: Text)
    ensures 1 <= |b| <= 4
  {
    var n := r as int;
    if n < 0x80 then [n as byte]
    else if n < 0x800 then [(0xC0 + n / 64) as byte, Tail(n)]
    else if n < 0x10000 then [(0xE0 + n / 4096) as byte, Tail(n / 64), Tail(n)]
    else [(0xF0 + n / 262144) as byte, Tail(n / 4096), Tail(n / 64), Tail(n)]
  }

  /** A continuation byte with the low six bits of `n`. */
  function Tail(n: nat): byte {
    (0x80 + n % 64) as byte
  }

  function EncodeAll(rs: Runes): Text {
    if rs == [] then [] else Encode(rs[0]) + EncodeAll(rs[1..])
  }

  // ---------------------------------------------------------------- syntax (section 4 of RFC 3629)

  predicate In(s: Text, i: nat, low: byte, high: byte) {
    i < |s| && low <= s[i] <= high
  }

  /** Length of the well-formed character at the start of `s`, or 0. */
  function CharLength(s: Text): (n: nat)
    ensures n <= |s| && n <= 4
  {
    if In(s, 0, 0x00, 0x7F) then 1
    else if In(s, 0, 0xC2, 0xDF) && In(s, 1, 0x80, 0xBF) then 2
    else if In(s, 2, 0x80, 0xBF) &&
            (|| (In(s, 0, 0xE0, 0xE0) && In(s, 1, 0xA0, 0xBF))
             || (In(s, 0, 0xE1, 0xEC) && In(s, 1, 0x80, 0xBF))
             || (In(s, 0, 0xED, 0xED) && In(s, 1, 0x80, 0x9F))
             || (In(s, 0, 0xEE, 0xEF) && In(s, 1, 0x80, 0xBF))) then 3
    else if In(s, 2, 0x80, 0xBF) && In(s, 3, 0x80, 0xBF) &&
            (|| (In(s, 0, 0xF0, 0xF0) && In(s, 1, 0x90, 0xBF))
             || (In(s, 0, 0xF1, 0xF3) && In(s, 1, 0x80, 0xBF))
             || (In(s, 0, 0xF4, 0xF4) && In(s, 1, 0x80, 0x8F))) then 4
    else 0
  }

  predicate WellFormed(s: Text) {
    s == [] || (CharLength(s) > 0 && WellFormed(s[CharLength(s)..]))
  }

  /** The number spelled by the bytes of one character. */
  function Value(e: Text): int
    requires 1 <= |e| <= 4
  {
    if |e| == 1 then e[0] as int
    else if |e| == 2 then (e[0] as int - 0xC0) * 64 + Low(e[1])
    else if |e| == 3 then (e[0] as int - 0xE0) * 4096 + Low(e[1]) * 64 + Low(e[2])
    else (e[0] as int - 0xF0) * 262144 + Low(e[1]) * 4096 + Low(e[2]) * 64 + Low(e[3])
  }

  function Low(b: byte): int {
    b as int - 0x80
  }

  lemma Digits(n: nat)
    ensures n == n / 64 * 64 + n % 64
    ensures n / 64 / 64 == n / 4096 && n / 4096 / 64 == n / 262144
  {
  }

  lemma ValueOfEncode(r: Rune)
    ensures Value(Encode(r)) == r as int
  {
    var n := r as int;
    Digits(n);
    Digits(n / 64);
    Digits(n / 4096);
  }

  /** A well-formed character spells a scalar value, of its own length class. */
  lemma CharIsScalar(e: Text)
    requires CharLength(e) == |e| > 0
    ensures 0 <= Value(e) <= 0x10FFFF && !(0xD800 <= Value(e) <= 0xDFFF)
    ensures |e| == if Value(e) < 0x80 then 1 else if Value(e) < 0x800 then 2 else if Value(e) < 0x10000 then 3 else 4
  {
  }

  /** A well-formed character spells a scalar value, whose encoding it is. */
  lemma CharIsEncoding(e: Text)
    requires CharLength(e) == |e| > 0
    ensures 0 <= Value(e) <= 0x10FFFF && !(0xD800 <= Value(e) <= 0xDFFF)
    ensures Encode(Value(e) as Rune) == e
  {
    CharIsScalar(e);
    var v := Value(e);
    if |e| == 1 {
      assert Encode(v as Rune) == e;
    } else if |e| == 2 {
      assert v / 64 == e[0] as int - 0xC0 && v % 64 == Low(e[1]);
      assert Encode(v as Rune) == e;
    } else if |e| == 3 {
      Split(e[0] as int - 0xE0, Low(e[1]), Low(e[2]));
      assert Encode(v as Rune) == e;
    } else {
      Split(e[0] as int - 0xF0, Low(e[1]), Low(e[2]));
      Split((e[0] as int - 0xF0) * 64 + Low(e[1]), Low(e[2]), Low(e[3]));
      assert Encode(v as Rune) == e;
    }
  }

  lemma Split(a: nat, b: nat, c: nat)
    requires b < 64 && c < 64
    ensures var v := a * 4096 + b * 64 + c; v / 4096 == a && v / 64 == a * 64 + b && v / 64 % 64 == b && v % 64 == c
  {
  }

  /** The rune encoded by the character at the start of `s`. */
  function DecodeChar(s: Text): (r: Rune)
    requires CharLength(s) > 0
    ensures Encode(r) == s[..CharLength(s)]
  {
    var e := s[..CharLength(s)];
    assert CharLength(e) == |e| by { SameStart(s, e); }
    CharIsEncoding(e);
    Value(e) as Rune
  }

  function Decode(s: Text): Runes
    requires WellFormed(s)
  {
    if s == [] then [] else [DecodeChar(s)] + Decode(s[CharLength(s)..])
  }

  /** Different runes have different encodings. */
  lemma EncodeInjective(r: Rune, q: Rune)
    requires Encode(r) == Encode(q)
    ensures r == q
  {
    ValueOfEncode(r);
    ValueOfEncode(q);
  }

  lemma EncodeLength(r: Rune)
    ensures CharLength(Encode(r)) == |Encode(r)|
  {
  }

  /** An encoded rune is recognised as one character and decodes to itself. */
  lemma EncodeRecognised(r: Rune, rest: Text)
    ensures CharLength(Encode(r) + rest) == |Encode(r)| && DecodeChar(Encode(r) + rest) == r
  {
    var e := Encode(r);
    EncodeLength(r);
    assert (e + rest)[..|e|] == e[..|e|] == e;
    SameStart(e, e + rest);
    EncodeInjective(DecodeChar(e + rest), r);
  }

  lemma EncodeCons(r: Rune, rs: Runes)
    ensures EncodeAll([r] + rs) == Encode(r) + EncodeAll(rs)
  {
    assert ([r] + rs)[1..] == rs;
  }

  /** Encoding yields well-formed UTF-8, and decoding undoes it. */
  lemma {:induction false} DecodeEncode(rs: Runes)
    ensures WellFormed(EncodeAll(rs)) && Decode(EncodeAll(rs)) == rs
  {
    if rs != [] {
      var e, rest := Encode(rs[0]), EncodeAll(rs[1..]);
      EncodeRecognised(rs[0], rest);
      assert (e + rest)[|e|..] == rest;
      DecodeEncode(rs[1..]);
    }
  }

  /** Every well-formed byte string is the encoding of its decoding. */
  lemma {:induction false} EncodeDecode(s: Text)
    requires WellFormed(s)
    ensures EncodeAll(Decode(s)) == s
    decreases |s|
  {
    if s != [] {
      var n := CharLength(s);
      EncodeDecode(s[n..]);
      Glue(DecodeChar(s), Decode(s[n..]), s, n);
    }
  }

  lemma Glue(r: Rune, rs: Runes, s: Text, n: nat)
    requires n <= |s| && Encode(r) == s[..n] && EncodeAll(rs) == s[n..]
    ensures EncodeAll([r] + rs) == s
  {
    EncodeCons(r, rs);
    assert s == s[..n] + s[n..];
  }

  lemma {:induction false} WellFormedConcat(a: Text, b: Text)
    requires WellFormed(a) && WellFormed(b)
    ensures WellFormed(a + b)
    decreases |a|
  {
    if a == [] {
      assert a + b == b;
    } else {
      var n := CharLength(a);
      SameStart(a, a + b);
      assert (a + b)[n..] == a[n..] + b;
      WellFormedConcat(a[n..], b);
    }
  }

  /** A character is recognised by its own bytes only. */
  lemma SameStart(a: Text, b: Text)
    requires CharLength(a) > 0 && |b| >= CharLength(a) && b[..CharLength(a)] == a[..CharLength(a)]
    ensures CharLength(b) == CharLength(a)
  {
    var n := CharLength(a);
    assert forall i :: 0 <= i < n ==> b[i] == b[..n][i] == a[..n][i] == a[i];
  }

  // ---------------------------------------------------------------- self-synchronisation

  /** Inside a character only its first byte is a rune start. */
  lemma OnlyFirstStarts(s: Text, i: nat)
    requires i < CharLength(s)
    ensures RuneStart(s[i]) <==> i == 0
  {
  }

  /** A rune start splits a well-formed string into two well-formed strings. */
  lemma {:induction false} SplitAtStart(s: Text, c: nat)
    requires WellFormed(s) && c < |s| && RuneStart(s[c])
    ensures WellFormed(s[..c]) && WellFormed(s[c..])
    decreases |s|
  {
    var n := CharLength(s);
    if c < n {
      OnlyFirstStarts(s, c);
      assert s[0..] == s;
    } else {
      assert s[n..][c - n] == s[c];
      SplitAtStart(s[n..], c - n);
      assert s[n..][..c - n] == s[..c][n..] && s[n..][c - n..] == s[c..];
      SameStart(s, s[..c]);
    }
  }

  /** From any byte a rune start is at most three bytes back. */
  lemma {:induction false} StartNearby(s: Text, c: nat) returns (d: nat)
    requires WellFormed(s) && c < |s|
    ensures d <= 3 && d <= c && RuneStart(s[c - d])
    decreases |s|
  {
    var n := CharLength(s);
    if c < n {
      OnlyFirstStarts(s, 0);
      d := c;
    } else {
      d := StartNearby(s[n..], c - n);
      assert s[n..][c - n - d] == s[c - d];
    }
  }
}
