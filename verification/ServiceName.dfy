/** Service names (models/grafana.go): sanitising alert texts and truncating
    long names on a rune boundary. Alert texts are given as the runes that
    ranging over them yields, so invalid bytes are already U+FFFD. */
module ServiceName {
  import opened Common
  import opened Utf8

  const SPACE: Rune := 0x20
  const BANG: Rune := 0x21
  const UNDERSCORE: Rune := 0x5F

  const MAX_NAME: nat := 200
  const SUFFIX_LENGTH: nat := 9

  // ---------------------------------------------------------------- sanitising

  /** unicode.IsSpace. */
  predicate IsSpace(r: Rune) {
    || 0x09 <= r <= 0x0D || r == 0x20 || r == 0x85 || r == 0xA0 || r == 0x1680
    || 0x2000 <= r <= 0x200A || r == 0x2028 || r == 0x2029 || r == 0x202F || r == 0x205F || r == 0x3000
  }

  predicate IsControl(r: Rune) {
    r < 0x20 || r == 0x7F
  }

  function MapRune(r: Rune): Rune {
    if r == BANG then UNDERSCORE else if IsControl(r) then SPACE else r
  }

  function MapAll(rs: Runes): Runes {
    seq(|rs|, i requires 0 <= i < |rs| => MapRune(rs[i]))
  }

  /** Number of leading runes that are (or are not) white space. */
  function Span(rs: Runes, space: bool): (n: nat)
    ensures n <= |rs| && (forall i :: 0 <= i < n ==> IsSpace(rs[i]) == space)
    ensures n < |rs| ==> IsSpace(rs[n]) != space
  {
    if rs == [] || IsSpace(rs[0]) != space then 0 else 1 + Span(rs[1..], space)
  }

  /** strings.Fields: the maximal runs of runes that are not white space. */
  function Fields(rs: Runes): seq<Runes>
    decreases |rs|
  {
    var rest := rs[Span(rs, true)..];
    if rest == [] then []
    else
      var n := Span(rest, false);
      [rest[..n]] + Fields(rest[n..])
  }

  function Join(words: seq<Runes>): Runes {
    if words == [] then []
    else if |words| == 1 then words[0]
    else words[0] + [SPACE] + Join(words[1..])
  }

  function Sanitize(rs: Runes): Runes {
    Join(Fields(MapAll(rs)))
  }

  predicate IsWord(w: Runes) {
    w != [] && forall i :: 0 <= i < |w| ==> !IsSpace(w[i])
  }

  predicate AllWords(words: seq<Runes>) {
    forall i :: 0 <= i < |words| ==> IsWord(words[i])
  }

  lemma AllWordsCons(w: Runes, words: seq<Runes>)
    requires IsWord(w) && AllWords(words)
    ensures AllWords([w] + words)
  {
  }

  lemma FirstWord(rest: Runes)
    requires rest != [] && !IsSpace(rest[0])
    ensures IsWord(rest[..Span(rest, false)]) && (Span(rest, false) == |rest| ==> IsWord(rest))
  {
  }

  lemma {:induction false} FieldsAreWords(rs: Runes)
    ensures AllWords(Fields(rs))
    decreases |rs|
  {
    var rest := rs[Span(rs, true)..];
    if rest != [] {
      var n := Span(rest, false);
      FirstWord(rest);
      FieldsAreWords(rest[n..]);
      AllWordsCons(rest[..n], Fields(rest[n..]));
    }
  }

  /** No '!' and no control character. */
  predicate Fine(rs: Runes) {
    forall i :: 0 <= i < |rs| ==> rs[i] != BANG && !IsControl(rs[i])
  }

  lemma FineSlice(rs: Runes, i: nat, j: nat)
    requires Fine(rs) && i <= j <= |rs|
    ensures Fine(rs[i..j]) && Fine(rs[i..])
  {
  }

  lemma FineCons(w: Runes, words: seq<Runes>)
    requires Fine(w) && forall i :: 0 <= i < |words| ==> Fine(words[i])
    ensures forall i :: 0 <= i < |[w] + words| ==> Fine(([w] + words)[i])
  {
  }

  /** The fields of a fine text are fine. */
  lemma {:induction false} FieldsAreFine(rs: Runes)
    requires Fine(rs)
    ensures forall i :: 0 <= i < |Fields(rs)| ==> Fine(Fields(rs)[i])
    decreases |rs|
  {
    var rest := rs[Span(rs, true)..];
    FineSlice(rs, Span(rs, true), |rs|);
    if rest != [] {
      var n := Span(rest, false);
      FineSlice(rest, 0, n);
      FineSlice(rest, n, |rest|);
      assert rest[0..n] == rest[..n];
      FieldsAreFine(rest[n..]);
      FineCons(rest[..n], Fields(rest[n..]));
    }
  }

  lemma {:induction false} SpanOf(w: Runes, rest: Runes, space: bool)
    requires forall i :: 0 <= i < |w| ==> IsSpace(w[i]) == space
    requires rest == [] || IsSpace(rest[0]) != space
    ensures Span(w + rest, space) == |w|
  {
    if w == [] {
      assert w + rest == rest;
    } else {
      assert (w + rest)[1..] == w[1..] + rest;
      SpanOf(w[1..], rest, space);
    }
  }

  /** A word in front of white space is the first field. */
  lemma FieldsStep(w: Runes, tail: Runes)
    requires IsWord(w) && (tail == [] || IsSpace(tail[0]))
    ensures Fields(w + tail) == [w] + Fields(tail)
  {
    var all := w + tail;
    assert Span(all, true) == 0 && all[0..] == all;
    SpanOf(w, tail, false);
    assert all[..|w|] == w && all[|w|..] == tail;
  }

  /** One leading space does not change the fields. */
  lemma LeadingSpace(rs: Runes)
    requires rs != [] && !IsSpace(rs[0])
    ensures Fields([SPACE] + rs) == Fields(rs)
  {
    SpanOf([SPACE], rs, true);
    assert Span(rs, true) == 0;
    assert ([SPACE] + rs)[1..] == rs && rs[0..] == rs;
  }

  /** A word, a space and more text: the word is the first field. */
  lemma FieldsCons(w: Runes, rs: Runes)
    requires IsWord(w) && rs != [] && !IsSpace(rs[0])
    ensures Fields(w + [SPACE] + rs) == [w] + Fields(rs)
  {
    var tail := [SPACE] + rs;
    Regroup(w, rs);
    assert Fields(w + tail) == [w] + Fields(tail) by {
      FieldsStep(w, tail);
    }
    LeadingSpace(rs);
  }

  lemma Regroup(w: Runes, rs: Runes)
    ensures w + [SPACE] + rs == w + ([SPACE] + rs)
  {
  }

  lemma FieldsWord(w: Runes)
    requires IsWord(w)
    ensures Fields(w) == [w]
  {
    FieldsStep(w, []);
    assert w + [] == w && Fields([]) == [];
  }

  lemma JoinStarts(words: seq<Runes>)
    requires AllWords(words) && words != []
    ensures Join(words) != [] && !IsSpace(Join(words)[0])
  {
    assert IsWord(words[0]);
    assert Join(words)[0] == words[0][0];
  }

  /** Splitting joined words gives the words back. */
  lemma {:induction false} FieldsJoin(words: seq<Runes>)
    requires AllWords(words)
    ensures Fields(Join(words)) == words
  {
    if |words| == 1 {
      FieldsWord(words[0]);
    } else if words != [] {
      FieldsJoin(words[1..]);
      JoinStarts(words[1..]);
      FieldsCons(words[0], Join(words[1..]));
    }
  }

  lemma {:induction false} JoinMember(words: seq<Runes>, k: nat)
    requires k < |Join(words)|
    ensures Join(words)[k] == SPACE
            || exists i, j :: 0 <= i < |words| && 0 <= j < |words[i]| && words[i][j] == Join(words)[k]
    decreases |words|
  {
    if |words| == 1 {
      assert words[0][k] == Join(words)[k];
    } else {
      var w, more := words[0], words[1..];
      if k < |w| {
        assert words[0][k] == Join(words)[k];
      } else if k > |w| {
        JoinMember(more, k - |w| - 1);
        if Join(words)[k] != SPACE {
          var i, j :| 0 <= i < |more| && 0 <= j < |more[i]| && more[i][j] == Join(more)[k - |w| - 1];
          assert words[i + 1][j] == Join(words)[k];
        }
      }
    }
  }

  /** Sanitised text has no '!', no control character, and no white space other
      than the plain space. */
  lemma SanitizedRunes(rs: Runes, k: nat)
    requires k < |Sanitize(rs)|
    ensures var r := Sanitize(rs)[k]; r != BANG && !IsControl(r) && (IsSpace(r) ==> r == SPACE)
  {
    var mapped := MapAll(rs);
    var words := Fields(mapped);
    FieldsAreWords(mapped);
    JoinMember(words, k);
    if Sanitize(rs)[k] != SPACE {
      var i, j :| 0 <= i < |words| && 0 <= j < |words[i]| && words[i][j] == Sanitize(rs)[k];
      assert IsWord(words[i]);
      FieldsAreFine(mapped);
    }
  }

  /** Sanitising is idempotent. */
  lemma SanitizeIdempotent(rs: Runes)
    ensures Sanitize(Sanitize(rs)) == Sanitize(rs)
  {
    var once := Sanitize(rs);
    forall k | 0 <= k < |once|
      ensures MapRune(once[k]) == once[k]
    {
      SanitizedRunes(rs, k);
    }
    assert MapAll(once) == once;
    FieldsAreWords(MapAll(rs));
    FieldsJoin(Fields(MapAll(rs)));
  }

  /** What sanitised text looks like, said without sanitising. */
  predicate Clean(rs: Runes) {
    && (forall i :: 0 <= i < |rs| ==> rs[i] != BANG && !IsControl(rs[i]) && (IsSpace(rs[i]) ==> rs[i] == SPACE))
    && (rs != [] ==> !IsSpace(rs[0]) && !IsSpace(rs[|rs| - 1]))
    && (forall i, j :: 0 <= i < |rs| && j == i + 1 && j < |rs| ==> !(IsSpace(rs[i]) && IsSpace(rs[j])))
  }

  /** Sanitising leaves exactly the clean texts alone. */
  lemma SanitizeFixesIff(rs: Runes)
    ensures Sanitize(rs) == rs <==> Clean(rs)
  {
    if Clean(rs) {
      assert MapAll(rs) == rs;
      CleanSplits(rs);
    } else if Sanitize(rs) == rs {
      SanitizeIsClean(rs);
    }
  }

  predicate Splits(rs: Runes) {
    Join(Fields(rs)) == rs
  }

  lemma {:induction false} CleanSplits(rs: Runes)
    requires Clean(rs)
    ensures Splits(rs)
    decreases |rs|
  {
    if rs != [] {
      var n := Span(rs, false);
      FirstWord(rs);
      if n == |rs| {
        FieldsWord(rs);
      } else {
        var w, more := rs[..n], rs[n + 1..];
        CleanRest(rs, n);
        CleanSplits(more);
        SplitsCons(w, more);
      }
    }
  }

  lemma SplitsCons(w: Runes, more: Runes)
    requires IsWord(w) && more != [] && !IsSpace(more[0]) && Splits(more)
    ensures Splits(w + [SPACE] + more)
  {
    FieldsCons(w, more);
    JoinCons(w, Fields(more));
  }

  lemma JoinCons(w: Runes, words: seq<Runes>)
    requires Join(words) != []
    ensures Join([w] + words) == w + [SPACE] + Join(words)
  {
    assert ([w] + words)[1..] == words;
  }

  lemma CleanRest(rs: Runes, n: nat)
    requires Clean(rs) && n < |rs| && IsSpace(rs[n])
    ensures n + 1 < |rs| && Clean(rs[n + 1..]) && !IsSpace(rs[n + 1]) && rs == rs[..n] + [SPACE] + rs[n + 1..]
  {
    var more := rs[n + 1..];
    assert forall i :: 0 <= i < |more| ==> more[i] == rs[n + 1 + i];
  }

  lemma SanitizeIsClean(rs: Runes)
    ensures Clean(Sanitize(rs))
  {
    var out := Sanitize(rs);
    forall k | 0 <= k < |out|
      ensures out[k] != BANG && !IsControl(out[k]) && (IsSpace(out[k]) ==> out[k] == SPACE)
    {
      SanitizedRunes(rs, k);
    }
    FieldsAreWords(MapAll(rs));
    JoinShape(Fields(MapAll(rs)));
  }

  lemma {:induction false} JoinShape(words: seq<Runes>)
    requires AllWords(words)
    ensures var out := Join(words);
            && (words != [] ==> out != [] && !IsSpace(out[0]) && !IsSpace(out[|out| - 1]))
            && (forall i, j :: 0 <= i < |out| && j == i + 1 && j < |out| ==> !(IsSpace(out[i]) && IsSpace(out[j])))
  {
    if |words| > 1 {
      JoinShape(words[1..]);
      var w, rest, out := words[0], Join(words[1..]), Join(words);
      assert out == w + [SPACE] + rest;
      forall i | 0 <= i < |out| - 1
        ensures !(IsSpace(out[i]) && IsSpace(out[i + 1]))
      {
        if i < |w| {
          assert out[i] == w[i];
        } else if i > |w| {
          assert out[i] == rest[i - |w| - 1] && out[i + 1] == rest[i - |w|];
        } else {
          assert out[i + 1] == rest[0];
        }
      }
    } else if |words| == 1 {
      assert IsWord(words[0]);
    }
  }

  // ---------------------------------------------------------------- what sanitising does

  /** Clean but for exclamation marks. */
  predicate Tidy(rs: Runes) {
    && (forall i :: 0 <= i < |rs| ==> !IsControl(rs[i]) && (IsSpace(rs[i]) ==> rs[i] == SPACE))
    && (rs != [] ==> !IsSpace(rs[0]) && !IsSpace(rs[|rs| - 1]))
    && (forall i, j :: 0 <= i < |rs| && j == i + 1 && j < |rs| ==> !(IsSpace(rs[i]) && IsSpace(rs[j])))
  }

  /** In tidy text every '!' becomes '_', and nothing else changes. */
  lemma SanitizeTidy(rs: Runes)
    requires Tidy(rs)
    ensures |Sanitize(rs)| == |rs| && forall i :: 0 <= i < |rs| ==>
            Sanitize(rs)[i] == if rs[i] == 0x21 then 0x5F else rs[i]
  {
    var m := MapAll(rs);
    assert forall i :: 0 <= i < |m| ==> IsSpace(m[i]) == IsSpace(rs[i]);
    assert Clean(m);
    CleanSplits(m);
  }

  lemma {:induction false} SpanSkips(p: Runes, y: Runes)
    requires forall i :: 0 <= i < |p| ==> IsSpace(p[i])
    ensures Span(p + y, true) == |p| + Span(y, true)
  {
    if p == [] {
      assert p + y == y;
    } else {
      assert (p + y)[1..] == p[1..] + y;
      SpanSkips(p[1..], y);
    }
  }

  /** Leading white space makes no field. */
  lemma FieldsSkip(p: Runes, y: Runes)
    requires forall i :: 0 <= i < |p| ==> IsSpace(p[i])
    ensures Fields(p + y) == Fields(y)
  {
    SpanSkips(p, y);
    assert (p + y)[|p| + Span(y, true)..] == y[Span(y, true)..];
  }

  predicate IsGap(g: Runes) {
    g != [] && forall i :: 0 <= i < |g| ==> IsSpace(g[i])
  }

  lemma CutBlank(x: Runes, tail: Runes) returns (rest: Runes)
    ensures rest == x[Span(x, true)..] && (rest != [] ==> !IsSpace(rest[0]))
    ensures Fields(x) == Fields(rest) && Fields(x + tail) == Fields(rest + tail)
  {
    var n := Span(x, true);
    rest := x[n..];
    assert x == x[..n] + rest && x + tail == x[..n] + (rest + tail);
    FieldsSkip(x[..n], rest);
    FieldsSkip(x[..n], rest + tail);
  }

  /** White space separates fields. */
  lemma {:induction false} FieldsGap(x: Runes, g: Runes, y: Runes)
    requires IsGap(g)
    ensures Fields(x + (g + y)) == Fields(x) + Fields(y)
    decreases |x|
  {
    var tail := g + y;
    var rest := CutBlank(x, tail);
    if rest == [] {
      assert rest + tail == tail && Fields(rest) == [];
      FieldsSkip(g, y);
      assert Fields(x) + Fields(y) == Fields(y);
    } else {
      var word, more := CutWord(rest, tail);
      FieldsGap(more, g, y);
      Regroup3([word], Fields(more), Fields(y));
    }
  }

  lemma Regroup3(a: seq<Runes>, b: seq<Runes>, c: seq<Runes>)
    ensures a + (b + c) == a + b + c
  {
  }

  /** The first word of a text, whatever white space and text follow. */
  lemma CutWord(rest: Runes, tail: Runes) returns (word: Runes, more: Runes)
    requires rest != [] && !IsSpace(rest[0]) && tail != [] && IsSpace(tail[0])
    ensures |more| < |rest| && more == rest[Span(rest, false)..]
    ensures Fields(rest) == [word] + Fields(more) && Fields(rest + tail) == [word] + Fields(more + tail)
  {
    var n := Span(rest, false);
    word, more := rest[..n], rest[n..];
    CutWordAt(rest, tail, n);
    assert IsWord(word);
    FieldsStep(word, more);
    FieldsStep(word, more + tail);
  }

  lemma CutWordAt(rest: Runes, tail: Runes, n: nat)
    requires n <= |rest|
    ensures rest == rest[..n] + rest[n..] && rest + tail == rest[..n] + (rest[n..] + tail)
  {
  }

  lemma {:induction false} JoinConcat(a: seq<Runes>, b: seq<Runes>)
    requires a != [] && b != []
    ensures Join(a + b) == Join(a) + [SPACE] + Join(b)
  {
    assert (a + b)[1..] == a[1..] + b;
    if |a| == 1 {
      assert a[1..] + b == b;
    } else {
      JoinConcat(a[1..], b);
    }
  }

  lemma JoinEmptyIff(words: seq<Runes>)
    requires AllWords(words)
    ensures Join(words) == [] <==> words == []
  {
    if words != [] {
      JoinStarts(words);
    }
  }

  /** Any run of control characters and white space becomes one space between what
      is left of both sides, and nothing at an end. */
  lemma SanitizeGap(x: Runes, g: Runes, y: Runes)
    requires g != [] && forall i :: 0 <= i < |g| ==> IsControl(g[i]) || IsSpace(g[i])
    ensures var a, b := Sanitize(x), Sanitize(y);
            Sanitize(x + (g + y)) == if a == [] then b else if b == [] then a else a + [SPACE] + b
  {
    assert MapAll(x + (g + y)) == MapAll(x) + (MapAll(g) + MapAll(y));
    var a, b := Fields(MapAll(x)), Fields(MapAll(y));
    FieldsGap(MapAll(x), MapAll(g), MapAll(y));
    FieldsAreWords(MapAll(x));
    FieldsAreWords(MapAll(y));
    JoinEmptyIff(a);
    JoinEmptyIff(b);
    if a == [] {
      assert a + b == b;
    } else if b == [] {
      assert a + b == a;
    } else {
      JoinConcat(a, b);
    }
  }

  // ---------------------------------------------------------------- truncating

  /** strings.TrimSpace. */
  function TrimRunes(rs: Runes): Runes {
    var front := rs[Span(rs, true)..];
    front[..LastNonSpace(front)]
  }

  function LastNonSpace(rs: Runes): (n: nat)
    ensures n <= |rs| && (n > 0 ==> !IsSpace(rs[n - 1]))
    ensures forall i :: n <= i < |rs| ==> IsSpace(rs[i])
  {
    if rs == [] then 0
    else if IsSpace(rs[|rs| - 1]) then LastNonSpace(rs[..|rs| - 1])
    else |rs|
  }

  function TrimSpace(s: Text): Text
    requires WellFormed(s)
  {
    EncodeAll(TrimRunes(Decode(s)))
  }

  lemma {:induction false} EncodeAllConcat(a: Runes, b: Runes)
    ensures EncodeAll(a + b) == EncodeAll(a) + EncodeAll(b)
    decreases |a|
  {
    if a == [] {
      assert a + b == b;
    } else {
      assert (a + b)[1..] == a[1..] + b;
      EncodeAllConcat(a[1..], b);
    }
  }

  lemma EncodeMiddle(x: Runes, y: Runes, z: Runes) returns (i: nat, j: nat)
    ensures var s := EncodeAll(x + y + z); i <= j <= |s| && EncodeAll(y) == s[i..j]
  {
    EncodeAllConcat(x + y, z);
    EncodeAllConcat(x, y);
    i := |EncodeAll(x)|;
    j := i + |EncodeAll(y)|;
  }

  /** Trimming gives well-formed text, a part of the original. */
  lemma TrimFacts(s: Text) returns (i: nat, j: nat)
    requires WellFormed(s)
    ensures i <= j <= |s| && TrimSpace(s) == s[i..j] && WellFormed(TrimSpace(s))
  {
    var rs := Decode(s);
    EncodeDecode(s);
    DecodeEncode(TrimRunes(rs));
    i, j := TrimmedPart(rs);
  }

  lemma TrimmedPart(rs: Runes) returns (i: nat, j: nat)
    ensures var s := EncodeAll(rs); i <= j <= |s| && EncodeAll(TrimRunes(rs)) == s[i..j]
  {
    var a := Span(rs, true);
    var front := rs[a..];
    var b := LastNonSpace(front);
    assert rs == rs[..a] + front[..b] + front[b..];
    i, j := EncodeMiddle(rs[..a], front[..b], front[b..]);
  }

  /** The position where truncation cuts, backing off from `c`. */
  function CutAt(s: Text, c: nat): (cut: nat)
    requires c < |s|
    ensures cut <= c && (cut == 0 || RuneStart(s[cut])) && forall i :: cut < i <= c ==> !RuneStart(s[i])
  {
    if c == 0 || RuneStart(s[c]) then c else CutAt(s, c - 1)
  }

  /** The back-off ends on a rune boundary, at most three bytes back. */
  lemma CutIsClose(s: Text, c: nat)
    requires WellFormed(s) && c < |s|
    ensures var cut := CutAt(s, c); cut + 3 >= c && WellFormed(s[..cut])
  {
    var cut := CutAt(s, c);
    var d := StartNearby(s, c);
    assert cut >= c - d;
    if RuneStart(s[cut]) {
      SplitAtStart(s, cut);
    }
  }

  lemma {:induction false} AsciiWellFormed(s: Text)
    requires forall i :: 0 <= i < |s| ==> s[i] < 0x80
    ensures WellFormed(s)
  {
    if s != [] {
      AsciiWellFormed(s[1..]);
    }
  }

  /** "~" and eight hexadecimal digits: nine bytes from '0' to '~'. */
  predicate IsSuffix(suffix: Text) {
    |suffix| == SUFFIX_LENGTH && forall i :: 0 <= i < |suffix| ==> 0x30 <= suffix[i] <= 0x7E
  }

  /** What truncation leaves of a long name. */
  function Kept(s: Text): Text
    requires WellFormed(s) && |s| > MAX_NAME
  {
    var cut := CutAt(s, MAX_NAME - SUFFIX_LENGTH);
    assert WellFormed(s[..cut]) by { CutIsClose(s, MAX_NAME - SUFFIX_LENGTH); }
    TrimSpace(s[..cut])
  }

  function Truncated(s: Text, suffix: Text): Text
    requires WellFormed(s) && IsSuffix(suffix)
  {
    if |s| <= MAX_NAME then s else Kept(s) + suffix
  }

  method TruncateServiceName(s: Text, suffix: Text) returns (r: Text)
    requires WellFormed(s) && IsSuffix(suffix)
    ensures r == Truncated(s, suffix)
    ensures WellFormed(r) && |r| <= MAX_NAME
  {
    if |s| <= MAX_NAME {
      return s;
    }
    var cut := MAX_NAME - SUFFIX_LENGTH;
    while cut > 0 && !RuneStart(s[cut])
      invariant 0 <= cut <= MAX_NAME - SUFFIX_LENGTH
      invariant CutAt(s, cut) == CutAt(s, MAX_NAME - SUFFIX_LENGTH)
    {
      cut := cut - 1;
    }
    CutIsClose(s, MAX_NAME - SUFFIX_LENGTH);
    r := TrimSpace(s[..cut]) + suffix;
    KeptIsShort(s);
    AsciiWellFormed(suffix);
    WellFormedConcat(Kept(s), suffix);
  }

  lemma KeptIsShort(s: Text)
    requires WellFormed(s) && |s| > MAX_NAME
    ensures WellFormed(Kept(s)) && |Kept(s)| <= MAX_NAME - SUFFIX_LENGTH
  {
    CutIsClose(s, MAX_NAME - SUFFIX_LENGTH);
    var i, j := TrimFacts(s[..CutAt(s, MAX_NAME - SUFFIX_LENGTH)]);
  }

  /** What is kept of a long name is its first 191 bytes, up to three fewer so as not
      to split a rune, without the white space at both ends. */
  lemma KeptIsTrimmedCut(s: Text) returns (cut: nat, a: Runes, k: Runes, b: Runes)
    requires WellFormed(s) && |s| > MAX_NAME
    ensures 188 <= cut <= 191 && (cut < 191 ==> !RuneStart(s[191])) && RuneStart(s[cut])
    ensures s[..cut] == EncodeAll(a) + Kept(s) + EncodeAll(b) && Kept(s) == EncodeAll(k)
    ensures (forall i :: 0 <= i < |a| ==> IsSpace(a[i])) && (forall i :: 0 <= i < |b| ==> IsSpace(b[i]))
    ensures k != [] ==> !IsSpace(k[0]) && !IsSpace(k[|k| - 1])
  {
    cut := CutAt(s, MAX_NAME - SUFFIX_LENGTH);
    CutIsClose(s, MAX_NAME - SUFFIX_LENGTH);
    EncodeDecode(s[..cut]);
    a, k, b := TrimParts(Decode(s[..cut]));
  }

  lemma TrimParts(rs: Runes) returns (a: Runes, k: Runes, b: Runes)
    ensures TrimRunes(rs) == k && EncodeAll(rs) == EncodeAll(a) + EncodeAll(k) + EncodeAll(b)
    ensures (forall i :: 0 <= i < |a| ==> IsSpace(a[i])) && (forall i :: 0 <= i < |b| ==> IsSpace(b[i]))
    ensures k != [] ==> !IsSpace(k[0]) && !IsSpace(k[|k| - 1])
  {
    var n := Span(rs, true);
    var front := rs[n..];
    a, k, b := rs[..n], front[..LastNonSpace(front)], front[LastNonSpace(front)..];
    assert rs == a + k + b;
    EncodeAllConcat(a + k, b);
    EncodeAllConcat(a, k);
  }

  /** Two long names become the same text if and only if they have the same hash
      suffix and agree on what the cut leaves of them. */
  lemma LongNamesCollideIff(s: Text, t: Text, f: Text, g: Text)
    requires WellFormed(s) && WellFormed(t) && IsSuffix(f) && IsSuffix(g) && |s| > MAX_NAME && |t| > MAX_NAME
    ensures Truncated(s, f) == Truncated(t, g) <==> f == g && Kept(s) == Kept(t)
  {
    var a, b := Truncated(s, f), Truncated(t, g);
    assert a[|a| - SUFFIX_LENGTH..] == f && b[|b| - SUFFIX_LENGTH..] == g;
    assert a[..|a| - SUFFIX_LENGTH] == Kept(s) && b[..|b| - SUFFIX_LENGTH] == Kept(t);
  }

  // ---------------------------------------------------------------- the name of an alert

  datatype NameMode = Alertname | AlertnameSummary

  const DASH: Runes := [0x20, 0x2D, 0x20]

  /** No '!' and no ASCII control byte. */
  predicate Safe(s: Text) {
    forall i :: 0 <= i < |s| ==> s[i] != 0x21 && s[i] >= 0x20 && s[i] != 0x7F
  }

  lemma {:induction false} EncodeSafe(rs: Runes)
    requires forall i :: 0 <= i < |rs| ==> rs[i] != BANG && !IsControl(rs[i])
    ensures Safe(EncodeAll(rs))
  {
    if rs != [] {
      EncodeSafe(rs[1..]);
      assert Safe(Encode(rs[0]));
    }
  }

  lemma SanitizedIsSafe(rs: Runes)
    ensures Safe(EncodeAll(Sanitize(rs))) && WellFormed(EncodeAll(Sanitize(rs)))
  {
    forall k | 0 <= k < |Sanitize(rs)|
      ensures Sanitize(rs)[k] != BANG && !IsControl(Sanitize(rs)[k])
    {
      SanitizedRunes(rs, k);
    }
    EncodeSafe(Sanitize(rs));
    DecodeEncode(Sanitize(rs));
  }

  lemma TruncatedIsSafe(s: Text, suffix: Text)
    requires WellFormed(s) && IsSuffix(suffix) && Safe(s)
    ensures Safe(Truncated(s, suffix))
  {
    if |s| > MAX_NAME {
      CutIsClose(s, MAX_NAME - SUFFIX_LENGTH);
      var front := s[..CutAt(s, MAX_NAME - SUFFIX_LENGTH)];
      var i, j := TrimFacts(front);
      SafePart(s, |front|, i, j);
      SafeConcat(TrimSpace(front), suffix);
    }
  }

  lemma SafePart(s: Text, n: nat, i: nat, j: nat)
    requires Safe(s) && i <= j <= n <= |s|
    ensures Safe(s[..n][i..j])
  {
  }

  lemma SafeConcat(a: Text, b: Text)
    requires Safe(a) && Safe(b)
    ensures Safe(a + b)
  {
  }

  /** The name before truncation. */
  function FullName(alertname: Runes, summary: Runes): Text {
    EncodeAll(Sanitize(alertname)) + EncodeAll(DASH) + EncodeAll(Sanitize(summary))
  }

  lemma FullNameIsSafe(alertname: Runes, summary: Runes)
    ensures WellFormed(FullName(alertname, summary)) && Safe(FullName(alertname, summary))
  {
    SanitizedIsSafe(alertname);
    SanitizedIsSafe(summary);
    DashIsGood();
    var a, b := EncodeAll(Sanitize(alertname)), EncodeAll(Sanitize(summary));
    GoodConcat(a, EncodeAll(DASH));
    GoodConcat(a + EncodeAll(DASH), b);
  }

  lemma DashIsGood()
    ensures WellFormed(EncodeAll(DASH)) && Safe(EncodeAll(DASH))
  {
    EncodeSafe(DASH);
    DecodeEncode(DASH);
  }

  lemma GoodConcat(a: Text, b: Text)
    requires WellFormed(a) && Safe(a) && WellFormed(b) && Safe(b)
    ensures WellFormed(a + b) && Safe(a + b)
  {
    WellFormedConcat(a, b);
  }

  predicate NamesSummary(summary: Runes, mode: NameMode) {
    mode == AlertnameSummary && Sanitize(summary) != []
  }

  /** ServiceName. `digest` stands for the suffix made from the SHA-256 of the
      full name. The length bound is not promised for a bare alertname. */
  method Name(alertname: Runes, summary: Runes, mode: NameMode, digest: Text -> Text) returns (r: Text)
    requires forall s :: IsSuffix(digest(s))
    ensures WellFormed(r) && Safe(r) && r == NameOf(alertname, summary, mode, digest)
    ensures !NamesSummary(summary, mode) ==> r == EncodeAll(Sanitize(alertname))
    ensures var full := EncodeAll(Sanitize(alertname)) + [0x20, 0x2D, 0x20] + EncodeAll(Sanitize(summary));
            && (NamesSummary(summary, mode) && |full| <= MAX_NAME ==> r == full)
            && (NamesSummary(summary, mode) && |full| > MAX_NAME ==>
                  && SUFFIX_LENGTH <= |r| <= MAX_NAME && r[|r| - SUFFIX_LENGTH..] == digest(full)
                  && WellFormed(full) && r[..|r| - SUFFIX_LENGTH] == Kept(full))
  {
    SanitizedIsSafe(alertname);
    r := EncodeAll(Sanitize(alertname));
    if mode == Alertname || Sanitize(summary) == [] {
      return;
    }
    FullNameIsSafe(alertname, summary);
    DashIsAscii();
    var full := r + EncodeAll(DASH) + EncodeAll(Sanitize(summary));
    r := TruncateServiceName(full, digest(full));
    TruncatedIsSafe(full, digest(full));
  }

  lemma DashIsAscii()
    ensures EncodeAll(DASH) == [0x20, 0x2D, 0x20]
  {
    assert DASH[1..] == [0x2D, 0x20] && DASH[1..][1..] == [0x20] && DASH[1..][1..][1..] == [];
  }

  ghost function NameOf(alertname: Runes, summary: Runes, mode: NameMode, digest: Text -> Text): Text
    requires forall s :: IsSuffix(digest(s))
  {
    if !NamesSummary(summary, mode) then EncodeAll(Sanitize(alertname))
    else
      var full := FullName(alertname, summary);
      assert WellFormed(full) by { FullNameIsSafe(alertname, summary); }
      Truncated(full, digest(full))
  }

  /** Two alerts with long names get the same service name if and only if the
      digests of their full names agree, and what is kept of them. */
  lemma AlertsCollideIff(a1: Runes, s1: Runes, a2: Runes, s2: Runes, digest: Text -> Text)
    requires forall s :: IsSuffix(digest(s))
    requires Sanitize(s1) != [] && Sanitize(s2) != []
    requires |FullName(a1, s1)| > MAX_NAME && |FullName(a2, s2)| > MAX_NAME
    ensures WellFormed(FullName(a1, s1)) && WellFormed(FullName(a2, s2))
    ensures var f1, f2 := FullName(a1, s1), FullName(a2, s2);
            NameOf(a1, s1, AlertnameSummary, digest) == NameOf(a2, s2, AlertnameSummary, digest)
            <==> digest(f1) == digest(f2) && Kept(f1) == Kept(f2)
  {
    FullNameIsSafe(a1, s1);
    FullNameIsSafe(a2, s2);
    var f1, f2 := FullName(a1, s1), FullName(a2, s2);
    LongNamesCollideIff(f1, f2, digest(f1), digest(f2));
  }
}
