/** The single-range `Range` header parser (api/src/mc_server_dashboard_api/http_range.py),
    against the grammar of sections 14.1.1, 14.1.2 and 14.2 of RFC 9110.
 */
module ByteRanges {
  import opened Wrappers
  import opened Decimals

  /** Whole: 200; Part: 206 with inclusive positions; Unsatisfiable: 416. */
  datatype Outcome = Whole | Part(start: nat, end: nat) | Unsatisfiable

  // ---- str.strip, str.lower, str.partition -----------------------------------------------

  /** Python's whitespace. */
  predicate IsSpace(c: char) {
    var u := c as int;
    || 0x09 <= u <= 0x0D || 0x1C <= u <= 0x20 || u == 0x85 || u == 0xA0 || u == 0x1680
    || 0x2000 <= u <= 0x200A || u == 0x2028 || u == 0x2029 || u == 0x202F || u == 0x205F || u == 0x3000
  }

  predicate Blank(s: string) {
    forall i :: 0 <= i < |s| ==> IsSpace(s[i])
  }

  function LStrip(s: string): string {
    if s != "" && IsSpace(s[0]) then LStrip(s[1..]) else s
  }

  function RStrip(s: string): string {
    if s != "" && IsSpace(s[|s| - 1]) then RStrip(s[..|s| - 1]) else s
  }

  function Strip(s: string): string {
    RStrip(LStrip(s))
  }

  /** Only ASCII letters lower to ASCII letters of "bytes". */
  function Lower(s: string): string {
    seq(|s|, i requires 0 <= i < |s| => if 'A' <= s[i] <= 'Z' then s[i] + 32 as char else s[i])
  }

  /** The index of the first `c`, or the length. */
  function Find(s: string, c: char): (n: nat)
    ensures n <= |s| && c !in s[..n] && (n < |s| ==> s[n] == c)
  {
    if s == "" || s[0] == c then 0
    else
      var n := Find(s[1..], c) + 1;
      assert s[..n] == [s[0]] + s[1..][..n - 1];
      n
  }

  // ---- The parser ---------------------------------------------------------------------------

  /** A part always lies inside the representation. */
  function ParseByteRange(header: Option<string>, size: nat): (r: Outcome)
    ensures r.Part? ==> r.start <= r.end < size
    ensures header.None? ==> r.Whole?
  {
    if header.None? then Whole
    else
      var text := Strip(header.value);
      var eq := Find(text, '=');
      if eq == |text| || Lower(Strip(text[..eq])) != "bytes" then Whole
      else
        var spec := Strip(text[eq + 1..]);
        if ',' in spec then Whole
        else
          var dash := Find(spec, '-');
          if dash == |spec| then Whole
          else
            var first, last := Strip(spec[..dash]), Strip(spec[dash + 1..]);
            if first == "" then SuffixRange(last, size)
            else if !IsDigits(first) || (last != "" && !IsDigits(last)) then Whole
            else
              var start := Value(first);
              if last != "" && Value(last) < start then Whole
              else if start >= size then Unsatisfiable
              else Part(start, if last == "" then size - 1 else Min(Value(last), size - 1))
  }

  function SuffixRange(last: string, size: nat): Outcome {
    if !IsDigits(last) then Whole
    else
      var suffix := Value(last);
      if suffix == 0 || size == 0 then Unsatisfiable
      else Part(if suffix <= size then size - suffix else 0, size - 1)
  }

  function Min(a: nat, b: nat): nat {
    if a < b then a else b
  }

  // ---- The grammar ------------------------------------------------------------------------------

  /** int-range and suffix-range. */
  datatype Spec = IntRange(first: nat, last: Option<nat>) | SuffixLength(length: nat)

  /** A header taken apart: the range unit and the two positions, each with the whitespace
      the parser tolerates around it. */
  datatype Parts = Parts(
    w0: string, unit: string, w1: string,
    w2: string, first: string, w3: string,
    w4: string, last: string, w5: string
  ) {
    function Text(): string {
      w0 + unit + w1 + "=" + w2 + first + w3 + "-" + w4 + last + w5
    }

    /** A bytes unit, and an int-range or a suffix-range. */
    ghost predicate Ok() {
      && Blank(w0) && Blank(w1) && Blank(w2) && Blank(w3) && Blank(w4) && Blank(w5)
      && Lower(unit) == "bytes"
      && (first == "" || IsDigits(first)) && (last == "" || IsDigits(last))
      && (first != "" || last != "")
    }

    ghost function Meaning(): Spec
      requires Ok()
    {
      if first == "" then SuffixLength(Value(last))
      else IntRange(Value(first), if last == "" then None else Some(Value(last)))
    }
  }

  /** What a range means for a representation of `size` bytes: an inverted int-range is
      invalid and ignored; a suffix longer than the representation is all of it. An empty
      representation satisfies no range, here as in the code. */
  function Resolve(spec: Spec, size: nat): Outcome {
    match spec
    case IntRange(f, last) =>
      if last.Some? && last.value < f then Whole
      else if f >= size then Unsatisfiable
      else Part(f, if last.None? then size - 1 else Min(last.value, size - 1))
    case SuffixLength(n) =>
      if n == 0 || size == 0 then Unsatisfiable
      else Part(if n <= size then size - n else 0, size - 1)
  }

  // ---- Lemmas on strings ----------------------------------------------------------------------------

  lemma {:induction false} LStripBlank(w: string, s: string)
    requires Blank(w) && (s == "" || !IsSpace(s[0]))
    ensures LStrip(w + s) == s
  {
    if w == "" {
      assert w + s == s;
    } else {
      assert (w + s)[1..] == w[1..] + s;
      LStripBlank(w[1..], s);
    }
  }

  lemma {:induction false} RStripBlank(s: string, w: string)
    requires Blank(w) && (s == "" || !IsSpace(s[|s| - 1]))
    ensures RStrip(s + w) == s
  {
    if w == "" {
      assert s + w == s;
    } else {
      assert (s + w)[..|s + w| - 1] == s + w[..|w| - 1];
      RStripBlank(s, w[..|w| - 1]);
    }
  }

  /** A string that does not start or end with whitespace. */
  predicate Tight(s: string) {
    s != "" ==> !IsSpace(s[0]) && !IsSpace(s[|s| - 1])
  }

  lemma StripTight(w: string, s: string, v: string)
    requires Blank(w) && Blank(v) && Tight(s)
    ensures Strip(w + s + v) == s
  {
    if s == "" {
      assert w + s + v == (w + v) + "";
      LStripBlank(w + v, "");
    } else {
      assert w + s + v == w + (s + v);
      LStripBlank(w, s + v);
      RStripBlank(s, v);
    }
  }

  lemma {:induction false} LStripSplit(s: string) returns (w: string)
    ensures Blank(w) && s == w + LStrip(s)
    ensures LStrip(s) == "" || !IsSpace(LStrip(s)[0])
  {
    w := "";
    if s != "" && IsSpace(s[0]) {
      var v := LStripSplit(s[1..]);
      w := [s[0]] + v;
    }
  }

  lemma {:induction false} RStripSplit(s: string) returns (w: string)
    ensures Blank(w) && s == RStrip(s) + w
    ensures RStrip(s) == "" || !IsSpace(RStrip(s)[|RStrip(s)| - 1])
  {
    w := "";
    if s != "" && IsSpace(s[|s| - 1]) {
      var v := RStripSplit(s[..|s| - 1]);
      w := v + [s[|s| - 1]];
    }
  }

  /** `strip` removes whitespace on both sides and nothing else. */
  lemma StripSplit(s: string) returns (w: string, v: string)
    ensures Blank(w) && Blank(v) && s == w + Strip(s) + v
  {
    w := LStripSplit(s);
    v := RStripSplit(LStrip(s));
  }

  lemma {:induction false} FindFirst(a: string, c: char, b: string)
    requires c !in a
    ensures Find(a + [c] + b, c) == |a|
  {
    if a == "" {
      assert a + [c] + b == [c] + b;
    } else {
      assert (a + [c] + b)[1..] == a[1..] + [c] + b;
      FindFirst(a[1..], c, b);
    }
  }

  // ---- Every well-formed header is read as the grammar says ---------------------------------------

  /** Whitespace around an absent position belongs to either side; put it outside. */
  function Normal(p: Parts): Parts {
    var q := if p.first == "" then p.(w2 := p.w2 + p.w3, w3 := "") else p;
    if q.last == "" then q.(w4 := "", w5 := q.w4 + q.w5) else q
  }

  lemma NormalSame(p: Parts)
    requires p.Ok()
    ensures Normal(p).Ok() && Normal(p).Text() == p.Text() && Normal(p).Meaning() == p.Meaning()
  {
    var q := if p.first == "" then p.(w2 := p.w2 + p.w3, w3 := "") else p;
    assert q.Text() == p.Text();
    assert Normal(p).Text() == q.Text();
  }

  predicate IsNormal(p: Parts) {
    (p.first == "" ==> p.w3 == "") && (p.last == "" ==> p.w4 == "")
  }

  /** Neither whitespace nor digits nor the unit hide a separator. */
  lemma NoSeparators(p: Parts)
    requires p.Ok()
    ensures forall c :: c == '=' || c == '-' || c == ',' ==>
              c !in p.unit && c !in p.first && c !in p.last
              && c !in p.w1 && c !in p.w2 && c !in p.w3 && c !in p.w4
    ensures p.unit != "" && Tight(p.unit) && Tight(p.first) && Tight(p.last)
  {
    UnitIsLetters(p.unit);
  }

  lemma UnitIsLetters(unit: string)
    requires Lower(unit) == "bytes"
    ensures |unit| == 5
    ensures forall i :: 0 <= i < |unit| ==> 'A' <= unit[i] <= 'Z' || 'a' <= unit[i] <= 'z'
  {
    assert |Lower(unit)| == |unit|;
    forall i | 0 <= i < |unit| ensures 'A' <= unit[i] <= 'Z' || 'a' <= unit[i] <= 'z' {
      assert Lower(unit)[i] == "bytes"[i];
    }
  }

  function Tail(p: Parts): string {
    p.first + p.w3 + "-" + p.w4 + p.last
  }

  function Left(p: Parts): string {
    p.unit + p.w1
  }

  function Right(p: Parts): string {
    p.w2 + Tail(p)
  }

  /** The outer strip. */
  lemma OuterStrip(p: Parts)
    requires p.Ok() && IsNormal(p)
    ensures Strip(p.Text()) == Left(p) + ['='] + Right(p)
  {
    NoSeparators(p);
    var text := Left(p) + ['='] + Right(p);
    TextIs(p);
    assert text[0] == p.unit[0];
    TailEnds(p);
    assert text[|text| - 1] == Tail(p)[|Tail(p)| - 1];
    StripTight(p.w0, text, p.w5);
  }

  lemma TextIs(p: Parts)
    ensures p.Text() == p.w0 + (Left(p) + ['='] + Right(p)) + p.w5
  {
  }

  lemma TailEnds(p: Parts)
    requires p.Ok() && IsNormal(p)
    ensures Tail(p) != "" && !IsSpace(Tail(p)[|Tail(p)| - 1])
  {
    NoSeparators(p);
    if p.last == "" {
      assert Tail(p) == p.first + p.w3 + "-";
    }
  }

  /** The split at "=". */
  lemma SplitAtEquals(p: Parts)
    requires p.Ok() && IsNormal(p)
    ensures
      var text := Left(p) + ['='] + Right(p);
      var eq := Find(text, '=');
      && eq < |text| && text[..eq] == Left(p) && text[eq + 1..] == Right(p)
  {
    NoSeparators(p);
    FindFirst(Left(p), '=', Right(p));
  }

  lemma HeadOfParts(p: Parts)
    requires p.Ok() && IsNormal(p)
    ensures
      var text := Strip(p.Text());
      var eq := Find(text, '=');
      && eq < |text| && Strip(text[..eq]) == p.unit && Strip(text[eq + 1..]) == Tail(p)
  {
    OuterStrip(p);
    SplitAtEquals(p);
    StripSides(p);
  }

  lemma StripSides(p: Parts)
    requires p.Ok() && IsNormal(p)
    ensures Strip(Left(p)) == p.unit && Strip(Right(p)) == Tail(p)
  {
    NoSeparators(p);
    TailEnds(p);
    assert Left(p) == "" + p.unit + p.w1 && Right(p) == p.w2 + Tail(p) + "";
    StripTight("", p.unit, p.w1);
    TailStarts(p);
    StripTight(p.w2, Tail(p), "");
  }

  lemma TailStarts(p: Parts)
    requires p.Ok() && IsNormal(p)
    ensures Tail(p) != "" && !IsSpace(Tail(p)[0])
  {
    NoSeparators(p);
    if p.first == "" {
      assert Tail(p) == "-" + p.w4 + p.last;
    }
  }

  /** The split at "-". */
  lemma TailOfParts(p: Parts)
    requires p.Ok() && IsNormal(p)
    ensures ',' !in Tail(p)
    ensures
      var dash := Find(Tail(p), '-');
      && dash < |Tail(p)| && Strip(Tail(p)[..dash]) == p.first && Strip(Tail(p)[dash + 1..]) == p.last
  {
    NoSeparators(p);
    var left, right := p.first + p.w3, p.w4 + p.last;
    assert Tail(p) == left + ['-'] + right;
    FindFirst(left, '-', right);
    assert Tail(p)[..|left|] == left && Tail(p)[|left| + 1..] == right;
    assert left == "" + p.first + p.w3 && right == p.w4 + p.last + "";
    StripTight("", p.first, p.w3);
    StripTight(p.w4, p.last, "");
  }

  /** The header splits into a bytes unit and these two positions. */
  predicate SplitsInto(h: string, first: string, last: string) {
    var text := Strip(h);
    var eq := Find(text, '=');
    && eq < |text| && Lower(Strip(text[..eq])) == "bytes"
    && var spec := Strip(text[eq + 1..]);
       var dash := Find(spec, '-');
       ',' !in spec && dash < |spec| && Strip(spec[..dash]) == first && Strip(spec[dash + 1..]) == last
  }

  lemma NormalPartsSplit(p: Parts)
    requires p.Ok() && IsNormal(p)
    ensures SplitsInto(p.Text(), p.first, p.last)
  {
    HeadOfParts(p);
    TailOfParts(p);
  }

  lemma SuffixParsed(h: string, last: string, size: nat)
    requires SplitsInto(h, "", last) && IsDigits(last)
    ensures ParseByteRange(Some(h), size) == Resolve(SuffixLength(Value(last)), size)
  {
  }

  lemma IntParsed(h: string, first: string, last: string, size: nat)
    requires SplitsInto(h, first, last) && IsDigits(first) && (last == "" || IsDigits(last))
    ensures ParseByteRange(Some(h), size)
         == Resolve(IntRange(Value(first), if last == "" then None else Some(Value(last))), size)
  {
  }

  lemma NormalPartsAreParsed(p: Parts, size: nat)
    requires p.Ok() && IsNormal(p)
    ensures ParseByteRange(Some(p.Text()), size) == Resolve(p.Meaning(), size)
  {
    NormalPartsSplit(p);
    if p.first == "" {
      SuffixParsed(p.Text(), p.last, size);
    } else {
      IntParsed(p.Text(), p.first, p.last, size);
    }
  }

  lemma PartsAreParsed(p: Parts, size: nat)
    requires p.Ok()
    ensures ParseByteRange(Some(p.Text()), size) == Resolve(p.Meaning(), size)
  {
    NormalSame(p);
    NormalPartsAreParsed(Normal(p), size);
  }

  // ---- Nothing else is read as a range ----------------------------------------------------------------

  lemma SplitAt(s: string, c: char)
    requires Find(s, c) < |s|
    ensures s == s[..Find(s, c)] + [c] + s[Find(s, c) + 1..]
  {
  }

  /** The positions are those of an int-range or of a suffix-range. */
  predicate ArePositions(first: string, last: string) {
    (first == "" || IsDigits(first)) && (last == "" || IsDigits(last)) && (first != "" || last != "")
  }

  lemma ParsedSplits(h: string, size: nat) returns (first: string, last: string)
    requires ParseByteRange(Some(h), size) != Whole
    ensures SplitsInto(h, first, last) && ArePositions(first, last)
  {
    var text := Strip(h);
    var spec := Strip(text[Find(text, '=') + 1..]);
    var dash := Find(spec, '-');
    first, last := Strip(spec[..dash]), Strip(spec[dash + 1..]);
  }

  lemma SpecSplits(spec: string) returns (f0: string, f1: string, l0: string, l1: string)
    requires Find(spec, '-') < |spec|
    ensures Blank(f0) && Blank(f1) && Blank(l0) && Blank(l1)
    ensures var dash := Find(spec, '-');
            spec == (f0 + Strip(spec[..dash]) + f1) + "-" + (l0 + Strip(spec[dash + 1..]) + l1)
  {
    var dash := Find(spec, '-');
    f0, f1 := StripSplit(spec[..dash]);
    l0, l1 := StripSplit(spec[dash + 1..]);
    SplitAt(spec, '-');
  }

  lemma TextSplits(text: string) returns (u0: string, u1: string, s0: string, s1: string)
    requires Find(text, '=') < |text|
    ensures Blank(u0) && Blank(u1) && Blank(s0) && Blank(s1)
    ensures var eq := Find(text, '=');
            text == (u0 + Strip(text[..eq]) + u1) + "=" + (s0 + Strip(text[eq + 1..]) + s1)
  {
    var eq := Find(text, '=');
    u0, u1 := StripSplit(text[..eq]);
    s0, s1 := StripSplit(text[eq + 1..]);
    SplitAt(text, '=');
  }

  /** A header that is answered with a part or a 416 has the grammar's form. */
  lemma ParsedHasParts(h: string, size: nat) returns (p: Parts)
    requires ParseByteRange(Some(h), size) != Whole
    ensures p.Ok() && p.Text() == h
  {
    var first, last := ParsedSplits(h, size);
    p := PartsOf(h, first, last);
  }

  lemma PartsOf(h: string, first: string, last: string) returns (p: Parts)
    requires SplitsInto(h, first, last) && ArePositions(first, last)
    ensures p.Ok() && p.Text() == h
  {
    var text := Strip(h);
    var eq := Find(text, '=');
    var unit, spec := Strip(text[..eq]), Strip(text[eq + 1..]);
    var w0, w5 := StripSplit(h);
    var u0, u1, s0, s1 := TextSplits(text);
    var f0, f1, l0, l1 := SpecSplits(spec);
    p := Assembled(h, text, w0, w5, unit, u0, u1, spec, s0, s1, first, f0, f1, last, l0, l1);
  }

  lemma Assembled(h: string, text: string, w0: string, w5: string, unit: string, u0: string, u1: string,
                  spec: string, s0: string, s1: string, first: string, f0: string, f1: string,
                  last: string, l0: string, l1: string) returns (p: Parts)
    requires Blank(w0) && Blank(w5) && Blank(u0) && Blank(u1) && Blank(s0) && Blank(s1)
    requires Blank(f0) && Blank(f1) && Blank(l0) && Blank(l1)
    requires Lower(unit) == "bytes" && ArePositions(first, last)
    requires h == w0 + text + w5
    requires text == (u0 + unit + u1) + "=" + (s0 + spec + s1)
    requires spec == (f0 + first + f1) + "-" + (l0 + last + l1)
    ensures p.Ok() && p.Text() == h
  {
    p := Parts(w0 + u0, unit, u1, s0 + f0, first, f1, l0, last, l1 + s1 + w5);
    Reassemble(h, text, spec, w0, w5, s0, s1, p, u0, u1, f0, f1, l0, l1);
  }

  lemma Reassemble(h: string, text: string, spec: string, w0: string, w5: string, s0: string, s1: string, p: Parts,
                   u0: string, u1: string, f0: string, f1: string, l0: string, l1: string)
    requires h == w0 + text + w5
    requires text == (u0 + p.unit + u1) + "=" + (s0 + spec + s1)
    requires spec == (f0 + p.first + f1) + "-" + (l0 + p.last + l1)
    requires p.w0 == w0 + u0 && p.w1 == u1 && p.w2 == s0 + f0 && p.w3 == f1 && p.w4 == l0 && p.w5 == l1 + s1 + w5
    ensures p.Text() == h
  {
  }

  /** The header denotes `spec`. */
  ghost predicate Denotes(h: string, spec: Spec) {
    exists p: Parts :: p.Ok() && p.Text() == h && p.Meaning() == spec
  }

  // ---- Main results ---------------------------------------------------------------------------------------

  /** The parser is the grammar: a header that denotes a range gets that range's outcome, and
      any other header is ignored. */
  lemma ParserMeetsGrammar(h: string, size: nat)
    ensures forall spec :: Denotes(h, spec) ==> ParseByteRange(Some(h), size) == Resolve(spec, size)
    ensures (forall spec :: !Denotes(h, spec)) ==> ParseByteRange(Some(h), size) == Whole
  {
    forall spec | Denotes(h, spec) ensures ParseByteRange(Some(h), size) == Resolve(spec, size) {
      var p: Parts :| p.Ok() && p.Text() == h && p.Meaning() == spec;
      PartsAreParsed(p, size);
    }
    if ParseByteRange(Some(h), size) != Whole {
      var p := ParsedHasParts(h, size);
      assert Denotes(h, p.Meaning());
    }
  }

  /** 416 exactly for a well-formed range that this representation cannot satisfy. */
  lemma UnsatisfiableExactly(h: string, size: nat)
    ensures ParseByteRange(Some(h), size).Unsatisfiable? <==>
            exists spec :: Denotes(h, spec) &&
              match spec
              case IntRange(f, last) => f >= size && (last.None? || f <= last.value)
              case SuffixLength(n) => n == 0 || size == 0
  {
    ParserMeetsGrammar(h, size);
    if ParseByteRange(Some(h), size) != Whole {
      var p := ParsedHasParts(h, size);
      assert Denotes(h, p.Meaning());
    }
  }

  /** The unit is "bytes" in any case. */
  lemma UnitIff(unit: string)
    ensures Lower(unit) == "bytes" <==>
            && |unit| == 5
            && (unit[0] == 'b' || unit[0] == 'B') && (unit[1] == 'y' || unit[1] == 'Y')
            && (unit[2] == 't' || unit[2] == 'T') && (unit[3] == 'e' || unit[3] == 'E')
            && (unit[4] == 's' || unit[4] == 'S')
  {
    assert |Lower(unit)| == |unit|;
    if Lower(unit) == "bytes" {
      LowerAt(unit, 0, 'b', 'B');
      LowerAt(unit, 1, 'y', 'Y');
      LowerAt(unit, 2, 't', 'T');
      LowerAt(unit, 3, 'e', 'E');
      LowerAt(unit, 4, 's', 'S');
    }
  }

  lemma LowerAt(unit: string, i: nat, small: char, large: char)
    requires Lower(unit) == "bytes" && i < |unit| == 5 && "bytes"[i] == small
    requires 'a' <= small <= 'z' && large as int + 32 == small as int
    ensures unit[i] == small || unit[i] == large
  {
    assert Lower(unit)[i] == small;
  }

  /** Optional whitespace, section 5.6.3 of RFC 9110, is tolerated around every part. */
  lemma OptionalWhitespaceIsBlank(w: string)
    requires forall i :: 0 <= i < |w| ==> w[i] == ' ' || w[i] == '\t'
    ensures Blank(w)
  {
  }

  // ---- What a range selects ------------------------------------------------------------------------------

  /** The position is one that the range asks for and the representation has. */
  predicate Selects(spec: Spec, size: nat, k: nat) {
    match spec
    case IntRange(f, last) => f <= k < size && (last.None? || k <= last.value)
    case SuffixLength(n) => size - n <= k < size
  }

  /** The parser answers a header that denotes a valid range by what the range selects: with exactly
      those positions, or with 416 if there are none. An invalid range is ignored. */
  lemma ParserServesSelected(h: string, spec: Spec, size: nat)
    requires Denotes(h, spec)
    ensures var r := ParseByteRange(Some(h), size);
            && (r.Whole? <==> !IsValid(spec))
            && (r.Unsatisfiable? <==> IsValid(spec) && forall k: nat :: !Selects(spec, size, k))
            && (r.Part? ==> forall k: nat :: r.start <= k <= r.end <==> Selects(spec, size, k))
  {
    ParserMeetsGrammar(h, size);
    ResolveSelects(spec, size);
  }

  lemma ResolveSelects(spec: Spec, size: nat)
    ensures var r := Resolve(spec, size);
            && (r.Whole? <==> !IsValid(spec))
            && (r.Unsatisfiable? <==> IsValid(spec) && forall k: nat :: !Selects(spec, size, k))
            && (r.Part? ==> forall k: nat :: r.start <= k <= r.end <==> Selects(spec, size, k))
  {
    var r := Resolve(spec, size);
    if r.Part? {
      assert Selects(spec, size, r.start);
    }
  }

  // ---- Where the parser leaves the standard -------------------------------------------------------------

  /** An int-range does not end before it starts. */
  predicate IsValid(spec: Spec) {
    spec.IntRange? && spec.last.Some? ==> spec.first <= spec.last.value
  }

  /** Section 14.1.2 of RFC 9110: an int-range is satisfiable if it starts inside the
      representation, a suffix-range if its length is not zero. */
  predicate IsSatisfiable(spec: Spec, size: nat) {
    match spec
    case IntRange(f, _) => f < size
    case SuffixLength(n) => n != 0
  }

  /** The parser answers 416 exactly for the ranges that the standard calls unsatisfiable, if and
      only if the range is not a suffix of non-zero length of an empty representation. */
  lemma MeetsStandardIff(h: string, spec: Spec, size: nat)
    requires Denotes(h, spec) && IsValid(spec)
    ensures (ParseByteRange(Some(h), size).Unsatisfiable? <==> !IsSatisfiable(spec, size))
       <==> !(spec.SuffixLength? && spec.length != 0 && size == 0)
  {
    ParserMeetsGrammar(h, size);
  }

  /** The departure: `bytes=-1` of an empty representation. */
  lemma EmptySuffixDeparts()
    ensures Denotes("bytes=-1", SuffixLength(1)) && IsSatisfiable(SuffixLength(1), 0)
    ensures ParseByteRange(Some("bytes=-1"), 0).Unsatisfiable?
  {
    LastByte();
    MeetsStandardIff("bytes=-1", SuffixLength(1), 0);
  }

  lemma LastByte()
    ensures Denotes("bytes=-1", SuffixLength(1))
  {
    var p := Parts("", "bytes", "", "", "", "", "", "1", "");
    Concatenated("", "1");
    assert p.Text() == "bytes=" + "" + "-" + "1";
    LastByteMeans(p);
  }

  lemma LastByteMeans(p: Parts)
    requires p == Parts("", "bytes", "", "", "", "", "", "1", "")
    ensures p.Ok() && p.Meaning() == SuffixLength(1)
  {
    assert Lower("bytes") == "bytes";
    assert "1"[..0] == "" && Value("1") == 1;
  }

  // ---- Printing and resuming ---------------------------------------------------------------------------------

  /** The header a client writes for the positions a to b, or from a on. */
  function Print(a: nat, b: Option<nat>): string {
    "bytes=" + Numeral(a) + "-" + if b.None? then "" else Numeral(b.value)
  }

  lemma PrintDenotes(a: nat, b: Option<nat>)
    ensures Denotes(Print(a, b), IntRange(a, b))
  {
    PrintedText(a, b);
    PrintedMeaning(a, b);
    assert Printed(a, b).Ok();
  }

  function Printed(a: nat, b: Option<nat>): Parts {
    Parts("", "bytes", "", "", Numeral(a), "", "", if b.None? then "" else Numeral(b.value), "")
  }

  lemma PrintedText(a: nat, b: Option<nat>)
    ensures Printed(a, b).Text() == Print(a, b)
  {
    var last := if b.None? then "" else Numeral(b.value);
    Concatenated(Numeral(a), last);
  }

  lemma Concatenated(first: string, last: string)
    ensures "" + "bytes" + "" + "=" + "" + first + "" + "-" + "" + last + "" == "bytes=" + first + "-" + last
  {
    assert "bytes=" == "bytes" + "=";
  }

  lemma PrintedMeaning(a: nat, b: Option<nat>)
    ensures Printed(a, b).Ok() && Printed(a, b).Meaning() == IntRange(a, b)
  {
    assert Lower("bytes") == "bytes";
    ValueOfNumeral(a);
    if b.Some? {
      ValueOfNumeral(b.value);
    }
  }

  /** What a client prints is what the server serves: up to the last position asked for, if the
      representation has it, and to its end otherwise. */
  lemma PrintParse(a: nat, b: nat, size: nat)
    requires a <= b && a < size
    ensures b < size ==> ParseByteRange(Some(Print(a, Some(b))), size) == Part(a, b)
    ensures b >= size ==> ParseByteRange(Some(Print(a, Some(b))), size) == Part(a, size - 1)
  {
    PrintDenotes(a, Some(b));
    ParserMeetsGrammar(Print(a, Some(b)), size);
  }

  /** So it carries exactly the bytes of the positions asked for that exist. */
  lemma PrintedBytes<T>(content: seq<T>, a: nat, b: nat, r: Outcome)
    requires a <= b && a < |content| && r == ParseByteRange(Some(Print(a, Some(b))), |content|)
    ensures r.Part? && r.start <= r.end < |content|
    ensures Slice(content, r) == if b < |content| then content[a..b + 1] else content[a..]
  {
    PrintParse(a, b, |content|);
  }

  function PrintSuffix(n: nat): string {
    "bytes=-" + Numeral(n)
  }

  lemma SuffixDenotes(n: nat)
    ensures Denotes(PrintSuffix(n), SuffixLength(n))
  {
    var p := Parts("", "bytes", "", "", "", "", "", Numeral(n), "");
    Concatenated("", Numeral(n));
    SuffixText(Numeral(n));
    SuffixMeans(p, n);
  }

  lemma SuffixText(last: string)
    ensures "bytes=" + "" + "-" + last == "bytes=-" + last
  {
    assert "bytes=" + "" + "-" == "bytes=-";
  }

  lemma SuffixMeans(p: Parts, n: nat)
    requires p == Parts("", "bytes", "", "", "", "", "", Numeral(n), "")
    ensures p.Ok() && p.Meaning() == SuffixLength(n)
  {
    assert Lower("bytes") == "bytes";
    ValueOfNumeral(n);
  }

  /** A suffix is the last bytes of the representation: as many as were asked for, or all. */
  lemma SuffixBytes<T>(content: seq<T>, n: nat, r: Outcome)
    requires 0 < n && content != [] && r == ParseByteRange(Some(PrintSuffix(n)), |content|)
    ensures r.Part? && r.start <= r.end < |content|
    ensures Slice(content, r) == if n <= |content| then content[|content| - n..] else content
  {
    SuffixPart(n, |content|);
    LastBytes(content, n);
  }

  lemma SuffixPart(n: nat, size: nat)
    requires 0 < n && 0 < size
    ensures ParseByteRange(Some(PrintSuffix(n)), size) == Part(if n <= size then size - n else 0, size - 1)
  {
    SuffixDenotes(n);
    ParserMeetsGrammar(PrintSuffix(n), size);
  }

  lemma LastBytes<T>(content: seq<T>, n: nat)
    requires 0 < n && content != []
    ensures var r := Part(if n <= |content| then |content| - n else 0, |content| - 1);
            Slice(content, r) == if n <= |content| then content[|content| - n..] else content
  {
  }

  lemma ResumePart(n: nat, size: nat)
    requires n < size
    ensures ParseByteRange(Some(Print(n, None)), size) == Part(n, size - 1)
  {
    PrintDenotes(n, None);
    ParserMeetsGrammar(Print(n, None), size);
  }

  /** The bytes a 206 carries. */
  function Slice<T>(content: seq<T>, r: Outcome): seq<T>
    requires r.Part? && r.start <= r.end < |content|
  {
    content[r.start..r.end + 1]
  }

  /** Resuming an interrupted download: the first n bytes and the part served for `bytes=n-`
      are the representation. */
  lemma ResumeRebuilds<T>(content: seq<T>, n: nat, r: Outcome)
    requires n < |content| && r == ParseByteRange(Some(Print(n, None)), |content|)
    ensures r.Part? && r.start <= r.end < |content| && content[..n] + Slice(content, r) == content
  {
    ResumePart(n, |content|);
    PrefixAndRest(content, n);
  }

  lemma PrefixAndRest<T>(content: seq<T>, n: nat)
    requires n < |content|
    ensures content[..n] + Slice(content, Part(n, |content| - 1)) == content
  {
  }
}
