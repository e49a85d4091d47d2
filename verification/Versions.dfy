/** Version tuples and requirement clauses of the cooldown gate
    (scripts/supply_chain_cooldown.py).
 */
module Versions {
  import opened Wrappers
  import opened Decimals

  function Split(s: string, c: char): (parts: seq<string>)
    ensures parts != []
  {
    if s == "" then [""]
    else
      var rest := Split(s[1..], c);
      if s[0] == c then [""] + rest else [[s[0]] + rest[0]] + rest[1..]
  }

  function Join(parts: seq<string>, c: char): string
    requires parts != []
  {
    if |parts| == 1 then parts[0] else parts[0] + [c] + Join(parts[1..], c)
  }

  /** The parts joined again are the string, and none of them has the separator in it. */
  lemma {:induction false} SplitJoins(s: string, c: char)
    ensures Join(Split(s, c), c) == s
    ensures forall p :: p in Split(s, c) ==> c !in p
  {
    if s != "" {
      SplitJoins(s[1..], c);
      var rest := Split(s[1..], c);
      if s[0] == c {
        assert Split(s, c)[1..] == rest;
      } else {
        var parts := [[s[0]] + rest[0]] + rest[1..];
        assert parts[1..] == rest[1..];
        assert Join(parts, c) == [s[0]] + Join(rest, c);
        assert rest[0] in rest;
        assert forall p :: p in parts ==> p == parts[0] || p in rest;
      }
    }
  }

  /** Dotted decimal numerals and nothing else. */
  predicate IsVersion(v: string) {
    forall i :: 0 <= i < |Split(v, '.')| ==> IsDigits(Split(v, '.')[i])
  }

  /** The release segments as written. */
  ghost function Segments(v: string): (s: seq<nat>)
    requires IsVersion(v)
    ensures |s| == |Split(v, '.')|
  {
    seq(|Split(v, '.')|, i requires 0 <= i < |Split(v, '.')| => Value(Split(v, '.')[i]))
  }

  // ---- The order of versions: missing segments are zero --------------------------------------

  function At(s: seq<nat>, i: nat): nat {
    if i < |s| then s[i] else 0
  }

  ghost predicate Same(a: seq<nat>, b: seq<nat>) {
    forall i :: At(a, i) == At(b, i)
  }

  /** Smaller at the first segment that differs. */
  ghost predicate Older(a: seq<nat>, b: seq<nat>) {
    exists k :: OlderAt(a, b, k)
  }

  ghost predicate OlderAt(a: seq<nat>, b: seq<nat>, k: nat) {
    At(a, k) < At(b, k) && forall i :: 0 <= i < k ==> At(a, i) == At(b, i)
  }

  lemma {:induction false} FirstDifference(a: seq<nat>, b: seq<nat>, n: nat)
    requires At(a, n) != At(b, n)
    ensures Older(a, b) || Older(b, a)
  {
    if i: nat :| i < n && At(a, i) != At(b, i) {
      FirstDifference(a, b, i);
    } else {
      assert OlderAt(a, b, n) || OlderAt(b, a, n);
    }
  }

  /** Of two versions exactly one is older, or they are the same. */
  lemma Trichotomy(a: seq<nat>, b: seq<nat>)
    ensures Older(a, b) || Same(a, b) || Older(b, a)
    ensures !(Older(a, b) && Same(a, b)) && !(Older(a, b) && Older(b, a))
  {
    if !Same(a, b) {
      var n: nat :| At(a, n) != At(b, n);
      FirstDifference(a, b, n);
    }
  }

  lemma OlderIsTransitive(a: seq<nat>, b: seq<nat>, c: seq<nat>)
    requires Older(a, b) && Older(b, c)
    ensures Older(a, c)
  {
    var k: nat :| OlderAt(a, b, k);
    var l: nat :| OlderAt(b, c, l);
    assert OlderAt(a, c, if k < l then k else l);
  }

  lemma SameIsCongruent(a: seq<nat>, b: seq<nat>, c: seq<nat>)
    requires Same(a, b)
    ensures Older(a, c) <==> Older(b, c)
    ensures Older(c, a) <==> Older(c, b)
  {
    forall k: nat ensures OlderAt(a, c, k) <==> OlderAt(b, c, k) {
    }
    forall k: nat ensures OlderAt(c, a, k) <==> OlderAt(c, b, k) {
    }
  }

  // ---- Tuples without their trailing zeros -----------------------------------------------------

  function Stripped(s: seq<nat>): (r: seq<nat>)
    ensures s != [] ==> r != []
  {
    if |s| > 1 && s[|s| - 1] == 0 then Stripped(s[..|s| - 1]) else s
  }

  /** No trailing zero. */
  predicate Trim(s: seq<nat>) {
    s == [] || s[|s| - 1] != 0
  }

  lemma {:induction false} StrippedSame(s: seq<nat>)
    ensures Same(Stripped(s), s)
    ensures |Stripped(s)| <= 1 || Trim(Stripped(s))
  {
    if |s| > 1 && s[|s| - 1] == 0 {
      var t := s[..|s| - 1];
      StrippedSame(t);
      forall i ensures At(Stripped(s), i) == At(s, i) {
        assert At(Stripped(t), i) == At(t, i);
      }
    }
  }

  /** Python's `<` on tuples. */
  predicate TupleLess(a: seq<nat>, b: seq<nat>) {
    b != [] && (a == [] || a[0] < b[0] || (a[0] == b[0] && TupleLess(a[1..], b[1..])))
  }

  function Tail(s: seq<nat>): seq<nat> {
    if s == [] then [] else s[1..]
  }

  lemma OlderStep(a: seq<nat>, b: seq<nat>)
    ensures Older(a, b) <==> At(a, 0) < At(b, 0) || (At(a, 0) == At(b, 0) && Older(Tail(a), Tail(b)))
  {
    if k: nat :| OlderAt(a, b, k) {
      if k > 0 {
        assert forall i :: 0 <= i < k - 1 ==> At(a, i + 1) == At(Tail(a), i) && At(b, i + 1) == At(Tail(b), i);
        assert At(a, 0) == At(b, 0);
        assert OlderAt(Tail(a), Tail(b), k - 1);
      }
    }
    if At(a, 0) < At(b, 0) {
      assert OlderAt(a, b, 0);
    } else if At(a, 0) == At(b, 0) && Older(Tail(a), Tail(b)) {
      var k: nat :| OlderAt(Tail(a), Tail(b), k);
      forall i | 0 <= i < k + 1 ensures At(a, i) == At(b, i) {
        if i > 0 {
          assert At(Tail(a), i - 1) == At(Tail(b), i - 1);
        }
      }
      assert At(a, k + 1) == At(Tail(a), k) && At(b, k + 1) == At(Tail(b), k);
      assert OlderAt(a, b, k + 1);
    }
  }

  lemma {:induction false} TrimOrder(a: seq<nat>, b: seq<nat>)
    requires Trim(a) && Trim(b)
    ensures TupleLess(a, b) <==> Older(a, b)
    decreases |a| + |b|
  {
    OlderStep(a, b);
    if a != [] || b != [] {
      TrimOrder(Tail(a), Tail(b));
    }
  }

  /** On tuples stripped of trailing zeros, Python's comparisons are those of the versions
      padded with zeros to equal length. */
  lemma StrippedOrder(a: seq<nat>, b: seq<nat>)
    requires a != [] && b != []
    ensures TupleLess(Stripped(a), Stripped(b)) <==> Older(a, b)
    ensures Stripped(a) == Stripped(b) <==> Same(a, b)
  {
    var x, y := Stripped(a), Stripped(b);
    StrippedSame(a);
    StrippedSame(b);
    SameIsCongruent(x, a, y);
    SameIsCongruent(y, b, a);
    OlderStep(x, y);
    TrimOrder(x[1..], y[1..]);
    if Same(a, b) {
      Trichotomy(x, y);
      StrippedEqual(x, y);
    }
  }

  lemma StrippedEqual(x: seq<nat>, y: seq<nat>)
    requires x != [] && y != [] && (|x| <= 1 || Trim(x)) && (|y| <= 1 || Trim(y)) && Same(x, y)
    ensures x == y
  {
    assert At(x, |x| - 1) == At(y, |x| - 1) && At(x, |y| - 1) == At(y, |y| - 1);
    assert |x| == |y|;
    forall i | 0 <= i < |x| ensures x[i] == y[i] {
      assert At(x, i) == At(y, i);
    }
  }

  // ---- _numeric_version and _requirement_admits ------------------------------------------------

  method NumericVersion(version: string) returns (r: Result<seq<nat>>)
    ensures r == if IsVersion(version) then Ok(Stripped(Segments(version))) else Raised
  {
    if !IsVersion(version) {
      return Raised;
    }
    var texts := Split(version, '.');
    var parts: seq<nat> := seq(|texts|, i requires 0 <= i < |texts| && IsDigits(texts[i]) => Value(texts[i]));
    assert parts == Segments(version);
    while |parts| > 1 && parts[|parts| - 1] == 0
      invariant parts != [] && Stripped(parts) == Stripped(Segments(version))
    {
      parts := parts[..|parts| - 1];
    }
    return Ok(parts);
  }

  datatype Operator = Ge | Le | Eq | Ne | Lt | Gt

  /** A clause between commas: an operator and a bound, or anything else. */
  datatype Clause = Clause(op: Operator, bound: string) | NoMatch {
    predicate Supported() {
      Clause? && IsVersion(bound)
    }
  }

  /** What a clause says, in the order of versions. */
  ghost predicate Satisfies(v: seq<nat>, op: Operator, bound: seq<nat>) {
    match op
    case Ge => Older(bound, v) || Same(v, bound)
    case Le => Older(v, bound) || Same(v, bound)
    case Eq => Same(v, bound)
    case Ne => !Same(v, bound)
    case Lt => Older(v, bound)
    case Gt => Older(bound, v)
  }

  predicate TupleSatisfies(v: seq<nat>, op: Operator, bound: seq<nat>) {
    match op
    case Ge => !TupleLess(v, bound)
    case Le => !TupleLess(bound, v)
    case Eq => v == bound
    case Ne => v != bound
    case Lt => TupleLess(v, bound)
    case Gt => TupleLess(bound, v)
  }

  lemma TupleSatisfiesIff(v: seq<nat>, op: Operator, bound: seq<nat>)
    requires v != [] && bound != []
    ensures TupleSatisfies(Stripped(v), op, Stripped(bound)) <==> Satisfies(v, op, bound)
  {
    StrippedOrder(v, bound);
    StrippedOrder(bound, v);
    Trichotomy(v, bound);
  }

  ghost predicate Admits(clauses: seq<Clause>, version: string)
    requires IsVersion(version)
  {
    forall c :: c in clauses && c.Supported() ==> Satisfies(Segments(version), c.op, Segments(c.bound))
  }

  /** The conjunction of all clauses; an unsupported clause raises wherever it stands. */
  method RequirementAdmits(clauses: seq<Clause>, version: string) returns (r: Result<bool>)
    ensures r.Raised? <==> !IsVersion(version) || exists c :: c in clauses && !c.Supported()
    ensures r.Ok? ==> IsVersion(version) && (r.value <==> Admits(clauses, version))
  {
    var target := NumericVersion(version);
    if target.Raised? {
      return Raised;
    }
    var admitted := true;
    for k := 0 to |clauses|
      invariant forall c :: c in clauses[..k] ==> c.Supported()
      invariant admitted <==> Admits(clauses[..k], version)
    {
      var clause := clauses[k];
      if clause.NoMatch? || !IsVersion(clause.bound) {
        assert clause in clauses;
        return Raised;
      }
      var bound := NumericVersion(clause.bound);
      TupleSatisfiesIff(Segments(version), clause.op, Segments(clause.bound));
      admitted := admitted && TupleSatisfies(target.value, clause.op, bound.value);
      assert clauses[..k + 1] == clauses[..k] + [clause];
    }
    assert clauses[..|clauses|] == clauses;
    return Ok(admitted);
  }

  // ---- A trailing ".0" changes nothing -----------------------------------------------------------

  lemma {:induction false} SplitDotZero(v: string)
    ensures Split(v + ".0", '.') == Split(v, '.') + ["0"]
  {
    if v == "" {
      assert v + ".0" == ".0";
      assert ".0"[1..] == "0" && "0"[1..] == "";
      assert Split("", '.') == [""];
      assert Split("0", '.') == [['0'] + ""] + [];
      assert ['0'] + "" == "0";
      assert Split(".0", '.') == [""] + Split("0", '.');
    } else {
      assert (v + ".0")[1..] == v[1..] + ".0";
      SplitDotZero(v[1..]);
    }
  }

  lemma DotZeroSame(v: string)
    requires IsVersion(v)
    ensures IsVersion(v + ".0") && Same(Segments(v + ".0"), Segments(v))
  {
    SplitDotZero(v);
    var texts := Split(v, '.');
    assert IsDigits("0") && Value("0") == 0 by {
      assert "0"[..0] == "";
    }
    assert forall i :: 0 <= i < |texts| ==> Split(v + ".0", '.')[i] == texts[i];
    assert Split(v + ".0", '.')[|texts|] == "0";
  }

  /** 1.4 and 1.4.0 satisfy the same requirements. */
  lemma DotZeroAdmitted(clauses: seq<Clause>, v: string)
    requires IsVersion(v)
    ensures IsVersion(v + ".0") && (Admits(clauses, v + ".0") <==> Admits(clauses, v))
  {
    DotZeroSame(v);
    var a, b := Segments(v + ".0"), Segments(v);
    forall c: Clause | c.Supported()
      ensures Satisfies(a, c.op, Segments(c.bound)) <==> Satisfies(b, c.op, Segments(c.bound))
    {
      SameIsCongruent(a, b, Segments(c.bound));
    }
  }
}
