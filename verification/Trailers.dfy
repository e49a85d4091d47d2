/** The check of a Dependabot commit trailer against the pins that the pull request changes
    (scripts/supply_chain_cooldown.py).
 */
module Trailers {
  import opened Wrappers
  import opened Versions
  import opened Dependencies

  // ---- _pip_requirement_update ------------------------------------------------------------------

  ghost predicate AdmitsSpec(spec: Spec, version: string) {
    && IsVersion(version) && (forall c :: c in spec.clauses ==> c.Supported())
    && Admits(spec.clauses, version)
  }

  /** Some bound is this version, in the order of versions. */
  ghost predicate Names(bounds: set<string>, version: string) {
    IsVersion(version) && exists b :: b in bounds && IsVersion(b) && Same(Segments(version), Segments(b))
  }

  ghost predicate NamedBefore(before: set<Spec>, version: string) {
    exists o :: o in before && Names(o.bounds, version)
  }

  ghost predicate AdmittedBefore(before: set<Spec>, version: string) {
    exists o :: o in before && AdmitsSpec(o, version)
  }

  /** A new requirement admits the version, and either names it where none did or admits it
      where none did. */
  ghost predicate Moves(specs: Change<set<Spec>>, spec: Spec, version: string) {
    && spec in specs.after && spec !in specs.before && AdmitsSpec(spec, version)
    && ((Names(spec.bounds, version) && !NamedBefore(specs.before, version)) || !AdmittedBefore(specs.before, version))
  }

  ghost predicate MovesIn(m: Manifest, name: string, version: string) {
    IsPyproject(m) && m.specs(name).Ok? && exists spec :: Moves(m.specs(name).value, spec, version)
  }

  /** The requirement uses nothing but supported clauses and numeric versions. */
  ghost predicate Plain(spec: Spec) {
    (forall c :: c in spec.clauses ==> c.Supported()) && (forall b :: b in spec.bounds ==> IsVersion(b))
  }

  ghost predicate AllPlain(specs: set<Spec>) {
    forall s :: s in specs ==> Plain(s)
  }

  /** Nothing that the requirements need to be read for fails to be read. */
  ghost predicate RequirementsReadable(ms: seq<Manifest>, name: string, version: string) {
    && IsVersion(version)
    && forall m :: m in ms && IsPyproject(m) ==>
         m.specs(name).Ok? && AllPlain(m.specs(name).value.before) && AllPlain(m.specs(name).value.after)
  }

  method NamesVersion(bounds: set<string>, version: string) returns (r: Result<bool>)
    ensures r.Ok? ==> (r.value <==> Names(bounds, version))
    ensures IsVersion(version) && (forall b :: b in bounds ==> IsVersion(b)) ==> r.Ok?
  {
    var target := NumericVersion(version);
    if target.Raised? {
      return Raised;
    }
    var left, found := bounds, false;
    while left != {}
      invariant left <= bounds
      invariant forall b :: b in bounds && b !in left ==> IsVersion(b)
      invariant found <==> exists b :: b in bounds && b !in left && IsVersion(b) && Same(Segments(version), Segments(b))
      decreases left
    {
      var b :| b in left;
      var bound := NumericVersion(b);
      if bound.Raised? {
        return Raised;
      }
      StrippedOrder(Segments(version), Segments(b));
      found := found || target.value == bound.value;
      left := left - {b};
    }
    return Ok(found);
  }

  method AnyNames(before: set<Spec>, version: string) returns (r: Result<bool>)
    ensures r.Ok? ==> (r.value <==> NamedBefore(before, version))
    ensures IsVersion(version) && AllPlain(before) ==> r.Ok?
  {
    var left, found := before, false;
    while left != {}
      invariant left <= before
      invariant found <==> exists o :: o in before && o !in left && Names(o.bounds, version)
      decreases left
    {
      var o :| o in left;
      var named := NamesVersion(o.bounds, version);
      if named.Raised? {
        return Raised;
      }
      found := found || named.value;
      left := left - {o};
    }
    return Ok(found);
  }

  /** `any` stops at the first requirement that admits the version. */
  method AnyAdmits(before: set<Spec>, version: string) returns (r: Result<bool>)
    ensures r.Ok? ==> (r.value <==> AdmittedBefore(before, version))
    ensures IsVersion(version) && AllPlain(before) ==> r.Ok?
  {
    var left := before;
    while left != {}
      invariant left <= before
      invariant forall o :: o in before && o !in left ==> !AdmitsSpec(o, version)
      decreases left
    {
      var o :| o in left;
      var admitted := RequirementAdmits(o.clauses, version);
      if admitted.Raised? || admitted.value {
        return admitted;
      }
      left := left - {o};
    }
    return Ok(false);
  }

  method SpecMoves(specs: Change<set<Spec>>, spec: Spec, version: string) returns (r: Result<bool>)
    requires spec in specs.after && spec !in specs.before
    ensures r.Ok? ==> (r.value <==> Moves(specs, spec, version))
    ensures IsVersion(version) && AllPlain(specs.before) && AllPlain(specs.after) ==> r.Ok?
  {
    r := RequirementAdmits(spec.clauses, version);
    if r.Raised? || !r.value {
      return;
    }
    var named := NamesVersion(spec.bounds, version);
    var namedBefore := AnyNames(specs.before, version);
    if named.Raised? || namedBefore.Raised? {
      return Raised;
    }
    if named.value && !namedBefore.value {
      return Ok(true);
    }
    r := AnyAdmits(specs.before, version);
    if r.Ok? {
      r := Ok(!r.value);
    }
  }

  method FileMoves(specs: Change<set<Spec>>, version: string) returns (r: Result<bool>)
    ensures r.Ok? ==> (r.value <==> exists spec :: Moves(specs, spec, version))
    ensures IsVersion(version) && AllPlain(specs.before) && AllPlain(specs.after) ==> r.Ok?
  {
    var left := specs.after - specs.before;
    while left != {}
      invariant left <= specs.after - specs.before
      invariant forall spec :: spec in specs.after && spec !in specs.before && spec !in left ==>
                  !Moves(specs, spec, version)
      decreases left
    {
      var spec :| spec in left;
      var moves := SpecMoves(specs, spec, version);
      if moves.Raised? || moves.value {
        return moves;
      }
      left := left - {spec};
    }
    return Ok(false);
  }

  /** Whether the pull request moves a requirement to the version, unless reading one fails. */
  method RequirementUpdate(ms: seq<Manifest>, name: string, version: string) returns (r: Result<bool>)
    ensures r.Ok? ==> (r.value <==> exists m :: m in ms && MovesIn(m, name, version))
    ensures RequirementsReadable(ms, name, version) ==> r.Ok?
  {
    for k := 0 to |ms|
      invariant forall m :: m in ms[..k] ==> !MovesIn(m, name, version)
    {
      if IsPyproject(ms[k]) {
        assert ms[k] in ms;
        var specs := ms[k].specs(name);
        if specs.Raised? {
          return Raised;
        }
        var moves := FileMoves(specs.value, version);
        if moves.Raised? {
          return Raised;
        }
        if moves.value {
          assert MovesIn(ms[k], name, version);
          return moves;
        }
      }
      assert ms[..k + 1] == ms[..k] + [ms[k]];
    }
    assert ms[..|ms|] == ms;
    return Ok(false);
  }

  // ---- validate_updated_dependencies --------------------------------------------------------------

  /** The file's pins count for the ecosystem. */
  predicate Counts(eco: Ecosystem, m: Manifest) {
    !(eco.Pip? && IsPyproject(m))
  }

  lemma CountsIff(eco: Ecosystem, m: Manifest)
    ensures Counts(eco, m) <==> !(eco.Pip? && exists dir :: m.path == dir + "/pyproject.toml")
  {
    IsPyprojectIff(m);
  }

  /** The value of some key is `v` now and was not before. */
  ghost predicate Adopts(eco: Ecosystem, m: Manifest, name: string, v: string) {
    && Counts(eco, m) && m.pins(name).Ok?
    && var p := m.pins(name).value;
       exists key :: key in p.after && p.after[key] == v && !(key in p.before && p.before[key] == v)
  }

  ghost predicate Adopted(eco: Ecosystem, ms: seq<Manifest>, name: string, v: string) {
    exists m :: m in ms && Adopts(eco, m, name, v)
  }

  ghost predicate PinsReadable(eco: Ecosystem, ms: seq<Manifest>, name: string) {
    forall m :: m in ms && Counts(eco, m) ==> m.pins(name).Ok?
  }

  method AdoptedPins(eco: Ecosystem, ms: seq<Manifest>, name: string) returns (r: Result<set<string>>)
    ensures r.Ok? <==> PinsReadable(eco, ms, name)
    ensures r.Ok? ==> forall v :: v in r.value <==> Adopted(eco, ms, name, v)
  {
    var adopted: set<string> := {};
    for k := 0 to |ms|
      invariant PinsReadable(eco, ms[..k], name)
      invariant forall v :: v in adopted <==> Adopted(eco, ms[..k], name, v)
    {
      var m := ms[k];
      assert m in ms;
      assert ms[..k + 1] == ms[..k] + [m];
      OneMore(eco, ms[..k], m, name);
      if Counts(eco, m) {
        if m.pins(name).Raised? {
          return Raised;
        }
        var p := m.pins(name).value;
        adopted := adopted
                   + set key | key in p.after && !(key in p.before && p.before[key] == p.after[key]) :: p.after[key];
      }
    }
    assert ms[..|ms|] == ms;
    return Ok(adopted);
  }

  lemma OneMore(eco: Ecosystem, ms: seq<Manifest>, m: Manifest, name: string)
    ensures forall v :: Adopted(eco, ms + [m], name, v) <==> Adopted(eco, ms, name, v) || Adopts(eco, m, name, v)
    ensures PinsReadable(eco, ms + [m], name) <==> PinsReadable(eco, ms, name) && (Counts(eco, m) ==> m.pins(name).Ok?)
  {
    assert m in ms + [m];
    assert forall x :: x in ms ==> x in ms + [m];
  }

  function Unprefixed(version: string): string {
    if version != "" && version[0] == 'v' then version[1..] else version
  }

  function TagCandidates(version: string): seq<string> {
    if version != "" && version[0] == 'v' then [version] else ["v" + version, version]
  }

  /** The commit of the first tag that exists, or the version itself. */
  function Resolved(sha: (string, string) -> Option<string>, p: Package): string {
    var tags := TagCandidates(p.version);
    if sha(p.name, tags[0]).Some? then sha(p.name, tags[0]).value
    else if |tags| > 1 && sha(p.name, tags[1]).Some? then sha(p.name, tags[1]).value
    else p.version
  }

  /** The pin is the trailer's version, in the ecosystem's spelling. */
  predicate Spells(eco: Ecosystem, sha: (string, string) -> Option<string>, p: Package, pin: string) {
    match eco
    case GoMod => pin == Unprefixed(p.version)
    case GitHubActions => pin in TagCandidates(p.version) || pin == Resolved(sha, p)
    case _ => pin == p.version
  }

  /** What spells a version: for Go the version with or without its leading v; for an action the
      version, the version with a leading v if it has none, or the commit of the first such tag
      that exists, the one with the v first; elsewhere the version as it stands. */
  lemma SpellsIff(eco: Ecosystem, sha: (string, string) -> Option<string>, name: string, v: string, pin: string)
    requires v == "" || v[0] != 'v'
    ensures eco.GoMod? ==>
              && (Spells(eco, sha, Package(name, v), pin) <==> pin == v)
              && (Spells(eco, sha, Package(name, "v" + v), pin) <==> pin == v)
    ensures eco.GitHubActions? ==>
              && (Spells(eco, sha, Package(name, v), pin) <==>
                    || pin == v || pin == "v" + v
                    || (sha(name, "v" + v).Some? && pin == sha(name, "v" + v).value)
                    || (sha(name, "v" + v).None? && sha(name, v).Some? && pin == sha(name, v).value))
              && (Spells(eco, sha, Package(name, "v" + v), pin) <==>
                    pin == "v" + v || (sha(name, "v" + v).Some? && pin == sha(name, "v" + v).value))
    ensures !eco.GoMod? && !eco.GitHubActions? ==> (Spells(eco, sha, Package(name, v), pin) <==> pin == v)
  {
    assert ("v" + v)[1..] == v;
  }

  /** The pull request adopts this version of the package and no other; or it only moves a
      Python requirement to it. */
  ghost predicate Agrees(eco: Ecosystem, sha: (string, string) -> Option<string>, ms: seq<Manifest>, p: Package) {
    || (exists pin :: Spells(eco, sha, p, pin) && forall v :: Adopted(eco, ms, p.name, v) <==> v == pin)
    || (eco.Pip? && (forall v :: !Adopted(eco, ms, p.name, v)) && exists m :: m in ms && MovesIn(m, p.name, p.version))
  }

  ghost predicate Believable(eco: Ecosystem, sha: (string, string) -> Option<string>, ms: seq<Manifest>, p: Package) {
    PinsReadable(eco, ms, p.name) && Agrees(eco, sha, ms, p)
  }

  method ValidateOne(eco: Ecosystem, sha: (string, string) -> Option<string>, ms: seq<Manifest>, p: Package)
    returns (ok: bool)
    ensures ok ==> Believable(eco, sha, ms, p)
    ensures Believable(eco, sha, ms, p) && (eco.Pip? ==> RequirementsReadable(ms, p.name, p.version)) ==> ok
  {
    var read := AdoptedPins(eco, ms, p.name);
    if read.Raised? {
      return false;
    }
    var adopted := read.value;
    if adopted == {} && eco.Pip? {
      var moved := RequirementUpdate(ms, p.name, p.version);
      if moved.Raised? {
        return false;
      }
      if moved.value {
        return true;
      }
    }
    var target := if eco.GoMod? then Unprefixed(p.version) else p.version;
    var tags := set t | t in TagCandidates(p.version);
    if eco.GitHubActions? && adopted * tags == {} {
      target := Resolved(sha, p);
    }
    assert forall v :: Adopted(eco, ms, p.name, v) <==> v in adopted;
    ok := adopted == {target} || (eco.GitHubActions? && |adopted| == 1 && adopted * tags != {});
    if ok {
      OneAdopted(adopted, target, tags);
      ghost var pin :| adopted == {pin} && (pin == target || (eco.GitHubActions? && pin in tags));
      assert Spells(eco, sha, p, pin);
    } else {
      forall pin | Spells(eco, sha, p, pin) ensures adopted != {pin} {
        if adopted == {pin} {
          NotRejected(eco, sha, p, adopted, pin);
        }
      }
    }
  }

  /** A single adopted pin that spells the version is accepted, however it spells it. */
  lemma NotRejected(eco: Ecosystem, sha: (string, string) -> Option<string>, p: Package, adopted: set<string>,
                    pin: string)
    requires adopted == {pin} && Spells(eco, sha, p, pin)
    ensures var tags := set t | t in TagCandidates(p.version);
            var plain := if eco.GoMod? then Unprefixed(p.version) else p.version;
            var target := if eco.GitHubActions? && adopted * tags == {} then Resolved(sha, p) else plain;
            adopted == {target} || (eco.GitHubActions? && |adopted| == 1 && adopted * tags != {})
  {
    if pin in TagCandidates(p.version) {
      assert pin in adopted * (set t | t in TagCandidates(p.version));
    }
  }

  lemma OneAdopted(adopted: set<string>, target: string, tags: set<string>)
    requires adopted == {target} || (|adopted| == 1 && adopted * tags != {})
    ensures exists pin :: adopted == {pin} && (pin == target || (adopted != {target} && pin in tags))
  {
    if adopted != {target} {
      var pin :| pin in adopted * tags;
      assert |adopted - {pin}| == 0;
      assert adopted == {pin};
    }
  }

  /** Whether every package of the trailer agrees with what the pull request adopts. */
  method Validate(eco: Ecosystem, sha: (string, string) -> Option<string>, ms: seq<Manifest>, packages: seq<Package>)
    returns (ok: bool)
    ensures ok ==> forall p :: p in packages ==> Believable(eco, sha, ms, p)
    ensures (forall p :: p in packages ==>
               Believable(eco, sha, ms, p) && (eco.Pip? ==> RequirementsReadable(ms, p.name, p.version)))
            ==> ok
  {
    for k := 0 to |packages|
      invariant forall p :: p in packages[..k] ==> Believable(eco, sha, ms, p)
    {
      ok := ValidateOne(eco, sha, ms, packages[k]);
      if !ok {
        return;
      }
      assert packages[..k + 1] == packages[..k] + [packages[k]];
    }
    assert packages[..|packages|] == packages;
    ok := true;
  }

  /** Pins are compared by position, so a moved pin counts as adopted; but no version that a
      file did not pin before can enter it unseen. */
  lemma NewPinIsTheTrailers(eco: Ecosystem, sha: (string, string) -> Option<string>, ms: seq<Manifest>, p: Package,
                            m: Manifest, key: string)
    requires Agrees(eco, sha, ms, p) && m in ms && Counts(eco, m) && m.pins(p.name).Ok?
    requires key in m.pins(p.name).value.after
    requires m.pins(p.name).value.after[key] !in m.pins(p.name).value.before.Values
    ensures Spells(eco, sha, p, m.pins(p.name).value.after[key])
  {
    assert Adopts(eco, m, p.name, m.pins(p.name).value.after[key]);
    assert Adopted(eco, ms, p.name, m.pins(p.name).value.after[key]);
  }
}
