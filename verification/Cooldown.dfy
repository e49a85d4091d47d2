/** The supply-chain cooldown gate (scripts/supply_chain_cooldown.py): what a passing status on
    a Dependabot pull request implies. Registries, the GitHub API and the parsing of manifests
    are parameters.
 */
module Cooldown {
  import opened Wrappers
  import opened Dependencies
  import opened Trailers

  const COOLDOWN_DAYS := 7
  /** Times are microseconds, as in a timedelta. */
  const DAY: int := 24 * 60 * 60 * 1_000_000

  /** What the upstream registry answers: a date, no date that can be determined, or an
      exception that the gate does not expect. */
  datatype Release = Date(at: int) | Unknown | Crash

  /** The outside world: release dates, public sources, and the commits of GitHub tags. */
  datatype Registry = Registry(
    release: (Ecosystem, Package) -> Release,
    isPublic: (Ecosystem, Identity) -> bool,
    sha: (string, string) -> Option<string>
  )

  /** What is read of a pull request before any release is looked up. */
  datatype PullRequest = PullRequest(
    security: Result<bool>,
    ecosystem: Option<Ecosystem>,
    trailer: seq<Package>,
    manifests: Result<seq<Manifest>>
  )

  // ---- Names ----------------------------------------------------------------------------------

  predicate IsSeparator(c: char) {
    c == '-' || c == '_' || c == '.'
  }

  /** Runs of separators become one hyphen, and letters lower case. */
  function Canonical(name: string): string {
    if name == "" then ""
    else if !IsSeparator(name[0]) then [Lower(name[0])] + Canonical(name[1..])
    else if |name| > 1 && IsSeparator(name[1]) then Canonical(name[1..])
    else "-" + Canonical(name[1..])
  }

  function Lower(c: char): char {
    if 'A' <= c <= 'Z' then c + 32 as char else c
  }

  /** Single hyphens between runs of characters that are neither separators nor upper case. */
  predicate IsCanonical(name: string) {
    forall i :: 0 <= i < |name| ==>
      && !('A' <= name[i] <= 'Z') && name[i] != '_' && name[i] != '.'
      && (name[i] == '-' && i + 1 < |name| ==> name[i + 1] != '-')
  }

  lemma {:induction false} CanonicalIs(name: string)
    ensures IsCanonical(Canonical(name))
    ensures (Canonical(name) == "" <==> name == "")
    ensures name != "" ==> (IsSeparator(name[0]) <==> Canonical(name)[0] == '-')
  {
    if name != "" {
      CanonicalIs(name[1..]);
    }
  }

  /** A canonical name is its own. */
  lemma {:induction false} CanonicalFixed(name: string)
    requires IsCanonical(name)
    ensures Canonical(name) == name
  {
    if name != "" {
      forall i | 0 <= i < |name[1..]|
        ensures !('A' <= name[1..][i] <= 'Z') && name[1..][i] != '_' && name[1..][i] != '.'
        ensures name[1..][i] == '-' && i + 1 < |name[1..]| ==> name[1..][i + 1] != '-'
      {
        assert name[1..][i] == name[i + 1];
      }
      CanonicalFixed(name[1..]);
    }
  }

  /** Neither the case of a letter nor the kind of a separator matters. */
  lemma {:induction false} CanonicalIgnoresKind(x: string, c: char, d: char, y: string)
    requires (IsSeparator(c) && IsSeparator(d)) || (!IsSeparator(c) && !IsSeparator(d) && Lower(c) == Lower(d))
    ensures Canonical(x + [c] + y) == Canonical(x + [d] + y)
  {
    var a, b := x + [c] + y, x + [d] + y;
    if x == "" {
      assert a[1..] == y && b[1..] == y;
    } else {
      assert a[1..] == x[1..] + [c] + y && b[1..] == x[1..] + [d] + y;
      CanonicalIgnoresKind(x[1..], c, d, y);
    }
  }

  /** Nor does the length of a run of separators. */
  lemma {:induction false} CanonicalIgnoresRuns(x: string, y: string)
    ensures Canonical(x + "--" + y) == Canonical(x + "-" + y)
  {
    var a, b := x + "--" + y, x + "-" + y;
    if x == "" {
      assert a[1..] == b;
    } else {
      assert a[1..] == x[1..] + "--" + y && b[1..] == x[1..] + "-" + y;
      CanonicalIgnoresRuns(x[1..], y);
    }
  }

  function Lookup(eco: Ecosystem, p: Package): Package {
    if eco.Pip? then p.(name := Canonical(p.name)) else p
  }

  // ---- newly_resolved_dependencies --------------------------------------------------------------

  predicate HasLock(eco: Ecosystem) {
    eco.Npm? || eco.Pip?
  }

  function LockName(eco: Ecosystem): string {
    if eco.Npm? then "package-lock.json" else "uv.lock"
  }

  predicate IsLock(eco: Ecosystem, m: Manifest) {
    BaseName(m.path) == LockName(eco)
  }

  /** The lock file of an ecosystem that has one, in whatever directory. */
  ghost predicate LockPath(eco: Ecosystem, path: string) {
    match eco
    case Npm => path == "package-lock.json" || exists dir :: path == dir + "/" + "package-lock.json"
    case Pip => path == "uv.lock" || exists dir :: path == dir + "/" + "uv.lock"
    case _ => false
  }

  lemma IsLockIff(eco: Ecosystem, m: Manifest)
    requires HasLock(eco)
    ensures IsLock(eco, m) <==> LockPath(eco, m.path)
  {
    BaseNameIff(m.path, LockName(eco));
  }

  /** Every changed lock file parses, at both revisions. */
  ghost predicate Readable(eco: Ecosystem, ms: seq<Manifest>) {
    forall m :: m in ms && LockPath(eco, m.path) ==> m.lock.Ok?
  }

  ghost predicate Had(eco: Ecosystem, ms: seq<Manifest>, id: Identity) {
    exists m :: m in ms && LockPath(eco, m.path) && m.lock.Ok? && id in m.lock.value.before
  }

  ghost predicate Has(eco: Ecosystem, ms: seq<Manifest>, id: Identity) {
    exists m :: m in ms && LockPath(eco, m.path) && m.lock.Ok? && id in m.lock.value.after
  }

  /** In some lock file at head, and in none at the merge base. */
  ghost predicate NewAtHead(eco: Ecosystem, ms: seq<Manifest>, id: Identity) {
    Has(eco, ms, id) && !Had(eco, ms, id)
  }

  /** The merge base had this release, from a public source. */
  ghost predicate AdoptedBefore(reg: Registry, eco: Ecosystem, ms: seq<Manifest>, p: Package) {
    exists id :: Had(eco, ms, id) && reg.isPublic(eco, id) && id.package == p
  }

  ghost predicate NewlyAdopted(reg: Registry, eco: Ecosystem, ms: seq<Manifest>, p: Package) {
    && HasLock(eco) && !AdoptedBefore(reg, eco, ms, p)
    && exists id :: NewAtHead(eco, ms, id) && id.package == p
  }

  /** Nothing new comes from a source that cannot be verified. */
  ghost predicate AllPublic(reg: Registry, eco: Ecosystem, ms: seq<Manifest>) {
    forall id :: NewAtHead(eco, ms, id) ==> reg.isPublic(eco, id)
  }

  method NewlyResolved(reg: Registry, eco: Ecosystem, ms: seq<Manifest>) returns (r: Result<set<Package>>)
    ensures r.Ok? <==> (HasLock(eco) ==> Readable(eco, ms) && AllPublic(reg, eco, ms))
    ensures r.Ok? ==> forall p :: p in r.value <==> NewlyAdopted(reg, eco, ms, p)
  {
    if !HasLock(eco) {
      return Ok({});
    }
    var read := LockIdentities(eco, ms);
    if read.Raised? {
      return Raised;
    }
    var (had, has) := read.value;
    var previous := set id | id in had && reg.isPublic(eco, id) :: id.package;
    var adopted := {};
    var left := has - had;
    while left != {}
      invariant left <= has - had
      invariant forall id :: id in has - had && id !in left ==> reg.isPublic(eco, id)
      invariant forall p :: p in adopted <==>
                  p !in previous && exists id :: id in has - had && id !in left && id.package == p
      decreases left
    {
      var id :| id in left;
      if !reg.isPublic(eco, id) {
        assert NewAtHead(eco, ms, id);
        return Raised;
      }
      adopted := adopted + if id.package in previous then {} else {id.package};
      left := left - {id};
    }
    return Ok(adopted);
  }

  /** The unions over the lock files, before and after. */
  method LockIdentities(eco: Ecosystem, ms: seq<Manifest>) returns (r: Result<(set<Identity>, set<Identity>)>)
    requires HasLock(eco)
    ensures r.Ok? <==> Readable(eco, ms)
    ensures r.Ok? ==> forall id :: id in r.value.0 <==> Had(eco, ms, id)
    ensures r.Ok? ==> forall id :: id in r.value.1 <==> Has(eco, ms, id)
  {
    var had, has: set<Identity> := {}, {};
    for k := 0 to |ms|
      invariant Readable(eco, ms[..k])
      invariant forall id :: id in had <==> Had(eco, ms[..k], id)
      invariant forall id :: id in has <==> Has(eco, ms[..k], id)
    {
      var m := ms[k];
      OneMoreLock(eco, ms[..k], m);
      IsLockIff(eco, m);
      assert ms[..k + 1] == ms[..k] + [m];
      if IsLock(eco, m) {
        if m.lock.Raised? {
          assert m in ms;
          return Raised;
        }
        had := had + m.lock.value.before;
        has := has + m.lock.value.after;
      }
    }
    assert ms[..|ms|] == ms;
    return Ok((had, has));
  }

  lemma OneMoreLock(eco: Ecosystem, ms: seq<Manifest>, m: Manifest)
    ensures forall id :: Had(eco, ms + [m], id) <==>
              Had(eco, ms, id) || (LockPath(eco, m.path) && m.lock.Ok? && id in m.lock.value.before)
    ensures forall id :: Has(eco, ms + [m], id) <==>
              Has(eco, ms, id) || (LockPath(eco, m.path) && m.lock.Ok? && id in m.lock.value.after)
    ensures Readable(eco, ms + [m]) <==> Readable(eco, ms) && (LockPath(eco, m.path) ==> m.lock.Ok?)
  {
    assert m in ms + [m];
    assert forall x :: x in ms ==> x in ms + [m];
  }

  // ---- The releases to look up ---------------------------------------------------------------------

  /** The trailer can be believed and the lock files can be checked. */
  ghost predicate Checkable(reg: Registry, pr: PullRequest) {
    && pr.ecosystem.Some? && pr.trailer != [] && pr.manifests.Ok?
    && (forall p :: p in pr.trailer ==> Believable(pr.ecosystem.value, reg.sha, pr.manifests.value, p))
    && (HasLock(pr.ecosystem.value) ==>
          Readable(pr.ecosystem.value, pr.manifests.value) && AllPublic(reg, pr.ecosystem.value, pr.manifests.value))
  }

  /** Reading the Python requirements, where they are needed, raises nothing. */
  ghost predicate Legible(pr: PullRequest)
    requires pr.ecosystem.Some? && pr.manifests.Ok?
  {
    pr.ecosystem.value.Pip? ==>
      forall p :: p in pr.trailer ==> RequirementsReadable(pr.manifests.value, p.name, p.version)
  }

  /** A package of the trailer, or one newly adopted in a lock file. */
  ghost predicate Bumped(reg: Registry, pr: PullRequest, p: Package)
    requires pr.ecosystem.Some? && pr.manifests.Ok?
  {
    || (exists t :: t in pr.trailer && p == Lookup(pr.ecosystem.value, t))
    || NewlyAdopted(reg, pr.ecosystem.value, pr.manifests.value, p)
  }

  ghost predicate Aged(r: Release, now: int) {
    r.Date? && now - r.at >= COOLDOWN_DAYS * DAY
  }

  /** timedelta.days rounds down. */
  predicate TooYoung(at: int, now: int) {
    (now - at) / DAY < COOLDOWN_DAYS
  }

  lemma TooYoungIff(at: int, now: int)
    ensures TooYoung(at, now) <==> now - at < COOLDOWN_DAYS * DAY
  {
  }

  /** The packages once each: those of the trailer first. */
  method Collect(eco: Ecosystem, trailer: seq<Package>, resolved: set<Package>) returns (packages: seq<Package>)
    ensures forall p :: p in packages <==> p in resolved || exists t :: t in trailer && p == Lookup(eco, t)
    ensures forall i, j :: 0 <= i < j < |packages| ==> packages[i] != packages[j]
  {
    packages := [];
    for k := 0 to |trailer|
      invariant forall p :: p in packages <==> exists t :: t in trailer[..k] && p == Lookup(eco, t)
      invariant forall i, j :: 0 <= i < j < |packages| ==> packages[i] != packages[j]
    {
      assert trailer[..k + 1] == trailer[..k] + [trailer[k]];
      assert trailer[k] in trailer[..k + 1];
      var p := Lookup(eco, trailer[k]);
      if p !in packages {
        packages := packages + [p];
      }
    }
    assert trailer[..|trailer|] == trailer;
    ghost var first := packages;
    var left := resolved;
    while left != {}
      invariant left <= resolved
      invariant forall p :: p in packages <==> p in first || (p in resolved && p !in left)
      invariant forall i, j :: 0 <= i < j < |packages| ==> packages[i] != packages[j]
      decreases left
    {
      var p :| p in left;
      if p !in packages {
        packages := packages + [p];
      }
      left := left - {p};
    }
  }

  // ---- _evaluate_head ----------------------------------------------------------------------------------

  datatype Verdict =
    | SecurityPass
    | Pass(count: nat)
    | BlockUnknown(first: Package)
    | BlockYoung(newest: Package, released: int)
    | Error

  /** The look-ups: the first release without a date, or the latest of those too young. */
  datatype Ages = Ages(unknown: Option<Package>, young: Option<Package>, crashed: bool)

  /** `p` is too young, and no other package that is too young is younger. */
  ghost predicate Newest(reg: Registry, eco: Ecosystem, packages: seq<Package>, now: int, p: Package, at: int) {
    && p in packages && reg.release(eco, p) == Date(at) && now - at < COOLDOWN_DAYS * DAY
    && forall q :: q in packages && reg.release(eco, q).Date? && now - reg.release(eco, q).at < COOLDOWN_DAYS * DAY
         ==> reg.release(eco, q).at <= at
  }

  /** What the look-ups decide. */
  ghost predicate Judged(reg: Registry, eco: Ecosystem, packages: seq<Package>, now: int, v: Verdict) {
    match v
    case SecurityPass => false
    case Error => exists p :: p in packages && reg.release(eco, p).Crash?
    case BlockUnknown(p) =>
      && p in packages && reg.release(eco, p).Unknown?
      && forall q :: q in packages ==> !reg.release(eco, q).Crash?
    case BlockYoung(p, at) =>
      && Newest(reg, eco, packages, now, p, at)
      && forall q :: q in packages ==> reg.release(eco, q).Date?
    case Pass(n) => n == |packages| && forall q :: q in packages ==> Aged(reg.release(eco, q), now)
  }

  method LookUpAll(reg: Registry, eco: Ecosystem, packages: seq<Package>, now: int) returns (v: Verdict)
    ensures Judged(reg, eco, packages, now, v)
  {
    var offenders: seq<(Package, int)> := [];
    var unknown: seq<Package> := [];
    for k := 0 to |packages|
      invariant forall p :: p in unknown <==> p in packages[..k] && reg.release(eco, p).Unknown?
      invariant forall q :: q in offenders <==>
                  q.0 in packages[..k] && reg.release(eco, q.0) == Date(q.1) && now - q.1 < COOLDOWN_DAYS * DAY
      invariant forall p :: p in packages[..k] ==> !reg.release(eco, p).Crash?
    {
      assert packages[..k + 1] == packages[..k] + [packages[k]];
      match reg.release(eco, packages[k])
      case Crash =>
        return Error;
      case Unknown =>
        unknown := unknown + [packages[k]];
      case Date(at) =>
        TooYoungIff(at, now);
        if TooYoung(at, now) {
          offenders := offenders + [(packages[k], at)];
        }
    }
    assert packages[..|packages|] == packages;
    if unknown != [] {
      assert unknown[0] in unknown;
      return BlockUnknown(unknown[0]);
    }
    if offenders != [] {
      var newest := Latest(offenders);
      assert newest in offenders;
      forall q | q in packages && reg.release(eco, q).Date? && now - reg.release(eco, q).at < COOLDOWN_DAYS * DAY
        ensures reg.release(eco, q).at <= newest.1
      {
        assert (q, reg.release(eco, q).at) in offenders;
      }
      return BlockYoung(newest.0, newest.1);
    }
    forall q | q in packages ensures Aged(reg.release(eco, q), now) {
      if reg.release(eco, q).Date? {
        assert (q, reg.release(eco, q).at) !in offenders;
      }
    }
    return Pass(|packages|);
  }

  method Latest(offenders: seq<(Package, int)>) returns (m: (Package, int))
    requires offenders != []
    ensures m in offenders && forall o :: o in offenders ==> o.1 <= m.1
  {
    m := offenders[0];
    for k := 1 to |offenders|
      invariant m in offenders
      invariant forall l :: 0 <= l < k ==> offenders[l].1 <= m.1
    {
      if offenders[k].1 > m.1 {
        m := offenders[k];
      }
    }
  }

  /** No look-up ends in an unexpected exception. */
  ghost predicate NoCrash(reg: Registry, pr: PullRequest)
    requires pr.ecosystem.Some? && pr.manifests.Ok?
  {
    forall p :: Bumped(reg, pr, p) ==> !reg.release(pr.ecosystem.value, p).Crash?
  }

  /** The condition under which a pull request that is not a security update passes. */
  ghost predicate AllAged(reg: Registry, pr: PullRequest, now: int) {
    Checkable(reg, pr) && forall p :: Bumped(reg, pr, p) ==> Aged(reg.release(pr.ecosystem.value, p), now)
  }

  /** The verdicts that the gate may give. Where a Python requirement cannot be read it may raise
      or not, as the order of a set falls out; everything else is determined. */
  ghost predicate Answers(reg: Registry, pr: PullRequest, now: int, v: Verdict) {
    && (v == SecurityPass <==> pr.security == Ok(true))
    && (v.Pass? ==> pr.security == Ok(false) && AllAged(reg, pr, now))
    && (pr.security == Ok(false) && AllAged(reg, pr, now) && Legible(pr) ==> v.Pass?)
    && (pr.security.Raised? || (pr.security == Ok(false) && !(Checkable(reg, pr) && NoCrash(reg, pr))) ==> v.Error?)
    && (v.Error? && pr.security.Ok? ==> !(Checkable(reg, pr) && NoCrash(reg, pr) && Legible(pr)))
    && (v.BlockUnknown? || v.BlockYoung? ==> pr.security == Ok(false) && Checkable(reg, pr))
    && (v.BlockUnknown? ==> Bumped(reg, pr, v.first) && reg.release(pr.ecosystem.value, v.first).Unknown?)
    && (v.BlockYoung? ==> YoungestIs(reg, pr, now, v.newest, v.released))
  }

  method Evaluate(reg: Registry, pr: PullRequest, now: int) returns (v: Verdict)
    ensures Answers(reg, pr, now, v)
  {
    if pr.security.Raised? {
      return Error;
    }
    if pr.security.value {
      return SecurityPass;
    }
    if pr.ecosystem.None? || pr.trailer == [] || pr.manifests.Raised? {
      return Error;
    }
    var eco := pr.ecosystem.value;
    var valid := Validate(eco, reg.sha, pr.manifests.value, pr.trailer);
    if !valid {
      return Error;
    }
    var resolved := NewlyResolved(reg, eco, pr.manifests.value);
    if resolved.Raised? {
      return Error;
    }
    var packages := Collect(eco, pr.trailer, resolved.value);
    assert forall p :: p in packages <==> Bumped(reg, pr, p);
    v := LookUpAll(reg, eco, packages, now);
  }

  /** Every release has a known date, and `p`, too young, has the latest. */
  ghost predicate YoungestIs(reg: Registry, pr: PullRequest, now: int, p: Package, at: int) {
    && Checkable(reg, pr) && Bumped(reg, pr, p)
    && reg.release(pr.ecosystem.value, p) == Date(at) && now - at < COOLDOWN_DAYS * DAY
    && forall q :: Bumped(reg, pr, q) ==>
         reg.release(pr.ecosystem.value, q).Date? && reg.release(pr.ecosystem.value, q).at <= at
  }

  // ---- Main results ----------------------------------------------------------------------------------------

  /** Whatever the pull request adopts has been public for a week: each package of the trailer,
      which is also what any pin of it new at head spells; and each lock identity new at head,
      unless its release was adopted before from a public source. */
  lemma PassCovers(reg: Registry, pr: PullRequest, now: int)
    requires AllAged(reg, pr, now)
    ensures pr.trailer != []
    ensures forall t :: t in pr.trailer ==> Aged(reg.release(pr.ecosystem.value, Lookup(pr.ecosystem.value, t)), now)
    ensures forall t, m, key :: t in pr.trailer && m in pr.manifests.value && Counts(pr.ecosystem.value, m)
              && m.pins(t.name).Ok? && key in m.pins(t.name).value.after
              && m.pins(t.name).value.after[key] !in m.pins(t.name).value.before.Values
              ==> Spells(pr.ecosystem.value, reg.sha, t, m.pins(t.name).value.after[key])
    ensures HasLock(pr.ecosystem.value) ==>
              forall id :: NewAtHead(pr.ecosystem.value, pr.manifests.value, id) ==>
                && reg.isPublic(pr.ecosystem.value, id)
                && (Aged(reg.release(pr.ecosystem.value, id.package), now)
                    || AdoptedBefore(reg, pr.ecosystem.value, pr.manifests.value, id.package))
  {
    forall t | t in pr.trailer ensures Aged(reg.release(pr.ecosystem.value, Lookup(pr.ecosystem.value, t)), now) {
      assert Bumped(reg, pr, Lookup(pr.ecosystem.value, t));
    }
    forall t, m, key | t in pr.trailer && m in pr.manifests.value && Counts(pr.ecosystem.value, m)
                       && m.pins(t.name).Ok? && key in m.pins(t.name).value.after
                       && m.pins(t.name).value.after[key] !in m.pins(t.name).value.before.Values
      ensures Spells(pr.ecosystem.value, reg.sha, t, m.pins(t.name).value.after[key])
    {
      NewPinIsTheTrailers(pr.ecosystem.value, reg.sha, pr.manifests.value, t, m, key);
    }
    if HasLock(pr.ecosystem.value) {
      forall id | NewAtHead(pr.ecosystem.value, pr.manifests.value, id)
                  && !AdoptedBefore(reg, pr.ecosystem.value, pr.manifests.value, id.package)
        ensures Aged(reg.release(pr.ecosystem.value, id.package), now)
      {
        assert Bumped(reg, pr, id.package);
      }
    }
  }

  /** In the terms of the files: whatever lock file of the ecosystem the pull request changes, in
      whatever directory, no entry is new in it that is not public, or younger than a week and
      not a release that some lock file had from a public source before. */
  lemma PassCoversLocks(reg: Registry, pr: PullRequest, now: int, m: Manifest, id: Identity)
    requires AllAged(reg, pr, now) && HasLock(pr.ecosystem.value)
    requires m in pr.manifests.value && LockPath(pr.ecosystem.value, m.path) && m.lock.Ok? && id in m.lock.value.after
    ensures
      var eco, ms := pr.ecosystem.value, pr.manifests.value;
      || (exists b :: b in ms && LockPath(eco, b.path) && b.lock.Ok? && id in b.lock.value.before)
      || (reg.isPublic(eco, id)
          && (Aged(reg.release(eco, id.package), now)
              || exists b, was :: b in ms && LockPath(eco, b.path) && b.lock.Ok? && was in b.lock.value.before
                                  && reg.isPublic(eco, was) && was.package == id.package))
  {
    var eco, ms := pr.ecosystem.value, pr.manifests.value;
    assert Has(eco, ms, id);
    if !Had(eco, ms, id) {
      PassCovers(reg, pr, now);
      assert NewAtHead(eco, ms, id);
      if AdoptedBefore(reg, eco, ms, id.package) {
        var was :| Had(eco, ms, was) && reg.isPublic(eco, was) && was.package == id.package;
      }
    }
  }

  lemma AgedFromThen(reg: Registry, pr: PullRequest, now: int, p: Package, at: int, later: int)
    requires YoungestIs(reg, pr, now, p, at)
    ensures AllAged(reg, pr, later) <==> later >= at + COOLDOWN_DAYS * DAY
  {
    if later >= at + COOLDOWN_DAYS * DAY {
      forall q | Bumped(reg, pr, q) ensures Aged(reg.release(pr.ecosystem.value, q), later) {
        assert reg.release(pr.ecosystem.value, q).at <= at;
      }
    } else {
      assert !Aged(reg.release(pr.ecosystem.value, p), later);
    }
  }

  /** A verdict that blocks for the newest release stays, with no new commit, until that release
      is a week old; from then on the verdict is a pass. Only requirements that cannot be read
      make it an exception instead. */
  lemma UnblocksWhenNewestAged(reg: Registry, pr: PullRequest, now: int, v: Verdict, later: int, v': Verdict)
    requires Answers(reg, pr, now, v) && v.BlockYoung? && Answers(reg, pr, later, v')
    ensures later < v.released + COOLDOWN_DAYS * DAY ==> v'.Error? || (v'.BlockYoung? && v'.released == v.released)
    ensures later >= v.released + COOLDOWN_DAYS * DAY ==> v'.Error? || v'.Pass?
    ensures Legible(pr) ==> !v'.Error?
  {
    AgedFromThen(reg, pr, now, v.newest, v.released, later);
  }

  /** Once passed, always passed: time does not block a pull request again. */
  lemma PassIsStable(reg: Registry, pr: PullRequest, now: int, v: Verdict, later: int, v': Verdict)
    requires Answers(reg, pr, now, v) && v.Pass? && now <= later && Answers(reg, pr, later, v')
    ensures v'.Pass? || (v'.Error? && !Legible(pr))
  {
    forall p | Bumped(reg, pr, p) ensures Aged(reg.release(pr.ecosystem.value, p), later) {
      assert Aged(reg.release(pr.ecosystem.value, p), now);
    }
  }

  // ---- evaluate_pr ---------------------------------------------------------------------------------------------

  datatype State = Success | Failure

  datatype Outcome = Skipped | Done(verdict: Verdict) | Failed(reported: bool)

  /** Why a success may be posted. */
  ghost predicate Justified(reg: Registry, bot: bool, pr: PullRequest, now: int) {
    !bot || pr.security == Ok(true) || (pr.security == Ok(false) && AllAged(reg, pr, now))
  }

  /** The status context on the head commit. A call may be reported as failed, whether or not
      it took effect. */
  class Head {
    var posted: seq<State>
    var labelled: bool
    /** Some call was reported as failed. */
    var trouble: bool
    /** The label could not be removed. */
    var stuck: bool

    constructor ()
      ensures posted == [] && !labelled && !trouble && !stuck
    {
      posted, labelled, trouble, stuck := [], false, false, false;
    }

    method SetStatus(state: State) returns (ok: bool)
      modifies this
      ensures labelled == old(labelled) && trouble == (old(trouble) || !ok)
      ensures posted == old(posted) + [state] || (!ok && posted == old(posted))
    {
      var applied: bool := *;
      ok := *;
      ok := ok && applied;
      if applied {
        posted := posted + [state];
      }
      trouble := trouble || !ok;
    }

    method AddLabel() returns (ok: bool)
      modifies this
      ensures posted == old(posted) && trouble == (old(trouble) || !ok)
      ensures ok ==> labelled
      ensures labelled || labelled == old(labelled)
    {
      var applied: bool := *;
      ok := *;
      ok := ok && applied;
      labelled := labelled || applied;
      trouble := trouble || !ok;
    }

    /** Its failure is ignored. */
    method RemoveLabel()
      modifies this
      ensures posted == old(posted) && trouble == old(trouble)
      ensures !labelled || (labelled == old(labelled) && stuck)
    {
      var applied: bool := *;
      labelled := labelled && !applied;
      stuck := stuck || labelled;
    }

    /** The status and label of a verdict; false when a call failed. */
    method Post(v: Verdict) returns (ok: bool)
      requires !v.Error?
      modifies this
      ensures var state := if v.SecurityPass? || v.Pass? then Success else Failure;
              posted == old(posted) + [state] || (!ok && posted == old(posted))
      ensures ok && (v.BlockUnknown? || v.BlockYoung?) ==> labelled
      ensures ok && (v.SecurityPass? || v.Pass?) ==> !labelled || stuck
      ensures trouble == (old(trouble) || !ok)
    {
      if v.SecurityPass? || v.Pass? {
        ok := SetStatus(Success);
        if ok {
          RemoveLabel();
        }
      } else {
        ok := SetStatus(Failure);
        if ok {
          ok := AddLabel();
        }
      }
    }

    /** A success is only ever posted when it is justified, whichever calls fail. A verdict
        that blocks leaves a failure last. An exception after the head commit is known leaves
        a failure last too, unless reporting it failed as well. */
    method EvaluatePr(reg: Registry, bot: bool, pr: PullRequest, now: int) returns (o: Outcome)
      modifies this
      ensures old(posted) <= posted && |posted| <= |old(posted)| + 2
      ensures forall i :: |old(posted)| <= i < |posted| && posted[i] == Success ==> Justified(reg, bot, pr, now)
      ensures o == Skipped ==> !bot && posted == old(posted) + [Success]
      ensures o.Done? ==> bot && !o.verdict.Error? && posted != []
      ensures o.Done? ==> (posted[|posted| - 1] == Success <==> Justified(reg, bot, pr, now))
      ensures o.Done? && posted[|posted| - 1] == Failure ==> labelled
      ensures o.Done? && posted[|posted| - 1] == Success ==> !labelled || stuck
      ensures o.Failed? && o.reported ==> bot && posted != [] && posted[|posted| - 1] == Failure
      ensures o.Failed? && !o.reported ==> trouble
      ensures !trouble && !bot ==> o == Skipped
      ensures !trouble && bot ==> (o.Done? <==> !o.Failed?) && (o.Done? ==> Answers(reg, pr, now, o.verdict))
      ensures !trouble && bot && o.Failed? ==> Answers(reg, pr, now, Error)
      ensures bot && !Justified(reg, bot, pr, now) && !trouble ==>
                posted != [] && posted[|posted| - 1] == Failure && labelled
    {
      var ok;
      if !bot {
        ok := SetStatus(Success);
        return if ok then Skipped else Failed(false);
      }
      var v := Evaluate(reg, pr, now);
      ok := false;
      if !v.Error? {
        ok := Post(v);
      }
      if ok {
        return Done(v);
      }
      ok := SetStatus(Failure);
      if ok {
        var labelOk := AddLabel();
      }
      return Failed(ok);
    }
  }
}
