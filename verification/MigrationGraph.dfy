/** The guard against migrations that collide (scripts/check_migrations.py): what it reports on
    a tree of migrations, and what a clean report says about the tree's graph.
 */
module MigrationGraph {
  import opened Wrappers
  import opened Decimals

  /** A parsed version file. Of `depends_on` and `branch_labels` only their presence matters. */
  datatype Migration = Migration(
    name: string,
    revision: string,
    downs: seq<string>,
    dependsOn: bool,
    branchLabels: bool
  )

  /** Alembic's version_num column is a varchar(32). */
  const REVISION_ID_MAX_LENGTH := 32

  /** A message, naming files by their position in the list of migrations. */
  datatype Violation =
    | DuplicateRevision(revision: string, files: seq<nat>)
    | OverlongRevision(file: nat)
    | NoPrefix(file: nat)
    | DuplicatePrefix(prefix: string, files: seq<nat>)
    | HeadCount(heads: seq<nat>)

  /** The leading digits, when an underscore follows them. */
  function PrefixOf(name: string): Option<string> {
    var n := DigitsRun(name);
    if n > 0 && n < |name| && name[n] == '_' then Some(name[..n]) else None
  }

  function DigitsRun(s: string): (n: nat)
    ensures n <= |s| && (n > 0 ==> IsDigits(s[..n]))
    ensures n < |s| ==> !IsDigit(s[n])
  {
    if s == "" || !IsDigit(s[0]) then 0
    else
      var n := DigitsRun(s[1..]) + 1;
      assert forall i :: 1 <= i < n ==> s[i] == s[1..][..n - 1][i - 1];
      n
  }

  lemma {:induction false} DigitsRunIs(digits: string, rest: string)
    requires forall i :: 0 <= i < |digits| ==> IsDigit(digits[i])
    requires rest == "" || !IsDigit(rest[0])
    ensures DigitsRun(digits + rest) == |digits|
  {
    if digits == "" {
      assert digits + rest == rest;
    } else {
      assert (digits + rest)[1..] == digits[1..] + rest;
      DigitsRunIs(digits[1..], rest);
    }
  }

  /** The pattern of a file name: digits, an underscore, anything. */
  lemma PrefixIff(name: string, p: string)
    ensures PrefixOf(name) == Some(p) <==> IsDigits(p) && exists rest :: name == p + "_" + rest
  {
    var n := DigitsRun(name);
    if PrefixOf(name) == Some(p) {
      assert name == p + "_" + name[n + 1..];
    }
    if IsDigits(p) && exists rest :: name == p + "_" + rest {
      var rest :| name == p + "_" + rest;
      assert name == p + ("_" + rest);
      DigitsRunIs(p, "_" + rest);
    }
  }

  function RevisionKeys(ms: seq<Migration>): seq<Option<string>> {
    seq(|ms|, i requires 0 <= i < |ms| => Some(ms[i].revision))
  }

  function PrefixKeys(ms: seq<Migration>): seq<Option<string>> {
    seq(|ms|, i requires 0 <= i < |ms| => PrefixOf(ms[i].name))
  }

  /** A construct whose head resolution the guard does not model is declared somewhere. */
  predicate Declined(ms: seq<Migration>) {
    exists i :: 0 <= i < |ms| && (ms[i].dependsOn || ms[i].branchLabels)
  }

  function Parents(ms: seq<Migration>): set<string> {
    set i, k | 0 <= i < |ms| && 0 <= k < |ms[i].downs| :: ms[i].downs[k]
  }

  /** The first `n` migrations that are nobody's parent. */
  function HeadsAmong(ms: seq<Migration>, parents: set<string>, n: nat): seq<nat>
    requires n <= |ms|
  {
    if n == 0 then []
    else HeadsAmong(ms, parents, n - 1) + if ms[n - 1].revision in parents then [] else [n - 1]
  }

  function Heads(ms: seq<Migration>): seq<nat> {
    HeadsAmong(ms, Parents(ms), |ms|)
  }

  // ---- What the guard reports --------------------------------------------------------------

  /** The positions that have this key, in order. */
  ghost function Where(keys: seq<Option<string>>, k: string): seq<nat> {
    if keys == [] then []
    else
      var n := |keys| - 1;
      Where(keys[..n], k) + if keys[n] == Some(k) then [n] else []
  }

  /** Each violation there is, and what it names. */
  ghost predicate Violates(ms: seq<Migration>, v: Violation) {
    match v
    case DuplicateRevision(r, files) => |files| > 1 && files == Where(RevisionKeys(ms), r)
    case OverlongRevision(i) => i < |ms| && |ms[i].revision| > REVISION_ID_MAX_LENGTH
    case NoPrefix(i) => i < |ms| && PrefixOf(ms[i].name).None?
    case DuplicatePrefix(p, files) => |files| > 1 && files == Where(PrefixKeys(ms), p)
    case HeadCount(heads) => !Declined(ms) && ms != [] && |heads| != 1 && heads == Heads(ms)
  }

  /** No two positions share a key. */
  ghost predicate AllDifferent(keys: seq<Option<string>>) {
    forall i, j :: 0 <= i < j < |keys| && keys[i].Some? ==> keys[i] != keys[j]
  }

  ghost predicate IsHead(ms: seq<Migration>, i: nat) {
    i < |ms| && forall j :: 0 <= j < |ms| ==> ms[i].revision !in ms[j].downs
  }

  ghost predicate OneHead(ms: seq<Migration>) {
    exists h :: IsHead(ms, h) && forall i :: IsHead(ms, i) ==> i == h
  }

  /** What a clean tree is. */
  ghost predicate Clean(ms: seq<Migration>) {
    && AllDifferent(RevisionKeys(ms))
    && (forall i :: 0 <= i < |ms| ==> |ms[i].revision| <= REVISION_ID_MAX_LENGTH)
    && (forall i :: 0 <= i < |ms| ==> PrefixOf(ms[i].name).Some?)
    && AllDifferent(PrefixKeys(ms))
    && (Declined(ms) || ms == [] || OneHead(ms))
  }

  lemma {:induction false} WhereExactly(keys: seq<Option<string>>, k: string)
    ensures forall i: nat :: i in Where(keys, k) <==> i < |keys| && keys[i] == Some(k)
    ensures forall a, b :: 0 <= a < b < |Where(keys, k)| ==> Where(keys, k)[a] < Where(keys, k)[b]
  {
    if keys != [] {
      WhereExactly(keys[..|keys| - 1], k);
      var fewer := Where(keys[..|keys| - 1], k);
      assert forall a :: 0 <= a < |fewer| ==> fewer[a] in fewer;
    }
  }

  lemma FirstTwo(keys: seq<Option<string>>, k: string)
    requires |Where(keys, k)| > 1
    ensures var w := Where(keys, k);
            0 <= w[0] < w[1] < |keys| && keys[w[0]] == keys[w[1]] == Some(k)
  {
    var w := Where(keys, k);
    WhereExactly(keys, k);
    assert w[0] in w && w[1] in w;
  }

  lemma TwoPlaces(keys: seq<Option<string>>, k: string, i: nat, j: nat)
    requires i < j < |keys| && keys[i] == keys[j] == Some(k)
    ensures |Where(keys, k)| > 1
  {
    WhereExactly(keys, k);
    assert i in Where(keys, k) && j in Where(keys, k);
  }

  lemma RepeatedIff(keys: seq<Option<string>>, k: string)
    ensures |Where(keys, k)| > 1 <==> exists i, j :: 0 <= i < j < |keys| && keys[i] == keys[j] == Some(k)
  {
    if |Where(keys, k)| > 1 {
      FirstTwo(keys, k);
    }
    if i, j :| 0 <= i < j < |keys| && keys[i] == keys[j] == Some(k) {
      TwoPlaces(keys, k, i, j);
    }
  }

  lemma {:induction false} HeadsAmongExactly(ms: seq<Migration>, n: nat)
    requires n <= |ms|
    ensures forall i: nat :: i in HeadsAmong(ms, Parents(ms), n) <==> i < n && IsHead(ms, i)
    ensures forall a, b :: 0 <= a < b < |HeadsAmong(ms, Parents(ms), n)| ==>
              HeadsAmong(ms, Parents(ms), n)[a] < HeadsAmong(ms, Parents(ms), n)[b]
  {
    if n > 0 {
      HeadsAmongExactly(ms, n - 1);
      var fewer := HeadsAmong(ms, Parents(ms), n - 1);
      assert forall a :: 0 <= a < |fewer| ==> fewer[a] in fewer;
      assert IsHead(ms, n - 1) <==> ms[n - 1].revision !in Parents(ms);
    }
  }

  /** The list of heads is the heads, each once. */
  lemma HeadsExactly(ms: seq<Migration>)
    ensures forall i: nat :: i in Heads(ms) <==> IsHead(ms, i)
    ensures |Heads(ms)| == 1 <==> OneHead(ms)
  {
    HeadsAmongExactly(ms, |ms|);
    var heads := Heads(ms);
    if |heads| == 1 {
      assert heads[0] in heads;
      assert forall i: nat :: i in heads ==> i == heads[0];
      assert IsHead(ms, heads[0]);
    } else if |heads| > 1 {
      assert heads[0] in heads && heads[1] in heads;
      assert IsHead(ms, heads[0]) && IsHead(ms, heads[1]) && heads[0] != heads[1];
    }
  }

  /** The head count is judged exactly when no file declares a dependency or a branch label. */
  lemma HeadsJudgedIff(ms: seq<Migration>)
    ensures (exists heads :: Violates(ms, HeadCount(heads))) <==>
            && ms != [] && !OneHead(ms)
            && forall i :: 0 <= i < |ms| ==> !ms[i].dependsOn && !ms[i].branchLabels
  {
    HeadsExactly(ms);
    if ms != [] && !OneHead(ms) && !Declined(ms) {
      assert Violates(ms, HeadCount(Heads(ms)));
    }
  }

  lemma CleanHasNone(ms: seq<Migration>, v: Violation)
    requires Clean(ms)
    ensures !Violates(ms, v)
  {
    match v
    case DuplicateRevision(r, _) => RepeatedIff(RevisionKeys(ms), r);
    case DuplicatePrefix(p, _) => RepeatedIff(PrefixKeys(ms), p);
    case HeadCount(_) => HeadsExactly(ms);
    case _ =>
  }

  lemma NoneDifferent(keys: seq<Option<string>>)
    requires forall k :: |Where(keys, k)| <= 1
    ensures AllDifferent(keys)
  {
    forall i, j | 0 <= i < j < |keys| && keys[i].Some? ensures keys[i] != keys[j] {
      RepeatedIff(keys, keys[i].value);
    }
  }

  lemma NoneIsClean(ms: seq<Migration>)
    requires forall v :: !Violates(ms, v)
    ensures Clean(ms)
  {
    forall k ensures |Where(RevisionKeys(ms), k)| <= 1 {
      assert !Violates(ms, DuplicateRevision(k, Where(RevisionKeys(ms), k)));
    }
    NoneDifferent(RevisionKeys(ms));
    forall k ensures |Where(PrefixKeys(ms), k)| <= 1 {
      assert !Violates(ms, DuplicatePrefix(k, Where(PrefixKeys(ms), k)));
    }
    NoneDifferent(PrefixKeys(ms));
    forall i | 0 <= i < |ms| ensures |ms[i].revision| <= REVISION_ID_MAX_LENGTH && PrefixOf(ms[i].name).Some? {
      assert !Violates(ms, OverlongRevision(i)) && !Violates(ms, NoPrefix(i));
    }
    assert !Violates(ms, HeadCount(Heads(ms)));
    HeadsExactly(ms);
  }

  // ---- The guard -------------------------------------------------------------------------------

  /** Every key that occurs, with its positions. */
  ghost predicate Grouped(groups: map<string, seq<nat>>, keys: seq<Option<string>>) {
    && (forall k :: k in groups ==> groups[k] == Where(keys, k))
    && (forall k :: k !in groups ==> Where(keys, k) == [])
  }

  lemma WhereMore(keys: seq<Option<string>>, key: Option<string>, k: string)
    ensures Where(keys + [key], k) == Where(keys, k) + if key == Some(k) then [|keys|] else []
  {
    assert (keys + [key])[..|keys|] == keys;
  }

  /** setdefault and append */
  function Append(groups: map<string, seq<nat>>, key: Option<string>, n: nat): map<string, seq<nat>> {
    if key.None? then groups
    else groups[key.value := (if key.value in groups then groups[key.value] else []) + [n]]
  }

  lemma GroupedMore(groups: map<string, seq<nat>>, keys: seq<Option<string>>, key: Option<string>)
    requires Grouped(groups, keys)
    ensures Grouped(Append(groups, key, |keys|), keys + [key])
  {
    forall k ensures Where(keys + [key], k) == Where(keys, k) + if key == Some(k) then [|keys|] else [] {
      WhereMore(keys, key, k);
    }
  }

  /** The dictionary from keys to positions. */
  method GroupBy(keys: seq<Option<string>>) returns (groups: map<string, seq<nat>>)
    ensures Grouped(groups, keys)
  {
    groups := map[];
    for n := 0 to |keys|
      invariant Grouped(groups, keys[..n])
    {
      assert keys[..n + 1] == keys[..n] + [keys[n]];
      GroupedMore(groups, keys[..n], keys[n]);
      groups := Append(groups, keys[n], n);
    }
    assert keys[..|keys|] == keys;
  }

  /** The keys that several positions share. */
  method Repeated(keys: seq<Option<string>>) returns (groups: map<string, seq<nat>>)
    ensures forall k :: k in groups <==> |Where(keys, k)| > 1
    ensures forall k :: k in groups ==> groups[k] == Where(keys, k)
  {
    var all := GroupBy(keys);
    groups := map k | k in all && |all[k]| > 1 :: all[k];
  }

  /** Exactly the violations there are; so none if and only if the tree is clean. */
  method CheckMigrations(ms: seq<Migration>) returns (errors: seq<Violation>)
    ensures forall v :: v in errors <==> Violates(ms, v)
    ensures errors == [] <==> Clean(ms)
  {
    errors := RevisionErrors(ms);
    var prefixErrors := PrefixErrors(ms);
    errors := errors + prefixErrors;
    if !Declined(ms) {
      var heads := Heads(ms);
      if ms != [] && |heads| != 1 {
        errors := errors + [HeadCount(heads)];
      }
    }
    NoneIff(ms, errors);
  }

  lemma NoneIff(ms: seq<Migration>, errors: seq<Violation>)
    requires forall v :: v in errors <==> Violates(ms, v)
    ensures errors == [] <==> Clean(ms)
  {
    if errors == [] {
      NoneIsClean(ms);
    } else {
      assert errors[0] in errors;
      if Clean(ms) {
        CleanHasNone(ms, errors[0]);
      }
    }
  }

  method RevisionErrors(ms: seq<Migration>) returns (errors: seq<Violation>)
    ensures forall v :: v in errors <==> (v.DuplicateRevision? || v.OverlongRevision?) && Violates(ms, v)
  {
    errors := [];
    var groups := Repeated(RevisionKeys(ms));
    var left := groups.Keys;
    while left != {}
      invariant left <= groups.Keys
      invariant forall v :: v in errors <==> v.DuplicateRevision? && Violates(ms, v) && v.revision !in left
      decreases left
    {
      var k :| k in left;
      errors := errors + [DuplicateRevision(k, groups[k])];
      left := left - {k};
    }
    for i := 0 to |ms|
      invariant forall v :: v in errors <==>
                  && Violates(ms, v)
                  && (v.DuplicateRevision? || (v.OverlongRevision? && v.file < i))
    {
      if |ms[i].revision| > REVISION_ID_MAX_LENGTH {
        errors := errors + [OverlongRevision(i)];
      }
    }
  }

  method PrefixErrors(ms: seq<Migration>) returns (errors: seq<Violation>)
    ensures forall v :: v in errors <==> (v.DuplicatePrefix? || v.NoPrefix?) && Violates(ms, v)
  {
    errors := [];
    for i := 0 to |ms|
      invariant forall v :: v in errors <==> v.NoPrefix? && Violates(ms, v) && v.file < i
    {
      if PrefixOf(ms[i].name).None? {
        errors := errors + [NoPrefix(i)];
      }
    }
    var groups := Repeated(PrefixKeys(ms));
    var left := groups.Keys;
    while left != {}
      invariant left <= groups.Keys
      invariant forall v :: v in errors <==>
                  && Violates(ms, v)
                  && (v.NoPrefix? || (v.DuplicatePrefix? && v.prefix !in left))
      decreases left
    {
      var k :| k in left;
      errors := errors + [DuplicatePrefix(k, groups[k])];
      left := left - {k};
    }
  }

  // ---- The graph ---------------------------------------------------------------------------------

  /** Each migration is a parent of the next. */
  ghost predicate Path(ms: seq<Migration>, p: seq<nat>) {
    && p != [] && (forall k :: 0 <= k < |p| ==> p[k] < |ms|)
    && (forall k :: 0 < k < |p| ==> ms[p[k - 1]].revision in ms[p[k]].downs)
  }

  ghost predicate PathBetween(ms: seq<Migration>, p: seq<nat>, i: nat, h: nat) {
    Path(ms, p) && p[0] == i && p[|p| - 1] == h
  }

  /** `i` is `h` or one of the revisions before it. */
  ghost predicate Before(ms: seq<Migration>, i: nat, h: nat) {
    exists p :: PathBetween(ms, p, i, h)
  }

  ghost predicate Acyclic(ms: seq<Migration>) {
    forall p :: Path(ms, p) && |p| > 1 ==> p[0] != p[|p| - 1]
  }

  ghost predicate Distinct(p: seq<nat>) {
    forall k, l :: 0 <= k < l < |p| ==> p[k] != p[l]
  }

  ghost function Below(n: nat): (b: set<nat>)
    ensures |b| == n && forall i: nat :: i in b <==> i < n
  {
    if n == 0 then {} else Below(n - 1) + {n - 1}
  }

  ghost function Members(p: seq<nat>): (m: set<nat>)
    ensures forall i: nat :: i in m <==> i in p
    ensures Distinct(p) ==> |m| == |p|
  {
    if p == [] then {}
    else
      assert Distinct(p) ==> Distinct(p[1..]) && p[0] !in p[1..];
      {p[0]} + Members(p[1..])
  }

  lemma DistinctFit(p: seq<nat>, n: nat)
    requires Distinct(p) && forall k :: 0 <= k < |p| ==> p[k] < n
    ensures |p| <= n
  {
    SubsetIsSmaller(Members(p), Below(n));
  }

  lemma {:induction false} SubsetIsSmaller(a: set<nat>, b: set<nat>)
    requires a <= b
    ensures |a| <= |b|
  {
    if a != {} {
      var x :| x in a;
      SubsetIsSmaller(a - {x}, b - {x});
    }
  }

  /** A child of the last one is not on the way. */
  lemma NewOnTheWay(ms: seq<Migration>, p: seq<nat>, c: nat)
    requires Acyclic(ms) && Path(ms, p) && c < |ms| && ms[p[|p| - 1]].revision in ms[c].downs
    ensures c !in p && Path(ms, p + [c])
  {
    forall k | 0 <= k < |p| ensures p[k] != c {
      var round := p[k..] + [c];
      assert Path(ms, round);
      assert round[0] == p[k] && round[|round| - 1] == c;
    }
  }

  /** On an acyclic graph the way from parent to child ends, at a head. */
  lemma {:induction false} Climb(ms: seq<Migration>, p: seq<nat>) returns (h: nat)
    requires Acyclic(ms) && Path(ms, p) && Distinct(p)
    ensures IsHead(ms, h) && Before(ms, p[0], h)
    decreases |ms| - |p|
  {
    h := p[|p| - 1];
    if IsHead(ms, h) {
      assert PathBetween(ms, p, p[0], h);
    } else {
      var c: nat :| c < |ms| && ms[h].revision in ms[c].downs;
      NewOnTheWay(ms, p, c);
      DistinctFit(p + [c], |ms|);
      h := Climb(ms, p + [c]);
    }
  }

  lemma EveryRevisionHasAHead(ms: seq<Migration>, i: nat) returns (h: nat)
    requires Acyclic(ms) && i < |ms|
    ensures IsHead(ms, h) && Before(ms, i, h)
  {
    h := Climb(ms, [i]);
  }

  /** Everything comes before `h`. */
  ghost predicate Top(ms: seq<Migration>, h: nat) {
    h < |ms| && forall i :: 0 <= i < |ms| ==> Before(ms, i, h)
  }

  /** A longer way leaves its start through a child of it and comes in through a parent. */
  lemma Steps(ms: seq<Migration>, p: seq<nat>)
    requires Path(ms, p) && |p| > 1
    ensures !IsHead(ms, p[0]) && ms[p[|p| - 1]].downs != []
  {
    var n := |p| - 1;
    assert ms[p[0]].revision in ms[p[1]].downs;
    assert ms[p[n - 1]].revision in ms[p[n]].downs;
  }

  /** A head is before itself alone. */
  lemma HeadIsLast(ms: seq<Migration>, i: nat, h: nat)
    requires IsHead(ms, i) && Before(ms, i, h)
    ensures i == h
  {
    var p :| PathBetween(ms, p, i, h);
    if |p| > 1 {
      Steps(ms, p);
    }
  }

  /** A root has itself alone before it. */
  lemma RootIsFirst(ms: seq<Migration>, i: nat, h: nat)
    requires Before(ms, i, h) && h < |ms| && ms[h].downs == []
    ensures i == h
  {
    var p :| PathBetween(ms, p, i, h);
    if |p| > 1 {
      Steps(ms, p);
    }
  }

  lemma StepFirst(ms: seq<Migration>, h: nat, p: seq<nat>)
    requires Path(ms, p) && h < |ms| && ms[h].revision in ms[p[0]].downs
    ensures Path(ms, [h] + p)
  {
    var longer := [h] + p;
    forall k | 0 < k < |longer| ensures ms[longer[k - 1]].revision in ms[longer[k]].downs {
      assert longer[k] == p[k - 1];
      if k > 1 {
        assert longer[k - 1] == p[k - 2];
      }
    }
  }

  lemma TopIsHead(ms: seq<Migration>, h: nat)
    requires Acyclic(ms) && Top(ms, h)
    ensures IsHead(ms, h)
  {
    forall c: nat | c < |ms| ensures ms[h].revision !in ms[c].downs {
      assert Before(ms, c, h);
      var p :| PathBetween(ms, p, c, h);
      if ms[h].revision in ms[c].downs {
        StepFirst(ms, h, p);
      }
    }
  }

  /** One head means one history: an acyclic tree has a single head if and only if one
      revision has all the others before it. */
  lemma OneHeadIff(ms: seq<Migration>)
    requires Acyclic(ms)
    ensures OneHead(ms) <==> exists h :: Top(ms, h)
  {
    if OneHead(ms) {
      var h :| IsHead(ms, h) && forall i :: IsHead(ms, i) ==> i == h;
      forall i | 0 <= i < |ms| ensures Before(ms, i, h) {
        var h' := EveryRevisionHasAHead(ms, i);
      }
      assert Top(ms, h);
    }
    if h :| Top(ms, h) {
      TopIsHead(ms, h);
      forall i | IsHead(ms, i) ensures i == h {
        HeadIsLast(ms, i, h);
      }
    }
  }

  /** What passing the guard says of a tree it judges: one head, and every revision is it or
      before it. */
  lemma CleanIsOneHistory(ms: seq<Migration>)
    requires Acyclic(ms) && Clean(ms) && !Declined(ms) && ms != []
    ensures exists h :: Top(ms, h) && IsHead(ms, h) && forall i :: IsHead(ms, i) ==> i == h
  {
    OneHeadIff(ms);
    var h :| Top(ms, h);
    TopIsHead(ms, h);
  }

  /** Two migrations with no common descendant are flagged; two unmerged children of one
      parent are such a pair. */
  lemma UnmergedIsFlagged(ms: seq<Migration>, i: nat, j: nat)
    requires Acyclic(ms) && !Declined(ms) && i < |ms| && j < |ms|
    requires forall h :: !(Before(ms, i, h) && Before(ms, j, h))
    ensures !Clean(ms)
  {
    OneHeadIff(ms);
    forall h ensures !Top(ms, h) {
      assert !(Before(ms, i, h) && Before(ms, j, h));
    }
  }

  // ---- Adding a migration ----------------------------------------------------------------------

  /** Nobody names the new revision, itself included. */
  ghost predicate Unnamed(ms: seq<Migration>, m: Migration) {
    m.revision !in m.downs && forall j :: 0 <= j < |ms| ==> m.revision !in ms[j].downs
  }

  lemma HeadsAfter(ms: seq<Migration>, m: Migration, i: nat)
    requires Unnamed(ms, m)
    ensures IsHead(ms + [m], i) <==> i == |ms| || (IsHead(ms, i) && ms[i].revision !in m.downs)
  {
    var all := ms + [m];
    assert all[|ms|] == m;
    assert forall j :: 0 <= j < |ms| ==> all[j] == ms[j];
    if i < |ms| && IsHead(all, i) {
      assert all[i].revision !in all[|ms|].downs;
      forall j | 0 <= j < |ms| ensures ms[i].revision !in ms[j].downs {
        assert all[i].revision !in all[j].downs;
      }
    }
  }

  /** A new migration leaves one head if and only if it names all the heads there were: the
      one head for an ordinary migration, every one of them for a merge. */
  lemma OneHeadAfterIff(ms: seq<Migration>, m: Migration)
    requires Unnamed(ms, m)
    ensures OneHead(ms + [m]) <==> forall i: nat :: IsHead(ms, i) ==> ms[i].revision in m.downs
  {
    forall i: nat ensures IsHead(ms + [m], i) <==> i == |ms| || (IsHead(ms, i) && ms[i].revision !in m.downs) {
      HeadsAfter(ms, m, i);
    }
    assert IsHead(ms + [m], |ms|);
  }

  /** Two pull requests that each leave one head, and neither of which names the other's
      migration, leave two heads together: whichever merges second is flagged. */
  lemma ParallelPullRequestsCollide(ms: seq<Migration>, x: Migration, y: Migration)
    requires Unnamed(ms, x) && Unnamed(ms, y)
    requires x.revision !in y.downs && y.revision !in x.downs && !Declined(ms + [x] + [y])
    ensures !Clean(ms + [x] + [y]) && !Clean(ms + [y] + [x])
  {
    Collide(ms, x, y);
    Collide(ms, y, x);
    var a, b := ms + [x] + [y], ms + [y] + [x];
    assert a[|ms|] == x && a[|ms| + 1] == y && b[|ms|] == y && b[|ms| + 1] == x;
    forall i | 0 <= i < |b| ensures !b[i].dependsOn && !b[i].branchLabels {
      assert b[i] == a[if i < |ms| then i else if i == |ms| then i + 1 else i - 1];
    }
  }

  lemma Collide(ms: seq<Migration>, x: Migration, y: Migration)
    requires Unnamed(ms, x) && Unnamed(ms, y)
    requires x.revision !in y.downs && y.revision !in x.downs
    ensures !OneHead(ms + [x] + [y])
  {
    HeadsAfter(ms, x, |ms|);
    forall j | 0 <= j < |ms + [x]| ensures y.revision !in (ms + [x])[j].downs {
    }
    OneHeadAfterIff(ms + [x], y);
    assert (ms + [x])[|ms|] == x;
    assert IsHead(ms + [x], |ms|);
  }

  // ---- What the head count does not see --------------------------------------------------------

  /** The same migration with the parent `d` misspelt as `u`. */
  function Misspelt(m: Migration, d: string, u: string): Migration {
    m.(downs := seq(|m.downs|, k requires 0 <= k < |m.downs| => if m.downs[k] == d then u else m.downs[k]))
  }

  lemma MisspeltNames(m: Migration, d: string, u: string, r: string)
    requires r != u
    ensures r in Misspelt(m, d, u).downs <==> r in m.downs && r != d
  {
    var downs := Misspelt(m, d, u).downs;
    if r in m.downs && r != d {
      var k :| 0 <= k < |m.downs| && m.downs[k] == r;
      assert downs[k] == r;
    }
  }

  /** No migration but `j` names `d`. */
  ghost predicate OnlyChild(ms: seq<Migration>, j: nat, d: string) {
    forall k :: 0 <= k < |ms| && k != j ==> d !in ms[k].downs
  }

  lemma HeadsMisspelt(ms: seq<Migration>, j: nat, d: string, u: string, i: nat)
    requires j < |ms| && d in ms[j].downs
    requires forall k :: 0 <= k < |ms| ==> ms[k].revision != u
    ensures IsHead(ms[j := Misspelt(ms[j], d, u)], i) <==>
            IsHead(ms, i) || (i < |ms| && ms[i].revision == d && OnlyChild(ms, j, d))
  {
    var ms' := ms[j := Misspelt(ms[j], d, u)];
    if i < |ms| {
      assert ms'[i].revision == ms[i].revision;
      MisspeltNames(ms[j], d, u, ms[i].revision);
      assert forall k :: 0 <= k < |ms| && k != j ==> ms'[k] == ms[k];
      if IsHead(ms', i) {
        forall k | 0 <= k < |ms| && k != j ensures ms[i].revision !in ms[k].downs {
          assert ms[i].revision !in ms'[k].downs;
        }
        assert ms[i].revision !in ms'[j].downs;
      }
    }
  }

  /** In a clean tree that the guard judges, a parent id misspelt as an unknown one is flagged if
      and only if some revision had that id and no other migration names it. A root whose parent
      was unknown anyway, or a parent with a second child, goes unnoticed. */
  lemma MisspeltFlaggedIff(ms: seq<Migration>, j: nat, d: string, u: string)
    requires Clean(ms) && !Declined(ms) && j < |ms| && d in ms[j].downs
    requires forall k :: 0 <= k < |ms| ==> ms[k].revision != u
    ensures !Clean(ms[j := Misspelt(ms[j], d, u)]) <==>
            (exists i :: 0 <= i < |ms| && ms[i].revision == d) && OnlyChild(ms, j, d)
  {
    var ms' := ms[j := Misspelt(ms[j], d, u)];
    MisspeltOneHeadIff(ms, j, d, u);
    assert RevisionKeys(ms') == RevisionKeys(ms) && PrefixKeys(ms') == PrefixKeys(ms);
    assert !Declined(ms');
    forall i | 0 <= i < |ms| ensures ms'[i].revision == ms[i].revision && ms'[i].name == ms[i].name {
    }
  }

  lemma MisspeltOneHeadIff(ms: seq<Migration>, j: nat, d: string, u: string)
    requires OneHead(ms) && j < |ms| && d in ms[j].downs
    requires forall k :: 0 <= k < |ms| ==> ms[k].revision != u
    ensures !OneHead(ms[j := Misspelt(ms[j], d, u)]) <==>
            (exists i :: 0 <= i < |ms| && ms[i].revision == d) && OnlyChild(ms, j, d)
  {
    var ms' := ms[j := Misspelt(ms[j], d, u)];
    var h: nat :| IsHead(ms, h) && forall i :: IsHead(ms, i) ==> i == h;
    HeadsMisspelt(ms, j, d, u, h);
    if OnlyChild(ms, j, d) {
      if i: nat :| i < |ms| && ms[i].revision == d {
        HeadsMisspelt(ms, j, d, u, i);
        assert !IsHead(ms, i);
      }
    }
    forall i: nat | IsHead(ms', i) && i != h ensures i < |ms| && ms[i].revision == d && OnlyChild(ms, j, d) {
      HeadsMisspelt(ms, j, d, u, i);
    }
  }

  function Revisions(ms: seq<Migration>): set<string> {
    set i | 0 <= i < |ms| :: ms[i].revision
  }

  /** Those of the names that are among `known`. */
  function Among(names: seq<string>, known: set<string>): (r: seq<string>)
    ensures forall n :: n in r <==> n in names && n in known
  {
    if names == [] then []
    else (if names[0] in known then [names[0]] else []) + Among(names[1..], known)
  }

  /** The tree without the parents that no revision has. */
  function KnownOnly(ms: seq<Migration>): (r: seq<Migration>)
    ensures |r| == |ms|
  {
    seq(|ms|, i requires 0 <= i < |ms| => ms[i].(downs := Among(ms[i].downs, Revisions(ms))))
  }

  lemma HeadsKnownOnly(ms: seq<Migration>, i: nat)
    ensures IsHead(KnownOnly(ms), i) <==> IsHead(ms, i)
  {
    var r := KnownOnly(ms);
    if i < |ms| {
      assert ms[i].revision in Revisions(ms);
      forall j | 0 <= j < |ms| ensures r[i].revision in r[j].downs <==> ms[i].revision in ms[j].downs {
      }
    }
  }

  /** An unknown parent -- misspelt, deleted or never there -- is not noticed as such, in any tree:
      the report is the one on the tree without the name. A deleted file is noticed only for the
      heads that it leaves behind. */
  lemma UnknownParentsIgnored(ms: seq<Migration>)
    ensures Clean(KnownOnly(ms)) <==> Clean(ms)
    ensures forall v :: Violates(KnownOnly(ms), v) <==> Violates(ms, v)
  {
    var r := KnownOnly(ms);
    assert RevisionKeys(r) == RevisionKeys(ms) && PrefixKeys(r) == PrefixKeys(ms);
    forall i | 0 <= i < |ms| ensures r[i].name == ms[i].name && r[i].revision == ms[i].revision
      && r[i].dependsOn == ms[i].dependsOn && r[i].branchLabels == ms[i].branchLabels
    {
    }
    assert Declined(r) <==> Declined(ms);
    SameHeadList(ms);
    forall i: nat ensures IsHead(r, i) <==> IsHead(ms, i) {
      HeadsKnownOnly(ms, i);
    }
  }

  lemma SameHeadList(ms: seq<Migration>)
    ensures Heads(KnownOnly(ms)) == Heads(ms)
  {
    forall i | 0 <= i < |ms|
      ensures KnownOnly(ms)[i].revision in Parents(KnownOnly(ms)) <==> ms[i].revision in Parents(ms)
    {
      HeadsKnownOnly(ms, i);
      HeadOrParent(ms, i);
      HeadOrParent(KnownOnly(ms), i);
    }
    SameAmong(ms, |ms|);
  }

  lemma HeadOrParent(ms: seq<Migration>, i: nat)
    requires i < |ms|
    ensures IsHead(ms, i) <==> ms[i].revision !in Parents(ms)
  {
  }

  lemma {:induction false} SameAmong(ms: seq<Migration>, n: nat)
    requires n <= |ms|
    requires forall i :: 0 <= i < |ms| ==>
               (KnownOnly(ms)[i].revision in Parents(KnownOnly(ms)) <==> ms[i].revision in Parents(ms))
    ensures HeadsAmong(KnownOnly(ms), Parents(KnownOnly(ms)), n) == HeadsAmong(ms, Parents(ms), n)
  {
    if n > 0 {
      SameAmong(ms, n - 1);
    }
  }

  /** Where the `i`-th migration stood before the one at `n` was deleted. */
  function Formerly(n: nat, i: nat): nat {
    if i < n then i else i + 1
  }

  /** After its deletion a migration's parent that nobody else names is a head. */
  ghost predicate Orphaned(ms: seq<Migration>, m: Migration, i: nat) {
    IsHead(ms, i) && ms[i].revision in m.downs
  }

  lemma HeadsDeleted(a: seq<Migration>, m: Migration, b: seq<Migration>, i: nat)
    requires i < |a + b|
    ensures IsHead(a + b, i) <==> IsHead(a + [m] + b, Formerly(|a|, i)) || Orphaned(a + b, m, i)
  {
    var ms, left := a + [m] + b, a + b;
    assert forall j :: 0 <= j < |left| ==> left[j] == ms[Formerly(|a|, j)];
    assert ms[|a|] == m;
    if IsHead(ms, Formerly(|a|, i)) {
      forall j | 0 <= j < |left| ensures left[i].revision !in left[j].downs {
        assert ms[Formerly(|a|, i)].revision !in ms[Formerly(|a|, j)].downs;
      }
    }
    if IsHead(left, i) && left[i].revision !in m.downs {
      forall j | 0 <= j < |ms| ensures left[i].revision !in ms[j].downs {
        assert j < |a| ==> ms[j] == left[j];
        assert j > |a| ==> ms[j] == left[j - 1];
      }
    }
  }

  /** Deleting a migration that others build on, from a clean tree that the guard judges, is
      flagged if and only if it leaves a parent of its own without a child. The deletion of a
      root, in particular, goes unnoticed. */
  lemma DeletedFlaggedIff(a: seq<Migration>, m: Migration, b: seq<Migration>)
    requires Clean(a + [m] + b) && !Declined(a + [m] + b)
    requires exists j :: 0 <= j < |a + b| && m.revision in (a + b)[j].downs
    ensures !Clean(a + b) <==> exists i :: Orphaned(a + b, m, i)
  {
    OneHeadDeletedIff(a, m, b);
    DeletedOtherwiseClean(a, m, b);
  }

  lemma DeletedOtherwiseClean(a: seq<Migration>, m: Migration, b: seq<Migration>)
    requires Clean(a + [m] + b) && !Declined(a + [m] + b) && a + b != []
    ensures Clean(a + b) <==> OneHead(a + b)
  {
    var ms, left := a + [m] + b, a + b;
    forall j | 0 <= j < |left| ensures left[j] == ms[Formerly(|a|, j)] {
    }
    assert forall j :: 0 <= j < |left| ==> RevisionKeys(left)[j] == RevisionKeys(ms)[Formerly(|a|, j)];
    assert forall j :: 0 <= j < |left| ==> PrefixKeys(left)[j] == PrefixKeys(ms)[Formerly(|a|, j)];
    assert !Declined(left);
  }

  lemma OneHeadDeletedIff(a: seq<Migration>, m: Migration, b: seq<Migration>)
    requires OneHead(a + [m] + b)
    requires exists j :: 0 <= j < |a + b| && m.revision in (a + b)[j].downs
    ensures OneHead(a + b) <==> forall i :: !Orphaned(a + b, m, i)
  {
    var ms, left := a + [m] + b, a + b;
    var h: nat :| IsHead(ms, h) && forall i :: IsHead(ms, i) ==> i == h;
    NotTheHead(a, m, b);
    var h' := if h < |a| then h else h - 1;
    assert Formerly(|a|, h') == h;
    HeadsDeleted(a, m, b, h');
    forall i: nat | IsHead(left, i) && i != h' ensures Orphaned(left, m, i) {
      HeadsDeleted(a, m, b, i);
      assert Formerly(|a|, i) != h;
    }
    forall i: nat | Orphaned(left, m, i) ensures i != h' {
      assert ms[|a|] == m && left[i] == ms[Formerly(|a|, i)];
      assert !IsHead(ms, Formerly(|a|, i));
    }
  }

  lemma NotTheHead(a: seq<Migration>, m: Migration, b: seq<Migration>)
    requires exists j :: 0 <= j < |a + b| && m.revision in (a + b)[j].downs
    ensures !IsHead(a + [m] + b, |a|)
  {
    var j :| 0 <= j < |a + b| && m.revision in (a + b)[j].downs;
    assert (a + [m] + b)[Formerly(|a|, j)] == (a + b)[j];
    assert (a + [m] + b)[|a|] == m;
  }

  /** An unknown parent alone does not make a tree unclean. */
  lemma UnknownParentPasses()
    ensures Clean([Migration("1_a", "a", ["z"], false, false)])
  {
    var m := Migration("1_a", "a", ["z"], false, false);
    PrefixDigit('1', 'a');
    assert IsHead([m], 0);
  }

  /** Nor does a cycle beside the one head, here a migration that names itself: acyclicity is
      needed for what a head means. */
  lemma CyclePasses(ms: seq<Migration>)
    requires ms == [Migration("1_a", "a", [], false, false), Migration("2_b", "b", ["b"], false, false)]
    ensures Clean(ms) && !Declined(ms) && !Acyclic(ms) && forall h :: !Top(ms, h)
  {
    CycleIsClean(ms);
    assert ms[1].downs[0] == "b";
    assert Path(ms, [1, 1]);
    forall h ensures !Top(ms, h) {
      if Top(ms, h) {
        assert IsHead(ms, 0) && Before(ms, 0, h) && Before(ms, 1, h);
        HeadIsLast(ms, 0, h);
        RootIsFirst(ms, 1, h);
      }
    }
  }

  lemma CycleIsClean(ms: seq<Migration>)
    requires ms == [Migration("1_a", "a", [], false, false), Migration("2_b", "b", ["b"], false, false)]
    ensures Clean(ms)
  {
    CycleKeysDiffer(ms);
    CycleHasOneHead(ms);
    forall i | 0 <= i < |ms| ensures |ms[i].revision| <= REVISION_ID_MAX_LENGTH && PrefixOf(ms[i].name).Some? {
      PrefixDigit('1', 'a');
      PrefixDigit('2', 'b');
    }
  }

  lemma CycleKeysDiffer(ms: seq<Migration>)
    requires ms == [Migration("1_a", "a", [], false, false), Migration("2_b", "b", ["b"], false, false)]
    ensures AllDifferent(RevisionKeys(ms)) && AllDifferent(PrefixKeys(ms))
  {
    PrefixDigit('1', 'a');
    PrefixDigit('2', 'b');
    assert RevisionKeys(ms)[0] == Some("a") && RevisionKeys(ms)[1] == Some("b");
    assert PrefixKeys(ms)[0] == Some("1") && PrefixKeys(ms)[1] == Some("2");
  }

  lemma CycleHasOneHead(ms: seq<Migration>)
    requires ms == [Migration("1_a", "a", [], false, false), Migration("2_b", "b", ["b"], false, false)]
    ensures OneHead(ms)
  {
    assert "a"[0] != "b"[0];
    assert ms[1].downs[0] == "b";
    forall j | 0 <= j < |ms| ensures ms[0].revision !in ms[j].downs {
    }
    assert IsHead(ms, 0);
    forall i | IsHead(ms, i) ensures i == 0 {
      assert ms[1].revision in ms[1].downs;
    }
  }

  lemma PrefixDigit(d: char, c: char)
    requires IsDigit(d)
    ensures PrefixOf([d, '_', c]) == Some([d])
  {
    var s := [d, '_', c];
    assert s[1..] == ['_', c];
    assert DigitsRun(['_', c]) == 0;
    assert DigitsRun(s) == 1;
    assert s[..1] == [d];
  }
}
