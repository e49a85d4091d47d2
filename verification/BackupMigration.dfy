/** The migration that retires `backup_interval_hours` into backup schedules, and its
    downgrade (api/migrations/versions/0031_retire_backup_interval.py).
 */
module BackupMigration {
  import opened Wrappers
  import opened Decimals

  const KEY := "backup_interval_hours"
  const BASE_NAME := "Scheduled backup"
  const SECONDS_PER_HOUR: int := 3600
  const INT4_MAX: int := 0x7FFF_FFFF
  const INT4_MIN: int := -0x8000_0000

  /** _MAX_HOURS */
  const MAX_HOURS: int := INT4_MAX / SECONDS_PER_HOUR

  /** A JSON value as far as the migration looks at it. */
  datatype Json = Number(value: real) | NotANumber(text: string)

  datatype Server = Server(config: map<string, Json>)

  datatype Schedule = Schedule(
    server: nat,
    name: string,
    action: string,
    cron: Option<string>,
    interval: Option<int>,
    enabled: bool,
    nextRunAt: Option<real>,
    createdAt: int
  ) {
    /** What the downgrade's query selects. */
    predicate Eligible() {
      action == "backup" && enabled && cron.None? && interval.Some? && interval.value % SECONDS_PER_HOUR == 0
    }
  }

  datatype Tables = Tables(servers: map<nat, Server>, schedules: map<nat, Schedule>) {

    predicate Keyed(s: nat) {
      s in servers && KEY in servers[s].config
    }

    /** UNIQUE(server_id, name) */
    ghost predicate Unique() {
      forall i, j :: i in schedules && j in schedules && i != j && schedules[i].server == schedules[j].server
        ==> schedules[i].name != schedules[j].name
    }

    /** interval_seconds is an int4 column. */
    ghost predicate IntervalsFit() {
      forall i :: i in schedules && schedules[i].interval.Some?
        ==> INT4_MIN <= schedules[i].interval.value <= INT4_MAX
    }

    function NamesOf(s: nat): set<string> {
      set i | i in schedules && schedules[i].server == s :: schedules[i].name
    }
  }

  // ---- _valid_hours and _unique_name -----------------------------------------------------

  /** The value is the number `n`. */
  predicate IsHours(v: Json, n: int) {
    v == Number(n as real)
  }

  /** A JSON number that is a whole number of hours, at least one, and fits. */
  function ValidHours(v: Json): (h: Option<int>)
    ensures h.Some? ==> 1 <= h.value && SECONDS_PER_HOUR <= h.value * SECONDS_PER_HOUR <= INT4_MAX
    ensures h.Some? ==> v == Number(h.value as real)
    ensures h.None? ==> forall n :: 1 <= n <= MAX_HOURS ==> !IsHours(v, n)
  {
    if v.NotANumber? then None
    else if v.value < 1.0 || v.value > MAX_HOURS as real || v.value != v.value.Floor as real then None
    else
      assert v.value == v.value.Floor as real && 1 <= v.value.Floor <= MAX_HOURS;
      Some(v.value.Floor)
  }

  function Suffixed(n: nat): string {
    BASE_NAME + " " + Numeral(n)
  }

  lemma SuffixedInjective(m: nat, n: nat)
    requires Suffixed(m) == Suffixed(n)
    ensures m == n
  {
    assert Suffixed(m)[|BASE_NAME| + 1..] == Numeral(m);
    assert Suffixed(n)[|BASE_NAME| + 1..] == Numeral(n);
    NumeralInjective(m, n);
  }

  /** The first suffix from `n` on that is free. Each taken one uses up a different existing
      name, so the search ends. */
  ghost function FirstFree(existing: set<string>, n: nat): nat
    decreases |existing|
  {
    if Suffixed(n) in existing then FirstFree(existing - {Suffixed(n)}, n + 1) else n
  }

  /** It is free, and none before it is. */
  lemma {:induction false} FirstFreeIsFirst(existing: set<string>, n: nat)
    ensures n <= FirstFree(existing, n) <= n + |existing|
    ensures Suffixed(FirstFree(existing, n)) !in existing
    ensures forall k :: n <= k < FirstFree(existing, n) ==> Suffixed(k) in existing
    decreases |existing|
  {
    if Suffixed(n) in existing {
      FirstFreeIsFirst(existing - {Suffixed(n)}, n + 1);
      if Suffixed(FirstFree(existing, n)) == Suffixed(n) {
        SuffixedInjective(FirstFree(existing, n), n);
      }
    }
  }

  ghost function UniqueName(existing: set<string>): string {
    if BASE_NAME !in existing then BASE_NAME else Suffixed(FirstFree(existing, 2))
  }

  lemma UniqueNameIsFree(existing: set<string>)
    ensures UniqueName(existing) !in existing
  {
    FirstFreeIsFirst(existing, 2);
  }

  /** The plain name if it is free, and otherwise the plain name with the least number from 2 on
      that makes it free. */
  ghost predicate NamedFreely(existing: set<string>, name: string) {
    && name !in existing
    && (name == "Scheduled backup"
        || ("Scheduled backup" in existing
            && exists n :: n >= 2 && name == Numbered(n) && forall k :: 2 <= k < n ==> Numbered(k) in existing))
  }

  function Numbered(n: nat): string {
    "Scheduled backup" + " " + Numeral(n)
  }

  lemma UniqueNameIs(existing: set<string>)
    ensures NamedFreely(existing, UniqueName(existing))
  {
    FirstFreeIsFirst(existing, 2);
    if BASE_NAME in existing {
      var n := FirstFree(existing, 2);
      assert UniqueName(existing) == Numbered(n);
      forall k | 2 <= k < n ensures Numbered(k) in existing {
        assert Numbered(k) == Suffixed(k);
      }
    }
  }

  method FindUniqueName(existing: set<string>) returns (name: string)
    ensures name == UniqueName(existing) && NamedFreely(existing, name)
  {
    UniqueNameIs(existing);
    if BASE_NAME !in existing {
      return BASE_NAME;
    }
    var suffix := 2;
    ghost var left := existing;
    while Suffixed(suffix) in existing
      invariant suffix >= 2 && left <= existing
      invariant forall k :: suffix <= k && Suffixed(k) in existing ==> Suffixed(k) in left
      invariant FirstFree(left, suffix) == FirstFree(existing, 2)
      decreases |left|
    {
      forall k | suffix < k ensures Suffixed(k) != Suffixed(suffix) {
        if Suffixed(k) == Suffixed(suffix) {
          SuffixedInjective(k, suffix);
        }
      }
      left := left - {Suffixed(suffix)};
      suffix := suffix + 1;
    }
    return Suffixed(suffix);
  }

  // ---- upgrade ---------------------------------------------------------------------------------

  /** One row of the upgrade's query, with the id and the random number drawn for it. */
  datatype Row = Row(server: nat, schedule: nat, draw: real)

  /** random() * min(interval_seconds, 3600) after now */
  function FirstRun(now: real, draw: real, interval: int): real {
    now + draw * (if interval < SECONDS_PER_HOUR then interval else SECONDS_PER_HOUR) as real
  }

  ghost function Migrated(t: Tables, r: Row, hours: int, now: int): Schedule {
    var interval := hours * SECONDS_PER_HOUR;
    Schedule(r.server, UniqueName(t.NamesOf(r.server)), "backup", None, Some(interval), true,
             Some(FirstRun(now as real, r.draw, interval)), now)
  }

  /** The hours a keyed server converts to, if any. */
  function HoursOf(t: Tables, s: nat): Option<int> {
    if t.Keyed(s) then ValidHours(t.servers[s].config[KEY]) else None
  }

  function StripKey(servers: map<nat, Server>, s: nat): map<nat, Server> {
    if s in servers then servers[s := Server(servers[s].config - {KEY})] else servers
  }

  /** One turn of the upgrade's loop. */
  ghost function UpgradeOne(t: Tables, r: Row, now: int): Tables {
    var hours := HoursOf(t, r.server);
    Tables(StripKey(t.servers, r.server),
           if hours.None? then t.schedules else t.schedules[r.schedule := Migrated(t, r, hours.value, now)])
  }

  ghost function UpgradeAll(t: Tables, rows: seq<Row>, now: int): Tables {
    if rows == [] then t else UpgradeOne(UpgradeAll(t, rows[..|rows| - 1], now), rows[|rows| - 1], now)
  }

  /** The rows are the keyed servers, once each, with fresh schedule ids and draws in [0, 1). */
  ghost predicate UpgradeRows(t: Tables, rows: seq<Row>) {
    && (forall k :: 0 <= k < |rows| ==> t.Keyed(rows[k].server))
    && (forall s :: t.Keyed(s) ==> exists k :: 0 <= k < |rows| && rows[k].server == s)
    && DistinctRows(t, rows)
  }

  ghost predicate DistinctRows(t: Tables, rows: seq<Row>) {
    && (forall k, l :: 0 <= k < l < |rows| ==> rows[k].server != rows[l].server && rows[k].schedule != rows[l].schedule)
    && (forall k :: 0 <= k < |rows| ==> rows[k].schedule !in t.schedules && 0.0 <= rows[k].draw < 1.0)
  }

  ghost predicate Among(rows: seq<Row>, s: nat) {
    exists k :: 0 <= k < |rows| && rows[k].server == s
  }

  /** The outcome, described from the original tables alone: every visited server loses the key
      and nothing else; the schedules gain one row per visited server with valid hours, and
      keep all the others. */
  ghost predicate Upgraded(t: Tables, rows: seq<Row>, now: int, t': Tables) {
    && t'.servers.Keys == t.servers.Keys
    && (forall s :: s in t.servers ==>
          t'.servers[s] == if Among(rows, s) then Server(t.servers[s].config - {KEY}) else t.servers[s])
    && (forall i :: i in t.schedules ==> i in t'.schedules && t'.schedules[i] == t.schedules[i])
    && (forall k :: 0 <= k < |rows| && HoursOf(t, rows[k].server).Some? ==>
          && rows[k].schedule in t'.schedules
          && t'.schedules[rows[k].schedule] == Migrated(t, rows[k], HoursOf(t, rows[k].server).value, now))
    && (forall i :: i in t'.schedules && i !in t.schedules ==>
          exists k :: 0 <= k < |rows| && HoursOf(t, rows[k].server).Some? && rows[k].schedule == i)
  }

  /** No row before this one touched its server's key, or named a schedule for it. */
  lemma UntouchedSoFar(t: Tables, rows: seq<Row>, now: int, t': Tables, r: Row)
    requires DistinctRows(t, rows + [r]) && Upgraded(t, rows, now, t')
    ensures HoursOf(t', r.server) == HoursOf(t, r.server)
    ensures t'.NamesOf(r.server) == t.NamesOf(r.server)
    ensures r.schedule !in t'.schedules
  {
    assert forall k :: 0 <= k < |rows| ==> (rows + [r])[k] == rows[k];
    assert (rows + [r])[|rows|] == r;
    assert !Among(rows, r.server);
    forall i | i in t'.schedules && t'.schedules[i].server == r.server ensures i in t.schedules {
    }
    forall i | i in t.schedules ensures i in t'.schedules && t'.schedules[i] == t.schedules[i] {
    }
  }

  lemma UpgradeStep(t: Tables, rows: seq<Row>, now: int, t': Tables, r: Row)
    requires DistinctRows(t, rows + [r]) && Upgraded(t, rows, now, t')
    ensures Upgraded(t, rows + [r], now, UpgradeOne(t', r, now))
  {
    UntouchedSoFar(t, rows, now, t', r);
    var all := rows + [r];
    assert forall k :: 0 <= k < |rows| ==> all[k] == rows[k];
    assert all[|rows|] == r;
    forall s ensures Among(all, s) <==> Among(rows, s) || s == r.server {
    }
  }

  lemma {:induction false} UpgradeAllUpgrades(t: Tables, rows: seq<Row>, now: int)
    requires DistinctRows(t, rows)
    ensures Upgraded(t, rows, now, UpgradeAll(t, rows, now))
  {
    if rows == [] {
      assert forall s :: !Among(rows, s);
    } else {
      var n := |rows| - 1;
      assert rows[..n] + [rows[n]] == rows;
      UpgradeAllUpgrades(t, rows[..n], now);
      UpgradeStep(t, rows[..n], now, UpgradeAll(t, rows[..n], now), rows[n]);
    }
  }

  /** The key is gone everywhere, and nothing else in any configuration has changed. */
  lemma UpgradeStripsTheKey(t: Tables, rows: seq<Row>, now: int, s: nat)
    requires UpgradeRows(t, rows) && s in t.servers
    ensures var t' := UpgradeAll(t, rows, now);
            s in t'.servers && t'.servers[s].config == t.servers[s].config - {KEY}
  {
    UpgradeAllUpgrades(t, rows, now);
    if !t.Keyed(s) {
      assert !Among(rows, s);
      assert t.servers[s].config - {KEY} == t.servers[s].config;
    }
  }

  /** The schedules of `s` that `t'` has and `t` has not. */
  ghost function Added(t: Tables, t': Tables, s: nat): set<nat> {
    set i | i in t'.schedules && i !in t.schedules && t'.schedules[i].server == s
  }

  lemma NoneAdded(t: Tables, rows: seq<Row>, now: int, t': Tables, s: nat)
    requires Upgraded(t, rows, now, t') && HoursOf(t, s).None?
    ensures Added(t, t', s) == {}
  {
    forall i | i in t'.schedules && i !in t.schedules ensures t'.schedules[i].server != s {
      var k :| 0 <= k < |rows| && HoursOf(t, rows[k].server).Some? && rows[k].schedule == i;
    }
  }

  lemma OneAdded(t: Tables, rows: seq<Row>, now: int, t': Tables, k: nat)
    requires DistinctRows(t, rows) && Upgraded(t, rows, now, t')
    requires k < |rows| && HoursOf(t, rows[k].server).Some?
    ensures Added(t, t', rows[k].server) == {rows[k].schedule}
  {
    forall i | i in Added(t, t', rows[k].server) ensures i == rows[k].schedule {
      AddedIsIts(t, rows, now, t', k, i);
    }
    assert rows[k].schedule in Added(t, t', rows[k].server);
  }

  lemma AddedIsIts(t: Tables, rows: seq<Row>, now: int, t': Tables, k: nat, i: nat)
    requires DistinctRows(t, rows) && Upgraded(t, rows, now, t')
    requires k < |rows| && i in Added(t, t', rows[k].server)
    ensures i == rows[k].schedule
  {
    var l :| 0 <= l < |rows| && HoursOf(t, rows[l].server).Some? && rows[l].schedule == i;
    assert t'.schedules[i] == Migrated(t, rows[l], HoursOf(t, rows[l].server).value, now);
    assert rows[l].server == rows[k].server;
  }

  /** `t'` has one more schedule of `s` than `t`: enabled, with that interval, due within the
      hour, so that the runner picks it up. */
  ghost predicate HasOneMore(t: Tables, t': Tables, s: nat, hours: int, now: int) {
    exists i :: i in t'.schedules && Added(t, t', s) == {i} && MigratedFor(t, t'.schedules[i], s, hours, now)
  }

  lemma OneMore(t: Tables, rows: seq<Row>, now: int, t': Tables, k: nat)
    requires DistinctRows(t, rows) && Upgraded(t, rows, now, t')
    requires k < |rows| && HoursOf(t, rows[k].server).Some?
    ensures HasOneMore(t, t', rows[k].server, HoursOf(t, rows[k].server).value, now)
  {
    OneAdded(t, rows, now, t', k);
    DueSoon(t, rows[k], HoursOf(t, rows[k].server).value, now);
    assert rows[k].schedule in t'.schedules;
  }

  /** A server with a valid value gets exactly one schedule, any other server none. */
  lemma UpgradeAddsOneEach(t: Tables, rows: seq<Row>, now: int, s: nat)
    requires UpgradeRows(t, rows)
    ensures match HoursOf(t, s)
            case None => Added(t, UpgradeAll(t, rows, now), s) == {}
            case Some(h) => HasOneMore(t, UpgradeAll(t, rows, now), s, h, now)
  {
    UpgradeAllUpgrades(t, rows, now);
    if HoursOf(t, s).None? {
      NoneAdded(t, rows, now, UpgradeAll(t, rows, now), s);
    } else {
      var k :| 0 <= k < |rows| && rows[k].server == s;
      OneMore(t, rows, now, UpgradeAll(t, rows, now), k);
    }
  }

  ghost predicate MigratedFor(t: Tables, m: Schedule, s: nat, hours: int, now: int) {
    && m.Eligible() && m.server == s && m.createdAt == now
    && m.action == "backup" && m.enabled && m.cron.None?
    && m.interval == Some(hours * SECONDS_PER_HOUR)
    && NamedFreely(t.NamesOf(s), m.name)
    && m.nextRunAt.Some? && now as real <= m.nextRunAt.value < (now + SECONDS_PER_HOUR) as real
  }

  lemma DueSoon(t: Tables, r: Row, hours: int, now: int)
    requires hours >= 1 && 0.0 <= r.draw < 1.0
    ensures MigratedFor(t, Migrated(t, r, hours, now), r.server, hours, now)
  {
    UniqueNameIs(t.NamesOf(r.server));
    var interval := hours * SECONDS_PER_HOUR;
    assert interval >= SECONDS_PER_HOUR && interval % SECONDS_PER_HOUR == 0;
    assert FirstRun(now as real, r.draw, interval) == now as real + r.draw * 3600.0;
  }

  /** The first run is the drawn part of an hour after the migration, so that different draws
      stagger the runs of a fleet. */
  lemma DueByDraw(t: Tables, rows: seq<Row>, now: int, k: nat)
    requires UpgradeRows(t, rows) && k < |rows| && HoursOf(t, rows[k].server).Some?
    ensures var t' := UpgradeAll(t, rows, now);
            && rows[k].schedule in t'.schedules && t'.schedules[rows[k].schedule].server == rows[k].server
            && t'.schedules[rows[k].schedule].nextRunAt == Some(now as real + rows[k].draw * 3600.0)
  {
    RowIsMigrated(t, rows, now, k);
    DrawnPart(t, rows[k], HoursOf(t, rows[k].server).value, now);
  }

  lemma RowIsMigrated(t: Tables, rows: seq<Row>, now: int, k: nat)
    requires DistinctRows(t, rows) && k < |rows| && HoursOf(t, rows[k].server).Some?
    ensures rows[k].schedule in UpgradeAll(t, rows, now).schedules
    ensures UpgradeAll(t, rows, now).schedules[rows[k].schedule]
         == Migrated(t, rows[k], HoursOf(t, rows[k].server).value, now)
  {
    UpgradeAllUpgrades(t, rows, now);
  }

  lemma DrawnPart(t: Tables, r: Row, hours: int, now: int)
    requires hours >= 1
    ensures Migrated(t, r, hours, now).nextRunAt == Some(now as real + r.draw * 3600.0)
    ensures Migrated(t, r, hours, now).server == r.server
  {
    var interval := hours * SECONDS_PER_HOUR;
    assert interval >= SECONDS_PER_HOUR;
    assert FirstRun(now as real, r.draw, interval) == now as real + r.draw * 3600.0;
  }

  /** The upgrade violates neither constraint of the schedule table. */
  lemma UpgradeKeepsConstraints(t: Tables, rows: seq<Row>, now: int)
    requires UpgradeRows(t, rows) && t.Unique() && t.IntervalsFit()
    ensures UpgradeAll(t, rows, now).Unique() && UpgradeAll(t, rows, now).IntervalsFit()
  {
    UpgradeAllUpgrades(t, rows, now);
    var t' := UpgradeAll(t, rows, now);
    forall i, j | i in t'.schedules && j in t'.schedules && i != j && t'.schedules[i].server == t'.schedules[j].server
      ensures t'.schedules[i].name != t'.schedules[j].name
    {
      if i !in t.schedules {
        NewNameIsFree(t, rows, now, t', i, j);
      } else if j !in t.schedules {
        NewNameIsFree(t, rows, now, t', j, i);
      }
    }
    forall i | i in t'.schedules && i !in t.schedules
      ensures t'.schedules[i].interval.Some? && 0 <= t'.schedules[i].interval.value <= INT4_MAX
    {
      var k :| 0 <= k < |rows| && HoursOf(t, rows[k].server).Some? && rows[k].schedule == i;
    }
  }

  lemma NewNameIsFree(t: Tables, rows: seq<Row>, now: int, t': Tables, i: nat, j: nat)
    requires DistinctRows(t, rows) && Upgraded(t, rows, now, t')
    requires i in t'.schedules && j in t'.schedules && i != j && i !in t.schedules
    requires t'.schedules[i].server == t'.schedules[j].server
    ensures t'.schedules[i].name != t'.schedules[j].name
  {
    var k :| 0 <= k < |rows| && HoursOf(t, rows[k].server).Some? && rows[k].schedule == i;
    UniqueNameIsFree(t.NamesOf(rows[k].server));
    OneAdded(t, rows, now, t', k);
    assert j !in Added(t, t', rows[k].server);
    assert t.schedules[j].name in t.NamesOf(rows[k].server);
  }

  // ---- downgrade -------------------------------------------------------------------------------

  function SetHours(servers: map<nat, Server>, s: nat, hours: int): map<nat, Server> {
    if s in servers then servers[s := Server(servers[s].config[KEY := Number(hours as real)])] else servers
  }

  /** One turn of the downgrade's loop. */
  function DowngradeOne(t: Tables, i: nat): Tables {
    if i !in t.schedules || t.schedules[i].interval.None? then t
    else
      var m := t.schedules[i];
      Tables(SetHours(t.servers, m.server, m.interval.value / SECONDS_PER_HOUR), t.schedules - {i})
  }

  function DowngradeAll(t: Tables, ids: seq<nat>): Tables {
    if ids == [] then t else DowngradeOne(DowngradeAll(t, ids[..|ids| - 1]), ids[|ids| - 1])
  }

  /** The ids are the eligible schedules, once each, in an order by created_at. */
  ghost predicate DowngradeRows(t: Tables, ids: seq<nat>) {
    && (forall i :: i in ids <==> i in t.schedules && t.schedules[i].Eligible())
    && (forall k, l :: 0 <= k < l < |ids| ==>
          ids[k] != ids[l] && t.schedules[ids[k]].createdAt <= t.schedules[ids[l]].createdAt)
  }

  /** The last of these schedules that belongs to `s`. */
  function LastOf(t: Tables, ids: seq<nat>, s: nat): (i: Option<nat>)
    ensures i.Some? ==> i.value in ids && i.value in t.schedules && t.schedules[i.value].server == s
  {
    if ids == [] then None
    else
      var i := ids[|ids| - 1];
      if i in t.schedules && t.schedules[i].server == s then Some(i) else LastOf(t, ids[..|ids| - 1], s)
  }

  /** The outcome, described from the original tables alone. */
  ghost predicate Downgraded(t: Tables, ids: seq<nat>, t': Tables) {
    && t'.servers.Keys == t.servers.Keys
    && t'.schedules == t.schedules - (set i | i in ids)
    && (forall s :: s in t.servers ==>
          var last := LastOf(t, ids, s);
          t'.servers[s] ==
            if last.None? then t.servers[s]
            else Server(t.servers[s].config[KEY := Number(RestoredHours(t, last.value) as real)]))
  }

  function RestoredHours(t: Tables, i: nat): int {
    if i in t.schedules && t.schedules[i].interval.Some? then t.schedules[i].interval.value / SECONDS_PER_HOUR else 0
  }

  lemma {:induction false} DowngradeAllDowngrades(t: Tables, ids: seq<nat>)
    requires forall k :: 0 <= k < |ids| ==> ids[k] in t.schedules && t.schedules[ids[k]].interval.Some?
    requires forall k, l :: 0 <= k < l < |ids| ==> ids[k] != ids[l]
    ensures Downgraded(t, ids, DowngradeAll(t, ids))
  {
    if ids != [] {
      var n := |ids| - 1;
      DowngradeAllDowngrades(t, ids[..n]);
      DowngradeStep(t, ids[..n], DowngradeAll(t, ids[..n]), ids[n]);
      assert ids[..n] + [ids[n]] == ids;
    }
  }

  lemma LastOfMore(t: Tables, ids: seq<nat>, i: nat, s: nat)
    requires i in t.schedules
    ensures LastOf(t, ids + [i], s) == if t.schedules[i].server == s then Some(i) else LastOf(t, ids, s)
  {
    assert (ids + [i])[..|ids|] == ids;
  }

  lemma DowngradeStep(t: Tables, ids: seq<nat>, t': Tables, i: nat)
    requires Downgraded(t, ids, t') && i in t.schedules && t.schedules[i].interval.Some? && i !in ids
    ensures Downgraded(t, ids + [i], DowngradeOne(t', i))
  {
    assert i in t'.schedules && t'.schedules[i] == t.schedules[i];
    assert (set j | j in ids + [i]) == (set j | j in ids) + {i};
    forall s ensures LastOf(t, ids + [i], s) == if t.schedules[i].server == s then Some(i) else LastOf(t, ids, s) {
      LastOfMore(t, ids, i, s);
    }
    if t.schedules[i].server in t.servers {
      SetAgain(t, ids, t', i);
    }
  }

  lemma SetAgain(t: Tables, ids: seq<nat>, t': Tables, i: nat)
    requires Downgraded(t, ids, t') && i in t.schedules && t.schedules[i].interval.Some?
    requires t.schedules[i].server in t.servers
    ensures var s := t.schedules[i].server; var h := Number(RestoredHours(t, i) as real);
            t'.servers[s].config[KEY := h] == t.servers[s].config[KEY := h]
  {
  }

  /** A backup schedule in force that runs every so many whole hours. */
  ghost predicate Hourly(m: Schedule, hours: int) {
    m.action == "backup" && m.enabled && m.cron.None? && m.interval == Some(hours * 3600)
  }

  lemma EligibleIff(m: Schedule)
    ensures m.Eligible() <==> exists hours :: Hourly(m, hours)
  {
    if m.Eligible() {
      assert Hourly(m, m.interval.value / SECONDS_PER_HOUR);
    }
    if hours :| Hourly(m, hours) {
      assert hours * 3600 % SECONDS_PER_HOUR == 0;
    }
  }

  /** The downgrade deletes exactly the hourly backup schedules, and no other row changes. */
  lemma DowngradeTakes(t: Tables, ids: seq<nat>, i: nat)
    requires DowngradeRows(t, ids) && i in t.schedules
    ensures var t' := DowngradeAll(t, ids);
            && (i !in t'.schedules <==> exists hours :: Hourly(t.schedules[i], hours))
            && (i in t'.schedules ==> t'.schedules[i] == t.schedules[i])
  {
    DowngradeRowsDowngrade(t, ids);
    EligibleIff(t.schedules[i]);
  }

  /** The downgrade gives a server the key for the latest of its hourly backup schedules, and leaves
      the rest of its configuration; a server without one is not touched. */
  lemma DowngradeSets(t: Tables, ids: seq<nat>, s: nat)
    requires DowngradeRows(t, ids) && s in t.servers
    ensures var t' := DowngradeAll(t, ids);
            s in t'.servers &&
            (|| (t'.servers[s] == t.servers[s]
                 && forall i, hours :: i in t.schedules && t.schedules[i].server == s ==>
                      !Hourly(t.schedules[i], hours))
             || exists i, hours :: i in t.schedules && t.schedules[i].server == s && Hourly(t.schedules[i], hours)
                  && t'.servers[s].config == t.servers[s].config[KEY := Number(hours as real)]
                  && forall j :: j in ids && t.schedules[j].server == s ==>
                       t.schedules[j].createdAt <= t.schedules[i].createdAt)
  {
    DowngradeRowsDowngrade(t, ids);
    var last := LastOf(t, ids, s);
    if last.None? {
      forall i, hours | i in t.schedules && t.schedules[i].server == s ensures !Hourly(t.schedules[i], hours) {
        EligibleIff(t.schedules[i]);
        if i in ids {
          LastExists(t, ids, s, i);
        }
      }
    } else {
      var i := last.value;
      EligibleIff(t.schedules[i]);
      var hours :| Hourly(t.schedules[i], hours);
      assert RestoredHours(t, i) == hours;
      forall j | j in ids && t.schedules[j].server == s ensures t.schedules[j].createdAt <= t.schedules[i].createdAt {
        OrderedRows(t, ids);
        LastIsLatest(t, ids, s, j);
      }
    }
  }

  lemma OrderedRows(t: Tables, ids: seq<nat>)
    requires DowngradeRows(t, ids)
    ensures forall k :: 0 <= k < |ids| ==> ids[k] in t.schedules
  {
    assert forall k :: 0 <= k < |ids| ==> ids[k] in ids;
  }

  // ---- Round trip --------------------------------------------------------------------------------

  /** If one of these schedules belongs to `s`, there is a last one. */
  lemma {:induction false} LastExists(t: Tables, ids: seq<nat>, s: nat, i: nat)
    requires i in ids && i in t.schedules && t.schedules[i].server == s
    ensures LastOf(t, ids, s).Some?
  {
    var n := |ids| - 1;
    if !(ids[n] in t.schedules && t.schedules[ids[n]].server == s) {
      assert ids == ids[..n] + [ids[n]];
      LastExists(t, ids[..n], s, i);
    }
  }

  /** The last one has the latest created_at. */
  lemma {:induction false} LastIsLatest(t: Tables, ids: seq<nat>, s: nat, i: nat)
    requires forall k :: 0 <= k < |ids| ==> ids[k] in t.schedules
    requires forall k, l :: 0 <= k < l < |ids| ==> t.schedules[ids[k]].createdAt <= t.schedules[ids[l]].createdAt
    requires i in ids && t.schedules[i].server == s
    ensures LastOf(t, ids, s).Some? && t.schedules[LastOf(t, ids, s).value].createdAt >= t.schedules[i].createdAt
  {
    var n := |ids| - 1;
    if t.schedules[ids[n]].server != s {
      assert ids == ids[..n] + [ids[n]];
      LastIsLatest(t, ids[..n], s, i);
    }
  }

  lemma DowngradeRowsDowngrade(t: Tables, ids: seq<nat>)
    requires DowngradeRows(t, ids)
    ensures Downgraded(t, ids, DowngradeAll(t, ids))
  {
    forall k | 0 <= k < |ids| ensures ids[k] in t.schedules && t.schedules[ids[k]].interval.Some? {
      assert ids[k] in ids;
    }
    DowngradeAllDowngrades(t, ids);
  }

  /** The migration applied and taken back. */
  ghost predicate RoundTrip(t: Tables, rows: seq<Row>, now: int, t1: Tables, ids: seq<nat>) {
    && UpgradeRows(t, rows) && t1 == UpgradeAll(t, rows, now) && DowngradeRows(t1, ids)
  }

  /** The schedule the upgrade made for a valid server is among those the downgrade visits. */
  lemma MigratedIsVisited(t: Tables, rows: seq<Row>, now: int, t1: Tables, ids: seq<nat>, s: nat) returns (i: nat)
    requires RoundTrip(t, rows, now, t1, ids) && HoursOf(t, s).Some?
    ensures i in ids && i in t1.schedules && Added(t, t1, s) == {i}
    ensures MigratedFor(t, t1.schedules[i], s, HoursOf(t, s).value, now)
  {
    UpgradeAddsOneEach(t, rows, now, s);
    i :| i in t1.schedules && Added(t, t1, s) == {i} && MigratedFor(t, t1.schedules[i], s, HoursOf(t, s).value, now);
  }

  lemma RestoredExactly(t: Tables, rows: seq<Row>, now: int, t1: Tables, ids: seq<nat>, s: nat)
    requires RoundTrip(t, rows, now, t1, ids) && s in t.servers
    ensures var t2 := DowngradeAll(t1, ids);
            var last := LastOf(t1, ids, s);
            && s in t2.servers
            && t2.servers[s].config ==
                 if last.None? then t.servers[s].config - {KEY}
                 else t.servers[s].config[KEY := Number(RestoredHours(t1, last.value) as real)]
  {
    UpgradeStripsTheKey(t, rows, now, s);
    DowngradeRowsDowngrade(t1, ids);
    var last := LastOf(t1, ids, s);
    if last.Some? {
      StripThenSet(t.servers[s].config, Number(RestoredHours(t1, last.value) as real));
    }
  }

  lemma StripThenSet(config: map<string, Json>, v: Json)
    ensures (config - {KEY})[KEY := v] == config[KEY := v]
  {
  }

  /** A valid server gets its configuration back if and only if the last of its schedules that
      the downgrade visits has the interval that its key stood for. */
  lemma ValidServerRestoredIff(t: Tables, rows: seq<Row>, now: int, t1: Tables, ids: seq<nat>, s: nat)
    requires RoundTrip(t, rows, now, t1, ids) && HoursOf(t, s).Some?
    ensures var t2 := DowngradeAll(t1, ids);
            var last := LastOf(t1, ids, s);
            && s in t2.servers && last.Some?
            && (t2.servers[s] == t.servers[s] <==>
                  t1.schedules[last.value].interval == Some(HoursOf(t, s).value * SECONDS_PER_HOUR))
  {
    var i := MigratedIsVisited(t, rows, now, t1, ids, s);
    LastExists(t1, ids, s, i);
    RestoredExactly(t, rows, now, t1, ids, s);
    var last := LastOf(t1, ids, s).value;
    var m := t1.schedules[last];
    assert m.Eligible();
    var back := t.servers[s].config[KEY := Number(RestoredHours(t1, last) as real)];
    assert back[KEY] == Number(RestoredHours(t1, last) as real);
    if RestoredHours(t1, last) == HoursOf(t, s).value {
      assert back == t.servers[s].config;
    }
  }

  /** In particular when the row that the upgrade made for it is the latest of them. */
  lemma RestoredWhenLatest(t: Tables, rows: seq<Row>, now: int, t1: Tables, ids: seq<nat>, s: nat)
    requires RoundTrip(t, rows, now, t1, ids) && HoursOf(t, s).Some?
    requires forall i :: i in t.schedules && t.schedules[i].server == s && t.schedules[i].Eligible()
               ==> t.schedules[i].createdAt < now
    ensures var t2 := DowngradeAll(t1, ids); s in t2.servers && t2.servers[s] == t.servers[s]
  {
    var i := MigratedIsVisited(t, rows, now, t1, ids, s);
    ValidServerRestoredIff(t, rows, now, t1, ids, s);
    UpgradeAllUpgrades(t, rows, now);
    var last := LastOf(t1, ids, s).value;
    forall k | 0 <= k < |ids| ensures ids[k] in t1.schedules {
      assert ids[k] in ids;
    }
    LastIsLatest(t1, ids, s, i);
    if last !in t.schedules {
      assert last in Added(t, t1, s);
    }
  }

  /** What the migration can be taken back from without loss. */
  ghost predicate Reversible(t: Tables) {
    && (forall i :: i in t.schedules ==> !t.schedules[i].Eligible())
    && (forall s :: t.Keyed(s) ==> HoursOf(t, s).Some?)
  }

  /** Upgrade and downgrade together change nothing if and only if no schedule was one that the
      downgrade takes for a migrated one, and every stored value was valid. */
  lemma RoundTripIff(t: Tables, rows: seq<Row>, now: int, t1: Tables, ids: seq<nat>)
    requires RoundTrip(t, rows, now, t1, ids)
    ensures DowngradeAll(t1, ids) == t <==> Reversible(t)
  {
    if Reversible(t) {
      ReversibleReturns(t, rows, now, t1, ids);
    } else if DowngradeAll(t1, ids) == t {
      ReturnedIsReversible(t, rows, now, t1, ids);
    }
  }

  /** A server without a valid value ends up without the key, unless the downgrade takes some
      schedule of its own for a migrated one. */
  lemma NothingPutBack(t: Tables, rows: seq<Row>, now: int, t1: Tables, ids: seq<nat>, s: nat)
    requires RoundTrip(t, rows, now, t1, ids) && s in t.servers && HoursOf(t, s).None?
    requires forall i :: i in t.schedules ==> !t.schedules[i].Eligible()
    ensures var t2 := DowngradeAll(t1, ids); s in t2.servers && t2.servers[s].config == t.servers[s].config - {KEY}
  {
    RestoredExactly(t, rows, now, t1, ids, s);
    if LastOf(t1, ids, s).Some? {
      VisitedIsEligible(t, rows, now, t1, ids, LastOf(t1, ids, s).value);
    }
  }

  lemma VisitedIsEligible(t: Tables, rows: seq<Row>, now: int, t1: Tables, ids: seq<nat>, i: nat)
    requires RoundTrip(t, rows, now, t1, ids) && i in ids
    ensures i in t1.schedules
    ensures HoursOf(t, t1.schedules[i].server).Some? || (i in t.schedules && t.schedules[i].Eligible())
  {
    UpgradeAllUpgrades(t, rows, now);
    if i !in t.schedules {
      assert i in Added(t, t1, t1.schedules[i].server);
      if HoursOf(t, t1.schedules[i].server).None? {
        NoneAdded(t, rows, now, t1, t1.schedules[i].server);
      }
    }
  }

  lemma ReturnedIsReversible(t: Tables, rows: seq<Row>, now: int, t1: Tables, ids: seq<nat>)
    requires RoundTrip(t, rows, now, t1, ids) && DowngradeAll(t1, ids) == t
    ensures Reversible(t)
  {
    UpgradeAllUpgrades(t, rows, now);
    DowngradeRowsDowngrade(t1, ids);
    forall i | i in t.schedules ensures !t.schedules[i].Eligible() {
      assert i !in ids;
    }
    forall s | t.Keyed(s) ensures HoursOf(t, s).Some? {
      if HoursOf(t, s).None? {
        NothingPutBack(t, rows, now, t1, ids, s);
      }
    }
  }

  lemma ReversibleReturns(t: Tables, rows: seq<Row>, now: int, t1: Tables, ids: seq<nat>)
    requires RoundTrip(t, rows, now, t1, ids) && Reversible(t)
    ensures DowngradeAll(t1, ids) == t
  {
    UpgradeAllUpgrades(t, rows, now);
    DowngradeRowsDowngrade(t1, ids);
    SchedulesReturn(t, rows, now, t1, ids);
    ServersReturn(t, rows, now, t1, ids, DowngradeAll(t1, ids).servers);
  }

  lemma ServersReturn(t: Tables, rows: seq<Row>, now: int, t1: Tables, ids: seq<nat>, servers: map<nat, Server>)
    requires RoundTrip(t, rows, now, t1, ids) && Reversible(t)
    requires servers == DowngradeAll(t1, ids).servers && servers.Keys == t.servers.Keys
    ensures servers == t.servers
  {
    forall s | s in servers ensures servers[s] == t.servers[s] {
      ServerReturns(t, rows, now, t1, ids, s);
    }
  }

  lemma SchedulesReturn(t: Tables, rows: seq<Row>, now: int, t1: Tables, ids: seq<nat>)
    requires RoundTrip(t, rows, now, t1, ids) && Reversible(t) && Upgraded(t, rows, now, t1)
    ensures t1.schedules - (set i | i in ids) == t.schedules
  {
    VisitedAreAdded(t, rows, now, t1, ids);
  }

  lemma VisitedAreAdded(t: Tables, rows: seq<Row>, now: int, t1: Tables, ids: seq<nat>)
    requires RoundTrip(t, rows, now, t1, ids) && Reversible(t) && Upgraded(t, rows, now, t1)
    ensures forall i :: i in ids <==> i in t1.schedules && i !in t.schedules
  {
    forall i | i in t1.schedules && i !in t.schedules ensures i in ids {
      var k :| 0 <= k < |rows| && HoursOf(t, rows[k].server).Some? && rows[k].schedule == i;
      DueSoon(t, rows[k], HoursOf(t, rows[k].server).value, now);
    }
  }

  lemma ServerReturns(t: Tables, rows: seq<Row>, now: int, t1: Tables, ids: seq<nat>, s: nat)
    requires RoundTrip(t, rows, now, t1, ids) && Reversible(t) && s in t.servers
    ensures s in DowngradeAll(t1, ids).servers && DowngradeAll(t1, ids).servers[s] == t.servers[s]
  {
    if t.Keyed(s) {
      RestoredWhenLatest(t, rows, now, t1, ids, s);
    } else {
      NothingPutBack(t, rows, now, t1, ids, s);
      assert t.servers[s].config - {KEY} == t.servers[s].config;
    }
  }

  // ---- The migration as it runs ------------------------------------------------------------------

  /** The two tables, changed row by row. The rows of each query are fetched before the first
      change. */
  class Database {
    var servers: map<nat, Server>
    var schedules: map<nat, Schedule>

    constructor (t: Tables)
      ensures Value() == t
    {
      servers, schedules := t.servers, t.schedules;
    }

    function Value(): Tables
      reads this
    {
      Tables(servers, schedules)
    }

    method Upgrade(rows: seq<Row>, now: int)
      requires UpgradeRows(Value(), rows)
      modifies this
      ensures Value() == UpgradeAll(old(Value()), rows, now)
    {
      ghost var t := Value();
      var before := servers;
      var fetched := seq(|rows|, k requires 0 <= k < |rows|
                                            && rows[k].server in before && KEY in before[rows[k].server].config
        => before[rows[k].server].config[KEY]);
      for k := 0 to |rows|
        invariant Value() == UpgradeAll(t, rows[..k], now)
      {
        FetchedIsCurrent(t, rows, k, now);
        UpgradeRow(rows[k], ValidHours(fetched[k]), now);
      }
      assert rows[..|rows|] == rows;
    }

    method UpgradeRow(r: Row, hours: Option<int>, now: int)
      requires hours == HoursOf(Value(), r.server)
      modifies this
      ensures Value() == UpgradeOne(old(Value()), r, now)
    {
      if hours.Some? {
        var interval := hours.value * SECONDS_PER_HOUR;
        var name := FindUniqueName(Value().NamesOf(r.server));
        schedules := schedules[r.schedule := Schedule(r.server, name, "backup", None, Some(interval), true,
                                                      Some(FirstRun(now as real, r.draw, interval)), now)];
      }
      servers := StripKey(servers, r.server);
    }

    method Downgrade(ids: seq<nat>)
      requires DowngradeRows(Value(), ids)
      modifies this
      ensures Value() == DowngradeAll(old(Value()), ids)
    {
      ghost var t := Value();
      var before := schedules;
      for k := 0 to |ids|
        invariant Value() == DowngradeAll(t, ids[..k])
      {
        ghost var sofar := Value();
        assert ids[..k + 1][..k] == ids[..k];
        assert ids[k] in ids;
        StillThere(t, ids, k);
        var m := before[ids[k]];
        servers := SetHours(servers, m.server, m.interval.value / SECONDS_PER_HOUR);
        schedules := schedules - {ids[k]};
        assert Value() == DowngradeOne(sofar, ids[k]);
      }
      assert ids[..|ids|] == ids;
    }
  }

  /** What the upgrade fetched for a row still says its server's hours when its turn comes, and
      its turn is one more step of the specification. */
  lemma FetchedIsCurrent(t: Tables, rows: seq<Row>, k: nat, now: int)
    requires DistinctRows(t, rows) && k < |rows|
    ensures HoursOf(UpgradeAll(t, rows[..k], now), rows[k].server) == HoursOf(t, rows[k].server)
    ensures UpgradeAll(t, rows[..k + 1], now) == UpgradeOne(UpgradeAll(t, rows[..k], now), rows[k], now)
  {
    assert rows[..k + 1][..k] == rows[..k] && rows[..k] + [rows[k]] == rows[..k + 1];
    UpgradeAllUpgrades(t, rows[..k], now);
    UntouchedSoFar(t, rows[..k], now, UpgradeAll(t, rows[..k], now), rows[k]);
  }

  /** What the downgrade fetched for a row is still so when its turn comes. */
  lemma StillThere(t: Tables, ids: seq<nat>, k: nat)
    requires DowngradeRows(t, ids) && k < |ids| && ids[k] in t.schedules
    ensures var sofar := DowngradeAll(t, ids[..k]);
            ids[k] in sofar.schedules && sofar.schedules[ids[k]] == t.schedules[ids[k]]
  {
    forall l | 0 <= l < k ensures ids[..k][l] in t.schedules && t.schedules[ids[..k][l]].interval.Some? {
      assert ids[l] in ids;
    }
    DowngradeAllDowngrades(t, ids[..k]);
  }
}
