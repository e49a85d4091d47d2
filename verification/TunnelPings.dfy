/** The bound on forwarded unconnected pings: in any half-open interval of length T at most
    PINGS_PER_SECOND * ceil(T) + 4 pings of one source address are forwarded -- even across an
    eviction and re-creation of its flow. The bound is attained (TunnelPingWindow.dfy).

    The argument gives every forwarded ping a *pace*, an estimate of the start of its rate
    window that survives re-creation: five pings further on, the pace is a second later. A
    window that opens a re-created flow may start less than a second after the last one, but
    then that one forwarded a single ping, whose lookup was long before.
 */
module TunnelPings {
  import opened FlowTables
  import opened TunnelSteps
  import opened TunnelIsolation
  import opened TunnelSessions

  function Max(a: int, b: int): int {
    if a > b then a else b
  }

  /** The forwarded pings of one source address, in order. */
  function PingsFrom(log: seq<Ping>, a: Addr): seq<Ping> {
    if log == [] then []
    else
      var last, rest := log[|log| - 1], PingsFrom(log[..|log| - 1], a);
      if last.from == a then rest + [last] else rest
  }

  /** When the last window was opened. */
  function OpenedAt(es: seq<Ping>): Time {
    if es == [] then ZERO_TIME
    else if es[|es| - 1].opens then es[|es| - 1].at
    else OpenedAt(es[..|es| - 1])
  }

  /** The start of the last window once it has forwarded a second ping; before that, an estimate
      from the lookup of the ping that opened it. */
  function Pace(es: seq<Ping>): Time {
    if es == [] then ZERO_TIME
    else
      var last := es[|es| - 1];
      if last.opens then Max(Pace(es[..|es| - 1]) + SECOND, last.seen) else OpenedAt(es)
  }

  /** Pings since the last window was opened, the opening one included. */
  function RunLength(es: seq<Ping>): nat {
    if es == [] then 0
    else if es[|es| - 1].opens then 1
    else RunLength(es[..|es| - 1]) + 1
  }

  /** What the table guarantees of one address's pings. */
  ghost predicate Paced(es: seq<Ping>) {
    es != [] ==>
      var last, before := es[|es| - 1], es[..|es| - 1];
      && Paced(before)
      && (if before == [] then last.opens else before[|before| - 1].at <= last.seen)
      && last.seen <= last.at
      && RunLength(es) <= PINGS_PER_SECOND
      && Pace(es) <= OpenedAt(es) <= last.at
  }

  // ---- From the table to the pace --------------------------------------------------------------

  /** The window of a live flow is the window of its address's last pings, unless the flow
      is new: then the previous window is long over. */
  ghost predicate WindowAgrees(e: Flow, es: seq<Ping>, clock: Time) {
    && Pace(es) <= e.lastSeen + SECOND
    && (|| (e.pingWindowStart == ZERO_TIME && e.pingCount == 0 && Pace(es) + SECOND <= clock)
        || (es != [] && e.pingWindowStart == OpenedAt(es) <= clock && e.pingCount == RunLength(es)))
  }

  ghost predicate PacedAt(s: State, a: Addr) {
    var es := PingsFrom(s.log.pings, a);
    && Paced(es)
    && (if a in s.table.byAddr then WindowAgrees(s.table.byAddr[a], es, s.clock)
        else s.reader.ReaderDone? || Pace(es) + SECOND <= s.clock)
  }

  predicate HasSeen(r: Reader) {
    r.Created? || r.Promoting? || r.Started? || r.Admitted?
  }

  /** The reader works on one datagram at a time: every forwarded ping precedes the lookup
      of the current one, which refreshed the flow. */
  ghost predicate Sequential(s: State) {
    && s.clock >= ZERO_TIME + SECOND
    && (forall p :: p in s.log.pings ==> p.at <= s.clock)
    && (HasSeen(s.reader) ==>
          && ZERO_TIME <= s.reader.seen <= s.clock
          && (forall p :: p in s.log.pings ==> p.at <= s.reader.seen)
          && (s.table.Live(s.reader.id) ==> s.table.byAddr[s.table.byId[s.reader.id]].lastSeen >= s.reader.seen))
  }

  ghost predicate AllPaced(s: State) {
    Sequential(s) && forall a :: PacedAt(s, a)
  }

  lemma {:induction false} PingsFromMembers(log: seq<Ping>, a: Addr)
    ensures forall p :: p in PingsFrom(log, a) ==> p in log && p.from == a
  {
    if log != [] {
      PingsFromMembers(log[..|log| - 1], a);
    }
  }

  lemma PingsFromAppend(log: seq<Ping>, p: Ping, a: Addr)
    ensures PingsFrom(log + [p], a) == if p.from == a then PingsFrom(log, a) + [p] else PingsFrom(log, a)
  {
    assert (log + [p])[..|log|] == log;
  }

  // ---- One step: Sequential ------------------------------------------------------------------------

  lemma LookupSequential(s: State, d: Datagram)
    requires Ids(s) && Clocked(s) && Sequential(s) && Enabled(s, Lookup(d))
    ensures Sequential(Do(s, Lookup(d)))
  {
    if d.from in s.table.byAddr {
      assert s.table.byId[s.table.byAddr[d.from].id] == d.from;
    }
  }

  lemma PingSequential(s: State)
    requires Sequential(s) && Enabled(s, CheckPing)
    ensures Sequential(Do(s, CheckPing))
  {
  }

  lemma ReceiveSequential(s: State, id: nat)
    requires Clocked(s) && Sequential(s) && Enabled(s, Receive(id))
    ensures Sequential(Do(s, Receive(id)))
  {
  }

  lemma OtherSequential(s: State, step: Step)
    requires Ids(s) && Sequential(s) && Enabled(s, step)
    requires !step.Lookup? && !step.CheckPing? && !step.Receive?
    ensures Sequential(Do(s, step))
  {
    if step.Create? || step.StorePromotion? || step.Evict? || step.Drain? {
      TableSequential(s, step);
    } else {
      QuietSequential(s, step);
    }
  }

  lemma TableSequential(s: State, step: Step)
    requires Ids(s) && Sequential(s) && Enabled(s, step)
    requires step.Create? || step.StorePromotion? || step.Evict? || step.Drain?
    ensures Sequential(Do(s, step))
  {
    assert Do(s, step).log.pings == s.log.pings && Do(s, step).clock == s.clock;
  }

  lemma QuietSequential(s: State, step: Step)
    requires Sequential(s) && Enabled(s, step)
    requires !step.Lookup? && !step.CheckPing? && !step.Receive?
    requires !step.Create? && !step.StorePromotion? && !step.Evict? && !step.Drain?
    ensures Sequential(Do(s, step))
  {
    var s' := Do(s, step);
    assert s'.log.pings == s.log.pings && s'.table == s.table && s'.clock >= s.clock;
    assert HasSeen(s'.reader) ==> HasSeen(s.reader) && s'.reader.seen == s.reader.seen && s'.reader.id == s.reader.id;
  }

  lemma StepSequential(s: State, step: Step)
    requires Ids(s) && Clocked(s) && Sequential(s) && Enabled(s, step)
    ensures Sequential(Do(s, step))
  {
    match step
    case Lookup(d) => LookupSequential(s, d);
    case CheckPing => PingSequential(s);
    case Receive(id) => ReceiveSequential(s, id);
    case _ => OtherSequential(s, step);
  }

  // ---- One step: PacedAt ---------------------------------------------------------------------------------

  /** Allowing a ping on flow `e` at `now` extends its address's paced pings. */
  lemma AllowPaced(e: Flow, es: seq<Ping>, p: Ping, now: Time)
    requires Paced(es) && WindowAgrees(e, es, now) && now >= ZERO_TIME + SECOND
    requires forall q :: q in es ==> q.at <= p.seen
    requires p.at == now && ZERO_TIME <= p.seen <= now && p.seen <= e.lastSeen
    requires p.opens == (now - e.pingWindowStart >= SECOND)
    requires !p.opens ==> e.pingCount < PINGS_PER_SECOND
    ensures Paced(es + [p])
    ensures
      var e' := if p.opens then e.(pingWindowStart := now, pingCount := 1) else e.(pingCount := e.pingCount + 1);
      WindowAgrees(e', es + [p], now)
  {
    assert (es + [p])[..|es|] == es;
    if es != [] {
      assert es[|es| - 1] in es;
    }
  }

  /** The ping a check admits is logged under the flow it was counted on. */
  lemma PingLogged(s: State) returns (p: Ping)
    requires Ids(s) && Sequential(s) && Enabled(s, CheckPing)
    requires s.table.AllowPing(s.reader.id, s.clock).1
    ensures Do(s, CheckPing).log.pings == s.log.pings + [p]
    ensures p.from == s.table.byId[s.reader.id] && p.seen == s.reader.seen && p.at == s.clock
    ensures p.opens == (s.clock - s.table.byAddr[p.from].pingWindowStart >= SECOND)
  {
    p := Do(s, CheckPing).log.pings[|s.log.pings|];
  }

  lemma PingPaced(s: State, a: Addr)
    requires Ids(s) && AllPaced(s) && Enabled(s, CheckPing)
    ensures PacedAt(Do(s, CheckPing), a)
  {
    assert PacedAt(s, a);
    if !s.table.AllowPing(s.reader.id, s.clock).1 {
      assert Do(s, CheckPing) == s.(reader := Reading);
    } else if s.table.byId[s.reader.id] == a {
      PingHere(s, a);
    } else {
      PingElsewhere(s, a);
    }
  }

  lemma PingHere(s: State, a: Addr)
    requires Ids(s) && Sequential(s) && PacedAt(s, a) && Enabled(s, CheckPing)
    requires s.table.AllowPing(s.reader.id, s.clock).1 && s.table.byId[s.reader.id] == a
    ensures PacedAt(Do(s, CheckPing), a)
  {
    var p := PingLogged(s);
    PingsFromAppend(s.log.pings, p, a);
    PingsFromMembers(s.log.pings, a);
    AllowPaced(s.table.byAddr[a], PingsFrom(s.log.pings, a), p, s.clock);
  }

  lemma PingElsewhere(s: State, a: Addr)
    requires Ids(s) && Sequential(s) && PacedAt(s, a) && Enabled(s, CheckPing)
    requires s.table.AllowPing(s.reader.id, s.clock).1 && s.table.byId[s.reader.id] != a
    ensures PacedAt(Do(s, CheckPing), a)
  {
    var p := PingLogged(s);
    PingsFromAppend(s.log.pings, p, a);
  }

  lemma EvictPaced(s: State, a: Addr)
    requires Clocked(s) && PacedAt(s, a) && Enabled(s, Evict)
    ensures PacedAt(Do(s, Evict), a)
  {
  }

  /** The drain only happens once the reader has stopped, so no ping follows. */
  lemma DrainPaced(s: State, a: Addr)
    requires Teardown(s) && PacedAt(s, a) && Enabled(s, Drain)
    ensures PacedAt(Do(s, Drain), a)
  {
  }

  lemma CreatePaced(s: State, a: Addr)
    requires Ids(s) && AllPaced(s) && Enabled(s, Create)
    ensures PacedAt(Do(s, Create), a)
  {
    assert PacedAt(s, a);
  }

  lemma RefreshPaced(s: State, step: Step, a: Addr)
    requires Clocked(s) && PacedAt(s, a) && Enabled(s, step)
    requires step.Lookup? || step.Receive? || step.StorePromotion? || step.Tick?
    ensures PacedAt(Do(s, step), a)
  {
  }

  lemma OtherPaced(s: State, step: Step, a: Addr)
    requires PacedAt(s, a) && Enabled(s, step)
    requires !step.CheckPing? && !step.Evict? && !step.Drain? && !step.Create?
    requires !step.Lookup? && !step.Receive? && !step.StorePromotion? && !step.Tick?
    ensures PacedAt(Do(s, step), a)
  {
    var s' := Do(s, step);
    assert s'.log.pings == s.log.pings && s'.table == s.table && s'.clock == s.clock;
  }

  lemma StepPaced(s: State, step: Step)
    requires Ids(s) && Teardown(s) && Clocked(s) && AllPaced(s) && Enabled(s, step)
    ensures AllPaced(Do(s, step))
  {
    StepSequential(s, step);
    forall a ensures PacedAt(Do(s, step), a) {
      assert PacedAt(s, a);
      match step
      case CheckPing => PingPaced(s, a);
      case Evict => EvictPaced(s, a);
      case Drain => DrainPaced(s, a);
      case Create => CreatePaced(s, a);
      case Lookup(_) => RefreshPaced(s, step, a);
      case Receive(_) => RefreshPaced(s, step, a);
      case StorePromotion => RefreshPaced(s, step, a);
      case Tick(_) => RefreshPaced(s, step, a);
      case _ => OtherPaced(s, step, a);
    }
  }

  lemma {:induction false} AlwaysPaced(tr: seq<State>, i: nat)
    requires Behaviour(tr) && FewCreations(tr) && i < |tr|
    ensures AllPaced(tr[i])
  {
    if i > 0 {
      AlwaysPaced(tr, i - 1);
      AlwaysIds(tr, i - 1);
      AlwaysSound(tr, i - 1);
      assert Next(tr[i - 1], tr[i]);
      StepPaced(tr[i - 1], Via(tr[i - 1], tr[i]));
    }
  }

  // ---- From the pace to the bound ----------------------------------------------------------------------------

  function PaceAt(es: seq<Ping>, j: nat): Time
    requires j < |es|
  {
    Pace(es[..j + 1])
  }

  /** Every prefix of paced pings is paced. */
  lemma {:induction false} PacedPrefix(es: seq<Ping>, n: nat)
    requires Paced(es) && n <= |es|
    ensures Paced(es[..n])
  {
    if n == |es| {
      assert es[..n] == es;
    } else {
      PacedPrefix(es[..|es| - 1], n);
      assert es[..|es| - 1][..n] == es[..n];
    }
  }

  /** What one ping adds. */
  lemma PaceStep(es: seq<Ping>, j: nat)
    requires Paced(es) && j + 1 < |es|
    ensures es[j].at <= es[j + 1].seen <= es[j + 1].at
    ensures PaceAt(es, j) <= PaceAt(es, j + 1) <= es[j + 1].at
    ensures es[j + 1].opens ==> PaceAt(es, j + 1) >= PaceAt(es, j) + SECOND && PaceAt(es, j + 1) >= es[j + 1].seen
    ensures !es[j + 1].opens ==> RunLength(es[..j + 2]) == RunLength(es[..j + 1]) + 1
    ensures !es[j + 1].opens ==> PaceAt(es, j + 1) == OpenedAt(es[..j + 2]) == OpenedAt(es[..j + 1])
    ensures RunLength(es[..j + 2]) <= PINGS_PER_SECOND
  {
    PacedPrefix(es, j + 2);
    PacedPrefix(es, j + 1);
    assert es[..j + 2][..j + 1] == es[..j + 1];
  }

  /** Times and paces only grow. */
  lemma {:induction false} PaceGrows(es: seq<Ping>, i: nat, j: nat)
    requires Paced(es) && i <= j < |es|
    ensures PaceAt(es, i) <= PaceAt(es, j) && es[i].at <= es[j].at
    decreases j - i
  {
    if i < j {
      PaceStep(es, i);
      PaceGrows(es, i + 1, j);
    }
  }

  /** A window opens among any PINGS_PER_SECOND consecutive pings after the first. */
  lemma {:induction false} WindowOpens(es: seq<Ping>, j: nat, n: nat) returns (m: nat)
    requires Paced(es) && j + n < |es| && RunLength(es[..j + 1]) + n > PINGS_PER_SECOND
    ensures j < m <= j + n && es[m].opens
    decreases n
  {
    PacedPrefix(es, j + 1);
    PaceStep(es, j);
    if es[j + 1].opens {
      m := j + 1;
    } else {
      m := WindowOpens(es, j + 1, n - 1);
    }
  }

  /** Four pings further on, the pace is past this ping: another window has been opened since,
      or this ping opened the one that is still open. */
  lemma FourPingsOn(es: seq<Ping>, j: nat)
    requires Paced(es) && j + PINGS_PER_SECOND - 1 < |es|
    ensures PaceAt(es, j + PINGS_PER_SECOND - 1) >= es[j].at
  {
    var n := PINGS_PER_SECOND - 1;
    if RunLength(es[..j + 1]) == 1 {
      FirstOfRun(es, j);
      SinceOpened(es, j, n);
    } else {
      RunStarts(es, j);
      var m := WindowOpens(es, j, n);
      PaceGrows(es, j, m - 1);
      PaceStep(es, m - 1);
      PaceGrows(es, m, j + n);
    }
  }

  lemma RunStarts(es: seq<Ping>, j: nat)
    requires Paced(es) && j < |es|
    ensures RunLength(es[..j + 1]) >= 1
  {
    assert es[..j + 1] != [];
  }

  /** A run of one ping is the ping that opened it. */
  lemma FirstOfRun(es: seq<Ping>, j: nat)
    requires Paced(es) && j < |es| && RunLength(es[..j + 1]) == 1
    ensures es[j].opens && OpenedAt(es[..j + 1]) == es[j].at
  {
    PacedPrefix(es, j + 1);
    var before := es[..j];
    assert es[..j + 1][..j] == before;
  }

  /** After the ping that opened a window the pace never falls behind that window. */
  lemma SinceOpened(es: seq<Ping>, j: nat, n: nat)
    requires Paced(es) && 0 < n && j + n < |es| && OpenedAt(es[..j + 1]) == es[j].at
    ensures PaceAt(es, j + n) >= es[j].at
  {
    PaceStep(es, j);
    PaceGrows(es, j + 1, j + n);
  }

  /** Five pings further on, the pace is a second later. */
  lemma FivePingsOn(es: seq<Ping>, j: nat)
    requires Paced(es) && j + PINGS_PER_SECOND < |es|
    ensures PaceAt(es, j + PINGS_PER_SECOND) >= PaceAt(es, j) + SECOND
  {
    var before := es[..j];
    assert es[..j + 1][..j] == before;
    assert RunLength(es[..j + 1]) >= 1;
    var m := WindowOpens(es, j, PINGS_PER_SECOND);
    PaceGrows(es, j, m - 1);
    PaceStep(es, m - 1);
    PaceGrows(es, m, j + PINGS_PER_SECOND);
  }

  lemma {:induction false} PaceSpread(es: seq<Ping>, j: nat, k: nat)
    requires Paced(es) && j + PINGS_PER_SECOND * k < |es|
    ensures PaceAt(es, j + PINGS_PER_SECOND * k) >= PaceAt(es, j) + k * SECOND
    decreases k
  {
    if k > 0 {
      PaceSpread(es, j, k - 1);
      FivePingsOn(es, j + PINGS_PER_SECOND * (k - 1));
    }
  }

  /** Any 5(k + 1) consecutive pings take at least k seconds. */
  lemma TimeSpread(es: seq<Ping>, j: nat, k: nat)
    requires Paced(es) && j + PINGS_PER_SECOND * (k + 1) - 1 < |es|
    ensures es[j + PINGS_PER_SECOND * (k + 1) - 1].at >= es[j].at + k * SECOND
  {
    var n := j + PINGS_PER_SECOND - 1;
    FourPingsOn(es, j);
    PaceSpread(es, n, k);
    var last := n + PINGS_PER_SECOND * k;
    PaceStep(es, last - 1);
  }

  predicate Within(p: Ping, lo: Time, hi: Time) {
    lo <= p.at < hi
  }

  /** How many of the pings fall into [lo, hi). */
  function CountWithin(es: seq<Ping>, lo: Time, hi: Time): nat {
    if es == [] then 0
    else CountWithin(es[..|es| - 1], lo, hi) + if Within(es[|es| - 1], lo, hi) then 1 else 0
  }

  /** In time order the counted pings are consecutive. */
  lemma {:induction false} Consecutive(es: seq<Ping>, lo: Time, hi: Time) returns (i: nat)
    requires Paced(es) && lo <= hi
    ensures i + CountWithin(es, lo, hi) <= |es|
    ensures forall k :: i <= k < i + CountWithin(es, lo, hi) ==> Within(es[k], lo, hi)
    ensures forall k :: 0 <= k < i ==> es[k].at < lo
    ensures forall k :: i + CountWithin(es, lo, hi) <= k < |es| ==> es[k].at >= hi
  {
    i := 0;
    if es != [] {
      var n := |es| - 1;
      i := Consecutive(es[..n], lo, hi);
      if n > 0 {
        PaceGrows(es, n - 1, n);
        assert es[..n][n - 1] == es[n - 1];
      }
      if es[n].at < lo {
        i := n + 1;
      }
    }
  }

  /** The number of seconds in `t` nanoseconds, rounded up. */
  function Ceil(t: nat): nat {
    (t + SECOND - 1) / SECOND
  }

  /** The most pings that a second's worth of windows and the rest of one before admit. */
  function Most(t: nat): nat {
    PINGS_PER_SECOND * Ceil(t) + PINGS_PER_SECOND - 1
  }

  lemma PacedBound(es: seq<Ping>, lo: Time, t: nat)
    requires Paced(es)
    ensures CountWithin(es, lo, lo + t) <= Most(t)
  {
    var n, k := CountWithin(es, lo, lo + t), Ceil(t);
    assert k * SECOND >= t;
    var i := Consecutive(es, lo, lo + t);
    if n > Most(t) {
      TimeSpread(es, i, k);
    }
  }

  // ---- Main results ------------------------------------------------------------------------------------------

  /** However long the behaviour, however its flow comes and goes: one source address gets at
      most 5 * ceil(T) + 4 unconnected pings forwarded in any interval of length T. */
  lemma PingsPerAddress(tr: seq<State>, a: Addr, lo: Time, t: nat)
    requires Behaviour(tr) && FewCreations(tr)
    ensures CountWithin(PingsFrom(Last(tr).log.pings, a), lo, lo + t) <= PINGS_PER_SECOND * Ceil(t) + 4
  {
    AlwaysPaced(tr, |tr| - 1);
    assert PacedAt(Last(tr), a);
    PacedBound(PingsFrom(Last(tr).log.pings, a), lo, t);
  }

  /** The forwarded pings of one flow. */
  function PingsOn(log: seq<Ping>, id: nat): seq<Ping> {
    if log == [] then []
    else
      var last, rest := log[|log| - 1], PingsOn(log[..|log| - 1], id);
      if last.id == id then rest + [last] else rest
  }

  lemma CountAppend(es: seq<Ping>, p: Ping, lo: Time, hi: Time)
    ensures CountWithin(es + [p], lo, hi) == CountWithin(es, lo, hi) + if Within(p, lo, hi) then 1 else 0
  {
    assert (es + [p])[..|es|] == es;
  }

  lemma {:induction false} FlowWithinAddress(log: seq<Ping>, id: nat, a: Addr, lo: Time, hi: Time)
    requires forall p :: p in log && p.id == id ==> p.from == a
    ensures CountWithin(PingsOn(log, id), lo, hi) <= CountWithin(PingsFrom(log, a), lo, hi)
  {
    if log != [] {
      var rest, last := log[..|log| - 1], log[|log| - 1];
      FlowWithinAddress(rest, id, a, lo, hi);
      CountAppend(PingsOn(rest, id), last, lo, hi);
      CountAppend(PingsFrom(rest, a), last, lo, hi);
    }
  }

  /** The same bound for a single flow. */
  lemma PingsPerFlow(tr: seq<State>, id: nat, lo: Time, t: nat)
    requires Behaviour(tr) && FewCreations(tr)
    ensures CountWithin(PingsOn(Last(tr).log.pings, id), lo, lo + t) <= PINGS_PER_SECOND * Ceil(t) + 4
  {
    AlwaysIds(tr, |tr| - 1);
    var log := Last(tr).log;
    var a := if id < |log.owners| then log.owners[id] else Addr("", 0);
    PingsPerAddress(tr, a, lo, t);
    FlowWithinAddress(log.pings, id, a, lo, lo + t);
  }
}
