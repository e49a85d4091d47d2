/** Slot and gauge conservation of one tunnel, over every behaviour (an id collision
    included): a per-IP slot is held for each live flow, for a flow being created, and for
    an evicted flow whose release is still to come -- and for nothing else.
 */
module TunnelSlots {
  import opened FlowTables
  import opened IpCaps
  import opened TunnelSteps
  import opened TunnelSessions

  // ---- Counting addresses -----------------------------------------------------------------

  ghost function AtHost(addrs: set<Addr>, ip: string): set<Addr> {
    set a | a in addrs && a.host == ip
  }

  ghost function Count(addrs: set<Addr>, ip: string): nat {
    |AtHost(addrs, ip)|
  }

  lemma CountInsert(addrs: set<Addr>, a: Addr, ip: string)
    requires a !in addrs
    ensures Count(addrs + {a}, ip) == Count(addrs, ip) + if a.host == ip then 1 else 0
    ensures |addrs + {a}| == |addrs| + 1
  {
    if a.host == ip {
      assert AtHost(addrs + {a}, ip) == AtHost(addrs, ip) + {a};
    } else {
      assert AtHost(addrs + {a}, ip) == AtHost(addrs, ip);
    }
  }

  lemma CountSplit(addrs: set<Addr>, part: set<Addr>, ip: string)
    requires part <= addrs
    ensures Count(addrs, ip) == Count(part, ip) + Count(addrs - part, ip)
    ensures |addrs| == |part| + |addrs - part|
  {
    assert AtHost(addrs, ip) == AtHost(part, ip) + AtHost(addrs - part, ip);
    assert addrs == part + (addrs - part);
  }

  // ---- The books ----------------------------------------------------------------------------

  ghost function Live(s: State): set<Addr> {
    s.table.byAddr.Keys
  }

  /** The slot the reader holds for the flow it is about to create. */
  function ReaderHolds(r: Reader, ip: string): nat {
    if r.Acquired? && r.d.from.host == ip then 1 else 0
  }

  function ReaderHoldsAny(r: Reader): nat {
    if r.Acquired? then 1 else 0
  }

  ghost function Unreleased(w: Sweeper): set<Addr> {
    if w.Releasing? then w.pending else {}
  }

  /** The reader's address has no flow while it is being admitted. */
  ghost predicate Absent(s: State) {
    s.reader.Missed? || s.reader.Acquired? ==> s.reader.d.from !in s.table.byAddr
  }

  /** Slots of the flows `run` abandons are never released: the caps die with the tunnel. */
  ghost predicate Abandons(s: State) {
    !s.run.Counting? && !s.run.RunEnding? && !s.run.Returned? ==> s.log.abandoned == {}
  }

  ghost predicate SlotsAt(s: State, ip: string) {
    s.caps.max > 0 ==>
      && s.caps.Held(ip) == Count(Live(s), ip) + ReaderHolds(s.reader, ip)
                            + Count(Unreleased(s.sweeper), ip) + Count(s.log.abandoned, ip)
      && s.caps.Held(ip) <= s.caps.max
  }

  ghost predicate TotalSlots(s: State) {
    && s.caps.total == |Live(s)| + ReaderHoldsAny(s.reader) + |Unreleased(s.sweeper)| + |s.log.abandoned|
    && s.caps.total <= GLOBAL_MAX
  }

  /** Flows created but not counted yet, and flows removed but not counted out yet. */
  ghost predicate GaugeBalances(s: State) {
    s.gauge == |Live(s)| - (if s.reader.Created? then 1 else 0)
               + (if s.sweeper.Releasing? then s.sweeper.count else 0)
               + (if s.run.Counting? then s.run.removed else 0)
  }

  ghost predicate Books(s: State) {
    && Absent(s) && Abandons(s)
    && (forall ip :: SlotsAt(s, ip))
    && TotalSlots(s)
    && GaugeBalances(s)
  }

  // ---- One step -------------------------------------------------------------------------------

  lemma AcquireBooks(s: State)
    requires Books(s) && Enabled(s, Acquire)
    ensures Books(Do(s, Acquire))
  {
    var s' := Do(s, Acquire);
    forall ip ensures SlotsAt(s', ip) {
      assert SlotsAt(s, ip);
    }
  }

  lemma CreatedBooks(s: State)
    requires Books(s) && Enabled(s, Create)
    ensures Books(Do(s, Create))
  {
    CreatedTotals(s);
    forall ip ensures SlotsAt(Do(s, Create), ip) {
      CreatedSlots(s, ip);
    }
  }

  lemma CreatedTotals(s: State)
    requires Absent(s) && Abandons(s) && TotalSlots(s) && GaugeBalances(s) && Enabled(s, Create)
    ensures var s' := Do(s, Create); Absent(s') && Abandons(s') && TotalSlots(s') && GaugeBalances(s')
  {
    assert Live(Do(s, Create)) == Live(s) + {s.reader.d.from};
    CountInsert(Live(s), s.reader.d.from, "");
  }

  /** The reader's slot becomes the new flow's. */
  lemma CreatedSlots(s: State, ip: string)
    requires Absent(s) && SlotsAt(s, ip) && Enabled(s, Create)
    ensures SlotsAt(Do(s, Create), ip)
  {
    assert Live(Do(s, Create)) == Live(s) + {s.reader.d.from};
    CountInsert(Live(s), s.reader.d.from, ip);
  }

  lemma EvictBooks(s: State)
    requires Books(s) && Enabled(s, Evict)
    ensures Books(Do(s, Evict))
  {
    EvictedTotals(s);
    forall ip ensures SlotsAt(Do(s, Evict), ip) {
      EvictedSlots(s, ip);
    }
  }

  lemma EvictedTotals(s: State)
    requires Absent(s) && Abandons(s) && TotalSlots(s) && GaugeBalances(s) && Enabled(s, Evict)
    ensures var s' := Do(s, Evict); Absent(s') && Abandons(s') && TotalSlots(s') && GaugeBalances(s')
  {
    var gone := s.table.Expired(s.sweeper.now);
    assert Live(Do(s, Evict)) == Live(s) - gone;
    CountSplit(Live(s), gone, "");
  }

  /** The slots of evicted flows wait for their release. */
  lemma EvictedSlots(s: State, ip: string)
    requires SlotsAt(s, ip) && Enabled(s, Evict)
    ensures SlotsAt(Do(s, Evict), ip)
  {
    var gone := s.table.Expired(s.sweeper.now);
    assert Live(Do(s, Evict)) == Live(s) - gone;
    CountSplit(Live(s), gone, ip);
  }

  lemma ReleaseBooks(s: State, a: Addr)
    requires Books(s) && Enabled(s, Release(a))
    ensures Books(Do(s, Release(a)))
  {
    ReleasedTotals(s, a);
    forall ip ensures SlotsAt(Do(s, Release(a)), ip) {
      assert SlotsAt(s, ip) && SlotsAt(s, a.host);
      ReleasedSlots(s, a, ip);
    }
  }

  lemma ReleasedTotals(s: State, a: Addr)
    requires Absent(s) && Abandons(s) && TotalSlots(s) && GaugeBalances(s) && Enabled(s, Release(a))
    ensures var s' := Do(s, Release(a)); Absent(s') && Abandons(s') && TotalSlots(s') && GaugeBalances(s')
  {
    var rest := s.sweeper.pending - {a};
    assert rest + {a} == s.sweeper.pending;
    CountInsert(rest, a, "");
  }

  /** The released slot is one that is held for its IP. */
  lemma ReleasedSlots(s: State, a: Addr, ip: string)
    requires SlotsAt(s, ip) && SlotsAt(s, a.host) && Enabled(s, Release(a))
    ensures SlotsAt(Do(s, Release(a)), ip)
  {
    var rest := s.sweeper.pending - {a};
    assert rest + {a} == s.sweeper.pending;
    CountInsert(rest, a, ip);
    CountInsert(rest, a, a.host);
  }

  lemma DrainBooks(s: State)
    requires Books(s) && Enabled(s, Drain)
    ensures Books(Do(s, Drain))
  {
    var s' := Do(s, Drain);
    forall ip ensures SlotsAt(s', ip) {
      assert SlotsAt(s, ip);
    }
  }

  /** Steps that neither admit, create, remove nor release a flow. */
  predicate Flat(step: Step) {
    match step
    case Acquire => false
    case Create => false
    case Evict => false
    case Release(_) => false
    case Drain => false
    case _ => true
  }

  lemma FlatLive(s: State, step: Step)
    requires Enabled(s, step) && Flat(step)
    ensures
      var s' := Do(s, step);
      && Live(s') == Live(s) && s'.caps == s.caps && s'.log.abandoned == s.log.abandoned
      && Unreleased(s'.sweeper) == Unreleased(s.sweeper)
      && (s'.reader == s.reader || (!s.reader.Acquired? && !s'.reader.Acquired?))
  {
    FlatKeys(s, step);
  }

  lemma FlatKeys(s: State, step: Step)
    requires Enabled(s, step) && Flat(step)
    ensures Do(s, step).table.byAddr.Keys == s.table.byAddr.Keys
  {
    if step.Lookup? || step.StorePromotion? || step.CheckPing? || step.Receive? {
      RefreshKeys(s, step);
    } else {
      assert Do(s, step).table == s.table;
    }
  }

  lemma RefreshKeys(s: State, step: Step)
    requires Enabled(s, step) && (step.Lookup? || step.StorePromotion? || step.CheckPing? || step.Receive?)
    ensures Do(s, step).table.byAddr.Keys == s.table.byAddr.Keys
  {
  }

  lemma FlatGauge(s: State, step: Step)
    requires Books(s) && Enabled(s, step) && Flat(step)
    ensures GaugeBalances(Do(s, step)) && Abandons(Do(s, step))
  {
    FlatLive(s, step);
  }

  lemma FlatAbsent(s: State, step: Step)
    requires Absent(s) && Enabled(s, step) && Flat(step)
    ensures Absent(Do(s, step))
  {
    FlatLive(s, step);
  }

  lemma FlatBooks(s: State, step: Step)
    requires Books(s) && Enabled(s, step) && Flat(step)
    ensures Books(Do(s, step))
  {
    var s' := Do(s, step);
    FlatLive(s, step);
    FlatGauge(s, step);
    FlatAbsent(s, step);
    forall ip ensures SlotsAt(s', ip) {
      assert SlotsAt(s, ip);
    }
  }

  lemma StepBooks(s: State, step: Step)
    requires Books(s) && Enabled(s, step)
    ensures Books(Do(s, step))
  {
    match step
    case Acquire => AcquireBooks(s);
    case Create => CreatedBooks(s);
    case Evict => EvictBooks(s);
    case Release(a) => ReleaseBooks(s, a);
    case Drain => DrainBooks(s);
    case _ => FlatBooks(s, step);
  }

  // ---- Whole behaviours ---------------------------------------------------------------------------

  lemma {:induction false} AlwaysBooks(tr: seq<State>, i: nat)
    requires Behaviour(tr) && i < |tr|
    ensures Books(tr[i])
  {
    if i > 0 {
      AlwaysBooks(tr, i - 1);
      assert Next(tr[i - 1], tr[i]);
      StepBooks(tr[i - 1], Via(tr[i - 1], tr[i]));
    }
  }

  lemma {:induction false} CapNeverChanges(tr: seq<State>, i: nat)
    requires Behaviour(tr) && i < |tr|
    ensures tr[i].caps.max == tr[0].caps.max
  {
    if i > 0 {
      CapNeverChanges(tr, i - 1);
      assert Next(tr[i - 1], tr[i]);
      StepCap(tr[i - 1], Via(tr[i - 1], tr[i]));
    }
  }

  lemma StepCap(s: State, step: Step)
    requires Enabled(s, step)
    ensures Do(s, step).caps.max == s.caps.max
  {
  }

  /** The configured caps bound the live flows, per source IP and in total. */
  lemma LiveFlowsWithinCaps(tr: seq<State>, i: nat, ip: string)
    requires Behaviour(tr) && i < |tr|
    ensures tr[0].caps.max > 0 ==> Count(Live(tr[i]), ip) <= tr[0].caps.max
    ensures |Live(tr[i])| <= GLOBAL_MAX
  {
    AlwaysBooks(tr, i);
    CapNeverChanges(tr, i);
    assert SlotsAt(tr[i], ip);
  }

  /** A new flow can be admitted exactly while the flows that hold a slot -- the live ones, and the
      evicted ones not released yet -- are fewer than the caps. */
  lemma AdmitsIffBelowCaps(tr: seq<State>, i: nat)
    requires Behaviour(tr) && i < |tr| && tr[i].reader.Missed?
    ensures
      var ip, gone := tr[i].reader.d.from.host, Unreleased(tr[i].sweeper);
      Enabled(tr[i], Acquire) <==>
        && |Live(tr[i])| + |gone| < GLOBAL_MAX
        && (tr[0].caps.max == 0 || Count(Live(tr[i]), ip) + Count(gone, ip) < tr[0].caps.max)
  {
    AlwaysBooks(tr, i);
    AlwaysTeardown(tr, i);
    CapNeverChanges(tr, i);
    assert SlotsAt(tr[i], tr[i].reader.d.from.host);
    assert tr[i].log.abandoned == {};
  }

  /** A release always finds the slot it gives back, so none is ever lost or invented. */
  lemma ReleaseIsPaired(tr: seq<State>, i: nat, a: Addr)
    requires Behaviour(tr) && i < |tr| && Enabled(tr[i], Release(a))
    ensures tr[i].caps.max > 0 ==> tr[i].caps.Held(a.host) >= 1
    ensures tr[i].caps.total >= 1
  {
    AlwaysBooks(tr, i);
    assert SlotsAt(tr[i], a.host);
    CountInsert(tr[i].sweeper.pending - {a}, a, a.host);
    assert tr[i].sweeper.pending - {a} + {a} == tr[i].sweeper.pending;
  }

  /** Once nothing is in flight the slots are exactly the live flows, and so is the gauge. */
  lemma QuiescentBooks(tr: seq<State>, i: nat, ip: string)
    requires Behaviour(tr) && i < |tr|
    requires tr[i].reader.Reading? && tr[i].sweeper.Waiting? && tr[i].run.Receiving?
    ensures tr[i].caps.max > 0 ==> tr[i].caps.Held(ip) == Count(Live(tr[i]), ip)
    ensures tr[i].caps.total == |Live(tr[i])| == tr[i].gauge
  {
    AlwaysBooks(tr, i);
    assert SlotsAt(tr[i], ip);
  }

  lemma {:induction false} AlwaysTeardown(tr: seq<State>, i: nat)
    requires Behaviour(tr) && i < |tr|
    ensures Teardown(tr[i])
  {
    if i > 0 {
      AlwaysTeardown(tr, i - 1);
      assert Next(tr[i - 1], tr[i]);
      StepTeardown(tr[i - 1], Via(tr[i - 1], tr[i]));
    }
  }

  /** When `run` returns no flow is left, no goroutine still holds one, and the
      active-flows gauge is back at zero. */
  lemma GaugeReturnsToZero(tr: seq<State>, i: nat)
    requires Behaviour(tr) && i < |tr| && tr[i].run.Returned?
    ensures Live(tr[i]) == {} && tr[i].gauge == 0
    ensures tr[i].reader.ReaderDone? && tr[i].sweeper.SweeperDone?
  {
    AlwaysBooks(tr, i);
    AlwaysTeardown(tr, i);
  }
}
