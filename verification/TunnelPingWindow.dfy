/** When the documented cap of PINGS_PER_SECOND forwarded pings per flow per second holds: the
    exact condition on the flow's entry, over every continuation of a run.
 */
module TunnelPingWindow {
  import opened FlowTables
  import opened TunnelSteps
  import opened TunnelIsolation
  import opened TunnelPings

  ghost function Entry(s: State, id: nat): Flow
    requires s.table.Live(id)
  {
    s.table.byAddr[s.table.byId[id]]
  }

  /** The pings of flow `id` forwarded in [lo, hi). */
  ghost function Forwarded(s: State, id: nat, lo: Time, hi: Time): nat {
    CountWithin(PingsOn(s.log.pings, id), lo, hi)
  }

  /** The open window is used up, is over, or starts at this very moment. */
  predicate Settled(e: Flow, now: Time) {
    e.pingCount >= PINGS_PER_SECOND || now - e.pingWindowStart >= SECOND || e.pingWindowStart == now
  }

  ghost predicate Continues(tr: seq<State>, tr': seq<State>) {
    Behaviour(tr') && tr <= tr' && FewCreations(tr')
  }

  /** The pings of `id` that a continuation forwards in the second after `s`. */
  ghost function Further(s: State, s': State, id: nat): int {
    Forwarded(s', id, s.clock, s.clock + SECOND) - Forwarded(s, id, s.clock, s.clock + SECOND)
  }

  lemma PingsOnAppend(log: seq<Ping>, p: Ping, id: nat)
    ensures PingsOn(log + [p], id) == if p.id == id then PingsOn(log, id) + [p] else PingsOn(log, id)
  {
    assert (log + [p])[..|log|] == log;
  }

  // ---- Settled: at most five ----------------------------------------------------------------------

  /** How far a continuation has got, from `start` and the entry `e` there, with `further` pings
      forwarded since: it is still in the old, settled window, or in one that covers the rest of
      the second and has counted every further ping. */
  ghost predicate Budget(start: Time, e: Flow, s: State, id: nat, further: int) {
    && start <= s.clock && id < |s.log.owners|
    && further <= PINGS_PER_SECOND
    && (s.table.Live(id) && s.clock < start + SECOND ==> InBudget(start, e, Entry(s, id), further))
  }

  predicate InBudget(start: Time, e: Flow, e': Flow, further: int) {
    || (e'.pingWindowStart == e.pingWindowStart && e'.pingCount == e.pingCount && further == 0
        && (e.pingCount >= PINGS_PER_SECOND || start - e.pingWindowStart >= SECOND))
    || (e'.pingWindowStart >= start && further <= e'.pingCount <= PINGS_PER_SECOND)
  }

  predicate SameWindow(e: Flow, e': Flow) {
    e'.pingWindowStart == e.pingWindowStart && e'.pingCount == e.pingCount
  }

  /** Only a ping check changes a window, and a flow once gone stays gone. */
  lemma WindowKept(s: State, step: Step, id: nat)
    requires Ids(s) && Enabled(s, step) && !step.CheckPing?
    requires id < |s.log.owners| && (step.Create? ==> |s.log.owners| < ID_SPACE)
    ensures Kept(s, Do(s, step), id)
  {
    match step
    case Lookup(_) => RefreshKept(s, step, id);
    case StorePromotion => RefreshKept(s, step, id);
    case Receive(_) => RefreshKept(s, step, id);
    case Create => CreateKept(s, id);
    case Evict => EvictKept(s, id);
    case Drain =>
    case _ => TableKept(s, step);
  }

  ghost predicate Kept(s: State, s': State, id: nat) {
    s'.table.Live(id) ==> s.table.Live(id) && SameWindow(Entry(s, id), Entry(s', id))
  }

  lemma RefreshKept(s: State, step: Step, id: nat)
    requires Enabled(s, step) && (step.Lookup? || step.StorePromotion? || step.Receive?)
    ensures Kept(s, Do(s, step), id)
  {
  }

  /** The next id is not one that has been given out. */
  lemma CreateKept(s: State, id: nat)
    requires Ids(s) && Enabled(s, Create) && id < |s.log.owners| < ID_SPACE
    ensures Kept(s, Do(s, Create), id)
  {
  }

  lemma EvictKept(s: State, id: nat)
    requires Enabled(s, Evict)
    ensures Kept(s, Do(s, Evict), id)
  {
  }

  lemma TableKept(s: State, step: Step)
    requires Enabled(s, step) && (Silent(step) || step.Forward? || step.WriteTo?)
    ensures Do(s, step).table == s.table
  {
  }

  lemma LogKept(s: State, step: Step)
    requires Enabled(s, step) && !step.CheckPing?
    ensures Do(s, step).log.pings == s.log.pings && Do(s, step).clock >= s.clock
    ensures |Do(s, step).log.owners| >= |s.log.owners|
  {
  }

  lemma OtherBudget(start: Time, e: Flow, s: State, step: Step, id: nat, further: int)
    requires Ids(s) && Budget(start, e, s, id, further)
    requires Enabled(s, step) && !step.CheckPing? && (step.Create? ==> |s.log.owners| < ID_SPACE)
    ensures Budget(start, e, Do(s, step), id, further)
  {
    LogKept(s, step);
    WindowKept(s, step, id);
  }

  // A ping check.

  /** What a check does to the entry of the flow it is for. */
  function Checked(e: Flow, now: Time): Flow {
    if now - e.pingWindowStart >= SECOND then e.(pingWindowStart := now, pingCount := 1)
    else if e.pingCount >= PINGS_PER_SECOND then e
    else e.(pingCount := e.pingCount + 1)
  }

  predicate Passes(e: Flow, now: Time) {
    now - e.pingWindowStart >= SECOND || e.pingCount < PINGS_PER_SECOND
  }

  lemma CheckOwn(s: State)
    requires Enabled(s, CheckPing) && s.table.Live(s.reader.id)
    ensures var s', id, e := Do(s, CheckPing), s.reader.id, Entry(s, s.reader.id);
            && s'.table.Live(id) && Entry(s', id) == Checked(e, s.clock)
            && s'.clock == s.clock && s'.log.owners == s.log.owners && s'.table.byId == s.table.byId
            && (s'.reader.Forwarding? <==> Passes(e, s.clock)) && s'.bound == s.bound
  {
  }

  lemma CheckOther(s: State, id: nat)
    requires Ids(s) && Enabled(s, CheckPing) && id != s.reader.id
    ensures Kept(s, Do(s, CheckPing), id)
    ensures Do(s, CheckPing).clock == s.clock && Do(s, CheckPing).log.owners == s.log.owners
  {
    if s.table.Live(s.reader.id) && s.table.Live(id) {
      assert s.table.byId[id] != s.table.byId[s.reader.id];
    }
  }

  /** What a check adds to the pings of `id` forwarded in [lo, hi). */
  ghost function Gain(s: State, id: nat, lo: Time, hi: Time): nat
    requires Enabled(s, CheckPing)
  {
    if id == s.reader.id && s.table.Live(id) && Passes(Entry(s, id), s.clock) && lo <= s.clock < hi then 1 else 0
  }

  /** Exactly the pings that pass are logged, at the time of the check. */
  lemma CheckLogs(s: State) returns (p: Ping)
    requires Enabled(s, CheckPing)
    ensures p.id == s.reader.id && p.at == s.clock
    ensures Do(s, CheckPing).log.pings ==
              if s.table.Live(p.id) && Passes(Entry(s, p.id), s.clock) then s.log.pings + [p] else s.log.pings
  {
    var r := s.reader;
    p := Ping(r.id, r.d.from, r.seen, s.clock,
              s.table.Live(r.id) && s.clock - Entry(s, r.id).pingWindowStart >= SECOND);
  }

  /** One more logged ping counts for its own flow, if it is in the interval. */
  lemma CountMore(log: seq<Ping>, p: Ping, id: nat, lo: Time, hi: Time)
    ensures CountWithin(PingsOn(log + [p], id), lo, hi)
         == CountWithin(PingsOn(log, id), lo, hi) + if p.id == id && Within(p, lo, hi) then 1 else 0
  {
    PingsOnAppend(log, p, id);
    CountAppend(PingsOn(log, id), p, lo, hi);
  }

  lemma CheckGains(s: State, id: nat, lo: Time, hi: Time)
    requires Enabled(s, CheckPing)
    ensures Forwarded(Do(s, CheckPing), id, lo, hi) == Forwarded(s, id, lo, hi) + Gain(s, id, lo, hi)
  {
    var p := CheckLogs(s);
    CountMore(s.log.pings, p, id, lo, hi);
  }

  /** In the settled second a ping that passes either opens the one window that covers the rest
      of it or is counted in that window. */
  lemma CheckInBudget(start: Time, e: Flow, e': Flow, further: int, now: Time)
    requires start <= now < start + SECOND && InBudget(start, e, e', further)
    ensures InBudget(start, e, Checked(e', now), further + if Passes(e', now) then 1 else 0)
  {
  }

  lemma PingBudget(start: Time, e: Flow, s: State, id: nat, further: int)
    requires Ids(s) && Budget(start, e, s, id, further) && Enabled(s, CheckPing)
    ensures Budget(start, e, Do(s, CheckPing), id, further + Gain(s, id, start, start + SECOND))
  {
    if id != s.reader.id {
      CheckOther(s, id);
    } else if s.table.Live(id) {
      CheckOwn(s);
      if s.clock < start + SECOND {
        CheckInBudget(start, e, Entry(s, id), further, s.clock);
      }
    } else {
      assert Do(s, CheckPing).table == s.table;
    }
  }

  lemma BudgetStarts(s: State, id: nat)
    requires Ids(s) && s.table.Live(id) && Settled(Entry(s, id), s.clock)
    ensures Budget(s.clock, Entry(s, id), s, id, 0)
  {
  }

  /** `gain` pings of `id` are forwarded by the step from `s` to `s'`. */
  lemma NextBudget(start: Time, e: Flow, s: State, s': State, id: nat, further: int) returns (gain: nat)
    requires Ids(s) && Budget(start, e, s, id, further) && Next(s, s') && |s'.log.owners| <= ID_SPACE
    ensures Budget(start, e, s', id, further + gain)
    ensures Forwarded(s', id, start, start + SECOND) == Forwarded(s, id, start, start + SECOND) + gain
  {
    var step := Via(s, s');
    if step.CheckPing? {
      gain := Gain(s, id, start, start + SECOND);
      PingBudget(start, e, s, id, further);
      CheckGains(s, id, start, start + SECOND);
    } else {
      gain := 0;
      LogKept(s, step);
      OtherBudget(start, e, s, step, id, further);
    }
  }

  lemma StepBudget(start: Time, e: Flow, tr: seq<State>, i: nat, id: nat, further: int) returns (gain: nat)
    requires Behaviour(tr) && FewCreations(tr) && i + 1 < |tr| && Budget(start, e, tr[i], id, further)
    ensures Budget(start, e, tr[i + 1], id, further + gain)
    ensures Forwarded(tr[i + 1], id, start, start + SECOND) == Forwarded(tr[i], id, start, start + SECOND) + gain
  {
    AlwaysIds(tr, i);
    OwnersPrefix(tr, i + 1, |tr| - 1);
    assert Next(tr[i], tr[i + 1]);
    gain := NextBudget(start, e, tr[i], tr[i + 1], id, further);
  }

  /** `base` pings of `id` had been forwarded when the count of further ones began. */
  ghost predicate Counted(start: Time, e: Flow, s: State, id: nat, base: nat, further: int) {
    Budget(start, e, s, id, further) && Forwarded(s, id, start, start + SECOND) == base + further
  }

  /** What every step hands on holds from then on. */
  lemma {:induction false} HandedOn(tr: seq<State>, m: nat, i: nat, P: State -> bool)
    requires m <= i < |tr| && P(tr[m])
    requires forall k :: m <= k < i && P(tr[k]) ==> P(tr[k + 1])
    ensures P(tr[i])
    decreases i
  {
    if m < i {
      HandedOn(tr, m, i - 1, P);
    }
  }

  lemma AlwaysBudget(start: Time, e: Flow, tr: seq<State>, m: nat, id: nat, base: nat) returns (further: nat)
    requires Behaviour(tr) && FewCreations(tr) && m < |tr| && Counted(start, e, tr[m], id, base, 0)
    ensures Counted(start, e, Last(tr), id, base, further)
  {
    var P := (s: State) => exists f: nat :: Counted(start, e, s, id, base, f);
    forall k | m <= k < |tr| - 1 && P(tr[k]) ensures P(tr[k + 1]) {
      var f: nat :| Counted(start, e, tr[k], id, base, f);
      var gain := StepBudget(start, e, tr, k, id, f);
      assert Counted(start, e, tr[k + 1], id, base, f + gain);
    }
    HandedOn(tr, m, |tr| - 1, P);
    further :| Counted(start, e, Last(tr), id, base, further);
  }

  // ---- Closed: none --------------------------------------------------------------------------------

  /** The socket is closed, and the reader has no datagram in hand. */
  predicate Deaf(s: State) {
    !s.bound && (s.reader.Reading? || s.reader.ReaderDone?)
  }

  lemma DeafStep(s: State, step: Step)
    requires Deaf(s) && Enabled(s, step)
    ensures Deaf(Do(s, step)) && Do(s, step).log.pings == s.log.pings
  {
    LogKept(s, step);
    DeafStays(s, step);
  }

  lemma DeafStays(s: State, step: Step)
    requires Deaf(s) && Enabled(s, step)
    ensures Deaf(Do(s, step))
  {
  }

  lemma DeafForwardsNone(tr: seq<State>, tr': seq<State>)
    requires |tr| > 0 && Continues(tr, tr') && Deaf(Last(tr))
    ensures Last(tr').log.pings == Last(tr).log.pings
  {
    var pings := Last(tr).log.pings;
    var P := (s: State) => Deaf(s) && s.log.pings == pings;
    assert tr'[|tr| - 1] == Last(tr);
    forall k | |tr| - 1 <= k < |tr'| - 1 && P(tr'[k]) ensures P(tr'[k + 1]) {
      assert Next(tr'[k], tr'[k + 1]);
      DeafStep(tr'[k], Via(tr'[k], tr'[k + 1]));
    }
    HandedOn(tr', |tr| - 1, |tr'| - 1, P);
  }

  // ---- Not settled: more than five -------------------------------------------------------------------

  ghost predicate Ready(s: State, id: nat) {
    s.reader.Reading? && s.bound && s.table.Live(id)
  }

  /** The client of a live flow sends a ping that passes. */
  lemma ForwardPing(tr: seq<State>, id: nat, lo: Time, hi: Time) returns (tr': seq<State>)
    requires Behaviour(tr) && FewCreations(tr) && Ready(Last(tr), id)
    requires Passes(Entry(Last(tr), id), Last(tr).clock)
    ensures Continues(tr, tr') && Ready(Last(tr'), id)
    ensures Last(tr').clock == Last(tr).clock
    ensures SameWindow(Checked(Entry(Last(tr), id), Last(tr).clock), Entry(Last(tr'), id))
    ensures Forwarded(Last(tr'), id, lo, hi)
         == Forwarded(Last(tr), id, lo, hi) + if lo <= Last(tr).clock < hi then 1 else 0
  {
    AlwaysIds(tr, |tr| - 1);
    var p := PingSteps(Last(tr), id);
    tr' := LookUpPing(tr, id);
    tr' := Extend(tr', CheckPing);
    tr' := Extend(tr', Forward);
    CountMore(Last(tr).log.pings, p, id, lo, hi);
  }

  lemma LookUpPing(tr: seq<State>, id: nat) returns (tr': seq<State>)
    requires Behaviour(tr) && Ready(Last(tr), id)
    ensures Behaviour(tr') && tr <= tr' && Last(tr') == LookedUp(Last(tr), id)
  {
    tr' := Extend(tr, Read(PingOf(Last(tr), id)));
    tr' := Extend(tr', Lookup(PingOf(Last(tr), id)));
  }

  ghost function PingOf(s: State, id: nat): Datagram
    requires s.table.Live(id)
  {
    Datagram(s.table.byId[id], [0x01])
  }

  /** After the client's ping has been read and looked up. */
  ghost function LookedUp(s: State, id: nat): State
    requires Ready(s, id)
  {
    Do(Do(s, Read(PingOf(s, id))), Lookup(PingOf(s, id)))
  }

  lemma PingLooksUp(s: State, id: nat)
    requires Ids(s) && Ready(s, id)
    ensures var s' := LookedUp(s, id);
            && Enabled(s', CheckPing) && s'.reader.id == id && s'.clock == s.clock && s'.log == s.log
            && s'.bound && s'.table.Live(id) && SameWindow(Entry(s, id), Entry(s', id))
  {
  }

  lemma PingSteps(s: State, id: nat) returns (p: Ping)
    requires Ids(s) && Ready(s, id) && Passes(Entry(s, id), s.clock)
    ensures Enabled(LookedUp(s, id), CheckPing) && Enabled(Do(LookedUp(s, id), CheckPing), Forward)
    ensures p.id == id && p.at == s.clock
    ensures var s' := Do(Do(LookedUp(s, id), CheckPing), Forward);
            && Ready(s', id) && s'.clock == s.clock && s'.log.owners == s.log.owners
            && SameWindow(Checked(Entry(s, id), s.clock), Entry(s', id))
            && s'.log.pings == s.log.pings + [p]
  {
    PingLooksUp(s, id);
    p := CheckAndForward(LookedUp(s, id), id);
  }

  lemma CheckAndForward(s: State, id: nat) returns (p: Ping)
    requires Enabled(s, CheckPing) && s.reader.id == id && s.bound
    requires s.table.Live(id) && Passes(Entry(s, id), s.clock)
    ensures Enabled(Do(s, CheckPing), Forward)
    ensures p.id == id && p.at == s.clock
    ensures var s' := Do(Do(s, CheckPing), Forward);
            && Ready(s', id) && s'.clock == s.clock && s'.log.owners == s.log.owners
            && Entry(s', id) == Checked(Entry(s, id), s.clock)
            && s'.log.pings == s.log.pings + [p]
  {
    CheckOwn(s);
    p := CheckLogs(s);
    ForwardKeeps(Do(s, CheckPing));
  }

  lemma ForwardKeeps(s: State)
    requires Enabled(s, Forward)
    ensures var s' := Do(s, Forward);
            && s'.reader.Reading? && s'.bound == s.bound && s'.table == s.table && s'.clock == s.clock
            && s'.log.pings == s.log.pings && s'.log.owners == s.log.owners
  {
  }

  lemma Wait(tr: seq<State>, d: nat) returns (tr': seq<State>)
    requires Behaviour(tr) && FewCreations(tr)
    ensures Continues(tr, tr') && Last(tr') == Last(tr).(clock := Last(tr).clock + d)
  {
    tr' := Extend(tr, Tick(d));
  }

  /** A whole window's worth of pings, from the moment it can be opened. */
  lemma FillWindow(tr: seq<State>, id: nat, lo: Time, hi: Time) returns (tr': seq<State>)
    requires Behaviour(tr) && FewCreations(tr) && Ready(Last(tr), id)
    requires Last(tr).clock - Entry(Last(tr), id).pingWindowStart >= SECOND && lo <= Last(tr).clock < hi
    ensures Continues(tr, tr') && Ready(Last(tr'), id) && Last(tr').clock == Last(tr).clock
    ensures Entry(Last(tr'), id).pingWindowStart == Last(tr).clock
    ensures Forwarded(Last(tr'), id, lo, hi) == Forwarded(Last(tr), id, lo, hi) + PINGS_PER_SECOND
  {
    var tr1 := ForwardPing(tr, id, lo, hi);
    var tr2 := ForwardPing(tr1, id, lo, hi);
    var tr3 := ForwardPing(tr2, id, lo, hi);
    var tr4 := ForwardPing(tr3, id, lo, hi);
    tr' := ForwardPing(tr4, id, lo, hi);
  }

  /** One ping into the open window now, and a window's worth when the next one opens. */
  lemma UnsettledForwardsMore(tr: seq<State>, id: nat) returns (tr': seq<State>)
    requires Behaviour(tr) && FewCreations(tr) && Ready(Last(tr), id)
    requires !Settled(Entry(Last(tr), id), Last(tr).clock)
    ensures Continues(tr, tr') && Further(Last(tr), Last(tr'), id) > PINGS_PER_SECOND
  {
    var s := Last(tr);
    WindowIsPast(tr, id);
    var open := Entry(s, id).pingWindowStart;
    var tr1 := ForwardPing(tr, id, s.clock, s.clock + SECOND);
    var tr2 := Wait(tr1, open + SECOND - s.clock);
    tr' := FillWindow(tr2, id, s.clock, s.clock + SECOND);
  }

  lemma WindowIsPast(tr: seq<State>, id: nat)
    requires Behaviour(tr) && FewCreations(tr) && Last(tr).table.Live(id)
    ensures Entry(Last(tr), id).pingWindowStart <= Last(tr).clock
  {
    AlwaysPaced(tr, |tr| - 1);
    assert PacedAt(Last(tr), Last(tr).table.byId[id]);
  }

  // ---- Main result -----------------------------------------------------------------------------------------

  lemma SettledForwardsFive(tr: seq<State>, tr': seq<State>, id: nat)
    requires |tr| > 0 && Continues(tr, tr') && Last(tr).table.Live(id)
    requires Settled(Entry(Last(tr), id), Last(tr).clock)
    ensures Further(Last(tr), Last(tr'), id) <= PINGS_PER_SECOND
  {
    var m, s := |tr| - 1, Last(tr);
    assert tr'[m] == s;
    AlwaysIds(tr', m);
    BudgetStarts(s, id);
    var base := Forwarded(s, id, s.clock, s.clock + SECOND);
    var further := AlwaysBudget(s.clock, Entry(s, id), tr', m, id, base);
  }

  /** Whatever happens next, at most PINGS_PER_SECOND further pings of a live flow are forwarded
      in the coming second, if and only if its window is used up, is over, or starts now -- or
      the socket is closed, and no further datagram is read. */
  lemma CapHoldsIff(tr: seq<State>, id: nat)
    requires Behaviour(tr) && FewCreations(tr) && Last(tr).reader.Reading? && Last(tr).table.Live(id)
    ensures (forall tr' :: Continues(tr, tr') ==> Further(Last(tr), Last(tr'), id) <= PINGS_PER_SECOND)
       <==> Settled(Entry(Last(tr), id), Last(tr).clock) || !Last(tr).bound
  {
    if !Last(tr).bound {
      forall tr' | Continues(tr, tr') ensures Further(Last(tr), Last(tr'), id) <= PINGS_PER_SECOND {
        DeafForwardsNone(tr, tr');
      }
    } else if Settled(Entry(Last(tr), id), Last(tr).clock) {
      forall tr' | Continues(tr, tr') ensures Further(Last(tr), Last(tr'), id) <= PINGS_PER_SECOND {
        SettledForwardsFive(tr, tr', id);
      }
    } else {
      var tr' := UnsettledForwardsMore(tr, id);
    }
  }
}
