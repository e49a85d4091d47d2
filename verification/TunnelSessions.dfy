/** Session accounting of one tunnel: every started session is ended exactly once by the
    time `run` returns, except the ones whose `Promote` came after their flow was evicted.
 */
module TunnelSessions {
  import opened FlowTables
  import opened TunnelSteps
  import opened TunnelIsolation

  // ---- At most one promotion per flow ------------------------------------------------------

  /** The reader has decided to promote flow `id` and has not stored the session yet. */
  predicate Pending(r: Reader, id: nat) {
    (r.Promoting? || r.Started?) && r.id == id
  }

  /** A flow below the threshold has not fired; one at the threshold has fired once, and
      holds its session unless the reader is still on its way to store it. */
  ghost predicate FlowFires(e: Flow, r: Reader, fired: multiset<nat>) {
    && e.ingress <= PROMOTE_THRESHOLD
    && (e.ingress < PROMOTE_THRESHOLD ==> !e.promoted && fired[e.id] == 0 && !Pending(r, e.id))
    && (e.ingress == PROMOTE_THRESHOLD && Pending(r, e.id) ==> !e.promoted)
    && (e.ingress == PROMOTE_THRESHOLD && !Pending(r, e.id) ==> e.promoted && fired[e.id] == 1)
  }

  ghost predicate Fires(s: State) {
    && (forall a :: a in s.table.byAddr ==> FlowFires(s.table.byAddr[a], s.reader, s.log.fired))
    && (forall i :: i in s.log.fired ==> s.log.fired[i] == 1 && i < |s.log.owners|)
    && (s.reader.Promoting? ==> s.reader.id !in s.log.fired)
  }

  lemma LookupFires(s: State, d: Datagram)
    requires Ids(s) && Fires(s) && Enabled(s, Lookup(d))
    ensures Fires(Do(s, Lookup(d)))
  {
    var s' := Do(s, Lookup(d));
    forall a | a in s'.table.byAddr ensures FlowFires(s'.table.byAddr[a], s'.reader, s'.log.fired) {
      assert FlowFires(s.table.byAddr[a], s.reader, s.log.fired);
      if a != d.from && d.from in s.table.byAddr {
        assert s.table.byId[s.table.byAddr[a].id] == a;
        assert s.table.byId[s.table.byAddr[d.from].id] == d.from;
      }
    }
  }

  lemma CreateFires(s: State)
    requires Ids(s) && Fires(s) && Enabled(s, Create) && |s.log.owners| < ID_SPACE
    ensures Fires(Do(s, Create))
  {
  }

  lemma StartFires(s: State, sid: string)
    requires Ids(s) && Fires(s) && Enabled(s, StartSession(sid))
    ensures Fires(Do(s, StartSession(sid)))
  {
  }

  lemma PromoteFires(s: State)
    requires Ids(s) && Fires(s) && Enabled(s, StorePromotion) && StartedOnce(s)
    ensures Fires(Do(s, StorePromotion))
  {
    var s' := Do(s, StorePromotion);
    forall a | a in s'.table.byAddr ensures FlowFires(s'.table.byAddr[a], s'.reader, s'.log.fired) {
      assert FlowFires(s.table.byAddr[a], s.reader, s.log.fired);
      if s.table.byAddr[a].id == s.reader.id {
        assert s.table.byId[s.reader.id] == a;
      }
    }
  }

  /** Between `Start` and `Promote` the flow's one firing is on the books. */
  ghost predicate StartedOnce(s: State) {
    s.reader.Started? ==> s.log.fired[s.reader.id] == 1
  }

  lemma PingFires(s: State)
    requires Ids(s) && Fires(s) && Enabled(s, CheckPing)
    ensures Fires(Do(s, CheckPing))
  {
    var s' := Do(s, CheckPing);
    PingSettles(s);
    AllowPingKeeps(s.table, s.reader.id, s.clock);
    forall a | a in s'.table.byAddr ensures FlowFires(s'.table.byAddr[a], s'.reader, s'.log.fired) {
      assert FlowFires(s.table.byAddr[a], s.reader, s.log.fired);
    }
  }

  /** A ping check is not part of a promotion. */
  lemma PingSettles(s: State)
    requires Enabled(s, CheckPing)
    ensures var s' := Do(s, CheckPing);
            && s'.table == s.table.AllowPing(s.reader.id, s.clock).0
            && s'.log.fired == s.log.fired && s'.log.owners == s.log.owners
            && forall id :: !Pending(s.reader, id) && !Pending(s'.reader, id)
    ensures !Do(s, CheckPing).reader.Promoting?
  {
  }

  lemma ReceiveFires(s: State, id: nat)
    requires Fires(s) && Enabled(s, Receive(id))
    ensures Fires(Do(s, Receive(id)))
  {
    var s' := Do(s, Receive(id));
    forall a | a in s'.table.byAddr ensures FlowFires(s'.table.byAddr[a], s'.reader, s'.log.fired) {
      assert FlowFires(s.table.byAddr[a], s.reader, s.log.fired);
    }
  }

  /** Steps that neither touch a flow nor fire, other than by removing flows. */
  predicate Quiet(step: Step) {
    match step
    case Lookup(_) => false
    case Create => false
    case StartSession(_) => false
    case StorePromotion => false
    case CheckPing => false
    case Receive(_) => false
    case _ => true
  }

  lemma QuietFires(s: State, step: Step)
    requires Fires(s) && Enabled(s, step) && Quiet(step)
    ensures Fires(Do(s, step))
  {
    var s' := Do(s, step);
    assert s'.log.fired == s.log.fired && s'.log.owners == s.log.owners;
    assert forall a :: a in s'.table.byAddr ==> a in s.table.byAddr && s'.table.byAddr[a] == s.table.byAddr[a];
    assert forall i :: Pending(s'.reader, i) <==> Pending(s.reader, i);
  }

  lemma StepStartedOnce(s: State, step: Step)
    requires Fires(s) && StartedOnce(s) && Enabled(s, step)
    ensures StartedOnce(Do(s, step))
  {
  }

  lemma BusyFires(s: State, step: Step)
    requires Ids(s) && Fires(s) && StartedOnce(s) && !Quiet(step)
    requires Enabled(s, step) && (step.Create? ==> |s.log.owners| < ID_SPACE)
    ensures Fires(Do(s, step))
  {
    match step
    case Lookup(d) => LookupFires(s, d);
    case Create => CreateFires(s);
    case StartSession(sid) => StartFires(s, sid);
    case StorePromotion => PromoteFires(s);
    case CheckPing => PingFires(s);
    case Receive(id) => ReceiveFires(s, id);
  }

  lemma StepFires(s: State, step: Step)
    requires Ids(s) && Fires(s) && StartedOnce(s)
    requires Enabled(s, step) && |Do(s, step).log.owners| <= ID_SPACE
    ensures Fires(Do(s, step))
  {
    if Quiet(step) {
      QuietFires(s, step);
    } else {
      BusyFires(s, step);
    }
  }

  // ---- Conservation -------------------------------------------------------------------------

  ghost function ReaderOwes(r: Reader): multiset<string> {
    if r.Started? then multiset{r.sid} else multiset{}
  }

  ghost function SweeperOwes(w: Sweeper): multiset<string> {
    match w
    case Releasing(_, _, owed) => owed
    case SweepEnding(owed) => owed
    case _ => multiset{}
  }

  ghost function RunOwes(r: Run): multiset<string> {
    match r
    case Counting(_, owed) => owed
    case RunEnding(owed) => owed
    case _ => multiset{}
  }

  ghost function FlowsOwe(t: Table): multiset<string> {
    SessionsOf(t.byAddr, t.byAddr.Keys)
  }

  /** The sessions some goroutine or flow will still end. */
  ghost function Owed(s: State): multiset<string> {
    FlowsOwe(s.table) + ReaderOwes(s.reader) + SweeperOwes(s.sweeper) + RunOwes(s.run)
  }

  /** Every started session is in exactly one place. */
  ghost predicate Conserved(s: State) {
    && s.log.starts == s.log.ends + Owed(s) + s.log.lost
    && forall x :: x in s.log.starts ==> s.log.starts[x] == 1
  }

  /** Nothing started, ended or was lost. */
  predicate SameLogs(s: State, s': State) {
    s'.log.starts == s.log.starts && s'.log.ends == s.log.ends && s'.log.lost == s.log.lost
  }

  ghost predicate SameGoroutines(s: State, s': State) {
    && ReaderOwes(s'.reader) == ReaderOwes(s.reader)
    && SweeperOwes(s'.sweeper) == SweeperOwes(s.sweeper)
    && RunOwes(s'.run) == RunOwes(s.run)
  }

  /** No session moved. */
  ghost predicate SameBooks(s: State, s': State) {
    SameLogs(s, s') && SameGoroutines(s, s') && FlowsOwe(s'.table) == FlowsOwe(s.table)
  }

  lemma SameConserves(s: State, s': State)
    requires Conserved(s) && SameLogs(s, s') && Owed(s') == Owed(s)
    ensures Conserved(s')
  {
  }

  lemma SameBooksConserve(s: State, s': State)
    requires Conserved(s) && SameBooks(s, s')
    ensures Conserved(s')
  {
    SameConserves(s, s');
  }

  // Steps on a flow: the flow still owes what it owed.

  lemma LookupBooks(s: State, d: Datagram)
    requires Enabled(s, Lookup(d))
    ensures SameBooks(s, Do(s, Lookup(d)))
  {
    if d.from in s.table.byAddr {
      SessionsUpdate(s.table.byAddr, d.from, Do(s, Lookup(d)).table.byAddr[d.from]);
    }
  }

  lemma ReceiveBooks(s: State, id: nat)
    requires Enabled(s, Receive(id))
    ensures SameBooks(s, Do(s, Receive(id)))
  {
    if s.table.Live(id) {
      var a := s.table.byId[id];
      SessionsUpdate(s.table.byAddr, a, Do(s, Receive(id)).table.byAddr[a]);
    }
  }

  lemma PingBooks(s: State)
    requires Enabled(s, CheckPing)
    ensures SameBooks(s, Do(s, CheckPing))
  {
    PingLogs(s);
    AllowPingOwes(s.table, s.reader.id, s.clock);
  }

  lemma PingLogs(s: State)
    requires Enabled(s, CheckPing)
    ensures SameLogs(s, Do(s, CheckPing)) && SameGoroutines(s, Do(s, CheckPing))
    ensures Do(s, CheckPing).table == s.table.AllowPing(s.reader.id, s.clock).0
  {
  }

  lemma CreateBooks(s: State)
    requires Ids(s) && Enabled(s, Create)
    ensures SameBooks(s, Do(s, Create))
  {
    var d := s.reader.d;
    SessionsInsert(s.table.byAddr, d.from, Do(s, Create).table.byAddr[d.from]);
  }

  // Promotion: the session goes from the reader to its flow, or is lost.

  lemma PromoteConserves(s: State)
    requires Ids(s) && Fires(s) && Conserved(s) && Enabled(s, StorePromotion)
    ensures Conserved(Do(s, StorePromotion))
  {
    var s' := Do(s, StorePromotion);
    PromotePaysIn(s);
    Regroup(s.log.ends, FlowsOwe(s.table), multiset{s.reader.sid}, SweeperOwes(s.sweeper), RunOwes(s.run),
            s.log.lost, FlowsOwe(s'.table), s'.log.lost);
  }

  lemma Regroup<T>(ends: multiset<T>, flows: multiset<T>, reader: multiset<T>, sweeper: multiset<T>,
                   run: multiset<T>, lost: multiset<T>, flows': multiset<T>, lost': multiset<T>)
    requires flows' + lost' == flows + lost + reader
    ensures ends + (flows + reader + sweeper + run) + lost == ends + (flows' + multiset{} + sweeper + run) + lost'
  {
    assert forall x :: flows'[x] + lost'[x] == (flows' + lost')[x];
  }

  /** The stored session moves to its flow, or to `lost` when the flow is gone. */
  lemma PromotePaysIn(s: State)
    requires Ids(s) && Fires(s) && Enabled(s, StorePromotion)
    ensures
      var s' := Do(s, StorePromotion);
      FlowsOwe(s'.table) + s'.log.lost == FlowsOwe(s.table) + s.log.lost + multiset{s.reader.sid}
  {
    var r := s.reader;
    if s.table.Live(r.id) {
      assert FlowFires(s.table.byAddr[s.table.byId[r.id]], r, s.log.fired);
      PromotedOwes(s.table, r.id, r.sid);
      PaidIn(FlowsOwe(s.table), multiset{r.sid}, s.log.lost);
    }
  }

  /** A flow that owed nothing owes the stored session. */
  lemma PromotedOwes(t: Table, id: nat, sid: string)
    requires t.Live(id) && !t.byAddr[t.byId[id]].promoted
    ensures FlowsOwe(t.Promote(id, sid)) == FlowsOwe(t) + multiset{sid}
  {
    var a := t.byId[id];
    SessionsUpdate(t.byAddr, a, t.Promote(id, sid).byAddr[a]);
  }

  lemma PaidIn(flows: multiset<string>, session: multiset<string>, lost: multiset<string>)
    ensures flows + session + lost == flows + lost + session
  {
  }

  // Removal: the sessions go from the flows to the sweeper or to `run`.

  lemma EvictConserves(s: State)
    requires Conserved(s) && Enabled(s, Evict)
    ensures Conserved(Do(s, Evict))
  {
    SessionsEvict(s.table, s.sweeper.now);
    var gone := SessionsOf(s.table.byAddr, s.table.Expired(s.sweeper.now));
    var s' := Do(s, Evict);
    assert SweeperOwes(s.sweeper) == multiset{} && SweeperOwes(s'.sweeper) == gone;
    EvictedMove(FlowsOwe(s.table), gone, FlowsOwe(s'.table), ReaderOwes(s.reader), RunOwes(s.run));
    SameConserves(s, s');
  }

  lemma EvictedMove(flows: multiset<string>, gone: multiset<string>, left: multiset<string>,
                    reader: multiset<string>, run: multiset<string>)
    requires flows == gone + left
    ensures flows + reader + multiset{} + run == left + reader + gone + run
  {
  }

  lemma DrainConserves(s: State)
    requires Conserved(s) && Enabled(s, Drain)
    ensures Conserved(Do(s, Drain))
  {
    var s' := Do(s, Drain);
    assert FlowsOwe(s'.table) == multiset{} && RunOwes(s.run) == multiset{};
    DrainedMove(FlowsOwe(s.table), ReaderOwes(s.reader), SweeperOwes(s.sweeper));
    SameConserves(s, s');
  }

  lemma DrainedMove(flows: multiset<string>, reader: multiset<string>, sweeper: multiset<string>)
    ensures flows + reader + sweeper + multiset{} == multiset{} + reader + sweeper + flows
  {
  }

  // Reports: a session enters at the reader, and leaves at the sweeper or at `run`.

  lemma StartConserves(s: State, sid: string)
    requires Conserved(s) && Enabled(s, StartSession(sid))
    ensures Conserved(Do(s, StartSession(sid)))
  {
    var s' := Do(s, StartSession(sid));
    assert s'.table == s.table && ReaderOwes(s.reader) == multiset{} && ReaderOwes(s'.reader) == multiset{sid};
    StartedMove(s.log.ends, FlowsOwe(s.table), SweeperOwes(s.sweeper), RunOwes(s.run), s.log.lost, sid);
  }

  lemma StartedMove(ends: multiset<string>, flows: multiset<string>, sweeper: multiset<string>, run: multiset<string>,
                    lost: multiset<string>, sid: string)
    ensures ends + (flows + multiset{} + sweeper + run) + lost + multiset{sid}
         == ends + (flows + multiset{sid} + sweeper + run) + lost
  {
  }

  lemma EndConserves(s: State, s': State, sid: string)
    requires Conserved(s) && Owed(s) == Owed(s') + multiset{sid}
    requires s'.log.starts == s.log.starts && s'.log.ends == s.log.ends + multiset{sid} && s'.log.lost == s.log.lost
    ensures Conserved(s')
  {
    EndedMove(s.log.ends, Owed(s'), s.log.lost, sid);
  }

  lemma EndedMove(ends: multiset<string>, owed: multiset<string>, lost: multiset<string>, sid: string)
    ensures ends + (owed + multiset{sid}) + lost == ends + multiset{sid} + owed + lost
  {
  }

  lemma EndEvictedConserves(s: State, sid: string)
    requires Conserved(s) && Enabled(s, EndEvicted(sid))
    ensures Conserved(Do(s, EndEvicted(sid)))
  {
    EndEvictedOwes(s, sid);
    EndConserves(s, Do(s, EndEvicted(sid)), sid);
  }

  lemma EndEvictedOwes(s: State, sid: string)
    requires Enabled(s, EndEvicted(sid))
    ensures Owed(s) == Owed(Do(s, EndEvicted(sid))) + multiset{sid}
  {
    var left := s.sweeper.owed - multiset{sid};
    var s' := Do(s, EndEvicted(sid));
    assert s'.table == s.table && s'.reader == s.reader && s'.run == s.run && s'.sweeper == SweepEnding(left);
    assert SweeperOwes(s'.sweeper) == left && SweeperOwes(s.sweeper) == left + multiset{sid};
    SweeperPays(FlowsOwe(s.table), ReaderOwes(s.reader), left, RunOwes(s.run), sid);
  }

  lemma SweeperPays(flows: multiset<string>, reader: multiset<string>, left: multiset<string>, run: multiset<string>,
                    sid: string)
    ensures flows + reader + (left + multiset{sid}) + run == flows + reader + left + run + multiset{sid}
  {
  }

  lemma EndDrainedConserves(s: State, sid: string)
    requires Conserved(s) && Enabled(s, EndDrained(sid))
    ensures Conserved(Do(s, EndDrained(sid)))
  {
    EndDrainedOwes(s, sid);
    EndConserves(s, Do(s, EndDrained(sid)), sid);
  }

  lemma EndDrainedOwes(s: State, sid: string)
    requires Enabled(s, EndDrained(sid))
    ensures Owed(s) == Owed(Do(s, EndDrained(sid))) + multiset{sid}
  {
    var left := s.run.owed - multiset{sid};
    var s' := Do(s, EndDrained(sid));
    assert s'.table == s.table && s'.reader == s.reader && s'.sweeper == s.sweeper && s'.run == RunEnding(left);
    assert RunOwes(s'.run) == left && RunOwes(s.run) == left + multiset{sid};
    RunPays(FlowsOwe(s.table), ReaderOwes(s.reader), SweeperOwes(s.sweeper), left, sid);
  }

  lemma RunPays(flows: multiset<string>, reader: multiset<string>, sweeper: multiset<string>, left: multiset<string>,
                sid: string)
    ensures flows + reader + sweeper + (left + multiset{sid}) == flows + reader + sweeper + left + multiset{sid}
  {
  }

  // All others.

  /** Steps that move a session. */
  predicate Mover(step: Step) {
    || step.StartSession? || step.StorePromotion? || step.Evict? || step.EndEvicted? || step.Drain? || step.EndDrained?
  }

  /** Steps that touch neither a session nor a flow. */
  predicate Idle(step: Step) {
    Quiet(step) && !Mover(step)
  }

  /** A step of the sweeper or of `run`. */
  predicate Background(step: Step) {
    match step
    case Tick(_) => false
    case Displace => false
    case Read(_) => false
    case Reject => false
    case Acquire => false
    case CountCreated => false
    case SkipPing => false
    case Forward => false
    case StopReader => false
    case _ => true
  }

  lemma IdleBooks(s: State, step: Step)
    requires Enabled(s, step) && Idle(step)
    ensures SameBooks(s, Do(s, step))
  {
    IdleLogs(s, step);
    if Background(step) {
      BackgroundOwes(s, step);
    } else {
      ForegroundOwes(s, step);
    }
  }

  lemma IdleLogs(s: State, step: Step)
    requires Enabled(s, step) && Idle(step)
    ensures Do(s, step).table == s.table && SameLogs(s, Do(s, step))
  {
  }

  lemma BackgroundOwes(s: State, step: Step)
    requires Enabled(s, step) && Idle(step) && Background(step)
    ensures SameGoroutines(s, Do(s, step))
  {
    if OfSweeper(step) {
      SweeperOwesSame(s, step);
    } else {
      RunOwesSame(s, step);
    }
  }

  predicate OfSweeper(step: Step) {
    step.ReadClock? || step.Release? || step.CountEvicted? || step.SweepAgain? || step.StopSweeper?
  }

  lemma SweeperOwesSame(s: State, step: Step)
    requires Enabled(s, step) && OfSweeper(step)
    ensures SameGoroutines(s, Do(s, step))
  {
    var s' := Do(s, step);
    assert s'.reader == s.reader && s'.run == s.run;
  }

  lemma RunOwesSame(s: State, step: Step)
    requires Enabled(s, step) && Idle(step) && Background(step) && !OfSweeper(step)
    ensures SameGoroutines(s, Do(s, step))
  {
    var s' := Do(s, step);
    assert s'.reader == s.reader && s'.sweeper == s.sweeper;
  }

  lemma ForegroundOwes(s: State, step: Step)
    requires Enabled(s, step) && Idle(step) && !Background(step)
    ensures SameGoroutines(s, Do(s, step))
  {
  }

  lemma StepSameBooks(s: State, step: Step)
    requires Ids(s) && Enabled(s, step) && !Mover(step)
    ensures SameBooks(s, Do(s, step))
  {
    match step
    case Lookup(d) => LookupBooks(s, d);
    case Create => CreateBooks(s);
    case CheckPing => PingBooks(s);
    case Receive(id) => ReceiveBooks(s, id);
    case _ => IdleBooks(s, step);
  }

  lemma MoverConserves(s: State, step: Step)
    requires Ids(s) && Fires(s) && Conserved(s) && Enabled(s, step) && Mover(step)
    ensures Conserved(Do(s, step))
  {
    match step
    case StartSession(sid) => StartConserves(s, sid);
    case StorePromotion => PromoteConserves(s);
    case Evict => EvictConserves(s);
    case EndEvicted(sid) => EndEvictedConserves(s, sid);
    case Drain => DrainConserves(s);
    case EndDrained(sid) => EndDrainedConserves(s, sid);
  }

  lemma StepConserves(s: State, step: Step)
    requires Ids(s) && Fires(s) && Conserved(s) && Enabled(s, step)
    ensures Conserved(Do(s, step))
  {
    if Mover(step) {
      MoverConserves(s, step);
    } else {
      StepSameBooks(s, step);
      SameBooksConserve(s, Do(s, step));
    }
  }

  // ---- Teardown order -------------------------------------------------------------------------

  /** `run` drains the table only after it joined the reader and the sweeper. */
  ghost predicate Teardown(s: State) {
    var r := s.run;
    var pumpsJoined := !r.Receiving? && !r.Writing? && !r.Closing? && !r.JoiningPumps?;
    && (pumpsJoined ==> s.reader.ReaderDone?)
    && (pumpsJoined && !r.JoiningSweeper? ==> s.sweeper.SweeperDone?)
    && (pumpsJoined && !r.JoiningSweeper? && !r.Draining? ==> s.table.byAddr == map[])
  }

  lemma StepTeardown(s: State, step: Step)
    requires Teardown(s) && Enabled(s, step)
    ensures Teardown(Do(s, step))
  {
  }

  // ---- Time ---------------------------------------------------------------------------------------

  /** No clock reading is from the future. */
  ghost predicate Clocked(s: State) {
    && (forall a :: a in s.table.byAddr ==> s.table.byAddr[a].lastSeen <= s.clock)
    && (s.sweeper.Evicting? ==> s.sweeper.now <= s.clock)
  }

  lemma StepClocked(s: State, step: Step)
    requires Clocked(s) && Enabled(s, step)
    ensures Clocked(Do(s, step))
  {
    if Idle(step) {
      assert Do(s, step).table == s.table;
    } else {
      BusyClocked(s, step);
    }
  }

  lemma BusyClocked(s: State, step: Step)
    requires Clocked(s) && Enabled(s, step) && !Idle(step)
    ensures Clocked(Do(s, step))
  {
    BusySeen(s, step);
    BusyTimes(s, step);
  }

  lemma BusyTimes(s: State, step: Step)
    requires Enabled(s, step) && !Idle(step)
    ensures Do(s, step).clock == s.clock
    ensures Do(s, step).sweeper.Evicting? ==> Do(s, step).sweeper == s.sweeper
  {
  }

  lemma BusySeen(s: State, step: Step)
    requires Enabled(s, step) && !Idle(step)
    ensures var s' := Do(s, step);
            forall a :: a in s'.table.byAddr ==>
              s'.table.byAddr[a].lastSeen == s.clock
              || (a in s.table.byAddr && s'.table.byAddr[a].lastSeen == s.table.byAddr[a].lastSeen)
  {
  }

  /** A flow about to be promoted is still there, refreshed no earlier than its deciding
      lookup -- or that lookup is at least the idle timeout ago. */
  ghost predicate Fresh(s: State) {
    var r := s.reader;
    r.Promoting? || r.Started? ==>
      || (s.table.Live(r.id) && s.table.byAddr[s.table.byId[r.id]].lastSeen >= r.seen)
      || s.clock - r.seen >= IDLE_TTL
  }

  lemma EvictFresh(s: State)
    requires Ids(s) && Clocked(s) && Fresh(s) && Enabled(s, Evict)
    ensures Fresh(Do(s, Evict))
  {
    var r, now := s.reader, s.sweeper.now;
    if (r.Promoting? || r.Started?) && s.table.Live(r.id) {
      var a := s.table.byId[r.id];
      if a !in s.table.Expired(now) {
        assert a in s.table.Evict(now).byAddr;
        assert r.id !in s.table.IdsOf(s.table.Expired(now)) by {
          assert forall b :: b in s.table.byAddr && s.table.byAddr[b].id == r.id ==> b == a;
        }
      }
    }
  }

  lemma LookupFresh(s: State, d: Datagram)
    requires Ids(s) && Enabled(s, Lookup(d))
    ensures Fresh(Do(s, Lookup(d)))
  {
    if d.from in s.table.byAddr {
      assert s.table.byId[s.table.byAddr[d.from].id] == d.from;
    }
  }

  lemma ReceiveFresh(s: State, id: nat)
    requires Clocked(s) && Fresh(s) && Enabled(s, Receive(id))
    ensures Fresh(Do(s, Receive(id)))
  {
  }

  lemma OtherFresh(s: State, step: Step)
    requires Teardown(s) && Fresh(s) && Enabled(s, step)
    requires !step.Evict? && !step.Lookup? && !step.Receive?
    ensures Fresh(Do(s, step))
  {
  }

  lemma StepFresh(s: State, step: Step)
    requires Ids(s) && Teardown(s) && Clocked(s) && Fresh(s) && Enabled(s, step)
    ensures Fresh(Do(s, step))
  {
    match step
    case Lookup(d) => LookupFresh(s, d);
    case Evict => EvictFresh(s);
    case Receive(id) => ReceiveFresh(s, id);
    case _ => OtherFresh(s, step);
  }

  // ---- Whole behaviours -----------------------------------------------------------------------------

  ghost predicate Sound(s: State) {
    Fires(s) && StartedOnce(s) && Conserved(s) && Teardown(s) && Clocked(s) && Fresh(s)
  }

  lemma StepSound(s: State, step: Step)
    requires Ids(s) && Sound(s) && Enabled(s, step) && |Do(s, step).log.owners| <= ID_SPACE
    ensures Sound(Do(s, step))
  {
    StepFires(s, step);
    StepStartedOnce(s, step);
    StepConserves(s, step);
    StepTeardown(s, step);
    StepClocked(s, step);
    StepFresh(s, step);
  }

  lemma {:induction false} AlwaysSound(tr: seq<State>, i: nat)
    requires Behaviour(tr) && FewCreations(tr) && i < |tr|
    ensures Sound(tr[i])
  {
    if i > 0 {
      AlwaysSound(tr, i - 1);
      AlwaysIds(tr, i - 1);
      OwnersPrefix(tr, i, |tr| - 1);
      assert Next(tr[i - 1], tr[i]);
      StepSound(tr[i - 1], Via(tr[i - 1], tr[i]));
    }
  }

  /** Promotion fires at most once per flow. */
  lemma PromotionFiresOnce(tr: seq<State>, id: nat)
    requires Behaviour(tr) && FewCreations(tr)
    ensures Last(tr).log.fired[id] <= 1
  {
    AlwaysSound(tr, |tr| - 1);
  }

  /** At any time: no session id is started twice, ended twice, or ended unstarted. */
  lemma EndsFollowStarts(tr: seq<State>, sid: string)
    requires Behaviour(tr) && FewCreations(tr)
    ensures Last(tr).log.ends[sid] <= Last(tr).log.starts[sid] <= 1
  {
    AlwaysSound(tr, |tr| - 1);
  }

  /** By the time `run` returns, every started session has been ended exactly once or was
      lost to a promotion that found no flow. */
  lemma EverySessionAccountedFor(tr: seq<State>, sid: string)
    requires Behaviour(tr) && FewCreations(tr) && Last(tr).run.Returned?
    ensures sid in Last(tr).log.starts ==> Last(tr).log.ends[sid] + Last(tr).log.lost[sid] == 1
    ensures sid !in Last(tr).log.starts ==> Last(tr).log.ends[sid] == 0
  {
    AlwaysSound(tr, |tr| - 1);
    assert FlowsOwe(Last(tr).table) == multiset{};
  }

  /** At step `i` the reader hands a minted session to `Promote`. */
  predicate StoresAt(tr: seq<State>, i: nat) {
    i + 1 < |tr| && tr[i].reader.Started? && !tr[i + 1].reader.Started?
  }

  /** Every `Promote` finds its flow. */
  predicate PromotesHit(tr: seq<State>) {
    forall i :: 0 <= i < |tr| && StoresAt(tr, i) ==> tr[i].table.Live(tr[i].reader.id)
  }

  /** Less than the idle timeout passes between a deciding lookup and its `Promote`. */
  predicate PromotesInTime(tr: seq<State>) {
    forall i :: 0 <= i < |tr| && StoresAt(tr, i) ==> tr[i].clock - tr[i].reader.seen < IDLE_TTL
  }

  lemma StepLost(s: State, step: Step)
    requires Enabled(s, step)
    ensures
      var s' := Do(s, step);
      if s.reader.Started? && !s'.reader.Started? && !s.table.Live(s.reader.id)
      then s'.log.lost == s.log.lost + multiset{s.reader.sid}
      else s'.log.lost == s.log.lost
  {
    if !step.StorePromotion? {
      OthersLoseNothing(s, step);
    }
  }

  lemma OthersLoseNothing(s: State, step: Step)
    requires Enabled(s, step) && !step.StorePromotion?
    ensures Do(s, step).log.lost == s.log.lost
    ensures s.reader.Started? ==> Do(s, step).reader.Started?
  {
  }

  lemma {:induction false} LostIff(tr: seq<State>, n: nat)
    requires Behaviour(tr) && n < |tr|
    ensures tr[n].log.lost == multiset{} <==>
            forall i :: 0 <= i < n && StoresAt(tr, i) ==> tr[i].table.Live(tr[i].reader.id)
  {
    if n > 0 {
      LostIff(tr, n - 1);
      assert Next(tr[n - 1], tr[n]);
      StepLost(tr[n - 1], Via(tr[n - 1], tr[n]));
      assert StoresAt(tr, n - 1) <==> (tr[n - 1].reader.Started? && !tr[n].reader.Started?);
    }
  }

  /** Each start has its one end by the time `run` returns exactly when every `Promote`
      found its flow. */
  lemma AllEndedIffPromotesHit(tr: seq<State>)
    requires Behaviour(tr) && FewCreations(tr) && Last(tr).run.Returned?
    ensures Last(tr).log.ends == Last(tr).log.starts <==> PromotesHit(tr)
  {
    LostIff(tr, |tr| - 1);
    AlwaysSound(tr, |tr| - 1);
    NothingOwed(Last(tr));
    SumIffNone(Last(tr).log.starts, Last(tr).log.ends, Last(tr).log.lost);
    assert PromotesHit(tr) <==> Last(tr).log.lost == multiset{};
  }

  lemma NothingOwed(s: State)
    requires Sound(s) && s.run.Returned?
    ensures s.log.starts == s.log.ends + s.log.lost
  {
    assert FlowsOwe(s.table) == multiset{};
  }

  lemma SumIffNone(all: multiset<string>, ends: multiset<string>, lost: multiset<string>)
    requires all == ends + lost
    ensures ends == all <==> lost == multiset{}
  {
    assert all - ends == lost;
  }

  /** Promoting in time is enough: the sweeper cannot have taken the flow meanwhile. */
  lemma InTimeHits(tr: seq<State>)
    requires Behaviour(tr) && FewCreations(tr) && PromotesInTime(tr)
    ensures PromotesHit(tr)
  {
    forall i | 0 <= i < |tr| && StoresAt(tr, i) ensures tr[i].table.Live(tr[i].reader.id) {
      AlwaysSound(tr, i);
    }
  }

  /** The pairing the reporter relies on. */
  lemma StartEndPairing(tr: seq<State>)
    requires Behaviour(tr) && FewCreations(tr) && PromotesInTime(tr) && Last(tr).run.Returned?
    ensures Last(tr).log.ends == Last(tr).log.starts
    ensures forall sid :: sid in Last(tr).log.starts ==> Last(tr).log.ends[sid] == 1
  {
    InTimeHits(tr);
    AllEndedIffPromotesHit(tr);
    AlwaysSound(tr, |tr| - 1);
  }
}
