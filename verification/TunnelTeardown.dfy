/** The teardown of a tunnel goes on to its end: `run` joins goroutines that can always finish
    (relay/internal/bedrock/tunnel.go). The join of the QUIC sender is in FrameQueue.dfy.
 */
module TunnelTeardown {
  import opened FlowTables
  import opened TunnelSteps
  import opened TunnelSessions

  // ---- How far there is to go ----------------------------------------------------------------

  function Stage(r: Run): nat {
    match r
    case Receiving => 7
    case Writing(_, _) => 7
    case Closing => 6
    case JoiningPumps => 5
    case JoiningSweeper => 4
    case Draining => 3
    case Counting(_, _) => 2
    case RunEnding(_) => 1
    case Returned => 0
  }

  function ReaderRank(r: Reader): nat {
    match r
    case Holding(_) => 7
    case Missed(_) => 6
    case Acquired(_) => 5
    case Promoting(_, _, _) => 5
    case Created(_, _, _) => 4
    case Started(_, _, _, _) => 4
    case Admitted(_, _, _) => 3
    case Forwarding(_, _) => 2
    case Reading => 1
    case ReaderDone => 0
  }

  /** A sweep in progress evicts, releases and ends what the table holds now, at most. */
  ghost function SweeperRank(w: Sweeper, t: Table): nat {
    match w
    case Evicting(_) => 4 + |t.byAddr| + |FlowsOwe(t)|
    case Releasing(pending, _, owed) => 3 + |pending| + |owed|
    case SweepEnding(owed) => 2 + |owed|
    case Waiting => 1
    case SweeperDone => 0
  }

  /** What `run` is waiting for, or has left to do, at its stage. */
  ghost function Left(s: State): nat {
    match s.run
    case JoiningPumps => ReaderRank(s.reader)
    case JoiningSweeper => SweeperRank(s.sweeper, s.table)
    case RunEnding(owed) => |owed|
    case _ => 0
  }

  ghost predicate Nearer(s: State, s': State) {
    Stage(s'.run) < Stage(s.run) || (Stage(s'.run) == Stage(s.run) && Left(s') < Left(s))
  }

  ghost predicate NoFarther(s: State, s': State) {
    Nearer(s, s') || (Stage(s'.run) == Stage(s.run) && Left(s') == Left(s))
  }

  // ---- Invariant -----------------------------------------------------------------------------------

  /** Past its close, `run` has closed the socket; past the first join, the reader has stopped. */
  ghost predicate Ordered(s: State) {
    && (Stage(s.run) < 6 ==> !s.bound)
    && (Stage(s.run) < 5 ==> s.reader.ReaderDone?)
  }

  lemma StepOrdered(s: State, step: Step)
    requires Ordered(s) && Enabled(s, step)
    ensures Ordered(Do(s, step))
  {
    if OfRun(step) {
      RunOrdered(s, step);
    }
  }

  lemma RunOrdered(s: State, step: Step)
    requires Ordered(s) && Enabled(s, step) && OfRun(step)
    ensures Ordered(Do(s, step))
  {
  }

  lemma {:induction false} AlwaysOrdered(tr: seq<State>, i: nat)
    requires Behaviour(tr) && i < |tr|
    ensures Ordered(tr[i])
  {
    if i > 0 {
      AlwaysOrdered(tr, i - 1);
      assert Next(tr[i - 1], tr[i]);
      StepOrdered(tr[i - 1], Via(tr[i - 1], tr[i]));
    }
  }

  // ---- A way forward ------------------------------------------------------------------------------------

  /** There is always a session id that has not been used. */
  lemma {:induction false} UnusedId(used: multiset<string>) returns (sid: string)
    ensures sid !in used && forall x :: x in used ==> |x| < |sid|
    decreases |used|
  {
    if used == multiset{} {
      sid := "a";
    } else {
      var x :| x in used;
      var rest := UnusedId(used - multiset{x});
      sid := rest + x + "a";
      forall y | y in used ensures |y| < |sid| {
        if y != x {
          assert y in used - multiset{x};
        }
      }
    }
  }

  lemma ReaderGoesOn(s: State) returns (step: Step)
    requires !s.reader.ReaderDone?
    ensures Enabled(s, step) && ReaderRank(Do(s, step).reader) < ReaderRank(s.reader) && Do(s, step).run == s.run
  {
    match s.reader
    case Holding(d) => step := Lookup(d);
    case Missed(_) => step := Reject;
    case Acquired(_) => step := Create;
    case Created(_, _, _) => step := CountCreated;
    case Promoting(_, _, _) =>
      var sid := UnusedId(s.log.starts);
      step := StartSession(sid);
    case Started(_, _, _, _) => step := StorePromotion;
    case Admitted(_, d, _) => step := if d.UnconnectedPing() then CheckPing else SkipPing;
    case Forwarding(_, _) => step := Forward;
    case Reading => step := StopReader;
  }

  /** An eviction hands out no more flows and sessions than the table has. */
  lemma EvictionFits(s: State)
    requires Enabled(s, Evict)
    ensures SweeperRank(Do(s, Evict).sweeper, Do(s, Evict).table) < SweeperRank(s.sweeper, s.table)
  {
    var t, gone := s.table, s.table.Expired(s.sweeper.now);
    SessionsSplit(t.byAddr, gone, t.byAddr.Keys);
    SubsetFits(gone, t.byAddr.Keys);
    assert |SessionsOf(t.byAddr, gone)| <= |FlowsOwe(t)|;
  }

  lemma SubsetFits<T>(a: set<T>, b: set<T>)
    requires a <= b
    ensures |a| <= |b|
  {
    assert b == a + (b - a);
  }

  lemma SweeperGoesOn(s: State) returns (step: Step)
    requires !s.sweeper.SweeperDone?
    ensures Enabled(s, step) && Do(s, step).run == s.run
    ensures SweeperRank(Do(s, step).sweeper, Do(s, step).table) < SweeperRank(s.sweeper, s.table)
  {
    match s.sweeper
    case Waiting => step := StopSweeper;
    case Evicting(_) =>
      step := Evict;
      EvictionFits(s);
    case Releasing(_, _, _) => step := ReleasingGoesOn(s);
    case SweepEnding(_) => step := EndingGoesOn(s);
  }

  lemma ReleasingGoesOn(s: State) returns (step: Step)
    requires s.sweeper.Releasing?
    ensures Enabled(s, step) && Do(s, step).run == s.run
    ensures SweeperRank(Do(s, step).sweeper, Do(s, step).table) < SweeperRank(s.sweeper, s.table)
  {
    if s.sweeper.pending == {} {
      step := CountEvicted;
    } else {
      var a :| a in s.sweeper.pending;
      step := Release(a);
    }
  }

  lemma EndingGoesOn(s: State) returns (step: Step)
    requires s.sweeper.SweepEnding?
    ensures Enabled(s, step) && Do(s, step).run == s.run
    ensures SweeperRank(Do(s, step).sweeper, Do(s, step).table) < SweeperRank(s.sweeper, s.table)
  {
    if s.sweeper.owed == multiset{} {
      step := SweepAgain;
    } else {
      var sid :| sid in s.sweeper.owed;
      OneLess(s.sweeper.owed, sid);
      step := EndEvicted(sid);
    }
  }

  lemma OneLess(owed: multiset<string>, sid: string)
    requires sid in owed
    ensures |owed - multiset{sid}| == |owed| - 1
  {
  }

  /** From its close on, `run` or the goroutine that it joins always has a step that brings its
      return nearer. */
  lemma TeardownGoesOn(tr: seq<State>, i: nat) returns (step: Step)
    requires Behaviour(tr) && i < |tr| && 0 < Stage(tr[i].run) <= 6
    ensures Enabled(tr[i], step) && Nearer(tr[i], Do(tr[i], step))
  {
    var s := tr[i];
    match s.run
    case Closing => step := Close;
    case JoiningPumps =>
      if s.reader.ReaderDone? {
        step := JoinPumps;
      } else {
        step := ReaderGoesOn(s);
      }
    case JoiningSweeper =>
      if s.sweeper.SweeperDone? {
        step := JoinSweeper;
      } else {
        step := SweeperGoesOn(s);
      }
    case Draining => step := Drain;
    case Counting(_, _) => step := CountDrained;
    case RunEnding(_) => step := RunGoesOn(s);
  }

  lemma RunGoesOn(s: State) returns (step: Step)
    requires s.run.RunEnding?
    ensures Enabled(s, step) && Nearer(s, Do(s, step))
  {
    if s.run.owed == multiset{} {
      step := Return;
    } else {
      var sid :| sid in s.run.owed;
      step := EndDrained(sid);
      EndForward(s, sid);
    }
  }

  // ---- No way back -------------------------------------------------------------------------------------------

  lemma ReaderNeverBack(s: State, step: Step)
    requires !s.bound && Enabled(s, step)
    ensures ReaderRank(Do(s, step).reader) <= ReaderRank(s.reader)
  {
  }

  lemma SweeperNeverBack(s: State, step: Step)
    requires s.reader.ReaderDone? && s.run.JoiningSweeper? && Enabled(s, step) && !step.ReadClock?
    ensures SweeperRank(Do(s, step).sweeper, Do(s, step).table) <= SweeperRank(s.sweeper, s.table)
  {
    if step.Evict? {
      EvictionFits(s);
    } else {
      assert Do(s, step).table == s.table;
    }
  }

  /** No step takes the teardown back, but for a sweep that starts while the sweeper is already
      told to stop, on a tick that was due. */
  lemma TeardownNeverBack(tr: seq<State>, i: nat, step: Step)
    requires Behaviour(tr) && i < |tr| && 0 < Stage(tr[i].run) <= 6
    requires Enabled(tr[i], step) && !step.ReadClock?
    ensures NoFarther(tr[i], Do(tr[i], step))
  {
    AlwaysOrdered(tr, i);
    var s := tr[i];
    RunNeverBack(s, step);
    if Do(s, step).run == s.run {
      match s.run
      case JoiningPumps => ReaderNeverBack(s, step);
      case JoiningSweeper => SweeperNeverBack(s, step);
      case _ =>
    }
  }

  /** `run` itself only goes forward. */
  lemma RunNeverBack(s: State, step: Step)
    requires 0 < Stage(s.run) <= 6 && Enabled(s, step)
    ensures Do(s, step).run == s.run || Nearer(s, Do(s, step))
  {
    if OfRun(step) {
      RunForward(s, step);
    } else {
      OthersLeaveRun(s, step);
    }
  }

  /** The steps that `run` takes from its close on. */
  predicate OfRun(step: Step) {
    || step.Close? || step.JoinPumps? || step.JoinSweeper? || step.Drain? || step.CountDrained?
    || step.EndDrained? || step.Return?
  }

  lemma RunForward(s: State, step: Step)
    requires Enabled(s, step) && OfRun(step)
    ensures Nearer(s, Do(s, step))
  {
    if step.EndDrained? {
      EndForward(s, step.sid);
    }
  }

  lemma EndForward(s: State, sid: string)
    requires Enabled(s, EndDrained(sid))
    ensures Nearer(s, Do(s, EndDrained(sid)))
  {
    var left := s.run.owed - multiset{sid};
    OneLess(s.run.owed, sid);
    assert Do(s, EndDrained(sid)).run == RunEnding(left);
    assert Left(s) == |s.run.owed| && Left(Do(s, EndDrained(sid))) == |left|;
  }

  lemma OthersLeaveRun(s: State, step: Step)
    requires Stage(s.run) <= 6 && Enabled(s, step) && !OfRun(step)
    ensures Do(s, step).run == s.run
  {
  }
}
