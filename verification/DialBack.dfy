/** The dial-back rendezvous for one token: `awaitTunnel` (relay/internal/game/listener.go)
    against the token table (relay/internal/tunnel/tokens.go), for any number of dial-backs,
    and the pre-splice writes that race a shutdown.

    The API mints each token once, so one waiter registers it; every operation of the table
    touches one token only, and the sweep's passes over several are independent.
 */
module DialBack {
  import opened Wrappers

  // ---- The rendezvous ------------------------------------------------------------------

  /** The waiter's channel: capacity one, filled by Deliver, closed by the sweep. */
  datatype Channel = Channel(buffer: Option<nat>, closed: bool)

  /** `awaitTunnel`. `Received` has taken a value off the channel, `GaveUp` has left the select
      on the timer or the context; both still have to call Cancel. */
  datatype Waiter =
    | NotRegistered
    | Selecting
    | Received(conn: Option<nat>)
    | GaveUp
    | Draining
    | Returned(conn: Option<nat>)

  /** Where a dialled connection is. `Handed` has been taken out of the table's hands by
      Deliver but not yet been sent on the channel. */
  datatype Conn = Dialled | Handed | Buffered | Held | InUse | Closed {
    /** Between the table and the waiter. */
    predicate EnRoute() {
      Handed? || Buffered?
    }
  }

  /** `matched` remembers every connection that Deliver ever matched to the token. */
  datatype State = State(
    present: bool,
    expired: bool,
    channel: Channel,
    waiter: Waiter,
    conns: map<nat, Conn>,
    matched: set<nat>
  )

  ghost predicate Init(s: State) {
    s == State(false, false, Channel(None, false), NotRegistered, map[], {})
  }

  datatype Step =
    | Dial(c: nat)
    | Register
    /** The token's lifetime runs out. */
    | Expire
    /** Deliver's locked section: the connection matches, or its caller closes it. */
    | Match(c: nat)
    | Refuse(c: nat)
    /** Deliver's send on the channel, outside the lock. */
    | Send(c: nat)
    | Sweep
    /** The select's three ways out. */
    | TakeConn
    | TakeClosed
    | GiveUp
    /** Cancel after a receive, and after giving up. */
    | CancelReceived
    | CancelGaveUp
    | DrainConn
    | DrainClosed

  predicate Enabled(s: State, step: Step) {
    match step
    case Dial(c) => c !in s.conns
    case Register => s.waiter.NotRegistered?
    case Expire => true
    case Match(c) => c in s.conns && s.conns[c].Dialled? && s.present && !s.expired
    case Refuse(c) => c in s.conns && s.conns[c].Dialled? && !(s.present && !s.expired)
    case Send(c) => c in s.conns && s.conns[c].Handed? && s.channel.buffer.None?
    case Sweep => s.present && s.expired
    case TakeConn => s.waiter.Selecting? && s.channel.buffer.Some?
    case TakeClosed => s.waiter.Selecting? && s.channel.closed && s.channel.buffer.None?
    case GiveUp => s.waiter.Selecting?
    case CancelReceived => s.waiter.Received?
    case CancelGaveUp => s.waiter.GaveUp?
    case DrainConn => s.waiter.Draining? && s.channel.buffer.Some?
    case DrainClosed => s.waiter.Draining? && s.channel.closed && s.channel.buffer.None?
  }

  function Do(s: State, step: Step): State
    requires Enabled(s, step)
  {
    match step
    case Dial(c) => s.(conns := s.conns[c := Dialled])
    case Register => s.(present := true, waiter := Selecting)
    case Expire => s.(expired := true)
    case Match(c) => s.(present := false, conns := s.conns[c := Handed], matched := s.matched + {c})
    case Refuse(c) => s.(conns := s.conns[c := Closed])
    case Send(c) => s.(channel := s.channel.(buffer := Some(c)), conns := s.conns[c := Buffered])
    case Sweep => s.(present := false, channel := s.channel.(closed := true))
    case TakeConn =>
      var c := s.channel.buffer.value;
      s.(channel := s.channel.(buffer := None), waiter := Received(Some(c)), conns := s.conns[c := Held])
    case TakeClosed => s.(waiter := Received(None))
    case GiveUp => s.(waiter := GaveUp)
    case CancelReceived =>
      var r := s.waiter.conn;
      s.(present := false, waiter := Returned(r), conns := if r.Some? then s.conns[r.value := InUse] else s.conns)
    case CancelGaveUp =>
      // true: the waiter was still registered; false: drain what is en route
      if s.present then s.(present := false, waiter := Returned(None)) else s.(waiter := Draining)
    case DrainConn =>
      var c := s.channel.buffer.value;
      s.(channel := s.channel.(buffer := None), waiter := Returned(None), conns := s.conns[c := Closed])
    case DrainClosed => s.(waiter := Returned(None))
  }

  ghost predicate Next(s: State, s': State) {
    exists step :: Enabled(s, step) && s' == Do(s, step)
  }

  ghost function Via(s: State, s': State): (step: Step)
    requires Next(s, s')
    ensures Enabled(s, step) && s' == Do(s, step)
  {
    var step :| Enabled(s, step) && s' == Do(s, step);
    step
  }

  ghost predicate Behaviour(tr: seq<State>) {
    && |tr| > 0
    && Init(tr[0])
    && forall i :: 0 <= i < |tr| - 1 ==> Next(tr[i], tr[i + 1])
  }

  predicate Waits(w: Waiter) {
    w.Selecting? || w.GaveUp? || w.Draining?
  }

  /** The channel carries exactly the buffered connection; what is en route is alone, never
      beside a registered waiter or a closed channel, and someone waits for it. */
  ghost predicate Channelled(s: State) {
    BufferMatches(s) && OneEnRoute(s)
  }

  ghost predicate BufferMatches(s: State) {
    && (s.channel.buffer.Some? ==> s.channel.buffer.value in s.conns && s.conns[s.channel.buffer.value].Buffered?)
    && (forall c :: c in s.conns && s.conns[c].Buffered? ==> s.channel.buffer == Some(c))
  }

  ghost predicate OneEnRoute(s: State) {
    && (forall c, d :: c in s.conns && d in s.conns && s.conns[c].EnRoute() && s.conns[d].EnRoute() ==> c == d)
    && (forall c :: c in s.conns && s.conns[c].EnRoute() ==> !s.present && !s.channel.closed && Waits(s.waiter))
  }

  /** A received connection is in the waiter's hands, a returned one in its caller's. */
  ghost predicate InHands(s: State) {
    && (forall c :: c in s.conns && s.conns[c].Held? ==> s.waiter == Received(Some(c)))
    && (forall c :: c in s.conns && s.conns[c].InUse? ==> s.waiter == Returned(Some(c)))
    && (s.waiter.Received? && s.waiter.conn.Some? ==>
          s.waiter.conn.value in s.conns && s.conns[s.waiter.conn.value].Held?)
    && (s.waiter.Returned? && s.waiter.conn.Some? ==>
          s.waiter.conn.value in s.conns && s.conns[s.waiter.conn.value].InUse?)
  }

  /** A match takes the entry out, and it is never put back. */
  ghost predicate SingleUse(s: State) {
    && (s.matched != {} ==> !s.present && !s.waiter.NotRegistered? && !s.channel.closed)
    && (forall c, d :: c in s.matched && d in s.matched ==> c == d)
    && (forall c :: c in s.conns && (s.conns[c].EnRoute() || s.conns[c].Held? || s.conns[c].InUse?) ==> c in s.matched)
  }

  ghost predicate Coming(s: State) {
    exists c :: c in s.conns && s.conns[c].EnRoute()
  }

  /** Once the entry is gone, something will end the wait. */
  ghost predicate Served(s: State) {
    && (s.present ==> s.waiter.Selecting? || s.waiter.GaveUp?)
    && (s.channel.closed || s.waiter.Draining? ==> !s.present)
    && (s.waiter.NotRegistered? ==> s.channel == Channel(None, false))
    && (Waits(s.waiter) && !s.present ==> s.channel.closed || Coming(s))
  }

  ghost predicate Inv(s: State) {
    Channelled(s) && InHands(s) && Served(s) && SingleUse(s)
  }

  lemma StepChannelled(s: State, step: Step)
    requires Inv(s) && Enabled(s, step)
    ensures Channelled(Do(s, step))
  {
    StepBuffer(s, step);
    StepEnRoute(s, step);
  }

  lemma StepBuffer(s: State, step: Step)
    requires Inv(s) && Enabled(s, step)
    ensures BufferMatches(Do(s, step))
  {
  }

  lemma StepEnRoute(s: State, step: Step)
    requires Inv(s) && Enabled(s, step)
    ensures OneEnRoute(Do(s, step))
  {
  }

  lemma StepInHands(s: State, step: Step)
    requires Inv(s) && Enabled(s, step)
    ensures InHands(Do(s, step))
  {
  }

  lemma StepSingleUse(s: State, step: Step)
    requires Inv(s) && Enabled(s, step)
    ensures SingleUse(Do(s, step))
  {
  }

  lemma StepServed(s: State, step: Step)
    requires Inv(s) && Enabled(s, step)
    ensures Served(Do(s, step))
  {
    var s' := Do(s, step);
    if step.Match? {
      assert s'.conns[step.c].EnRoute();
    } else if Coming(s) && Waits(s'.waiter) {
      var c :| c in s.conns && s.conns[c].EnRoute();
      assert c in s'.conns && s'.conns[c].EnRoute();
    }
  }

  lemma {:induction false} AlwaysInv(tr: seq<State>, i: nat)
    requires Behaviour(tr) && i < |tr|
    ensures Inv(tr[i])
  {
    if i > 0 {
      AlwaysInv(tr, i - 1);
      assert Next(tr[i - 1], tr[i]);
      var step := Via(tr[i - 1], tr[i]);
      StepChannelled(tr[i - 1], step);
      StepInHands(tr[i - 1], step);
      StepServed(tr[i - 1], step);
      StepSingleUse(tr[i - 1], step);
    }
  }

  // ---- Main results ------------------------------------------------------------------------

  /** Once the waiter has returned, every connection that Deliver matched is in its caller's
      use or closed: none is left in the channel or on its way there, and a connection is in
      use exactly if the waiter returned it. */
  lemma NoConnectionLost(tr: seq<State>, i: nat, c: nat)
    requires Behaviour(tr) && i < |tr| && tr[i].waiter.Returned? && c in tr[i].conns && !tr[i].conns[c].Dialled?
    ensures tr[i].conns[c] == if tr[i].waiter.conn == Some(c) then InUse else Closed
  {
    AlwaysInv(tr, i);
  }

  /** At most one dial-back is ever matched to the token, whatever became of it; and only that
      one can reach the waiter. */
  lemma MatchedOnce(tr: seq<State>, i: nat, c: nat, d: nat)
    requires Behaviour(tr) && i < |tr| && c in tr[i].matched
    ensures d in tr[i].matched ==> c == d
    ensures !Enabled(tr[i], Match(d))
    ensures tr[i].waiter == Returned(Some(d)) ==> c == d
  {
    AlwaysInv(tr, i);
  }

  /** A dial-back is matched exactly while the token is valid and its waiter waits for a first one:
      not after the token ran out, and not after a cancellation. */
  lemma MatchedIff(tr: seq<State>, i: nat, c: nat)
    requires Behaviour(tr) && i < |tr| && c in tr[i].conns && tr[i].conns[c].Dialled? && !tr[i].expired
    ensures Enabled(tr[i], Match(c)) <==> (tr[i].waiter.Selecting? || tr[i].waiter.GaveUp?) && tr[i].matched == {}
  {
    AlwaysInv(tr, i);
    AlwaysTold(tr, i);
  }

  /** The entry is missing, before the waiter has cancelled, only for a match or a sweep. */
  ghost predicate Told(s: State) {
    && (s.waiter.Selecting? || s.waiter.GaveUp? ==> s.present || s.matched != {} || s.channel.closed)
    && (s.channel.closed ==> s.expired)
    && (s.waiter == Received(None) ==> s.channel.closed)
  }

  lemma StepTold(s: State, step: Step)
    requires Told(s) && Enabled(s, step)
    ensures Told(Do(s, step))
  {
  }

  lemma {:induction false} AlwaysTold(tr: seq<State>, i: nat)
    requires Behaviour(tr) && i < |tr|
    ensures Told(tr[i])
  {
    if i > 0 {
      AlwaysTold(tr, i - 1);
      assert Next(tr[i - 1], tr[i]);
      StepTold(tr[i - 1], Via(tr[i - 1], tr[i]));
    }
  }

  ghost predicate Execution(tr: seq<State>, steps: seq<Step>) {
    && |tr| == |steps| + 1
    && Init(tr[0])
    && forall i :: 0 <= i < |steps| ==> Enabled(tr[i], steps[i]) && tr[i + 1] == Do(tr[i], steps[i])
  }

  lemma MatchStep(s: State, step: Step, c: nat)
    requires Enabled(s, step)
    ensures c in Do(s, step).matched <==> c in s.matched || step == Match(c)
    ensures c in s.conns ==> c in Do(s, step).conns
    ensures step == Dial(c) ==> c in Do(s, step).conns
  {
  }

  /** The matches on record are those that Deliver made. */
  lemma {:induction false} MatchesAreRecorded(tr: seq<State>, steps: seq<Step>, n: nat, c: nat)
    requires Execution(tr, steps) && n <= |steps|
    ensures c in tr[n].matched <==> Match(c) in steps[..n]
    ensures Dial(c) in steps[..n] ==> c in tr[n].conns
  {
    if n > 0 {
      MatchesAreRecorded(tr, steps, n - 1, c);
      MatchStep(tr[n - 1], steps[n - 1], c);
      assert steps[..n] == steps[..n - 1] + [steps[n - 1]];
    }
  }

  /** The waiter left the select on the timer or the context. */
  ghost predicate GaveUpBefore(tr: seq<State>, i: nat) {
    exists j :: 0 <= j < i < |tr| && tr[j].waiter.GaveUp?
  }

  lemma {:induction false} DrainsAfterGivingUp(tr: seq<State>, i: nat)
    requires Behaviour(tr) && i < |tr| && tr[i].waiter.Draining?
    ensures GaveUpBefore(tr, i)
  {
    assert i > 0;
    assert Next(tr[i - 1], tr[i]);
    var step := Via(tr[i - 1], tr[i]);
    if tr[i - 1].waiter.Draining? {
      DrainsAfterGivingUp(tr, i - 1);
    } else {
      assert step.CancelGaveUp?;
    }
  }

  /** The waiter returns nothing only if it gave up, or found its channel closed by the sweep of a
      token that had run out. */
  lemma {:induction false} NothingOnlyIfGaveUp(tr: seq<State>, i: nat)
    requires Behaviour(tr) && i < |tr| && tr[i].waiter == Returned(None)
    ensures GaveUpBefore(tr, i) || (tr[i].channel.closed && tr[i].expired)
  {
    assert i > 0;
    assert Next(tr[i - 1], tr[i]);
    AlwaysTold(tr, i);
    var step := Via(tr[i - 1], tr[i]);
    if tr[i - 1].waiter == Returned(None) {
      NothingOnlyIfGaveUp(tr, i - 1);
      ClosedStays(tr[i - 1], step);
    } else {
      ReturnsNothing(tr, i, step);
    }
  }

  lemma ClosedStays(s: State, step: Step)
    requires Enabled(s, step)
    ensures s.channel.closed ==> Do(s, step).channel.closed
    ensures s.expired ==> Do(s, step).expired
  {
  }

  lemma ReturnsNothing(tr: seq<State>, i: nat, step: Step)
    requires Behaviour(tr) && 0 < i < |tr| && Enabled(tr[i - 1], step) && tr[i] == Do(tr[i - 1], step)
    requires tr[i - 1].waiter != Returned(None) && tr[i].waiter == Returned(None)
    ensures GaveUpBefore(tr, i) || (tr[i].channel.closed && tr[i].expired)
  {
    AlwaysTold(tr, i - 1);
    match step
    case CancelReceived => ClosedStays(tr[i - 1], step);
    case DrainConn => DrainsAfterGivingUp(tr, i - 1);
    case DrainClosed => DrainsAfterGivingUp(tr, i - 1);
    case _ =>
  }

  /** Without a timeout or a cancellation a delivered connection is the one returned: it is closed
      only if the waiter gave up. */
  lemma DeliveredIsReturned(tr: seq<State>, i: nat, c: nat)
    requires Behaviour(tr) && i < |tr| && c in tr[i].matched && tr[i].waiter.Returned? && !GaveUpBefore(tr, i)
    ensures tr[i].waiter == Returned(Some(c)) && c in tr[i].conns && tr[i].conns[c].InUse?
  {
    AlwaysInv(tr, i);
    if tr[i].waiter == Returned(None) {
      NothingOnlyIfGaveUp(tr, i);
    }
  }

  /** Deliver's send outside the lock neither blocks nor hits a channel the sweep closed. */
  lemma SendNeverBlocks(tr: seq<State>, i: nat, c: nat)
    requires Behaviour(tr) && i < |tr| && c in tr[i].conns && tr[i].conns[c].Handed?
    ensures Enabled(tr[i], Send(c)) && !tr[i].channel.closed
  {
    AlwaysInv(tr, i);
  }

  /** The sweep closes the channel at most once. */
  lemma SweptOnce(tr: seq<State>, i: nat)
    requires Behaviour(tr) && i < |tr| && Enabled(tr[i], Sweep)
    ensures !tr[i].channel.closed && !Coming(tr[i])
  {
    AlwaysInv(tr, i);
  }

  /** A false Cancel means a connection is en route or the channel was closed, so the drain
      that follows it ends: it can proceed now, or after the one Send that is pending. */
  lemma DrainNeverHangs(tr: seq<State>, i: nat) returns (c: nat)
    requires Behaviour(tr) && i < |tr| && tr[i].waiter.Draining?
    ensures Enabled(tr[i], DrainConn) || Enabled(tr[i], DrainClosed)
            || (Enabled(tr[i], Send(c)) && Enabled(Do(tr[i], Send(c)), DrainConn))
  {
    AlwaysInv(tr, i);
    c := 0;
    if !tr[i].channel.closed {
      c :| c in tr[i].conns && tr[i].conns[c].EnRoute();
    }
  }

  // ---- Writing before the splice ---------------------------------------------------------------

  /** context.AfterFunc: armed, started by the cancellation, or stopped before it. */
  datatype Hook = Armed | Started | Unhooked

  /** `writePreSplice`: writing, then asking the hook to stop, then closing or succeeding. */
  datatype Writer = Writing | Stopping(failed: bool) | Failing | Finished(ok: bool)

  datatype Splice = Splice(cancelled: bool, hook: Hook, closed: bool, writer: Writer)

  const PRE_SPLICE := Splice(false, Armed, false, Writing)

  datatype Move =
    | CancelCtx
    | RunHook
    /** All writes landed, or one failed. */
    | Wrote(failed: bool)
    | StopHook
    | CloseFailed

  predicate May(p: Splice, move: Move) {
    match move
    case CancelCtx => true
    case RunHook => p.hook.Started? && !p.closed
    case Wrote(_) => p.writer.Writing?
    case StopHook => p.writer.Stopping?
    case CloseFailed => p.writer.Failing?
  }

  function Make(p: Splice, move: Move): Splice
    requires May(p, move)
  {
    match move
    case CancelCtx => p.(cancelled := true, hook := if p.hook.Armed? then Started else p.hook)
    case RunHook => p.(closed := true)
    case Wrote(failed) => p.(writer := Stopping(failed))
    case StopHook =>
      // stop() is true only if it kept the hook from starting
      if p.hook.Armed? then
        p.(hook := Unhooked, writer := if p.writer.failed then Failing else Finished(true))
      else p.(writer := Failing)
    case CloseFailed => p.(closed := true, writer := Finished(false))
  }

  ghost predicate Moved(p: Splice, p': Splice) {
    exists move :: May(p, move) && p' == Make(p, move)
  }

  ghost predicate Moves(run: seq<Splice>) {
    && |run| > 0 && run[0] == PRE_SPLICE
    && forall i :: 0 <= i < |run| - 1 ==> Moved(run[i], run[i + 1])
  }

  ghost predicate SpliceInv(p: Splice) {
    && (p.writer == Finished(true) ==> p.hook.Unhooked? && !p.closed)
    && (p.writer == Finished(false) ==> p.closed)
    && (p.hook.Unhooked? ==> p.writer == Finished(true) || p.writer.Failing? || p.writer == Finished(false))
    && (p.hook.Armed? && !p.writer.Finished? ==> !p.closed)
    && (p.hook.Unhooked? && p.writer.Failing? ==> !p.closed)
  }

  lemma {:induction false} AlwaysSpliceInv(run: seq<Splice>, i: nat)
    requires Moves(run) && i < |run|
    ensures SpliceInv(run[i])
  {
    if i > 0 {
      AlwaysSpliceInv(run, i - 1);
      assert Moved(run[i - 1], run[i]);
      MovedInv(run[i - 1], run[i]);
    }
  }

  lemma MovedInv(p: Splice, p': Splice)
    requires SpliceInv(p) && Moved(p, p')
    ensures SpliceInv(p')
    ensures p.writer == Finished(true) ==> p'.writer == Finished(true)
  {
  }

  /** If the writes succeeded, the cancellation's close has not run and cannot run any more;
      if they failed, the connection is closed. */
  lemma SpliceHandedOverOpenOrClosed(run: seq<Splice>, i: nat, move: Move)
    requires Moves(run) && i < |run| && run[i].writer.Finished?
    ensures run[i].writer.ok ==> !run[i].closed && (May(run[i], move) ==> !Make(run[i], move).closed)
    ensures !run[i].writer.ok ==> run[i].closed
  {
    AlwaysSpliceInv(run, i);
  }

  /** ... in every later state as well. */
  lemma {:induction false} SpliceStaysOpen(run: seq<Splice>, i: nat, j: nat)
    requires Moves(run) && i <= j < |run| && run[i].writer == Finished(true)
    ensures !run[j].closed && run[j].writer == Finished(true)
    decreases j
  {
    AlwaysSpliceInv(run, j);
    if i < j {
      SpliceStaysOpen(run, i, j - 1);
      AlwaysSpliceInv(run, j - 1);
      assert Moved(run[j - 1], run[j]);
      MovedInv(run[j - 1], run[j]);
    }
  }

  /** It fails only if the context was cancelled or a write failed. */
  lemma {:induction false} SpliceFailsForAReason(run: seq<Splice>, i: nat)
    requires Moves(run) && i < |run| && (run[i].writer.Failing? || run[i].writer == Finished(false))
    ensures run[i].cancelled || exists j :: 0 <= j < i && run[j].writer == Stopping(true)
  {
    assert i > 0;
    assert Moved(run[i - 1], run[i]);
    AlwaysHooked(run, i - 1);
    if run[i - 1].writer.Failing? || run[i - 1].writer == Finished(false) {
      SpliceFailsForAReason(run, i - 1);
    } else {
      FailsNow(run[i - 1], run[i]);
    }
  }

  /** The hook only leaves its place when the context is cancelled, or `stop` takes it away. */
  ghost predicate Hooked(p: Splice) {
    (p.hook.Started? ==> p.cancelled) && (p.hook.Unhooked? ==> p.writer.Failing? || p.writer.Finished?)
  }

  lemma MovedHooked(p: Splice, p': Splice)
    requires Hooked(p) && Moved(p, p')
    ensures Hooked(p') && (p.cancelled ==> p'.cancelled)
  {
  }

  lemma {:induction false} AlwaysHooked(run: seq<Splice>, i: nat)
    requires Moves(run) && i < |run|
    ensures Hooked(run[i])
  {
    if i > 0 {
      AlwaysHooked(run, i - 1);
      assert Moved(run[i - 1], run[i]);
      MovedHooked(run[i - 1], run[i]);
    }
  }

  lemma FailsNow(p: Splice, p': Splice)
    requires Hooked(p) && Moved(p, p') && !p.writer.Failing? && p.writer != Finished(false)
    requires p'.writer.Failing? || p'.writer == Finished(false)
    ensures p'.cancelled || p.writer == Stopping(true)
  {
  }
}
