/** The shutdown sequence of the relay (relay/cmd/relay/main.go, with Serve and Drain of the
    game and the Bedrock listener): two listeners drain before the session reporter stops.

    A handler is accepted while its listener serves, and starts and ends sessions. A game
    handler returns with its session ended, by the deferred End. A Bedrock handler returns
    when `run` does, and may leave sessions behind that are then never ended.
 */
module Shutdown {
  import TunnelSteps
  import opened TunnelIsolation
  import opened TunnelSessions

  datatype Which = Game | Bedrock

  /** One listener's goroutine: Serve, then -- after a failure -- `stop`, then Drain. */
  datatype Stage = Serving | Failed | Draining | Drained(inTime: bool)

  /** The game goroutine's end: it waits for `bedrockDrained`, then calls `svcStop`. */
  datatype Finale = NotYet | Released | Stopped

  datatype State = State(
    /** The signal context is cancelled. */
    signalled: bool,
    game: Stage,
    bedrock: Stage,
    finale: Finale,
    /** The handlers accepted so far, and those counted on each listener's WaitGroup. */
    accepted: set<(Which, nat)>,
    inflight: set<(Which, nat)>,
    /** Every session started, with the handler that started it. */
    starts: map<string, (Which, nat)>,
    /** The sessions whose handler is still to end them. */
    open: set<string>,
    ends: multiset<string>,
    /** The sessions whose handler returned without ending them. */
    lost: set<string>
  ) {
    function Started(): multiset<string> {
      multiset(starts.Keys)
    }

    function OpenBy(x: (Which, nat)): set<string> {
      set sid | sid in open && sid in starts && starts[sid] == x
    }

    function At(w: Which): Stage {
      if w.Game? then game else bedrock
    }

    function To(w: Which, stage: Stage): State {
      if w.Game? then this.(game := stage) else this.(bedrock := stage)
    }

    predicate Idle(w: Which) {
      forall x :: x in inflight ==> x.0 != w
    }
  }

  /** With Bedrock disabled its channel is closed from the start. */
  ghost predicate Init(s: State) {
    && !s.signalled && s.finale == NotYet
    && s.accepted == {} && s.inflight == {}
    && s.starts == map[] && s.open == {} && s.ends == multiset{} && s.lost == {}
    && s.game == Serving && (s.bedrock == Serving || s.bedrock == Drained(true))
  }

  datatype Step =
    /** SIGINT, SIGTERM, or the failure of the tunnel listener. */
    | Signal
    | Accept(w: Which, h: nat)
    | Start(w: Which, h: nat, sid: string)
    | End(w: Which, h: nat, sid: string)
    | Finish(w: Which, h: nat)
    | ServeReturns(w: Which)
    | ServeFails(w: Which)
    | StopAll(w: Which)
    | DrainDone(w: Which)
    | DrainTimesOut(w: Which)
    | AwaitBedrock
    | SvcStop

  predicate Enabled(s: State, step: Step) {
    match step
    case Signal => true
    case Accept(w, h) => s.At(w).Serving? && (w, h) !in s.accepted
    case Start(w, h, sid) => (w, h) in s.inflight && sid !in s.starts
    case End(w, h, sid) => sid in s.OpenBy((w, h))
    case Finish(w, h) => (w, h) in s.inflight && (w.Game? ==> s.OpenBy((w, h)) == {})
    case ServeReturns(w) => s.At(w).Serving? && s.signalled
    case ServeFails(w) => s.At(w).Serving?
    case StopAll(w) => s.At(w).Failed?
    case DrainDone(w) => s.At(w).Draining? && s.Idle(w)
    case DrainTimesOut(w) => s.At(w).Draining?
    case AwaitBedrock => s.finale.NotYet? && s.game.Drained? && s.bedrock.Drained?
    case SvcStop => s.finale.Released?
  }

  function Do(s: State, step: Step): State
    requires Enabled(s, step)
  {
    match step
    case Signal => s.(signalled := true)
    case Accept(w, h) => s.(accepted := s.accepted + {(w, h)}, inflight := s.inflight + {(w, h)})
    case Start(w, h, sid) => s.(open := s.open + {sid}, starts := s.starts[sid := (w, h)])
    case End(_, _, sid) => s.(open := s.open - {sid}, ends := s.ends + multiset{sid})
    case Finish(w, h) =>
      var left := s.OpenBy((w, h));
      s.(inflight := s.inflight - {(w, h)}, open := s.open - left, lost := s.lost + left)
    case ServeReturns(w) => s.To(w, Draining)
    case ServeFails(w) => s.To(w, Failed)
    case StopAll(w) => s.To(w, Draining).(signalled := true)
    case DrainDone(w) => s.To(w, Drained(true))
    case DrainTimesOut(w) => s.To(w, Drained(false))
    case AwaitBedrock => s.(finale := Released)
    case SvcStop => s.(finale := Stopped)
  }

  ghost predicate Next(s: State, s': State) {
    exists step :: Enabled(s, step) && s' == Do(s, step)
  }

  ghost function Via(s: State, s': State): (step: Step)
    requires Next(s, s')
    ensures Enabled(s, step) && s' == Do(s, step)
  {
    var step :| Enabled(s, step) && s' == Do(s, step);
    step
  }

  ghost predicate Behaviour(tr: seq<State>) {
    && |tr| > 0
    && Init(tr[0])
    && forall i :: 0 <= i < |tr| - 1 ==> Next(tr[i], tr[i + 1])
  }

  // ---- Invariant ----------------------------------------------------------------------------

  /** Where a started session is: with its handler, ended once, or lost. */
  ghost predicate Accounted(s: State, sid: string) {
    && (sid in s.open ==> sid in s.starts && s.starts[sid] in s.inflight && sid !in s.lost && s.ends[sid] == 0)
    && (sid in s.lost ==> sid in s.starts && s.starts[sid].0.Bedrock? && s.ends[sid] == 0)
    && (sid in s.starts ==> sid in s.open || sid in s.lost || s.ends[sid] == 1)
    && (sid in s.ends ==> sid in s.starts)
  }

  /** A drain that was in time left no handler, and none is accepted any more. */
  ghost predicate Drains(s: State) {
    && (s.game == Drained(true) ==> s.Idle(Game))
    && (s.bedrock == Drained(true) ==> s.Idle(Bedrock))
  }

  /** A listener only leaves Serve signalled, or signals before it drains. */
  ghost predicate Sequenced(s: State) {
    && (s.game.Draining? || s.game.Drained? ==> s.signalled)
    && (!s.finale.NotYet? ==> s.game.Drained? && s.bedrock.Drained?)
  }

  ghost predicate Inv(s: State) {
    (forall sid :: Accounted(s, sid)) && Drains(s) && Sequenced(s)
  }

  lemma StepAccounted(s: State, step: Step, sid: string)
    requires Accounted(s, sid) && Enabled(s, step)
    ensures Accounted(Do(s, step), sid)
  {
    match step
    case Finish(w, h) => FinishAccounted(s, w, h, sid);
    case End(_, _, _) =>
    case Start(_, _, _) =>
    case _ =>
  }

  lemma FinishAccounted(s: State, w: Which, h: nat, sid: string)
    requires Accounted(s, sid) && Enabled(s, Finish(w, h))
    ensures Accounted(Do(s, Finish(w, h)), sid)
  {
    if sid in s.OpenBy((w, h)) {
      assert w.Bedrock?;
    }
  }

  lemma StepDrains(s: State, step: Step)
    requires Drains(s) && (forall sid :: Accounted(s, sid)) && Enabled(s, step)
    ensures Drains(Do(s, step))
  {
  }

  lemma StepSequenced(s: State, step: Step)
    requires Sequenced(s) && Enabled(s, step)
    ensures Sequenced(Do(s, step))
  {
  }

  lemma StepInv(s: State, step: Step)
    requires Inv(s) && Enabled(s, step)
    ensures Inv(Do(s, step))
  {
    forall sid ensures Accounted(Do(s, step), sid) {
      StepAccounted(s, step, sid);
    }
    StepDrains(s, step);
    StepSequenced(s, step);
  }

  lemma {:induction false} AlwaysInv(tr: seq<State>, i: nat)
    requires Behaviour(tr) && i < |tr|
    ensures Inv(tr[i])
  {
    if i > 0 {
      AlwaysInv(tr, i - 1);
      assert Next(tr[i - 1], tr[i]);
      StepInv(tr[i - 1], Via(tr[i - 1], tr[i]));
    }
  }

  // ---- Main results ----------------------------------------------------------------------------

  /** The reporter is stopped only after both drains have returned; and if neither timed out,
      every session either listener ever started has its one End by then or was lost by a
      Bedrock handler. */
  lemma ReporterStopsLast(tr: seq<State>, i: nat)
    requires Behaviour(tr) && i < |tr| && tr[i].finale.Stopped?
    ensures tr[i].game.Drained? && tr[i].bedrock.Drained?
    ensures tr[i].game.inTime && tr[i].bedrock.inTime ==>
            && tr[i].inflight == {} && tr[i].open == {}
            && tr[i].Started() == tr[i].ends + multiset(tr[i].lost)
            && (tr[i].ends == tr[i].Started() <==> tr[i].lost == {})
            && (forall sid :: sid in tr[i].lost ==> sid in tr[i].starts && tr[i].starts[sid].0.Bedrock?)
  {
    AlwaysInv(tr, i);
    if tr[i].game.inTime && tr[i].bedrock.inTime {
      DrainedBooks(tr[i]);
    }
  }

  lemma DrainedBooks(s: State)
    requires Inv(s) && s.game == Drained(true) && s.bedrock == Drained(true)
    ensures s.inflight == {} && s.open == {}
    ensures s.Started() == s.ends + multiset(s.lost)
    ensures s.ends == s.Started() <==> s.lost == {}
    ensures forall sid :: sid in s.lost ==> sid in s.starts && s.starts[sid].0.Bedrock?
  {
    assert forall x :: x in s.inflight ==> x.0 == Game || x.0 == Bedrock;
    assert s.inflight == {};
    forall sid ensures s.Started()[sid] == s.ends[sid] + multiset(s.lost)[sid] && sid !in s.open
      && (sid in s.lost ==> sid in s.starts && s.starts[sid].0.Bedrock?)
    {
      assert Accounted(s, sid);
    }
    SumIffNone(s.Started(), s.ends, multiset(s.lost));
  }

  // ---- What the Bedrock handlers lose -----------------------------------------------------------

  /** Each Bedrock handler that started a session ran one tunnel, from binding its port until
      `run` returned, and reported exactly what that tunnel reported. */
  ghost predicate Hosts(s: State, runs: map<nat, seq<TunnelSteps.State>>) {
    && (forall sid :: sid in s.starts && s.starts[sid].0.Bedrock? ==> s.starts[sid].1 in runs)
    && (forall h :: h in runs ==> Hosted(s, h, runs[h]))
  }

  ghost predicate Hosted(s: State, h: nat, run: seq<TunnelSteps.State>) {
    && TunnelSteps.Behaviour(run) && FewCreations(run) && Last(run).run.Returned?
    && (forall sid :: sid in Last(run).log.starts <==> sid in s.starts && s.starts[sid] == (Bedrock, h))
    && (forall sid :: sid in Last(run).log.starts ==> s.ends[sid] == Last(run).log.ends[sid])
  }

  /** A handler's lost sessions are those that its tunnel lost to a promotion which found no
      flow. */
  lemma LostIsTheTunnels(s: State, h: nat, run: seq<TunnelSteps.State>, sid: string)
    requires Inv(s) && s.open == {} && Hosted(s, h, run) && sid in Last(run).log.starts
    ensures sid in s.lost <==> Last(run).log.lost[sid] == 1
  {
    assert Accounted(s, sid);
    EverySessionAccountedFor(run, sid);
  }

  /** Without a timeout every session has its End when the reporter is stopped, if and only if
      in every tunnel every `Promote` found its flow. */
  lemma AllReportedIffPromotesHit(tr: seq<State>, i: nat, runs: map<nat, seq<TunnelSteps.State>>)
    requires Behaviour(tr) && i < |tr| && tr[i].finale.Stopped? && Hosts(tr[i], runs)
    requires tr[i].game == Drained(true) && tr[i].bedrock == Drained(true)
    ensures tr[i].ends == tr[i].Started() <==> forall h :: h in runs ==> PromotesHit(runs[h])
  {
    var s := tr[i];
    AlwaysInv(tr, i);
    DrainedBooks(s);
    forall h | h in runs
      ensures PromotesHit(runs[h]) <==> forall sid :: sid in Last(runs[h]).log.starts ==> sid !in s.lost
    {
      LosesNothingIff(s, h, runs[h]);
    }
    forall sid | sid in s.lost ensures s.starts[sid].1 in runs && sid in Last(runs[s.starts[sid].1]).log.starts {
      assert Hosted(s, s.starts[sid].1, runs[s.starts[sid].1]);
    }
  }

  lemma LosesNothingIff(s: State, h: nat, run: seq<TunnelSteps.State>)
    requires Inv(s) && s.open == {} && Hosted(s, h, run)
    ensures PromotesHit(run) <==> forall sid :: sid in Last(run).log.starts ==> sid !in s.lost
  {
    AllEndedIffPromotesHit(run);
    forall sid | sid in Last(run).log.starts ensures sid !in s.lost <==> Last(run).log.ends[sid] == 1 {
      LostIsTheTunnels(s, h, run, sid);
      EverySessionAccountedFor(run, sid);
    }
    EndsMatch(run);
  }

  /** A tunnel ended what it started if and only if it ended each session once. */
  lemma EndsMatch(run: seq<TunnelSteps.State>)
    requires TunnelSteps.Behaviour(run) && FewCreations(run) && Last(run).run.Returned?
    ensures Last(run).log.ends == Last(run).log.starts
       <==> forall sid :: sid in Last(run).log.starts ==> Last(run).log.ends[sid] == 1
  {
    var starts, ends := Last(run).log.starts, Last(run).log.ends;
    forall sid ensures ends[sid] <= starts[sid] <= 1 {
      EndsFollowStarts(run, sid);
    }
    if forall sid :: sid in starts ==> ends[sid] == 1 {
      assert forall sid :: ends[sid] == starts[sid];
    }
  }

  /** Without a timeout nothing is reported once the reporter has been stopped. */
  lemma SilentAfterStop(tr: seq<State>, i: nat, j: nat)
    requires Behaviour(tr) && i <= j < |tr| && tr[i].finale.Stopped?
    requires tr[i].game == Drained(true) && tr[i].bedrock == Drained(true)
    ensures tr[j].finale.Stopped? && tr[j].starts == tr[i].starts && tr[j].ends == tr[i].ends
    ensures tr[j].game == tr[i].game && tr[j].bedrock == tr[i].bedrock
  {
    ReporterStopsLast(tr, i);
    StaysQuiet(tr[i], tr, i, j);
  }

  ghost predicate Hushed(s: State) {
    s.finale.Stopped? && s.inflight == {} && s.open == {} && s.game.Drained? && s.bedrock.Drained?
  }

  predicate SameReports(s: State, s': State) {
    s'.starts == s.starts && s'.ends == s.ends && s'.game == s.game && s'.bedrock == s.bedrock
  }

  lemma {:induction false} StaysQuiet(first: State, tr: seq<State>, i: nat, j: nat)
    requires Behaviour(tr) && i <= j < |tr| && Hushed(tr[i]) && SameReports(first, tr[i])
    ensures Hushed(tr[j]) && SameReports(first, tr[j])
    decreases j
  {
    if i < j {
      StaysQuiet(first, tr, i, j - 1);
      QuietNext(first, tr, j);
    }
  }

  lemma QuietNext(first: State, tr: seq<State>, j: nat)
    requires Behaviour(tr) && 0 < j < |tr| && Hushed(tr[j - 1]) && SameReports(first, tr[j - 1])
    ensures Hushed(tr[j]) && SameReports(first, tr[j])
  {
    assert Next(tr[j - 1], tr[j]);
    QuietStep(tr[j - 1], Via(tr[j - 1], tr[j]));
  }

  lemma QuietStep(s: State, step: Step)
    requires Hushed(s) && Enabled(s, step)
    ensures Hushed(Do(s, step)) && SameReports(s, Do(s, step))
  {
  }

  /** While the game goroutine waits for `bedrockDrained`, the Bedrock listener has been told
      to stop and needs no one else to get there: Serve can return, `stop` can be called, or
      the drain can time out. */
  lemma NeverWaitsUnsignalled(tr: seq<State>, i: nat)
    requires Behaviour(tr) && i < |tr|
    requires tr[i].game.Drained? && tr[i].finale.NotYet? && !tr[i].bedrock.Drained?
    ensures tr[i].signalled
    ensures Enabled(tr[i], ServeReturns(Bedrock)) || Enabled(tr[i], StopAll(Bedrock))
            || Enabled(tr[i], DrainTimesOut(Bedrock))
  {
    AlwaysInv(tr, i);
  }

  /** Once signalled the relay gets to `svcStop` in at most six steps of its own, whatever
      the handlers do. */
  function Remaining(s: State): nat {
    StageRank(s.game) + StageRank(s.bedrock) + FinaleRank(s.finale)
  }

  function StageRank(g: Stage): nat {
    match g
    case Serving => 3
    case Failed => 2
    case Draining => 1
    case Drained(_) => 0
  }

  function FinaleRank(f: Finale): nat {
    match f
    case NotYet => 2
    case Released => 1
    case Stopped => 0
  }

  /** No step goes back, and a signalled relay always has a step that gets closer. */
  lemma ShutdownProgresses(tr: seq<State>, i: nat) returns (step: Step)
    requires Behaviour(tr) && i < |tr| && tr[i].signalled && !tr[i].finale.Stopped?
    ensures Enabled(tr[i], step) && Remaining(Do(tr[i], step)) < Remaining(tr[i])
    ensures forall other :: Enabled(tr[i], other) ==> Remaining(Do(tr[i], other)) <= Remaining(tr[i])
  {
    AlwaysInv(tr, i);
    var s := tr[i];
    var w := if s.game.Drained? then Bedrock else Game;
    step :=
      match s.At(w)
      case Serving => ServeReturns(w)
      case Failed => StopAll(w)
      case Draining => DrainTimesOut(w)
      case Drained(_) => if s.finale.NotYet? then AwaitBedrock else SvcStop;
    forall other | Enabled(s, other) ensures Remaining(Do(s, other)) <= Remaining(s) {
      NeverBack(s, other);
    }
  }

  lemma NeverBack(s: State, step: Step)
    requires Enabled(s, step)
    ensures Remaining(Do(s, step)) <= Remaining(s)
  {
  }

  // ---- The books are the reports ----------------------------------------------------------------

  ghost predicate Execution(tr: seq<State>, steps: seq<Step>) {
    && |tr| == |steps| + 1
    && Init(tr[0])
    && forall i :: 0 <= i < |steps| ==> Enabled(tr[i], steps[i]) && tr[i + 1] == Do(tr[i], steps[i])
  }

  /** How often the session has been ended. */
  function EndsOf(steps: seq<Step>, sid: string): nat {
    if steps == [] then 0
    else
      var last := steps[|steps| - 1];
      EndsOf(steps[..|steps| - 1], sid) + if last.End? && last.sid == sid then 1 else 0
  }

  lemma ReportStep(s: State, step: Step, sid: string)
    requires Enabled(s, step)
    ensures var s' := Do(s, step);
            && (sid in s'.starts <==> sid in s.starts || (step.Start? && step.sid == sid))
            && (sid in s.starts ==> s'.starts[sid] == s.starts[sid])
            && (step.Start? && step.sid == sid ==> s'.starts[sid] == (step.w, step.h))
            && s'.ends[sid] == s.ends[sid] + if step.End? && step.sid == sid then 1 else 0
  {
  }

  lemma {:induction false} StartsAreReports(tr: seq<State>, steps: seq<Step>, n: nat, sid: string)
    requires Execution(tr, steps) && n <= |steps|
    ensures sid in tr[n].starts <==> exists i :: 0 <= i < n && steps[i].Start? && steps[i].sid == sid
  {
    if n > 0 {
      StartsAreReports(tr, steps, n - 1, sid);
      ReportStep(tr[n - 1], steps[n - 1], sid);
    }
  }

  /** A session belongs to the handler that reported it started. */
  lemma {:induction false} StarterIsRecorded(tr: seq<State>, steps: seq<Step>, n: nat, sid: string)
    requires Execution(tr, steps) && n <= |steps| && sid in tr[n].starts
    ensures exists i :: 0 <= i < n && steps[i] == Start(tr[n].starts[sid].0, tr[n].starts[sid].1, sid)
  {
    ReportStep(tr[n - 1], steps[n - 1], sid);
    if sid in tr[n - 1].starts {
      StarterIsRecorded(tr, steps, n - 1, sid);
    } else {
      assert steps[n - 1] == Start(tr[n].starts[sid].0, tr[n].starts[sid].1, sid);
    }
  }

  lemma EndsOfMore(steps: seq<Step>, step: Step, sid: string)
    ensures EndsOf(steps + [step], sid) == EndsOf(steps, sid) + if step.End? && step.sid == sid then 1 else 0
  {
    assert (steps + [step])[..|steps|] == steps;
  }

  lemma {:induction false} EndsAreReports(tr: seq<State>, steps: seq<Step>, n: nat, sid: string)
    requires Execution(tr, steps) && n <= |steps|
    ensures tr[n].ends[sid] == EndsOf(steps[..n], sid)
  {
    if n > 0 {
      EndsAreReports(tr, steps, n - 1, sid);
      ReportStep(tr[n - 1], steps[n - 1], sid);
      EndsOfMore(steps[..n - 1], steps[n - 1], sid);
      assert steps[..n] == steps[..n - 1] + [steps[n - 1]];
    }
  }

  lemma ExecutionIsBehaviour(tr: seq<State>, steps: seq<Step>)
    requires Execution(tr, steps)
    ensures Behaviour(tr)
  {
    forall i | 0 <= i < |tr| - 1 ensures Next(tr[i], tr[i + 1]) {
      assert Enabled(tr[i], steps[i]) && tr[i + 1] == Do(tr[i], steps[i]);
    }
  }

  /** In the terms of the reporter: once svcStop has run after two drains in time, every session
      that was reported started has been reported ended exactly once, unless a Bedrock handler
      lost it; and a session reported ended had been reported started. */
  lemma EveryReportPaired(tr: seq<State>, steps: seq<Step>, n: nat, sid: string)
    requires Execution(tr, steps) && n <= |steps| && tr[n].finale.Stopped?
    requires tr[n].game == Drained(true) && tr[n].bedrock == Drained(true)
    ensures var started := exists i :: 0 <= i < n && steps[i].Start? && steps[i].sid == sid;
            EndsOf(steps[..n], sid) == if started && sid !in tr[n].lost then 1 else 0
  {
    ExecutionIsBehaviour(tr, steps);
    StartsAreReports(tr, steps, n, sid);
    EndsAreReports(tr, steps, n, sid);
    AlwaysInv(tr, n);
    DrainedBooks(tr[n]);
    assert Accounted(tr[n], sid);
  }

  /** The handler has been accepted, and has not finished since. */
  ghost predicate Working(steps: seq<Step>, n: nat, w: Which, h: nat)
    requires n <= |steps|
  {
    exists i :: 0 <= i < n && steps[i] == Accept(w, h) && forall j :: i < j < n ==> steps[j] != Finish(w, h)
  }

  lemma WorkingStep(steps: seq<Step>, n: nat, w: Which, h: nat)
    requires 0 < n <= |steps|
    ensures Working(steps, n, w, h) <==>
            steps[n - 1] == Accept(w, h) || (Working(steps, n - 1, w, h) && steps[n - 1] != Finish(w, h))
  {
    if Working(steps, n - 1, w, h) && steps[n - 1] != Finish(w, h) {
      var i :| 0 <= i < n - 1 && steps[i] == Accept(w, h) && forall j :: i < j < n - 1 ==> steps[j] != Finish(w, h);
      assert forall j :: i < j < n ==> steps[j] != Finish(w, h);
    }
  }

  lemma InflightStep(s: State, step: Step, w: Which, h: nat)
    requires Enabled(s, step)
    ensures (w, h) in Do(s, step).inflight <==>
            step == Accept(w, h) || ((w, h) in s.inflight && step != Finish(w, h))
  {
  }

  /** A drain waits for exactly the handlers that were accepted and have not finished. */
  lemma {:induction false} InflightIsWorking(tr: seq<State>, steps: seq<Step>, n: nat, w: Which, h: nat)
    requires Execution(tr, steps) && n <= |steps|
    ensures (w, h) in tr[n].inflight <==> Working(steps, n, w, h)
  {
    if n > 0 {
      InflightIsWorking(tr, steps, n - 1, w, h);
      InflightStep(tr[n - 1], steps[n - 1], w, h);
      WorkingStep(steps, n, w, h);
    }
  }
}
