/** Coalesced status-cache misses (relay/internal/game/statusflight.go, and coalesceStatus
    and waitStatusFlight in listener.go): per slug one live exchange, whose result every
    concurrent miss shares.
 */
module StatusFlights {
  import opened Wrappers

  // ---- Concurrent callers ------------------------------------------------------------------

  /** The unavailable fallback a timed-out waiter answers. */
  const UNAVAILABLE := "unavailable"

  /** How a caller got its answer. */
  datatype Source = Led(flight: nat) | Shared(flight: nat) | TimedOut | Cancelled

  datatype Pc =
    | Joining(slug: string)
    | Leading(slug: string, flight: nat)
    | Retired(slug: string, flight: nat, json: string)
    | Written(slug: string, flight: nat, json: string)
    | Waiting(slug: string, flight: nat)
    | Answered(source: Source, json: string)

  datatype FlightState = FlightState(slug: string, leader: nat, retired: bool, json: Option<string>, done: bool)

  /** `results` remembers what each flight's leader obtained. */
  datatype State = State(
    index: map<string, nat>,
    fs: map<nat, FlightState>,
    callers: map<nat, Pc>,
    results: map<nat, string>
  )

  ghost predicate Init(s: State) {
    s == State(map[], map[], map[], map[])
  }

  datatype Step =
    | Call(c: nat, slug: string)
    | Join(c: nat, flight: nat)
    /** The leader's exchange ends with `json`, and `finish` deletes the entry. */
    | Retire(c: nat, json: string)
    | Write(c: nat)
    | CloseDone(c: nat)
    | Wake(c: nat)
    | TimeOut(c: nat)
    | Cancel(c: nat)

  predicate Enabled(s: State, step: Step) {
    match step
    case Call(c, _) => c !in s.callers
    case Join(c, f) => c in s.callers && s.callers[c].Joining? && f !in s.fs
    case Retire(c, _) => c in s.callers && s.callers[c].Leading?
    case Write(c) => c in s.callers && s.callers[c].Retired? && s.callers[c].flight in s.fs
    case CloseDone(c) => c in s.callers && s.callers[c].Written? && s.callers[c].flight in s.fs
    case Wake(c) =>
      && c in s.callers && s.callers[c].Waiting?
      && s.callers[c].flight in s.fs && s.fs[s.callers[c].flight].done
    case TimeOut(c) => c in s.callers && s.callers[c].Waiting?
    case Cancel(c) => c in s.callers && s.callers[c].Waiting?
  }

  function Goto(s: State, c: nat, pc: Pc): State {
    s.(callers := s.callers[c := pc])
  }

  function Do(s: State, step: Step): State
    requires Enabled(s, step)
  {
    match step
    case Call(c, slug) => Goto(s, c, Joining(slug))
    case Join(c, f) =>
      var slug := s.callers[c].slug;
      if slug in s.index then Goto(s, c, Waiting(slug, s.index[slug]))
      else
        Goto(s, c, Leading(slug, f))
          .(index := s.index[slug := f], fs := s.fs[f := FlightState(slug, c, false, None, false)])
    case Retire(c, json) =>
      var pc := s.callers[c];
      var fs := if pc.flight in s.fs then s.fs[pc.flight := s.fs[pc.flight].(retired := true)] else s.fs;
      Goto(s, c, Retired(pc.slug, pc.flight, json))
        .(index := s.index - {pc.slug}, fs := fs, results := s.results[pc.flight := json])
    case Write(c) =>
      var pc := s.callers[c];
      Goto(s, c, Written(pc.slug, pc.flight, pc.json))
        .(fs := s.fs[pc.flight := s.fs[pc.flight].(json := Some(pc.json))])
    case CloseDone(c) =>
      var pc := s.callers[c];
      Goto(s, c, Answered(Led(pc.flight), pc.json)).(fs := s.fs[pc.flight := s.fs[pc.flight].(done := true)])
    case Wake(c) =>
      var f := s.callers[c].flight;
      Goto(s, c, Answered(Shared(f), if s.fs[f].json.Some? then s.fs[f].json.value else ""))
    case TimeOut(c) => Goto(s, c, Answered(TimedOut, UNAVAILABLE))
    case Cancel(c) => Goto(s, c, Answered(Cancelled, ""))
  }

  ghost predicate Next(s: State, s': State) {
    exists step :: Enabled(s, step) && s' == Do(s, step)
  }

  ghost function Via(s: State, s': State): (step: Step)
    requires Next(s, s')
    ensures Enabled(s, step) && s' == Do(s, step)
  {
    var step :| Enabled(s, step) && s' == Do(s, step);
    step
  }

  ghost predicate Behaviour(tr: seq<State>) {
    && |tr| > 0
    && Init(tr[0])
    && forall i :: 0 <= i < |tr| - 1 ==> Next(tr[i], tr[i + 1])
  }

  // ---- Invariant -----------------------------------------------------------------------------

  /** What a caller's position says about its flight. */
  ghost predicate AtPc(s: State, c: nat, pc: Pc) {
    match pc
    case Joining(_) => true
    case Leading(slug, f) =>
      f in s.fs && s.fs[f] == FlightState(slug, c, false, None, false) && f !in s.results
    case Retired(slug, f, json) =>
      f in s.fs && s.fs[f] == FlightState(slug, c, true, None, false) && f in s.results && s.results[f] == json
    case Written(slug, f, json) =>
      f in s.fs && s.fs[f] == FlightState(slug, c, true, Some(json), false) && f in s.results && s.results[f] == json
    case Waiting(slug, f) => f in s.fs && s.fs[f].slug == slug
    case Answered(Led(f), json) => f in s.results && s.results[f] == json && f in s.fs
    case Answered(Shared(f), json) => f in s.results && s.results[f] == json && f in s.fs
    case Answered(_, _) => true
  }

  /** A flight is indexed exactly while it is live, and live exactly while it is led. */
  ghost predicate FlightOk(s: State, f: nat)
    requires f in s.fs
  {
    var e := s.fs[f];
    && (!e.retired <==> e.slug in s.index && s.index[e.slug] == f)
    && (!e.retired ==> e.leader in s.callers && s.callers[e.leader] == Leading(e.slug, f))
    && (e.done ==> e.json.Some?)
    && (e.json.Some? ==> f in s.results && s.results[f] == e.json.value)
  }

  ghost predicate Inv(s: State) {
    && (forall slug :: slug in s.index ==> s.index[slug] in s.fs && s.fs[s.index[slug]].slug == slug)
    && (forall f :: f in s.fs ==> FlightOk(s, f))
    && (forall f :: f in s.results ==> f in s.fs && s.fs[f].retired)
    && (forall c :: c in s.callers ==> AtPc(s, c, s.callers[c]))
  }

  lemma StepCallers(s: State, step: Step)
    requires Inv(s) && Enabled(s, step)
    ensures var s' := Do(s, step); forall c :: c in s'.callers ==> AtPc(s', c, s'.callers[c])
  {
    var s' := Do(s, step);
    forall c | c in s'.callers ensures AtPc(s', c, s'.callers[c]) {
      if c == step.c {
        MovedCaller(s, step);
      } else {
        OtherCaller(s, step, c);
      }
    }
  }

  lemma MovedCaller(s: State, step: Step)
    requires Inv(s) && Enabled(s, step)
    ensures AtPc(Do(s, step), step.c, Do(s, step).callers[step.c])
  {
    if step.c in s.callers {
      assert AtPc(s, step.c, s.callers[step.c]);
    }
  }

  lemma OtherCaller(s: State, step: Step, c: nat)
    requires Inv(s) && Enabled(s, step) && c in s.callers && c != step.c
    ensures c in Do(s, step).callers && AtPc(Do(s, step), c, Do(s, step).callers[c])
  {
    assert AtPc(s, c, s.callers[c]);
    if step.c in s.callers {
      assert AtPc(s, step.c, s.callers[step.c]);
    }
  }

  lemma StepFlights(s: State, step: Step)
    requires Inv(s) && Enabled(s, step)
    ensures var s' := Do(s, step); forall f :: f in s'.fs ==> FlightOk(s', f)
  {
    var s' := Do(s, step);
    forall f | f in s'.fs ensures FlightOk(s', f) {
      if f in s.fs {
        assert FlightOk(s, f);
        if step.c in s.callers {
          assert AtPc(s, step.c, s.callers[step.c]);
        }
        KeepsFlight(s, step, f);
      }
    }
  }

  lemma KeepsFlight(s: State, step: Step, f: nat)
    requires Enabled(s, step) && f in s.fs && FlightOk(s, f)
    requires step.c in s.callers ==> AtPc(s, step.c, s.callers[step.c])
    requires forall g :: g in s.fs ==> FlightOk(s, g)
    ensures f in Do(s, step).fs && FlightOk(Do(s, step), f)
  {
  }

  lemma StepInv(s: State, step: Step)
    requires Inv(s) && Enabled(s, step)
    ensures Inv(Do(s, step))
  {
    StepCallers(s, step);
    StepFlights(s, step);
    StepIndex(s, step);
  }

  lemma StepIndex(s: State, step: Step)
    requires Inv(s) && Enabled(s, step)
    ensures
      var s' := Do(s, step);
      && (forall slug :: slug in s'.index ==> s'.index[slug] in s'.fs && s'.fs[s'.index[slug]].slug == slug)
      && (forall f :: f in s'.results ==> f in s'.fs && s'.fs[f].retired)
  {
  }

  lemma {:induction false} AlwaysInv(tr: seq<State>, i: nat)
    requires Behaviour(tr) && i < |tr|
    ensures Inv(tr[i])
  {
    if i > 0 {
      AlwaysInv(tr, i - 1);
      assert Next(tr[i - 1], tr[i]);
      StepInv(tr[i - 1], Via(tr[i - 1], tr[i]));
    }
  }

  /** What a join that misses adds. */
  lemma JoinLeads(s: State, c: nat, id: nat)
    requires Enabled(s, Join(c, id)) && s.callers[c].slug !in s.index
    ensures var s', slug := Do(s, Join(c, id)), s.callers[c].slug;
            && s'.index == s.index[slug := id] && s'.fs == s.fs[id := FlightState(slug, c, false, None, false)]
            && s'.callers == s.callers[c := Leading(slug, id)]
  {
  }

  // ---- The table as the program keeps it ------------------------------------------------------

  /** One exchange; `json` is written before `done` is closed and read only after. */
  class Flight {
    var done: bool
    var json: string
    ghost const id: nat

    constructor (ghost id: nat)
      ensures !done && this.id == id
    {
      done, json := false, "";
      this.id := id;
    }
  }

  /** The map under the mutex. `state` is the step system's state, and `all` has the object of
      every flight so far; `Valid` ties both to the map and the objects. */
  class Flights {
    var flights: map<string, Flight>
    ghost var all: map<nat, Flight>
    ghost var state: State

    ghost predicate Valid()
      reads this, all.Values
    {
      && flights.Keys == state.index.Keys
      && (forall slug :: slug in flights ==> state.index[slug] in all && flights[slug] == all[state.index[slug]])
      && all.Keys == state.fs.Keys
      && (forall f :: f in all ==> Shows(all[f], state.fs[f]))
      && (forall f :: f in all ==> all[f].id == f)
    }

    /** The object says what the step system says of the flight. */
    ghost predicate Shows(o: Flight, e: FlightState)
      reads o
    {
      o.done == e.done && (e.json.Some? ==> o.json == e.json.value)
    }

    constructor ()
      ensures Valid() && flights == map[] && Init(state)
    {
      flights, all, state := map[], map[], State(map[], map[], map[], map[]);
    }

    /** A status request that missed the cache. */
    ghost method Arrive(c: nat, slug: string)
      requires Valid() && c !in state.callers
      modifies this`state
      ensures Valid() && state == Do(old(state), Call(c, slug))
    {
      state := Do(state, Call(c, slug));
    }

    /** The flight in progress for `slug`; the caller that starts one leads it. */
    method Join(slug: string, ghost c: nat, ghost id: nat) returns (f: Flight, leader: bool)
      requires Valid() && c in state.callers && state.callers[c] == Joining(slug) && id !in state.fs
      modifies this
      ensures Valid() && state == Do(old(state), Step.Join(c, id))
      ensures leader <==> state.callers[c].Leading?
      ensures state.callers[c].flight in all && all[state.callers[c].flight] == f
      ensures old(all).Keys <= all.Keys && (leader ==> fresh(f)) && (!leader ==> all == old(all))
    {
      leader := slug !in flights;
      if leader {
        f := Lead(slug, c, id);
      } else {
        f := flights[slug];
        state := Do(state, Step.Join(c, id));
      }
    }

    /** A miss: the caller's own flight, under the slug. */
    method Lead(slug: string, ghost c: nat, ghost id: nat) returns (f: Flight)
      requires Valid() && c in state.callers && state.callers[c] == Joining(slug) && id !in state.fs
      requires slug !in flights
      modifies this
      ensures Valid() && state == Do(old(state), Step.Join(c, id))
      ensures state.callers[c] == Leading(slug, id) && all == old(all)[id := f] && fresh(f)
    {
      f := new Flight(id);
      JoinLeads(state, c, id);
      flights, all, state := flights[slug := f], all[id := f], Do(state, Step.Join(c, id));
    }

    /** Retires the entry first, so that a later miss starts afresh; then publishes. */
    method Finish(slug: string, f: Flight, statusJson: string, ghost c: nat, ghost id: nat)
      requires Valid() && c in state.callers && state.callers[c] == Leading(slug, id) && id in all && all[id] == f
      modifies this, f
      ensures Valid() && all == old(all)
      ensures state == Do(Do(Do(old(state), Step.Retire(c, statusJson)), Step.Write(c)), CloseDone(c))
    {
      Retire(slug, statusJson, c, id);
      Write(f, statusJson, c, id);
      Close(f, c, id);
    }

    /** The locked section: deletes by slug, whatever is there. */
    method Retire(slug: string, ghost statusJson: string, ghost c: nat, ghost id: nat)
      requires Valid() && c in state.callers && state.callers[c] == Leading(slug, id)
      modifies this`flights, this`state
      ensures Valid() && state == Do(old(state), Step.Retire(c, statusJson))
      ensures state.callers[c] == Retired(slug, id, statusJson)
    {
      state := Do(state, Step.Retire(c, statusJson));
      flights := flights - {slug};
    }

    method Write(f: Flight, statusJson: string, ghost c: nat, ghost id: nat)
      requires Valid() && c in state.callers && state.callers[c].Retired?
      requires state.callers[c].flight == id && state.callers[c].json == statusJson && id in all && all[id] == f
      modifies this`state, f`json
      ensures Valid() && state == Do(old(state), Step.Write(c))
      ensures state.callers[c] == Written(old(state).callers[c].slug, id, statusJson)
    {
      state := Do(state, Step.Write(c));
      f.json := statusJson;
    }

    method Close(f: Flight, ghost c: nat, ghost id: nat)
      requires Valid() && c in state.callers && state.callers[c].Written?
      requires state.callers[c].flight == id && id in all && all[id] == f
      modifies this`state, f`done
      ensures Valid() && state == Do(old(state), CloseDone(c))
    {
      state := Do(state, CloseDone(c));
      f.done := true;
    }

    /** A waiter that `done` released reads the result. */
    method Read(f: Flight, ghost c: nat) returns (json: string)
      requires Valid() && Inv(state) && c in state.callers && state.callers[c].Waiting? && f.done
      requires state.callers[c].flight in all && all[state.callers[c].flight] == f
      modifies this`state
      ensures Valid() && state == Do(old(state), Wake(c))
      ensures state.callers[c] == Answered(Shared(old(state).callers[c].flight), json)
    {
      assert FlightOk(state, state.callers[c].flight);
      state := Do(state, Wake(c));
      json := f.json;
    }
  }

  // ---- Main results ----------------------------------------------------------------------------

  /** Live exchanges for one slug never overlap. */
  lemma OneExchangePerSlug(tr: seq<State>, i: nat, c: nat, d: nat)
    requires Behaviour(tr) && i < |tr| && c in tr[i].callers && d in tr[i].callers
    requires tr[i].callers[c].Leading? && tr[i].callers[d].Leading?
    ensures tr[i].callers[c].slug == tr[i].callers[d].slug ==> c == d
  {
    AlwaysInv(tr, i);
    assert AtPc(tr[i], c, tr[i].callers[c]) && AtPc(tr[i], d, tr[i].callers[d]);
  }

  /** `finish` deletes by slug without comparing; what it deletes is always its own flight. */
  lemma FinishRetiresItsOwn(tr: seq<State>, i: nat, c: nat)
    requires Behaviour(tr) && i < |tr| && c in tr[i].callers && tr[i].callers[c].Leading?
    ensures var pc := tr[i].callers[c];
            pc.slug in tr[i].index && tr[i].index[pc.slug] == pc.flight && pc.flight !in tr[i].results
  {
    AlwaysInv(tr, i);
    assert AtPc(tr[i], c, tr[i].callers[c]);
  }

  /** Everyone answered from a flight -- its leader and every waiter `done` released -- got
      the one result its leader obtained. */
  lemma SharedResult(tr: seq<State>, i: nat, c: nat, f: nat)
    requires Behaviour(tr) && i < |tr| && c in tr[i].callers && tr[i].callers[c].Answered?
    requires tr[i].callers[c].source == Led(f) || tr[i].callers[c].source == Shared(f)
    ensures f in tr[i].results && tr[i].callers[c].json == tr[i].results[f]
  {
    AlwaysInv(tr, i);
    assert AtPc(tr[i], c, tr[i].callers[c]);
  }

  /** A result never changes once obtained. */
  lemma ResultFixed(tr: seq<State>, i: nat, j: nat, f: nat)
    requires Behaviour(tr) && i <= j < |tr| && f in tr[i].results
    ensures f in tr[j].results && tr[j].results[f] == tr[i].results[f]
  {
    ResultStays(tr, i, j, f, tr[i].results[f]);
  }

  predicate HasResult(s: State, f: nat, json: string) {
    f in s.results && s.results[f] == json
  }

  lemma {:induction false} ResultStays(tr: seq<State>, i: nat, j: nat, f: nat, json: string)
    requires Behaviour(tr) && i <= j < |tr| && HasResult(tr[i], f, json)
    ensures HasResult(tr[j], f, json)
    decreases j
  {
    if i < j {
      ResultStays(tr, i, j - 1, f, json);
      AlwaysInv(tr, j - 1);
      assert Next(tr[j - 1], tr[j]);
      NextKeepsResult(tr[j - 1], tr[j], f, json);
    }
  }

  lemma NextKeepsResult(s: State, s': State, f: nat, json: string)
    requires Inv(s) && Next(s, s') && HasResult(s, f, json)
    ensures HasResult(s', f, json)
  {
    KeepsResult(s, Via(s, s'), f);
  }

  lemma KeepsResult(s: State, step: Step, f: nat)
    requires Inv(s) && Enabled(s, step) && f in s.results
    ensures f in Do(s, step).results && Do(s, step).results[f] == s.results[f]
  {
    if step.Retire? {
      assert AtPc(s, step.c, s.callers[step.c]);
    }
  }

  /** A miss that joins after a result was obtained never gets that flight: it waits for a
      newer one, or leads it. */
  lemma JoinIsNeverStale(tr: seq<State>, i: nat, c: nat, newId: nat)
    requires Behaviour(tr) && i < |tr| && Enabled(tr[i], Join(c, newId))
    ensures var pc := Do(tr[i], Join(c, newId)).callers[c];
            (pc.Waiting? || pc.Leading?) && pc.flight !in tr[i].results && pc.slug == tr[i].callers[c].slug
  {
    AlwaysInv(tr, i);
    var s := tr[i];
    var slug := s.callers[c].slug;
    if slug in s.index {
      assert FlightOk(s, s.index[slug]);
    }
  }

  /** `done` is closed once, after the result was written, and by the leader alone. */
  lemma DoneClosedOnce(tr: seq<State>, i: nat, c: nat)
    requires Behaviour(tr) && i < |tr| && Enabled(tr[i], CloseDone(c))
    ensures var f := tr[i].callers[c].flight;
            && f in tr[i].results && tr[i].fs[f].json == Some(tr[i].results[f])
            && tr[i].fs[f].leader == c && !tr[i].fs[f].done
  {
    AlwaysInv(tr, i);
    assert AtPc(tr[i], c, tr[i].callers[c]);
  }

  // ---- Where an answer comes from ------------------------------------------------------------------

  ghost predicate Execution(tr: seq<State>, steps: seq<Step>) {
    && |tr| == |steps| + 1
    && Init(tr[0])
    && forall i :: 0 <= i < |steps| ==> Enabled(tr[i], steps[i]) && tr[i + 1] == Do(tr[i], steps[i])
  }

  lemma ExecutionIsBehaviour(tr: seq<State>, steps: seq<Step>)
    requires Execution(tr, steps)
    ensures Behaviour(tr)
  {
    forall i | 0 <= i < |tr| - 1 ensures Next(tr[i], tr[i + 1]) {
      assert Enabled(tr[i], steps[i]) && tr[i + 1] == Do(tr[i], steps[i]);
    }
  }

  /** At this step the leader of flight `f` obtains `json`. */
  ghost predicate Obtains(s: State, step: Step, f: nat, json: string) {
    && step.Retire? && step.json == json
    && step.c in s.callers && s.callers[step.c].Leading? && s.callers[step.c].flight == f
  }

  lemma ResultStep(s: State, step: Step, f: nat)
    requires Enabled(s, step) && f in Do(s, step).results
    ensures Obtains(s, step, f, Do(s, step).results[f]) || (f in s.results && s.results[f] == Do(s, step).results[f])
  {
  }

  lemma {:induction false} ResultWasObtained(tr: seq<State>, steps: seq<Step>, n: nat, f: nat)
    requires Execution(tr, steps) && n <= |steps| && f in tr[n].results
    ensures exists i :: 0 <= i < n && Obtains(tr[i], steps[i], f, tr[n].results[f])
  {
    ResultStep(tr[n - 1], steps[n - 1], f);
    if !Obtains(tr[n - 1], steps[n - 1], f, tr[n].results[f]) {
      ResultWasObtained(tr, steps, n - 1, f);
    }
  }

  /** Whoever is answered from a flight gets what the exchange of its leader ended with. */
  lemma AnswerWasObtained(tr: seq<State>, steps: seq<Step>, n: nat, c: nat, f: nat)
    requires Execution(tr, steps) && n <= |steps| && c in tr[n].callers && tr[n].callers[c].Answered?
    requires tr[n].callers[c].source == Led(f) || tr[n].callers[c].source == Shared(f)
    ensures exists i :: 0 <= i < n && Obtains(tr[i], steps[i], f, tr[n].callers[c].json)
  {
    ExecutionIsBehaviour(tr, steps);
    SharedResult(tr, n, c, f);
    ResultWasObtained(tr, steps, n, f);
  }

  /** A waiter that timed out answers the fallback, and one that shuts down drops its client. */
  predicate FallsBack(pc: Pc) {
    pc.Answered? ==>
      && (pc.source.TimedOut? ==> pc.json == "unavailable")
      && (pc.source.Cancelled? ==> pc.json == "")
  }

  lemma {:induction false} Fallbacks(tr: seq<State>, steps: seq<Step>, n: nat, c: nat)
    requires Execution(tr, steps) && n <= |steps| && c in tr[n].callers
    ensures FallsBack(tr[n].callers[c])
  {
    if c in tr[n - 1].callers {
      Fallbacks(tr, steps, n - 1, c);
    }
    FallbackStep(tr[n - 1], steps[n - 1], c);
  }

  lemma FallbackStep(s: State, step: Step, c: nat)
    requires Enabled(s, step) && c in Do(s, step).callers && (c in s.callers ==> FallsBack(s.callers[c]))
    ensures FallsBack(Do(s, step).callers[c])
  {
  }

  /** Every way out of the wait answers at once: with the flight's result, the fallback, or
      nothing. */
  lemma WaitEnds(s: State, step: Step)
    requires Inv(s) && Enabled(s, step) && (step.Wake? || step.TimeOut? || step.Cancel?)
    ensures var pc := Do(s, step).callers[step.c];
            && pc.Answered?
            && (step.Wake? ==> pc.source == Shared(s.callers[step.c].flight))
            && (step.TimeOut? ==> pc.source.TimedOut?) && (step.Cancel? ==> pc.source.Cancelled?)
  {
  }
}
