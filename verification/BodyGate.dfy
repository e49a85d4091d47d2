/** The request-body gate of the API (api/src/mc_server_dashboard_api/http_body_limit.py).

    The middleware wraps a request's `receive` and `send`. Its code runs on one event loop,
    so what happens between two awaits is one atomic step; the route may have several reads
    in flight, and may answer while they are. The messages are the server's choice.
 */
module BodyGate {
  import opened Wrappers

  /** EARLY_ANSWER_DISCARD_BYTES */
  const DISCARD_BYTES: nat := 16 * 1024 * 1024

  /** What the gate knows of a request from its headers, method and endpoint. `length` is
      the Content-Length, if it parses. */
  datatype Request = Request(
    readsBody: bool,
    transferEncoding: bool,
    length: Option<int>,
    expects100: bool,
    limit: nat
  ) {
    /** The declared length: Transfer-Encoding overrides Content-Length. */
    function Declared(): Option<int> {
      if transferEncoding then None else length
    }
  }

  /** An ASGI message: body bytes, or the client is gone. */
  datatype Message = Body(size: nat, more: bool) | Disconnect {
    function Size(): nat {
      if Body? then size else 0
    }

    predicate More() {
      Body? && more
    }
  }

  // ---- The gate's own state -----------------------------------------------------------------

  /** The closure variables of `__call__`. */
  datatype Vars = Vars(received: nat, ended: bool, authorized: bool, responding: bool) {

    /** How much body is still to come; None when that is not to be read. */
    function Unread(q: Request): Option<int> {
      if ended then Some(0)
      else if q.Declared().None? then (if q.transferEncoding then None else Some(0))
      else if q.Declared().value == received then Some(0)
      else if !q.readsBody then None
      else if received == 0 && q.expects100 then None
      else Some(q.Declared().value - received)
    }

    /** `limited_receive` after its await of the underlying `receive`. */
    function Took(m: Message): Vars {
      this.(ended := !m.More(), received := received + m.Size())
    }

    /** Whether that message is refused with a 413 instead of handed over. */
    predicate Refuses(q: Request, m: Message) {
      m.Body? && q.readsBody && received + m.size > q.limit
    }

    /** Whether a read is refused before anything is received. */
    predicate RefusesDeclared(q: Request) {
      q.readsBody && q.Declared().Some? && q.Declared().value > q.limit
    }
  }

  /** One message of the discard loop: None once the loop has ended. */
  function DiscardOne(rest: int, m: Message): Option<int> {
    if m.Disconnect? || !m.more || rest - m.size <= 0 then None else Some(rest - m.size)
  }

  datatype Response = NotStarted | Discarding(rest: int) | Sent(close: bool)

  /** What the start of a response does with the rest of the body. */
  function Decision(rest: Option<int>): Response {
    if rest.None? || rest.value > DISCARD_BYTES then Sent(true)
    else if rest.value <= 0 then Sent(false)
    else Discarding(rest.value)
  }

  /** What becomes of it when these messages arrive before the deadline. */
  function Outcome(r: Response, ms: seq<Message>): Response
    decreases |ms|
  {
    if !r.Discarding? then r
    else if ms == [] then Sent(true)
    else
      var next := DiscardOne(r.rest, ms[0]);
      if next.None? then Sent(false) else Outcome(Discarding(next.value), ms[1..])
  }

  /** `_discard` over the messages that arrive in time; false if they run out. */
  function DiscardAll(rest: int, ms: seq<Message>): bool
    decreases |ms|
  {
    if rest <= 0 then true
    else if ms == [] then false
    else
      var next := DiscardOne(rest, ms[0]);
      next.None? || DiscardAll(next.value, ms[1..])
  }

  lemma {:induction false} OutcomeIsDiscard(rest: int, ms: seq<Message>)
    requires rest > 0
    ensures Outcome(Discarding(rest), ms) == Sent(!DiscardAll(rest, ms))
    decreases |ms|
  {
    if ms != [] && DiscardOne(rest, ms[0]).Some? {
      OutcomeIsDiscard(DiscardOne(rest, ms[0]).value, ms[1..]);
    }
  }

  /** The bytes that the messages carry. */
  function Bytes(ms: seq<Message>): nat {
    if ms == [] then 0 else ms[0].Size() + Bytes(ms[1..])
  }

  lemma {:induction false} BytesMore(ms: seq<Message>, n: nat)
    requires n < |ms|
    ensures Bytes(ms[..n + 1]) == Bytes(ms[..n]) + ms[n].Size()
  {
    if n == 0 {
      assert ms[..1] == [ms[0]] && ms[..0] == [];
    } else {
      BytesMore(ms[1..], n - 1);
      assert ms[1..][..n] == ms[..n + 1][1..] && ms[1..][..n - 1] == ms[..n][1..];
    }
  }

  /** The gate as the program keeps it. */
  class Gate {
    const request: Request
    var received: nat
    var ended: bool
    var authorized: bool
    var responding: bool

    constructor (request: Request)
      ensures this.request == request && View() == Vars(0, false, false, false)
    {
      this.request := request;
      received, ended, authorized, responding := 0, false, false, false;
    }

    function View(): Vars
      reads this
    {
      Vars(received, ended, authorized, responding)
    }

    /** `limited_receive` up to its await of the underlying `receive`; `refused` is the 413
        for a declared length past the limit. */
    method BeforeReceive(credentialPasses: bool) returns (forbidden: bool, refused: bool)
      requires !responding
      modifies this`authorized
      ensures forbidden <==> request.readsBody && !old(authorized) && !credentialPasses
      ensures !forbidden ==> refused == View().RefusesDeclared(request)
      ensures refused ==> request.readsBody && !request.transferEncoding
      ensures !forbidden && request.readsBody && !request.transferEncoding && request.length.Some? ==>
                (refused <==> request.length.value > request.limit)
      ensures View() == if request.readsBody && !forbidden then old(View()).(authorized := true) else old(View())
    {
      forbidden, refused := false, false;
      if request.readsBody {
        if !authorized {
          if !credentialPasses {
            return true, false;
          }
          authorized := true;
        }
        var declared := request.Declared();
        refused := declared.Some? && declared.value > request.limit;
      }
    }

    /** `limited_receive` from the message on. */
    method AfterReceive(m: Message) returns (refused: bool)
      modifies this`received, this`ended
      ensures View() == old(View()).Took(m)
      ensures refused == old(View()).Refuses(request, m)
      ensures refused <==> m.Body? && request.readsBody && old(received) + m.size > request.limit
    {
      ended := !(m.Body? && m.more);
      refused := false;
      if m.Body? {
        received := received + m.size;
        refused := request.readsBody && received > request.limit;
      }
    }

    /** `unread` */
    method Unread() returns (rest: Option<int>)
      ensures rest == View().Unread(request)
    {
      if ended {
        return Some(0);
      }
      var declared := request.Declared();
      if declared.None? {
        return if request.transferEncoding then None else Some(0);
      }
      if declared.value == received {
        return Some(0);
      }
      if !request.readsBody || (received == 0 && request.expects100) {
        return None;
      }
      return Some(declared.value - received);
    }

    /** `tracking_send`, given the messages that the discard loop would receive before its
        deadline; `close` is the header it adds to the start of the response. */
    method TrackingSend(isStart: bool, ms: seq<Message>) returns (close: bool)
      modifies this`responding
      ensures isStart && !old(responding) ==>
                && View() == old(View()).(responding := true)
                && Sent(close) == Outcome(Decision(old(View()).Unread(request)), ms)
      ensures !isStart || old(responding) ==> View() == old(View()) && !close
    {
      close := false;
      if isStart && !responding {
        responding := true;
        var rest := Unread();
        var ok, used := Discard(rest, ms);
        close := !ok;
        if rest.Some? && 0 < rest.value <= DISCARD_BYTES {
          OutcomeIsDiscard(rest.value, ms);
        }
      }
    }

    /** `_discard`, given the messages that arrive before its deadline. */
    method Discard(start: Option<int>, ms: seq<Message>) returns (ok: bool, used: nat)
      ensures start.None? || start.value > DISCARD_BYTES ==> !ok && used == 0
      ensures start.Some? && start.value <= DISCARD_BYTES ==> ok == DiscardAll(start.value, ms)
      ensures used <= |ms|
      ensures used > 0 ==>
                (forall n :: 0 <= n < used - 1 ==> ms[n].More()) && start.Some? && Bytes(ms[..used - 1]) < start.value
    {
      used := 0;
      if start.None? || start.value > DISCARD_BYTES {
        return false, 0;
      }
      var rest := start.value;
      while rest > 0
        invariant used <= |ms| && rest == start.value - Bytes(ms[..used])
        invariant forall n :: 0 <= n < used ==> ms[n].More()
        invariant used > 0 ==> Bytes(ms[..used - 1]) < start.value
        invariant DiscardAll(rest, ms[used..]) == DiscardAll(start.value, ms)
        decreases |ms| - used
      {
        if used == |ms| {
          return false, used;
        }
        var m := ms[used];
        assert ms[used..][1..] == ms[used + 1..];
        BytesMore(ms, used);
        used := used + 1;
        if m.Disconnect? {
          break;
        }
        rest := rest - m.size;
        if !m.more {
          break;
        }
      }
      ok := true;
    }
  }

  // ---- A request's life --------------------------------------------------------------------------

  /** `total` is the real length of the body; `delivered`, `final` and `gone` what the server
      has handed out of it so far, to whomever. `handed` counts what the route got before the
      response started, `discarded` what the discard loop dropped. */
  datatype State = State(
    vars: Vars,
    /** Reads of the route: awaiting the credential check, and awaiting a message. */
    authorizing: nat,
    reading: nat,
    /** Reads made once the response has started: passed straight through. */
    direct: nat,
    response: Response,
    messages: nat,
    delivered: nat,
    final: bool,
    gone: bool,
    handed: nat,
    discarded: nat
  )

  const START := State(Vars(0, false, false, false), 0, 0, 0, NotStarted, 0, 0, false, false, 0, 0)

  datatype Step =
    | Read
    | CredentialPasses
    | CredentialFails
    | Arrive(m: Message)
    | ArriveDirect(m: Message)
    | Respond
    | ArriveDiscarded(m: Message)
    | Deadline

  predicate Enabled(q: Request, s: State, step: Step) {
    match step
    case Read => true
    case CredentialPasses => s.authorizing > 0
    case CredentialFails => s.authorizing > 0
    case Arrive(_) => s.reading > 0
    case ArriveDirect(_) => s.direct > 0
    case Respond => s.response.NotStarted?
    case ArriveDiscarded(_) => s.response.Discarding?
    case Deadline => s.response.Discarding?
  }

  /** The server hands out a message. */
  function Received(s: State, m: Message): State {
    s.(messages := s.messages + 1, delivered := s.delivered + m.Size(),
       final := s.final || (m.Body? && !m.more), gone := s.gone || m.Disconnect?)
  }

  /** A read goes on to receive, unless the declared length is refused. */
  function Admit(q: Request, s: State): State {
    if s.vars.RefusesDeclared(q) then s else s.(reading := s.reading + 1)
  }

  function Do(q: Request, s: State, step: Step): State
    requires Enabled(q, s, step)
  {
    match step
    case Read =>
      if s.vars.responding then s.(direct := s.direct + 1)
      else if q.readsBody && !s.vars.authorized then s.(authorizing := s.authorizing + 1)
      else Admit(q, s)
    case CredentialPasses =>
      Admit(q, s.(authorizing := s.authorizing - 1, vars := s.vars.(authorized := true)))
    case CredentialFails => s.(authorizing := s.authorizing - 1)
    case Arrive(m) =>
      var handed := if s.vars.responding || s.vars.Refuses(q, m) then s.handed else s.handed + m.Size();
      Received(s, m).(reading := s.reading - 1, vars := s.vars.Took(m), handed := handed)
    case ArriveDirect(m) => Received(s, m).(direct := s.direct - 1)
    case Respond => DoRespond(q, s)
    case ArriveDiscarded(m) =>
      var next := DiscardOne(s.response.rest, m);
      Received(s, m).(discarded := s.discarded + m.Size(),
        response := if next.None? then Sent(false) else Discarding(next.value))
    case Deadline => s.(response := Sent(true))
  }

  function DoRespond(q: Request, s: State): State {
    var rest := s.vars.Unread(q);
    s.(vars := s.vars.(responding := true),
       response := Decision(rest))
  }

  ghost predicate Next(q: Request, s: State, s': State) {
    exists step :: Enabled(q, s, step) && s' == Do(q, s, step)
  }

  ghost function Via(q: Request, s: State, s': State): (step: Step)
    requires Next(q, s, s')
    ensures Enabled(q, s, step) && s' == Do(q, s, step)
  {
    var step :| Enabled(q, s, step) && s' == Do(q, s, step);
    step
  }

  /** The life of a request under any message sequence whatever. */
  ghost predicate Behaviour(q: Request, tr: seq<State>) {
    && |tr| > 0
    && tr[0] == START
    && forall i :: 0 <= i < |tr| - 1 ==> Next(q, tr[i], tr[i + 1])
  }

  /** The discard loop's steps over these messages, and its deadline after them. */
  function RunDiscard(q: Request, s: State, ms: seq<Message>): State
    decreases |ms|
  {
    if !s.response.Discarding? then s
    else if ms == [] then Do(q, s, Deadline)
    else RunDiscard(q, Do(q, s, ArriveDiscarded(ms[0])), ms[1..])
  }

  /** The gate's `TrackingSend` answers what the steps Respond, ArriveDiscarded and Deadline lead
      to. */
  lemma {:induction false} OutcomeIsSteps(q: Request, s: State, ms: seq<Message>)
    requires s.response.NotStarted? || s.response.Discarding?
    ensures s.response.NotStarted? ==>
              RunDiscard(q, Do(q, s, Respond), ms).response == Outcome(Decision(s.vars.Unread(q)), ms)
    ensures s.response.Discarding? ==> RunDiscard(q, s, ms).response == Outcome(s.response, ms)
    decreases |ms|, if s.response.NotStarted? then 1 else 0
  {
    if s.response.NotStarted? {
      if Do(q, s, Respond).response.Discarding? {
        OutcomeIsSteps(q, Do(q, s, Respond), ms);
      }
    } else if ms != [] && Do(q, s, ArriveDiscarded(ms[0])).response.Discarding? {
      OutcomeIsSteps(q, Do(q, s, ArriveDiscarded(ms[0])), ms[1..]);
    }
  }

  // ---- The limit and the credential: any messages ----------------------------------------------

  ghost predicate Guarded(q: Request, s: State) {
    && (s.vars.responding <==> !s.response.NotStarted?)
    && (!s.vars.responding ==> s.direct == 0)
    && (q.readsBody ==>
          && (s.reading > 0 ==> s.vars.authorized)
          && (!s.vars.responding && s.messages > 0 ==> s.vars.authorized)
          && s.handed <= s.vars.received && s.handed <= q.limit
          && (s.vars.RefusesDeclared(q) ==>
                s.reading == 0 && (!s.vars.responding ==> s.messages == 0) && s.handed == 0))
  }

  lemma StepGuarded(q: Request, s: State, step: Step)
    requires Guarded(q, s) && Enabled(q, s, step)
    ensures Guarded(q, Do(q, s, step))
  {
  }

  lemma {:induction false} AlwaysGuarded(q: Request, tr: seq<State>, i: nat)
    requires Behaviour(q, tr) && i < |tr|
    ensures Guarded(q, tr[i])
  {
    if i > 0 {
      AlwaysGuarded(q, tr, i - 1);
      assert Next(q, tr[i - 1], tr[i]);
      StepGuarded(q, tr[i - 1], Via(q, tr[i - 1], tr[i]));
    }
  }

  /** However the body is chunked, whatever length it declares, and however often the route
      reads on after a refusal: before the response starts it never gets more than its limit. */
  lemma RouteNeverExceedsLimit(q: Request, tr: seq<State>, i: nat)
    requires Behaviour(q, tr) && i < |tr| && q.readsBody
    ensures tr[i].handed <= q.limit
    ensures tr[i].vars.RefusesDeclared(q) ==> tr[i].handed == 0
  {
    AlwaysGuarded(q, tr, i);
  }

  /** No body message is received for a route before its credential check has passed, and none
      at all for a declared length past the limit -- until the response starts. */
  lemma CredentialFirst(q: Request, tr: seq<State>, i: nat)
    requires Behaviour(q, tr) && i < |tr| && q.readsBody && tr[i].response.NotStarted? && tr[i].messages > 0
    ensures tr[i].vars.authorized && !tr[i].vars.RefusesDeclared(q)
  {
    AlwaysGuarded(q, tr, i);
  }

  // ---- Nothing within the limit is refused: any messages --------------------------------------------

  /** Until the response starts the gate has counted what has been delivered, and has handed over
      all of it while that is within the limit. */
  ghost predicate Counted(q: Request, s: State) {
    && (s.vars.responding <==> !s.response.NotStarted?)
    && (!s.vars.responding ==>
          && s.direct == 0 && s.vars.received == s.delivered
          && (!q.readsBody || s.delivered <= q.limit ==> s.handed == s.delivered))
  }

  lemma StepCounted(q: Request, s: State, step: Step)
    requires Counted(q, s) && Enabled(q, s, step)
    ensures Counted(q, Do(q, s, step))
  {
  }

  lemma {:induction false} AlwaysCounted(q: Request, tr: seq<State>, i: nat)
    requires Behaviour(q, tr) && i < |tr|
    ensures Counted(q, tr[i])
  {
    if i > 0 {
      AlwaysCounted(q, tr, i - 1);
      assert Next(q, tr[i - 1], tr[i]);
      StepCounted(q, tr[i - 1], Via(q, tr[i - 1], tr[i]));
    }
  }

  /** As long as no more than the limit has been delivered the route has got every byte of it. */
  lemma RouteGetsEverything(q: Request, tr: seq<State>, i: nat)
    requires Behaviour(q, tr) && i < |tr| && tr[i].response.NotStarted?
    requires !q.readsBody || tr[i].delivered <= q.limit
    ensures tr[i].handed == tr[i].delivered
  {
    AlwaysCounted(q, tr, i);
  }

  /** A read is refused after its message exactly when the bytes delivered by then exceed the
      limit of a route that reads a body. */
  lemma RefusedIffOverLimit(q: Request, tr: seq<State>, i: nat, m: Message)
    requires Behaviour(q, tr) && i < |tr| && tr[i].response.NotStarted? && m.Body?
    ensures tr[i].vars.Refuses(q, m) <==> q.readsBody && tr[i].delivered + m.size > q.limit
  {
    AlwaysCounted(q, tr, i);
  }

  /** Where a route's read goes: to the credential check first; straight on to receive; or back
      with a 413. */
  lemma ReadGoes(q: Request, s: State)
    requires s.response.NotStarted? && !s.vars.responding
    ensures
      var s', passed := Do(q, s, Read), !q.readsBody || s.vars.authorized;
      && s'.authorizing == s.authorizing + (if passed then 0 else 1)
      && s'.reading == s.reading + (if passed && !s.vars.RefusesDeclared(q) then 1 else 0)
      && s'.direct == s.direct && s'.vars == s.vars
  {
  }

  // ---- Every read is answered: any messages ---------------------------------------------------------------

  ghost predicate Execution(q: Request, tr: seq<State>, steps: seq<Step>) {
    && |tr| == |steps| + 1
    && tr[0] == START
    && forall i :: 0 <= i < |steps| ==> Enabled(q, tr[i], steps[i]) && tr[i + 1] == Do(q, tr[i], steps[i])
  }

  ghost function Times(tr: seq<State>, steps: seq<Step>, n: nat, event: (State, Step) -> bool): nat
    requires n <= |steps| < |tr|
  {
    if n == 0 then 0
    else Times(tr, steps, n - 1, event) + if event(tr[n - 1], steps[n - 1]) then 1 else 0
  }

  ghost function Reads(): (State, Step) -> bool {
    (s: State, step: Step) => step.Read?
  }

  /** A read comes back: with a message, forbidden, or refused for its declared length. */
  ghost function Answers(q: Request): (State, Step) -> bool {
    (s: State, step: Step) =>
      || step.Arrive? || step.ArriveDirect? || step.CredentialFails?
      || (s.vars.RefusesDeclared(q)
          && (step.CredentialPasses? || (step.Read? && !s.vars.responding && (!q.readsBody || s.vars.authorized))))
  }

  function Waiting(s: State): nat {
    s.authorizing + s.reading + s.direct
  }

  lemma ReadStep(q: Request, s: State, step: Step)
    requires Enabled(q, s, step)
    ensures Waiting(Do(q, s, step)) + (if Answers(q)(s, step) then 1 else 0)
         == Waiting(s) + (if Reads()(s, step) then 1 else 0)
  {
    if step.Read? {
      AdmitWaits(q, s);
    } else if step.CredentialPasses? {
      AdmitWaits(q, s.(authorizing := s.authorizing - 1, vars := s.vars.(authorized := true)));
    } else {
      LaterStep(q, s, step);
    }
  }

  lemma LaterStep(q: Request, s: State, step: Step)
    requires Enabled(q, s, step) && !step.Read? && !step.CredentialPasses?
    ensures Waiting(Do(q, s, step)) == Waiting(s) - if Answers(q)(s, step) then 1 else 0
  {
  }

  lemma AdmitWaits(q: Request, s: State)
    ensures Waiting(Admit(q, s)) == Waiting(s) + if s.vars.RefusesDeclared(q) then 0 else 1
  {
  }

  /** No read is lost or invented: each has been answered, or waits for the credential check or for
      a message. */
  lemma {:induction false} ReadsAreAnswered(q: Request, tr: seq<State>, steps: seq<Step>, n: nat)
    requires Execution(q, tr, steps) && n <= |steps|
    ensures Times(tr, steps, n, Reads()) == Times(tr, steps, n, Answers(q)) + Waiting(tr[n])
  {
    if n > 0 {
      ReadsAreAnswered(q, tr, steps, n - 1);
      ReadStep(q, tr[n - 1], steps[n - 1]);
    }
  }

  // ---- The rest of the body: honest framing ---------------------------------------------------------

  /** What the server's framing means for a body of `total` bytes. */
  predicate Framed(q: Request, total: nat) {
    !q.transferEncoding ==> if q.length.Some? then q.length.value == total else total == 0
  }

  /** A message an honest server may send next. */
  predicate Honest(s: State, m: Message, total: nat) {
    && (s.final || s.gone ==> m.Disconnect?)
    && s.delivered + m.Size() <= total
    && (m.Body? && !m.more ==> s.delivered + m.size == total)
  }

  predicate HonestStep(s: State, step: Step, total: nat) {
    match step
    case Arrive(m) => Honest(s, m, total)
    case ArriveDirect(m) => Honest(s, m, total)
    case ArriveDiscarded(m) => Honest(s, m, total)
    case _ => true
  }

  ghost predicate HonestNext(q: Request, s: State, s': State, total: nat) {
    exists step :: Enabled(q, s, step) && HonestStep(s, step, total) && s' == Do(q, s, step)
  }

  ghost predicate HonestBehaviour(q: Request, tr: seq<State>, total: nat) {
    && |tr| > 0 && Framed(q, total)
    && tr[0] == START
    && forall i :: 0 <= i < |tr| - 1 ==> HonestNext(q, tr[i], tr[i + 1], total)
  }

  ghost predicate Tracked(q: Request, s: State, total: nat) {
    && s.delivered <= total && (s.final ==> s.delivered == total)
    && (s.vars.responding <==> !s.response.NotStarted?)
    && (!s.vars.responding ==>
          && s.direct == 0 && s.vars.received == s.delivered && s.discarded == 0
          && (s.vars.ended <==> s.final || s.gone))
    && (s.response.Discarding? ==>
          && 0 < s.response.rest && s.delivered + s.response.rest >= total
          && s.discarded + s.response.rest <= DISCARD_BYTES)
    && s.discarded <= DISCARD_BYTES && s.discarded <= s.delivered
    && (s.response == Sent(false) ==> s.delivered == total || s.gone)
  }

  lemma StepTracked(q: Request, s: State, step: Step, total: nat)
    requires Framed(q, total) && Tracked(q, s, total)
    requires Enabled(q, s, step) && HonestStep(s, step, total)
    ensures Tracked(q, Do(q, s, step), total)
  {
  }

  lemma {:induction false} AlwaysTracked(q: Request, tr: seq<State>, total: nat, i: nat)
    requires HonestBehaviour(q, tr, total) && i < |tr|
    ensures Tracked(q, tr[i], total)
  {
    if i > 0 {
      AlwaysTracked(q, tr, total, i - 1);
      assert HonestNext(q, tr[i - 1], tr[i], total);
      var step :| Enabled(q, tr[i - 1], step) && HonestStep(tr[i - 1], step, total) && tr[i] == Do(q, tr[i - 1], step);
      StepTracked(q, tr[i - 1], step, total);
    }
  }

  /** Section 9.3 of RFC 9112: a response that leaves without the added `Connection: close`
      means the whole body was read -- by the route, by the discard loop, or by both at once
      -- or that the client is gone. */
  lemma KeptOpenMeansReadThrough(q: Request, tr: seq<State>, total: nat, i: nat)
    requires HonestBehaviour(q, tr, total) && i < |tr| && tr[i].response == Sent(false)
    ensures tr[i].delivered == total || tr[i].gone
  {
    AlwaysTracked(q, tr, total, i);
  }

  /** The discard loop never drops more than its budget. */
  lemma DiscardWithinBudget(q: Request, tr: seq<State>, total: nat, i: nat)
    requires HonestBehaviour(q, tr, total) && i < |tr|
    ensures tr[i].discarded <= DISCARD_BYTES && tr[i].discarded <= total
  {
    AlwaysTracked(q, tr, total, i);
  }

  /** What the start of a response decides, in the client's terms: it closes at once exactly
      for an unfinished body of undeclared length, or an unread rest that the method makes
      unreadable, that the client holds back, or that exceeds the budget; and it is sent
      untouched exactly when nothing is left unread. */
  lemma ResponseDecision(q: Request, tr: seq<State>, total: nat, i: nat)
    requires HonestBehaviour(q, tr, total) && i < |tr| && tr[i].response.NotStarted?
    ensures
      var s, r := tr[i], Do(q, tr[i], Respond).response;
      var over := s.final || s.gone;
      && (r == Sent(true) <==>
            !over && (q.transferEncoding
              || (s.delivered < total
                  && (!q.readsBody || (s.delivered == 0 && q.expects100) || total - s.delivered > DISCARD_BYTES))))
      && (r == Sent(false) <==> over || (!q.transferEncoding && s.delivered == total))
      && (r.Discarding? ==> r.rest == total - s.delivered)
  {
    AlwaysTracked(q, tr, total, i);
  }

  /** Before anything is received a request is refused exactly when its route reads a body that
      really is over the limit, and whose length was declared. */
  lemma DeclaredRefusedIff(q: Request, total: nat)
    requires Framed(q, total)
    ensures START.vars.RefusesDeclared(q) <==> q.readsBody && !q.transferEncoding && total > q.limit
  {
  }

  /** A route that reads a body within its limit gets all of it: nothing of it is refused. */
  lemma BodyWithinLimitIsHandedOver(q: Request, tr: seq<State>, total: nat, i: nat, m: Message)
    requires HonestBehaviour(q, tr, total) && i < |tr| && tr[i].response.NotStarted? && total <= q.limit
    ensures tr[i].handed == tr[i].delivered && !tr[i].vars.RefusesDeclared(q)
    ensures Honest(tr[i], m, total) ==> !tr[i].vars.Refuses(q, m)
  {
    HonestIsBehaviour(q, tr, total);
    AlwaysCounted(q, tr, i);
    AlwaysTracked(q, tr, total, i);
  }

  lemma HonestIsBehaviour(q: Request, tr: seq<State>, total: nat)
    requires HonestBehaviour(q, tr, total)
    ensures Behaviour(q, tr)
  {
    forall i | 0 <= i < |tr| - 1 ensures Next(q, tr[i], tr[i + 1]) {
      assert HonestNext(q, tr[i], tr[i + 1], total);
    }
  }

  /** The loop as a whole: it succeeds if and only if some message ended it in time -- the
      last one of the body, a disconnect, or the one that completes the rest. */
  lemma {:induction false} DiscardSucceedsIff(rest: int, ms: seq<Message>)
    requires rest > 0
    ensures DiscardAll(rest, ms) <==>
            exists n :: 0 < n <= |ms| && (!ms[n - 1].More() || Bytes(ms[..n]) >= rest)
    decreases |ms|
  {
    if ms != [] {
      var m := ms[0];
      assert Bytes(ms[..1]) == m.Size() by { assert ms[..1] == [m]; }
      if m.More() && m.size < rest {
        DiscardSucceedsIff(rest - m.size, ms[1..]);
        forall n | 0 < n <= |ms| - 1
          ensures ms[1..][n - 1] == ms[n] && Bytes(ms[1..][..n]) == Bytes(ms[..n + 1]) - m.size
        {
          assert ms[..n + 1] == [m] + ms[1..][..n];
        }
        if n :| 0 < n <= |ms| && (!ms[n - 1].More() || Bytes(ms[..n]) >= rest) {
          assert n > 1;
          assert ms[1..][n - 2] == ms[n - 1];
        }
        if n :| 0 < n <= |ms| - 1 && (!ms[1..][n - 1].More() || Bytes(ms[1..][..n]) >= rest - m.size) {
          assert !ms[n].More() || Bytes(ms[..n + 1]) >= rest;
        }
      }
    }
  }
}
