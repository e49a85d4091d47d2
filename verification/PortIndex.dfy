/** The Bedrock listener's live port index under takeover
    (relay/internal/bedrock/listener.go, and Tunnel.close in tunnel.go).

    Any number of handlers run at once. `mu` is the listener's mutex. `Tunnel.close` goes
    through a sync.Once, which makes a late caller wait for the first one; its three effects
    are separate steps, so a natural teardown and a takeover interleave inside it.
 */
module PortIndex {
  import opened Wrappers

  // ---- State --------------------------------------------------------------------------

  /** sync.Once */
  datatype Once = Fresh | InProgress(runner: nat) | Finished

  datatype Tunnel = Tunnel(port: nat, owner: nat, once: Once, socket: bool, conn: bool, torn: nat)

  datatype Phase = Arriving | ClosingConn | ClosingSocket | CountingDown

  /** What a handler does once its call of `close` has returned. */
  datatype After = ThenBind(port: nat) | ThenUnregister(port: nat)

  datatype Pc =
    | Locking(port: nat)
    | Entering(port: nat)
    | Closing(tun: nat, phase: Phase, after: After)
    | Binding(port: nat)
    | Registering(port: nat, tun: nat)
    | Acking(port: nat, tun: nat)
    | Running(port: nat, tun: nat)
    | Unregistering(port: nat, tun: nat)
    | Rejected
    | Done(tun: nat)
  {
    /** Inside bindOrTakeover's critical section. */
    predicate Critical() {
      Entering? || Binding? || Registering? || (Closing? && after.ThenBind?)
    }

    /** The handler has finished, one way or the other. */
    predicate Over() {
      Rejected? || Done?
    }

    /** This handler's own tunnel is `t`. */
    predicate Has(t: nat) {
      match this
      case Registering(_, u) => u == t
      case Acking(_, u) => u == t
      case Running(_, u) => u == t
      case Unregistering(_, u) => u == t
      case Done(u) => u == t
      case Closing(u, _, ThenUnregister(_)) => u == t
      case _ => false
    }

    /** The port this handler's own tunnel is bound to, while it is still active. */
    predicate HasAt(p: nat, t: nat) {
      match this
      case Acking(q, u) => q == p && u == t
      case Running(q, u) => q == p && u == t
      case Unregistering(q, u) => q == p && u == t
      case Closing(u, _, ThenUnregister(q)) => q == p && u == t
      case _ => false
    }
  }

  datatype State = State(mu: Option<nat>, index: map<nat, nat>, tuns: map<nat, Tunnel>, hs: map<nat, Pc>)

  ghost predicate Init(s: State) {
    s == State(None, map[], map[], map[])
  }

  /** `t` holds its UDP port. */
  predicate Open(s: State, t: nat) {
    t in s.tuns && s.tuns[t].socket
  }

  // ---- Steps ----------------------------------------------------------------------------

  datatype Step =
    | Arrive(h: nat, port: nat)
    | Lock(h: nat)
    | Inspect(h: nat)
    | EnterOnce(h: nat)
    | CloseConn(h: nat)
    | CloseSocket(h: nat)
    | CountTorn(h: nat)
    | BindOk(h: nat, tun: nat)
    | BindFails(h: nat)
    | Register(h: nat)
    | AckOk(h: nat)
    | AckFails(h: nat)
    | RunEnds(h: nat)
    | Unregister(h: nat)

  predicate Enabled(s: State, step: Step) {
    match step
    case Arrive(h, _) => h !in s.hs
    case Lock(h) => h in s.hs && s.hs[h].Locking? && s.mu.None?
    case Inspect(h) => h in s.hs && s.hs[h].Entering?
    case EnterOnce(h) =>
      && h in s.hs && s.hs[h].Closing? && s.hs[h].phase.Arriving?
      && s.hs[h].tun in s.tuns && !s.tuns[s.hs[h].tun].once.InProgress?
    case CloseConn(h) => h in s.hs && s.hs[h].Closing? && s.hs[h].phase.ClosingConn? && s.hs[h].tun in s.tuns
    case CloseSocket(h) => h in s.hs && s.hs[h].Closing? && s.hs[h].phase.ClosingSocket? && s.hs[h].tun in s.tuns
    case CountTorn(h) => h in s.hs && s.hs[h].Closing? && s.hs[h].phase.CountingDown? && s.hs[h].tun in s.tuns
    // the OS refuses a port that is still held
    case BindOk(h, t) =>
      && h in s.hs && s.hs[h].Binding? && t !in s.tuns
      && forall u :: u in s.tuns && s.tuns[u].port == s.hs[h].port ==> !s.tuns[u].socket
    case BindFails(h) => h in s.hs && s.hs[h].Binding?
    case Register(h) => h in s.hs && s.hs[h].Registering?
    case AckOk(h) => h in s.hs && s.hs[h].Acking?
    case AckFails(h) => h in s.hs && s.hs[h].Acking?
    case RunEnds(h) => h in s.hs && s.hs[h].Running?
    case Unregister(h) => h in s.hs && s.hs[h].Unregistering? && s.mu.None?
  }

  function Resume(tun: nat, after: After): Pc {
    match after
    case ThenBind(p) => Binding(p)
    case ThenUnregister(p) => Unregistering(p, tun)
  }

  function Goto(s: State, h: nat, pc: Pc): State {
    s.(hs := s.hs[h := pc])
  }

  function Do(s: State, step: Step): State
    requires Enabled(s, step)
  {
    match step
    case Arrive(h, p) => Goto(s, h, Locking(p))
    case Lock(h) => Goto(s, h, Entering(s.hs[h].port)).(mu := Some(h))
    case Inspect(h) =>
      var p := s.hs[h].port;
      if p in s.index then Goto(s, h, Closing(s.index[p], Arriving, ThenBind(p))) else Goto(s, h, Binding(p))
    case EnterOnce(h) =>
      var c := s.hs[h];
      if s.tuns[c.tun].once.Finished? then Goto(s, h, Resume(c.tun, c.after))
      else
        Goto(s, h, c.(phase := ClosingConn)).(tuns := s.tuns[c.tun := s.tuns[c.tun].(once := InProgress(h))])
    case CloseConn(h) =>
      var c := s.hs[h];
      Goto(s, h, c.(phase := ClosingSocket)).(tuns := s.tuns[c.tun := s.tuns[c.tun].(conn := false)])
    case CloseSocket(h) =>
      var c := s.hs[h];
      Goto(s, h, c.(phase := CountingDown)).(tuns := s.tuns[c.tun := s.tuns[c.tun].(socket := false)])
    case CountTorn(h) =>
      var c := s.hs[h];
      var t := s.tuns[c.tun];
      Goto(s, h, Resume(c.tun, c.after)).(tuns := s.tuns[c.tun := t.(torn := t.torn + 1, once := Finished)])
    case BindOk(h, t) =>
      var p := s.hs[h].port;
      Goto(s, h, Registering(p, t)).(tuns := s.tuns[t := Tunnel(p, h, Fresh, true, true, 0)])
    case BindFails(h) => Goto(s, h, Rejected).(mu := None, index := s.index - {s.hs[h].port})
    case Register(h) =>
      var c := s.hs[h];
      Goto(s, h, Acking(c.port, c.tun)).(mu := None, index := s.index[c.port := c.tun])
    case AckOk(h) => Goto(s, h, Running(s.hs[h].port, s.hs[h].tun))
    case AckFails(h) => Goto(s, h, Closing(s.hs[h].tun, Arriving, ThenUnregister(s.hs[h].port)))
    case RunEnds(h) => Goto(s, h, Closing(s.hs[h].tun, Arriving, ThenUnregister(s.hs[h].port)))
    case Unregister(h) =>
      var c := s.hs[h];
      var left := if c.port in s.index && s.index[c.port] == c.tun then s.index - {c.port} else s.index;
      Goto(s, h, Done(c.tun)).(index := left)
  }

  ghost predicate Next(s: State, s': State) {
    exists step :: Enabled(s, step) && s' == Do(s, step)
  }

  ghost function Via(s: State, s': State): (step: Step)
    requires Next(s, s')
    ensures Enabled(s, step) && s' == Do(s, step)
  {
    var step :| Enabled(s, step) && s' == Do(s, step);
    step
  }

  ghost predicate Behaviour(tr: seq<State>) {
    && |tr| > 0
    && Init(tr[0])
    && forall i :: 0 <= i < |tr| - 1 ==> Next(tr[i], tr[i + 1])
  }

  // ---- Invariant ----------------------------------------------------------------------------

  /** The mutex is held by exactly the handler inside the critical section. */
  ghost predicate Mutex(s: State) {
    && (s.mu.Some? ==> s.mu.value in s.hs)
    && (forall h :: h in s.hs ==> (s.hs[h].Critical() <==> s.mu == Some(h)))
  }

  /** What each handler's position says about the tunnel it is working on. */
  ghost predicate AtPc(s: State, h: nat, pc: Pc) {
    match pc
    case Closing(t, phase, after) =>
      && t in s.tuns
      && (phase.Arriving? || s.tuns[t].once == InProgress(h))
      && (phase.ClosingSocket? || phase.CountingDown? ==> !s.tuns[t].conn)
      && (phase.CountingDown? ==> !s.tuns[t].socket)
      && (after.ThenBind? ==> after.port in s.index && s.index[after.port] == t)
      && (after.ThenUnregister? ==> s.tuns[t].owner == h && s.tuns[t].port == after.port)
    case Binding(p) => p in s.index ==> s.index[p] in s.tuns && !s.tuns[s.index[p]].socket
    case Registering(p, t) =>
      && t in s.tuns && s.tuns[t].owner == h && s.tuns[t].port == p
      && (forall u :: Open(s, u) && s.tuns[u].port == p ==> u == t)
    case Acking(p, t) => t in s.tuns && s.tuns[t].owner == h && s.tuns[t].port == p
    case Running(p, t) => t in s.tuns && s.tuns[t].owner == h && s.tuns[t].port == p
    case Unregistering(p, t) =>
      t in s.tuns && s.tuns[t].owner == h && s.tuns[t].port == p && s.tuns[t].once.Finished?
    case Done(t) => t in s.tuns && s.tuns[t].owner == h && s.tuns[t].once.Finished?
    case _ => true
  }

  ghost predicate Positions(s: State) {
    forall h :: h in s.hs ==> AtPc(s, h, s.hs[h])
  }

  /** The stage of a tunnel's sync.Once decides what is still open. */
  ghost predicate AtOnce(s: State, t: Tunnel, tid: nat) {
    && t.owner in s.hs && s.hs[t.owner].Has(tid)
    && (t.once.Fresh? ==> t.socket && t.conn && t.torn == 0)
    && (t.once.InProgress? ==>
          t.torn == 0 && t.once.runner in s.hs
          && s.hs[t.once.runner].Closing? && s.hs[t.once.runner].tun == tid && !s.hs[t.once.runner].phase.Arriving?)
    && (t.once.Finished? ==> !t.socket && !t.conn && t.torn == 1)
  }

  ghost predicate Onces(s: State) {
    forall t :: t in s.tuns ==> AtOnce(s, s.tuns[t], t)
  }

  /** Entries lead to tunnels on their port whose handlers are still active; a tunnel that
      holds its port is the registered one, or about to be registered. */
  ghost predicate Indexed(s: State) {
    && (forall p :: p in s.index ==>
          var t := s.index[p];
          t in s.tuns && s.tuns[t].port == p && s.tuns[t].owner in s.hs && s.hs[s.tuns[t].owner].HasAt(p, t))
    && (forall t :: Open(s, t) ==>
          var p := s.tuns[t].port;
          || (p in s.index && s.index[p] == t)
          || (s.tuns[t].owner in s.hs && s.hs[s.tuns[t].owner].Registering?))
  }

  ghost predicate Inv(s: State) {
    Mutex(s) && Positions(s) && Onces(s) && Indexed(s)
  }

  lemma StepMutex(s: State, step: Step)
    requires Mutex(s) && Enabled(s, step)
    ensures Mutex(Do(s, step))
  {
  }

  /** The steps of a `close` call. */
  predicate InClose(step: Step) {
    step.EnterOnce? || step.CloseConn? || step.CloseSocket? || step.CountTorn?
  }

  /** The steps that change the index. */
  predicate InIndex(step: Step) {
    step.BindFails? || step.Register? || step.Unregister?
  }

  /** A step of `close` by `h` moves `h` along and changes the tunnel it closes, nothing
      else. */
  lemma CloseChanges(s: State, h: nat, step: Step)
    requires Enabled(s, step) && InClose(step) && h == step.h
    ensures
      var s', t := Do(s, step), s.hs[h].tun;
      && s'.hs.Keys == s.hs.Keys && s'.index == s.index && s'.mu == s.mu && s'.tuns.Keys == s.tuns.Keys
      && (forall g :: g in s.hs && g != h ==> s'.hs[g] == s.hs[g])
      && (forall u :: u in s.tuns && u != t ==> s'.tuns[u] == s.tuns[u])
      && s'.tuns[t].owner == s.tuns[t].owner && s'.tuns[t].port == s.tuns[t].port
      && (s'.tuns[t].socket ==> s.tuns[t].socket) && (s'.tuns[t].conn ==> s.tuns[t].conn)
  {
  }

  lemma ClosePositions(s: State, step: Step)
    requires Inv(s) && Enabled(s, step) && InClose(step)
    ensures Positions(Do(s, step))
  {
    var s' := Do(s, step);
    CloseChanges(s, step.h, step);
    assert AtPc(s, step.h, s.hs[step.h]) && AtOnce(s, s.tuns[s.hs[step.h].tun], s.hs[step.h].tun);
    OwnPosition(s, step);
    forall g | g in s'.hs && g != step.h ensures AtPc(s', g, s'.hs[g]) {
      OtherPosition(s, step, g);
    }
  }

  lemma OtherPosition(s: State, step: Step, g: nat)
    requires Enabled(s, step) && InClose(step) && g in s.hs && g != step.h
    requires AtPc(s, g, s.hs[g]) && AtPc(s, step.h, s.hs[step.h])
    ensures g in Do(s, step).hs && AtPc(Do(s, step), g, Do(s, step).hs[g])
  {
    CloseChanges(s, step.h, step);
    OnceIsTheirs(s, step, g);
  }

  /** A step of `close` leaves alone a sync.Once that another handler is in, or that is finished. */
  lemma OnceIsTheirs(s: State, step: Step, g: nat)
    requires Enabled(s, step) && InClose(step) && g != step.h && AtPc(s, step.h, s.hs[step.h])
    ensures forall t :: t in s.tuns && (s.tuns[t].once == InProgress(g) || s.tuns[t].once.Finished?) ==>
              t in Do(s, step).tuns && Do(s, step).tuns[t].once == s.tuns[t].once
  {
  }

  lemma OwnPosition(s: State, step: Step)
    requires Inv(s) && Enabled(s, step) && InClose(step)
    ensures AtPc(Do(s, step), step.h, Do(s, step).hs[step.h])
  {
    assert AtPc(s, step.h, s.hs[step.h]) && AtOnce(s, s.tuns[s.hs[step.h].tun], s.hs[step.h].tun);
  }

  lemma CloseOnce(s: State, step: Step, t: nat)
    requires Enabled(s, step) && InClose(step) && t in s.tuns && AtOnce(s, s.tuns[t], t)
    requires AtPc(s, step.h, s.hs[step.h])
    ensures t in Do(s, step).tuns && AtOnce(Do(s, step), Do(s, step).tuns[t], t)
  {
  }

  lemma CloseOnces(s: State, step: Step)
    requires Inv(s) && Enabled(s, step) && InClose(step)
    ensures Onces(Do(s, step))
  {
    var s' := Do(s, step);
    CloseChanges(s, step.h, step);
    assert AtPc(s, step.h, s.hs[step.h]);
    forall t | t in s'.tuns ensures AtOnce(s', s'.tuns[t], t) {
      CloseOnce(s, step, t);
    }
  }

  lemma CloseIndexed(s: State, step: Step)
    requires Inv(s) && Enabled(s, step) && InClose(step)
    ensures Indexed(Do(s, step))
  {
    var s' := Do(s, step);
    CloseChanges(s, step.h, step);
    CloseKeepsOwn(s, step);
    forall p | p in s'.index
      ensures s'.index[p] in s'.tuns && s'.tuns[s'.index[p]].port == p && s'.tuns[s'.index[p]].owner in s'.hs
      ensures s'.hs[s'.tuns[s'.index[p]].owner].HasAt(p, s'.index[p])
    {
    }
    assert forall t :: Open(s', t) ==> Open(s, t);
  }

  /** Closing does not end the handler's hold on its own tunnel. */
  lemma CloseKeepsOwn(s: State, step: Step)
    requires Enabled(s, step) && InClose(step)
    ensures forall p, t :: s.hs[step.h].HasAt(p, t) ==> Do(s, step).hs[step.h].HasAt(p, t)
  {
  }

  // All others.

  lemma OnceStays(s: State, step: Step, t: nat)
    requires Enabled(s, step) && !InClose(step) && t in s.tuns && AtOnce(s, s.tuns[t], t)
    requires step.h in s.hs ==> AtPc(s, step.h, s.hs[step.h])
    ensures t in Do(s, step).tuns && AtOnce(Do(s, step), Do(s, step).tuns[t], t)
  {
  }

  lemma StepOnces(s: State, step: Step)
    requires Inv(s) && Enabled(s, step) && !InClose(step)
    ensures Onces(Do(s, step))
  {
    var s' := Do(s, step);
    forall t | t in s'.tuns ensures AtOnce(s', s'.tuns[t], t) {
      if t in s.tuns {
        OnceStays(s, step, t);
      }
    }
  }

  lemma BindFailsIndexed(s: State, h: nat)
    requires Inv(s) && Enabled(s, BindFails(h))
    ensures Indexed(Do(s, BindFails(h)))
  {
  }

  lemma RegisterIndexed(s: State, h: nat)
    requires Inv(s) && Enabled(s, Register(h))
    ensures Indexed(Do(s, Register(h)))
  {
  }

  lemma UnregisterIndexed(s: State, h: nat)
    requires Inv(s) && Enabled(s, Unregister(h))
    ensures Indexed(Do(s, Unregister(h)))
  {
  }

  lemma BindOkIndexed(s: State, h: nat, t: nat)
    requires Inv(s) && Enabled(s, BindOk(h, t))
    ensures Indexed(Do(s, BindOk(h, t)))
  {
  }

  /** Steps that change neither the index nor a tunnel. */
  predicate Walks(step: Step) {
    !InClose(step) && !InIndex(step) && !step.BindOk?
  }

  lemma WalkIndexed(s: State, step: Step)
    requires Inv(s) && Enabled(s, step) && Walks(step)
    ensures Indexed(Do(s, step))
  {
    var s' := Do(s, step);
    assert s'.index == s.index && s'.tuns == s.tuns;
    forall g | g in s.hs ensures g in s'.hs && (s.hs[g].Registering? ==> s'.hs[g].Registering?)
      && forall p, t :: s.hs[g].HasAt(p, t) ==> s'.hs[g].HasAt(p, t)
    {
      WalkKeepsOwn(s, step, g);
    }
  }

  lemma WalkKeepsOwn(s: State, step: Step, g: nat)
    requires Enabled(s, step) && Walks(step) && g in s.hs
    ensures g in Do(s, step).hs && (s.hs[g].Registering? ==> Do(s, step).hs[g].Registering?)
    ensures forall p, t :: s.hs[g].HasAt(p, t) ==> Do(s, step).hs[g].HasAt(p, t)
  {
  }

  lemma StepIndexed(s: State, step: Step)
    requires Inv(s) && Enabled(s, step) && !InClose(step)
    ensures Indexed(Do(s, step))
  {
    match step
    case BindFails(h) => BindFailsIndexed(s, h);
    case Register(h) => RegisterIndexed(s, h);
    case Unregister(h) => UnregisterIndexed(s, h);
    case BindOk(h, t) => BindOkIndexed(s, h, t);
    case _ => WalkIndexed(s, step);
  }

  lemma IndexPositions(s: State, step: Step)
    requires Inv(s) && Enabled(s, step) && InIndex(step)
    ensures Positions(Do(s, step))
  {
  }

  lemma BindOkPositions(s: State, h: nat, t: nat)
    requires Inv(s) && Enabled(s, BindOk(h, t))
    ensures Positions(Do(s, BindOk(h, t)))
  {
  }

  lemma WalkPositions(s: State, step: Step)
    requires Inv(s) && Enabled(s, step) && Walks(step)
    ensures Positions(Do(s, step))
  {
    var s' := Do(s, step);
    WalkMoved(s, step);
    forall g | g in s'.hs && g != step.h ensures AtPc(s', g, s'.hs[g]) {
      assert AtPc(s, g, s.hs[g]);
      WalkStays(s, step, g);
    }
  }

  lemma WalkMoved(s: State, step: Step)
    requires Inv(s) && Enabled(s, step) && Walks(step)
    ensures AtPc(Do(s, step), step.h, Do(s, step).hs[step.h])
  {
    if step.h in s.hs {
      assert AtPc(s, step.h, s.hs[step.h]);
    }
  }

  lemma WalkStays(s: State, step: Step, g: nat)
    requires Enabled(s, step) && Walks(step) && g in s.hs && g != step.h && AtPc(s, g, s.hs[g])
    ensures g in Do(s, step).hs && AtPc(Do(s, step), g, Do(s, step).hs[g])
  {
    var s' := Do(s, step);
    assert s'.index == s.index && s'.tuns == s.tuns && s'.hs[g] == s.hs[g];
  }

  lemma StepPositions(s: State, step: Step)
    requires Inv(s) && Enabled(s, step) && !InClose(step)
    ensures Positions(Do(s, step))
  {
    if InIndex(step) {
      IndexPositions(s, step);
    } else if step.BindOk? {
      BindOkPositions(s, step.h, step.tun);
    } else {
      WalkPositions(s, step);
    }
  }

  lemma StepInv(s: State, step: Step)
    requires Inv(s) && Enabled(s, step)
    ensures Inv(Do(s, step))
  {
    StepMutex(s, step);
    if InClose(step) {
      ClosePositions(s, step);
      CloseOnces(s, step);
      CloseIndexed(s, step);
    } else {
      StepPositions(s, step);
      StepOnces(s, step);
      StepIndexed(s, step);
    }
  }

  lemma {:induction false} AlwaysInv(tr: seq<State>, i: nat)
    requires Behaviour(tr) && i < |tr|
    ensures Inv(tr[i])
  {
    if i > 0 {
      AlwaysInv(tr, i - 1);
      assert Next(tr[i - 1], tr[i]);
      StepInv(tr[i - 1], Via(tr[i - 1], tr[i]));
    }
  }

  // ---- Main results ----------------------------------------------------------------------------

  /** At most one tunnel holds a port, and it is the registered one -- or, inside the
      critical section of the handler that just bound it, about to be. */
  lemma PortExclusive(tr: seq<State>, i: nat, t: nat, u: nat)
    requires Behaviour(tr) && i < |tr|
    requires Open(tr[i], t) && Open(tr[i], u) && tr[i].tuns[t].port == tr[i].tuns[u].port
    ensures t == u
    ensures var s, p := tr[i], tr[i].tuns[t].port;
            || (p in s.index && s.index[p] == t)
            || (exists h :: h in s.hs && s.mu == Some(h) && s.hs[h] == Registering(p, t))
  {
    AlwaysInv(tr, i);
  }

  /** A bind is never refused because of a tunnel of this relay: when a handler binds, the
      port's previous tunnel is closed, whoever closed it. */
  lemma TakeoverFreesThePort(tr: seq<State>, i: nat, h: nat, u: nat)
    requires Behaviour(tr) && i < |tr| && h in tr[i].hs && tr[i].hs[h].Binding? && u in tr[i].tuns
    ensures tr[i].tuns[u].port == tr[i].hs[h].port ==> !Open(tr[i], u)
  {
    AlwaysInv(tr, i);
  }

  /** `unregister` removes its own tunnel's entry or nothing. */
  lemma UnregistersOnlyItself(tr: seq<State>, i: nat, h: nat, p: nat)
    requires Behaviour(tr) && i < |tr| && Enabled(tr[i], Unregister(h)) && p in tr[i].index
    ensures p in Do(tr[i], Unregister(h)).index <==> tr[i].index[p] != tr[i].hs[h].tun
    ensures tr[i].index[p] == tr[i].hs[h].tun ==> p == tr[i].hs[h].port
  {
    AlwaysInv(tr, i);
  }

  /** However a natural teardown and takeovers interleave, a tunnel is torn down once: never
      twice, and completely by the time anyone's `close` has returned. */
  lemma TornDownOnce(tr: seq<State>, i: nat, t: nat)
    requires Behaviour(tr) && i < |tr| && t in tr[i].tuns
    ensures tr[i].tuns[t].torn <= 1
    ensures tr[i].tuns[t].torn == 1 <==> tr[i].tuns[t].once.Finished?
    ensures tr[i].tuns[t].torn == 1 ==> !tr[i].tuns[t].socket && !tr[i].tuns[t].conn
    ensures forall h :: h in tr[i].hs && tr[i].hs[h] == Done(t) ==> tr[i].tuns[t].torn == 1
  {
    AlwaysInv(tr, i);
  }

  /** Once every handler has finished, nothing is left behind. */
  lemma NothingLeftRegistered(tr: seq<State>, i: nat)
    requires Behaviour(tr) && i < |tr| && forall h :: h in tr[i].hs ==> tr[i].hs[h].Over()
    ensures tr[i].index == map[] && tr[i].mu == None
    ensures forall t :: t in tr[i].tuns ==> tr[i].tuns[t].torn == 1 && !Open(tr[i], t)
  {
    AlwaysInv(tr, i);
    assert tr[i].index.Keys == {};
  }

  /** The handler whose step is next, of those `h` waits for: itself, or the holder of the
      mutex, or the handler that is running the sync.Once. */
  ghost function Blocker(s: State, h: nat): nat
    requires Inv(s) && h in s.hs
  {
    var g := if (s.hs[h].Locking? || s.hs[h].Unregistering?) && s.mu.Some? then s.mu.value else h;
    if s.hs[g].Closing? && s.hs[g].phase.Arriving? && s.tuns[s.hs[g].tun].once.InProgress?
    then s.tuns[s.hs[g].tun].once.runner else g
  }

  /** The step a handler takes next when nothing blocks it. */
  function OwnStep(s: State, h: nat): Step
    requires h in s.hs && !s.hs[h].Over()
  {
    match s.hs[h]
    case Locking(_) => Lock(h)
    case Entering(_) => Inspect(h)
    case Closing(_, Arriving, _) => EnterOnce(h)
    case Closing(_, ClosingConn, _) => CloseConn(h)
    case Closing(_, ClosingSocket, _) => CloseSocket(h)
    case Closing(_, CountingDown, _) => CountTorn(h)
    case Binding(_) => BindFails(h)
    case Registering(_, _) => Register(h)
    case Acking(_, _) => AckOk(h)
    case Running(_, _) => RunEnds(h)
    case Unregistering(_, _) => Unregister(h)
  }

  /** The mutex and the sync.Once cannot deadlock: an unfinished handler can step, or what it
      waits for can. */
  lemma NeverStuck(tr: seq<State>, i: nat, h: nat)
    requires Behaviour(tr) && i < |tr| && h in tr[i].hs && !tr[i].hs[h].Over()
    ensures Inv(tr[i])
    ensures var g := Blocker(tr[i], h);
            g in tr[i].hs && !tr[i].hs[g].Over() && Enabled(tr[i], OwnStep(tr[i], g))
  {
    AlwaysInv(tr, i);
    BlockerSteps(tr[i], h);
  }

  lemma BlockerSteps(s: State, h: nat)
    requires Inv(s) && h in s.hs && !s.hs[h].Over()
    ensures Blocker(s, h) in s.hs && !s.hs[Blocker(s, h)].Over() && Enabled(s, OwnStep(s, Blocker(s, h)))
  {
    var g := Blocker(s, h);
    assert AtPc(s, g, s.hs[g]);
  }

  // ---- What happens to a tunnel, and why ------------------------------------------------------

  ghost predicate Execution(tr: seq<State>, steps: seq<Step>) {
    && |tr| == |steps| + 1
    && Init(tr[0])
    && forall i :: 0 <= i < |steps| ==> Enabled(tr[i], steps[i]) && tr[i + 1] == Do(tr[i], steps[i])
  }

  /** The acknowledgement or the run of its own handler ends, or a takeover finds it on its port. */
  ghost predicate EndsIt(s: State, step: Step, t: nat) {
    step.h in s.hs &&
    match step
    case AckFails(h) => s.hs[h].Acking? && s.hs[h].tun == t
    case RunEnds(h) => s.hs[h].Running? && s.hs[h].tun == t
    case Inspect(h) => s.hs[h].Entering? && s.hs[h].port in s.index && s.index[s.hs[h].port] == t
    case _ => false
  }

  ghost predicate Ended(tr: seq<State>, steps: seq<Step>, n: nat, t: nat)
    requires n <= |steps| < |tr|
  {
    exists i :: 0 <= i < n && EndsIt(tr[i], steps[i], t)
  }

  /** Nothing is closed, or being closed, without such an end. */
  ghost predicate Justified(s: State, t: nat, ended: bool) {
    && (t in s.tuns && (s.tuns[t].once != Fresh || !s.tuns[t].socket || !s.tuns[t].conn) ==> ended)
    && (forall h :: h in s.hs && s.hs[h].Closing? && s.hs[h].tun == t ==> ended)
  }

  lemma StepJustified(s: State, step: Step, t: nat, ended: bool)
    requires Justified(s, t, ended) && Enabled(s, step)
    ensures Justified(Do(s, step), t, ended || EndsIt(s, step, t))
  {
  }

  lemma {:induction false} AlwaysJustified(tr: seq<State>, steps: seq<Step>, n: nat, t: nat)
    requires Execution(tr, steps) && n <= |steps|
    ensures Justified(tr[n], t, Ended(tr, steps, n, t))
  {
    if n > 0 {
      AlwaysJustified(tr, steps, n - 1, t);
      StepJustified(tr[n - 1], steps[n - 1], t, Ended(tr, steps, n - 1, t));
      assert Ended(tr, steps, n, t) <==> Ended(tr, steps, n - 1, t) || EndsIt(tr[n - 1], steps[n - 1], t);
    }
  }

  /** A tunnel keeps its port and its connection until its handler's acknowledgement fails, its run
      ends, or another handler takes its port over. */
  lemma OpenUntilEnded(tr: seq<State>, steps: seq<Step>, n: nat, t: nat)
    requires Execution(tr, steps) && n <= |steps| && t in tr[n].tuns && !Ended(tr, steps, n, t)
    ensures tr[n].tuns[t].socket && tr[n].tuns[t].conn
  {
    AlwaysJustified(tr, steps, n, t);
  }

  /** The handler's tunnel has been acknowledged, and its run has not ended since. */
  ghost predicate Serving(steps: seq<Step>, n: nat, h: nat)
    requires n <= |steps|
  {
    exists i :: 0 <= i < n && steps[i] == AckOk(h) && forall j :: i < j < n ==> steps[j] != RunEnds(h)
  }

  lemma ServingStep(steps: seq<Step>, n: nat, h: nat)
    requires 0 < n <= |steps|
    ensures Serving(steps, n, h) <==>
            steps[n - 1] == AckOk(h) || (Serving(steps, n - 1, h) && steps[n - 1] != RunEnds(h))
  {
    if Serving(steps, n - 1, h) && steps[n - 1] != RunEnds(h) {
      var i :| 0 <= i < n - 1 && steps[i] == AckOk(h) && forall j :: i < j < n - 1 ==> steps[j] != RunEnds(h);
      assert forall j :: i < j < n ==> steps[j] != RunEnds(h);
    }
  }

  lemma RunningStep(s: State, step: Step, h: nat)
    requires Enabled(s, step)
    ensures var s' := Do(s, step);
            h in s'.hs && s'.hs[h].Running? <==>
              step == AckOk(h) || (h in s.hs && s.hs[h].Running? && step != RunEnds(h))
  {
  }

  /** A handler runs its tunnel exactly from its acknowledgement to the end of the run. */
  lemma {:induction false} RunsWhileServing(tr: seq<State>, steps: seq<Step>, n: nat, h: nat)
    requires Execution(tr, steps) && n <= |steps|
    ensures h in tr[n].hs && tr[n].hs[h].Running? <==> Serving(steps, n, h)
  {
    if n > 0 {
      RunsWhileServing(tr, steps, n - 1, h);
      RunningStep(tr[n - 1], steps[n - 1], h);
      ServingStep(steps, n, h);
    }
  }
}
