/** What a tunnel does with everything that reaches it: over every execution, each reply of a live
    flow goes to its client, each datagram is forwarded or dropped for a reason, and a flow is
    evicted exactly when nothing has touched it for the idle timeout.

    An execution is a behaviour together with its steps, so that what happened can be counted without
    looking at what the steps did about it.
 */
module TunnelHistory {
  import opened FlowTables
  import opened TunnelSteps
  import opened TunnelIsolation
  import opened TunnelPingWindow

  ghost predicate Execution(tr: seq<State>, steps: seq<Step>) {
    && |tr| == |steps| + 1
    && Init(tr[0])
    && forall i :: 0 <= i < |steps| ==> Enabled(tr[i], steps[i]) && tr[i + 1] == Do(tr[i], steps[i])
  }

  lemma ExecutionIsBehaviour(tr: seq<State>, steps: seq<Step>)
    requires Execution(tr, steps)
    ensures Behaviour(tr)
  {
    forall i | 0 <= i < |tr| - 1 ensures Next(tr[i], tr[i + 1]) {
      assert Enabled(tr[i], steps[i]) && tr[i + 1] == Do(tr[i], steps[i]);
    }
  }

  /** Every behaviour is that of an execution. */
  lemma BehaviourIsExecution(tr: seq<State>) returns (steps: seq<Step>)
    requires Behaviour(tr)
    ensures Execution(tr, steps)
  {
    steps := seq(|tr| - 1, i requires 0 <= i < |tr| - 1 && Next(tr[i], tr[i + 1]) => Via(tr[i], tr[i + 1]));
  }

  /** How often it happened among the first `n` steps. */
  ghost function Times(tr: seq<State>, steps: seq<Step>, n: nat, event: (State, Step) -> bool): nat
    requires n <= |steps| < |tr|
  {
    if n == 0 then 0
    else Times(tr, steps, n - 1, event) + if event(tr[n - 1], steps[n - 1]) then 1 else 0
  }

  // ---- Replies ---------------------------------------------------------------------------------

  /** A datagram of the Worker carries the id of a live flow of `a`. */
  ghost function RepliesTo(a: Addr): (State, Step) -> bool {
    (s: State, step: Step) => step.Receive? && s.table.Live(step.id) && s.table.byId[step.id] == a
  }

  ghost function FailedWritesTo(a: Addr): (State, Step) -> bool {
    (s: State, step: Step) => step.WriteFails? && s.run.Writing? && s.run.to == a
  }

  function DeliveriesTo(log: seq<Delivery>, a: Addr): nat {
    if log == [] then 0 else DeliveriesTo(log[..|log| - 1], a) + if log[|log| - 1].to == a then 1 else 0
  }

  function WritingTo(r: Run, a: Addr): nat {
    if r.Writing? && r.to == a then 1 else 0
  }

  lemma DeliveryAdds(log: seq<Delivery>, x: Delivery, a: Addr)
    ensures DeliveriesTo(log + [x], a) == DeliveriesTo(log, a) + if x.to == a then 1 else 0
  {
    assert (log + [x])[..|log|] == log;
  }

  lemma ReplyStep(s: State, step: Step, a: Addr)
    requires Enabled(s, step)
    ensures
      var s' := Do(s, step);
      DeliveriesTo(s'.log.delivered, a) + WritingTo(s'.run, a) + (if FailedWritesTo(a)(s, step) then 1 else 0)
      == DeliveriesTo(s.log.delivered, a) + WritingTo(s.run, a) + (if RepliesTo(a)(s, step) then 1 else 0)
  {
    if step.WriteTo? {
      DeliveryAdds(s.log.delivered, Delivery(s.run.id, s.run.to), a);
    } else {
      NoDelivery(s, step);
      if !step.Receive? && !step.WriteFails? {
        NoWrite(s, step, a);
      }
    }
  }

  lemma NoDelivery(s: State, step: Step)
    requires Enabled(s, step) && !step.WriteTo?
    ensures Do(s, step).log.delivered == s.log.delivered
  {
  }

  lemma NoWrite(s: State, step: Step, a: Addr)
    requires Enabled(s, step) && !step.WriteTo? && !step.WriteFails? && !step.Receive?
    ensures WritingTo(Do(s, step).run, a) == WritingTo(s.run, a)
  {
  }

  /** Every reply that carries the id of a live flow is written to that flow's client: it has been
      delivered, or its write has failed, or it is being written now. */
  lemma {:induction false} RepliesAreDelivered(tr: seq<State>, steps: seq<Step>, n: nat, a: Addr)
    requires Execution(tr, steps) && n <= |steps|
    ensures Times(tr, steps, n, RepliesTo(a))
         == DeliveriesTo(tr[n].log.delivered, a) + Times(tr, steps, n, FailedWritesTo(a)) + WritingTo(tr[n].run, a)
  {
    if n > 0 {
      RepliesAreDelivered(tr, steps, n - 1, a);
      ReplyStep(tr[n - 1], steps[n - 1], a);
    }
  }

  // ---- Datagrams -------------------------------------------------------------------------------------

  ghost function ReadsOf(d: Datagram): (State, Step) -> bool {
    (s: State, step: Step) => step == Read(d)
  }

  /** The per-IP caps reject a new flow for it, or it is a ping that its flow's window does not
      let pass. */
  ghost function DropsOf(d: Datagram): (State, Step) -> bool {
    (s: State, step: Step) =>
      || (step.Reject? && s.reader == Missed(d))
      || (step.CheckPing? && s.reader.Admitted? && s.reader.d == d
          && !(s.table.Live(s.reader.id) && Passes(Entry(s, s.reader.id), s.clock)))
  }

  function FramesOf(frames: seq<(nat, Datagram)>, d: Datagram): nat {
    if frames == [] then 0 else FramesOf(frames[..|frames| - 1], d) + if frames[|frames| - 1].1 == d then 1 else 0
  }

  function InHand(r: Reader, d: Datagram): nat {
    if !r.Reading? && !r.ReaderDone? && r.d == d then 1 else 0
  }

  lemma FrameAdds(frames: seq<(nat, Datagram)>, f: (nat, Datagram), d: Datagram)
    ensures FramesOf(frames + [f], d) == FramesOf(frames, d) + if f.1 == d then 1 else 0
  {
    assert (frames + [f])[..|frames|] == frames;
  }

  lemma DatagramStep(s: State, step: Step, d: Datagram)
    requires Enabled(s, step)
    ensures
      var s' := Do(s, step);
      FramesOf(s'.log.frames, d) + InHand(s'.reader, d) + (if DropsOf(d)(s, step) then 1 else 0)
      == FramesOf(s.log.frames, d) + InHand(s.reader, d) + (if ReadsOf(d)(s, step) then 1 else 0)
  {
    if step.Forward? {
      FrameAdds(s.log.frames, (s.reader.id, s.reader.d), d);
    } else {
      NoFrame(s, step);
      if step.CheckPing? {
        CheckKeeps(s, d);
      } else if !step.Read? && !step.Reject? {
        SameInHand(s, step, d);
      }
    }
  }

  lemma NoFrame(s: State, step: Step)
    requires Enabled(s, step) && !step.Forward?
    ensures Do(s, step).log.frames == s.log.frames
  {
  }

  lemma CheckKeeps(s: State, d: Datagram)
    requires Enabled(s, CheckPing)
    ensures InHand(Do(s, CheckPing).reader, d) + (if DropsOf(d)(s, CheckPing) then 1 else 0) == InHand(s.reader, d)
  {
  }

  lemma SameInHand(s: State, step: Step, d: Datagram)
    requires Enabled(s, step) && !step.Forward? && !step.CheckPing? && !step.Read? && !step.Reject?
    ensures InHand(Do(s, step).reader, d) == InHand(s.reader, d)
  {
  }

  /** Every datagram read is forwarded, once, or dropped by the caps or the ping limit, or it is
      in the reader's hand. */
  lemma {:induction false} DatagramsAreForwarded(tr: seq<State>, steps: seq<Step>, n: nat, d: Datagram)
    requires Execution(tr, steps) && n <= |steps|
    ensures Times(tr, steps, n, ReadsOf(d))
         == FramesOf(tr[n].log.frames, d) + Times(tr, steps, n, DropsOf(d)) + InHand(tr[n].reader, d)
  {
    if n > 0 {
      DatagramsAreForwarded(tr, steps, n - 1, d);
      DatagramStep(tr[n - 1], steps[n - 1], d);
    }
  }

  // ---- Idle flows --------------------------------------------------------------------------------------

  /** A datagram of its client, its creation, or a reply: what keeps a flow alive. */
  ghost predicate Touches(s: State, step: Step, id: nat) {
    match step
    case Lookup(d) => d.from in s.table.byAddr && s.table.byAddr[d.from].id == id
    case Create => s.table.nextId == id
    case Receive(i) => i == id && s.table.Live(id)
    case _ => false
  }

  /** `at` is when the flow was last touched. */
  ghost predicate LastTouched(tr: seq<State>, steps: seq<Step>, n: nat, id: nat, at: Time)
    requires n <= |steps| < |tr|
  {
    && (exists i :: 0 <= i < n && Touches(tr[i], steps[i], id) && tr[i].clock == at)
    && (forall i :: 0 <= i < n && Touches(tr[i], steps[i], id) ==> tr[i].clock <= at)
  }

  ghost predicate SameSeen(s: State, s': State, id: nat) {
    s'.table.Live(id) ==> s.table.Live(id) && Entry(s', id).lastSeen == Entry(s, id).lastSeen
  }

  /** What a touch leaves behind, and what any other step leaves alone. */
  ghost predicate SeenRight(s: State, step: Step, id: nat)
    requires Enabled(s, step)
  {
    var s' := Do(s, step);
    if Touches(s, step, id) then s'.table.Live(id) ==> Entry(s', id).lastSeen == s.clock else SameSeen(s, s', id)
  }

  lemma LookupSeen(s: State, d: Datagram, id: nat)
    requires Ids(s) && Enabled(s, Lookup(d))
    ensures SeenRight(s, Lookup(d), id)
  {
    if d.from in s.table.byAddr {
      assert s.table.byId[s.table.byAddr[d.from].id] == d.from;
    }
  }

  lemma CreateSeen(s: State, id: nat)
    requires Ids(s) && Enabled(s, Create) && |s.log.owners| < ID_SPACE
    ensures SeenRight(s, Create, id)
  {
  }

  lemma ReceiveSeen(s: State, i: nat, id: nat)
    requires Ids(s) && Enabled(s, Receive(i))
    ensures SeenRight(s, Receive(i), id)
  {
    if s.table.Live(id) && s.table.Live(i) && i != id {
      assert s.table.byId[i] != s.table.byId[id];
    }
  }

  lemma OtherSeen(s: State, step: Step, id: nat)
    requires Enabled(s, step) && !step.Lookup? && !step.Create? && !step.Receive?
    ensures SeenRight(s, step, id)
  {
    match step
    case StorePromotion => PromoteSeen(s, id);
    case CheckPing => CheckSeen(s, id);
    case Evict => EvictSeen(s, id);
    case Drain =>
    case _ => TableKept(s, step);
  }

  lemma PromoteSeen(s: State, id: nat)
    requires Enabled(s, StorePromotion)
    ensures SameSeen(s, Do(s, StorePromotion), id)
  {
  }

  lemma CheckSeen(s: State, id: nat)
    requires Enabled(s, CheckPing)
    ensures SameSeen(s, Do(s, CheckPing), id)
  {
  }

  lemma EvictSeen(s: State, id: nat)
    requires Enabled(s, Evict)
    ensures SameSeen(s, Do(s, Evict), id)
  {
  }

  lemma StepSeen(s: State, step: Step, id: nat)
    requires Ids(s) && Enabled(s, step) && (step.Create? ==> |s.log.owners| < ID_SPACE)
    ensures SeenRight(s, step, id)
  {
    match step
    case Lookup(d) => LookupSeen(s, d, id);
    case Create => CreateSeen(s, id);
    case Receive(i) => ReceiveSeen(s, i, id);
    case _ => OtherSeen(s, step, id);
  }

  lemma ClockGrows(s: State, step: Step)
    requires Enabled(s, step)
    ensures s.clock <= Do(s, step).clock
  {
  }

  lemma {:induction false} Monotone(tr: seq<State>, steps: seq<Step>, i: nat, j: nat)
    requires Execution(tr, steps) && i <= j < |tr|
    ensures tr[i].clock <= tr[j].clock
    decreases j
  {
    if i < j {
      Monotone(tr, steps, i, j - 1);
      ClockGrows(tr[j - 1], steps[j - 1]);
    }
  }

  lemma TouchedNow(tr: seq<State>, steps: seq<Step>, n: nat, id: nat)
    requires Execution(tr, steps) && n < |steps| && Touches(tr[n], steps[n], id)
    ensures LastTouched(tr, steps, n + 1, id, tr[n].clock)
  {
    forall i | 0 <= i < n + 1 ensures tr[i].clock <= tr[n].clock {
      Monotone(tr, steps, i, n);
    }
  }

  /** A live flow's deadline counts from the last thing that touched it. */
  lemma {:induction false} SeenIsLastTouch(tr: seq<State>, steps: seq<Step>, n: nat, id: nat)
    requires Execution(tr, steps) && FewCreations(tr) && n <= |steps| && tr[n].table.Live(id)
    ensures LastTouched(tr, steps, n, id, Entry(tr[n], id).lastSeen)
  {
    ExecutionIsBehaviour(tr, steps);
    var m := n - 1;
    AlwaysIds(tr, m);
    OwnersPrefix(tr, n, |tr| - 1);
    CreationRoom(tr[m], steps[m]);
    StepSeen(tr[m], steps[m], id);
    if Touches(tr[m], steps[m], id) {
      TouchedNow(tr, steps, m, id);
    } else {
      SeenIsLastTouch(tr, steps, m, id);
    }
  }

  lemma CreationRoom(s: State, step: Step)
    requires Enabled(s, step) && |Do(s, step).log.owners| <= ID_SPACE
    ensures step.Create? ==> |s.log.owners| < ID_SPACE
  {
  }

  /** A sweep takes a flow if and only if, for the idle timeout before the sweep read its clock,
      no datagram of its client and no reply has touched it. */
  lemma EvictedIffIdle(tr: seq<State>, steps: seq<Step>, n: nat, id: nat)
    requires Execution(tr, steps) && FewCreations(tr) && n < |steps| && steps[n] == Evict && tr[n].table.Live(id)
    ensures !tr[n + 1].table.Live(id) <==>
            forall i :: 0 <= i < n && Touches(tr[i], steps[i], id) ==> tr[n].sweeper.now - tr[i].clock >= IDLE_TTL
  {
    ExecutionIsBehaviour(tr, steps);
    SeenIsLastTouch(tr, steps, n, id);
    AlwaysIds(tr, n);
    EvictTakes(tr[n], id);
  }

  lemma EvictTakes(s: State, id: nat)
    requires Ids(s) && Enabled(s, Evict) && s.table.Live(id)
    ensures !Do(s, Evict).table.Live(id) <==> s.sweeper.now - Entry(s, id).lastSeen >= IDLE_TTL
  {
    var a, gone := s.table.byId[id], s.table.Expired(s.sweeper.now);
    assert a in gone <==> s.sweeper.now - Entry(s, id).lastSeen >= IDLE_TTL;
    assert id in s.table.IdsOf(gone) <==> a in gone by {
      assert forall b :: b in gone && s.table.byAddr[b].id == id ==> b == a;
    }
  }
}
