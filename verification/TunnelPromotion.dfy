/** When a session is started: with the fifth connected datagram of a flow, and only then. */
module TunnelPromotion {
  import opened FlowTables
  import opened TunnelSteps
  import opened TunnelIsolation
  import opened TunnelSessions
  import opened TunnelPingWindow

  /** The connected datagrams forwarded under an id. */
  function ConnectedOf(frames: seq<(nat, Datagram)>, id: nat): nat {
    if frames == [] then 0
    else
      ConnectedOf(frames[..|frames| - 1], id) + Counted(frames[|frames| - 1], id)
  }

  /** One for a connected datagram of flow `id`. */
  function Counted(f: (nat, Datagram), id: nat): nat {
    if f.0 == id && f.1.Connected() then 1 else 0
  }

  lemma ConnectedAdds(frames: seq<(nat, Datagram)>, f: (nat, Datagram), id: nat)
    ensures ConnectedOf(frames + [f], id) == ConnectedOf(frames, id) + Counted(f, id)
  {
    assert (frames + [f])[..|frames|] == frames;
  }

  lemma {:induction false} NoneYet(frames: seq<(nat, Datagram)>, id: nat)
    requires forall f :: f in frames ==> f.0 != id
    ensures ConnectedOf(frames, id) == 0
  {
    if frames != [] {
      assert frames[|frames| - 1] in frames;
      NoneYet(frames[..|frames| - 1], id);
    }
  }

  /** The reader works on a connected datagram of flow `id`. */
  function Working(r: Reader, id: nat): nat {
    if (r.Created? || r.Promoting? || r.Started? || r.Admitted? || r.Forwarding?) && r.id == id && r.d.Connected()
    then 1 else 0
  }

  /** The connected datagrams that have reached the flow. */
  function Arrived(s: State, id: nat): nat {
    ConnectedOf(s.log.frames, id) + Working(s.reader, id)
  }

  /** The flow's session has been started, or is about to be. */
  predicate Fired(s: State, id: nat) {
    s.log.fired[id] > 0 || (s.reader.Promoting? && s.reader.id == id)
  }

  function AtMost(n: nat, max: nat): nat {
    if n < max then n else max
  }

  ghost predicate Counts(s: State, id: nat) {
    && (s.table.Live(id) ==> Entry(s, id).ingress == AtMost(Arrived(s, id), PROMOTE_THRESHOLD))
    && (Fired(s, id) <==> Arrived(s, id) >= PROMOTE_THRESHOLD)
  }

  // ---- One step --------------------------------------------------------------------------------

  lemma LookupCounts(s: State, d: Datagram, id: nat)
    requires Ids(s) && Counts(s, id) && Enabled(s, Lookup(d))
    ensures Counts(Do(s, Lookup(d)), id)
  {
    if d.from in s.table.byAddr {
      var i := s.table.byAddr[d.from].id;
      assert s.table.byId[i] == d.from;
      if s.table.Live(id) && id != i {
        assert s.table.byId[id] != d.from;
      }
    }
  }

  lemma CreateCounts(s: State, id: nat)
    requires Ids(s) && Fires(s) && Enabled(s, Create) && |s.log.owners| < ID_SPACE
    requires id < |s.log.owners| ==> Counts(s, id)
    requires id <= |s.log.owners|
    ensures Counts(Do(s, Create), id)
  {
    if id == |s.log.owners| {
      NoneYet(s.log.frames, id);
      NewCounts(s, id);
    } else {
      OldCounts(s, id);
    }
  }

  lemma NewCounts(s: State, id: nat)
    requires Ids(s) && Fires(s) && Enabled(s, Create) && id == |s.log.owners| < ID_SPACE
    requires ConnectedOf(s.log.frames, id) == 0
    ensures Counts(Do(s, Create), id)
  {
    assert s.table.nextId == id;
  }

  lemma OldCounts(s: State, id: nat)
    requires Ids(s) && Enabled(s, Create) && id < |s.log.owners| < ID_SPACE && Counts(s, id)
    ensures Counts(Do(s, Create), id)
  {
    assert s.table.nextId != id;
  }

  /** Forwarding, promoting and pinging move no datagram to another flow and count none. */
  ghost predicate SameCounts(s: State, s': State, id: nat) {
    && Arrived(s', id) == Arrived(s, id) && (Fired(s', id) <==> Fired(s, id))
    && (s'.table.Live(id) ==> s.table.Live(id) && Entry(s', id).ingress == Entry(s, id).ingress)
  }

  lemma ForwardCounts(s: State, id: nat)
    requires Enabled(s, Forward)
    ensures SameCounts(s, Do(s, Forward), id)
  {
    ConnectedAdds(s.log.frames, (s.reader.id, s.reader.d), id);
    ForwardingIsCounted(s.reader, id);
  }

  lemma ForwardingIsCounted(r: Reader, id: nat)
    requires r.Forwarding?
    ensures Working(r, id) == Counted((r.id, r.d), id)
  {
  }

  lemma StoreCounts(s: State, id: nat)
    requires Enabled(s, StorePromotion)
    ensures SameCounts(s, Do(s, StorePromotion), id)
  {
  }

  lemma PingCounts(s: State, id: nat)
    requires Enabled(s, CheckPing)
    ensures SameCounts(s, Do(s, CheckPing), id)
  {
  }

  lemma EvictCounts(s: State, id: nat)
    requires Enabled(s, Evict)
    ensures SameCounts(s, Do(s, Evict), id)
  {
  }

  lemma ReceiveCounts(s: State, i: nat, id: nat)
    requires Enabled(s, Receive(i))
    ensures SameCounts(s, Do(s, Receive(i)), id)
  {
  }

  lemma StartCounts(s: State, sid: string, id: nat)
    requires Enabled(s, StartSession(sid))
    ensures SameCounts(s, Do(s, StartSession(sid)), id)
  {
  }

  /** Steps that leave the flows, the frames and the firings alone. */
  predicate Bystander(step: Step) {
    Quiet(step) && !step.Evict? && !step.Drain? && !step.Forward?
  }

  lemma BystanderCounts(s: State, step: Step, id: nat)
    requires Enabled(s, step) && Bystander(step)
    ensures SameCounts(s, Do(s, step), id)
  {
    var s' := Do(s, step);
    assert s'.table == s.table && s'.log.frames == s.log.frames && s'.log.fired == s.log.fired;
    SameWork(s, step, id);
  }

  lemma SameWork(s: State, step: Step, id: nat)
    requires Enabled(s, step) && Bystander(step)
    ensures var s' := Do(s, step);
            && Working(s'.reader, id) == Working(s.reader, id)
            && (s'.reader.Promoting? <==> s.reader.Promoting?)
            && (s.reader.Promoting? ==> s'.reader.id == s.reader.id)
  {
  }

  lemma StepCounts(s: State, step: Step, id: nat)
    requires Ids(s) && Fires(s) && Enabled(s, step) && (step.Create? ==> |s.log.owners| < ID_SPACE)
    requires id < |s.log.owners| ==> Counts(s, id)
    requires id < |Do(s, step).log.owners|
    ensures Counts(Do(s, step), id)
  {
    OwnersGrow(s, step);
    match step
    case Lookup(d) => LookupCounts(s, d, id);
    case Create => CreateCounts(s, id);
    case Forward => ForwardCounts(s, id);
    case _ => StepSameCounts(s, step, id);
  }

  lemma StepSameCounts(s: State, step: Step, id: nat)
    requires Enabled(s, step) && !step.Lookup? && !step.Create? && !step.Forward?
    ensures SameCounts(s, Do(s, step), id)
  {
    match step
    case StorePromotion => StoreCounts(s, id);
    case CheckPing => PingCounts(s, id);
    case StartSession(sid) => StartCounts(s, sid, id);
    case Receive(i) => ReceiveCounts(s, i, id);
    case Evict => EvictCounts(s, id);
    case Drain =>
    case _ => BystanderCounts(s, step, id);
  }

  // ---- Whole behaviours ------------------------------------------------------------------------------

  lemma {:induction false} AlwaysCounts(tr: seq<State>, i: nat, id: nat)
    requires Behaviour(tr) && FewCreations(tr) && i < |tr| && id < |tr[i].log.owners|
    ensures Counts(tr[i], id)
  {
    assert i > 0;
    AlwaysIds(tr, i - 1);
    AlwaysSound(tr, i - 1);
    OwnersPrefix(tr, i, |tr| - 1);
    assert Next(tr[i - 1], tr[i]);
    if id < |tr[i - 1].log.owners| {
      AlwaysCounts(tr, i - 1, id);
    }
    NextCounts(tr[i - 1], tr[i], id);
  }

  lemma NextCounts(s: State, s': State, id: nat)
    requires Ids(s) && Fires(s) && Next(s, s') && |s'.log.owners| <= ID_SPACE && id < |s'.log.owners|
    requires id < |s.log.owners| ==> Counts(s, id)
    ensures Counts(s', id)
  {
    var step := Via(s, s');
    OwnersGrow(s, step);
    assert step.Create? ==> |s'.log.owners| == |s.log.owners| + 1;
    StepCounts(s, step, id);
  }

  /** With nothing in the reader's hand, a flow has started its one session if and only if five of
      its datagrams were connected ones. */
  lemma PromotedOnFifth(tr: seq<State>, id: nat)
    requires Behaviour(tr) && FewCreations(tr) && id < |Last(tr).log.owners|
    requires Last(tr).reader.Reading? || Last(tr).reader.ReaderDone?
    ensures Last(tr).log.fired[id] ==
              if ConnectedOf(Last(tr).log.frames, id) >= PROMOTE_THRESHOLD then 1 else 0
  {
    AlwaysCounts(tr, |tr| - 1, id);
    PromotionFiresOnce(tr, id);
  }
}
