/** The interleaving that strands a session: the reader stalls for the idle timeout
    between its deciding lookup and `Promote`, and the sweeper evicts the flow meanwhile.
    The session has been started, and nothing ever ends it.
 */
module TunnelLatePromotion {
  import opened FlowTables
  import opened IpCaps
  import opened TunnelSteps
  import opened TunnelIsolation

  const CLIENT := Addr("198.51.100.7", 19132)
  const DATAGRAM := Datagram(CLIENT, [0x84])

  /** Only the client's flow exists; it has sent `n` connected datagrams, the last one now. */
  ghost predicate OneFlow(s: State, n: nat) {
    && CLIENT in s.table.byAddr && s.table.byId == map[0 := CLIENT]
    && s.table.byAddr == map[CLIENT := s.table.byAddr[CLIENT]]
    && var e := s.table.byAddr[CLIENT];
    && e.id == 0 && e.ingress == n && !e.promoted && e.lastSeen == s.clock && s.bound
  }

  ghost predicate NothingReported(s: State) {
    s.log.starts == multiset{} && s.log.ends == multiset{} && s.log.lost == multiset{}
  }

  ghost predicate AllWaiting(s: State) {
    s.reader == Reading && s.sweeper == Waiting && s.run == Receiving
  }

  lemma FirstDatagram() returns (tr: seq<State>)
    ensures Behaviour(tr) && OneFlow(Last(tr), 1) && AllWaiting(Last(tr)) && NothingReported(Last(tr))
  {
    tr := [State(SECOND, Table(0, map[], map[]), Caps(0, map[], 0), 0, Reading, Waiting, Receiving,
                 Log([], multiset{}, multiset{}, multiset{}, multiset{}, [], [], [], {}), true)];
    tr := Extend(tr, Read(DATAGRAM));
    tr := Extend(tr, Lookup(DATAGRAM));
    tr := Extend(tr, Acquire);
    tr := FirstFlow(tr);
  }

  lemma FirstFlow(tr: seq<State>) returns (tr': seq<State>)
    requires Behaviour(tr) && Last(tr).reader == Acquired(DATAGRAM) && Last(tr).table == Table(0, map[], map[])
    requires Last(tr).sweeper == Waiting && Last(tr).run == Receiving && Last(tr).bound && NothingReported(Last(tr))
    ensures Behaviour(tr') && OneFlow(Last(tr'), 1) && AllWaiting(Last(tr')) && NothingReported(Last(tr'))
  {
    tr' := Extend(tr, Create);
    tr' := Extend(tr', CountCreated);
    tr' := Extend(tr', SkipPing);
    tr' := Extend(tr', Forward);
  }

  lemma NextDatagram(tr: seq<State>, n: nat) returns (tr': seq<State>)
    requires Behaviour(tr) && OneFlow(Last(tr), n) && AllWaiting(Last(tr)) && NothingReported(Last(tr))
    requires n + 1 < PROMOTE_THRESHOLD
    ensures Behaviour(tr') && OneFlow(Last(tr'), n + 1) && AllWaiting(Last(tr')) && NothingReported(Last(tr'))
  {
    tr' := Extend(tr, Read(DATAGRAM));
    tr' := Extend(tr', Lookup(DATAGRAM));
    tr' := Extend(tr', SkipPing);
    tr' := Extend(tr', Forward);
  }

  /** The session is started, its `Promote` is still to come, and the flow has been idle
      for the whole timeout. */
  ghost predicate Stalled(s: State, sid: string) {
    && s.reader == Started(0, DATAGRAM, s.clock - IDLE_TTL, sid)
    && s.sweeper == Waiting && s.run == Receiving
    && s.table.byId == map[0 := CLIENT] && s.table.byAddr.Keys == {CLIENT}
    && s.log.starts == multiset{sid} && s.log.ends == multiset{}
    && var e := s.table.byAddr[CLIENT];
    && e.id == 0 && !e.promoted && e.lastSeen == s.clock - IDLE_TTL
  }

  /** The flow is gone and no goroutine owes the session an end. */
  ghost predicate Stranded(s: State, sid: string) {
    && s.table.byAddr == map[]
    && s.log.starts == multiset{sid} && s.log.ends == multiset{}
  }

  lemma StallAfterStart(tr: seq<State>, sid: string) returns (tr': seq<State>)
    requires Behaviour(tr) && OneFlow(Last(tr), 4) && AllWaiting(Last(tr)) && NothingReported(Last(tr))
    ensures Behaviour(tr') && Stalled(Last(tr'), sid)
  {
    tr' := Extend(tr, Read(DATAGRAM));
    tr' := Extend(tr', Lookup(DATAGRAM));
    tr' := Extend(tr', StartSession(sid));
    tr' := Extend(tr', Tick(IDLE_TTL));
  }

  /** The sweeper takes the flow, and the late `Promote` finds nothing. */
  lemma SweepFirst(tr: seq<State>, sid: string) returns (tr': seq<State>)
    requires Behaviour(tr) && Stalled(Last(tr), sid)
    ensures Behaviour(tr') && Stranded(Last(tr'), sid)
    ensures Last(tr').reader.Admitted? && Last(tr').reader.d == DATAGRAM
    ensures Last(tr').sweeper == Releasing({CLIENT}, 1, multiset{}) && Last(tr').run == Receiving
  {
    tr' := Extend(tr, ReadClock);
    var t := Last(tr').table;
    assert t.Expired(Last(tr').clock) == {CLIENT};
    SessionsPick(t.byAddr, {CLIENT}, CLIENT);
    assert {CLIENT} - {CLIENT} == {};
    tr' := Extend(tr', Evict);
    tr' := Extend(tr', StorePromotion);
  }

  lemma StopReading(tr: seq<State>, sid: string) returns (tr': seq<State>)
    requires Behaviour(tr) && Stranded(Last(tr), sid)
    requires Last(tr).reader.Admitted? && Last(tr).reader.d == DATAGRAM
    ensures Behaviour(tr') && Stranded(Last(tr'), sid) && Last(tr').reader == ReaderDone
    ensures Last(tr').sweeper == Last(tr).sweeper && Last(tr').run == Last(tr).run
  {
    tr' := Extend(tr, SkipPing);
    tr' := Extend(tr', Forward);
    tr' := Extend(tr', StopReader);
  }

  lemma StopPumps(tr: seq<State>, sid: string) returns (tr': seq<State>)
    requires Behaviour(tr) && Stranded(Last(tr), sid)
    requires Last(tr).reader.Admitted? && Last(tr).reader.d == DATAGRAM
    requires Last(tr).sweeper == Releasing({CLIENT}, 1, multiset{}) && Last(tr).run == Receiving
    ensures Behaviour(tr') && Stranded(Last(tr'), sid)
    ensures Last(tr').reader == ReaderDone && Last(tr').sweeper == SweeperDone && Last(tr').run == Receiving
  {
    tr' := StopReading(tr, sid);
    tr' := Extend(tr', Release(CLIENT));
    tr' := Extend(tr', CountEvicted);
    tr' := Extend(tr', SweepAgain);
    tr' := Extend(tr', StopSweeper);
  }

  lemma JoinAll(tr: seq<State>, sid: string) returns (tr': seq<State>)
    requires Behaviour(tr) && Stranded(Last(tr), sid)
    requires Last(tr).reader == ReaderDone && Last(tr).sweeper == SweeperDone && Last(tr).run == Receiving
    ensures Behaviour(tr') && Stranded(Last(tr'), sid) && Last(tr').run == Draining
  {
    tr' := Extend(tr, StopReceiving);
    tr' := Extend(tr', Close);
    tr' := Extend(tr', JoinPumps);
    tr' := Extend(tr', JoinSweeper);
  }

  lemma DrainNothing(tr: seq<State>, sid: string) returns (tr': seq<State>)
    requires Behaviour(tr) && Stranded(Last(tr), sid) && Last(tr).run == Draining
    ensures Behaviour(tr') && Stranded(Last(tr'), sid) && Last(tr').run.Returned?
  {
    assert Last(tr).table.byAddr.Keys == {};
    tr' := Extend(tr, Drain);
    tr' := Extend(tr', CountDrained);
    tr' := Extend(tr', Return);
  }

  /** A complete behaviour whose one session is started and never ended. */
  lemma LatePromotionStrandsSession(sid: string) returns (tr: seq<State>)
    ensures Behaviour(tr) && Last(tr).run.Returned?
    ensures Last(tr).log.starts[sid] == 1 && Last(tr).log.ends[sid] == 0
  {
    tr := FirstDatagram();
    tr := NextDatagram(tr, 1);
    tr := NextDatagram(tr, 2);
    tr := NextDatagram(tr, 3);
    tr := StallAfterStart(tr, sid);
    tr := SweepFirst(tr, sid);
    tr := StopPumps(tr, sid);
    tr := JoinAll(tr, sid);
    tr := DrainNothing(tr, sid);
  }
}
