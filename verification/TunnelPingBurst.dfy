/** Why the bound needs the rest of a window: the rate window is fixed, so pings at the end of
    one window and at the start of the next add up. Nine pings of one flow can be forwarded
    within a single second, although each window admits five; and the bound is attained for
    every whole number of seconds.
 */
module TunnelPingBurst {
  import opened FlowTables
  import opened IpCaps
  import opened TunnelSteps
  import opened TunnelIsolation
  import opened TunnelPings
  import opened TunnelPingWindow

  const CLIENT := Addr("198.51.100.7", 19132)
  const PING := Datagram(CLIENT, [0x01])

  /** The first client's first ping, one second past the zero time. */
  lemma FirstPing(lo: Time, hi: Time) returns (tr: seq<State>)
    requires SECOND < lo
    ensures Behaviour(tr) && FewCreations(tr) && Ready(Last(tr), 0) && Last(tr).clock == SECOND
    ensures SameWindow(Entry(Last(tr), 0), Flow(0, CLIENT, SECOND, SECOND, 1, 0, false, ""))
    ensures Forwarded(Last(tr), 0, lo, hi) == 0
  {
    tr := [State(SECOND, Table(0, map[], map[]), Caps(0, map[], 0), 0, Reading, Waiting, Receiving,
                 Log([], multiset{}, multiset{}, multiset{}, multiset{}, [], [], [], {}), true)];
    tr := Extend(tr, Read(PING));
    tr := Extend(tr, Lookup(PING));
    tr := Extend(tr, Acquire);
    tr := FirstFlow(tr);
    tr := PassFirst(tr, lo, hi);
  }

  lemma FirstFlow(tr: seq<State>) returns (tr': seq<State>)
    requires Behaviour(tr) && Last(tr).reader == Acquired(PING) && Last(tr).table == Table(0, map[], map[])
    requires Last(tr).log.owners == []
    ensures Continues(tr, tr') && Last(tr').reader == Admitted(0, PING, Last(tr).clock)
    ensures Last(tr').log.owners == [CLIENT]
    ensures Last(tr').clock == Last(tr).clock && Last(tr').bound == Last(tr).bound
    ensures Last(tr').log.pings == Last(tr).log.pings
    ensures Last(tr').table.Live(0)
    ensures Entry(Last(tr'), 0) == Flow(0, CLIENT, Last(tr).clock, ZERO_TIME, 0, 0, false, "")
  {
    tr' := Extend(tr, Create);
    tr' := Extend(tr', CountCreated);
  }

  lemma PassFirst(tr: seq<State>, lo: Time, hi: Time) returns (tr': seq<State>)
    requires Behaviour(tr) && FewCreations(tr)
    requires Last(tr).reader == Admitted(0, PING, SECOND) && Last(tr).clock == SECOND < lo
    requires Last(tr).bound && Last(tr).table.Live(0) && Last(tr).log.pings == []
    requires Entry(Last(tr), 0) == Flow(0, CLIENT, SECOND, ZERO_TIME, 0, 0, false, "")
    ensures Continues(tr, tr') && Ready(Last(tr'), 0) && Last(tr').clock == SECOND
    ensures SameWindow(Entry(Last(tr'), 0), Flow(0, CLIENT, SECOND, SECOND, 1, 0, false, ""))
    ensures Forwarded(Last(tr'), 0, lo, hi) == 0
  {
    var p := CheckAndForward(Last(tr), 0);
    tr' := Extend(tr, CheckPing);
    tr' := Extend(tr', Forward);
    CountMore(Last(tr).log.pings, p, 0, lo, hi);
  }

  /** Four more pings at the very end of the first window. */
  lemma UseUpWindow(hi: Time) returns (tr: seq<State>)
    requires 2 * SECOND - 1 < hi
    ensures Behaviour(tr) && FewCreations(tr) && Ready(Last(tr), 0) && Last(tr).clock == 2 * SECOND - 1
    ensures Entry(Last(tr), 0).pingWindowStart == SECOND
    ensures Forwarded(Last(tr), 0, 2 * SECOND - 1, hi) == PINGS_PER_SECOND - 1
  {
    var lo := 2 * SECOND - 1;
    tr := FirstPing(lo, hi);
    tr := Wait(tr, SECOND - 1);
    tr := ForwardPing(tr, 0, lo, hi);
    tr := ForwardPing(tr, 0, lo, hi);
    tr := ForwardPing(tr, 0, lo, hi);
    tr := ForwardPing(tr, 0, lo, hi);
  }

  /** A window's worth in each of the `n` seconds that follow. */
  lemma {:induction false} FillWindows(n: nat, hi: Time) returns (tr: seq<State>)
    requires (n + 1) * SECOND < hi && 2 * SECOND - 1 < hi
    ensures Behaviour(tr) && FewCreations(tr) && Ready(Last(tr), 0)
    ensures Entry(Last(tr), 0).pingWindowStart == (n + 1) * SECOND
    ensures Last(tr).clock <= (n + 2) * SECOND
    ensures Forwarded(Last(tr), 0, 2 * SECOND - 1, hi) == PINGS_PER_SECOND * n + PINGS_PER_SECOND - 1
  {
    if n == 0 {
      tr := UseUpWindow(hi);
    } else {
      tr := FillWindows(n - 1, hi);
      tr := Wait(tr, (n + 1) * SECOND - Last(tr).clock);
      tr := FillWindow(tr, 0, 2 * SECOND - 1, hi);
    }
  }

  /** The bound on one flow's pings is attained in every whole number of seconds. */
  lemma BoundIsAttained(seconds: nat) returns (tr: seq<State>, lo: Time)
    requires seconds > 0
    ensures Behaviour(tr) && FewCreations(tr)
    ensures CountWithin(PingsOn(Last(tr).log.pings, 0), lo, lo + seconds * SECOND) == Most(seconds * SECOND)
  {
    lo := 2 * SECOND - 1;
    tr := FillWindows(seconds, lo + seconds * SECOND);
    assert Ceil(seconds * SECOND) == seconds;
  }

  lemma NinePingsInOneSecond() returns (tr: seq<State>, lo: Time)
    ensures Behaviour(tr) && FewCreations(tr)
    ensures CountWithin(PingsOn(Last(tr).log.pings, 0), lo, lo + SECOND) == 9 > PINGS_PER_SECOND
  {
    tr, lo := BoundIsAttained(1);
  }
}
