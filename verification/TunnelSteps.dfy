/** One bound Bedrock tunnel as a step system (relay/internal/bedrock/tunnel.go).

    The UDP reader, the idle sweeper and `run` itself (which is the QUIC receiver until it
    starts the teardown) interleave freely; each locked section, clock reading, cap
    operation, reporter call and metric update is one atomic step. The hand-over of
    admitted frames to the QUIC sender is the subject of FrameQueue.dfy.
 */
module TunnelSteps {
  import opened Wrappers
  import opened FlowTables
  import opened IpCaps
  import FrameQueue

  datatype Datagram = Datagram(from: Addr, payload: seq<FrameQueue.byte>) {
    /** RakNet FLAG_VALID: only connected datagrams advance promotion. */
    predicate Connected() {
      |payload| > 0 && payload[0] >= 0x80
    }

    predicate UnconnectedPing() {
      |payload| > 0 && payload[0] == 0x01
    }
  }

  // ---- Goroutine states -----------------------------------------------------------------

  /** `seen` is when the datagram's lookup (or creation) refreshed its flow. */
  datatype Reader =
    | Reading
    | Holding(d: Datagram)
    | Missed(d: Datagram)
    | Acquired(d: Datagram)
    | Created(id: nat, d: Datagram, seen: Time)
    | Promoting(id: nat, d: Datagram, seen: Time)
    | Started(id: nat, d: Datagram, seen: Time, sid: string)
    | Admitted(id: nat, d: Datagram, seen: Time)
    | Forwarding(id: nat, d: Datagram)
    | ReaderDone

  /** The sweeper reads the clock before it takes the table's lock. */
  datatype Sweeper =
    | Waiting
    | Evicting(now: Time)
    | Releasing(pending: set<Addr>, count: nat, owed: multiset<string>)
    | SweepEnding(owed: multiset<string>)
    | SweeperDone

  datatype Run =
    | Receiving
    | Writing(id: nat, to: Addr)
    | Closing
    | JoiningPumps
    | JoiningSweeper
    | Draining
    | Counting(removed: nat, owed: multiset<string>)
    | RunEnding(owed: multiset<string>)
    | Returned

  // ---- What happened so far ---------------------------------------------------------------

  /** A forwarded unconnected ping; `opens` says it opens its flow's rate window. */
  datatype Ping = Ping(id: nat, from: Addr, seen: Time, at: Time, opens: bool)

  datatype Delivery = Delivery(id: nat, to: Addr)

  /** `owners[k]` is the address the k-th `Create` gave an id to. `lost` holds the
      sessions whose `Promote` no longer found the flow. */
  datatype Log = Log(
    owners: seq<Addr>,
    fired: multiset<nat>,
    starts: multiset<string>,
    ends: multiset<string>,
    lost: multiset<string>,
    delivered: seq<Delivery>,
    frames: seq<(nat, Datagram)>,
    pings: seq<Ping>,
    abandoned: set<Addr>
  )

  /** `bound` until the UDP socket is closed, by `run` or by a takeover; every later read of it
      fails. */
  datatype State = State(
    clock: Time,
    table: Table,
    caps: Caps,
    gauge: int,
    reader: Reader,
    sweeper: Sweeper,
    run: Run,
    log: Log,
    bound: bool
  )

  ghost predicate Init(s: State) {
    && s.clock >= ZERO_TIME + SECOND
    && s.table == Table(0, map[], map[])
    && s.caps.conns == map[] && s.caps.total == 0
    && s.gauge == 0 && s.bound
    && s.reader == Reading && s.sweeper == Waiting && s.run == Receiving
    && s.log == Log([], multiset{}, multiset{}, multiset{}, multiset{}, [], [], [], {})
  }

  // ---- Steps --------------------------------------------------------------------------------

  datatype Step =
    | Tick(d: nat)
    // a takeover of the port
    | Displace
    // reader
    | Read(datagram: Datagram)
    | Lookup(datagram: Datagram)
    | Reject
    | Acquire
    | Create
    | CountCreated
    | StartSession(sid: string)
    | StorePromotion
    | CheckPing
    | SkipPing
    | Forward
    | StopReader
    // sweeper
    | ReadClock
    | Evict
    | Release(addr: Addr)
    | CountEvicted
    | EndEvicted(sid: string)
    | SweepAgain
    | StopSweeper
    // run
    | Receive(id: nat)
    | WriteTo
    | WriteFails
    | StopReceiving
    | Close
    | JoinPumps
    | JoinSweeper
    | Drain
    | CountDrained
    | EndDrained(sid: string)
    | Return

  predicate Enabled(s: State, step: Step) {
    match step
    case Tick(_) => true
    case Displace => true
    case Read(d) => s.reader.Reading? && s.bound && |d.payload| <= FrameQueue.MAX_PAYLOAD
    case Lookup(d) => s.reader == Holding(d)
    case Reject => s.reader.Missed?
    case Acquire => s.reader.Missed? && s.caps.Admits(s.reader.d.from.host)
    case Create => s.reader.Acquired?
    case CountCreated => s.reader.Created?
    case StartSession(sid) => s.reader.Promoting? && sid !in s.log.starts
    case StorePromotion => s.reader.Started?
    case CheckPing => s.reader.Admitted? && s.reader.d.UnconnectedPing()
    case SkipPing => s.reader.Admitted? && !s.reader.d.UnconnectedPing()
    case Forward => s.reader.Forwarding?
    case StopReader => s.reader.Reading?
    case ReadClock => s.sweeper.Waiting?
    case Evict => s.sweeper.Evicting?
    case Release(a) => s.sweeper.Releasing? && a in s.sweeper.pending
    case CountEvicted => s.sweeper.Releasing? && s.sweeper.pending == {}
    case EndEvicted(sid) => s.sweeper.SweepEnding? && sid in s.sweeper.owed
    case SweepAgain => s.sweeper == SweepEnding(multiset{})
    case StopSweeper => s.sweeper.Waiting?
    case Receive(_) => s.run.Receiving?
    case WriteTo => s.run.Writing?
    case WriteFails => s.run.Writing?
    case StopReceiving => s.run.Receiving?
    case Close => s.run.Closing?
    case JoinPumps => s.run.JoiningPumps? && s.reader.ReaderDone?
    case JoinSweeper => s.run.JoiningSweeper? && s.sweeper.SweeperDone?
    case Drain => s.run.Draining?
    case CountDrained => s.run.Counting?
    case EndDrained(sid) => s.run.RunEnding? && sid in s.run.owed
    case Return => s.run == RunEnding(multiset{})
  }

  ghost function Do(s: State, step: Step): State
    requires Enabled(s, step)
  {
    match step
    case Tick(d) => s.(clock := s.clock + d)
    case Displace => s.(bound := false)
    case Read(d) => s.(reader := Holding(d))
    case Lookup(d) => DoLookup(s, d)
    case Reject => s.(reader := Reading)
    case Acquire => s.(reader := Acquired(s.reader.d), caps := s.caps.Acquire(s.reader.d.from.host))
    case Create => DoCreate(s)
    case CountCreated => s.(gauge := s.gauge + 1, reader := Admitted(s.reader.id, s.reader.d, s.reader.seen))
    case StartSession(sid) => DoStart(s, sid)
    case StorePromotion => DoPromote(s)
    case CheckPing => DoPing(s)
    case SkipPing => s.(reader := Forwarding(s.reader.id, s.reader.d))
    case Forward => s.(reader := Reading, log := s.log.(frames := s.log.frames + [(s.reader.id, s.reader.d)]))
    case StopReader => s.(reader := ReaderDone)
    case ReadClock => s.(sweeper := Evicting(s.clock))
    case Evict => DoEvict(s)
    case Release(a) =>
      s.(sweeper := s.sweeper.(pending := s.sweeper.pending - {a}), caps := s.caps.Release(a.host))
    case CountEvicted => s.(gauge := s.gauge - s.sweeper.count, sweeper := SweepEnding(s.sweeper.owed))
    case EndEvicted(sid) =>
      s.(sweeper := SweepEnding(s.sweeper.owed - multiset{sid}), log := s.log.(ends := s.log.ends + multiset{sid}))
    case SweepAgain => s.(sweeper := Waiting)
    case StopSweeper => s.(sweeper := SweeperDone)
    case Receive(id) => DoReceive(s, id)
    case WriteTo =>
      s.(run := Receiving, log := s.log.(delivered := s.log.delivered + [Delivery(s.run.id, s.run.to)]))
    case WriteFails => s.(run := Receiving)
    case StopReceiving => s.(run := Closing)
    case Close => s.(run := JoiningPumps, bound := false)
    case JoinPumps => s.(run := JoiningSweeper)
    case JoinSweeper => s.(run := Draining)
    case Drain => DoDrain(s)
    case CountDrained => s.(gauge := s.gauge - s.run.removed, run := RunEnding(s.run.owed))
    case EndDrained(sid) =>
      s.(run := RunEnding(s.run.owed - multiset{sid}), log := s.log.(ends := s.log.ends + multiset{sid}))
    case Return => s.(run := Returned)
  }

  function DoLookup(s: State, d: Datagram): State {
    var (t, r) := s.table.Lookup(d.from, d.Connected(), s.clock);
    s.(table := t, reader :=
      match r
      case Miss => Missed(d)
      case Hit(id, promote) => if promote then Promoting(id, d, s.clock) else Admitted(id, d, s.clock))
  }

  function DoCreate(s: State): State
    requires s.reader.Acquired?
  {
    var d := s.reader.d;
    var (t, id) := s.table.Create(d.from, d.Connected(), s.clock);
    s.(table := t, reader := Created(id, d, s.clock), log := s.log.(owners := s.log.owners + [d.from]))
  }

  function DoStart(s: State, sid: string): State
    requires s.reader.Promoting?
  {
    s.(reader := Started(s.reader.id, s.reader.d, s.reader.seen, sid),
       log := s.log.(starts := s.log.starts + multiset{sid}, fired := s.log.fired + multiset{s.reader.id}))
  }

  function DoPromote(s: State): State
    requires s.reader.Started?
  {
    var r := s.reader;
    var lost := if s.table.Live(r.id) then s.log.lost else s.log.lost + multiset{r.sid};
    s.(table := s.table.Promote(r.id, r.sid), reader := Admitted(r.id, r.d, r.seen), log := s.log.(lost := lost))
  }

  function DoPing(s: State): State
    requires s.reader.Admitted?
  {
    var r := s.reader;
    var (t, allowed) := s.table.AllowPing(r.id, s.clock);
    if !allowed then s.(table := t, reader := Reading)
    else
      var opens := s.clock - s.table.byAddr[s.table.byId[r.id]].pingWindowStart >= SECOND;
      s.(table := t, reader := Forwarding(r.id, r.d),
         log := s.log.(pings := s.log.pings + [Ping(r.id, r.d.from, r.seen, s.clock, opens)]))
  }

  ghost function DoEvict(s: State): State
    requires s.sweeper.Evicting?
  {
    var gone := s.table.Expired(s.sweeper.now);
    s.(table := s.table.Evict(s.sweeper.now),
       sweeper := Releasing(gone, |gone|, SessionsOf(s.table.byAddr, gone)))
  }

  function DoReceive(s: State, id: nat): State
    requires s.run.Receiving?
  {
    var (t, a) := s.table.AddrById(id, s.clock);
    s.(table := t, run := match a case None => Receiving case Some(to) => Writing(id, to))
  }

  ghost function DoDrain(s: State): State {
    var flows := s.table.byAddr;
    s.(table := s.table.Drain(), run := Counting(|flows|, SessionsOf(flows, flows.Keys)),
       log := s.log.(abandoned := flows.Keys))
  }

  // ---- Behaviours -----------------------------------------------------------------------------

  ghost predicate Next(s: State, s': State) {
    exists step :: Enabled(s, step) && s' == Do(s, step)
  }

  /** The step taken between two consecutive states. */
  ghost function Via(s: State, s': State): (step: Step)
    requires Next(s, s')
    ensures Enabled(s, step) && s' == Do(s, step)
  {
    var step :| Enabled(s, step) && s' == Do(s, step);
    step
  }

  /** A finite run of the tunnel, from binding the port on. */
  ghost predicate Behaviour(tr: seq<State>) {
    && |tr| > 0
    && Init(tr[0])
    && forall i :: 0 <= i < |tr| - 1 ==> Next(tr[i], tr[i + 1])
  }
}
