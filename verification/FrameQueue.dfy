/** The hand-over of admitted frames from the UDP reader to the QUIC sender of one tunnel
    (relay/internal/bedrock/tunnel.go): a pool of frame buffers, a bounded channel, and a
    read buffer the reader overwrites with every datagram.
 */
module FrameQueue {

  newtype byte = x: int | 0 <= x < 0x100

  /** FlowIDSize */
  const HEADER: nat := 4

  /** maxDatagramPayload */
  const MAX_PAYLOAD: nat := 1200

  /** The capacity every pooled buffer is made with. */
  const CAPACITY: nat := HEADER + MAX_PAYLOAD

  /** sendQueueDepth */
  const DEPTH: nat := 1024

  // ---- The wire form --------------------------------------------------------------------

  /** A flow id as four big-endian bytes. */
  function BigEndian(id: nat): (b: seq<byte>)
    requires id < 0x1_0000_0000
    ensures |b| == HEADER
  {
    [(id / 0x100_0000) as byte, (id / 0x1_0000 % 0x100) as byte, (id / 0x100 % 0x100) as byte, (id % 0x100) as byte]
  }

  function FromBigEndian(b: seq<byte>): nat
    requires |b| >= HEADER
  {
    b[0] as nat * 0x100_0000 + b[1] as nat * 0x1_0000 + b[2] as nat * 0x100 + b[3] as nat
  }

  datatype Admitted = Admitted(id: nat, payload: seq<byte>)

  function Encode(d: Admitted): (f: seq<byte>)
    requires d.id < 0x1_0000_0000
    ensures |f| == HEADER + |d.payload|
  {
    BigEndian(d.id) + d.payload
  }

  /** The receiving end reads back the very id and payload. */
  lemma EncodeRoundTrip(d: Admitted)
    requires d.id < 0x1_0000_0000
    ensures FromBigEndian(Encode(d)) == d.id
    ensures Encode(d)[HEADER..] == d.payload
  {
    var id := d.id;
    assert Encode(d)[..HEADER] == BigEndian(id);
    assert id == id / 0x100 * 0x100 + id % 0x100;
    assert id / 0x100 == id / 0x1_0000 * 0x100 + id / 0x100 % 0x100;
    assert id / 0x1_0000 == id / 0x100_0000 * 0x100 + id / 0x1_0000 % 0x100;
  }

  /** The reader's in-place fill of one pooled buffer. */
  method FillFrame(frame: array<byte>, readBuf: array<byte>, n: nat, id: nat)
    requires frame != readBuf && frame.Length == CAPACITY
    requires n <= MAX_PAYLOAD && n <= readBuf.Length && id < 0x1_0000_0000
    modifies frame
    ensures frame[..HEADER + n] == Encode(Admitted(id, readBuf[..n]))
    ensures frame[HEADER + n..] == old(frame[HEADER + n..])
  {
    var header := BigEndian(id);
    frame[0], frame[1], frame[2], frame[3] := header[0], header[1], header[2], header[3];
    for i := 0 to n
      modifies frame
      invariant forall j :: 0 <= j < HEADER ==> frame[j] == header[j]
      invariant forall j :: 0 <= j < i ==> frame[HEADER + j] == readBuf[j]
      invariant forall j :: HEADER + i <= j < frame.Length ==> frame[j] == old(frame[j])
    {
      frame[HEADER + i] := readBuf[i];
    }
    assert frame[..HEADER] == header;
    assert frame[HEADER..HEADER + n] == readBuf[..n];
    assert frame[..HEADER + n] == frame[..HEADER] + frame[HEADER..HEADER + n];
  }

  // ---- The step system --------------------------------------------------------------------

  /** A slice of a pooled buffer: all its bytes, and how many of them it exposes. */
  datatype Slice = Slice(data: seq<byte>, len: nat) {
    function Bytes(): seq<byte> {
      if len <= |data| then data[..len] else []
    }

    /** `(*bufp)[:n]`, and the writes through it: `frame` overwrites the front. */
    function Write(frame: seq<byte>): Slice {
      Slice(if |frame| <= |data| then frame + data[|frame|..] else frame, |frame|)
    }

    /** `(*bufp)[:cap(*bufp)]` */
    function Full(): Slice {
      Slice(data, |data|)
    }
  }

  /** A buffer in use, and the index of its datagram among all admitted ones. */
  datatype Item = Item(buf: nat, k: nat)

  datatype Reader = Idle | Fetched(item: Item) | Filled(item: Item) | Stopped

  datatype Sender = Ready | Sending(item: Item) | Recycling(buf: nat) | Exited

  /** `sent` and `dropped` hold admission indices; `wire` the bytes given to SendDatagram. */
  datatype State = State(
    bufs: map<nat, Slice>,
    pool: set<nat>,
    queue: seq<Item>,
    readBuf: seq<byte>,
    reader: Reader,
    sender: Sender,
    admitted: seq<Admitted>,
    sent: seq<nat>,
    dropped: seq<nat>,
    wire: seq<seq<byte>>
  ) {
    function Buf(b: nat): Slice {
      if b in bufs then bufs[b] else Slice([], 0)
    }
  }

  ghost predicate Init(s: State) {
    && s.bufs == map[] && s.pool == {} && s.queue == []
    && s.reader == Idle && s.sender == Ready
    && s.admitted == [] && s.sent == [] && s.dropped == [] && s.wire == []
  }

  datatype Step =
    /** A datagram is read over the last one, admitted, and a pooled or new buffer fetched. */
    | Read(d: Admitted, stale: seq<byte>, buf: nat)
    | Fill
    | Enqueue
    | DropFull
    | Stop
    | Take
    | Send
    | Recycle
    | Exit
    /** sync.Pool may forget an idle buffer. */
    | Forget(buf: nat)

  predicate Enabled(s: State, step: Step) {
    match step
    case Read(d, _, b) =>
      s.reader.Idle? && d.id < 0x1_0000_0000 && |d.payload| <= MAX_PAYLOAD && (b in s.pool || b !in s.bufs)
    case Fill => s.reader.Fetched?
    case Enqueue => s.reader.Filled? && |s.queue| < DEPTH
    case DropFull => s.reader.Filled? && |s.queue| >= DEPTH
    case Stop => s.reader.Idle?
    case Take => s.sender.Ready? && s.queue != []
    case Send => s.sender.Sending?
    case Recycle => s.sender.Recycling?
    case Exit => s.sender.Ready? && s.queue == [] && s.reader.Stopped?
    case Forget(b) => b in s.pool
  }

  /** A buffer made by the pool's New function. */
  function Fresh(): Slice {
    Slice(seq(CAPACITY, _ => 0), CAPACITY)
  }

  function Do(s: State, step: Step): State
    requires Enabled(s, step)
  {
    match step
    case Read(d, stale, b) =>
      s.(readBuf := d.payload + stale, admitted := s.admitted + [d], pool := s.pool - {b},
         bufs := if b in s.bufs then s.bufs else s.bufs[b := Fresh()],
         reader := Fetched(Item(b, |s.admitted|)))
    case Fill => DoFill(s)
    case Enqueue => s.(queue := s.queue + [s.reader.item], reader := Idle)
    case DropFull =>
      var i := s.reader.item;
      s.(dropped := s.dropped + [i.k], bufs := s.bufs[i.buf := s.Buf(i.buf).Full()], pool := s.pool + {i.buf},
         reader := Idle)
    case Stop => s.(reader := Stopped)
    case Take => s.(sender := Sending(s.queue[0]), queue := s.queue[1..])
    case Send =>
      var i := s.sender.item;
      s.(sent := s.sent + [i.k], wire := s.wire + [s.Buf(i.buf).Bytes()], sender := Recycling(i.buf))
    case Recycle =>
      var b := s.sender.buf;
      s.(bufs := s.bufs[b := s.Buf(b).Full()], pool := s.pool + {b}, sender := Ready)
    case Exit => s.(sender := Exited)
    case Forget(b) => s.(pool := s.pool - {b}, bufs := s.bufs - {b})
  }

  /** The frame is written from the shared read buffer, not from the datagram. */
  function DoFill(s: State): State
    requires s.reader.Fetched?
  {
    var i := s.reader.item;
    if i.k < |s.admitted| && s.admitted[i.k].id < 0x1_0000_0000 && |s.admitted[i.k].payload| <= |s.readBuf| then
      var d := s.admitted[i.k];
      var frame := Encode(Admitted(d.id, s.readBuf[..|d.payload|]));
      s.(bufs := s.bufs[i.buf := s.Buf(i.buf).Write(frame)], reader := Filled(i))
    else s.(reader := Filled(i))
  }

  ghost predicate Next(s: State, s': State) {
    exists step :: Enabled(s, step) && s' == Do(s, step)
  }

  ghost function Via(s: State, s': State): (step: Step)
    requires Next(s, s')
    ensures Enabled(s, step) && s' == Do(s, step)
  {
    var step :| Enabled(s, step) && s' == Do(s, step);
    step
  }

  ghost predicate Behaviour(tr: seq<State>) {
    && |tr| > 0
    && Init(tr[0])
    && forall i :: 0 <= i < |tr| - 1 ==> Next(tr[i], tr[i + 1])
  }

  // ---- Ownership ------------------------------------------------------------------------------

  function ReaderBufs(r: Reader): set<nat> {
    if r.Fetched? || r.Filled? then {r.item.buf} else {}
  }

  function SenderBufs(w: Sender): set<nat> {
    match w
    case Sending(i) => {i.buf}
    case Recycling(b) => {b}
    case _ => {}
  }

  ghost function QueueBufs(q: seq<Item>): set<nat> {
    set i | i in q :: i.buf
  }

  /** Every buffer has exactly one owner: the pool, the reader, one queue place, or the
      sender. */
  ghost predicate Owned(s: State) {
    var q, r, w := QueueBufs(s.queue), ReaderBufs(s.reader), SenderBufs(s.sender);
    && s.bufs.Keys == s.pool + r + q + w
    && s.pool !! r !! q !! w
    && (forall i, j :: 0 <= i < j < |s.queue| ==> s.queue[i].buf != s.queue[j].buf)
  }

  /** Each buffer keeps its capacity; an idle one exposes all of it. */
  ghost predicate Sized(s: State) {
    && (forall b :: b in s.bufs ==> |s.bufs[b].data| == CAPACITY && s.bufs[b].len <= CAPACITY)
    && (forall b :: b in s.pool ==> b in s.bufs && s.bufs[b].len == CAPACITY)
    && |s.queue| <= DEPTH
  }

  lemma StepSized(s: State, step: Step)
    requires Owned(s) && Sized(s) && Admissible(s) && Enabled(s, step)
    ensures Sized(Do(s, step))
  {
  }

  /** Only admissible datagrams are ever in hand. */
  ghost predicate Admissible(s: State) {
    forall d :: d in s.admitted ==> d.id < 0x1_0000_0000 && |d.payload| <= MAX_PAYLOAD
  }

  lemma QueueSnoc(q: seq<Item>, i: Item)
    ensures QueueBufs(q + [i]) == QueueBufs(q) + {i.buf}
  {
    assert i in q + [i];
    assert forall x :: x in q ==> x in q + [i];
  }

  lemma QueueHead(q: seq<Item>)
    requires q != []
    ensures QueueBufs(q) == {q[0].buf} + QueueBufs(q[1..])
  {
    assert q == [q[0]] + q[1..];
  }

  lemma StepOwned(s: State, step: Step)
    requires Owned(s) && Enabled(s, step)
    ensures Owned(Do(s, step))
  {
    match step
    case Enqueue => EnqueueOwned(s);
    case Take => TakeOwned(s);
    case _ =>
  }

  lemma EnqueueOwned(s: State)
    requires Owned(s) && Enabled(s, Enqueue)
    ensures Owned(Do(s, Enqueue))
  {
    QueueSnoc(s.queue, s.reader.item);
  }

  lemma TakeOwned(s: State)
    requires Owned(s) && Enabled(s, Take)
    ensures Owned(Do(s, Take))
  {
    QueueHead(s.queue);
    assert forall i :: i in s.queue[1..] ==> exists j :: 1 <= j < |s.queue| && s.queue[j] == i;
  }

  // ---- Content and order ---------------------------------------------------------------------------

  /** The buffer exposes exactly the frame of its datagram. */
  ghost predicate Carries(s: State, i: Item) {
    && i.k < |s.admitted|
    && s.admitted[i.k].id < 0x1_0000_0000
    && s.Buf(i.buf).Bytes() == Encode(s.admitted[i.k])
  }

  ghost predicate Contents(s: State) {
    && (forall j :: 0 <= j < |s.queue| ==> Carries(s, s.queue[j]))
    && (s.sender.Sending? ==> Carries(s, s.sender.item))
    && (s.reader.Filled? ==> Carries(s, s.reader.item))
    && (s.reader.Fetched? ==>
          && s.reader.item.k < |s.admitted|
          && s.admitted[s.reader.item.k].payload <= s.readBuf)
  }

  lemma FillContents(s: State)
    requires Owned(s) && Sized(s) && Admissible(s) && Contents(s) && Enabled(s, Fill)
    ensures Contents(Do(s, Fill))
  {
    var s', i := Do(s, Fill), s.reader.item;
    var d := s.admitted[i.k];
    assert s.readBuf[..|d.payload|] == d.payload;
    assert s'.Buf(i.buf).Bytes() == Encode(d);
    forall j | 0 <= j < |s.queue| ensures Carries(s', s'.queue[j]) {
      assert Carries(s, s.queue[j]) && s.queue[j].buf in QueueBufs(s.queue);
    }
  }

  lemma ReadContents(s: State, d: Admitted, stale: seq<byte>, b: nat)
    requires Owned(s) && Contents(s) && Enabled(s, Read(d, stale, b))
    ensures Contents(Do(s, Read(d, stale, b)))
  {
    var s' := Do(s, Read(d, stale, b));
    forall j | 0 <= j < |s.queue| ensures Carries(s', s'.queue[j]) {
      assert Carries(s, s.queue[j]) && s.queue[j].buf in QueueBufs(s.queue);
    }
  }

  /** Resetting or forgetting a buffer touches none that is in the queue or in a hand. */
  lemma ReturnContents(s: State, step: Step)
    requires Owned(s) && Contents(s) && Enabled(s, step)
    requires step.DropFull? || step.Recycle? || step.Forget?
    ensures Contents(Do(s, step))
  {
    var s' := Do(s, step);
    forall j | 0 <= j < |s.queue| ensures Carries(s', s'.queue[j]) {
      assert Carries(s, s.queue[j]) && s.queue[j].buf in QueueBufs(s.queue);
    }
  }

  lemma StepContents(s: State, step: Step)
    requires Owned(s) && Sized(s) && Admissible(s) && Contents(s) && Enabled(s, step)
    ensures Contents(Do(s, step))
  {
    match step
    case Read(d, stale, b) => ReadContents(s, d, stale, b);
    case Fill => FillContents(s);
    case DropFull => ReturnContents(s, step);
    case Recycle => ReturnContents(s, step);
    case Forget(_) => ReturnContents(s, step);
    case _ => HandedOver(s, step);
  }

  /** Handing an item over changes no buffer. */
  lemma HandedOver(s: State, step: Step)
    requires Contents(s) && Enabled(s, step)
    requires step.Enqueue? || step.Stop? || step.Take? || step.Send? || step.Exit?
    ensures Contents(Do(s, step))
  {
    var s' := Do(s, step);
    assert s'.bufs == s.bufs && s'.admitted == s.admitted;
    forall j | 0 <= j < |s'.queue| ensures Carries(s', s'.queue[j]) {
      assert step.Take? ==> s'.queue[j] == s.queue[j + 1];
    }
  }

  // ---- Order and completeness --------------------------------------------------------------------------

  function SenderPart(w: Sender): seq<nat> {
    if w.Sending? then [w.item.k] else []
  }

  function QueuePart(q: seq<Item>): seq<nat> {
    seq(|q|, j requires 0 <= j < |q| => q[j].k)
  }

  function ReaderPart(r: Reader): seq<nat> {
    if r.Fetched? || r.Filled? then [r.item.k] else []
  }

  /** The admission indices that went, or are still to go, over the wire -- oldest first. */
  function Line(s: State): seq<nat> {
    s.sent + SenderPart(s.sender) + QueuePart(s.queue) + ReaderPart(s.reader)
  }

  /** Only reading a datagram extends the line, and only a full queue shortens it. */
  lemma LineMoves(s: State, step: Step)
    requires Enabled(s, step)
    ensures
      var line, line' := Line(s), Line(Do(s, step));
      match step
      case Read(_, _, _) => line' == line + [|s.admitted|]
      case DropFull => line == line' + [s.reader.item.k]
      case _ => line' == line
  {
    match step
    case Enqueue => assert QueuePart(s.queue + [s.reader.item]) == QueuePart(s.queue) + [s.reader.item.k];
    case Take => assert QueuePart(s.queue) == [s.queue[0].k] + QueuePart(s.queue[1..]);
    case _ =>
  }

  /** The line is in admission order, and with the dropped datagrams it is complete. */
  ghost predicate InLine(line: seq<nat>, dropped: seq<nat>, n: nat) {
    && (forall i, j :: 0 <= i < j < |line| ==> line[i] < line[j])
    && (forall k :: k in line ==> k < n)
    && (forall k :: k in dropped ==> k < n && k !in line)
    && (forall k :: 0 <= k < n ==> k in line || k in dropped)
  }

  ghost predicate Ordered(s: State) {
    InLine(Line(s), s.dropped, |s.admitted|)
  }

  lemma JoinLine(line: seq<nat>, dropped: seq<nat>, n: nat)
    requires InLine(line, dropped, n)
    ensures InLine(line + [n], dropped, n + 1)
  {
    assert forall i :: 0 <= i < |line| ==> line[i] in line;
    assert forall k :: k in line + [n] <==> k in line || k == n;
  }

  lemma LeaveLine(line: seq<nat>, k: nat, dropped: seq<nat>, n: nat)
    requires InLine(line + [k], dropped, n)
    ensures InLine(line, dropped + [k], n)
  {
    assert forall i :: 0 <= i < |line| ==> line[i] == (line + [k])[i] < (line + [k])[|line|];
    assert k in line + [k];
    assert forall x :: x in line ==> x in line + [k];
    assert forall x :: x in line + [k] ==> x in line || x == k;
    assert forall x :: x in dropped + [k] ==> x in dropped || x == k;
  }

  lemma StepOrdered(s: State, step: Step)
    requires Ordered(s) && Enabled(s, step)
    ensures Ordered(Do(s, step))
  {
    LineMoves(s, step);
    match step
    case Read(_, _, _) => JoinLine(Line(s), s.dropped, |s.admitted|);
    case DropFull => LeaveLine(Line(Do(s, step)), s.reader.item.k, s.dropped, |s.admitted|);
    case _ =>
  }

  /** The wire carries the frames of exactly the datagrams sent. */
  ghost predicate OnWire(s: State) {
    && |s.wire| == |s.sent|
    && forall j :: 0 <= j < |s.sent| ==>
         s.sent[j] < |s.admitted| && s.admitted[s.sent[j]].id < 0x1_0000_0000
         && s.wire[j] == Encode(s.admitted[s.sent[j]])
  }

  lemma StepOnWire(s: State, step: Step)
    requires Contents(s) && OnWire(s) && Enabled(s, step)
    ensures OnWire(Do(s, step))
  {
  }

  // ---- Whole behaviours ------------------------------------------------------------------------------------

  ghost predicate Sound(s: State) {
    Owned(s) && Sized(s) && Admissible(s) && Contents(s) && Ordered(s) && OnWire(s)
  }

  lemma StepSound(s: State, step: Step)
    requires Sound(s) && Enabled(s, step)
    ensures Sound(Do(s, step))
  {
    StepOwned(s, step);
    StepSized(s, step);
    StepContents(s, step);
    StepOrdered(s, step);
    StepOnWire(s, step);
    StepAdmissible(s, step);
  }

  lemma StepAdmissible(s: State, step: Step)
    requires Admissible(s) && Enabled(s, step)
    ensures Admissible(Do(s, step))
  {
  }

  lemma {:induction false} AlwaysSound(tr: seq<State>, i: nat)
    requires Behaviour(tr) && i < |tr|
    ensures Sound(tr[i])
  {
    if i > 0 {
      AlwaysSound(tr, i - 1);
      assert Next(tr[i - 1], tr[i]);
      StepSound(tr[i - 1], Via(tr[i - 1], tr[i]));
    }
  }

  /** No buffer is ever in two hands, none leaks while it is in use, none outgrows its
      capacity, and the channel stays within its depth. */
  lemma BuffersOwnedOnce(tr: seq<State>, i: nat)
    requires Behaviour(tr) && i < |tr|
    ensures Owned(tr[i]) && Sized(tr[i])
  {
    AlwaysSound(tr, i);
  }

  /** The frames given to SendDatagram are, in order, a subsequence of the admitted
      datagrams, each one its own id and its own payload as read. */
  lemma WireIsSubsequence(tr: seq<State>, i: nat)
    requires Behaviour(tr) && i < |tr|
    ensures OnWire(tr[i])
    ensures forall a, b :: 0 <= a < b < |tr[i].sent| ==> tr[i].sent[a] < tr[i].sent[b]
  {
    AlwaysSound(tr, i);
    var s := tr[i];
    assert forall a :: 0 <= a < |s.sent| ==> Line(s)[a] == s.sent[a];
  }

  /** Once the sender has exited, every admitted datagram was either sent or dropped because
      the queue was full -- never both, and nothing is stuck in the channel. */
  lemma NothingStranded(tr: seq<State>, i: nat, k: nat)
    requires Behaviour(tr) && i < |tr| && tr[i].sender.Exited? && k < |tr[i].admitted|
    ensures k in tr[i].sent <==> k !in tr[i].dropped
  {
    AlwaysSound(tr, i);
    ExitedEmpty(tr, i);
    assert Line(tr[i]) == tr[i].sent;
  }

  /** After the sender's exit the reader is stopped for good and the channel empty. */
  lemma {:induction false} ExitedEmpty(tr: seq<State>, i: nat)
    requires Behaviour(tr) && i < |tr| && tr[i].sender.Exited?
    ensures tr[i].queue == [] && tr[i].reader.Stopped?
  {
    assert i > 0;
    assert Next(tr[i - 1], tr[i]);
    if tr[i - 1].sender.Exited? {
      ExitedEmpty(tr, i - 1);
    }
  }

  /** What the sender still has to do once the reader has closed the channel. */
  function SenderLeft(s: State): nat {
    3 * |s.queue| +
      match s.sender
      case Sending(_) => 3
      case Recycling(_) => 2
      case Ready => 1
      case Exited => 0
  }

  /** The join of the sender ends: with the reader stopped the sender always has a step that
      brings its exit nearer, and no step takes it back. */
  lemma SenderFinishes(s: State) returns (step: Step)
    requires s.reader.Stopped? && !s.sender.Exited?
    ensures Enabled(s, step) && SenderLeft(Do(s, step)) < SenderLeft(s)
    ensures forall other :: Enabled(s, other) ==> SenderLeft(Do(s, other)) <= SenderLeft(s)
  {
    step :=
      match s.sender
      case Sending(_) => Send
      case Recycling(_) => Recycle
      case Ready => if s.queue == [] then Exit else Take;
  }

  /** The channel is full, of frames all admitted before datagram `k`. */
  ghost predicate FullBefore(s: State, k: nat) {
    |s.queue| == DEPTH && forall j :: 0 <= j < |s.queue| ==> s.queue[j].k < k
  }

  /** What waits in the channel was admitted before what the reader holds. */
  lemma QueueBeforeReader(s: State, j: nat)
    requires Ordered(s) && s.reader.Filled? && j < |s.queue|
    ensures s.queue[j].k < s.reader.item.k
  {
    var line, n := Line(s), |s.sent + SenderPart(s.sender)|;
    assert line[n + j] == QueuePart(s.queue)[j];
    assert line[n + |s.queue|] == s.reader.item.k;
  }

  lemma DroppedNow(s: State, step: Step, k: nat)
    requires Enabled(s, step) && k in Do(s, step).dropped && k !in s.dropped
    ensures s.reader.Filled? && s.reader.item.k == k && |s.queue| >= DEPTH
  {
    assert step.DropFull?;
  }

  lemma DropAtFull(s: State, s': State, k: nat)
    requires Ordered(s) && |s.queue| <= DEPTH && Next(s, s') && k in s'.dropped && k !in s.dropped
    ensures FullBefore(s, k)
  {
    DroppedNow(s, Via(s, s'), k);
    forall j | 0 <= j < |s.queue| ensures s.queue[j].k < k {
      QueueBeforeReader(s, j);
    }
  }

  /** A datagram is dropped only if at some earlier moment the channel held as many frames as it
      can, every one of them admitted before. */
  lemma {:induction false} DropsOnlyWhenFull(tr: seq<State>, i: nat, k: nat) returns (j: nat)
    requires Behaviour(tr) && i < |tr| && k in tr[i].dropped
    ensures j < i && FullBefore(tr[j], k)
  {
    assert i > 0;
    if k in tr[i - 1].dropped {
      j := DropsOnlyWhenFull(tr, i - 1, k);
    } else {
      j := i - 1;
      AlwaysSound(tr, j);
      assert Next(tr[j], tr[i]);
      DropAtFull(tr[j], tr[i], k);
    }
  }
}
