/** The tunnel's reader and the frame queue put together: what goes over the wire under a flow
    id came from the client of that flow.
 */
module TunnelWire {
  import opened FlowTables
  import opened TunnelSteps
  import opened TunnelIsolation
  import FrameQueue

  /** The queue has taken on the first of the datagrams that the reader decided to forward. */
  ghost predicate Feeds(frames: seq<(nat, Datagram)>, admitted: seq<FrameQueue.Admitted>) {
    && |admitted| <= |frames|
    && forall k :: 0 <= k < |admitted| ==> admitted[k] == FrameQueue.Admitted(frames[k].0, frames[k].1.payload)
  }

  /** The `j`-th frame on the wire is the encoding of the datagram that was sent `j`-th. */
  lemma SentFrame(frames: seq<(nat, Datagram)>, q: seq<FrameQueue.State>, n: nat, j: nat)
    requires FrameQueue.Behaviour(q) && n < |q| && Feeds(frames, q[n].admitted) && j < |q[n].wire|
    ensures |q[n].wire| == |q[n].sent| && q[n].sent[j] < |frames| && |q[n].wire[j]| >= FrameQueue.HEADER
    ensures FrameQueue.FromBigEndian(q[n].wire[j]) == frames[q[n].sent[j]].0
    ensures q[n].wire[j][FrameQueue.HEADER..] == frames[q[n].sent[j]].1.payload
  {
    FrameQueue.WireIsSubsequence(q, n);
    FrameQueue.EncodeRoundTrip(q[n].admitted[q[n].sent[j]]);
  }

  /** Every frame on the wire under a flow's id carries, unchanged, a datagram of the address
      that the id was created for; and the client's datagrams keep their order. */
  lemma WireIsTheClients(tr: seq<State>, i: nat, id: nat, a: Addr, q: seq<FrameQueue.State>, n: nat)
    requires Behaviour(tr) && FewCreations(tr) && CreatedAt(tr, i, id, a)
    requires FrameQueue.Behaviour(q) && n < |q| && Feeds(Last(tr).log.frames, q[n].admitted)
    ensures |q[n].wire| == |q[n].sent|
    ensures forall j :: 0 <= j < |q[n].wire| ==>
              q[n].sent[j] < |Last(tr).log.frames| && |q[n].wire[j]| >= FrameQueue.HEADER
    ensures forall j :: 0 <= j < |q[n].wire| && FrameQueue.FromBigEndian(q[n].wire[j]) == id ==>
              var d := Last(tr).log.frames[q[n].sent[j]].1;
              d.from == a && q[n].wire[j][FrameQueue.HEADER..] == d.payload
    ensures forall j, k :: 0 <= j < k < |q[n].sent| ==> q[n].sent[j] < q[n].sent[k]
  {
    var frames := Last(tr).log.frames;
    FrameQueue.WireIsSubsequence(q, n);
    ClientIsolation(tr, i, id, a);
    forall j | 0 <= j < |q[n].wire|
      ensures q[n].sent[j] < |frames| && |q[n].wire[j]| >= FrameQueue.HEADER
      ensures FrameQueue.FromBigEndian(q[n].wire[j]) == frames[q[n].sent[j]].0
      ensures q[n].wire[j][FrameQueue.HEADER..] == frames[q[n].sent[j]].1.payload
    {
      SentFrame(frames, q, n, j);
    }
    assert forall k :: 0 <= k < |frames| ==> frames[k] in frames;
  }
}
