/** Isolation between the clients of one tunnel: over every interleaving of fewer than
    2^32 flow creations, an id belongs to one address for good, and reply datagrams and
    forwarded frames carrying it concern that address only.
 */
module TunnelIsolation {
  import opened FlowTables
  import opened TunnelSteps

  /** `id` was given to `a`, and to no one else. */
  predicate Owns(owners: seq<Addr>, id: nat, a: Addr) {
    id < |owners| && owners[id] == a
  }

  ghost predicate TableIds(t: Table, owners: seq<Addr>) {
    && t.Bijective()
    && t.nextId == |owners| % ID_SPACE
    && forall i :: i in t.byId ==> Owns(owners, i, t.byId[i])
  }

  /** Between a lookup miss and the creation the address stays absent. */
  ghost predicate ReaderIds(r: Reader, t: Table, owners: seq<Addr>) {
    match r
    case Missed(d) => d.from !in t.byAddr
    case Acquired(d) => d.from !in t.byAddr
    case Created(id, d, _) => Owns(owners, id, d.from)
    case Promoting(id, d, _) => Owns(owners, id, d.from)
    case Started(id, d, _, _) => Owns(owners, id, d.from)
    case Admitted(id, d, _) => Owns(owners, id, d.from)
    case Forwarding(id, d) => Owns(owners, id, d.from)
    case Reading => true
    case Holding(_) => true
    case ReaderDone => true
  }

  ghost predicate LogIds(log: Log) {
    && (forall x :: x in log.delivered ==> Owns(log.owners, x.id, x.to))
    && (forall f :: f in log.frames ==> Owns(log.owners, f.0, f.1.from))
    && (forall p :: p in log.pings ==> Owns(log.owners, p.id, p.from))
  }

  ghost predicate Ids(s: State) {
    && TableIds(s.table, s.log.owners)
    && ReaderIds(s.reader, s.table, s.log.owners)
    && (s.run.Writing? ==> Owns(s.log.owners, s.run.id, s.run.to))
    && LogIds(s.log)
  }

  // ---- One step ---------------------------------------------------------------------------

  /** Refreshing a flow in place moves no id. */
  lemma UpdateIds(t: Table, owners: seq<Addr>, a: Addr, e: Flow)
    requires TableIds(t, owners) && a in t.byAddr
    requires e.addr == a && e.id == t.byAddr[a].id
    ensures TableIds(t.(byAddr := t.byAddr[a := e]), owners)
  {
    UpdateBijective(t, a, e);
  }

  lemma LookupIds(s: State, d: Datagram)
    requires Ids(s) && Enabled(s, Lookup(d))
    ensures Ids(Do(s, Lookup(d)))
  {
    if d.from in s.table.byAddr {
      UpdateIds(s.table, s.log.owners, d.from, s.table.Lookup(d.from, d.Connected(), s.clock).0.byAddr[d.from]);
      assert s.table.byId[s.table.byAddr[d.from].id] == d.from;
    }
  }

  lemma CreateIds(s: State)
    requires Ids(s) && Enabled(s, Create) && |s.log.owners| < ID_SPACE
    ensures Ids(Do(s, Create))
  {
    var d := s.reader.d;
    assert s.table.nextId == |s.log.owners|;
    CreateKeepsBijectionIff(s.table, d.from, d.Connected(), s.clock);
    var s' := Do(s, Create);
    assert TableIds(s'.table, s'.log.owners);
    assert LogIds(s'.log);
  }

  lemma PromoteIds(s: State)
    requires Ids(s) && Enabled(s, StorePromotion)
    ensures Ids(Do(s, StorePromotion))
  {
    var r := s.reader;
    if s.table.Live(r.id) {
      var a := s.table.byId[r.id];
      UpdateIds(s.table, s.log.owners, a, s.table.Promote(r.id, r.sid).byAddr[a]);
    }
  }

  lemma PingIds(s: State)
    requires Ids(s) && Enabled(s, CheckPing)
    ensures Ids(Do(s, CheckPing))
  {
    AllowPingIds(s.table, s.log.owners, s.reader.id, s.clock);
    PingLogIds(s);
  }

  lemma AllowPingIds(t: Table, owners: seq<Addr>, id: nat, now: Time)
    requires TableIds(t, owners)
    ensures TableIds(t.AllowPing(id, now).0, owners)
  {
    if t.Live(id) {
      var a := t.byId[id];
      UpdateIds(t, owners, a, t.AllowPing(id, now).0.byAddr[a]);
    }
  }

  /** A ping is logged under the id and the address that the reader holds. */
  lemma PingLogIds(s: State)
    requires Enabled(s, CheckPing) && Owns(s.log.owners, s.reader.id, s.reader.d.from) && LogIds(s.log)
    ensures var s' := Do(s, CheckPing);
            && LogIds(s'.log) && s'.log.owners == s.log.owners && s'.run == s.run
            && s'.table == s.table.AllowPing(s.reader.id, s.clock).0
            && (s'.reader.Reading? || s'.reader == Forwarding(s.reader.id, s.reader.d))
  {
  }

  lemma ReceiveIds(s: State, id: nat)
    requires Ids(s) && Enabled(s, Receive(id))
    ensures Ids(Do(s, Receive(id)))
  {
    if s.table.Live(id) {
      var a := s.table.byId[id];
      UpdateIds(s.table, s.log.owners, a, s.table.AddrById(id, s.clock).0.byAddr[a]);
    }
  }

  lemma EvictIds(s: State)
    requires Ids(s) && Enabled(s, Evict)
    ensures Ids(Do(s, Evict))
  {
    EvictBijective(s.table, s.sweeper.now);
  }

  /** Steps that neither touch the table nor append to the logs read here. */
  predicate Silent(step: Step) {
    match step
    case Lookup(_) => false
    case Create => false
    case StorePromotion => false
    case CheckPing => false
    case Forward => false
    case Evict => false
    case Receive(_) => false
    case WriteTo => false
    case Drain => false
    case _ => true
  }

  lemma SilentIds(s: State, step: Step)
    requires Ids(s) && Enabled(s, step) && Silent(step)
    ensures Ids(Do(s, step))
  {
    var s' := Do(s, step);
    assert s'.table == s.table && s'.log.owners == s.log.owners;
    assert s'.log.delivered == s.log.delivered && s'.log.frames == s.log.frames;
    assert s'.log.pings == s.log.pings;
  }

  lemma LogIdsKept(s: State, step: Step)
    requires Ids(s) && Enabled(s, step) && (step.Forward? || step.WriteTo? || step.Drain?)
    ensures Ids(Do(s, step))
  {
  }

  lemma StepIds(s: State, step: Step)
    requires Ids(s) && Enabled(s, step) && |Do(s, step).log.owners| <= ID_SPACE
    ensures Ids(Do(s, step))
  {
    if Silent(step) {
      SilentIds(s, step);
    } else if step.Forward? || step.WriteTo? || step.Drain? {
      LogIdsKept(s, step);
    } else {
      TableStepIds(s, step);
    }
  }

  lemma TableStepIds(s: State, step: Step)
    requires Ids(s) && Enabled(s, step) && |Do(s, step).log.owners| <= ID_SPACE
    requires !Silent(step) && !step.Forward? && !step.WriteTo? && !step.Drain?
    ensures Ids(Do(s, step))
  {
    match step
    case Lookup(d) => LookupIds(s, d);
    case Create => CreateIds(s);
    case StorePromotion => PromoteIds(s);
    case CheckPing => PingIds(s);
    case Evict => EvictIds(s);
    case Receive(id) => ReceiveIds(s, id);
  }

  // ---- Whole behaviours -------------------------------------------------------------------

  function Last(tr: seq<State>): State
    requires |tr| > 0
  {
    tr[|tr| - 1]
  }

  /** The assumption the wrapping id counter needs. */
  ghost predicate FewCreations(tr: seq<State>) {
    |tr| > 0 && |Last(tr).log.owners| <= ID_SPACE
  }

  /** Appends the state one step leads to. */
  lemma Extend(tr: seq<State>, step: Step) returns (tr': seq<State>)
    requires Behaviour(tr) && Enabled(Last(tr), step)
    ensures Behaviour(tr') && tr <= tr' && Last(tr') == Do(Last(tr), step)
  {
    tr' := tr + [Do(Last(tr), step)];
    forall i | 0 <= i < |tr'| - 1 ensures Next(tr'[i], tr'[i + 1]) {
      if i == |tr| - 1 {
        assert tr'[i] == Last(tr) && tr'[i + 1] == Do(Last(tr), step);
      } else {
        assert tr'[i] == tr[i] && tr'[i + 1] == tr[i + 1];
      }
    }
  }

  lemma OwnersGrow(s: State, step: Step)
    requires Enabled(s, step)
    ensures
      var s' := Do(s, step);
      || s'.log.owners == s.log.owners
      || (&& s.reader.Acquired? && s'.log.owners == s.log.owners + [s.reader.d.from]
          && s'.reader.Created? && s'.reader.id == s.table.nextId)
  {
  }

  lemma {:induction false} OwnersPrefix(tr: seq<State>, i: nat, j: nat)
    requires Behaviour(tr) && i <= j < |tr|
    ensures tr[i].log.owners <= tr[j].log.owners
    decreases j - i
  {
    if i < j {
      assert Next(tr[i], tr[i + 1]);
      OwnersGrow(tr[i], Via(tr[i], tr[i + 1]));
      OwnersPrefix(tr, i + 1, j);
    }
  }

  lemma {:induction false} AlwaysIds(tr: seq<State>, i: nat)
    requires Behaviour(tr) && FewCreations(tr) && i < |tr|
    ensures Ids(tr[i])
  {
    if i > 0 {
      AlwaysIds(tr, i - 1);
      assert Next(tr[i - 1], tr[i]);
      OwnersPrefix(tr, i, |tr| - 1);
      StepIds(tr[i - 1], Via(tr[i - 1], tr[i]));
    }
  }

  /** At step `i` the reader created flow `id` for `a`. */
  ghost predicate CreatedAt(tr: seq<State>, i: nat, id: nat, a: Addr) {
    && i + 1 < |tr|
    && tr[i].reader.Acquired? && tr[i].reader.d.from == a
    && tr[i + 1].reader.Created? && tr[i + 1].reader.id == id
  }

  lemma CreationOwns(tr: seq<State>, i: nat, id: nat, a: Addr)
    requires Behaviour(tr) && FewCreations(tr) && CreatedAt(tr, i, id, a)
    ensures Owns(Last(tr).log.owners, id, a)
  {
    assert Next(tr[i], tr[i + 1]);
    AlwaysIds(tr, i + 1);
    OwnersPrefix(tr, i + 1, |tr| - 1);
  }

  /** The reply path and the forwarding path of a flow never cross to another client:
      whatever was delivered under an id went to the address that id was created for, and
      whatever was forwarded under it came from there. */
  lemma ClientIsolation(tr: seq<State>, i: nat, id: nat, a: Addr)
    requires Behaviour(tr) && FewCreations(tr) && CreatedAt(tr, i, id, a)
    ensures forall x :: x in Last(tr).log.delivered && x.id == id ==> x.to == a
    ensures forall f :: f in Last(tr).log.frames && f.0 == id ==> f.1.from == a
  {
    CreationOwns(tr, i, id, a);
    AlwaysIds(tr, |tr| - 1);
  }

  /** Nothing is delivered under an id that was never created. */
  lemma DeliveredWasCreated(tr: seq<State>, x: Delivery)
    requires Behaviour(tr) && FewCreations(tr) && x in Last(tr).log.delivered
    ensures exists i :: CreatedAt(tr, i, x.id, x.to)
  {
    AlwaysIds(tr, |tr| - 1);
    OwnerWasCreated(tr, |tr| - 1, x.id);
  }

  lemma {:induction false} OwnerWasCreated(tr: seq<State>, n: nat, id: nat)
    requires Behaviour(tr) && FewCreations(tr) && n < |tr| && id < |tr[n].log.owners|
    ensures exists i :: CreatedAt(tr, i, id, tr[n].log.owners[id])
  {
    assert n > 0;
    OwnersPrefix(tr, n - 1, n);
    if id < |tr[n - 1].log.owners| {
      OwnerWasCreated(tr, n - 1, id);
      assert tr[n].log.owners[id] == tr[n - 1].log.owners[id];
    } else {
      JustCreated(tr, n - 1, id);
    }
  }

  /** The step that adds an owner is its creation. */
  lemma JustCreated(tr: seq<State>, i: nat, id: nat)
    requires Behaviour(tr) && FewCreations(tr) && i + 1 < |tr|
    requires |tr[i].log.owners| <= id < |tr[i + 1].log.owners|
    ensures CreatedAt(tr, i, id, tr[i + 1].log.owners[id])
  {
    assert Next(tr[i], tr[i + 1]);
    OwnersGrow(tr[i], Via(tr[i], tr[i + 1]));
    OwnersPrefix(tr, i + 1, |tr| - 1);
    AlwaysIds(tr, i);
    assert tr[i].table.nextId == |tr[i].log.owners| == id;
  }

  /** `Create` does not re-check that the address has no flow; it never needs to. */
  lemma CreateNeverOverwrites(tr: seq<State>, i: nat)
    requires Behaviour(tr) && FewCreations(tr) && i < |tr| && tr[i].reader.Acquired?
    ensures tr[i].reader.d.from !in tr[i].table.byAddr
    ensures tr[i].table.nextId !in tr[i].table.byId || |tr[i].log.owners| == ID_SPACE
  {
    AlwaysIds(tr, i);
    OwnersPrefix(tr, i, |tr| - 1);
  }
}
