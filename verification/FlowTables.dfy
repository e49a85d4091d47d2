/** The per-port flow table of the Bedrock tunnel (relay/internal/bedrock/flowtable.go).

    `Table` is the table as a value, with one function per locked section. The classes
    `FlowEntry` and `FlowTable` are the table as the program keeps it -- two maps that
    share mutable entries -- and every method is proved against the function of the same
    name. The tunnel's step system runs on the value form.
 */
module FlowTables {
  import opened Wrappers

  /** Nanoseconds on the relay's monotonic clock. */
  type Time = int

  const SECOND: Time := 1_000_000_000

  /** The zero `time.Time`. Every clock reading is at least a second past it. */
  const ZERO_TIME: Time := 0

  /** flowIdleTimeout */
  const IDLE_TTL: Time := 60 * SECOND

  /** flowPingsPerSecond */
  const PINGS_PER_SECOND: nat := 5

  /** flowPromoteThreshold */
  const PROMOTE_THRESHOLD: nat := 5

  /** Flow ids are uint32 and wrap. */
  const ID_SPACE: nat := 0x1_0000_0000

  /** A UDP source address; `host` is what `netutil.HostOf` extracts. */
  datatype Addr = Addr(host: string, port: nat)

  datatype Flow = Flow(
    id: nat,
    addr: Addr,
    lastSeen: Time,
    pingWindowStart: Time,
    pingCount: nat,
    ingress: nat,
    promoted: bool,
    sessionId: string
  ) {
    /** The session this flow still owes an End, if any. */
    ghost function Session(): multiset<string> {
      if promoted then multiset{sessionId} else multiset{}
    }

    predicate Idle(now: Time) {
      now - lastSeen >= IDLE_TTL
    }
  }

  /** Outcome of a lookup; `Hit.promote` is the threshold-crossing decision. */
  datatype LookupResult = Miss | Hit(id: nat, promote: bool)

  /** The abstract table. `byId` names the owner of an id by its address. */
  datatype Table = Table(nextId: nat, byAddr: map<Addr, Flow>, byId: map<nat, Addr>) {

    /** What the table's own methods rely on, even after an id collision. */
    ghost predicate Consistent() {
      && nextId < ID_SPACE
      && (forall a :: a in byAddr ==> byAddr[a].addr == a)
      && (forall i :: i in byId ==> byId[i] in byAddr && byAddr[byId[i]].id == i)
    }

    /** The two maps are inverse bijections. */
    ghost predicate Bijective() {
      && Consistent()
      && (forall a :: a in byAddr ==> byAddr[a].id in byId && byId[byAddr[a].id] == a)
    }

    function Lookup(addr: Addr, counts: bool, now: Time): (Table, LookupResult) {
      if addr !in byAddr then (this, Miss)
      else
        var e := byAddr[addr].(lastSeen := now);
        if !counts || e.ingress >= PROMOTE_THRESHOLD then
          (this.(byAddr := byAddr[addr := e]), Hit(e.id, false))
        else
          var e' := e.(ingress := e.ingress + 1);
          (this.(byAddr := byAddr[addr := e']), Hit(e.id, e'.ingress == PROMOTE_THRESHOLD))
    }

    function Create(addr: Addr, counts: bool, now: Time): (Table, nat) {
      var e := Flow(nextId, addr, now, ZERO_TIME, 0, if counts then 1 else 0, false, "");
      (Table((nextId + 1) % ID_SPACE, byAddr[addr := e], byId[nextId := addr]), nextId)
    }

    /** In a consistent table the second half always follows from the first. */
    predicate Live(id: nat) {
      id in byId && byId[id] in byAddr
    }

    function Promote(id: nat, sessionId: string): Table {
      if !Live(id) then this
      else
        var a := byId[id];
        this.(byAddr := byAddr[a := byAddr[a].(promoted := true, sessionId := sessionId)])
    }

    function AllowPing(id: nat, now: Time): (Table, bool) {
      if !Live(id) then (this, false)
      else
        var a := byId[id];
        var e := byAddr[a];
        if now - e.pingWindowStart >= SECOND then
          (this.(byAddr := byAddr[a := e.(pingWindowStart := now, pingCount := 1)]), true)
        else if e.pingCount >= PINGS_PER_SECOND then (this, false)
        else (this.(byAddr := byAddr[a := e.(pingCount := e.pingCount + 1)]), true)
    }

    function AddrById(id: nat, now: Time): (Table, Option<Addr>) {
      if !Live(id) then (this, None)
      else
        var a := byId[id];
        (this.(byAddr := byAddr[a := byAddr[a].(lastSeen := now)]), Some(a))
    }

    ghost function Expired(now: Time): set<Addr> {
      set a | a in byAddr && byAddr[a].Idle(now)
    }

    ghost function IdsOf(addrs: set<Addr>): set<nat>
      requires addrs <= byAddr.Keys
    {
      set a | a in addrs :: byAddr[a].id
    }

    ghost function Evict(now: Time): Table {
      this.(byAddr := byAddr - Expired(now), byId := byId - IdsOf(Expired(now)))
    }

    function Drain(): Table {
      this.(byAddr := map[], byId := map[])
    }
  }

  // ---- Sessions owed by a set of flows ---------------------------------------------

  /** The multiset of session ids stored on the flows at `keys`. */
  ghost function SessionsOf(flows: map<Addr, Flow>, keys: set<Addr>): multiset<string>
    requires keys <= flows.Keys
    decreases |keys|
  {
    if keys == {} then multiset{}
    else
      var a :| a in keys;
      flows[a].Session() + SessionsOf(flows, keys - {a})
  }

  /** The sum does not depend on the order in which the flows are visited. */
  lemma {:induction false} SessionsPick(flows: map<Addr, Flow>, keys: set<Addr>, a: Addr)
    requires keys <= flows.Keys && a in keys
    ensures SessionsOf(flows, keys) == flows[a].Session() + SessionsOf(flows, keys - {a})
    decreases |keys|
  {
    var b :| b in keys && SessionsOf(flows, keys) == flows[b].Session() + SessionsOf(flows, keys - {b});
    if a != b {
      SessionsPick(flows, keys - {b}, a);
      SessionsPick(flows, keys - {a}, b);
      assert keys - {b} - {a} == keys - {a} - {b};
    }
  }

  /** Only the sessions matter: flows that agree on them owe the same sum. */
  lemma {:induction false} SessionsAgree(f: map<Addr, Flow>, g: map<Addr, Flow>, keys: set<Addr>)
    requires keys <= f.Keys && keys <= g.Keys
    requires forall a :: a in keys ==> f[a].Session() == g[a].Session()
    ensures SessionsOf(f, keys) == SessionsOf(g, keys)
    decreases |keys|
  {
    if keys != {} {
      var a :| a in keys;
      SessionsPick(f, keys, a);
      SessionsPick(g, keys, a);
      SessionsAgree(f, g, keys - {a});
    }
  }

  lemma SumAssoc<T>(a: multiset<T>, b: multiset<T>, c: multiset<T>)
    ensures a + (b + c) == (a + b) + c
  {
  }

  lemma Without<T>(keys: set<T>, part: set<T>, a: T)
    requires a in part
    ensures keys - {a} - (part - {a}) == keys - part
  {
  }

  /** A disjoint part can be split off. */
  lemma {:induction false} SessionsSplit(flows: map<Addr, Flow>, part: set<Addr>, keys: set<Addr>)
    requires part <= keys <= flows.Keys
    ensures SessionsOf(flows, keys) == SessionsOf(flows, part) + SessionsOf(flows, keys - part)
    decreases |part|
  {
    if part == {} {
      assert keys - part == keys;
    } else {
      var a :| a in part;
      SessionsPick(flows, part, a);
      SessionsPick(flows, keys, a);
      SessionsSplit(flows, part - {a}, keys - {a});
      Without(keys, part, a);
      SumAssoc(flows[a].Session(), SessionsOf(flows, part - {a}), SessionsOf(flows, keys - part));
    }
  }

  /** Replacing one flow exchanges what it owes; the rest stays. */
  lemma SessionsUpdate(flows: map<Addr, Flow>, a: Addr, e: Flow)
    requires a in flows
    ensures SessionsOf(flows, flows.Keys) == flows[a].Session() + SessionsOf(flows, flows.Keys - {a})
    ensures SessionsOf(flows[a := e], flows[a := e].Keys) == e.Session() + SessionsOf(flows, flows.Keys - {a})
  {
    var flows' := flows[a := e];
    assert flows'.Keys == flows.Keys;
    SessionsPick(flows, flows.Keys, a);
    SessionsPick(flows', flows.Keys, a);
    SessionsAgree(flows', flows, flows.Keys - {a});
  }

  lemma SessionsInsert(flows: map<Addr, Flow>, a: Addr, e: Flow)
    requires a !in flows
    ensures SessionsOf(flows[a := e], flows[a := e].Keys) == e.Session() + SessionsOf(flows, flows.Keys)
  {
    var flows' := flows[a := e];
    SessionsPick(flows', flows'.Keys, a);
    assert flows'.Keys - {a} == flows.Keys;
    SessionsAgree(flows', flows, flows.Keys);
  }

  /** What an eviction hands out and what it leaves add up. */
  lemma SessionsEvict(t: Table, now: Time)
    ensures
      var left := t.Evict(now).byAddr;
      SessionsOf(t.byAddr, t.byAddr.Keys) == SessionsOf(t.byAddr, t.Expired(now)) + SessionsOf(left, left.Keys)
  {
    var left := t.Evict(now).byAddr;
    SessionsSplit(t.byAddr, t.Expired(now), t.byAddr.Keys);
    assert left.Keys == t.byAddr.Keys - t.Expired(now);
    SessionsAgree(left, t.byAddr, left.Keys);
  }

  /** One step of a loop that collects the sessions of the flows it visits. */
  lemma SessionsGrow(flows: map<Addr, Flow>, seen: set<Addr>, a: Addr, ended: seq<string>)
    requires seen <= flows.Keys && a in flows && a !in seen
    requires multiset(ended) == SessionsOf(flows, seen)
    ensures SessionsOf(flows, seen + {a}) == multiset(Collect(ended, flows[a]))
  {
    SessionsPick(flows, seen + {a}, a);
    assert seen + {a} - {a} == seen;
  }

  function Collect(ended: seq<string>, e: Flow): seq<string> {
    if e.promoted then ended + [e.sessionId] else ended
  }

  // ---- Bijection --------------------------------------------------------------------

  // No locked section breaks what the table relies on.

  lemma CreateConsistent(t: Table, addr: Addr, counts: bool, now: Time)
    requires t.Consistent() && addr !in t.byAddr
    ensures t.Create(addr, counts, now).0.Consistent()
  {
  }

  lemma EvictConsistent(t: Table, now: Time)
    requires t.Consistent()
    ensures t.Evict(now).Consistent()
  {
    forall i | i in t.byId && t.byId[i] in t.Expired(now) ensures i in t.IdsOf(t.Expired(now)) {
      assert t.byAddr[t.byId[i]].id == i;
    }
  }

  lemma UpdateBijective(t: Table, a: Addr, e: Flow)
    requires t.Bijective() && a in t.byAddr
    requires e.addr == a && e.id == t.byAddr[a].id
    ensures t.(byAddr := t.byAddr[a := e]).Bijective()
  {
  }

  lemma EvictBijective(t: Table, now: Time)
    requires t.Bijective()
    ensures t.Evict(now).Bijective()
  {
    EvictConsistent(t, now);
    forall a, b | a in t.byAddr && b in t.byAddr && t.byAddr[a].id == t.byAddr[b].id ensures a == b {
      assert t.byId[t.byAddr[a].id] == a;
    }
  }

  /** Every locked section but `Create` keeps the two maps inverse bijections. */
  lemma BijectionKept(t: Table, addr: Addr, id: nat, counts: bool, now: Time, sid: string)
    requires t.Bijective()
    ensures t.Lookup(addr, counts, now).0.Bijective()
    ensures t.Promote(id, sid).Bijective()
    ensures t.AllowPing(id, now).0.Bijective()
    ensures t.AddrById(id, now).0.Bijective()
    ensures t.Evict(now).Bijective()
    ensures t.Drain().Bijective()
  {
    EvictBijective(t, now);
    assert t.Drain().Bijective();
    if addr in t.byAddr {
      UpdateBijective(t, addr, t.Lookup(addr, counts, now).0.byAddr[addr]);
    }
    if id in t.byId {
      var a := t.byId[id];
      UpdateBijective(t, a, t.Promote(id, sid).byAddr[a]);
      UpdateBijective(t, a, t.AllowPing(id, now).0.byAddr[a]);
      UpdateBijective(t, a, t.AddrById(id, now).0.byAddr[a]);
    }
  }

  /** `Create` keeps the bijection exactly when the wrapped id counter does not land on
      an id that is still live. */
  lemma CreateKeepsBijectionIff(t: Table, addr: Addr, counts: bool, now: Time)
    requires t.Bijective() && addr !in t.byAddr
    ensures t.Create(addr, counts, now).0.Bijective() <==> t.nextId !in t.byId
  {
    var t' := t.Create(addr, counts, now).0;
    if t.nextId in t.byId {
      var b := t.byId[t.nextId];
      assert t'.byAddr[b].id == t.nextId && t'.byId[t.nextId] == addr && b != addr;
    }
  }

  /** A ping check touches nothing but the rate window of its flow. */
  lemma AllowPingKeeps(t: Table, id: nat, now: Time)
    ensures var t' := t.AllowPing(id, now).0;
            && t'.nextId == t.nextId && t'.byId == t.byId && t'.byAddr.Keys == t.byAddr.Keys
            && forall a :: a in t.byAddr ==>
                 var e, e' := t.byAddr[a], t'.byAddr[a];
                 e' == e.(pingWindowStart := e'.pingWindowStart, pingCount := e'.pingCount)
  {
  }

  /** So it leaves every session where it is. */
  lemma AllowPingOwes(t: Table, id: nat, now: Time)
    ensures var t' := t.AllowPing(id, now).0;
            SessionsOf(t'.byAddr, t'.byAddr.Keys) == SessionsOf(t.byAddr, t.byAddr.Keys)
  {
    if t.Live(id) {
      var a := t.byId[id];
      SessionsUpdate(t.byAddr, a, t.AllowPing(id, now).0.byAddr[a]);
    }
  }

  // ---- The table as the program keeps it ----------------------------------------------

  /** An entry is shared by both maps; its fields are the record `flow`. */
  class FlowEntry {
    var flow: Flow

    constructor (flow: Flow)
      ensures this.flow == flow
    {
      this.flow := flow;
    }
  }

  class FlowTable {
    var nextID: nat
    var byAddr: map<Addr, FlowEntry>
    var byID: map<nat, FlowEntry>

    /** The table as a value; `Valid` ties it to the entries. */
    ghost var table: Table

    /** Each id leads to the very entry its address leads to, and `table` is what the
        entries say. */
    ghost predicate Valid()
      reads this, byAddr.Values
    {
      && table.Consistent()
      && table.nextId == nextID
      && table.byAddr.Keys == byAddr.Keys
      && (forall a :: a in byAddr ==> table.byAddr[a] == byAddr[a].flow)
      && table.byId.Keys == byID.Keys
      && (forall i :: i in byID ==> table.byId[i] in byAddr && byAddr[table.byId[i]] == byID[i])
    }

    constructor ()
      ensures Valid() && table == Table(0, map[], map[])
    {
      nextID, byAddr, byID, table := 0, map[], map[], Table(0, map[], map[]);
    }

    method Lookup(addr: Addr, counts: bool, now: Time) returns (id: nat, ok: bool, promote: bool)
      requires Valid()
      modifies this`table, byAddr.Values
      ensures Valid()
      ensures table == old(table).Lookup(addr, counts, now).0
      ensures old(table).Lookup(addr, counts, now).1 == if ok then Hit(id, promote) else Miss
    {
      table := table.Lookup(addr, counts, now).0;
      if addr !in byAddr {
        return 0, false, false;
      }
      var e := byAddr[addr];
      e.flow := e.flow.(lastSeen := now);
      if !counts || e.flow.ingress >= PROMOTE_THRESHOLD {
        return e.flow.id, true, false;
      }
      e.flow := e.flow.(ingress := e.flow.ingress + 1);
      return e.flow.id, true, e.flow.ingress == PROMOTE_THRESHOLD;
    }

    /** The caller must not already hold a flow for `addr`; it is not re-checked. */
    method Create(addr: Addr, counts: bool, now: Time) returns (id: nat)
      requires Valid() && addr !in byAddr
      modifies this
      ensures Valid()
      ensures table == old(table).Create(addr, counts, now).0
      ensures id == old(table).Create(addr, counts, now).1
    {
      CreateConsistent(table, addr, counts, now);
      table := table.Create(addr, counts, now).0;
      id := nextID;
      nextID := (nextID + 1) % ID_SPACE;
      var e := new FlowEntry(Flow(id, addr, now, ZERO_TIME, 0, if counts then 1 else 0, false, ""));
      byAddr := byAddr[addr := e];
      byID := byID[id := e];
    }

    method Promote(id: nat, sessionID: string)
      requires Valid()
      modifies this`table, byAddr.Values
      ensures Valid()
      ensures table == old(table).Promote(id, sessionID)
    {
      table := table.Promote(id, sessionID);
      if id in byID {
        var e := byID[id];
        e.flow := e.flow.(promoted := true, sessionId := sessionID);
      }
    }

    method AllowPing(id: nat, now: Time) returns (allowed: bool)
      requires Valid()
      modifies this`table, byAddr.Values
      ensures Valid()
      ensures table == old(table).AllowPing(id, now).0
      ensures allowed == old(table).AllowPing(id, now).1
    {
      table := table.AllowPing(id, now).0;
      if id !in byID {
        return false;
      }
      var e := byID[id];
      if now - e.flow.pingWindowStart >= SECOND {
        e.flow := e.flow.(pingWindowStart := now, pingCount := 1);
        return true;
      }
      if e.flow.pingCount >= PINGS_PER_SECOND {
        return false;
      }
      e.flow := e.flow.(pingCount := e.flow.pingCount + 1);
      return true;
    }

    method AddrByID(id: nat, now: Time) returns (addr: Option<Addr>)
      requires Valid()
      modifies this`table, byAddr.Values
      ensures Valid()
      ensures table == old(table).AddrById(id, now).0
      ensures addr == old(table).AddrById(id, now).1
    {
      table := table.AddrById(id, now).0;
      if id !in byID {
        return None;
      }
      var e := byID[id];
      e.flow := e.flow.(lastSeen := now);
      return Some(e.flow.addr);
    }

    /** Visits the entries in an arbitrary order, dropping the idle ones. */
    method Scan(now: Time)
      returns (liveAddr: map<Addr, FlowEntry>, liveID: map<nat, FlowEntry>, addrs: seq<Addr>, ended: seq<string>)
      requires Valid()
      ensures Pruned(byAddr, liveAddr, table.Expired(now))
      ensures Pruned(byID, liveID, table.IdsOf(table.Expired(now)))
      ensures multiset(addrs) == multiset(table.Expired(now))
      ensures multiset(ended) == SessionsOf(table.byAddr, table.Expired(now))
    {
      ghost var gone: set<Addr> := {};
      var todo := byAddr.Keys;
      liveAddr, liveID, addrs, ended := byAddr, byID, [], [];
      while todo != {}
        invariant todo <= byAddr.Keys && gone == table.Expired(now) - todo
        invariant Pruned(byAddr, liveAddr, gone) && Pruned(byID, liveID, table.IdsOf(gone))
        invariant multiset(addrs) == multiset(gone)
        invariant multiset(ended) == SessionsOf(table.byAddr, gone)
        decreases todo
      {
        var key :| key in todo;
        var e := byAddr[key];
        ExpiredGrow(table, now, todo, key);
        todo := todo - {key};
        if now - e.flow.lastSeen >= IDLE_TTL {
          SessionsGrow(table.byAddr, gone, key, ended);
          PruneOne(byAddr, liveAddr, gone, key);
          IdsGrow(table, gone, key);
          ListGrow(addrs, gone, key);
          PruneOne(byID, liveID, table.IdsOf(gone), e.flow.id);
          liveAddr, liveID := liveAddr - {key}, liveID - {e.flow.id};
          addrs := addrs + [key];
          ended := Collect(ended, e.flow);
          gone := gone + {key};
        }
      }
      assert gone == table.Expired(now);
    }

    /** Deletes every idle flow, returning the addresses and the sessions they owe. */
    method Evict(now: Time) returns (addrs: seq<Addr>, ended: seq<string>)
      requires Valid()
      modifies this`byAddr, this`byID, this`table
      ensures Valid() && table == old(table).Evict(now)
      ensures multiset(addrs) == multiset(old(table).Expired(now))
      ensures multiset(ended) == SessionsOf(old(table).byAddr, old(table).Expired(now))
    {
      byAddr, byID, addrs, ended := Scan(now);
      EvictConsistent(table, now);
      table := table.Evict(now);
    }

    /** Visits all entries, in an arbitrary order. */
    method Sessions() returns (ended: seq<string>)
      requires Valid()
      ensures multiset(ended) == SessionsOf(table.byAddr, table.byAddr.Keys)
    {
      ghost var flows := table.byAddr;
      var todo := byAddr.Keys;
      ended := [];
      ghost var seen: set<Addr> := {};
      while todo != {}
        invariant todo == flows.Keys - seen && seen <= flows.Keys
        invariant multiset(ended) == SessionsOf(flows, seen)
        decreases todo
      {
        var key :| key in todo;
        var e := byAddr[key];
        SessionsGrow(flows, seen, key, ended);
        ended := Collect(ended, e.flow);
        seen := seen + {key};
        todo := todo - {key};
      }
      assert seen == flows.Keys;
    }

    /** Removes every flow, returning the sessions still open and the number removed. */
    method Drain() returns (ended: seq<string>, removed: nat)
      requires Valid()
      modifies this`byAddr, this`byID, this`table
      ensures Valid() && table == old(table).Drain()
      ensures removed == |old(table).byAddr|
      ensures multiset(ended) == SessionsOf(old(table).byAddr, old(table).byAddr.Keys)
    {
      removed := |byAddr.Keys|;
      ended := Sessions();
      byAddr, byID, table := map[], map[], table.Drain();
    }
  }

  // ---- The eviction loop, on values ---------------------------------------------------

  lemma ExpiredGrow(t: Table, now: Time, todo: set<Addr>, a: Addr)
    requires a in todo && a in t.byAddr
    ensures t.Expired(now) - (todo - {a})
         == if t.byAddr[a].Idle(now) then t.Expired(now) - todo + {a} else t.Expired(now) - todo
  {
  }

  lemma ListGrow<T>(list: seq<T>, items: set<T>, x: T)
    requires multiset(list) == multiset(items) && x !in items
    ensures multiset(list + [x]) == multiset(items + {x})
  {
    assert items + {x} - {x} == items;
  }

  lemma IdsGrow(t: Table, gone: set<Addr>, a: Addr)
    requires gone <= t.byAddr.Keys && a in t.byAddr
    ensures t.IdsOf(gone + {a}) == t.IdsOf(gone) + {t.byAddr[a].id}
  {
  }

  /** `left` is `all` without the keys in `gone`. */
  ghost predicate Pruned<K, V>(all: map<K, V>, left: map<K, V>, gone: set<K>) {
    left.Keys == all.Keys - gone && forall k :: k in left ==> left[k] == all[k]
  }

  lemma PruneOne<K, V>(all: map<K, V>, left: map<K, V>, gone: set<K>, key: K)
    requires Pruned(all, left, gone)
    ensures Pruned(all, left - {key}, gone + {key})
  {
  }
}
