/** The reconnecting watch client and its `lastRV` filter, against the store. */
module DynamicWatch {
  import opened Collections
  import opened Storage

  /** What the client remembers and what it has sent on. */
  datatype Client = Client(lastRV: map<NamespacedName, nat>, forwarded: seq<WatchEvent>)

  /** One event from the connection: repeats of the last version are dropped. */
  function Handle(c: Client, ev: WatchEvent): Client {
    var key, rv := ev.item.id, ev.item.version;
    if ev.kind.Deleted? then Client(c.lastRV - {key}, c.forwarded + [ev])
    else if key in c.lastRV && c.lastRV[key] == rv then c
    else Client(c.lastRV[key := rv], c.forwarded + [ev])
  }

  /** A connection is a watch slot and how much of it has been read. */
  datatype Conn = Down | Up(pos: nat, cursor: nat)

  datatype System = System(store: Store, conn: Conn, client: Client)

  datatype Event = Server(op: Op) | Connect | Receive | Disconnect

  function Pending(s: System): seq<WatchEvent> {
    if s.conn.Up? && s.conn.pos < |s.store.slots| && s.store.slots[s.conn.pos].Watch?
       && s.conn.cursor <= |s.store.slots[s.conn.pos].delivered|
    then s.store.slots[s.conn.pos].delivered[s.conn.cursor..] else []
  }

  /** The server does not close a live connection by itself; `Disconnect` does. */
  predicate Interferes(s: System, op: Op) {
    s.conn.Up? && op == Drop(s.conn.pos)
  }

  function ReceiveStep(s: System): System {
    if Pending(s) == [] then s
    else s.(conn := Up(s.conn.pos, s.conn.cursor + 1), client := Handle(s.client, Pending(s)[0]))
  }

  ghost function Step(namespace: string, s: System, e: Event): System {
    match e
    case Server(op) => if Interferes(s, op) then s else s.(store := After(s.store, op))
    case Connect =>
      if s.conn.Up? then s
      else s.(store := After(s.store, Register(namespace)), conn := Up(FreeSlot(s.store.slots), 0))
    case Receive => ReceiveStep(s)
    case Disconnect =>
      if s.conn.Down? then s else s.(store := After(s.store, Drop(s.conn.pos)), conn := Down)
  }

  ghost function Steps(namespace: string, s: System, events: seq<Event>): System {
    if events == [] then s
    else Step(namespace, Steps(namespace, s, events[..|events| - 1]), events[|events| - 1])
  }

  // What is kept, stated of the objects, the queue and the client.

  predicate Shows(ev: WatchEvent) {
    !ev.kind.Deleted?
  }

  ghost predicate NoDelete(q: seq<WatchEvent>, from: nat, to: nat, key: NamespacedName)
    requires to <= |q|
  {
    forall j :: from <= j < to ==> Shows(q[j]) || q[j].item.id != key
  }

  /** `f` is older than version `rv` of its object, or is that version and still remembered. */
  ghost predicate Behind(c: Client, f: WatchEvent, rv: nat, q: seq<WatchEvent>, to: nat)
    requires to <= |q|
  {
    || f.item.version < rv
    || (f.item.version == rv && f.item.id in c.lastRV && c.lastRV[f.item.id] == rv && NoDelete(q, 0, to, f.item.id))
  }

  ghost predicate QueueInv(q: seq<WatchEvent>, c: Client) {
    && (forall i, f :: 0 <= i < |q| && Shows(q[i]) && f in c.forwarded && Shows(f) && f.item.id == q[i].item.id ==>
          Behind(c, f, q[i].item.version, q, i))
    && (forall i, j :: 0 <= i < j < |q| && Shows(q[i]) && Shows(q[j]) && q[i].item.id == q[j].item.id ==>
          q[i].item.version < q[j].item.version
          || (q[i].item.version == q[j].item.version && NoDelete(q, i, j, q[i].item.id)))
  }

  ghost predicate StoreInv(objects: map<NamespacedName, Object>, q: seq<WatchEvent>, c: Client) {
    && (forall f :: f in c.forwarded && Shows(f) && f.item.id in objects ==>
          Behind(c, f, objects[f.item.id].version, q, |q|))
    && (forall i :: 0 <= i < |q| && Shows(q[i]) && q[i].item.id in objects ==>
          q[i].item.version < objects[q[i].item.id].version
          || (q[i].item.version == objects[q[i].item.id].version && NoDelete(q, i, |q|, q[i].item.id)))
  }

  ghost predicate ClockInv(clock: nat, q: seq<WatchEvent>, c: Client) {
    && (forall f :: f in c.forwarded ==> f.item.version <= clock)
    && (forall i :: 0 <= i < |q| ==> q[i].item.version <= clock)
  }

  /** Per object, the versions sent on as added or modified only grow. */
  ghost predicate Increasing(forwarded: seq<WatchEvent>) {
    forall i, j ::
      (0 <= i < j < |forwarded| && Shows(forwarded[i]) && Shows(forwarded[j]) &&
          forwarded[i].item.id == forwarded[j].item.id)
      ==> forwarded[i].item.version < forwarded[j].item.version
  }

  ghost predicate Sent(c: Client, id: NamespacedName, rv: nat) {
    exists f :: f in c.forwarded && Shows(f) && f.item.id == id && f.item.version == rv
  }

  ghost predicate ClientInv(c: Client) {
    Increasing(c.forwarded) && forall id :: id in c.lastRV ==> Sent(c, id, c.lastRV[id])
  }

  ghost predicate LinkInv(objects: map<NamespacedName, Object>, clock: nat, q: seq<WatchEvent>, c: Client) {
    QueueInv(q, c) && StoreInv(objects, q, c) && ClockInv(clock, q, c) && ClientInv(c)
  }

  lemma ForwardIsNew(q: seq<WatchEvent>, c: Client)
    requires q != [] && QueueInv(q, c) && Shows(q[0]) && Handle(c, q[0]) != c
    ensures forall f :: f in c.forwarded && Shows(f) && f.item.id == q[0].item.id ==> f.item.version < q[0].item.version
  {}

  lemma ReceiveShown(objects: map<NamespacedName, Object>, clock: nat, q: seq<WatchEvent>, c: Client)
    requires LinkInv(objects, clock, q, c) && q != [] && Shows(q[0])
    ensures LinkInv(objects, clock, q[1..], Handle(c, q[0]))
    ensures Sent(Handle(c, q[0]), q[0].item.id, q[0].item.version)
  {
    var c', ev := Handle(c, q[0]), q[0];
    if c' == c {
      ReceiveDropped(objects, clock, q, c);
    } else {
      ForwardIsNew(q, c);
      assert c'.forwarded == c.forwarded + [ev];
      assert forall f :: f in c'.forwarded <==> f in c.forwarded || f == ev;
      assert ev in c'.forwarded;
      ForwardQueue(q, c);
      ForwardStore(objects, q, c);
      forall id | id in c'.lastRV ensures Sent(c', id, c'.lastRV[id]) {
        if id != ev.item.id {
          var f :| f in c.forwarded && Shows(f) && f.item.id == id && f.item.version == c.lastRV[id];
          assert f in c'.forwarded;
        }
      }
    }
  }

  lemma ReceiveDropped(objects: map<NamespacedName, Object>, clock: nat, q: seq<WatchEvent>, c: Client)
    requires LinkInv(objects, clock, q, c) && q != [] && Shows(q[0])
    ensures LinkInv(objects, clock, q[1..], c)
  {
    TailQueue(q, c);
    TailStore(objects, q, c);
  }

  lemma TailNoDelete(q: seq<WatchEvent>, from: nat, to: nat, key: NamespacedName)
    requires q != [] && to <= |q| - 1 && NoDelete(q, from + 1, to + 1, key)
    ensures NoDelete(q[1..], from, to, key)
  {
    assert forall j :: from <= j < to ==> q[1..][j] == q[j + 1];
  }

  lemma TailQueue(q: seq<WatchEvent>, c: Client)
    requires QueueInv(q, c) && q != []
    ensures QueueInv(q[1..], c)
  {
    forall i, f | 0 <= i < |q| - 1 && Shows(q[1..][i]) && f in c.forwarded && Shows(f) && f.item.id == q[1..][i].item.id
      ensures Behind(c, f, q[1..][i].item.version, q[1..], i)
    {
      assert Behind(c, f, q[i + 1].item.version, q, i + 1);
      if f.item.version == q[i + 1].item.version { TailNoDelete(q, 0, i, f.item.id); }
    }
    forall i, j | 0 <= i < j < |q| - 1 && Shows(q[1..][i]) && Shows(q[1..][j]) && q[1..][i].item.id == q[1..][j].item.id
      ensures q[1..][i].item.version < q[1..][j].item.version
              || (q[1..][i].item.version == q[1..][j].item.version && NoDelete(q[1..], i, j, q[1..][i].item.id))
    {
      if q[i + 1].item.version == q[j + 1].item.version { TailNoDelete(q, i, j, q[i + 1].item.id); }
    }
  }

  lemma TailStore(objects: map<NamespacedName, Object>, q: seq<WatchEvent>, c: Client)
    requires StoreInv(objects, q, c) && q != []
    ensures StoreInv(objects, q[1..], c)
  {
    forall f | f in c.forwarded && Shows(f) && f.item.id in objects
      ensures Behind(c, f, objects[f.item.id].version, q[1..], |q| - 1)
    {
      assert Behind(c, f, objects[f.item.id].version, q, |q|);
      if f.item.version == objects[f.item.id].version { TailNoDelete(q, 0, |q| - 1, f.item.id); }
    }
    forall i | 0 <= i < |q| - 1 && Shows(q[1..][i]) && q[1..][i].item.id in objects
      ensures q[1..][i].item.version < objects[q[1..][i].item.id].version
              || (q[1..][i].item.version == objects[q[1..][i].item.id].version
                  && NoDelete(q[1..], i, |q| - 1, q[1..][i].item.id))
    {
      if q[i + 1].item.version == objects[q[i + 1].item.id].version { TailNoDelete(q, i, |q| - 1, q[i + 1].item.id); }
    }
  }

  /** Sending the head on keeps the rest of the queue in order behind it. */
  lemma ForwardQueue(q: seq<WatchEvent>, c: Client)
    requires q != [] && QueueInv(q, c) && Shows(q[0]) && Handle(c, q[0]) != c
    ensures QueueInv(q[1..], Handle(c, q[0]))
  {
    var c', ev := Handle(c, q[0]), q[0];
    ForwardIsNew(q, c);
    TailQueue(q, c);
    forall i, f | 0 <= i < |q| - 1 && Shows(q[1..][i]) && f in c'.forwarded && Shows(f) &&
             f.item.id == q[1..][i].item.id
      ensures Behind(c', f, q[1..][i].item.version, q[1..], i)
    {
      if f.item.id == ev.item.id {
        assert q[0].item.version < q[i + 1].item.version
            || (q[0].item.version == q[i + 1].item.version && NoDelete(q, 0, i + 1, ev.item.id));
        assert f == ev || f.item.version < ev.item.version;
        if ev.item.version == q[i + 1].item.version { TailNoDelete(q, 0, i, ev.item.id); }
      } else {
        assert Behind(c, f, q[1..][i].item.version, q[1..], i);
      }
    }
  }

  lemma ForwardStore(objects: map<NamespacedName, Object>, q: seq<WatchEvent>, c: Client)
    requires q != [] && QueueInv(q, c) && StoreInv(objects, q, c) && Shows(q[0]) && Handle(c, q[0]) != c
    ensures StoreInv(objects, q[1..], Handle(c, q[0]))
  {
    var c', ev := Handle(c, q[0]), q[0];
    ForwardIsNew(q, c);
    TailStore(objects, q, c);
    forall f | f in c'.forwarded && Shows(f) && f.item.id in objects
      ensures Behind(c', f, objects[f.item.id].version, q[1..], |q| - 1)
    {
      if f.item.id == ev.item.id {
        assert f == ev || f.item.version < ev.item.version;
        if ev.item.version == objects[ev.item.id].version { TailNoDelete(q, 0, |q| - 1, ev.item.id); }
      } else {
        assert Behind(c, f, objects[f.item.id].version, q[1..], |q[1..]|);
      }
    }
  }

  /** A delete clears the memory of its object, whose later versions are all newer. */
  lemma ReceiveDelete(objects: map<NamespacedName, Object>, clock: nat, q: seq<WatchEvent>, c: Client)
    requires LinkInv(objects, clock, q, c) && q != [] && !Shows(q[0])
    ensures LinkInv(objects, clock, q[1..], Handle(c, q[0]))
  {
    var c' := Handle(c, q[0]);
    DeleteQueue(q, c);
    DeleteStore(objects, q, c);
    DeleteClient(q, c);
    assert forall f :: f in c'.forwarded ==> f in c.forwarded || f == q[0];
  }

  lemma DeleteQueue(q: seq<WatchEvent>, c: Client)
    requires QueueInv(q, c) && q != [] && !Shows(q[0])
    ensures QueueInv(q[1..], Handle(c, q[0]))
  {
    var c' := Handle(c, q[0]);
    TailQueue(q, c);
    forall i, f | 0 <= i < |q| - 1 && Shows(q[1..][i]) && f in c'.forwarded && Shows(f) &&
             f.item.id == q[1..][i].item.id
      ensures Behind(c', f, q[1..][i].item.version, q[1..], i)
    {
      assert f in c.forwarded;
      assert Behind(c, f, q[i + 1].item.version, q, i + 1) && Behind(c, f, q[1..][i].item.version, q[1..], i);
    }
  }

  lemma DeleteStore(objects: map<NamespacedName, Object>, q: seq<WatchEvent>, c: Client)
    requires StoreInv(objects, q, c) && q != [] && !Shows(q[0])
    ensures StoreInv(objects, q[1..], Handle(c, q[0]))
  {
    var c' := Handle(c, q[0]);
    TailStore(objects, q, c);
    forall f | f in c'.forwarded && Shows(f) && f.item.id in objects
      ensures Behind(c', f, objects[f.item.id].version, q[1..], |q| - 1)
    {
      assert f in c.forwarded;
      assert Behind(c, f, objects[f.item.id].version, q, |q|);
      assert Behind(c, f, objects[f.item.id].version, q[1..], |q[1..]|);
    }
  }

  lemma DeleteClient(q: seq<WatchEvent>, c: Client)
    requires ClientInv(c) && q != [] && !Shows(q[0])
    ensures ClientInv(Handle(c, q[0]))
  {
    var c' := Handle(c, q[0]);
    forall id | id in c'.lastRV ensures Sent(c', id, c'.lastRV[id]) {
      var f :| f in c.forwarded && Shows(f) && f.item.id == id && f.item.version == c.lastRV[id];
      assert f in c'.forwarded;
    }
  }

  // What the server's steps do to the link.

  lemma WriteObject(objects: map<NamespacedName, Object>, clock: nat, q: seq<WatchEvent>, c: Client, o: Object)
    requires LinkInv(objects, clock, q, c) && o.version == clock + 1
    ensures LinkInv(objects[o.id := o], clock + 1, q, c)
  {
    forall f | f in c.forwarded && Shows(f) && f.item.id in objects[o.id := o]
      ensures Behind(c, f, objects[o.id := o][f.item.id].version, q, |q|)
    {
      if f.item.id != o.id { assert Behind(c, f, objects[f.item.id].version, q, |q|); }
    }
  }

  lemma RemoveObject(objects: map<NamespacedName, Object>, clock: nat, q: seq<WatchEvent>, c: Client,
                     id: NamespacedName)
    requires LinkInv(objects, clock, q, c)
    ensures LinkInv(objects - {id}, clock, q, c)
  {
    forall f | f in c.forwarded && Shows(f) && f.item.id in objects - {id}
      ensures Behind(c, f, (objects - {id})[f.item.id].version, q, |q|)
    {
      assert Behind(c, f, objects[f.item.id].version, q, |q|);
    }
  }

  lemma SnocNoDelete(q: seq<WatchEvent>, ev: WatchEvent, from: nat, to: nat, key: NamespacedName)
    requires to <= |q| && NoDelete(q, from, to, key)
    ensures NoDelete(q + [ev], from, to, key)
    ensures (Shows(ev) || ev.item.id != key) && to == |q| ==> NoDelete(q + [ev], from, to + 1, key)
  {
    assert forall j :: from <= j < to ==> (q + [ev])[j] == q[j];
  }

  lemma SnocQueue(q: seq<WatchEvent>, c: Client, ev: WatchEvent)
    requires QueueInv(q, c)
    requires forall f :: f in c.forwarded && Shows(f) && Shows(ev) && f.item.id == ev.item.id ==>
               Behind(c, f, ev.item.version, q, |q|)
    requires forall i :: 0 <= i < |q| && Shows(q[i]) && Shows(ev) && q[i].item.id == ev.item.id ==>
               q[i].item.version < ev.item.version
               || (q[i].item.version == ev.item.version && NoDelete(q, i, |q|, ev.item.id))
    ensures QueueInv(q + [ev], c)
  {
    var q' := q + [ev];
    forall i, f | 0 <= i < |q'| && Shows(q'[i]) && f in c.forwarded && Shows(f) && f.item.id == q'[i].item.id
      ensures Behind(c, f, q'[i].item.version, q', i)
    {
      assert Behind(c, f, q'[i].item.version, q, i);
      if f.item.version == q'[i].item.version { SnocNoDelete(q, ev, 0, i, f.item.id); }
    }
    forall i, j | 0 <= i < j < |q'| && Shows(q'[i]) && Shows(q'[j]) && q'[i].item.id == q'[j].item.id
      ensures q'[i].item.version < q'[j].item.version
              || (q'[i].item.version == q'[j].item.version && NoDelete(q', i, j, q'[i].item.id))
    {
      if q'[i].item.version == q'[j].item.version { SnocNoDelete(q, ev, i, j, q'[i].item.id); }
    }
  }

  lemma SnocStore(objects: map<NamespacedName, Object>, q: seq<WatchEvent>, c: Client, ev: WatchEvent)
    requires StoreInv(objects, q, c)
    requires if Shows(ev) then ev.item.id in objects && objects[ev.item.id] == ev.item else ev.item.id !in objects
    ensures StoreInv(objects, q + [ev], c)
  {
    var q' := q + [ev];
    forall f | f in c.forwarded && Shows(f) && f.item.id in objects
      ensures Behind(c, f, objects[f.item.id].version, q', |q'|)
    {
      assert Behind(c, f, objects[f.item.id].version, q, |q|);
      if f.item.version == objects[f.item.id].version { SnocNoDelete(q, ev, 0, |q|, f.item.id); }
    }
    forall i | 0 <= i < |q'| && Shows(q'[i]) && q'[i].item.id in objects
      ensures q'[i].item.version < objects[q'[i].item.id].version
              || (q'[i].item.version == objects[q'[i].item.id].version && NoDelete(q', i, |q'|, q'[i].item.id))
    {
      if i < |q| && q[i].item.version == objects[q[i].item.id].version { SnocNoDelete(q, ev, i, |q|, q[i].item.id); }
    }
  }

  /** The server sends an object as it stands, or the deletion of one that is gone. */
  lemma SendEvent(objects: map<NamespacedName, Object>, clock: nat, q: seq<WatchEvent>, c: Client, ev: WatchEvent)
    requires LinkInv(objects, clock, q, c) && ev.item.version <= clock
    requires if Shows(ev) then ev.item.id in objects && objects[ev.item.id] == ev.item else ev.item.id !in objects
    ensures LinkInv(objects, clock, q + [ev], c)
  {
    forall f | f in c.forwarded && Shows(f) && Shows(ev) && f.item.id == ev.item.id
      ensures Behind(c, f, ev.item.version, q, |q|)
    {
      assert Behind(c, f, objects[f.item.id].version, q, |q|);
    }
    SnocQueue(q, c, ev);
    SnocStore(objects, q, c, ev);
  }

  lemma {:induction false} SendBackfill(s: Store, namespace: string, order: seq<NamespacedName>, q: seq<WatchEvent>,
                                        c: Client)
    requires StoreOk(s) && LinkInv(s.objects, s.clock, q, c)
    ensures LinkInv(s.objects, s.clock, q + BackfillEvents(s.objects, namespace, order), c)
    decreases |order|
  {
    if order == [] {
      assert q + [] == q;
    } else {
      var front, id := order[..|order| - 1], order[|order| - 1];
      var sent := BackfillEvents(s.objects, namespace, front);
      SendBackfill(s, namespace, front, q, c);
      if id in s.objects && Selects(namespace, s.objects[id]) {
        SendEvent(s.objects, s.clock, q + sent, c, WatchEvent(Added, s.objects[id]));
        assert q + BackfillEvents(s.objects, namespace, order) == q + sent + [WatchEvent(Added, s.objects[id])];
      }
    }
  }

  lemma EmptyQueue(objects: map<NamespacedName, Object>, clock: nat, q: seq<WatchEvent>, c: Client)
    requires LinkInv(objects, clock, q, c)
    ensures LinkInv(objects, clock, [], c)
  {
    forall f | f in c.forwarded && Shows(f) && f.item.id in objects
      ensures Behind(c, f, objects[f.item.id].version, [], 0)
    {
      assert Behind(c, f, objects[f.item.id].version, q, |q|);
    }
  }

  // The whole system.

  ghost predicate ConnOk(namespace: string, s: System) {
    s.conn.Up? ==>
      && s.conn.pos < |s.store.slots| && s.store.slots[s.conn.pos].Watch?
      && s.store.slots[s.conn.pos].namespace == namespace
      && s.conn.cursor <= |s.store.slots[s.conn.pos].delivered|
  }

  ghost predicate Queued(q: seq<WatchEvent>, id: NamespacedName, rv: nat) {
    exists i :: 0 <= i < |q| && Shows(q[i]) && q[i].item.id == id && q[i].item.version == rv
  }

  ghost predicate Backfilled(s: System) {
    && s.conn.Up? && s.conn.pos < |s.store.slots|
    && s.store.slots[s.conn.pos].Watch? && s.store.slots[s.conn.pos].backfilled
  }

  /** Every watched object's current version was sent on or is on its way. */
  ghost predicate Complete(namespace: string, objects: map<NamespacedName, Object>, q: seq<WatchEvent>, c: Client) {
    forall id :: id in objects && Selects(namespace, objects[id]) ==>
      Sent(c, id, objects[id].version) || Queued(q, id, objects[id].version)
  }

  ghost predicate Inv(namespace: string, s: System) {
    && StoreOk(s.store) && ConnOk(namespace, s)
    && LinkInv(s.store.objects, s.store.clock, Pending(s), s.client)
    && (Backfilled(s) ==> Complete(namespace, s.store.objects, Pending(s), s.client))
  }

  lemma PendingBroadcast(namespace: string, s: System, store': Store, ev: WatchEvent)
    requires ConnOk(namespace, s) && store'.slots == Broadcast(s.store.slots, ev)
    ensures var s' := s.(store := store');
            && ConnOk(namespace, s') && (Backfilled(s') <==> Backfilled(s))
            && Pending(s') == Pending(s) + (if s.conn.Up? && Selects(namespace, ev.item) then [ev] else [])
  {
    if s.conn.Up? {
      var w := s.store.slots[s.conn.pos];
      assert store'.slots[s.conn.pos] == Deliver(w, ev);
      assert Selects(namespace, ev.item) ==>
               (w.delivered + [ev])[s.conn.cursor..] == w.delivered[s.conn.cursor..] + [ev];
    }
  }

  lemma SnocQueued(q: seq<WatchEvent>, ev: WatchEvent)
    ensures forall id, rv :: Queued(q, id, rv) ==> Queued(q + [ev], id, rv)
    ensures Shows(ev) ==> Queued(q + [ev], ev.item.id, ev.item.version)
  {
    forall id, rv | Queued(q, id, rv) ensures Queued(q + [ev], id, rv) {
      var i :| 0 <= i < |q| && Shows(q[i]) && q[i].item.id == id && q[i].item.version == rv;
      assert (q + [ev])[i] == q[i];
    }
    assert (q + [ev])[|q|] == ev;
  }

  lemma CompleteAfterStore(namespace: string, objects: map<NamespacedName, Object>, q: seq<WatchEvent>, c: Client,
                           ev: WatchEvent)
    requires Complete(namespace, objects, q, c) && Shows(ev)
    ensures Complete(namespace, objects[ev.item.id := ev.item],
                     q + (if Selects(namespace, ev.item) then [ev] else []), c)
  {
    SnocQueued(q, ev);
    assert q + [] == q;
  }

  lemma StoreKeepsInv(namespace: string, s: System, o: Object, kind: EventType)
    requires Inv(namespace, s) && o.version == s.store.clock + 1 && !kind.Deleted?
    ensures Inv(namespace, s.(store := Stored(s.store, o.id, o, kind)))
  {
    var ev, q := WatchEvent(kind, o), Pending(s);
    var s' := s.(store := Stored(s.store, o.id, o, kind));
    PendingBroadcast(namespace, s, s'.store, ev);
    WriteObject(s.store.objects, s.store.clock, q, s.client, o);
    if s.conn.Up? && Selects(namespace, o) {
      SendEvent(s.store.objects[o.id := o], s.store.clock + 1, q, s.client, ev);
    } else {
      assert Pending(s') == q;
    }
    if Backfilled(s) {
      CompleteAfterStore(namespace, s.store.objects, q, s.client, ev);
    }
    assert s'.store.objects == s.store.objects[o.id := o] && s'.store.clock == s.store.clock + 1;
  }

  lemma DeleteKeepsInv(namespace: string, s: System, id: NamespacedName)
    requires Inv(namespace, s) && id in s.store.objects
    ensures Inv(namespace, s.(store := After(s.store, Delete(id))))
  {
    var ev, q := WatchEvent(Deleted, s.store.objects[id]), Pending(s);
    var s' := s.(store := After(s.store, Delete(id)));
    PendingBroadcast(namespace, s, s'.store, ev);
    RemoveObject(s.store.objects, s.store.clock, q, s.client, id);
    if s.conn.Up? && Selects(namespace, ev.item) {
      SendEvent(s'.store.objects, s'.store.clock, q, s.client, ev);
      SnocQueued(q, ev);
    } else {
      assert Pending(s') == q;
    }
  }

  lemma {:induction false} BackfillQueues(objects: map<NamespacedName, Object>, namespace: string,
                                          order: seq<NamespacedName>, q: seq<WatchEvent>)
    ensures forall id :: id in order && id in objects && Selects(namespace, objects[id]) && objects[id].id == id ==>
              Queued(q + BackfillEvents(objects, namespace, order), id, objects[id].version)
    decreases |order|
  {
    if order != [] {
      var front, last := order[..|order| - 1], order[|order| - 1];
      BackfillQueues(objects, namespace, front, q);
      assert forall id :: id in order ==> id in front || id == last;
      if last in objects && Selects(namespace, objects[last]) {
        var ev := WatchEvent(Added, objects[last]);
        SnocQueued(q + BackfillEvents(objects, namespace, front), ev);
        assert q + BackfillEvents(objects, namespace, order) == q + BackfillEvents(objects, namespace, front) + [ev];
      }
    }
  }

  lemma BackfillKeepsInv(namespace: string, s: System, pos: nat, order: seq<NamespacedName>)
    requires Inv(namespace, s) && pos < |s.store.slots| && s.store.slots[pos].Watch? && !s.store.slots[pos].backfilled
    requires Enumerates(order, s.store.objects.Keys)
    ensures Inv(namespace, s.(store := After(s.store, Backfill(pos, order))))
  {
    BackfillPending(namespace, s, pos, order);
    var own := s.conn.Up? && s.conn.pos == pos;
    var more := if own then BackfillEvents(s.store.objects, namespace, order) else [];
    if own {
      SendBackfill(s.store, namespace, order, Pending(s), s.client);
      BackfillCompletes(s.store, namespace, order, Pending(s), s.client);
    } else {
      assert Pending(s) + more == Pending(s);
    }
    MoreKeepsInv(namespace, s, more, s.(store := After(s.store, Backfill(pos, order))));
  }

  lemma BackfillCompletes(s: Store, namespace: string, order: seq<NamespacedName>, q: seq<WatchEvent>, c: Client)
    requires StoreOk(s) && Enumerates(order, s.objects.Keys)
    ensures Complete(namespace, s.objects, q + BackfillEvents(s.objects, namespace, order), c)
  {
    BackfillQueues(s.objects, namespace, order, q);
  }

  lemma MoreKeepsInv(namespace: string, s: System, more: seq<WatchEvent>, s': System)
    requires Inv(namespace, s) && ConnOk(namespace, s') && s'.client == s.client
    requires s'.store.objects == s.store.objects && s'.store.clock == s.store.clock && Pending(s') == Pending(s) + more
    requires LinkInv(s.store.objects, s.store.clock, Pending(s) + more, s.client)
    requires Backfilled(s') ==> Complete(namespace, s.store.objects, Pending(s) + more, s.client)
    ensures Inv(namespace, s')
  {}

  lemma BackfillPending(namespace: string, s: System, pos: nat, order: seq<NamespacedName>)
    requires ConnOk(namespace, s) && pos < |s.store.slots|
    requires s.store.slots[pos].Watch? && !s.store.slots[pos].backfilled
    requires Enumerates(order, s.store.objects.Keys)
    ensures var s' := s.(store := After(s.store, Backfill(pos, order)));
            var own := s.conn.Up? && s.conn.pos == pos;
            && ConnOk(namespace, s') && (Backfilled(s') <==> own || Backfilled(s))
            && s'.store.objects == s.store.objects && s'.store.clock == s.store.clock
            && Pending(s') == Pending(s) + if own then BackfillEvents(s.store.objects, namespace, order) else []
  {
    var s' := s.(store := After(s.store, Backfill(pos, order)));
    if s.conn.Up? && s.conn.pos == pos {
      var w, sent := s.store.slots[pos], BackfillEvents(s.store.objects, namespace, order);
      assert (w.delivered + sent)[s.conn.cursor..] == w.delivered[s.conn.cursor..] + sent;
    } else {
      assert Pending(s') == Pending(s);
    }
  }

  lemma RegisterKeepsInv(namespace: string, s: System, other: string)
    requires Inv(namespace, s)
    ensures Inv(namespace, s.(store := After(s.store, Register(other))))
  {
    var s' := s.(store := After(s.store, Register(other)));
    if s.conn.Up? {
      assert s'.store.slots[s.conn.pos] == s.store.slots[s.conn.pos];
    }
    assert Pending(s') == Pending(s);
  }

  lemma DropKeepsInv(namespace: string, s: System, pos: nat)
    requires Inv(namespace, s) && !(s.conn.Up? && s.conn.pos == pos)
    ensures Inv(namespace, s.(store := After(s.store, Drop(pos))))
  {
    var s' := s.(store := After(s.store, Drop(pos)));
    if s.conn.Up? {
      assert s'.store.slots[s.conn.pos] == s.store.slots[s.conn.pos];
    }
    assert Pending(s') == Pending(s);
  }

  lemma WriteKeepsInv(namespace: string, s: System, op: Op)
    requires Inv(namespace, s) && Named(op) && (op.Create? || op.Update?)
    ensures Inv(namespace, s.(store := After(s.store, op)))
  {
    var o := Object(op.meta, s.store.clock + 1, op.content);
    if op.Create? && op.id !in s.store.objects {
      assert After(s.store, op) == Stored(s.store, o.id, o, Added);
      StoreKeepsInv(namespace, s, o, Added);
    } else if op.Update? && op.id in s.store.objects {
      assert After(s.store, op) == Stored(s.store, o.id, o, Modified);
      StoreKeepsInv(namespace, s, o, Modified);
    } else {
      assert After(s.store, op) == s.store;
    }
  }

  lemma OtherWriteKeepsInv(namespace: string, s: System)
    requires Inv(namespace, s)
    ensures Inv(namespace, s.(store := After(s.store, OtherWrite)))
  {
    assert Pending(s.(store := After(s.store, OtherWrite))) == Pending(s);
  }

  lemma ServerKeepsInv(namespace: string, s: System, op: Op)
    requires Inv(namespace, s) && Named(op) && !Interferes(s, op)
    ensures Inv(namespace, s.(store := After(s.store, op)))
  {
    match op
    case Create(_, _, _) => WriteKeepsInv(namespace, s, op);
    case Update(_, _, _) => WriteKeepsInv(namespace, s, op);
    case Delete(id) => if id in s.store.objects { DeleteKeepsInv(namespace, s, id); }
    case OtherWrite => OtherWriteKeepsInv(namespace, s);
    case Register(other) => RegisterKeepsInv(namespace, s, other);
    case Backfill(pos, order) =>
      if pos < |s.store.slots| && s.store.slots[pos].Watch? && !s.store.slots[pos].backfilled
         && Enumerates(order, s.store.objects.Keys) {
        BackfillKeepsInv(namespace, s, pos, order);
      }
    case Drop(pos) => DropKeepsInv(namespace, s, pos);
  }

  lemma ReceiveKeepsInv(namespace: string, s: System)
    requires Inv(namespace, s) && Pending(s) != []
    ensures Inv(namespace, Step(namespace, s, Receive))
  {
    var q, s' := Pending(s), Step(namespace, s, Receive);
    assert Pending(s') == q[1..];
    if Shows(q[0]) {
      ReceiveShown(s.store.objects, s.store.clock, q, s.client);
    } else {
      ReceiveDelete(s.store.objects, s.store.clock, q, s.client);
    }
    forall id, rv | Sent(s.client, id, rv) || Queued(q, id, rv)
      ensures Sent(s'.client, id, rv) || Queued(q[1..], id, rv)
    {
      if Sent(s.client, id, rv) {
        var f :| f in s.client.forwarded && Shows(f) && f.item.id == id && f.item.version == rv;
        assert f in s'.client.forwarded;
      } else {
        var i :| 0 <= i < |q| && Shows(q[i]) && q[i].item.id == id && q[i].item.version == rv;
        if i > 0 { assert q[1..][i - 1] == q[i]; }
      }
    }
  }

  lemma ConnectKeepsInv(namespace: string, s: System)
    requires Inv(namespace, s) && s.conn.Down?
    ensures Inv(namespace, Step(namespace, s, Connect))
  {
    RegisterKeepsInv(namespace, s, namespace);
    var s' := Step(namespace, s, Connect);
    assert s'.store.slots[s'.conn.pos] == Watch(namespace, [], false);
    assert Pending(s') == [];
  }

  lemma DisconnectKeepsInv(namespace: string, s: System)
    requires Inv(namespace, s) && s.conn.Up?
    ensures Inv(namespace, Step(namespace, s, Disconnect))
  {
    EmptyQueue(s.store.objects, s.store.clock, Pending(s), s.client);
    assert Pending(Step(namespace, s, Disconnect)) == [];
  }

  lemma StepKeepsInv(namespace: string, s: System, e: Event)
    requires Inv(namespace, s) && (e.Server? ==> Named(e.op))
    ensures Inv(namespace, Step(namespace, s, e))
  {
    match e
    case Server(op) => if !Interferes(s, op) { ServerKeepsInv(namespace, s, op); }
    case Connect => if s.conn.Down? { ConnectKeepsInv(namespace, s); }
    case Receive => if Pending(s) != [] { ReceiveKeepsInv(namespace, s); }
    case Disconnect => if s.conn.Up? { DisconnectKeepsInv(namespace, s); }
  }

  lemma {:induction false} RunKeepsInv(namespace: string, s: System, events: seq<Event>)
    requires Inv(namespace, s) && forall e :: e in events && e.Server? ==> Named(e.op)
    ensures Inv(namespace, Steps(namespace, s, events))
    decreases |events|
  {
    if events != [] {
      var front, e := events[..|events| - 1], events[|events| - 1];
      assert e in events;
      RunKeepsInv(namespace, s, front);
      StepKeepsInv(namespace, Steps(namespace, s, front), e);
    }
  }

  /** An empty store behind any clock, and a client that has not connected yet. */
  function FreshSystem(clock: nat): System {
    System(Store(map[], [], clock), Down, Client(map[], []))
  }

  /** De-duplication: however often the connection drops and comes back, each object's
      versions are sent on in strictly increasing order, hence each at most once; and once a
      backfilled connection has been read to its end, every watched object's current version
      has been sent on. */
  lemma Deduplication(namespace: string, clock: nat, events: seq<Event>)
    requires forall e :: e in events && e.Server? ==> Named(e.op)
    ensures var s := Steps(namespace, FreshSystem(clock), events);
            && Increasing(s.client.forwarded)
            && (Backfilled(s) && Pending(s) == [] ==>
                  forall id :: id in s.store.objects && Selects(namespace, s.store.objects[id]) ==>
                    Sent(s.client, id, s.store.objects[id].version))
  {
    RunKeepsInv(namespace, FreshSystem(clock), events);
  }

  // What is sent on, told from what was received.

  /** The last of the events about an object shows this version of it. */
  ghost predicate LastShows(received: seq<WatchEvent>, id: NamespacedName, rv: nat) {
    exists j :: 0 <= j < |received| && received[j].item.id == id && !received[j].kind.Deleted?
                && received[j].item.version == rv && forall k :: j < k < |received| ==> received[k].item.id != id
  }

  /** Deletes, and what does not show again the version shown last. */
  ghost function SentOn(received: seq<WatchEvent>): set<nat> {
    set i: nat | i < |received| &&
      (received[i].kind.Deleted? || !LastShows(received[..i], received[i].item.id, received[i].item.version))
  }

  ghost predicate Remembers(lastRV: map<NamespacedName, nat>, received: seq<WatchEvent>) {
    forall id, rv :: LastShows(received, id, rv) <==> id in lastRV && lastRV[id] == rv
  }

  lemma LastShowsSnoc(received: seq<WatchEvent>, ev: WatchEvent, id: NamespacedName, rv: nat)
    ensures LastShows(received + [ev], id, rv) <==>
            if ev.item.id == id then !ev.kind.Deleted? && ev.item.version == rv else LastShows(received, id, rv)
  {
    var all := received + [ev];
    assert all[|received|] == ev && forall j :: 0 <= j < |received| ==> all[j] == received[j];
    if ev.item.id != id && LastShows(received, id, rv) {
      var j :| 0 <= j < |received| && received[j].item.id == id && !received[j].kind.Deleted?
               && received[j].item.version == rv && forall k :: j < k < |received| ==> received[k].item.id != id;
      assert all[j] == received[j];
    }
  }

  lemma SentOnSnoc(received: seq<WatchEvent>, ev: WatchEvent)
    ensures forall i :: i in SentOn(received) ==> i < |received|
    ensures SentOn(received + [ev]) == SentOn(received) +
              if ev.kind.Deleted? || !LastShows(received, ev.item.id, ev.item.version) then {|received|} else {}
  {
    var all := received + [ev];
    assert forall i :: 0 <= i <= |received| ==> all[..i] == received[..i];
    assert received[..|received|] == received;
  }

  lemma RemembersSnoc(lastRV: map<NamespacedName, nat>, received: seq<WatchEvent>, ev: WatchEvent)
    requires Remembers(lastRV, received)
    ensures Remembers(if ev.kind.Deleted? then lastRV - {ev.item.id} else lastRV[ev.item.id := ev.item.version],
                      received + [ev])
  {
    var after := if ev.kind.Deleted? then lastRV - {ev.item.id} else lastRV[ev.item.id := ev.item.version];
    forall id, rv ensures LastShows(received + [ev], id, rv) <==> id in after && after[id] == rv {
      LastShowsSnoc(received, ev, id, rv);
    }
  }

  /** From the events received alone: every delete is sent on, and an added or modified object
      exactly if the event before it about that object did not show the same version; all in the
      order received. */
  lemma {:induction false} SentOnExactly(received: seq<WatchEvent>) returns (idx: seq<nat>)
    ensures Ascends(idx, SentOn(received)) && forall i :: i in idx ==> i < |received|
    ensures HandleAll(Client(map[], []), received).forwarded == Chosen(received, idx)
    ensures Remembers(HandleAll(Client(map[], []), received).lastRV, received)
  {
    if received == [] {
      idx := [];
    } else {
      var front, ev := received[..|received| - 1], received[|received| - 1];
      assert front + [ev] == received;
      idx := SentOnExactly(front);
      var c := HandleAll(Client(map[], []), front);
      HandleAllSnoc(Client(map[], []), front, ev);
      SentOnSnoc(front, ev);
      RemembersSnoc(c.lastRV, front, ev);
      ChosenSnoc(front, idx, ev);
      if ev.kind.Deleted? || !LastShows(front, ev.item.id, ev.item.version) {
        AscendsSnoc(idx, SentOn(front), |front|);
        idx := idx + [|front|];
      } else {
        assert c.lastRV[ev.item.id := ev.item.version] == c.lastRV;
      }
    }
  }

  function Deletes(events: seq<WatchEvent>): seq<WatchEvent> {
    if events == [] then []
    else
      var last := events[|events| - 1];
      Deletes(events[..|events| - 1]) + if last.kind.Deleted? then [last] else []
  }

  lemma {:induction false} DeletesAreSentOn(received: seq<WatchEvent>)
    ensures Deletes(HandleAll(Client(map[], []), received).forwarded) == Deletes(received)
  {
    if received != [] {
      var front, ev := received[..|received| - 1], received[|received| - 1];
      DeletesAreSentOn(front);
      assert front + [ev] == received;
      HandleAllSnoc(Client(map[], []), front, ev);
      var before := HandleAll(Client(map[], []), front).forwarded;
      assert (before + [ev])[..|before|] == before;
    }
  }

  /** What has come in over all the connections so far. */
  ghost function Received(namespace: string, s: System, events: seq<Event>): seq<WatchEvent> {
    if events == [] then []
    else
      var front := events[..|events| - 1];
      var before := Steps(namespace, s, front);
      Received(namespace, s, front) +
      if events[|events| - 1].Receive? && Pending(before) != [] then [Pending(before)[0]] else []
  }

  lemma {:induction false} ClientHandlesReceived(namespace: string, clock: nat, events: seq<Event>)
    ensures Steps(namespace, FreshSystem(clock), events).client
         == HandleAll(Client(map[], []), Received(namespace, FreshSystem(clock), events))
  {
    if events != [] {
      var front := events[..|events| - 1];
      var before := Steps(namespace, FreshSystem(clock), front);
      ClientHandlesReceived(namespace, clock, front);
      if events[|events| - 1].Receive? && Pending(before) != [] {
        HandleAllSnoc(Client(map[], []), Received(namespace, FreshSystem(clock), front), Pending(before)[0]);
      } else {
        assert Received(namespace, FreshSystem(clock), events) == Received(namespace, FreshSystem(clock), front);
      }
    }
  }

  /** The same of every run, over any number of connections. */
  lemma RunsSendOnExactly(namespace: string, clock: nat, events: seq<Event>) returns (idx: seq<nat>)
    ensures var received := Received(namespace, FreshSystem(clock), events);
            var forwarded := Steps(namespace, FreshSystem(clock), events).client.forwarded;
            && Ascends(idx, SentOn(received)) && (forall i :: i in idx ==> i < |received|)
            && forwarded == Chosen(received, idx) && Deletes(forwarded) == Deletes(received)
  {
    ClientHandlesReceived(namespace, clock, events);
    idx := SentOnExactly(Received(namespace, FreshSystem(clock), events));
    DeletesAreSentOn(Received(namespace, FreshSystem(clock), events));
  }

  // The event loop.

  datatype ClientEvent = Bookmark | Failure | Change(event: WatchEvent)

  /** The changes a connection carries: bookmarks are skipped and a failure ends it. */
  function Changes(events: seq<ClientEvent>): seq<WatchEvent> {
    if events == [] then []
    else match events[0]
      case Failure => []
      case Bookmark => Changes(events[1..])
      case Change(ev) => [ev] + Changes(events[1..])
  }

  lemma {:induction false} ChangesConcat(a: seq<ClientEvent>, b: seq<ClientEvent>)
    requires Failure !in a
    ensures Changes(a + b) == Changes(a) + Changes(b)
  {
    if a == [] {
      assert a + b == b;
    } else {
      assert (a + b)[0] == a[0] && (a + b)[1..] == a[1..] + b;
      ChangesConcat(a[1..], b);
    }
  }

  /** Up to the first failure every change counts, and nothing else does. */
  lemma ChangesExactly(a: seq<ClientEvent>, e: ClientEvent, b: seq<ClientEvent>)
    requires Failure !in a
    ensures Changes(a + ([e] + b)) == Changes(a) +
            if e.Failure? then [] else if e.Bookmark? then Changes(b) else [e.event] + Changes(b)
  {
    ChangesConcat(a, [e] + b);
    FirstChange(e, b);
  }

  lemma FirstChange(e: ClientEvent, b: seq<ClientEvent>)
    ensures Changes([e] + b) ==
            if e.Failure? then [] else if e.Bookmark? then Changes(b) else [e.event] + Changes(b)
  {
    assert ([e] + b)[0] == e && ([e] + b)[1..] == b;
  }

  function HandleAll(c: Client, events: seq<WatchEvent>): Client
    decreases |events|
  {
    if events == [] then c else HandleAll(Handle(c, events[0]), events[1..])
  }

  lemma {:induction false} HandleAllSnoc(c: Client, events: seq<WatchEvent>, ev: WatchEvent)
    ensures HandleAll(c, events + [ev]) == Handle(HandleAll(c, events), ev)
    decreases |events|
  {
    if events == [] {
      assert HandleAll(Handle(c, ev), []) == Handle(c, ev);
      assert ([] + [ev])[1..] == [];
    } else {
      assert (events + [ev])[1..] == events[1..] + [ev];
      HandleAllSnoc(Handle(c, events[0]), events[1..], ev);
    }
  }

  lemma {:induction false} HandleAllConcat(c: Client, a: seq<WatchEvent>, b: seq<WatchEvent>)
    ensures HandleAll(c, a + b) == HandleAll(HandleAll(c, a), b)
    decreases |a|
  {
    if a == [] {
      assert a + b == b;
    } else {
      assert (a + b)[1..] == a[1..] + b;
      HandleAllConcat(Handle(c, a[0]), a[1..], b);
    }
  }

  lemma ReceiveReads(s: System)
    requires Pending(s) != []
    ensures var s' := ReceiveStep(s);
            s'.client == Handle(s.client, Pending(s)[0]) && Pending(s') == Pending(s)[1..] && s'.store == s.store
  {}

  function Receives(n: nat): seq<Event> {
    seq(n, _ => Receive)
  }

  ghost function ReadMany(s: System, n: nat): System {
    if n == 0 then s else ReceiveStep(ReadMany(s, n - 1))
  }

  lemma ReceiveSnoc(namespace: string, s: System, events: seq<Event>)
    ensures Steps(namespace, s, events + [Receive]) == ReceiveStep(Steps(namespace, s, events))
  {
    assert (events + [Receive])[..|events|] == events;
  }

  lemma {:induction false} ReceivesRead(namespace: string, s: System, n: nat)
    ensures Steps(namespace, s, Receives(n)) == ReadMany(s, n)
  {
    if n > 0 {
      ReceivesRead(namespace, s, n - 1);
      ReceiveSnoc(namespace, s, Receives(n - 1));
      assert Receives(n) == Receives(n - 1) + [Receive];
    }
  }

  lemma {:induction false} ReadManyHandles(s: System, n: nat)
    requires n <= |Pending(s)|
    ensures var s' := ReadMany(s, n);
            s'.client == HandleAll(s.client, Pending(s)[..n]) && Pending(s') == Pending(s)[n..] && s'.store == s.store
  {
    if n == 0 {
      assert Pending(s)[..n] == [] && Pending(s)[n..] == Pending(s);
    } else {
      ReadManyHandles(s, n - 1);
      OneMoreHandled(s.client, Pending(s), n);
      ReceiveReads(ReadMany(s, n - 1));
    }
  }

  /** Reading `n` events of a connection is `n` receive steps of the system. */
  lemma ReadingIsReceiving(namespace: string, s: System, n: nat)
    requires n <= |Pending(s)|
    ensures var s' := Steps(namespace, s, Receives(n));
            s'.client == HandleAll(s.client, Pending(s)[..n]) && Pending(s') == Pending(s)[n..] && s'.store == s.store
  {
    ReceivesRead(namespace, s, n);
    ReadManyHandles(s, n);
  }

  lemma OneMoreHandled(c: Client, q: seq<WatchEvent>, n: nat)
    requires 0 < n <= |q|
    ensures HandleAll(c, q[..n]) == Handle(HandleAll(c, q[..n - 1]), q[n - 1])
    ensures q[n - 1..] != [] && q[n - 1..][0] == q[n - 1] && q[n - 1..][1..] == q[n..]
  {
    assert q[..n] == q[..n - 1] + [q[n - 1]];
    HandleAllSnoc(c, q[..n - 1], q[n - 1]);
  }

  class DynamicKindWatch {
    var lastRV: map<NamespacedName, nat>
    var events: seq<WatchEvent>
    /** The changes of all connections so far. */
    ghost var received: seq<WatchEvent>

    ghost function State(): Client
      reads this
    {
      Client(lastRV, events)
    }

    ghost predicate Valid()
      reads this
    {
      State() == HandleAll(Client(map[], []), received)
    }

    constructor ()
      ensures Valid() && received == []
    {
      lastRV, events, received := map[], [], [];
    }

    /** Reads one connection until it closes or fails. */
    method WatchUntilClosed(results: seq<ClientEvent>) returns (ghost idx: seq<nat>)
      requires Valid()
      modifies this
      ensures Valid() && received == old(received) + Changes(results)
      ensures Ascends(idx, SentOn(received)) && forall i :: i in idx ==> i < |received|
      ensures events == Chosen(received, idx) && Deletes(events) == Deletes(received)
    {
      ReadUntilClosed(results);
      HandleAllConcat(Client(map[], []), received, Changes(results));
      received := received + Changes(results);
      idx := SentOnExactly(received);
      DeletesAreSentOn(received);
    }

    method ReadUntilClosed(results: seq<ClientEvent>)
      modifies this`lastRV, this`events
      ensures State() == HandleAll(old(State()), Changes(results))
    {
      for i := 0 to |results|
        invariant HandleAll(State(), Changes(results[i..])) == HandleAll(old(State()), Changes(results))
      {
        assert results[i..][1..] == results[i + 1..];
        if results[i].Bookmark? {
          continue;
        }
        if results[i].Failure? {
          return;
        }
        var ev := results[i].event;
        var key, rv := ev.item.id, ev.item.version;
        assert Changes(results[i..]) == [ev] + Changes(results[i + 1..]);
        assert ([ev] + Changes(results[i + 1..]))[1..] == Changes(results[i + 1..]);
        if ev.kind.Deleted? {
          lastRV := lastRV - {key};
        } else {
          if key in lastRV && lastRV[key] == rv {
            continue;
          }
          lastRV := lastRV[key := rv];
        }
        events := events + [ev];
      }
    }
  }
}
