/** The mock API server's store for one resource, and the watches on it. */
module Storage {
  import opened Collections

  datatype NamespacedName = NamespacedName(namespace: string, name: string)

  /** An object as its metadata names it; `version` is its resource version. */
  datatype Object = Object(id: NamespacedName, version: nat, content: string)

  datatype EventType = Added | Modified | Deleted
  datatype WatchEvent = WatchEvent(kind: EventType, item: Object)

  /** A watch slot: free, or a watch with everything its callback was given so far. */
  datatype Slot = Free | Watch(namespace: string, delivered: seq<WatchEvent>, backfilled: bool)

  datatype Store = Store(objects: map<NamespacedName, Object>, slots: seq<Slot>, clock: nat)

  /** One critical section of the store. `OtherWrite` is a write to another resource,
      which shares the version clock; a backfill names the order Go ranged over the map. */
  datatype Op =
    | Create(id: NamespacedName, meta: NamespacedName, content: string)
    | Update(id: NamespacedName, meta: NamespacedName, content: string)
    | Delete(id: NamespacedName)
    | OtherWrite
    | Register(namespace: string)
    | Backfill(pos: nat, order: seq<NamespacedName>)
    | Drop(pos: nat)

  predicate Selects(namespace: string, o: Object) {
    namespace == "" || o.id.namespace == namespace
  }

  function Deliver(slot: Slot, ev: WatchEvent): Slot {
    if slot.Watch? && Selects(slot.namespace, ev.item) then slot.(delivered := slot.delivered + [ev]) else slot
  }

  function Broadcast(slots: seq<Slot>, ev: WatchEvent): seq<Slot> {
    seq(|slots|, i requires 0 <= i < |slots| => Deliver(slots[i], ev))
  }

  function Stored(s: Store, id: NamespacedName, o: Object, kind: EventType): Store {
    Store(s.objects[id := o], Broadcast(s.slots, WatchEvent(kind, o)), o.version)
  }

  function FreeSlot(slots: seq<Slot>): (pos: nat)
    ensures pos <= |slots|
    ensures pos < |slots| ==> slots[pos].Free?
    ensures forall i :: 0 <= i < pos ==> slots[i].Watch?
  {
    if slots == [] || slots[0].Free? then 0 else 1 + FreeSlot(slots[1..])
  }

  function Registered(slots: seq<Slot>, slot: Slot): seq<Slot> {
    var pos := FreeSlot(slots);
    if pos < |slots| then slots[pos := slot] else slots + [slot]
  }

  function BackfillEvents(objects: map<NamespacedName, Object>, namespace: string,
                          order: seq<NamespacedName>): seq<WatchEvent> {
    if order == [] then []
    else
      var front, id := BackfillEvents(objects, namespace, order[..|order| - 1]), order[|order| - 1];
      if id in objects && Selects(namespace, objects[id]) then front + [WatchEvent(Added, objects[id])] else front
  }

  ghost function After(s: Store, op: Op): Store {
    match op
    case Create(id, meta, content) =>
      if id in s.objects then s else Stored(s, id, Object(meta, s.clock + 1, content), Added)
    case Update(id, meta, content) =>
      if id !in s.objects then s else Stored(s, id, Object(meta, s.clock + 1, content), Modified)
    case Delete(id) =>
      if id !in s.objects then s
      else Store(s.objects - {id}, Broadcast(s.slots, WatchEvent(Deleted, s.objects[id])), s.clock)
    case OtherWrite => s.(clock := s.clock + 1)
    case Register(namespace) => s.(slots := Registered(s.slots, Watch(namespace, [], false)))
    case Backfill(pos, order) =>
      if pos < |s.slots| && s.slots[pos].Watch? && !s.slots[pos].backfilled && Enumerates(order, s.objects.Keys) then
        var w := s.slots[pos];
        var sent := BackfillEvents(s.objects, w.namespace, order);
        s.(slots := s.slots[pos := Watch(w.namespace, w.delivered + sent, true)])
      else s
    case Drop(pos) => if pos < |s.slots| then s.(slots := s.slots[pos := Free]) else s
  }

  ghost function Steps(s: Store, ops: seq<Op>): Store {
    if ops == [] then s else After(Steps(s, ops[..|ops| - 1]), ops[|ops| - 1])
  }

  /** What a client that upserts on add and modify and removes on delete holds. */
  function View(events: seq<WatchEvent>): map<NamespacedName, Object> {
    if events == [] then map[]
    else
      var before, ev := View(events[..|events| - 1]), events[|events| - 1];
      if ev.kind.Deleted? then before - {ev.item.id} else before[ev.item.id := ev.item]
  }

  lemma ViewSnoc(events: seq<WatchEvent>, ev: WatchEvent)
    ensures View(events + [ev]) ==
            if ev.kind.Deleted? then View(events) - {ev.item.id} else View(events)[ev.item.id := ev.item]
  {
    assert (events + [ev])[..|events|] == events;
  }

  ghost function Watched(objects: map<NamespacedName, Object>, namespace: string): map<NamespacedName, Object> {
    map id | id in objects && Selects(namespace, objects[id]) :: objects[id]
  }

  ghost predicate Within(a: map<NamespacedName, Object>, b: map<NamespacedName, Object>) {
    forall id :: id in a ==> id in b && a[id] == b[id]
  }

  /** The object was stored under the name its metadata gives. */
  predicate Named(op: Op) {
    op.Create? || op.Update? ==> op.meta == op.id
  }

  ghost predicate StoreOk(s: Store) {
    forall id :: id in s.objects ==> s.objects[id].id == id && s.objects[id].version <= s.clock
  }

  /** Before its backfill a watch shows nothing wrong; after it, everything right. */
  ghost predicate SlotOk(objects: map<NamespacedName, Object>, slot: Slot) {
    slot.Watch? ==>
      if slot.backfilled then View(slot.delivered) == Watched(objects, slot.namespace)
      else Within(View(slot.delivered), Watched(objects, slot.namespace))
  }

  ghost predicate Inv(s: Store) {
    StoreOk(s) && forall i :: 0 <= i < |s.slots| ==> SlotOk(s.objects, s.slots[i])
  }

  lemma WatchedAfterStore(s: Store, namespace: string, o: Object)
    requires StoreOk(s)
    ensures var before, after := Watched(s.objects, namespace), Watched(s.objects[o.id := o], namespace);
            after == if Selects(namespace, o) then before[o.id := o] else before
  {
    var before, after := Watched(s.objects, namespace), Watched(s.objects[o.id := o], namespace);
    var expected := if Selects(namespace, o) then before[o.id := o] else before;
    assert forall id :: id in after <==> id in expected;
    assert forall id :: id in after ==> after[id] == expected[id];
  }

  lemma WatchedAfterDelete(s: Store, namespace: string, id: NamespacedName)
    ensures Watched(s.objects - {id}, namespace) == Watched(s.objects, namespace) - {id}
  {}

  lemma StoreDelivers(s: Store, o: Object, kind: EventType, slot: Slot)
    requires StoreOk(s) && SlotOk(s.objects, slot) && !kind.Deleted?
    ensures SlotOk(s.objects[o.id := o], Deliver(slot, WatchEvent(kind, o)))
  {
    if slot.Watch? {
      WatchedAfterStore(s, slot.namespace, o);
      if Selects(slot.namespace, o) {
        ViewSnoc(slot.delivered, WatchEvent(kind, o));
      }
    }
  }

  lemma DeleteDelivers(s: Store, id: NamespacedName, slot: Slot)
    requires StoreOk(s) && SlotOk(s.objects, slot) && id in s.objects
    ensures SlotOk(s.objects - {id}, Deliver(slot, WatchEvent(Deleted, s.objects[id])))
  {
    if slot.Watch? {
      WatchedAfterDelete(s, slot.namespace, id);
      if Selects(slot.namespace, s.objects[id]) {
        ViewSnoc(slot.delivered, WatchEvent(Deleted, s.objects[id]));
      }
    }
  }

  lemma StoredKeepsInv(s: Store, o: Object, kind: EventType)
    requires Inv(s) && o.version == s.clock + 1 && !kind.Deleted?
    ensures Inv(Stored(s, o.id, o, kind))
  {
    forall i | 0 <= i < |s.slots| ensures SlotOk(s.objects[o.id := o], Deliver(s.slots[i], WatchEvent(kind, o))) {
      StoreDelivers(s, o, kind, s.slots[i]);
    }
  }

  lemma CreateKeepsInv(s: Store, id: NamespacedName, content: string)
    requires Inv(s)
    ensures Inv(After(s, Create(id, id, content)))
  {
    if id !in s.objects {
      StoredKeepsInv(s, Object(id, s.clock + 1, content), Added);
      assert After(s, Create(id, id, content)) == Stored(s, id, Object(id, s.clock + 1, content), Added);
    } else {
      assert After(s, Create(id, id, content)) == s;
    }
  }

  lemma UpdateKeepsInv(s: Store, id: NamespacedName, content: string)
    requires Inv(s)
    ensures Inv(After(s, Update(id, id, content)))
  {
    if id in s.objects {
      StoredKeepsInv(s, Object(id, s.clock + 1, content), Modified);
      assert After(s, Update(id, id, content)) == Stored(s, id, Object(id, s.clock + 1, content), Modified);
    } else {
      assert After(s, Update(id, id, content)) == s;
    }
  }

  lemma DropKeepsInv(s: Store, pos: nat)
    requires Inv(s)
    ensures Inv(After(s, Drop(pos)))
  {}

  lemma DeletedKeepsInv(s: Store, id: NamespacedName)
    requires Inv(s)
    ensures Inv(After(s, Delete(id)))
  {
    if id in s.objects {
      forall i | 0 <= i < |s.slots|
        ensures SlotOk(s.objects - {id}, Deliver(s.slots[i], WatchEvent(Deleted, s.objects[id])))
      {
        DeleteDelivers(s, id, s.slots[i]);
      }
    }
  }

  lemma {:induction false} BackfillShows(s: Store, w: Slot, order: seq<NamespacedName>)
    requires StoreOk(s) && w.Watch? && Within(View(w.delivered), Watched(s.objects, w.namespace))
    ensures var view := View(w.delivered + BackfillEvents(s.objects, w.namespace, order));
            && Within(view, Watched(s.objects, w.namespace))
            && forall id :: id in order && id in Watched(s.objects, w.namespace) ==> id in view
    decreases |order|
  {
    if order == [] {
      assert w.delivered + [] == w.delivered;
    } else {
      var front, id := order[..|order| - 1], order[|order| - 1];
      BackfillShows(s, w, front);
      assert forall x :: x in order ==> x in front || x == id;
      if id in s.objects && Selects(w.namespace, s.objects[id]) {
        var events := w.delivered + BackfillEvents(s.objects, w.namespace, front);
        ViewSnoc(events, WatchEvent(Added, s.objects[id]));
        assert w.delivered + BackfillEvents(s.objects, w.namespace, order) ==
                 events + [WatchEvent(Added, s.objects[id])];
      }
    }
  }

  /** A backfill sends each stored object the watch selects once, as added, in the order the
      names came in. */
  lemma {:induction false} BackfillSendsEach(objects: map<NamespacedName, Object>, namespace: string,
                                             order: seq<NamespacedName>)
    returns (idx: seq<nat>)
    requires forall id :: id in order ==> id in objects
    ensures Ascends(idx, set i | 0 <= i < |order| &&
                                 (namespace == "" || objects[order[i]].id.namespace == namespace))
    ensures var sent := BackfillEvents(objects, namespace, order);
            |sent| == |idx| && forall k :: 0 <= k < |idx| ==>
              idx[k] < |order| && sent[k] == WatchEvent(Added, objects[order[idx[k]]])
  {
    if order == [] {
      idx := [];
    } else {
      var front, id := order[..|order| - 1], order[|order| - 1];
      idx := BackfillSendsEach(objects, namespace, front);
      var selected := set i | 0 <= i < |front| && (namespace == "" || objects[front[i]].id.namespace == namespace);
      var all := set i | 0 <= i < |order| && (namespace == "" || objects[order[i]].id.namespace == namespace);
      if namespace == "" || objects[id].id.namespace == namespace {
        assert all == selected + {|front|};
        AscendsSnoc(idx, selected, |front|);
        idx := idx + [|front|];
      } else {
        assert all == selected;
      }
    }
  }

  lemma BackfillKeepsInv(s: Store, pos: nat, order: seq<NamespacedName>)
    requires Inv(s)
    ensures Inv(After(s, Backfill(pos, order)))
  {
    if pos < |s.slots| && s.slots[pos].Watch? && !s.slots[pos].backfilled && Enumerates(order, s.objects.Keys) {
      var w := s.slots[pos];
      BackfillShows(s, w, order);
      assert View(w.delivered + BackfillEvents(s.objects, w.namespace, order)) == Watched(s.objects, w.namespace);
    }
  }

  lemma RegisterKeepsInv(s: Store, namespace: string)
    requires Inv(s)
    ensures Inv(After(s, Register(namespace)))
  {
    assert SlotOk(s.objects, Watch(namespace, [], false));
  }

  lemma StepKeepsInv(s: Store, op: Op)
    requires Inv(s) && Named(op)
    ensures Inv(After(s, op))
  {
    match op
    case Create(id, meta, content) => CreateKeepsInv(s, id, content);
    case Update(id, meta, content) => UpdateKeepsInv(s, id, content);
    case Delete(id) => DeletedKeepsInv(s, id);
    case OtherWrite =>
    case Register(namespace) => RegisterKeepsInv(s, namespace);
    case Backfill(pos, order) => BackfillKeepsInv(s, pos, order);
    case Drop(pos) => DropKeepsInv(s, pos);
  }

  lemma {:induction false} RunKeepsInv(s: Store, ops: seq<Op>)
    requires Inv(s) && forall op :: op in ops ==> Named(op)
    ensures Inv(Steps(s, ops))
    decreases |ops|
  {
    if ops != [] {
      var front, op := ops[..|ops| - 1], ops[|ops| - 1];
      assert op in ops;
      RunKeepsInv(s, front);
      StepKeepsInv(Steps(s, front), op);
    }
  }

  /** Replay agreement: under every interleaving of writes with the two sections of every
      watch, a backfilled watch's client holds exactly the stored objects it watches. */
  lemma ReplayAgreement(ops: seq<Op>, pos: nat)
    requires forall op :: op in ops ==> Named(op)
    requires var s := Steps(Store(map[], [], 0), ops); pos < |s.slots| && s.slots[pos].Watch? && s.slots[pos].backfilled
    ensures var s := Steps(Store(map[], [], 0), ops);
            View(s.slots[pos].delivered) == Watched(s.objects, s.slots[pos].namespace)
  {
    RunKeepsInv(Store(map[], [], 0), ops);
    assert SlotOk(Steps(Store(map[], [], 0), ops).objects, Steps(Store(map[], [], 0), ops).slots[pos]);
  }

  // What is stored.

  const EMPTY := Store(map[], [], 0)

  lemma AfterHolds(s: Store, op: Op, id: NamespacedName)
    ensures var writes := (op.Create? && op.id == id && id !in s.objects) ||
                          (op.Update? && op.id == id && id in s.objects);
            && (id in After(s, op).objects <==> (op.Create? && op.id == id) || (id in s.objects && op != Delete(id)))
            && var now := After(s, op).objects;
               id in now ==> now[id] == if writes then Object(op.meta, s.clock + 1, op.content) else s.objects[id]
  {}

  /** A name is taken exactly if it was created and not deleted since. */
  lemma {:induction false} StoredExactlyIfCreated(ops: seq<Op>, id: NamespacedName)
    ensures id in Steps(EMPTY, ops).objects <==>
            exists i :: 0 <= i < |ops| && ops[i].Create? && ops[i].id == id && Delete(id) !in ops[i..]
  {
    if ops != [] {
      var front, op := ops[..|ops| - 1], ops[|ops| - 1];
      StoredExactlyIfCreated(front, id);
      AfterHolds(Steps(EMPTY, front), op, id);
      assert forall i :: 0 <= i < |front| ==> front[i] == ops[i] && ops[i..] == front[i..] + [op];
      assert ops[|front|..] == [op];
    }
  }

  /** What is stored is what the last update of the name, or else its creation, was given, under
      the version that followed the clock. */
  lemma {:induction false} StoredIsLastWritten(ops: seq<Op>, id: NamespacedName) returns (i: nat)
    requires id in Steps(EMPTY, ops).objects
    ensures i < |ops| && (ops[i].Create? || ops[i].Update?) && ops[i].id == id
    ensures Steps(EMPTY, ops).objects[id] == Object(ops[i].meta, Steps(EMPTY, ops[..i]).clock + 1, ops[i].content)
    ensures forall j :: i < j < |ops| ==> ops[j] != Delete(id) && !(ops[j].Update? && ops[j].id == id)
  {
    var front, op := ops[..|ops| - 1], ops[|ops| - 1];
    var before := Steps(EMPTY, front);
    AfterHolds(before, op, id);
    if (op.Create? && op.id == id && id !in before.objects) || (op.Update? && op.id == id) {
      i := |front|;
    } else {
      i := StoredIsLastWritten(front, id);
      assert front[..i] == ops[..i];
      assert forall j :: 0 <= j < |front| ==> front[j] == ops[j];
    }
  }

  /** The naming condition is exact: a write under another name breaks agreement of every
      watch that sees the old or the new object. */
  lemma MisnamedWriteBreaksAgreement(s: Store, id: NamespacedName, meta: NamespacedName, content: string, slot: Slot)
    requires StoreOk(s) && slot.Watch? && slot.backfilled && SlotOk(s.objects, slot)
    ensures var o := Object(meta, s.clock + 1, content);
            var kind := if id in s.objects then Modified else Added;
            var seen := Selects(slot.namespace, o) || (id in s.objects && Selects(slot.namespace, s.objects[id]));
            SlotOk(s.objects[id := o], Deliver(slot, WatchEvent(kind, o))) <==> meta == id || !seen
  {
    var o := Object(meta, s.clock + 1, content);
    var kind := if id in s.objects then Modified else Added;
    if meta == id {
      StoreDelivers(s, o, kind, slot);
    } else if Selects(slot.namespace, o) {
      MisnamedIsSeen(s, id, o, slot, kind);
    } else {
      MisnamedIsUnseen(s, id, o, slot);
    }
  }

  /** The watch is not told, and is wrong if what it should no longer show was shown. */
  lemma MisnamedIsUnseen(s: Store, id: NamespacedName, o: Object, slot: Slot)
    requires slot.Watch? && slot.backfilled && SlotOk(s.objects, slot) && !Selects(slot.namespace, o)
    ensures SlotOk(s.objects[id := o], slot) <==> !(id in s.objects && Selects(slot.namespace, s.objects[id]))
  {
    var before, after := Watched(s.objects, slot.namespace), Watched(s.objects[id := o], slot.namespace);
    if id in s.objects && Selects(slot.namespace, s.objects[id]) {
      assert id in before && id !in after;
    } else {
      assert before == after;
    }
  }

  /** The watch files the object under the name it gives itself, the store under another. */
  lemma MisnamedIsSeen(s: Store, id: NamespacedName, o: Object, slot: Slot, kind: EventType)
    requires StoreOk(s) && slot.Watch? && slot.backfilled && SlotOk(s.objects, slot) && !kind.Deleted?
    requires o.id != id && o.version > s.clock && Selects(slot.namespace, o)
    ensures !SlotOk(s.objects[id := o], Deliver(slot, WatchEvent(kind, o)))
  {
    var view := View(slot.delivered + [WatchEvent(kind, o)]);
    ViewSnoc(slot.delivered, WatchEvent(kind, o));
    var before, after := Watched(s.objects, slot.namespace), Watched(s.objects[id := o], slot.namespace);
    assert id in after && after[id] == o;
    assert view == before[o.id := o];
    assert id in before ==> before[id].version <= s.clock;
    assert id in view ==> view[id] != o;
  }

  /** The store as the server runs it: one object, a slot per watch, one lock. */
  class ResourceStorage {
    var objects: map<NamespacedName, Object>
    var watches: seq<Slot>
    var clock: nat

    ghost function State(): Store
      reads this
    {
      Store(objects, watches, clock)
    }

    constructor ()
      ensures State() == Store(map[], [], 0)
    {
      objects, watches, clock := map[], [], 0;
    }

    /** Calls the callback of every watch that selects the object. */
    method BroadcastHoldingLock(kind: EventType, o: Object)
      modifies this`watches
      ensures watches == Broadcast(old(watches), WatchEvent(kind, o))
    {
      var ev := WatchEvent(kind, o);
      for i := 0 to |watches|
        invariant |watches| == |old(watches)|
        invariant forall j :: 0 <= j < i ==> watches[j] == Deliver(old(watches)[j], ev)
        invariant forall j :: i <= j < |watches| ==> watches[j] == old(watches)[j]
      {
        var w := watches[i];
        if w.Free? || (w.namespace != "" && o.id.namespace != w.namespace) {
          continue;
        }
        watches := watches[i := w.(delivered := w.delivered + [ev])];
      }
    }

    method CreateObject(id: NamespacedName, meta: NamespacedName, content: string) returns (ok: bool)
      modifies this
      ensures ok <==> id !in old(objects)
      ensures objects == if ok then old(objects)[id := Object(meta, old(clock) + 1, content)] else old(objects)
      ensures clock == if ok then old(clock) + 1 else old(clock)
      ensures |watches| == |old(watches)| && forall i :: 0 <= i < |watches| ==>
                var w := old(watches)[i];
                watches[i] ==
                  if ok && w.Watch? && (w.namespace == "" || w.namespace == meta.namespace)
                  then Watch(w.namespace, w.delivered + [WatchEvent(Added, objects[id])], w.backfilled) else w
      ensures State() == After(old(State()), Create(id, meta, content))
    {
      if id in objects {
        return false;
      }
      clock := clock + 1;
      var o := Object(meta, clock, content);
      objects := objects[id := o];
      BroadcastHoldingLock(Added, o);
      ok := true;
    }

    method UpdateObject(id: NamespacedName, meta: NamespacedName, content: string) returns (ok: bool)
      modifies this
      ensures ok <==> id in old(objects)
      ensures objects == if ok then old(objects)[id := Object(meta, old(clock) + 1, content)] else old(objects)
      ensures clock == if ok then old(clock) + 1 else old(clock)
      ensures |watches| == |old(watches)| && forall i :: 0 <= i < |watches| ==>
                var w := old(watches)[i];
                watches[i] ==
                  if ok && w.Watch? && (w.namespace == "" || w.namespace == meta.namespace)
                  then Watch(w.namespace, w.delivered + [WatchEvent(Modified, objects[id])], w.backfilled) else w
      ensures State() == After(old(State()), Update(id, meta, content))
    {
      if id !in objects {
        return false;
      }
      clock := clock + 1;
      var o := Object(meta, clock, content);
      objects := objects[id := o];
      BroadcastHoldingLock(Modified, o);
      ok := true;
    }

    method DeleteObject(id: NamespacedName) returns (deleted: Option<Object>)
      modifies this
      ensures deleted == if id in old(objects) then Some(old(objects)[id]) else None
      ensures objects == old(objects) - {id} && clock == old(clock)
      ensures |watches| == |old(watches)| && forall i :: 0 <= i < |watches| ==>
                var w := old(watches)[i];
                watches[i] ==
                  if deleted.Some? && w.Watch? && (w.namespace == "" || w.namespace == deleted.value.id.namespace)
                  then Watch(w.namespace, w.delivered + [WatchEvent(Deleted, deleted.value)], w.backfilled) else w
      ensures State() == After(old(State()), Delete(id))
    {
      if id !in objects {
        return None;
      }
      deleted := Some(objects[id]);
      objects := objects - {id};
      BroadcastHoldingLock(Deleted, deleted.value);
    }

    /** The first locked section of `watch`: take a free slot or a new one. */
    method RegisterWatch(namespace: string) returns (pos: nat)
      modifies this`watches
      ensures pos == FreeSlot(old(watches)) && pos < |watches| && watches[pos] == Watch(namespace, [], false)
      ensures forall i :: 0 <= i < |old(watches)| && i != pos ==> i < |watches| && watches[i] == old(watches)[i]
      ensures State() == After(old(State()), Register(namespace))
    {
      var w := Watch(namespace, [], false);
      pos := 0;
      while pos < |watches|
        invariant pos <= |watches| && watches == old(watches)
        invariant forall i :: 0 <= i < pos ==> watches[i].Watch?
      {
        if watches[pos].Free? {
          watches := watches[pos := w];
          return;
        }
        pos := pos + 1;
      }
      watches := watches + [w];
    }

    /** The second locked section of `watch`: send every stored object as added. */
    method BackfillWatch(pos: nat) returns (ghost order: seq<NamespacedName>)
      requires pos < |watches| && watches[pos].Watch? && !watches[pos].backfilled
      modifies this`watches
      ensures Enumerates(order, objects.Keys)
      ensures var w := old(watches)[pos];
              var sent := BackfillEvents(objects, w.namespace, order);
              watches == old(watches)[pos := Watch(w.namespace, w.delivered + sent, true)]
      ensures State() == After(old(State()), Backfill(pos, order))
    {
      var w := watches[pos];
      var ids := UnsortedList(objects.Keys);
      order := ids;
      var sent: seq<WatchEvent> := [];
      for i := 0 to |ids|
        invariant sent == BackfillEvents(objects, w.namespace, ids[..i])
      {
        assert ids[..i + 1][..i] == ids[..i];
        assert ids[i] in ids;
        var o := objects[ids[i]];
        if w.namespace != "" && o.id.namespace != w.namespace {
          continue;
        }
        sent := sent + [WatchEvent(Added, o)];
      }
      assert ids[..|ids|] == ids;
      watches := watches[pos := Watch(w.namespace, w.delivered + sent, true)];
    }

    method ListObjects(namespace: string) returns (items: seq<Object>, version: nat)
      ensures version == clock
      ensures StoreOk(State()) ==>
                forall o: Object :: o in items <==> o.id in objects && objects[o.id] == o && Selects(namespace, o)
      ensures StoreOk(State()) ==> forall a, b :: 0 <= a < b < |items| ==> items[a].id != items[b].id
    {
      var ids := UnsortedList(objects.Keys);
      items := [];
      for i := 0 to |ids|
        invariant forall o :: o in items <==> exists j :: 0 <= j < i && objects[ids[j]] == o && Selects(namespace, o)
        invariant StoreOk(State()) ==> forall a :: 0 <= a < |items| ==> items[a].id in ids[..i]
        invariant StoreOk(State()) ==> forall a, b :: 0 <= a < b < |items| ==> items[a].id != items[b].id
      {
        assert ids[i] in ids && ids[i] !in ids[..i];
        assert ids[..i + 1] == ids[..i] + [ids[i]];
        var o := objects[ids[i]];
        if namespace == "" || o.id.namespace == namespace {
          items := items + [o];
        }
      }
      version := clock;
      if StoreOk(State()) {
        forall o: Object | o.id in objects && objects[o.id] == o && Selects(namespace, o) ensures o in items {
          var j :| 0 <= j < |ids| && ids[j] == o.id;
          assert objects[ids[j]] == o;
        }
      }
    }
  }
}
