/** The tracker as the program keeps it: counters in maps nested by kind, namespace and name,
    changed in place, and one gauge vector shared by all kinds. */
module MetricsTracker {
  import opened Collections
  import opened Schema
  import opened Metrics

  type Tracked = map<Gvk, Items>

  function Status(tracked: Tracked, id: Id): Option<Counter> {
    if id.gvk in tracked && id.ns in tracked[id.gvk] && id.name in tracked[id.gvk][id.ns]
    then Some(tracked[id.gvk][id.ns][id.name]) else None
  }

  /** The two ways of keeping the counters hold the same ones. */
  ghost predicate Coupled(tracked: Tracked, flat: map<Id, Counter>) {
    forall id :: Status(tracked, id) == Get(flat, id)
  }

  /** `namespaces` whose last name is gone are gone too. */
  ghost predicate Tidy(items: Items) {
    forall ns :: ns in items ==> items[ns] != map[]
  }

  function Put(tracked: Tracked, id: Id, c: Counter): Tracked {
    var items := if id.gvk in tracked then tracked[id.gvk] else map[];
    var record := if id.ns in items then items[id.ns] else map[];
    tracked[id.gvk := items[id.ns := record[id.name := c]]]
  }

  // Increment and expiry, map by map.

  ghost predicate TickedRecord(r: Record, out: Record) {
    out.Keys == r.Keys && forall n :: n in r ==> out[n] == Tick(r[n])
  }

  method IncRecord(r: Record) returns (out: Record)
    ensures TickedRecord(r, out)
  {
    out := r;
    var rest := r.Keys;
    while rest != {}
      invariant rest <= r.Keys && out.Keys == r.Keys
      invariant forall n :: n in r ==> out[n] == if n in rest then r[n] else Tick(r[n])
      decreases rest
    {
      var n :| n in rest;
      if out[n].deleted {
        out := out[n := out[n].(count := out[n].count + 1)];
      }
      rest := rest - {n};
    }
  }

  ghost predicate TickedItems(items: Items, out: Items) {
    out.Keys == items.Keys && forall ns :: ns in items ==> TickedRecord(items[ns], out[ns])
  }

  method IncItems(items: Items) returns (out: Items)
    ensures TickedItems(items, out)
  {
    out := items;
    var rest := items.Keys;
    while rest != {}
      invariant rest <= items.Keys && out.Keys == items.Keys
      invariant forall ns :: ns in items ==>
                  if ns in rest then out[ns] == items[ns] else TickedRecord(items[ns], out[ns])
      decreases rest
    {
      var ns :| ns in rest;
      var record := IncRecord(out[ns]);
      out := out[ns := record];
      rest := rest - {ns};
    }
  }

  function Kept(r: Record, limit: int): Record {
    map n | n in r && !Overdue(r[n], limit) :: r[n]
  }

  function KeptItems(items: Items, limit: int): Items {
    map ns | ns in items && Kept(items[ns], limit) != map[] :: Kept(items[ns], limit)
  }

  method DeleteFromRecord(r: Record, limit: int) returns (out: Record, gone: seq<string>)
    ensures out == Kept(r, limit)
    ensures Lists(gone, GoneNames(r, limit))
  {
    out, gone := r, [];
    var rest := r.Keys;
    while rest != {}
      invariant rest <= r.Keys
      invariant out == map n | n in r && (n in rest || !Overdue(r[n], limit)) :: r[n]
      invariant Lists(gone, GoneNames(r, limit) - rest)
      decreases rest
    {
      var n :| n in rest;
      if out[n].deleted && out[n].count >= limit {
        out := out - {n};
        gone := gone + [n];
      }
      rest := rest - {n};
    }
  }

  function GoneNames(r: Record, limit: int): set<string> {
    set n | n in r && Overdue(r[n], limit)
  }

  ghost predicate Lists(names: seq<string>, s: set<string>) {
    forall n :: n in names <==> n in s
  }

  /** `pairs` names what is to go from the namespaces in `done`. */
  ghost predicate PairsGone(items: Items, done: set<string>, limit: int, pairs: map<string, seq<string>>) {
    && (forall ns :: ns in pairs ==> ns in items && ns in done && Lists(pairs[ns], GoneNames(items[ns], limit)))
    && (forall ns :: ns in items && ns in done && ns !in pairs ==> GoneNames(items[ns], limit) == {})
  }

  /** What is left when only the namespaces in `rest` are still to be looked at. */
  ghost function KeptSoFar(items: Items, rest: set<string>, limit: int): Items {
    map ns | ns in items && (ns in rest || Kept(items[ns], limit) != map[]) ::
      if ns in rest then items[ns] else Kept(items[ns], limit)
  }

  lemma KeptMore(items: Items, rest: set<string>, ns: string, limit: int)
    requires ns in rest && ns in items
    ensures var record := Kept(items[ns], limit);
            KeptSoFar(items, rest - {ns}, limit)
            == if record == map[] then KeptSoFar(items, rest, limit) - {ns}
                else KeptSoFar(items, rest, limit)[ns := record]
  {}

  lemma PairsMore(items: Items, done: set<string>, limit: int, pairs: map<string, seq<string>>, ns: string,
                  gone: seq<string>)
    requires PairsGone(items, done, limit, pairs) && ns in items && ns !in done
    requires Lists(gone, GoneNames(items[ns], limit))
    ensures PairsGone(items, done + {ns}, limit, if gone != [] then pairs[ns := gone] else pairs)
  {
    if gone == [] {
      assert forall n :: n in GoneNames(items[ns], limit) ==> n in gone;
    }
  }

  method DeleteIfNeeded(items: Items, limit: int) returns (out: Items, pairs: map<string, seq<string>>)
    ensures out == KeptItems(items, limit) && Tidy(out)
    ensures PairsGone(items, items.Keys, limit, pairs)
  {
    out, pairs := items, map[];
    var rest := items.Keys;
    ghost var done := {};
    while rest != {}
      invariant rest <= items.Keys && done == items.Keys - rest
      invariant out == KeptSoFar(items, rest, limit)
      invariant PairsGone(items, done, limit, pairs)
      decreases rest
    {
      var ns :| ns in rest;
      var record, gone := DeleteFromRecord(out[ns], limit);
      KeptMore(items, rest, ns, limit);
      PairsMore(items, done, limit, pairs, ns, gone);
      if gone != [] {
        pairs := pairs[ns := gone];
      }
      if record == map[] {
        out := out - {ns};
      } else {
        out := out[ns := record];
      }
      rest, done := rest - {ns}, done + {ns};
    }
    assert done == items.Keys;
  }

  // The whole tracker.

  datatype Object = Object(gvk: Gvk, ns: string, name: string)
  datatype Problem = NoMapping(gvk: Gvk) | EmptyNamespace(gvk: Gvk, name: string)

  /** Where `addIfNotPresent` files an object; nothing when its kind has no mapping. */
  function Filed(o: Object, defaultNamespace: string, namespaced: map<Gvk, bool>): Option<Id> {
    var ns := if defaultNamespace != "" then defaultNamespace else o.ns;
    if o.gvk !in namespaced then None
    else if !namespaced[o.gvk] then Some(Id(o.gvk, CLUSTER_SCOPED, o.name))
    else if ns == "" then Some(Id(o.gvk, EMPTY_NAMESPACE, o.name))
    else Some(Id(o.gvk, ns, o.name))
  }

  /** Objects are filed where their labels stay apart. */
  lemma FiledIsProper(o: Object, defaultNamespace: string, namespaced: map<Gvk, bool>)
    requires NoSlash(o.gvk) && o.ns != CLUSTER_SCOPED && defaultNamespace != CLUSTER_SCOPED
    ensures Filed(o, defaultNamespace, namespaced).Some? <==> o.gvk in namespaced
    ensures o.gvk in namespaced ==> Proper(Filed(o, defaultNamespace, namespaced).value, namespaced)
  {
    assert EMPTY_NAMESPACE[1] == 'E' && CLUSTER_SCOPED[1] == 'C';
  }

  /** The series an object is filed under names its own kind and name, and its namespace, or the
      default one, if its kind has them. */
  lemma FiledLabel(o: Object, defaultNamespace: string, namespaced: map<Gvk, bool>)
    requires o.gvk in namespaced
    requires o.ns != CLUSTER_SCOPED && o.ns != EMPTY_NAMESPACE
    requires defaultNamespace != CLUSTER_SCOPED && defaultNamespace != EMPTY_NAMESPACE
    ensures var id := Filed(o, defaultNamespace, namespaced).value;
            && (id.gvk, id.name) == (o.gvk, o.name)
            && LabelOf(id) == Label(GvkString(o.gvk), if !namespaced[o.gvk] then "" else
                                    if defaultNamespace != "" then defaultNamespace else o.ns, o.name)
  {}

  /** What a pass lists are the objects with a mapping. */
  lemma {:induction false} ListedAreFiled(objects: seq<Object>, defaultNamespace: string,
                                          namespaced: map<Gvk, bool>, id: Id)
    ensures id in ListedIds(objects, defaultNamespace, namespaced) <==>
            exists i :: 0 <= i < |objects| && Filed(objects[i], defaultNamespace, namespaced) == Some(id)
  {
    if objects != [] {
      ListedAreFiled(objects[..|objects| - 1], defaultNamespace, namespaced, id);
    }
  }

  /** One problem for each object without a mapping and each without the namespace it needs, in
      order. */
  lemma {:induction false} ProblemsExactly(objects: seq<Object>, defaultNamespace: string, namespaced: map<Gvk, bool>)
    returns (idx: seq<nat>)
    ensures Ascends(idx, Troubled(objects, defaultNamespace, namespaced))
    ensures var problems := Problems(objects, defaultNamespace, namespaced);
            |problems| == |idx| && forall k :: 0 <= k < |idx| ==>
              && idx[k] < |objects|
              && problems[k] == if objects[idx[k]].gvk !in namespaced then NoMapping(objects[idx[k]].gvk)
                                else EmptyNamespace(objects[idx[k]].gvk, objects[idx[k]].name)
  {
    if objects == [] {
      idx := [];
    } else {
      var front, last := objects[..|objects| - 1], objects[|objects| - 1];
      idx := ProblemsExactly(front, defaultNamespace, namespaced);
      var before := Troubled(front, defaultNamespace, namespaced);
      if last.gvk !in namespaced || (namespaced[last.gvk] && last.ns == "" && defaultNamespace == "") {
        assert Troubled(objects, defaultNamespace, namespaced) == before + {|front|};
        AscendsSnoc(idx, before, |front|);
        idx := idx + [|front|];
      } else {
        assert Troubled(objects, defaultNamespace, namespaced) == before;
      }
    }
  }

  ghost function Troubled(objects: seq<Object>, defaultNamespace: string, namespaced: map<Gvk, bool>): set<nat> {
    set i | 0 <= i < |objects| && var o := objects[i];
            o.gvk !in namespaced || (namespaced[o.gvk] && o.ns == "" && defaultNamespace == "")
  }

  function ListedIds(objects: seq<Object>, defaultNamespace: string, namespaced: map<Gvk, bool>): set<Id> {
    if objects == [] then {}
    else
      var last := Filed(objects[|objects| - 1], defaultNamespace, namespaced);
      ListedIds(objects[..|objects| - 1], defaultNamespace, namespaced) + if last.Some? then {last.value} else {}
  }

  function Problems(objects: seq<Object>, defaultNamespace: string, namespaced: map<Gvk, bool>): seq<Problem> {
    if objects == [] then []
    else
      var last := objects[|objects| - 1];
      Problems(objects[..|objects| - 1], defaultNamespace, namespaced) +
      if last.gvk !in namespaced then [NoMapping(last.gvk)]
      else if namespaced[last.gvk] && defaultNamespace == "" && last.ns == "" then [EmptyNamespace(last.gvk, last.name)]
      else []
  }

  class ObjectTracker {
    const namespaced: map<Gvk, bool>
    var metricsDuration: int
    var trackedGvk: Tracked
    var gauge: map<Label, bool>
    ghost var system: System

    ghost predicate Valid()
      reads this
    {
      Coupled(trackedGvk, system.tracked) && gauge == system.gauge
    }

    constructor (namespaced: map<Gvk, bool>)
      ensures Valid() && system == INITIAL && this.namespaced == namespaced && metricsDuration == 0
    {
      this.namespaced := namespaced;
      metricsDuration, trackedGvk, gauge, system := 0, map[], map[], INITIAL;
    }

    method SetMetricsDuration(duration: int)
      requires Valid()
      modifies this`metricsDuration
      ensures Valid() && metricsDuration == duration
    {
      metricsDuration := duration;
    }

    method AddOne(id: Id)
      modifies this`trackedGvk
      ensures forall other :: Status(trackedGvk, other)
                == if other == id then Added(old(Status(trackedGvk, id))) else old(Status(trackedGvk, other))
    {
      if id.gvk in trackedGvk && id.ns in trackedGvk[id.gvk] && id.name in trackedGvk[id.gvk][id.ns] {
        if trackedGvk[id.gvk][id.ns][id.name].deleted {
          trackedGvk := Put(trackedGvk, id, NEW);
        }
      } else {
        trackedGvk := Put(trackedGvk, id, NEW);
      }
    }

    method AddAll(objects: seq<Object>, defaultNamespace: string) returns (problems: seq<Problem>)
      modifies this`trackedGvk
      ensures forall id :: Status(trackedGvk, id)
                == if id in ListedIds(objects, defaultNamespace, namespaced) then Added(old(Status(trackedGvk, id)))
                   else old(Status(trackedGvk, id))
      ensures problems == Problems(objects, defaultNamespace, namespaced)
    {
      problems := [];
      for i := 0 to |objects|
        invariant forall id :: Status(trackedGvk, id)
                    == if id in ListedIds(objects[..i], defaultNamespace, namespaced)
                        then Added(old(Status(trackedGvk, id)))
                       else old(Status(trackedGvk, id))
        invariant problems == Problems(objects[..i], defaultNamespace, namespaced)
      {
        assert objects[..i + 1][..i] == objects[..i];
        var o := objects[i];
        var ns := if defaultNamespace != "" then defaultNamespace else o.ns;
        if o.gvk !in namespaced {
          problems := problems + [NoMapping(o.gvk)];
        } else {
          if namespaced[o.gvk] {
            if ns == "" {
              ns := EMPTY_NAMESPACE;
              problems := problems + [EmptyNamespace(o.gvk, o.name)];
            }
          } else {
            ns := CLUSTER_SCOPED;
          }
          AddOne(Id(o.gvk, ns, o.name));
        }
      }
      assert objects[..|objects|] == objects;
    }

    method Inc()
      modifies this`trackedGvk
      ensures forall id :: Status(trackedGvk, id)
                == var was := old(Status(trackedGvk, id)); if was.Some? then Some(Tick(was.value)) else None
    {
      ghost var before := trackedGvk;
      var rest := trackedGvk.Keys;
      while rest != {}
        invariant rest <= trackedGvk.Keys == before.Keys
        invariant forall gvk :: gvk in before ==>
                    if gvk in rest then trackedGvk[gvk] == before[gvk] else TickedItems(before[gvk], trackedGvk[gvk])
        decreases rest
      {
        var gvk :| gvk in rest;
        var items := IncItems(trackedGvk[gvk]);
        trackedGvk := trackedGvk[gvk := items];
        rest := rest - {gvk};
      }
      forall id ensures Status(trackedGvk, id)
                == var was := Status(before, id); if was.Some? then Some(Tick(was.value)) else None
      {
        if id.gvk in before && id.ns in before[id.gvk] {
          assert TickedItems(before[id.gvk], trackedGvk[id.gvk]);
          assert TickedRecord(before[id.gvk][id.ns], trackedGvk[id.gvk][id.ns]);
        }
      }
    }

    /** Removes the series of the pairs; returns the objects they belong to. */
    method UnsetAll(gvk: Gvk, pairs: map<string, seq<string>>) returns (ghost gone: set<Id>)
      modifies this`gauge
      ensures forall id :: id in gone <==> id.gvk == gvk && id.ns in pairs && id.name in pairs[id.ns]
      ensures gauge == old(gauge) - LabelsOf(gone)
    {
      gone := {};
      var rest := pairs.Keys;
      while rest != {}
        invariant rest <= pairs.Keys
        invariant forall id :: id in gone <==> id.gvk == gvk && id.ns in pairs.Keys - rest && id.name in pairs[id.ns]
        invariant gauge == old(gauge) - LabelsOf(gone)
        decreases rest
      {
        var ns :| ns in rest;
        var i := 0;
        ghost var earlier := gone;
        while i < |pairs[ns]|
          invariant 0 <= i <= |pairs[ns]|
          invariant forall id :: id in gone <==>
                    id in earlier || (id.gvk == gvk && id.ns == ns && id.name in pairs[ns][..i])
          invariant gauge == old(gauge) - LabelsOf(gone)
        {
          var id := Id(gvk, ns, pairs[ns][i]);
          OneMoreLabel(gone, id);
          gauge := gauge - {LabelOf(id)};
          gone := gone + {id};
          i := i + 1;
        }
        assert pairs[ns][..|pairs[ns]|] == pairs[ns];
        rest := rest - {ns};
      }
    }

    method DeleteMetricsIfNeeded() returns (ghost gone: set<Id>)
      modifies this`trackedGvk, this`gauge
      ensures forall id :: id in gone <==>
                old(Status(trackedGvk, id)).Some? && Expired(old(Status(trackedGvk, id)).value, metricsDuration)
      ensures forall id :: Status(trackedGvk, id) == if id in gone then None else old(Status(trackedGvk, id))
      ensures gauge == old(gauge) - LabelsOf(gone)
    {
      gone := {};
      ghost var before := trackedGvk;
      if metricsDuration > 0 {
        var rest := trackedGvk.Keys;
        while rest != {}
          invariant rest <= trackedGvk.Keys == before.Keys
          invariant forall gvk :: gvk in before ==>
                      trackedGvk[gvk] == if gvk in rest then before[gvk] else KeptItems(before[gvk], metricsDuration)
          invariant forall id :: id in gone <==>
                      id.gvk !in rest && Status(before, id).Some? && Expired(Status(before, id).value, metricsDuration)
          invariant gauge == old(gauge) - LabelsOf(gone)
          decreases rest
        {
          var gvk :| gvk in rest;
          var items, pairs := DeleteIfNeeded(trackedGvk[gvk], metricsDuration);
          trackedGvk := trackedGvk[gvk := items];
          ghost var more := UnsetAll(gvk, pairs);
          LabelsOfUnion(gone, more);
          UnsetIsExpired(before, gvk, metricsDuration, pairs, more);
          gone := gone + more;
          rest := rest - {gvk};
        }
        KeptStatus(before, trackedGvk, metricsDuration);
      }
    }

    /** `addIfNotPresent`: one pass of the state machine for every object at once. */
    method AddIfNotPresent(objects: seq<Object>, defaultNamespace: string) returns (problems: seq<Problem>)
      requires Valid()
      modifies this
      ensures Valid() && metricsDuration == old(metricsDuration)
      ensures system == Step(old(system), Pass(ListedIds(objects, defaultNamespace, namespaced), metricsDuration))
      ensures problems == Problems(objects, defaultNamespace, namespaced)
    {
      problems := AddAll(objects, defaultNamespace);
      Inc();
      ghost var gone := DeleteMetricsIfNeeded();
      ghost var listed := ListedIds(objects, defaultNamespace, namespaced);
      PassRefines(old(trackedGvk), system.tracked, listed, metricsDuration, trackedGvk, gone);
      system := Step(system, Pass(listed, metricsDuration));
    }

    /** Where the event handlers look for an object: they know no default namespace. */
    method Place(o: Object) returns (id: Id)
      requires o.gvk in namespaced
      ensures Filed(o, "", namespaced) == Some(id)
    {
      var ns := o.ns;
      if namespaced[o.gvk] {
        if ns == "" {
          ns := EMPTY_NAMESPACE;
        }
      } else {
        ns := CLUSTER_SCOPED;
      }
      id := Id(o.gvk, ns, o.name);
    }

    method OnCreate(o: Object)
      requires Valid() && o.gvk in namespaced
      modifies this`gauge, this`system
      ensures Valid() && system == Step(old(system), Create(Filed(o, "", namespaced).value))
      ensures var id := Filed(o, "", namespaced).value;
              gauge == if Status(trackedGvk, id).Some? then old(gauge)[LabelOf(id) := true] else old(gauge)
    {
      var id := Place(o);
      assert Status(trackedGvk, id) == Get(system.tracked, id);
      if id.gvk in trackedGvk && id.ns in trackedGvk[id.gvk] && id.name in trackedGvk[id.gvk][id.ns] {
        gauge := gauge[LabelOf(id) := true];
      }
      system := Step(system, Create(id));
    }

    method OnUpdate(before: Object, after: Object)
      requires Valid() && before.gvk == after.gvk && after.gvk in namespaced
      modifies this`gauge, this`system
      ensures Valid()
      ensures var was, now := Filed(before, "", namespaced).value, Filed(after, "", namespaced).value;
              && system == Step(old(system), Update(was, now))
              && gauge == if Status(trackedGvk, was).None? || Status(trackedGvk, now).None? then old(gauge)
                          else if was == now then old(gauge)[LabelOf(now) := true]
                          else old(gauge)[LabelOf(was) := false][LabelOf(now) := true]
    {
      var was := Place(before);
      var now := Place(after);
      assert Status(trackedGvk, was) == Get(system.tracked, was) && Status(trackedGvk, now) == Get(system.tracked, now);
      if Status(trackedGvk, was).Some? && Status(trackedGvk, now).Some? {
        if was == now {
          gauge := gauge[LabelOf(was) := true];
        } else {
          gauge := gauge[LabelOf(was) := false];
          gauge := gauge[LabelOf(now) := true];
        }
      }
      system := Step(system, Update(was, now));
    }

    method OnDelete(o: Object)
      requires Valid() && o.gvk in namespaced
      modifies this`trackedGvk, this`gauge, this`system
      ensures Valid() && system == Step(old(system), Delete(Filed(o, "", namespaced).value))
      ensures var id := Filed(o, "", namespaced).value;
              var was := old(Status(trackedGvk, id));
              && gauge == (if was.Some? then old(gauge)[LabelOf(id) := false] else old(gauge))
              && forall other :: Status(trackedGvk, other) ==
                   if other == id && was.Some? then Some(Counter(was.value.count, true))
                   else old(Status(trackedGvk, other))
    {
      var id := Place(o);
      assert Status(trackedGvk, id) == Get(system.tracked, id);
      if id.gvk in trackedGvk && id.ns in trackedGvk[id.gvk] && id.name in trackedGvk[id.gvk][id.ns] {
        PutStatus(trackedGvk, id, trackedGvk[id.gvk][id.ns][id.name].(deleted := true));
        trackedGvk := Put(trackedGvk, id, trackedGvk[id.gvk][id.ns][id.name].(deleted := true));
        gauge := gauge[LabelOf(id) := false];
      }
      system := Step(system, Delete(id));
    }
  }

  lemma PutStatus(tracked: Tracked, id: Id, c: Counter)
    ensures forall other :: Status(Put(tracked, id, c), other)
                            == if other == id then Some(c) else Status(tracked, other)
  {}

  lemma UnsetIsExpired(tracked: Tracked, gvk: Gvk, limit: int, pairs: map<string, seq<string>>, gone: set<Id>)
    requires gvk in tracked && PairsGone(tracked[gvk], tracked[gvk].Keys, limit, pairs)
    requires forall id :: id in gone <==> id.gvk == gvk && id.ns in pairs && id.name in pairs[id.ns]
    ensures forall id :: id in gone <==>
              id.gvk == gvk && Status(tracked, id).Some? && Overdue(Status(tracked, id).value, limit)
  {
    forall id: Id | id.gvk == gvk
      ensures id in gone <==> Status(tracked, id).Some? && Overdue(Status(tracked, id).value, limit)
    {
      if id.ns in tracked[gvk] {
        assert id.name in GoneNames(tracked[gvk][id.ns], limit)
               <==> Status(tracked, id).Some? && Overdue(Status(tracked, id).value, limit);
      }
    }
  }

  lemma KeptStatus(tracked: Tracked, out: Tracked, limit: int)
    requires out.Keys == tracked.Keys && forall gvk :: gvk in tracked ==> out[gvk] == KeptItems(tracked[gvk], limit)
    ensures forall id :: Status(out, id) == var was := Status(tracked, id);
                                            if was.Some? && Overdue(was.value, limit) then None else was
  {
    forall id ensures Status(out, id) == var was := Status(tracked, id);
                                         if was.Some? && Overdue(was.value, limit) then None else was
    {
      if id.gvk in tracked && id.ns in tracked[id.gvk] && id.name in tracked[id.gvk][id.ns] {
        assert id.name in Kept(tracked[id.gvk][id.ns], limit) <==> !Overdue(tracked[id.gvk][id.ns][id.name], limit);
      }
    }
  }

  lemma PassRefines(tracked: Tracked, flat: map<Id, Counter>, listed: set<Id>, duration: int, out: Tracked,
                    gone: set<Id>)
    requires Coupled(tracked, flat)
    requires forall id :: id in gone <==>
               var s := if id in listed then Added(Status(tracked, id)) else Status(tracked, id);
                                          s.Some? && Expired(Tick(s.value), duration)
    requires forall id :: Status(out, id) ==
               var s := if id in listed then Added(Status(tracked, id)) else Status(tracked, id);
                                             if id in gone || s.None? then None else Some(Tick(s.value))
    ensures Coupled(out, AfterPass(flat, listed, duration))
    ensures gone == flat.Keys - AfterPass(flat, listed, duration).Keys
  {
    var after := AfterPass(flat, listed, duration);
    forall id ensures Status(out, id) == Get(after, id) && (id in gone <==> id in flat && id !in after) {
      assert Status(tracked, id) == Get(flat, id);
      assert Get(after, id) == Passed(Get(flat, id), id in listed, duration);
    }
  }

  lemma LabelsOfUnion(a: set<Id>, b: set<Id>)
    ensures LabelsOf(a + b) == LabelsOf(a) + LabelsOf(b)
  {
    forall l ensures l in LabelsOf(a + b) <==> l in LabelsOf(a) + LabelsOf(b) {
    }
  }
}
