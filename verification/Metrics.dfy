/** The tracker behind the managed-objects gauge: objects are added on every reconcile, marked
    by delete events, and forgotten some passes after the mark. */
module Metrics {
  import opened Collections
  import opened Schema
  import opened Text

  datatype Counter = Counter(count: nat, deleted: bool)
  datatype Id = Id(gvk: Gvk, ns: string, name: string)
  datatype Label = Label(gvk: string, ns: string, name: string)

  type Record = map<string, Counter>
  type Items = map<string, Record>

  const EMPTY_NAMESPACE := "_Empty_"
  const CLUSTER_SCOPED := "_Cluster_"
  const NEW := Counter(0, false)

  function GvkString(gvk: Gvk): string {
    if gvk.gk.group == "" && gvk.version == "v1" then gvk.version + "/" + gvk.gk.kind
    else gvk.gk.group + "/" + gvk.version + "/" + gvk.gk.kind
  }

  /** The series an object is shown under. */
  function LabelOf(id: Id): Label {
    Label(GvkString(id.gvk), if id.ns == EMPTY_NAMESPACE || id.ns == CLUSTER_SCOPED then "" else id.ns, id.name)
  }

  // One object.

  function Added(s: Option<Counter>): Option<Counter> {
    if s.None? || s.value.deleted then Some(NEW) else s
  }

  function Tick(c: Counter): Counter {
    if c.deleted then c.(count := c.count + 1) else c
  }

  predicate Overdue(c: Counter, limit: int) {
    c.deleted && c.count >= limit
  }

  predicate Expired(c: Counter, duration: int) {
    duration > 0 && Overdue(c, duration)
  }

  /** One `addIfNotPresent` seen from one object. */
  function Passed(s: Option<Counter>, listed: bool, duration: int): Option<Counter> {
    var added := if listed then Added(s) else s;
    if added.None? || Expired(Tick(added.value), duration) then None else Some(Tick(added.value))
  }

  // All objects, with what their series should show.

  datatype System = System(tracked: map<Id, Counter>, gauge: map<Label, bool>, seen: map<Id, bool>)

  datatype Event =
    | Pass(listed: set<Id>, duration: int)
    | Create(id: Id)
    | Update(before: Id, after: Id)
    | Delete(id: Id)

  function Get<T>(m: map<Id, T>, id: Id): Option<T> {
    if id in m then Some(m[id]) else None
  }

  function LabelsOf(ids: set<Id>): set<Label> {
    set id | id in ids :: LabelOf(id)
  }

  function AfterPass(tracked: map<Id, Counter>, listed: set<Id>, duration: int): map<Id, Counter> {
    map id | id in tracked.Keys + listed && Passed(Get(tracked, id), id in listed, duration).Some? ::
      Passed(Get(tracked, id), id in listed, duration).value
  }

  function Show(s: System, id: Id, present: bool): System {
    s.(gauge := s.gauge[LabelOf(id) := present], seen := s.seen[id := present])
  }

  /** `seen` is not kept by the program: it records, per object, the last event seen while the
      object was tracked. */
  function Step(s: System, e: Event): System {
    match e
    case Pass(listed, duration) =>
      var tracked := AfterPass(s.tracked, listed, duration);
      var gone := s.tracked.Keys - tracked.Keys;
      System(tracked, s.gauge - LabelsOf(gone), s.seen - gone)
    case Create(id) => if id in s.tracked then Show(s, id, true) else s
    case Update(o, n) =>
      if o !in s.tracked || n !in s.tracked then s
      else if o == n then Show(s, o, true)
      else Show(Show(s, o, false), n, true)
    case Delete(id) =>
      if id !in s.tracked then s
      else Show(s.(tracked := s.tracked[id := s.tracked[id].(deleted := true)]), id, false)
  }

  const INITIAL := System(map[], map[], map[])

  function Steps(s: System, events: seq<Event>): System {
    if events == [] then s else Step(Steps(s, events[..|events| - 1]), events[|events| - 1])
  }

  // Expiry.

  /** Unmarked objects have not started counting. */
  predicate UnmarkedAtZero(s: System) {
    forall id :: id in s.tracked && !s.tracked[id].deleted ==> s.tracked[id].count == 0
  }

  lemma {:induction false} UnmarkedStayAtZero(events: seq<Event>)
    ensures UnmarkedAtZero(Steps(INITIAL, events))
  {
    if events != [] {
      UnmarkedStayAtZero(events[..|events| - 1]);
    }
  }

  /** In every run, a pass with a positive duration keeps no object whose count has reached it,
      drops no unmarked one, and leaves every listed one unmarked. */
  lemma {:induction false} NothingOverdueIsKept(events: seq<Event>, listed: set<Id>, duration: int, id: Id)
    requires duration > 0
    ensures var before := Steps(INITIAL, events).tracked;
            var after := Steps(INITIAL, events + [Pass(listed, duration)]).tracked;
            && (id in after ==> after[id].count < duration)
            && (id in before && !before[id].deleted ==> id in after)
            && (id in listed ==>
                  id in after && after[id] == if id in before && !before[id].deleted then before[id] else NEW)
  {
    assert (events + [Pass(listed, duration)])[..|events|] == events;
    UnmarkedStayAtZero(events);
  }

  function Passes(events: seq<Event>): nat {
    if events == [] then 0
    else Passes(events[..|events| - 1]) + if events[|events| - 1].Pass? then 1 else 0
  }

  predicate Quiet(events: seq<Event>, id: Id, duration: int) {
    forall e :: e in events && e.Pass? ==> id !in e.listed && e.duration == duration
  }

  lemma MarkedStep(s: System, e: Event, id: Id, duration: int)
    requires id in s.tracked ==> s.tracked[id].deleted
    requires e.Pass? ==> id !in e.listed && e.duration == duration
    ensures Get(Step(s, e).tracked, id) ==
            if id in s.tracked && e.Pass? && duration > 0 && s.tracked[id].count + 1 >= duration then None
            else if id in s.tracked && e.Pass? then Some(Counter(s.tracked[id].count + 1, true))
            else Get(s.tracked, id)
  {}

  /** A marked object that is not listed again is kept through every pass before the
      `duration`-th and dropped by that one; a duration of zero or less keeps it for good.
      Further create, update and delete events make no difference. */
  lemma {:induction false} MarkedObjectsExpire(s: System, id: Id, duration: int, events: seq<Event>)
    requires id in s.tracked && !s.tracked[id].deleted && s.tracked[id].count == 0
    requires Quiet(events, id, duration)
    ensures Get(Steps(Step(s, Delete(id)), events).tracked, id)
            == if duration > 0 && Passes(events) >= duration then None else Some(Counter(Passes(events), true))
    decreases |events|
  {
    if events != [] {
      var front := events[..|events| - 1];
      assert events[|events| - 1] in events;
      assert forall e :: e in front ==> e in events;
      MarkedObjectsExpire(s, id, duration, front);
      MarkedStep(Steps(Step(s, Delete(id)), front), events[|events| - 1], id, duration);
    }
  }

  // The gauge.

  predicate LabelsDiffer(ids: set<Id>) {
    forall a, b :: a in ids && b in ids && LabelOf(a) == LabelOf(b) ==> a == b
  }

  predicate About(e: Event, ids: set<Id>) {
    match e
    case Pass(listed, _) => listed <= ids
    case Create(id) => id in ids
    case Update(o, n) => o in ids && n in ids
    case Delete(id) => id in ids
  }

  predicate AllAbout(events: seq<Event>, ids: set<Id>) {
    forall e :: e in events ==> About(e, ids)
  }

  /** There is a series exactly for the tracked objects some event has been seen for, and it
      shows what the last such event said. */
  predicate Agrees(s: System) {
    && s.seen.Keys <= s.tracked.Keys
    && s.gauge.Keys == LabelsOf(s.seen.Keys)
    && forall id :: id in s.seen ==> LabelOf(id) in s.gauge && s.gauge[LabelOf(id)] == s.seen[id]
  }

  lemma ShowKeepsAgreement(s: System, ids: set<Id>, id: Id, present: bool)
    requires Agrees(s) && LabelsDiffer(ids) && s.tracked.Keys <= ids && id in s.tracked
    ensures Agrees(Show(s, id, present))
  {
    var after := Show(s, id, present);
    assert after.seen.Keys == s.seen.Keys + {id};
    OneMoreLabel(s.seen.Keys, id);
    forall other | other in after.seen
      ensures LabelOf(other) in after.gauge && after.gauge[LabelOf(other)] == after.seen[other]
    {
      ShowsOthersAsBefore(s, ids, id, present, other);
    }
  }

  lemma ShowsOthersAsBefore(s: System, ids: set<Id>, id: Id, present: bool, other: Id)
    requires Agrees(s) && LabelsDiffer(ids) && s.tracked.Keys <= ids && id in s.tracked
    requires other == id || other in s.seen
    ensures var after := Show(s, id, present);
            other in after.seen && LabelOf(other) in after.gauge && after.gauge[LabelOf(other)] == after.seen[other]
  {
    assert LabelOf(other) == LabelOf(id) ==> other == id;
  }

  lemma OneMoreLabel(ids: set<Id>, id: Id)
    ensures LabelsOf(ids + {id}) == LabelsOf(ids) + {LabelOf(id)}
  {
    forall l ensures l in LabelsOf(ids + {id}) <==> l in LabelsOf(ids) + {LabelOf(id)} {
    }
  }

  lemma PassKeepsAgreement(s: System, ids: set<Id>, listed: set<Id>, duration: int)
    requires Agrees(s) && LabelsDiffer(ids) && s.tracked.Keys <= ids && listed <= ids
    ensures Agrees(Step(s, Pass(listed, duration)))
  {
    var gone := s.tracked.Keys - AfterPass(s.tracked, listed, duration).Keys;
    forall id | id in s.seen && id !in gone ensures LabelOf(id) !in LabelsOf(gone) {
    }
    assert LabelsOf(s.seen.Keys - gone) == LabelsOf(s.seen.Keys) - LabelsOf(gone);
  }

  lemma StepKeepsAgreement(s: System, ids: set<Id>, e: Event)
    requires Agrees(s) && LabelsDiffer(ids) && s.tracked.Keys <= ids && About(e, ids)
    ensures Agrees(Step(s, e)) && Step(s, e).tracked.Keys <= ids
  {
    match e
    case Pass(listed, duration) => PassKeepsAgreement(s, ids, listed, duration);
    case Create(id) =>
      if id in s.tracked {
        ShowKeepsAgreement(s, ids, id, true);
      }
    case Update(o, n) =>
      if o in s.tracked && n in s.tracked {
        ShowKeepsAgreement(s, ids, o, o == n);
        ShowKeepsAgreement(Show(s, o, o == n), ids, n, true);
      }
    case Delete(id) =>
      if id in s.tracked {
        var marked := s.(tracked := s.tracked[id := s.tracked[id].(deleted := true)]);
        assert marked.tracked.Keys == s.tracked.Keys;
        ShowKeepsAgreement(marked, ids, id, false);
      }
  }

  lemma {:induction false} DistinctLabelsAgree(ids: set<Id>, events: seq<Event>)
    requires LabelsDiffer(ids) && AllAbout(events, ids)
    ensures Agrees(Steps(INITIAL, events)) && Steps(INITIAL, events).tracked.Keys <= ids
  {
    if events != [] {
      var front := events[..|events| - 1];
      assert AllAbout(front, ids) by {
        assert forall e :: e in front ==> e in events;
      }
      DistinctLabelsAgree(ids, front);
      StepKeepsAgreement(Steps(INITIAL, front), ids, events[|events| - 1]);
    }
  }

  ghost predicate AlwaysAgrees(ids: set<Id>) {
    forall events :: AllAbout(events, ids) ==> Agrees(Steps(INITIAL, events))
  }

  /** The gauge can be trusted in every run exactly when no two of the objects share a series. */
  lemma AgreementExactlyWhenLabelsDiffer(ids: set<Id>)
    ensures AlwaysAgrees(ids) <==> LabelsDiffer(ids)
  {
    if LabelsDiffer(ids) {
      forall events | AllAbout(events, ids) ensures Agrees(Steps(INITIAL, events)) {
        DistinctLabelsAgree(ids, events);
      }
    } else {
      var a, b :| a in ids && b in ids && LabelOf(a) == LabelOf(b) && a != b;
      SharedLabelMisleads(a, b);
      assert AllAbout([Pass({a, b}, 0), Create(a), Delete(b)], ids);
    }
  }

  /** Both tracked, one created, the other deleted: the shared series says gone. */
  lemma SharedLabelMisleads(a: Id, b: Id)
    requires LabelOf(a) == LabelOf(b) && a != b
    ensures !Agrees(Steps(INITIAL, [Pass({a, b}, 0), Create(a), Delete(b)]))
  {
    var s1 := Step(INITIAL, Pass({a, b}, 0));
    assert s1.tracked == map[a := NEW, b := NEW];
    var s2 := Step(s1, Create(a));
    var s3 := Step(s2, Delete(b));
    assert a in s3.seen && s3.seen[a] && !s3.gauge[LabelOf(a)];
    var events := [Pass({a, b}, 0), Create(a), Delete(b)];
    assert events[..2] == [Pass({a, b}, 0), Create(a)];
    assert events[..2][..1] == [Pass({a, b}, 0)];
    assert events[..2][..1][..0] == [];
    assert Steps(INITIAL, events[..2][..1]) == s1;
    assert Steps(INITIAL, events[..2]) == s2;
  }

  // What a series says, told from the events.

  /** The event is one of those a tracked object's series follows: an update counts only if both
      of its objects are tracked. */
  predicate Concerns(tracked: map<Id, Counter>, e: Event, id: Id) {
    match e
    case Pass(_, _) => false
    case Create(created) => created == id
    case Update(before, after) => (before == id || after == id) && before in tracked && after in tracked
    case Delete(deleted) => deleted == id
  }

  /** The states before each of the events and after the last. */
  function History(events: seq<Event>): seq<System> {
    seq(|events| + 1, n requires 0 <= n <= |events| => Steps(INITIAL, events[..n]))
  }

  /** Of the first `n` events, `events[i]` is the last that concerns the object, which has been
      tracked ever since. */
  predicate LastConcern(events: seq<Event>, states: seq<System>, n: nat, i: nat, id: Id)
    requires n <= |events| < |states|
  {
    && i < n && Concerns(states[i].tracked, events[i], id)
    && (forall j :: i <= j <= n ==> id in states[j].tracked)
    && (forall j :: i < j < n ==> !Concerns(states[j].tracked, events[j], id))
  }

  predicate SaysPresent(e: Event, id: Id) {
    e == Create(id) || (e.Update? && e.after == id)
  }

  lemma LastConcernNext(events: seq<Event>, states: seq<System>, n: nat, i: nat, id: Id)
    requires n < |events| < |states|
    ensures LastConcern(events, states, n + 1, i, id) <==>
              && id in states[n + 1].tracked
              && if id in states[n].tracked && Concerns(states[n].tracked, events[n], id) then i == n
                 else LastConcern(events, states, n, i, id)
  {}

  lemma StepShows(s: System, e: Event, id: Id)
    requires s.seen.Keys <= s.tracked.Keys
    ensures Step(s, e).seen.Keys <= Step(s, e).tracked.Keys
    ensures id in Step(s, e).tracked ==>
              Get(Step(s, e).seen, id) ==
                if id in s.tracked && Concerns(s.tracked, e, id) then Some(SaysPresent(e, id))
                else if id in s.tracked then Get(s.seen, id) else None
  {}

  /** `seen` of a state agrees with the events before it. */
  ghost predicate TellsLast(events: seq<Event>, states: seq<System>, n: nat, id: Id)
    requires n <= |events| < |states|
  {
    var seen := states[n].seen;
    && seen.Keys <= states[n].tracked.Keys
    && (id in seen <==> exists i: nat :: LastConcern(events, states, n, i, id))
    && forall i: nat :: LastConcern(events, states, n, i, id) ==> id in seen && seen[id] == SaysPresent(events[i], id)
  }

  lemma TellsNext(events: seq<Event>, states: seq<System>, n: nat, id: Id)
    requires n < |events| < |states| && states[n + 1] == Step(states[n], events[n])
    requires TellsLast(events, states, n, id)
    ensures TellsLast(events, states, n + 1, id)
  {
    StepShows(states[n], events[n], id);
    forall i: nat
      ensures LastConcern(events, states, n + 1, i, id) <==>
                && id in states[n + 1].tracked
                && if id in states[n].tracked && Concerns(states[n].tracked, events[n], id) then i == n
                   else LastConcern(events, states, n, i, id)
    {
      LastConcernNext(events, states, n, i, id);
    }
  }

  lemma {:induction false} SeenIsLast(events: seq<Event>, states: seq<System>, n: nat, id: Id)
    requires n <= |events| < |states| && states[0] == INITIAL
    requires forall m :: 0 <= m < |events| ==> states[m + 1] == Step(states[m], events[m])
    ensures TellsLast(events, states, n, id)
  {
    if n > 0 {
      SeenIsLast(events, states, n - 1, id);
      TellsNext(events, states, n - 1, id);
    }
  }

  lemma HistoryGoesOn(events: seq<Event>, n: nat)
    requires n < |events|
    ensures History(events)[n + 1] == Step(History(events)[n], events[n])
  {
    assert events[..n + 1][..n] == events[..n];
  }

  /** With distinct labels, a tracked object has a series exactly if some event has concerned it
      since it was tracked, and the series is 1 exactly if the last such event created the object
      or was an update to it; otherwise that event deleted it or was an update away from it. */
  lemma SeriesTellsTheLastEvent(ids: set<Id>, events: seq<Event>, id: Id)
    requires LabelsDiffer(ids) && AllAbout(events, ids) && id in Steps(INITIAL, events).tracked
    ensures LabelOf(id) in Steps(INITIAL, events).gauge <==>
            exists i: nat :: LastConcern(events, History(events), |events|, i, id)
    ensures forall i: nat :: LastConcern(events, History(events), |events|, i, id) ==>
              var gauge := Steps(INITIAL, events).gauge;
              && LabelOf(id) in gauge
              && (gauge[LabelOf(id)] <==> events[i] == Create(id) || (events[i].Update? && events[i].after == id))
  {
    DistinctLabelsAgree(ids, events);
    forall m | 0 <= m < |events| ensures History(events)[m + 1] == Step(History(events)[m], events[m]) {
      HistoryGoesOn(events, m);
    }
    SeenIsLast(events, History(events), |events|, id);
    assert events[..|events|] == events;
    SeriesIsSeen(Steps(INITIAL, events), ids, id);
  }

  lemma SeriesIsSeen(s: System, ids: set<Id>, id: Id)
    requires Agrees(s) && LabelsDiffer(ids) && s.tracked.Keys <= ids && id in s.tracked
    ensures LabelOf(id) in s.gauge <==> id in s.seen
    ensures id in s.seen ==> s.gauge[LabelOf(id)] == s.seen[id]
  {
    if LabelOf(id) in s.gauge {
      var shown :| shown in s.seen && LabelOf(shown) == LabelOf(id);
      assert shown == id;
    }
  }

  // Which objects share a series.

  predicate NoSlash(gvk: Gvk) {
    '/' !in gvk.gk.group && '/' !in gvk.version && '/' !in gvk.gk.kind
  }

  /** How the tracker files an object of a kind with the given scope. */
  predicate Proper(id: Id, namespaced: map<Gvk, bool>) {
    && NoSlash(id.gvk) && id.gvk in namespaced
    && if namespaced[id.gvk] then id.ns != "" && id.ns != CLUSTER_SCOPED else id.ns == CLUSTER_SCOPED
  }

  lemma GvkParts(gvk: Gvk)
    requires NoSlash(gvk)
    ensures Split(GvkString(gvk), '/')
            == if gvk.gk.group == "" && gvk.version == "v1" then [gvk.version, gvk.gk.kind]
               else [gvk.gk.group, gvk.version, gvk.gk.kind]
  {
    SplitWithoutSeparator(gvk.gk.group, '/');
    SplitWithoutSeparator(gvk.version, '/');
    SplitWithoutSeparator(gvk.gk.kind, '/');
    SplitAtSeparator(gvk.version, gvk.gk.kind, '/');
    if gvk.gk.group != "" || gvk.version != "v1" {
      SplitAtSeparator(gvk.gk.group, gvk.version + "/" + gvk.gk.kind, '/');
      assert gvk.gk.group + "/" + (gvk.version + "/" + gvk.gk.kind) == GvkString(gvk);
    }
  }

  /** No two properly filed objects do: kinds keep one scope, and no namespace is called
      `_Cluster_`. */
  lemma ProperLabelsDiffer(ids: set<Id>, namespaced: map<Gvk, bool>)
    requires forall id :: id in ids ==> Proper(id, namespaced)
    ensures LabelsDiffer(ids)
  {
    forall a, b | a in ids && b in ids && LabelOf(a) == LabelOf(b) ensures a == b {
      GvkParts(a.gvk);
      GvkParts(b.gvk);
    }
  }
}
