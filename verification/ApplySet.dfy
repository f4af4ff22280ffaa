/** `ApplyOnce` as it is written: loops, counters and an in-memory parent, against a
    cluster that answers as it likes. It is shown to be a run of the protocol. */
module ApplySet {
  import opened Annotations
  import opened Collections
  import opened Schema
  import opened ApplySetModel
  import opened ApplySetCoverage
  import opened ApplySetExactness
  import opened ApplySetParent

  /** How the server answers, whatever it is asked: its `n`-th write is done, refused, or done
      with its reply lost, the object then applied is healthy or not, and a list request made
      before that write is served or refused. */
  datatype Plan = Plan(answers: nat -> Answer, healthy: nat -> bool, serves: (nat, Task) -> bool)

  /** The API server. */
  class Cluster {
    const config: Config
    const plan: Plan
    var objects: map<Key, Live>
    var parent: ParentMeta
    var nextUid: nat
    var log: seq<Request>

    ghost function Snapshot(): World
      reads this
    {
      World(objects, parent, nextUid)
    }

    constructor (config: Config, plan: Plan, parent: ParentMeta)
      ensures this.config == config && this.plan == plan && this.parent == parent
      ensures objects == map[] && nextUid == 0 && log == []
    {
      this.config, this.plan, this.parent := config, plan, parent;
      objects, nextUid, log := map[], 0, [];
    }

    method Update(meta: ParentMeta) returns (ok: bool, ghost answer: Answer)
      modifies this
      ensures ok == answer.Done? && answer == plan.answers(|old(log)|)
      ensures Snapshot() == if answer.Refused? then old(Snapshot()) else old(Snapshot()).(parent := meta)
      ensures log == old(log) + [UpdateParent(ok)]
    {
      var outcome := plan.answers(|log|);
      if !outcome.Refused? {
        parent := meta;
      }
      ok, answer := outcome.Done?, outcome;
      log := log + [UpdateParent(ok)];
    }

    method Patch(k: Key) returns (uid: Option<nat>, healthy: bool, ghost answer: Answer)
      modifies this
      ensures answer == plan.answers(|old(log)|) && healthy == plan.healthy(|old(log)|)
      ensures uid.Some? <==> answer.Done? && Placed(config, k)
      ensures Snapshot() == if answer.Refused? || !Placed(config, k) then old(Snapshot())
                            else Patched(old(Snapshot()), k)
      ensures uid.Some? ==> k in objects && uid.value == objects[k].uid
      ensures log == old(log) + [PatchObject(k, uid.Some?)]
    {
      var outcome := plan.answers(|log|);
      if !outcome.Refused? && Placed(config, k) {
        if k in objects {
          objects := objects[k := objects[k].(member := true)];
        } else {
          objects, nextUid := objects[k := Live(nextUid, true)], nextUid + 1;
        }
      }
      uid := if outcome.Done? && Placed(config, k) then Some(objects[k].uid) else None;
      answer, healthy := outcome, plan.healthy(|log|);
      log := log + [PatchObject(k, uid.Some?)];
    }

    /** What is not there any more cannot be deleted: the server refuses. */
    method Delete(k: Key) returns (ok: bool, ghost answer: Answer)
      modifies this
      ensures (ok <==> answer.Done?) && answer == if k in old(objects) then plan.answers(|old(log)|) else Refused
      ensures Snapshot() == if answer.Refused? then old(Snapshot())
                            else old(Snapshot()).(objects := old(objects) - {k})
      ensures log == old(log) + [DeleteObject(k, ok)]
    {
      var outcome := plan.answers(|log|);
      if k !in objects {
        outcome := Refused;
      }
      ok, answer := outcome.Done?, outcome;
      if !outcome.Refused? {
        objects := objects - {k};
      }
      log := log + [DeleteObject(k, ok)];
    }

    ghost function Matching(gk: GroupKind, namespace: string): set<Key>
      reads this
    {
      set k | k in objects && objects[k].member && k.gk == gk && (namespace == "" || k.namespace == namespace)
    }

    /** Lists the members of one kind, in one namespace or in all. */
    method List(gk: GroupKind, namespace: string) returns (items: Option<seq<Key>>)
      ensures items.Some? <==> plan.serves(|log|, Task(gk, namespace))
      ensures items.Some? ==> Enumerates(items.value, Matching(gk, namespace))
    {
      if !plan.serves(|log|, Task(gk, namespace)) {
        return None;
      }
      var found := UnsortedList(
        set k | k in objects && objects[k].member && k.gk == gk && (namespace == "" || k.namespace == namespace));
      items := Some(found);
    }
  }

  datatype Status = ApplyError | Applied(healthy: bool) | PruneError | Pruned

  datatype Tally = Tally(applied: nat, notApplied: nat, pruned: nat, notPruned: nat)

  datatype Counters = Counters(healthy: nat, unhealthy: nat, notApplied: nat, pruned: nat, notPruned: nat)

  function Counted(c: Counters, status: Status): Counters {
    match status
    case Applied(true) => c.(healthy := c.healthy + 1)
    case Applied(false) => c.(unhealthy := c.unhealthy + 1)
    case ApplyError => c.(notApplied := c.notApplied + 1)
    case Pruned => c.(pruned := c.pruned + 1)
    case PruneError => c.(notPruned := c.notPruned + 1)
  }

  function Having(statuses: seq<(Key, Status)>, status: Status): set<nat> {
    set i: nat | i < |statuses| && statuses[i].1 == status
  }

  /** How many objects have each status. */
  function CountersOf(statuses: seq<(Key, Status)>): Counters {
    Counters(|Having(statuses, Applied(true))|, |Having(statuses, Applied(false))|, |Having(statuses, ApplyError)|,
             |Having(statuses, Pruned)|, |Having(statuses, PruneError)|)
  }

  lemma HavingSnoc(statuses: seq<(Key, Status)>, one: (Key, Status), status: Status)
    ensures |Having(statuses + [one], status)| == |Having(statuses, status)| + if one.1 == status then 1 else 0
  {
    var before, after := Having(statuses, status), Having(statuses + [one], status);
    if one.1 == status {
      assert after == before + {|statuses|};
    } else {
      assert after == before;
    }
  }

  /** Counting one status more is counting one object more. */
  lemma CountersSnoc(statuses: seq<(Key, Status)>, one: (Key, Status))
    ensures CountersOf(statuses + [one]) == Counted(CountersOf(statuses), one.1)
  {
    HavingSnoc(statuses, one, Applied(true));
    HavingSnoc(statuses, one, Applied(false));
    HavingSnoc(statuses, one, ApplyError);
    HavingSnoc(statuses, one, Pruned);
    HavingSnoc(statuses, one, PruneError);
  }

  lemma NoneCounted()
    ensures CountersOf([]) == Counters(0, 0, 0, 0, 0)
  {
    assert forall status :: Having([], status) == {};
  }

  /** A counter is zero exactly if no object has its status. */
  lemma NoneHaving(statuses: seq<(Key, Status)>, status: Status)
    ensures |Having(statuses, status)| == 0 <==> forall i :: 0 <= i < |statuses| ==> statuses[i].1 != status
  {
    if |Having(statuses, status)| == 0 {
      forall i | 0 <= i < |statuses| ensures statuses[i].1 != status {
        assert i !in Having(statuses, status);
      }
    } else {
      var i :| i in Having(statuses, status);
    }
  }

  /** The counters of one run and the status of every object it touched. */
  class ApplyResults {
    const total: nat
    var applySuccessCount: nat
    var applyFailCount: nat
    var pruneSuccessCount: nat
    var pruneFailCount: nat
    var healthyCount: nat
    var unhealthyCount: nat
    var statuses: seq<(Key, Status)>

    ghost function Tallied(): Tally
      reads this
    {
      Tally(applySuccessCount, applyFailCount, pruneSuccessCount, pruneFailCount)
    }

    /** Every applied object was judged healthy or not, and every attempt has one status. */
    ghost predicate Balanced()
      reads this
    {
      && healthyCount + unhealthyCount == applySuccessCount
      && |statuses| == applySuccessCount + applyFailCount + pruneSuccessCount + pruneFailCount
    }

    ghost function Numbers(): Counters
      reads this
    {
      Counters(healthyCount, unhealthyCount, applyFailCount, pruneSuccessCount, pruneFailCount)
    }

    constructor (total: nat)
      ensures this.total == total && Tallied() == Tally(0, 0, 0, 0) && healthyCount == unhealthyCount == 0
      ensures Balanced() && statuses == []
    {
      this.total := total;
      applySuccessCount, applyFailCount, pruneSuccessCount, pruneFailCount := 0, 0, 0, 0;
      healthyCount, unhealthyCount, statuses := 0, 0, [];
    }

    predicate AllApplied()
      reads this
    {
      applyFailCount == 0 && pruneFailCount == 0
    }

    predicate AllHealthy()
      reads this
    {
      unhealthyCount == 0
    }

    method RecordApplyError(k: Key)
      requires Balanced()
      modifies this
      ensures Balanced() && statuses == old(statuses) + [(k, ApplyError)]
      ensures Numbers() == Counted(old(Numbers()), ApplyError)
      ensures Tallied() == old(Tallied()).(notApplied := old(applyFailCount) + 1)
    {
      applyFailCount := applyFailCount + 1;
      statuses := statuses + [(k, ApplyError)];
    }

    /** `applySuccess` followed by `reportHealth`. */
    method RecordApplied(k: Key, healthy: bool)
      requires Balanced()
      modifies this
      ensures Balanced() && statuses == old(statuses) + [(k, Applied(healthy))]
      ensures Numbers() == Counted(old(Numbers()), Applied(healthy))
      ensures Tallied() == old(Tallied()).(applied := old(applySuccessCount) + 1)
    {
      applySuccessCount := applySuccessCount + 1;
      statuses := statuses + [(k, Applied(healthy))];
      if healthy {
        healthyCount := healthyCount + 1;
      } else {
        unhealthyCount := unhealthyCount + 1;
      }
    }

    method RecordPrune(k: Key, ok: bool)
      requires Balanced()
      modifies this
      ensures Balanced() && statuses == old(statuses) + [(k, if ok then Pruned else PruneError)]
      ensures Numbers() == Counted(old(Numbers()), if ok then Pruned else PruneError)
      ensures Tallied() == if ok then old(Tallied()).(pruned := old(pruneSuccessCount) + 1)
                           else old(Tallied()).(notPruned := old(pruneFailCount) + 1)
    {
      var status := (k, if ok then Pruned else PruneError);
      if ok {
        pruneSuccessCount := pruneSuccessCount + 1;
      } else {
        pruneFailCount := pruneFailCount + 1;
      }
      statuses := statuses + [status];
    }
  }

  datatype Task = Task(gk: GroupKind, namespace: string)

  /** The list request that finds an object of this kind. */
  function TaskFor(c: Config, k: Key): Task
    requires k.gk in c.scopes
  {
    Task(k.gk, if c.scopes[k.gk].Namespaced? then k.namespace else "")
  }

  ghost predicate IsTask(c: Config, kinds: set<GroupKind>, namespaces: set<string>, t: Task) {
    && t.gk in kinds && t.gk in c.scopes
    && (if c.scopes[t.gk].Namespaced? then t.namespace in namespaces else t.namespace == "")
  }

  /** Every list request for what the parent remembers is served. */
  ghost predicate ServesAll(c: Config, plan: Plan, m: Memory, n: nat) {
    forall t :: IsTask(c, m.kinds, m.namespaces, t) ==> plan.serves(n, t)
  }

  /** What a set of list requests finds, less the objects just applied. */
  ghost function Found(c: Config, w: World, tasks: seq<Task>, visited: set<nat>): set<Key> {
    set k | k in w.objects && w.objects[k].member && k.gk in c.scopes && TaskFor(c, k) in tasks
            && w.objects[k].uid !in visited
  }

  ghost function SetOf<T>(s: seq<T>): set<T> {
    set x | x in s
  }

  ghost function Unvisited(keys: set<Key>, objects: map<Key, Live>, visited: set<nat>): set<Key> {
    set k | k in keys && k in objects && objects[k].uid !in visited
  }

  ghost predicate Distinct<T>(s: seq<T>) {
    forall i, j :: 0 <= i < j < |s| ==> s[i] != s[j]
  }

  /** The per-run record of kinds and namespaces, old and new. */
  class Record {
    var currentResources: set<GroupKind>
    var currentNamespaces: set<string>
    var updatedResources: set<GroupKind>
    var updatedNamespaces: set<string>

    ghost function Current(): Memory
      reads this
    {
      Memory(currentResources, currentNamespaces)
    }

    ghost function Updated(): Memory
      reads this
    {
      Memory(updatedResources, updatedNamespaces)
    }

    constructor ()
      ensures Current() == Updated() == Memory({}, {})
    {
      currentResources, currentNamespaces := {}, {};
      updatedResources, updatedNamespaces := {}, {};
    }

    method AddResource(gk: GroupKind, scope: Scope, namespace: string)
      modifies this
      ensures Current() == old(Current())
      ensures updatedResources == old(updatedResources) + {gk}
      ensures updatedNamespaces ==
              old(updatedNamespaces) + (if scope.Namespaced? && namespace != "" then {namespace} else {})
    {
      updatedResources := updatedResources + {gk};
      if scope.Namespaced? && namespace != "" {
        updatedNamespaces := updatedNamespaces + {namespace};
      }
    }

    method FetchParent(c: Config, mapper: Mapper, meta: ParentMeta) returns (ok: bool)
      modifies this
      ensures Updated() == old(Updated())
      ensures KindsAnnotation in meta.annotations ==>
                (ok <==> FetchAccepts(c, meta) && Read(c, meta).kinds <= Resolvable(c, mapper))
      ensures KindsAnnotation in meta.annotations && ok ==> Current() == Read(c, meta)
      ensures KindsAnnotation !in meta.annotations ==>
                var text := TextAt(meta, DeprecatedAnnotation);
                var resolves := ResourcesResolve(text, mapper.resources, Resolvable(c, mapper));
                && (ok <==> FetchAccepts(c, meta) && text != "" && resolves)
                && (ok ==> Current() == Memory(ResourceKinds(text, mapper.resources), Read(c, meta).namespaces))
    {
      if !FetchAccepts(c, meta) {
        return false;
      }
      var mappings := ParseKindAnnotation(AnnotationAt(meta, KindsAnnotation), TextAt(meta, DeprecatedAnnotation),
                                          mapper.resources, Resolvable(c, mapper));
      if mappings.None? {
        return false;
      }
      currentResources := mappings.value;
      currentNamespaces := ParseNamespacesAnnotation(AnnotationAt(meta, NamespacesAnnotation));
      if c.parent.namespaced {
        currentNamespaces := currentNamespaces + {c.parent.namespace};
      }
      ok := true;
    }

    /** The list requests for one kind, or nothing when the pruner must refuse. */
    method TasksForKind(c: Config, gk: GroupKind) returns (tasks: Option<seq<Task>>)
      requires gk in c.scopes
      ensures tasks.Some? ==> Distinct(tasks.value)
      ensures tasks.Some? ==> forall t :: t in tasks.value <==> IsTask(c, {gk}, currentNamespaces, t)
      ensures tasks.Some? <==> !c.scopes[gk].OtherScope? && (c.scopes[gk].Namespaced? ==> "" !in currentNamespaces)
    {
      match c.scopes[gk]
      case OtherScope => tasks := None;
      case Root => tasks := Some([Task(gk, "")]);
      case Namespaced =>
        var namespaces := UnsortedList(currentNamespaces);
        var all: seq<Task> := [];
        for i := 0 to |namespaces|
          invariant |all| == i && forall j :: 0 <= j < i ==> all[j] == Task(gk, namespaces[j])
          invariant "" !in namespaces[..i]
        {
          if namespaces[i] == "" {
            return None;
          }
          all := all + [Task(gk, namespaces[i])];
        }
        assert namespaces[..|namespaces|] == namespaces;
        forall t ensures t in all <==> IsTask(c, {gk}, currentNamespaces, t) {
          if t.gk == gk && t.namespace in namespaces {
            var j :| 0 <= j < |namespaces| && namespaces[j] == t.namespace;
            assert all[j] == t;
          }
        }
        tasks := Some(all);
    }

    method Tasks(c: Config) returns (tasks: Option<seq<Task>>)
      requires currentResources <= c.scopes.Keys
      ensures tasks.Some? <==> CanList(c, Current())
      ensures tasks.Some? ==> Distinct(tasks.value)
      ensures tasks.Some? ==> forall t :: t in tasks.value <==> IsTask(c, currentResources, currentNamespaces, t)
    {
      var kinds := UnsortedList(currentResources);
      var all: seq<Task> := [];
      for i := 0 to |kinds|
        invariant Distinct(all)
        invariant forall t :: t in all <==> t.gk in kinds[..i] && IsTask(c, currentResources, currentNamespaces, t)
        invariant forall gk :: gk in kinds[..i] ==>
          !c.scopes[gk].OtherScope? && (c.scopes[gk].Namespaced? ==> "" !in currentNamespaces)
      {
        var more := TasksForKind(c, kinds[i]);
        if more.None? {
          return None;
        }
        assert kinds[..i + 1] == kinds[..i] + [kinds[i]];
        assert forall t :: t in more.value ==> t !in all;
        all := all + more.value;
      }
      assert kinds[..|kinds|] == kinds;
      tasks := Some(all);
    }

    method FindObjectsToPrune(cluster: Cluster, visited: set<nat>, task: Task) returns (found: Option<seq<Key>>)
      ensures found.Some? <==> cluster.plan.serves(|cluster.log|, task)
      ensures found.Some? ==>
        Enumerates(found.value, Unvisited(cluster.Matching(task.gk, task.namespace), cluster.objects, visited))
    {
      var listed := cluster.List(task.gk, task.namespace);
      if listed.None? {
        return None;
      }
      var items := listed.value;
      var kept: seq<Key> := [];
      assert forall k :: k in items ==> k in cluster.objects;
      for i := 0 to |items|
        invariant Enumerates(kept, Unvisited(SetOf(items[..i]), cluster.objects, visited))
      {
        assert items[i] in items;
        ghost var before := SetOf(items[..i]);
        assert items[..i + 1] == items[..i] + [items[i]];
        assert SetOf(items[..i + 1]) == before + {items[i]};
        if cluster.objects[items[i]].uid !in visited {
          assert Unvisited(before + {items[i]}, cluster.objects, visited)
              == Unvisited(before, cluster.objects, visited) + {items[i]};
          EnumeratesConcat(kept, Unvisited(before, cluster.objects, visited), [items[i]], {items[i]});
          kept := kept + [items[i]];
        } else {
          assert Unvisited(before + {items[i]}, cluster.objects, visited) ==
                   Unvisited(before, cluster.objects, visited);
        }
      }
      assert SetOf(items[..|items|]) == cluster.Matching(task.gk, task.namespace);
      found := Some(kept);
    }

    /** Every live member of an old kind in an old namespace that was not just applied, once. */
    method FindAllObjectsToPrune(cluster: Cluster, visited: set<nat>) returns (found: Option<seq<Key>>)
      requires currentResources <= cluster.config.scopes.Keys
      requires forall k :: k in cluster.objects ==> Placed(cluster.config, k)
      ensures found.Some? <==>
                CanList(cluster.config, Current())
                && ServesAll(cluster.config, cluster.plan, Current(), |cluster.log|)
      ensures found.Some? ==>
        Enumerates(found.value, Victims(cluster.config, cluster.Snapshot(), Current(), visited))
    {
      var c := cluster.config;
      var planned := Tasks(c);
      if planned.None? {
        return None;
      }
      var tasks, all: seq<Key> := planned.value, [];
      ghost var w := cluster.Snapshot();
      for i := 0 to |tasks|
        invariant Enumerates(all, Found(c, w, tasks[..i], visited))
        invariant forall t :: t in tasks[..i] ==> cluster.plan.serves(|cluster.log|, t)
      {
        assert tasks[i] in tasks && tasks[..i + 1] == tasks[..i] + [tasks[i]];
        var more := FindObjectsToPrune(cluster, visited, tasks[i]);
        if more.None? {
          return None;
        }
        ghost var listed := cluster.Matching(tasks[i].gk, tasks[i].namespace);
        AddTask(c, w, tasks, i, visited, listed, currentNamespaces, currentResources);
        EnumeratesConcat(all, Found(c, w, tasks[..i], visited), more.value, Unvisited(listed, w.objects, visited));
        all := all + more.value;
      }
      assert tasks[..|tasks|] == tasks;
      assert Found(c, w, tasks, visited) == Victims(c, w, Current(), visited);
      found := Some(all);
    }
  }

  lemma EnumeratesConcat<T(!new)>(a: seq<T>, s: set<T>, b: seq<T>, t: set<T>)
    requires Enumerates(a, s) && Enumerates(b, t) && s !! t
    ensures Enumerates(a + b, s + t)
  {
    forall i, j | 0 <= i < j < |a + b| ensures (a + b)[i] != (a + b)[j] {
      assert (a + b)[i] in s <==> i < |a|;
      assert (a + b)[j] in s <==> j < |a|;
    }
  }

  /** The objects of one more request are new, because each object answers one request only. */
  lemma AddTask(c: Config, w: World, tasks: seq<Task>, i: nat, visited: set<nat>, listed: set<Key>,
                namespaces: set<string>, kinds: set<GroupKind>)
    requires i < |tasks| && Distinct(tasks)
    requires forall t :: t in tasks ==>
               IsTask(c, kinds, namespaces, t) && (c.scopes[t.gk].Namespaced? ==> t.namespace != "")
    requires forall k :: k in w.objects ==> Placed(c, k)
    requires listed == set k | k in w.objects && w.objects[k].member && k.gk == tasks[i].gk
                              && (tasks[i].namespace == "" || k.namespace == tasks[i].namespace)
    ensures var extra := Unvisited(listed, w.objects, visited);
            && Found(c, w, tasks[..i + 1], visited) == Found(c, w, tasks[..i], visited) + extra
            && Found(c, w, tasks[..i], visited) !! extra
  {
    assert tasks[..i + 1] == tasks[..i] + [tasks[i]];
    assert tasks[i] in tasks;
    assert forall k :: k in listed <==> k in w.objects && w.objects[k].member && TaskFor(c, k) == tasks[i];
  }

  /** An object of the list went through: its kind resolves, it can live where it is to, and its
      apply was acknowledged. */
  predicate AppliedAt(c: Config, mapper: Mapper, d: Desired, e: Event) {
    d.gvk in mapper.versioned && d.unstructured && Placed(c, KeyOf(d)) && e == Apply(Done)
  }

  function StatusAt(c: Config, mapper: Mapper, d: Desired, e: Event, healthy: bool): (Key, Status) {
    (KeyOf(d), if AppliedAt(c, mapper, d, e) then Applied(healthy) else ApplyError)
  }

  /** One status for each object applied so far, in order. */
  ghost predicate AppliesTold(c: Config, plan: Plan, mapper: Mapper, desired: seq<Desired>, s: State,
                              events: seq<Event>, statuses: seq<(Key, Status)>) {
    && |statuses| == |events| <= |desired|
    && forall i :: 0 <= i < |events| ==>
         statuses[i] == StatusAt(c, mapper, desired[i], events[i], plan.healthy(|Steps(c, s, events[..i]).log|))
  }

  /** After those, one for each delete, in order. */
  predicate PrunesTold(before: seq<(Key, Status)>, after: seq<(Key, Status)>, events: seq<Event>) {
    && before <= after
    && (forall j :: |before| <= j < |after| ==>
          var i := j - |before| + 1;
          && i < |events| && events[i].Delete?
          && after[j] == (events[i].key, if events[i].answer.Done? then Pruned else PruneError))
    && (forall i :: 0 <= i < |events| && events[i].Delete? ==> 1 <= i <= |after| - |before|)
  }

  // Runs that go as the plan says.

  /** The answer in the event is the planned one. */
  ghost predicate Answered(c: Config, plan: Plan, s: State, e: Event) {
    match e
    case Apply(answer) => answer == plan.answers(|s.log|)
    case BeginPrune(ok) => s.phase.Applying? && (ok <==> ServesAll(c, plan, s.phase.run.current, |s.log|))
    case Delete(k, answer) => answer == if k in s.world.objects then plan.answers(|s.log|) else Refused
    case Finish(answer) => answer == plan.answers(|s.log|)
    case _ => false
  }

  ghost predicate Follows(c: Config, plan: Plan, s: State, events: seq<Event>) {
    events == [] ||
    var front := events[..|events| - 1];
    Follows(c, plan, s, front) && Answered(c, plan, Steps(c, s, front), events[|events| - 1])
  }

  lemma FollowsSnoc(c: Config, plan: Plan, s: State, events: seq<Event>, e: Event)
    requires Follows(c, plan, s, events) && Answered(c, plan, Steps(c, s, events), e)
    ensures Follows(c, plan, s, events + [e])
  {
    assert (events + [e])[..|events|] == events;
  }

  lemma {:induction false} FollowsConcat(c: Config, plan: Plan, s: State, a: seq<Event>, b: seq<Event>)
    requires Follows(c, plan, s, a) && Follows(c, plan, Steps(c, s, a), b)
    ensures Follows(c, plan, s, a + b)
    decreases |b|
  {
    if b == [] {
      assert a + b == a;
    } else {
      var front, e := b[..|b| - 1], b[|b| - 1];
      FollowsConcat(c, plan, s, a, front);
      StepsConcat(c, s, a, front);
      FollowsSnoc(c, plan, s, a + front, e);
      assert a + b == (a + front) + [e];
    }
  }

  class Applier {
    const config: Config
    const cluster: Cluster
    const prune: bool
    /** The copy of the parent held in memory. */
    var subject: ParentMeta
    var desired: seq<Desired>

    ghost predicate Valid()
      reads this, cluster
    {
      config == cluster.config && WorldOk(config, cluster.Snapshot())
    }

    ghost function At(phase: Phase): State
      reads cluster
    {
      State(cluster.Snapshot(), phase, cluster.log)
    }

    constructor (cluster: Cluster, prune: bool, subject: ParentMeta)
      ensures config == cluster.config && this.cluster == cluster && this.prune == prune
      ensures this.subject == subject && desired == []
    {
      config, this.cluster, this.prune := cluster.config, cluster, prune;
      this.subject, desired := subject, [];
    }

    method SetDesiredObjects(objects: seq<Desired>)
      modifies this`desired
      ensures desired == objects
    {
      desired := objects;
    }

    /** Writes `kinds` and `namespaces` into the parent, and stores it when it changed. */
    method UpdateParent(kinds: set<GroupKind>, namespaces: set<string>) returns (ok: bool, ghost answer: Answer)
      modifies this`subject, cluster
      ensures old(Valid()) ==> Valid()
      ensures subject == Merged(config, old(subject), Memory(kinds, namespaces))
      ensures Stamped(config, old(subject), subject)
      ensures answer == cluster.plan.answers(|old(cluster.log)|)
      ensures ok <==> old(subject) == subject || answer.Done?
      ensures cluster.Snapshot() == if old(subject) == subject || answer.Refused? then old(cluster.Snapshot())
                                    else old(cluster.Snapshot()).(parent := subject)
      ensures cluster.log == old(cluster.log) +
                (if old(subject) == subject then [] else [Request.UpdateParent(answer.Done?)])
    {
      var original := subject;
      var kindsText := GenerateResourcesAnnotation(kinds);
      var namespacesText := GenerateNamespacesAnnotation(namespaces, config.parent.namespace);
      var annotations := subject.annotations[ToolingAnnotation := ToolingText(config.tooling)]
                                            [KindsAnnotation := kindsText]
                                            [NamespacesAnnotation := namespacesText];
      if DeprecatedAnnotation in annotations && annotations[DeprecatedAnnotation] == "" {
        annotations := annotations - {DeprecatedAnnotation};
      }
      subject := ParentMeta(annotations, subject.labels[ParentIDLabel := config.id]);
      assert subject == Merged(config, original, Memory(kinds, namespaces));
      MergedStamps(config, original, Memory(kinds, namespaces));
      ok, answer := true, cluster.plan.answers(|cluster.log|);
      if original != subject {
        ghost var before := cluster.Snapshot();
        ok, answer := cluster.Update(subject);
        ParentIsNoObject(config, before, subject);
      }
    }

    method CollectResources(mapper: Mapper) returns (record: Record, restMappings: map<Gvk, Option<Scope>>)
      ensures fresh(record) && record.Updated() == Collected(config, mapper, desired)
      ensures forall gvk :: gvk in restMappings ==> restMappings[gvk] == Lookup(config, mapper, gvk)
      ensures forall d :: d in desired ==> d.gvk in restMappings
    {
      record := new Record();
      restMappings := map[];
      for i := 0 to |desired|
        invariant fresh(record) && record.Updated() == Collected(config, mapper, desired[..i])
        invariant forall gvk :: gvk in restMappings ==> restMappings[gvk] == Lookup(config, mapper, gvk)
        invariant forall d :: d in desired[..i] ==> d.gvk in restMappings
      {
        var d := desired[i];
        assert desired[..i + 1] == desired[..i] + [d];
        if d.gvk !in restMappings {
          restMappings := restMappings[d.gvk := Lookup(config, mapper, d.gvk)];
        }
        if restMappings[d.gvk].Some? {
          record.AddResource(d.gvk.gk, restMappings[d.gvk].value, d.namespace);
        }
        CollectedSnoc(config, mapper, desired[..i], d);
      }
      assert desired[..|desired|] == desired;
    }

    ghost function RunOf(mapper: Mapper, record: Record): Run
      reads this, record
    {
      Run(desired, mapper, prune, record.Current(), record.Updated())
    }

    /** Prepares the in-memory parent, reads it, and stores the superset. */
    method WithParent(mapper: Mapper, record: Record) returns (ok: bool, ghost answer: Answer)
      requires record.Updated() == Collected(config, mapper, desired)
      modifies this`subject, cluster, record
      ensures old(Valid()) ==> Valid()
      ensures StartFrom(config, old(At(Idle)), old(subject), desired, mapper, prune, answer)
           == At(if ok then Applying(RunOf(mapper, record), subject, 0, {}, 0) else Idle)
      ensures record.Updated() == old(record.Updated())
      ensures answer == cluster.plan.answers(|old(cluster.log)|)
      ensures SameRest(old(subject), subject) && (ok ==> Stamped(config, old(subject), subject))
      ensures ok ==> record.currentResources <= config.scopes.Keys && record.Current() == Read(config, old(subject))
      ensures cluster.objects == old(cluster.objects) && cluster.nextUid == old(cluster.nextUid)
    {
      PreparedKeepsRest(config, subject);
      PreparedReads(config, subject);
      subject := Prepared(config, subject);
      answer := cluster.plan.answers(|cluster.log|);
      ok := record.FetchParent(config, mapper, subject);
      if !ok {
        return;
      }
      ghost var run, prepared := RunOf(mapper, record), subject;
      assert run.current.kinds <= config.scopes.Keys;
      ok, answer := UpdateParent(record.currentResources + record.updatedResources,
                                 record.currentNamespaces + record.updatedNamespaces);
      StartWrites(config, old(At(Idle)), old(subject), run, answer);
      assert subject == Merged(config, prepared, Union(run.current, run.updated));
      MergedStampsOn(config, old(subject), old(subject), Union(run.current, run.updated));
    }

    /** The server-side apply of one object that passed the checks. */
    method SendObject(d: Desired, visited: set<nat>, results: ApplyResults, ghost run: Run, ghost meta: ParentMeta,
                      ghost next: nat)
      returns (visited': set<nat>, ghost answer: Answer)
      requires Valid() && results.Balanced()
      requires next < |run.desired| && run.desired[next] == d && Vet(config, run.mapper, d).Send?
      modifies cluster, results
      ensures Valid() && results.Balanced()
      ensures answer == cluster.plan.answers(|old(cluster.log)|)
      ensures ApplyStep(config, old(At(Applying(run, meta, next, visited, results.applyFailCount))), answer)
           == At(Applying(run, meta, next + 1, visited', results.applyFailCount))
      ensures var applied := answer.Done? && Placed(config, KeyOf(d));
              && results.Tallied() == (if applied
                   then old(results.Tallied()).(applied := old(results.applySuccessCount) + 1)
                   else old(results.Tallied()).(notApplied := old(results.applyFailCount) + 1))
              && results.statuses == old(results.statuses) +
                   [(KeyOf(d), if applied then Applied(cluster.plan.healthy(|old(cluster.log)|)) else ApplyError)]
    {
      visited' := visited;
      PatchKeepsWorld(config, cluster.Snapshot(), KeyOf(d));
      var uid, healthy;
      uid, healthy, answer := cluster.Patch(KeyOf(d));
      if uid.None? {
        results.RecordApplyError(KeyOf(d));
      } else {
        visited' := visited + {uid.value};
        results.RecordApplied(KeyOf(d), healthy);
      }
    }

    /** One object: vetted, labelled, sent, and recorded. */
    method ApplyObject(d: Desired, mapping: Option<Scope>, visited: set<nat>, results: ApplyResults, ghost run: Run,
                       ghost meta: ParentMeta, ghost next: nat)
      returns (ok: bool, visited': set<nat>, ghost answer: Answer)
      requires Valid() && results.Balanced()
      requires next < |run.desired| && run.desired[next] == d && mapping == Lookup(config, run.mapper, d.gvk)
      modifies cluster, results
      ensures Valid() && results.Balanced() && (ok <==> !Aborts(config, run.mapper, d))
      ensures answer == cluster.plan.answers(|old(cluster.log)|)
      ensures ApplyStep(config, old(At(Applying(run, meta, next, visited, results.applyFailCount))), answer)
           == At(if ok then Applying(run, meta, next + 1, visited', results.applyFailCount) else Idle)
      ensures results.Tallied() ==
              if !ok then old(results.Tallied())
              else if AppliedAt(config, run.mapper, d, Apply(answer))
              then old(results.Tallied()).(applied := old(results.applySuccessCount) + 1)
              else old(results.Tallied()).(notApplied := old(results.applyFailCount) + 1)
      ensures results.statuses == old(results.statuses) +
                if !ok then []
                else [StatusAt(config, run.mapper, d, Apply(answer), cluster.plan.healthy(|old(cluster.log)|))]
    {
      ok, visited', answer := true, visited, cluster.plan.answers(|cluster.log|);
      VetExactly(config, run.mapper, d);
      if mapping.None? {
        results.RecordApplyError(KeyOf(d));
      } else if !d.unstructured || mapping.value.OtherScope? {
        ok := false;
      } else if mapping.value.Namespaced? != (d.namespace != "") {
        results.RecordApplyError(KeyOf(d));
      } else {
        visited', answer := SendObject(d, visited, results, run, meta, next);
      }
    }

    /** The first `i` objects have been dealt with. */
    ghost predicate Handled(i: nat, results: ApplyResults, run: Run, meta: ParentMeta, s1: State, answers: seq<Answer>,
                            visited: set<nat>)
      reads cluster, results
    {
      && WorldOk(config, cluster.Snapshot()) && results.Balanced() && |answers| == i
      && results.applySuccessCount + results.applyFailCount == i
      && results.pruneSuccessCount == results.pruneFailCount == 0
      && ApplyAll(config, s1, answers) == At(Applying(run, meta, i, visited, results.applyFailCount))
      && Ledger(config, cluster.plan, run.mapper, run.desired, s1, answers, results.statuses, results.applyFailCount)
    }

    /** `ApplyObject` as one more step of the run that began at `s1`. */
    method ApplyNext(d: Desired, mapping: Option<Scope>, visited: set<nat>, results: ApplyResults, ghost run: Run,
                     ghost meta: ParentMeta, ghost s1: State, ghost answers: seq<Answer>)
      returns (ok: bool, visited': set<nat>, ghost answer: Answer)
      requires config == cluster.config && Handled(|answers|, results, run, meta, s1, answers, visited)
      requires |answers| < |run.desired| && run.desired[|answers|] == d && mapping == Lookup(config, run.mapper, d.gvk)
      modifies cluster, results
      ensures ok <==> !Aborts(config, run.mapper, d)
      ensures ok ==> Handled(|answers| + 1, results, run, meta, s1, answers + [answer], visited')
      ensures !ok ==> Valid() && results.Balanced()
      ensures !ok ==> Steps(config, s1, Applies(answers + [answer])) == At(Idle)
      ensures !ok ==> Follows(config, cluster.plan, s1, Applies(answers + [answer]))
    {
      ghost var before, failures := results.statuses, results.applyFailCount;
      ok, visited', answer := ApplyObject(d, mapping, visited, results, run, meta, |answers|);
      OneMoreAnswer(config, s1, answers, answer);
      if ok {
        LedgerGrows(config, cluster.plan, run.mapper, run.desired, s1, answers, before, failures, answer);
      } else {
        LedgerFollows(config, cluster.plan, run.mapper, run.desired, s1, answers, before, failures);
        ApplyFollows(config, cluster.plan, s1, answers, answer);
      }
    }

    method ApplyObjects(restMappings: map<Gvk, Option<Scope>>, results: ApplyResults, ghost run: Run,
                        ghost meta: ParentMeta, ghost s1: State)
      returns (ok: bool, visited: set<nat>, ghost answers: seq<Answer>)
      requires Valid() && run.desired == desired && results.Balanced() && results.Tallied() == Tally(0, 0, 0, 0)
      requires results.statuses == [] && s1 == At(Applying(run, meta, 0, {}, 0))
      requires forall gvk :: gvk in restMappings ==> restMappings[gvk] == Lookup(config, run.mapper, gvk)
      requires forall d :: d in desired ==> d.gvk in restMappings
      modifies cluster, results
      ensures ok <==> NoAbort(config, run.mapper, desired)
      ensures ok ==> Handled(|desired|, results, run, meta, s1, answers, visited)
      ensures !ok ==> Valid() && results.Balanced()
      ensures !ok ==> Steps(config, s1, Applies(answers)) == At(Idle)
      ensures !ok ==> Follows(config, cluster.plan, s1, Applies(answers))
    {
      visited, answers := {}, [];
      for i := 0 to |desired|
        invariant |answers| == i && Handled(i, results, run, meta, s1, answers, visited)
      {
        var d := desired[i];
        ghost var answer;
        ok, visited, answer := ApplyNext(d, restMappings[d.gvk], visited, results, run, meta, s1, answers);
        answers := answers + [answer];
        if !ok {
          return;
        }
      }
      LedgerCompletes(config, cluster.plan, run.mapper, desired, s1, answers, results.statuses, results.applyFailCount);
      ok := true;
    }

    /** One more delete of the run that began at `s1`; a failure is recorded and the run goes on. */
    method DeleteNext(k: Key, results: ApplyResults, ghost p: Phase, ghost s1: State, ghost events: seq<Event>)
      returns (ghost p': Phase, ghost event: Event)
      requires Valid() && results.Balanced()
      requires p.Pruning? && k in p.victims && Steps(config, s1, events) == At(p)
      requires Follows(config, cluster.plan, s1, events)
      modifies cluster, results
      ensures Valid() && results.Balanced()
      ensures event.Delete? && event.key == k && Steps(config, s1, events + [event]) == At(p')
      ensures Follows(config, cluster.plan, s1, events + [event])
      ensures p'.Pruning?
           && p' == p.(victims := p.victims - {k}, failed := if event.answer.Done? then p.failed else p.failed + {k})
      ensures results.Tallied() ==
              if event.answer.Done? then old(results.Tallied()).(pruned := old(results.pruneSuccessCount) + 1)
              else old(results.Tallied()).(notPruned := old(results.pruneFailCount) + 1)
      ensures results.statuses == old(results.statuses) + [(k, if event.answer.Done? then Pruned else PruneError)]
    {
      var ok; ghost var answer;
      ok, answer := cluster.Delete(k);
      results.RecordPrune(k, ok);
      event := Event.Delete(k, answer);
      StepsSnoc(config, s1, events, event);
      FollowsSnoc(config, cluster.plan, s1, events, event);
      p' := p.(victims := p.victims - {k}, failed := if ok then p.failed else p.failed + {k});
    }

    /** The first `i` of the keys have been tried, whatever came of it. */
    ghost predicate Tried(keys: seq<Key>, i: nat, results: ApplyResults, start: Phase, end: Phase, s1: State,
                          events: seq<Event>, before: seq<(Key, Status)>)
      requires i <= |keys|
      reads cluster, results
    {
      && WorldOk(config, cluster.Snapshot()) && results.Balanced() && |events| == i
      && Steps(config, s1, events) == At(end) && Follows(config, cluster.plan, s1, events)
      && start.Pruning? && end.Pruning? && Distinct(keys)
      && end == start.(victims := SetOf(keys[i..]), failed := end.failed)
      && (start.failed == {} && results.pruneFailCount == 0 ==> end.failed == {})
      && results.pruneSuccessCount + results.pruneFailCount == i
      && DeletesOf(keys[..i], events) && results.statuses == before + DeleteStatuses(events)
      && (results.pruneFailCount == 0 <==> AllDone(events))
    }

    method DeleteAt(keys: seq<Key>, i: nat, results: ApplyResults, ghost start: Phase, ghost p: Phase, ghost s1: State,
                    ghost events: seq<Event>, ghost before: seq<(Key, Status)>)
      returns (ghost p': Phase, ghost event: Event)
      requires config == cluster.config && i < |keys| && Tried(keys, i, results, start, p, s1, events, before)
      modifies cluster, results
      ensures Tried(keys, i + 1, results, start, p', s1, events + [event], before)
      ensures results.applySuccessCount == old(results.applySuccessCount)
      ensures results.applyFailCount == old(results.applyFailCount)
    {
      OneKeyLess(keys, i);
      p', event := DeleteNext(keys[i], results, p, s1, events);
      OneMoreDelete(keys, i, events, event);
    }

    method DeleteObjects(keys: seq<Key>, results: ApplyResults, ghost start: Phase)
      returns (ghost end: Phase, ghost events: seq<Event>)
      requires Valid() && results.Balanced() && results.pruneSuccessCount == results.pruneFailCount == 0
      requires start.Pruning? && Enumerates(keys, start.victims)
      modifies cluster, results
      ensures Valid() && results.Balanced()
      ensures Steps(config, old(At(start)), events) == At(end)
      ensures Follows(config, cluster.plan, old(At(start)), events)
      ensures end.Pruning? && end == start.(victims := {}, failed := end.failed)
      ensures start.failed == {} && results.pruneFailCount == 0 ==> end.failed == {}
      ensures |events| == |keys| == results.pruneSuccessCount + results.pruneFailCount
      ensures DeletesOf(keys, events) && results.statuses == old(results.statuses) + DeleteStatuses(events)
      ensures results.applySuccessCount == old(results.applySuccessCount)
      ensures results.applyFailCount == old(results.applyFailCount)
      ensures results.pruneFailCount == 0 <==> AllDone(events)
    {
      end, events := start, [];
      ghost var s1, before := At(start), results.statuses;
      assert SetOf(keys[0..]) == start.victims;
      for i := 0 to |keys|
        invariant Tried(keys, i, results, start, end, s1, events, before)
        invariant results.applySuccessCount == old(results.applySuccessCount)
        invariant results.applyFailCount == old(results.applyFailCount)
      {
        ghost var event;
        end, event := DeleteAt(keys, i, results, start, end, s1, events, before);
        events := events + [event];
      }
      assert keys[..|keys|] == keys && SetOf(keys[|keys|..]) == {};
    }

    method ListVictims(record: Record, visited: set<nat>, ghost run: Run)
      returns (found: Option<seq<Key>>, ghost start: Phase, ghost event: Event)
      requires Valid() && run == RunOf(run.mapper, record) && run.prune && record.currentResources <= config.scopes.Keys
      ensures event == BeginPrune(ServesAll(config, cluster.plan, run.current, |cluster.log|))
      ensures found.Some? <==> CanList(config, run.current) && event.ok
      ensures BeginPruneStep(config, At(Applying(run, subject, |run.desired|, visited, 0)), event.ok)
           == At(if found.Some? then start else Idle)
      ensures found.Some? ==> start.Pruning? && start.run == run && start.meta == subject && start.failed == {}
      ensures found.Some? ==> Enumerates(found.value, start.victims)
    {
      found := record.FindAllObjectsToPrune(cluster, visited);
      event := BeginPrune(ServesAll(config, cluster.plan, run.current, |cluster.log|));
      start := Pruning(run, subject, visited, Victims(config, cluster.Snapshot(), record.Current(), visited), {});
    }

    method StoreLatest(record: Record, ghost end: Phase) returns (ghost answer: Answer)
      requires end.Pruning? && end.victims == {} && end.meta == subject && end.run.updated == record.Updated()
      modifies this`subject, cluster
      ensures old(Valid()) ==> Valid()
      ensures FinishStep(config, old(At(end)), answer) == At(Idle)
      ensures answer == cluster.plan.answers(|old(cluster.log)|)
      ensures cluster.objects == old(cluster.objects) && cluster.nextUid == old(cluster.nextUid)
    {
      var stored;
      stored, answer := UpdateParent(record.updatedResources, record.updatedNamespaces);
    }

    /** Lists, deletes and stores the latest memory; fails only if it cannot list. */
    method Prune(record: Record, visited: set<nat>, results: ApplyResults, ghost run: Run, ghost s1: State)
      returns (ok: bool, ghost events: seq<Event>)
      requires Valid() && results.Balanced() && results.pruneSuccessCount == results.pruneFailCount == 0
      requires run == RunOf(run.mapper, record) && run.prune && record.currentResources <= config.scopes.Keys
      requires s1 == At(Applying(run, subject, |run.desired|, visited, 0))
      modifies this`subject, cluster, results
      ensures Valid() && results.Balanced()
      ensures Steps(config, s1, events) == At(Idle) && Follows(config, cluster.plan, s1, events)
      ensures events != [] && events[0].BeginPrune? && (ok <==> CanList(config, run.current) && events[0].ok)
      ensures PrunesTold(old(results.statuses), results.statuses, events)
      ensures results.applySuccessCount == old(results.applySuccessCount)
      ensures results.applyFailCount == old(results.applyFailCount)
      ensures results.pruneFailCount == 0 <==> DeletesDone(events)
      ensures ok && results.pruneFailCount == 0 ==> CleanPrune(config, s1, events, cluster.objects)
    {
      ghost var start, end, deletes, answer, event;
      var found;
      found, start, event := ListVictims(record, visited, run);
      OneStep(config, s1, event);
      FollowsOne(config, cluster.plan, s1, event);
      ok := found.Some?;
      if !ok {
        events := [event];
        return;
      }
      ghost var before := results.statuses;
      end, deletes := DeleteObjects(found.value, results, start);
      ghost var s2 := At(end);
      answer := StoreLatest(record, end);
      events := [event] + deletes + [Finish(answer)];
      PruneRuns(config, cluster.plan, s1, before, found.value, deletes, s2, answer);
    }

    /** Prunes only when asked to and when every object was applied. */
    method PruneIfClean(record: Record, visited: set<nat>, results: ApplyResults, ghost run: Run, ghost s1: State)
      returns (ok: bool, ghost events: seq<Event>)
      requires Valid() && results.Balanced() && results.pruneSuccessCount == results.pruneFailCount == 0
      requires run == RunOf(run.mapper, record) && record.currentResources <= config.scopes.Keys
      requires s1 == At(Applying(run, subject, |run.desired|, visited, results.applyFailCount))
      modifies this`subject, cluster, results
      ensures Valid() && results.Balanced()
      ensures Steps(config, s1, events) == At(Idle) && Follows(config, cluster.plan, s1, events)
      ensures events != [] && events[0].BeginPrune?
      ensures ok <==> (prune && results.applyFailCount == 0 ==> CanList(config, run.current) && events[0].ok)
      ensures PrunesTold(old(results.statuses), results.statuses, events)
      ensures results.applySuccessCount == old(results.applySuccessCount)
      ensures results.applyFailCount == old(results.applyFailCount)
      ensures results.pruneFailCount == 0 <==> DeletesDone(events)
      ensures ok && prune && results.applyFailCount == results.pruneFailCount == 0 ==>
                CleanPrune(config, s1, events, cluster.objects)
    {
      if prune && results.applyFailCount == 0 {
        ok, events := Prune(record, visited, results, run, s1);
      } else {
        ok, events := true, [BeginPrune(ServesAll(config, cluster.plan, run.current, |cluster.log|))];
        OneStep(config, s1, events[0]);
        FollowsOne(config, cluster.plan, s1, events[0]);
      }
    }

    /** One attempt to apply the desired objects and prune the rest. Whatever the cluster
        answers, it is the run of the protocol with those answers, its counters add up, and every
        object has its status. It fails exactly if the start does, an object makes the loop stop,
        or what is to be pruned cannot be listed. */
    method ApplyOnce(mapper: Mapper)
      returns (results: ApplyResults, ok: bool, ghost started: State, ghost events: seq<Event>)
      requires Valid()
      modifies this`subject, cluster
      ensures Valid() && fresh(results) && results.total == |desired| && results.Balanced()
      ensures started == StartFrom(config, old(At(Idle)), old(subject), desired, mapper, prune,
                                   cluster.plan.answers(|old(cluster.log)|))
      ensures Steps(config, started, events) == At(Idle) && Follows(config, cluster.plan, started, events)
      ensures ok <==> started.phase.Applying? && NoAbort(config, mapper, desired) &&
                      (prune && results.applyFailCount == 0 ==>
                         && CanList(config, Read(config, old(subject)))
                         && |desired| < |events| && events[|desired|] == BeginPrune(true))
      ensures started.phase.Applying? && NoAbort(config, mapper, desired) ==>
                Accounted(config, cluster.plan, mapper, desired, started, events, results.Tallied(), results.statuses)
      ensures ok && prune && results.AllApplied() ==> CleanPrune(config, started, events, cluster.objects)
    {
      results := new ApplyResults(|desired|);
      var record, restMappings := CollectResources(mapper);
      events := [];
      ghost var first;
      ok, first := WithParent(mapper, record);
      started := At(if ok then Applying(RunOf(mapper, record), subject, 0, {}, 0) else Idle);
      if ok {
        ok, events := ApplyAndPrune(mapper, record, restMappings, results, started);
      }
    }

    /** The run once the superset is stored. */
    method ApplyAndPrune(mapper: Mapper, record: Record, restMappings: map<Gvk, Option<Scope>>, results: ApplyResults,
                         ghost s1: State)
      returns (ok: bool, ghost events: seq<Event>)
      requires Valid() && results.Balanced() && results.Tallied() == Tally(0, 0, 0, 0) && results.total == |desired|
      requires record.currentResources <= config.scopes.Keys && results.statuses == []
      requires forall gvk :: gvk in restMappings ==> restMappings[gvk] == Lookup(config, mapper, gvk)
      requires forall d :: d in desired ==> d.gvk in restMappings
      requires s1 == At(Applying(RunOf(mapper, record), subject, 0, {}, 0))
      modifies this`subject, cluster, results
      ensures Valid() && results.Balanced()
      ensures Steps(config, s1, events) == At(Idle) && Follows(config, cluster.plan, s1, events)
      ensures ok <==> NoAbort(config, mapper, desired) &&
                      (prune && results.applyFailCount == 0 ==>
                         && CanList(config, record.Current())
                         && |desired| < |events| && events[|desired|] == BeginPrune(true))
      ensures NoAbort(config, mapper, desired) ==>
                Accounted(config, cluster.plan, mapper, desired, s1, events, results.Tallied(), results.statuses)
      ensures ok && prune && results.AllApplied() ==> CleanPrune(config, s1, events, cluster.objects)
    {
      ghost var run := RunOf(mapper, record);
      var visited;
      ghost var answers;
      ok, visited, answers := ApplyObjects(restMappings, results, run, subject, s1);
      events := Applies(answers);
      if !ok {
        return;
      }
      LedgerRuns(config, cluster.plan, mapper, desired, s1, answers, results.statuses, results.applyFailCount);
      ghost var more, told := [], results.statuses;
      ok, more := PruneIfClean(record, visited, results, run, Steps(config, s1, events));
      StepsConcat(config, s1, events, more);
      FollowsConcat(config, cluster.plan, s1, events, more);
      PartsAddUp(config, cluster.plan, mapper, desired, s1, events, more, results.Tallied(), told, results.statuses);
      if ok && prune && results.AllApplied() {
        CleanAfterApplies(config, s1, events, more, cluster.objects);
      }
      events := events + more;
    }
  }

  /** The counters and statuses of a run whose apply loop completed: one attempt to apply each
      object, no failure counted exactly if all of them, and all deletes, went through, and one
      status for every attempt, in order. */
  ghost predicate Accounted(c: Config, plan: Plan, mapper: Mapper, desired: seq<Desired>, s: State, events: seq<Event>,
                            tally: Tally, statuses: seq<(Key, Status)>) {
    && |events| > |desired| == tally.applied + tally.notApplied
    && |statuses| == |desired| + tally.pruned + tally.notPruned
    && (tally.notApplied == 0 <==> EachApplied(c, mapper, desired, events[..|desired|]))
    && (tally.notPruned == 0 <==> DeletesDone(events[|desired|..]))
    && AppliesTold(c, plan, mapper, desired, s, events[..|desired|], statuses[..|desired|])
    && PrunesTold(statuses[..|desired|], statuses, events[|desired|..])
  }

  /** One pass of the reconciler: read the parent, build an applier, apply once. What the
      cluster's parent remembered it still remembers, unless a recorded delete failed. */
  method Reconcile(cluster: Cluster, prune: bool, objects: seq<Desired>, mapper: Mapper)
    returns (results: ApplyResults, ok: bool, ghost started: State, ghost events: seq<Event>)
    requires ConfigOk(cluster.config) && WellScoped(cluster.config)
    requires WorldOk(cluster.config, cluster.Snapshot())
    requires AllCovered(cluster.config, State(cluster.Snapshot(), Idle, cluster.log))
    modifies cluster
    ensures WorldOk(cluster.config, cluster.Snapshot())
    ensures started == StartStep(cluster.config, old(State(cluster.Snapshot(), Idle, cluster.log)), objects, mapper,
                                 prune, cluster.plan.answers(|old(cluster.log)|))
    ensures Steps(cluster.config, started, events) == State(cluster.Snapshot(), Idle, cluster.log)
    ensures Follows(cluster.config, cluster.plan, started, events)
    ensures ok <==> started.phase.Applying? && NoAbort(cluster.config, mapper, objects) &&
                    (prune && results.applyFailCount == 0 ==>
                       && CanList(cluster.config, Read(cluster.config, old(cluster.parent)))
                       && |objects| < |events| && events[|objects|] == BeginPrune(true))
    ensures started.phase.Applying? && NoAbort(cluster.config, mapper, objects) ==>
              Accounted(cluster.config, cluster.plan, mapper, objects, started, events, results.Tallied(),
                        results.statuses)
    ensures AllCovered(cluster.config, State(cluster.Snapshot(), Idle, cluster.log))
    ensures cluster.parent == old(cluster.parent) || Stamped(cluster.config, old(cluster.parent), cluster.parent)
    ensures prune && ok && results.AllApplied() ==>
              Members(cluster.Snapshot()) == Keys(objects) + old(Uncovered(cluster.config, cluster.Snapshot()))
  {
    var applier := new Applier(cluster, prune, cluster.parent);
    applier.SetDesiredObjects(objects);
    ghost var s0 := applier.At(Idle);
    ghost var start := Start(objects, mapper, prune, cluster.plan.answers(|cluster.log|));
    results, ok, started, events := applier.ApplyOnce(mapper);
    FollowsInside(cluster.config, cluster.plan, started, events);
    PassCovers(cluster.config, s0, start, started, events);
    if prune && ok && results.AllApplied() {
      CleanRunIsExact(cluster.config, s0, start, events, cluster.Snapshot());
    }
  }

  lemma PassCovers(c: Config, s: State, start: Event, started: State, events: seq<Event>)
    requires ConfigOk(c) && WellScoped(c) && s.phase.Idle? && WorldOk(c, s.world) && AllCovered(c, s)
    requires start.Start? && Step(c, s, start) == started && forall e :: e in events ==> !e.Outside?
    ensures WorldOk(c, Steps(c, started, events).world) && AllCovered(c, Steps(c, started, events))
    ensures var parent := Steps(c, started, events).world.parent;
            parent == s.world.parent || Stamped(c, s.world.parent, parent)
  {
    StepKeepsInv(c, s, start);
    Coverage(c, started, events);
    OneStep(c, s, start);
    StepsConcat(c, s, [start], events);
    RunsKeepTheRest(c, s, [start] + events);
  }

  lemma {:induction false} FollowsInside(c: Config, plan: Plan, s: State, events: seq<Event>)
    requires Follows(c, plan, s, events)
    ensures forall e :: e in events ==> !e.Outside?
  {
    if events != [] {
      FollowsInside(c, plan, s, events[..|events| - 1]);
    }
  }

  /** The steps up to the last write end with everything stale deleted. */
  ghost predicate CleanPrune(c: Config, s: State, events: seq<Event>, objects: map<Key, Live>) {
    events != [] &&
    var front := events[..|events| - 1];
    var end := Steps(c, s, front);
    && (forall e :: e in front ==> e.Apply? || e.BeginPrune? || e.Delete?)
    && end.phase.Pruning? && end.phase.victims == {} && end.phase.failed == {} && end.world.objects == objects
  }

  /** An object that resolves but cannot be labelled, or is of a scope the program does not know,
      makes the loop stop. */
  predicate Aborts(c: Config, m: Mapper, d: Desired) {
    d.gvk in m.versioned && d.gvk.gk in c.scopes && (!d.unstructured || c.scopes[d.gvk.gk].OtherScope?)
  }

  predicate NoAbort(c: Config, m: Mapper, desired: seq<Desired>) {
    forall d :: d in desired ==> !Aborts(c, m, d)
  }

  lemma VetExactly(c: Config, m: Mapper, d: Desired)
    ensures Vet(c, m, d).Abort? <==> Aborts(c, m, d)
    ensures Vet(c, m, d).Send? && Placed(c, KeyOf(d)) <==> AppliedAt(c, m, d, Apply(Done))
  {}

  predicate AllApplies(events: seq<Event>) {
    forall e :: e in events ==> e.Apply?
  }

  predicate EachApplied(c: Config, m: Mapper, desired: seq<Desired>, events: seq<Event>) {
    |events| == |desired| && forall i :: 0 <= i < |desired| ==> AppliedAt(c, m, desired[i], events[i])
  }

  predicate DeletesOf(keys: seq<Key>, events: seq<Event>) {
    |events| == |keys| && forall i :: 0 <= i < |keys| ==> events[i].Delete? && events[i].key == keys[i]
  }

  function DeleteStatuses(events: seq<Event>): seq<(Key, Status)>
    requires forall e :: e in events ==> e.Delete?
  {
    seq(|events|, i requires 0 <= i < |events| =>
      (events[i].key, if events[i].answer.Done? then Pruned else PruneError))
  }

  predicate AllDone(deletes: seq<Event>) {
    forall e :: e in deletes ==> e.Delete? && e.answer.Done?
  }

  lemma OneKeyLess(keys: seq<Key>, i: nat)
    requires i < |keys|
    ensures keys[i] in SetOf(keys[i..])
    ensures Distinct(keys) ==> SetOf(keys[i..]) - {keys[i]} == SetOf(keys[i + 1..])
  {
    assert keys[i..] == [keys[i]] + keys[i + 1..];
  }

  lemma OneMoreDelete(keys: seq<Key>, i: nat, events: seq<Event>, e: Event)
    requires i < |keys| && DeletesOf(keys[..i], events) && e.Delete? && e.key == keys[i]
    ensures AllDone(events + [e]) <==> AllDone(events) && e.answer.Done?
    ensures DeletesOf(keys[..i + 1], events + [e])
    ensures DeleteStatuses(events + [e]) ==
            DeleteStatuses(events) + [(e.key, if e.answer.Done? then Pruned else PruneError)]
  {}

  // The apply loop by its answers.

  function ApplyAll(c: Config, s: State, answers: seq<Answer>): State {
    if answers == [] then s
    else ApplyStep(c, ApplyAll(c, s, answers[..|answers| - 1]), answers[|answers| - 1])
  }

  /** Every answer so far is the planned one, no object has made the loop stop, each has its
      status, and so many have failed. */
  ghost predicate Ledger(c: Config, plan: Plan, mapper: Mapper, desired: seq<Desired>, s: State, answers: seq<Answer>,
                         statuses: seq<(Key, Status)>, failures: nat)
    decreases |answers|
  {
    && |statuses| == |answers| <= |desired|
    && if answers == [] then failures == 0
       else
         var n := |answers| - 1;
         var log, failed := ApplyAll(c, s, answers[..n]).log, !AppliedAt(c, mapper, desired[n], Apply(answers[n]));
         && answers[n] == plan.answers(|log|) && !Aborts(c, mapper, desired[n])
         && statuses[n] == StatusAt(c, mapper, desired[n], Apply(answers[n]), plan.healthy(|log|))
         && (failed ==> failures > 0)
         && Ledger(c, plan, mapper, desired, s, answers[..n], statuses[..n], if failed then failures - 1 else failures)
  }

  lemma OneMoreAnswer(c: Config, s: State, answers: seq<Answer>, answer: Answer)
    ensures ApplyAll(c, s, answers + [answer]) == ApplyStep(c, ApplyAll(c, s, answers), answer)
  {
    assert (answers + [answer])[..|answers|] == answers;
  }

  lemma LedgerGrows(c: Config, plan: Plan, mapper: Mapper, desired: seq<Desired>, s: State, answers: seq<Answer>,
                    statuses: seq<(Key, Status)>, failures: nat, answer: Answer)
    requires Ledger(c, plan, mapper, desired, s, answers, statuses, failures) && |answers| < |desired|
    requires answer == plan.answers(|ApplyAll(c, s, answers).log|) && !Aborts(c, mapper, desired[|answers|])
    ensures var d, healthy := desired[|answers|], plan.healthy(|ApplyAll(c, s, answers).log|);
            Ledger(c, plan, mapper, desired, s, answers + [answer],
                   statuses + [StatusAt(c, mapper, d, Apply(answer), healthy)],
                   if AppliedAt(c, mapper, d, Apply(answer)) then failures else failures + 1)
  {
    assert (answers + [answer])[..|answers|] == answers;
    var one := StatusAt(c, mapper, desired[|answers|], Apply(answer), plan.healthy(|ApplyAll(c, s, answers).log|));
    assert (statuses + [one])[..|statuses|] == statuses;
  }

  lemma {:induction false} LedgerCompletes(c: Config, plan: Plan, mapper: Mapper, desired: seq<Desired>, s: State,
                                           answers: seq<Answer>, statuses: seq<(Key, Status)>, failures: nat)
    requires Ledger(c, plan, mapper, desired, s, answers, statuses, failures)
    ensures forall i :: 0 <= i < |answers| ==> !Aborts(c, mapper, desired[i])
    ensures |answers| == |desired| ==> NoAbort(c, mapper, desired)
    decreases |answers|
  {
    if answers != [] {
      var n := |answers| - 1;
      var failed := !AppliedAt(c, mapper, desired[n], Apply(answers[n]));
      var fewer := if failed then failures - 1 else failures;
      LedgerCompletes(c, plan, mapper, desired, s, answers[..n], statuses[..n], fewer);
    }
  }

  lemma ApplyFollows(c: Config, plan: Plan, s: State, answers: seq<Answer>, answer: Answer)
    requires Steps(c, s, Applies(answers)) == ApplyAll(c, s, answers) && Follows(c, plan, s, Applies(answers))
    requires answer == plan.answers(|ApplyAll(c, s, answers).log|)
    ensures Steps(c, s, Applies(answers + [answer])) == ApplyAll(c, s, answers + [answer])
    ensures Follows(c, plan, s, Applies(answers + [answer]))
  {
    OneMoreAnswer(c, s, answers, answer);
    AppliesSnoc(answers, answer);
    StepsSnoc(c, s, Applies(answers), Apply(answer));
    FollowsSnoc(c, plan, s, Applies(answers), Apply(answer));
  }

  lemma AppliesSnoc(answers: seq<Answer>, answer: Answer)
    ensures Applies(answers + [answer]) == Applies(answers) + [Apply(answer)]
  {}

  lemma {:induction false} LedgerFollows(c: Config, plan: Plan, mapper: Mapper, desired: seq<Desired>, s: State,
                                         answers: seq<Answer>, statuses: seq<(Key, Status)>, failures: nat)
    requires Ledger(c, plan, mapper, desired, s, answers, statuses, failures)
    ensures Steps(c, s, Applies(answers)) == ApplyAll(c, s, answers) && Follows(c, plan, s, Applies(answers))
    decreases |answers|
  {
    if answers == [] {
      assert Applies(answers) == [];
    } else {
      var n := |answers| - 1;
      var failed := !AppliedAt(c, mapper, desired[n], Apply(answers[n]));
      var fewer := if failed then failures - 1 else failures;
      LedgerFollows(c, plan, mapper, desired, s, answers[..n], statuses[..n], fewer);
      assert answers == answers[..n] + [answers[n]];
      ApplyFollows(c, plan, s, answers[..n], answers[n]);
    }
  }

  lemma {:induction false} LedgerPrefix(c: Config, plan: Plan, mapper: Mapper, desired: seq<Desired>, s: State,
                                        answers: seq<Answer>, statuses: seq<(Key, Status)>, failures: nat, i: nat)
    returns (some: nat)
    requires Ledger(c, plan, mapper, desired, s, answers, statuses, failures) && i <= |answers|
    ensures Ledger(c, plan, mapper, desired, s, answers[..i], statuses[..i], some)
    decreases |answers|
  {
    if i == |answers| {
      assert answers[..i] == answers && statuses[..i] == statuses;
      some := failures;
    } else {
      var n := |answers| - 1;
      var failed := !AppliedAt(c, mapper, desired[n], Apply(answers[n]));
      var fewer := if failed then failures - 1 else failures;
      some := LedgerPrefix(c, plan, mapper, desired, s, answers[..n], statuses[..n], fewer, i);
      assert answers[..n][..i] == answers[..i] && statuses[..n][..i] == statuses[..i];
    }
  }

  lemma LastIsTold(c: Config, plan: Plan, mapper: Mapper, desired: seq<Desired>, s: State, answers: seq<Answer>,
                   statuses: seq<(Key, Status)>, failures: nat)
    requires Ledger(c, plan, mapper, desired, s, answers, statuses, failures) && answers != []
    ensures var n := |answers| - 1;
            statuses[n] == StatusAt(c, mapper, desired[n], Apply(answers[n]),
                                    plan.healthy(|ApplyAll(c, s, answers[..n]).log|))
  {}

  lemma OneIsTold(c: Config, plan: Plan, mapper: Mapper, desired: seq<Desired>, s: State, answers: seq<Answer>,
                  statuses: seq<(Key, Status)>, failures: nat, i: nat)
    requires Ledger(c, plan, mapper, desired, s, answers, statuses, failures) && i < |answers|
    ensures statuses[i] == StatusAt(c, mapper, desired[i], Applies(answers)[i],
                                    plan.healthy(|Steps(c, s, Applies(answers)[..i]).log|))
  {
    var some := LedgerPrefix(c, plan, mapper, desired, s, answers, statuses, failures, i + 1);
    LastIsTold(c, plan, mapper, desired, s, answers[..i + 1], statuses[..i + 1], some);
    assert answers[..i + 1][..i] == answers[..i];
    var fewer := LedgerPrefix(c, plan, mapper, desired, s, answers, statuses, failures, i);
    LedgerFollows(c, plan, mapper, desired, s, answers[..i], statuses[..i], fewer);
    assert Applies(answers)[..i] == Applies(answers[..i]);
  }

  lemma {:induction false} LedgerCounts(c: Config, plan: Plan, mapper: Mapper, desired: seq<Desired>, s: State,
                                        answers: seq<Answer>, statuses: seq<(Key, Status)>, failures: nat)
    requires Ledger(c, plan, mapper, desired, s, answers, statuses, failures)
    ensures failures == 0 <==> EachApplied(c, mapper, desired[..|answers|], Applies(answers))
    decreases |answers|
  {
    if answers != [] {
      var n := |answers| - 1;
      var failed := !AppliedAt(c, mapper, desired[n], Apply(answers[n]));
      var fewer := if failed then failures - 1 else failures;
      LedgerCounts(c, plan, mapper, desired, s, answers[..n], statuses[..n], fewer);
      assert Applies(answers) == Applies(answers[..n]) + [Apply(answers[n])];
      OneMoreObject(c, mapper, desired, n, Applies(answers[..n]), Apply(answers[n]));
    }
  }

  /** The loop, run to its end, as events of the protocol. */
  lemma LedgerRuns(c: Config, plan: Plan, mapper: Mapper, desired: seq<Desired>, s: State, answers: seq<Answer>,
                   statuses: seq<(Key, Status)>, failures: nat)
    requires Ledger(c, plan, mapper, desired, s, answers, statuses, failures) && |answers| == |desired|
    ensures var events := Applies(answers);
            && Steps(c, s, events) == ApplyAll(c, s, answers) && Follows(c, plan, s, events) && AllApplies(events)
            && AppliesTold(c, plan, mapper, desired, s, events, statuses)
            && (failures == 0 <==> EachApplied(c, mapper, desired, events))
  {
    LedgerFollows(c, plan, mapper, desired, s, answers, statuses, failures);
    forall i | 0 <= i < |answers|
      ensures statuses[i] == StatusAt(c, mapper, desired[i], Applies(answers)[i],
                                      plan.healthy(|Steps(c, s, Applies(answers)[..i]).log|))
    {
      OneIsTold(c, plan, mapper, desired, s, answers, statuses, failures, i);
    }
    LedgerCounts(c, plan, mapper, desired, s, answers, statuses, failures);
    assert desired[..|answers|] == desired;
  }

  lemma DeletesAreTold(before: seq<(Key, Status)>, first: Event, keys: seq<Key>, deletes: seq<Event>, answer: Answer)
    requires first.BeginPrune? && DeletesOf(keys, deletes)
    ensures PrunesTold(before, before + DeleteStatuses(deletes), [first] + deletes + [Finish(answer)])
    ensures DeletesDone([first] + deletes + [Finish(answer)]) <==> AllDone(deletes)
  {
    var events, after := [first] + deletes + [Finish(answer)], before + DeleteStatuses(deletes);
    forall j | |before| <= j < |after|
      ensures var i := j - |before| + 1;
              && i < |events| && events[i].Delete?
              && after[j] == (events[i].key, if events[i].answer.Done? then Pruned else PruneError)
    {
      assert events[j - |before| + 1] == deletes[j - |before|];
    }
  }

  lemma FollowsOne(c: Config, plan: Plan, s: State, e: Event)
    requires Answered(c, plan, s, e)
    ensures Follows(c, plan, s, [e])
  {
    FollowsSnoc(c, plan, s, [], e);
    assert [] + [e] == [e];
  }

  lemma PruneFollows(c: Config, plan: Plan, s: State, first: Event, deletes: seq<Event>, end: State, answer: Answer)
    requires Answered(c, plan, s, first) && Follows(c, plan, Step(c, s, first), deletes)
    requires Steps(c, Step(c, s, first), deletes) == end && answer == plan.answers(|end.log|)
    ensures Follows(c, plan, s, [first] + deletes + [Finish(answer)])
  {
    FollowsOne(c, plan, s, first);
    OneStep(c, s, first);
    FollowsConcat(c, plan, s, [first], deletes);
    StepsConcat(c, s, [first], deletes);
    FollowsSnoc(c, plan, s, [first] + deletes, Finish(answer));
  }

  /** Listing, deleting and the last write, as one run. */
  lemma PruneRuns(c: Config, plan: Plan, s: State, before: seq<(Key, Status)>, keys: seq<Key>, deletes: seq<Event>,
                  end: State, answer: Answer)
    requires Answered(c, plan, s, BeginPrune(true)) && DeletesOf(keys, deletes)
    requires Follows(c, plan, BeginPruneStep(c, s, true), deletes)
    requires Steps(c, BeginPruneStep(c, s, true), deletes) == end && answer == plan.answers(|end.log|)
    requires end.phase.Pruning? && end.phase.victims == {}
    ensures var events := [BeginPrune(true)] + deletes + [Finish(answer)];
            && Steps(c, s, events) == FinishStep(c, end, answer) && Follows(c, plan, s, events)
            && PrunesTold(before, before + DeleteStatuses(deletes), events)
            && (DeletesDone(events) <==> AllDone(deletes))
            && (end.phase.failed == {} ==> CleanPrune(c, s, events, end.world.objects))
  {
    PruneSteps(c, s, deletes, answer);
    PruneFollows(c, plan, s, BeginPrune(true), deletes, end, answer);
    DeletesLeave(c, s, deletes, answer, end, end.world.objects);
    DeletesAreTold(before, BeginPrune(true), keys, deletes, answer);
  }

  /** The two parts of a run add up. */
  lemma PartsAddUp(c: Config, plan: Plan, mapper: Mapper, desired: seq<Desired>, s: State, applies: seq<Event>,
                   more: seq<Event>, tally: Tally, told: seq<(Key, Status)>, statuses: seq<(Key, Status)>)
    requires AppliesTold(c, plan, mapper, desired, s, applies, told) && PrunesTold(told, statuses, more) && more != []
    requires |applies| == |desired| == tally.applied + tally.notApplied
    requires |statuses| == |desired| + tally.pruned + tally.notPruned
    requires tally.notApplied == 0 <==> EachApplied(c, mapper, desired, applies)
    requires tally.notPruned == 0 <==> DeletesDone(more)
    ensures Accounted(c, plan, mapper, desired, s, applies + more, tally, statuses)
  {
    assert (applies + more)[|desired|..] == more && (applies + more)[..|desired|] == applies;
    assert statuses[..|desired|] == told;
  }

  predicate DeletesDone(events: seq<Event>) {
    forall e :: e in events && e.Delete? ==> e.answer.Done?
  }

  lemma OneMoreObject(c: Config, m: Mapper, desired: seq<Desired>, i: nat, events: seq<Event>, e: Event)
    requires i < |desired| && |events| == i
    ensures EachApplied(c, m, desired[..i + 1], events + [e])
       <==> EachApplied(c, m, desired[..i], events) && AppliedAt(c, m, desired[i], e)
  {
    assert desired[..i + 1] == desired[..i] + [desired[i]];
    if EachApplied(c, m, desired[..i + 1], events + [e]) {
      forall j | 0 <= j < i ensures AppliedAt(c, m, desired[..i][j], events[j]) {
        assert AppliedAt(c, m, desired[..i + 1][j], (events + [e])[j]);
      }
      assert AppliedAt(c, m, desired[..i + 1][i], (events + [e])[i]);
    }
  }

  lemma DeletesLeave(c: Config, s: State, deletes: seq<Event>, answer: Answer, end: State, objects: map<Key, Live>)
    requires (forall e :: e in deletes ==> e.Delete?) && Steps(c, BeginPruneStep(c, s, true), deletes) == end
    requires end.phase.Pruning? && end.phase.victims == {} && end.world.objects == objects
    ensures end.phase.failed == {} ==> CleanPrune(c, s, [BeginPrune(true)] + deletes + [Finish(answer)], objects)
  {
    var events := [BeginPrune(true)] + deletes + [Finish(answer)];
    assert events[..|events| - 1] == [BeginPrune(true)] + deletes;
    OneStep(c, s, BeginPrune(true));
    StepsConcat(c, s, [BeginPrune(true)], deletes);
  }

  lemma CleanAfterApplies(c: Config, s: State, applies: seq<Event>, more: seq<Event>, objects: map<Key, Live>)
    requires AllApplies(applies) && CleanPrune(c, Steps(c, s, applies), more, objects)
    ensures CleanPrune(c, s, applies + more, objects)
  {
    var front := more[..|more| - 1];
    FrontOfConcat(applies, more);
    StepsConcat(c, s, applies, front);
    assert forall e :: e in applies + front ==> e in applies || e in front;
  }

  lemma FrontOfConcat(a: seq<Event>, b: seq<Event>)
    requires b != []
    ensures a + b != [] && (a + b)[..|a + b| - 1] == a + b[..|b| - 1]
  {}

  lemma CleanRunIsExact(c: Config, s: State, start: Event, events: seq<Event>, w: World)
    requires s.phase.Idle? && WorldOk(c, s.world) && start.Start? && CleanPrune(c, Step(c, s, start), events, w.objects)
    ensures Members(w) == Keys(start.desired) + Uncovered(c, s.world)
  {
    var front := events[..|events| - 1];
    var run := [start] + front;
    OneStep(c, s, start);
    StepsConcat(c, s, [start], front);
    assert forall i :: 0 < i < |run| ==> run[i] in front;
    PruneIsExact(c, s, run);
    RunKeepsItsTerms(c, s, run);
    assert Members(w) == Members(Steps(c, s, run).world);
  }

  lemma OneStep(c: Config, s: State, e: Event)
    ensures Steps(c, s, [e]) == Step(c, s, e)
  {
    StepsSnoc(c, s, [], e);
    assert [] + [e] == [e];
  }

  lemma PruneSteps(c: Config, s: State, deletes: seq<Event>, answer: Answer)
    ensures Steps(c, s, [BeginPrune(true)] + deletes + [Finish(answer)])
         == FinishStep(c, Steps(c, BeginPruneStep(c, s, true), deletes), answer)
  {
    OneStep(c, s, BeginPrune(true));
    StepsConcat(c, s, [BeginPrune(true)], deletes);
    StepsSnoc(c, s, [BeginPrune(true)] + deletes, Finish(answer));
  }

  lemma ParentIsNoObject(c: Config, w: World, parent: ParentMeta)
    ensures WorldOk(c, w.(parent := parent)) <==> WorldOk(c, w)
  {}

  lemma PatchKeepsWorld(c: Config, w: World, k: Key)
    requires WorldOk(c, w)
    ensures Placed(c, k) ==> WorldOk(c, Patched(w, k))
  {}

  lemma StartWrites(c: Config, s: State, subject: ParentMeta, run: Run, answer: Answer)
    requires s.phase.Idle? && FetchAccepts(c, Prepared(c, subject))
    requires run.current == Read(c, Prepared(c, subject)) && run.current.kinds <= Resolvable(c, run.mapper)
    requires run.updated == Collected(c, run.mapper, run.desired)
    ensures var prepared := Prepared(c, subject);
            var meta := Merged(c, prepared, Union(run.current, run.updated));
            StartFrom(c, s, subject, run.desired, run.mapper, run.prune, answer)
            == WriteParent(s, prepared, meta, answer, Applying(run, meta, 0, {}, 0), Idle)
  {}

  lemma CollectedSnoc(c: Config, m: Mapper, desired: seq<Desired>, d: Desired)
    ensures var before, after := Collected(c, m, desired), Collected(c, m, desired + [d]);
            && after.kinds == before.kinds + (if Lookup(c, m, d.gvk).Some? then {d.gvk.gk} else {})
            && after.namespaces == before.namespaces +
                 (if Lookup(c, m, d.gvk) == Some(Namespaced) && d.namespace != "" then {d.namespace} else {})
  {}
}
