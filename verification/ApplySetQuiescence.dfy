/** After a fully successful run the same run again is silent, and when it is not. */
module ApplySetQuiescence {
  import opened Annotations
  import opened Collections
  import opened Schema
  import opened ApplySetModel
  import opened ApplySetCoverage
  import opened ApplySetExactness
  import opened ApplySetParent

  // What a fully successful run leaves behind.

  ghost predicate InPlace(c: Config, w: World, desired: seq<Desired>, mapper: Mapper) {
    && WorldOk(c, w) && Keys(desired) <= Members(w)
    && (forall d :: d in desired ==> Vet(c, mapper, d).Send?)
  }

  /** The parent holds `m`, which has in it what the desired objects need, and no more after a
      run that pruned. */
  ghost predicate Holds(c: Config, w: World, desired: seq<Desired>, mapper: Mapper, prune: bool, m: Memory) {
    var needed := Collected(c, mapper, desired);
    && (exists meta :: Prepared(c, w.parent) == Merged(c, meta, m))
    && needed.kinds <= m.kinds <= c.scopes.Keys && needed.namespaces <= m.namespaces
    && (forall ns :: ns in m.namespaces - {c.parent.namespace} ==> ',' !in ns)
    && (prune ==> m == needed)
  }

  ghost predicate Settled(c: Config, w: World, desired: seq<Desired>, mapper: Mapper, prune: bool, m: Memory) {
    InPlace(c, w, desired, mapper) && '/' !in c.tooling.version && Holds(c, w, desired, mapper, prune, m)
  }

  lemma MemberIsPlaced(c: Config, w: World, desired: seq<Desired>, d: Desired)
    requires WorldOk(c, w) && Keys(desired) <= Members(w) && d in desired
    ensures Member(w, KeyOf(d)) && Placed(c, KeyOf(d))
  {
    assert KeyOf(d) in Members(w);
  }

  lemma NeededIsValid(c: Config, w: World, desired: seq<Desired>, mapper: Mapper)
    requires InPlace(c, w, desired, mapper)
    ensures forall ns :: ns in Collected(c, mapper, desired).namespaces ==> ValidNamespace(ns)
    ensures Collected(c, mapper, desired).kinds <= c.scopes.Keys
  {
    forall ns | ns in Collected(c, mapper, desired).namespaces ensures ValidNamespace(ns) {
      var d :| d in desired && Lookup(c, mapper, d.gvk) == Some(Namespaced) && d.namespace == ns;
      MemberIsPlaced(c, w, desired, d);
    }
  }

  lemma SettledReads(c: Config, w: World, desired: seq<Desired>, mapper: Mapper, prune: bool, m: Memory)
    requires ConfigOk(c) && Settled(c, w, desired, mapper, prune, m)
    ensures var kept := m.namespaces - {c.parent.namespace};
            Read(c, Prepared(c, w.parent)) == Memory(m.kinds, (if kept == {""} then {} else kept) + Home(c))
  {
    var meta :| Prepared(c, w.parent) == Merged(c, meta, m);
    KindsRoundTrip(m.kinds);
    NamespacesReread(m.namespaces, c.parent.namespace);
  }

  /** The superset write is skipped, and after pruning the latest write too. */
  lemma SettledWritesNothing(c: Config, w: World, desired: seq<Desired>, mapper: Mapper, prune: bool, m: Memory)
    requires ConfigOk(c) && Settled(c, w, desired, mapper, prune, m)
    ensures var needed, meta := Collected(c, mapper, desired), Prepared(c, w.parent);
            Merged(c, meta, Union(Read(c, meta), needed)) == meta && (prune ==> Merged(c, meta, needed) == meta)
  {
    var needed, skip := Collected(c, mapper, desired), c.parent.namespace;
    SettledReads(c, w, desired, mapper, prune, m);
    NeededIsValid(c, w, desired, mapper);
    var meta :| Prepared(c, w.parent) == Merged(c, meta, m);
    var all := Union(Read(c, Prepared(c, w.parent)), needed);
    assert all.kinds == m.kinds;
    SameText(c, m, needed, all.namespaces);
    MergedTwice(c, meta, m, all);
    if prune {
      MergedTwice(c, meta, m, m);
    }
  }

  lemma SameText(c: Config, m: Memory, needed: Memory, namespaces: set<string>)
    requires forall ns :: ns in needed.namespaces ==> ValidNamespace(ns)
    requires forall ns :: ns in m.namespaces - {c.parent.namespace} ==> ',' !in ns
    requires needed.namespaces <= m.namespaces
    requires var kept := m.namespaces - {c.parent.namespace};
             namespaces == (if kept == {""} then {} else kept) + Home(c) + needed.namespaces
    ensures NamespacesText(namespaces, c.parent.namespace) == NamespacesText(m.namespaces, c.parent.namespace)
  {
    var skip := c.parent.namespace;
    NamespacesReread(m.namespaces, skip);
    if m.namespaces - {skip} == {""} {
      assert "" !in needed.namespaces;
      assert forall ns :: ns in needed.namespaces && ns != skip ==> ns in m.namespaces - {skip};
      assert namespaces - {skip} == {} == {} - {skip};
    } else {
      assert namespaces - {skip} == m.namespaces - {skip};
    }
  }

  // The same run again.

  function Patches(desired: seq<Desired>): seq<Request> {
    seq(|desired|, i requires 0 <= i < |desired| => PatchObject(KeyOf(desired[i]), true))
  }

  ghost function SecondRun(c: Config, w: World, desired: seq<Desired>, mapper: Mapper, prune: bool): Run {
    Run(desired, mapper, prune, Read(c, Prepared(c, w.parent)), Collected(c, mapper, desired))
  }

  /** The second run after its first `n` objects: only its own record has changed. */
  ghost function Reapplied(s: State, run: Run, meta: ParentMeta, n: nat): State
    requires n <= |run.desired|
  {
    State(s.world, Applying(run, meta, n, Uids(s.world, Keys(run.desired[..n])), 0), s.log + Patches(run.desired[..n]))
  }

  lemma SecondStart(c: Config, s: State, desired: seq<Desired>, mapper: Mapper, prune: bool, m: Memory, answer: Answer)
    requires ConfigOk(c) && s.phase.Idle? && Settled(c, s.world, desired, mapper, prune, m)
    ensures StartStep(c, s, desired, mapper, prune, answer)
         == if m.kinds <= mapper.kinds
            then Reapplied(s, SecondRun(c, s.world, desired, mapper, prune), Prepared(c, s.world.parent), 0) else s
  {
    SettledReads(c, s.world, desired, mapper, prune, m);
    SettledWritesNothing(c, s.world, desired, mapper, prune, m);
    FetchIgnoresStoredParent(c, s.world.parent);
    assert m.kinds <= Resolvable(c, mapper) <==> m.kinds <= mapper.kinds;
    assert Uids(s.world, Keys(desired[..0])) == {};
    assert s.log + Patches(desired[..0]) == s.log;
  }

  lemma AcceptedApply(c: Config, s: State)
    requires s.phase.Applying? && s.phase.next < |s.phase.run.desired|
    requires var d := s.phase.run.desired[s.phase.next];
             && Vet(c, s.phase.run.mapper, d).Send? && Placed(c, KeyOf(d))
             && Patched(s.world, KeyOf(d)) == s.world && KeyOf(d) in s.world.objects
    ensures var p, k := s.phase, KeyOf(s.phase.run.desired[s.phase.next]);
            ApplyStep(c, s, Done) ==
            State(s.world, Applying(p.run, p.meta, p.next + 1, p.visited + {s.world.objects[k].uid}, p.failures),
                  s.log + [PatchObject(k, true)])
  {}

  lemma PatchMember(w: World, k: Key)
    requires Member(w, k)
    ensures Patched(w, k) == w
  {
    assert w.objects[k := w.objects[k].(member := true)] == w.objects;
  }

  lemma SecondApply(c: Config, s: State, run: Run, meta: ParentMeta, n: nat)
    requires n < |run.desired| && InPlace(c, s.world, run.desired, run.mapper)
    ensures ApplyStep(c, Reapplied(s, run, meta, n), Done) == Reapplied(s, run, meta, n + 1)
  {
    var k := KeyOf(run.desired[n]);
    MemberIsPlaced(c, s.world, run.desired, run.desired[n]);
    PatchMember(s.world, k);
    AcceptedApply(c, Reapplied(s, run, meta, n));
    OneMoreKey(run.desired, n);
    assert Uids(s.world, Keys(run.desired[..n + 1]))
        == Uids(s.world, Keys(run.desired[..n])) + {s.world.objects[k].uid};
    assert s.log + Patches(run.desired[..n + 1]) == s.log + Patches(run.desired[..n]) + [PatchObject(k, true)];
  }

  function Applies(n: nat): seq<Event> {
    seq(n, _ => Apply(Done))
  }

  lemma {:induction false} SecondApplies(c: Config, s: State, run: Run, meta: ParentMeta, n: nat)
    requires n <= |run.desired| && InPlace(c, s.world, run.desired, run.mapper)
    ensures Steps(c, Reapplied(s, run, meta, 0), Applies(n)) == Reapplied(s, run, meta, n)
  {
    if n > 0 {
      SecondApplies(c, s, run, meta, n - 1);
      assert Applies(n) == Applies(n - 1) + [Apply(Done)];
      StepsSnoc(c, Reapplied(s, run, meta, 0), Applies(n - 1), Apply(Done));
      SecondApply(c, s, run, meta, n - 1);
    }
  }

  lemma {:induction false} IdleApplies(c: Config, s: State, n: nat)
    requires s.phase.Idle?
    ensures Steps(c, s, Applies(n)) == s
  {
    if n > 0 {
      assert Applies(n) == Applies(n - 1) + [Apply(Done)];
      StepsSnoc(c, s, Applies(n - 1), Apply(Done));
      IdleApplies(c, s, n - 1);
    }
  }

  /** Members that are not desired and that a listing by `m` finds. */
  ghost function Leftover(c: Config, w: World, desired: seq<Desired>, m: Memory): set<Key> {
    set k | k in Members(w) && k !in Keys(desired) && Listed(c, m, k)
  }

  /** Whether the second run, all applied, goes on to prune. */
  predicate Lists(c: Config, run: Run) {
    run.prune && CanList(c, run.current)
  }

  lemma SecondListing(c: Config, s: State, run: Run, meta: ParentMeta)
    requires InPlace(c, s.world, run.desired, run.mapper)
    ensures BeginPruneStep(c, Reapplied(s, run, meta, |run.desired|), true)
         == State(s.world,
                  if Lists(c, run)
                  then Pruning(run, meta, Uids(s.world, Keys(run.desired)),
                               Leftover(c, s.world, run.desired, run.current), {})
                  else Idle,
                  s.log + Patches(run.desired))
  {
    assert run.desired[..|run.desired|] == run.desired;
    var visited := Uids(s.world, Keys(run.desired));
    forall k | k in Members(s.world) ensures s.world.objects[k].uid in visited <==> k in Keys(run.desired) {
      if s.world.objects[k].uid in visited {
        UidIdentifies(c, s.world, Keys(run.desired), k);
      }
    }
    assert Victims(c, s.world, run.current, visited) == Leftover(c, s.world, run.desired, run.current);
  }

  /** A whole second run in which every object is accepted. */
  function Again(desired: seq<Desired>, mapper: Mapper, prune: bool, first: Answer, last: Answer): seq<Event> {
    [Start(desired, mapper, prune, first)] + Applies(|desired|) + [BeginPrune(true)] + [Finish(last)]
  }

  lemma WholeRun(c: Config, s: State, start: Event, n: nat, last: Answer)
    ensures Steps(c, s, [start] + Applies(n) + [BeginPrune(true)] + [Finish(last)])
         == FinishStep(c, BeginPruneStep(c, Steps(c, Step(c, s, start), Applies(n)), true), last)
  {
    StepsSnoc(c, s, [], start);
    assert [] + [start] == [start];
    StepsConcat(c, s, [start], Applies(n));
    StepsSnoc(c, s, [start] + Applies(n), BeginPrune(true));
    StepsSnoc(c, s, [start] + Applies(n) + [BeginPrune(true)], Finish(last));
  }

  /** No parent update, no delete, the cluster as it was. */
  predicate Silent(s: State, after: State, desired: seq<Desired>) {
    after.world == s.world && after.phase.Idle? && (after.log == s.log || after.log == s.log + Patches(desired))
  }

  /** From a settled cluster the run re-applies its objects and is silent, unless it prunes and
      its listing finds a member that is not desired. */
  lemma SettledRepeats(c: Config, s: State, desired: seq<Desired>, mapper: Mapper, prune: bool, m: Memory,
                       first: Answer, last: Answer)
    requires ConfigOk(c) && s.phase.Idle? && Settled(c, s.world, desired, mapper, prune, m)
    ensures var run := SecondRun(c, s.world, desired, mapper, prune);
            var s' := Steps(c, s, Again(desired, mapper, prune, first, last));
            var found := Leftover(c, s.world, desired, run.current);
            if m.kinds <= mapper.kinds && Lists(c, run) && found != {}
            then s'.world == s.world && s'.phase.Pruning? && s'.phase.victims == found
            else Silent(s, s', desired)
  {
    var run, meta := SecondRun(c, s.world, desired, mapper, prune), Prepared(c, s.world.parent);
    SecondStart(c, s, desired, mapper, prune, m, first);
    WholeRun(c, s, Start(desired, mapper, prune, first), |desired|, last);
    if m.kinds <= mapper.kinds {
      SecondApplies(c, s, run, meta, |desired|);
      SecondListing(c, s, run, meta);
      SettledWritesNothing(c, s.world, desired, mapper, prune, m);
    } else {
      IdleApplies(c, s, |desired|);
    }
  }

  // The first run.

  /** Every object applied, every stale one deleted, up to the last write. */
  predicate Succeeded(p: Phase) {
    if p.Pruning? then p.victims == {} && p.failed == {}
    else p.Applying? && !p.run.prune && p.next == |p.run.desired| && p.failures == 0
  }

  ghost function Ended(c: Config, s: State): State {
    if s.phase.Pruning? then FinishStep(c, s, Done) else BeginPruneStep(c, s, true)
  }

  lemma PrunedSettles(c: Config, s: State, strays: set<Key>)
    requires RunState(c, s, strays) && s.phase.Pruning? && Succeeded(s.phase)
    ensures var s1, run := Ended(c, s), s.phase.run;
            && s1.phase.Idle? && s1.world.objects == s.world.objects
            && Settled(c, s1.world, run.desired, run.mapper, true, run.updated)
  {
    var meta, run := Merged(c, s.phase.meta, s.phase.run.updated), s.phase.run;
    var w := Ended(c, s).world;
    PreparedIsStable(c, s.phase.meta, run.updated);
    PreparedIsStable(c, s.world.parent, run.updated);
    assert Prepared(c, w.parent) == meta;
    assert Members(w) == Members(s.world);
    assert InPlace(c, w, run.desired, run.mapper);
    NeededIsValid(c, w, run.desired, run.mapper);
  }

  lemma AppliedSettles(c: Config, s: State, strays: set<Key>, before: ParentMeta)
    requires ConfigOk(c) && RunState(c, s, strays) && s.phase.Applying? && Succeeded(s.phase)
    requires var run := s.phase.run;
             && run.current == Read(c, before) && run.current.kinds <= Resolvable(c, run.mapper)
             && s.phase.meta == Merged(c, before, Union(run.current, run.updated))
    ensures var s1, run := Ended(c, s), s.phase.run;
            && s1.phase.Idle? && s1.world == s.world
            && Settled(c, s1.world, run.desired, run.mapper, false, Union(run.current, run.updated))
  {
    var run := s.phase.run;
    assert run.desired[..|run.desired|] == run.desired;
    assert InPlace(c, s.world, run.desired, run.mapper);
    NeededIsValid(c, s.world, run.desired, run.mapper);
    ReadIsCommaFree(c, before);
  }

  /** What the latest write reads back to, known once the objects are. */
  function Latest(c: Config, run: Run): Memory {
    Memory(run.updated.kinds, run.updated.namespaces - {c.parent.namespace} + Home(c))
  }

  /** What is on record after an undisturbed run that succeeded in everything: the kinds and
      namespaces of the desired objects, and without pruning what was on record before as well;
      the parent's own namespace by its scope. */
  lemma RecordIsExact(c: Config, s: State, events: seq<Event>)
    requires ConfigOk(c) && s.phase.Idle? && WorldOk(c, s.world) && OneRun(events)
    requires Succeeded(Steps(c, s, events).phase)
    ensures var before, after := Read(c, s.world.parent), Read(c, Ended(c, Steps(c, s, events)).world.parent);
            var kinds := set d | d in events[0].desired :: d.gvk.gk;
            var namespaces := set d | d in events[0].desired && d.namespace != "" :: d.namespace;
            after == if events[0].prune then Memory(kinds, Reread(c, namespaces))
                     else Memory(kinds + before.kinds, Reread(c, namespaces + before.namespaces))
  {
    var end, run := Steps(c, s, events), FirstRun(c, s.world, events[0]);
    RunReaches(c, s, events);
    RunKeepsItsTerms(c, s, events);
    if end.phase.Pruning? {
      PrunedReads(c, end, Uncovered(c, s.world));
    } else {
      PreparedReads(c, s.world.parent);
      AppliedReads(c, end, Uncovered(c, s.world), Prepared(c, s.world.parent));
    }
  }

  lemma PrunedReads(c: Config, s: State, strays: set<Key>)
    requires ConfigOk(c) && RunState(c, s, strays) && s.phase.Pruning? && Succeeded(s.phase)
    ensures var kinds := set d | d in s.phase.run.desired :: d.gvk.gk;
            var namespaces := set d | d in s.phase.run.desired && d.namespace != "" :: d.namespace;
            Read(c, Ended(c, s).world.parent) == Memory(kinds, Reread(c, namespaces))
  {
    var w, run := Ended(c, s).world, s.phase.run;
    PrunedSettles(c, s, strays);
    SettledReads(c, w, run.desired, run.mapper, true, run.updated);
    PreparedReads(c, w.parent);
    AllCollected(c, w, run);
  }

  lemma AppliedReads(c: Config, s: State, strays: set<Key>, before: ParentMeta)
    requires ConfigOk(c) && RunState(c, s, strays) && s.phase.Applying? && Succeeded(s.phase)
    requires var run := s.phase.run;
             && run.current == Read(c, before) && run.current.kinds <= Resolvable(c, run.mapper)
             && s.phase.meta == Merged(c, before, Union(run.current, run.updated))
    ensures var kinds := set d | d in s.phase.run.desired :: d.gvk.gk;
            var namespaces := set d | d in s.phase.run.desired && d.namespace != "" :: d.namespace;
            var current := Read(c, before);
            Read(c, Ended(c, s).world.parent) ==
              Memory(kinds + current.kinds, Reread(c, namespaces + current.namespaces))
  {
    var w, run := Ended(c, s).world, s.phase.run;
    AppliedSettles(c, s, strays, before);
    SettledReads(c, w, run.desired, run.mapper, false, Union(run.current, run.updated));
    PreparedReads(c, w.parent);
    AllCollected(c, w, run);
    assert Union(run.current, run.updated).namespaces == run.updated.namespaces + run.current.namespaces;
  }

  /** Objects that were all sent were all collected. */
  lemma AllCollected(c: Config, w: World, run: Run)
    requires InPlace(c, w, run.desired, run.mapper) && run.updated == Collected(c, run.mapper, run.desired)
    ensures run.updated.kinds == set d | d in run.desired :: d.gvk.gk
    ensures run.updated.namespaces == set d | d in run.desired && d.namespace != "" :: d.namespace
  {}

  /** Quiescence, with prune on or off: after an undisturbed run that applied every object,
      deleted every stale one and stored the parent, the same run again is silent, exactly
      unless it prunes and the kinds and namespaces now on record bring back into sight a
      member the parent had lost before the first run. */
  lemma Quiescence(c: Config, s: State, events: seq<Event>, first: Answer, last: Answer)
    requires ConfigOk(c) && s.phase.Idle? && WorldOk(c, s.world) && OneRun(events)
    requires Succeeded(Steps(c, s, events).phase)
    ensures var run := FirstRun(c, s.world, events[0]);
            var s1 := Ended(c, Steps(c, s, events));
            var s2 := Steps(c, s1, Again(run.desired, run.mapper, run.prune, first, last));
            Silent(s1, s2, run.desired) <==>
              || !run.prune || !(run.updated.kinds <= run.mapper.kinds) || !CanList(c, Latest(c, run))
              || forall k :: k in Uncovered(c, s.world) - Keys(run.desired) ==> !Listed(c, Latest(c, run), k)
  {
    var end, run := Steps(c, s, events), FirstRun(c, s.world, events[0]);
    RunReaches(c, s, events);
    RunKeepsItsTerms(c, s, events);
    var s1 := Ended(c, end);
    if end.phase.Pruning? {
      PrunedSettles(c, end, Uncovered(c, s.world));
      SettledRepeats(c, s1, run.desired, run.mapper, true, run.updated, first, last);
      LatestReads(c, s1.world, run);
      PruneIsExact(c, s, events);
      LeftoverIsStray(c, end.world, s1.world, run, Uncovered(c, s.world));
    } else {
      PreparedReads(c, s.world.parent);
      AppliedSettles(c, end, Uncovered(c, s.world), Prepared(c, s.world.parent));
      SettledRepeats(c, s1, run.desired, run.mapper, false, Union(run.current, run.updated), first, last);
    }
  }

  lemma LatestReads(c: Config, w: World, run: Run)
    requires ConfigOk(c) && run.updated == Collected(c, run.mapper, run.desired)
    requires Settled(c, w, run.desired, run.mapper, true, run.updated)
    ensures Read(c, Prepared(c, w.parent)) == Latest(c, run)
  {
    SettledReads(c, w, run.desired, run.mapper, true, run.updated);
    NeededIsValid(c, w, run.desired, run.mapper);
    assert "" !in run.updated.namespaces;
  }

  lemma LeftoverIsStray(c: Config, before: World, w: World, run: Run, strays: set<Key>)
    requires Members(before) == Keys(run.desired) + strays && w.objects == before.objects
    ensures Leftover(c, w, run.desired, Latest(c, run)) == {} <==>
            forall k :: k in strays - Keys(run.desired) ==> !Listed(c, Latest(c, run), k)
  {
    assert Members(w) == Members(before);
    assert forall k :: k in Leftover(c, w, run.desired, Latest(c, run)) <==>
                       k in strays - Keys(run.desired) && Listed(c, Latest(c, run), k);
  }

  /** A member whose delete failed when nothing else of its kind was desired, in a run from an
      empty cluster: the next object of that kind brings it back into sight, so that the run
      with that object succeeds and the same run again deletes. */
  lemma StrayComesBack(c: Config, gk: GroupKind, first: Answer, last: Answer)
    returns (history: seq<Event>, events: seq<Event>)
    requires ConfigOk(c) && '/' !in c.tooling.version && gk in c.scopes && c.scopes[gk].Root?
    ensures var s := Steps(c, Fresh(), history);
            && s.phase.Idle? && WorldOk(c, s.world) && OneRun(events) && Succeeded(Steps(c, s, events).phase)
            && var run := FirstRun(c, s.world, events[0]);
               var s1 := Ended(c, Steps(c, s, events));
               !Silent(s1, Steps(c, s1, Again(run.desired, run.mapper, run.prune, first, last)), run.desired)
  {
    history := FailedDeleteOrphans(c, gk);
    var s := Steps(c, Fresh(), history);
    var gvk, stray := Gvk(gk, "v1"), Key(gk, "", "old");
    var d, mapper := Desired(gvk, "", "new", true), Mapper({gvk}, {gk}, map[]);
    events := [Start([d], mapper, true, Done), Apply(Done), BeginPrune(true)];
    FirstRunSucceeds(c, s, d, mapper);
    StrayIsListed(c, s.world, d, mapper, stray);
    Quiescence(c, s, events, first, last);
  }

  lemma StrayIsListed(c: Config, w: World, d: Desired, mapper: Mapper, k: Key)
    requires Member(w, k) && Read(c, w.parent).kinds == {} && k != KeyOf(d) && k.gk == d.gvk.gk
    requires k.gk in c.scopes && c.scopes[k.gk].Root? && mapper == Mapper({d.gvk}, {k.gk}, map[])
    ensures var run := FirstRun(c, w, Start([d], mapper, true, Done));
            && k in Uncovered(c, w) - Keys(run.desired) && Listed(c, Latest(c, run), k)
            && run.updated.kinds <= mapper.kinds && CanList(c, Latest(c, run))
  {
    var run := FirstRun(c, w, Start([d], mapper, true, Done));
    assert run.updated.kinds == {k.gk};
  }

  lemma NothingListed(c: Config, s: State)
    requires s.phase.Applying? && s.phase.next == |s.phase.run.desired| && s.phase.failures == 0
    requires s.phase.run.prune && s.phase.run.current.kinds == {}
    ensures Succeeded(BeginPruneStep(c, s, true).phase)
  {
    assert Victims(c, s.world, s.phase.run.current, s.phase.visited) == {};
  }

  lemma FirstRunSucceeds(c: Config, s: State, d: Desired, mapper: Mapper)
    requires s.phase.Idle? && Read(c, s.world.parent).kinds == {} && '/' !in c.tooling.version
    requires Vet(c, mapper, d).Send? && Placed(c, KeyOf(d))
    ensures Succeeded(Steps(c, s, [Start([d], mapper, true, Done), Apply(Done), BeginPrune(true)]).phase)
  {
    AcceptedStart(c, s, [d], mapper, true);
    var s1 := StartStep(c, s, [d], mapper, true, Done);
    OneApplied(c, s1, d);
    NothingListed(c, ApplyStep(c, s1, Done));
    OneObjectRun(c, s, d, mapper, true);
  }

  /** In particular, a run that starts with every member remembered is followed by a silent one. */
  lemma CoveredRunsSettle(c: Config, s: State, events: seq<Event>, first: Answer, last: Answer)
    requires ConfigOk(c) && s.phase.Idle? && WorldOk(c, s.world) && OneRun(events)
    requires forall k :: Member(s.world, k) ==> Covers(Read(c, s.world.parent), k)
    requires Succeeded(Steps(c, s, events).phase)
    ensures var run := FirstRun(c, s.world, events[0]);
            var s1 := Ended(c, Steps(c, s, events));
            Silent(s1, Steps(c, s1, Again(run.desired, run.mapper, run.prune, first, last)), run.desired)
  {
    assert Uncovered(c, s.world) == {};
    Quiescence(c, s, events, first, last);
  }
}
