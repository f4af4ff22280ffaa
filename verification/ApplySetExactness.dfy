/** What one undisturbed run does: which objects it deletes, what it leaves behind,
    and why a second run changes nothing. */
module ApplySetExactness {
  import opened Annotations
  import opened Collections
  import opened Schema
  import opened ApplySetModel
  import opened ApplySetCoverage

  // One run.

  function Keys(desired: seq<Desired>): set<Key> {
    set d | d in desired :: KeyOf(d)
  }

  function Uids(w: World, keys: set<Key>): set<nat> {
    set k | k in keys && k in w.objects :: w.objects[k].uid
  }

  ghost function Members(w: World): set<Key> {
    set k | k in w.objects && w.objects[k].member
  }

  /** One run, undisturbed, up to its last delete. */
  predicate OneRun(events: seq<Event>) {
    && events != [] && events[0].Start?
    && forall i :: 0 < i < |events| ==> events[i].Apply? || events[i].BeginPrune? || events[i].Delete?
  }

  /** Members the parent does not remember. */
  ghost function Uncovered(c: Config, w: World): set<Key> {
    set k | k in Members(w) && !Covers(Read(c, w.parent), k)
  }

  /** An undisturbed run that began with the members `strays` unremembered. */
  ghost predicate RunState(c: Config, s: State, strays: set<Key>) {
    && WorldOk(c, s.world) && strays <= Members(s.world)
    && (!s.phase.Idle? ==>
          && s.phase.meta == Prepared(c, s.world.parent) && '/' !in c.tooling.version
          && (forall k :: k in strays ==> !Covers(s.phase.run.current, k))
          && s.phase.run.updated == Collected(c, s.phase.run.mapper, s.phase.run.desired))
    && (s.phase.Applying? ==>
          Progress(c, s.world, s.phase.run, s.phase.next, s.phase.visited, s.phase.failures, strays))
    && (s.phase.Pruning? ==> PruningInv(c, s, strays))
  }

  ghost predicate Progress(c: Config, w: World, run: Run, next: nat, visited: set<nat>, failures: nat,
                           strays: set<Key>) {
    && next <= |run.desired|
    && var done := Keys(run.desired[..next]);
    && visited <= Uids(w, done)
    && (failures == 0 ==> done <= Members(w) && visited == Uids(w, done))
    && (forall k :: k in Members(w) ==> k in done || Covers(run.current, k) || k in strays)
    && (failures == 0 ==> forall i :: 0 <= i < next ==> Vet(c, run.mapper, run.desired[i]).Send?)
  }

  ghost predicate PruningInv(c: Config, s: State, strays: set<Key>)
    requires s.phase.Pruning?
  {
    var p := s.phase;
    var done := Keys(p.run.desired);
    && p.run.prune
    && done <= Members(s.world) && p.spared == Uids(s.world, done)
    && p.victims <= Members(s.world) && p.victims !! done && p.victims !! strays
    && Members(s.world) <= done + p.victims + p.failed + strays
    && (forall i :: 0 <= i < |p.run.desired| ==> Vet(c, p.run.mapper, p.run.desired[i]).Send?)
  }

  lemma PreparedIsStable(c: Config, meta: ParentMeta, m: Memory)
    ensures Prepared(c, Merged(c, meta, m)) == Merged(c, meta, m)
  {
    var after := Merged(c, meta, m);
    assert after.annotations[ToolingAnnotation := ToolingText(c.tooling)] == after.annotations;
    assert after.labels[ParentIDLabel := c.id] == after.labels;
  }

  lemma NoProgressYet(c: Config, w: World, run: Run, strays: set<Key>)
    requires forall k :: Member(w, k) ==> Covers(run.current, k) || k in strays
    ensures Progress(c, w, run, 0, {}, 0, strays)
  {
    assert Keys(run.desired[..0]) == {};
    assert Uids(w, {}) == {};
  }

  /** Once the write is acknowledged or skipped, the in-memory parent is what a re-read gives. */
  lemma WriteParentStores(c: Config, s: State, after: ParentMeta, answer: Answer, success: Phase)
    requires success != Idle && Prepared(c, after) == after
    ensures var s' := WriteParent(s, Prepared(c, s.world.parent), after, answer, success, Idle);
            && s'.world.objects == s.world.objects && s'.world.nextUid == s.world.nextUid
            && (s'.phase == Idle || (s'.phase == success && Prepared(c, s'.world.parent) == after))
  {}

  lemma RunBegins(c: Config, s: State, run: Run, meta: ParentMeta, answer: Answer)
    requires s.phase.Idle? && WorldOk(c, s.world) && Prepared(c, meta) == meta && '/' !in c.tooling.version
    requires run.updated == Collected(c, run.mapper, run.desired)
    requires run.current == Read(c, s.world.parent)
    ensures RunState(c, WriteParent(s, Prepared(c, s.world.parent), meta, answer, Applying(run, meta, 0, {}, 0), Idle),
                     Uncovered(c, s.world))
  {
    WriteParentStores(c, s, meta, answer, Applying(run, meta, 0, {}, 0));
    var s' := WriteParent(s, Prepared(c, s.world.parent), meta, answer, Applying(run, meta, 0, {}, 0), Idle);
    NoProgressYet(c, s'.world, run, Uncovered(c, s.world));
  }

  lemma StartEstablishes(c: Config, s: State, desired: seq<Desired>, mapper: Mapper, prune: bool, answer: Answer)
    requires s.phase.Idle? && WorldOk(c, s.world)
    ensures RunState(c, StartStep(c, s, desired, mapper, prune, answer), Uncovered(c, s.world))
  {
    PreparedReads(c, s.world.parent);
    var prepared := Prepared(c, s.world.parent);
    var run := Run(desired, mapper, prune, Read(c, prepared), Collected(c, mapper, desired));
    var meta := Merged(c, prepared, Union(run.current, run.updated));
    PreparedIsStable(c, prepared, Union(run.current, run.updated));
    FetchIgnoresStoredParent(c, s.world.parent);
    if '/' !in c.tooling.version {
      RunBegins(c, s, run, meta, answer);
    }
  }

  lemma UidIdentifies(c: Config, w: World, keys: set<Key>, k: Key)
    requires WorldOk(c, w) && k in w.objects && w.objects[k].uid in Uids(w, keys)
    ensures k in keys
  {}

  lemma PatchAddsUid(c: Config, w: World, keys: set<Key>, k: Key)
    requires WorldOk(c, w) && Placed(c, k)
    ensures Uids(Patched(w, k), keys + {k}) == Uids(w, keys) + {Patched(w, k).objects[k].uid}
    ensures Members(Patched(w, k)) == Members(w) + {k}
  {
    PatchedWorld(c, w, k);
    var w' := Patched(w, k);
    forall u | u in Uids(w, keys) ensures u in Uids(w', keys + {k}) {
      var k' :| k' in keys && k' in w.objects && w.objects[k'].uid == u;
      assert w'.objects[k'].uid == u;
    }
  }

  lemma OneMoreKey(desired: seq<Desired>, n: nat)
    requires n < |desired|
    ensures Keys(desired[..n + 1]) == Keys(desired[..n]) + {KeyOf(desired[n])}
  {
    assert desired[..n + 1] == desired[..n] + [desired[n]];
  }

  /** One object not applied: nothing was written. */
  lemma FailProgress(c: Config, w: World, run: Run, next: nat, visited: set<nat>, failures: nat, strays: set<Key>)
    requires next < |run.desired| && Progress(c, w, run, next, visited, failures, strays)
    ensures Progress(c, w, run, next + 1, visited, failures + 1, strays)
  {
    OneMoreKey(run.desired, next);
  }

  /** One object patched, with or without its reply. */
  lemma PatchProgress(c: Config, w: World, run: Run, next: nat, visited: set<nat>, failures: nat, strays: set<Key>)
    requires WorldOk(c, w) && next < |run.desired| && Progress(c, w, run, next, visited, failures, strays)
    requires Vet(c, run.mapper, run.desired[next]).Send? && Placed(c, KeyOf(run.desired[next]))
    ensures var k := KeyOf(run.desired[next]);
            var w' := Patched(w, k);
            && Progress(c, w', run, next + 1, visited + {w'.objects[k].uid}, failures, strays)
            && Progress(c, w', run, next + 1, visited, failures + 1, strays)
            && Members(w) <= Members(w')
  {
    OneMoreKey(run.desired, next);
    PatchAddsUid(c, w, Keys(run.desired[..next]), KeyOf(run.desired[next]));
  }

  lemma ApplyStays(c: Config, s: State, strays: set<Key>, answer: Answer)
    requires RunState(c, s, strays)
    ensures RunState(c, ApplyStep(c, s, answer), strays)
  {
    if s.phase.Applying? && s.phase.next < |s.phase.run.desired| {
      var p, s' := s.phase, ApplyStep(c, s, answer);
      var d := p.run.desired[p.next];
      FailProgress(c, s.world, p.run, p.next, p.visited, p.failures, strays);
      if Vet(c, p.run.mapper, d).Send? && Placed(c, KeyOf(d)) && !answer.Refused? {
        PatchProgress(c, s.world, p.run, p.next, p.visited, p.failures, strays);
        PatchedWorld(c, s.world, KeyOf(d));
      }
      if s'.phase.Applying? {
        StillApplying(c, s, strays, s');
      }
    }
  }

  lemma StillApplying(c: Config, s: State, strays: set<Key>, s': State)
    requires RunState(c, s, strays) && s.phase.Applying? && s'.phase.Applying?
    requires s'.phase.run == s.phase.run && s'.phase.meta == s.phase.meta && s'.world.parent == s.world.parent
    requires WorldOk(c, s'.world) && Members(s.world) <= Members(s'.world)
    requires Progress(c, s'.world, s'.phase.run, s'.phase.next, s'.phase.visited, s'.phase.failures, strays)
    ensures RunState(c, s', strays)
  {}

  lemma BeginPruneStays(c: Config, s: State, strays: set<Key>, ok: bool)
    requires RunState(c, s, strays)
    ensures RunState(c, BeginPruneStep(c, s, ok), strays)
  {
    var s' := BeginPruneStep(c, s, ok);
    if s.phase.Applying? && s'.phase.Pruning? {
      var p := s.phase;
      assert p.run.desired[..p.next] == p.run.desired;
      forall k | k in Members(s.world) ensures k in Keys(p.run.desired) + s'.phase.victims + strays {
        if s.world.objects[k].uid in p.visited {
          UidIdentifies(c, s.world, Keys(p.run.desired), k);
        }
      }
    }
  }

  lemma RemovedWorld(c: Config, w: World, k: Key, keys: set<Key>)
    requires WorldOk(c, w) && k !in keys
    ensures var w' := w.(objects := w.objects - {k});
            WorldOk(c, w') && Members(w') == Members(w) - {k} && Uids(w', keys) == Uids(w, keys)
  {
    var w' := w.(objects := w.objects - {k});
    forall u | u in Uids(w, keys) ensures u in Uids(w', keys) {
      var k' :| k' in keys && k' in w.objects && w.objects[k'].uid == u;
      assert k' in w'.objects;
    }
  }

  lemma DeleteStays(c: Config, s: State, strays: set<Key>, k: Key, answer: Answer)
    requires RunState(c, s, strays)
    ensures RunState(c, DeleteStep(s, k, answer), strays)
  {
    if s.phase.Pruning? && k in s.phase.victims {
      RemovedWorld(c, s.world, k, Keys(s.phase.run.desired));
      assert PruningInv(c, DeleteStep(s, k, answer), strays);
    }
  }

  /** Every state of an undisturbed run. */
  lemma {:induction false} RunReaches(c: Config, s: State, events: seq<Event>)
    requires s.phase.Idle? && WorldOk(c, s.world) && OneRun(events)
    ensures RunState(c, Steps(c, s, events), Uncovered(c, s.world))
    decreases |events|
  {
    var front, e := events[..|events| - 1], events[|events| - 1];
    if front == [] {
      assert Steps(c, s, front) == s;
      StartEstablishes(c, s, e.desired, e.mapper, e.prune, e.answer);
    } else {
      RunReaches(c, s, front);
      match e
      case Apply(answer) => ApplyStays(c, Steps(c, s, front), Uncovered(c, s.world), answer);
      case BeginPrune(ok) => BeginPruneStays(c, Steps(c, s, front), Uncovered(c, s.world), ok);
      case Delete(k, answer) => DeleteStays(c, Steps(c, s, front), Uncovered(c, s.world), k, answer);
    }
  }

  ghost function FirstRun(c: Config, w: World, start: Event): Run
    requires start.Start?
  {
    Run(start.desired, start.mapper, start.prune, Read(c, Prepared(c, w.parent)),
        Collected(c, start.mapper, start.desired))
  }

  /** A run keeps to what it read and wrote at its start. */
  lemma {:induction false} RunKeepsItsTerms(c: Config, s: State, events: seq<Event>)
    requires s.phase.Idle? && OneRun(events)
    ensures var p, run := Steps(c, s, events).phase, FirstRun(c, s.world, events[0]);
            !p.Idle? ==>
              && p.run == run && run.current.kinds <= Resolvable(c, run.mapper)
              && p.meta == Merged(c, Prepared(c, s.world.parent), Union(run.current, run.updated))
    decreases |events|
  {
    var front, e := events[..|events| - 1], events[|events| - 1];
    if front == [] {
      assert Steps(c, s, front) == s;
    } else {
      RunKeepsItsTerms(c, s, front);
      StepKeepsTerms(c, Steps(c, s, front), e);
    }
  }

  lemma StepKeepsTerms(c: Config, s: State, e: Event)
    requires e.Apply? || e.BeginPrune? || e.Delete?
    ensures var p := Step(c, s, e).phase; !p.Idle? ==> !s.phase.Idle? && p.run == s.phase.run && p.meta == s.phase.meta
  {}

  /** An undisturbed run deletes only labelled objects that are not desired, and only after
      every desired object was applied. */
  lemma DeletesOnlyStaleMembers(c: Config, s: State, events: seq<Event>, k: Key, answer: Answer)
    requires s.phase.Idle? && WorldOk(c, s.world) && OneRun(events)
    ensures var s1 := Steps(c, s, events);
            var s2 := DeleteStep(s1, k, answer);
            s2.world != s1.world ==>
              && s1.phase.Pruning? && Member(s1.world, k)
              && s1.world.objects[k].uid !in s1.phase.spared && k !in Keys(s1.phase.run.desired)
              && s2.world == s1.world.(objects := s1.world.objects - {k})
              && Keys(s1.phase.run.desired) <= Members(s1.world)
  {
    var s1 := Steps(c, s, events);
    RunReaches(c, s, events);
    if s1.phase.Pruning? && k in s1.phase.victims && s1.world.objects[k].uid in s1.phase.spared {
      UidIdentifies(c, s1.world, Keys(s1.phase.run.desired), k);
    }
  }

  // Deletes go by name: what they hit when others change the cluster in the middle of a run.

  /** A uid an apply of this run returned is one already issued, and no victim carries it. */
  ghost predicate SparedInv(c: Config, s: State) {
    && WorldOk(c, s.world)
    && (s.phase.Applying? ==> forall u :: u in s.phase.visited ==> u < s.world.nextUid)
    && (s.phase.Pruning? ==>
          && (forall u :: u in s.phase.spared ==> u < s.world.nextUid)
          && (forall k :: k in s.phase.victims && k in s.world.objects ==> s.world.objects[k].uid !in s.phase.spared))
  }

  lemma ApplySpares(c: Config, s: State, answer: Answer)
    requires SparedInv(c, s)
    ensures SparedInv(c, ApplyStep(c, s, answer))
  {
    if s.phase.Applying? && s.phase.next < |s.phase.run.desired| {
      var k, s' := KeyOf(s.phase.run.desired[s.phase.next]), ApplyStep(c, s, answer);
      if Placed(c, k) && !answer.Refused? {
        PatchIssues(c, s.world, k);
      }
      if s'.phase.Applying? {
        StillSparing(c, s, s');
      }
    }
  }

  lemma StillSparing(c: Config, s: State, s': State)
    requires SparedInv(c, s) && s.phase.Applying? && s'.phase.Applying? && WorldOk(c, s'.world)
    requires s.world.nextUid <= s'.world.nextUid
    requires forall u :: u in s'.phase.visited ==> u in s.phase.visited || u < s'.world.nextUid
    ensures SparedInv(c, s')
  {}

  lemma PatchIssues(c: Config, w: World, k: Key)
    requires WorldOk(c, w) && Placed(c, k)
    ensures var w' := Patched(w, k); WorldOk(c, w') && w.nextUid <= w'.nextUid && w'.objects[k].uid < w'.nextUid
  {
    PatchedWorld(c, w, k);
  }

  lemma OutsideSpares(c: Config, s: State, w: World)
    requires SparedInv(c, s) && OutsideOk(c, s.world, w)
    ensures SparedInv(c, s.(world := w))
  {}

  lemma StartSpares(c: Config, s: State, e: Event)
    requires SparedInv(c, s) && e.Start?
    ensures SparedInv(c, Step(c, s, e))
  {
    var prepared := Prepared(c, s.world.parent);
    var run := FirstRun(c, s.world, e);
    var meta := Merged(c, prepared, Union(run.current, run.updated));
    WriteKeepsObjects(s, prepared, meta, e.answer, Applying(run, meta, 0, {}, 0), Idle);
  }

  lemma WriteKeepsObjects(s: State, before: ParentMeta, after: ParentMeta, answer: Answer, success: Phase,
                          failure: Phase)
    ensures var s' := WriteParent(s, before, after, answer, success, failure);
            && s'.world.objects == s.world.objects && s'.world.nextUid == s.world.nextUid
            && (s'.phase == success || s'.phase == failure)
  {}

  lemma StepSpares(c: Config, s: State, e: Event)
    requires SparedInv(c, s)
    ensures SparedInv(c, Step(c, s, e))
  {
    if e.Start? {
      StartSpares(c, s, e);
    } else if e.Apply? {
      ApplySpares(c, s, e.answer);
    } else if e.Outside? && OutsideOk(c, s.world, e.world) {
      OutsideSpares(c, s, e.world);
    }
  }

  lemma {:induction false} RunsSpare(c: Config, s: State, events: seq<Event>)
    requires s.phase.Idle? && WorldOk(c, s.world)
    ensures SparedInv(c, Steps(c, s, events))
    decreases |events|
  {
    if events != [] {
      RunsSpare(c, s, events[..|events| - 1]);
      StepSpares(c, Steps(c, s, events[..|events| - 1]), events[|events| - 1]);
    }
  }

  /** No run ever deletes an object whose uid one of its applies returned, whatever others do
      in the meantime. */
  lemma {:induction false} NeverDeletesApplied(c: Config, s: State, events: seq<Event>, k: Key, answer: Answer)
    requires s.phase.Idle? && WorldOk(c, s.world)
    ensures var s1 := Steps(c, s, events);
            var s2 := DeleteStep(s1, k, answer);
            s2.world != s1.world ==>
              && s1.phase.Pruning? && k in s1.world.objects && s1.world.objects[k].uid !in s1.phase.spared
              && s2.world == s1.world.(objects := s1.world.objects - {k})
  {
    RunsSpare(c, s, events);
    var s1 := Steps(c, s, events);
    assert k !in s1.world.objects ==> s1.world.objects - {k} == s1.world.objects;
  }

  predicate DeletesAndOutside(events: seq<Event>) {
    forall e :: e in events ==> e.Delete? || e.Outside?
  }

  /** Between the listing and its own delete, a victim that still carries the label is still
      the object that was listed. */
  lemma {:induction false} ListedStaysListed(c: Config, s: State, events: seq<Event>, k: Key)
    requires s.phase.Pruning? && Member(s.world, k) && DeletesAndOutside(events)
    ensures var s1 := Steps(c, s, events);
            && s1.phase.Pruning? && s1.phase.victims <= s.phase.victims
            && (Member(s1.world, k) ==> s1.world.objects[k] == s.world.objects[k])
    decreases |events|
  {
    if events != [] {
      var front, e := events[..|events| - 1], events[|events| - 1];
      assert e in events;
      ListedStaysListed(c, s, front, k);
    }
  }

  /** The delete hits an object with the set's label exactly when the object of that name still
      has the uid that was listed and its label on; one with another uid has no label. */
  lemma {:induction false} DeletesLabelledExactlyIfUnchanged(c: Config, s: State, events: seq<Event>, k: Key,
                                                             answer: Answer)
    requires s.phase.Pruning? && k in s.phase.victims && Member(s.world, k) && DeletesAndOutside(events)
    requires var s1 := Steps(c, s, events); DeleteStep(s1, k, answer).world != s1.world
    ensures var s1 := Steps(c, s, events);
            && k in s1.world.objects
            && (Member(s1.world, k) <==>
                s1.world.objects[k].uid == s.world.objects[k].uid && s1.world.objects[k].member)
            && (s1.world.objects[k].uid != s.world.objects[k].uid ==> !Member(s1.world, k))
  {
    ListedStaysListed(c, s, events, k);
    var s1 := Steps(c, s, events);
    assert k !in s1.world.objects ==> s1.world.objects - {k} == s1.world.objects;
  }

  /** Whoever takes a listed object out of the set before its delete is sent loses it. */
  lemma ReleasedObjectIsDeleted(c: Config, s: State, k: Key) returns (outside: World)
    requires WorldOk(c, s.world) && s.phase.Pruning? && k in s.phase.victims && Member(s.world, k)
    ensures var s1 := Step(c, s, Outside(outside));
            !Member(s1.world, k) && k in s1.world.objects && k !in Step(c, s1, Delete(k, Done)).world.objects
  {
    outside := s.world.(objects := s.world.objects[k := s.world.objects[k].(member := false)]);
    assert OutsideOk(c, s.world, outside);
  }

  /** Since the log was `log`, every apply sent has succeeded. */
  predicate AppliesSucceeded(log: seq<Request>, s: State) {
    log <= s.log && forall i :: |log| <= i < |s.log| && s.log[i].PatchObject? ==> s.log[i].ok
  }

  predicate Unfailed(s: State) {
    s.phase.Pruning? || (s.phase.Applying? && s.phase.failures == 0)
  }

  lemma ApplyLogs(c: Config, log: seq<Request>, s: State, answer: Answer)
    requires log <= s.log && (Unfailed(s) ==> AppliesSucceeded(log, s))
    ensures var s' := ApplyStep(c, s, answer); log <= s'.log && (Unfailed(s') ==> AppliesSucceeded(log, s'))
  {}

  lemma PruneLogs(c: Config, log: seq<Request>, s: State, e: Event)
    requires log <= s.log && (Unfailed(s) ==> AppliesSucceeded(log, s)) && (e.BeginPrune? || e.Delete? || e.Outside?)
    ensures var s' := Step(c, s, e); log <= s'.log && (Unfailed(s') ==> AppliesSucceeded(log, s'))
  {}

  /** One run up to its last delete, with changes by others in between. */
  predicate DisturbedRun(events: seq<Event>) {
    && events != [] && events[0].Start?
    && forall i :: 0 < i < |events| ==>
         events[i].Apply? || events[i].BeginPrune? || events[i].Delete? || events[i].Outside?
  }

  /** A run that deletes anything has seen every one of its applies succeed, whatever others do
      in the meantime. */
  lemma {:induction false} NoPruneAfterFailure(c: Config, s: State, events: seq<Event>)
    requires s.phase.Idle? && DisturbedRun(events)
    ensures s.log <= Steps(c, s, events).log
    ensures Unfailed(Steps(c, s, events)) ==> AppliesSucceeded(s.log, Steps(c, s, events))
    decreases |events|
  {
    var front, e := events[..|events| - 1], events[|events| - 1];
    if front == [] {
      assert Steps(c, s, front) == s;
    } else {
      NoPruneAfterFailure(c, s, front);
      if e.Apply? {
        ApplyLogs(c, s.log, Steps(c, s, front), e.answer);
      } else {
        PruneLogs(c, s.log, Steps(c, s, front), e);
      }
    }
  }

  /** Prune exactness: when no delete failed, the members are exactly the desired objects and
      those the parent had already lost sight of, of which a covered start has none. */
  lemma PruneIsExact(c: Config, s: State, events: seq<Event>)
    requires s.phase.Idle? && WorldOk(c, s.world) && OneRun(events)
    ensures var s' := Steps(c, s, events);
            s'.phase.Pruning? && s'.phase.victims == {} && s'.phase.failed == {} ==>
              Members(s'.world) == Keys(s'.phase.run.desired) + Uncovered(c, s.world)
  {
    RunReaches(c, s, events);
  }

  // Running again without reading the parent again.

  /** The parent held in memory once `WithParent` has returned. */
  ghost function InMemory(c: Config, subject: ParentMeta, desired: seq<Desired>, mapper: Mapper): ParentMeta {
    var prepared := Prepared(c, subject);
    Merged(c, prepared, Union(Read(c, prepared), Collected(c, mapper, desired)))
  }

  /** The next run may start from the in-memory parent, rather than re-reading it, exactly
      when the superset update was not refused or was not needed. */
  lemma MemoryAgreesUnlessRefused(c: Config, s: State, desired: seq<Desired>, mapper: Mapper, prune: bool,
                                  answer: Answer)
    requires s.phase.Idle? && '/' !in c.tooling.version
    requires Read(c, Prepared(c, s.world.parent)).kinds <= Resolvable(c, mapper)
    ensures var memory := InMemory(c, s.world.parent, desired, mapper);
            Prepared(c, memory) == Prepared(c, StartStep(c, s, desired, mapper, prune, answer).world.parent)
            <==> !answer.Refused? || memory == Prepared(c, s.world.parent)
  {
    FetchIgnoresStoredParent(c, s.world.parent);
    var prepared := Prepared(c, s.world.parent);
    PreparedIsStable(c, prepared, Union(Read(c, prepared), Collected(c, mapper, desired)));
  }

  /** After a refused update the in-memory parent hides the missing write: the retry sends no
      update and its object is never remembered. */
  lemma ReuseAfterRefusalLeaks(c: Config, d: Desired, m: Mapper)
    requires ConfigOk(c) && '/' !in c.tooling.version
    requires Vet(c, m, d).Send? && Placed(c, KeyOf(d)) && d.gvk.gk in m.kinds
    ensures var s1 := StartStep(c, Fresh(), [d], m, false, Refused);
            var s2 := StartFrom(c, s1, InMemory(c, Fresh().world.parent, [d], m), [d], m, false, Done);
            && s1.phase.Idle? && s2.phase.Applying?
            && s2.world == Fresh().world && s2.log == s1.log
            && !AllCovered(c, ApplyStep(c, s2, Done))
  {
    var prepared, memory := Prepared(c, Fresh().world.parent), InMemory(c, Fresh().world.parent, [d], m);
    var updated := Collected(c, m, [d]);
    var s1 := StartStep(c, Fresh(), [d], m, false, Refused);
    FetchIgnoresStoredParent(c, Fresh().world.parent);
    FetchIgnoresStoredParent(c, memory);
    assert Read(c, prepared).kinds == {} && updated.kinds == {d.gvk.gk};
    assert Union(Read(c, prepared), updated).kinds == updated.kinds;
    assert s1.phase.Idle? && s1.world == Fresh().world;
    RetryWritesNothing(c, prepared, updated);
    PreparedIsStable(c, prepared, Union(Read(c, prepared), updated));
    assert Read(c, memory).kinds == updated.kinds by {
      KindsRoundTrip(updated.kinds);
    }
    var s2 := StartFrom(c, s1, memory, [d], m, false, Done);
    UnrememberedLeaks(c, s2);
  }

  lemma RetryWritesNothing(c: Config, prepared: ParentMeta, updated: Memory)
    requires Read(c, prepared) == Memory({}, Home(c))
    requires forall gk :: gk in updated.kinds ==> WellFormedKind(gk)
    requires forall ns :: ns in updated.namespaces ==> ValidNamespace(ns)
    ensures var memory := Merged(c, prepared, Union(Read(c, prepared), updated));
            Merged(c, memory, Union(Read(c, memory), updated)) == memory
  {
    var all := Union(Read(c, prepared), updated);
    MergedReadsBack(c, prepared, all);
    var memory := Merged(c, prepared, all);
    var again := Union(Read(c, memory), updated);
    assert again.kinds == all.kinds;
    assert again.namespaces - {c.parent.namespace} == all.namespaces - {c.parent.namespace};
    MergedTwice(c, prepared, all, again);
  }

  /** Writing the same memory twice changes nothing. */
  lemma MergedTwice(c: Config, meta: ParentMeta, m: Memory, m': Memory)
    requires m'.kinds == m.kinds
    requires NamespacesText(m'.namespaces, c.parent.namespace) == NamespacesText(m.namespaces, c.parent.namespace)
    ensures Merged(c, Merged(c, meta, m), m') == Merged(c, meta, m)
  {
    var once := Merged(c, meta, m);
    var twice := Merged(c, once, m');
    assert twice.labels == once.labels;
    assert forall k :: k in twice.annotations <==> k in once.annotations;
    assert twice.annotations == once.annotations;
  }
}
