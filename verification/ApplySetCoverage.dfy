/** No member is ever outside what the parent remembers. */
module ApplySetCoverage {
  import opened Annotations
  import opened Collections
  import opened Schema
  import opened ApplySetModel

  /** The parent's own namespace is never written, so it must be read back by scope. */
  predicate WellScoped(c: Config) {
    c.parent.namespaced || !ValidNamespace(c.parent.namespace)
  }

  predicate About(r: Request, k: Key) {
    (r.PatchObject? || r.DeleteObject?) && r.key == k
  }

  /** The last request about `k` is a prune delete that failed, and was recorded. */
  predicate Lost(log: seq<Request>, k: Key) {
    log != [] &&
    var last := log[|log| - 1];
    if About(last, k) then last == DeleteObject(k, false) else Lost(log[..|log| - 1], k)
  }

  lemma LostSnoc(log: seq<Request>, r: Request)
    ensures forall k :: Lost(log + [r], k) <==> if About(r, k) then r == DeleteObject(k, false) else Lost(log, k)
  {
    assert (log + [r])[..|log|] == log;
  }

  ghost predicate AllCovered(c: Config, s: State) {
    forall k :: Member(s.world, k) ==> Lost(s.log, k) || Covers(Read(c, s.world.parent), k)
  }

  /** Members come from the old memory or from this run, never from a mix of an old
      kind and a new namespace. */
  ghost predicate Inv(c: Config, s: State) {
    && WorldOk(c, s.world)
    && (s.phase.Idle? ==> AllCovered(c, s))
    && (!s.phase.Idle? ==> RunInv(c, s))
  }

  /** What has been applied without failure is where an object can live. */
  predicate AppliedPlaced(c: Config, p: Phase) {
    && (p.Applying? && p.failures == 0 ==>
          p.next <= |p.run.desired| && forall i :: 0 <= i < p.next ==> Placed(c, KeyOf(p.run.desired[i])))
    && (p.Pruning? ==> forall d :: d in p.run.desired ==> Placed(c, KeyOf(d)))
  }

  ghost predicate RunInv(c: Config, s: State)
    requires !s.phase.Idle?
  {
    var run, kept := s.phase.run, Kept(c, s.phase.run);
    var seen := if s.phase.Applying? then s.phase.visited else s.phase.spared;
    && AppliedPlaced(c, s.phase)
    && run.updated == Collected(c, run.mapper, run.desired)
    && (forall k :: Placed(c, k) && (Covers(run.current, k) || Covers(kept, k)) ==> Covers(Read(c, s.world.parent), k))
    && (forall k :: k in s.world.objects && s.world.objects[k].uid in seen ==> Covers(kept, k))
    && (forall u :: u in seen ==> u < s.world.nextUid)
    && (forall k :: Member(s.world, k) ==>
          || Lost(s.log, k) || Covers(kept, k)
          || if s.phase.Applying? then Covers(run.current, k) else k in s.phase.victims && Covers(run.current, k))
  }

  lemma InvCovers(c: Config, s: State)
    requires Inv(c, s)
    ensures AllCovered(c, s)
  {}

  /** Writing a memory keeps every object it covers, its own namespace included. */
  lemma MergedReads(c: Config, meta: ParentMeta, m: Memory, k: Key)
    requires ConfigOk(c) && WellScoped(c) && Placed(c, k)
    requires Covers(Memory(m.kinds, m.namespaces + Home(c)), k)
    ensures Covers(Read(c, Merged(c, meta, m)), k)
  {
    KindSurvives(m.kinds, k.gk);
    if k.namespace != "" && k.namespace !in Home(c) {
      NamespaceSurvives(m.namespaces, c.parent.namespace, k.namespace);
    }
  }

  /** Exactly what the latest write remembers. */
  lemma MergedReadsBack(c: Config, meta: ParentMeta, m: Memory)
    requires forall gk :: gk in m.kinds ==> WellFormedKind(gk)
    requires forall ns :: ns in m.namespaces - {c.parent.namespace} ==> ValidNamespace(ns)
    ensures Read(c, Merged(c, meta, m)) == Memory(m.kinds, m.namespaces - {c.parent.namespace} + Home(c))
  {
    KindsRoundTrip(m.kinds);
    NamespacesRoundTrip(m.namespaces, c.parent.namespace);
  }

  lemma PreparedReads(c: Config, meta: ParentMeta)
    ensures Read(c, Prepared(c, meta)) == Read(c, meta)
  {}

  lemma SupersetCovers(c: Config, meta: ParentMeta, run: Run)
    requires ConfigOk(c) && WellScoped(c) && Home(c) <= run.current.namespaces
    ensures forall k :: Placed(c, k) && (Covers(run.current, k) || Covers(Kept(c, run), k)) ==>
              Covers(Read(c, Merged(c, meta, Union(run.current, run.updated))), k)
  {
    forall k | Placed(c, k) && (Covers(run.current, k) || Covers(Kept(c, run), k))
      ensures Covers(Read(c, Merged(c, meta, Union(run.current, run.updated))), k)
    {
      MergedReads(c, meta, Union(run.current, run.updated), k);
    }
  }

  lemma StartKeepsInv(c: Config, s: State, desired: seq<Desired>, mapper: Mapper, prune: bool, answer: Answer)
    requires ConfigOk(c) && WellScoped(c) && Inv(c, s)
    ensures Inv(c, StartStep(c, s, desired, mapper, prune, answer))
  {
    var prepared := Prepared(c, s.world.parent);
    var current := Read(c, prepared);
    PreparedReads(c, s.world.parent);
    if s.phase.Idle? && FetchAccepts(c, prepared) && current.kinds <= Resolvable(c, mapper) {
      var run := Run(desired, mapper, prune, current, Collected(c, mapper, desired));
      var meta := Merged(c, prepared, Union(current, run.updated));
      SupersetCovers(c, prepared, run);
      var s' := WriteParent(s, prepared, meta, answer, Applying(run, meta, 0, {}, 0), Idle);
      LostSnoc(s.log, UpdateParent(answer.Done?));
      assert forall k :: Lost(s'.log, k) <==> Lost(s.log, k);
      StoredKeepsInv(c, s, s', run, meta);
    }
  }

  /** The superset write, whatever its answer. */
  lemma StoredKeepsInv(c: Config, s: State, s': State, run: Run, meta: ParentMeta)
    requires s.phase.Idle? && Inv(c, s)
    requires run.current == Read(c, s.world.parent) && run.updated == Collected(c, run.mapper, run.desired)
    requires forall k :: Placed(c, k) && (Covers(run.current, k) || Covers(Kept(c, run), k)) ==>
               Covers(Read(c, meta), k)
    requires s'.world.objects == s.world.objects && s'.world.nextUid == s.world.nextUid
    requires forall k :: Lost(s'.log, k) <==> Lost(s.log, k)
    requires Read(c, s'.world.parent) == Read(c, meta) || (s'.phase.Idle? && s'.world.parent == s.world.parent)
    requires s'.phase == Idle || s'.phase == Applying(run, meta, 0, {}, 0)
    ensures Inv(c, s')
  {
    assert forall k :: Member(s'.world, k) <==> Member(s.world, k);
  }

  // Starting from a copy of the parent that may be stale.

  /** Every member is remembered by the copy or by what the run collects. */
  ghost predicate Sees(c: Config, s: State, run: Run) {
    forall k :: Member(s.world, k) ==> Lost(s.log, k) || Covers(run.current, k) || Covers(Kept(c, run), k)
  }

  /** The stored parent covers all that the copy and the run do. */
  ghost predicate Stores(c: Config, w: World, run: Run) {
    forall k :: Placed(c, k) && (Covers(run.current, k) || Covers(Kept(c, run), k)) ==> Covers(Read(c, w.parent), k)
  }

  /** A start from any copy of the parent keeps the invariant exactly when the copy, with what
      the run collects, accounts for every member; and, if the copy is such that no update is
      sent, when the stored parent covers that much too. */
  lemma StaleStart(c: Config, s: State, subject: ParentMeta, run: Run, answer: Answer)
    requires ConfigOk(c) && WellScoped(c) && s.phase.Idle? && Inv(c, s) && '/' !in c.tooling.version
    requires run.current == Read(c, subject) && run.current.kinds <= Resolvable(c, run.mapper)
    requires run.updated == Collected(c, run.mapper, run.desired)
    ensures var prepared := Prepared(c, subject);
            var meta := Merged(c, prepared, Union(run.current, run.updated));
            Inv(c, StartFrom(c, s, subject, run.desired, run.mapper, run.prune, answer)) <==>
              if prepared == meta then Sees(c, s, run) && Stores(c, s.world, run)
              else match answer
                case Done => Sees(c, s, run)
                case Refused => true
                case ReplyLost => forall k :: Member(s.world, k) ==> Lost(s.log, k) || Covers(Read(c, meta), k)
  {
    var prepared := Prepared(c, subject);
    var meta := Merged(c, prepared, Union(run.current, run.updated));
    PreparedReads(c, subject);
    FetchIgnoresStoredParent(c, subject);
    SupersetCovers(c, prepared, run);
    StaleWrite(c, s, prepared, meta, run, answer);
  }

  lemma StaleWrite(c: Config, s: State, before: ParentMeta, meta: ParentMeta, run: Run, answer: Answer)
    requires s.phase.Idle? && Inv(c, s) && run.updated == Collected(c, run.mapper, run.desired)
    requires Stores(c, s.world.(parent := meta), run)
    ensures Inv(c, WriteParent(s, before, meta, answer, Applying(run, meta, 0, {}, 0), Idle)) <==>
              if before == meta then Sees(c, s, run) && Stores(c, s.world, run)
              else match answer
                case Done => Sees(c, s, run)
                case Refused => true
                case ReplyLost => forall k :: Member(s.world, k) ==> Lost(s.log, k) || Covers(Read(c, meta), k)
  {
    LostSnoc(s.log, UpdateParent(answer.Done?));
    var s' := WriteParent(s, before, meta, answer, Applying(run, meta, 0, {}, 0), Idle);
    assert forall k :: Lost(s'.log, k) <==> Lost(s.log, k);
    assert forall k :: Member(s'.world, k) <==> Member(s.world, k);
  }

  lemma CollectedCovers(c: Config, run: Run, d: Desired)
    requires run.updated == Collected(c, run.mapper, run.desired)
    requires d in run.desired && Vet(c, run.mapper, d).Send?
    ensures Covers(Kept(c, run), KeyOf(d))
  {}

  lemma PatchedWorld(c: Config, w: World, k: Key)
    requires WorldOk(c, w) && Placed(c, k)
    ensures WorldOk(c, Patched(w, k)) && w.nextUid <= Patched(w, k).nextUid
    ensures Patched(w, k).parent == w.parent && Member(Patched(w, k), k)
    ensures k in w.objects ==> Patched(w, k).objects[k].uid == w.objects[k].uid
    ensures k !in w.objects ==> Patched(w, k).objects[k].uid == w.nextUid < Patched(w, k).nextUid
    ensures forall k' :: k' != k ==> (k' in Patched(w, k).objects <==> k' in w.objects)
    ensures forall k' :: k' != k && k' in w.objects ==> Patched(w, k).objects[k'] == w.objects[k']
  {}

  lemma ApplyKeepsInv(c: Config, s: State, answer: Answer)
    requires Inv(c, s)
    ensures Inv(c, ApplyStep(c, s, answer))
  {
    if s.phase.Applying? && s.phase.next < |s.phase.run.desired| {
      var d := s.phase.run.desired[s.phase.next];
      ApplyKeepsPlaced(c, s, answer);
      if Vet(c, s.phase.run.mapper, d).Send? {
        CollectedCovers(c, s.phase.run, d);
        SendKeepsInv(c, s, KeyOf(d), ApplyStep(c, s, answer));
      } else {
        InvCovers(c, s);
      }
    }
  }

  lemma ApplyKeepsPlaced(c: Config, s: State, answer: Answer)
    requires AppliedPlaced(c, s.phase)
    ensures AppliedPlaced(c, ApplyStep(c, s, answer).phase)
  {}

  /** One object sent, whatever the answer. */
  lemma SendKeepsInv(c: Config, s: State, key: Key, s': State)
    requires s.phase.Applying? && Inv(c, s) && Covers(Kept(c, s.phase.run), key)
    requires s'.world == s.world || (Placed(c, key) && s'.world == Patched(s.world, key))
    requires s'.phase.Applying? && s'.phase.run == s.phase.run && AppliedPlaced(c, s'.phase)
    requires s'.phase.visited == s.phase.visited
             || (key in s'.world.objects && s'.phase.visited == s.phase.visited + {s'.world.objects[key].uid})
    requires exists ok :: s'.log == s.log + [PatchObject(key, ok)]
    ensures Inv(c, s')
  {
    var ok :| s'.log == s.log + [PatchObject(key, ok)];
    LostSnoc(s.log, PatchObject(key, ok));
    assert forall k :: k != key ==> (Lost(s'.log, k) <==> Lost(s.log, k));
    if s'.world != s.world {
      PatchedWorld(c, s.world, key);
    }
    assert forall k :: Member(s'.world, k) ==> Member(s.world, k) || k == key;
  }

  lemma BeginPruneKeepsInv(c: Config, s: State, ok: bool)
    requires Inv(c, s)
    ensures Inv(c, BeginPruneStep(c, s, ok))
  {}

  lemma DeleteKeepsInv(c: Config, s: State, key: Key, answer: Answer)
    requires Inv(c, s)
    ensures Inv(c, DeleteStep(s, key, answer))
  {
    if s.phase.Pruning? && key in s.phase.victims {
      DeleteLoses(s, key, answer);
      OneVictimLess(c, s, key, DeleteStep(s, key, answer));
    }
  }

  lemma OneVictimLess(c: Config, s: State, key: Key, s': State)
    requires s.phase.Pruning? && Inv(c, s) && s'.phase.Pruning?
    requires s'.phase == s.phase.(victims := s.phase.victims - {key}, failed := s'.phase.failed)
    requires s'.world == s.world || s'.world == s.world.(objects := s.world.objects - {key})
    requires forall k :: k != key ==> (Lost(s'.log, k) <==> Lost(s.log, k))
    requires Member(s'.world, key) ==> Lost(s'.log, key)
    ensures Inv(c, s')
  {
    assert forall k :: Member(s'.world, k) ==> Member(s.world, k);
  }

  lemma DeleteLoses(s: State, key: Key, answer: Answer)
    requires s.phase.Pruning? && key in s.phase.victims
    ensures var s' := DeleteStep(s, key, answer);
            && (forall k :: k != key ==> (Lost(s'.log, k) <==> Lost(s.log, k)))
            && (Member(s'.world, key) ==> Lost(s'.log, key))
  {
    LostSnoc(s.log, DeleteObject(key, answer.Done? && key in s.world.objects));
  }

  lemma FinishKeepsInv(c: Config, s: State, answer: Answer)
    requires ConfigOk(c) && WellScoped(c) && Inv(c, s)
    ensures Inv(c, FinishStep(c, s, answer))
  {
    var s' := FinishStep(c, s, answer);
    if s.phase.Pruning? && s.phase.victims == {} {
      LostSnoc(s.log, UpdateParent(answer.Done?));
      assert forall k :: Lost(s'.log, k) <==> Lost(s.log, k);
      var meta := Merged(c, s.phase.meta, s.phase.run.updated);
      forall k | Placed(c, k) && Covers(Kept(c, s.phase.run), k)
        ensures Covers(Read(c, meta), k)
      {
        MergedReads(c, s.phase.meta, s.phase.run.updated, k);
      }
      assert s'.world.parent == meta || s'.world.parent == s.world.parent;
    }
  }

  lemma OutsideKeepsInv(c: Config, s: State, w: World)
    requires Inv(c, s) && OutsideOk(c, s.world, w)
    ensures Inv(c, s.(world := w))
  {
    assert Read(c, w.parent) == Read(c, s.world.parent);
    assert forall k :: Member(w, k) ==> Member(s.world, k);
  }

  lemma StepKeepsInv(c: Config, s: State, e: Event)
    requires ConfigOk(c) && WellScoped(c) && Inv(c, s)
    ensures Inv(c, Step(c, s, e))
  {
    match e
    case Start(desired, mapper, prune, answer) => StartKeepsInv(c, s, desired, mapper, prune, answer);
    case Apply(answer) => ApplyKeepsInv(c, s, answer);
    case BeginPrune(ok) => BeginPruneKeepsInv(c, s, ok);
    case Delete(k, answer) => DeleteKeepsInv(c, s, k, answer);
    case Finish(answer) => FinishKeepsInv(c, s, answer);
    case Stop => InvCovers(c, s);
    case Outside(w) => if OutsideOk(c, s.world, w) { OutsideKeepsInv(c, s, w); }
  }

  /** Coverage: over any runs, each stopped after any request, with outside changes in
      between, a member the parent does not remember is one whose failed delete was recorded. */
  lemma {:induction false} Coverage(c: Config, s: State, events: seq<Event>)
    requires ConfigOk(c) && WellScoped(c) && Inv(c, s)
    ensures Inv(c, Steps(c, s, events))
    ensures AllCovered(c, Steps(c, s, events))
    decreases |events|
  {
    if events != [] {
      Coverage(c, s, events[..|events| - 1]);
      StepKeepsInv(c, Steps(c, s, events[..|events| - 1]), events[|events| - 1]);
    }
    InvCovers(c, Steps(c, s, events));
  }

  predicate NeverPrunes(events: seq<Event>) {
    forall e :: e in events && e.Start? ==> !e.prune
  }

  ghost predicate OnlyApplies(s: State) {
    !s.phase.Idle? ==> s.phase.Applying? && !s.phase.run.prune
  }

  ghost predicate Grows(c: Config, s: State, s': State) {
    forall k :: Placed(c, k) && Covers(Read(c, s.world.parent), k) ==> Covers(Read(c, s'.world.parent), k)
  }

  lemma PruneOffStep(c: Config, s: State, e: Event)
    requires ConfigOk(c) && WellScoped(c) && OnlyApplies(s) && NeverPrunes([e])
    ensures OnlyApplies(Step(c, s, e)) && Grows(c, s, Step(c, s, e))
    ensures forall k, ok :: DeleteObject(k, ok) in Step(c, s, e).log ==> DeleteObject(k, ok) in s.log
    ensures forall k :: Lost(Step(c, s, e).log, k) ==> Lost(s.log, k)
  {
    assert e in [e];
    PruneOffLogs(c, s, e);
    var s' := Step(c, s, e);
    match e
    case Start(desired, mapper, prune, answer) => StartGrows(c, s, desired, mapper, prune, answer);
    case Outside(w) =>
      assert Read(c, s'.world.parent) == Read(c, s.world.parent);
    case _ =>
      assert s'.world.parent == s.world.parent;
  }

  lemma PruneOffLogs(c: Config, s: State, e: Event)
    requires OnlyApplies(s)
    ensures forall k, ok :: DeleteObject(k, ok) in Step(c, s, e).log ==> DeleteObject(k, ok) in s.log
    ensures forall k :: Lost(Step(c, s, e).log, k) ==> Lost(s.log, k)
  {
    var s' := Step(c, s, e);
    assert s'.log != s.log ==> exists r :: s'.log == s.log + [r] && !r.DeleteObject?;
    if s'.log != s.log {
      var r :| s'.log == s.log + [r] && !r.DeleteObject?;
      LostSnoc(s.log, r);
    }
  }

  lemma StartGrows(c: Config, s: State, desired: seq<Desired>, mapper: Mapper, prune: bool, answer: Answer)
    requires ConfigOk(c) && WellScoped(c)
    ensures Grows(c, s, StartStep(c, s, desired, mapper, prune, answer))
  {
    PreparedReads(c, s.world.parent);
    var prepared, s' := Prepared(c, s.world.parent), StartStep(c, s, desired, mapper, prune, answer);
    var run := Run(desired, mapper, prune, Read(c, prepared), Collected(c, mapper, desired));
    SupersetCovers(c, prepared, run);
    assert s'.world.parent == s.world.parent
        || s'.world.parent == Merged(c, prepared, Union(run.current, run.updated));
  }

  /** With prune off nothing is deleted and the parent never forgets. */
  lemma {:induction false} PruneOff(c: Config, s: State, events: seq<Event>)
    requires ConfigOk(c) && WellScoped(c) && OnlyApplies(s) && NeverPrunes(events)
    ensures OnlyApplies(Steps(c, s, events)) && Grows(c, s, Steps(c, s, events))
    ensures forall k, ok :: DeleteObject(k, ok) in Steps(c, s, events).log ==> DeleteObject(k, ok) in s.log
    ensures forall k :: Lost(Steps(c, s, events).log, k) ==> Lost(s.log, k)
    decreases |events|
  {
    if events != [] {
      var front, e := events[..|events| - 1], events[|events| - 1];
      assert e in events;
      PruneOff(c, s, front);
      PruneOffStep(c, Steps(c, s, front), e);
    }
  }

  /** So coverage needs no proviso: with nothing deleted there is no failed delete. */
  lemma PruneOffCovers(c: Config, s: State, events: seq<Event>, k: Key)
    requires ConfigOk(c) && WellScoped(c) && Inv(c, s) && OnlyApplies(s) && NeverPrunes(events)
    requires forall k :: !Lost(s.log, k)
    ensures Member(Steps(c, s, events).world, k) ==> Covers(Read(c, Steps(c, s, events).world.parent), k)
  {
    Coverage(c, s, events);
    PruneOff(c, s, events);
  }

  /** Orphan bound: once "latest" is stored, the forgotten members are exactly those whose
      recorded delete failed and which lie outside what this run collected. */
  lemma OrphansAfterLatest(c: Config, s: State, answer: Answer, k: Key)
    requires ConfigOk(c) && WellScoped(c) && Inv(c, s)
    requires s.phase.Pruning? && s.phase.victims == {}
    requires var meta := Merged(c, s.phase.meta, s.phase.run.updated); FinishStep(c, s, answer).world.parent == meta
    ensures var s' := FinishStep(c, s, answer);
            Member(s'.world, k) && !Covers(Read(c, s'.world.parent), k) <==>
            Member(s.world, k) && Lost(s.log, k) && !Covers(Kept(c, s.phase.run), k)
  {
    var run := s.phase.run;
    forall ns | ns in run.updated.namespaces ensures ValidNamespace(ns) {
      var d :| d in run.desired && Lookup(c, run.mapper, d.gvk) == Some(Namespaced) && d.namespace == ns;
      assert Placed(c, KeyOf(d));
    }
    MergedReadsBack(c, s.phase.meta, run.updated);
    if Member(s.world, k) && Covers(Kept(c, run), k) {
      MergedReads(c, s.phase.meta, run.updated, k);
    }
  }

  // A failed delete, from an empty cluster.

  lemma AcceptedStart(c: Config, s: State, desired: seq<Desired>, mapper: Mapper, prune: bool)
    requires s.phase.Idle? && '/' !in c.tooling.version && Read(c, s.world.parent).kinds <= Resolvable(c, mapper)
    ensures var s' := StartStep(c, s, desired, mapper, prune, Done);
            var current := Read(c, s.world.parent);
            && s'.phase.Applying? && s'.phase.next == s'.phase.failures == 0 && s'.phase.visited == {}
            && s'.phase.run == Run(desired, mapper, prune, current, Collected(c, mapper, desired))
            && s'.phase.meta == Merged(c, Prepared(c, s.world.parent), Union(current, Collected(c, mapper, desired)))
            && s'.world.objects == s.world.objects && s'.world.nextUid == s.world.nextUid
  {
    PreparedReads(c, s.world.parent);
    FetchIgnoresStoredParent(c, s.world.parent);
  }

  lemma ThreeSteps(c: Config, s: State, e1: Event, e2: Event, e3: Event)
    ensures Steps(c, s, [e1, e2, e3]) == Step(c, Step(c, Step(c, s, e1), e2), e3)
  {
    StepsSnoc(c, s, [], e1);
    StepsSnoc(c, s, [e1], e2);
    StepsSnoc(c, s, [e1, e2], e3);
    assert [] + [e1] == [e1] && [e1] + [e2] == [e1, e2] && [e1, e2] + [e3] == [e1, e2, e3];
  }

  lemma FourSteps(c: Config, s: State, e1: Event, e2: Event, e3: Event, e4: Event)
    ensures Steps(c, s, [e1, e2, e3, e4]) == Step(c, Step(c, Step(c, Step(c, s, e1), e2), e3), e4)
  {
    ThreeSteps(c, s, e1, e2, e3);
    StepsSnoc(c, s, [e1, e2, e3], e4);
    assert [e1, e2, e3] + [e4] == [e1, e2, e3, e4];
  }

  lemma OneObjectRun(c: Config, s: State, d: Desired, mapper: Mapper, prune: bool)
    ensures Steps(c, s, [Start([d], mapper, prune, Done), Apply(Done), BeginPrune(true)])
         == BeginPruneStep(c, ApplyStep(c, StartStep(c, s, [d], mapper, prune, Done), Done), true)
  {
    ThreeSteps(c, s, Start([d], mapper, prune, Done), Apply(Done), BeginPrune(true));
  }

  lemma OneApplied(c: Config, s: State, d: Desired)
    requires s.phase.Applying? && s.phase.next == s.phase.failures == 0 && s.phase.run.desired == [d]
    requires Vet(c, s.phase.run.mapper, d).Send? && Placed(c, KeyOf(d))
    ensures var s' := ApplyStep(c, s, Done);
            && s'.phase.Applying? && s'.phase.next == 1 && s'.phase.failures == 0 && s'.phase.run == s.phase.run
            && s'.world == Patched(s.world, KeyOf(d))
  {}

  lemma NotPruned(c: Config, s: State)
    requires s.phase.Applying? && s.phase.next == |s.phase.run.desired| && !s.phase.run.prune
    ensures BeginPruneStep(c, s, true) == s.(phase := Idle)
  {}

  /** The first object of a set, applied without pruning. */
  lemma FirstMember(c: Config, d: Desired, mapper: Mapper) returns (events: seq<Event>)
    requires ConfigOk(c) && '/' !in c.tooling.version && Vet(c, mapper, d).Send? && Placed(c, KeyOf(d))
    ensures var s := Steps(c, Fresh(), events);
            && s.phase.Idle? && s.world.objects == map[KeyOf(d) := Live(0, true)] && s.world.nextUid == 1
            && Read(c, s.world.parent).kinds == {d.gvk.gk}
  {
    var start := Start([d], mapper, false, Done);
    events := [start, Apply(Done), BeginPrune(true)];
    OneObjectRun(c, Fresh(), d, mapper, false);
    FirstStart(c, Fresh(), [d], mapper, false);
    var s1 := StartStep(c, Fresh(), [d], mapper, false, Done);
    OneApplied(c, s1, d);
    NotPruned(c, ApplyStep(c, s1, Done));
    FirstMemory(c, Prepared(c, Fresh().world.parent), d, mapper);
  }

  lemma FirstMemory(c: Config, meta: ParentMeta, d: Desired, mapper: Mapper)
    requires ConfigOk(c) && Vet(c, mapper, d).Send?
    ensures Read(c, Merged(c, meta, Collected(c, mapper, [d]))).kinds == {d.gvk.gk}
  {
    assert Collected(c, mapper, [d]).kinds == {d.gvk.gk};
    KindsRoundTrip({d.gvk.gk});
  }

  lemma ListsOne(c: Config, s: State, k: Key)
    requires s.phase.Applying? && s.phase.run.prune && s.phase.failures == 0 && s.phase.visited == {}
    requires s.phase.next == |s.phase.run.desired| && CanList(c, s.phase.run.current)
    requires Victims(c, s.world, s.phase.run.current, {}) == {k}
    ensures BeginPruneStep(c, s, true) == s.(phase := Pruning(s.phase.run, s.phase.meta, {}, {k}, {}))
  {}

  lemma RefusedDelete(s: State, k: Key)
    requires s.phase.Pruning? && s.phase.victims == {k}
    ensures DeleteStep(s, k, Refused)
         == State(s.world, s.phase.(victims := {}, failed := s.phase.failed + {k}), s.log + [DeleteObject(k, false)])
  {
    assert s.phase.victims - {k} == {};
  }

  /** A run that has nothing to apply and will list `k` alone. */
  ghost predicate OnlyPrunes(c: Config, s: State, k: Key) {
    && s.phase.Applying? && s.phase.next == s.phase.failures == 0 && s.phase.visited == {}
    && s.phase.run.desired == [] && s.phase.run.prune && s.phase.run.updated == Memory({}, {})
    && CanList(c, s.phase.run.current) && Victims(c, s.world, s.phase.run.current, {}) == {k}
    && exists meta :: s.phase.meta == Merged(c, meta, s.phase.run.current)
  }

  lemma EmptyRunForgets(c: Config, s: State, k: Key)
    requires ConfigOk(c) && OnlyPrunes(c, s, k)
    ensures var s' := FinishStep(c, DeleteStep(BeginPruneStep(c, s, true), k, Refused), Done);
            && s'.phase.Idle? && s'.world.objects == s.world.objects && s'.world.nextUid == s.world.nextUid
            && Read(c, s'.world.parent).kinds == {} && Lost(s'.log, k)
  {
    assert k in Victims(c, s.world, s.phase.run.current, {});
    ListsOne(c, s, k);
    var s2 := BeginPruneStep(c, s, true);
    RefusedDelete(s2, k);
    var s3 := DeleteStep(s2, k, Refused);
    LatestForgets(c, s3, k);
    LostSnoc(s2.log, DeleteObject(k, false));
    LostSnoc(s3.log, UpdateParent(true));
  }

  lemma EmptyStart(c: Config, s: State, mapper: Mapper, k: Key)
    requires s.phase.Idle? && '/' !in c.tooling.version
    requires var current := Read(c, s.world.parent);
             && current.kinds <= Resolvable(c, mapper) && CanList(c, current) && Victims(c, s.world, current, {}) == {k}
    ensures var s' := StartStep(c, s, [], mapper, true, Done);
            OnlyPrunes(c, s', k) && s'.world.objects == s.world.objects && s'.world.nextUid == s.world.nextUid
  {
    AcceptedStart(c, s, [], mapper, true);
    var current := Read(c, s.world.parent);
    assert Collected(c, mapper, []) == Memory({}, {});
    assert Union(current, Memory({}, {})) == current;
  }

  function ForgettingRun(mapper: Mapper, k: Key): seq<Event> {
    [Start([], mapper, true, Done), BeginPrune(true), Delete(k, Refused), Finish(Done)]
  }

  lemma ForgettingSteps(c: Config, s: State, mapper: Mapper, k: Key)
    ensures Steps(c, s, ForgettingRun(mapper, k))
         == var s1 := StartStep(c, s, [], mapper, true, Done);
            FinishStep(c, DeleteStep(BeginPruneStep(c, s1, true), k, Refused), Done)
  {
    FourSteps(c, s, Start([], mapper, true, Done), BeginPrune(true), Delete(k, Refused), Finish(Done));
  }

  /** A run that wants nothing any more, and whose one delete is refused. */
  lemma FailedDelete(c: Config, s: State, mapper: Mapper, k: Key)
    requires ConfigOk(c) && s.phase.Idle? && '/' !in c.tooling.version
    requires var current := Read(c, s.world.parent);
             && current.kinds <= Resolvable(c, mapper) && CanList(c, current) && Victims(c, s.world, current, {}) == {k}
    ensures var s' := Steps(c, s, ForgettingRun(mapper, k));
            && s'.phase.Idle? && s'.world.objects == s.world.objects && s'.world.nextUid == s.world.nextUid
            && Read(c, s'.world.parent).kinds == {} && Lost(s'.log, k)
  {
    EmptyStart(c, s, mapper, k);
    EmptyRunForgets(c, StartStep(c, s, [], mapper, true, Done), k);
    ForgettingSteps(c, s, mapper, k);
  }

  lemma LatestForgets(c: Config, s: State, k: Key)
    requires ConfigOk(c) && s.phase.Pruning? && s.phase.victims == {} && s.phase.run.updated == Memory({}, {})
    requires k.gk in c.scopes && k.gk in s.phase.run.current.kinds
    requires exists meta :: s.phase.meta == Merged(c, meta, s.phase.run.current)
    ensures var s' := FinishStep(c, s, Done);
            && s'.phase.Idle? && Read(c, s'.world.parent).kinds == {} && s'.log == s.log + [UpdateParent(true)]
            && s'.world.objects == s.world.objects && s'.world.nextUid == s.world.nextUid
  {
    var meta := Merged(c, s.phase.meta, Memory({}, {}));
    KindSurvives(s.phase.run.current.kinds, k.gk);
    KindsRoundTrip({});
    assert TextAt(meta, KindsAnnotation) != TextAt(s.phase.meta, KindsAnnotation);
  }

  /** Two runs from an empty cluster that leave a member nothing remembers: the object is
      applied, then no longer wanted, and its delete fails. */
  lemma FailedDeleteOrphans(c: Config, gk: GroupKind) returns (events: seq<Event>)
    requires ConfigOk(c) && '/' !in c.tooling.version && gk in c.scopes && c.scopes[gk].Root?
    ensures var s, k := Steps(c, Fresh(), events), Key(gk, "", "old");
            && s.phase.Idle? && WorldOk(c, s.world) && Member(s.world, k) && Lost(s.log, k)
            && Read(c, s.world.parent).kinds == {} && !Covers(Read(c, s.world.parent), k)
  {
    var gvk, k := Gvk(gk, "v1"), Key(gk, "", "old");
    var d, mapper := Desired(gvk, "", "old", true), Mapper({gvk}, {gk}, map[]);
    var first := FirstMember(c, d, mapper);
    var s := Steps(c, Fresh(), first);
    assert Victims(c, s.world, Read(c, s.world.parent), {}) == {k};
    FailedDelete(c, s, mapper, k);
    events := first + ForgettingRun(mapper, k);
    StepsConcat(c, Fresh(), first, ForgettingRun(mapper, k));
  }

  // The parent's scope is what decides whether coverage can be kept.

  function Fresh(): State {
    State(World(map[], ParentMeta(map[], map[]), 0), Idle, [])
  }

  lemma MisscopedText(c: Config, meta: ParentMeta, m: Memory)
    requires m.namespaces <= {c.parent.namespace} && !c.parent.namespaced
    ensures Read(c, Merged(c, meta, m)).namespaces == {}
  {
    NamespacesRoundTrip(m.namespaces, c.parent.namespace);
  }

  /** An object applied while the stored parent does not cover it. */
  lemma UnrememberedLeaks(c: Config, s: State)
    requires s.phase.Applying? && s.phase.next < |s.phase.run.desired|
    requires var d := s.phase.run.desired[s.phase.next];
             && Vet(c, s.phase.run.mapper, d).Send? && Placed(c, KeyOf(d))
             && !Covers(Read(c, s.world.parent), KeyOf(d))
    ensures !AllCovered(c, ApplyStep(c, s, Done))
  {
    var k, s' := KeyOf(s.phase.run.desired[s.phase.next]), ApplyStep(c, s, Done);
    assert s'.log == s.log + [PatchObject(k, true)];
    LostSnoc(s.log, PatchObject(k, true));
    assert Member(s'.world, k) && !Lost(s'.log, k);
  }

  /** A first run, of a parent nothing was written to. */
  lemma FirstStart(c: Config, s: State, desired: seq<Desired>, mapper: Mapper, prune: bool)
    requires s.phase.Idle? && s.world.parent == ParentMeta(map[], map[]) && '/' !in c.tooling.version
    ensures var s' := StartStep(c, s, desired, mapper, prune, Done);
            var m := Collected(c, mapper, desired);
            && s'.phase.Applying? && s'.phase.next == s'.phase.failures == 0
            && s'.phase.run == Run(desired, mapper, prune, Memory({}, Home(c)), m)
            && s'.world == s.world.(parent := Merged(c, Prepared(c, s.world.parent), m))
            && s'.log == s.log + [UpdateParent(true)]
  {
    var prepared := Prepared(c, s.world.parent);
    var m := Collected(c, mapper, desired);
    FetchIgnoresStoredParent(c, s.world.parent);
    assert Union(Read(c, prepared), m).kinds == m.kinds;
    assert Merged(c, prepared, m) != prepared by {
      assert NamespacesAnnotation in Merged(c, prepared, m).annotations;
      assert NamespacesAnnotation !in prepared.annotations;
    }
    assert Union(Read(c, prepared), m).namespaces - {c.parent.namespace} == m.namespaces - {c.parent.namespace};
  }

  lemma OneObjectLeaks(c: Config, d: Desired, m: Mapper)
    requires !c.parent.namespaced && d.namespace == c.parent.namespace && d.namespace != ""
    requires Vet(c, m, d).Send? && Placed(c, KeyOf(d))
    requires '/' !in c.tooling.version
    ensures !AllCovered(c, ApplyStep(c, StartStep(c, Fresh(), [d], m, false, Done), Done))
  {
    FirstStart(c, Fresh(), [d], m, false);
    assert Collected(c, m, [d]).namespaces <= {d.namespace};
    MisscopedText(c, Prepared(c, Fresh().world.parent), Collected(c, m, [d]));
    UnrememberedLeaks(c, StartStep(c, Fresh(), [d], m, false, Done));
  }

  /** A cluster-scoped parent that carries a namespace loses every object there: the
      namespace is dropped when writing and not put back when reading. */
  lemma MisscopedParentLeaks(c: Config, gk: GroupKind) returns (events: seq<Event>)
    requires !WellScoped(c)
    requires gk in c.scopes && c.scopes[gk].Namespaced?
    requires '/' !in c.tooling.version
    ensures !AllCovered(c, Steps(c, Fresh(), events))
  {
    var gvk := Gvk(gk, "v1");
    var d, m := Desired(gvk, c.parent.namespace, "leaked", true), Mapper({gvk}, {gk}, map[]);
    OneObjectLeaks(c, d, m);
    var start := Start([d], m, false, Done);
    events := [start, Apply(Done)];
    StepsSnoc(c, Fresh(), [], start);
    StepsSnoc(c, Fresh(), [start], Apply(Done));
    assert [] + [start] == [start] && [start] + [Apply(Done)] == events;
  }

  /** Coverage holds of every run exactly when the parent reference is well scoped. */
  lemma ScopeDecidesCoverage(c: Config, gk: GroupKind)
    requires ConfigOk(c)
    requires gk in c.scopes && c.scopes[gk].Namespaced?
    requires '/' !in c.tooling.version
    ensures (forall events :: AllCovered(c, Steps(c, Fresh(), events))) <==> WellScoped(c)
  {
    if WellScoped(c) {
      forall events ensures AllCovered(c, Steps(c, Fresh(), events)) {
        Coverage(c, Fresh(), events);
      }
    } else {
      var events := MisscopedParentLeaks(c, gk);
    }
  }
}
