/** What a run makes of the stored parent, and when it gets to apply anything at all. */
module ApplySetParent {
  import opened Annotations
  import opened Collections
  import opened Schema
  import opened ApplySetModel
  import opened ApplySetCoverage

  function LabelAt(meta: ParentMeta, key: LabelKey): Option<string> {
    if key in meta.labels then Some(meta.labels[key]) else None
  }

  /** Nothing that is not the set's own has changed. */
  ghost predicate SameRest(before: ParentMeta, after: ParentMeta) {
    && (forall n :: AnnotationAt(after, OtherAnnotation(n)) == AnnotationAt(before, OtherAnnotation(n)))
    && (forall n :: LabelAt(after, OtherLabel(n)) == LabelAt(before, OtherLabel(n)))
  }

  /** The tool and the id are on the parent, the deprecated annotation is gone exactly if it was
      empty, and the rest is as it was. */
  ghost predicate Stamped(c: Config, before: ParentMeta, after: ParentMeta) {
    && SameRest(before, after)
    && AnnotationAt(after, ToolingAnnotation) == Some(c.tooling.name + "/" + c.tooling.version)
    && LabelAt(after, ParentIDLabel) == Some(c.id)
    && var deprecated := AnnotationAt(before, DeprecatedAnnotation);
       AnnotationAt(after, DeprecatedAnnotation) == if deprecated == Some("") then None else deprecated
  }

  lemma PreparedKeepsRest(c: Config, meta: ParentMeta)
    ensures SameRest(meta, Prepared(c, meta))
    ensures AnnotationAt(Prepared(c, meta), DeprecatedAnnotation) == AnnotationAt(meta, DeprecatedAnnotation)
  {}

  lemma MergedStamps(c: Config, meta: ParentMeta, m: Memory)
    ensures Stamped(c, meta, Merged(c, meta, m))
  {}

  lemma MergedStampsOn(c: Config, before: ParentMeta, meta: ParentMeta, m: Memory)
    requires before == meta || Stamped(c, before, meta)
    ensures Stamped(c, before, Merged(c, meta, m))
    ensures Stamped(c, before, Merged(c, Prepared(c, meta), m))
  {
    PreparedKeepsRest(c, meta);
    MergedStamps(c, meta, m);
    MergedStamps(c, Prepared(c, meta), m);
  }

  /** The stored parent is untouched or stamped, and so is the one in memory. */
  ghost predicate StampInv(c: Config, before: ParentMeta, s: State) {
    && (s.world.parent == before || Stamped(c, before, s.world.parent))
    && (!s.phase.Idle? ==> Stamped(c, before, s.phase.meta))
  }

  lemma WriteKeepsStamp(c: Config, before: ParentMeta, s: State, was: ParentMeta, meta: ParentMeta, answer: Answer,
                        success: Phase)
    requires s.world.parent == before || Stamped(c, before, s.world.parent)
    requires Stamped(c, before, meta) && (!success.Idle? ==> success.meta == meta)
    ensures StampInv(c, before, WriteParent(s, was, meta, answer, success, Idle))
  {}

  lemma StartKeepsStamp(c: Config, before: ParentMeta, s: State, e: Event)
    requires StampInv(c, before, s) && e.Start?
    ensures StampInv(c, before, Step(c, s, e))
  {
    var prepared := Prepared(c, s.world.parent);
    var run := Run(e.desired, e.mapper, e.prune, Read(c, prepared), Collected(c, e.mapper, e.desired));
    var meta := Merged(c, prepared, Union(run.current, run.updated));
    MergedStampsOn(c, before, s.world.parent, Union(run.current, run.updated));
    WriteKeepsStamp(c, before, s, prepared, meta, e.answer, Applying(run, meta, 0, {}, 0));
  }

  lemma FinishKeepsStamp(c: Config, before: ParentMeta, s: State, answer: Answer)
    requires StampInv(c, before, s)
    ensures StampInv(c, before, FinishStep(c, s, answer))
  {
    if s.phase.Pruning? {
      var meta := Merged(c, s.phase.meta, s.phase.run.updated);
      MergedStampsOn(c, before, s.phase.meta, s.phase.run.updated);
      WriteKeepsStamp(c, before, s, s.phase.meta, meta, answer, Idle);
    }
  }

  lemma OthersKeepStamp(c: Config, before: ParentMeta, s: State, e: Event)
    requires StampInv(c, before, s) && (e.Apply? || e.BeginPrune? || e.Delete? || e.Stop?)
    ensures StampInv(c, before, Step(c, s, e))
  {
    var s' := Step(c, s, e);
    assert s'.world.parent == s.world.parent;
    assert s'.phase.Idle? || s'.phase.meta == s.phase.meta;
  }

  /** However many runs are made and wherever they stop, the parent keeps every annotation and
      label that is not the set's own; once it has been written it carries the tool and the id,
      and no empty deprecated annotation. */
  lemma {:induction false} RunsKeepTheRest(c: Config, s: State, events: seq<Event>)
    requires s.phase.Idle? && forall e :: e in events ==> !e.Outside?
    ensures StampInv(c, s.world.parent, Steps(c, s, events))
    decreases |events|
  {
    if events != [] {
      var front, e := events[..|events| - 1], events[|events| - 1];
      assert e in events;
      RunsKeepTheRest(c, s, front);
      if e.Start? {
        StartKeepsStamp(c, s.world.parent, Steps(c, s, front), e);
      } else if e.Finish? {
        FinishKeepsStamp(c, s.world.parent, Steps(c, s, front), e.answer);
      } else {
        OthersKeepStamp(c, s.world.parent, Steps(c, s, front), e);
      }
    }
  }

  /** The stored parent already says what the superset update would write. */
  ghost predicate AlreadyStored(c: Config, parent: ParentMeta, m: Memory) {
    && TextAt(parent, KindsAnnotation) == KindsText(m.kinds)
    && AnnotationAt(parent, NamespacesAnnotation) == Some(NamespacesText(m.namespaces, c.parent.namespace))
    && AnnotationAt(parent, DeprecatedAnnotation) != Some("")
  }

  /** A run gets to apply exactly if the version holds no slash, every kind on record resolves,
      and the superset is stored already or its update acknowledged. */
  lemma StartedExactly(c: Config, s: State, desired: seq<Desired>, mapper: Mapper, prune: bool, answer: Answer)
    requires s.phase.Idle?
    ensures var superset := Union(Read(c, s.world.parent), Collected(c, mapper, desired));
            StartStep(c, s, desired, mapper, prune, answer).phase.Applying? <==>
              && '/' !in c.tooling.version
              && ParseKinds(TextAt(s.world.parent, KindsAnnotation)) <= mapper.kinds * c.scopes.Keys
              && (answer.Done? || AlreadyStored(c, s.world.parent, superset))
  {
    var prepared := Prepared(c, s.world.parent);
    var superset := Union(Read(c, s.world.parent), Collected(c, mapper, desired));
    FetchIgnoresStoredParent(c, s.world.parent);
    PreparedReads(c, s.world.parent);
    UpdateNotNeeded(c, s.world.parent, superset);
  }

  lemma UpdateNotNeeded(c: Config, parent: ParentMeta, m: Memory)
    ensures Merged(c, Prepared(c, parent), m) == Prepared(c, parent) <==> AlreadyStored(c, parent, m)
  {
    var prepared := Prepared(c, parent);
    var merged := Merged(c, prepared, m);
    assert TextAt(prepared, KindsAnnotation) == TextAt(parent, KindsAnnotation);
    if AlreadyStored(c, parent, m) {
      assert merged.annotations == prepared.annotations && merged.labels == prepared.labels;
    } else if TextAt(parent, KindsAnnotation) != KindsText(m.kinds) {
      assert AnnotationAt(merged, KindsAnnotation) != AnnotationAt(prepared, KindsAnnotation);
    } else if AnnotationAt(parent, DeprecatedAnnotation) == Some("") {
      assert DeprecatedAnnotation !in merged.annotations && DeprecatedAnnotation in prepared.annotations;
    } else {
      assert AnnotationAt(merged, NamespacesAnnotation) != AnnotationAt(prepared, NamespacesAnnotation);
    }
  }

  /** What is read back of a memory whatever its namespaces are, as long as they hold no comma. */
  function Reread(c: Config, namespaces: set<string>): set<string> {
    var kept := namespaces - {c.parent.namespace};
    (if kept == {""} then {} else kept) + Home(c)
  }

  lemma MergedRereads(c: Config, meta: ParentMeta, m: Memory)
    requires forall gk :: gk in m.kinds ==> WellFormedKind(gk)
    requires forall ns :: ns in m.namespaces && ns != c.parent.namespace ==> ',' !in ns
    ensures Read(c, Merged(c, meta, m)) == Memory(m.kinds, Reread(c, m.namespaces))
  {
    MergedTexts(c, meta, m);
    KindsRoundTrip(m.kinds);
    NamespacesReread(m.namespaces, c.parent.namespace);
  }

  lemma MergedTexts(c: Config, meta: ParentMeta, m: Memory)
    ensures TextAt(Merged(c, meta, m), KindsAnnotation) == KindsText(m.kinds)
    ensures TextAt(Merged(c, meta, m), NamespacesAnnotation) == NamespacesText(m.namespaces, c.parent.namespace)
  {}

  lemma StartStores(c: Config, s: State, desired: seq<Desired>, mapper: Mapper, prune: bool)
    requires s.phase.Idle? && StartStep(c, s, desired, mapper, prune, Done).phase.Applying?
    ensures var superset := Union(Read(c, s.world.parent), Collected(c, mapper, desired));
            && Read(c, StartStep(c, s, desired, mapper, prune, Done).world.parent)
               == Read(c, Merged(c, Prepared(c, s.world.parent), superset))
            && Read(c, s.world.parent).kinds <= c.scopes.Keys
  {
    PreparedReads(c, s.world.parent);
  }

  /** What an acknowledged start puts on record: what was there, with the kinds of the desired
      objects that resolve and the namespaces of those that are namespaced; the parent's own
      namespace by its scope. */
  lemma SupersetIsExact(c: Config, s: State, desired: seq<Desired>, mapper: Mapper, prune: bool)
    requires ConfigOk(c) && s.phase.Idle? && StartStep(c, s, desired, mapper, prune, Done).phase.Applying?
    requires forall d :: d in desired && d.namespace != c.parent.namespace ==> ',' !in d.namespace
    ensures var before := Read(c, s.world.parent);
            var after := Read(c, StartStep(c, s, desired, mapper, prune, Done).world.parent);
            var resolved := set d | d in desired && d.gvk in mapper.versioned && d.gvk.gk in c.scopes;
            var added := set d | d in resolved && c.scopes[d.gvk.gk].Namespaced? && d.namespace != "" :: d.namespace;
            && after.kinds == before.kinds + (set d | d in resolved :: d.gvk.gk)
            && after.namespaces == Reread(c, before.namespaces + added)
  {
    StartStores(c, s, desired, mapper, prune);
    ReadIsCommaFree(c, s.world.parent);
    CollectedIs(c, mapper, desired);
    SupersetReads(c, Prepared(c, s.world.parent), Read(c, s.world.parent), Collected(c, mapper, desired));
  }

  lemma ReadIsCommaFree(c: Config, meta: ParentMeta)
    ensures forall ns :: ns in Read(c, meta).namespaces - {c.parent.namespace} ==> ',' !in ns
  {}

  lemma SupersetReads(c: Config, meta: ParentMeta, before: Memory, m: Memory)
    requires ConfigOk(c) && before.kinds <= c.scopes.Keys && m.kinds <= c.scopes.Keys
    requires forall ns :: ns in before.namespaces - {c.parent.namespace} ==> ',' !in ns
    requires forall ns :: ns in m.namespaces - {c.parent.namespace} ==> ',' !in ns
    ensures Read(c, Merged(c, meta, Union(before, m)))
            == Memory(before.kinds + m.kinds, Reread(c, before.namespaces + m.namespaces))
  {
    MergedRereads(c, meta, Union(before, m));
  }

  lemma CollectedIs(c: Config, mapper: Mapper, desired: seq<Desired>)
    ensures var resolved := set d | d in desired && d.gvk in mapper.versioned && d.gvk.gk in c.scopes;
            var added := set d | d in resolved && c.scopes[d.gvk.gk].Namespaced? && d.namespace != "" :: d.namespace;
            Collected(c, mapper, desired) == Memory(set d | d in resolved :: d.gvk.gk, added)
    ensures Collected(c, mapper, desired).kinds <= c.scopes.Keys
  {}

  /** The kind resolves, the object can be labelled, and it has a namespace exactly if its kind
      does. */
  predicate Sendable(c: Config, mapper: Mapper, d: Desired) {
    && d.gvk in mapper.versioned && d.gvk.gk in c.scopes && d.unstructured
    && match c.scopes[d.gvk.gk]
       case Namespaced => d.namespace != ""
       case Root => d.namespace == ""
       case OtherScope => false
  }

  function Sent(d: Desired, c: Config, answer: Answer): Request {
    var k := Key(d.gvk.gk, d.namespace, d.name);
    PatchObject(k, answer.Done? && Placed(c, k))
  }

  lemma ApplySends(c: Config, s: State, answer: Answer)
    requires s.phase.Applying? && s.phase.next < |s.phase.run.desired|
    requires ApplyStep(c, s, answer).phase.Applying?
    ensures var d, s' := s.phase.run.desired[s.phase.next], ApplyStep(c, s, answer);
            && s'.phase.run == s.phase.run && s'.phase.next == s.phase.next + 1
            && s'.log == s.log + if Sendable(c, s.phase.run.mapper, d) then [Sent(d, c, answer)] else []
  {}

  function SentLog(c: Config, mapper: Mapper, desired: seq<Desired>, answers: seq<Answer>): seq<Request>
    requires |answers| <= |desired|
  {
    if answers == [] then []
    else
      var n := |answers| - 1;
      SentLog(c, mapper, desired, answers[..n]) +
      if Sendable(c, mapper, desired[n]) then [Sent(desired[n], c, answers[n])] else []
  }

  lemma {:induction false} LogIsSentLog(c: Config, s: State, answers: seq<Answer>)
    requires s.phase.Applying? && s.phase.next == 0 && |answers| <= |s.phase.run.desired|
    requires Steps(c, s, Applies(answers)).phase.Applying?
    ensures var s' := Steps(c, s, Applies(answers));
            && s'.phase.run == s.phase.run && s'.phase.next == |answers|
            && s'.log == s.log + SentLog(c, s.phase.run.mapper, s.phase.run.desired, answers)
    decreases |answers|
  {
    if answers != [] {
      var front := answers[..|answers| - 1];
      OneMoreApply(c, s, answers);
      LogIsSentLog(c, s, front);
      ApplySends(c, Steps(c, s, Applies(front)), answers[|answers| - 1]);
    }
  }

  lemma {:induction false} SentLogInOrder(c: Config, mapper: Mapper, desired: seq<Desired>, answers: seq<Answer>)
    returns (idx: seq<nat>)
    requires |answers| <= |desired|
    ensures Ascends(idx, set i | 0 <= i < |answers| && Sendable(c, mapper, desired[i]))
    ensures forall i :: i in idx ==> i < |answers|
    ensures SentLog(c, mapper, desired, answers) == Chosen(Requests(c, desired, answers), idx)
  {
    if answers == [] {
      idx := [];
    } else {
      var front, n := answers[..|answers| - 1], |answers| - 1;
      idx := SentLogInOrder(c, mapper, desired, front);
      var one := Sent(desired[n], c, answers[n]);
      assert Requests(c, desired, answers) == Requests(c, desired, front) + [one];
      ChosenSnoc(Requests(c, desired, front), idx, one);
      var before := set i | 0 <= i < n && Sendable(c, mapper, desired[i]);
      var after := set i | 0 <= i < |answers| && Sendable(c, mapper, desired[i]);
      if Sendable(c, mapper, desired[n]) {
        assert after == before + {n};
        AscendsSnoc(idx, before, n);
        idx := idx + [n];
      } else {
        assert after == before;
      }
    }
  }

  /** The apply loop sends one request for each object that can be sent, under the object's own
      kind, namespace and name, in order, and no other request. */
  lemma AppliesSend(c: Config, s: State, answers: seq<Answer>) returns (idx: seq<nat>)
    requires s.phase.Applying? && s.phase.next == 0 && |answers| <= |s.phase.run.desired|
    requires Steps(c, s, Applies(answers)).phase.Applying?
    ensures Ascends(idx, set i | 0 <= i < |answers| && Sendable(c, s.phase.run.mapper, s.phase.run.desired[i]))
    ensures forall i :: i in idx ==> i < |answers|
    ensures Steps(c, s, Applies(answers)).log == s.log + Chosen(Requests(c, s.phase.run.desired, answers), idx)
  {
    LogIsSentLog(c, s, answers);
    idx := SentLogInOrder(c, s.phase.run.mapper, s.phase.run.desired, answers);
  }

  lemma OneMoreApply(c: Config, s: State, answers: seq<Answer>)
    requires answers != []
    ensures var front, last := answers[..|answers| - 1], answers[|answers| - 1];
            && Steps(c, s, Applies(answers)) == ApplyStep(c, Steps(c, s, Applies(front)), last)
            && (Steps(c, s, Applies(answers)).phase.Applying? ==> Steps(c, s, Applies(front)).phase.Applying?)
  {
    assert Applies(answers)[..|answers| - 1] == Applies(answers[..|answers| - 1]);
  }

  function Applies(answers: seq<Answer>): seq<Event> {
    seq(|answers|, i requires 0 <= i < |answers| => Apply(answers[i]))
  }

  function Requests(c: Config, desired: seq<Desired>, answers: seq<Answer>): seq<Request>
    requires |answers| <= |desired|
  {
    seq(|answers|, i requires 0 <= i < |answers| => Sent(desired[i], c, answers[i]))
  }
}
