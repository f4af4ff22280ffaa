/** The apply/prune protocol of an ApplySet as a state machine. One event is one
    request to the cluster together with the cluster's answer, so a sequence of
    events is any number of `ApplyOnce` runs, each stopped anywhere. */
module ApplySetModel {
  import opened Text
  import opened Annotations
  import opened Collections
  import opened Schema

  /** The parent's annotation keys: `applyset.kubernetes.io/tooling`,
      `.../additional-namespaces`, `.../contains-group-resources` (deprecated),
      `.../contains-group-kinds`, and any other. */
  datatype AnnotationKey =
    | ToolingAnnotation
    | NamespacesAnnotation
    | DeprecatedAnnotation
    | KindsAnnotation
    | OtherAnnotation(name: string)

  /** The parent's label keys: `applyset.kubernetes.io/id` and any other. */
  datatype LabelKey = ParentIDLabel | OtherLabel(name: string)

  datatype Scope = Namespaced | Root | OtherScope
  datatype Tooling = Tooling(name: string, version: string)
  datatype ParentRef = ParentRef(namespace: string, namespaced: bool)

  /** What is fixed for one ApplySet: its parent, its tool, its id, and the scope
      of every kind the API server serves. */
  datatype Config = Config(parent: ParentRef, tooling: Tooling, id: string, scopes: map<GroupKind, Scope>)

  predicate ConfigOk(c: Config) {
    forall gk :: gk in c.scopes ==> WellFormedKind(gk)
  }

  /** What the RESTMapper resolves during one run: kinds by version and without one, and the
      kinds of resources. */
  datatype Mapper = Mapper(versioned: set<Gvk>, kinds: set<GroupKind>, resources: map<GroupResource, GroupKind>)

  function Lookup(c: Config, m: Mapper, gvk: Gvk): Option<Scope> {
    if gvk in m.versioned && gvk.gk in c.scopes then Some(c.scopes[gvk.gk]) else None
  }

  function Resolvable(c: Config, m: Mapper): set<GroupKind> {
    m.kinds * c.scopes.Keys
  }

  // The cluster.

  datatype Key = Key(gk: GroupKind, namespace: string, name: string)
  datatype Live = Live(uid: nat, member: bool)
  datatype ParentMeta = ParentMeta(annotations: map<AnnotationKey, string>, labels: map<LabelKey, string>)
  datatype World = World(objects: map<Key, Live>, parent: ParentMeta, nextUid: nat)

  /** Where the API server lets an object live. */
  predicate Placed(c: Config, k: Key) {
    && k.gk in c.scopes
    && (c.scopes[k.gk].Namespaced? ==> ValidNamespace(k.namespace))
    && (c.scopes[k.gk].Root? ==> k.namespace == "")
    && !c.scopes[k.gk].OtherScope?
  }

  ghost predicate WorldOk(c: Config, w: World) {
    && (forall k :: k in w.objects ==> Placed(c, k) && w.objects[k].uid < w.nextUid)
    && (forall k, k' :: k in w.objects && k' in w.objects && w.objects[k].uid == w.objects[k'].uid ==> k == k')
  }

  predicate Member(w: World, k: Key) {
    k in w.objects && w.objects[k].member
  }

  // What the parent remembers.

  datatype Memory = Memory(kinds: set<GroupKind>, namespaces: set<string>)

  function Union(a: Memory, b: Memory): Memory {
    Memory(a.kinds + b.kinds, a.namespaces + b.namespaces)
  }

  function Home(c: Config): set<string> {
    if c.parent.namespaced then {c.parent.namespace} else {}
  }

  predicate Covers(m: Memory, k: Key) {
    k.gk in m.kinds && (k.namespace != "" ==> k.namespace in m.namespaces)
  }

  function AnnotationAt(meta: ParentMeta, key: AnnotationKey): Option<string> {
    if key in meta.annotations then Some(meta.annotations[key]) else None
  }

  function TextAt(meta: ParentMeta, key: AnnotationKey): string {
    if key in meta.annotations then meta.annotations[key] else ""
  }

  ghost function Read(c: Config, meta: ParentMeta): Memory {
    Memory(ParseKinds(TextAt(meta, KindsAnnotation)),
           ParseNamespaces(TextAt(meta, NamespacesAnnotation)) + Home(c))
  }

  function ToolingText(t: Tooling): string {
    t.name + "/" + t.version
  }

  function ToolingBaseName(text: string): string {
    var parts := Split(text, '/');
    if |parts| >= 2 then Join(parts[..|parts| - 1], '/') else text
  }

  /** What `WithParent` writes into the in-memory parent before reading it. */
  function Prepared(c: Config, meta: ParentMeta): ParentMeta {
    var annotations := meta.annotations[ToolingAnnotation := ToolingText(c.tooling)];
    ParentMeta(
      if KindsAnnotation in annotations then annotations else annotations[KindsAnnotation := ""],
      meta.labels[ParentIDLabel := c.id])
  }

  /** The checks `FetchParent` makes before parsing. */
  predicate FetchAccepts(c: Config, meta: ParentMeta) {
    && ToolingAnnotation in meta.annotations
    && ToolingBaseName(meta.annotations[ToolingAnnotation]) == c.tooling.name
    && ParentIDLabel in meta.labels && meta.labels[ParentIDLabel] == c.id
  }

  /** The in-memory parent with `m` written into its annotations. */
  ghost function Merged(c: Config, meta: ParentMeta, m: Memory): ParentMeta {
    var annotations := meta.annotations[ToolingAnnotation := ToolingText(c.tooling)]
                                       [KindsAnnotation := KindsText(m.kinds)]
                                       [NamespacesAnnotation := NamespacesText(m.namespaces, c.parent.namespace)];
    ParentMeta(
      if DeprecatedAnnotation in annotations && annotations[DeprecatedAnnotation] == ""
      then annotations - {DeprecatedAnnotation} else annotations,
      meta.labels[ParentIDLabel := c.id])
  }

  // The tooling check.

  /** The tool's name is read back exactly when its version holds no slash. */
  lemma ToolingReadsBack(t: Tooling)
    ensures ToolingBaseName(ToolingText(t)) == t.name <==> '/' !in t.version
  {
    var name, version := Split(t.name, '/'), Split(t.version, '/');
    SplitAtSeparator(t.name, t.version, '/');
    assert ToolingText(t) == t.name + ['/'] + t.version;
    var parts := name + version;
    JoinSplit(t.name, '/');
    if '/' !in t.version {
      SplitWithoutSeparator(t.version, '/');
      assert parts[..|parts| - 1] == name;
    } else {
      JoinSplit(t.version, '/');
      assert forall part :: part in version ==> '/' !in part;
      assert |version| >= 2;
      var rest := version[..|version| - 1];
      assert parts[..|parts| - 1] == name + rest;
      JoinConcat(name, rest, '/');
    }
  }

  /** `WithParent` overwrites the tooling and the id before they are checked, so the checks
      accept whatever the stored parent says, and fail only for a slash in the version. */
  lemma FetchIgnoresStoredParent(c: Config, meta: ParentMeta)
    ensures FetchAccepts(c, Prepared(c, meta)) <==> '/' !in c.tooling.version
  {
    ToolingReadsBack(c.tooling);
  }

  // Runs.

  datatype Desired = Desired(gvk: Gvk, namespace: string, name: string, unstructured: bool)

  function KeyOf(d: Desired): Key {
    Key(d.gvk.gk, d.namespace, d.name)
  }

  /** What `AddResource` has gathered after the whole desired list. */
  function Collected(c: Config, m: Mapper, desired: seq<Desired>): Memory {
    Memory(set d | d in desired && Lookup(c, m, d.gvk).Some? :: d.gvk.gk,
           set d | d in desired && Lookup(c, m, d.gvk) == Some(Namespaced) && d.namespace != "" :: d.namespace)
  }

  datatype Run = Run(desired: seq<Desired>, mapper: Mapper, prune: bool, current: Memory, updated: Memory)

  /** The memory the "latest" write leaves behind. */
  function Kept(c: Config, run: Run): Memory {
    Memory(run.updated.kinds, run.updated.namespaces + Home(c))
  }

  datatype Phase =
    | Idle
    | Applying(run: Run, meta: ParentMeta, next: nat, visited: set<nat>, failures: nat)
    | Pruning(run: Run, meta: ParentMeta, spared: set<nat>, victims: set<Key>, failed: set<Key>)

  datatype Request =
    | UpdateParent(ok: bool)
    | PatchObject(key: Key, ok: bool)
    | DeleteObject(key: Key, ok: bool)

  datatype State = State(world: World, phase: Phase, log: seq<Request>)

  /** How a write ends: done, refused, or carried out with the reply lost. */
  datatype Answer = Done | Refused | ReplyLost

  datatype Event =
    | Start(desired: seq<Desired>, mapper: Mapper, prune: bool, answer: Answer)
    | Apply(answer: Answer)
    | BeginPrune(ok: bool)
    | Delete(key: Key, answer: Answer)
    | Finish(answer: Answer)
    | Stop
    | Outside(world: World)

  /** Writes the parent unless the in-memory copy did not change. */
  function WriteParent(s: State, before: ParentMeta, after: ParentMeta, answer: Answer, success: Phase,
                       failure: Phase): State {
    if before == after then s.(phase := success)
    else State(
      if answer.Refused? then s.world else s.world.(parent := after),
      if answer.Done? then success else failure,
      s.log + [UpdateParent(answer.Done?)])
  }

  /** `WithParent`, from the copy of the parent held in memory. */
  ghost function StartFrom(c: Config, s: State, subject: ParentMeta, desired: seq<Desired>, mapper: Mapper, prune: bool,
                           answer: Answer): State
  {
    var prepared := Prepared(c, subject);
    var current := Read(c, prepared);
    if !s.phase.Idle? || !FetchAccepts(c, prepared) || !(current.kinds <= Resolvable(c, mapper)) then s
    else
      var run := Run(desired, mapper, prune, current, Collected(c, mapper, desired));
      var meta := Merged(c, prepared, Union(current, run.updated));
      WriteParent(s, prepared, meta, answer, Applying(run, meta, 0, {}, 0), Idle)
  }

  /** A run of the reconciler reads the parent from the cluster first. */
  ghost function StartStep(c: Config, s: State, desired: seq<Desired>, mapper: Mapper, prune: bool,
                           answer: Answer): State {
    StartFrom(c, s, s.world.parent, desired, mapper, prune, answer)
  }

  /** The checks made on one object before it is sent. */
  datatype Verdict = Send | Fail | Abort

  function Vet(c: Config, m: Mapper, d: Desired): Verdict {
    match Lookup(c, m, d.gvk)
    case None => Fail
    case Some(scope) =>
      if !d.unstructured then Abort
      else match scope
        case Namespaced => if d.namespace == "" then Fail else Send
        case Root => if d.namespace != "" then Fail else Send
        case OtherScope => Abort
  }

  /** The server-side apply of one object: its uid is kept, or a new one is issued. */
  function Patched(w: World, k: Key): World {
    if k in w.objects then w.(objects := w.objects[k := w.objects[k].(member := true)])
    else World(w.objects[k := Live(w.nextUid, true)], w.parent, w.nextUid + 1)
  }

  function ApplyStep(c: Config, s: State, answer: Answer): State {
    if !s.phase.Applying? || s.phase.next >= |s.phase.run.desired| then s
    else
      var p := s.phase.(next := s.phase.next + 1);
      var d := p.run.desired[s.phase.next];
      match Vet(c, p.run.mapper, d)
      case Abort => s.(phase := Idle)
      case Fail => s.(phase := p.(failures := p.failures + 1))
      case Send =>
        var k := KeyOf(d);
        var w := if answer.Refused? || !Placed(c, k) then s.world else Patched(s.world, k);
        if answer.Done? && Placed(c, k) then
          State(w, p.(visited := p.visited + {w.objects[k].uid}), s.log + [PatchObject(k, true)])
        else
          State(w, p.(failures := p.failures + 1), s.log + [PatchObject(k, false)])
  }

  /** What listing every old kind in every old namespace finds. */
  predicate Listed(c: Config, current: Memory, k: Key) {
    && k.gk in current.kinds && k.gk in c.scopes
    && (c.scopes[k.gk].Namespaced? ==> k.namespace in current.namespaces)
  }

  function Victims(c: Config, w: World, current: Memory, visited: set<nat>): set<Key> {
    set k | k in w.objects && w.objects[k].member && Listed(c, current, k) && w.objects[k].uid !in visited
  }

  /** The pruner refuses an empty namespace and a scope it does not know. */
  predicate CanList(c: Config, current: Memory) {
    forall gk :: gk in current.kinds && gk in c.scopes ==>
      !c.scopes[gk].OtherScope? && (c.scopes[gk].Namespaced? ==> "" !in current.namespaces)
  }

  function BeginPruneStep(c: Config, s: State, ok: bool): State {
    if !s.phase.Applying? || s.phase.next < |s.phase.run.desired| then s
    else
      var p := s.phase;
      if !p.run.prune || p.failures > 0 || !CanList(c, p.run.current) || !ok then s.(phase := Idle)
      else s.(phase := Pruning(p.run, p.meta, p.visited, Victims(c, s.world, p.run.current, p.visited), {}))
  }

  /** A failed delete is recorded and the run goes on. */
  function DeleteStep(s: State, k: Key, answer: Answer): State {
    if !s.phase.Pruning? || k !in s.phase.victims then s
    else
      var p := s.phase.(victims := s.phase.victims - {k});
      var w := if answer.Refused? then s.world else s.world.(objects := s.world.objects - {k});
      if answer.Done? && k in s.world.objects then State(w, p, s.log + [DeleteObject(k, true)])
      else State(w, p.(failed := p.failed + {k}), s.log + [DeleteObject(k, false)])
  }

  ghost function FinishStep(c: Config, s: State, answer: Answer): State {
    if !s.phase.Pruning? || s.phase.victims != {} then s
    else WriteParent(s, s.phase.meta, Merged(c, s.phase.meta, s.phase.run.updated), answer, Idle, Idle)
  }

  /** Other actors may do anything except join objects to the set, reuse a uid, or
      rewrite the two annotations. */
  ghost predicate OutsideOk(c: Config, w: World, w': World) {
    && WorldOk(c, w') && w.nextUid <= w'.nextUid
    && TextAt(w'.parent, KindsAnnotation) == TextAt(w.parent, KindsAnnotation)
    && TextAt(w'.parent, NamespacesAnnotation) == TextAt(w.parent, NamespacesAnnotation)
    && (forall k :: k in w'.objects ==>
          if k in w.objects && w'.objects[k].uid == w.objects[k].uid
          then w'.objects[k].member ==> w.objects[k].member
          else w'.objects[k].uid >= w.nextUid && !w'.objects[k].member)
  }

  ghost function Step(c: Config, s: State, e: Event): State {
    match e
    case Start(desired, mapper, prune, answer) => StartStep(c, s, desired, mapper, prune, answer)
    case Apply(answer) => ApplyStep(c, s, answer)
    case BeginPrune(ok) => BeginPruneStep(c, s, ok)
    case Delete(k, answer) => DeleteStep(s, k, answer)
    case Finish(answer) => FinishStep(c, s, answer)
    case Stop => s.(phase := Idle)
    case Outside(w) => if OutsideOk(c, s.world, w) then s.(world := w) else s
  }

  ghost function Steps(c: Config, s: State, events: seq<Event>): State {
    if events == [] then s
    else Step(c, Steps(c, s, events[..|events| - 1]), events[|events| - 1])
  }

  lemma StepsSnoc(c: Config, s: State, events: seq<Event>, e: Event)
    ensures Steps(c, s, events + [e]) == Step(c, Steps(c, s, events), e)
  {
    assert (events + [e])[..|events|] == events;
  }

  lemma {:induction false} StepsConcat(c: Config, s: State, a: seq<Event>, b: seq<Event>)
    ensures Steps(c, s, a + b) == Steps(c, Steps(c, s, a), b)
    decreases |b|
  {
    if b == [] {
      assert a + b == a;
    } else {
      var front := b[..|b| - 1];
      StepsConcat(c, s, a, front);
      assert a + b == (a + front) + [b[|b| - 1]];
      StepsSnoc(c, s, a + front, b[|b| - 1]);
    }
  }
}
