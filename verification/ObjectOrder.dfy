/** The order in which the objects of a manifest are applied. */
module ObjectOrder {
  import opened Collections
  import opened Schema
  import opened Text

  /** A manifest object; `content` stands for everything the comparison does not look at
      besides the namespace. */
  datatype Item = Item(group: string, kind: string, name: string, namespace: string, content: string)

  type Score = Item -> int

  /** The less function given to `sort.Slice`. */
  predicate Before(score: Score, a: Item, b: Item) {
    || score(a) < score(b)
    || (score(a) == score(b) && Less(a.group, b.group))
    || (score(a) == score(b) && a.group == b.group && Less(a.kind, b.kind))
    || (score(a) == score(b) && a.group == b.group && a.kind == b.kind && Less(a.name, b.name))
  }

  predicate Ties(score: Score, a: Item, b: Item) {
    !Before(score, a, b) && !Before(score, b, a)
  }

  predicate SameKey(score: Score, a: Item, b: Item) {
    score(a) == score(b) && a.group == b.group && a.kind == b.kind && a.name == b.name
  }

  /** The first of score, group, kind and name in which they differ decides. */
  lemma FirstDifferenceDecides(score: Score, a: Item, b: Item)
    ensures Before(score, a, b) <==>
            if score(a) != score(b) then score(a) < score(b)
            else if a.group != b.group then Less(a.group, b.group)
            else if a.kind != b.kind then Less(a.kind, b.kind)
            else Less(a.name, b.name)
  {
    LessIsStrict(a.group, b.group);
    LessIsStrict(a.kind, b.kind);
  }

  // A strict weak order.

  lemma BeforeIsAsymmetric(score: Score, a: Item, b: Item)
    ensures !(Before(score, a, b) && Before(score, b, a))
    ensures Ties(score, a, b) <==> SameKey(score, a, b)
  {
    LessIsStrict(a.group, b.group);
    LessIsStrict(a.kind, b.kind);
    LessIsStrict(a.name, b.name);
  }

  lemma BeforeIsTransitive(score: Score, a: Item, b: Item, c: Item)
    requires Before(score, a, b) && Before(score, b, c)
    ensures Before(score, a, c)
  {
    if Less(a.group, b.group) && Less(b.group, c.group) {
      LessIsTransitive(a.group, b.group, c.group);
    }
    if Less(a.kind, b.kind) && Less(b.kind, c.kind) {
      LessIsTransitive(a.kind, b.kind, c.kind);
    }
    if Less(a.name, b.name) && Less(b.name, c.name) {
      LessIsTransitive(a.name, b.name, c.name);
    }
  }

  /** Not being after is transitive too, ties included. */
  lemma NotAfterIsTransitive(score: Score, a: Item, b: Item, c: Item)
    requires !Before(score, b, a) && !Before(score, c, b)
    ensures !Before(score, c, a)
  {
    BeforeIsAsymmetric(score, a, b);
    BeforeIsAsymmetric(score, b, c);
    if Before(score, c, a) {
      if Ties(score, a, b) || Ties(score, b, c) {
        BeforeIsAsymmetric(score, a, c);
      } else {
        BeforeIsTransitive(score, a, b, c);
        BeforeIsAsymmetric(score, a, c);
      }
    }
  }

  // What sorting may return.

  predicate Ordered(score: Score, items: seq<Item>) {
    forall i, j :: 0 <= i < j < |items| ==> !Before(score, items[j], items[i])
  }

  /** All that `sort.Slice` promises: it is not stable. */
  predicate Outcome(score: Score, items: seq<Item>, sorted: seq<Item>) {
    multiset(sorted) == multiset(items) && Ordered(score, sorted)
  }

  function Insert(score: Score, x: Item, items: seq<Item>): seq<Item> {
    if items == [] || !Before(score, items[0], x) then [x] + items
    else [items[0]] + Insert(score, x, items[1..])
  }

  function Sorted(score: Score, items: seq<Item>): seq<Item> {
    if items == [] then [] else Insert(score, items[0], Sorted(score, items[1..]))
  }

  lemma {:induction false} InsertKeepsOrder(score: Score, x: Item, items: seq<Item>)
    requires Ordered(score, items)
    ensures multiset(Insert(score, x, items)) == multiset{x} + multiset(items)
    ensures Ordered(score, Insert(score, x, items))
  {
    if items == [] {
    } else if !Before(score, items[0], x) {
      BeforeIsAsymmetric(score, items[0], items[0]);
      forall j | 0 <= j < |items| ensures !Before(score, items[j], x) {
        NotAfterIsTransitive(score, x, items[0], items[j]);
      }
    } else {
      assert items == [items[0]] + items[1..];
      var rest := Insert(score, x, items[1..]);
      InsertKeepsOrder(score, x, items[1..]);
      forall j | 0 <= j < |rest| ensures !Before(score, rest[j], items[0]) {
        assert rest[j] in multiset(rest);
        BeforeIsAsymmetric(score, items[0], x);
      }
    }
  }

  lemma {:induction false} SortedIsOutcome(score: Score, items: seq<Item>)
    ensures Outcome(score, items, Sorted(score, items))
  {
    if items != [] {
      assert items == [items[0]] + items[1..];
      SortedIsOutcome(score, items[1..]);
      InsertKeepsOrder(score, items[0], Sorted(score, items[1..]));
    }
  }

  // When the result is determined.

  predicate TieFree(score: Score, items: multiset<Item>) {
    forall a, b :: a in items && b in items && SameKey(score, a, b) ==> a == b
  }

  lemma {:induction false} OutcomeIsUnique(score: Score, s: seq<Item>, t: seq<Item>)
    requires multiset(s) == multiset(t) && TieFree(score, multiset(s))
    requires Ordered(score, s) && Ordered(score, t)
    ensures s == t
  {
    SameLength(s, t);
    if s != [] {
      HeadsAgree(score, s, t);
      TailsMatch(s, t);
      TailIsTieFree(score, s);
      OutcomeIsUnique(score, s[1..], t[1..]);
    }
  }

  lemma SameLength<T>(s: seq<T>, t: seq<T>)
    requires multiset(s) == multiset(t)
    ensures |s| == |t|
  {
    assert |multiset(s)| == |s| && |multiset(t)| == |t|;
  }

  lemma TakeOut<T>(a: seq<T>, x: T, b: seq<T>, c: seq<T>, d: seq<T>)
    requires multiset(a + [x] + b) == multiset(c + [x] + d)
    ensures multiset(a + b) == multiset(c + d)
  {
    assert multiset(a + b) == multiset(a + [x] + b) - multiset{x};
    assert multiset(c + d) == multiset(c + [x] + d) - multiset{x};
  }

  lemma TailsMatch<T>(s: seq<T>, t: seq<T>)
    requires multiset(s) == multiset(t) && s != [] && t != [] && s[0] == t[0]
    ensures multiset(s[1..]) == multiset(t[1..])
  {
    assert s == [] + [s[0]] + s[1..] && t == [] + [s[0]] + t[1..];
    assert [] + s[1..] == s[1..] && [] + t[1..] == t[1..];
    TakeOut([], s[0], s[1..], [], t[1..]);
  }

  lemma TailIsTieFree(score: Score, s: seq<Item>)
    requires s != [] && TieFree(score, multiset(s))
    ensures TieFree(score, multiset(s[1..]))
  {
    forall x | x in multiset(s[1..]) ensures x in multiset(s) {
      assert x in s[1..];
    }
  }

  lemma HeadsAgree(score: Score, s: seq<Item>, t: seq<Item>)
    requires multiset(s) == multiset(t) && TieFree(score, multiset(s)) && s != [] && t != []
    requires Ordered(score, s) && Ordered(score, t)
    ensures s[0] == t[0]
  {
    assert s[0] in multiset(t) && t[0] in multiset(s);
    NothingBeforeHead(score, s, t[0]);
    NothingBeforeHead(score, t, s[0]);
    BeforeIsAsymmetric(score, s[0], t[0]);
  }

  lemma NothingBeforeHead(score: Score, s: seq<Item>, x: Item)
    requires Ordered(score, s) && x in s
    ensures !Before(score, x, s[0])
  {
    var i :| 0 <= i < |s| && s[i] == x;
    if i == 0 {
      BeforeIsAsymmetric(score, x, x);
    }
  }

  function Exchanged(s: seq<Item>, i: nat, j: nat): seq<Item>
    requires i < |s| && j < |s|
  {
    s[i := s[j]][j := s[i]]
  }

  lemma ExchangeTies(score: Score, s: seq<Item>, i: nat, j: nat)
    requires Ordered(score, s) && i < j < |s| && SameKey(score, s[i], s[j])
    ensures Outcome(score, s, Exchanged(s, i, j))
  {
    var t := Exchanged(s, i, j);
    forall x, y | 0 <= x < y < |t| ensures !Before(score, t[y], t[x]) {
      assert SameKey(score, t[x], s[x]) && SameKey(score, t[y], s[y]);
      assert !Before(score, s[y], s[x]);
    }
  }

  /** The items of the manifest files, read in the order `paths`. */
  function Gathered(files: map<string, seq<Item>>, paths: seq<string>): seq<Item> {
    if paths == [] then []
    else
      var path := paths[|paths| - 1];
      Gathered(files, paths[..|paths| - 1]) + if path in files then files[path] else []
  }

  lemma {:induction false} GatheredConcat(files: map<string, seq<Item>>, a: seq<string>, b: seq<string>)
    ensures Gathered(files, a + b) == Gathered(files, a) + Gathered(files, b)
    decreases |b|
  {
    if b == [] {
      assert a + b == a;
    } else {
      assert (a + b)[..|a + b| - 1] == a + b[..|b| - 1];
      GatheredConcat(files, a, b[..|b| - 1]);
    }
  }

  lemma PullOut(files: map<string, seq<Item>>, a: seq<string>, path: string, b: seq<string>)
    ensures multiset(Gathered(files, a + [path] + b)) ==
              multiset(Gathered(files, a + b)) + multiset(Gathered(files, [path]))
  {
    GatheredConcat(files, a, b);
    GatheredConcat(files, a + [path], b);
    GatheredConcat(files, a, [path]);
  }

  lemma FindHead<T>(s: seq<T>, t: seq<T>) returns (a: seq<T>, b: seq<T>)
    requires s != [] && multiset(s) == multiset(t)
    ensures t == a + [s[0]] + b && multiset(s[1..]) == multiset(a + b)
  {
    assert s[0] in multiset(t);
    var i :| 0 <= i < |t| && t[i] == s[0];
    a, b := t[..i], t[i + 1..];
    assert t == a + [s[0]] + b;
    TakeHead(s, a, b);
  }

  lemma TakeHead<T>(s: seq<T>, a: seq<T>, b: seq<T>)
    requires s != [] && multiset(s) == multiset(a + [s[0]] + b)
    ensures multiset(s[1..]) == multiset(a + b)
  {
    assert s == [] + [s[0]] + s[1..];
    TakeOut([], s[0], s[1..], a, b);
    assert [] + s[1..] == s[1..];
  }

  lemma {:induction false} GatheredIgnoresOrder(files: map<string, seq<Item>>, paths: seq<string>, other: seq<string>)
    requires multiset(paths) == multiset(other)
    ensures multiset(Gathered(files, paths)) == multiset(Gathered(files, other))
    decreases |paths|
  {
    SameLength(paths, other);
    if paths != [] {
      var a, b := FindHead(paths, other);
      GatheredIgnoresOrder(files, paths[1..], a + b);
      PullOut(files, [], paths[0], paths[1..]);
      PullOut(files, a, paths[0], b);
      assert paths == [] + [paths[0]] + paths[1..] && [] + paths[1..] == paths[1..];
    }
  }

  /** Whatever order the files are ranged over in and whatever the sort does with ties, there
      is one result. */
  ghost predicate Deterministic(score: Score, files: map<string, seq<Item>>) {
    forall o1, o2, s, t ::
      && Enumerates(o1, files.Keys) && Outcome(score, Gathered(files, o1), s)
      && Enumerates(o2, files.Keys) && Outcome(score, Gathered(files, o2), t)
      ==> s == t
  }

  ghost function AllItems(files: map<string, seq<Item>>): multiset<Item> {
    multiset(Gathered(files, Enumeration(files.Keys)))
  }

  lemma EveryOrderGathersAll(files: map<string, seq<Item>>, order: seq<string>)
    requires Enumerates(order, files.Keys)
    ensures multiset(Gathered(files, order)) == AllItems(files)
  {
    EnumerationIsSet(order, files.Keys);
    EnumerationIsSet(Enumeration(files.Keys), files.Keys);
    GatheredIgnoresOrder(files, order, Enumeration(files.Keys));
  }

  /** The apply order is determined by the manifest exactly when no two different objects agree
      on score, group, kind and name; a different namespace alone does not separate them. */
  lemma DeterministicExactlyWithoutTies(score: Score, files: map<string, seq<Item>>)
    ensures Deterministic(score, files) <==> TieFree(score, AllItems(files))
  {
    if TieFree(score, AllItems(files)) {
      forall o1, o2, s, t |
        && Enumerates(o1, files.Keys) && Outcome(score, Gathered(files, o1), s)
        && Enumerates(o2, files.Keys) && Outcome(score, Gathered(files, o2), t)
        ensures s == t
      {
        EveryOrderGathersAll(files, o1);
        EveryOrderGathersAll(files, o2);
        OutcomeIsUnique(score, s, t);
      }
    } else {
      var a, b :| a in AllItems(files) && b in AllItems(files) && SameKey(score, a, b) && a != b;
      TwoOutcomes(score, Gathered(files, Enumeration(files.Keys)), a, b);
    }
  }

  lemma TwoOutcomes(score: Score, items: seq<Item>, a: Item, b: Item)
    requires a in multiset(items) && b in multiset(items) && SameKey(score, a, b) && a != b
    ensures exists s, t :: Outcome(score, items, s) && Outcome(score, items, t) && s != t
  {
    var s := Sorted(score, items);
    SortedIsOutcome(score, items);
    var t := OtherOutcome(score, s, a, b);
    assert Outcome(score, items, s) && Outcome(score, items, t);
  }

  lemma OtherOutcome(score: Score, s: seq<Item>, a: Item, b: Item) returns (t: seq<Item>)
    requires Ordered(score, s) && a in multiset(s) && b in multiset(s) && SameKey(score, a, b) && a != b
    ensures Outcome(score, s, t) && s != t
  {
    var i :| 0 <= i < |s| && s[i] == a;
    var j :| 0 <= j < |s| && s[j] == b;
    var low, high := if i < j then i else j, if i < j then j else i;
    ExchangeTies(score, s, low, high);
    t := Exchanged(s, low, high);
    assert t[low] != s[low];
  }

  // The default score.

  datatype Stage = Definitions | Namespaces | Accounts | Bindings | Configuration | Workloads | Autoscalers | Services

  const CRD := GroupKind("apiextensions.k8s.io", "CustomResourceDefinition")
  const NAMESPACE := GroupKind("", "Namespace")
  const SERVICE_ACCOUNT := GroupKind("", "ServiceAccount")
  const CLUSTER_ROLE := GroupKind("rbac.authorization.k8s.io", "ClusterRole")
  const CLUSTER_ROLE_BINDING := GroupKind("rbac.authorization.k8s.io", "ClusterRoleBinding")
  const CONFIG_MAP := GroupKind("", "ConfigMap")
  const SECRET := GroupKind("", "Secret")
  const OLD_DEPLOYMENT := GroupKind("extensions", "Deployment")
  const DEPLOYMENT := GroupKind("apps", "Deployment")
  const AUTOSCALER := GroupKind("autoscaling", "HorizontalPodAutoscaler")
  const SERVICE := GroupKind("", "Service")

  /** The text the switch compares. */
  function SlashName(gk: GroupKind): string {
    gk.group + "/" + gk.kind
  }

  function DefaultScore(o: Item): int {
    var gk := SlashName(KindOf(o));
    if gk == SlashName(CRD) then -1000
    else if gk == SlashName(NAMESPACE) then 0
    else if gk == SlashName(SERVICE_ACCOUNT) || gk == SlashName(CLUSTER_ROLE) then 1
    else if gk == SlashName(CLUSTER_ROLE_BINDING) then 2
    else if gk == SlashName(CONFIG_MAP) || gk == SlashName(SECRET) then 100
    else if gk == SlashName(OLD_DEPLOYMENT) || gk == SlashName(DEPLOYMENT) then 1000
    else if gk == SlashName(AUTOSCALER) then 1001
    else if gk == SlashName(SERVICE) then 10000
    else 1000
  }

  function StageOf(gk: GroupKind): Stage {
    if gk == CRD then Definitions
    else if gk == NAMESPACE then Namespaces
    else if gk == SERVICE_ACCOUNT || gk == CLUSTER_ROLE then Accounts
    else if gk == CLUSTER_ROLE_BINDING then Bindings
    else if gk == CONFIG_MAP || gk == SECRET then Configuration
    else if gk == AUTOSCALER then Autoscalers
    else if gk == SERVICE then Services
    else Workloads
  }

  function Rank(stage: Stage): int {
    match stage
    case Definitions => -1000
    case Namespaces => 0
    case Accounts => 1
    case Bindings => 2
    case Configuration => 100
    case Workloads => 1000
    case Autoscalers => 1001
    case Services => 10000
  }

  /** A text with one slash can be cut in one way only. */
  lemma OneCut(a: GroupKind, b: GroupKind)
    requires NoSlash(b)
    ensures SlashName(a) == SlashName(b) <==> a == b
  {
    if SlashName(a) == SlashName(b) {
      SplitAtSeparator(a.group, a.kind, '/');
      SplitAtSeparator(b.group, b.kind, '/');
      SplitWithoutSeparator(b.group, '/');
      SplitWithoutSeparator(b.kind, '/');
      JoinSplit(a.group, '/');
      JoinSplit(a.kind, '/');
      var groups, kinds := Split(a.group, '/'), Split(a.kind, '/');
      assert |groups + kinds| == 2;
      assert groups == [(groups + kinds)[0]] && kinds == [(groups + kinds)[1]];
    }
  }

  predicate Listed(gk: GroupKind) {
    || gk == CRD || gk == NAMESPACE || gk == SERVICE_ACCOUNT || gk == CLUSTER_ROLE || gk == CLUSTER_ROLE_BINDING
    || gk == CONFIG_MAP || gk == SECRET || gk == OLD_DEPLOYMENT || gk == DEPLOYMENT || gk == AUTOSCALER || gk == SERVICE
  }

  predicate NoSlash(gk: GroupKind) {
    '/' !in gk.group && '/' !in gk.kind
  }

  lemma DefinitionHasNoSlash()
    ensures NoSlash(CRD)
  {
    DefinitionGroup();
  }

  lemma DefinitionGroup()
    ensures '/' !in CRD.group
  {}

  lemma RolesHaveNoSlash()
    ensures NoSlash(CLUSTER_ROLE) && NoSlash(CLUSTER_ROLE_BINDING)
  {}

  lemma CoreKindsHaveNoSlash()
    ensures NoSlash(NAMESPACE) && NoSlash(SERVICE_ACCOUNT) && NoSlash(CONFIG_MAP) && NoSlash(SECRET) && NoSlash(SERVICE)
  {}

  lemma DeploymentsHaveNoSlash()
    ensures NoSlash(OLD_DEPLOYMENT) && NoSlash(DEPLOYMENT)
  {}

  lemma AutoscalerHasNoSlash()
    ensures NoSlash(AUTOSCALER)
  {}

  lemma ListedHasNoSlash(gk: GroupKind)
    requires Listed(gk)
    ensures NoSlash(gk)
  {
    DefinitionHasNoSlash();
    RolesHaveNoSlash();
    CoreKindsHaveNoSlash();
    DeploymentsHaveNoSlash();
    AutoscalerHasNoSlash();
  }

  function KindOf(o: Item): GroupKind {
    GroupKind(o.group, o.kind)
  }

  /** No group or kind, however odd, can pass for another one in the joined text. */
  lemma ScoreFollowsStage(o: Item)
    ensures DefaultScore(o) == Rank(StageOf(KindOf(o)))
  {
    var gk := KindOf(o);
    forall listed | Listed(listed) ensures SlashName(gk) == SlashName(listed) <==> gk == listed {
      ListedHasNoSlash(listed);
      OneCut(gk, listed);
    }
  }

  /** The place of a kind among the kinds named in the default order. */
  function Turn(gk: GroupKind): nat {
    if gk == GroupKind("apiextensions.k8s.io", "CustomResourceDefinition") then 0
    else if gk == GroupKind("", "Namespace") then 1
    else if gk == GroupKind("", "ServiceAccount") || gk == GroupKind("rbac.authorization.k8s.io", "ClusterRole") then 2
    else if gk == GroupKind("rbac.authorization.k8s.io", "ClusterRoleBinding") then 3
    else if gk == GroupKind("", "ConfigMap") || gk == GroupKind("", "Secret") then 4
    else if gk == GroupKind("autoscaling", "HorizontalPodAutoscaler") then 6
    else if gk == GroupKind("", "Service") then 7
    else 5
  }

  /** Definitions come before namespaces, those before accounts, and so on to services. */
  lemma StagesComeInOrder(items: seq<Item>, sorted: seq<Item>, i: nat, j: nat)
    requires Outcome(DefaultScore, items, sorted) && i < |sorted| && j < |sorted|
    requires Turn(KindOf(sorted[i])) < Turn(KindOf(sorted[j]))
    ensures i < j
  {
    ScoreFollowsStage(sorted[i]);
    ScoreFollowsStage(sorted[j]);
    TurnsFollowRanks(KindOf(sorted[i]), KindOf(sorted[j]));
    assert Before(DefaultScore, sorted[i], sorted[j]);
  }

  lemma TurnsFollowRanks(a: GroupKind, b: GroupKind)
    ensures Turn(a) < Turn(b) <==> Rank(StageOf(a)) < Rank(StageOf(b))
  {}

  /** Reads the manifest files in the order Go ranges over them and sorts what they hold. */
  method BuildDeploymentObjects(files: map<string, seq<Item>>) returns (items: seq<Item>)
    ensures Ordered(DefaultScore, items) && multiset(items) == AllItems(files)
    ensures TieFree(DefaultScore, AllItems(files)) ==>
              items == Sorted(DefaultScore, Gathered(files, Enumeration(files.Keys)))
  {
    var rest, gathered := files.Keys, [];
    ghost var order := [];
    while rest != {}
      invariant rest <= files.Keys && Enumerates(order, files.Keys - rest)
      invariant gathered == Gathered(files, order)
      decreases rest
    {
      var path :| path in rest;
      rest := rest - {path};
      gathered := gathered + files[path];
      order := order + [path];
      assert order[..|order| - 1] + [path] == order;
    }
    assert files.Keys - rest == files.Keys;
    items := Sorted(DefaultScore, gathered);
    SortedIsOutcome(DefaultScore, gathered);
    EveryOrderGathersAll(files, order);
    DeterministicExactlyWithoutTies(DefaultScore, files);
    SortedIsOutcome(DefaultScore, Gathered(files, Enumeration(files.Keys)));
  }
}
