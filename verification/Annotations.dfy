/** The two annotations that are an ApplySet's only durable memory, as text:
    a comma-separated list of group-kinds and one of namespaces. */
module Annotations {
  import opened Collections
  import opened Schema
  import opened Text

  /** `schema.GroupKind.String()`: `Kind` or `Kind.group`. */
  function KindName(gk: GroupKind): string {
    if gk.group == "" then gk.kind else gk.kind + "." + gk.group
  }

  function IndexOf(s: string, c: char): (i: nat)
    requires c in s
    ensures i < |s| && s[i] == c && c !in s[..i]
  {
    if s[0] == c then 0 else 1 + IndexOf(s[1..], c)
  }

  /** `schema.ParseGroupKind`: the kind is what comes before the first dot. */
  function ParseGroupKind(s: string): GroupKind {
    if '.' in s then
      var i := IndexOf(s, '.');
      GroupKind(s[i + 1..], s[..i])
    else GroupKind("", s)
  }

  /** The kinds an API server can serve. */
  predicate WellFormedKind(gk: GroupKind) {
    gk.kind != "" && '.' !in gk.kind && ',' !in gk.kind && ',' !in gk.group
  }

  /** The namespace names an API server can hold. */
  predicate ValidNamespace(ns: string) {
    ns != "" && ',' !in ns
  }

  lemma KindNameRoundTrip(gk: GroupKind)
    requires '.' !in gk.kind
    ensures ParseGroupKind(KindName(gk)) == gk
  {
    if gk.group != "" {
      var s := KindName(gk);
      assert s[|gk.kind|] == '.';
      var i := IndexOf(s, '.');
      assert forall j :: 0 <= j < |gk.kind| ==> s[j] in gk.kind;
      assert forall j :: 0 <= j < i ==> s[..i][j] != '.';
      assert s[..i] == gk.kind && s[i + 1..] == gk.group;
    }
  }

  /** The first dot decides. */
  lemma ParsedParts(kind: string, group: string)
    requires '.' !in kind
    ensures ParseGroupKind(kind + "." + group) == GroupKind(group, kind)
    ensures ParseGroupKind(kind) == GroupKind("", kind)
  {
    var s := kind + "." + group;
    assert s[|kind|] == '.';
    var i := IndexOf(s, '.');
    assert forall j :: 0 <= j < |kind| ==> s[j] in kind;
    assert forall j :: 0 <= j < i ==> s[..i][j] != '.';
    assert s[..i] == kind && s[i + 1..] == group;
  }

  function Names(order: seq<GroupKind>): seq<string> {
    seq(|order|, i requires 0 <= i < |order| => KindName(order[i]))
  }

  function Without<T>(b: seq<T>, j: nat): seq<T>
    requires j < |b|
  {
    b[..j] + b[j + 1..]
  }

  lemma WithoutOne<T>(b: seq<T>, j: nat)
    requires j < |b|
    ensures multiset(b) == multiset(Without(b, j)) + multiset{b[j]}
  {
    assert b == b[..j] + [b[j]] + b[j + 1..];
  }

  lemma NamesWithoutOne(b: seq<GroupKind>, j: nat)
    requires j < |b|
    ensures multiset(Names(b)) == multiset(Names(Without(b, j))) + multiset{KindName(b[j])}
  {
    assert Names(Without(b, j)) == Without(Names(b), j);
    WithoutOne(Names(b), j);
  }

  lemma {:induction false} NamesIgnoreOrder(a: seq<GroupKind>, b: seq<GroupKind>)
    requires multiset(a) == multiset(b)
    ensures multiset(Names(a)) == multiset(Names(b))
    decreases |a|
  {
    if a == [] {
      assert |multiset(b)| == 0;
    } else {
      assert a[0] in multiset(b);
      var j :| 0 <= j < |b| && b[j] == a[0];
      WithoutOne(a, 0);
      WithoutOne(b, j);
      NamesWithoutOne(a, 0);
      NamesWithoutOne(b, j);
      var a', b' := Without(a, 0), Without(b, j);
      assert multiset(a') == multiset(a) - multiset{a[0]};
      assert multiset(b') == multiset(b) - multiset{a[0]};
      NamesIgnoreOrder(a', b');
    }
  }

  lemma SameElements<T>(a: seq<T>, b: seq<T>)
    requires multiset(a) == multiset(b)
    ensures forall x :: x in a <==> x in b
  {
    forall x ensures x in a <==> x in b {
      assert x in a <==> x in multiset(a);
      assert x in b <==> x in multiset(b);
    }
  }

  // The group-kinds annotation.

  ghost function KindsText(kinds: set<GroupKind>): string {
    Join(Sort(Names(Enumeration(kinds))), ',')
  }

  /** The text depends on the set alone, whatever order Go ranges over it. */
  lemma KindsTextIgnoresOrder(order: seq<GroupKind>, kinds: set<GroupKind>)
    requires Enumerates(order, kinds)
    ensures Join(Sort(Names(order)), ',') == KindsText(kinds)
  {
    EnumerationIsSet(order, kinds);
    EnumerationIsSet(Enumeration(kinds), kinds);
    NamesIgnoreOrder(order, Enumeration(kinds));
    SortIgnoresOrder(Names(order), Names(Enumeration(kinds)));
  }

  ghost function ParseKinds(text: string): set<GroupKind> {
    if text == "" then {} else set s | s in Split(text, ',') :: ParseGroupKind(s)
  }

  lemma SortedNames(kinds: set<GroupKind>)
    ensures forall gk :: gk in kinds ==> KindName(gk) in Sort(Names(Enumeration(kinds)))
    ensures forall n :: n in Sort(Names(Enumeration(kinds))) ==> exists gk :: gk in kinds && KindName(gk) == n
  {
    var order := Enumeration(kinds);
    SortSorts(Names(order));
    SameElements(Sort(Names(order)), Names(order));
    forall gk | gk in kinds ensures KindName(gk) in Names(order) {
      var i :| 0 <= i < |order| && order[i] == gk;
      assert Names(order)[i] == KindName(gk);
    }
    forall n | n in Names(order) ensures exists gk :: gk in kinds && KindName(gk) == n {
      var i :| 0 <= i < |order| && Names(order)[i] == n;
      assert order[i] in kinds;
    }
  }

  /** A well-formed kind is never lost in the text, whatever else is written with it. */
  lemma KindSurvives(kinds: set<GroupKind>, gk: GroupKind)
    requires gk in kinds && WellFormedKind(gk)
    ensures gk in ParseKinds(KindsText(kinds))
  {
    var names := Sort(Names(Enumeration(kinds)));
    SortedNames(kinds);
    assert KindName(gk) in names;
    PartSurvives(names, KindName(gk), ',');
    JoinIsEmpty(names, ',');
    KindNameRoundTrip(gk);
  }

  lemma KindsRoundTrip(kinds: set<GroupKind>)
    requires forall gk :: gk in kinds ==> WellFormedKind(gk)
    ensures ParseKinds(KindsText(kinds)) == kinds
  {
    var names := Sort(Names(Enumeration(kinds)));
    SortedNames(kinds);
    if names == [] {
      assert forall gk :: gk in kinds ==> KindName(gk) in names;
    } else {
      SplitJoin(names, ',');
      forall gk | gk in ParseKinds(KindsText(kinds)) ensures gk in kinds {
        var n :| n in names && ParseGroupKind(n) == gk;
        var origin :| origin in kinds && KindName(origin) == n;
        KindNameRoundTrip(origin);
      }
      forall gk | gk in kinds ensures gk in ParseKinds(KindsText(kinds)) {
        KindSurvives(kinds, gk);
      }
    }
  }

  /** The text is the names of the kinds in order, with commas in between. */
  lemma KindsTextReads(kinds: set<GroupKind>)
    requires kinds != {} && forall gk :: gk in kinds ==> WellFormedKind(gk)
    ensures var parts := Split(KindsText(kinds), ',');
            && Sorted(parts)
            && forall n :: n in parts <==>
                 exists gk :: gk in kinds && n == if gk.group == "" then gk.kind else gk.kind + "." + gk.group
  {
    var names := Sort(Names(Enumeration(kinds)));
    SortedNames(kinds);
    SortSorts(Names(Enumeration(kinds)));
    var gk :| gk in kinds;
    assert KindName(gk) in names;
    SplitJoin(names, ',');
  }

  // The additional-namespaces annotation.

  ghost function NamespacesText(namespaces: set<string>, skip: string): string {
    Join(Sort(Enumeration(namespaces - {skip})), ',')
  }

  lemma NamespacesTextIgnoresOrder(order: seq<string>, namespaces: set<string>, skip: string)
    requires Enumerates(order, namespaces - {skip})
    ensures Join(Sort(order), ',') == NamespacesText(namespaces, skip)
  {
    var kept := namespaces - {skip};
    EnumerationIsSet(order, kept);
    EnumerationIsSet(Enumeration(kept), kept);
    SortIgnoresOrder(order, Enumeration(kept));
  }

  ghost function ParseNamespaces(text: string): set<string> {
    if text == "" then {} else set s | s in Split(text, ',')
  }

  lemma SortedNamespaces(kept: set<string>)
    ensures forall n :: n in Sort(Enumeration(kept)) <==> n in kept
  {
    var order := Enumeration(kept);
    SortSorts(order);
    SameElements(Sort(order), order);
  }

  lemma NamespaceSurvives(namespaces: set<string>, skip: string, ns: string)
    requires ns in namespaces && ns != skip && ValidNamespace(ns)
    ensures ns in ParseNamespaces(NamespacesText(namespaces, skip))
  {
    var names := Sort(Enumeration(namespaces - {skip}));
    SortedNamespaces(namespaces - {skip});
    PartSurvives(names, ns, ',');
    JoinIsEmpty(names, ',');
  }

  /** What is read back of any comma-free names: all of them, but the empty name alone reads as
      no name at all. */
  lemma NamespacesReread(namespaces: set<string>, skip: string)
    requires forall ns :: ns in namespaces - {skip} ==> ',' !in ns
    ensures ParseNamespaces(NamespacesText(namespaces, skip))
            == if namespaces - {skip} == {""} then {} else namespaces - {skip}
    ensures namespaces - {skip} == {""} ==> NamespacesText(namespaces, skip) == NamespacesText({}, skip)
  {
    var kept := namespaces - {skip};
    var names := Sort(Enumeration(kept));
    SortedNamespaces(kept);
    JoinIsEmpty(names, ',');
    if kept == {""} {
      OnlyTheEmptyName(names);
    } else if names != [] {
      SplitJoin(names, ',');
    }
    assert {} - {skip} == {};
    assert Sort(Enumeration<string>({})) == [];
  }

  lemma OnlyTheEmptyName(names: seq<string>)
    requires names == Sort(Enumeration({""}))
    ensures names == [""]
  {
    var order := Enumeration({""});
    EnumerationIsSet(order, {""});
    SortSorts(order);
    assert multiset(names) == multiset{""};
    assert |multiset(names)| == |names|;
    assert names[0] in multiset(names);
  }

  lemma NamespacesRoundTrip(namespaces: set<string>, skip: string)
    requires forall ns :: ns in namespaces - {skip} ==> ValidNamespace(ns)
    ensures ParseNamespaces(NamespacesText(namespaces, skip)) == namespaces - {skip}
  {
    NamespacesReread(namespaces, skip);
    assert "" !in namespaces - {skip};
  }

  lemma NamespacesTextReads(namespaces: set<string>, skip: string)
    requires namespaces - {skip} != {} && forall ns :: ns in namespaces - {skip} ==> ',' !in ns
    ensures var parts := Split(NamespacesText(namespaces, skip), ',');
            Sorted(parts) && forall n :: n in parts <==> n in namespaces && n != skip
  {
    var kept := namespaces - {skip};
    var names := Sort(Enumeration(kept));
    SortedNamespaces(kept);
    SortSorts(Enumeration(kept));
    var ns :| ns in kept;
    assert ns in names;
    SplitJoin(names, ',');
  }

  // The methods that write and read the text.

  method GenerateResourcesAnnotation(resources: set<GroupKind>) returns (text: string)
    ensures text == KindsText(resources)
  {
    var order := UnsortedList(resources);
    var gks: seq<string> := [];
    for i := 0 to |order|
      invariant gks == Names(order[..i])
    {
      gks := gks + [KindName(order[i])];
      assert Names(order[..i + 1]) == Names(order[..i]) + [KindName(order[i])];
    }
    assert order[..|order|] == order;
    KindsTextIgnoresOrder(order, resources);
    text := Join(Sort(gks), ',');
  }

  method GenerateNamespacesAnnotation(namespaces: set<string>, skip: string) returns (text: string)
    ensures text == NamespacesText(namespaces, skip)
  {
    var nsList := UnsortedList(namespaces - {skip});
    NamespacesTextIgnoresOrder(nsList, namespaces, skip);
    text := Join(Sort(nsList), ',');
  }

  /** `schema.ParseGroupResource`: the resource is what comes before the first dot. */
  function ParseGroupResource(s: string): GroupResource {
    var gk := ParseGroupKind(s);
    GroupResource(gk.group, gk.kind)
  }

  /** Every listed resource has a kind, and the kind a mapping. */
  predicate ResourcesResolve(text: string, kindFor: map<GroupResource, GroupKind>, resolves: set<GroupKind>) {
    forall s :: s in Split(text, ',') ==> ParseGroupResource(s) in kindFor && kindFor[ParseGroupResource(s)] in resolves
  }

  function ResourceKinds(text: string, kindFor: map<GroupResource, GroupKind>): set<GroupKind> {
    set s | s in Split(text, ',') && ParseGroupResource(s) in kindFor :: kindFor[ParseGroupResource(s)]
  }

  /** The deprecated group-resources annotation, which is not empty. */
  method ParseDeprecatedResourceAnnotation(text: string, kindFor: map<GroupResource, GroupKind>,
                                           resolves: set<GroupKind>)
    returns (mappings: Option<set<GroupKind>>)
    ensures mappings.Some? <==> ResourcesResolve(text, kindFor, resolves)
    ensures mappings.Some? ==> mappings.value == ResourceKinds(text, kindFor)
  {
    var parts := Split(text, ',');
    var found: set<GroupKind> := {};
    for i := 0 to |parts|
      invariant forall s :: s in parts[..i] ==>
                  ParseGroupResource(s) in kindFor && kindFor[ParseGroupResource(s)] in resolves
      invariant found == set s | s in parts[..i] && ParseGroupResource(s) in kindFor :: kindFor[ParseGroupResource(s)]
    {
      var gr := ParseGroupResource(parts[i]);
      assert parts[i] in parts && parts[..i + 1] == parts[..i] + [parts[i]];
      if gr !in kindFor || kindFor[gr] !in resolves {
        return None;
      }
      found := found + {kindFor[gr]};
    }
    assert parts[..|parts|] == parts;
    mappings := Some(found);
  }

  /** Fails on the first listed kind the mapper cannot resolve. Without the annotation the
      deprecated one is read, and without either it fails. */
  method ParseKindAnnotation(annotation: Option<string>, deprecated: string, kindFor: map<GroupResource, GroupKind>,
                             resolves: set<GroupKind>)
    returns (mappings: Option<set<GroupKind>>)
    ensures annotation.Some? ==> (mappings.Some? <==> ParseKinds(annotation.value) <= resolves)
    ensures annotation.Some? && mappings.Some? ==> mappings.value == ParseKinds(annotation.value)
    ensures annotation.None? ==>
              (mappings.Some? <==> deprecated != "" && ResourcesResolve(deprecated, kindFor, resolves))
    ensures annotation.None? && mappings.Some? ==> mappings.value == ResourceKinds(deprecated, kindFor)
  {
    if annotation.None? {
      if deprecated != "" {
        mappings := ParseDeprecatedResourceAnnotation(deprecated, kindFor, resolves);
        return;
      }
      return None;
    }
    var text := annotation.value;
    if text == "" {
      return Some({});
    }
    var parts := Split(text, ',');
    var found: set<GroupKind> := {};
    for i := 0 to |parts|
      invariant found == set s | s in parts[..i] :: ParseGroupKind(s)
      invariant found <= resolves
    {
      var gk := ParseGroupKind(parts[i]);
      if gk !in resolves {
        assert gk in ParseKinds(text);
        return None;
      }
      found := found + {gk};
      assert parts[..i + 1] == parts[..i] + [parts[i]];
    }
    assert parts[..|parts|] == parts;
    mappings := Some(found);
  }

  /** A missing or empty annotation lists no namespace, not the empty one. */
  method ParseNamespacesAnnotation(annotation: Option<string>) returns (namespaces: set<string>)
    ensures namespaces == ParseNamespaces(if annotation.Some? then annotation.value else "")
  {
    if annotation.None? || annotation.value == "" {
      return {};
    }
    var parts := Split(annotation.value, ',');
    namespaces := {};
    for i := 0 to |parts|
      invariant namespaces == set s | s in parts[..i]
    {
      namespaces := namespaces + {parts[i]};
      assert parts[..i + 1] == parts[..i] + [parts[i]];
    }
    assert parts[..|parts|] == parts;
  }
}
