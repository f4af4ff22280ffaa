/** The caching RESTMapper: what it answers, what it remembers and how often it asks. */
module Discovery {
  import opened Collections
  import opened Schema

  datatype Group = Group(name: string, preferred: string, versions: seq<string>)
  datatype ApiResource = ApiResource(name: string, namespaced: bool, kind: string)

  /** What discovery would say; a group-version missing here is answered "not found". */
  datatype Server = Server(groups: seq<Group>, resources: map<GroupVersion, seq<ApiResource>>)

  datatype CachedResource = CachedResource(resource: string, namespaced: bool, gvk: Gvk)
  type Resources = map<string, CachedResource>

  datatype Result<T> = Ok(value: T) | Err
  datatype Answer = Found(mappings: seq<CachedResource>) | NoMatch | Failed
  datatype KindAnswer = Kind(gvk: Gvk) | NoKind | ManyKinds | KindFailed

  // What an uncached lookup allows.

  function GroupsOf(groups: seq<Group>): map<string, Group> {
    if groups == [] then map[]
    else
      var last := groups[|groups| - 1];
      GroupsOf(groups[..|groups| - 1])[last.name := last]
  }

  /** Subresources are skipped; of two resources with one name the later counts. */
  function ResourcesOf(gv: GroupVersion, list: seq<ApiResource>): Resources {
    if list == [] then map[]
    else
      var last := list[|list| - 1];
      var front := ResourcesOf(gv, list[..|list| - 1]);
      if '/' in last.name then front
      else front[last.name := CachedResource(last.name, last.namespaced, WithKind(gv, last.kind))]
  }

  function Known(server: Server, gv: GroupVersion): Resources {
    if gv in server.resources then ResourcesOf(gv, server.resources[gv]) else map[]
  }

  predicate Absent(server: Server, gv: GroupVersion, kind: string) {
    forall n :: n in Known(server, gv) ==> Known(server, gv)[n].gvk.gk.kind != kind
  }

  predicate Maps(server: Server, gv: GroupVersion, kind: string, m: CachedResource) {
    m.resource in Known(server, gv) && Known(server, gv)[m.resource] == m && m.gvk == WithKind(gv, kind)
  }

  /** Those of the versions that have the kind. */
  function Present(server: Server, group: string, kind: string, versions: seq<string>): seq<string> {
    if versions == [] then []
    else
      var last := versions[|versions| - 1];
      Present(server, group, kind, versions[..|versions| - 1]) +
      if Absent(server, GroupVersion(group, last), kind) then [] else [last]
  }

  /** One mapping for each of the versions that has the kind, in the order of the versions. */
  predicate MapsEach(server: Server, group: string, kind: string, versions: seq<string>, ms: seq<CachedResource>) {
    var present := Present(server, group, kind, versions);
    |ms| == |present| && forall k :: 0 <= k < |ms| ==> Maps(server, GroupVersion(group, present[k]), kind, ms[k])
  }

  function Others(versions: seq<string>, preferred: string): seq<string> {
    if versions == [] then []
    else
      var last := versions[|versions| - 1];
      Others(versions[..|versions| - 1], preferred) + if last == preferred then [] else [last]
  }

  /** The versions searched when none is asked for. */
  function SearchOrder(g: Group): seq<string> {
    (if g.preferred != "" then [g.preferred] else []) + Others(g.versions, g.preferred)
  }

  /** The versions a lookup searches; nothing when the group is unknown. */
  function Searched(server: Server, group: string, versions: seq<string>): Option<seq<string>> {
    if versions != [] then Some(versions)
    else if group in GroupsOf(server.groups) then Some(SearchOrder(GroupsOf(server.groups)[group]))
    else None
  }

  /** The answers an uncached lookup could give. */
  predicate Allowed(server: Server, group: string, kind: string, versions: seq<string>, a: Answer) {
    var searched := Searched(server, group, versions);
    match a
    case Found(ms) => ms != [] && searched.Some? && MapsEach(server, group, kind, searched.value, ms)
    case NoMatch => searched.None? || MapsEach(server, group, kind, searched.value, [])
    case Failed => false
  }

  // What that comes to.

  lemma {:induction false} PresentConcat(server: Server, group: string, kind: string, a: seq<string>, b: seq<string>)
    ensures Present(server, group, kind, a + b) == Present(server, group, kind, a) + Present(server, group, kind, b)
    decreases |b|
  {
    if b == [] {
      assert a + b == a;
    } else {
      assert (a + b)[..|a + b| - 1] == a + b[..|b| - 1];
      PresentConcat(server, group, kind, a, b[..|b| - 1]);
    }
  }

  lemma {:induction false} PresentIsFiltered(server: Server, group: string, kind: string, versions: seq<string>,
                                             keep: set<string>)
    requires forall v :: v in versions ==> (v in keep <==> !Absent(server, GroupVersion(group, v), kind))
    ensures Present(server, group, kind, versions) == Filtered(versions, keep)
  {
    if versions != [] {
      PresentIsFiltered(server, group, kind, versions[..|versions| - 1], keep);
    }
  }

  lemma {:induction false} OthersIsFiltered(versions: seq<string>, preferred: string, keep: set<string>)
    requires forall v :: v in versions ==> (v in keep <==> v != preferred)
    ensures Others(versions, preferred) == Filtered(versions, keep)
    ensures forall v :: v in Others(versions, preferred) <==> v in versions && v != preferred
  {
    if versions != [] {
      OthersIsFiltered(versions[..|versions| - 1], preferred, keep);
      assert versions == versions[..|versions| - 1] + [versions[|versions| - 1]];
    }
  }

  function Having(server: Server, group: string, kind: string, versions: seq<string>): set<string> {
    set v | v in versions && !Absent(server, GroupVersion(group, v), kind)
  }

  /** Those that have the kind, in the order given. */
  lemma PresentInOrder(server: Server, group: string, kind: string, versions: seq<string>) returns (idx: seq<nat>)
    ensures Ascends(idx, set i | 0 <= i < |versions| && versions[i] in Having(server, group, kind, versions))
    ensures forall i :: i in idx ==> i < |versions|
    ensures Present(server, group, kind, versions) == Chosen(versions, idx)
  {
    PresentIsFiltered(server, group, kind, versions, Having(server, group, kind, versions));
    idx := FilteredInOrder(versions, Having(server, group, kind, versions));
  }

  /** Those besides the preferred one that have the kind, in the server's order. */
  lemma OthersInOrder(server: Server, group: string, kind: string, versions: seq<string>, preferred: string)
    returns (idx: seq<nat>)
    ensures Ascends(idx, set i | 0 <= i < |versions| && versions[i] != preferred
                                 && versions[i] in Having(server, group, kind, versions))
    ensures forall i :: i in idx ==> i < |versions|
    ensures Present(server, group, kind, Others(versions, preferred)) == Chosen(versions, idx)
  {
    var others := set v | v in versions && v != preferred;
    var having := Having(server, group, kind, versions);
    OthersIsFiltered(versions, preferred, others);
    PresentIsFiltered(server, group, kind, Others(versions, preferred), having);
    FilteredTwice(versions, others, having);
    idx := FilteredInOrder(versions, others * having);
    assert (set i | 0 <= i < |versions| && versions[i] in others * having)
        == (set i | 0 <= i < |versions| && versions[i] != preferred && versions[i] in having);
  }

  lemma SearchOrderPresent(server: Server, group: string, kind: string, g: Group)
    ensures Present(server, group, kind, SearchOrder(g))
            == (if g.preferred != "" && !Absent(server, GroupVersion(group, g.preferred), kind)
                then [g.preferred] else [])
               + Present(server, group, kind, Others(g.versions, g.preferred))
  {
    var first := if g.preferred != "" then [g.preferred] else [];
    PresentConcat(server, group, kind, first, Others(g.versions, g.preferred));
    if g.preferred != "" {
      PresentConcat(server, group, kind, [], first);
    }
  }

  /** With no version asked for, the preferred version is answered first if it has the kind,
      and then the others that have it, in the server's order. */
  lemma PreferredFirstThenServerOrder(server: Server, group: string, kind: string, ms: seq<CachedResource>)
    returns (idx: seq<nat>)
    requires Allowed(server, group, kind, [], Found(ms))
    ensures group in GroupsOf(server.groups)
    ensures var g := GroupsOf(server.groups)[group];
            && Ascends(idx, set i | 0 <= i < |g.versions| && g.versions[i] != g.preferred
                                    && g.versions[i] in Having(server, group, kind, g.versions))
            && (forall i :: i in idx ==> i < |g.versions|)
            && VersionsOf(ms)
               == (if g.preferred != "" && !Absent(server, GroupVersion(group, g.preferred), kind)
                   then [g.preferred] else [])
                  + Chosen(g.versions, idx)
  {
    var g := GroupsOf(server.groups)[group];
    SearchOrderPresent(server, group, kind, g);
    idx := OthersInOrder(server, group, kind, g.versions, g.preferred);
    VersionsArePresent(server, group, kind, SearchOrder(g), ms);
  }

  /** With versions asked for, those of them that have the kind are answered, in that order. */
  lemma AskedVersionsInOrder(server: Server, group: string, kind: string, versions: seq<string>,
                             ms: seq<CachedResource>)
    returns (idx: seq<nat>)
    requires versions != [] && Allowed(server, group, kind, versions, Found(ms))
    ensures Ascends(idx, set i | 0 <= i < |versions| && versions[i] in Having(server, group, kind, versions))
    ensures (forall i :: i in idx ==> i < |versions|) && VersionsOf(ms) == Chosen(versions, idx)
  {
    idx := PresentInOrder(server, group, kind, versions);
    VersionsArePresent(server, group, kind, versions, ms);
  }

  /** There is no match exactly if the group is not known or none of its versions has the kind;
      of the versions asked for, if there are any. */
  lemma NoMatchExactly(server: Server, group: string, kind: string, versions: seq<string>)
    ensures Allowed(server, group, kind, versions, NoMatch) <==>
            if versions != [] then
              forall v :: v in versions ==> Absent(server, GroupVersion(group, v), kind)
            else group in GroupsOf(server.groups) ==>
              var g := GroupsOf(server.groups)[group];
              && (g.preferred != "" ==> Absent(server, GroupVersion(group, g.preferred), kind))
              && forall v :: v in g.versions && v != g.preferred ==> Absent(server, GroupVersion(group, v), kind)
  {
    if versions != [] {
      NonePresent(server, group, kind, versions);
    } else if group in GroupsOf(server.groups) {
      var g := GroupsOf(server.groups)[group];
      SearchOrderPresent(server, group, kind, g);
      NoOtherPresent(server, group, kind, g.versions, g.preferred);
    }
  }

  lemma NonePresent(server: Server, group: string, kind: string, versions: seq<string>)
    ensures Present(server, group, kind, versions) == [] <==>
            forall v :: v in versions ==> Absent(server, GroupVersion(group, v), kind)
  {
    var idx := PresentInOrder(server, group, kind, versions);
    NoneAscends(idx, versions, Having(server, group, kind, versions));
  }

  lemma NoOtherPresent(server: Server, group: string, kind: string, versions: seq<string>, preferred: string)
    ensures Present(server, group, kind, Others(versions, preferred)) == [] <==>
            forall v :: v in versions && v != preferred ==> Absent(server, GroupVersion(group, v), kind)
  {
    var others := set v | v in versions && v != preferred;
    OthersIsFiltered(versions, preferred, others);
    NonePresent(server, group, kind, Others(versions, preferred));
  }

  lemma NoneAscends(idx: seq<nat>, items: seq<string>, keep: set<string>)
    requires Ascends(idx, set i | 0 <= i < |items| && items[i] in keep)
    ensures idx == [] <==> forall v :: v in items ==> v !in keep
  {
    if idx == [] {
      forall i | 0 <= i < |items| ensures items[i] !in keep {
        assert i !in idx;
      }
    } else {
      assert idx[0] in idx && items[idx[0]] in keep;
    }
  }

  function VersionsOf(ms: seq<CachedResource>): seq<string> {
    seq(|ms|, k requires 0 <= k < |ms| => ms[k].gvk.version)
  }

  lemma VersionsArePresent(server: Server, group: string, kind: string, versions: seq<string>, ms: seq<CachedResource>)
    requires MapsEach(server, group, kind, versions, ms)
    ensures VersionsOf(ms) == Present(server, group, kind, versions)
  {
    var present := Present(server, group, kind, versions);
    forall k | 0 <= k < |ms| ensures ms[k].gvk.version == present[k] {
      assert Maps(server, GroupVersion(group, present[k]), kind, ms[k]);
    }
  }

  // Kinds of a resource.

  function Matching(server: Server, gv: GroupVersion, resource: string): set<string> {
    set n | n in Known(server, gv) && (resource == "" || n == resource)
  }

  /** Which entries of which searched versions match. */
  function Pairs(server: Server, gvs: seq<GroupVersion>, resource: string): set<(nat, string)> {
    set i: nat, n | 0 <= i < |gvs| && n in Matching(server, gvs[i], resource) :: (i, n)
  }

  function KindAt(server: Server, gvs: seq<GroupVersion>, p: (nat, string)): Gvk
    requires p.0 < |gvs| && p.1 in Known(server, gvs[p.0])
  {
    Known(server, gvs[p.0])[p.1].gvk
  }

  function AllVersions(server: Server, group: string, version: string): seq<GroupVersion> {
    if version != "" then [GroupVersion(group, version)]
    else if group in GroupsOf(server.groups) then
      var versions := GroupsOf(server.groups)[group].versions;
      seq(|versions|, i requires 0 <= i < |versions| => GroupVersion(group, versions[i]))
    else []
  }

  /** `kinds` lists every match once, version by version. */
  ghost predicate ListsKinds(server: Server, gvs: seq<GroupVersion>, resource: string, order: seq<(nat, string)>,
                             kinds: seq<Gvk>) {
    && Enumerates(order, Pairs(server, gvs, resource)) && |kinds| == |order|
    && (forall a, b :: 0 <= a < b < |order| ==> order[a].0 <= order[b].0)
    && forall a :: 0 <= a < |order| ==>
         order[a].0 < |gvs| && order[a].1 in Known(server, gvs[order[a].0]) && kinds[a] == KindAt(server, gvs, order[a])
  }

  ghost predicate ListsVersion(server: Server, gv: GroupVersion, resource: string, names: seq<string>,
                               kinds: seq<Gvk>) {
    && Enumerates(names, Matching(server, gv, resource)) && |kinds| == |names|
    && forall a :: 0 <= a < |names| ==> names[a] in Known(server, gv) && kinds[a] == Known(server, gv)[names[a]].gvk
  }

  ghost function Tagged(i: nat, names: seq<string>): seq<(nat, string)> {
    seq(|names|, a requires 0 <= a < |names| => (i, names[a]))
  }

  lemma OneMoreVersion(server: Server, gvs: seq<GroupVersion>, gv: GroupVersion, resource: string, p: (nat, string))
    ensures p in Pairs(server, gvs + [gv], resource) <==>
            p in Pairs(server, gvs, resource) || (p.0 == |gvs| && p.1 in Matching(server, gv, resource))
  {
    if p.0 < |gvs| {
      assert (gvs + [gv])[p.0] == gvs[p.0];
    }
  }

  lemma ListsMore(server: Server, gvs: seq<GroupVersion>, gv: GroupVersion, resource: string,
                  order: seq<(nat, string)>, kinds: seq<Gvk>, names: seq<string>, more: seq<Gvk>)
    requires ListsKinds(server, gvs, resource, order, kinds) && ListsVersion(server, gv, resource, names, more)
    ensures ListsKinds(server, gvs + [gv], resource, order + Tagged(|gvs|, names), kinds + more)
  {
    var tagged := Tagged(|gvs|, names);
    forall p ensures p in order + tagged <==> p in Pairs(server, gvs + [gv], resource) {
      OneMoreVersion(server, gvs, gv, resource, p);
      if p.0 == |gvs| && p.1 in names {
        var a :| 0 <= a < |names| && names[a] == p.1;
        assert tagged[a] == p;
      }
    }
  }

  ghost predicate Holds(cached: map<GroupVersion, Option<Resources>>, gv: GroupVersion) {
    gv in cached && cached[gv].Some?
  }

  /** Only a successful answer is kept, it is the server's, and it was fetched once. */
  ghost predicate Sound(server: Server, cached: map<GroupVersion, Option<Resources>>, fetched: multiset<GroupVersion>,
                        gv: GroupVersion) {
    && (Holds(cached, gv) ==> gv in server.resources && cached[gv].value == ResourcesOf(gv, server.resources[gv]))
    && fetched[gv] == if Holds(cached, gv) then 1 else 0
  }

  lemma FetchStaysSound(server: Server, cached: map<GroupVersion, Option<Resources>>, fetched: multiset<GroupVersion>,
                        gv: GroupVersion)
    requires gv in server.resources && !Holds(cached, gv)
    requires forall other :: Sound(server, cached, fetched, other)
    ensures var after := cached[gv := Some(ResourcesOf(gv, server.resources[gv]))];
            forall other :: Sound(server, after, fetched + multiset{gv}, other)
  {
    var after := cached[gv := Some(ResourcesOf(gv, server.resources[gv]))];
    forall other ensures Sound(server, after, fetched + multiset{gv}, other) {
      assert Sound(server, cached, fetched, other);
    }
  }

  lemma MapsOneMore(server: Server, group: string, kind: string, before: seq<string>, ms: seq<CachedResource>,
                    v: string, m: Option<CachedResource>)
    requires MapsEach(server, group, kind, before, ms)
    requires m.None? ==> Absent(server, GroupVersion(group, v), kind)
    requires m.Some? ==> Maps(server, GroupVersion(group, v), kind, m.value)
    ensures MapsEach(server, group, kind, before + [v], if m.Some? then ms + [m.value] else ms)
  {
    assert (before + [v])[..|before|] == before;
    if m.Some? {
      assert !Absent(server, GroupVersion(group, v), kind);
    }
  }

  /** The cache, with the discovery client it asks: the `n`-th request fails if `fails(n)`. */
  class Cache {
    const server: Server
    const fails: nat -> bool
    var requests: nat
    var cachedAllGroups: Option<map<string, Group>>
    var cachedGroupVersions: map<GroupVersion, Option<Resources>>
    ghost var fetched: multiset<GroupVersion>
    ghost var groupsFetched: nat

    /** Only successful answers are kept, they are the server's, and each was fetched once. With
        no method letting the counts fall, nothing is fetched successfully twice. */
    ghost predicate Valid()
      reads this
    {
      && (cachedAllGroups.Some? ==> cachedAllGroups.value == GroupsOf(server.groups))
      && groupsFetched == (if cachedAllGroups.Some? then 1 else 0)
      && (forall gv :: Sound(server, cachedGroupVersions, fetched, gv))
    }

    /** Of the requests from `from` on, the last failed if `failed`, and no other. */
    ghost predicate Fared(from: nat, failed: bool)
      reads this
    {
      && from <= requests
      && (failed ==> from < requests && fails(requests - 1))
      && forall n :: from <= n < (if failed then requests - 1 else requests) ==> !fails(n)
    }

    constructor (server: Server, fails: nat -> bool)
      ensures Valid() && this.server == server && this.fails == fails && requests == 0
    {
      this.server, this.fails, requests := server, fails, 0;
      cachedAllGroups, cachedGroupVersions := None, map[];
      fetched, groupsFetched := multiset{}, 0;
    }

    method FetchAllGroups() returns (r: Result<map<string, Group>>)
      requires Valid()
      modifies this
      ensures Valid() && Fared(old(requests), r.Err?)
      ensures old(fetched) <= fetched && old(groupsFetched) <= groupsFetched
      ensures r.Ok? ==> r.value == GroupsOf(server.groups) && cachedAllGroups.Some?
      ensures old(cachedAllGroups).Some? ==> r.Ok? && groupsFetched == old(groupsFetched)
      ensures requests == old(requests) + if old(cachedAllGroups).Some? then 0 else 1
      ensures fetched == old(fetched) && cachedGroupVersions == old(cachedGroupVersions)
    {
      if cachedAllGroups.None? {
        requests := requests + 1;
        if fails(requests - 1) {
          return Err;
        }
        groupsFetched := groupsFetched + 1;
        var groups := map[];
        for i := 0 to |server.groups|
          invariant groups == GroupsOf(server.groups[..i])
        {
          assert server.groups[..i + 1][..i] == server.groups[..i];
          groups := groups[server.groups[i].name := server.groups[i]];
        }
        assert server.groups[..|server.groups|] == server.groups;
        cachedAllGroups := Some(groups);
      }
      r := Ok(cachedAllGroups.value);
    }

    /** Makes an empty entry if there is none. */
    method CacheForGroupVersion(gv: GroupVersion)
      requires Valid()
      modifies this`cachedGroupVersions
      ensures Valid() && gv in cachedGroupVersions
      ensures forall other :: Holds(cachedGroupVersions, other) <==> old(Holds(cachedGroupVersions, other))
    {
      if gv !in cachedGroupVersions {
        ghost var before := cachedGroupVersions;
        cachedGroupVersions := cachedGroupVersions[gv := None];
        forall other ensures Sound(server, cachedGroupVersions, fetched, other) {
          assert Sound(server, before, fetched, other);
        }
      }
    }

    /** Not found is answered with no resources, and is not remembered. */
    method FetchServerResources(gv: GroupVersion) returns (r: Result<Resources>)
      requires Valid()
      modifies this
      ensures Valid() && Fared(old(requests), r.Err?)
      ensures old(fetched) <= fetched && old(groupsFetched) <= groupsFetched
      ensures r.Ok? ==> r.value == Known(server, gv)
      ensures old(Holds(cachedGroupVersions, gv)) ==> r.Ok?
      ensures requests == old(requests) + if old(Holds(cachedGroupVersions, gv)) then 0 else 1
      ensures Holds(cachedGroupVersions, gv) <==> r.Ok? && gv in server.resources
      ensures fetched == old(fetched) + if Holds(cachedGroupVersions, gv) && !old(Holds(cachedGroupVersions, gv))
                                        then multiset{gv} else multiset{}
      ensures groupsFetched == old(groupsFetched) && cachedAllGroups == old(cachedAllGroups)
    {
      CacheForGroupVersion(gv);
      assert Sound(server, cachedGroupVersions, fetched, gv);
      if cachedGroupVersions[gv].Some? {
        return Ok(cachedGroupVersions[gv].value);
      }
      requests := requests + 1;
      if fails(requests - 1) {
        return Err;
      }
      if gv !in server.resources {
        return Ok(map[]);
      }
      var resources := Collect(gv, server.resources[gv]);
      FetchStaysSound(server, cachedGroupVersions, fetched, gv);
      cachedGroupVersions := cachedGroupVersions[gv := Some(resources)];
      fetched := fetched + multiset{gv};
      r := Ok(resources);
    }

    method Collect(gv: GroupVersion, list: seq<ApiResource>) returns (result: Resources)
      ensures result == ResourcesOf(gv, list)
    {
      result := map[];
      for i := 0 to |list|
        invariant result == ResourcesOf(gv, list[..i])
      {
        assert list[..i + 1][..i] == list[..i];
        if '/' !in list[i].name {
          var gvk := WithKind(gv, list[i].kind);
          result := result[list[i].name := CachedResource(list[i].name, list[i].namespaced, gvk)];
        }
      }
      assert list[..|list|] == list;
    }

    /** Looks through the resources in the order Go ranges over them. */
    method FindRESTMapping(gv: GroupVersion, kind: string) returns (r: Result<Option<CachedResource>>)
      requires Valid()
      modifies this
      ensures Valid() && Fared(old(requests), r.Err?)
      ensures old(fetched) <= fetched && old(groupsFetched) <= groupsFetched
      ensures r.Ok? && r.value.None? ==> Absent(server, gv, kind)
      ensures r.Ok? && r.value.Some? ==> Maps(server, gv, kind, r.value.value)
    {
      var resources := FetchServerResources(gv);
      if resources.Err? {
        return Err;
      }
      KnownIsFiled(server, gv);
      var rest := resources.value.Keys;
      while rest != {}
        invariant rest <= resources.value.Keys
        invariant forall n :: n in resources.value && n !in rest ==> resources.value[n].gvk.gk.kind != kind
        decreases rest
      {
        var n :| n in rest;
        if resources.value[n].gvk.gk.kind == kind {
          return Ok(Some(resources.value[n]));
        }
        rest := rest - {n};
      }
      r := Ok(None);
    }

    /** Appends what one version has. */
    method AddMapping(group: string, kind: string, version: string, ghost before: seq<string>,
                      found: seq<CachedResource>)
      returns (r: Result<seq<CachedResource>>)
      requires Valid() && MapsEach(server, group, kind, before, found)
      modifies this
      ensures Valid() && Fared(old(requests), r.Err?)
      ensures old(fetched) <= fetched && old(groupsFetched) <= groupsFetched
      ensures r.Ok? ==> MapsEach(server, group, kind, before + [version], r.value)
    {
      var m := FindRESTMapping(GroupVersion(group, version), kind);
      if m.Err? {
        return Err;
      }
      MapsOneMore(server, group, kind, before, found, version, m.value);
      r := Ok(if m.value.Some? then found + [m.value.value] else found);
    }

    /** Appends what the versions have. */
    method AddMappings(group: string, kind: string, versions: seq<string>, ghost before: seq<string>,
                       found: seq<CachedResource>)
      returns (r: Result<seq<CachedResource>>)
      requires Valid() && MapsEach(server, group, kind, before, found)
      modifies this
      ensures Valid() && Fared(old(requests), r.Err?)
      ensures old(fetched) <= fetched && old(groupsFetched) <= groupsFetched
      ensures r.Ok? ==> MapsEach(server, group, kind, before + versions, r.value)
    {
      var mappings := found;
      assert before + versions[..0] == before;
      for i := 0 to |versions|
        invariant Valid() && Fared(old(requests), false)
        invariant old(fetched) <= fetched && old(groupsFetched) <= groupsFetched
        invariant MapsEach(server, group, kind, before + versions[..i], mappings)
      {
        var more := AddMapping(group, kind, versions[i], before + versions[..i], mappings);
        if more.Err? {
          return Err;
        }
        assert before + versions[..i] + [versions[i]] == before + versions[..i + 1];
        mappings := more.value;
      }
      assert versions[..|versions|] == versions;
      r := Ok(mappings);
    }

    method NotPreferred(versions: seq<string>, preferred: string) returns (others: seq<string>)
      ensures others == Others(versions, preferred)
    {
      others := [];
      for i := 0 to |versions|
        invariant others == Others(versions[..i], preferred)
      {
        assert versions[..i + 1][..i] == versions[..i];
        if versions[i] != preferred {
          others := others + [versions[i]];
        }
      }
      assert versions[..|versions|] == versions;
    }

    /** Transparent: an answer the uncached lookup allows, or the error of a discovery call. */
    method RESTMappings(group: string, kind: string, versions: seq<string>) returns (a: Answer)
      requires Valid()
      modifies this
      ensures Valid() && Fared(old(requests), a.Failed?)
      ensures old(fetched) <= fetched && old(groupsFetched) <= groupsFetched
      ensures !a.Failed? ==> Allowed(server, group, kind, versions, a)
    {
      var mappings: Result<seq<CachedResource>>;
      if versions == [] {
        var groups := FetchAllGroups();
        if groups.Err? {
          return Failed;
        }
        if group !in groups.value {
          return NoMatch;
        }
        var g := groups.value[group];
        var first := if g.preferred != "" then [g.preferred] else [];
        mappings := AddMappings(group, kind, first, [], []);
        if mappings.Err? {
          return Failed;
        }
        var others := NotPreferred(g.versions, g.preferred);
        assert [] + first == first;
        mappings := AddMappings(group, kind, others, first, mappings.value);
      } else {
        mappings := AddMappings(group, kind, versions, [], []);
        assert [] + versions == versions;
      }
      if mappings.Err? {
        return Failed;
      }
      a := if mappings.value == [] then NoMatch else Found(mappings.value);
    }

    method RESTMapping(group: string, kind: string, versions: seq<string>) returns (a: Answer)
      requires Valid()
      modifies this
      ensures Valid() && Fared(old(requests), a.Failed?)
      ensures old(fetched) <= fetched && old(groupsFetched) <= groupsFetched
      ensures a.NoMatch? ==> Allowed(server, group, kind, versions, NoMatch)
      ensures a.Found? ==>
                && |a.mappings| == 1 && Searched(server, group, versions).Some?
                && var present := Present(server, group, kind, Searched(server, group, versions).value);
                   present != [] && Maps(server, GroupVersion(group, present[0]), kind, a.mappings[0])
    {
      a := RESTMappings(group, kind, versions);
      if a.Found? {
        a := Found([a.mappings[0]]);
      }
    }

    /** The kinds of one group-version, in the order Go ranges over its resources. */
    method KindsForVersion(gv: GroupVersion, resource: string) returns (r: Result<seq<Gvk>>, ghost names: seq<string>)
      requires Valid()
      modifies this
      ensures Valid() && Fared(old(requests), r.Err?)
      ensures old(fetched) <= fetched && old(groupsFetched) <= groupsFetched
      ensures r.Ok? ==> ListsVersion(server, gv, resource, names, r.value)
    {
      names := [];
      var resources := FetchServerResources(gv);
      if resources.Err? {
        r := Err;
        return;
      }
      var kinds := [];
      var rest := resources.value.Keys;
      while rest != {}
        invariant rest <= resources.value.Keys
        invariant Enumerates(names, Matching(server, gv, resource) - rest) && |kinds| == |names|
        invariant forall a :: 0 <= a < |names| ==>
                    names[a] in resources.value && kinds[a] == resources.value[names[a]].gvk
        decreases rest
      {
        var n :| n in rest;
        if resource == "" || n == resource {
          kinds := kinds + [resources.value[n].gvk];
          names := names + [n];
        }
        rest := rest - {n};
      }
      assert Matching(server, gv, resource) - rest == Matching(server, gv, resource);
      r := Ok(kinds);
    }

    method VersionsToSearch(group: string, version: string) returns (r: Result<seq<GroupVersion>>)
      requires Valid()
      modifies this
      ensures Valid() && Fared(old(requests), r.Err?)
      ensures old(fetched) <= fetched && old(groupsFetched) <= groupsFetched
      ensures r.Ok? ==> r.value == AllVersions(server, group, version)
    {
      if version != "" {
        return Ok([GroupVersion(group, version)]);
      }
      var groups := FetchAllGroups();
      if groups.Err? {
        return Err;
      }
      if group !in groups.value {
        return Ok([]);
      }
      var versions := groups.value[group].versions;
      r := Ok(seq(|versions|, i requires 0 <= i < |versions| => GroupVersion(group, versions[i])));
    }

    method KindsFor(group: string, version: string, resource: string)
      returns (r: Result<seq<Gvk>>, ghost order: seq<(nat, string)>)
      requires Valid()
      modifies this
      ensures Valid() && Fared(old(requests), r.Err?)
      ensures old(fetched) <= fetched && old(groupsFetched) <= groupsFetched
      ensures r.Ok? ==> ListsKinds(server, AllVersions(server, group, version), resource, order, r.value)
    {
      order := [];
      var searched := VersionsToSearch(group, version);
      if searched.Err? {
        r := Err;
        return;
      }
      var gvs := searched.value;
      var matches := [];
      for i := 0 to |gvs|
        invariant Valid() && Fared(old(requests), false)
        invariant old(fetched) <= fetched && old(groupsFetched) <= groupsFetched
        invariant ListsKinds(server, gvs[..i], resource, order, matches)
      {
        ghost var names;
        var all;
        all, names := KindsForVersion(gvs[i], resource);
        if all.Err? {
          r := Err;
          return;
        }
        assert gvs[..i] + [gvs[i]] == gvs[..i + 1];
        ListsMore(server, gvs[..i], gvs[i], resource, order, matches, names, all.value);
        order := order + Tagged(i, names);
        matches := matches + all.value;
      }
      assert gvs[..|gvs|] == gvs;
      r := Ok(matches);
    }

    /** The single match, or an error saying there is none or more than one. */
    method KindFor(group: string, version: string, resource: string) returns (a: KindAnswer)
      requires Valid()
      modifies this
      ensures Valid() && Fared(old(requests), a.KindFailed?)
      ensures old(fetched) <= fetched && old(groupsFetched) <= groupsFetched
      ensures var gvs := AllVersions(server, group, version);
              var pairs := Pairs(server, gvs, resource);
              && (a.NoKind? ==> pairs == {})
              && (a.ManyKinds? ==> |pairs| > 1)
              && (a.Kind? ==> |pairs| == 1 && forall p :: p in pairs ==> KindAt(server, gvs, p) == a.gvk)
    {
      ghost var order;
      var kinds;
      kinds, order := KindsFor(group, version, resource);
      if kinds.Err? {
        return KindFailed;
      }
      ghost var pairs := Pairs(server, AllVersions(server, group, version), resource);
      EnumerationIsSet(order, pairs);
      assert |multiset(order)| == |order| && |multiset(pairs)| == |pairs|;
      if |kinds.value| == 0 {
        return NoKind;
      }
      if |kinds.value| > 1 {
        return ManyKinds;
      }
      a := Kind(kinds.value[0]);
    }
  }

  /** Entries are filed under their own name and group-version. */
  lemma {:induction false} ResourcesAreFiled(gv: GroupVersion, list: seq<ApiResource>)
    ensures forall n :: n in ResourcesOf(gv, list) ==>
              var r := ResourcesOf(gv, list)[n];
              r.resource == n && r.gvk == WithKind(gv, r.gvk.gk.kind) && '/' !in n
  {
    if list != [] {
      ResourcesAreFiled(gv, list[..|list| - 1]);
    }
  }

  /** Exactly the resources that are no subresources are there. */
  lemma {:induction false} ResourcesExactly(gv: GroupVersion, list: seq<ApiResource>, n: string)
    ensures n in ResourcesOf(gv, list) <==> '/' !in n && exists i :: 0 <= i < |list| && list[i].name == n
  {
    if list != [] {
      var front := list[..|list| - 1];
      ResourcesExactly(gv, front, n);
      assert forall i :: 0 <= i < |front| ==> front[i] == list[i];
    }
  }

  /** Each is kept as the last entry of its name describes it. */
  lemma {:induction false} LastResourceCounts(gv: GroupVersion, list: seq<ApiResource>, i: nat)
    requires i < |list| && '/' !in list[i].name && forall j :: i < j < |list| ==> list[j].name != list[i].name
    ensures list[i].name in ResourcesOf(gv, list)
    ensures ResourcesOf(gv, list)[list[i].name] ==
            CachedResource(list[i].name, list[i].namespaced, Gvk(GroupKind(gv.group, list[i].kind), gv.version))
    decreases |list|
  {
    if i < |list| - 1 {
      LastResourceCounts(gv, list[..|list| - 1], i);
    }
  }

  /** A group is known by its name, as the last entry of that name describes it. */
  lemma {:induction false} GroupsExactly(groups: seq<Group>, name: string)
    ensures name in GroupsOf(groups) <==> exists i :: 0 <= i < |groups| && groups[i].name == name
  {
    if groups != [] {
      var front := groups[..|groups| - 1];
      GroupsExactly(front, name);
      assert forall i :: 0 <= i < |front| ==> front[i] == groups[i];
    }
  }

  lemma {:induction false} LastGroupCounts(groups: seq<Group>, i: nat)
    requires i < |groups| && forall j :: i < j < |groups| ==> groups[j].name != groups[i].name
    ensures groups[i].name in GroupsOf(groups) && GroupsOf(groups)[groups[i].name] == groups[i]
    decreases |groups|
  {
    if i < |groups| - 1 {
      LastGroupCounts(groups[..|groups| - 1], i);
    }
  }

  /** The kinds listed are those of the matching resources of the version asked for, or of every
      version the server has of the group. */
  lemma KindsAreTheMatches(server: Server, group: string, version: string, resource: string,
                           order: seq<(nat, string)>, kinds: seq<Gvk>, gvk: Gvk)
    requires ListsKinds(server, AllVersions(server, group, version), resource, order, kinds)
    ensures gvk in kinds <==>
            exists v, n :: HasMatch(server, group, version, resource, v, n)
                           && Known(server, GroupVersion(group, v))[n].gvk == gvk
  {
    var gvs := AllVersions(server, group, version);
    if gvk in kinds {
      var a :| 0 <= a < |kinds| && kinds[a] == gvk;
      var p := order[a];
      assert p in order && p in Pairs(server, gvs, resource);
      assert HasMatch(server, group, version, resource, gvs[p.0].version, p.1);
    }
    if v, n :| HasMatch(server, group, version, resource, v, n) && Known(server, GroupVersion(group, v))[n].gvk == gvk {
      var versions := if version != "" then [version] else GroupsOf(server.groups)[group].versions;
      var i: nat :| i < |versions| && versions[i] == v;
      assert gvs[i] == GroupVersion(group, v);
      assert (i, n) in Pairs(server, gvs, resource);
      assert (i, n) in order;
      var a :| 0 <= a < |order| && order[a] == (i, n);
      assert kinds[a] == gvk;
    }
  }

  /** The resource `n` of version `v` is one that is asked for. */
  predicate HasMatch(server: Server, group: string, version: string, resource: string, v: string, n: string) {
    && (if version != "" then v == version
        else group in GroupsOf(server.groups) && v in GroupsOf(server.groups)[group].versions)
    && n in Known(server, GroupVersion(group, v)) && (resource == "" || n == resource)
  }

  lemma KnownIsFiled(server: Server, gv: GroupVersion)
    ensures forall n :: n in Known(server, gv) ==>
              var r := Known(server, gv)[n];
              r.resource == n && r.gvk == WithKind(gv, r.gvk.gk.kind) && '/' !in n
  {
    if gv in server.resources {
      ResourcesAreFiled(gv, server.resources[gv]);
    }
  }
}
