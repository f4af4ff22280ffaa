/** A manifest object: a tree of Go maps that are shared by reference and written in place, with
    its JSON kept until the next mutation. */
module Manifest {
  import opened Collections

  /** `Dir` is a `map[string]interface{}`, by address; `Leaf` anything else. */
  datatype Val = Leaf(text: string) | Dir(addr: nat)
  type Heap = map<nat, map<string, Val>>

  datatype Reading = Found(v: Val) | Missing | Blocked

  predicate Closed(h: Heap, next: nat) {
    && (forall a :: a in h ==> a < next)
    && forall a, f :: a in h && f in h[a] && h[a][f].Dir? ==> h[a][f].addr in h
  }

  /** What `nestedFieldNoCopy` finds: `Blocked` is its error, a step through something that is
      not a map. */
  function ReadPath(h: Heap, v: Val, path: seq<string>): Reading
    decreases |path|
  {
    if path == [] then Found(v)
    else if v.Leaf? then Blocked
    else if v.addr !in h || path[0] !in h[v.addr] then Missing
    else ReadPath(h, h[v.addr][path[0]], path[1..])
  }

  /** No field on the way is anything but a map. */
  predicate Settable(h: Heap, a: nat, path: seq<string>)
    requires path != []
    decreases |path|
  {
    || a !in h || |path| == 1 || path[0] !in h[a]
    || (h[a][path[0]].Dir? && Settable(h, h[a][path[0]].addr, path[1..]))
  }

  ghost predicate LeafAt(h: Heap, v: Val, path: seq<string>) {
    ReadPath(h, v, path).Found? && ReadPath(h, v, path).v.Leaf?
  }

  ghost predicate NothingAt(h: Heap, v: Val, path: seq<string>, f: string) {
    var r := ReadPath(h, v, path);
    r.Found? && r.v.Dir? && (r.v.addr !in h || f !in h[r.v.addr])
  }

  /** Reading stops with an error exactly at something that is not a map, and finds nothing
      exactly where a map lacks the next field. */
  lemma {:induction false} ReadExactly(h: Heap, v: Val, path: seq<string>)
    ensures ReadPath(h, v, path) == Blocked <==> exists n :: 0 <= n < |path| && LeafAt(h, v, path[..n])
    ensures ReadPath(h, v, path) == Missing <==> exists n :: 0 <= n < |path| && NothingAt(h, v, path[..n], path[n])
    decreases |path|
  {
    if path != [] {
      var front, f := path[..|path| - 1], path[|path| - 1];
      assert path == front + [f];
      ReadExactly(h, v, front);
      ReadOneMore(h, v, front, f);
      assert forall n :: 0 <= n <= |front| ==> path[..n] == front[..n];
      assert front[..|front|] == front;
    }
  }

  lemma {:induction false} ReadOneMore(h: Heap, v: Val, path: seq<string>, f: string)
    ensures ReadPath(h, v, path + [f]) ==
            match ReadPath(h, v, path)
            case Found(Leaf(_)) => Blocked
            case Found(Dir(a)) => if a in h && f in h[a] then Found(h[a][f]) else Missing
            case Missing => Missing
            case Blocked => Blocked
    decreases |path|
  {
    if path == [] {
      assert [] + [f] == [f];
      assert [f][1..] == [];
    } else {
      assert (path + [f])[1..] == path[1..] + [f];
      if v.Dir? && v.addr in h && path[0] in h[v.addr] {
        ReadOneMore(h, h[v.addr][path[0]], path[1..], f);
      }
    }
  }

  /** A set goes through exactly if no path on the way reads as something that is not a map. */
  lemma {:induction false} SettableExactly(h: Heap, a: nat, path: seq<string>)
    requires path != []
    ensures Settable(h, a, path) <==> forall n :: 0 < n < |path| ==> !LeafAt(h, Dir(a), path[..n])
    decreases |path|
  {
    if |path| > 1 && a in h && path[0] in h[a] {
      var w, rest := h[a][path[0]], path[1..];
      assert forall n :: 0 < n < |path| ==> path[..n][1..] == rest[..n - 1] && path[..n][0] == path[0];
      assert forall n :: 0 < n < |path| ==> (LeafAt(h, Dir(a), path[..n]) <==> LeafAt(h, w, rest[..n - 1]));
      if w.Dir? {
        SettableExactly(h, w.addr, rest);
        assert forall n :: 0 < n < |rest| ==> (LeafAt(h, Dir(a), path[..n + 1]) <==> LeafAt(h, w, rest[..n]));
        assert !LeafAt(h, w, rest[..0]);
      } else {
        assert LeafAt(h, w, rest[..0]);
        assert LeafAt(h, Dir(a), path[..1]);
      }
    }
  }

  /** `SetNestedFieldNoCopy` from the map at `a`, taking new addresses from `next`. */
  function Set(h: Heap, next: nat, a: nat, path: seq<string>, v: Val): Heap
    requires path != [] && a in h && Closed(h, next) && Settable(h, a, path)
    decreases |path|
  {
    var f := path[0];
    if |path| == 1 then h[a := h[a][f := v]]
    else if f in h[a] then Set(h, next, h[a][f].addr, path[1..], v)
    else
      var h1 := Sprout(h, next, a, f);
      Set(h1, next + 1, next, path[1..], v)
  }

  /** A new empty map under a new field. */
  function Sprout(h: Heap, next: nat, a: nat, f: string): (h1: Heap)
    requires a in h && Closed(h, next)
    ensures Closed(h1, next + 1)
  {
    h[a := h[a][f := Dir(next)]][next := map[]]
  }

  /** The one field of one existing map that the write changes. */
  function Edge(h: Heap, a: nat, path: seq<string>): (nat, string)
    requires path != [] && Settable(h, a, path)
    decreases |path|
  {
    if a !in h || |path| == 1 || path[0] !in h[a] then (a, path[0])
    else Edge(h, h[a][path[0]].addr, path[1..])
  }

  ghost predicate AgreeExcept(h: Heap, h': Heap, e: (nat, string)) {
    forall b, f :: b in h && (b, f) != e ==>
      b in h' && (f in h'[b] <==> f in h[b]) && (f in h[b] ==> h'[b][f] == h[b][f])
  }

  lemma {:induction false} SetChangesOneEdge(h: Heap, next: nat, a: nat, path: seq<string>, v: Val)
    requires path != [] && a in h && Closed(h, next) && Settable(h, a, path)
    ensures AgreeExcept(h, Set(h, next, a, path, v), Edge(h, a, path))
    ensures h.Keys <= Set(h, next, a, path, v).Keys
    decreases |path|
  {
    var f := path[0];
    if |path| == 1 {
    } else if f in h[a] {
      SetChangesOneEdge(h, next, h[a][f].addr, path[1..], v);
    } else {
      var h1 := Sprout(h, next, a, f);
      SetChangesOneEdge(h1, next + 1, next, path[1..], v);
      assert Edge(h1, next, path[1..]) == (next, path[1]);
      WrittenUnderSprout(h, next, a, f, Set(h1, next + 1, next, path[1..], v), path[1]);
    }
  }

  lemma WrittenUnderSprout(h: Heap, next: nat, a: nat, f: string, h': Heap, g: string)
    requires a in h && Closed(h, next)
    requires var h1 := Sprout(h, next, a, f); AgreeExcept(h1, h', (next, g)) && h1.Keys <= h'.Keys
    ensures AgreeExcept(h, h', (a, f)) && h.Keys <= h'.Keys
  {
    var h1 := Sprout(h, next, a, f);
    forall b, i | b in h && (b, i) != (a, f)
      ensures b in h' && (i in h'[b] <==> i in h[b]) && (i in h[b] ==> h'[b][i] == h[b][i])
    {
      assert b in h1 && (b, i) != (next, g);
    }
  }

  // Any heap, shared maps and cycles included.

  /** Walking `path` from `a` takes the step `e`. */
  predicate Takes(h: Heap, a: nat, path: seq<string>, e: (nat, string))
    decreases |path|
  {
    path != [] &&
    ((a, path[0]) == e ||
     (a in h && path[0] in h[a] && h[a][path[0]].Dir? && Takes(h, h[a][path[0]].addr, path[1..], e)))
  }

  /** A path that does not take the written step reads as before. */
  lemma {:induction false} UntakenPathsSurvive(h: Heap, h': Heap, next: nat, a: nat, path: seq<string>,
                                               e: (nat, string))
    requires Closed(h, next) && a in h && AgreeExcept(h, h', e) && !Takes(h, a, path, e)
    ensures ReadPath(h', Dir(a), path) == ReadPath(h, Dir(a), path)
    decreases |path|
  {
    if path != [] && path[0] in h[a] {
      var w := h[a][path[0]];
      assert (a, path[0]) != e;
      if w.Dir? {
        UntakenPathsSurvive(h, h', next, w.addr, path[1..], e);
      } else if path[1..] != [] {
        assert ReadPath(h', w, path[1..]) == Blocked;
      }
    }
  }

  /** What is left of a path after it first takes the step. */
  function Beyond(h: Heap, a: nat, path: seq<string>, e: (nat, string)): seq<string>
    requires Takes(h, a, path, e)
    decreases |path|
  {
    if (a, path[0]) == e then path[1..] else Beyond(h, h[a][path[0]].addr, path[1..], e)
  }

  /** What the field of `e` and `rest` after it lead to. */
  function ReadField(h: Heap, e: (nat, string), rest: seq<string>): Reading {
    if e.0 in h && e.1 in h[e.0] then ReadPath(h, h[e.0][e.1], rest) else Missing
  }

  /** A path that takes the written step reads, in either heap, what the field there leads to. */
  lemma {:induction false} TakenPathsGoThroughTheField(h: Heap, h': Heap, next: nat, a: nat, path: seq<string>,
                                                       e: (nat, string))
    requires Closed(h, next) && a in h && AgreeExcept(h, h', e) && Takes(h, a, path, e)
    ensures ReadPath(h, Dir(a), path) == ReadField(h, e, Beyond(h, a, path, e))
    ensures ReadPath(h', Dir(a), path) == ReadField(h', e, Beyond(h, a, path, e))
    decreases |path|
  {
    if (a, path[0]) != e {
      TakenPathsGoThroughTheField(h, h', next, h[a][path[0]].addr, path[1..], e);
    }
  }

  /** The names of the maps a set has to make, and the last one under them. */
  function Made(h: Heap, a: nat, path: seq<string>): seq<string>
    requires path != [] && Settable(h, a, path)
    decreases |path|
  {
    if a !in h || |path| == 1 || path[0] !in h[a] then path[1..]
    else Made(h, h[a][path[0]].addr, path[1..])
  }

  predicate Unrelated(p: seq<string>, q: seq<string>) {
    !(p <= q) && !(q <= p)
  }

  /** The first map made stays where it was put, with the one field made under it. */
  lemma SproutedStays(h: Heap, next: nat, a: nat, path: seq<string>, v: Val)
    requires Closed(h, next) && a in h && |path| > 1 && path[0] !in h[a]
    ensures var h' := Set(h, next, a, path, v);
            && a in h' && path[0] in h'[a] && h'[a][path[0]] == Dir(next)
            && next in h' && forall g :: g in h'[next] ==> g == path[1]
  {
    var h1 := Sprout(h, next, a, path[0]);
    SetChangesOneEdge(h1, next + 1, next, path[1..], v);
    assert Edge(h1, next, path[1..]) == (next, path[1]);
    assert next !in h;
  }

  /** The written field leads to the value under the names that were made, to new maps on the
      way there, and nowhere else. */
  lemma {:induction false} WrittenFieldReads(h: Heap, next: nat, a: nat, path: seq<string>, v: Val, rest: seq<string>)
    requires path != [] && a in h && Closed(h, next) && Settable(h, a, path)
    ensures var h', made := Set(h, next, a, path, v), Made(h, a, path);
            var r := ReadField(h', Edge(h, a, path), rest);
            && (made <= rest ==> r == ReadPath(h', v, rest[|made|..]))
            && (rest < made ==> r.Found? && r.v.Dir?)
            && (Unrelated(made, rest) ==> r == Missing)
    decreases |path|
  {
    var f := path[0];
    if |path| == 1 {
      assert rest[0..] == rest;
    } else if f in h[a] {
      WrittenFieldReads(h, next, h[a][f].addr, path[1..], v, rest);
    } else {
      var h1 := Sprout(h, next, a, f);
      var h' := Set(h1, next + 1, next, path[1..], v);
      SproutedStays(h, next, a, path, v);
      if rest != [] {
        WrittenFieldReads(h1, next + 1, next, path[1..], v, rest[1..]);
        SproutedReads(h', next, path[1..], v, rest);
      }
    }
  }

  lemma SproutedReads(h': Heap, next: nat, made: seq<string>, v: Val, rest: seq<string>)
    requires made != [] && rest != [] && next in h' && (forall g :: g in h'[next] ==> g == made[0])
    requires var r := ReadField(h', (next, made[0]), rest[1..]);
             && (made[1..] <= rest[1..] ==> r == ReadPath(h', v, rest[1..][|made| - 1..]))
             && (rest[1..] < made[1..] ==> r.Found? && r.v.Dir?)
             && (Unrelated(made[1..], rest[1..]) ==> r == Missing)
    ensures var r := ReadPath(h', Dir(next), rest);
            && (made <= rest ==> r == ReadPath(h', v, rest[|made|..]))
            && (rest < made ==> r.Found? && r.v.Dir?)
            && (Unrelated(made, rest) ==> r == Missing)
  {
    if rest[0] == made[0] {
      assert rest == [rest[0]] + rest[1..] && made == [rest[0]] + made[1..];
      assert |made| <= |rest| ==> rest[1..][|made| - 1..] == rest[|made|..];
    }
  }

  /** In any heap, shared maps, cycles and maps made on the way included: after a set, a path
      reads as before exactly when it does not take the written field, or what the field leads
      to there looks the same: the old reading is that of the value, where no map was made;
      and where maps were made the path leaves them, or finds nothing under the value either. */
  lemma ReadsAsBeforeExactly(h: Heap, next: nat, a: nat, path: seq<string>, v: Val, q: seq<string>)
    requires path != [] && a in h && Closed(h, next) && Settable(h, a, path)
    ensures var h', e, made := Set(h, next, a, path, v), Edge(h, a, path), Made(h, a, path);
            ReadPath(h', Dir(a), q) == ReadPath(h, Dir(a), q) <==>
              !Takes(h, a, q, e) ||
              var rest := Beyond(h, a, q, e);
              if made == [] then ReadField(h, e, rest) == ReadPath(h', v, rest)
              else Unrelated(made, rest) || (made <= rest && ReadPath(h', v, rest[|made|..]) == Missing)
  {
    var h', e := Set(h, next, a, path, v), Edge(h, a, path);
    SetChangesOneEdge(h, next, a, path, v);
    if Takes(h, a, q, e) {
      var rest := Beyond(h, a, q, e);
      TakenPathsGoThroughTheField(h, h', next, a, q, e);
      WrittenFieldReads(h, next, a, path, v, rest);
      MadeMeansMissing(h, a, path);
      assert rest[0..] == rest;
    } else {
      UntakenPathsSurvive(h, h', next, a, q, e);
    }
  }

  /** The same by what was there before alone, when the rest of the path under the value does
      not come round to the written field again. */
  lemma OldHeapDecides(h: Heap, next: nat, a: nat, path: seq<string>, v: Val, q: seq<string>)
    requires path != [] && a in h && Closed(h, next) && Settable(h, a, path) && (v.Dir? ==> v.addr in h)
    requires var e, made := Edge(h, a, path), Made(h, a, path);
             Takes(h, a, q, e) && v.Dir? ==>
               var rest := Beyond(h, a, q, e);
               made <= rest ==> !Takes(h, v.addr, rest[|made|..], e)
    ensures var e, made := Edge(h, a, path), Made(h, a, path);
            ReadPath(Set(h, next, a, path, v), Dir(a), q) == ReadPath(h, Dir(a), q) <==>
              !Takes(h, a, q, e) ||
              var rest := Beyond(h, a, q, e);
              if made == [] then ReadField(h, e, rest) == ReadPath(h, v, rest)
              else Unrelated(made, rest) || (made <= rest && ReadPath(h, v, rest[|made|..]) == Missing)
  {
    var h', e, made := Set(h, next, a, path, v), Edge(h, a, path), Made(h, a, path);
    ReadsAsBeforeExactly(h, next, a, path, v, q);
    SetChangesOneEdge(h, next, a, path, v);
    if Takes(h, a, q, e) {
      var rest := Beyond(h, a, q, e);
      assert rest[0..] == rest;
      if made <= rest {
        ValueReadsAsBefore(h, h', next, v, rest[|made|..], e);
      }
    }
  }

  lemma ValueReadsAsBefore(h: Heap, h': Heap, next: nat, v: Val, path: seq<string>, e: (nat, string))
    requires Closed(h, next) && AgreeExcept(h, h', e)
    requires v.Dir? ==> v.addr in h && !Takes(h, v.addr, path, e)
    ensures ReadPath(h', v, path) == ReadPath(h, v, path)
  {
    if v.Dir? {
      UntakenPathsSurvive(h, h', next, v.addr, path, e);
    } else if path != [] {
      assert ReadPath(h', v, path) == Blocked;
    }
  }

  /** For a value that is no map, by what was there before alone. */
  lemma LeafReadsAsBeforeExactly(h: Heap, next: nat, a: nat, path: seq<string>, text: string, q: seq<string>)
    requires path != [] && a in h && Closed(h, next) && Settable(h, a, path)
    ensures var e, made := Edge(h, a, path), Made(h, a, path);
            ReadPath(Set(h, next, a, path, Leaf(text)), Dir(a), q) == ReadPath(h, Dir(a), q) <==>
              !Takes(h, a, q, e) ||
              var rest := Beyond(h, a, q, e);
              if made == [] then ReadField(h, e, rest) == (if rest == [] then Found(Leaf(text)) else Blocked)
              else Unrelated(made, rest)
  {
    ReadsAsBeforeExactly(h, next, a, path, Leaf(text), q);
  }

  lemma {:induction false} MadeMeansMissing(h: Heap, a: nat, path: seq<string>)
    requires path != [] && Settable(h, a, path)
    ensures Made(h, a, path) != [] ==> forall rest :: ReadField(h, Edge(h, a, path), rest) == Missing
    decreases |path|
  {
    if a in h && |path| > 1 && path[0] in h[a] {
      MadeMeansMissing(h, h[a][path[0]].addr, path[1..]);
    }
  }

  /** So the path itself reads back the value in any heap in which it takes the field once. */
  lemma {:induction false} DistinctNamesReadBack(h: Heap, next: nat, a: nat, path: seq<string>, v: Val)
    requires path != [] && a in h && Closed(h, next) && Settable(h, a, path)
    requires forall i, j :: 0 <= i < j < |path| ==> path[i] != path[j]
    ensures ReadPath(Set(h, next, a, path, v), Dir(a), path) == Found(v)
  {
    var h', e := Set(h, next, a, path, v), Edge(h, a, path);
    SetChangesOneEdge(h, next, a, path, v);
    EdgeIsTaken(h, a, path);
    TakenOnce(h, a, path);
    TakenPathsGoThroughTheField(h, h', next, a, path, e);
    WrittenFieldReads(h, next, a, path, v, Made(h, a, path));
  }

  lemma {:induction false} TakenOnce(h: Heap, a: nat, path: seq<string>)
    requires path != [] && Settable(h, a, path) && Takes(h, a, path, Edge(h, a, path))
    requires forall i, j :: 0 <= i < j < |path| ==> path[i] != path[j]
    ensures Edge(h, a, path).1 in path
    ensures Beyond(h, a, path, Edge(h, a, path)) == Made(h, a, path)
    decreases |path|
  {
    if a in h && |path| > 1 && path[0] in h[a] {
      var b, e := h[a][path[0]].addr, Edge(h, a, path);
      EdgeIsTaken(h, b, path[1..]);
      TakenOnce(h, b, path[1..]);
      assert e.1 in path[1..] && path[0] !in path[1..];
    }
  }

  /** Two fields holding one map: a write through the first shows through the second. */
  lemma SharedMapShowsTheWrite(v: Val)
    ensures var h: Heap := map[0 := map["a" := Dir(1), "b" := Dir(1)], 1 := map[]];
            && Closed(h, 2) && Settable(h, 0, ["a", "x"])
            && ReadPath(h, Dir(0), ["b", "x"]) == Missing
            && ReadPath(Set(h, 2, 0, ["a", "x"], v), Dir(0), ["b", "x"]) == Found(v)
  {
    var h: Heap := map[0 := map["a" := Dir(1), "b" := Dir(1)], 1 := map[]];
    assert ["a", "x"][1..] == ["x"] && ["b", "x"][1..] == ["x"] && ["x"][1..] == [];
    var h' := Set(h, 2, 0, ["a", "x"], v);
    assert h' == Set(h, 2, 1, ["x"], v) == h[1 := map["x" := v]];
    assert ReadPath(h', Dir(1), ["x"]) == ReadPath(h', v, []);
  }

  // Trees: every map has one place.

  /** `place` gives each map the path that leads to it, and there is no other. */
  predicate Placed(h: Heap, place: map<nat, seq<string>>) {
    && place.Keys <= h.Keys
    && forall a, f :: a in place && f in h[a] && h[a][f].Dir? ==>
         h[a][f].addr in place && place[h[a][f].addr] == place[a] + [f]
  }

  /** The step a walk takes stands on the path it walks. */
  lemma {:induction false} StepsStandOnThePath(h: Heap, place: map<nat, seq<string>>, a: nat, path: seq<string>,
                                               e: (nat, string))
    requires Placed(h, place) && a in place && Takes(h, a, path, e)
    ensures e.0 in place && place[e.0] + [e.1] <= place[a] + path
    decreases |path|
  {
    if (a, path[0]) != e {
      var b := h[a][path[0]].addr;
      StepsStandOnThePath(h, place, b, path[1..], e);
      assert place[b] == place[a] + [path[0]] && path == [path[0]] + path[1..];
      assert place[b] + path[1..] == place[a] + path;
    }
  }

  /** The written field stands on the path set, no higher than where the walk began. */
  lemma {:induction false} EdgeIsTaken(h: Heap, a: nat, path: seq<string>)
    requires path != [] && Settable(h, a, path)
    ensures Takes(h, a, path, Edge(h, a, path))
    decreases |path|
  {
    if a in h && |path| > 1 && path[0] in h[a] {
      EdgeIsTaken(h, h[a][path[0]].addr, path[1..]);
    }
  }

  lemma {:induction false} EdgeIsDeep(h: Heap, place: map<nat, seq<string>>, a: nat, path: seq<string>)
    requires path != [] && Settable(h, a, path) && Placed(h, place) && a in place
    ensures var e := Edge(h, a, path);
            e.0 in place && |place[e.0]| >= |place[a]| && place[a] + [path[0]] <= place[e.0] + [e.1]
    decreases |path|
  {
    if |path| > 1 && path[0] in h[a] {
      var b := h[a][path[0]].addr;
      EdgeIsDeep(h, place, b, path[1..]);
      var e := Edge(h, a, path);
      assert place[b] == place[a] + [path[0]];
      assert place[b] + [path[1]] <= place[e.0] + [e.1];
      assert (place[b] + [path[1]])[..|place[b]|] == place[b];
      assert place[b] <= place[e.0] + [e.1];
    }
  }

  /** A first step the walk shares stays in place unless it is the one written. */
  lemma FirstStepStays(h: Heap, place: map<nat, seq<string>>, next: nat, a: nat, path: seq<string>, v: Val)
    requires Closed(h, next) && Placed(h, place) && a in place
    requires |path| > 1 && Settable(h, a, path) && path[0] in h[a]
    ensures var h' := Set(h, next, a, path, v);
            a in h' && path[0] in h'[a] && h'[a][path[0]] == h[a][path[0]]
  {
    var b := h[a][path[0]].addr;
    SetChangesOneEdge(h, next, a, path, v);
    EdgeIsDeep(h, place, b, path[1..]);
    assert place[b] == place[a] + [path[0]];
    assert Edge(h, a, path).0 != a;
  }

  lemma SproutIsPlaced(h: Heap, place: map<nat, seq<string>>, next: nat, a: nat, f: string)
    requires Closed(h, next) && Placed(h, place) && a in place && f !in h[a]
    ensures Placed(Sprout(h, next, a, f), place[next := place[a] + [f]])
  {
    assert next !in h;
  }

  /** The path reads back what was set. */
  lemma {:induction false} SetReadsBack(h: Heap, place: map<nat, seq<string>>, next: nat, a: nat, path: seq<string>,
                                        v: Val)
    requires path != [] && Closed(h, next) && Placed(h, place) && a in place && Settable(h, a, path)
    ensures ReadPath(Set(h, next, a, path, v), Dir(a), path) == Found(v)
    decreases |path|
  {
    if |path| == 1 {
      assert path[1..] == [];
    } else if path[0] in h[a] {
      FirstStepStays(h, place, next, a, path, v);
      SetReadsBack(h, place, next, h[a][path[0]].addr, path[1..], v);
    } else {
      SproutedStays(h, next, a, path, v);
      SproutIsPlaced(h, place, next, a, path[0]);
      SetReadsBack(Sprout(h, next, a, path[0]), place[next := place[a] + [path[0]]], next + 1, next, path[1..], v);
    }
  }

  /** Every path that is neither a prefix nor an extension of it reads as before. */
  lemma {:induction false} UnrelatedPathsSurvive(h: Heap, place: map<nat, seq<string>>, next: nat, a: nat,
                                                 path: seq<string>, v: Val, q: seq<string>)
    requires path != [] && Closed(h, next) && Placed(h, place) && a in place && Settable(h, a, path)
    requires Unrelated(path, q)
    ensures ReadPath(Set(h, next, a, path, v), Dir(a), q) == ReadPath(h, Dir(a), q)
    decreases |path|
  {
    if q[0] != path[0] {
      OtherBranchSurvives(h, place, next, a, path, v, q);
    } else {
      TailsAreUnrelated(path, q);
      if path[0] in h[a] {
        FirstStepStays(h, place, next, a, path, v);
        UnrelatedPathsSurvive(h, place, next, h[a][path[0]].addr, path[1..], v, q[1..]);
      } else {
        SproutedStays(h, next, a, path, v);
        SproutIsPlaced(h, place, next, a, path[0]);
        var h1, place1 := Sprout(h, next, a, path[0]), place[next := place[a] + [path[0]]];
        UnrelatedPathsSurvive(h1, place1, next + 1, next, path[1..], v, q[1..]);
      }
    }
  }

  lemma TailsAreUnrelated(p: seq<string>, q: seq<string>)
    requires Unrelated(p, q) && p != [] && q != [] && p[0] == q[0]
    ensures |p| > 1 && |q| > 1 && Unrelated(p[1..], q[1..])
  {
    assert p == [p[0]] + p[1..] && q == [p[0]] + q[1..];
  }

  lemma PrefixNamesNext(p: seq<string>, x: string, d: seq<string>, q: seq<string>)
    requires p + [x] <= d <= p + q
    ensures q != [] && q[0] == x
  {
    assert d[|p|] == (p + [x])[|p|] == (p + q)[|p|];
  }

  lemma OtherBranchSurvives(h: Heap, place: map<nat, seq<string>>, next: nat, a: nat, path: seq<string>, v: Val,
                            q: seq<string>)
    requires path != [] && Closed(h, next) && Placed(h, place) && a in place && Settable(h, a, path)
    requires q != [] && q[0] != path[0]
    ensures ReadPath(Set(h, next, a, path, v), Dir(a), q) == ReadPath(h, Dir(a), q)
  {
    var e := Edge(h, a, path);
    SetChangesOneEdge(h, next, a, path, v);
    EdgeIsDeep(h, place, a, path);
    if Takes(h, a, q, e) {
      StepsStandOnThePath(h, place, a, q, e);
      PrefixNamesNext(place[a], path[0], place[e.0] + [e.1], q);
    }
    UntakenPathsSurvive(h, Set(h, next, a, path, v), next, a, q, e);
  }

  /** A tree stays one when what is set holds no map. */
  lemma {:induction false} SetKeepsPlaces(h: Heap, place: map<nat, seq<string>>, next: nat, a: nat, path: seq<string>,
                                          v: Val)
    returns (place': map<nat, seq<string>>)
    requires path != [] && Closed(h, next) && Placed(h, place) && a in place && Settable(h, a, path) && v.Leaf?
    ensures Placed(Set(h, next, a, path, v), place')
    ensures forall b :: b in place ==> b in place' && place'[b] == place[b]
    decreases |path|
  {
    if |path| == 1 {
      place' := place;
    } else if path[0] in h[a] {
      place' := SetKeepsPlaces(h, place, next, h[a][path[0]].addr, path[1..], v);
    } else {
      SproutIsPlaced(h, place, next, a, path[0]);
      var h1, place1 := Sprout(h, next, a, path[0]), place[next := place[a] + [path[0]]];
      place' := SetKeepsPlaces(h1, place1, next + 1, next, path[1..], v);
    }
  }

  // What a tree looks like, addresses aside.

  datatype Sight = SeesLeaf(text: string) | SeesMap | SeesNothing | SeesObstacle

  function Sighted(r: Reading): Sight {
    match r
    case Found(v) => if v.Leaf? then SeesLeaf(v.text) else SeesMap
    case Missing => SeesNothing
    case Blocked => SeesObstacle
  }

  /** From `a`, no path tells the two heaps apart. */
  ghost predicate SameTree(h: Heap, h': Heap, a: nat) {
    forall path :: Sighted(ReadPath(h, Dir(a), path)) == Sighted(ReadPath(h', Dir(a), path))
  }

  lemma {:induction false} ReadOn(h: Heap, v: Val, p: seq<string>, r: seq<string>)
    requires ReadPath(h, v, p).Found?
    ensures ReadPath(h, v, p + r) == ReadPath(h, ReadPath(h, v, p).v, r)
    decreases |p|
  {
    if p == [] {
      assert p + r == r;
    } else {
      assert (p + r)[1..] == p[1..] + r;
      ReadOn(h, h[v.addr][p[0]], p[1..], r);
    }
  }

  /** Only maps placed at or below `p` may differ. */
  ghost predicate OnlyBelow(h: Heap, h': Heap, place: map<nat, seq<string>>, p: seq<string>) {
    forall b :: b in place && !(p <= place[b]) ==> b in h && b in h' && h'[b] == h[b]
  }

  lemma LongerExtends(p: seq<string>, at: seq<string>, q: seq<string>)
    requires q != []
    ensures p <= at ==> p <= at + q && p != at + q
  {}

  /** A path that does not go on below `p` reads the same. */
  lemma {:induction false} AboveReadsTheSame(h: Heap, h': Heap, place: map<nat, seq<string>>, p: seq<string>, a: nat,
                                             q: seq<string>)
    requires Placed(h, place) && OnlyBelow(h, h', place, p) && a in place
    requires !(p <= place[a] + q) || place[a] + q == p
    ensures ReadPath(h', Dir(a), q) == ReadPath(h, Dir(a), q)
    decreases |q|
  {
    if q != [] {
      LongerExtends(p, place[a], q);
      if q[0] in h[a] && h[a][q[0]].Dir? {
        var b := h[a][q[0]].addr;
        assert place[b] == place[a] + [q[0]] && q == [q[0]] + q[1..];
        assert place[b] + q[1..] == place[a] + q;
        AboveReadsTheSame(h, h', place, p, b, q[1..]);
      } else if q[0] in h[a] && q[1..] != [] {
        assert ReadPath(h', h[a][q[0]], q[1..]) == Blocked;
      }
    }
  }

  /** In a tree, changes made to the map at `p` and below it show in the whole tree exactly when
      they show in that map. */
  lemma PartDecidesWhole(h: Heap, h': Heap, place: map<nat, seq<string>>, root: nat, p: seq<string>, a: nat)
    requires Placed(h, place) && root in place && place[root] == []
    requires OnlyBelow(h, h', place, p) && ReadPath(h, Dir(root), p) == Found(Dir(a))
    ensures SameTree(h, h', root) <==> SameTree(h, h', a)
  {
    assert place[root] + p == p;
    AboveReadsTheSame(h, h', place, p, root, p);
    if SameTree(h, h', root) {
      forall r ensures Sighted(ReadPath(h, Dir(a), r)) == Sighted(ReadPath(h', Dir(a), r)) {
        ReadOn(h, Dir(root), p, r);
        ReadOn(h', Dir(root), p, r);
      }
    }
    if SameTree(h, h', a) {
      forall q ensures Sighted(ReadPath(h, Dir(root), q)) == Sighted(ReadPath(h', Dir(root), q)) {
        if p <= q {
          assert q == p + q[|p|..];
          ReadOn(h, Dir(root), p, q[|p|..]);
          ReadOn(h', Dir(root), p, q[|p|..]);
        } else {
          assert place[root] + q == q;
          AboveReadsTheSame(h, h', place, p, root, q);
        }
      }
    }
  }

  // The object around the tree.

  function PodSpecPath(kind: string): seq<string> {
    if kind == "CronJob" then ["spec", "jobTemplate", "spec", "template", "spec"] else ["spec", "template", "spec"]
  }

  /** The heap and the next address after a set, whether or not it goes through. */
  function Written(h: Heap, next: nat, a: nat, path: seq<string>, v: Val): (Heap, nat)
    requires path != [] && a in h && Closed(h, next)
  {
    if Settable(h, a, path) then (Set(h, next, a, path, v), next + |Made(h, a, path)|) else (h, next)
  }

  /** The first step of a set, down an existing map or into a new one. */
  lemma WrittenFurtherDown(h: Heap, next: nat, a: nat, path: seq<string>, v: Val)
    requires |path| > 1 && a in h && Closed(h, next)
    ensures path[0] in h[a] && h[a][path[0]].Leaf? ==> !Settable(h, a, path)
    ensures path[0] in h[a] && h[a][path[0]].Dir? ==>
              var b := h[a][path[0]].addr;
              && (Settable(h, a, path) <==> Settable(h, b, path[1..]))
              && (Settable(h, a, path) ==> Written(h, next, a, path, v) == Written(h, next, b, path[1..], v))
    ensures path[0] !in h[a] ==>
              var h1 := Sprout(h, next, a, path[0]);
              && Settable(h, a, path) && Settable(h1, next, path[1..])
              && Written(h, next, a, path, v) == Written(h1, next + 1, next, path[1..], v)
  {}

  type Marshal = (Heap, nat) -> Option<string>

  ghost predicate Decodes(marshal: Marshal, decode: string -> Heap, root: nat) {
    forall h :: marshal(h, root).Some? ==> SameTree(decode(marshal(h, root).value), h, root)
  }

  /** A tree with the JSON kept for it. */
  datatype Document = Document(heap: Heap, next: nat, json: Option<string>)

  predicate DocumentOk(d: Document, root: nat) {
    Closed(d.heap, d.next) && root in d.heap
  }

  /** The JSON kept stands for the tree. */
  ghost predicate Fresh(decode: string -> Heap, d: Document, root: nat) {
    d.json.Some? ==> SameTree(decode(d.json.value), d.heap, root)
  }

  class ManifestObject {
    /** `MarshalJSON` of the tree at an address, which may fail, and the tree that bytes stand for. */
    const marshal: Marshal
    const decode: string -> Heap
    const root: nat
    const kind: string
    var heap: Heap
    var next: nat
    var name: string
    var json: Option<string>

    ghost predicate Valid()
      reads this
    {
      DocumentOk(Contents(), root) && Decodes(marshal, decode, root)
    }

    function Contents(): Document
      reads this
    {
      Document(heap, next, json)
    }

    /** `ParseJSONToObject` keeps the bytes it was given. */
    constructor (marshal: Marshal, decode: string -> Heap, bytes: string, heap: Heap, next: nat, root: nat,
                 kind: string, name: string)
      requires Closed(heap, next) && root in heap && SameTree(decode(bytes), heap, root)
      requires Decodes(marshal, decode, root)
      ensures Valid() && Contents() == Document(heap, next, Some(bytes)) && Fresh(decode, Contents(), root)
      ensures this.root == root && this.name == name && this.kind == kind
      ensures this.marshal == marshal && this.decode == decode
    {
      this.marshal, this.decode, this.root, this.kind := marshal, decode, root, kind;
      this.heap, this.next, this.name, this.json := heap, next, name, Some(bytes);
    }

    method NestedFieldNoCopy(fields: seq<string>) returns (r: Reading)
      requires Valid()
      ensures r == ReadPath(heap, Dir(root), fields)
    {
      var val := Dir(root);
      for i := 0 to |fields|
        invariant val.Dir? ==> val.addr in heap
        invariant ReadPath(heap, val, fields[i..]) == ReadPath(heap, Dir(root), fields)
      {
        assert fields[i..][1..] == fields[i + 1..];
        if val.Leaf? {
          return Blocked;
        }
        if fields[i] !in heap[val.addr] {
          return Missing;
        }
        val := heap[val.addr][fields[i]];
      }
      assert fields[|fields|..] == [];
      r := Found(val);
    }

    /** Walks down, making the maps that are missing, and writes the last field. */
    method WritePath(value: Val, fields: seq<string>) returns (ok: bool)
      requires Valid() && fields != [] && (value.Dir? ==> value.addr in heap)
      modifies this`heap, this`next
      ensures Valid() && (ok <==> Settable(old(heap), root, fields))
      ensures ok ==> heap == Set(old(heap), old(next), root, fields, value)
      ensures ok ==> next == old(next) + |Made(old(heap), root, fields)|
      ensures !ok ==> heap == old(heap) && next == old(next)
    {
      var m := root;
      var i := 0;
      while i < |fields| - 1
        invariant 0 <= i < |fields| && Closed(heap, next) && root in heap
        invariant m in heap && (value.Dir? ==> value.addr in heap)
        invariant Settable(heap, m, fields[i..]) <==> Settable(old(heap), root, fields)
        invariant Settable(heap, m, fields[i..]) ==>
                    Written(heap, next, m, fields[i..], value) == Written(old(heap), old(next), root, fields, value)
        invariant (heap == old(heap) && next == old(next)) || Settable(heap, m, fields[i..])
      {
        var f := fields[i];
        assert fields[i..][1..] == fields[i + 1..] && |fields[i..]| > 1;
        WrittenFurtherDown(heap, next, m, fields[i..], value);
        if f in heap[m] {
          if heap[m][f].Leaf? {
            return false;
          }
          m := heap[m][f].addr;
        } else {
          heap, m, next := Sprout(heap, next, m, f), next, next + 1;
        }
        i := i + 1;
      }
      assert |fields[i..]| == 1;
      heap := heap[m := heap[m][fields[i] := value]];
      ok := true;
    }

    method SetNestedFieldNoCopy(value: Val, fields: seq<string>) returns (ok: bool)
      requires Valid() && fields != [] && (value.Dir? ==> value.addr in heap)
      modifies this`heap, this`next, this`json
      ensures Valid() && (ok <==> Settable(old(heap), root, fields))
      ensures (heap, next) == Written(old(heap), old(next), root, fields, value)
      ensures json == if ok then None else old(json)
    {
      ok := WritePath(value, fields);
      if ok {
        json := None;
      }
    }

    /** Drops the cached JSON even when the tree stays as it is. */
    method SetNestedField(text: string, fields: seq<string>) returns (ok: bool)
      requires Valid() && fields != []
      modifies this`heap, this`next, this`json
      ensures Valid() && json == None && (ok <==> Settable(old(heap), root, fields))
      ensures (heap, next) == Written(old(heap), old(next), root, fields, Leaf(text))
    {
      ok := WritePath(Leaf(text), fields);
      json := None;
    }

    /** The name kept beside the tree and the name in it change together or not at all, shared
        maps or not. */
    method SetName(newName: string) returns (ok: bool)
      requires Valid()
      modifies this`heap, this`next, this`json, this`name
      ensures Valid() && json == None && (ok <==> Settable(old(heap), root, ["metadata", "name"]))
      ensures ok ==> name == newName && ReadPath(heap, Dir(root), ["metadata", "name"]) == Found(Leaf(newName))
      ensures !ok ==> name == old(name) && heap == old(heap)
    {
      ghost var h, n := heap, next;
      ok := SetNestedField(newName, ["metadata", "name"]);
      if ok {
        assert "metadata"[0] != "name"[0];
        DistinctNamesReadBack(h, n, root, ["metadata", "name"], Leaf(newName));
        name := newName;
      }
    }

    /** `after` is what the callback makes of the tree and `done` whether it returns no error.
        When it returns one, its changes stay and the cached JSON is kept: it is then right
        exactly if the changes do not show. */
    method MutatePodSpec(after: Heap, afterNext: nat, done: bool) returns (ok: bool)
      requires Valid() && Closed(after, afterNext) && root in after
      modifies this`heap, this`next, this`json
      ensures Valid()
      ensures var spec := ReadPath(old(heap), Dir(root), if kind == "CronJob"
                                   then ["spec", "jobTemplate", "spec", "template", "spec"]
                                   else ["spec", "template", "spec"]);
              var called := spec.Found? && spec.v.Dir?;
              && (ok <==> called && done)
              && (heap, next) == (if called then (after, afterNext) else old((heap, next)))
              && json == (if ok then None else old(json))
      ensures old(Fresh(decode, Contents(), root)) && json.Some? ==>
                (Fresh(decode, Contents(), root) <==> SameTree(old(heap), heap, root))
    {
      var spec := NestedFieldNoCopy(PodSpecPath(kind));
      if !spec.Found? || !spec.v.Dir? {
        return false;
      }
      heap, next := after, afterNext;
      if !done {
        return false;
      }
      json := None;
      ok := true;
    }

    /** Marshals at most once between mutations. */
    method JSON() returns (r: Option<string>)
      requires Valid()
      modifies this`json
      ensures Valid() && r == json == if old(json).Some? then old(json) else marshal(heap, root)
      ensures old(Fresh(decode, Contents(), root)) ==> Fresh(decode, Contents(), root)
    {
      if json.Some? {
        return json;
      }
      r := marshal(heap, root);
      json := r;
    }
  }

  /** One call: `PodSpec` gives what the callback makes of the tree and whether it returns no
      error. */
  datatype Mutation =
    | SetNoCopy(value: Val, fields: seq<string>)
    | SetField(text: string, path: seq<string>)
    | PodSpec(after: Heap, afterNext: nat, done: bool)
    | ReadJSON

  predicate WellFormed(m: Mutation, root: nat) {
    match m
    case SetNoCopy(_, fields) => fields != []
    case SetField(_, path) => path != []
    case PodSpec(after, afterNext, _) => Closed(after, afterNext) && root in after
    case ReadJSON => true
  }

  /** A map passed to be set is one that exists at that point. */
  function Mutated(marshal: Marshal, d: Document, root: nat, kind: string, m: Mutation): (d': Document)
    requires WellFormed(m, root) && DocumentOk(d, root)
    ensures DocumentOk(d', root)
  {
    match m
    case SetNoCopy(value, fields) =>
      if (value.Dir? && value.addr !in d.heap) || !Settable(d.heap, root, fields) then d
      else
        WrittenIsClosed(d.heap, d.next, root, fields, value);
        var (h, n) := Written(d.heap, d.next, root, fields, value);
        Document(h, n, None)
    case SetField(text, path) =>
      WrittenIsClosed(d.heap, d.next, root, path, Leaf(text));
      var (h, n) := Written(d.heap, d.next, root, path, Leaf(text));
      Document(h, n, None)
    case PodSpec(after, afterNext, done) =>
      var spec := ReadPath(d.heap, Dir(root), PodSpecPath(kind));
      if spec.Found? && spec.v.Dir? then Document(after, afterNext, if done then None else d.json) else d
    case ReadJSON => if d.json.Some? then d else d.(json := marshal(d.heap, root))
  }

  lemma {:induction false} WrittenIsClosed(h: Heap, next: nat, a: nat, path: seq<string>, v: Val)
    requires path != [] && a in h && Closed(h, next) && (v.Dir? ==> v.addr in h)
    ensures var (h', next') := Written(h, next, a, path, v); Closed(h', next') && h.Keys <= h'.Keys
    decreases |path|
  {
    if Settable(h, a, path) && |path| > 1 {
      if path[0] in h[a] {
        WrittenIsClosed(h, next, h[a][path[0]].addr, path[1..], v);
      } else {
        WrittenIsClosed(Sprout(h, next, a, path[0]), next + 1, next, path[1..], v);
      }
    }
  }

  method Mutate(o: ManifestObject, m: Mutation)
    requires o.Valid() && WellFormed(m, o.root)
    modifies o
    ensures o.Valid() && o.Contents() == Mutated(o.marshal, old(o.Contents()), o.root, o.kind, m)
  {
    match m
    case SetNoCopy(value, fields) =>
      if value.Leaf? || value.addr in o.heap {
        var _ := o.SetNestedFieldNoCopy(value, fields);
      }
    case SetField(text, path) => var _ := o.SetNestedField(text, path);
    case PodSpec(after, afterNext, done) => var _ := o.MutatePodSpec(after, afterNext, done);
    case ReadJSON => var _ := o.JSON();
  }

  function Replay(marshal: Marshal, d: Document, root: nat, kind: string, steps: seq<Mutation>): (d': Document)
    requires DocumentOk(d, root) && forall m :: m in steps ==> WellFormed(m, root)
    ensures DocumentOk(d', root)
  {
    if steps == [] then d
    else Mutated(marshal, Replay(marshal, d, root, kind, steps[..|steps| - 1]), root, kind, steps[|steps| - 1])
  }

  /** After how many of the steps the JSON that is kept now came in; all of them if none is. */
  function KeptSince(marshal: Marshal, d: Document, root: nat, kind: string, steps: seq<Mutation>): (n: nat)
    requires DocumentOk(d, root) && forall m :: m in steps ==> WellFormed(m, root)
    ensures n <= |steps|
  {
    if steps == [] then 0
    else
      var front := steps[..|steps| - 1];
      if Replay(marshal, d, root, kind, steps).json.None? || Replay(marshal, d, root, kind, front).json.None?
      then |steps|
      else KeptSince(marshal, d, root, kind, front)
  }

  lemma MutatedJson(marshal: Marshal, d: Document, root: nat, kind: string, m: Mutation)
    requires DocumentOk(d, root) && WellFormed(m, root)
    ensures var d' := Mutated(marshal, d, root, kind, m);
            d'.json.Some? ==> d'.json == if d.json.Some? then d.json else marshal(d'.heap, root)
  {}

  /** The JSON kept is what the tree marshalled to when it came in, or the bytes there were at
      first. */
  lemma {:induction false} BytesComeFrom(marshal: Marshal, d: Document, root: nat, kind: string, steps: seq<Mutation>)
    requires DocumentOk(d, root) && forall m :: m in steps ==> WellFormed(m, root)
    ensures var d', n := Replay(marshal, d, root, kind, steps), KeptSince(marshal, d, root, kind, steps);
            d'.json.Some? ==>
              d'.json == if n == 0 then d.json else marshal(Replay(marshal, d, root, kind, steps[..n]).heap, root)
  {
    if steps == [] {
    } else {
      var front := steps[..|steps| - 1];
      BytesComeFrom(marshal, d, root, kind, front);
      MutatedJson(marshal, Replay(marshal, d, root, kind, front), root, kind, steps[|steps| - 1]);
      assert steps[..|steps|] == steps;
      var m := KeptSince(marshal, d, root, kind, front);
      assert front[..m] == steps[..m];
    }
  }

  /** It stands for the tree exactly when the tree looks as it did when the JSON came in. */
  lemma FreshExactly(marshal: Marshal, decode: string -> Heap, d: Document, root: nat, kind: string,
                     steps: seq<Mutation>)
    requires Decodes(marshal, decode, root) && DocumentOk(d, root) && Fresh(decode, d, root)
    requires forall m :: m in steps ==> WellFormed(m, root)
    ensures var d', n := Replay(marshal, d, root, kind, steps), KeptSince(marshal, d, root, kind, steps);
            var at := Replay(marshal, d, root, kind, steps[..n]);
            Fresh(decode, d', root) <==> d'.json.None? || SameTree(at.heap, d'.heap, root)
  {
    var d', n := Replay(marshal, d, root, kind, steps), KeptSince(marshal, d, root, kind, steps);
    var at := Replay(marshal, d, root, kind, steps[..n]);
    BytesComeFrom(marshal, d, root, kind, steps);
    if d'.json.Some? {
      assert SameTree(decode(d'.json.value), at.heap, root);
      SameAsTheSame(decode(d'.json.value), at.heap, d'.heap, root);
    }
  }

  lemma SameAsTheSame(h: Heap, h': Heap, h'': Heap, a: nat)
    requires SameTree(h, h', a)
    ensures SameTree(h, h'', a) <==> SameTree(h', h'', a)
  {}

  /** Calls of which no callback fails leave no doubt about it. */
  lemma {:induction false} FreshWithoutFailure(marshal: Marshal, d: Document, root: nat, kind: string,
                                               steps: seq<Mutation>)
    requires DocumentOk(d, root) && forall m :: m in steps ==> WellFormed(m, root) && (m.PodSpec? ==> m.done)
    ensures var d', n := Replay(marshal, d, root, kind, steps), KeptSince(marshal, d, root, kind, steps);
            d'.json.Some? ==> d'.heap == Replay(marshal, d, root, kind, steps[..n]).heap
  {
    if steps == [] {
    } else {
      var front := steps[..|steps| - 1];
      FreshWithoutFailure(marshal, d, root, kind, front);
      assert steps[..|steps|] == steps;
      var m := KeptSince(marshal, d, root, kind, front);
      assert front[..m] == steps[..m];
    }
  }

  /** Whatever is called and whenever the JSON is asked for in between, the tree is what the calls
      make of it, one after the other, and the JSON returned at the end stands for the tree as it
      was when those bytes came in: the current one, unless a callback failed after that. */
  method ApplyMutations(o: ManifestObject, steps: seq<Mutation>) returns (json: Option<string>)
    requires o.Valid() && Fresh(o.decode, o.Contents(), o.root) && forall m :: m in steps ==> WellFormed(m, o.root)
    modifies o
    ensures o.Valid() && json == o.json
    ensures o.Contents() == Replay(o.marshal, old(o.Contents()), o.root, o.kind, steps + [ReadJSON])
    ensures json.Some? ==>
              var n := KeptSince(o.marshal, old(o.Contents()), o.root, o.kind, steps + [ReadJSON]);
              var at := Replay(o.marshal, old(o.Contents()), o.root, o.kind, (steps + [ReadJSON])[..n]).heap;
              && (SameTree(o.decode(json.value), o.heap, o.root) <==> SameTree(at, o.heap, o.root))
              && json == (if n == 0 then old(o.json) else o.marshal(at, o.root))
              && ((forall m :: m in steps && m.PodSpec? ==> m.done) ==> at == o.heap)
  {
    ghost var d := o.Contents();
    Play(o, steps);
    assert (steps + [ReadJSON])[..|steps|] == steps;
    json := o.JSON();
    JsonReturned(o.marshal, o.decode, d, o.root, o.kind, steps);
  }

  method Play(o: ManifestObject, steps: seq<Mutation>)
    requires o.Valid() && forall m :: m in steps ==> WellFormed(m, o.root)
    modifies o
    ensures o.Valid() && o.Contents() == Replay(o.marshal, old(o.Contents()), o.root, o.kind, steps)
  {
    for i := 0 to |steps|
      invariant o.Valid() && forall m :: m in steps[..i] ==> WellFormed(m, o.root)
      invariant o.Contents() == Replay(o.marshal, old(o.Contents()), o.root, o.kind, steps[..i])
    {
      assert steps[..i + 1][..i] == steps[..i];
      Mutate(o, steps[i]);
    }
    assert steps[..|steps|] == steps;
  }

  lemma JsonReturned(marshal: Marshal, decode: string -> Heap, d: Document, root: nat, kind: string,
                     steps: seq<Mutation>)
    requires Decodes(marshal, decode, root) && DocumentOk(d, root) && Fresh(decode, d, root)
    requires forall m :: m in steps ==> WellFormed(m, root)
    ensures var all := steps + [ReadJSON];
            var d', n := Replay(marshal, d, root, kind, all), KeptSince(marshal, d, root, kind, all);
            d'.json.Some? ==>
              var at := Replay(marshal, d, root, kind, all[..n]).heap;
              && (SameTree(decode(d'.json.value), d'.heap, root) <==> SameTree(at, d'.heap, root))
              && d'.json == (if n == 0 then d.json else marshal(at, root))
              && ((forall m :: m in steps && m.PodSpec? ==> m.done) ==> at == d'.heap)
  {
    BytesComeFrom(marshal, d, root, kind, steps + [ReadJSON]);
    FreshExactly(marshal, decode, d, root, kind, steps + [ReadJSON]);
    if forall m :: m in steps && m.PodSpec? ==> m.done {
      FreshWithoutFailure(marshal, d, root, kind, steps + [ReadJSON]);
    }
  }
}
