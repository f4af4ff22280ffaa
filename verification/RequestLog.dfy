/** The recorder's normalisation of parallel requests: neighbouring discovery GETs are
    bubbled into order, and nothing moves past any other request. */
module RequestLog {
  import opened Text
  import opened Collections

  /** `path` is the parsed URL's path, or nothing when the URL does not parse. */
  datatype LogEntry = LogEntry(httpMethod: string, path: Option<string>, body: string)

  function TrimSlash(s: string): string {
    if s != "" && s[0] == '/' then s[1..] else s
  }

  function DiscoveryPath(path: string): bool {
    || path == "/apis" || path == "/api/v1" || path == "/apis/v1"
    || var tokens := Split(TrimSlash(path), '/'); |tokens| == 3 && tokens[0] == "apis"
  }

  predicate NoSlash(s: string) {
    '/' !in s
  }

  /** The paths of discovery: the roots, and one version of one group. */
  lemma DiscoveryPathExactly(path: string)
    ensures DiscoveryPath(path) <==>
            || path in ["/apis", "/api/v1", "/apis/v1"]
            || exists g, v :: NoSlash(g) && NoSlash(v) && TrimSlash(path) == "apis" + "/" + g + "/" + v
  {
    var rest := TrimSlash(path);
    var tokens := Split(rest, '/');
    if |tokens| == 3 && tokens[0] == "apis" {
      JoinSplit(rest, '/');
      ThreeParts("apis", tokens[1], tokens[2]);
      assert tokens == ["apis", tokens[1], tokens[2]];
      assert NoSlash(tokens[1]) && NoSlash(tokens[2]);
    }
    if g, v :| NoSlash(g) && NoSlash(v) && rest == "apis" + "/" + g + "/" + v {
      ThreeParts("apis", g, v);
    }
  }

  lemma ThreeParts(a: string, g: string, v: string)
    requires NoSlash(a) && NoSlash(g) && NoSlash(v)
    ensures Split(a + "/" + g + "/" + v, '/') == [a, g, v] && Join([a, g, v], '/') == a + "/" + g + "/" + v
  {
    SplitWithoutSeparator(a, '/');
    SplitWithoutSeparator(g, '/');
    SplitWithoutSeparator(v, '/');
    SplitAtSeparator(g, v, '/');
    SplitAtSeparator(a, g + "/" + v, '/');
    assert a + "/" + (g + "/" + v) == a + "/" + g + "/" + v;
    assert Join([g, v], '/') == g + "/" + v;
    assert [a, g, v][1..] == [g, v];
  }

  /** The sort key of an entry that may be moved. */
  function SwapKey(e: LogEntry): Option<string> {
    if e.httpMethod == "GET" && e.path.Some? && DiscoveryPath(e.path.value) then e.path else None
  }

  /** `a` and `b` may be moved and `a` sorts strictly first. */
  predicate Before(a: LogEntry, b: LogEntry) {
    SwapKey(a).Some? && SwapKey(b).Some? && Less(SwapKey(a).value, SwapKey(b).value)
  }

  lemma BeforeIsAnOrder(a: LogEntry, b: LogEntry, c: LogEntry)
    ensures !(Before(a, b) && Before(b, a))
    ensures Before(a, b) && Before(b, c) ==> Before(a, c)
  {
    if Before(a, b) {
      LessIsStrict(SwapKey(a).value, SwapKey(b).value);
      if Before(b, c) {
        LessIsTransitive(SwapKey(a).value, SwapKey(b).value, SwapKey(c).value);
      }
    }
  }

  // The reference: insertion sort that stops at every entry that may not be moved.

  function Place(x: LogEntry, t: seq<LogEntry>): seq<LogEntry> {
    if t == [] || !Before(t[0], x) then [x] + t else [t[0]] + Place(x, t[1..])
  }

  function Normalized(s: seq<LogEntry>): seq<LogEntry> {
    if s == [] then [] else Place(s[0], Normalized(s[1..]))
  }

  /** No neighbours are out of order. */
  ghost predicate Settled(s: seq<LogEntry>) {
    forall i, j :: 0 <= i < j < |s| && j == i + 1 ==> !Before(s[j], s[i])
  }

  lemma {:induction false} PlaceCommutes(a: LogEntry, b: LogEntry, t: seq<LogEntry>)
    requires Before(b, a)
    ensures Place(a, Place(b, t)) == Place(b, Place(a, t))
    decreases |t|
  {
    BeforeIsAnOrder(a, b, a);
    if t == [] {
      assert ([b] + [])[1..] == [];
    } else {
      var h := t[0];
      BeforeIsAnOrder(h, b, a);
      assert ([b] + t)[1..] == t;
      assert ([h] + Place(a, t[1..]))[1..] == Place(a, t[1..]);
      assert ([h] + Place(b, t[1..]))[1..] == Place(b, t[1..]);
      if Before(h, b) {
        PlaceCommutes(a, b, t[1..]);
      }
    }
  }

  function Swapped(s: seq<LogEntry>, i: nat): seq<LogEntry>
    requires i + 1 < |s|
  {
    s[i := s[i + 1]][i + 1 := s[i]]
  }

  /** The pass may swap freely: the normal form does not change. */
  lemma {:induction false} SwapKeepsNormalForm(s: seq<LogEntry>, i: nat)
    requires i + 1 < |s| && Before(s[i + 1], s[i])
    ensures Normalized(Swapped(s, i)) == Normalized(s)
    decreases i
  {
    var t := Swapped(s, i);
    if i == 0 {
      var rest := Normalized(s[2..]);
      assert s[1..][1..] == s[2..] && t[1..][1..] == s[2..];
      assert t[0] == s[1] && t[1..][0] == s[0];
      PlaceCommutes(s[0], s[1], rest);
    } else {
      assert t[1..] == Swapped(s[1..], i - 1);
      SwapKeepsNormalForm(s[1..], i - 1);
    }
  }

  lemma {:induction false} SettledIsNormal(s: seq<LogEntry>)
    requires Settled(s)
    ensures Normalized(s) == s
  {
    if s != [] {
      forall i | 0 <= i < |s[1..]| - 1 ensures !Before(s[1..][i + 1], s[1..][i]) {
        assert !Before(s[i + 1 + 1], s[i + 1]);
      }
      SettledIsNormal(s[1..]);
      assert |s| > 1 ==> !Before(s[0 + 1], s[0]);
      assert s == [s[0]] + s[1..];
    }
  }

  // Termination: every swap removes one inversion.

  function CountBefore(x: LogEntry, t: seq<LogEntry>): nat {
    if t == [] then 0 else (if Before(t[0], x) then 1 else 0) + CountBefore(x, t[1..])
  }

  function Inversions(s: seq<LogEntry>): nat {
    if s == [] then 0 else CountBefore(s[0], s[1..]) + Inversions(s[1..])
  }

  lemma {:induction false} CountIgnoresSwap(x: LogEntry, t: seq<LogEntry>, i: nat)
    requires i + 1 < |t|
    ensures CountBefore(x, Swapped(t, i)) == CountBefore(x, t)
    decreases i
  {
    var u := Swapped(t, i);
    if i == 0 {
      assert t[1..][1..] == t[2..] && u[1..][1..] == t[2..];
      assert u[0] == t[1] && u[1..][0] == t[0];
    } else {
      assert u[1..] == Swapped(t[1..], i - 1);
      CountIgnoresSwap(x, t[1..], i - 1);
    }
  }

  lemma {:induction false} SwapRemovesInversion(s: seq<LogEntry>, i: nat)
    requires i + 1 < |s| && Before(s[i + 1], s[i])
    ensures Inversions(Swapped(s, i)) == Inversions(s) - 1
    decreases i
  {
    var t := Swapped(s, i);
    if i == 0 {
      BeforeIsAnOrder(s[0], s[1], s[0]);
      assert s[1..][1..] == s[2..] && t[1..][1..] == s[2..];
      assert t[0] == s[1] && t[1..][0] == s[0] && s[1..][0] == s[1];
    } else {
      assert t[1..] == Swapped(s[1..], i - 1);
      CountIgnoresSwap(s[0], s[1..], i - 1);
      SwapRemovesInversion(s[1..], i - 1);
    }
  }

  class Log {
    var entries: array<LogEntry>

    constructor (entries: array<LogEntry>)
      ensures this.entries == entries
    {
      this.entries := entries;
    }

    method SwapAt(i: nat)
      requires i + 1 < entries.Length && Before(entries[i + 1], entries[i])
      modifies entries
      ensures Normalized(entries[..]) == Normalized(old(entries[..]))
      ensures Inversions(entries[..]) < Inversions(old(entries[..]))
    {
      SwapKeepsNormalForm(entries[..], i);
      SwapRemovesInversion(entries[..], i);
      var a, b := entries[i], entries[i + 1];
      entries[i + 1] := a;
      entries[i] := b;
      assert entries[..] == Swapped(old(entries[..]), i);
    }

    /** One pass over all neighbours. */
    method Pass() returns (changed: bool)
      modifies entries
      ensures Normalized(entries[..]) == Normalized(old(entries[..]))
      ensures changed ==> Inversions(entries[..]) < Inversions(old(entries[..]))
      ensures !changed ==> entries[..] == old(entries[..]) && Settled(entries[..])
    {
      changed := false;
      var i := 0;
      while i + 1 < entries.Length
        invariant Normalized(entries[..]) == Normalized(old(entries[..]))
        invariant changed ==> Inversions(entries[..]) < Inversions(old(entries[..]))
        invariant !changed ==> entries[..] == old(entries[..])
        invariant !changed ==> forall j :: 0 <= j < i && j + 1 < entries.Length ==> !Before(entries[j + 1], entries[j])
      {
        if Before(entries[i + 1], entries[i]) {
          SwapAt(i);
          changed := true;
        }
        i := i + 1;
      }
    }

    /** Passes again until a whole pass changes nothing. */
    method SortGETs()
      modifies entries
      ensures entries[..] == Normalized(old(entries[..]))
    {
      var changed := Pass();
      while changed
        invariant Normalized(entries[..]) == Normalized(old(entries[..]))
        invariant !changed ==> Settled(entries[..])
        decreases Inversions(entries[..]), changed
      {
        changed := Pass();
      }
      SettledIsNormal(entries[..]);
    }
  }

  // What the normal form is.

  predicate Movable(e: LogEntry) {
    SwapKey(e).Some?
  }

  /** What may be moved are the GETs of discovery, and they are sorted by their paths. */
  lemma MovableExactly(e: LogEntry)
    ensures Movable(e) <==>
            && e.httpMethod == "GET" && e.path.Some?
            && (|| e.path.value in ["/apis", "/api/v1", "/apis/v1"]
                || exists g, v :: NoSlash(g) && NoSlash(v) && TrimSlash(e.path.value) == "apis" + "/" + g + "/" + v)
    ensures Movable(e) ==> SwapKey(e) == e.path
  {
    if e.path.Some? {
      DiscoveryPathExactly(e.path.value);
    }
  }

  /** `a` is `b` with only movable entries exchanged. */
  ghost predicate SameBarriers(a: seq<LogEntry>, b: seq<LogEntry>) {
    && |a| == |b|
    && forall i :: 0 <= i < |a| ==> (Movable(a[i]) <==> Movable(b[i])) && (Movable(a[i]) || a[i] == b[i])
  }

  lemma {:induction false} PlacePermutes(x: LogEntry, t: seq<LogEntry>)
    ensures multiset(Place(x, t)) == multiset{x} + multiset(t)
  {
    if t != [] && Before(t[0], x) {
      PlacePermutes(x, t[1..]);
      assert t == [t[0]] + t[1..];
    }
  }

  lemma {:induction false} PlaceKeepsBarriers(x: LogEntry, t: seq<LogEntry>)
    ensures SameBarriers(Place(x, t), [x] + t)
  {
    if t != [] && Before(t[0], x) {
      var rest, p := Place(x, t[1..]), Place(x, t);
      PlaceKeepsBarriers(x, t[1..]);
      forall i | 0 <= i < |p|
        ensures (Movable(p[i]) <==> Movable(([x] + t)[i])) && (Movable(p[i]) || p[i] == ([x] + t)[i])
      {
        if i > 0 {
          assert p[i] == rest[i - 1];
          assert i > 1 ==> ([x] + t)[i] == ([x] + t[1..])[i - 1];
        }
      }
    }
  }

  lemma {:induction false} NormalizedPermutes(s: seq<LogEntry>)
    ensures multiset(Normalized(s)) == multiset(s)
  {
    if s != [] {
      NormalizedPermutes(s[1..]);
      PlacePermutes(s[0], Normalized(s[1..]));
      assert s == [s[0]] + s[1..];
    }
  }

  /** Every entry that may not be moved stays at its index. */
  lemma {:induction false} NormalizedKeepsBarriers(s: seq<LogEntry>)
    ensures SameBarriers(Normalized(s), s)
  {
    if s != [] {
      var t := Normalized(s[1..]);
      NormalizedKeepsBarriers(s[1..]);
      PlaceKeepsBarriers(s[0], t);
      forall i | 0 <= i < |s|
        ensures (Movable(Normalized(s)[i]) <==> Movable(s[i])) && (Movable(s[i]) || Normalized(s)[i] == s[i])
      {
        assert Movable(Normalized(s)[i]) <==> Movable(([s[0]] + t)[i]);
        assert i > 0 ==> ([s[0]] + t)[i] == t[i - 1] && s[i] == s[1..][i - 1];
      }
    }
  }

  lemma {:induction false} PlaceSettles(x: LogEntry, t: seq<LogEntry>)
    requires Settled(t)
    ensures Settled(Place(x, t))
    ensures Place(x, t)[0] == x || (t != [] && Place(x, t)[0] == t[0])
  {
    if t != [] {
      if Before(t[0], x) {
        forall i | 0 <= i < |t[1..]| - 1 ensures !Before(t[1..][i + 1], t[1..][i]) {
          assert !Before(t[i + 1 + 1], t[i + 1]);
        }
        var rest := Place(x, t[1..]);
        PlaceSettles(x, t[1..]);
        BeforeIsAnOrder(t[0], x, t[0]);
        assert |t| > 1 ==> !Before(t[0 + 1], t[0]);
        assert !Before(rest[0], t[0]);
        forall i | 0 <= i < |rest| ensures !Before(([t[0]] + rest)[i + 1], ([t[0]] + rest)[i]) {
          if i > 0 { assert !Before(rest[i - 1 + 1], rest[i - 1]); }
        }
      } else {
        forall i | 0 <= i < |t| ensures !Before(([x] + t)[i + 1], ([x] + t)[i]) {
          if i > 0 { assert !Before(t[i - 1 + 1], t[i - 1]); }
        }
      }
    }
  }

  lemma {:induction false} NormalizedSettles(s: seq<LogEntry>)
    ensures Settled(Normalized(s))
  {
    if s != [] {
      NormalizedSettles(s[1..]);
      PlaceSettles(s[0], Normalized(s[1..]));
    }
  }

  lemma NeighboursAreSorted(s: seq<LogEntry>, i: nat)
    requires Settled(s) && i + 1 < |s| && Movable(s[i]) && Movable(s[i + 1])
    ensures AtMost(SwapKey(s[i]).value, SwapKey(s[i + 1]).value)
  {
    assert !Before(s[i + 1], s[i]);
  }

  /** Within a run of movable entries the keys are in order, neighbours or not. */
  lemma {:induction false} RunIsSorted(s: seq<LogEntry>, i: nat, j: nat)
    requires Settled(s) && i <= j < |s| && forall k :: i <= k <= j ==> Movable(s[k])
    ensures Movable(s[i]) && Movable(s[j]) && AtMost(SwapKey(s[i]).value, SwapKey(s[j]).value)
    decreases j - i
  {
    if i == j {
      LessIsStrict(SwapKey(s[i]).value, SwapKey(s[i]).value);
    } else {
      RunIsSorted(s, i, j - 1);
      NeighboursAreSorted(s, j - 1);
      AtMostIsTransitive(SwapKey(s[i]).value, SwapKey(s[j - 1]).value, SwapKey(s[j]).value);
    }
  }

  function WithKey(s: seq<LogEntry>, key: string): seq<LogEntry> {
    if s == [] then []
    else (if SwapKey(s[0]) == Some(key) then [s[0]] else []) + WithKey(s[1..], key)
  }

  lemma {:induction false} PlaceIsStable(x: LogEntry, t: seq<LogEntry>, key: string)
    ensures WithKey(Place(x, t), key) == WithKey([x] + t, key)
  {
    if t != [] && Before(t[0], x) {
      var y, rest := t[0], t[1..];
      PlaceIsStable(x, rest, key);
      OneKeyAtMost(y, x, key);
      KeysCommute(x, y, Place(x, rest), rest, key);
      assert t == [y] + rest;
    }
  }

  /** Of two entries with different keys at most one counts, so either may come first. */
  lemma KeysCommute(x: LogEntry, y: LogEntry, placed: seq<LogEntry>, rest: seq<LogEntry>, key: string)
    requires WithKey(placed, key) == WithKey([x] + rest, key) && (IfKey(x, key) == [] || IfKey(y, key) == [])
    ensures WithKey([y] + placed, key) == WithKey([x] + ([y] + rest), key)
  {
    WithKeyCons(y, placed, key);
    WithKeyCons(x, rest, key);
    WithKeyCons(x, [y] + rest, key);
    WithKeyCons(y, rest, key);
  }

  function IfKey(x: LogEntry, key: string): seq<LogEntry> {
    if SwapKey(x) == Some(key) then [x] else []
  }

  lemma WithKeyCons(x: LogEntry, t: seq<LogEntry>, key: string)
    ensures WithKey([x] + t, key) == IfKey(x, key) + WithKey(t, key)
  {
    assert ([x] + t)[1..] == t;
  }

  lemma OneKeyAtMost(a: LogEntry, b: LogEntry, key: string)
    requires Before(a, b)
    ensures IfKey(b, key) == [] || IfKey(a, key) == []
  {
    LessIsStrict(SwapKey(a).value, SwapKey(b).value);
  }

  /** Entries with the same key keep their order. */
  lemma {:induction false} NormalizedIsStable(s: seq<LogEntry>, key: string)
    ensures WithKey(Normalized(s), key) == WithKey(s, key)
  {
    if s != [] {
      var t := Normalized(s[1..]);
      NormalizedIsStable(s[1..], key);
      PlaceIsStable(s[0], t, key);
      assert ([s[0]] + t)[1..] == t;
    }
  }

  lemma {:induction false} PlaceStopsAtBarrier(x: LogEntry, a: seq<LogEntry>, barrier: LogEntry, b: seq<LogEntry>)
    requires !Movable(barrier)
    ensures Place(x, a + [barrier] + b) == Place(x, a) + [barrier] + b
  {
    var t := a + [barrier] + b;
    if a != [] {
      assert t[1..] == a[1..] + [barrier] + b;
      PlaceStopsAtBarrier(x, a[1..], barrier, b);
    }
  }

  /** Each run between barriers is normalised on its own. */
  lemma {:induction false} NormalizedRunByRun(a: seq<LogEntry>, barrier: LogEntry, b: seq<LogEntry>)
    requires !Movable(barrier)
    ensures Normalized(a + [barrier] + b) == Normalized(a) + [barrier] + Normalized(b)
  {
    var s := a + [barrier] + b;
    if a == [] {
      assert s[1..] == b;
    } else {
      assert s[1..] == a[1..] + [barrier] + b;
      NormalizedRunByRun(a[1..], barrier, b);
      PlaceStopsAtBarrier(a[0], Normalized(a[1..]), barrier, Normalized(b));
    }
  }

  /** Normalising twice is normalising once. */
  lemma NormalizedIsIdempotent(s: seq<LogEntry>)
    ensures Normalized(Normalized(s)) == Normalized(s)
  {
    NormalizedSettles(s);
    SettledIsNormal(Normalized(s));
  }
}
