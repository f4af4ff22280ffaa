/** Go string primitives used across the project: byte order, `strings.Split`,
    `strings.Join` and `sort.Strings`. */
module Text {

  /** Go's `<` on strings. */
  predicate Less(a: string, b: string) {
    b != "" && (a == "" || a[0] < b[0] || (a[0] == b[0] && Less(a[1..], b[1..])))
  }

  /** The strings agree up to `k`, where `a` ends or has the smaller character. */
  predicate FirstDiffersAt(a: string, b: string, k: nat) {
    k <= |a| && k < |b| && a[..k] == b[..k] && (k == |a| || a[k] < b[k])
  }

  lemma {:induction false} LessExactly(a: string, b: string)
    ensures Less(a, b) <==> exists k: nat :: FirstDiffersAt(a, b, k)
  {
    if a != "" && b != "" && a[0] == b[0] {
      LessExactly(a[1..], b[1..]);
      if Less(a, b) {
        var k: nat :| FirstDiffersAt(a[1..], b[1..], k);
        assert a[..k + 1] == [a[0]] + a[1..][..k] && b[..k + 1] == [b[0]] + b[1..][..k];
        assert FirstDiffersAt(a, b, k + 1);
      }
      if k: nat :| FirstDiffersAt(a, b, k) {
        assert k > 0 && a[1..][..k - 1] == a[..k][1..] && b[1..][..k - 1] == b[..k][1..];
        assert FirstDiffersAt(a[1..], b[1..], k - 1);
      }
    } else {
      assert Less(a, b) ==> FirstDiffersAt(a, b, 0);
      assert forall k: nat :: k > 0 && FirstDiffersAt(a, b, k) ==> a[..k][0] == b[..k][0];
    }
  }

  predicate AtMost(a: string, b: string) {
    !Less(b, a)
  }

  lemma {:induction false} LessIsStrict(a: string, b: string)
    ensures !(Less(a, b) && Less(b, a))
    ensures Less(a, b) || Less(b, a) || a == b
    ensures a == b ==> !Less(a, b)
  {
    if a != "" && b != "" && a[0] == b[0] {
      LessIsStrict(a[1..], b[1..]);
      assert a == [a[0]] + a[1..] && b == [b[0]] + b[1..];
    }
  }

  lemma {:induction false} LessIsTransitive(a: string, b: string, c: string)
    requires Less(a, b) && Less(b, c)
    ensures Less(a, c)
  {
    if a != "" && a[0] == b[0] && b[0] == c[0] {
      LessIsTransitive(a[1..], b[1..], c[1..]);
    }
  }

  lemma AtMostIsTransitive(a: string, b: string, c: string)
    requires AtMost(a, b) && AtMost(b, c)
    ensures AtMost(a, c)
  {
    LessIsStrict(a, b);
    LessIsStrict(b, c);
    if Less(c, a) {
      if a == b {
      } else if b == c {
      } else {
        LessIsTransitive(c, a, b);
        LessIsTransitive(a, b, c);
        LessIsStrict(a, c);
      }
    }
  }

  /** `strings.Split(s, string(sep))`: never empty, and `[""]` for `""`. */
  function Split(s: string, sep: char): (parts: seq<string>)
    ensures |parts| >= 1
    ensures forall p :: p in parts ==> sep !in p
  {
    if s == "" then [""]
    else
      var rest := Split(s[1..], sep);
      if s[0] == sep then [""] + rest else [[s[0]] + rest[0]] + rest[1..]
  }

  /** `strings.Join(parts, string(sep))`. */
  function Join(parts: seq<string>, sep: char): string {
    if parts == [] then ""
    else if |parts| == 1 then parts[0]
    else parts[0] + [sep] + Join(parts[1..], sep)
  }

  lemma {:induction false} SplitAtSeparator(a: string, b: string, sep: char)
    ensures Split(a + [sep] + b, sep) == Split(a, sep) + Split(b, sep)
  {
    var s := a + [sep] + b;
    if a == "" {
      assert s[1..] == b;
    } else {
      assert s[0] == a[0] && s[1..] == a[1..] + [sep] + b;
      SplitAtSeparator(a[1..], b, sep);
      PutInFront(a[0], Split(a[1..], sep), Split(b, sep), sep);
      assert Split(a, sep) == InFront(a[0], Split(a[1..], sep), sep);
      assert Split(s, sep) == InFront(s[0], Split(s[1..], sep), sep);
    }
  }

  /** What one more character in front makes of the parts. */
  function InFront(x: char, parts: seq<string>, sep: char): seq<string>
    requires parts != []
  {
    if x == sep then [""] + parts else [[x] + parts[0]] + parts[1..]
  }

  lemma PutInFront(x: char, l: seq<string>, r: seq<string>, sep: char)
    requires l != []
    ensures InFront(x, l + r, sep) == InFront(x, l, sep) + r
  {
    assert (l + r)[1..] == l[1..] + r;
  }

  lemma {:induction false} SplitWithoutSeparator(s: string, sep: char)
    requires sep !in s
    ensures Split(s, sep) == [s]
  {
    if s != "" {
      SplitWithoutSeparator(s[1..], sep);
      assert s == [s[0]] + s[1..];
    }
  }

  /** Splitting undoes joining when no part holds the separator. */
  lemma {:induction false} SplitJoin(parts: seq<string>, sep: char)
    requires parts != []
    requires forall p :: p in parts ==> sep !in p
    ensures Split(Join(parts, sep), sep) == parts
  {
    SplitWithoutSeparator(parts[0], sep);
    if |parts| > 1 {
      SplitJoin(parts[1..], sep);
      SplitAtSeparator(parts[0], Join(parts[1..], sep), sep);
      assert parts == [parts[0]] + parts[1..];
    }
  }

  lemma {:induction false} JoinConcat(a: seq<string>, b: seq<string>, sep: char)
    requires a != [] && b != []
    ensures Join(a + b, sep) == Join(a, sep) + [sep] + Join(b, sep)
  {
    if |a| == 1 {
      assert (a + b)[1..] == b;
    } else {
      assert (a + b)[1..] == a[1..] + b;
      JoinConcat(a[1..], b, sep);
    }
  }

  /** Joining undoes splitting, always. */
  lemma {:induction false} JoinSplit(s: string, sep: char)
    ensures Join(Split(s, sep), sep) == s
  {
    if s != "" {
      JoinSplit(s[1..], sep);
      var rest := Split(s[1..], sep);
      if s[0] == sep {
        assert ([""] + rest)[1..] == rest;
      } else {
        var parts := [[s[0]] + rest[0]] + rest[1..];
        assert parts[1..] == rest[1..];
      }
    }
  }

  /** A separator-free part survives a round trip whatever its neighbours hold. */
  lemma {:induction false} PartSurvives(parts: seq<string>, p: string, sep: char)
    requires p in parts && sep !in p
    ensures p in Split(Join(parts, sep), sep)
  {
    if |parts| == 1 {
      SplitWithoutSeparator(p, sep);
    } else {
      SplitAtSeparator(parts[0], Join(parts[1..], sep), sep);
      if p == parts[0] {
        SplitWithoutSeparator(p, sep);
      } else {
        PartSurvives(parts[1..], p, sep);
      }
    }
  }

  lemma JoinIsEmpty(parts: seq<string>, sep: char)
    ensures Join(parts, sep) == "" <==> parts == [] || parts == [""]
  {
    if |parts| > 1 {
      assert sep in Join(parts, sep);
    }
  }

  ghost predicate Sorted(xs: seq<string>) {
    forall i, j :: 0 <= i < j < |xs| ==> AtMost(xs[i], xs[j])
  }

  function Insert(x: string, ys: seq<string>): seq<string> {
    if ys == [] || AtMost(x, ys[0]) then [x] + ys else [ys[0]] + Insert(x, ys[1..])
  }

  /** `sort.Strings`. */
  function Sort(xs: seq<string>): seq<string> {
    if xs == [] then [] else Insert(xs[0], Sort(xs[1..]))
  }

  lemma {:induction false} InsertKeepsOrder(x: string, ys: seq<string>)
    requires Sorted(ys)
    ensures Sorted(Insert(x, ys))
    ensures multiset(Insert(x, ys)) == multiset{x} + multiset(ys)
  {
    if ys == [] {
    } else if AtMost(x, ys[0]) {
      forall j | 0 <= j < |ys| ensures AtMost(x, ys[j]) {
        if j > 0 { AtMostIsTransitive(x, ys[0], ys[j]); }
      }
    } else {
      var rest := Insert(x, ys[1..]);
      InsertKeepsOrder(x, ys[1..]);
      assert ys == [ys[0]] + ys[1..];
      forall j | 0 <= j < |rest| ensures AtMost(ys[0], rest[j]) {
        LessIsStrict(x, ys[0]);
        assert rest[j] in multiset(rest);
      }
    }
  }

  lemma {:induction false} SortSorts(xs: seq<string>)
    ensures Sorted(Sort(xs))
    ensures multiset(Sort(xs)) == multiset(xs)
  {
    if xs != [] {
      SortSorts(xs[1..]);
      InsertKeepsOrder(xs[0], Sort(xs[1..]));
      assert xs == [xs[0]] + xs[1..];
    }
  }

  lemma {:induction false} SortedIsUnique(a: seq<string>, b: seq<string>)
    requires Sorted(a) && Sorted(b) && multiset(a) == multiset(b)
    ensures a == b
  {
    if a == [] {
      assert |multiset(b)| == 0;
    } else {
      assert a[0] in multiset(b) && |multiset(b)| == |multiset(a)|;
      assert b[0] in multiset(a);
      LessIsStrict(a[0], b[0]);
      assert AtMost(a[0], b[0]) && AtMost(b[0], a[0]);
      assert a == [a[0]] + a[1..] && b == [b[0]] + b[1..];
      assert multiset(a[1..]) == multiset(a) - multiset{a[0]};
      SortedIsUnique(a[1..], b[1..]);
    }
  }

  /** Sorting forgets the order it was given. */
  lemma SortIgnoresOrder(a: seq<string>, b: seq<string>)
    requires multiset(a) == multiset(b)
    ensures Sort(a) == Sort(b)
  {
    SortSorts(a);
    SortSorts(b);
    SortedIsUnique(Sort(a), Sort(b));
  }
}
