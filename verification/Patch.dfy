/** The untyped merge patch of the mock API server. */
module Patch {
  import opened Collections

  datatype Value =
    | Null
    | Bool(b: bool)
    | Int(n: int)
    | Float(r: real)
    | Str(s: string)
    | List(items: seq<Value>)
    | Map(fields: map<string, Value>)

  predicate Scalar(v: Value) {
    v.Str? || v.Int? || v.Float?
  }

  /** `m[k]` in Go: nil when absent. */
  function Field(m: map<string, Value>, k: string): Value {
    if k in m then m[k] else Null
  }

  /** The patch value `p` can be written over the existing value `e`. What lies under an
      absent value is taken as it is, unchecked. */
  predicate Accepts(e: Value, p: Value)
    decreases p
  {
    || Scalar(p)
    || (p.Map? && (e.Null? || (e.Map? && forall k :: k in p.fields ==> Accepts(Field(e.fields, k), p.fields[k]))))
  }

  function Merge(e: Value, p: Value): Value
    requires Accepts(e, p)
    decreases p
  {
    if Scalar(p) || e.Null? then p
    else Map(map k | k in e.fields.Keys + p.fields.Keys ::
               if k in p.fields then Merge(Field(e.fields, k), p.fields[k]) else e.fields[k])
  }

  /** `existing` with the keys in `done` already patched. */
  ghost function Partly(existing: map<string, Value>, patch: map<string, Value>, done: set<string>): map<string, Value>
    requires done <= patch.Keys
    requires forall k :: k in done ==> Accepts(Field(existing, k), patch[k])
  {
    map k | k in existing.Keys + done :: if k in done then Merge(Field(existing, k), patch[k]) else existing[k]
  }

  lemma PartlyMore(existing: map<string, Value>, patch: map<string, Value>, done: set<string>, k: string)
    requires done <= patch.Keys && k in patch && k !in done
    requires forall d :: d in done + {k} ==> Accepts(Field(existing, d), patch[d])
    ensures Field(Partly(existing, patch, done), k) == Field(existing, k)
    ensures Partly(existing, patch, done)[k := Merge(Field(existing, k), patch[k])] ==
              Partly(existing, patch, done + {k})
  {}

  lemma PartlyAll(existing: map<string, Value>, patch: map<string, Value>)
    requires forall k :: k in patch ==> Accepts(Field(existing, k), patch[k])
    ensures Accepts(Map(existing), Map(patch))
    ensures Map(Partly(existing, patch, patch.Keys)) == Merge(Map(existing), Map(patch))
  {
    var whole := Merge(Map(existing), Map(patch)).fields;
    var parts := Partly(existing, patch, patch.Keys);
    assert whole.Keys == parts.Keys;
    assert whole == parts;
  }

  /** Writes the patch key by key, in whatever order Go ranges over it, stopping at the first
      value it cannot write. Neither the outcome nor the result depends on that order. */
  method ApplyPatch(existing: map<string, Value>, patch: map<string, Value>)
    returns (patched: Option<map<string, Value>>)
    ensures patched.Some? <==> Accepts(Map(existing), Map(patch))
    ensures patched.Some? ==> Map(patched.value) == Merge(Map(existing), Map(patch))
    decreases Map(patch), 0
  {
    var result, rest := existing, patch.Keys;
    ghost var done := {};
    while rest != {}
      invariant rest <= patch.Keys && done == patch.Keys - rest
      invariant forall k :: k in done ==> Accepts(Field(existing, k), patch[k])
      invariant result == Partly(existing, patch, done)
      decreases rest
    {
      var k :| k in rest;
      var value := PatchValue(Field(result, k), patch[k]);
      if value.None? {
        assert !Accepts(Field(existing, k), Map(patch).fields[k]);
        return None;
      }
      PartlyMore(existing, patch, done, k);
      result, rest, done := result[k := value.value], rest - {k}, done + {k};
    }
    PartlyAll(existing, patch);
    patched := Some(result);
  }

  /** One key: strings and numbers overwrite, an object is merged into an object. */
  method PatchValue(existing: Value, patch: Value) returns (patched: Option<Value>)
    ensures patched.Some? <==> Accepts(existing, patch)
    ensures patched.Some? ==> patched.value == Merge(existing, patch)
    decreases patch, 1
  {
    match patch
    case Str(_) => patched := Some(patch);
    case Int(_) => patched := Some(patch);
    case Float(_) => patched := Some(patch);
    case Map(fields) =>
      if existing.Null? {
        patched := Some(patch);
      } else if existing.Map? {
        var merged := ApplyPatch(existing.fields, fields);
        patched := if merged.Some? then Some(Map(merged.value)) else None;
      } else {
        patched := None;
      }
    case _ => patched := None;
  }

  // What is accepted.

  /** The patch is checked at a path only where the existing value is an object all the way. */
  predicate Checked(e: Value, path: seq<string>)
    decreases |path|
  {
    path == [] || (e.Map? && Checked(Field(e.fields, path[0]), path[1..]))
  }

  /** What is at a path, nil when there is nothing. */
  function ValueAt(e: Value, path: seq<string>): Value
    requires Checked(e, path)
    decreases |path|
  {
    if path == [] then e else ValueAt(Field(e.fields, path[0]), path[1..])
  }

  /** What a value may be written over: strings and numbers over anything, an object over an
      object or nothing, and anything else over nothing at all. */
  predicate Writable(e: Value, p: Value) {
    match p
    case Str(_) => true
    case Int(_) => true
    case Float(_) => true
    case Map(_) => e.Null? || e.Map?
    case _ => false
  }

  ghost predicate WritableAlong(e: Value, p: Value) {
    forall path: seq<string> :: Checked(e, path) && Lookup(p, path).Some? ==>
      Writable(ValueAt(e, path), Lookup(p, path).value)
  }

  /** A patch is accepted exactly if every value in it that is checked may be written over what
      is there. */
  lemma {:induction false} AcceptsExactly(e: Value, p: Value)
    ensures Accepts(e, p) <==> WritableAlong(e, p)
    decreases p
  {
    if e.Map? && p.Map? {
      forall k | k in p.fields ensures Accepts(Field(e.fields, k), p.fields[k]) <==>
                                       WritableAlong(Field(e.fields, k), p.fields[k])
      {
        AcceptsExactly(Field(e.fields, k), p.fields[k]);
      }
      AlongFields(e, p);
    } else {
      AlongNothing(e, p);
    }
  }

  lemma AlongNothing(e: Value, p: Value)
    requires !e.Map? || !p.Map?
    ensures WritableAlong(e, p) <==> Writable(e, p)
  {
    var here: seq<string> := [];
    assert Checked(e, here) && Lookup(p, here) == Some(p);
    assert forall path: seq<string> :: Checked(e, path) && Lookup(p, path).Some? ==> path == [];
  }

  lemma AlongFields(e: Value, p: Value)
    requires e.Map? && p.Map?
    ensures WritableAlong(e, p) <==> forall k :: k in p.fields ==> WritableAlong(Field(e.fields, k), p.fields[k])
  {
    if WritableAlong(e, p) {
      forall k, path: seq<string> |
        k in p.fields && Checked(Field(e.fields, k), path) && Lookup(p.fields[k], path).Some?
        ensures Writable(ValueAt(Field(e.fields, k), path), Lookup(p.fields[k], path).value)
      {
        assert ([k] + path)[1..] == path;
        assert Checked(e, [k] + path) && Lookup(p, [k] + path) == Lookup(p.fields[k], path);
      }
    } else {
      var path: seq<string> :| Checked(e, path) && Lookup(p, path).Some?
                               && !Writable(ValueAt(e, path), Lookup(p, path).value);
      assert path != [];
      assert Checked(Field(e.fields, path[0]), path[1..]) && Lookup(p.fields[path[0]], path[1..]).Some?;
    }
  }

  // Doing it again.

  predicate Plain(p: Value) {
    Scalar(p) || (p.Map? && forall k :: k in p.fields ==> Plain(p.fields[k]))
  }

  lemma {:induction false} SelfAccepts(p: Value)
    ensures Accepts(p, p) <==> Plain(p)
    ensures Plain(p) ==> Merge(p, p) == p
  {
    if p.Map? {
      forall k | k in p.fields
        ensures Accepts(p.fields[k], p.fields[k]) <==> Plain(p.fields[k])
        ensures Plain(p.fields[k]) ==> Merge(p.fields[k], p.fields[k]) == p.fields[k]
      {
        SelfAccepts(p.fields[k]);
      }
      if Plain(p) {
        assert Merge(p, p).fields == p.fields;
      }
    }
  }

  /** A patch that went through goes through again exactly when it is made of strings, numbers
      and objects only; and then it changes nothing more. */
  lemma {:induction false} IdempotentExactlyWhenPlain(e: Value, p: Value)
    requires Accepts(e, p)
    ensures Accepts(Merge(e, p), p) <==> Plain(p)
    ensures Plain(p) ==> Merge(Merge(e, p), p) == Merge(e, p)
    decreases p
  {
    if Scalar(p) {
    } else if e.Null? {
      SelfAccepts(p);
    } else {
      var once := Merge(e, p);
      forall k | k in p.fields
        ensures Accepts(once.fields[k], p.fields[k]) <==> Plain(p.fields[k])
        ensures Plain(p.fields[k]) ==> Merge(once.fields[k], p.fields[k]) == once.fields[k]
      {
        IdempotentExactlyWhenPlain(Field(e.fields, k), p.fields[k]);
      }
      if Plain(p) {
        assert Merge(once, p).fields == once.fields;
      }
    }
  }

  /** A list under a new key goes in the first time and is refused the second. */
  lemma NestedListAppliesOnce(e: map<string, Value>, k: string, inner: string)
    requires k !in e
    ensures var p := Map(map[k := Map(map[inner := List([])])]);
            Accepts(Map(e), p) && !Accepts(Merge(Map(e), p), p)
  {
    var p := Map(map[k := Map(map[inner := List([])])]);
    assert !Plain(p.fields[k].fields[inner]);
    IdempotentExactlyWhenPlain(Map(e), p);
  }

  // Which paths change.

  function Lookup(v: Value, path: seq<string>): Option<Value> {
    if path == [] then Some(v)
    else if v.Map? && path[0] in v.fields then Lookup(v.fields[path[0]], path[1..])
    else None
  }

  /** The path leaves the patch at some object that does not name its next step. */
  predicate Untouched(p: Value, path: seq<string>) {
    && p.Map? && path != []
    && (path[0] in p.fields ==> Untouched(p.fields[path[0]], path[1..]))
  }

  lemma {:induction false} UntouchedIsMissing(p: Value, path: seq<string>)
    requires Untouched(p, path)
    ensures Lookup(p, path) == None
    decreases |path|
  {
    if path[0] in p.fields {
      UntouchedIsMissing(p.fields[path[0]], path[1..]);
    }
  }

  lemma {:induction false} UntouchedPathsSurvive(e: Value, p: Value, path: seq<string>)
    requires Accepts(e, p) && Untouched(p, path)
    ensures Lookup(Merge(e, p), path) == Lookup(e, path)
    decreases |path|
  {
    if e.Null? {
      UntouchedIsMissing(p, path);
    } else if path[0] in p.fields {
      UntouchedPathsSurvive(Field(e.fields, path[0]), p.fields[path[0]], path[1..]);
    }
  }

  /** What the patch has is there afterwards, if it is a string or a number or nothing was there. */
  lemma {:induction false} PatchedPathsAreWritten(e: Value, p: Value, path: seq<string>)
    requires Accepts(e, p) && Lookup(p, path).Some?
    requires Scalar(Lookup(p, path).value) || Lookup(e, path) == None || Lookup(e, path) == Some(Null)
    ensures Lookup(Merge(e, p), path) == Lookup(p, path)
    decreases |path|
  {
    if path != [] && !e.Null? {
      PatchedPathsAreWritten(Field(e.fields, path[0]), p.fields[path[0]], path[1..]);
    }
  }

  // One patch after another.

  lemma MergeIsAccepted(p: Value, q: Value)
    requires Accepts(p, q)
    ensures Accepts(Null, Merge(p, q)) && Merge(Null, Merge(p, q)) == Merge(p, q)
  {}

  predicate Composes(e: Value, p: Value, q: Value)
    requires Accepts(e, p)
  {
    && (Accepts(Merge(e, p), q) <==> Accepts(p, q) && Accepts(e, Merge(p, q)))
    && (Accepts(Merge(e, p), q) ==> Merge(Merge(e, p), q) == Merge(e, Merge(p, q)))
  }

  /** Patching with `p` and then with `q` succeeds exactly when `q` can be merged into `p` and
      the merged patch applies, and the two ways agree. */
  lemma {:induction false} PatchesCompose(e: Value, p: Value, q: Value)
    requires Accepts(e, p)
    ensures Accepts(Merge(e, p), q) <==> Accepts(p, q) && Accepts(e, Merge(p, q))
    ensures Accepts(Merge(e, p), q) ==> Merge(Merge(e, p), q) == Merge(e, Merge(p, q))
    decreases p
  {
    if Scalar(p) || Scalar(q) {
    } else if e.Null? {
      if Accepts(p, q) {
        MergeIsAccepted(p, q);
      }
    } else if q.Map? {
      forall k | k in p.fields && k in q.fields ensures Composes(Field(e.fields, k), p.fields[k], q.fields[k]) {
        PatchesCompose(Field(e.fields, k), p.fields[k], q.fields[k]);
      }
      FieldsCompose(e, p, q);
    }
  }

  predicate FieldsReady(e: Value, p: Value, q: Value) {
    && Accepts(e, p) && e.Map? && p.Map? && q.Map?
    && forall k :: k in p.fields && k in q.fields ==> Composes(Field(e.fields, k), p.fields[k], q.fields[k])
  }

  lemma FieldsCompose(e: Value, p: Value, q: Value)
    requires FieldsReady(e, p, q)
    ensures Composes(e, p, q)
  {
    var once := Merge(e, p);
    forall k | k in q.fields
      ensures Accepts(Field(once.fields, k), q.fields[k]) <==>
              Accepts(Field(p.fields, k), q.fields[k]) &&
                  Accepts(Field(e.fields, k), Merge(Field(p.fields, k), q.fields[k]))
    {
      FieldAgrees(e, p, q, k);
    }
    if Accepts(p, q) {
      AcceptsFieldwise(e, p, q);
      if Accepts(once, q) {
        MergesFieldwise(e, p, q);
      }
    }
  }

  lemma FieldAgrees(e: Value, p: Value, q: Value, k: string)
    requires FieldsReady(e, p, q) && k in q.fields
    ensures var before, after := Field(Merge(e, p).fields, k), q.fields[k];
            && (Accepts(before, after) <==>
                Accepts(Field(p.fields, k), after) && Accepts(Field(e.fields, k), Merge(Field(p.fields, k), after)))
            && (Accepts(before, after) ==>
                Merge(before, after) == Merge(Field(e.fields, k), Merge(Field(p.fields, k), after)))
  {
    if k in p.fields {
      assert Composes(Field(e.fields, k), p.fields[k], q.fields[k]);
    } else if Accepts(Null, q.fields[k]) {
      MergeIsAccepted(Null, q.fields[k]);
    }
  }

  lemma AcceptsFieldwise(e: Value, p: Value, q: Value)
    requires FieldsReady(e, p, q) && Accepts(p, q)
    ensures Accepts(e, Merge(p, q)) <==>
            forall k :: k in q.fields ==> Accepts(Field(e.fields, k), Merge(Field(p.fields, k), q.fields[k]))
  {
    var both := Merge(p, q);
    assert forall k :: k in q.fields ==> both.fields[k] == Merge(Field(p.fields, k), q.fields[k]);
    assert forall k :: k in p.fields && k !in q.fields ==> both.fields[k] == p.fields[k];
  }

  lemma MergesFieldwise(e: Value, p: Value, q: Value)
    requires FieldsReady(e, p, q) && Accepts(p, q) && Accepts(Merge(e, p), q) && Accepts(e, Merge(p, q))
    ensures Merge(Merge(e, p), q) == Merge(e, Merge(p, q))
  {
    var left, right := Merge(Merge(e, p), q).fields, Merge(e, Merge(p, q)).fields;
    assert left.Keys == right.Keys;
    forall k | k in left ensures left[k] == right[k] {
      if k in q.fields {
        FieldAgrees(e, p, q, k);
      }
    }
  }
}
