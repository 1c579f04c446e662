// Merging a JSON patch into a JSON document (src/production.rs, merge).
module PreferenceMerge {

  datatype Json =
    | Null | Bool(b: bool) | Number(n: int) | Text(s: string) | List(items: seq<Json>)
    | Object(fields: map<string, Json>)

  const EMPTY: Json := Object(map[])

  function Entry(base: Json, key: string): Json
    requires base.Object?
  {
    if key in base.fields then base.fields[key] else EMPTY
  }

  // What merging leaves: an object in the patch is merged into its entry,
  // anything else replaces it, and a document that is not an object stays.
  function Merged(base: Json, patch: Json): Json
    decreases patch, 1
  {
    if !base.Object? || !patch.Object? then base
    else Object(map key | key in base.fields.Keys + patch.fields.Keys ::
      if key in patch.fields then MergedEntry(base, patch, key) else base.fields[key])
  }

  function MergedEntry(base: Json, patch: Json, key: string): Json
    requires base.Object? && patch.Object? && key in patch.fields
    decreases patch, 0
  {
    if patch.fields[key].Object? then Merged(Entry(base, key), patch.fields[key]) else patch.fields[key]
  }

  // The entries an editing has reached so far: those of the patch still left
  // stand as in the base.
  ghost predicate Reached(base: Json, patch: Json, left: set<string>, fields: map<string, Json>)
    requires base.Object? && patch.Object? && left <= patch.fields.Keys
  {
    && fields.Keys == base.fields.Keys + (patch.fields.Keys - left)
    && forall key :: key in fields ==>
         fields[key] == if key in patch.fields && key !in left then MergedEntry(base, patch, key) else base.fields[key]
  }

  lemma {:induction false} ReachesOneMore(base: Json, patch: Json, left: set<string>, fields: map<string, Json>,
    key: string)
    requires base.Object? && patch.Object? && key in left && left <= patch.fields.Keys &&
             Reached(base, patch, left, fields)
    ensures Reached(base, patch, left - {key}, fields[key := MergedEntry(base, patch, key)])
  {
  }

  lemma {:induction false} ReachedAll(base: Json, patch: Json, fields: map<string, Json>)
    requires base.Object? && patch.Object? && Reached(base, patch, {}, fields)
    ensures Object(fields) == Merged(base, patch)
  {
    assert fields == Merged(base, patch).fields;
  }

  // Edits the document in place, one key of the patch after another.
  method Merge(base: Json, patch: Json) returns (result: Json)
    ensures result == Merged(base, patch)
    decreases patch
  {
    if !base.Object? || !patch.Object? {
      return base;
    }
    var fields := base.fields;
    var left := patch.fields.Keys;
    while left != {}
      invariant left <= patch.fields.Keys && Reached(base, patch, left, fields)
      decreases |left|
    {
      var key :| key in left;
      ReachesOneMore(base, patch, left, fields, key);
      var value := patch.fields[key];
      if value.Object? {
        value := Merge(Entry(base, key), value);
      }
      fields := fields[key := value];
      left := left - {key};
    }
    ReachedAll(base, patch, fields);
    result := Object(fields);
  }

  lemma {:induction false} MergeNothing(base: Json)
    ensures Merged(base, EMPTY) == base
  {
    if base.Object? {
      assert Merged(base, EMPTY).fields == base.fields;
    }
  }

  // Applying two patches is applying their merge.
  lemma {:induction false} MergeIsAssociative(base: Json, p: Json, q: Json)
    requires p.Object?
    ensures Merged(Merged(base, p), q) == Merged(base, Merged(p, q))
    decreases q
  {
    if base.Object? && q.Object? {
      var both, one := Merged(Merged(base, p), q).fields, Merged(base, Merged(p, q)).fields;
      forall key | key in both
        ensures both[key] == one[key]
      {
        SameEntry(base, p, q, key);
      }
      assert both == one;
    }
  }

  lemma {:induction false} EntryUntouched(base: Json, p: Json, q: Json, key: string)
    requires base.Object? && p.Object? && q.Object? && key in base.fields.Keys + p.fields.Keys + q.fields.Keys
    requires key in q.fields ==> !q.fields[key].Object?
    ensures Merged(Merged(base, p), q).fields[key] == Merged(base, Merged(p, q)).fields[key]
  {
  }

  // At an object entry of q, each side is one more merge.
  lemma {:induction false} LeftEntry(base: Json, p: Json, q: Json, key: string)
    requires base.Object? && p.Object? && q.Object? && key in q.fields && q.fields[key].Object?
    ensures Merged(Merged(base, p), q).fields[key]
         == Merged(if key in p.fields then MergedEntry(base, p, key) else Entry(base, key), q.fields[key])
  {
    var bp := Merged(base, p);
    assert Merged(bp, q).fields[key] == MergedEntry(bp, q, key);
  }

  lemma {:induction false} RightEntry(base: Json, p: Json, q: Json, key: string)
    requires base.Object? && p.Object? && q.Object? && key in q.fields && q.fields[key].Object?
    ensures var pq := Merged(Entry(p, key), q.fields[key]);
            Merged(base, Merged(p, q)).fields[key] == if pq.Object? then Merged(Entry(base, key), pq) else pq
  {
    var pq := Merged(p, q);
    assert pq.fields[key] == MergedEntry(p, q, key);
    assert Merged(base, pq).fields[key] == MergedEntry(base, pq, key);
  }

  lemma {:induction false} SameEntry(base: Json, p: Json, q: Json, key: string)
    requires base.Object? && p.Object? && q.Object? && key in base.fields.Keys + p.fields.Keys + q.fields.Keys
    ensures Merged(Merged(base, p), q).fields[key] == Merged(base, Merged(p, q)).fields[key]
    decreases q, 0
  {
    if key in q.fields && q.fields[key].Object? {
      var b, qk := Entry(base, key), q.fields[key];
      LeftEntry(base, p, q, key);
      RightEntry(base, p, q, key);
      if key !in p.fields {
        MergeIsAssociative(b, EMPTY, qk);
        MergeNothing(b);
      } else if p.fields[key].Object? {
        MergeIsAssociative(b, p.fields[key], qk);
      }
    } else {
      EntryUntouched(base, p, q, key);
    }
  }

  ghost predicate Associates(base: Json, p: Json, q: Json) {
    Merged(Merged(base, p), q) == Merged(base, Merged(p, q))
  }

  // Only an object can be a patch in this sense: any other value in the middle
  // is dropped on one side and hides the second patch on the other.
  lemma AssociativeExactlyForObjects(p: Json)
    ensures p.Object? <==> forall base, q :: Associates(base, p, q)
  {
    if p.Object? {
      forall base, q
        ensures Associates(base, p, q)
      {
        MergeIsAssociative(base, p, q);
      }
    } else {
      var q := Object(map["k" := Null]);
      assert "k" in Merged(EMPTY, q).fields && Merged(EMPTY, p) == EMPTY && Merged(p, q) == p;
      assert !Associates(EMPTY, p, q);
    }
  }

  lemma {:induction false} MergeWithItself(p: Json)
    ensures Merged(p, p) == p
  {
    if p.Object? {
      forall key | key in p.fields
        ensures Merged(p, p).fields[key] == p.fields[key]
      {
        if p.fields[key].Object? {
          MergeWithItself(p.fields[key]);
        }
      }
      assert Merged(p, p).fields == p.fields;
    }
  }

  // Sending a patch twice is sending it once.
  lemma {:induction false} MergeIsIdempotent(base: Json, p: Json)
    ensures Merged(Merged(base, p), p) == Merged(base, p)
  {
    if p.Object? {
      MergeIsAssociative(base, p, p);
      MergeWithItself(p);
    }
  }

  // ----- merging, place by place

  // The value at a path of keys, if the document has one there.
  function At(doc: Json, path: seq<string>): (v: seq<Json>)
    ensures |v| <= 1
  {
    if path == [] then [doc]
    else if doc.Object? && path[0] in doc.fields then At(doc.fields[path[0]], path[1..])
    else []
  }

  predicate HoldsObject(doc: Json, path: seq<string>) {
    At(doc, path) != [] && At(doc, path)[0].Object?
  }

  predicate HoldsLeaf(doc: Json, path: seq<string>) {
    At(doc, path) != [] && !At(doc, path)[0].Object?
  }

  // Somewhere on the way to the path, or at it, the document holds a leaf.
  predicate LeafOnTheWay(doc: Json, path: seq<string>) {
    exists n :: 0 <= n <= |path| && HoldsLeaf(doc, path[..n])
  }

  lemma StepDown(doc: Json, path: seq<string>)
    requires doc.Object? && path != []
    ensures path[0] in doc.fields ==>
              (LeafOnTheWay(doc, path) <==> LeafOnTheWay(doc.fields[path[0]], path[1..]))
    ensures path[0] !in doc.fields ==> !LeafOnTheWay(doc, path)
  {
    assert At(doc, path[..0]) == [doc];
    if path[0] in doc.fields {
      var inner := doc.fields[path[0]];
      forall n | 1 <= n <= |path|
        ensures At(doc, path[..n]) == At(inner, path[1..][..n - 1])
      {
        assert path[..n][1..] == path[1..][..n - 1];
      }
      if LeafOnTheWay(inner, path[1..]) {
        var n :| 0 <= n <= |path| - 1 && HoldsLeaf(inner, path[1..][..n]);
        assert HoldsLeaf(doc, path[..n + 1]);
      }
      if LeafOnTheWay(doc, path) {
        var n :| 0 <= n <= |path| && HoldsLeaf(doc, path[..n]);
        assert HoldsLeaf(inner, path[1..][..n - 1]);
      }
    } else {
      forall n | 0 <= n <= |path|
        ensures !HoldsLeaf(doc, path[..n])
      {
      }
    }
  }

  // A place the patch does not speak of keeps its value.
  lemma {:induction false} OutsideStays(base: Json, patch: Json, path: seq<string>)
    requires base.Object? && patch.Object? && At(patch, path) == [] && !LeafOnTheWay(patch, path)
    ensures At(Merged(base, patch), path) == At(base, path)
    decreases |path|
  {
    var key := path[0];
    StepDown(patch, path);
    if key in patch.fields {
      var inner := patch.fields[key];
      assert inner.Object? by {
        assert At(inner, path[1..][..0]) == [inner];
      }
      MergedAt(base, patch, path);
      if Entry(base, key).Object? {
        OutsideStays(Entry(base, key), inner, path[1..]);
      }
      if key !in base.fields {
        assert path[1..] != [];
      }
    }
  }

  lemma {:induction false} MergedAt(base: Json, patch: Json, path: seq<string>)
    requires base.Object? && patch.Object? && path != [] && path[0] in patch.fields
    ensures At(Merged(base, patch), path) == At(MergedEntry(base, patch, path[0]), path[1..])
  {
  }

  // A leaf of the patch ends up in its place, unless the base has a leaf on the way
  // there.
  lemma {:induction false} LeavesArrive(base: Json, patch: Json, path: seq<string>)
    requires base.Object? && patch.Object? && path != [] && HoldsLeaf(patch, path)
    requires !LeafOnTheWay(base, path[..|path| - 1])
    ensures At(Merged(base, patch), path) == At(patch, path)
    decreases |path|
  {
    var key, inner := path[0], patch.fields[path[0]];
    MergedAt(base, patch, path);
    if |path| > 1 {
      assert path[..|path| - 1][0] == key && path[..|path| - 1][1..] == path[1..][..|path| - 2];
      StepDown(base, path[..|path| - 1]);
      var entry := Entry(base, key);
      if key in base.fields {
        assert !HoldsLeaf(entry, path[1..][..|path| - 2][..0]);
        assert At(entry, path[1..][..|path| - 2][..0]) == [entry];
      } else {
        NothingOnTheWay(path[1..][..|path| - 2]);
      }
      LeavesArrive(entry, inner, path[1..]);
    }
  }

  lemma NothingOnTheWay(path: seq<string>)
    ensures !LeafOnTheWay(EMPTY, path)
  {
    if path != [] {
      StepDown(EMPTY, path);
    }
  }

  // A leaf of the base stays when the patch only goes past it.
  lemma {:induction false} LeavesStay(base: Json, patch: Json, path: seq<string>)
    requires base.Object? && patch.Object? && path != [] && HoldsLeaf(base, path) && HoldsObject(patch, path)
    ensures At(Merged(base, patch), path) == At(base, path)
    decreases |path|
  {
    MergedAt(base, patch, path);
    if |path| > 1 {
      LeavesStay(base.fields[path[0]], patch.fields[path[0]], path[1..]);
    }
  }

  // Where the patch has an object, the merge has one too, or the leaf of the base.
  lemma {:induction false} ObjectsArrive(base: Json, patch: Json, path: seq<string>)
    requires base.Object? && patch.Object? && HoldsObject(patch, path) && !LeafOnTheWay(base, path)
    ensures HoldsObject(Merged(base, patch), path)
    decreases |path|
  {
    if path != [] {
      MergedAt(base, patch, path);
      StepDown(base, path);
      var key := path[0];
      if key in base.fields {
        assert At(base.fields[key], path[1..][..0]) == [base.fields[key]];
        assert !HoldsLeaf(base.fields[key], path[1..][..0]);
      } else {
        NothingOnTheWay(path[1..]);
      }
      ObjectsArrive(Entry(base, key), patch.fields[key], path[1..]);
    }
  }
}
