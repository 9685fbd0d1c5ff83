/** Merging one document onto another, and a list of overlays onto a base. */
module DeepMerge {
  import opened Documents
  import opened Wrappers

  // Mappings merge member by member; anything else replaces the base.
  function Merge(base: Json, overlay: Json): Json
    decreases overlay
  {
    if base.Obj? && overlay.Obj? then
      Obj(map k | k in base.members.Keys + overlay.members.Keys ::
          if k !in overlay.members then base.members[k]
          else if k !in base.members then overlay.members[k]
          else Merge(base.members[k], overlay.members[k]))
    else overlay
  }

  // Starts from the base's members and overwrites them one overlay key at a time.
  method DeepMerge(base: Json, overlay: Json) returns (r: Json)
    ensures r == Merge(base, overlay)
    decreases overlay
  {
    if base.Obj? && overlay.Obj? {
      var merged := base.members;
      var rest := overlay.members.Keys;
      while rest != {}
        invariant rest <= overlay.members.Keys
        invariant merged.Keys == base.members.Keys + (overlay.members.Keys - rest)
        invariant forall k :: k in merged && (k in rest || k !in overlay.members) ==> merged[k] == base.members[k]
        invariant forall k :: k in overlay.members && k !in rest ==> merged[k] == Merge(base, overlay).members[k]
        decreases rest
      {
        var key :| key in rest;
        rest := rest - {key};
        var value := overlay.members[key];
        if key in merged {
          value := DeepMerge(merged[key], value);
        }
        merged := merged[key := value];
      }
      assert merged == Merge(base, overlay).members;
      return Obj(merged);
    } else {
      return overlay;
    }
  }

  // --- Reading a document at a path ---

  // The document ends in something that is not a mapping strictly above the path.
  predicate LeafAbove(doc: Json, path: seq<string>) {
    exists n :: 0 <= n < |path| && Get(doc, path[..n]).Some? && !Get(doc, path[..n]).value.Obj?
  }

  lemma GetPrefix(doc: Json, key: string, path: seq<string>, n: nat)
    requires doc.Obj? && key in doc.members && path != [] && path[0] == key && 0 < n <= |path|
    ensures Get(doc, path[..n]) == Get(doc.members[key], path[1..][..n - 1])
  {
    assert path[..n][1..] == path[1..][..n - 1];
  }

  lemma LeafAboveStep(doc: Json, path: seq<string>)
    requires path != []
    ensures LeafAbove(doc, path) <==>
              !doc.Obj? || (path[0] in doc.members && LeafAbove(doc.members[path[0]], path[1..]))
  {
    assert path[..0] == [];
    if doc.Obj? && path[0] in doc.members {
      forall n | 0 < n <= |path| ensures Get(doc, path[..n]) == Get(doc.members[path[0]], path[1..][..n - 1]) {
        GetPrefix(doc, path[0], path, n);
      }
      if LeafAbove(doc.members[path[0]], path[1..]) {
        var n :| 0 <= n < |path[1..]| && Get(doc.members[path[0]], path[1..][..n]).Some?
                 && !Get(doc.members[path[0]], path[1..][..n]).value.Obj?;
        assert Get(doc, path[..n + 1]) == Get(doc.members[path[0]], path[1..][..n]);
      }
    } else if doc.Obj? {
      forall n | 0 < n < |path| ensures Get(doc, path[..n]).None? {
        assert path[..n][0] == path[0];
      }
    }
  }

  // --- Main results ---

  // What a merge holds at any path: the overlay's value merged onto the base's, where the overlay has one; nothing,
  // below a leaf of the overlay; and what the base holds, everywhere else.
  lemma {:induction false} GetMerge(base: Json, overlay: Json, path: seq<string>)
    ensures Get(Merge(base, overlay), path) ==
            var x, y := Get(base, path), Get(overlay, path);
            if y.Some? then Some(if x.Some? then Merge(x.value, y.value) else y.value)
            else if LeafAbove(overlay, path) then None
            else x
    decreases path
  {
    if path != [] {
      LeafAboveStep(overlay, path);
      if base.Obj? && overlay.Obj? && path[0] in base.members && path[0] in overlay.members {
        GetMerge(base.members[path[0]], overlay.members[path[0]], path[1..]);
      }
    }
  }

  // So a leaf of the overlay is read back, and a path the overlay neither holds nor cuts keeps the base's value.
  lemma {:induction false} LeafReadBack(base: Json, overlay: Json, path: seq<string>)
    requires Get(overlay, path).Some? && !MappingAt(overlay, path)
    ensures Get(Merge(base, overlay), path) == Get(overlay, path)
  {
    GetMerge(base, overlay, path);
  }

  lemma {:induction false} UntouchedSurvives(base: Json, overlay: Json, path: seq<string>)
    requires Get(overlay, path).None? && !LeafAbove(overlay, path)
    ensures Get(Merge(base, overlay), path) == Get(base, path)
  {
    GetMerge(base, overlay, path);
  }

  // Merging x under y leaves y as it is: where both are mappings, y has every key of x and absorbs its values.
  predicate Absorbs(y: Json, x: Json)
    decreases y
  {
    x.Obj? && y.Obj? ==> forall k :: k in x.members ==> k in y.members && Absorbs(y.members[k], x.members[k])
  }

  lemma {:induction false} AbsorbsIff(x: Json, y: Json)
    ensures Merge(x, y) == y <==> Absorbs(y, x)
    decreases y
  {
    if x.Obj? && y.Obj? {
      var m := Merge(x, y).members;
      forall k | k in x.members && k in y.members
        ensures m[k] == y.members[k] <==> Absorbs(y.members[k], x.members[k])
      {
        AbsorbsIff(x.members[k], y.members[k]);
      }
      if Absorbs(y, x) {
        assert m == y.members;
      } else {
        var k :| k in x.members && !(k in y.members && Absorbs(y.members[k], x.members[k]));
        assert k in m && (k in y.members ==> m[k] != y.members[k]);
      }
    }
  }

  lemma {:induction false} AbsorbsSelf(doc: Json)
    ensures Absorbs(doc, doc)
    decreases doc
  {
    if doc.Obj? {
      forall k | k in doc.members ensures Absorbs(doc.members[k], doc.members[k]) {
        AbsorbsSelf(doc.members[k]);
      }
    }
  }

  lemma {:induction false} Idempotent(doc: Json)
    ensures Merge(doc, doc) == doc
  {
    AbsorbsSelf(doc);
    AbsorbsIff(doc, doc);
  }

  // When both groupings agree: wherever both outer documents have mappings, a non-mapping of the middle one cuts the
  // first one off, so the last one has to absorb it.
  predicate Associates(a: Json, b: Json, c: Json)
    decreases b
  {
    a.Obj? && c.Obj? ==>
      if b.Obj? then forall k :: k in b.members && k in a.members && k in c.members ==>
          Associates(a.members[k], b.members[k], c.members[k])
      else Absorbs(c, a)
  }

  lemma {:induction false} AssociativeIff(a: Json, b: Json, c: Json)
    ensures Merge(Merge(a, b), c) == Merge(a, Merge(b, c)) <==> Associates(a, b, c)
    decreases b
  {
    if a.Obj? && c.Obj? {
      if b.Obj? {
        var left, right := Merge(Merge(a, b), c).members, Merge(a, Merge(b, c)).members;
        assert left.Keys == right.Keys;
        forall k | k in left ensures
            left[k] == right[k] <==> (k in b.members && k in a.members && k in c.members ==>
                                        Associates(a.members[k], b.members[k], c.members[k])) {
          if k in b.members && k in a.members && k in c.members {
            AssociativeIff(a.members[k], b.members[k], c.members[k]);
          }
        }
        assert Associates(a, b, c) <==> forall k :: k in left ==> left[k] == right[k];
        assert left == right <==> forall k :: k in left ==> left[k] == right[k];
      } else {
        AbsorbsIff(a, c);
      }
    }
  }

  // The middle document puts no non-mapping where both outer ones have mappings.
  ghost predicate MiddleAgrees(a: Json, b: Json, c: Json) {
    forall path :: MappingAt(a, path) && MappingAt(c, path) && Get(b, path).Some? ==> MappingAt(b, path)
  }

  lemma {:induction false} MiddleAgreesAssociates(a: Json, b: Json, c: Json)
    requires MiddleAgrees(a, b, c)
    ensures Associates(a, b, c)
    decreases b
  {
    if a.Obj? && c.Obj? {
      assert MappingAt(a, []) && MappingAt(c, []) && MappingAt(b, []);
      forall k | k in b.members && k in a.members && k in c.members
        ensures Associates(a.members[k], b.members[k], c.members[k])
      {
        var x, y, z := a.members[k], b.members[k], c.members[k];
        forall path | MappingAt(x, path) && MappingAt(z, path) && Get(y, path).Some? ensures MappingAt(y, path) {
          assert ([k] + path)[1..] == path;
          assert MappingAt(a, [k] + path) && MappingAt(c, [k] + path) && Get(b, [k] + path) == Get(y, path);
        }
        MiddleAgreesAssociates(x, y, z);
      }
    }
  }

  lemma {:induction false} AssociativeWhereMiddleAgrees(a: Json, b: Json, c: Json)
    requires MiddleAgrees(a, b, c)
    ensures Merge(Merge(a, b), c) == Merge(a, Merge(b, c))
  {
    MiddleAgreesAssociates(a, b, c);
    AssociativeIff(a, b, c);
  }

  // Re-applying an overlay changes nothing.
  lemma {:induction false} ReapplyChangesNothing(base: Json, overlay: Json)
    ensures Merge(Merge(base, overlay), overlay) == Merge(base, overlay)
    decreases overlay
  {
    if base.Obj? && overlay.Obj? {
      var once := Merge(base, overlay);
      forall k | k in overlay.members ensures Merge(once.members[k], overlay.members[k]) == once.members[k] {
        if k in base.members {
          ReapplyChangesNothing(base.members[k], overlay.members[k]);
        } else {
          Idempotent(overlay.members[k]);
        }
      }
      assert Merge(once, overlay).members == once.members;
    } else {
      Idempotent(overlay);
    }
  }

  // --- A list of overlays ---

  function MergeAll(base: Json, overlays: seq<Json>): Json {
    Fold(Merge, base, overlays)
  }

  method MergeDocuments(base: Json, overlays: seq<Json>) returns (merged: Json)
    ensures merged == MergeAll(base, overlays)
  {
    merged := base;
    for n := 0 to |overlays|
      invariant merged == MergeAll(base, overlays[..n])
    {
      merged := DeepMerge(merged, overlays[n]);
      assert overlays[..n + 1] == overlays[..n] + [overlays[n]];
      FoldAppend(Merge, base, overlays[..n], overlays[n]);
    }
    assert overlays[..|overlays|] == overlays;
  }

  lemma {:induction false} LastOverlayReapplied(base: Json, overlays: seq<Json>)
    requires overlays != []
    ensures MergeAll(base, overlays + [Last(overlays)]) == MergeAll(base, overlays)
  {
    FoldAppend(Merge, base, overlays, Last(overlays));
    ReapplyChangesNothing(MergeAll(base, Front(overlays)), Last(overlays));
  }

  // A leaf of one overlay is read back when no later overlay holds its path or cuts it; and so is a value of the base
  // when no overlay at all does.
  lemma {:induction false} LastWriterWins(base: Json, overlays: seq<Json>, n: nat, path: seq<string>)
    requires n <= |overlays|
    requires 0 < n ==> Get(overlays[n - 1], path).Some? && !MappingAt(overlays[n - 1], path)
    requires forall j :: n <= j < |overlays| ==> Get(overlays[j], path).None? && !LeafAbove(overlays[j], path)
    ensures Get(MergeAll(base, overlays), path) == if n == 0 then Get(base, path) else Get(overlays[n - 1], path)
  {
    if n == |overlays| {
      if n > 0 {
        LeafReadBack(MergeAll(base, Front(overlays)), Last(overlays), path);
      }
    } else {
      LastWriterWins(base, Front(overlays), n, path);
      UntouchedSurvives(MergeAll(base, Front(overlays)), Last(overlays), path);
    }
  }

  // Two overlays may be merged beforehand exactly when they associate with the base.
  lemma {:induction false} PremergedIff(base: Json, first: Json, second: Json)
    ensures MergeAll(base, [first, second]) == MergeAll(base, [Merge(first, second)]) <==>
        Associates(base, first, second)
  {
    FoldAppend(Merge, base, [], first);
    FoldAppend(Merge, base, [first], second);
    FoldAppend(Merge, base, [], Merge(first, second));
    assert [] + [first] == [first] && [first] + [second] == [first, second];
    assert [] + [Merge(first, second)] == [Merge(first, second)];
    AssociativeIff(base, first, second);
  }
}
