/** The deep merge the plugin uses to put its templates into the host's
    resource map (lodash `_.merge`), restricted to JSON values:
    - a source object is merged key by key into the destination object, or
      into a fresh `{}` when the destination is absent or not an object;
    - a source array is merged position by position into the destination
      array, or into a fresh `[]` when the destination is not an array;
    - any other source value replaces the destination value.
    Keys of the destination that the source lacks are kept, and so are the
    positions of a destination array beyond the end of the source array. */
module DeepMerge {
  import opened JsonValues

  /** The value stored under a key after merging `src` onto the value `dst`
      that was there (None when the key was absent). */
  function Merge(dst: Option<Json>, src: Json): Json
    decreases src, 1
  {
    match src
    case JObj(sm) =>
      JObj(MergeFields(if dst.Some? && dst.value.JObj? then dst.value.fields else map[], sm))
    case JArr(ss) =>
      JArr(MergeItems(if dst.Some? && dst.value.JArr? then dst.value.items else [], ss))
    case _ => src
  }

  /** `_.merge(dst, src)` for two objects: the keys of both, each key of `src`
      merged onto what `dst` had under it, the other keys of `dst` untouched. */
  function MergeFields(dst: map<string, Json>, src: map<string, Json>): (r: map<string, Json>)
    decreases JObj(src), 0
    ensures r.Keys == dst.Keys + src.Keys
    ensures forall k :: k in dst && k !in src ==> r[k] == dst[k]
  {
    map k | k in dst.Keys + src.Keys :: if k in src then Merge(Get(dst, k), src[k]) else dst[k]
  }

  /** Index-wise merge of two arrays: as long as the longer one; the leading
      positions are merged, the trailing positions of `dst` are kept. */
  function MergeItems(dst: seq<Json>, src: seq<Json>): (r: seq<Json>)
    decreases JArr(src), 0
    ensures |r| == if |dst| < |src| then |src| else |dst|
    ensures forall i :: |src| <= i < |dst| ==> r[i] == dst[i]
  {
    var n := if |dst| < |src| then |src| else |dst|;
    seq(n, i requires 0 <= i < n => if i < |src| then Merge(At(dst, i), src[i]) else dst[i])
  }

  /** The keys of a sequence of objects. */
  function TemplateKeys(srcs: seq<map<string, Json>>): set<string>
  {
    if srcs == [] then {} else TemplateKeys(srcs[..|srcs| - 1]) + srcs[|srcs| - 1].Keys
  }

  /** `_.merge(dst, ...srcs)`: the sources merged one after the other, from
      the first to the last. */
  function MergeAll(dst: map<string, Json>, srcs: seq<map<string, Json>>): (r: map<string, Json>)
    ensures r.Keys == dst.Keys + TemplateKeys(srcs)
    ensures forall k :: k in dst && k !in TemplateKeys(srcs) ==> r[k] == dst[k]
  {
    if srcs == [] then dst else MergeFields(MergeAll(dst, srcs[..|srcs| - 1]), srcs[|srcs| - 1])
  }

  /** Merging onto nothing reproduces the source: a key that was absent
      receives the template body exactly (lodash copies it). */
  lemma {:induction false} MergeOntoNothing(src: Json)
    ensures Merge(None, src) == src
    decreases src
  {
    match src
    case JObj(sm) =>
      forall k | k in sm
        ensures Merge(None, sm[k]) == sm[k]
      {
        MergeOntoNothing(sm[k]);
      }
      assert MergeFields(map[], sm) == sm;
    case JArr(ss) =>
      forall i | 0 <= i < |ss|
        ensures Merge(None, ss[i]) == ss[i]
      {
        MergeOntoNothing(ss[i]);
      }
      assert MergeItems([], ss) == ss;
    case _ =>
  }

  /** Merging the same source a second time changes nothing. */
  lemma {:induction false} MergeIdempotent(dst: Option<Json>, src: Json)
    ensures Merge(Some(Merge(dst, src)), src) == Merge(dst, src)
    decreases src
  {
    match src
    case JObj(sm) =>
      var dm := if dst.Some? && dst.value.JObj? then dst.value.fields else map[];
      var once := MergeFields(dm, sm);
      forall k | k in sm
        ensures Merge(Get(once, k), sm[k]) == once[k]
      {
        MergeIdempotent(Get(dm, k), sm[k]);
      }
      assert MergeFields(once, sm) == once;
    case JArr(ss) =>
      var ds := if dst.Some? && dst.value.JArr? then dst.value.items else [];
      var once := MergeItems(ds, ss);
      forall i | 0 <= i < |ss|
        ensures Merge(At(once, i), ss[i]) == once[i]
      {
        MergeIdempotent(At(ds, i), ss[i]);
      }
      assert MergeItems(once, ss) == once;
    case _ =>
  }

  /** One step into a merge result: what the source has under a key or
      position is merged onto what the destination had there. */
  lemma ChildOfMerge(dst: Option<Json>, src: Json, step: Step)
    requires Child(src, step).Some?
    ensures Child(Merge(dst, src), step) == Some(Merge(ChildOf(dst, step), Child(src, step).value))
  {
  }

  /** Looking up a path that the source defines in the merge result gives the
      source's value there merged onto the destination's value there. For a
      scalar in the source this is the scalar itself: leaves of the source
      always win, whatever the destination held. */
  lemma {:induction false} FieldOfMerge(dst: Option<Json>, src: Json, path: seq<Step>)
    requires Field(src, path).Some?
    ensures Field(Merge(dst, src), path) == Some(Merge(FieldOf(dst, path), Field(src, path).value))
    decreases |path|
  {
    if path != [] {
      var c := Child(src, path[0]).value;
      ChildOfMerge(dst, src, path[0]);
      FieldOfMerge(ChildOf(dst, path[0]), c, path[1..]);
      FieldOfStep(dst, path);
    }
  }

  /** The last sources leave a key alone when none of them has it. */
  lemma {:induction false} MergeAllUntouchedAfter(dst: map<string, Json>, srcs: seq<map<string, Json>>, n: nat, k: string)
    requires n <= |srcs|
    requires forall i :: n <= i < |srcs| ==> k !in srcs[i]
    requires k in MergeAll(dst, srcs[..n])
    ensures k in MergeAll(dst, srcs) && MergeAll(dst, srcs)[k] == MergeAll(dst, srcs[..n])[k]
    decreases |srcs| - n
  {
    if n < |srcs| {
      var init := srcs[..|srcs| - 1];
      assert init[..n] == srcs[..n];
      MergeAllUntouchedAfter(dst, init, n, k);
    } else {
      assert srcs[..n] == srcs;
    }
  }

  /** A key is written by `MergeAll` exactly as by the last source that has
      it, merged onto what the earlier sources left. */
  lemma MergeAllLastWriter(dst: map<string, Json>, srcs: seq<map<string, Json>>, j: nat, k: string)
    requires j < |srcs| && k in srcs[j]
    requires forall i :: j < i < |srcs| ==> k !in srcs[i]
    ensures k in MergeAll(dst, srcs)
    ensures MergeAll(dst, srcs)[k] == Merge(Get(MergeAll(dst, srcs[..j]), k), srcs[j][k])
  {
    assert srcs[..j + 1][..j] == srcs[..j];
    MergeAllUntouchedAfter(dst, srcs, j + 1, k);
  }

  /** A scalar: neither an object nor an array. */
  predicate Scalar(j: Json)
  {
    !j.JObj? && !j.JArr?
  }

  /** A scalar the source holds at some path is what the merge result holds
      there, whatever the destination had. */
  lemma MergeKeepsLeaf(dst: Option<Json>, src: Json, path: seq<Step>)
    requires Field(src, path).Some? && Scalar(Field(src, path).value)
    ensures Field(Merge(dst, src), path) == Field(src, path)
  {
    FieldOfMerge(dst, src, path);
  }

  /** A scalar leaf of the last source that has a key is found under that key
      after `MergeAll`. */
  lemma MergeAllKeepsLastLeaf(dst: map<string, Json>, srcs: seq<map<string, Json>>, j: nat, k: string, path: seq<Step>)
    requires j < |srcs| && k in srcs[j]
    requires forall i :: j < i < |srcs| ==> k !in srcs[i]
    requires Field(srcs[j][k], path).Some? && Scalar(Field(srcs[j][k], path).value)
    ensures k in MergeAll(dst, srcs) && Field(MergeAll(dst, srcs)[k], path) == Field(srcs[j][k], path)
  {
    MergeAllLastWriter(dst, srcs, j, k);
    MergeKeepsLeaf(Get(MergeAll(dst, srcs[..j]), k), srcs[j][k], path);
  }

  /** A key is among the sources' keys iff some source has it. */
  lemma {:induction false} TemplateKeysMembers(srcs: seq<map<string, Json>>, k: string)
    ensures k in TemplateKeys(srcs) <==> exists i :: 0 <= i < |srcs| && k in srcs[i]
  {
    if srcs != [] {
      var init := srcs[..|srcs| - 1];
      TemplateKeysMembers(init, k);
      if k in TemplateKeys(init) {
        var i :| 0 <= i < |init| && k in init[i];
        assert srcs[i] == init[i];
      }
      if exists i :: 0 <= i < |srcs| && k in srcs[i] {
        var i :| 0 <= i < |srcs| && k in srcs[i];
        if i < |init| {
          assert init[i] == srcs[i];
        }
      }
    }
  }

  /** A key new to the destination that only one source has ends up holding
      exactly that source's value. */
  lemma MergeAllFreshKey(dst: map<string, Json>, srcs: seq<map<string, Json>>, j: nat, k: string)
    requires j < |srcs| && k in srcs[j] && k !in dst
    requires forall i :: 0 <= i < |srcs| && i != j ==> k !in srcs[i]
    ensures k in MergeAll(dst, srcs) && MergeAll(dst, srcs)[k] == srcs[j][k]
  {
    MergeAllLastWriter(dst, srcs, j, k);
    TemplateKeysMembers(srcs[..j], k);
    assert k !in MergeAll(dst, srcs[..j]);
    MergeOntoNothing(srcs[j][k]);
  }

  /** Merging the same object twice in a row is merging it once. */
  lemma MergeFieldsIdempotent(dst: map<string, Json>, src: map<string, Json>)
    ensures MergeFields(MergeFields(dst, src), src) == MergeFields(dst, src)
  {
    MergeIdempotent(Some(JObj(dst)), JObj(src));
  }

  /** A source merged twice in a row at the end is merged once. */
  lemma MergeAllRepeatedLast(dst: map<string, Json>, srcs: seq<map<string, Json>>, last: map<string, Json>)
    ensures MergeAll(dst, srcs + [last, last]) == MergeAll(dst, srcs + [last])
  {
    var twice := srcs + [last, last];
    var once := srcs + [last];
    assert twice[..|twice| - 1] == once;
    assert once[..|once| - 1] == srcs;
    MergeFieldsIdempotent(MergeAll(dst, srcs), last);
  }

  /** Two sources sharing a key new to the destination: the second value is
      merged onto the first. */
  lemma MergeAllTwoOnSameKey(dst: map<string, Json>, first: map<string, Json>, second: map<string, Json>, k: string)
    requires k !in dst && k in first && k in second
    ensures k in MergeAll(dst, [first, second])
    ensures MergeAll(dst, [first, second])[k] == Merge(Some(first[k]), second[k])
  {
    assert [first, second][..1] == [first];
    assert [first][..0] == [];
    var once := MergeAll(dst, [first]);
    assert once == MergeFields(dst, first);
    MergeOntoNothing(first[k]);
    assert once[k] == first[k];
  }
}
