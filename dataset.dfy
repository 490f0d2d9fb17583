/** The class filter of `load_data` (src/learning.py): a membership mask over the
    labels, applied identically to the image array and to the label array. */
module Dataset {
  import opened Wrappers

  /** One split as the dataset provider hands it over: images and labels. */
  datatype Split<Img> = Split(images: seq<Img>, labels: seq<int>)

  /** numpy refuses a boolean mask whose length differs from the axis it indexes. */
  datatype LoadError = MaskLengthMismatch

  /** The provider's shape contract: one label per image. */
  predicate Aligned<Img>(s: Split<Img>) {
    |s.images| == |s.labels|
  }

  /** `np.isin(y, classes)`: one flag per label. */
  function IsIn(y: seq<int>, classes: seq<int>): (mask: seq<bool>)
    ensures |mask| == |y|
  {
    seq(|y|, k requires 0 <= k < |y| => y[k] in classes)
  }

  /** The positions a boolean mask selects: every selected position, once, ascending. */
  function Kept(mask: seq<bool>): (ks: seq<nat>)
    ensures forall j :: 0 <= j < |ks| ==> ks[j] < |mask| && mask[ks[j]]
    ensures forall i, j :: 0 <= i < j < |ks| ==> ks[i] < ks[j]
    ensures forall k :: 0 <= k < |mask| && mask[k] ==> k in ks
  {
    if mask == [] then []
    else
      var front := mask[..|mask| - 1];
      assert forall k :: 0 <= k < |front| ==> front[k] == mask[k];
      Kept(front) + (if mask[|mask| - 1] then [|mask| - 1] else [])
  }

  /** Boolean-mask indexing `xs[mask]`: element j of the result is the element
      at the j-th selected position. */
  function Select<T>(xs: seq<T>, mask: seq<bool>): (r: seq<T>)
    requires |xs| == |mask|
    ensures |r| == |Kept(mask)|
    ensures forall j :: 0 <= j < |r| ==> r[j] == xs[Kept(mask)[j]]
  {
    if xs == [] then []
    else
      Select(xs[..|xs| - 1], mask[..|mask| - 1])
        + (if mask[|mask| - 1] then [xs[|xs| - 1]] else [])
  }

  /** Lines 32-35 for one split: mask from the labels, then index both arrays with it. */
  function FilterSplit<Img>(s: Split<Img>, classes: seq<int>): (r: Result<Split<Img>, LoadError>)
    ensures r.Ok? <==> Aligned(s)
  {
    var mask := IsIn(s.labels, classes);
    if |s.images| != |mask| then Err(MaskLengthMismatch)
    else Ok(Split(Select(s.images, mask), Select(s.labels, mask)))
  }

  /** `load_data` after the provider call: both splits filtered by the same class list.
      The train split is indexed first, so its error is the one raised. */
  function LoadData<Img>(train: Split<Img>, test: Split<Img>, classes: seq<int>)
    : (r: Result<(Split<Img>, Split<Img>), LoadError>)
    ensures r.Ok? <==> Aligned(train) && Aligned(test)
    ensures r.Ok? ==>
      FilterSplit(train, classes) == Ok(r.value.0) && FilterSplit(test, classes) == Ok(r.value.1)
  {
    match FilterSplit(train, classes)
    case Err(e) => Err(e)
    case Ok(tr) =>
      match FilterSplit(test, classes)
      case Err(e) => Err(e)
      case Ok(te) => Ok((tr, te))
  }

  /** Reference definition of the kept labels: `[y for y in ys if y in classes]`. */
  function Members(ys: seq<int>, classes: seq<int>): (r: seq<int>)
    ensures forall j :: 0 <= j < |r| ==> r[j] in classes
  {
    if ys == [] then [] else (if ys[0] in classes then [ys[0]] else []) + Members(ys[1..], classes)
  }

  lemma {:induction false} MembersAppend(a: seq<int>, b: seq<int>, classes: seq<int>)
    ensures Members(a + b, classes) == Members(a, classes) + Members(b, classes)
  {
    if a == [] {
      assert a + b == b;
    } else {
      assert (a + b)[1..] == a[1..] + b;
      MembersAppend(a[1..], b, classes);
    }
  }

  /** Filtering keeps a sample exactly when its label is a class of interest, and the
      two arrays stay paired: kept sample j is original sample Kept(mask)[j] in both. */
  lemma FilterKeepsExactlyMembers<Img>(s: Split<Img>, classes: seq<int>)
    requires Aligned(s)
    ensures var r := FilterSplit(s, classes); var ks := Kept(IsIn(s.labels, classes));
      && r.Ok?
      && |r.value.images| == |r.value.labels| == |ks|
      && (forall j :: 0 <= j < |ks| ==>
            ks[j] < |s.labels|
            && r.value.images[j] == s.images[ks[j]]
            && r.value.labels[j] == s.labels[ks[j]])
      && (forall i, j :: 0 <= i < j < |ks| ==> ks[i] < ks[j])
      && (forall j :: 0 <= j < |r.value.labels| ==> r.value.labels[j] in classes)
      && (forall k :: 0 <= k < |s.labels| && s.labels[k] in classes ==> k in ks)
  {
  }

  /** No sample whose label is a class of interest is dropped, and it keeps its image. */
  lemma {:induction false} FilterDropsNoMember<Img>(s: Split<Img>, classes: seq<int>, k: nat)
    requires Aligned(s) && k < |s.labels| && s.labels[k] in classes
    ensures var r := FilterSplit(s, classes);
      r.Ok? &&
      exists j :: 0 <= j < |r.value.labels| && r.value.labels[j] == s.labels[k] && r.value.images[j] == s.images[k]
  {
    FilterKeepsExactlyMembers(s, classes);
    var ks := Kept(IsIn(s.labels, classes));
    var j :| 0 <= j < |ks| && ks[j] == k;
    var r := FilterSplit(s, classes).value;
    assert r.labels[j] == s.labels[k] && r.images[j] == s.images[k];
  }

  lemma {:induction false} SelectIsMembers(ys: seq<int>, classes: seq<int>)
    ensures Select(ys, IsIn(ys, classes)) == Members(ys, classes)
    decreases |ys|
  {
    if ys != [] {
      var n := |ys| - 1;
      var front := ys[..n];
      assert IsIn(ys, classes)[..n] == IsIn(front, classes);
      SelectIsMembers(front, classes);
      assert ys == front + [ys[n]];
      MembersAppend(front, [ys[n]], classes);
      assert Members([ys[n]], classes) == (if ys[n] in classes then [ys[n]] else []) + Members([], classes);
    }
  }

  /** The kept labels are the list comprehension over the class list, in order. */
  lemma FilterLabelsAreMembers<Img>(s: Split<Img>, classes: seq<int>)
    requires Aligned(s)
    ensures FilterSplit(s, classes).Ok?
    ensures FilterSplit(s, classes).value.labels == Members(s.labels, classes)
  {
    SelectIsMembers(s.labels, classes);
  }

  lemma {:induction false} NothingKept(mask: seq<bool>)
    requires forall k :: 0 <= k < |mask| ==> !mask[k]
    ensures Kept(mask) == []
  {
    if mask != [] {
      NothingKept(mask[..|mask| - 1]);
    }
  }

  /** An empty class list is not an error in the script: both arrays come back empty. */
  lemma {:induction false} EmptyClassesEmptySplit<Img>(s: Split<Img>)
    requires Aligned(s)
    ensures FilterSplit(s, []) == Ok(Split([], []))
  {
    NothingKept(IsIn(s.labels, []));
  }
}
