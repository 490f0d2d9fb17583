/** `prepare_output` (src/learning.py): the in-place re-indexing loop over the class
    list, then one-hot encoding to width |classes|. */
module Labels {
  import opened Wrappers

  /** One pass of `y[y == c] = i`, seen from a single entry. */
  function Step(v: int, c: int, i: int): (w: int) {
    if v == c then i else v
  }

  /** The value an entry that started as v holds after the first n passes of the loop. */
  function After(v: int, classes: seq<int>, n: nat): (w: int)
    requires n <= |classes|
  {
    if n == 0 then v else Step(After(v, classes, n - 1), classes[n - 1], n - 1)
  }

  /** The value an entry holds once the whole loop has run. */
  function Relabelled(v: int, classes: seq<int>): (w: int) {
    After(v, classes, |classes|)
  }

  function RelabelAll(ys: seq<int>, classes: seq<int>): (r: seq<int>)
    ensures |r| == |ys|
  {
    seq(|ys|, k requires 0 <= k < |ys| => Relabelled(ys[k], classes))
  }

  /** The position of a label in the class list: its first occurrence. */
  function IndexOf(classes: seq<int>, v: int): (p: nat)
    requires v in classes
    ensures p < |classes| && classes[p] == v
    ensures forall j :: 0 <= j < p ==> classes[j] != v
  {
    if classes[0] == v then 0 else 1 + IndexOf(classes[1..], v)
  }

  /** No class value equals an index that the loop assigned before reaching it. */
  predicate NoEarlyCollision(classes: seq<int>) {
    forall j :: 0 <= j < |classes| ==> !(0 <= classes[j] < j)
  }

  predicate Distinct(classes: seq<int>) {
    forall i, j :: 0 <= i < j < |classes| ==> classes[i] != classes[j]
  }

  /** An entry that matches no class value at any pass keeps its value. */
  lemma {:induction false} UnmatchedKeepsValue(v: int, classes: seq<int>, n: nat)
    requires n <= |classes|
    requires forall j :: 0 <= j < n ==> After(v, classes, j) != classes[j]
    ensures After(v, classes, n) == v
  {
    if n > 0 {
      UnmatchedKeepsValue(v, classes, n - 1);
    }
  }

  lemma {:induction false} NonMemberFixed(v: int, classes: seq<int>, n: nat)
    requires n <= |classes|
    requires forall j :: 0 <= j < n ==> classes[j] != v
    ensures After(v, classes, n) == v
  {
    if n > 0 {
      NonMemberFixed(v, classes, n - 1);
    }
  }

  /** A label outside the class list is left as it is by the loop. */
  lemma NonMemberUnchanged(v: int, classes: seq<int>)
    requires v !in classes
    ensures Relabelled(v, classes) == v
  {
    NonMemberFixed(v, classes, |classes|);
  }

  /** Once an entry holds an index the loop already passed, it holds an index below
      the current pass from then on. */
  lemma {:induction false} StaysAnIndex(v: int, classes: seq<int>, a: nat, b: nat)
    requires a <= b <= |classes|
    requires 0 <= After(v, classes, a) < a
    ensures 0 <= After(v, classes, b) < b
  {
    if a < b {
      StaysAnIndex(v, classes, a, b - 1);
    }
  }

  /** A label that is a class ends as a valid class index, collisions or not. */
  lemma MemberBecomesIndex(v: int, classes: seq<int>)
    requires v in classes
    ensures 0 <= Relabelled(v, classes) < |classes|
  {
    var p := IndexOf(classes, v);
    NonMemberFixed(v, classes, p);
    StaysAnIndex(v, classes, p + 1, |classes|);
  }

  /** After an entry is set to x, it keeps x exactly as long as no later class value
      equals x; once it leaves x it holds an index at least a, never x again. */
  lemma {:induction false} Settled(v: int, classes: seq<int>, x: int, a: nat, b: nat)
    requires x < a <= b <= |classes|
    requires After(v, classes, a) == x
    ensures After(v, classes, b) == x <==> forall m :: a <= m < b ==> classes[m] != x
    ensures After(v, classes, b) != x ==> After(v, classes, b) >= a
  {
    if a < b {
      Settled(v, classes, x, a, b - 1);
    }
  }

  /** The exact condition for one label: a class ends at its position p in the list
      if and only if no later class value equals p. */
  lemma RelabelledExactly(v: int, classes: seq<int>)
    requires v in classes
    ensures var p := IndexOf(classes, v);
      Relabelled(v, classes) == p <==> forall m :: p < m < |classes| ==> classes[m] != p
  {
    var p := IndexOf(classes, v);
    NonMemberFixed(v, classes, p);
    Settled(v, classes, p, p + 1, |classes|);
  }

  /** Re-indexing is correct when no class value equals an earlier index: every class
      then ends as its position in the list. */
  lemma NoCollisionCorrect(v: int, classes: seq<int>)
    requires NoEarlyCollision(classes) && v in classes
    ensures Relabelled(v, classes) == IndexOf(classes, v)
  {
    var p := IndexOf(classes, v);
    forall m | p < m < |classes| ensures classes[m] != p {
      assert !(0 <= classes[m] < m);
    }
    RelabelledExactly(v, classes);
  }

  /** For a duplicate-free class list, every class ends at its own position if and
      only if no class value equals an earlier index. */
  lemma RelabelCorrectIff(classes: seq<int>)
    requires Distinct(classes)
    ensures (forall p :: 0 <= p < |classes| ==> Relabelled(classes[p], classes) == p)
        <==> NoEarlyCollision(classes)
  {
    if NoEarlyCollision(classes) {
      forall p | 0 <= p < |classes| ensures Relabelled(classes[p], classes) == p {
        NoCollisionCorrect(classes[p], classes);
      }
    } else {
      var j :| 0 <= j < |classes| && 0 <= classes[j] < j;
      var i := classes[j];
      RelabelledExactly(classes[i], classes);
      assert IndexOf(classes, classes[i]) == i;
      assert Relabelled(classes[i], classes) != i;
    }
  }

  /** A collision rewrites again: when classes[j] == i for i < j and no class value between
      them equals i, the class at position i, rewritten to i at pass i, is rewritten to j
      at pass j and ends at an index of at least j, not at i. */
  lemma CollisionRewritesAgain(classes: seq<int>, i: nat, j: nat)
    requires Distinct(classes)
    requires i < j < |classes| && classes[j] == i
    ensures After(classes[i], classes, i + 1) == i
    ensures After(classes[i], classes, j + 1) == j
    ensures Relabelled(classes[i], classes) >= j
    ensures Relabelled(classes[i], classes) != i
  {
    var v := classes[i];
    NonMemberFixed(v, classes, i);
    assert After(v, classes, i + 1) == i;
    forall m | i < m < j ensures classes[m] != i {
      assert classes[m] != classes[j];
    }
    Settled(v, classes, i, i + 1, j);
    Settled(v, classes, j, j + 1, |classes|);
  }

  /** The collision example: with class list [1, 0] both classes end as 1. */
  lemma SwappedClassesCollide()
    ensures RelabelAll([1, 0], [1, 0]) == [1, 1]
  {
    var classes := [1, 0];
    assert After(1, classes, 1) == 0 && After(1, classes, 2) == 1;
    assert After(0, classes, 1) == 0 && After(0, classes, 2) == 1;
  }

  /** The class list 0, 1, ..., n-1 makes the loop the identity on every label. */
  lemma IdentityClassesKeepLabels(ys: seq<int>, n: nat)
    ensures RelabelAll(ys, seq(n, i requires 0 <= i < n => i)) == ys
  {
    var classes := seq(n, i requires 0 <= i < n => i);
    forall k | 0 <= k < |ys| ensures Relabelled(ys[k], classes) == ys[k] {
      if ys[k] in classes {
        NoCollisionCorrect(ys[k], classes);
      } else {
        NonMemberUnchanged(ys[k], classes);
      }
    }
  }

  /** `y[y == c] = i` on the whole array. */
  method AssignWhereEqual(y: array<int>, c: int, i: int)
    modifies y
    ensures forall k :: 0 <= k < y.Length ==> y[k] == Step(old(y[k]), c, i)
  {
    for k := 0 to y.Length
      invariant forall m :: 0 <= m < k ==> y[m] == Step(old(y[m]), c, i)
      invariant forall m :: k <= m < y.Length ==> y[m] == old(y[m])
    {
      if y[k] == c {
        y[k] := i;
      }
    }
  }

  /** The re-indexing loop: for each class position i in order, every entry equal to
      classes[i] becomes i, in place on y. */
  method Relabel(y: array<int>, classes: seq<int>)
    modifies y
    ensures y[..] == RelabelAll(old(y[..]), classes)
  {
    for n := 0 to |classes|
      invariant forall k :: 0 <= k < y.Length ==> y[k] == After(old(y[k]), classes, n)
    {
      AssignWhereEqual(y, classes[n], n);
    }
  }

  /** Why `to_categorical` fails: it finds no largest label to size the encoding by
      (numpy refuses the maximum of an empty array), or a label is not a column. */
  datatype EncodeError = NoLabels | LabelOutOfRange

  /** The one-hot row of value v: a 1 at column v, 0 everywhere else. */
  function OneHot(v: nat, width: nat): (row: seq<int>)
    requires v < width
    ensures |row| == width
    ensures forall c :: 0 <= c < width ==> row[c] == (if c == v then 1 else 0)
  {
    seq(width, c requires 0 <= c < width => if c == v then 1 else 0)
  }

  /** Decoding a row: the first column that holds 1 (|row| when there is none). */
  function HotIndex(row: seq<int>): (c: nat)
    ensures c <= |row|
    ensures c < |row| ==> row[c] == 1
    ensures forall j :: 0 <= j < c ==> row[j] != 1
  {
    if row == [] then 0 else if row[0] == 1 then 0 else 1 + HotIndex(row[1..])
  }

  function Sum(row: seq<int>): (total: int) {
    if row == [] then 0 else row[0] + Sum(row[1..])
  }

  lemma {:induction false} SumOfIndicator(row: seq<int>, v: int)
    requires forall c :: 0 <= c < |row| ==> row[c] == (if c == v then 1 else 0)
    ensures Sum(row) == (if 0 <= v < |row| then 1 else 0)
  {
    if row != [] {
      SumOfIndicator(row[1..], v - 1);
    }
  }

  /** A one-hot row sums to 1 and decodes to the value it encodes. */
  lemma OneHotRoundTrip(v: nat, width: nat)
    requires v < width
    ensures Sum(OneHot(v, width)) == 1
    ensures HotIndex(OneHot(v, width)) == v
  {
    var row := OneHot(v, width);
    SumOfIndicator(row, v);
    assert row[v] == 1;
  }

  predicate InRange(ys: seq<int>, width: int) {
    forall k :: 0 <= k < |ys| ==> 0 <= ys[k] < width
  }

  /** The largest label. */
  function MaxOf(ys: seq<int>): (m: int)
    requires ys != []
    ensures m in ys
    ensures forall k :: 0 <= k < |ys| ==> ys[k] <= m
  {
    if |ys| == 1 then ys[0]
    else
      var rest := MaxOf(ys[1..]);
      if ys[0] >= rest then ys[0] else rest
  }

  /** The number of columns `to_categorical` encodes to: numClasses when it is given
      (non-zero); a zero numClasses counts as missing, and then it is one more than the
      largest label (none when there is no label). */
  function Columns(ys: seq<int>, numClasses: nat): (w: int)
    ensures numClasses > 0 ==> w == numClasses
    ensures numClasses == 0 && ys != [] ==> w - 1 in ys && forall k :: 0 <= k < |ys| ==> ys[k] < w
  {
    if numClasses > 0 then numClasses else if ys == [] then 0 else MaxOf(ys) + 1
  }

  /** `to_categorical(y, numClasses)`: one one-hot row per label, or an error. */
  function ToCategorical(ys: seq<int>, numClasses: nat): (r: Result<seq<seq<int>>, EncodeError>)
    ensures numClasses > 0 ==> (r.Ok? <==> InRange(ys, numClasses))
    ensures numClasses == 0 ==> (r.Ok? <==> ys != [] && InRange(ys, Columns(ys, 0)))
    ensures numClasses == 0 && ys == [] ==> r == Err(NoLabels)
    ensures r.Ok? ==> 0 < Columns(ys, numClasses) && InRange(ys, Columns(ys, numClasses))
    ensures r.Ok? ==> |r.value| == |ys|
    ensures r.Ok? ==> forall k :: 0 <= k < |ys| ==> r.value[k] == OneHot(ys[k], Columns(ys, numClasses))
    ensures r.Ok? ==> forall k :: 0 <= k < |ys| ==>
      |r.value[k]| == Columns(ys, numClasses) && Sum(r.value[k]) == 1 && HotIndex(r.value[k]) == ys[k]
  {
    if numClasses == 0 && ys == [] then
      Err(NoLabels)
    else
      var width := Columns(ys, numClasses);
      if width > 0 && InRange(ys, width) then
        var rows := seq(|ys|, k requires 0 <= k < |ys| => OneHot(ys[k], width));
        assert forall k :: 0 <= k < |ys| ==> Sum(rows[k]) == 1 && HotIndex(rows[k]) == ys[k] by {
          forall k | 0 <= k < |ys| ensures Sum(rows[k]) == 1 && HotIndex(rows[k]) == ys[k] {
            OneHotRoundTrip(ys[k], width);
          }
        }
        Ok(rows)
      else
        Err(LabelOutOfRange)
  }

  /** `prepare_output(y)`: re-index y in place, then encode it. */
  method PrepareOutput(y: array<int>, classes: seq<int>) returns (r: Result<seq<seq<int>>, EncodeError>)
    modifies y
    ensures y[..] == RelabelAll(old(y[..]), classes)
    ensures r == ToCategorical(y[..], |classes|)
  {
    Relabel(y, classes);
    r := ToCategorical(y[..], |classes|);
  }

  /** When every label is a class, encoding succeeds exactly when the class list is
      not empty; with no early collision each row is the one-hot row of the label's
      position in the class list. */
  lemma PreparedLabelsEncode(ys: seq<int>, classes: seq<int>)
    requires forall k :: 0 <= k < |ys| ==> ys[k] in classes
    ensures ToCategorical(RelabelAll(ys, classes), |classes|).Ok? <==> classes != []
    ensures classes != [] && NoEarlyCollision(classes) ==>
      forall k :: 0 <= k < |ys| ==>
        ToCategorical(RelabelAll(ys, classes), |classes|).value[k] == OneHot(IndexOf(classes, ys[k]), |classes|)
  {
    if classes == [] {
      assert forall k :: 0 <= k < |ys| ==> ys[k] !in classes;
    } else {
      forall k | 0 <= k < |ys| ensures 0 <= Relabelled(ys[k], classes) < |classes| {
        MemberBecomesIndex(ys[k], classes);
      }
      if NoEarlyCollision(classes) {
        forall k | 0 <= k < |ys| ensures Relabelled(ys[k], classes) == IndexOf(classes, ys[k]) {
          NoCollisionCorrect(ys[k], classes);
        }
      }
    }
  }
}
