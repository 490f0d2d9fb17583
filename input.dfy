/** `prepare_input` (src/learning.py): reshape a batch of images to (N, H, W, 1), then
    scale every grey level into [0, 1]. Scaling is stated over the reals. */
module Input {
  /** An 8-bit grey level, as the provider stores its pixels. */
  type Pixel = v: int | 0 <= v < 256

  /** One image: rows of grey levels, indexed [h][w]. */
  type Image = seq<seq<Pixel>>

  /** A batch of images, indexed [n][h][w]. */
  type Batch<T> = seq<seq<seq<T>>>

  /** A batch with a trailing channel axis, indexed [n][h][w][c]. */
  type Channelled<T> = seq<seq<seq<seq<T>>>>

  /** `x.reshape(x.shape + (1,))`: every pixel becomes a one-element channel vector. */
  function AddChannelAxis<T>(x: Batch<T>): (r: Channelled<T>)
    ensures |r| == |x|
  {
    seq(|x|, n requires 0 <= n < |x| =>
      seq(|x[n]|, h requires 0 <= h < |x[n]| =>
        seq(|x[n][h]|, w requires 0 <= w < |x[n][h]| => [x[n][h][w]])))
  }

  /** Every channel vector has length 1. */
  predicate SingleChannel<T>(r: Channelled<T>) {
    forall n, h, w :: 0 <= n < |r| && 0 <= h < |r[n]| && 0 <= w < |r[n][h]| ==> |r[n][h][w]| == 1
  }

  /** The inverse reshape, dropping a length-1 trailing axis. */
  function DropChannelAxis<T>(r: Channelled<T>): (x: Batch<T>)
    requires SingleChannel(r)
    ensures |x| == |r|
  {
    seq(|r|, n requires 0 <= n < |r| =>
      seq(|r[n]|, h requires 0 <= h < |r[n]| =>
        seq(|r[n][h]|, w requires 0 <= w < |r[n][h]| => r[n][h][w][0])))
  }

  /** A rectangular batch of shape (n, hgt, wid), as numpy arrays are. */
  predicate HasShape3<T>(x: Batch<T>, n: nat, hgt: nat, wid: nat) {
    |x| == n && forall i :: 0 <= i < n ==> |x[i]| == hgt && forall h :: 0 <= h < hgt ==> |x[i][h]| == wid
  }

  /** A rectangular array of shape (n, hgt, wid, c). */
  predicate HasShape4<T>(r: Channelled<T>, n: nat, hgt: nat, wid: nat, c: nat) {
    |r| == n && forall i :: 0 <= i < n ==> HasShape3(r[i], hgt, wid, c)
  }

  /** Row-major order of all elements (numpy's C order). */
  function Concat<T>(ss: seq<seq<T>>): (flat: seq<T>) {
    if ss == [] then [] else ss[0] + Concat(ss[1..])
  }

  function Flatten3<T>(x: Batch<T>): (flat: seq<T>) {
    Concat(seq(|x|, n requires 0 <= n < |x| => Concat(x[n])))
  }

  function Flatten4<T>(r: Channelled<T>): (flat: seq<T>) {
    Concat(seq(|r|, n requires 0 <= n < |r| => Flatten3(r[n])))
  }

  /** The reshape gives shape (n, hgt, wid, 1) to a batch of shape (n, hgt, wid). */
  lemma AddChannelAxisShape<T>(x: Batch<T>, n: nat, hgt: nat, wid: nat)
    requires HasShape3(x, n, hgt, wid)
    ensures HasShape4(AddChannelAxis(x), n, hgt, wid, 1)
    ensures SingleChannel(AddChannelAxis(x))
  {
  }

  /** Dropping the added axis gives the batch back. */
  lemma AddThenDrop<T>(x: Batch<T>)
    ensures SingleChannel(AddChannelAxis(x)) && DropChannelAxis(AddChannelAxis(x)) == x
  {
    var r := AddChannelAxis(x);
    var d := DropChannelAxis(r);
    forall n | 0 <= n < |x| ensures d[n] == x[n] {
      forall h | 0 <= h < |x[n]| ensures d[n][h] == x[n][h] {
      }
    }
  }

  /** On arrays with a length-1 trailing axis, the reshape inverts the drop. */
  lemma DropThenAdd<T>(r: Channelled<T>)
    requires SingleChannel(r)
    ensures AddChannelAxis(DropChannelAxis(r)) == r
  {
    var a := AddChannelAxis(DropChannelAxis(r));
    forall n | 0 <= n < |r| ensures a[n] == r[n] {
      forall h | 0 <= h < |r[n]| ensures a[n][h] == r[n][h] {
        forall w | 0 <= w < |r[n][h]| ensures a[n][h][w] == r[n][h][w] {
          assert |r[n][h][w]| == 1;
        }
      }
    }
  }

  lemma {:induction false} ConcatSingletons<T>(row: seq<T>)
    ensures Concat(seq(|row|, w requires 0 <= w < |row| => [row[w]])) == row
  {
    if row != [] {
      var s := seq(|row|, w requires 0 <= w < |row| => [row[w]]);
      assert s[1..] == seq(|row[1..]|, w requires 0 <= w < |row[1..]| => [row[1..][w]]);
      ConcatSingletons(row[1..]);
      assert row == [row[0]] + row[1..];
    }
  }

  /** The reshape keeps every element, in the same order: element count and
      row-major order are unchanged. */
  lemma {:induction false} AddChannelAxisKeepsOrder<T>(x: Batch<T>)
    ensures Flatten4(AddChannelAxis(x)) == Flatten3(x)
  {
    var r := AddChannelAxis(x);
    var outer := seq(|r|, n requires 0 <= n < |r| => Flatten3(r[n]));
    forall n | 0 <= n < |x| ensures outer[n] == Concat(x[n]) {
      var inner := seq(|r[n]|, h requires 0 <= h < |r[n]| => Concat(r[n][h]));
      forall h | 0 <= h < |x[n]| ensures inner[h] == x[n][h] {
        ConcatSingletons(x[n][h]);
      }
      assert inner == x[n];
    }
    assert outer == seq(|x|, n requires 0 <= n < |x| => Concat(x[n]));
  }

  /** `x / 255.`: every grey level scaled into [0, 1]. */
  function Normalize(r: Channelled<Pixel>): (scaled: Channelled<real>) {
    seq(|r|, n requires 0 <= n < |r| =>
      seq(|r[n]|, h requires 0 <= h < |r[n]| =>
        seq(|r[n][h]|, w requires 0 <= w < |r[n][h]| =>
          seq(|r[n][h][w]|, c requires 0 <= c < |r[n][h][w]| => r[n][h][w][c] as real / 255.0))))
  }

  /** `prepare_input`: reshape, then scale. The result has the input's (n, h, w) layout
      with one channel, and every value lies in [0, 1] and is the source pixel over 255. */
  function PrepareInput(x: Batch<Pixel>): (r: Channelled<real>)
    ensures |r| == |x|
    ensures forall n :: 0 <= n < |x| ==> |r[n]| == |x[n]|
    ensures forall n, h :: 0 <= n < |x| && 0 <= h < |x[n]| ==> |r[n][h]| == |x[n][h]|
    ensures forall n, h, w :: 0 <= n < |x| && 0 <= h < |x[n]| && 0 <= w < |x[n][h]| ==>
      |r[n][h][w]| == 1 && 0.0 <= r[n][h][w][0] <= 1.0 && r[n][h][w][0] * 255.0 == x[n][h][w] as real
  {
    Normalize(AddChannelAxis(x))
  }
}
