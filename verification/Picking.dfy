/** Order-preserving selection of the entries of a list whose flag is set or clear. */
module Picking {
  import opened Shapes

  lemma Associate<T>(a: seq<T>, b: seq<T>, c: seq<T>)
    ensures a + (b + c) == a + b + c
  {
  }

  lemma TailAppend<T>(a: seq<T>, b: seq<T>)
    requires a != []
    ensures (a + b)[0] == a[0] && (a + b)[1..] == a[1..] + b
  {
  }

  function Pick<T>(flags: seq<bool>, xs: seq<T>, want: bool): (r: seq<T>)
    requires |flags| == |xs|
  {
    if flags == [] then []
    else (if flags[0] == want then [xs[0]] else []) + Pick(flags[1..], xs[1..], want)
  }

  lemma {:induction false} PickUniform<T>(b: bool, xs: seq<T>)
    ensures Pick(Repeat(b, |xs|), xs, b) == xs && Pick(Repeat(b, |xs|), xs, !b) == []
  {
    if xs != [] {
      PickUniform(b, xs[1..]);
      assert Repeat(b, |xs|)[1..] == Repeat(b, |xs| - 1);
    }
  }

  lemma {:induction false} PickLength<T, U>(f: seq<bool>, xs: seq<T>, ys: seq<U>)
    requires |f| == |xs| == |ys|
    ensures |Pick(f, xs, true)| + |Pick(f, xs, false)| == |f|
    ensures |Pick(f, xs, true)| == |Pick(f, ys, true)| && |Pick(f, xs, false)| == |Pick(f, ys, false)|
  {
    if f != [] {
      PickLength(f[1..], xs[1..], ys[1..]);
    }
  }

  /** An offset splits into its two picked halves. */
  lemma {:induction false} DotSplits(f: seq<bool>, strides: seq<int>, c: seq<int>)
    requires |f| == |strides| == |c|
    ensures Dot(strides, c) == Dot(Pick(f, strides, true), Pick(f, c, true)) + Dot(Pick(f, strides, false), Pick(f, c, false))
  {
    if f != [] {
      DotSplits(f[1..], strides[1..], c[1..]);
      var w := f[0];
      assert Pick(f, strides, w)[1..] == Pick(f[1..], strides[1..], w);
      assert Pick(f, c, w)[1..] == Pick(f[1..], c[1..], w);
      assert Pick(f, strides, !w) == Pick(f[1..], strides[1..], !w);
      assert Pick(f, c, !w) == Pick(f[1..], c[1..], !w);
    }
  }

  /** Set flags between `p` clear ones in front and `m` behind. */
  function Block(p: nat, k: nat, m: nat): (f: seq<bool>)
    ensures |f| == p + k + m
    decreases p + k
  {
    if p > 0 then [false] + Block(p - 1, k, m)
    else if k > 0 then [true] + Block(0, k - 1, m)
    else Repeat(false, m)
  }

  /** Picking by a block cuts the list into slices. */
  lemma PickBlock<T>(p: nat, k: nat, m: nat, xs: seq<T>)
    requires |xs| == p + k + m
    ensures Pick(Block(p, k, m), xs, true) == xs[p..p + k]
    ensures Pick(Block(p, k, m), xs, false) == xs[..p] + xs[p + k..]
  {
    PickBlockInside(p, k, m, xs);
    PickBlockOutside(p, k, m, xs);
  }

  lemma {:induction false} PickBlockInside<T>(p: nat, k: nat, m: nat, xs: seq<T>)
    requires |xs| == p + k + m
    ensures Pick(Block(p, k, m), xs, true) == xs[p..p + k]
    decreases p + k
  {
    if p > 0 {
      PickBlockInside(p - 1, k, m, xs[1..]);
    } else if k > 0 {
      PickBlockInside(0, k - 1, m, xs[1..]);
    } else {
      PickUniform(false, xs);
    }
  }

  lemma OutsideCons<T>(xs: seq<T>, p: nat, k: nat)
    requires 0 < p && p + k <= |xs|
    ensures [xs[0]] + (xs[1..][..p - 1] + xs[1..][p - 1 + k..]) == xs[..p] + xs[p + k..]
  {
    assert xs[..p] == [xs[0]] + xs[1..][..p - 1];
    assert xs[1..][p - 1 + k..] == xs[p + k..];
  }

  lemma {:induction false} PickBlockOutside<T>(p: nat, k: nat, m: nat, xs: seq<T>)
    requires |xs| == p + k + m
    ensures Pick(Block(p, k, m), xs, false) == xs[..p] + xs[p + k..]
    decreases p + k
  {
    if p > 0 {
      PickBlockOutside(p - 1, k, m, xs[1..]);
      OutsideCons(xs, p, k);
    } else if k > 0 {
      PickBlockOutside(0, k - 1, m, xs[1..]);
      assert xs[1..][k - 1..] == xs[k..];
    } else {
      PickUniform(false, xs);
    }
  }

  lemma {:induction false} PickCover<T>(f: seq<bool>, xs: seq<T>, k: nat)
    requires |f| == |xs| && k < |xs|
    ensures xs[k] in Pick(f, xs, f[k])
  {
    if k > 0 {
      PickCover(f[1..], xs[1..], k - 1);
    }
  }
}
