/** Laws of repeated and folded steps, over any type of state. */
module Iteration {
  import opened Sequences

  function Iterate<T>(f: T -> T, x: T, n: nat): T
    decreases n
  {
    if n == 0 then x else Iterate(f, f(x), n - 1)
  }

  function Fold<T>(g: (T, bool) -> T, x: T, bits: seq<bool>): T
    decreases |bits|
  {
    if bits == [] then x else Fold(g, g(x, bits[0]), bits[1..])
  }

  /** The lowest `n` bits of a word, lowest first, given how to read and drop the lowest one. */
  function LowBits<T>(lsb: T -> bool, half: T -> T, w: T, n: nat): (bits: seq<bool>)
    ensures |bits| == n
    decreases n
  {
    if n == 0 then [] else [lsb(w)] + LowBits(lsb, half, half(w), n - 1)
  }

  lemma {:induction false} FoldAppend<T>(g: (T, bool) -> T, x: T, a: seq<bool>, b: seq<bool>)
    ensures Fold(g, x, a + b) == Fold(g, Fold(g, x, a), b)
    decreases |a|
  {
    if a == [] {
      assert a + b == b;
    } else {
      assert (a + b)[1..] == a[1..] + b;
      FoldAppend(g, g(x, a[0]), a[1..], b);
    }
  }

  lemma {:induction false} IterateLinear<T(!new)>(f: T -> T, op: (T, T) -> T, x: T, y: T, n: nat)
    requires forall a, b :: f(op(a, b)) == op(f(a), f(b))
    ensures Iterate(f, op(x, y), n) == op(Iterate(f, x, n), Iterate(f, y, n))
    decreases n
  {
    if n > 0 { IterateLinear(f, op, f(x), f(y), n - 1); }
  }

  lemma {:induction false} IterateFixed<T>(f: T -> T, x: T, n: nat)
    requires f(x) == x
    ensures Iterate(f, x, n) == x
    decreases n
  {
    if n > 0 { IterateFixed(f, x, n - 1); }
  }

  lemma {:induction false} IterateAppend<T>(f: T -> T, x: T, m: nat, n: nat)
    ensures Iterate(f, x, m + n) == Iterate(f, Iterate(f, x, m), n)
    decreases m
  {
    if m > 0 { IterateAppend(f, f(x), m - 1, n); }
  }

  lemma {:induction false} FoldZeros<T>(g: (T, bool) -> T, x: T, n: nat)
    requires g(x, false) == x
    ensures Fold(g, x, Copies(false, n)) == x
    decreases n
  {
    if n > 0 {
      assert Copies(false, n)[1..] == Copies(false, n - 1);
      FoldZeros(g, x, n - 1);
    }
  }

  lemma {:induction false} IterateInjective<T(!new)>(f: T -> T, x: T, y: T, n: nat)
    requires forall a, b :: f(a) == f(b) ==> a == b
    requires Iterate(f, x, n) == Iterate(f, y, n)
    ensures x == y
    decreases n
  {
    if n > 0 { IterateInjective(f, f(x), f(y), n - 1); }
  }

  lemma {:induction false} FoldInjective<T(!new)>(g: (T, bool) -> T, x: T, y: T, bits: seq<bool>)
    requires forall a, b, u :: g(a, u) == g(b, u) ==> a == b
    requires Fold(g, x, bits) == Fold(g, y, bits)
    ensures x == y
    decreases |bits|
  {
    if bits != [] { FoldInjective(g, g(x, bits[0]), g(y, bits[0]), bits[1..]); }
  }

  function Differences(u: seq<bool>, v: seq<bool>): (d: seq<bool>)
    requires |u| == |v|
    ensures |d| == |u| && forall i :: 0 <= i < |u| ==> d[i] == (u[i] != v[i])
  {
    seq(|u|, i requires 0 <= i < |u| => u[i] != v[i])
  }

  lemma {:induction false} FoldLinear<T(!new)>(g: (T, bool) -> T, op: (T, T) -> T, x: T, y: T, u: seq<bool>, v: seq<bool>)
    requires forall a, b, p, q :: g(op(a, b), p != q) == op(g(a, p), g(b, q))
    requires |u| == |v|
    ensures Fold(g, op(x, y), Differences(u, v)) == op(Fold(g, x, u), Fold(g, y, v))
    decreases |u|
  {
    if u != [] {
      assert Differences(u, v)[1..] == Differences(u[1..], v[1..]);
      FoldLinear(g, op, g(x, u[0]), g(y, v[0]), u[1..], v[1..]);
    }
  }

  /** A relation that one step of each side preserves holds after any number of steps. */
  lemma {:induction false} FoldBound<T(!new), U(!new)>(g: (T, bool) -> T, h: U -> U, rel: (T, U) -> bool, x: T, y: U, bits: seq<bool>)
    requires forall a, b, u :: rel(a, b) ==> rel(g(a, u), h(b))
    requires rel(x, y)
    ensures rel(Fold(g, x, bits), Iterate(h, y, |bits|))
    decreases |bits|
  {
    if bits != [] { FoldBound(g, h, rel, g(x, bits[0]), h(y), bits[1..]); }
  }

  /** Stepping a combined word feeds its lowest bit and keeps the rest. */
  ghost predicate Peels<T(!new)>(f: T -> T, op: (T, T) -> T, g: (T, bool) -> T, lsb: T -> bool, half: T -> T) {
    forall a, b :: f(op(a, b)) == op(g(a, lsb(b)), half(b))
  }

  /** Feeding the bits of a word one by one, or combining the whole word first. */
  lemma {:induction false} FoldLowBits<T(!new)>(f: T -> T, op: (T, T) -> T, g: (T, bool) -> T, lsb: T -> bool, half: T -> T,
                                                c: T, w: T, n: nat)
    requires Peels(f, op, g, lsb, half)
    ensures Iterate(f, op(c, w), n) == op(Fold(g, c, LowBits(lsb, half, w, n)), Iterate(half, w, n))
    decreases n
  {
    if n > 0 {
      var bits := LowBits(lsb, half, w, n);
      assert bits[1..] == LowBits(lsb, half, half(w), n - 1);
      FoldLowBits(f, op, g, lsb, half, g(c, lsb(w)), half(w), n - 1);
    }
  }

  // ---------------------------------------------------------------- words of a fixed width

  ghost predicate Width<B(!new)>(enc: B -> seq<bool>, width: nat) {
    forall b :: |enc(b)| == width
  }

  function Flatten<B>(enc: B -> seq<bool>, data: seq<B>): seq<bool> {
    if data == [] then [] else Flatten(enc, data[..|data| - 1]) + enc(data[|data| - 1])
  }

  lemma {:induction false} FlattenLength<B(!new)>(enc: B -> seq<bool>, width: nat, data: seq<B>)
    requires Width(enc, width)
    ensures |Flatten(enc, data)| == width * |data|
  {
    if data != [] {
      var n := |data| - 1;
      FlattenLength(enc, width, data[..n]);
      assert |enc(data[n])| == width;
      assert width * n + width == width * (n + 1);
    }
  }

  lemma {:induction false} FlattenAppend<B>(enc: B -> seq<bool>, a: seq<B>, b: seq<B>)
    ensures Flatten(enc, a + b) == Flatten(enc, a) + Flatten(enc, b)
  {
    if b == [] {
      assert a + b == a;
    } else {
      var n := |b| - 1;
      assert (a + b)[..|a| + n] == a + b[..n];
      FlattenAppend(enc, a, b[..n]);
      assert Flatten(enc, a) + Flatten(enc, b[..n]) + enc(b[n]) == Flatten(enc, a) + Flatten(enc, b);
    }
  }

  lemma {:induction false} FlattenInjective<B(!new)>(enc: B -> seq<bool>, width: nat, s: seq<B>, t: seq<B>)
    requires Width(enc, width) && forall a, b :: enc(a) == enc(b) ==> a == b
    requires |s| == |t| && Flatten(enc, s) == Flatten(enc, t)
    ensures s == t
  {
    if s != [] {
      var n := |s| - 1;
      FlattenLength(enc, width, s[..n]);
      FlattenLength(enc, width, t[..n]);
      SplitEqual(Flatten(enc, s[..n]), enc(s[n]), Flatten(enc, t[..n]), enc(t[n]));
      FlattenInjective(enc, width, s[..n], t[..n]);
      assert s == s[..n] + [s[n]] && t == t[..n] + [t[n]];
    }
  }
}
