/** Regrouping of fixed-width symbols: the accumulator loop of `_convertbits`, and the bit stream it
    stands for. Python's unbounded shifts and masks are written as multiplication, division and
    remainder by powers of two; `(acc << w) | v` is a sum because `v < 2^w`. */
module Regroup {
  import opened Options

  function Pow2(n: nat): (p: nat)
    ensures p > 0
  {
    if n == 0 then 1 else 2 * Pow2(n - 1)
  }

  /** `v << k` */
  function Shl(v: nat, k: nat): nat { v * Pow2(k) }

  /** `v >> k`, on any Python integer */
  function Shr(v: int, k: nat): int { v / Pow2(k) }

  /** `v & ((1 << k) - 1)` */
  function Low(v: nat, k: nat): nat { v % Pow2(k) }

  // ---------------------------------------------------------------------------
  // Bit streams
  // ---------------------------------------------------------------------------

  /** The number a bit string denotes, most significant bit first. */
  function Val(bits: seq<bool>): nat {
    if bits == [] then 0
    else 2 * Val(bits[..|bits| - 1]) + (if bits[|bits| - 1] then 1 else 0)
  }

  /** The low `w` bits of `v`, most significant first. */
  function Bits(v: nat, w: nat): (b: seq<bool>)
    ensures |b| == w
  {
    if w == 0 then [] else Bits(v / 2, w - 1) + [v % 2 == 1]
  }

  predicate Valid(data: seq<int>, w: nat) {
    forall i :: 0 <= i < |data| ==> 0 <= data[i] < Pow2(w)
  }

  /** The symbols' bits, one symbol after another. */
  function Stream(data: seq<int>, w: nat): seq<bool>
    requires Valid(data, w)
  {
    if data == [] then [] else Stream(data[..|data| - 1], w) + Bits(data[|data| - 1], w)
  }

  /** The complete groups of `w` bits, read as numbers; a shorter tail is dropped. */
  function Groups(bits: seq<bool>, w: nat): seq<int>
    requires w > 0
    decreases |bits|
  {
    if |bits| < w then [] else [Val(bits[..w])] + Groups(bits[w..], w)
  }

  /** The bits after the last complete group. */
  function Tail(bits: seq<bool>, w: nat): (t: seq<bool>)
    requires w > 0
    ensures |t| < w
    decreases |bits|
  {
    if |bits| < w then bits else Tail(bits[w..], w)
  }

  function Falses(n: nat): (z: seq<bool>)
    ensures |z| == n && forall i :: 0 <= i < n ==> !z[i]
  {
    seq(n, _ => false)
  }

  /** What regrouping means, with no accumulator in sight: cut the bit stream into groups. With
      padding an incomplete last group is filled with zeros; without padding the tail must be
      shorter than an input symbol and all zeros. */
  function Regrouped(data: seq<int>, frombits: nat, tobits: nat, pad: bool): Option<seq<int>>
    requires tobits > 0
  {
    if !Valid(data, frombits) then None else
    var bits := Stream(data, frombits);
    var tail := Tail(bits, tobits);
    if pad then
      Some(if tail == [] then Groups(bits, tobits)
           else Groups(bits + Falses(tobits - |tail|), tobits))
    else if |tail| >= frombits || true in tail then None
    else Some(Groups(bits, tobits))
  }

  // ---------------------------------------------------------------------------
  // Facts about numbers and their bits
  // ---------------------------------------------------------------------------

  lemma {:induction false} ValBound(bits: seq<bool>)
    ensures Val(bits) < Pow2(|bits|)
  {
    if bits != [] { ValBound(bits[..|bits| - 1]); }
  }

  lemma ShlOneMore(v: nat, k: nat)
    ensures Shl(v, 0) == v
    ensures Shl(v, k + 1) == 2 * Shl(v, k)
  {
    assert v * Pow2(k + 1) == 2 * (v * Pow2(k));
  }

  lemma {:induction false} ValAppend(a: seq<bool>, b: seq<bool>)
    ensures Val(a + b) == Shl(Val(a), |b|) + Val(b)
    decreases |b|
  {
    hide Shl;
    ShlOneMore(Val(a), if b == [] then 0 else |b| - 1);
    if b == [] {
      assert a + b == a;
    } else {
      var c := b[..|b| - 1];
      assert (a + b)[..|a + b| - 1] == a + c;
      ValAppend(a, c);
    }
  }

  lemma {:induction false} ValOfBits(v: nat, w: nat)
    requires v < Pow2(w)
    ensures Val(Bits(v, w)) == v
  {
    if w > 0 {
      assert Bits(v, w)[..w - 1] == Bits(v / 2, w - 1);
      ValOfBits(v / 2, w - 1);
    }
  }

  lemma {:induction false} BitsOfVal(bits: seq<bool>)
    ensures Bits(Val(bits), |bits|) == bits
  {
    if bits != [] {
      BitsOfVal(bits[..|bits| - 1]);
    }
  }

  lemma {:induction false} ValZero(bits: seq<bool>)
    ensures Val(bits) == 0 <==> true !in bits
  {
    if bits != [] {
      ValZero(bits[..|bits| - 1]);
      assert bits == bits[..|bits| - 1] + [bits[|bits| - 1]];
    }
  }

  lemma MulAtLeast(k: int, d: nat)
    requires k >= 1
    ensures k * d >= d
  {
    assert k * d == (k - 1) * d + d;
  }

  /** Division with remainder is unique. */
  lemma DivUnique(n: nat, d: nat, q: nat, r: nat)
    requires d > 0 && n == q * d + r && r < d
    ensures n / d == q && n % d == r
  {
    var q2, r2 := n / d, n % d;
    assert n == q2 * d + r2;
    assert (q2 - q) * d == r - r2;
    assert (q - q2) * d == r2 - r;
    if q2 > q { MulAtLeast(q2 - q, d); } else if q > q2 { MulAtLeast(q - q2, d); }
  }

  lemma LowOfAppend(a: seq<bool>, b: seq<bool>)
    ensures Low(Val(a + b), |b|) == Val(b)
  {
    ValAppend(a, b);
    ValBound(b);
    DivUnique(Val(a + b), Pow2(|b|), Val(a), Val(b));
  }

  lemma ShrOfAppend(a: seq<bool>, b: seq<bool>)
    ensures Shr(Val(a + b), |b|) == Val(a)
  {
    ValAppend(a, b);
    ValBound(b);
    DivUnique(Val(a + b), Pow2(|b|), Val(a), Val(b));
  }

  /** Shifting right by `|c|` and masking `|b|` bits reads the window `b` of `a + b + c`. */
  lemma ValWindow(a: seq<bool>, b: seq<bool>, c: seq<bool>)
    ensures Shr(Val(a + b + c), |c|) >= 0 && Low(Shr(Val(a + b + c), |c|), |b|) == Val(b)
  {
    hide Val, Low, Shr;
    ShrOfAppend(a + b, c);
    LowOfAppend(a, b);
  }

  // ---------------------------------------------------------------------------
  // Facts about groups and streams
  // ---------------------------------------------------------------------------

  /** A bit string made of complete groups only. */
  predicate Whole(bits: seq<bool>, w: nat)
    requires w > 0
  {
    Tail(bits, w) == []
  }

  /** The bits of the complete groups. */
  function Head(bits: seq<bool>, w: nat): (h: seq<bool>)
    requires w > 0
    ensures |h| <= |bits|
    decreases |bits|
  {
    if |bits| < w then [] else bits[..w] + Head(bits[w..], w)
  }

  lemma {:induction false} HeadAndTail(bits: seq<bool>, w: nat)
    requires w > 0
    ensures bits == Head(bits, w) + Tail(bits, w)
    ensures Whole(Head(bits, w), w)
    ensures Groups(Head(bits, w), w) == Groups(bits, w)
    decreases |bits|
  {
    hide Val;
    if |bits| >= w {
      HeadAndTail(bits[w..], w);
      var h := Head(bits, w);
      assert h[..w] == bits[..w];
      assert h[w..] == Head(bits[w..], w);
      assert bits == bits[..w] + bits[w..];
    }
  }

  lemma FirstGroup(bits: seq<bool>, w: nat)
    requires w > 0
    ensures |bits| >= w ==> Groups(bits, w) == [Val(bits[..w])] + Groups(bits[w..], w) && Tail(bits, w) == Tail(bits[w..], w)
    ensures |bits| >= w ==> (Whole(bits, w) <==> Whole(bits[w..], w))
    ensures |bits| < w ==> (Whole(bits, w) <==> bits == []) && Groups(bits, w) == []
  {}

  lemma {:induction false} GroupsAppend(a: seq<bool>, b: seq<bool>, w: nat)
    requires w > 0 && Whole(a, w)
    ensures Groups(a + b, w) == Groups(a, w) + Groups(b, w)
    ensures Tail(a + b, w) == Tail(b, w)
    decreases |a|
  {
    hide *;
    FirstGroup(a, w);
    if |a| < w {
      assert a + b == b;
    } else {
      FirstGroup(a + b, w);
      assert (a + b)[..w] == a[..w];
      assert (a + b)[w..] == a[w..] + b;
      GroupsAppend(a[w..], b, w);
    }
  }

  lemma OneGroup(bits: seq<bool>, w: nat)
    requires w > 0 && |bits| == w
    ensures Groups(bits, w) == [Val(bits)] && Whole(bits, w)
  {
    assert bits[..w] == bits && bits[w..] == [];
  }

  lemma {:induction false} GroupsValid(bits: seq<bool>, w: nat)
    requires w > 0
    ensures Valid(Groups(bits, w), w)
    decreases |bits|
  {
    if |bits| >= w {
      ValBound(bits[..w]);
      GroupsValid(bits[w..], w);
    }
  }

  lemma StreamLast(a: seq<int>, last: int, w: nat)
    requires Valid(a, w) && Valid([last], w)
    ensures Valid(a + [last], w) && last >= 0
    ensures Stream(a + [last], w) == Stream(a, w) + Bits(last, w)
  {
    hide Bits, Pow2;
    assert last == [last][0];
    assert (a + [last])[..|a|] == a;
  }

  lemma {:induction false} StreamAppend(a: seq<int>, b: seq<int>, w: nat)
    requires Valid(a, w) && Valid(b, w)
    ensures Valid(a + b, w)
    ensures Stream(a + b, w) == Stream(a, w) + Stream(b, w)
    decreases |b|
  {
    hide Bits, Pow2, Stream;
    if b == [] {
      assert a + b == a;
      NoStream(w);
    } else {
      var c, last := b[..|b| - 1], b[|b| - 1];
      assert b == c + [last] && a + b == (a + c) + [last];
      StreamAppend(a, c, w);
      StreamLast(c, last, w);
      StreamLast(a + c, last, w);
    }
  }

  lemma NoStream(w: nat)
    ensures Stream([], w) == []
  {}

  lemma StreamOne(v: nat, w: nat)
    requires v < Pow2(w)
    ensures Valid([v], w) && Stream([v], w) == Bits(v, w)
  {
    hide Bits, Pow2;
    assert [v][..0] == [];
  }

  lemma ShortOfAGroup(bits: seq<bool>, w: nat)
    requires |bits| < w
    ensures Groups(bits, w) == [] && Tail(bits, w) == bits
  {}

  /** Cutting a stream back into its own width returns the symbols, with nothing left. */
  lemma {:induction false} GroupsOfStream(data: seq<int>, w: nat)
    requires w > 0 && Valid(data, w)
    ensures Groups(Stream(data, w), w) == data
    ensures Whole(Stream(data, w), w)
  {
    hide Groups, Tail, Val, Pow2, Bits;
    ShortOfAGroup([], w);
    if data != [] {
      var init, last := data[..|data| - 1], data[|data| - 1];
      GroupsOfStream(init, w);
      GroupsAppend(Stream(init, w), Bits(last, w), w);
      ValOfBits(last, w);
      OneGroup(Bits(last, w), w);
    }
  }

  /** Streaming the groups returns the bits they were cut from. */
  lemma {:induction false} StreamOfGroups(bits: seq<bool>, w: nat)
    requires w > 0
    ensures Valid(Groups(bits, w), w)
    ensures Stream(Groups(bits, w), w) == Head(bits, w)
    decreases |bits|
  {
    hide Val, Pow2, Bits;
    GroupsValid(bits, w);
    if |bits| >= w {
      var first: int, rest := Val(bits[..w]), Groups(bits[w..], w);
      GroupsValid(bits[w..], w);
      ValBound(bits[..w]);
      StreamOfGroups(bits[w..], w);
      StreamAppend([first], rest, w);
      BitsOfVal(bits[..w]);
      StreamOne(first, w);
    }
  }

  // ---------------------------------------------------------------------------
  // The loop
  // ---------------------------------------------------------------------------

  /** `_convertbits`, accumulator and all: `acc` is never masked, so it is the value of the whole
      stream read so far, and `bits` counts the ones not yet emitted. */
  method ConvertBits(data: seq<int>, frombits: nat, tobits: nat, pad: bool) returns (r: Option<seq<int>>)
    requires tobits > 0
    ensures r == Regrouped(data, frombits, tobits, pad)
  {
    hide Groups, Tail, Head, Val, Pow2, Low, Shr, Shl, Bits;
    var acc, bits: nat, ret: seq<int> := 0, 0, [];
    ghost var stream: seq<bool> := [];
    ShortOfAGroup([], tobits);
    assert Val([]) == 0 by { ValZero([]); }
    for n := 0 to |data|
      invariant Valid(data[..n], frombits)
      invariant stream == Stream(data[..n], frombits)
      invariant acc == Val(stream)
      invariant bits == |Tail(stream, tobits)|
      invariant ret == Groups(stream, tobits)
    {
      var value := data[n];
      assert data[..n + 1][..n] == data[..n];
      OutOfRange(value, frombits);
      if value < 0 || Shr(value, frombits) != 0 {
        return None;
      }
      acc := Shl(acc, frombits) + value;
      bits := bits + frombits;
      HeadAndTail(stream, tobits);
      ghost var emitted := Head(stream, tobits);
      stream := Grow(stream, value, frombits);
      while bits >= tobits
        invariant bits <= |stream| && emitted == stream[..|stream| - bits]
        invariant Whole(emitted, tobits) && ret == Groups(emitted, tobits)
      {
        bits := bits - tobits;
        EmitGroup(stream, bits, tobits);
        ret := ret + [Low(Shr(acc, bits), tobits)];
        emitted := stream[..|stream| - bits];
      }
      StopEmitting(stream, bits, tobits);
    }
    assert data[..|data|] == data;
    var rest := Low(Shl(acc, tobits - bits), tobits);
    PadGroup(stream, tobits);
    if pad {
      if bits != 0 {
        ret := ret + [rest];
      }
    } else if bits >= frombits || rest != 0 {
      return None;
    }
    return Some(ret);
  }

  lemma OutOfRange(v: int, w: nat)
    ensures v < 0 || Shr(v, w) != 0 <==> !(0 <= v < Pow2(w))
  {
    var p := Pow2(w);
    if 0 <= v < p { DivUnique(v, p, 0, v); }
    assert v == p * (v / p) + v % p;
  }

  ghost function Grow(stream: seq<bool>, value: nat, w: nat): (grown: seq<bool>)
    requires value < Pow2(w)
    ensures grown == stream + Bits(value, w)
    ensures Val(grown) == Shl(Val(stream), w) + value
  {
    ValAppend(stream, Bits(value, w));
    ValOfBits(value, w);
    stream + Bits(value, w)
  }

  lemma EmitGroup(stream: seq<bool>, bits: nat, w: nat)
    requires w > 0 && bits + w <= |stream| && Whole(stream[..|stream| - bits - w], w)
    ensures Whole(stream[..|stream| - bits], w) && Shr(Val(stream), bits) >= 0
    ensures Groups(stream[..|stream| - bits], w)
         == Groups(stream[..|stream| - bits - w], w) + [Low(Shr(Val(stream), bits), w)]
  {
    hide Groups, Val, Low, Shr, Pow2, Tail;
    var k := |stream| - bits;
    var a, b, c := stream[..k - w], stream[k - w..k], stream[k..];
    assert stream == a + b + c;
    ValWindow(a, b, c);
    assert stream[..k] == a + b;
    GroupsAppend(a, b, w);
    OneGroup(b, w);
  }

  lemma StopEmitting(stream: seq<bool>, bits: nat, w: nat)
    requires w > 0 && bits < w && bits <= |stream| && Whole(stream[..|stream| - bits], w)
    ensures Groups(stream, w) == Groups(stream[..|stream| - bits], w)
    ensures Tail(stream, w) == stream[|stream| - bits..]
  {
    var a, b := stream[..|stream| - bits], stream[|stream| - bits..];
    assert stream == a + b;
    GroupsAppend(a, b, w);
  }

  lemma PadGroup(stream: seq<bool>, w: nat)
    requires w > 0
    ensures var tail := Tail(stream, w);
            var filled := Low(Shl(Val(stream), w - |tail|), w);
            && (filled == 0 <==> true !in tail)
            && Groups(stream + Falses(w - |tail|), w) == Groups(stream, w) + [filled]
  {
    hide Groups, Tail, Head, Val, Pow2, Low, Shr, Shl;
    HeadAndTail(stream, w);
    var a, tail := Head(stream, w), Tail(stream, w);
    var zeros := Falses(w - |tail|);
    var last := tail + zeros;
    assert stream + zeros == a + last;
    ValAppend(stream, zeros);
    ValZero(zeros);
    LowOfAppend(a, last);
    ValZero(last);
    assert true in last <==> true in tail;
    GroupsAppend(a, last, w);
    OneGroup(last, w);
  }

  // ---------------------------------------------------------------------------
  // Regrouping is a bijection
  // ---------------------------------------------------------------------------

  /** Narrowing with padding and widening back without it is lossless, at any widths. */
  lemma PadThenUnpad(data: seq<int>, wide: nat, narrow: nat)
    requires 0 < narrow <= wide && Valid(data, wide)
    ensures var mid := Regrouped(data, wide, narrow, true);
            mid.Some? && Regrouped(mid.value, narrow, wide, false) == Some(data)
  {
    hide Groups, Tail, Head, Val, Pow2, Low, Shr, Shl, Stream, Bits;
    var bits := Stream(data, wide);
    var tail := Tail(bits, narrow);
    var zeros := if tail == [] then [] else Falses(narrow - |tail|);
    assert bits + [] == bits;
    Padded(bits, narrow);
    StreamOfGroups(bits + zeros, narrow);
    GroupsOfStream(data, wide);
    GroupsAppend(bits, zeros, wide);
    ShortOfAGroup(zeros, wide);
    assert data + [] == data;
  }

  /** Filling the tail with zeros makes the string whole. */
  lemma Padded(bits: seq<bool>, w: nat)
    requires w > 0
    ensures var tail := Tail(bits, w);
            var padded := if tail == [] then bits else bits + Falses(w - |tail|);
            Whole(padded, w) && Head(padded, w) == padded
  {
    hide Groups, Tail, Head, Val, Pow2, Low, Shr, Shl;
    HeadAndTail(bits, w);
    var tail := Tail(bits, w);
    if tail == [] {
      assert Head(bits, w) + [] == Head(bits, w);
    } else {
      var zeros := Falses(w - |tail|);
      var padded := bits + zeros;
      assert padded == Head(bits, w) + (tail + zeros);
      GroupsAppend(Head(bits, w), tail + zeros, w);
      OneGroup(tail + zeros, w);
      HeadAndTail(padded, w);
      assert Head(padded, w) + [] == Head(padded, w);
    }
  }

  /** Whenever widening without padding succeeds, narrowing back with padding returns the symbols. */
  lemma UnpadThenPad(data: seq<int>, narrow: nat, wide: nat)
    requires 0 < narrow <= wide
    ensures var mid := Regrouped(data, narrow, wide, false);
            mid.Some? ==> Regrouped(mid.value, wide, narrow, true) == Some(data)
  {
    hide Groups, Tail, Head, Val, Pow2, Low, Shr, Shl, Stream, Bits;
    var r := Regrouped(data, narrow, wide, false);
    if r.Some? {
      var bits := Stream(data, narrow);
      StreamOfGroups(bits, wide);
      HeadAndTail(bits, wide);
      var kept, tail := Head(bits, wide), Tail(bits, wide);
      GroupsOfStream(data, narrow);
      HeadAndTail(kept, narrow);
      var head, rest := Head(kept, narrow), Tail(kept, narrow);
      assert bits == head + (rest + tail);
      GroupsAppend(head, rest + tail, narrow);
      ShortWhole(rest + tail, narrow);
      forall i | 0 <= i < |tail| ensures !tail[i] { assert tail[i] in tail; }
      assert tail == Falses(|tail|);
      if rest == [] {
        assert kept == head && bits == kept + tail;
        assert kept == bits;
      }
    }
  }

  lemma ShortWhole(bits: seq<bool>, w: nat)
    requires w > 0 && |bits| < 2 * w && Whole(bits, w)
    ensures |bits| == 0 || |bits| == w
  {
    if |bits| >= w { assert Tail(bits[w..], w) == bits[w..]; }
  }
}
