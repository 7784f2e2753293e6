/** The Bech32 / Bech32m checksum register: a 30-bit linear feedback register over GF(2).

    Every value the code feeds to the register is below 2^30 (an `ord` shifted right by five, or a
    5-bit symbol), so the unbounded Python integers never leave 30 bits and `bv30` is exact. */
module Bech32 {

  type Word = bv30

  const BECH32_CONST: Word := 1
  const BECH32M_CONST: Word := 0x2BC830A3

  /** Exclusive-or under a name of its own: proofs treat it as an uninterpreted operation and use
      only the algebra proved below, which keeps them away from bit-blasting. */
  function Xor(a: Word, b: Word): Word { a ^ b }

  // ---------------------------------------------------------------------------
  // One step of the register
  // ---------------------------------------------------------------------------

  predicate Bit(top: Word, i: nat)
    requires i < 5
  {
    (top >> i) & 1 != 0
  }

  function Gate(on: bool, g: Word): Word { if on then g else 0 }

  /** What the five generator words contribute for the five bits shifted out of the register. */
  function Mix(top: Word): Word {
    Xor(Xor(Xor(Xor(
      Gate(Bit(top, 0), 0x3B6A57B2),
      Gate(Bit(top, 1), 0x26508E6D)),
      Gate(Bit(top, 2), 0x1EA119FA)),
      Gate(Bit(top, 3), 0x3D4233DD)),
      Gate(Bit(top, 4), 0x2A1462B3))
  }

  function Shift(chk: Word): Word { (chk & 0x1FFFFFF) << 5 }

  function Top(chk: Word): Word { chk >> 25 }

  function Step(chk: Word, value: Word): Word {
    Xor(Xor(Shift(chk), value), Mix(Top(chk)))
  }

  /** The register after reading `values`, starting from `chk`. */
  function Run(chk: Word, values: seq<Word>): Word {
    if values == [] then chk else Step(Run(chk, values[..|values| - 1]), values[|values| - 1])
  }

  function Generator(): (g: seq<Word>)
    ensures |g| == 5
  {
    [0x3B6A57B2, 0x26508E6D, 0x1EA119FA, 0x3D4233DD, 0x2A1462B3]
  }

  // ---------------------------------------------------------------------------
  // The algebra of exclusive-or
  // ---------------------------------------------------------------------------

  lemma XorSwapWords(a: Word, b: Word, c: Word, d: Word)
    ensures (a ^ b) ^ (c ^ d) == (a ^ c) ^ (b ^ d)
  {}

  lemma XorSwap(a: Word, b: Word, c: Word, d: Word)
    ensures Xor(Xor(a, b), Xor(c, d)) == Xor(Xor(a, c), Xor(b, d))
  {
    calc {
      Xor(Xor(a, b), Xor(c, d));
      Xor(a ^ b, c ^ d);
      (a ^ b) ^ (c ^ d);
      { XorSwapWords(a, b, c, d); }
      (a ^ c) ^ (b ^ d);
      Xor(a ^ c, b ^ d);
      Xor(Xor(a, c), Xor(b, d));
    }
  }

  lemma XorUnit(a: Word)
    ensures Xor(a, 0) == a && Xor(0, a) == a && Xor(a, a) == 0
  {}

  lemma XorAssoc(a: Word, b: Word, c: Word)
    ensures Xor(Xor(a, b), c) == Xor(a, Xor(b, c))
  {
    hide Xor;
    XorSwap(a, b, 0, c);
    XorUnit(a);
    XorUnit(c);
  }

  lemma XorSolve(a: Word, b: Word)
    ensures b == Xor(a, Xor(a, b))
  {
    hide Xor;
    XorAssoc(a, a, b);
    XorUnit(a);
    XorUnit(b);
  }

  lemma XorSame(a: Word, b: Word)
    ensures Xor(a, b) == 0 <==> a == b
  {
    hide Xor;
    XorSolve(a, b);
    XorUnit(a);
  }

  // ---------------------------------------------------------------------------
  // The loops of `_bech32_polymod`
  // ---------------------------------------------------------------------------

  /** The inner loop after its first `i` rounds. */
  ghost function PartialMix(base: Word, top: Word, i: nat): Word
    requires i <= 5
  {
    if i == 0 then base else Xor(PartialMix(base, top, i - 1), Gate(Bit(top, i - 1), Generator()[i - 1]))
  }

  lemma PartialMixAll(base: Word, top: Word)
    ensures PartialMix(base, top, 5) == Xor(base, Mix(top))
  {
    hide Gate, Bit, Xor;
    var a, b, c, d, e := Gate(Bit(top, 0), 0x3B6A57B2), Gate(Bit(top, 1), 0x26508E6D),
                         Gate(Bit(top, 2), 0x1EA119FA), Gate(Bit(top, 3), 0x3D4233DD),
                         Gate(Bit(top, 4), 0x2A1462B3);
    assert PartialMix(base, top, 1) == Xor(base, a);
    assert PartialMix(base, top, 2) == Xor(base, Xor(a, b)) by { XorAssoc(base, a, b); }
    assert PartialMix(base, top, 3) == Xor(base, Xor(Xor(a, b), c)) by { XorAssoc(base, Xor(a, b), c); }
    assert PartialMix(base, top, 4) == Xor(base, Xor(Xor(Xor(a, b), c), d)) by { XorAssoc(base, Xor(Xor(a, b), c), d); }
    XorAssoc(base, Xor(Xor(Xor(a, b), c), d), e);
  }

  /** `_bech32_polymod`: both loops, step by step. */
  method Polymod(values: seq<Word>) returns (chk: Word)
    ensures chk == Run(1, values)
  {
    hide Xor, Gate, Bit, Mix;
    var generator := Generator();
    chk := 1;
    for n := 0 to |values|
      invariant chk == Run(1, values[..n])
    {
      var top := Top(chk);
      ghost var before := chk;
      chk := Xor(Shift(chk), values[n]);
      ghost var base := chk;
      for i := 0 to 5
        invariant chk == PartialMix(base, top, i)
      {
        chk := Xor(chk, Gate(Bit(top, i), generator[i]));
      }
      PartialMixAll(base, top);
      assert chk == Step(before, values[n]);
      assert values[..n + 1][..n] == values[..n];
    }
    assert values[..|values|] == values;
  }

  // ---------------------------------------------------------------------------
  // The register is linear, and a zero-input step loses nothing
  // ---------------------------------------------------------------------------

  lemma BitXorWords(a: Word, b: Word, i: nat)
    requires i < 5
    ensures (((a ^ b) >> i) & 1 != 0) == (((a >> i) & 1 != 0) != ((b >> i) & 1 != 0))
  {
    if i == 0 {} else if i == 1 {} else if i == 2 {} else if i == 3 {} else {}
  }

  lemma BitXor(a: Word, b: Word, i: nat)
    requires i < 5
    ensures Bit(Xor(a, b), i) == (Bit(a, i) != Bit(b, i))
  {
    calc {
      Bit(Xor(a, b), i);
      Bit(a ^ b, i);
      ((a ^ b) >> i) & 1 != 0;
      { BitXorWords(a, b, i); }
      ((a >> i) & 1 != 0) != ((b >> i) & 1 != 0);
      Bit(a, i) != Bit(b, i);
    }
  }

  lemma GateXor(r: bool, p: bool, q: bool, g: Word)
    requires r == (p != q)
    ensures Gate(r, g) == Xor(Gate(p, g), Gate(q, g))
  {
    hide Xor;
    XorUnit(g);
    XorUnit(0);
  }

  lemma ShiftXor(a: Word, b: Word)
    ensures Shift(Xor(a, b)) == Xor(Shift(a), Shift(b))
    ensures Top(Xor(a, b)) == Xor(Top(a), Top(b))
  {}

  lemma XorSums(a0: Word, a1: Word, a2: Word, a3: Word, a4: Word, b0: Word, b1: Word, b2: Word, b3: Word, b4: Word)
    ensures Xor(Xor(Xor(Xor(Xor(a0, b0), Xor(a1, b1)), Xor(a2, b2)), Xor(a3, b3)), Xor(a4, b4))
         == Xor(Xor(Xor(Xor(Xor(a0, a1), a2), a3), a4), Xor(Xor(Xor(Xor(b0, b1), b2), b3), b4))
  {
    hide *;
    XorSwap(a0, b0, a1, b1);
    XorSwap(Xor(a0, a1), Xor(b0, b1), a2, b2);
    XorSwap(Xor(Xor(a0, a1), a2), Xor(Xor(b0, b1), b2), a3, b3);
    XorSwap(Xor(Xor(Xor(a0, a1), a2), a3), Xor(Xor(Xor(b0, b1), b2), b3), a4, b4);
  }

  lemma GatesXor(a: Word, b: Word, g: Word, i: nat)
    requires i < 5
    requires Bit(Xor(a, b), i) == (Bit(a, i) != Bit(b, i))
    ensures Gate(Bit(Xor(a, b), i), g) == Xor(Gate(Bit(a, i), g), Gate(Bit(b, i), g))
  {
    hide *;
    GateXor(Bit(Xor(a, b), i), Bit(a, i), Bit(b, i), g);
  }

  lemma MixXor(a: Word, b: Word)
    ensures Mix(Xor(a, b)) == Xor(Mix(a), Mix(b))
  {
    hide Xor, Gate, Bit;
    var g0, g1, g2, g3, g4 := 0x3B6A57B2, 0x26508E6D, 0x1EA119FA, 0x3D4233DD, 0x2A1462B3;
    forall i: nat | i < 5 ensures Bit(Xor(a, b), i) == (Bit(a, i) != Bit(b, i)) { BitXor(a, b, i); }
    GatesXor(a, b, g0, 0);
    GatesXor(a, b, g1, 1);
    GatesXor(a, b, g2, 2);
    GatesXor(a, b, g3, 3);
    GatesXor(a, b, g4, 4);
    XorSums(Gate(Bit(a, 0), g0), Gate(Bit(a, 1), g1), Gate(Bit(a, 2), g2), Gate(Bit(a, 3), g3), Gate(Bit(a, 4), g4),
            Gate(Bit(b, 0), g0), Gate(Bit(b, 1), g1), Gate(Bit(b, 2), g2), Gate(Bit(b, 3), g3), Gate(Bit(b, 4), g4));
  }

  /** One step distributes over exclusive-or of register and input together. */
  lemma StepXor(a: Word, b: Word, v: Word, w: Word)
    ensures Step(Xor(a, b), Xor(v, w)) == Xor(Step(a, v), Step(b, w))
  {
    hide Xor, Mix, Shift, Top;
    MixXor(Top(a), Top(b));
    ShiftXor(a, b);
    XorSwap(Shift(a), Shift(b), v, w);
    XorSwap(Xor(Shift(a), v), Xor(Shift(b), w), Mix(Top(a)), Mix(Top(b)));
  }

  /** No nonzero register is driven to zero by a zero input. */
  lemma ZeroStepKernel(a: Word)
    requires Step(a, 0) == 0
    ensures a == 0
  {}

  lemma ZeroStep()
    ensures Step(0, 0) == 0
  {}

  // ---------------------------------------------------------------------------
  // What one step means: division by the code's generator polynomial
  // ---------------------------------------------------------------------------

  /** Multiplication by x in GF(32), the field BIP-173 builds on: x^5 = x^3 + 1. */
  function Times2(a: Word): Word {
    if a & 16 != 0 then ((a << 1) & 31) ^ 9 else a << 1
  }

  /** Multiplication in GF(32), one bit of `b` at a time. */
  function Times(a: Word, b: Word): Word {
    (if b & 1 != 0 then a else 0) ^
    (if b & 2 != 0 then Times2(a) else 0) ^
    (if b & 4 != 0 then Times2(Times2(a)) else 0) ^
    (if b & 8 != 0 then Times2(Times2(Times2(a))) else 0) ^
    (if b & 16 != 0 then Times2(Times2(Times2(Times2(a)))) else 0)
  }

  /** BIP-173, section "Bech32", subsection "Checksum": the coefficient leaving the register is multiplied by
      the generator polynomial x^6 + {29}x^5 + {22}x^4 + {20}x^3 + {21}x^2 + {29}x + {18} over
      GF(32) and subtracted, that is, the step is one step of polynomial long division. */
  lemma MixIsGeneratorPolynomial(top: Word)
    requires top < 32
    ensures Mix(top) == (Times(top, 29) << 25) | (Times(top, 22) << 20) | (Times(top, 20) << 15)
                        | (Times(top, 21) << 10) | (Times(top, 29) << 5) | Times(top, 18)
  {
    hide Mix, Times;
    UpperCoefficients(top);
    LowerCoefficients(top);
    PackUnpack(Mix(top));
  }

  lemma UpperCoefficients(top: Word)
    requires top < 32
    ensures (Mix(top) >> 25) & 31 == Times(top, 29)
    ensures (Mix(top) >> 20) & 31 == Times(top, 22)
    ensures (Mix(top) >> 15) & 31 == Times(top, 20)
  {}

  lemma LowerCoefficients(top: Word)
    requires top < 32
    ensures (Mix(top) >> 10) & 31 == Times(top, 21)
    ensures (Mix(top) >> 5) & 31 == Times(top, 29)
    ensures Mix(top) & 31 == Times(top, 18)
  {}

  // ---------------------------------------------------------------------------
  // Whole messages
  // ---------------------------------------------------------------------------

  ghost predicate Symbols(values: seq<Word>) {
    forall i :: 0 <= i < |values| ==> values[i] < 32
  }

  function Zeros(n: nat): (z: seq<Word>)
    ensures |z| == n && forall i :: 0 <= i < n ==> z[i] == 0
  {
    seq(n, _ => 0)
  }

  function XorSeq(a: seq<Word>, b: seq<Word>): (d: seq<Word>)
    requires |a| == |b|
    ensures |d| == |a| && forall i :: 0 <= i < |a| ==> d[i] == Xor(a[i], b[i])
  {
    seq(|a|, i requires 0 <= i < |a| => Xor(a[i], b[i]))
  }

  lemma {:induction false} RunAppend(chk: Word, a: seq<Word>, b: seq<Word>)
    ensures Run(chk, a + b) == Run(Run(chk, a), b)
    decreases |b|
  {
    if b == [] {
      assert a + b == a;
    } else {
      assert (a + b)[..|a + b| - 1] == a + b[..|b| - 1];
      RunAppend(chk, a, b[..|b| - 1]);
    }
  }

  /** Linearity at any length: two runs combine into the run of the combined inputs. */
  lemma {:induction false} RunXor(c: Word, d: Word, a: seq<Word>, b: seq<Word>)
    requires |a| == |b|
    ensures Run(Xor(c, d), XorSeq(a, b)) == Xor(Run(c, a), Run(d, b))
    decreases |a|
  {
    hide Xor, Step;
    if a != [] {
      var n := |a| - 1;
      assert XorSeq(a, b)[..n] == XorSeq(a[..n], b[..n]);
      RunXor(c, d, a[..n], b[..n]);
      StepXor(Run(c, a[..n]), Run(d, b[..n]), a[n], b[n]);
    }
  }

  lemma {:induction false} RunZeros(n: nat)
    ensures Run(0, Zeros(n)) == 0
  {
    if n > 0 {
      assert Zeros(n)[..n - 1] == Zeros(n - 1);
      RunZeros(n - 1);
      ZeroStep();
    }
  }

  lemma LeadingZeros(n: nat, d: seq<Word>)
    ensures Run(0, Zeros(n) + d) == Run(0, d)
  {
    RunAppend(0, Zeros(n), d);
    RunZeros(n);
  }

  // --- six symbols fill the register exactly ---

  function Pack(a: Word, b: Word, c: Word, d: Word, e: Word, f: Word): Word {
    (a << 25) | (b << 20) | (c << 15) | (d << 10) | (e << 5) | f
  }

  /** While the register is below 2^25 nothing is shifted out, and a step just appends a symbol. */
  lemma StepAppends(chk: Word, v: Word)
    requires chk < 0x2000000 && v < 32
    ensures Step(chk, v) == (chk << 5) | v
  {
    assert Top(chk) == 0;
    assert Mix(0) == 0;
    XorUnit(Xor(Shift(chk), v));
    NoOverlap(chk, v);
  }

  lemma NoOverlap(chk: Word, v: Word)
    requires chk < 0x2000000 && v < 32
    ensures ((chk & 0x1FFFFFF) << 5) ^ v == (chk << 5) | v
  {}

  lemma StepsArePack(a: Word, b: Word, c: Word, d: Word, e: Word, f: Word)
    requires a < 32 && b < 32 && c < 32 && d < 32 && e < 32 && f < 32
    ensures Step(Step(Step(Step(Step(Step(0, a), b), c), d), e), f) == Pack(a, b, c, d, e, f)
  {
    hide Step;
    var r1 := a;
    var r2 := (r1 << 5) | b;
    var r3 := (r2 << 5) | c;
    var r4 := (r3 << 5) | d;
    var r5 := (r4 << 5) | e;
    StepAppends(0, a);
    StepAppends(r1, b);
    StepAppends(r2, c);
    StepAppends(r3, d);
    StepAppends(r4, e);
    StepAppends(r5, f);
  }

  lemma RunSix(t: seq<Word>)
    requires |t| == 6 && Symbols(t)
    ensures Run(0, t) == Pack(t[0], t[1], t[2], t[3], t[4], t[5])
  {
    hide Step, Pack;
    RunUnfold(0, t[..1]);
    RunUnfold(0, t[..2]);
    RunUnfold(0, t[..3]);
    RunUnfold(0, t[..4]);
    RunUnfold(0, t[..5]);
    RunUnfold(0, t[..6]);
    assert t[..6] == t;
    StepsArePack(t[0], t[1], t[2], t[3], t[4], t[5]);
  }

  lemma RunUnfold(chk: Word, t: seq<Word>)
    requires t != []
    ensures Run(chk, t) == Step(Run(chk, t[..|t| - 1]), t[|t| - 1])
    ensures forall n :: 0 <= n < |t| ==> t[..|t| - 1][..n] == t[..n]
  {}

  /** The six symbols of a register, most significant first. */
  function Unpack(w: Word): (t: seq<Word>)
    ensures |t| == 6
  {
    [(w >> 25) & 31, (w >> 20) & 31, (w >> 15) & 31, (w >> 10) & 31, (w >> 5) & 31, w & 31]
  }

  lemma UnpackSymbols(w: Word)
    ensures Symbols(Unpack(w))
  {}

  lemma PackUnpack(w: Word)
    ensures Pack((w >> 25) & 31, (w >> 20) & 31, (w >> 15) & 31, (w >> 10) & 31, (w >> 5) & 31, w & 31) == w
  {}

  lemma UnpackPack(a: Word, b: Word, c: Word, d: Word, e: Word, f: Word)
    requires a < 32 && b < 32 && c < 32 && d < 32 && e < 32 && f < 32
    ensures Unpack(Pack(a, b, c, d, e, f)) == [a, b, c, d, e, f]
  {}

  lemma RunUnpack(w: Word)
    ensures Run(0, Unpack(w)) == w
  {
    hide Run, Pack;
    UnpackSymbols(w);
    RunSix(Unpack(w));
    PackUnpack(w);
  }

  /** A run over six symbols determines them: their register, unpacked, is the symbols again. */
  lemma UnpackRun(t: seq<Word>)
    requires |t| == 6 && Symbols(t)
    ensures Unpack(Run(0, t)) == t
  {
    hide Run, Pack, Unpack;
    RunSix(t);
    UnpackPack(t[0], t[1], t[2], t[3], t[4], t[5]);
    assert t == [t[0], t[1], t[2], t[3], t[4], t[5]];
  }

  // ---------------------------------------------------------------------------
  // Checksums exist and are unique
  // ---------------------------------------------------------------------------

  /** The six symbols that bring a register to `target`. */
  function Checksum(chk: Word, target: Word): (t: seq<Word>)
    ensures |t| == 6
  {
    Unpack(Xor(Run(chk, Zeros(6)), target))
  }

  /** A six-symbol tail adds itself, unchanged by the feedback, to what the zero tail would leave. */
  lemma TailAdds(chk: Word, t: seq<Word>)
    requires |t| == 6
    ensures Run(chk, t) == Xor(Run(chk, Zeros(|t|)), Run(0, t))
  {
    hide Xor, Run;
    assert XorSeq(Zeros(6), t) == t by {
      forall i | 0 <= i < 6 ensures XorSeq(Zeros(6), t)[i] == t[i] { XorUnit(t[i]); }
    }
    XorUnit(chk);
    RunXor(chk, 0, Zeros(6), t);
  }

  /** After any prefix, the tail of six symbols reaching a given constant is `Checksum`, and only it. */
  lemma ChecksumExistsUniquely(chk: Word, target: Word, t: seq<Word>)
    requires |t| == 6 && Symbols(t)
    ensures Symbols(Checksum(chk, target))
    ensures Run(chk, t) == target <==> t == Checksum(chk, target)
  {
    hide Xor, Run, Unpack;
    var z := Run(chk, Zeros(6));
    UnpackSymbols(Xor(z, target));
    TailAdds(chk, t);
    RunUnpack(Xor(z, target));
    UnpackRun(t);
    XorUnit(z);
    XorUnit(target);
    XorUnit(Run(0, t));
    XorAssoc(z, z, target);
    XorAssoc(z, z, Run(0, t));
  }

  // ---------------------------------------------------------------------------
  // Bursts
  // ---------------------------------------------------------------------------

  ghost predicate OnlyWithin(d: seq<Word>, k: nat) {
    forall i :: 0 <= i < |d| && d[i] != 0 ==> k <= i < k + 6
  }

  /** A nonzero message whose nonzero symbols fit in six places never leaves the register at zero. */
  lemma {:induction false} BurstNonzero(d: seq<Word>, k: nat)
    requires Symbols(d) && OnlyWithin(d, k)
    requires exists i :: 0 <= i < |d| && d[i] != 0
    ensures Run(0, d) != 0
    decreases |d|
  {
    var n := |d| - 1;
    if d[n] == 0 {
      hide Step;
      var i :| 0 <= i < |d| && d[i] != 0;
      assert d[..n][i] != 0;
      BurstNonzero(d[..n], k);
      if Run(0, d) == 0 { ZeroStepKernel(Run(0, d[..n])); }
    } else {
      BurstAtTheEnd(d, k);
    }
  }

  /** A burst that ends the message is all there is, and six symbols are determined by their register. */
  lemma BurstAtTheEnd(d: seq<Word>, k: nat)
    requires Symbols(d) && OnlyWithin(d, k) && d != [] && d[|d| - 1] != 0
    ensures Run(0, d) != 0
  {
    hide Run, Unpack, Xor;
    var padded := Zeros(6) + d;
    var m := |padded| - 6;
    var head, tail := padded[..m], padded[m..];
    assert padded == head + tail;
    forall i | 0 <= i < m ensures head[i] == 0 {
      assert d[|d| - 1] != 0 ==> k <= |d| - 1 < k + 6;
      assert i >= 6 ==> head[i] == d[i - 6];
    }
    assert head == Zeros(m);
    LeadingZeros(6, d);
    LeadingZeros(m, tail);
    assert tail[5] == d[|d| - 1];
    UnpackRun(tail);
    UnpackZero();
  }

  lemma UnpackZero()
    ensures Unpack(0) == [0, 0, 0, 0, 0, 0]
  {}

  /** Two messages of one length that differ, but only inside six consecutive places, leave
      different registers, at any length and from any register. */
  lemma BurstsChangeTheRegister(chk: Word, a: seq<Word>, b: seq<Word>, k: nat)
    requires |a| == |b| && Symbols(a) && Symbols(b) && a != b
    requires forall i :: 0 <= i < |a| && a[i] != b[i] ==> k <= i < k + 6
    ensures Run(chk, a) != Run(chk, b)
  {
    hide Run;
    var d := XorSeq(a, b);
    forall i | 0 <= i < |a| ensures d[i] < 32 && (d[i] != 0 <==> a[i] != b[i]) {
      XorOfSymbols(a[i], b[i]);
    }
    assert exists i :: 0 <= i < |a| && a[i] != b[i];
    BurstNonzero(d, k);
    RunXor(chk, chk, a, b);
    XorUnit(chk);
    XorSame(Run(chk, a), Run(chk, b));
  }

  lemma XorOfSymbols(x: Word, y: Word)
    requires x < 32 && y < 32
    ensures Xor(x, y) < 32 && (Xor(x, y) != 0 <==> x != y)
  {}

  // ---------------------------------------------------------------------------
  // The whole run is a polynomial remainder
  // ---------------------------------------------------------------------------

  /** The coefficients below x^6 of {c} times the generator polynomial. */
  function GeneratorTimes(c: Word): (t: seq<Word>)
    ensures |t| == 6
  {
    [Times(c, 29), Times(c, 22), Times(c, 20), Times(c, 21), Times(c, 29), Times(c, 18)]
  }

  /** Long division over GF(32), leading coefficient first: what is left below x^6. */
  function Remainder(p: seq<Word>): (r: seq<Word>)
    ensures |r| == 6
    decreases |p|
  {
    if |p| <= 6 then Zeros(6 - |p|) + p
    else Remainder(XorSeq(p[1..7], GeneratorTimes(p[0])) + p[7..])
  }

  lemma GeneratorTimesIsMix(c: Word)
    requires c < 32
    ensures Symbols(GeneratorTimes(c))
    ensures Run(0, GeneratorTimes(c)) == Mix(c)
  {
    TimesSymbols(c);
    hide Times, Pack, Step, Run, Mix;
    RunSix(GeneratorTimes(c));
    MixIsGeneratorPolynomial(c);
  }

  lemma TimesSymbols(c: Word)
    requires c < 32
    ensures Symbols(GeneratorTimes(c))
  {}

  /** Reading one more symbol is one step of the division. */
  lemma DivisionStep(p: seq<Word>)
    requires |p| == 7 && Symbols(p)
    ensures Symbols(XorSeq(p[1..7], GeneratorTimes(p[0])))
    ensures Run(0, p) == Run(0, XorSeq(p[1..7], GeneratorTimes(p[0])))
  {
    hide Run, Xor, Times, Mix;
    var c := p[0];
    GeneratorTimesIsMix(c);
    forall i | 0 <= i < 6 ensures XorSeq(p[1..7], GeneratorTimes(c))[i] < 32 {
      XorOfSymbols(p[1..7][i], GeneratorTimes(c)[i]);
    }
    XorUnit(0);
    RunXor(0, 0, p[1..7], GeneratorTimes(c));
    SevenSymbols(p);
  }

  lemma SevenSymbols(p: seq<Word>)
    requires |p| == 7 && Symbols(p)
    ensures Run(0, p) == Xor(Run(0, p[1..7]), Mix(p[0]))
  {
    hide Step, Mix, Xor;
    var six := p[..6];
    assert p[..|p| - 1] == six;
    RunSix(six);
    RunSix(p[1..7]);
    SevenWords(p[0], p[1], p[2], p[3], p[4], p[5], p[6]);
  }

  lemma SevenWords(a: Word, b: Word, c: Word, d: Word, e: Word, f: Word, g: Word)
    requires a < 32 && b < 32 && c < 32 && d < 32 && e < 32 && f < 32 && g < 32
    ensures Step(Pack(a, b, c, d, e, f), g) == Xor(Pack(b, c, d, e, f, g), Mix(a))
  {
    hide Mix, Xor, Pack, Shift, Top;
    PackLosesTop(a, b, c, d, e, f, g);
  }

  lemma PackLosesTop(a: Word, b: Word, c: Word, d: Word, e: Word, f: Word, g: Word)
    requires a < 32 && b < 32 && c < 32 && d < 32 && e < 32 && f < 32 && g < 32
    ensures Top(Pack(a, b, c, d, e, f)) == a
    ensures Xor(Shift(Pack(a, b, c, d, e, f)), g) == Pack(b, c, d, e, f, g)
  {}

  /** `_bech32_polymod` over symbols is the remainder of the message polynomial, with a leading
      coefficient {1} in front, under division by the generator polynomial. */
  lemma {:induction false} RunIsRemainder(p: seq<Word>)
    requires Symbols(p)
    ensures Symbols(Remainder(p)) && Run(0, Remainder(p)) == Run(0, p)
    decreases |p|
  {
    hide Run, Xor, Times, GeneratorTimes;
    if |p| <= 6 {
      LeadingZeros(6 - |p|, p);
    } else {
      var head := XorSeq(p[1..7], GeneratorTimes(p[0]));
      DivisionStep(p[..7]);
      assert p[..7][1..7] == p[1..7];
      assert p == p[..7] + p[7..];
      RunAppend(0, p[..7], p[7..]);
      RunAppend(0, head, p[7..]);
      RunIsRemainder(head + p[7..]);
    }
  }

  lemma PolymodIsRemainder(values: seq<Word>)
    requires Symbols(values)
    ensures Unpack(Run(1, values)) == Remainder([1] + values)
  {
    hide Run, Unpack;
    var p := [1] + values;
    assert Symbols(p);
    RunIsRemainder(p);
    RunAppend(0, [1], values);
    FirstOne();
    UnpackRun(Remainder(p));
  }

  lemma FirstOne()
    ensures Run(0, [1]) == 1
  {
    assert [1 as Word][..0] == [];
    assert Run(0, []) == 0;
  }
}
