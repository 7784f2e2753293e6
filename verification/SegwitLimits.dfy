/** Exactly which bursts turn a valid address into another one: the version symbol also picks the
    checksum constant, so damage that takes the version to or from zero can pass, in one way for each
    of the two lengths a version-0 address has. */
module SegwitLimits {
  import opened Bech32
  import opened Regroup
  import opened Segwit
  import opened Text

  /** One more zero input is one more step. */
  lemma ZeroInput(chk: Word, n: nat, before: Word)
    requires Run(chk, Zeros(n)) == before
    ensures Run(chk, Zeros(n + 1)) == Step(before, 0)
  {
    hide Step;
    assert Zeros(n + 1)[..n] == Zeros(n);
  }

  lemma Orbit1()
    ensures Run(0x044851E2, Zeros(11)) == 0x2A40648F
  {
    hide Run;
    var c: Word := 0x044851E2;
    NoInput(c);
    ZeroInput(c, 0, 0x044851E2);   assert Step(0x044851E2, 0) == 0x2F5AB22D;
    ZeroInput(c, 1, 0x2F5AB22D);   assert Step(0x2F5AB22D, 0) == 0x02D9E736;
    ZeroInput(c, 2, 0x02D9E736);   assert Step(0x02D9E736, 0) == 0x2056B172;
    ZeroInput(c, 3, 0x2056B172);   assert Step(0x2056B172, 0) == 0x20C24CF3;
    ZeroInput(c, 4, 0x20C24CF3);   assert Step(0x20C24CF3, 0) == 0x325DFCD3;
    ZeroInput(c, 5, 0x325DFCD3);   assert Step(0x325DFCD3, 0) == 0x27839CBC;
    ZeroInput(c, 6, 0x27839CBC);   assert Step(0x27839CBC, 0) == 0x075D2CEC;
    ZeroInput(c, 7, 0x075D2CEC);   assert Step(0x075D2CEC, 0) == 0x369F445F;
    ZeroInput(c, 8, 0x369F445F);   assert Step(0x369F445F, 0) == 0x19840351;
    ZeroInput(c, 9, 0x19840351);   assert Step(0x19840351, 0) == 0x13634007;
    ZeroInput(c, 10, 0x13634007);   assert Step(0x13634007, 0) == 0x2A40648F;
  }

  lemma Orbit2()
    ensures Run(0x2A40648F, Zeros(11)) == 0x3E1851FA
  {
    hide Run;
    var c: Word := 0x2A40648F;
    NoInput(c);
    ZeroInput(c, 0, 0x2A40648F);   assert Step(0x2A40648F, 0) == 0x07D3BD1B;
    ZeroInput(c, 1, 0x07D3BD1B);   assert Step(0x07D3BD1B, 0) == 0x274D7ABF;
    ZeroInput(c, 2, 0x274D7ABF);   assert Step(0x274D7ABF, 0) == 0x1E81EC8C;
    ZeroInput(c, 3, 0x1E81EC8C);   assert Step(0x1E81EC8C, 0) == 0x2EE46278;
    ZeroInput(c, 4, 0x2EE46278);   assert Step(0x2EE46278, 0) == 0x3503ED96;
    ZeroInput(c, 5, 0x3503ED96);   assert Step(0x3503ED96, 0) == 0x117B6DC3;
    ZeroInput(c, 6, 0x117B6DC3);   assert Step(0x117B6DC3, 0) == 0x122F8BBD;
    ZeroInput(c, 7, 0x122F8BBD);   assert Step(0x122F8BBD, 0) == 0x03D913CF;
    ZeroInput(c, 8, 0x03D913CF);   assert Step(0x03D913CF, 0) == 0x00482E52;
    ZeroInput(c, 9, 0x00482E52);   assert Step(0x00482E52, 0) == 0x0905CA40;
    ZeroInput(c, 10, 0x0905CA40);   assert Step(0x0905CA40, 0) == 0x3E1851FA;
  }

  lemma Orbit3()
    ensures Run(0x3E1851FA, Zeros(11)) == 0x2BC830A2
  {
    hide Run;
    var c: Word := 0x3E1851FA;
    NoInput(c);
    ZeroInput(c, 0, 0x3E1851FA);   assert Step(0x3E1851FA, 0) == 0x17C7AE0B;
    ZeroInput(c, 1, 0x17C7AE0B);   assert Step(0x17C7AE0B, 0) == 0x188D2B62;
    ZeroInput(c, 2, 0x188D2B62);   assert Step(0x188D2B62, 0) == 0x32464667;
    ZeroInput(c, 3, 0x32464667);   assert Step(0x32464667, 0) == 0x24F4CA3C;
    ZeroInput(c, 4, 0x24F4CA3C);   assert Step(0x24F4CA3C, 0) == 0x12DDAB5E;
    ZeroInput(c, 5, 0x12DDAB5E);   assert Step(0x12DDAB5E, 0) == 0x1D9D0FAF;
    ZeroInput(c, 6, 0x1D9D0FAF);   assert Step(0x1D9D0FAF, 0) == 0x361251AA;
    ZeroInput(c, 7, 0x361251AA);   assert Step(0x361251AA, 0) == 0x0826BDF1;
    ZeroInput(c, 8, 0x0826BDF1);   assert Step(0x0826BDF1, 0) == 0x1A76A7DA;
    ZeroInput(c, 9, 0x1A76A7DA);   assert Step(0x1A76A7DA, 0) == 0x165D86D5;
    ZeroInput(c, 10, 0x165D86D5);   assert Step(0x165D86D5, 0) == 0x2BC830A2;
  }

  /** What the register 0x044851E2 becomes under 33 zero inputs. */
  lemma Orbit()
    ensures Run(0x044851E2, Zeros(33)) == 0x2BC830A2
  {
    hide Run;
    Orbit1();
    Orbit2();
    Orbit3();
    assert Zeros(33) == Zeros(11) + Zeros(22);
    assert Zeros(22) == Zeros(11) + Zeros(11);
    RunAppend(0x044851E2, Zeros(11), Zeros(22));
    RunAppend(0x2A40648F, Zeros(11), Zeros(11));
  }

  lemma Orbit4()
    ensures Run(0x1CC14568, Zeros(10)) == 0x275FB9AE
  {
    hide Run;
    var c: Word := 0x1CC14568;
    NoInput(c);
    ZeroInput(c, 0, 0x1CC14568);   assert Step(0x1CC14568, 0) == 0x1D9B094A;
    ZeroInput(c, 1, 0x1D9B094A);   assert Step(0x1D9B094A, 0) == 0x36D28D0A;
    ZeroInput(c, 2, 0x36D28D0A);   assert Step(0x36D28D0A, 0) == 0x103D29F1;
    ZeroInput(c, 3, 0x103D29F1);   assert Step(0x103D29F1, 0) == 0x3AE70DFD;
    ZeroInput(c, 4, 0x3AE70DFD);   assert Step(0x3AE70DFD, 0) == 0x2E7CA086;
    ZeroInput(c, 5, 0x2E7CA086);   assert Step(0x2E7CA086, 0) == 0x261BB256;
    ZeroInput(c, 6, 0x261BB256);   assert Step(0x261BB256, 0) == 0x3458F1AC;
    ZeroInput(c, 7, 0x3458F1AC);   assert Step(0x3458F1AC, 0) == 0x3A18EA83;
    ZeroInput(c, 8, 0x3A18EA83);   assert Step(0x3A18EA83, 0) == 0x31804F46;
    ZeroInput(c, 9, 0x31804F46);   assert Step(0x31804F46, 0) == 0x275FB9AE;
  }

  lemma Orbit5()
    ensures Run(0x275FB9AE, Zeros(10)) == 0x044851E2
  {
    hide Run;
    var c: Word := 0x275FB9AE;
    NoInput(c);
    ZeroInput(c, 0, 0x275FB9AE);   assert Step(0x275FB9AE, 0) == 0x1CD98EAC;
    ZeroInput(c, 1, 0x1CD98EAC);   assert Step(0x1CD98EAC, 0) == 0x1E8271CA;
    ZeroInput(c, 2, 0x1E8271CA);   assert Step(0x1E8271CA, 0) == 0x2E97CAB8;
    ZeroInput(c, 3, 0x2E97CAB8);   assert Step(0x2E97CAB8, 0) == 0x3B76F596;
    ZeroInput(c, 4, 0x3B76F596);   assert Step(0x3B76F596, 0) == 0x1C43ADE6;
    ZeroInput(c, 5, 0x1C43ADE6);   assert Step(0x1C43ADE6, 0) == 0x0DC6188A;
    ZeroInput(c, 6, 0x0DC6188A);   assert Step(0x0DC6188A, 0) == 0x003286D7;
    ZeroInput(c, 7, 0x003286D7);   assert Step(0x003286D7, 0) == 0x0650DAE0;
    ZeroInput(c, 8, 0x0650DAE0);   assert Step(0x0650DAE0, 0) == 0x172185DF;
    ZeroInput(c, 9, 0x172185DF);   assert Step(0x172185DF, 0) == 0x044851E2;
  }

  lemma LongOrbit()
    ensures Run(0x1CC14568, Zeros(53)) == 0x2BC830A2
  {
    hide Run;
    Orbit4();
    Orbit5();
    Orbit();
    assert Zeros(20) == Zeros(10) + Zeros(10);
    assert Zeros(53) == Zeros(20) + Zeros(33);
    RunAppend(0x1CC14568, Zeros(10), Zeros(10));
    RunAppend(0x1CC14568, Zeros(20), Zeros(33));
  }

  lemma NoInput(chk: Word)
    ensures Run(chk, Zeros(0)) == chk
  {}

  // ---------------------------------------------------------------------------
  // The burst of each length
  // ---------------------------------------------------------------------------

  /** The symbols after the prefix of an address whose program has 20 or 32 bytes. */
  predicate ZeroLength(n: nat) { n == 39 || n == 59 }

  /** The six-symbol burst at the version symbol that exchanges the two constants at the end. */
  function Burst(n: nat): (t: seq<Word>)
    requires ZeroLength(n)
    ensures |t| == 6 && Symbols(t)
  {
    if n == 39 then [2, 4, 16, 20, 15, 2] else [14, 12, 2, 17, 11, 8]
  }

  function Pattern(n: nat): (t: seq<Word>)
    requires ZeroLength(n)
    ensures |t| == n && Symbols(t) && forall i :: 6 <= i < n ==> t[i] == 0
    ensures t[0] == if n == 39 then 2 else 14
  {
    Burst(n) + Zeros(n - 6)
  }

  lemma BurstSwapsConstants(n: nat)
    requires ZeroLength(n)
    ensures Run(0, Pattern(n)) == Xor(BECH32_CONST, BECH32M_CONST)
  {
    hide Run, Step;
    RunSix(Burst(n));
    assert Pack(2, 4, 16, 20, 15, 2) == 0x044851E2 && Pack(14, 12, 2, 17, 11, 8) == 0x1CC14568;
    RunAppend(0, Burst(n), Zeros(n - 6));
    if n == 39 { Orbit(); } else { LongOrbit(); }
  }

  lemma XorComm(a: Word, b: Word)
    ensures Xor(a, b) == Xor(b, a)
  {}

  /** Two symbol lists that leave the two constants differ by something that exchanges them. */
  lemma DifferenceSwaps(c: Word, wa: seq<Word>, wb: seq<Word>)
    requires |wa| == |wb| && {Run(c, wa), Run(c, wb)} == {BECH32_CONST, BECH32M_CONST}
    ensures Run(0, XorSeq(wa, wb)) == Xor(BECH32_CONST, BECH32M_CONST)
  {
    hide Run, Xor;
    RunXor(c, c, wa, wb);
    XorUnit(c);
    XorComm(BECH32_CONST, BECH32M_CONST);
  }

  /** A difference within the first six symbols that exchanges the constants is the burst. */
  lemma OnlyTheBurst(d: seq<Word>)
    requires ZeroLength(|d|) && Symbols(d) && Run(0, d) == Xor(BECH32_CONST, BECH32M_CONST)
    requires forall i :: 6 <= i < |d| ==> d[i] == 0
    ensures d == Pattern(|d|)
  {
    hide Run, Xor, Pattern;
    var p := Pattern(|d|);
    var e := XorSeq(d, p);
    BurstSwapsConstants(|d|);
    RunXor(0, 0, d, p);
    XorUnit(0);
    XorUnit(Xor(BECH32_CONST, BECH32M_CONST));
    forall i | 0 <= i < |d| ensures e[i] < 32 && (e[i] != 0 <==> d[i] != p[i]) { XorOfSymbols(d[i], p[i]); }
    if exists i :: 0 <= i < |d| && e[i] != 0 {
      BurstNonzero(e, 0);
    }
  }

  // ---------------------------------------------------------------------------
  // Damaged addresses
  // ---------------------------------------------------------------------------

  /** Lower-case strings of the form of an address that differ by the burst of their length, one of
      version 0 and the other not. */
  ghost predicate Twins(a: string, b: string) {
    && |a| == |b| && |a| >= 4 && ZeroLength(|a| - 3)
    && a[..3] == b[..3] == "bc1" && InCharset(a[3..]) && InCharset(b[3..])
    && (a[3] == 'q') != (b[3] == 'q')
    && Words(Indices(b[3..])) == XorSeq(Words(Indices(a[3..])), Pattern(|a| - 3))
  }

  lemma ZeroPayload(program: seq<int>)
    requires Permitted(0, program)
    ensures |Payload(0, program)| == if |program| == 20 then 33 else 53
  {
    hide Stream, Groups, Tail;
    StreamOfBytes(program);
    var bits := Stream(program, 8);
    GroupsOfFive(bits);
    if |Tail(bits, 5)| > 0 {
      PaddedGroups(bits);
    }
  }

  /** Padding a tail adds one group. */
  lemma PaddedGroups(bits: seq<bool>)
    requires |Tail(bits, 5)| > 0
    ensures |Groups(bits + Falses(5 - |Tail(bits, 5)|), 5)| == |Groups(bits, 5)| + 1
  {
    hide Groups, Tail, Falses;
    var more := bits + Falses(5 - |Tail(bits, 5)|);
    GroupsOfFive(bits);
    GroupsOfFive(more);
  }

  /** A version-0 address has one of two lengths. */
  lemma ZeroAddressLength(a: string)
    requires CheckSegwit(a).Some? && Witness(a).0 == 0
    ensures ZeroLength(|a| - 3)
  {
    hide Charset, CheckSegwit, Payload, ChecksumSymbols, Witness, Regrouped;
    AcceptedIsEncoding(a);
    var program := Witness(a).1;
    ZeroPayload(program);
    assert |Lower(a)| == 3 + |Payload(0, program)| + 6;
  }

  /** Every damaged address that is accepted is the twin. */
  lemma AcceptedIsTwin(a: string, b: string, k: int)
    requires CheckSegwit(a).Some? && CheckSegwit(b).Some?
    requires Lower(a) != Lower(b) && DifferOnlyWithin(Lower(a), Lower(b), k)
    ensures Twins(Lower(a), Lower(b))
  {
    hide Charset, CheckSegwit, Run, Witness, WordOf, Decode, SingleCase, InCharset, AfterBc, Indices, Pattern, Xor;
    CloseAddressesDifferInVersion(a, b, k);
    AcceptedShape(a);
    AcceptedShape(b);
    VersionZeroIsQ(a);
    VersionZeroIsQ(b);
    if Witness(a).0 == 0 { ZeroAddressLength(a); } else { ZeroAddressLength(b); }
    var x, y := Lower(a), Lower(b);
    assert x[3] != y[3];
    DifferenceIsTheBurst(x[3..], y[3..]) by {
      forall i | 6 <= i < |x| - 3 ensures x[3..][i] == y[3..][i] { assert x[i + 3] == y[i + 3]; }
      ConstantsDiffer(a, b);
    }
  }

  lemma ConstantsDiffer(a: string, b: string)
    requires CheckSegwit(a).Some? && CheckSegwit(b).Some? && (Witness(a).0 == 0) != (Witness(b).0 == 0)
    ensures {ConstFor(Witness(a).0), ConstFor(Witness(b).0)} == {BECH32_CONST, BECH32M_CONST}
  {
    hide CheckSegwit, Witness;
  }

  lemma DifferenceIsTheBurst(s: string, t: string)
    requires |s| == |t| && ZeroLength(|s|) && InCharset(s) && InCharset(t)
    requires forall i :: 6 <= i < |s| ==> s[i] == t[i]
    requires Small(Indices(s)) && Small(Indices(t))
    requires {AfterBc(Indices(s)), AfterBc(Indices(t))} == {BECH32_CONST, BECH32M_CONST}
    ensures Words(Indices(t)) == XorSeq(Words(Indices(s)), Pattern(|s|))
  {
    hide Charset, Run, WordOf, Pattern, Xor, InCharset;
    var wa, wb := Words(Indices(s)), Words(Indices(t));
    WordsRound(Indices(s));
    WordsRound(Indices(t));
    var hrp: seq<Word> := [3, 3, 0, 2, 3];
    RunAppend(1, hrp, wa);
    RunAppend(1, hrp, wb);
    DifferenceSwaps(Run(1, hrp), wa, wb);
    var d := XorSeq(wa, wb);
    forall i | 0 <= i < |d| ensures d[i] < 32 && (6 <= i ==> d[i] == 0) { XorOfSymbols(wa[i], wb[i]); }
    OnlyTheBurst(d);
    forall i | 0 <= i < |d| ensures wb[i] == Xor(wa[i], d[i]) { XorSolve(wa[i], wb[i]); }
  }

  /** The register of a twin holds the other constant. */
  lemma TwinConstant(wa: seq<Word>)
    requires ZeroLength(|wa|) && Run(1, [3, 3, 0, 2, 3] + wa) in {BECH32_CONST, BECH32M_CONST}
    ensures var wb := XorSeq(wa, Pattern(|wa|));
            {Run(1, [3, 3, 0, 2, 3] + wa), Run(1, [3, 3, 0, 2, 3] + wb)} == {BECH32_CONST, BECH32M_CONST}
  {
    hide Run, Xor, Pattern;
    var hrp: seq<Word> := [3, 3, 0, 2, 3];
    var c, p := Run(1, hrp), Pattern(|wa|);
    RunAppend(1, hrp, wa);
    RunAppend(1, hrp, XorSeq(wa, p));
    XorUnit(c);
    RunXor(c, 0, wa, p);
    BurstSwapsConstants(|wa|);
    OtherConstant(Run(c, wa));
  }

  lemma OtherConstant(c: Word)
    requires c == BECH32_CONST || c == BECH32M_CONST
    ensures Xor(c, Xor(BECH32_CONST, BECH32M_CONST)) == if c == BECH32_CONST then BECH32M_CONST else BECH32_CONST
  {}

  /** Any 32 symbols regroup into a 20-byte program: 160 bits, nothing left over. */
  lemma ThirtyTwoSymbols(data: seq<int>)
    requires Small(data) && |data| == 32
    ensures var r := Regrouped(data, 5, 8, false);
            r.Some? && |r.value| == 20 && Valid(r.value, 8)
  {
    hide Groups, Tail, Stream, Pow2;
    Powers();
    StreamOfSymbols(data);
    var bits := Stream(data, 5);
    HeadAndTail(bits, 8);
    StreamOfGroups(bits, 8);
    StreamOfBytes(Groups(bits, 8));
  }

  /** The tail of 52 symbols is the last four bits of the last one. */
  lemma TailOfFiftyTwo(data: seq<int>)
    requires Valid(data, 5) && |data| == 52
    ensures |Tail(Stream(data, 5), 8)| == 4 && Tail(Stream(data, 5), 8) == Bits(data[51], 5)[1..]
    ensures |Groups(Stream(data, 5), 8)| == 32 && Valid(Groups(Stream(data, 5), 8), 8)
  {
    var bits, before, last := Stream(data, 5), Stream(data[..51], 5), Bits(data[51], 5);
    assert bits == before + last;
    StreamOfSymbols(data[..51]);
    assert |last| == 5;
    hide *;
    HeadAndTail(bits, 8);
    StreamOfGroups(bits, 8);
    StreamOfBytes(Groups(bits, 8));
    LastFour(before, last, Head(bits, 8), Tail(bits, 8), |Groups(bits, 8)|);
  }

  lemma LastFour(before: seq<bool>, last: seq<bool>, head: seq<bool>, tail: seq<bool>, groups: nat)
    requires before + last == head + tail && |before| == 255 && |last| == 5 && |head| == 8 * groups && |tail| < 8
    ensures groups == 32 && tail == last[1..]
  {
    assert |before + last| == 260 && |head + tail| == 260;
    assert tail == (head + tail)[256..];
    assert last[1..] == (before + last)[256..];
  }

  /** Whether 52 symbols regroup depends on the last one only. */
  lemma FiftyTwoSymbols(data: seq<int>, other: seq<int>)
    requires Small(data) && Small(other) && |data| == |other| == 52 && data[51] == other[51]
    requires Regrouped(other, 5, 8, false).Some?
    ensures var r := Regrouped(data, 5, 8, false);
            r.Some? && |r.value| == 32 && Valid(r.value, 8)
  {
    hide Groups, Tail, Stream, Pow2, Bits;
    Powers();
    TailOfFiftyTwo(data);
    TailOfFiftyTwo(other);
  }

  /** The program of a twin regroups, into 20 or 32 bytes. */
  lemma TwinRegroups(ia: seq<int>, ib: seq<int>) returns (program: seq<int>)
    requires Small(ia) && Small(ib) && |ia| == |ib| && ZeroLength(|ib|) && forall i :: 6 <= i < |ib| ==> ib[i] == ia[i]
    requires 0 <= ib[0] <= 16 && Regrouped(ia[1..|ia| - 6], 5, 8, false).Some?
    ensures Permitted(ib[0], program) && Payload(ib[0], program) == ib[..|ib| - 6]
  {
    hide Regrouped, Valid, Payload;
    var n := |ib|;
    var data, p, q := ib[..n - 6], ib[1..n - 6], ia[1..n - 6];
    assert data[1..] == p && Small(p) && Small(q);
    assert p[|p| - 1] == ib[n - 7] == ia[n - 7] == q[|q| - 1];
    if n == 39 {
      ThirtyTwoSymbols(p);
    } else {
      FiftyTwoSymbols(p, q);
    }
    program := Regrouped(data[1..], 5, 8, false).value;
    PayloadOf(ib[0], program, data);
  }

  /** The twin of an accepted address, in one case, is accepted. */
  lemma TwinIsAccepted(a: string, b: string)
    requires CheckSegwit(a).Some? && SingleCase(b) && Twins(Lower(a), Lower(b))
    ensures CheckSegwit(b).Some?
  {
    hide Charset, CheckSegwit, Run, WordOf, Decode, SingleCase, InCharset, Indices, Xor, Regrouped, Payload,
         ChecksumSymbols, Words, AfterBc, Permitted, Encode, Pattern;
    var x, y := Lower(a), Lower(b);
    AcceptedShape(a);
    IndicesRound(x[3..]);
    IndicesRound(y[3..]);
    WitnessRegroups(a);
    var ia, ib := Indices(x[3..]), Indices(y[3..]);
    assert Decode(a).value.data[1..] == ia[1..|ia| - 6];
    TwinVersion(x, y);
    var program := TwinRegroups(ia, ib);
    TwinEncoding(y, ib, program);
    EncodingIsAccepted(b, ib[0], program);
  }

  lemma TwinEncoding(y: string, ib: seq<int>, program: seq<int>)
    requires Small(ib) && |ib| >= 7 && Permitted(ib[0], program) && Payload(ib[0], program) == ib[..|ib| - 6]
    requires |y| >= 3 && y[..3] == "bc1" && y[3..] == Chars(ib) && AfterBc(ib) == ConstFor(ib[0])
    ensures y == Encode(ib[0], program)
  {
    hide Charset, Run, Payload, AfterBc, Permitted, Encode, Chars;
    var n := |ib| - 6;
    assert ib == ib[..n] + ib[n..];
    CompletedEncoding(ib[0], program, ib[..n], ib[n..]);
    assert y == y[..3] + y[3..];
  }

  lemma WitnessRegroups(a: string)
    requires CheckSegwit(a).Some?
    ensures Decode(a).Some? && Decode(a).value.data != []
    ensures Regrouped(Decode(a).value.data[1..], 5, 8, false).Some?
    ensures Witness(a).0 == Decode(a).value.data[0] && 0 <= Witness(a).0 <= 16
  {
    hide Charset, Run, Regrouped, Decode;
    AcceptedShape(a);
  }

  /** Symbols and constant of a twin. */
  lemma TwinSymbols(s: string, t: string)
    requires |s| == |t| && ZeroLength(|s|) && InCharset(s) && InCharset(t)
    requires Small(Indices(s)) && Small(Indices(t)) && AfterBc(Indices(s)) in {BECH32_CONST, BECH32M_CONST}
    requires Words(Indices(t)) == XorSeq(Words(Indices(s)), Pattern(|s|))
    ensures {AfterBc(Indices(s)), AfterBc(Indices(t))} == {BECH32_CONST, BECH32M_CONST}
    ensures forall i :: 6 <= i < |s| ==> Indices(t)[i] == Indices(s)[i]
    ensures Indices(s)[0] == 0 ==> Indices(t)[0] == if |s| == 39 then 2 else 14
  {
    hide Charset, Run, WordOf, Pattern, Xor, InCharset;
    var wa, wb := Words(Indices(s)), Words(Indices(t));
    TwinConstant(wa);
    WordsRound(Indices(s));
    WordsRound(Indices(t));
    forall i | 6 <= i < |s| ensures wb[i] == wa[i] { XorUnit(wa[i]); }
    if Indices(s)[0] == 0 {
      ZeroWord();
      XorUnit(Pattern(|s|)[0]);
    }
  }

  lemma ZeroWord()
    ensures WordOf(0) == 0 && (2 as Word) as int == 2 && (14 as Word) as int == 14
  {}

  /** The version of a twin picks the other constant. */
  lemma TwinVersion(x: string, y: string)
    requires Twins(x, y) && 0 <= Indices(x[3..])[0] <= 16
    requires Small(Indices(x[3..])) && Small(Indices(y[3..]))
    requires AfterBc(Indices(x[3..])) == ConstFor(Indices(x[3..])[0])
    ensures forall i :: 6 <= i < |x| - 3 ==> Indices(y[3..])[i] == Indices(x[3..])[i]
    ensures 0 <= Indices(y[3..])[0] <= 16
    ensures AfterBc(Indices(y[3..])) == ConstFor(Indices(y[3..])[0])
  {
    hide Charset, Run, WordOf, Pattern, Xor, InCharset, AfterBc;
    TwinSymbols(x[3..], y[3..]);
    QIsZero(x[3]);
    QIsZero(y[3]);
    assert x[3..][0] == x[3] && y[3..][0] == y[3];
  }

  /** Six symbols that bring a payload to its constant complete its encoding. */
  lemma CompletedEncoding(version: int, program: seq<int>, data: seq<int>, six: seq<int>)
    requires Permitted(version, program) && data == Payload(version, program)
    requires Small(six) && |six| == 6 && Small(data + six) && AfterBc(data + six) == ConstFor(version)
    ensures Encode(version, program) == "bc1" + Chars(data + six)
  {
    hide Run, Regrouped, WordOf, Checksum, Payload, Charset, AfterBc;
    ChecksumIsForced(data, six, ConstFor(version));
  }

  /** An address damaged inside six consecutive places is accepted if and only if it is, in one case,
      the twin of the original: one string for each valid address of 42 or 62 characters that is of
      version 0 or whose version the burst takes to 0, and none for any other. */
  lemma BurstDamageExactly(a: string, b: string, k: int)
    requires CheckSegwit(a).Some?
    requires Lower(a) != Lower(b) && DifferOnlyWithin(Lower(a), Lower(b), k)
    ensures CheckSegwit(b).Some? <==> SingleCase(b) && Twins(Lower(a), Lower(b))
  {
    hide *;
    if CheckSegwit(b).Some? {
      AcceptedIsTwin(a, b, k);
      AcceptedShape(b);
    }
    if SingleCase(b) && Twins(Lower(a), Lower(b)) {
      TwinIsAccepted(a, b);
    }
  }

  /** Every version-0 address has such a twin. */
  lemma VersionDamageCanPass(program: seq<int>)
    requires Permitted(0, program)
    ensures exists b: string ::
              && b != Encode(0, program) && DifferOnlyWithin(Encode(0, program), b, 3)
              && CheckSegwit(Encode(0, program)).Some? && CheckSegwit(b).Some?
  {
    hide Run, Regrouped, WordOf, Payload, ChecksumSymbols, CheckSegwit, AfterBc, Charset, Xor, Pattern, SingleCase, InCharset, Chars;
    var a := Encode(0, program);
    OneCanonicalAddress(0, program, a);
    EncodingShape(0, program);
    ZeroPayload(program);
    VersionZeroIsQ(a);
    assert |a[3..]| == |Payload(0, program)| + 6 && a[3..][0] == 'q';
    var b := TwinOf(a[3..]);
    var t := "bc1" + b;
    LowerTwin(b);
    assert a == "bc1" + a[3..] && t[3..] == b;
    assert Twins(a, t);
    TwinIsAccepted(a, t);
  }

  /** The characters after the prefix of the twin of a version-0 address. */
  lemma TwinOf(s: string) returns (t: string)
    requires ZeroLength(|s|) && InCharset(s) && s[0] == 'q'
    ensures |t| == |s| && InCharset(t) && t[0] != 'q' && Lower(t) == t && '1' !in t
    ensures Words(Indices(t)) == XorSeq(Words(Indices(s)), Pattern(|s|))
    ensures forall i :: 6 <= i < |s| ==> t[i] == s[i]
  {
    hide Charset, WordOf, Pattern, Xor, InCharset;
    IndicesRound(s);
    WordsRound(Indices(s));
    var wa, p := Words(Indices(s)), Pattern(|s|);
    var wb := XorSeq(wa, p);
    forall i | 0 <= i < |s| ensures wb[i] < 32 && (i >= 6 ==> wb[i] == wa[i]) {
      XorOfSymbols(wa[i], p[i]);
      XorUnit(wa[i]);
    }
    SmallWords(wb);
    t := Chars(Ints(wb));
    CharsRound(Ints(wb));
    QIsZero(s[0]);
    QIsZero(t[0]);
    ZeroWord();
    XorUnit(p[0]);
    assert Ints(wb)[0] != 0;
    forall i | 6 <= i < |s| ensures t[i] == s[i] { assert Ints(wb)[i] == Ints(wa)[i]; }
  }

  lemma LowerTwin(b: string)
    requires Lower(b) == b
    ensures Lower("bc1" + b) == "bc1" + b && SingleCase("bc1" + b)
  {
    var t := "bc1" + b;
    forall i | 0 <= i < |t| ensures LowerChar(t[i]) == t[i] {
      if i >= 3 { assert t[i] == b[i - 3] == Lower(b)[i - 3]; }
    }
  }
}
