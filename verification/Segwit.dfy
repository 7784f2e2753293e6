/** Segwit addresses: `_bech32_decode` and `_check_segwit`. */
module Segwit {
  import opened Options
  import opened Bech32
  import opened Regroup
  import opened Text
  import opened Chains

  /** `_BECH32_CHARSET` (a function, so that proofs can leave its 32 characters folded away). */
  function Charset(): (s: string)
    ensures |s| == 32
  {
    "qpzry9x8gf2tvdw0s3jn54khce6mua7l"
  }

  datatype Kind = P2WPKH | P2WSH | P2TR | WitnessV(version: nat)

  /** The fields `_check_segwit` sets on the result; `valid` is true whenever it returns one. */
  datatype AddressInfo = AddressInfo(address: string, chain: Chain, addressNorm: string, kind: Kind)

  datatype Decoded = Decoded(hrp: string, data: seq<int>, checksum: Word)

  // ---------------------------------------------------------------------------
  // Symbols as register inputs
  // ---------------------------------------------------------------------------

  function WordOf(v: int): (w: Word)
    requires 0 <= v < 32
  {
    (v as bv5) as Word
  }

  function Words(data: seq<int>): (ws: seq<Word>)
    requires forall i :: 0 <= i < |data| ==> 0 <= data[i] < 32
    ensures |ws| == |data| && forall i :: 0 <= i < |data| ==> ws[i] == WordOf(data[i])
  {
    seq(|data|, i requires 0 <= i < |data| => WordOf(data[i]))
  }

  /** `_bech32_hrp_expand`: high bits, a zero, low bits. */
  function HrpExpand(hrp: string): seq<Word> {
    seq(|hrp|, i requires 0 <= i < |hrp| => (hrp[i] as int / 32) as Word)
    + [0]
    + seq(|hrp|, i requires 0 <= i < |hrp| => (hrp[i] as int % 32) as Word)
  }

  // ---------------------------------------------------------------------------
  // Decoding
  // ---------------------------------------------------------------------------

  predicate InCharset(s: string) {
    forall i :: 0 <= i < |s| ==> s[i] in Charset()
  }

  function Indices(s: string): (data: seq<int>)
    requires InCharset(s)
    ensures |data| == |s|
    ensures forall i :: 0 <= i < |s| ==> data[i] == Find(Charset(), s[i]) && 0 <= data[i] < 32
  {
    seq(|s|, i requires 0 <= i < |s| => Find(Charset(), s[i]))
  }

  predicate SingleCase(addr: string) {
    addr == Lower(addr) || addr == Upper(addr)
  }

  /** `_bech32_decode` */
  function Decode(addr: string): Option<Decoded> {
    if !SingleCase(addr) then None else
    var a := Lower(addr);
    var pos := RFind(a, '1');
    if pos < 1 || pos + 7 > |a| || |a| > 90 then None else
    var hrp := a[..pos];
    if !InCharset(a[pos + 1..]) then None else
    var data := Indices(a[pos + 1..]);
    var checksum := Run(1, HrpExpand(hrp) + Words(data));
    if checksum != BECH32_CONST && checksum != BECH32M_CONST then None
    else Some(Decoded(hrp, data[..|data| - 6], checksum))
  }

  /** BIP-350, section "Specification": version 0 keeps the Bech32 constant, later ones use Bech32m. */
  function ConstFor(version: int): Word {
    if version == 0 then BECH32_CONST else BECH32M_CONST
  }

  function KindOf(version: nat, size: nat): Kind {
    if version == 0 then (if size == 20 then P2WPKH else P2WSH)
    else if version == 1 && size == 32 then P2TR
    else WitnessV(version)
  }

  /** `_check_segwit` */
  function CheckSegwit(address: string): Option<AddressInfo> {
    match Decode(address)
    case None => None
    case Some(Decoded(hrp, data, checksum)) =>
      if hrp != "bc" || |data| < 1 then None else
      var version := data[0];
      var program := Regrouped(data[1..], 5, 8, false);
      if program.None? || !(2 <= |program.value| <= 40) then None
      else if version > 16 then None
      else if checksum != ConstFor(version) then None
      else if version == 0 && |program.value| != 20 && |program.value| != 32 then None
      else Some(AddressInfo(address, BTC, Lower(address), KindOf(version, |program.value|)))
  }

  // ---------------------------------------------------------------------------
  // Encoding: the independent description the decoder is compared with
  // ---------------------------------------------------------------------------

  /** BIP-173, section "Segwit address format": which witness programs have an address at all. */
  predicate Permitted(version: int, program: seq<int>) {
    && 0 <= version <= 16
    && Valid(program, 8)
    && 2 <= |program| <= 40
    && (version == 0 ==> |program| == 20 || |program| == 32)
  }

  ghost predicate Small(data: seq<int>) {
    forall i :: 0 <= i < |data| ==> 0 <= data[i] < 32
  }

  function Ints(ws: seq<Word>): (r: seq<int>)
    ensures |r| == |ws| && forall i :: 0 <= i < |ws| ==> r[i] == ws[i] as int
  {
    seq(|ws|, i requires 0 <= i < |ws| => ws[i] as int)
  }

  function Chars(data: seq<int>): (s: string)
    requires forall i :: 0 <= i < |data| ==> 0 <= data[i] < 32
    ensures |s| == |data| && forall i :: 0 <= i < |data| ==> s[i] == Charset()[data[i]]
  {
    seq(|data|, i requires 0 <= i < |data| => Charset()[data[i]])
  }

  /** The register after the prefix "bc" and some symbols. */
  function AfterBc(data: seq<int>): Word
    requires Small(data)
  {
    Run(1, [3, 3, 0, 2, 3] + Words(data))
  }

  /** Version symbol, then the program in 5-bit symbols. */
  ghost function Payload(version: int, program: seq<int>): (data: seq<int>)
    requires Permitted(version, program)
    ensures Small(data) && 4 <= |data| <= 65
    ensures Regrouped(program, 8, 5, true) == Some(data[1..]) && data[0] == version
  {
    PayloadSymbols(program);
    [version] + Regrouped(program, 8, 5, true).value
  }

  /** The six checksum symbols that complete a payload. */
  ghost function ChecksumSymbols(version: int, data: seq<int>): (six: seq<int>)
    requires Small(data)
    ensures Small(six) && |six| == 6
  {
    UnpackSymbols(Xor(Run(AfterBc(data), Zeros(6)), ConstFor(version)));
    SmallWords(Checksum(AfterBc(data), ConstFor(version)));
    Ints(Checksum(AfterBc(data), ConstFor(version)))
  }

  /** The address of a witness program, built forwards from BIP-173 and BIP-350. */
  ghost function Encode(version: int, program: seq<int>): string
    requires Permitted(version, program)
  {
    var data := Payload(version, program);
    "bc1" + Chars(data + ChecksumSymbols(version, data))
  }

  // ---------------------------------------------------------------------------
  // Symbols and words, characters and symbols
  // ---------------------------------------------------------------------------

  lemma WordRange(v: int)
    requires 0 <= v < 32
    ensures WordOf(v) < 32
  {}

  lemma WordToInt(v: int)
    requires 0 <= v < 32
    ensures WordOf(v) as int == v
  {}

  lemma IntToWord(w: Word)
    requires w < 32
    ensures 0 <= w as int < 32 && WordOf(w as int) == w
  {}

  lemma SmallWords(ws: seq<Word>)
    requires Symbols(ws)
    ensures Small(Ints(ws)) && Words(Ints(ws)) == ws
  {
    hide Charset, WordOf;
    forall i | 0 <= i < |ws| ensures 0 <= Ints(ws)[i] < 32 && WordOf(Ints(ws)[i]) == ws[i] {
      IntToWord(ws[i]);
    }
  }

  lemma WordsRound(data: seq<int>)
    requires Small(data)
    ensures Symbols(Words(data)) && Ints(Words(data)) == data
  {
    hide Charset, WordOf;
    forall i | 0 <= i < |data| ensures Words(data)[i] < 32 && Ints(Words(data))[i] == data[i] {
      WordRange(data[i]);
      WordToInt(data[i]);
    }
  }

  lemma WordsAppend(a: seq<int>, b: seq<int>)
    requires Small(a) && Small(b)
    ensures Small(a + b) && Words(a + b) == Words(a) + Words(b)
  {}

  /** Where each character stands, written out character by character. */
  ghost function Rank(c: char): int {
    match c
    case 'q' => 0 case 'p' => 1 case 'z' => 2 case 'r' => 3
    case 'y' => 4 case '9' => 5 case 'x' => 6 case '8' => 7
    case 'g' => 8 case 'f' => 9 case '2' => 10 case 't' => 11
    case 'v' => 12 case 'd' => 13 case 'w' => 14 case '0' => 15
    case 's' => 16 case '3' => 17 case 'j' => 18 case 'n' => 19
    case '5' => 20 case '4' => 21 case 'k' => 22 case 'h' => 23
    case 'c' => 24 case 'e' => 25 case '6' => 26 case 'm' => 27
    case 'u' => 28 case 'a' => 29 case '7' => 30 case 'l' => 31
    case _ => -1
  }

  lemma RankInCharset(i: nat)
    requires i < 32
    ensures Rank(Charset()[i]) == i
  {}

  lemma RankedAreLower(c: char)
    requires Rank(c) >= 0
    ensures c != '1' && LowerChar(c) == c
  {}

  /** The 32 characters are distinct, lower case, and none is the separator. */
  lemma CharsetFacts(i: nat)
    requires i < 32
    ensures Find(Charset(), Charset()[i]) == i
    ensures Charset()[i] != '1' && LowerChar(Charset()[i]) == Charset()[i]
  {
    hide Charset, Rank, LowerChar;
    var k := Find(Charset(), Charset()[i]);
    RankInCharset(k);
    RankInCharset(i);
    RankedAreLower(Charset()[i]);
  }

  lemma CharsRound(data: seq<int>)
    requires Small(data)
    ensures InCharset(Chars(data)) && Indices(Chars(data)) == data
    ensures Lower(Chars(data)) == Chars(data) && '1' !in Chars(data)
  {
    hide Charset;
    forall i | 0 <= i < |data|
      ensures Indices(Chars(data))[i] == data[i] && LowerChar(Chars(data)[i]) == Chars(data)[i]
      ensures Chars(data)[i] != '1'
    {
      CharsetFacts(data[i]);
    }
  }

  lemma IndicesRound(s: string)
    requires InCharset(s)
    ensures Small(Indices(s)) && Chars(Indices(s)) == s
  {
    hide Charset;
  }

  lemma HrpIsBc()
    ensures HrpExpand("bc") == [3, 3, 0, 2, 3]
  {
    assert 'b' as int == 98 && 'c' as int == 99;
  }

  lemma Powers()
    ensures Pow2(5) == 32 && Pow2(8) == 256
  {
    assert Pow2(3) == 8;
    assert Pow2(5) == 4 * Pow2(3);
    assert Pow2(8) == 32 * Pow2(3);
  }

  // ---------------------------------------------------------------------------
  // Lengths
  // ---------------------------------------------------------------------------

  lemma {:induction false} StreamOfBytes(data: seq<int>)
    requires Valid(data, 8)
    ensures |Stream(data, 8)| == 8 * |data|
  {
    hide Charset, Bits, Pow2;
    if data != [] { StreamOfBytes(data[..|data| - 1]); }
  }

  lemma {:induction false} GroupsOfFive(bits: seq<bool>)
    ensures 5 * |Groups(bits, 5)| + |Tail(bits, 5)| == |bits|
    decreases |bits|
  {
    hide Charset, Val;
    if |bits| >= 5 { GroupsOfFive(bits[5..]); }
  }

  /** A permitted program is between 4 and 64 symbols long. */
  lemma PayloadSymbols(program: seq<int>)
    requires Valid(program, 8) && 2 <= |program| <= 40
    ensures var r := Regrouped(program, 8, 5, true);
            r.Some? && Small(r.value) && 3 <= |r.value| <= 64
  {
    hide Charset, Groups, Tail, Stream, Pow2;
    Powers();
    var bits := Stream(program, 8);
    var tail := Tail(bits, 5);
    var padded := if tail == [] then bits else bits + Falses(5 - |tail|);
    StreamOfBytes(program);
    GroupsOfFive(padded);
    GroupsValid(padded, 5);
  }

  // ---------------------------------------------------------------------------
  // Acceptance is exactly being an encoding
  // ---------------------------------------------------------------------------

  /** The version and program `_check_segwit` reads out of an address it accepts. */
  function Witness(address: string): (int, seq<int>)
    requires CheckSegwit(address).Some?
  {
    var data := Decode(address).value.data;
    (data[0], Regrouped(data[1..], 5, 8, false).value)
  }

  /** What decoding to the prefix "bc" says about the lower-case form. */
  lemma DecodedShape(address: string)
    requires Decode(address).Some? && Decode(address).value.hrp == "bc"
    ensures var a := Lower(address);
            && SingleCase(address) && 9 <= |a| && a[..3] == "bc1" && InCharset(a[3..])
            && var all := Indices(a[3..]);
               && Decode(address) == Some(Decoded("bc", all[..|all| - 6], AfterBc(all)))
               && |all| == |a| - 3
  {
    hide Charset, Run, HrpExpand, Lower, InCharset, SingleCase, Words;
    var a := Lower(address);
    var pos := RFind(a, '1');
    assert a[..pos] == "bc" && |a[..pos]| == 2;
    assert a[..3] == a[..2] + [a[2]] == "bc1";
    HrpIsBc();
    var all := Indices(a[3..]);
    assert Decode(address).value.checksum == Run(1, HrpExpand("bc") + Words(all));
    assert AfterBc(all) == Run(1, HrpExpand("bc") + Words(all));
  }

  /** What acceptance says about the lower-case form. */
  lemma AcceptedShape(address: string)
    requires CheckSegwit(address).Some?
    ensures var a := Lower(address);
            && SingleCase(address) && 14 <= |a| && a[..3] == "bc1" && InCharset(a[3..])
            && var all := Indices(a[3..]);
               var data := all[..|all| - 6];
               && Small(all) && data == Decode(address).value.data
               && AfterBc(all) == ConstFor(Witness(address).0)
  {
    hide Charset, Run, Regrouped, Decode, SingleCase, InCharset, AfterBc, Lower, Words;
    DecodedShape(address);
    ShortProgram(Decode(address).value.data[1..]);
  }

  lemma ShortProgram(data: seq<int>)
    requires var r := Regrouped(data, 5, 8, false); r.Some? && |r.value| >= 2
    ensures |data| >= 4
  {
    var bits := Stream(data, 5);
    HeadAndTail(bits, 8);
    StreamOfGroups(bits, 8);
    StreamOfBytes(Groups(bits, 8));
    StreamOfSymbols(data);
  }

  lemma {:induction false} StreamOfSymbols(data: seq<int>)
    requires Valid(data, 5)
    ensures |Stream(data, 5)| == 5 * |data|
  {
    hide Charset, Bits, Pow2;
    if data != [] { StreamOfSymbols(data[..|data| - 1]); }
  }

  /** The symbols before the checksum are the payload of the witness they were read from. */
  lemma AcceptedPayload(address: string)
    requires CheckSegwit(address).Some?
    ensures var (version, program) := Witness(address);
            Permitted(version, program) && Payload(version, program) == Decode(address).value.data
  {
    hide Charset, Run, HrpExpand, SingleCase, Decode, Regrouped;
    AcceptedShape(address);
    var data := Decode(address).value.data;
    var (version, program) := Witness(address);
    ProgramBytes(data[1..]);
    assert data[0] == version;
    assert Permitted(version, program);
    PayloadOf(version, program, data);
  }

  lemma PayloadOf(version: int, program: seq<int>, data: seq<int>)
    requires Permitted(version, program) && data != [] && data[0] == version
    requires Regrouped(data[1..], 5, 8, false) == Some(program)
    ensures Payload(version, program) == data
  {
    hide Regrouped;
    UnpadThenPad(data[1..], 5, 8);
    assert data == [data[0]] + data[1..];
  }

  lemma ProgramBytes(data: seq<int>)
    requires Regrouped(data, 5, 8, false).Some?
    ensures Valid(Regrouped(data, 5, 8, false).value, 8)
  {
    GroupsValid(Stream(data, 5), 8);
  }

  /** Every accepted address, lower-cased, is the encoding of the witness read out of it. */
  lemma AcceptedIsEncoding(address: string)
    requires CheckSegwit(address).Some?
    ensures var (version, program) := Witness(address);
            Permitted(version, program) && Lower(address) == Encode(version, program)
  {
    hide Charset, Run, HrpExpand, Regrouped, Checksum, Permitted, CheckSegwit, Witness, Decode, SingleCase, Payload, WordOf;
    AcceptedShape(address);
    AcceptedPayload(address);
    var a := Lower(address);
    var (version, program) := Witness(address);
    var all := Indices(a[3..]);
    var data, six := all[..|all| - 6], all[|all| - 6..];
    assert all == data + six;
    ChecksumIsForced(data, six, ConstFor(version));
    IndicesRound(a[3..]);
    assert a == a[..3] + a[3..];
  }

  /** Six symbols complete a payload to a given constant exactly when they are its checksum. */
  lemma ChecksumIsForced(data: seq<int>, six: seq<int>, target: Word)
    requires Small(data) && Small(six) && |six| == 6
    ensures Small(data + six)
    ensures AfterBc(data + six) == target
       <==> six == Ints(Checksum(AfterBc(data), target))
  {
    hide Charset, Run, Checksum, WordOf;
    var hrp: seq<Word> := [3, 3, 0, 2, 3];
    WordsAppend(data, six);
    assert hrp + Words(data + six) == (hrp + Words(data)) + Words(six);
    RunAppend(1, hrp + Words(data), Words(six));
    WordsRound(six);
    ChecksumExistsUniquely(AfterBc(data), target, Words(six));
    SmallWords(Checksum(AfterBc(data), target));
  }

  /** The parts of an encoding, as the decoder will find them. */
  lemma EncodingShape(version: int, program: seq<int>)
    requires Permitted(version, program)
    ensures var a, data := Encode(version, program), Payload(version, program);
            var all := data + ChecksumSymbols(version, data);
            && |a| <= 90 && |all| >= 10 && RFind(a, '1') == 2 && a[..2] == "bc" && a[..3] == "bc1"
            && InCharset(a[3..]) && Indices(a[3..]) == all && all[..|all| - 6] == data
            && Small(all) && AfterBc(all) == ConstFor(version)
  {
    hide Charset, Run, Checksum, WordOf, Permitted, Payload, InCharset, ChecksumSymbols, AfterBc, ConstFor, RFind, Lower, Find, LowerChar;
    var data := Payload(version, program);
    var six := ChecksumSymbols(version, data);
    ChecksumCompletes(version, data);
    CharsRound(data + six);
    Prefixed(Chars(data + six));
    assert (data + six)[..|data + six| - 6] == data;
  }

  lemma ChecksumCompletes(version: int, data: seq<int>)
    requires Small(data)
    ensures var all := data + ChecksumSymbols(version, data);
            Small(all) && AfterBc(all) == ConstFor(version)
  {
    hide Run, Checksum, WordOf;
    ChecksumIsForced(data, ChecksumSymbols(version, data), ConstFor(version));
  }

  lemma Prefixed(t: string)
    requires '1' !in t
    ensures var a := "bc1" + t;
            RFind(a, '1') == 2 && a[..2] == "bc" && a[..3] == "bc1" && a[3..] == t
  {
    var a := "bc1" + t;
    assert a[3..] == t;
    SeparatorAtTwo(a);
  }

  /** What decoding makes of an encoding. */
  lemma DecodeOfEncoding(address: string, version: int, program: seq<int>)
    requires Permitted(version, program) && SingleCase(address)
    requires Lower(address) == Encode(version, program)
    ensures Decode(address) == Some(Decoded("bc", Payload(version, program), ConstFor(version)))
  {
    hide Charset, Run, HrpExpand, SingleCase, Permitted, Payload, Encode, InCharset, ChecksumSymbols;
    EncodingShape(version, program);
    HrpIsBc();
  }

  /** A string in one case whose lower-case form is an encoding is accepted, with that witness. */
  lemma EncodingIsAccepted(address: string, version: int, program: seq<int>)
    requires Permitted(version, program) && SingleCase(address)
    requires Lower(address) == Encode(version, program)
    ensures CheckSegwit(address)
         == Some(AddressInfo(address, BTC, Encode(version, program), KindOf(version, |program|)))
    ensures Witness(address) == (version, program)
  {
    hide Run, Regrouped, SingleCase, Decode, Encode;
    DecodeOfEncoding(address, version, program);
    PadThenUnpad(program, 8, 5);
  }

  lemma SeparatorAtTwo(a: string)
    requires |a| >= 3 && a[2] == '1' && '1' !in a[3..]
    ensures RFind(a, '1') == 2
  {
    forall i | 3 <= i < |a| ensures a[i] != '1' { assert a[i] == a[3..][i - 3]; }
  }

  // ---------------------------------------------------------------------------
  // Canonical form
  // ---------------------------------------------------------------------------

  /** `_check_segwit` accepts exactly the single-case spellings of encodings of permitted programs. */
  lemma AcceptedExactly(address: string)
    ensures CheckSegwit(address).Some?
       <==> SingleCase(address)
            && exists version: int, program: seq<int> ::
                 Permitted(version, program) && Lower(address) == Encode(version, program)
  {
    hide Charset, CheckSegwit, Encode, Permitted, Witness;
    if CheckSegwit(address).Some? {
      AcceptedIsEncoding(address);
      AcceptedShape(address);
    }
    if SingleCase(address) {
      forall version: int, program: seq<int>
        | Permitted(version, program) && Lower(address) == Encode(version, program)
        ensures CheckSegwit(address).Some?
      {
        EncodingIsAccepted(address, version, program);
      }
    }
  }

  /** For each permitted version and program exactly one lower-case string is accepted with it. */
  lemma OneCanonicalAddress(version: int, program: seq<int>, address: string)
    requires Permitted(version, program)
    ensures CheckSegwit(address).Some? && Witness(address) == (version, program) && Lower(address) == address
       <==> address == Encode(version, program)
  {
    hide Charset, CheckSegwit, Permitted, Witness, Payload, ChecksumSymbols;
    var data := Payload(version, program);
    CharsRound(data + ChecksumSymbols(version, data));
    var e := Encode(version, program);
    assert Lower(e) == e by {
      assert e[..3] == "bc1" && e[3..] == Chars(data + ChecksumSymbols(version, data));
      forall i | 0 <= i < |e| ensures LowerChar(e[i]) == e[i] {
        if i >= 3 { assert e[i] == e[3..][i - 3]; }
      }
    }
    EncodingIsAccepted(e, version, program);
    if CheckSegwit(address).Some? && Lower(address) == address {
      AcceptedIsEncoding(address);
    }
  }

  /** The stored form identifies the witness: equal witnesses, equal `address_norm`, and conversely. */
  lemma NormIsTheWitness(a: string, b: string)
    requires CheckSegwit(a).Some? && CheckSegwit(b).Some?
    ensures CheckSegwit(a).value.addressNorm == CheckSegwit(b).value.addressNorm
       <==> Witness(a) == Witness(b)
  {
    hide Charset, Encode, Permitted;
    AcceptedIsEncoding(a);
    AcceptedIsEncoding(b);
    var (va, pa) := Witness(a);
    var (vb, pb) := Witness(b);
    AcceptedShape(a);
    AcceptedShape(b);
    EncodingIsAccepted(a, va, pa);
    EncodingIsAccepted(b, vb, pb);
    if Lower(a) == Lower(b) {
      EncodingIsAccepted(a, vb, pb);
    }
  }

  // ---------------------------------------------------------------------------
  // Damage
  // ---------------------------------------------------------------------------

  ghost predicate DifferOnlyWithin(a: string, b: string, k: int) {
    |a| == |b| && forall i :: 0 <= i < |a| && a[i] != b[i] ==> k <= i < k + 6
  }

  lemma SymbolsDiffer(a: string, b: string, k: int)
    requires InCharset(a) && InCharset(b) && a != b && DifferOnlyWithin(a, b, k)
    ensures var wa, wb := Words(Indices(a)), Words(Indices(b));
            && Symbols(wa) && Symbols(wb) && wa != wb
            && forall i :: 0 <= i < |wa| && wa[i] != wb[i] ==> k <= i < k + 6
  {
    hide Charset, WordOf, InCharset;
    IndicesRound(a);
    IndicesRound(b);
    WordsRound(Indices(a));
    WordsRound(Indices(b));
  }

  /** Bursts after the prefix change the register. */
  lemma BurstAfterBc(a: string, b: string, k: int)
    requires InCharset(a) && InCharset(b) && a != b && DifferOnlyWithin(a, b, k)
    ensures AfterBc(Indices(a)) != AfterBc(Indices(b))
  {
    hide Charset, WordOf, InCharset, Run;
    SymbolsDiffer(a, b, k);
    var hrp: seq<Word> := [3, 3, 0, 2, 3];
    RunAppend(1, hrp, Words(Indices(a)));
    RunAppend(1, hrp, Words(Indices(b)));
    BurstsChangeTheRegister(Run(1, hrp), Words(Indices(a)), Words(Indices(b)), if k >= 0 then k else 0);
  }

  lemma DropThree(a: string, b: string, k: int)
    requires |a| >= 3 && |b| >= 3 && a[..3] == b[..3] && a != b && DifferOnlyWithin(a, b, k)
    ensures a[3..] != b[3..] && DifferOnlyWithin(a[3..], b[3..], k - 3)
  {
    assert a == a[..3] + a[3..] && b == b[..3] + b[3..];
    forall i | 0 <= i < |a[3..]| && a[3..][i] != b[3..][i] ensures k - 3 <= i < k + 3 {
      assert a[i + 3] != b[i + 3];
    }
  }

  /** If two accepted addresses of one length differ, case aside, only inside six consecutive
      places, then one is version 0 and the other is not: the two constants are what tells them apart. */
  lemma CloseAddressesDifferInVersion(a: string, b: string, k: int)
    requires CheckSegwit(a).Some? && CheckSegwit(b).Some?
    requires Lower(a) != Lower(b) && DifferOnlyWithin(Lower(a), Lower(b), k)
    ensures (Witness(a).0 == 0) != (Witness(b).0 == 0)
  {
    hide Charset, CheckSegwit, Run, Witness, WordOf, Decode, SingleCase, InCharset, DifferOnlyWithin, AfterBc;
    AcceptedShape(a);
    AcceptedShape(b);
    DropThree(Lower(a), Lower(b), k);
    BurstAfterBc(Lower(a)[3..], Lower(b)[3..], k - 3);
  }

  /** A valid address damaged inside six consecutive places is always rejected, whatever characters the
      damage put there, unless it takes the version symbol to or from 'q', the symbol of version 0. */
  lemma BurstDamageIsRejected(a: string, b: string, k: int)
    requires CheckSegwit(a).Some?
    requires Lower(a) != Lower(b) && DifferOnlyWithin(Lower(a), Lower(b), k)
    requires |b| > 3 && ((Lower(a)[3] == 'q') == (Lower(b)[3] == 'q'))
    ensures CheckSegwit(b).None?
  {
    hide Charset, CheckSegwit, Run, Witness;
    if CheckSegwit(b).Some? {
      CloseAddressesDifferInVersion(a, b, k);
      VersionZeroIsQ(a);
      VersionZeroIsQ(b);
      assert false;
    }
  }

  lemma QIsZero(c: char)
    ensures Find(Charset(), c) == 0 <==> c == 'q'
  {
    CharsetFacts(0);
    assert Charset()[0] == 'q';
  }

  lemma VersionZeroIsQ(a: string)
    requires CheckSegwit(a).Some?
    ensures |a| > 3 && (Witness(a).0 == 0 <==> Lower(a)[3] == 'q')
  {
    hide Charset, CheckSegwit, Run, Witness;
    VersionIsFourth(a);
    QIsZero(Lower(a)[3]);
  }

  lemma VersionIsFourth(a: string)
    requires CheckSegwit(a).Some?
    ensures |a| > 3 && Witness(a).0 == Find(Charset(), Lower(a)[3])
  {
    hide Charset, Run, Regrouped;
    AcceptedShape(a);
    assert Lower(a)[3..][0] == Lower(a)[3];
  }
}
