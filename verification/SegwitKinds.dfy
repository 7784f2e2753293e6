/** What acceptance says in the standards' own numbers: the checksum constant of each version, the kind
    of an address by its length and version character, and a published address. */
module SegwitKinds {
  import opened Options
  import opened Bech32
  import opened Regroup
  import opened Segwit
  import opened SegwitLimits
  import opened Text
  import opened Chains

  /** BIP-350: a version-0 address checks to 1, a later one to 0x2BC830A3. */
  lemma ChecksumOfVersion(a: string)
    requires CheckSegwit(a).Some?
    ensures Decode(a).Some? && Decode(a).value.data != []
    ensures Decode(a).value.checksum == if Decode(a).value.data[0] == 0 then 1 else 0x2BC830A3
  {
    hide Charset, Run, Regrouped, Decode;
  }

  // ---------------------------------------------------------------------------
  // Published addresses
  // ---------------------------------------------------------------------------

  /** Reading these characters takes the register from one value to another. */
  ghost predicate Feeds(text: string, before: Word, after: Word) {
    InCharset(text) && Run(before, Words(Indices(text))) == after
  }

  lemma Join(s: string, t: string, a: Word, b: Word, c: Word)
    requires Feeds(s, a, b) && Feeds(t, b, c)
    ensures Feeds(s + t, a, c)
  {
    hide Run, Charset, WordOf;
    assert Words(Indices(s + t)) == Words(Indices(s)) + Words(Indices(t));
    RunAppend(a, Words(Indices(s)), Words(Indices(t)));
  }

  lemma SymbolIs(c: char, v: Word)
    requires v < 32 && Rank(c) == v as int
    ensures c in Charset() && WordOf(Find(Charset(), c)) == v
  {
    hide WordOf;
    assert Charset()[Rank(c)] == c;
    CharsetFacts(Rank(c));
    IntToWord(v);
  }

  lemma ThreeSteps(c: Word, x: Word, y: Word, z: Word)
    ensures Run(c, [x, y, z]) == Step(Step(Step(c, x), y), z)
  {
    hide Step;
    var w := [x, y, z];
    RunUnfold(c, w);
    RunUnfold(c, w[..2]);
    RunUnfold(c, w[..1]);
    assert w[..0] == [] && Run(c, []) == c;
  }

  /** Three characters, by their symbols. */
  lemma Three(p: char, q: char, r: char, x: Word, y: Word, z: Word, before: Word, m: Word, n: Word, after: Word)
    requires x < 32 && y < 32 && z < 32 && Rank(p) == x as int && Rank(q) == y as int && Rank(r) == z as int
    requires Step(before, x) == m && Step(m, y) == n && Step(n, z) == after
    ensures Feeds([p, q, r], before, after)
  {
    hide *;
    SymbolIs(p, x);
    SymbolIs(q, y);
    SymbolIs(r, z);
    WordsOfThree(p, q, r, x, y, z);
    ThreeSteps(before, x, y, z);
    FeedsText([p, q, r], before, after);
  }

  lemma FeedsText(text: string, before: Word, after: Word)
    requires InCharset(text) && Run(before, Words(Indices(text))) == after
    ensures Feeds(text, before, after)
  {}

  lemma WordsOfThree(p: char, q: char, r: char, x: Word, y: Word, z: Word)
    requires p in Charset() && WordOf(Find(Charset(), p)) == x
    requires q in Charset() && WordOf(Find(Charset(), q)) == y
    requires r in Charset() && WordOf(Find(Charset(), r)) == z
    ensures InCharset([p, q, r]) && Words(Indices([p, q, r])) == [x, y, z]
  {
    hide Charset, WordOf, Find;
  }

  lemma Example1()
    ensures Feeds("qw508d6qe", 0x02318043, 0x2B1BCBCE)
  {
    hide Feeds;
    Three('q', 'w', '5', 0, 14, 20, 0x02318043, 0x3D5A5FD2, 0x04EC3CB7, 0x3BD71899);
    Three('0', '8', 'd', 15, 7, 13, 0x3BD71899, 0x087E0C09, 0x116098DD, 0x11512870);
    Three('6', 'q', 'e', 26, 0, 25, 0x11512870, 0x17673DC7, 0x0C9F52E2, 0x2B1BCBCE);
    Join("qw5", "08d", 0x02318043, 0x3BD71899, 0x11512870);
    Join("qw5" + "08d", "6qe", 0x02318043, 0x11512870, 0x2B1BCBCE);
    assert "qw5" + "08d" + "6qe" == "qw508d6qe";
  }

  lemma Example2()
    ensures Feeds("jxtdg4y5r", 0x2B1BCBCE, 0x2541DC62)
  {
    hide Feeds;
    Three('j', 'x', 't', 18, 6, 11, 0x2B1BCBCE, 0x2CA65529, 0x062F5002, 0x18D0D994);
    Three('d', 'g', '4', 13, 8, 21, 0x18D0D994, 0x39F818AA, 0x36F45DDC, 0x14E73324);
    Three('y', '5', 'r', 4, 20, 3, 0x14E73324, 0x07F4D934, 0x23A1FF4B, 0x2541DC62);
    Join("jxt", "dg4", 0x2B1BCBCE, 0x18D0D994, 0x14E73324);
    Join("jxt" + "dg4", "y5r", 0x2B1BCBCE, 0x14E73324, 0x2541DC62);
    assert "jxt" + "dg4" + "y5r" == "jxtdg4y5r";
  }

  lemma Example3()
    ensures Feeds("3zarvary0", 0x2541DC62, 0x04815615)
  {
    hide Feeds;
    Three('3', 'z', 'a', 17, 2, 29, 0x2541DC62, 0x247F608F, 0x03A8FD3C, 0x0E75F02F);
    Three('r', 'v', 'a', 3, 12, 29, 0x0E75F02F, 0x0D25C5C6, 0x1C492F5B, 0x0C964F37);
    Three('r', 'y', '0', 3, 4, 15, 0x0C964F37, 0x2A387174, 0x08D1027F, 0x04815615);
    Join("3za", "rva", 0x2541DC62, 0x0E75F02F, 0x0C964F37);
    Join("3za" + "rva", "ry0", 0x2541DC62, 0x0C964F37, 0x04815615);
    assert "3za" + "rva" + "ry0" == "3zarvary0";
  }

  lemma Example4()
    ensures Feeds("c5xw7kv8f3t4", 0x04815615, 0x00000001)
  {
    hide Feeds;
    Three('c', '5', 'x', 24, 20, 6, 0x04815615, 0x367A4CD5, 0x05251205, 0x02F2CECB);
    Three('w', '7', 'k', 14, 30, 22, 0x02F2CECB, 0x25338EDC, 0x2A353740, 0x0979C4ED);
    Three('v', '8', 'f', 12, 7, 9, 0x0979C4ED, 0x31998456, 0x2466DBA9, 0x009F99F7);
    Three('3', 't', '4', 17, 11, 21, 0x009F99F7, 0x13F33EF1, 0x384FBA44, 0x00000001);
    Join("c5x", "w7k", 0x04815615, 0x02F2CECB, 0x0979C4ED);
    Join("c5x" + "w7k", "v8f", 0x04815615, 0x0979C4ED, 0x009F99F7);
    Join("c5x" + "w7k" + "v8f", "3t4", 0x04815615, 0x009F99F7, 0x00000001);
    assert "c5x" + "w7k" + "v8f" + "3t4" == "c5xw7kv8f3t4";
  }

  lemma ExampleFeeds()
    ensures Feeds("qw508d6qejxtdg4y5r3zarvary0c5xw7kv8f3t4", 0x02318043, 1)
  {
    hide *;
    Example1();
    Example2();
    Example3();
    Example4();
    Join("qw508d6qe", "jxtdg4y5r", 0x02318043, 0x2B1BCBCE, 0x2541DC62);
    Join("qw508d6qe" + "jxtdg4y5r", "3zarvary0", 0x02318043, 0x2541DC62, 0x04815615);
    Join("qw508d6qe" + "jxtdg4y5r" + "3zarvary0", "c5xw7kv8f3t4", 0x02318043, 0x04815615, 1);
    assert "qw508d6qe" + "jxtdg4y5r" + "3zarvary0" + "c5xw7kv8f3t4" == "qw508d6qejxtdg4y5r3zarvary0c5xw7kv8f3t4";
  }

  /** The register after the prefix "bc". */
  lemma PrefixRegister()
    ensures Run(1, [3, 3, 0, 2, 3]) == 0x02318043
  {
    hide Step;
    var w: seq<Word> := [3, 3, 0, 2, 3];
    RunUnfold(1, w);
    RunUnfold(1, w[..4]);
    RunUnfold(1, w[..3]);
    RunUnfold(1, w[..2]);
    RunUnfold(1, w[..1]);
    assert w[..0] == [] && Run(1, []) == 1;
    PrefixSteps();
  }

  lemma PrefixSteps()
    ensures Step(1, 3) == 0x23 && Step(0x23, 3) == 0x463 && Step(0x463, 0) == 0x8C60
    ensures Step(0x8C60, 2) == 0x118C02 && Step(0x118C02, 3) == 0x02318043
  {}

  /** Decoding a lower-case string with prefix "bc". */
  lemma DecodeLower(t: string, c: Word)
    requires 6 <= |t| <= 87 && Feeds(t, 0x02318043, c)
    ensures InCharset(t) && Lower("bc1" + t) == "bc1" + t
    ensures c == 1 || c == 0x2BC830A3 ==> Decode("bc1" + t) == Some(Decoded("bc", Indices(t)[..|t| - 6], c))
  {
    hide Charset, Run, LowerChar, WordOf, RFind, HrpExpand, Words;
    var a := "bc1" + t;
    IndicesRound(t);
    CharsRound(Indices(t));
    assert a[3..] == t && a[..2] == "bc";
    LowerPrefix(t);
    Prefixed(t);
    HrpIsBc();
    PrefixRegister();
    RunAppend(1, [3, 3, 0, 2, 3], Words(Indices(t)));
  }

  lemma LowerPrefix(t: string)
    requires Lower(t) == t
    ensures Lower("bc1" + t) == "bc1" + t
  {
    var a := "bc1" + t;
    forall i | 0 <= i < |a| ensures LowerChar(a[i]) == a[i] {
      if i >= 3 { assert a[i] == t[i - 3] == Lower(t)[i - 3]; }
    }
  }

  /** Any 39 symbols after the prefix that start with version 0 and bring the register to 1 are a
      key-hash address. */
  lemma KeyHashAddress(t: string)
    requires |t| == 39 && t[0] == 'q' && Feeds(t, 0x02318043, 1)
    ensures CheckSegwit("bc1" + t) == Some(AddressInfo("bc1" + t, BTC, "bc1" + t, P2WPKH))
  {
    hide Charset, Feeds, Decode, Regrouped, Indices, Lower, InCharset;
    DecodeLower(t, 1);
    IndicesRound(t);
    assert Indices(t)[0] == 0 by { QIsZero('q'); }
    ThirtyTwoSymbols(Indices(t)[..33][1..]);
  }

  /** The first address of BIP-173's examples is accepted, as what it is. */
  lemma PublishedAddress(a: string)
    requires a == "bc1" + "qw508d6qejxtdg4y5r3zarvary0c5xw7kv8f3t4"
    ensures CheckSegwit(a) == Some(AddressInfo(a, BTC, a, P2WPKH))
  {
    hide *;
    ExampleFeeds();
    ExampleLength("qw508d6qejxtdg4y5r3zarvary0c5xw7kv8f3t4");
    KeyHashAddress("qw508d6qejxtdg4y5r3zarvary0c5xw7kv8f3t4");
  }

  lemma ExampleLength(t: string)
    requires t == "qw508d6qejxtdg4y5r3zarvary0c5xw7kv8f3t4"
    ensures |t| == 39 && t[0] == 'q'
  {}

  // ---------------------------------------------------------------------------
  // The kind of an address, read off its text
  // ---------------------------------------------------------------------------

  /** Five bits a symbol, padded to the next whole one. */
  lemma PayloadLength(version: int, program: seq<int>)
    requires Permitted(version, program)
    ensures 8 * |program| <= 5 * (|Payload(version, program)| - 1) < 8 * |program| + 5
  {
    hide Stream, Groups, Tail;
    StreamOfBytes(program);
    var bits := Stream(program, 8);
    GroupsOfFive(bits);
    if |Tail(bits, 5)| > 0 {
      PaddedGroups(bits);
    }
  }

  lemma AddressLength(a: string)
    requires CheckSegwit(a).Some?
    ensures var n := |Witness(a).1|; 8 * n <= 5 * (|a| - 10) < 8 * n + 5
  {
    hide Charset, CheckSegwit, Payload, ChecksumSymbols, Witness, Regrouped, Chars;
    AcceptedIsEncoding(a);
    var (version, program) := Witness(a);
    PayloadLength(version, program);
    assert |Lower(a)| == 3 + |Payload(version, program)| + 6;
  }

  /** The fourth character is the version: 'q' for 0, 'p' for 1. */
  lemma VersionCharacter(a: string)
    requires CheckSegwit(a).Some?
    ensures |a| > 3 && Witness(a).0 == Rank(Lower(a)[3])
  {
    hide Charset, CheckSegwit, Run, Witness, Rank, LowerChar, Lower, InCharset;
    VersionIsFourth(a);
    AcceptedShape(a);
    assert Lower(a)[3] == Lower(a)[3..][0];
    FourthInCharset(a);
    RankInCharset(Find(Charset(), Lower(a)[3]));
  }

  lemma FourthInCharset(a: string)
    requires |a| > 3 && InCharset(Lower(a)[3..])
    ensures Lower(a)[3] in Charset()
  {
    assert Lower(a)[3] == Lower(a)[3..][0];
  }

  /** Kind, chain and stored form, read off the text of an accepted address. */
  lemma KindByText(a: string)
    requires CheckSegwit(a).Some?
    ensures |a| > 3 && CheckSegwit(a).value.address == a && CheckSegwit(a).value.chain == BTC
    ensures CheckSegwit(a).value.addressNorm == Lower(a)
    ensures CheckSegwit(a).value.kind == P2WPKH <==> |a| == 42 && Lower(a)[3] == 'q'
    ensures CheckSegwit(a).value.kind == P2WSH <==> |a| == 62 && Lower(a)[3] == 'q'
    ensures CheckSegwit(a).value.kind == P2TR <==> |a| == 62 && Lower(a)[3] == 'p'
    ensures CheckSegwit(a).value.kind.WitnessV? ==> CheckSegwit(a).value.kind.version == Rank(Lower(a)[3]) > 0
  {
    hide Charset, Run, Regrouped, Decode, Lower;
    AddressLength(a);
    VersionCharacter(a);
    RankOfVersions(Lower(a)[3]);
  }

  lemma RankOfVersions(c: char)
    ensures Rank(c) == 0 <==> c == 'q'
    ensures Rank(c) == 1 <==> c == 'p'
  {}

  // ---------------------------------------------------------------------------
  // Which witnesses and which spellings there are
  // ---------------------------------------------------------------------------

  /** Exactly these witnesses have an address: version 0 with 20 or 32 bytes, versions 1 to 16 with 2 to
      40 bytes. */
  lemma WitnessesWithAddress(version: int, program: seq<int>)
    ensures (exists a :: CheckSegwit(a).Some? && Witness(a) == (version, program)) <==>
              && (forall i :: 0 <= i < |program| ==> 0 <= program[i] < 256)
              && if version == 0 then |program| == 20 || |program| == 32 else 1 <= version <= 16 && 2 <= |program| <= 40
  {
    Powers();
    PermittedInWords(version, program);
    hide CheckSegwit, Witness, Encode, Permitted, SingleCase;
    forall a | CheckSegwit(a).Some? && Witness(a) == (version, program) ensures Permitted(version, program) {
      AcceptedIsEncoding(a);
    }
    if Permitted(version, program) {
      OneCanonicalAddress(version, program, Encode(version, program));
    }
  }

  lemma PermittedInWords(version: int, program: seq<int>)
    ensures Permitted(version, program) <==>
              && (forall i :: 0 <= i < |program| ==> 0 <= program[i] < 256)
              && if version == 0 then |program| == 20 || |program| == 32 else 1 <= version <= 16 && 2 <= |program| <= 40
  {
    Powers();
    hide Pow2;
  }

  /** A spelling is in one case exactly if it does not have letters of both. */
  lemma SingleCaseInWords(a: string)
    ensures SingleCase(a) <==> (forall i :: 0 <= i < |a| ==> !('A' <= a[i] <= 'Z')) || (forall i :: 0 <= i < |a| ==> !('a' <= a[i] <= 'z'))
  {
    CaseMeans(a);
  }

  lemma CaseMeans(a: string)
    ensures a == Lower(a) <==> forall i :: 0 <= i < |a| ==> !('A' <= a[i] <= 'Z')
    ensures a == Upper(a) <==> forall i :: 0 <= i < |a| ==> !('a' <= a[i] <= 'z')
  {
    if a == Lower(a) {
      forall i | 0 <= i < |a| ensures !('A' <= a[i] <= 'Z') { assert a[i] == Lower(a)[i]; }
    }
    if a == Upper(a) {
      forall i | 0 <= i < |a| ensures !('a' <= a[i] <= 'z') { assert a[i] == Upper(a)[i]; }
    }
  }

  /** Nothing in mixed case is accepted. */
  lemma MixedCaseIsRejected(a: string, i: nat, j: nat)
    requires i < |a| && j < |a| && 'A' <= a[i] <= 'Z' && 'a' <= a[j] <= 'z'
    ensures CheckSegwit(a).None?
  {
    SingleCaseInWords(a);
    hide SingleCase, Charset, Run, Regrouped;
  }
}
