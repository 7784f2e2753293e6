/** `_transfer_pairs`: splitting each output across the inputs in proportion to what they put in. */
module Transfers {
  import opened Chains
  import Orders
  import opened Transactions

  datatype Transfer = Transfer(from: string, to: string, value: real, attributed: real)

  // ---------------------------------------------------------------------------
  // Sums over one side of a transaction
  // ---------------------------------------------------------------------------

  function NormOf(chain: Chain, io: TxIO): string { NormalizeAddress(chain, io.address) }

  /** Everything on this side. */
  function Total(ios: seq<TxIO>): real {
    if ios == [] then 0.0 else Total(ios[..|ios| - 1]) + ios[|ios| - 1].value
  }

  /** Everything on this side under one address. */
  function Amount(chain: Chain, ios: seq<TxIO>, a: string): real {
    if ios == [] then 0.0
    else Amount(chain, ios[..|ios| - 1], a)
         + (if NormOf(chain, ios[|ios| - 1]) == a then ios[|ios| - 1].value else 0.0)
  }

  /** The distinct addresses of this side, in order of first appearance. */
  function Names(chain: Chain, ios: seq<TxIO>): seq<string> {
    if ios == [] then []
    else
      var before := Names(chain, ios[..|ios| - 1]);
      var a := NormOf(chain, ios[|ios| - 1]);
      if a in before then before else before + [a]
  }

  /** The total of the amounts of some addresses. */
  function AmountOf(chain: Chain, ios: seq<TxIO>, names: seq<string>): real {
    if names == [] then 0.0
    else AmountOf(chain, ios, names[..|names| - 1]) + Amount(chain, ios, names[|names| - 1])
  }

  /** Some entry of this side has the address. */
  ghost predicate Appears(chain: Chain, ios: seq<TxIO>, a: string) {
    exists io :: io in ios && NormOf(chain, io) == a
  }

  lemma AppearsMore(chain: Chain, ios: seq<TxIO>, io: TxIO)
    ensures forall a :: Appears(chain, ios + [io], a) <==> Appears(chain, ios, a) || a == NormOf(chain, io)
  {
    hide NormOf;
    assert io in ios + [io];
    forall a ensures Appears(chain, ios + [io], a) <==> Appears(chain, ios, a) || a == NormOf(chain, io) {
      if Appears(chain, ios, a) {
        var i :| i in ios && NormOf(chain, i) == a;
        assert i in ios + [io];
      }
    }
  }

  lemma SideMore(chain: Chain, ios: seq<TxIO>, io: TxIO)
    ensures Total(ios + [io]) == Total(ios) + io.value
    ensures forall a :: Amount(chain, ios + [io], a)
                     == Amount(chain, ios, a) + (if NormOf(chain, io) == a then io.value else 0.0)
    ensures Names(chain, ios + [io]) == if NormOf(chain, io) in Names(chain, ios) then Names(chain, ios)
                                        else Names(chain, ios) + [NormOf(chain, io)]
  {
    hide NormOf;
    assert (ios + [io])[..|ios|] == ios;
  }

  lemma {:induction false} NamesFacts(chain: Chain, ios: seq<TxIO>)
    ensures Orders.NoRepeats(Names(chain, ios))
    ensures forall a :: a in Names(chain, ios) <==> Appears(chain, ios, a)
    ensures ios != [] ==> Names(chain, ios) != []
  {
    if ios != [] {
      var init, last := ios[..|ios| - 1], ios[|ios| - 1];
      NamesFacts(chain, init);
      SideMore(chain, init, last);
      AppearsMore(chain, init, last);
      assert ios == init + [last];
      hide Names, Appears, NormOf;
    }
  }

  /** One more entry adds its value to the amount of the names exactly if its address is among them. */
  lemma {:induction false} AmountOfMore(chain: Chain, ios: seq<TxIO>, names: seq<string>)
    requires ios != [] && Orders.NoRepeats(names)
    ensures var init, last := ios[..|ios| - 1], ios[|ios| - 1];
            AmountOf(chain, ios, names) == AmountOf(chain, init, names)
                                           + (if NormOf(chain, last) in names then last.value else 0.0)
  {
    if names != [] {
      var most := names[..|names| - 1];
      AmountOfMore(chain, ios, most);
      assert names == most + [names[|names| - 1]];
    }
  }

  lemma {:induction false} AmountOfAbsent(chain: Chain, ios: seq<TxIO>, a: string)
    requires !Appears(chain, ios, a)
    ensures Amount(chain, ios, a) == 0.0
  {
    hide NormOf;
    if ios != [] {
      var init, last := ios[..|ios| - 1], ios[|ios| - 1];
      assert ios == init + [last];
      AppearsMore(chain, init, last);
      AmountOfAbsent(chain, init, a);
    }
  }

  /** The amounts of all addresses of a side add up to the side's total. */
  lemma {:induction false} NamesCoverTotal(chain: Chain, ios: seq<TxIO>)
    ensures AmountOf(chain, ios, Names(chain, ios)) == Total(ios)
  {
    if ios != [] {
      var init, last := ios[..|ios| - 1], ios[|ios| - 1];
      assert ios == init + [last];
      NamesCoverTotal(chain, init);
      CoverOneMore(chain, init, last);
    }
  }

  lemma CoverOneMore(chain: Chain, ios: seq<TxIO>, io: TxIO)
    requires AmountOf(chain, ios, Names(chain, ios)) == Total(ios)
    ensures AmountOf(chain, ios + [io], Names(chain, ios + [io])) == Total(ios + [io])
  {
    hide Names, Amount, NormOf, Total, Appears;
    var a, before, all := NormOf(chain, io), Names(chain, ios), ios + [io];
    SideMore(chain, ios, io);
    NamesFacts(chain, ios);
    NamesFacts(chain, all);
    AmountOfMore(chain, all, Names(chain, all));
    assert all[..|all| - 1] == ios;
    if a !in before {
      assert (before + [a])[..|before|] == before;
      AmountOfAbsent(chain, ios, a);
    }
  }

  // ---------------------------------------------------------------------------
  // The pairs
  // ---------------------------------------------------------------------------

  function AtLeastOne(n: nat): (m: nat)
    ensures m > 0
  {
    if n > 1 then n else 1
  }

  /** The share formula: proportional when input values are recorded, even otherwise. */
  function Split(out: real, input: real, totalIn: real, nInputs: nat): real
    requires nInputs > 0
  {
    if totalIn > 0.0 then out * (input / totalIn) else out / nInputs as real
  }

  /** What `from` is credited with of what `to` received. */
  function Share(tx: ChainTransaction, from: string, to: string): real {
    Split(Amount(tx.chain, tx.outputs, to), Amount(tx.chain, tx.inputs, from),
          Total(tx.inputs), AtLeastOne(|Names(tx.chain, tx.inputs)|))
  }

  /** One input address's part of an output when no input value is recorded. */
  function EvenShare(tx: ChainTransaction, to: string): real {
    Amount(tx.chain, tx.outputs, to) / AtLeastOne(|Names(tx.chain, tx.inputs)|) as real
  }

  function PairOf(tx: ChainTransaction, from: string, to: string): Transfer {
    Transfer(from, to, Amount(tx.chain, tx.outputs, to), Share(tx, from, to))
  }

  /** The pairs into `to`, from each of `froms` but itself. */
  function PairsInto(tx: ChainTransaction, froms: seq<string>, to: string): seq<Transfer> {
    if froms == [] then []
    else
      var from := froms[|froms| - 1];
      PairsInto(tx, froms[..|froms| - 1], to) + (if from == to then [] else [PairOf(tx, from, to)])
  }

  function PairsBetween(tx: ChainTransaction, froms: seq<string>, tos: seq<string>): seq<Transfer> {
    if tos == [] then []
    else PairsBetween(tx, froms, tos[..|tos| - 1]) + PairsInto(tx, froms, tos[|tos| - 1])
  }

  /** What `_transfer_pairs` returns, in order. */
  function Pairs(tx: ChainTransaction): seq<Transfer> {
    if tx.MovedValue() then PairsBetween(tx, Names(tx.chain, tx.inputs), Names(tx.chain, tx.outputs)) else []
  }

  /** A Python dictionary built by adding to entries: insertion order and values. */
  datatype Tally = Tally(order: seq<string>, amounts: map<string, real>) {
    /** The tally of one side of a transaction. */
    ghost predicate Of(chain: Chain, ios: seq<TxIO>) {
      && order == Names(chain, ios)
      && (forall a :: a in amounts <==> a in order)
      && forall a :: a in amounts ==> amounts[a] == Amount(chain, ios, a)
    }

    function Add(a: string, v: real): Tally {
      if a in amounts then this.(amounts := amounts[a := amounts[a] + v])
      else Tally(order + [a], amounts[a := 0.0 + v])
    }
  }

  lemma TallyGrows(t: Tally, chain: Chain, ios: seq<TxIO>, io: TxIO)
    requires t.Of(chain, ios)
    ensures t.Add(NormOf(chain, io), io.value).Of(chain, ios + [io])
  {
    hide NormOf, Names, Amount, Appears;
    SideMore(chain, ios, io);
    NamesFacts(chain, ios);
    if NormOf(chain, io) !in t.amounts {
      AmountOfAbsent(chain, ios, NormOf(chain, io));
    }
  }

  method Collapse(chain: Chain, ios: seq<TxIO>) returns (t: Tally)
    ensures t.Of(chain, ios)
  {
    t := Tally([], map[]);
    for n := 0 to |ios|
      invariant t.Of(chain, ios[..n])
    {
      TallyGrows(t, chain, ios[..n], ios[n]);
      assert ios[..n + 1] == ios[..n] + [ios[n]];
      t := t.Add(NormOf(chain, ios[n]), ios[n].value);
    }
    assert ios[..|ios|] == ios;
  }

  method SumValues(chain: Chain, ghost ios: seq<TxIO>, t: Tally) returns (total: real)
    requires t.Of(chain, ios)
    ensures total == Total(ios)
  {
    total := 0.0;
    for n := 0 to |t.order|
      invariant total == AmountOf(chain, ios, t.order[..n])
    {
      assert t.order[..n + 1][..n] == t.order[..n];
      assert t.order[n] in t.order;
      total := total + t.amounts[t.order[n]];
    }
    assert t.order[..|t.order|] == t.order;
    NamesCoverTotal(chain, ios);
  }

  /** `_transfer_pairs` */
  method TransferPairs(tx: ChainTransaction) returns (pairs: seq<Transfer>)
    ensures pairs == Pairs(tx)
  {
    if !tx.MovedValue() {
      return [];
    }
    var ins := Collapse(tx.chain, tx.inputs);
    var outs := Collapse(tx.chain, tx.outputs);
    var totalIn := SumValues(tx.chain, tx.inputs, ins);
    var nInputs := AtLeastOne(|ins.order|);
    hide Names, Amount, Total, Split, AtLeastOne;
    pairs := [];
    for j := 0 to |outs.order|
      invariant pairs == PairsBetween(tx, ins.order, outs.order[..j])
    {
      var to := outs.order[j];
      assert to in outs.order;
      var outValue := outs.amounts[to];
      var into := [];  // what this round of the outer loop appends
      for i := 0 to |ins.order|
        invariant into == PairsInto(tx, ins.order[..i], to)
      {
        var from := ins.order[i];
        assert from in ins.order;
        assert ins.order[..i + 1][..i] == ins.order[..i];
        if from == to {
          continue;
        }
        var share := Split(outValue, ins.amounts[from], totalIn, nInputs);
        into := into + [Transfer(from, to, outValue, share)];
      }
      pairs := pairs + into;
      assert ins.order[..|ins.order|] == ins.order;
      assert outs.order[..j + 1][..j] == outs.order[..j];
    }
    assert outs.order[..|outs.order|] == outs.order;
  }

  // ---------------------------------------------------------------------------
  // What the pairs are
  // ---------------------------------------------------------------------------

  ghost predicate DistinctPairs(pairs: seq<Transfer>) {
    forall i, j :: 0 <= i < j < |pairs| ==> (pairs[i].from, pairs[i].to) != (pairs[j].from, pairs[j].to)
  }

  lemma {:induction false} IntoFacts(tx: ChainTransaction, froms: seq<string>, to: string)
    requires Orders.NoRepeats(froms)
    ensures forall p :: p in PairsInto(tx, froms, to) <==> p.from in froms && p.from != to && p == PairOf(tx, p.from, to)
    ensures DistinctPairs(PairsInto(tx, froms, to))
  {
    hide Share;
    if froms != [] {
      var init, from := froms[..|froms| - 1], froms[|froms| - 1];
      IntoFacts(tx, init, to);
      assert froms == init + [from];
      var before := PairsInto(tx, init, to);
      forall i | 0 <= i < |before| ensures before[i].from != from { assert before[i] in before; }
    }
  }

  lemma {:induction false} BetweenFacts(tx: ChainTransaction, froms: seq<string>, tos: seq<string>)
    requires Orders.NoRepeats(froms) && Orders.NoRepeats(tos)
    ensures forall p :: p in PairsBetween(tx, froms, tos)
                   <==> p.from in froms && p.to in tos && p.from != p.to && p == PairOf(tx, p.from, p.to)
    ensures DistinctPairs(PairsBetween(tx, froms, tos))
  {
    hide PairOf;
    if tos != [] {
      var init, to := tos[..|tos| - 1], tos[|tos| - 1];
      BetweenFacts(tx, froms, init);
      IntoFacts(tx, froms, to);
      assert tos == init + [to];
      PairOfEnds(tx);
      var a, b := PairsBetween(tx, froms, init), PairsInto(tx, froms, to);
      forall i | 0 <= i < |a| ensures a[i].to != to { assert a[i] in a; }
      forall i | 0 <= i < |b| ensures b[i].to == to { assert b[i] in b; }
    }
  }

  lemma PairOfEnds(tx: ChainTransaction)
    ensures forall f, t :: PairOf(tx, f, t).from == f && PairOf(tx, f, t).to == t
  {}

  /** The pairs are exactly the (input address, output address) combinations with distinct ends, each
      once, carrying the output's whole amount and the input's share; a transaction that moved
      nothing has none. */
  lemma PairsFacts(tx: ChainTransaction)
    ensures DistinctPairs(Pairs(tx))
    ensures forall p :: p in Pairs(tx) <==> (
              && tx.MovedValue() && p.from != p.to && p == PairOf(tx, p.from, p.to)
              && Appears(tx.chain, tx.inputs, p.from) && Appears(tx.chain, tx.outputs, p.to))
    ensures forall p :: p in Pairs(tx) ==>
              p.value == Amount(tx.chain, tx.outputs, p.to) && p.attributed == Share(tx, p.from, p.to)
  {
    NamesFacts(tx.chain, tx.inputs);
    NamesFacts(tx.chain, tx.outputs);
    BetweenFacts(tx, Names(tx.chain, tx.inputs), Names(tx.chain, tx.outputs));
  }

  // ---------------------------------------------------------------------------
  // A share is the sum of the per-output, per-input shares it collapses
  // ---------------------------------------------------------------------------

  /** One unspent output's contribution to one created output, before any collapsing. */
  function UnitShare(tx: ChainTransaction, i: TxIO, o: TxIO): real
    requires Total(tx.inputs) > 0.0
  {
    o.value * (i.value / Total(tx.inputs))
  }

  /** The unit shares from every input of `from` into one output. */
  function UnitsInto(tx: ChainTransaction, ins: seq<TxIO>, from: string, o: TxIO): real
    requires Total(tx.inputs) > 0.0
  {
    if ins == [] then 0.0
    else UnitsInto(tx, ins[..|ins| - 1], from, o)
         + (if NormOf(tx.chain, ins[|ins| - 1]) == from then UnitShare(tx, ins[|ins| - 1], o) else 0.0)
  }

  /** The unit shares from every input of `from` into every output of `to`. */
  function Units(tx: ChainTransaction, outs: seq<TxIO>, from: string, to: string): real
    requires Total(tx.inputs) > 0.0
  {
    if outs == [] then 0.0
    else Units(tx, outs[..|outs| - 1], from, to)
         + (if NormOf(tx.chain, outs[|outs| - 1]) == to then UnitsInto(tx, tx.inputs, from, outs[|outs| - 1]) else 0.0)
  }

  lemma AddRatios(a: real, b: real, t: real, v: real)
    requires t > 0.0
    ensures v * (a / t) + v * (b / t) == v * ((a + b) / t)
  {
    assert a / t + b / t == (a + b) / t;
  }

  lemma AddScaled(u: real, v: real, r: real)
    ensures u * r + v * r == (u + v) * r
  {}

  lemma AmountStep(chain: Chain, ios: seq<TxIO>, a: string)
    ensures ios == [] ==> Amount(chain, ios, a) == 0.0
    ensures ios != [] ==> Amount(chain, ios, a) == Amount(chain, ios[..|ios| - 1], a)
                          + (if NormOf(chain, ios[|ios| - 1]) == a then ios[|ios| - 1].value else 0.0)
  {}

  lemma {:induction false} UnitsIntoIsShare(tx: ChainTransaction, ins: seq<TxIO>, from: string, o: TxIO)
    requires Total(tx.inputs) > 0.0
    ensures UnitsInto(tx, ins, from, o) == o.value * (Amount(tx.chain, ins, from) / Total(tx.inputs))
  {
    var t := Total(tx.inputs);
    if ins != [] {
      var init, last := ins[..|ins| - 1], ins[|ins| - 1];
      UnitsIntoIsShare(tx, init, from, o);
      AddRatios(Amount(tx.chain, init, from), last.value, t, o.value);
    }
  }

  lemma {:induction false} UnitsAreShare(tx: ChainTransaction, outs: seq<TxIO>, from: string, to: string)
    requires Total(tx.inputs) > 0.0
    ensures Units(tx, outs, from, to)
         == Amount(tx.chain, outs, to) * (Amount(tx.chain, tx.inputs, from) / Total(tx.inputs))
  {
    hide Amount, Total, UnitsInto;
    var r := Amount(tx.chain, tx.inputs, from) / Total(tx.inputs);
    AmountStep(tx.chain, outs, to);
    if outs != [] {
      var init, last := outs[..|outs| - 1], outs[|outs| - 1];
      UnitsAreShare(tx, init, from, to);
      UnitsIntoIsShare(tx, tx.inputs, from, last);
      AddScaled(Amount(tx.chain, init, to), last.value, r);
    }
  }

  /** Collapsing repeated addresses first loses nothing: every emitted share is the sum of the
      proportional shares of the individual inputs and outputs behind it. */
  lemma ShareRefinesUnits(tx: ChainTransaction, p: Transfer)
    requires Total(tx.inputs) > 0.0 && p in Pairs(tx)
    ensures p.attributed == Units(tx, tx.outputs, p.from, p.to)
  {
    hide Amount, Total, Units, Pairs;
    PairsFacts(tx);
    UnitsAreShare(tx, tx.outputs, p.from, p.to);
  }

  // ---------------------------------------------------------------------------
  // Conservation
  // ---------------------------------------------------------------------------

  function SumAttributed(pairs: seq<Transfer>): real {
    if pairs == [] then 0.0 else SumAttributed(pairs[..|pairs| - 1]) + pairs[|pairs| - 1].attributed
  }

  lemma {:induction false} SumAttributedAppend(a: seq<Transfer>, b: seq<Transfer>)
    ensures SumAttributed(a + b) == SumAttributed(a) + SumAttributed(b)
    decreases |b|
  {
    if b == [] {
      assert a + b == a;
    } else {
      assert (a + b)[..|a + b| - 1] == a + b[..|b| - 1];
      SumAttributedAppend(a, b[..|b| - 1]);
    }
  }

  /** The shares addresses on both sides would have sent to themselves, which are not emitted. */
  function SelfShares(tx: ChainTransaction, tos: seq<string>): real {
    if tos == [] then 0.0
    else
      var to := tos[|tos| - 1];
      SelfShares(tx, tos[..|tos| - 1]) + (if to in Names(tx.chain, tx.inputs) then Share(tx, to, to) else 0.0)
  }

  /** All shares of one output amount, self-share included. */
  function SharesOf(tx: ChainTransaction, froms: seq<string>, to: string): real {
    if froms == [] then 0.0 else SharesOf(tx, froms[..|froms| - 1], to) + Share(tx, froms[|froms| - 1], to)
  }

  lemma {:induction false} IntoSum(tx: ChainTransaction, froms: seq<string>, to: string)
    requires Orders.NoRepeats(froms)
    ensures SumAttributed(PairsInto(tx, froms, to))
         == SharesOf(tx, froms, to) - (if to in froms then Share(tx, to, to) else 0.0)
  {
    hide Share;
    if froms != [] {
      var init, from := froms[..|froms| - 1], froms[|froms| - 1];
      IntoSum(tx, init, to);
      assert froms == init + [from];
      if from != to {
        SumAttributedAppend(PairsInto(tx, init, to), [PairOf(tx, from, to)]);
        OnePair(PairOf(tx, from, to));
      } else {
        assert PairsInto(tx, froms, to) == PairsInto(tx, init, to);
      }
    }
  }

  lemma OnePair(p: Transfer)
    ensures SumAttributed([p]) == p.attributed
  {
    assert [p][..0] == [];
  }

  /** Proportional shares of the first addresses are their part of the total. */
  lemma {:induction false} ProportionalShares(tx: ChainTransaction, froms: seq<string>, to: string)
    requires Total(tx.inputs) > 0.0
    ensures SharesOf(tx, froms, to)
         == Amount(tx.chain, tx.outputs, to) * (AmountOf(tx.chain, tx.inputs, froms) / Total(tx.inputs))
  {
    if froms != [] {
      var init, from := froms[..|froms| - 1], froms[|froms| - 1];
      ProportionalShares(tx, init, to);
      AddRatios(AmountOf(tx.chain, tx.inputs, init), Amount(tx.chain, tx.inputs, from), Total(tx.inputs),
                Amount(tx.chain, tx.outputs, to));
    }
  }

  /** Even shares of the first `k` addresses are `k` parts of the whole. */
  lemma {:induction false} EvenShares(tx: ChainTransaction, froms: seq<string>, to: string)
    requires Total(tx.inputs) <= 0.0
    ensures SharesOf(tx, froms, to) == EvenShare(tx, to) * |froms| as real
  {
    hide Amount, Total, EvenShare, Share;
    var part := EvenShare(tx, to);
    if froms != [] {
      var n := |froms| - 1;
      EvenShares(tx, froms[..n], to);
      ShareIsEven(tx, froms[n], to);
      assert |froms| as real == n as real + 1.0;
      AddScaled(n as real, 1.0, part);
    }
  }

  lemma ShareIsEven(tx: ChainTransaction, from: string, to: string)
    requires Total(tx.inputs) <= 0.0
    ensures Share(tx, from, to) == EvenShare(tx, to)
  {}

  /** The shares of one output amount add up to it. */
  lemma SharesCoverOutput(tx: ChainTransaction, to: string)
    requires tx.inputs != []
    ensures SharesOf(tx, Names(tx.chain, tx.inputs), to) == Amount(tx.chain, tx.outputs, to)
  {
    hide Names, Amount, Total, AmountOf, SharesOf, Orders.NoRepeats;
    var names := Names(tx.chain, tx.inputs);
    NamesFacts(tx.chain, tx.inputs);
    if Total(tx.inputs) > 0.0 {
      ProportionalShares(tx, names, to);
      NamesCoverTotal(tx.chain, tx.inputs);
      WholeRatio(Total(tx.inputs), Amount(tx.chain, tx.outputs, to));
    } else {
      EvenShares(tx, names, to);
      AllParts(Amount(tx.chain, tx.outputs, to), |names|);
    }
  }

  lemma WholeRatio(t: real, v: real)
    requires t > 0.0
    ensures v * (t / t) == v
  {}

  lemma AllParts(v: real, n: nat)
    requires n > 0
    ensures v / AtLeastOne(n) as real * n as real == v
  {}

  lemma {:induction false} BetweenSum(tx: ChainTransaction, tos: seq<string>)
    requires tx.inputs != []
    ensures SumAttributed(PairsBetween(tx, Names(tx.chain, tx.inputs), tos)) + SelfShares(tx, tos)
         == AmountOf(tx.chain, tx.outputs, tos)
  {
    hide Share;
    if tos != [] {
      var froms := Names(tx.chain, tx.inputs);
      var init, to := tos[..|tos| - 1], tos[|tos| - 1];
      BetweenSum(tx, init);
      NamesFacts(tx.chain, tx.inputs);
      IntoSum(tx, froms, to);
      SharesCoverOutput(tx, to);
      SumAttributedAppend(PairsBetween(tx, froms, init), PairsInto(tx, froms, to));
    }
  }

  /** Emitted shares and withheld self-shares together are the transaction's whole output, whatever
      the inputs record, as long as there is one. */
  lemma TransfersConserve(tx: ChainTransaction)
    requires tx.inputs != [] && tx.MovedValue()
    ensures SumAttributed(Pairs(tx)) + SelfShares(tx, Names(tx.chain, tx.outputs)) == Total(tx.outputs)
  {
    BetweenSum(tx, Names(tx.chain, tx.outputs));
    NamesCoverTotal(tx.chain, tx.outputs);
  }

  ghost predicate DisjointSides(tx: ChainTransaction) {
    forall a :: Appears(tx.chain, tx.inputs, a) ==> !Appears(tx.chain, tx.outputs, a)
  }

  lemma {:induction false} NoSelfShares(tx: ChainTransaction, tos: seq<string>)
    requires forall a :: a in tos ==> a !in Names(tx.chain, tx.inputs)
    ensures SelfShares(tx, tos) == 0.0
  {
    if tos != [] {
      assert tos[|tos| - 1] in tos;
      NoSelfShares(tx, tos[..|tos| - 1]);
    }
  }

  /** With no address on both sides the transfer edges carry exactly the total output. */
  lemma DisjointTransfersConserve(tx: ChainTransaction)
    requires tx.inputs != [] && tx.MovedValue() && DisjointSides(tx)
    ensures SumAttributed(Pairs(tx)) == Total(tx.outputs)
  {
    TransfersConserve(tx);
    NamesFacts(tx.chain, tx.inputs);
    NamesFacts(tx.chain, tx.outputs);
    NoSelfShares(tx, Names(tx.chain, tx.outputs));
  }

  /** A transaction that did not succeed moves nothing, and where the inputs carry no value every input
      is credited the same part of an output. */
  lemma WithoutValue(tx: ChainTransaction, p: Transfer, q: Transfer)
    ensures tx.status != Success ==> Pairs(tx) == []
    ensures p in Pairs(tx) && q in Pairs(tx) && p.to == q.to && Total(tx.inputs) <= 0.0 ==> p.attributed == q.attributed
  {
    if p in Pairs(tx) && q in Pairs(tx) && p.to == q.to && Total(tx.inputs) <= 0.0 {
      PairsFacts(tx);
      ShareIsEven(tx, p.from, p.to);
      ShareIsEven(tx, q.from, q.to);
      hide Pairs, Share;
    }
  }
}
