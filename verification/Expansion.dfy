/** `expand_money_flow`: the budgeted breadth-first walk of outbound money flow. */
module Expansion {
  import opened Chains

  datatype Tx = Tx(chain: Chain, txid: string, inputs: seq<string>, outputs: seq<string>)

  /** What one upstream call returns: a connector error, or transactions. */
  datatype Fetch = Failed | Fetched(txs: seq<Tx>)

  type Connector = (string, nat) -> Fetch

  datatype Report = Report(
    transactions: seq<Tx>,
    addressesTouched: nat,
    hopsDiscovered: nat,
    upstreamCalls: nat,
    budgetExhausted: bool,
    frontierTruncated: bool,
    complete: bool)

  /** One upstream call: the address it was made for and the level it was made at. */
  datatype Visit = Visit(address: string, depth: nat)

  /** Everything a walk is run with: the connector, the chain and `max_breadth`. */
  datatype Setting = Setting(connector: Connector, chain: Chain, breadth: nat) {
    function Norms(addresses: seq<string>): (ns: seq<string>)
      ensures |ns| == |addresses|
      ensures forall i :: 0 <= i < |ns| ==> ns[i] == NormalizeAddress(chain, addresses[i])
    {
      seq(|addresses|, i requires 0 <= i < |addresses| => NormalizeAddress(chain, addresses[i]))
    }

    function Call(address: string): Fetch { connector(address, breadth) }

    /** Money moves from `address` to `to` in a transaction returned for `address`. */
    ghost predicate Spends(address: string, to: string) {
      Call(address).Fetched? && exists tx :: tx in Call(address).txs && SpendsIn(tx, address, to)
    }

    predicate SpendsIn(tx: Tx, address: string, to: string) {
      address in Norms(tx.inputs) && to in Norms(tx.outputs)
    }

    /** A walk of spends. */
    ghost predicate Walk(w: seq<string>) {
      |w| > 0 && forall i :: 0 < i < |w| ==> Spends(w[i - 1], w[i])
    }

    /** `a` ends a walk of exactly `d` spends from `root`. */
    ghost predicate Reached(root: string, a: string, d: nat) {
      exists w: seq<string> :: Walk(w) && |w| == d + 1 && w[0] == root && w[d] == a
    }

    /** `a` ends a walk of fewer than `n` spends from `root`. */
    ghost predicate Within(root: string, a: string, n: nat) {
      exists d: nat :: d < n && Reached(root, a, d)
    }

    /** `d` is the spend-distance of `a` from `root`. */
    ghost predicate Distance(root: string, a: string, d: nat) {
      Reached(root, a, d) && !Within(root, a, d)
    }
  }

  // ---------------------------------------------------------------------------
  // Facts about walks
  // ---------------------------------------------------------------------------

  lemma RootReached(s: Setting, root: string)
    ensures s.Reached(root, root, 0)
  {
    assert s.Walk([root]);
  }

  lemma ReachedAtZero(s: Setting, root: string, a: string)
    requires s.Reached(root, a, 0)
    ensures a == root
  {}

  lemma OneMoreSpend(s: Setting, root: string, a: string, b: string, d: nat)
    requires s.Reached(root, a, d) && s.Spends(a, b)
    ensures s.Reached(root, b, d + 1)
  {
    var w: seq<string> :| s.Walk(w) && |w| == d + 1 && w[0] == root && w[d] == a;
    assert s.Walk(w + [b]);
    assert (w + [b])[d + 1] == b;
  }

  lemma LastSpend(s: Setting, root: string, b: string, d: nat) returns (a: string)
    requires s.Reached(root, b, d + 1)
    ensures s.Reached(root, a, d) && s.Spends(a, b)
  {
    var w: seq<string> :| s.Walk(w) && |w| == d + 2 && w[0] == root && w[d + 1] == b;
    a := w[d];
    assert s.Walk(w[..d + 1]);
    assert w[..d + 1][d] == a;
  }

  /** Once a level adds nothing, no later level does. */
  lemma {:induction false} NothingBeyond(s: Setting, root: string, n: nat, d: nat, a: string)
    requires n <= d && s.Reached(root, a, d)
    requires forall b :: s.Reached(root, b, n) ==> s.Within(root, b, n)
    ensures s.Within(root, a, n)
    decreases d
  {
    if d > n {
      var p := LastSpend(s, root, a, d - 1);
      NothingBeyond(s, root, n, d - 1, p);
      var e: nat :| e < n && s.Reached(root, p, e);
      OneMoreSpend(s, root, p, a, e);
      if e + 1 == n { assert s.Within(root, a, n); } else { assert s.Within(root, a, n); }
    }
  }

  // ---------------------------------------------------------------------------
  // The log of calls
  // ---------------------------------------------------------------------------

  ghost predicate Called(log: seq<Visit>, a: string) {
    exists i :: 0 <= i < |log| && log[i].address == a
  }

  /** No address is fetched twice. */
  ghost predicate Distinct(log: seq<Visit>) {
    forall i, j :: 0 <= i < j < |log| ==> log[i].address != log[j].address
  }

  ghost predicate Sound(s: Setting, root: string, log: seq<Visit>, depth: nat) {
    forall i :: 0 <= i < |log| ==> log[i].depth < depth && s.Reached(root, log[i].address, log[i].depth)
  }

  /** Every call was made at its address's spend-distance. */
  ghost predicate AtDistance(s: Setting, root: string, log: seq<Visit>) {
    forall i :: 0 <= i < |log| ==> s.Distance(root, log[i].address, log[i].depth)
  }

  /** Transactions in the order the calls returned them. */
  ghost function Returned(s: Setting, log: seq<Visit>): seq<Tx> {
    if log == [] then []
    else Returned(s, log[..|log| - 1])
         + (match s.Call(log[|log| - 1].address) case Failed => [] case Fetched(txs) => txs)
  }

  /** How many outputs the transactions list. */
  function OutputCount(txs: seq<Tx>): nat {
    if txs == [] then 0 else OutputCount(txs[..|txs| - 1]) + |txs[|txs| - 1].outputs|
  }

  lemma {:induction false} OutputCountAppend(a: seq<Tx>, b: seq<Tx>)
    ensures OutputCount(a + b) == OutputCount(a) + OutputCount(b)
    decreases |b|
  {
    if b == [] {
      assert a + b == a;
    } else {
      assert (a + b)[..|a + b| - 1] == a + b[..|b| - 1];
      OutputCountAppend(a, b[..|b| - 1]);
    }
  }

  predicate SameKey(a: Tx, b: Tx) { a.chain == b.chain && a.txid == b.txid }

  predicate HasKey(txs: seq<Tx>, tx: Tx) {
    exists i :: 0 <= i < |txs| && SameKey(txs[i], tx)
  }

  /** `collected` as a dictionary in insertion order: the first transaction of each key, in the
      order the keys first appear. */
  function FirstOfEach(txs: seq<Tx>): seq<Tx> {
    if txs == [] then [] else
    var before := FirstOfEach(txs[..|txs| - 1]);
    if HasKey(before, txs[|txs| - 1]) then before else before + [txs[|txs| - 1]]
  }

  // ---------------------------------------------------------------------------
  // One call's transactions
  // ---------------------------------------------------------------------------

  /** Everything the transactions send on from `address` that has not been seen. */
  ghost predicate OutputsOf(s: Setting, address: string, txs: seq<Tx>, seen: set<string>, found: seq<string>) {
    forall x :: x in found <==> x !in seen && exists tx :: tx in txs && s.SpendsIn(tx, address, x)
  }

  /** The names that have not been seen, in order and with repeats. */
  function Unknown(names: seq<string>, seen: set<string>): seq<string> {
    if names == [] then []
    else Unknown(names[..|names| - 1], seen) + (if names[|names| - 1] in seen then [] else [names[|names| - 1]])
  }

  /** What one transaction queues: its unseen outputs, if `address` spent into it. */
  function QueuedBy(s: Setting, address: string, tx: Tx, seen: set<string>): seq<string> {
    if address in s.Norms(tx.inputs) then Unknown(s.Norms(tx.outputs), seen) else []
  }

  /** What a list of transactions queues, in the order they were returned. */
  function QueuedByAll(s: Setting, address: string, txs: seq<Tx>, seen: set<string>): seq<string> {
    if txs == [] then []
    else QueuedByAll(s, address, txs[..|txs| - 1], seen) + QueuedBy(s, address, txs[|txs| - 1], seen)
  }

  lemma NoneUnknown(seen: set<string>)
    ensures Unknown([], seen) == []
  {}

  lemma UnknownLast(names: seq<string>, n: nat, seen: set<string>)
    requires n < |names|
    ensures Unknown(names[..n + 1], seen) == Unknown(names[..n], seen) + (if names[n] in seen then [] else [names[n]])
  {
    assert names[..n + 1][..n] == names[..n];
  }

  /** The loop over the transactions of one call. */
  method Scan(s: Setting, address: string, txs: seq<Tx>, seen: set<string>, collected: seq<Tx>, ghost all: seq<Tx>)
    returns (collected': seq<Tx>, found: seq<string>)
    requires collected == FirstOfEach(all)
    ensures collected' == FirstOfEach(all + txs)
    ensures found == QueuedByAll(s, address, txs, seen)
    ensures OutputsOf(s, address, txs, seen, found)
    ensures |found| <= OutputCount(txs)
  {
    collected', found := collected, [];
    NothingScanned(s, address, seen, all, txs);
    hide FirstOfEach, OutputsOf, QueuedByAll, OutputCount;
    for n := 0 to |txs|
      invariant collected' == FirstOfEach(all + txs[..n])
      invariant found == QueuedByAll(s, address, txs[..n], seen)
      invariant OutputsOf(s, address, txs[..n], seen, found)
      invariant |found| <= OutputCount(txs[..n])
    {
      var tx := txs[n];
      OneMoreTx(s, address, txs, n, seen, all);
      if !HasKey(collected', tx) {
        collected' := collected' + [tx];
      }
      var outs := FreshOutputs(s, address, tx, seen);
      OutputsGrow(s, address, txs[..n], tx, seen, found, outs);
      found := found + outs;
    }
    assert txs[..|txs|] == txs;
  }

  lemma NothingScanned(s: Setting, address: string, seen: set<string>, all: seq<Tx>, txs: seq<Tx>)
    ensures all + txs[..0] == all && QueuedByAll(s, address, txs[..0], seen) == []
    ensures OutputsOf(s, address, txs[..0], seen, []) && OutputCount(txs[..0]) == 0
  {}

  lemma OneMoreTx(s: Setting, address: string, txs: seq<Tx>, n: nat, seen: set<string>, all: seq<Tx>)
    requires n < |txs|
    ensures txs[..n + 1] == txs[..n] + [txs[n]]
    ensures FirstOfEach(all + txs[..n + 1])
         == var before := FirstOfEach(all + txs[..n]); if HasKey(before, txs[n]) then before else before + [txs[n]]
    ensures QueuedByAll(s, address, txs[..n + 1], seen)
         == QueuedByAll(s, address, txs[..n], seen) + QueuedBy(s, address, txs[n], seen)
    ensures OutputCount(txs[..n + 1]) == OutputCount(txs[..n]) + |txs[n].outputs|
  {
    var upTo := all + txs[..n + 1];
    assert upTo[..|upTo| - 1] == all + txs[..n] && upTo[|upTo| - 1] == txs[n];
    assert txs[..n + 1][..n] == txs[..n];
  }

  lemma OutputsGrow(s: Setting, address: string, txs: seq<Tx>, tx: Tx, seen: set<string>,
                    found: seq<string>, outs: seq<string>)
    requires OutputsOf(s, address, txs, seen, found)
    requires OutputsOf(s, address, [tx], seen, outs)
    ensures OutputsOf(s, address, txs + [tx], seen, found + outs)
  {
    forall x
      ensures x in found + outs
         <==> x !in seen && exists t :: t in txs + [tx] && s.SpendsIn(t, address, x)
    {
      if x in found {
        var t :| t in txs && s.SpendsIn(t, address, x);
        assert t in txs + [tx];
      }
      if x in outs {
        assert tx in txs + [tx];
      }
    }
  }

  /** The outputs of one transaction, if `address` spent into it. */
  method FreshOutputs(s: Setting, address: string, tx: Tx, seen: set<string>) returns (outs: seq<string>)
    ensures outs == QueuedBy(s, address, tx, seen)
    ensures OutputsOf(s, address, [tx], seen, outs)
    ensures |outs| <= |tx.outputs|
  {
    outs := [];
    hide OutputsOf, Unknown;
    NoneUnknown(seen);
    if address in s.Norms(tx.inputs) {
      var norms := s.Norms(tx.outputs);
      for i := 0 to |norms|
        invariant outs == Unknown(norms[..i], seen)
        invariant forall x :: x in outs <==> x in norms[..i] && x !in seen
        invariant |outs| <= i
      {
        UnknownLast(norms, i, seen);
        assert norms[..i + 1] == norms[..i] + [norms[i]];
        if norms[i] !in seen {
          outs := outs + [norms[i]];
        }
      }
      assert norms[..|norms|] == norms;
    }
    OutputsOfOne(s, address, tx, seen, outs);
  }

  lemma OutputsOfOne(s: Setting, address: string, tx: Tx, seen: set<string>, outs: seq<string>)
    requires forall x :: x in outs <==> address in s.Norms(tx.inputs) && x in s.Norms(tx.outputs) && x !in seen
    ensures OutputsOf(s, address, [tx], seen, outs)
  {
    forall x ensures s.SpendsIn(tx, address, x) <==> address in s.Norms(tx.inputs) && x in s.Norms(tx.outputs) {}
    assert tx in [tx];
  }

  // ---------------------------------------------------------------------------
  // One level
  // ---------------------------------------------------------------------------

  /** The walk's variables agree with the log of its calls. */
  ghost predicate Books(seen: set<string>, log: seq<Visit>, calls: nat) {
    && Distinct(log)
    && |log| == calls
    && forall a :: a in seen <==> Called(log, a)
  }

  /** The part of the log written at this level. */
  ghost predicate LevelLog(s: Setting, root: string, depth: nat, seen0: set<string>, log0: seq<Visit>, log: seq<Visit>) {
    && log0 <= log
    && forall i :: |log0| <= i < |log| ==>
         log[i].depth == depth && s.Reached(root, log[i].address, depth) && log[i].address !in seen0
  }

  /** Everything spent onwards by the addresses first called at this level is called or queued. */
  ghost predicate Followed(s: Setting, before: set<string>, seen: set<string>, next: seq<string>) {
    forall a, b :: a in seen && a !in before && s.Spends(a, b) ==> b in seen || b in next
  }

  ghost predicate AllReached(s: Setting, root: string, frontier: seq<string>, depth: nat) {
    forall i :: 0 <= i < |frontier| ==> s.Reached(root, frontier[i], depth)
  }

  lemma BooksGrow(seen: set<string>, log: seq<Visit>, calls: nat, v: Visit)
    requires Books(seen, log, calls) && v.address !in seen
    ensures Books(seen + {v.address}, log + [v], calls + 1)
  {
    var log' := log + [v];
    assert log'[|log|].address == v.address;
    forall a ensures Called(log', a) <==> Called(log, a) || a == v.address {
      if Called(log, a) {
        var i :| 0 <= i < |log| && log[i].address == a;
        assert log'[i].address == a;
      }
    }
    forall i, j | 0 <= i < j < |log'| ensures log'[i].address != log'[j].address {
      if j == |log| { assert Called(log, log[i].address); }
    }
  }

  lemma LevelLogGrows(s: Setting, root: string, depth: nat, seen0: set<string>, log0: seq<Visit>, log: seq<Visit>,
                      address: string)
    requires LevelLog(s, root, depth, seen0, log0, log)
    requires s.Reached(root, address, depth) && address !in seen0
    ensures LevelLog(s, root, depth, seen0, log0, log + [Visit(address, depth)])
    ensures (log + [Visit(address, depth)])[..|log|] == log
  {}

  ghost function Members(names: seq<string>): set<string> { set a | a in names }

  /** The addresses of a frontier that are new, each once, in order: whom a level calls. */
  function Unseen(frontier: seq<string>, seen: set<string>): seq<string> {
    if frontier == [] then []
    else
      var before, a := Unseen(frontier[..|frontier| - 1], seen), frontier[|frontier| - 1];
      if a in seen || a in before then before else before + [a]
  }

  /** What one call queues, with everything called so far known. */
  function QueuedByCall(s: Setting, address: string, seen: set<string>): seq<string> {
    match s.Call(address)
    case Failed => []
    case Fetched(txs) => QueuedByAll(s, address, txs, seen)
  }

  /** What the calls of a level queue, given the addresses called before the level. */
  ghost function Queued(s: Setting, seen: set<string>, called: seq<string>): seq<string> {
    if called == [] then []
    else Queued(s, seen, called[..|called| - 1]) + QueuedByCall(s, called[|called| - 1], seen + Members(called))
  }

  function Visits(called: seq<string>, depth: nat): (log: seq<Visit>)
    ensures |log| == |called| && forall i :: 0 <= i < |log| ==> log[i] == Visit(called[i], depth)
  {
    seq(|called|, i requires 0 <= i < |called| => Visit(called[i], depth))
  }

  /** How far a level has come: the first `i` addresses of its frontier are dealt with. */
  ghost predicate LevelState(s: Setting, frontier: seq<string>, i: nat, depth: nat, seen0: set<string>, log0: seq<Visit>,
                             called: seq<string>, seen: set<string>, next: seq<string>, log: seq<Visit>)
    requires i <= |frontier|
  {
    && called == Unseen(frontier[..i], seen0)
    && seen == seen0 + Members(called)
    && next == Queued(s, seen0, called)
    && log == log0 + Visits(called, depth)
  }

  lemma LevelStarts(s: Setting, frontier: seq<string>, depth: nat, seen0: set<string>, log0: seq<Visit>)
    ensures LevelState(s, frontier, 0, depth, seen0, log0, [], seen0, [], log0)
  {}

  lemma LevelSkips(s: Setting, frontier: seq<string>, i: nat, depth: nat, seen0: set<string>, log0: seq<Visit>,
                   called: seq<string>, seen: set<string>, next: seq<string>, log: seq<Visit>)
    requires i < |frontier| && LevelState(s, frontier, i, depth, seen0, log0, called, seen, next, log)
    requires frontier[i] in seen
    ensures LevelState(s, frontier, i + 1, depth, seen0, log0, called, seen, next, log)
  {
    assert frontier[..i + 1][..i] == frontier[..i];
  }

  lemma LevelCalls(s: Setting, frontier: seq<string>, i: nat, depth: nat, seen0: set<string>, log0: seq<Visit>,
                   called: seq<string>, seen: set<string>, next: seq<string>, log: seq<Visit>)
    requires i < |frontier| && LevelState(s, frontier, i, depth, seen0, log0, called, seen, next, log)
    requires frontier[i] !in seen
    ensures var a := frontier[i];
            LevelState(s, frontier, i + 1, depth, seen0, log0, called + [a], seen + {a},
                       next + QueuedByCall(s, a, seen + {a}), log + [Visit(a, depth)])
  {
    var a := frontier[i];
    assert frontier[..i + 1][..i] == frontier[..i];
    var called' := called + [a];
    assert called'[..|called|] == called;
    assert Members(called') == Members(called) + {a};
    assert seen0 + Members(called') == seen + {a};
  }

  lemma {:induction false} UnseenGrows(frontier: seq<string>, i: nat, seen: set<string>)
    requires i <= |frontier|
    ensures Unseen(frontier[..i], seen) <= Unseen(frontier, seen)
    decreases |frontier| - i
  {
    if i == |frontier| {
      assert frontier[..i] == frontier;
    } else {
      assert frontier[..i + 1][..i] == frontier[..i];
      UnseenGrows(frontier, i + 1, seen);
    }
  }

  /** Out of budget: the calls made are a proper beginning of those due. */
  lemma LevelStops(s: Setting, frontier: seq<string>, i: nat, depth: nat, seen0: set<string>, log0: seq<Visit>,
                   called: seq<string>, seen: set<string>, next: seq<string>, log: seq<Visit>)
    requires i < |frontier| && LevelState(s, frontier, i, depth, seen0, log0, called, seen, next, log)
    requires frontier[i] !in seen
    ensures called < Unseen(frontier, seen0)
  {
    assert frontier[..i + 1][..i] == frontier[..i];
    UnseenGrows(frontier, i + 1, seen0);
  }

  /** The loop over one frontier. */
  method ExpandLevel(s: Setting, root: string, depth: nat, frontier: seq<string>, budget: nat,
                     seen0: set<string>, collected0: seq<Tx>, calls0: nat, ghost log0: seq<Visit>)
    returns (next: seq<string>, seen: set<string>, collected: seq<Tx>, calls: nat, exhausted: bool, ghost log: seq<Visit>,
             ghost called: seq<string>)
    requires Books(seen0, log0, calls0) && collected0 == FirstOfEach(Returned(s, log0))
    requires AllReached(s, root, frontier, depth) && calls0 <= budget
    ensures Books(seen, log, calls) && collected == FirstOfEach(Returned(s, log))
    ensures LevelLog(s, root, depth, seen0, log0, log)
    ensures calls <= budget && calls <= calls0 + |frontier|
    ensures AllReached(s, root, next, depth + 1)
    ensures Followed(s, seen0, seen, next)
    ensures seen0 <= seen
    ensures !exhausted ==> forall a :: a in frontier ==> a in seen
    ensures exhausted ==> exists a :: a in frontier && a !in seen
    ensures exhausted ==> calls == budget
    ensures |next| <= OutputCount(Returned(s, log))
    // whom the level calls, and what it queues, in order
    ensures if exhausted then called < Unseen(frontier, seen0) else called == Unseen(frontier, seen0)
    ensures log == log0 + Visits(called, depth) && seen == seen0 + Members(called)
    ensures next == Queued(s, seen0, called)
  {
    hide Books, LevelLog, Followed, AllReached, FirstOfEach, OutputsOf, Returned, OutputCount, LevelState, Unseen, Queued,
         QueuedByAll, Visits;
    next, seen, collected, calls, exhausted, log, called := [], seen0, collected0, calls0, false, log0, [];
    NothingYet(s, root, depth, seen0, log0);
    LevelStarts(s, frontier, depth, seen0, log0);
    for i := 0 to |frontier|
      invariant Books(seen, log, calls) && collected == FirstOfEach(Returned(s, log))
      invariant LevelLog(s, root, depth, seen0, log0, log)
      invariant calls <= budget && calls <= calls0 + i
      invariant AllReached(s, root, next, depth + 1)
      invariant Followed(s, seen0, seen, next)
      invariant seen0 <= seen
      invariant forall j :: 0 <= j < i ==> frontier[j] in seen
      invariant |next| <= OutputCount(Returned(s, log))
      invariant LevelState(s, frontier, i, depth, seen0, log0, called, seen, next, log)
    {
      var address := frontier[i];
      if address in seen {
        LevelSkips(s, frontier, i, depth, seen0, log0, called, seen, next, log);
        continue;
      }
      if calls >= budget {
        LevelStops(s, frontier, i, depth, seen0, log0, called, seen, next, log);
        LevelMeans(s, frontier, i, depth, seen0, log0, called, seen, next, log);
        exhausted := true;
        return;
      }
      LevelCalls(s, frontier, i, depth, seen0, log0, called, seen, next, log);
      ghost var logBefore := log;
      BooksGrow(seen, log, calls, Visit(address, depth));
      AtDepth(s, root, frontier, depth, i);
      LevelLogGrows(s, root, depth, seen0, log0, log, address);
      var seenBefore := seen;
      seen := seen + {address};
      called := called + [address];
      log := log + [Visit(address, depth)];
      calls := calls + 1;
      ReturnedStep(s, logBefore, Visit(address, depth));
      match s.Call(address) {
        case Failed =>
          FailedFollows(s, seen0, seenBefore, next, address);
          assert next + QueuedByCall(s, address, seen) == next;
        case Fetched(txs) =>
          var found;
          collected, found := Scan(s, address, txs, seen, collected, Returned(s, logBefore));
          QueueFound(s, root, depth, address, txs, seenBefore, next, found, seen0);
          OutputCountAppend(Returned(s, logBefore), txs);
          next := next + found;
      }
    }
    LevelMeans(s, frontier, |frontier|, depth, seen0, log0, called, seen, next, log);
  }

  lemma LevelMeans(s: Setting, frontier: seq<string>, i: nat, depth: nat, seen0: set<string>, log0: seq<Visit>,
                   called: seq<string>, seen: set<string>, next: seq<string>, log: seq<Visit>)
    requires i <= |frontier| && LevelState(s, frontier, i, depth, seen0, log0, called, seen, next, log)
    ensures log == log0 + Visits(called, depth) && seen == seen0 + Members(called)
    ensures next == Queued(s, seen0, called)
    ensures i == |frontier| ==> called == Unseen(frontier, seen0)
  {
    assert frontier[..|frontier|] == frontier;
  }

  lemma NothingYet(s: Setting, root: string, depth: nat, seen0: set<string>, log0: seq<Visit>)
    ensures LevelLog(s, root, depth, seen0, log0, log0)
    ensures AllReached(s, root, [], depth + 1) && Followed(s, seen0, seen0, [])
  {}

  lemma ReturnedStep(s: Setting, log: seq<Visit>, v: Visit)
    ensures Returned(s, log + [v])
         == match s.Call(v.address) case Failed => Returned(s, log) case Fetched(txs) => Returned(s, log) + txs
  {
    assert (log + [v])[..|log|] == log;
  }

  lemma AtDepth(s: Setting, root: string, frontier: seq<string>, depth: nat, i: nat)
    requires AllReached(s, root, frontier, depth) && i < |frontier|
    ensures s.Reached(root, frontier[i], depth)
  {}

  lemma FailedFollows(s: Setting, seen0: set<string>, seen: set<string>, next: seq<string>, address: string)
    requires s.Call(address).Failed? && Followed(s, seen0, seen, next)
    ensures Followed(s, seen0, seen + {address}, next)
  {}

  lemma QueueFound(s: Setting, root: string, depth: nat, address: string, txs: seq<Tx>, seen: set<string>,
                   next: seq<string>, found: seq<string>, seen0: set<string>)
    requires s.Call(address) == Fetched(txs) && s.Reached(root, address, depth)
    requires OutputsOf(s, address, txs, seen + {address}, found)
    requires AllReached(s, root, next, depth + 1) && Followed(s, seen0, seen, next)
    ensures AllReached(s, root, next + found, depth + 1)
    ensures Followed(s, seen0, seen + {address}, next + found)
  {
    forall i | 0 <= i < |found| ensures s.Reached(root, found[i], depth + 1) {
      assert found[i] in found;
      var tx :| tx in txs && s.SpendsIn(tx, address, found[i]);
      assert s.Spends(address, found[i]);
      OneMoreSpend(s, root, address, found[i], depth);
    }
    forall a, b | a in seen + {address} && a !in seen0 && s.Spends(a, b)
      ensures b in seen + {address} || b in next + found
    {
      if a == address {
        var tx :| tx in txs && s.SpendsIn(tx, address, b);
      }
    }
  }

  // ---------------------------------------------------------------------------
  // The whole walk
  // ---------------------------------------------------------------------------

  /** The calls so far are exactly the addresses fewer than `depth` spends away, each made at its
      spend-distance. */
  ghost predicate Exact(s: Setting, root: string, log: seq<Visit>, depth: nat) {
    && AtDistance(s, root, log)
    && forall a :: Called(log, a) <==> s.Within(root, a, depth)
  }

  /** Nothing at distance `depth` is missing from the frontier. */
  ghost predicate Covered(s: Setting, root: string, seen: set<string>, frontier: seq<string>, depth: nat) {
    forall a :: s.Reached(root, a, depth) ==> a in seen || a in frontier
  }

  lemma SoundGrows(s: Setting, root: string, depth: nat, seen0: set<string>, log0: seq<Visit>, log: seq<Visit>)
    requires Sound(s, root, log0, depth) && LevelLog(s, root, depth, seen0, log0, log)
    ensures Sound(s, root, log, depth + 1)
  {
    forall i | 0 <= i < |log| ensures log[i].depth < depth + 1 && s.Reached(root, log[i].address, log[i].depth) {
      if i < |log0| { assert log[i] == log0[i]; }
    }
  }

  /** One complete level keeps the walk exact. */
  lemma ExactGrows(s: Setting, root: string, depth: nat, frontier: seq<string>, seen0: set<string>, log0: seq<Visit>,
                   calls0: nat, next: seq<string>, seen: set<string>, log: seq<Visit>, calls: nat)
    requires Books(seen0, log0, calls0) && Books(seen, log, calls) && seen0 <= seen
    requires LevelLog(s, root, depth, seen0, log0, log) && Followed(s, seen0, seen, next)
    requires forall a :: a in frontier ==> a in seen
    requires Exact(s, root, log0, depth) && Covered(s, root, seen0, frontier, depth)
    ensures Exact(s, root, log, depth + 1)
    ensures Covered(s, root, seen, next, depth + 1)
  {
    ExactLevel(s, root, depth, seen0, log0, calls0, log);
    forall a ensures Called(log, a) <==> s.Within(root, a, depth + 1) {
      if s.Within(root, a, depth + 1) {
        var d: nat :| d < depth + 1 && s.Reached(root, a, d);
        if d < depth { assert s.Within(root, a, depth); assert a in seen0; }
      }
      if Called(log, a) {
        var i :| 0 <= i < |log| && log[i].address == a;
        assert s.Reached(root, a, log[i].depth);
        if i < |log0| { assert log0[i].address == a; assert s.Within(root, a, depth); WithinGrows(s, root, a, depth); }
      }
    }
    forall b | s.Reached(root, b, depth + 1) ensures b in seen || b in next {
      var a := LastSpend(s, root, b, depth);
      if a in seen0 {
        var d: nat :| d < depth && s.Reached(root, a, d);
        OneMoreSpend(s, root, a, b, d);
        assert s.Within(root, b, depth + 1);
      } else {
        assert a in seen;
      }
    }
  }

  lemma WithinGrows(s: Setting, root: string, a: string, n: nat)
    requires s.Within(root, a, n)
    ensures s.Within(root, a, n + 1)
  {}

  lemma ExactLevel(s: Setting, root: string, depth: nat, seen0: set<string>, log0: seq<Visit>, calls0: nat, log: seq<Visit>)
    requires Books(seen0, log0, calls0) && LevelLog(s, root, depth, seen0, log0, log)
    requires Exact(s, root, log0, depth)
    ensures AtDistance(s, root, log)
  {
    forall i | 0 <= i < |log| ensures s.Distance(root, log[i].address, log[i].depth) {
      if i < |log0| {
        assert log[i] == log0[i];
      } else {
        assert log[i].address !in seen0;
      }
    }
  }

  /** With an empty frontier the exact set is already everything within any depth. */
  lemma ExactForever(s: Setting, root: string, seen: set<string>, log: seq<Visit>, calls: nat, depth: nat, n: nat)
    requires Books(seen, log, calls) && Exact(s, root, log, depth) && Covered(s, root, seen, [], depth)
    requires depth <= n
    ensures Exact(s, root, log, n)
  {
    forall a ensures Called(log, a) <==> s.Within(root, a, n) {
      if s.Within(root, a, n) {
        var d: nat :| d < n && s.Reached(root, a, d);
        if d >= depth {
          forall b | s.Reached(root, b, depth) ensures s.Within(root, b, depth) { assert b in seen; }
          NothingBeyond(s, root, depth, d, a);
        } else {
          assert s.Within(root, a, depth);
        }
      }
      if s.Within(root, a, depth) {
        var d: nat :| d < depth && s.Reached(root, a, d);
        assert d < n;
      }
    }
  }

  /** The most calls a walk of `depth` levels can make: the root, then two per unit of breadth a level. */
  function CallBound(depth: nat, breadth: nat): nat {
    if depth == 0 then 0 else if depth == 1 then 1 else CallBound(depth - 1, breadth) + 2 * breadth
  }

  lemma {:induction false} CallBoundClosed(depth: nat, breadth: nat)
    ensures CallBound(depth, breadth) == if depth == 0 then 0 else 1 + (depth - 1) * (2 * breadth)
  {
    if depth > 1 {
      CallBoundClosed(depth - 1, breadth);
      assert (depth - 1) * (2 * breadth) == (depth - 2) * (2 * breadth) + 2 * breadth;
    }
  }

  lemma {:induction false} CallBoundGrows(depth: nat, depth': nat, breadth: nat)
    requires depth <= depth'
    ensures CallBound(depth, breadth) <= CallBound(depth', breadth)
  {
    if depth < depth' { CallBoundGrows(depth, depth' - 1, breadth); }
  }

  function Max(a: int, b: int): int { if a >= b then a else b }

  /** One level of a walk: whom it was given, whom it called, and what it queued. */
  datatype Level = Level(frontier: seq<string>, called: seq<string>, queued: seq<string>)

  function First(names: seq<string>, n: nat): seq<string> { if |names| > n then names[..n] else names }

  /** Everyone called in some levels. */
  ghost function CalledIn(levels: seq<Level>): set<string> {
    if levels == [] then {} else CalledIn(levels[..|levels| - 1]) + Members(levels[|levels| - 1].called)
  }

  function LogOf(levels: seq<Level>): seq<Visit> {
    if levels == [] then [] else LogOf(levels[..|levels| - 1]) + Visits(levels[|levels| - 1].called, |levels| - 1)
  }

  /** The frontier after some levels: the root, then the first `2 * breadth` of what the last level queued. */
  function Due(s: Setting, root: string, levels: seq<Level>): seq<string> {
    if levels == [] then [root] else First(levels[|levels| - 1].queued, 2 * s.breadth)
  }

  /** Level `d` calls everyone it was given who is new, in order, and queues every unseen output of the
      transactions they spent into; a level that ran out of budget calls a proper beginning of them. */
  ghost predicate LevelDone(s: Setting, root: string, levels: seq<Level>, d: nat, outOfBudget: bool)
    requires d < |levels|
  {
    var l, before := levels[d], CalledIn(levels[..d]);
    && l.frontier == Due(s, root, levels[..d])
    && l.queued == Queued(s, before, l.called)
    && if outOfBudget then l.called < Unseen(l.frontier, before) else l.called == Unseen(l.frontier, before)
  }

  /** The levels of a walk, one after the other. */
  ghost predicate Trail(s: Setting, root: string, levels: seq<Level>, exhausted: bool) {
    && (forall d :: 0 <= d < |levels| - 1 ==> LevelDone(s, root, levels, d, false))
    && (levels != [] ==> LevelDone(s, root, levels, |levels| - 1, exhausted))
  }

  /** Some level queued more than the next one was given. */
  ghost predicate SomeCut(s: Setting, levels: seq<Level>) {
    exists d :: 0 <= d < |levels| && |levels[d].queued| > 2 * s.breadth
  }

  function HopsOf(levels: seq<Level>): nat {
    if levels == [] then 0 else if levels[|levels| - 1].queued != [] then |levels| else |levels| - 1
  }

  lemma LevelAdded(s: Setting, root: string, levels: seq<Level>, l: Level, exhausted: bool)
    requires Trail(s, root, levels, false) && l.frontier == Due(s, root, levels)
    requires l.queued == Queued(s, CalledIn(levels), l.called)
    requires if exhausted then l.called < Unseen(l.frontier, CalledIn(levels))
             else l.called == Unseen(l.frontier, CalledIn(levels))
    ensures Trail(s, root, levels + [l], exhausted)
    ensures CalledIn(levels + [l]) == CalledIn(levels) + Members(l.called)
    ensures LogOf(levels + [l]) == LogOf(levels) + Visits(l.called, |levels|)
    ensures SomeCut(s, levels + [l]) <==> SomeCut(s, levels) || |l.queued| > 2 * s.breadth
  {
    hide Due, Unseen, Queued, Visits, SomeCut;
    var after := levels + [l];
    assert after[..|levels|] == levels && after[|levels|] == l;
    forall d | 0 <= d < |levels| ensures LevelDone(s, root, after, d, false) {
      assert after[..d] == levels[..d] && after[d] == levels[d];
      assert LevelDone(s, root, levels, d, false);
    }
    CutGrows(s, levels, l);
  }

  lemma CutGrows(s: Setting, levels: seq<Level>, l: Level)
    ensures SomeCut(s, levels + [l]) <==> SomeCut(s, levels) || |l.queued| > 2 * s.breadth
  {
    var after := levels + [l];
    assert after[|levels|] == l;
    if SomeCut(s, levels) {
      var d :| 0 <= d < |levels| && |levels[d].queued| > 2 * s.breadth;
      assert after[d] == levels[d];
    }
    if SomeCut(s, after) {
      var d :| 0 <= d < |after| && |after[d].queued| > 2 * s.breadth;
      assert d < |levels| ==> after[d] == levels[d];
    }
  }

  /** Where the walk stands after some levels. */
  ghost predicate OnTrail(s: Setting, root: string, levels: seq<Level>, exhausted: bool, truncated: bool, hops: nat,
                          log: seq<Visit>, seen: set<string>, frontier: seq<string>) {
    && Trail(s, root, levels, exhausted) && log == LogOf(levels) && seen == CalledIn(levels)
    && frontier == Due(s, root, levels) && (truncated <==> SomeCut(s, levels)) && hops == HopsOf(levels)
  }

  lemma TrailStarts(s: Setting, root: string)
    ensures OnTrail(s, root, [], false, false, 0, [], {}, [root])
  {}

  lemma TrailGoesOn(s: Setting, root: string, levels: seq<Level>, truncated: bool, hops: nat, log: seq<Visit>,
                    seen: set<string>, frontier: seq<string>, called: seq<string>, next: seq<string>, exhausted: bool)
    requires OnTrail(s, root, levels, false, truncated, hops, log, seen, frontier)
    requires next == Queued(s, seen, called)
    requires if exhausted then called < Unseen(frontier, seen) else called == Unseen(frontier, seen)
    ensures OnTrail(s, root, levels + [Level(frontier, called, next)], exhausted, truncated || |next| > s.breadth * 2,
                    if next != [] then |levels| + 1 else |levels|, log + Visits(called, |levels|), seen + Members(called),
                    if |next| > s.breadth * 2 then next[..s.breadth * 2] else next)
  {
    hide Trail, LogOf, CalledIn, Queued, Unseen, Visits, SomeCut;
    LevelAdded(s, root, levels, Level(frontier, called, next), exhausted);
  }

  lemma TrailMeans(s: Setting, root: string, levels: seq<Level>, exhausted: bool, truncated: bool, hops: nat,
                   log: seq<Visit>, seen: set<string>, frontier: seq<string>)
    requires OnTrail(s, root, levels, exhausted, truncated, hops, log, seen, frontier)
    ensures Trail(s, root, levels, exhausted) && log == LogOf(levels) && frontier == Due(s, root, levels)
    ensures (truncated <==> SomeCut(s, levels)) && hops == HopsOf(levels)
  {}

  /** `expand_money_flow`. `callBudget` is the configured connector budget. */
  method Expand(s: Setting, root: string, maxDepth: nat, callBudget: int)
    returns (r: Report, ghost log: seq<Visit>, ghost levels: seq<Level>)
    // every run, cut short or not
    ensures Distinct(log) && Sound(s, root, log, maxDepth)
    ensures r.upstreamCalls == r.addressesTouched == |log|
    ensures r.upstreamCalls <= Max(1, callBudget)
    ensures r.upstreamCalls <= if maxDepth == 0 then 0 else 1 + (maxDepth - 1) * (2 * s.breadth)
    ensures maxDepth > 0 ==> log != [] && log[0] == Visit(root, 0)
    ensures r.transactions == FirstOfEach(Returned(s, log))
    // the reported depth is reached, and no call was made beyond it
    ensures r.hopsDiscovered <= maxDepth
    ensures r.hopsDiscovered > 0 ==> exists a :: s.Reached(root, a, r.hopsDiscovered)
    ensures forall i :: 0 <= i < |log| ==> log[i].depth <= r.hopsDiscovered
    ensures r.complete == !(r.budgetExhausted || r.frontierTruncated)
    // a complete run is exact
    ensures r.complete ==> Exact(s, root, log, maxDepth)
    // a flag is raised only for its reason
    ensures r.budgetExhausted ==> r.upstreamCalls == Max(1, callBudget)
    ensures r.frontierTruncated ==> OutputCount(Returned(s, log)) > 2 * s.breadth
    // a run out of budget never is exact
    ensures r.budgetExhausted ==> exists a :: s.Within(root, a, maxDepth) && !Called(log, a)
    // cut short or not, the calls are those of the levels, in order, and the flags say what was left out
    ensures Trail(s, root, levels, r.budgetExhausted) && log == LogOf(levels)
    ensures |levels| <= maxDepth
    ensures |levels| < maxDepth ==> r.budgetExhausted || Due(s, root, levels) == []
    ensures r.frontierTruncated <==> SomeCut(s, levels)
    ensures r.hopsDiscovered == HopsOf(levels)
    ensures r.budgetExhausted ==> r.upstreamCalls == if callBudget > 1 then callBudget else 1
  {
    hide OnTrail, Trail, Due, SomeCut, LogOf, CalledIn, Queued, Unseen, Visits, HopsOf, Books, LevelLog, Followed, Exact, Covered, Sound, AtDistance, AllReached, FirstOfEach, Distinct, CallBound, Returned, OutputCount, NotBeyond;
    var seen: set<string>, frontier, collected: seq<Tx>, hops: nat := {}, [root], [], 0;
    var budget := Max(1, callBudget);
    var calls: nat, exhausted, truncated := 0, false, false;
    var depth := 0;
    log, levels := [], [];
    Start(s, root);
    TrailStarts(s, root);
    while depth < maxDepth && frontier != [] && !exhausted
      invariant depth <= maxDepth && hops <= depth
      invariant hops > 0 ==> exists a :: s.Reached(root, a, hops)
      invariant NotBeyond(log, hops)
      invariant frontier != [] ==> hops == depth
      invariant exhausted ==> calls == budget
      invariant truncated ==> OutputCount(Returned(s, log)) > 2 * s.breadth
      invariant Books(seen, log, calls) && collected == FirstOfEach(Returned(s, log))
      invariant Sound(s, root, log, depth)
      invariant AllReached(s, root, frontier, depth)
      invariant depth == 0 ==> hops == 0 && frontier == [root] && log == [] && seen == {} && !exhausted
      invariant depth > 0 ==> |frontier| <= 2 * s.breadth && log != [] && log[0] == Visit(root, 0)
      invariant calls <= budget
      invariant calls <= CallBound(depth, s.breadth)
      invariant !exhausted && !truncated ==> Exact(s, root, log, depth) && Covered(s, root, seen, frontier, depth)
      invariant exhausted ==> exists a :: s.Within(root, a, depth) && !Called(log, a)
      invariant |levels| == depth && OnTrail(s, root, levels, exhausted, truncated, hops, log, seen, frontier)
      decreases maxDepth - depth
    {
      ghost var seen0, log0, calls0 := seen, log, calls;
      var next;
      ghost var called;
      next, seen, collected, calls, exhausted, log, called :=
        ExpandLevel(s, root, depth, frontier, budget, seen, collected, calls, log);
      SoundGrows(s, root, depth, seen0, log0, log);
      LevelNotBeyond(s, root, depth, seen0, log0, log, hops);
      if truncated { OutputsKept(s, log0, log); }
      if !exhausted && !truncated {
        ExactGrows(s, root, depth, frontier, seen0, log0, calls0, next, seen, log, calls);
      }
      if exhausted { SomethingMissed(s, root, frontier, depth, seen, log, calls); }
      if depth == 0 {
        RootFirst(s, root, seen, log0, log, calls, exhausted);
      } else {
        KeepsFirst(s, root, depth, seen0, log0, log);
      }
      MoreCalls(depth, s.breadth, calls0, calls, |frontier|);
      if next != [] {
        FrontierReached(s, root, next, depth + 1);
        hops := depth + 1;
      }
      var cap := s.breadth * 2;
      TrailGoesOn(s, root, levels, truncated, depth, log0, seen0, frontier, called, next, exhausted);
      levels := levels + [Level(frontier, called, next)];
      if |next| > cap {
        KeepsSome(s, root, next, depth + 1, cap);
        next := next[..cap];
        truncated := true;
      }
      frontier := next;
      depth := depth + 1;
    }
    EndOfWalk(s, root, seen, frontier, log, calls, depth, maxDepth, exhausted, truncated);
    CallBoundGrows(depth, maxDepth, s.breadth);
    CallBoundClosed(maxDepth, s.breadth);
    CallsAreTouched(seen, log, calls);
    NotBeyondMeans(log, hops);
    TrailMeans(s, root, levels, exhausted, truncated, hops, log, seen, frontier);
    r := Report(collected, |seen|, hops, calls, exhausted, truncated, !(exhausted || truncated));
  }

  /** Everyone new is called once, nobody else is, and the order is that of the frontier. */
  lemma {:induction false} UnseenMeans(frontier: seq<string>, seen: set<string>)
    ensures forall a :: a in Unseen(frontier, seen) <==> a in frontier && a !in seen
    ensures forall i, j :: 0 <= i < j < |Unseen(frontier, seen)| ==> Unseen(frontier, seen)[i] != Unseen(frontier, seen)[j]
  {
    if frontier != [] {
      var init, last := frontier[..|frontier| - 1], frontier[|frontier| - 1];
      UnseenMeans(init, seen);
      assert forall a :: a in frontier <==> a in init || a == last;
    }
  }

  /** Truncation drops nothing but the end of the queue: unless the budget ran out at that level, each
      of the first `2 * breadth` outputs a level queued is called by the end of the next level. */
  lemma KeptAreCalled(s: Setting, root: string, levels: seq<Level>, exhausted: bool, d: nat, i: nat)
    requires Trail(s, root, levels, exhausted) && d + 1 < |levels| && (exhausted ==> d + 2 < |levels|)
    requires i < |levels[d].queued| && i < 2 * s.breadth
    ensures levels[d].queued[i] in CalledIn(levels[..d + 2])
  {
    hide Unseen, Queued, CalledIn;
    var l, before := levels[d + 1], CalledIn(levels[..d + 1]);
    assert levels[..d + 1][|levels[..d + 1]| - 1] == levels[d];
    assert LevelDone(s, root, levels, d + 1, false);
    assert l.frontier[i] == levels[d].queued[i];
    UnseenMeans(l.frontier, before);
    CalledSplit(levels, d + 1);
    assert l.frontier[i] in l.frontier;
  }

  lemma CalledSplit(levels: seq<Level>, d: nat)
    requires d < |levels|
    ensures CalledIn(levels[..d + 1]) == CalledIn(levels[..d]) + Members(levels[d].called)
  {
    assert levels[..d + 1][..d] == levels[..d];
  }

  /** The output was queued by one of the calls. */
  ghost predicate QueuedAt(s: Setting, seen: set<string>, called: seq<string>, x: string, i: nat) {
    i < |called| && x !in seen + Members(called[..i + 1]) && s.Spends(called[i], x)
  }

  /** What a level queues: the outputs its addresses spend to that were not called by then. */
  lemma {:induction false} QueuedMeans(s: Setting, seen: set<string>, called: seq<string>, x: string)
    ensures x in Queued(s, seen, called) <==> exists i: nat :: i < |called| && QueuedAt(s, seen, called, x, i)
  {
    if called == [] {
      assert Queued(s, seen, called) == [];
    } else {
      var n := |called| - 1;
      var init := called[..n];
      QueuedMeans(s, seen, init, x);
      LastQueued(s, seen, called, x);
      EarlierQueued(s, seen, called, x);
      hide *;
      if i: nat :| i < |init| && QueuedAt(s, seen, init, x, i) { assert QueuedAt(s, seen, called, x, i); }
      if i: nat :| i < |called| && QueuedAt(s, seen, called, x, i) { assert i < n ==> QueuedAt(s, seen, init, x, i); }
    }
  }

  lemma LastQueued(s: Setting, seen: set<string>, called: seq<string>, x: string)
    requires called != []
    ensures var n := |called| - 1;
            x in Queued(s, seen, called) <==> x in Queued(s, seen, called[..n]) || QueuedAt(s, seen, called, x, n)
  {
    var n := |called| - 1;
    assert called[..n + 1] == called;
    QueuedByCallMeans(s, called[n], seen + Members(called), x);
    hide QueuedByCall, Members;
  }

  lemma EarlierQueued(s: Setting, seen: set<string>, called: seq<string>, x: string)
    requires called != []
    ensures var n := |called| - 1;
            forall i: nat :: i < n ==> (QueuedAt(s, seen, called[..n], x, i) <==> QueuedAt(s, seen, called, x, i))
  {
    var n := |called| - 1;
    forall i | 0 <= i < n ensures called[..n][..i + 1] == called[..i + 1] && called[..n][i] == called[i] {}
  }

  lemma {:induction false} UnknownMeans(names: seq<string>, seen: set<string>, x: string)
    ensures x in Unknown(names, seen) <==> x in names && x !in seen
  {
    if names != [] {
      UnknownMeans(names[..|names| - 1], seen, x);
      assert x in names <==> x in names[..|names| - 1] || x == names[|names| - 1];
    }
  }

  lemma {:induction false} QueuedByAllMeans(s: Setting, a: string, txs: seq<Tx>, seen: set<string>, x: string)
    ensures x in QueuedByAll(s, a, txs, seen) <==> x !in seen && exists tx :: tx in txs && s.SpendsIn(tx, a, x)
  {
    if txs != [] {
      var init, last := txs[..|txs| - 1], txs[|txs| - 1];
      QueuedByAllMeans(s, a, init, seen, x);
      UnknownMeans(s.Norms(last.outputs), seen, x);
      assert x in QueuedBy(s, a, last, seen) <==> x !in seen && s.SpendsIn(last, a, x);
      hide QueuedBy;
      assert forall tx :: tx in txs <==> tx in init || tx == last;
    }
  }

  lemma QueuedByCallMeans(s: Setting, a: string, seen: set<string>, x: string)
    ensures x in QueuedByCall(s, a, seen) <==> x !in seen && s.Spends(a, x)
  {
    match s.Call(a)
    case Failed =>
    case Fetched(txs) => QueuedByAllMeans(s, a, txs, seen, x);
  }

  lemma Start(s: Setting, root: string)
    ensures Books({}, [], 0) && Sound(s, root, [], 0) && NotBeyond([], 0)
    ensures Returned(s, []) == [] && FirstOfEach([]) == []
    ensures AllReached(s, root, [root], 0)
    ensures Exact(s, root, [], 0) && Covered(s, root, {}, [root], 0)
  {
    RootReached(s, root);
  }

  lemma SomethingMissed(s: Setting, root: string, frontier: seq<string>, depth: nat, seen: set<string>,
                        log: seq<Visit>, calls: nat)
    requires Books(seen, log, calls) && AllReached(s, root, frontier, depth)
    requires exists a :: a in frontier && a !in seen
    ensures exists a :: s.Within(root, a, depth + 1) && !Called(log, a)
  {
    var a :| a in frontier && a !in seen;
    assert s.Within(root, a, depth + 1);
  }

  lemma MoreCalls(depth: nat, breadth: nat, before: nat, after: nat, width: nat)
    requires after <= before + width && before <= CallBound(depth, breadth)
    requires width <= if depth == 0 then 1 else 2 * breadth
    ensures after <= CallBound(depth + 1, breadth)
  {}

  ghost predicate NotBeyond(log: seq<Visit>, hops: nat) {
    forall i :: 0 <= i < |log| ==> log[i].depth <= hops
  }

  lemma NotBeyondMeans(log: seq<Visit>, hops: nat)
    requires NotBeyond(log, hops)
    ensures forall i :: 0 <= i < |log| ==> log[i].depth <= hops
  {}

  lemma LevelNotBeyond(s: Setting, root: string, depth: nat, seen0: set<string>, log0: seq<Visit>, log: seq<Visit>, hops: nat)
    requires LevelLog(s, root, depth, seen0, log0, log) && NotBeyond(log0, hops) && hops == depth
    ensures NotBeyond(log, hops) && NotBeyond(log, depth + 1) && log0 <= log
  {
    forall i | 0 <= i < |log| ensures log[i].depth <= hops {
      if i < |log0| { assert log[i] == log0[i]; }
    }
  }

  lemma FrontierReached(s: Setting, root: string, frontier: seq<string>, depth: nat)
    requires AllReached(s, root, frontier, depth) && frontier != []
    ensures exists a :: s.Reached(root, a, depth)
  {
    assert s.Reached(root, frontier[0], depth);
  }

  /** A longer log has returned at least as many outputs. */
  lemma {:induction false} OutputsKept(s: Setting, log0: seq<Visit>, log: seq<Visit>)
    requires log0 <= log
    ensures OutputCount(Returned(s, log0)) <= OutputCount(Returned(s, log))
    decreases |log|
  {
    if |log0| < |log| {
      var init := log[..|log| - 1];
      OutputsKept(s, log0, init);
      match s.Call(log[|log| - 1].address) {
        case Failed => assert Returned(s, log) == Returned(s, init);
        case Fetched(txs) => OutputCountAppend(Returned(s, init), txs);
      }
    } else {
      assert log0 == log;
    }
  }

  lemma KeepsSome(s: Setting, root: string, frontier: seq<string>, depth: nat, n: nat)
    requires AllReached(s, root, frontier, depth) && n <= |frontier|
    ensures AllReached(s, root, frontier[..n], depth)
  {}

  /** The first level calls for the root and nothing else. */
  lemma RootFirst(s: Setting, root: string, seen: set<string>, log0: seq<Visit>, log: seq<Visit>, calls: nat, exhausted: bool)
    requires Books(seen, log, calls) && LevelLog(s, root, 0, {}, log0, log) && log0 == []
    requires if exhausted then calls > 0 else root in seen
    ensures log != [] && log[0] == Visit(root, 0)
  {
    assert log != [];
    ReachedAtZero(s, root, log[0].address);
  }

  lemma KeepsFirst(s: Setting, root: string, depth: nat, seen0: set<string>, log0: seq<Visit>, log: seq<Visit>)
    requires LevelLog(s, root, depth, seen0, log0, log)
    ensures log0 != [] ==> log != [] && log[0] == log0[0]
  {}

  lemma EndOfWalk(s: Setting, root: string, seen: set<string>, frontier: seq<string>, log: seq<Visit>, calls: nat,
                  depth: nat, maxDepth: nat, exhausted: bool, truncated: bool)
    requires depth <= maxDepth && (depth < maxDepth ==> frontier == [] || exhausted)
    requires Books(seen, log, calls) && Sound(s, root, log, depth)
    requires !exhausted && !truncated ==> Exact(s, root, log, depth) && Covered(s, root, seen, frontier, depth)
    requires exhausted ==> exists a :: s.Within(root, a, depth) && !Called(log, a)
    ensures Sound(s, root, log, maxDepth) && Distinct(log)
    ensures !exhausted && !truncated ==> Exact(s, root, log, maxDepth)
    ensures exhausted ==> exists a :: s.Within(root, a, maxDepth) && !Called(log, a)
  {
    if !exhausted && !truncated && depth < maxDepth {
      ExactForever(s, root, seen, log, calls, depth, maxDepth);
    }
    if exhausted {
      var a :| s.Within(root, a, depth) && !Called(log, a);
      var d: nat :| d < depth && s.Reached(root, a, d);
      assert s.Within(root, a, maxDepth);
    }
  }

  lemma {:induction false} CallsAreTouched(seen: set<string>, log: seq<Visit>, calls: nat)
    requires Books(seen, log, calls)
    ensures |seen| == calls == |log|
    decreases |log|
  {
    if log == [] {
      assert seen == {};
    } else {
      var init, last := log[..|log| - 1], log[|log| - 1];
      var rest := seen - {last.address};
      forall a ensures a in rest <==> Called(init, a) {
        if a in rest {
          var i :| 0 <= i < |log| && log[i].address == a;
          assert init[i].address == a;
        }
        if Called(init, a) {
          var i :| 0 <= i < |init| && init[i].address == a;
          assert log[i].address == a;
          assert Called(log, a);
        }
      }
      CallsAreTouched(rest, init, calls - 1);
      assert Called(log, last.address);
      assert seen == rest + {last.address};
    }
  }

  // ---------------------------------------------------------------------------
  // What the collected transactions are, and what the log's distances mean
  // ---------------------------------------------------------------------------

  /** One transaction per key, every key of the input, and each the first of its key. */
  lemma {:induction false} FirstOfEachMeans(txs: seq<Tx>)
    ensures var c := FirstOfEach(txs);
            && (forall i, j :: 0 <= i < j < |c| ==> c[i].chain != c[j].chain || c[i].txid != c[j].txid)
            && (forall t :: t in txs ==> HasKey(c, t))
            && (forall i :: 0 <= i < |c| ==> FirstOfItsKey(txs, c[i]))
  {
    if txs != [] {
      var init, last := txs[..|txs| - 1], txs[|txs| - 1];
      FirstOfEachMeans(init);
      var before, c := FirstOfEach(init), FirstOfEach(txs);
      forall t | t in txs ensures HasKey(c, t) {
        if t in init {
          var i :| 0 <= i < |before| && SameKey(before[i], t);
          assert SameKey(c[i], t);
        } else {
          assert t == last;
          if !HasKey(before, last) { assert SameKey(c[|before|], last); }
        }
      }
      forall i | 0 <= i < |c| ensures FirstOfItsKey(txs, c[i]) {
        if i < |before| {
          var k :| FirstAt(init, k, before[i]);
          StillFirst(txs, k, before[i]);
          assert c[i] == before[i];
        } else {
          forall j | 0 <= j < |init| ensures !SameKey(init[j], last) {
            assert init[j] in init;
            if SameKey(init[j], last) { KeyCarries(before, init[j], last); }
          }
          assert c[i] == last;
          assert FirstAt(txs, |init|, c[i]);
        }
      }
    }
  }

  /** No transaction that was returned is missing. */
  lemma EveryKeyIsKept(txs: seq<Tx>, t: Tx)
    requires t in txs
    ensures exists u :: u in FirstOfEach(txs) && u.chain == t.chain && u.txid == t.txid
  {
    FirstOfEachMeans(txs);
    hide FirstOfEach;
    var i :| 0 <= i < |FirstOfEach(txs)| && SameKey(FirstOfEach(txs)[i], t);
    assert FirstOfEach(txs)[i] in FirstOfEach(txs);
  }

  lemma StillFirst(txs: seq<Tx>, k: int, t: Tx)
    requires txs != [] && FirstAt(txs[..|txs| - 1], k, t)
    ensures FirstAt(txs, k, t)
  {
    var init := txs[..|txs| - 1];
    forall j | 0 <= j < k ensures !SameKey(txs[j], t) { assert init[j] == txs[j]; }
  }

  lemma KeyCarries(txs: seq<Tx>, t: Tx, u: Tx)
    requires HasKey(txs, t) && SameKey(t, u)
    ensures HasKey(txs, u)
  {}

  ghost predicate FirstOfItsKey(txs: seq<Tx>, t: Tx) {
    exists k :: FirstAt(txs, k, t)
  }

  ghost predicate FirstAt(txs: seq<Tx>, k: int, t: Tx) {
    && 0 <= k < |txs| && txs[k] == t
    && forall j :: 0 <= j < k ==> txs[j].chain != t.chain || txs[j].txid != t.txid
  }
}
