/** The in-process rate limiter: `_Counter._local_hit`, and the login lockout built on it. */
module Limiter {

  /** A window: how many calls it has counted, and when it ends. */
  datatype Slot = Slot(count: nat, expires: real)

  type Table = map<string, Slot>

  const BOUND := 10_000

  /** The slot a call at `now` works on: the stored one while its window is open, else a new window. */
  function OpenSlot(m: Table, key: string, window: real, now: real): Slot {
    var s := if key in m then m[key] else Slot(0, 0.0);
    if now >= s.expires then Slot(0, now + window) else s
  }

  function Counted(s: Slot, increment: bool): Slot {
    if increment then s.(count := s.count + 1) else s
  }

  /** Entries whose windows are still open. */
  function Prune(m: Table, now: real): Table {
    map k | k in m && m[k].expires > now :: m[k]
  }

  /** The table after `_local_hit`, pruning included. */
  function AfterHit(m: Table, key: string, window: real, increment: bool, now: real): Table {
    var m1 := m[key := Counted(OpenSlot(m, key, window, now), increment)];
    if |m1| > BOUND then Prune(m1, now) else m1
  }

  function CountOf(m: Table, key: string, window: real, increment: bool, now: real): nat {
    Counted(OpenSlot(m, key, window, now), increment).count
  }

  /** Past ten thousand keys only windows that are still open are kept. */
  lemma TableIsBounded(m: Table, key: string, window: real, increment: bool, now: real)
    ensures var m' := AfterHit(m, key, window, increment, now);
            |m'| > 10_000 ==> forall k :: k in m' ==> m'[k].expires > now
  {}

  class Counter {
    var local: Table

    constructor ()
      ensures local == map[]
    {
      local := map[];
    }

    /** `_local_hit` */
    method LocalHit(key: string, window: real, increment: bool, now: real) returns (count: nat)
      modifies this
      ensures local == AfterHit(old(local), key, window, increment, now)
      ensures count == CountOf(old(local), key, window, increment, now)
    {
      var expires: real;
      if key in local {
        count, expires := local[key].count, local[key].expires;
      } else {
        count, expires := 0, 0.0;
      }
      if now >= expires {
        count, expires := 0, now + window;
      }
      if increment {
        count := count + 1;
      }
      local := local[key := Slot(count, expires)];
      if |local| > BOUND {
        local := map k | k in local && local[k].expires > now :: local[k];
      }
    }
  }

  // ---------------------------------------------------------------------------
  // The reference: one window per key, no table, no pruning
  // ---------------------------------------------------------------------------

  datatype Call = Call(key: string, window: real, increment: bool, now: real)

  /** Clock readings never go back, and start no earlier than zero. */
  ghost predicate Ordered(calls: seq<Call>) {
    && (forall i :: 0 <= i < |calls| ==> calls[i].now >= 0.0)
    && forall i, j :: 0 <= i < j < |calls| ==> calls[i].now <= calls[j].now
  }

  /** The window one key sees, reading only that key's own calls. */
  function KeySlot(calls: seq<Call>, key: string): Slot {
    if calls == [] then Slot(0, 0.0)
    else
      var before, c := KeySlot(calls[..|calls| - 1], key), calls[|calls| - 1];
      if c.key != key then before
      else Counted(if c.now >= before.expires then Slot(0, c.now + c.window) else before, c.increment)
  }

  /** The table the code holds after some calls. */
  function TableAfter(calls: seq<Call>): Table {
    if calls == [] then map[]
    else
      var c := calls[|calls| - 1];
      AfterHit(TableAfter(calls[..|calls| - 1]), c.key, c.window, c.increment, c.now)
  }

  /** What the table may forget: only windows that have ended by `now`. */
  ghost predicate Faithful(m: Table, calls: seq<Call>, now: real) {
    forall k: string :: if k in m then m[k] == KeySlot(calls, k) else KeySlot(calls, k).expires <= now
  }

  lemma HitStaysFaithful(m: Table, calls: seq<Call>, c: Call, before: real)
    requires Faithful(m, calls, before) && before <= c.now && 0.0 <= c.now
    ensures Faithful(AfterHit(m, c.key, c.window, c.increment, c.now), calls + [c], c.now)
    ensures CountOf(m, c.key, c.window, c.increment, c.now) == KeySlot(calls + [c], c.key).count
  {
    assert (calls + [c])[..|calls|] == calls;
    var m1 := m[c.key := Counted(OpenSlot(m, c.key, c.window, c.now), c.increment)];
    assert m1[c.key] == KeySlot(calls + [c], c.key);
    forall k: string
      ensures if k in m1 then m1[k] == KeySlot(calls + [c], k) else KeySlot(calls + [c], k).expires <= c.now {}
  }

  function TimeOfLast(calls: seq<Call>): real { if calls == [] then 0.0 else calls[|calls| - 1].now }

  lemma OrderedBefore(calls: seq<Call>)
    requires Ordered(calls) && calls != []
    ensures Ordered(calls[..|calls| - 1])
    ensures TimeOfLast(calls[..|calls| - 1]) <= TimeOfLast(calls) && 0.0 <= TimeOfLast(calls)
  {}

  lemma {:induction false} TableIsFaithful(calls: seq<Call>)
    requires Ordered(calls)
    ensures Faithful(TableAfter(calls), calls, TimeOfLast(calls))
  {
    hide AfterHit, KeySlot, Faithful, Ordered;
    if calls == [] {
      EmptyIsFaithful();
    } else {
      var init, c := calls[..|calls| - 1], calls[|calls| - 1];
      assert calls == init + [c];
      OrderedBefore(calls);
      TableIsFaithful(init);
      HitStaysFaithful(TableAfter(init), init, c, TimeOfLast(init));
    }
  }

  lemma EmptyIsFaithful()
    ensures Faithful(map[], [], 0.0)
  {}

  /** The pruned, shared table is observationally a separate fixed-window counter per key: whatever
      came before, the next call returns what its own key's window says. */
  lemma CounterIsPerKey(calls: seq<Call>, c: Call)
    requires Ordered(calls + [c])
    ensures CountOf(TableAfter(calls), c.key, c.window, c.increment, c.now) == KeySlot(calls + [c], c.key).count
  {
    hide AfterHit, KeySlot, Faithful, CountOf, Ordered;
    assert (calls + [c])[..|calls|] == calls && (calls + [c])[|calls|] == c;
    OrderedBefore(calls + [c]);
    TableIsFaithful(calls);
    HitStaysFaithful(TableAfter(calls), calls, c, TimeOfLast(calls));
  }

  // ---------------------------------------------------------------------------
  // The middleware
  // ---------------------------------------------------------------------------

  /** `_client_key` is a parameter of the model; these are the two keys made from it. */
  function FailKey(client: string): string { "authfail:" + client }

  function GeneralKey(client: string): string { "general:" + client }

  lemma KeysApart(a: string, b: string)
    ensures FailKey(a) != GeneralKey(b)
    ensures FailKey(a) == FailKey(b) ==> a == b
  {
    assert FailKey(a)[0] == 'a' && GeneralKey(b)[0] == 'g';
    assert FailKey(a)[9..] == a && FailKey(b)[9..] == b;
  }

  datatype Verdict = LockedOut | TooMany | Admitted

  class RateLimiter {
    const generalPerMinute: nat
    const authFailures: nat
    const authWindow: real
    const counter: Counter

    constructor (generalPerMinute: nat, authFailures: nat, authWindow: real)
      ensures counter.local == map[] && fresh(counter)
      ensures this.generalPerMinute == generalPerMinute && this.authFailures == authFailures && this.authWindow == authWindow
    {
      this.generalPerMinute, this.authFailures, this.authWindow := generalPerMinute, authFailures, authWindow;
      counter := new Counter();
    }

    /** `dispatch` up to the call of the endpoint. The lockout is read, which opens a window but
        counts nothing; the general limit counts. */
    method Admit(client: string, isLogin: bool, now: real) returns (v: Verdict)
      modifies counter
      ensures (v, counter.local) == AdmitAfter(old(counter.local), generalPerMinute, authFailures, authWindow, client, isLogin, now)
    {
      if isLogin {
        var failures := counter.LocalHit(FailKey(client), authWindow, false, now);
        if failures >= authFailures {
          return LockedOut;
        }
      }
      var count := counter.LocalHit(GeneralKey(client), 60.0, true, now);
      if count > generalPerMinute {
        return TooMany;
      }
      return Admitted;
    }

    /** `dispatch` after the endpoint has answered. */
    method Settle(client: string, isLogin: bool, statusCode: int, now: real)
      modifies counter
      ensures counter.local == SettleAfter(old(counter.local), authWindow, client, isLogin, statusCode, now)
    {
      if isLogin && statusCode == 401 {
        var _ := counter.LocalHit(FailKey(client), authWindow, true, now);
      }
    }
  }

  function AdmitAfter(m: Table, general: nat, failures: nat, window: real, client: string, isLogin: bool, now: real)
    : (Verdict, Table)
  {
    if isLogin && CountOf(m, FailKey(client), window, false, now) >= failures then
      (LockedOut, AfterHit(m, FailKey(client), window, false, now))
    else
      var m1 := if isLogin then AfterHit(m, FailKey(client), window, false, now) else m;
      (if CountOf(m1, GeneralKey(client), 60.0, true, now) > general then TooMany else Admitted,
       AfterHit(m1, GeneralKey(client), 60.0, true, now))
  }

  function SettleAfter(m: Table, window: real, client: string, isLogin: bool, statusCode: int, now: real): Table {
    if isLogin && statusCode == 401 then AfterHit(m, FailKey(client), window, true, now) else m
  }
}
