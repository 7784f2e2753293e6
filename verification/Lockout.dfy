/** The login lockout under concurrency: logins of many clients interleave, each split into the check
    before the endpoint runs and the count after it has answered. */
module Lockout {
  import opened Limiter

  datatype Config = Config(general: nat, failures: nat, window: real)

  datatype Event =
    | Begin(client: string, isLogin: bool, now: real)
    | Finish(client: string, isLogin: bool, statusCode: int, now: real)

  /** The shared table, and how many of each client's logins are between check and count. */
  datatype System = System(local: Table, inFlight: map<string, nat>)

  function InFlight(s: System, c: string): nat {
    if c in s.inFlight then s.inFlight[c] else 0
  }

  function Step(cfg: Config, s: System, e: Event): System {
    match e
    case Begin(c, isLogin, now) =>
      var (verdict, local) := AdmitAfter(s.local, cfg.general, cfg.failures, cfg.window, c, isLogin, now);
      System(local, if isLogin && verdict == Admitted then s.inFlight[c := InFlight(s, c) + 1] else s.inFlight)
    case Finish(c, isLogin, statusCode, now) =>
      System(SettleAfter(s.local, cfg.window, c, isLogin, statusCode, now),
             if isLogin && InFlight(s, c) > 0 then s.inFlight[c := InFlight(s, c) - 1] else s.inFlight)
  }

  function After(cfg: Config, es: seq<Event>): System {
    if es == [] then System(map[], map[]) else Step(cfg, After(cfg, es[..|es| - 1]), es[|es| - 1])
  }

  function TimeOf(es: seq<Event>): real {
    if es == [] then 0.0 else es[|es| - 1].now
  }

  /** Time does not go back, only admitted logins finish, and client `c` never has more than `k` logins
      in flight. Other clients are unrestricted. */
  ghost predicate Possible(cfg: Config, es: seq<Event>, c: string, k: nat)
    decreases |es|
  {
    es == [] ||
    var before, e := es[..|es| - 1], es[|es| - 1];
    && Possible(cfg, before, c, k)
    && TimeOf(before) <= e.now
    && (e.Finish? && e.isLogin ==> InFlight(After(cfg, before), e.client) > 0)
    && InFlight(After(cfg, es), c) <= k
  }

  /** A failed login of `c`. */
  predicate IsFailure(e: Event, c: string) {
    e.Finish? && e.isLogin && e.statusCode == 401 && e.client == c
  }

  /** How many failed logins of `c` finished at or after `t`. */
  function FailuresSince(es: seq<Event>, c: string, t: real): nat {
    if es == [] then 0
    else FailuresSince(es[..|es| - 1], c, t)
         + (if IsFailure(es[|es| - 1], c) && es[|es| - 1].now >= t then 1 else 0)
  }

  ghost predicate AllFailuresBefore(es: seq<Event>, c: string, t: real) {
    forall i :: 0 <= i < |es| && IsFailure(es[i], c) ==> es[i].now < t
  }

  // ---------------------------------------------------------------------------
  // How hits treat one key
  // ---------------------------------------------------------------------------

  /** The key's window is open. */
  predicate Live(m: Table, key: string, now: real) {
    key in m && now < m[key].expires
  }

  lemma OwnHit(m: Table, key: string, window: real, increment: bool, now: real)
    requires window > 0.0 && now >= 0.0
    ensures var m' := AfterHit(m, key, window, increment, now);
            && Live(m', key, now)
            && m'[key] == (if Live(m, key, now) then Counted(m[key], increment)
                           else Counted(Slot(0, now + window), increment))
            && m'[key].count == CountOf(m, key, window, increment, now)
  {}

  lemma OtherHit(m: Table, other: string, window: real, increment: bool, now: real, key: string)
    requires other != key
    ensures var m' := AfterHit(m, other, window, increment, now);
            && (Live(m', key, now) <==> Live(m, key, now))
            && (Live(m, key, now) ==> m'[key] == m[key])
  {}

  // ---------------------------------------------------------------------------
  // The invariant for one client
  // ---------------------------------------------------------------------------

  /** Until the window ends, its count is the failures since it opened, and together with the logins
      still in flight it stays within the bound. */
  ghost predicate Bounded(cfg: Config, m: Table, es: seq<Event>, c: string, inFlight: nat, k: nat, now: real) {
    if Live(m, FailKey(c), now) then
      var s := m[FailKey(c)];
      && s.expires - cfg.window <= now
      && s.count == FailuresSince(es, c, s.expires - cfg.window)
      && AllFailuresBefore(es, c, s.expires)
      && s.count + inFlight <= cfg.failures - 1 + k
    else
      AllFailuresBefore(es, c, now)
  }

  lemma TimePasses(cfg: Config, m: Table, es: seq<Event>, c: string, inFlight: nat, k: nat, t: real, now: real)
    requires Bounded(cfg, m, es, c, inFlight, k, t) && t <= now
    ensures Bounded(cfg, m, es, c, inFlight, k, now)
  {}

  lemma {:induction false} NoneSince(es: seq<Event>, c: string, t: real)
    requires AllFailuresBefore(es, c, t)
    ensures FailuresSince(es, c, t) == 0
  {
    if es != [] { NoneSince(es[..|es| - 1], c, t); }
  }

  lemma OneMoreEvent(es: seq<Event>, e: Event, c: string, t: real)
    ensures FailuresSince(es + [e], c, t) == FailuresSince(es, c, t) + (if IsFailure(e, c) && e.now >= t then 1 else 0)
    ensures AllFailuresBefore(es + [e], c, t) <==> AllFailuresBefore(es, c, t) && (IsFailure(e, c) ==> e.now < t)
  {
    assert (es + [e])[..|es|] == es;
    assert (es + [e])[|es|] == e;
    forall i | 0 <= i < |es| ensures (es + [e])[i] == es[i] {}
  }

  /** A hit on another key, or a step that is no failure of `c`, keeps the bound. */
  lemma Bystander(cfg: Config, m: Table, m': Table, es: seq<Event>, e: Event, c: string, inFlight: nat, inFlight': nat, k: nat)
    requires Bounded(cfg, m, es, c, inFlight, k, e.now) && !IsFailure(e, c) && inFlight' <= inFlight
    requires Live(m', FailKey(c), e.now) <==> Live(m, FailKey(c), e.now)
    requires Live(m, FailKey(c), e.now) ==> m'[FailKey(c)] == m[FailKey(c)]
    ensures Bounded(cfg, m', es + [e], c, inFlight', k, e.now)
  {
    hide FailuresSince, AllFailuresBefore, FailKey;
    OneMoreEvent(es, e, c, e.now);
    if Live(m, FailKey(c), e.now) {
      OneMoreEvent(es, e, c, m[FailKey(c)].expires);
      OneMoreEvent(es, e, c, m[FailKey(c)].expires - cfg.window);
    }
  }

  /** Reading the lockout opens a window if none is open. */
  lemma CheckKeeps(cfg: Config, m: Table, es: seq<Event>, c: string, inFlight: nat, k: nat, now: real)
    requires cfg.failures > 0 && cfg.window > 0.0 && now >= 0.0 && inFlight <= k
    requires Bounded(cfg, m, es, c, inFlight, k, now)
    ensures var m' := AfterHit(m, FailKey(c), cfg.window, false, now);
            Bounded(cfg, m', es, c, inFlight, k, now) && Live(m', FailKey(c), now)
  {
    hide FailuresSince, FailKey, AfterHit, CountOf;
    OwnHit(m, FailKey(c), cfg.window, false, now);
    if !Live(m, FailKey(c), now) {
      NoneSince(es, c, now);
    }
  }

  /** Counting a failure trades one login in flight for one count. */
  lemma CountKeeps(cfg: Config, m: Table, es: seq<Event>, e: Event, inFlight: nat, k: nat)
    requires cfg.failures > 0 && cfg.window > 0.0 && e.now >= 0.0 && 0 < inFlight <= k
    requires IsFailure(e, e.client) && Bounded(cfg, m, es, e.client, inFlight, k, e.now)
    ensures Bounded(cfg, AfterHit(m, FailKey(e.client), cfg.window, true, e.now), es + [e], e.client, inFlight - 1, k, e.now)
  {
    hide FailuresSince, AllFailuresBefore, FailKey, AfterHit, CountOf;
    var c, now := e.client, e.now;
    OwnHit(m, FailKey(c), cfg.window, true, now);
    if Live(m, FailKey(c), now) {
      OneMoreEvent(es, e, c, m[FailKey(c)].expires);
      OneMoreEvent(es, e, c, m[FailKey(c)].expires - cfg.window);
    } else {
      NoneSince(es, c, now);
      OneMoreEvent(es, e, c, now);
      OneMoreEvent(es, e, c, now + cfg.window);
      LaterStill(es, c, now, now + cfg.window);
    }
  }

  lemma LaterStill(es: seq<Event>, c: string, t: real, u: real)
    requires AllFailuresBefore(es, c, t) && t <= u
    ensures AllFailuresBefore(es, c, u)
  {}

  lemma BeginKeeps(cfg: Config, s: System, es: seq<Event>, e: Event, c: string, k: nat)
    requires cfg.failures > 0 && cfg.window > 0.0 && e.now >= 0.0 && e.Begin?
    requires InFlight(s, c) <= k && InFlight(Step(cfg, s, e), c) <= k
    requires Bounded(cfg, s.local, es, c, InFlight(s, c), k, e.now)
    ensures Bounded(cfg, Step(cfg, s, e).local, es + [e], c, InFlight(Step(cfg, s, e), c), k, e.now)
  {
    hide FailKey, GeneralKey, AfterHit, CountOf, Bounded;
    var s' := Step(cfg, s, e);
    var key, n := FailKey(c), InFlight(s, c);
    KeysApart(c, e.client);
    KeysApart(e.client, c);
    var m1 := if e.isLogin then AfterHit(s.local, FailKey(e.client), cfg.window, false, e.now) else s.local;
    OtherHit(m1, GeneralKey(e.client), 60.0, true, e.now, key);
    if e.client != c || !e.isLogin {
      if e.isLogin { OtherHit(s.local, FailKey(e.client), cfg.window, false, e.now, key); }
      Bystander(cfg, s.local, s'.local, es, e, c, n, InFlight(s', c), k);
    } else {
      CheckKeeps(cfg, s.local, es, c, n, k, e.now);
      OwnHit(s.local, key, cfg.window, false, e.now);
      if InFlight(s', c) > n {
        OneMoreLogin(cfg, m1, es, c, n, k, e.now);
      }
      Bystander(cfg, m1, s'.local, es, e, c, InFlight(s', c), InFlight(s', c), k);
    }
  }

  /** A login is let through only below the limit, so there is room for one more in flight. */
  lemma OneMoreLogin(cfg: Config, m: Table, es: seq<Event>, c: string, inFlight: nat, k: nat, now: real)
    requires Bounded(cfg, m, es, c, inFlight, k, now) && inFlight < k
    requires Live(m, FailKey(c), now) && m[FailKey(c)].count < cfg.failures
    ensures Bounded(cfg, m, es, c, inFlight + 1, k, now)
  {}

  lemma FinishKeeps(cfg: Config, s: System, es: seq<Event>, e: Event, c: string, k: nat)
    requires cfg.failures > 0 && cfg.window > 0.0 && e.now >= 0.0 && e.Finish?
    requires e.isLogin ==> InFlight(s, e.client) > 0
    requires InFlight(s, c) <= k && Bounded(cfg, s.local, es, c, InFlight(s, c), k, e.now)
    ensures Bounded(cfg, Step(cfg, s, e).local, es + [e], c, InFlight(Step(cfg, s, e), c), k, e.now)
  {
    hide FailKey, AfterHit, CountOf, Bounded;
    var s' := Step(cfg, s, e);
    if IsFailure(e, c) {
      CountKeeps(cfg, s.local, es, e, InFlight(s, c), k);
    } else {
      KeysApart(c, e.client);
      if e.isLogin && e.statusCode == 401 { OtherHit(s.local, FailKey(e.client), cfg.window, true, e.now, FailKey(c)); }
      Bystander(cfg, s.local, s'.local, es, e, c, InFlight(s, c), InFlight(s', c), k);
    }
  }

  lemma {:induction false} RunBounded(cfg: Config, es: seq<Event>, c: string, k: nat)
    requires cfg.failures > 0 && cfg.window > 0.0 && Possible(cfg, es, c, k)
    ensures TimeOf(es) >= 0.0 && InFlight(After(cfg, es), c) <= k
    ensures Bounded(cfg, After(cfg, es).local, es, c, InFlight(After(cfg, es), c), k, TimeOf(es))
    decreases |es|
  {
    hide Bounded, Step;
    if es == [] {
      NothingBounded(cfg, c, k);
    } else {
      var before, e := es[..|es| - 1], es[|es| - 1];
      var s := After(cfg, before);
      RunBounded(cfg, before, c, k);
      TimePasses(cfg, s.local, before, c, InFlight(s, c), k, TimeOf(before), e.now);
      assert es == before + [e];
      if e.Begin? { BeginKeeps(cfg, s, before, e, c, k); } else { FinishKeeps(cfg, s, before, e, c, k); }
    }
  }

  lemma NothingBounded(cfg: Config, c: string, k: nat)
    ensures Bounded(cfg, map[], [], c, 0, k, 0.0)
  {}

  /** However logins interleave, a window in which client `c` has at most `k` of them in flight at
      once records at most `authFailures - 1 + k` failures. */
  lemma LockoutBound(cfg: Config, es: seq<Event>, c: string, k: nat)
    requires cfg.failures > 0 && cfg.window > 0.0 && Possible(cfg, es, c, k)
    requires Live(After(cfg, es).local, FailKey(c), TimeOf(es))
    ensures var start := After(cfg, es).local[FailKey(c)].expires - cfg.window;
            FailuresSince(es, c, start) <= cfg.failures - 1 + k
  {
    hide FailuresSince, After, Possible;
    RunBounded(cfg, es, c, k);
  }

  /** At the limit nobody gets through: the check refuses every login while the window is open. */
  lemma LockedOutAtLimit(cfg: Config, s: System, c: string, now: real)
    requires Live(s.local, FailKey(c), now) && s.local[FailKey(c)].count >= cfg.failures
    ensures Step(cfg, s, Begin(c, true, now)).inFlight == s.inFlight
  {}

  // ---------------------------------------------------------------------------
  // The bound is attained
  // ---------------------------------------------------------------------------

  /** Client `c` at time 0, in its first window: logins in flight, failures recorded, calls counted. */
  ghost predicate Holds(cfg: Config, s: System, c: string, n: nat, f: nat, g: nat) {
    && InFlight(s, c) == n
    && (n > 0 || f > 0 ==> Live(s.local, FailKey(c), 0.0))
    && (Live(s.local, FailKey(c), 0.0) ==> s.local[FailKey(c)] == Slot(f, cfg.window))
    && (if Live(s.local, GeneralKey(c), 0.0) then s.local[GeneralKey(c)].count == g else g == 0)
  }

  /** A run that got there. */
  ghost predicate Reached(cfg: Config, es: seq<Event>, c: string, k: nat, n: nat, f: nat, g: nat) {
    && Possible(cfg, es, c, k) && TimeOf(es) == 0.0
    && Holds(cfg, After(cfg, es), c, n, f, g)
    && FailuresSince(es, c, 0.0) == f
  }

  lemma Admits(cfg: Config, s: System, c: string, n: nat, f: nat, g: nat)
    requires cfg.window > 0.0 && Holds(cfg, s, c, n, f, g) && f < cfg.failures && g < cfg.general
    ensures Holds(cfg, Step(cfg, s, Begin(c, true, 0.0)), c, n + 1, f, g + 1)
  {
    hide AfterHit, CountOf, FailKey, GeneralKey;
    KeysApart(c, c);
    var m1 := AfterHit(s.local, FailKey(c), cfg.window, false, 0.0);
    OwnHit(s.local, FailKey(c), cfg.window, false, 0.0);
    OtherHit(s.local, FailKey(c), cfg.window, false, 0.0, GeneralKey(c));
    OwnHit(m1, GeneralKey(c), 60.0, true, 0.0);
    OtherHit(m1, GeneralKey(c), 60.0, true, 0.0, FailKey(c));
  }

  lemma Records(cfg: Config, s: System, c: string, n: nat, f: nat, g: nat)
    requires cfg.window > 0.0 && Holds(cfg, s, c, n, f, g) && n > 0
    ensures Holds(cfg, Step(cfg, s, Finish(c, true, 401, 0.0)), c, n - 1, f + 1, g)
  {
    hide AfterHit, CountOf, FailKey, GeneralKey;
    KeysApart(c, c);
    OwnHit(s.local, FailKey(c), cfg.window, true, 0.0);
    OtherHit(s.local, FailKey(c), cfg.window, true, 0.0, GeneralKey(c));
  }

  lemma BeginOne(cfg: Config, es: seq<Event>, c: string, k: nat, n: nat, f: nat, g: nat)
    requires cfg.window > 0.0 && Reached(cfg, es, c, k, n, f, g) && n < k && f < cfg.failures && g < cfg.general
    ensures Reached(cfg, es + [Begin(c, true, 0.0)], c, k, n + 1, f, g + 1)
  {
    hide Step, After, Possible, FailuresSince, TimeOf, FailKey, GeneralKey;
    var e := Begin(c, true, 0.0);
    Admits(cfg, After(cfg, es), c, n, f, g);
    AfterOneMore(cfg, es, e, c, k);
    OneMoreEvent(es, e, c, 0.0);
  }

  lemma FinishOne(cfg: Config, es: seq<Event>, c: string, k: nat, n: nat, f: nat, g: nat)
    requires cfg.window > 0.0 && Reached(cfg, es, c, k, n, f, g) && 0 < n <= k
    ensures Reached(cfg, es + [Finish(c, true, 401, 0.0)], c, k, n - 1, f + 1, g)
  {
    hide Step, After, Possible, FailuresSince, TimeOf, FailKey, GeneralKey;
    var e := Finish(c, true, 401, 0.0);
    Records(cfg, After(cfg, es), c, n, f, g);
    AfterOneMore(cfg, es, e, c, k);
    OneMoreEvent(es, e, c, 0.0);
  }

  lemma AtStart(cfg: Config, c: string, k: nat)
    ensures Reached(cfg, [], c, k, 0, 0, 0)
  {}

  /** `j` failures one after another. */
  lemma {:induction false} FailInTurn(cfg: Config, c: string, k: nat, j: nat) returns (es: seq<Event>)
    requires cfg.window > 0.0 && k > 0 && j < cfg.failures && j <= cfg.general
    ensures Reached(cfg, es, c, k, 0, j, j)
  {
    hide Reached;
    if j == 0 {
      es := [];
      AtStart(cfg, c, k);
    } else {
      es := FailInTurn(cfg, c, k, j - 1);
      BeginOne(cfg, es, c, k, 0, j - 1, j - 1);
      es := es + [Begin(c, true, 0.0)];
      FinishOne(cfg, es, c, k, 1, j - 1, j);
      es := es + [Finish(c, true, 401, 0.0)];
    }
  }

  /** `n` logins in flight at once, behind `f` failures. */
  lemma {:induction false} BeginTogether(cfg: Config, c: string, k: nat, n: nat) returns (es: seq<Event>)
    requires cfg.window > 0.0 && 0 < k && n <= k && cfg.failures > 0 && cfg.general >= cfg.failures - 1 + n
    ensures Reached(cfg, es, c, k, n, cfg.failures - 1, cfg.failures - 1 + n)
  {
    hide Reached;
    if n == 0 {
      es := FailInTurn(cfg, c, k, cfg.failures - 1);
    } else {
      es := BeginTogether(cfg, c, k, n - 1);
      BeginOne(cfg, es, c, k, n - 1, cfg.failures - 1, cfg.failures - 1 + n - 1);
      es := es + [Begin(c, true, 0.0)];
    }
  }

  /** All but `n` of them have failed. */
  lemma {:induction false} FailTogether(cfg: Config, c: string, k: nat, n: nat) returns (es: seq<Event>)
    requires cfg.window > 0.0 && 0 < k && n <= k && cfg.failures > 0 && cfg.general >= cfg.failures - 1 + k
    ensures Reached(cfg, es, c, k, n, cfg.failures - 1 + k - n, cfg.failures - 1 + k)
    decreases k - n
  {
    hide Reached;
    if n == k {
      es := BeginTogether(cfg, c, k, k);
    } else {
      es := FailTogether(cfg, c, k, n + 1);
      FinishOne(cfg, es, c, k, n + 1, cfg.failures - 1 + k - n - 1, cfg.failures - 1 + k);
      es := es + [Finish(c, true, 401, 0.0)];
    }
  }

  /** For every limit and every number of logins in flight the bound is met: all but one of the allowed
      failures come first, then `k` logins pass the check together and all fail. */
  lemma LockoutBoundIsAttained(cfg: Config, c: string, k: nat)
    requires cfg.failures > 0 && cfg.window > 0.0 && k > 0 && cfg.general >= cfg.failures - 1 + k
    ensures exists es: seq<Event> ::
              && Possible(cfg, es, c, k)
              && Live(After(cfg, es).local, FailKey(c), TimeOf(es))
              && FailuresSince(es, c, After(cfg, es).local[FailKey(c)].expires - cfg.window) == cfg.failures - 1 + k
  {
    hide *;
    var es := FailTogether(cfg, c, k, 0);
    ReachedMeans(cfg, es, c, k, cfg.failures - 1 + k, cfg.failures - 1 + k);
  }

  lemma ReachedMeans(cfg: Config, es: seq<Event>, c: string, k: nat, f: nat, g: nat)
    requires Reached(cfg, es, c, k, 0, f, g) && f > 0
    ensures Possible(cfg, es, c, k) && Live(After(cfg, es).local, FailKey(c), TimeOf(es))
    ensures FailuresSince(es, c, After(cfg, es).local[FailKey(c)].expires - cfg.window) == f
  {
    hide After, Possible, FailuresSince, TimeOf, FailKey, GeneralKey, InFlight;
  }

  /** With no login ever in flight there is nothing to record. */
  lemma {:induction false} NoneInFlightNoneFail(cfg: Config, es: seq<Event>, c: string, t: real)
    requires Possible(cfg, es, c, 0)
    ensures FailuresSince(es, c, t) == 0
  {
    if es != [] {
      var before, e := es[..|es| - 1], es[|es| - 1];
      assert es == before + [e];
      NoneInFlightNoneFail(cfg, before, c, t);
      NoneInFlight(cfg, before, c);
      OneMoreEvent(before, e, c, t);
    }
  }

  lemma NoneInFlight(cfg: Config, es: seq<Event>, c: string)
    requires Possible(cfg, es, c, 0)
    ensures InFlight(After(cfg, es), c) == 0
  {
    hide Step;
  }

  lemma AfterOneMore(cfg: Config, es: seq<Event>, e: Event, c: string, k: nat)
    ensures After(cfg, es + [e]) == Step(cfg, After(cfg, es), e) && TimeOf(es + [e]) == e.now
    ensures Possible(cfg, es + [e], c, k)
       <==> && Possible(cfg, es, c, k) && TimeOf(es) <= e.now
            && (e.Finish? && e.isLogin ==> InFlight(After(cfg, es), e.client) > 0)
            && InFlight(Step(cfg, After(cfg, es), e), c) <= k
  {
    hide Step;
    assert (es + [e])[..|es|] == es && (es + [e])[|es|] == e;
  }
}
