/** The general limit over whole runs: in each 60-second window of a client exactly the first
    `general` of its calls get through, whatever other clients and the login lockout do. */
module GeneralLimit {
  import opened Limiter
  import opened Lockout

  function VerdictOf(cfg: Config, s: System, e: Event): Verdict
    requires e.Begin?
  {
    AdmitAfter(s.local, cfg.general, cfg.failures, cfg.window, e.client, e.isLogin, e.now).0
  }

  /** A call of `c` that the lockout lets through to the general limit. */
  predicate Asks(cfg: Config, s: System, e: Event, c: string) {
    e.Begin? && e.client == c && VerdictOf(cfg, s, e) != LockedOut
  }

  predicate Passes(cfg: Config, s: System, e: Event, c: string) {
    e.Begin? && e.client == c && VerdictOf(cfg, s, e) == Admitted
  }

  /** Time does not go back. */
  ghost predicate Timed(es: seq<Event>) {
    es == [] || (Timed(es[..|es| - 1]) && TimeOf(es[..|es| - 1]) <= es[|es| - 1].now)
  }

  /** How many calls of `c` asked at or after `t`, and how many of those passed. */
  function Asked(cfg: Config, es: seq<Event>, c: string, t: real): nat {
    if es == [] then 0
    else
      var before, e := es[..|es| - 1], es[|es| - 1];
      Asked(cfg, before, c, t) + (if Asks(cfg, After(cfg, before), e, c) && e.now >= t then 1 else 0)
  }

  function Passed(cfg: Config, es: seq<Event>, c: string, t: real): nat {
    if es == [] then 0
    else
      var before, e := es[..|es| - 1], es[|es| - 1];
      Passed(cfg, before, c, t) + (if Passes(cfg, After(cfg, before), e, c) && e.now >= t then 1 else 0)
  }

  ghost predicate NoneFrom(cfg: Config, es: seq<Event>, c: string, t: real) {
    Asked(cfg, es, c, t) == 0 && Passed(cfg, es, c, t) == 0
  }

  function Lesser(a: nat, b: nat): nat { if a < b then a else b }

  /** While a window is open its count is the calls that asked since it opened; none asked after it. */
  ghost predicate Counting(cfg: Config, m: Table, es: seq<Event>, c: string, now: real) {
    if Live(m, GeneralKey(c), now) then
      var s := m[GeneralKey(c)];
      && s.expires - 60.0 <= now
      && s.count == Asked(cfg, es, c, s.expires - 60.0)
      && Passed(cfg, es, c, s.expires - 60.0) == Lesser(s.count, cfg.general)
      && NoneFrom(cfg, es, c, s.expires)
    else
      NoneFrom(cfg, es, c, now)
  }

  lemma {:induction false} FewerLater(cfg: Config, es: seq<Event>, c: string, t: real, u: real)
    requires t <= u
    ensures Asked(cfg, es, c, u) <= Asked(cfg, es, c, t) && Passed(cfg, es, c, u) <= Passed(cfg, es, c, t)
  {
    if es != [] { FewerLater(cfg, es[..|es| - 1], c, t, u); }
  }

  lemma TimeGoesOn(cfg: Config, m: Table, es: seq<Event>, c: string, t: real, now: real)
    requires Counting(cfg, m, es, c, t) && t <= now
    ensures Counting(cfg, m, es, c, now)
  {
    hide Asked, Passed;
    if Live(m, GeneralKey(c), t) {
      if !Live(m, GeneralKey(c), now) { FewerLater(cfg, es, c, m[GeneralKey(c)].expires, now); }
    } else {
      FewerLater(cfg, es, c, t, now);
    }
  }

  lemma OneMore(cfg: Config, es: seq<Event>, e: Event, c: string, t: real)
    ensures Asked(cfg, es + [e], c, t)
         == Asked(cfg, es, c, t) + (if Asks(cfg, After(cfg, es), e, c) && e.now >= t then 1 else 0)
    ensures Passed(cfg, es + [e], c, t)
         == Passed(cfg, es, c, t) + (if Passes(cfg, After(cfg, es), e, c) && e.now >= t then 1 else 0)
  {
    assert (es + [e])[..|es|] == es && (es + [e])[|es|] == e;
  }

  /** A step that is no call of `c`, or one the lockout refused. */
  lemma QuietForGeneral(cfg: Config, es: seq<Event>, e: Event, c: string)
    requires var s := After(cfg, es);
             Counting(cfg, s.local, es, c, e.now) && !Asks(cfg, s, e, c)
    ensures Counting(cfg, Step(cfg, After(cfg, es), e).local, es + [e], c, e.now)
  {
    var s := After(cfg, es);
    GeneralSlotKept(cfg, s, e, c);
    PassingAsks(cfg, s, e, c);
    hide *;
    QuietCounts(cfg, s.local, Step(cfg, s, e).local, es, e, c);
  }

  lemma PassingAsks(cfg: Config, s: System, e: Event, c: string)
    ensures Passes(cfg, s, e, c) ==> Asks(cfg, s, e, c)
  {}

  lemma QuietCounts(cfg: Config, m: Table, m': Table, es: seq<Event>, e: Event, c: string)
    requires Counting(cfg, m, es, c, e.now)
    requires !Asks(cfg, After(cfg, es), e, c) && !Passes(cfg, After(cfg, es), e, c)
    requires Live(m', GeneralKey(c), e.now) <==> Live(m, GeneralKey(c), e.now)
    requires Live(m, GeneralKey(c), e.now) ==> m'[GeneralKey(c)] == m[GeneralKey(c)]
    ensures Counting(cfg, m', es + [e], c, e.now)
  {
    hide Asked, Passed, After, Step, GeneralKey, Asks, Passes;
    OneMore(cfg, es, e, c, e.now);
    if Live(m, GeneralKey(c), e.now) {
      OneMore(cfg, es, e, c, m[GeneralKey(c)].expires);
      OneMore(cfg, es, e, c, m[GeneralKey(c)].expires - 60.0);
    }
  }

  lemma GeneralSlotKept(cfg: Config, s: System, e: Event, c: string)
    requires !Asks(cfg, s, e, c)
    ensures var m, m', key := s.local, Step(cfg, s, e).local, GeneralKey(c);
            && (Live(m', key, e.now) <==> Live(m, key, e.now))
            && (Live(m, key, e.now) ==> m'[key] == m[key])
  {
    hide AfterHit, CountOf, FailKey, GeneralKey;
    var key := GeneralKey(c);
    KeysApart(e.client, c);
    GeneralKeysApart(c, e.client);
    OtherHit(s.local, FailKey(e.client), cfg.window, e.Finish?, e.now, key);
    if e.Begin? && e.client != c {
      var m1 := if e.isLogin then AfterHit(s.local, FailKey(e.client), cfg.window, false, e.now) else s.local;
      OtherHit(m1, GeneralKey(e.client), 60.0, true, e.now, key);
    }
  }

  lemma GeneralKeysApart(a: string, b: string)
    ensures GeneralKey(a) == GeneralKey(b) ==> a == b
  {
    assert GeneralKey(a)[8..] == a && GeneralKey(b)[8..] == b;
  }

  /** The open window's count before a call; none if no window is open. */
  function CountBefore(m: Table, c: string, now: real): nat {
    if Live(m, GeneralKey(c), now) then m[GeneralKey(c)].count else 0
  }

  /** What a call of `c` that reaches the general limit does to its window. */
  lemma AskedSlot(cfg: Config, s: System, e: Event)
    requires e.Begin? && e.now >= 0.0 && Asks(cfg, s, e, e.client)
    ensures var m, m', key := s.local, Step(cfg, s, e).local, GeneralKey(e.client);
            && Live(m', key, e.now) && m'[key].count == CountBefore(m, e.client, e.now) + 1
            && m'[key].expires == (if Live(m, key, e.now) then m[key].expires else e.now + 60.0)
            && VerdictOf(cfg, s, e) == (if CountBefore(m, e.client, e.now) < cfg.general then Admitted else TooMany)
  {
    hide AfterHit, CountOf, FailKey, GeneralKey;
    var key := GeneralKey(e.client);
    KeysApart(e.client, e.client);
    OtherHit(s.local, FailKey(e.client), cfg.window, false, e.now, key);
    var m1 := if e.isLogin then AfterHit(s.local, FailKey(e.client), cfg.window, false, e.now) else s.local;
    OwnHit(m1, key, 60.0, true, e.now);
  }

  lemma CallCounts(cfg: Config, es: seq<Event>, e: Event)
    requires e.Begin? && e.now >= 0.0
    requires var s := After(cfg, es);
             Counting(cfg, s.local, es, e.client, e.now) && Asks(cfg, s, e, e.client)
    ensures Counting(cfg, Step(cfg, After(cfg, es), e).local, es + [e], e.client, e.now)
  {
    var s := After(cfg, es);
    AskedSlot(cfg, s, e);
    PassingMeans(cfg, s, e);
    hide *;
    AskedCounts(cfg, s.local, Step(cfg, s, e).local, es, e);
  }

  lemma PassingMeans(cfg: Config, s: System, e: Event)
    requires e.Begin?
    ensures Passes(cfg, s, e, e.client) <==> VerdictOf(cfg, s, e) == Admitted
  {}

  lemma AskedCounts(cfg: Config, m: Table, m': Table, es: seq<Event>, e: Event)
    requires e.now >= 0.0 && Counting(cfg, m, es, e.client, e.now) && Asks(cfg, After(cfg, es), e, e.client)
    requires Passes(cfg, After(cfg, es), e, e.client) <==> CountBefore(m, e.client, e.now) < cfg.general
    requires var key := GeneralKey(e.client);
             && Live(m', key, e.now) && m'[key].count == CountBefore(m, e.client, e.now) + 1
             && m'[key].expires == (if Live(m, key, e.now) then m[key].expires else e.now + 60.0)
    ensures Counting(cfg, m', es + [e], e.client, e.now)
  {
    var c, now := e.client, e.now;
    hide Asked, Passed, After, Step, GeneralKey, Asks, Passes;
    if Live(m, GeneralKey(c), now) {
      OneMore(cfg, es, e, c, m[GeneralKey(c)].expires);
      OneMore(cfg, es, e, c, m[GeneralKey(c)].expires - 60.0);
    } else {
      FewerLater(cfg, es, c, now, now + 60.0);
      OneMore(cfg, es, e, c, now);
      OneMore(cfg, es, e, c, now + 60.0);
    }
  }

  lemma {:induction false} RunCounts(cfg: Config, es: seq<Event>, c: string)
    requires Timed(es)
    ensures TimeOf(es) >= 0.0 && Counting(cfg, After(cfg, es).local, es, c, TimeOf(es))
    decreases |es|
  {
    hide Step, Asks, Counting;
    if es == [] {
      NothingCounted(cfg, c);
    } else {
      var before, e := es[..|es| - 1], es[|es| - 1];
      RunCounts(cfg, before, c);
      TimeGoesOn(cfg, After(cfg, before).local, before, c, TimeOf(before), e.now);
      assert es == before + [e];
      if Asks(cfg, After(cfg, before), e, c) {
        AsksMeans(cfg, After(cfg, before), e, c);
        CallCounts(cfg, before, e);
      } else {
        QuietForGeneral(cfg, before, e, c);
      }
    }
  }

  lemma AsksMeans(cfg: Config, s: System, e: Event, c: string)
    requires Asks(cfg, s, e, c)
    ensures e.Begin? && e.client == c
  {}

  lemma NothingCounted(cfg: Config, c: string)
    ensures Counting(cfg, map[], [], c, 0.0)
  {}

  /** In an open window exactly the first `general` calls have got through. */
  lemma GeneralLimitBound(cfg: Config, es: seq<Event>, c: string)
    requires Timed(es) && Live(After(cfg, es).local, GeneralKey(c), TimeOf(es))
    ensures var start := After(cfg, es).local[GeneralKey(c)].expires - 60.0;
            Passed(cfg, es, c, start) == Lesser(Asked(cfg, es, c, start), cfg.general)
  {
    hide Asked, Passed, After;
    RunCounts(cfg, es, c);
  }

  /** The next call of `c` that is not locked out gets through exactly when fewer than `general` calls
      have asked since the open window began. */
  lemma NextCallPassesExactly(cfg: Config, es: seq<Event>, e: Event)
    requires Timed(es) && e.Begin? && TimeOf(es) <= e.now && Asks(cfg, After(cfg, es), e, e.client)
    ensures var m, key := After(cfg, es).local, GeneralKey(e.client);
            var asked := if Live(m, key, e.now) then Asked(cfg, es, e.client, m[key].expires - 60.0) else 0;
            VerdictOf(cfg, After(cfg, es), e) == if asked < cfg.general then Admitted else TooMany
  {
    hide *;
    var s := After(cfg, es);
    RunCounts(cfg, es, e.client);
    TimeGoesOn(cfg, s.local, es, e.client, TimeOf(es), e.now);
    AskedSlot(cfg, s, e);
    CountIsAsked(cfg, s.local, es, e.client, e.now);
  }

  lemma CountIsAsked(cfg: Config, m: Table, es: seq<Event>, c: string, now: real)
    requires Counting(cfg, m, es, c, now)
    ensures CountBefore(m, c, now)
         == if Live(m, GeneralKey(c), now) then Asked(cfg, es, c, m[GeneralKey(c)].expires - 60.0) else 0
  {
    hide Asked, Passed;
  }

  /** Only a login is ever locked out, and exactly when its open window holds the failures allowed. */
  lemma LockedOutExactly(cfg: Config, s: System, e: Event)
    requires e.Begin?
    ensures VerdictOf(cfg, s, e) == LockedOut <==>
              e.isLogin && (if Live(s.local, FailKey(e.client), e.now) then s.local[FailKey(e.client)].count else 0) >= cfg.failures
  {}
}
