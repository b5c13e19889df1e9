/** The sliding-window limit on feedback (manage/feedback/routes.py:11-20): at most twenty
    requests of a node in any minute. The code keeps only the accepted requests of the last
    minute; the log here keeps every request. The clock is read before the lock is taken, so
    requests may be served out of the order of their times. */
module RateLimiter {
  import opened Seqs

  const LIMIT: nat := 20
  const WINDOW: real := 60.0

  /** The times after a cutoff. */
  function After(times: seq<real>, cutoff: real): (r: seq<real>)
    ensures |r| <= |times|
  {
    if |times| == 0 then []
    else (if times[0] > cutoff then [times[0]] else []) + After(times[1..], cutoff)
  }

  type Rates = map<string, seq<real>>

  function Kept(rates: Rates, node: string): seq<real> {
    if node in rates then rates[node] else []
  }

  predicate Admits(rates: Rates, node: string, now: real) {
    |After(Kept(rates, node), now - WINDOW)| < LIMIT
  }

  function Serve(rates: Rates, node: string, now: real): Rates {
    var recent := After(Kept(rates, node), now - WINDOW);
    rates[node := if |recent| < LIMIT then recent + [now] else recent]
  }

  class FeedbackRates {
    var rate: Rates

    constructor ()
      ensures rate == map[]
    {
      rate := map[];
    }

    method Allow(node: string, now: real) returns (ok: bool)
      modifies this
      ensures rate == Serve(old(rate), node, now) && ok == Admits(old(rate), node, now)
    {
      var cutoff := now - WINDOW;
      var times := if node in rate then rate[node] else [];
      var xs := Prune(times, cutoff);
      if |xs| >= LIMIT {
        rate := rate[node := xs];
        return false;
      }
      rate := rate[node := xs + [now]];
      return true;
    }
  }

  method Prune(times: seq<real>, cutoff: real) returns (xs: seq<real>)
    ensures xs == After(times, cutoff)
  {
    xs := [];
    for i := 0 to |times|
      invariant xs == After(times[..i], cutoff)
    {
      AfterSnoc(times[..i], times[i], cutoff);
      TakeSnoc(times, i);
      if times[i] > cutoff {
        xs := xs + [times[i]];
      }
    }
    assert times[..|times|] == times;
  }

  lemma {:induction false} AfterSnoc(times: seq<real>, now: real, cutoff: real)
    ensures After(times + [now], cutoff) == After(times, cutoff) + (if now > cutoff then [now] else [])
  {
    if |times| == 0 {
      assert [now][1..] == [];
    } else {
      var first := if times[0] > cutoff then [times[0]] else [];
      DropConcat(times, [now], 1);
      AfterSnoc(times[1..], now, cutoff);
      Assoc(first, After(times[1..], cutoff), if now > cutoff then [now] else []);
    }
  }

  // -------------------------------------------------------------------- every run

  datatype Arrival = Arrival(node: string, at: real)

  datatype Request = Request(node: string, at: real, accepted: bool)

  /** What the server holds, and everything it was ever asked. */
  datatype State = State(rates: Rates, log: seq<Request>)

  function Step(s: State, a: Arrival): State {
    State(Serve(s.rates, a.node, a.at), s.log + [Request(a.node, a.at, Admits(s.rates, a.node, a.at))])
  }

  function Run(arrivals: seq<Arrival>): State {
    if |arrivals| == 0 then State(map[], [])
    else Step(Run(arrivals[..|arrivals| - 1]), arrivals[|arrivals| - 1])
  }

  /** No request is served after one that is more than late seconds younger. */
  predicate LateBy(arrivals: seq<Arrival>, late: real) {
    forall i, j :: 0 <= i < j < |arrivals| ==> arrivals[i].at <= arrivals[j].at + late
  }

  function Earlier(arrivals: seq<Arrival>): seq<Arrival>
    requires |arrivals| > 0
  {
    arrivals[..|arrivals| - 1]
  }

  /** The accepted requests of a node, in the order they were served. */
  function Accepted(log: seq<Request>, node: string): seq<real> {
    if |log| == 0 then []
    else
      var r := log[|log| - 1];
      Accepted(log[..|log| - 1], node) + (if r.node == node && r.accepted then [r.at] else [])
  }

  /** Those after horizon that no later request of the node came a minute or more after. */
  function Standing(log: seq<Request>, node: string, horizon: real): seq<real> {
    if |log| == 0 then []
    else
      var r, before := log[|log| - 1], log[..|log| - 1];
      if r.node != node then Standing(before, node, horizon)
      else
        Standing(before, node, Later(horizon, r.at - WINDOW)) +
          (if r.accepted && r.at > horizon then [r.at] else [])
  }

  function Later(x: real, y: real): real {
    if x < y then y else x
  }

  lemma AcceptedSnoc(log: seq<Request>, r: Request, node: string)
    ensures Accepted(log + [r], node) == Accepted(log, node) + (if r.node == node && r.accepted then [r.at] else [])
  {
    assert (log + [r])[..|log|] == log;
  }

  lemma StandingSnoc(log: seq<Request>, r: Request, node: string, horizon: real)
    ensures r.node != node ==> Standing(log + [r], node, horizon) == Standing(log, node, horizon)
    ensures r.node == node ==> (
      Standing(log + [r], node, horizon) ==
      Standing(log, node, Later(horizon, r.at - WINDOW)) + (if r.accepted && r.at > horizon then [r.at] else []))
  {
    assert (log + [r])[..|log|] == log;
  }

  // ------------------------------------------------- what the kept list stands for

  /** The kept list of a node, looked at from any time on. */
  ghost predicate Agrees(s: State, node: string) {
    forall horizon: real :: After(Kept(s.rates, node), horizon) == Standing(s.log, node, horizon)
  }

  lemma {:induction false} AfterTwice(times: seq<real>, x: real, y: real)
    ensures After(After(times, x), y) == After(times, Later(x, y))
  {
    if |times| > 0 {
      AfterTwice(times[1..], x, y);
      if times[0] > x {
        assert ([times[0]] + After(times[1..], x))[1..] == After(times[1..], x);
      } else {
        EmptyLeft(After(times[1..], x));
        EmptyLeft(After(times[1..], Later(x, y)));
      }
    }
  }

  /** Serving a request of the node prunes, and appends it if it is admitted. */
  lemma ServedKeeps(s: State, a: Arrival, horizon: real)
    requires Agrees(s, a.node)
    ensures After(Kept(Step(s, a).rates, a.node), horizon) == Standing(Step(s, a).log, a.node, horizon)
  {
    var kept, cutoff := Kept(s.rates, a.node), a.at - WINDOW;
    var xs, r := After(kept, cutoff), Request(a.node, a.at, Admits(s.rates, a.node, a.at));
    AfterTwice(kept, cutoff, horizon);
    assert After(kept, Later(cutoff, horizon)) == Standing(s.log, a.node, Later(cutoff, horizon));
    StandingSnoc(s.log, r, a.node, horizon);
    AfterSnoc(xs, a.at, horizon);
    EmptyRight(After(xs, horizon));
  }

  lemma StepAgrees(s: State, a: Arrival, node: string)
    requires Agrees(s, node)
    ensures Agrees(Step(s, a), node)
  {
    var r := Request(a.node, a.at, Admits(s.rates, a.node, a.at));
    forall horizon: real
      ensures After(Kept(Step(s, a).rates, node), horizon) == Standing(Step(s, a).log, node, horizon)
    {
      if a.node == node {
        ServedKeeps(s, a, horizon);
      } else {
        StandingSnoc(s.log, r, node, horizon);
        assert After(Kept(s.rates, node), horizon) == Standing(s.log, node, horizon);
      }
    }
  }

  /** After every run, in whatever order requests are served, the kept list of a node is the
      accepted requests that no later request has outlived. */
  lemma {:induction false} RunAgrees(arrivals: seq<Arrival>, node: string)
    ensures Agrees(Run(arrivals), node)
    decreases |arrivals|
  {
    if |arrivals| > 0 {
      RunAgrees(Earlier(arrivals), node);
      StepAgrees(Run(Earlier(arrivals)), arrivals[|arrivals| - 1], node);
    }
  }

  /** A request is admitted exactly when fewer than twenty such requests lie in the minute up
      to it. */
  lemma AdmittedExactly(arrivals: seq<Arrival>, node: string, now: real)
    ensures Admits(Run(arrivals).rates, node, now) <==> |Standing(Run(arrivals).log, node, now - WINDOW)| < LIMIT
  {
    RunAgrees(arrivals, node);
    assert After(Kept(Run(arrivals).rates, node), now - WINDOW) == Standing(Run(arrivals).log, node, now - WINDOW);
  }

  // ------------------------------------------------------ against the full record

  /** Nothing after the horizon is outlived: every request of the node is less than a minute
      younger than it. */
  ghost predicate Unexpired(log: seq<Request>, node: string, horizon: real) {
    forall r <- log :: r.node == node ==> r.at <= horizon + WINDOW
  }

  lemma UnexpiredBefore(log: seq<Request>, node: string, horizon: real)
    requires |log| > 0 && Unexpired(log, node, horizon)
    ensures Unexpired(log[..|log| - 1], node, horizon)
    ensures log[|log| - 1].node == node ==> log[|log| - 1].at <= horizon + WINDOW
  {
  }

  lemma {:induction false} StandingIsWindow(log: seq<Request>, node: string, horizon: real)
    requires Unexpired(log, node, horizon)
    ensures Standing(log, node, horizon) == After(Accepted(log, node), horizon)
    decreases |log|
  {
    if |log| > 0 {
      var r, before := log[|log| - 1], log[..|log| - 1];
      UnexpiredBefore(log, node, horizon);
      StandingIsWindow(before, node, horizon);
      AfterSnoc(Accepted(before, node), r.at, horizon);
      EmptyRight(Accepted(before, node));
      EmptyRight(After(Accepted(before, node), horizon));
    }
  }

  lemma {:induction false} StandingAtMost(log: seq<Request>, node: string, horizon: real, early: real)
    requires early <= horizon
    ensures |Standing(log, node, horizon)| <= |After(Accepted(log, node), early)|
    decreases |log|
  {
    if |log| > 0 {
      var r, before := log[|log| - 1], log[..|log| - 1];
      StandingAtMost(before, node, if r.node == node then Later(horizon, r.at - WINDOW) else horizon, early);
      AfterSnoc(Accepted(before, node), r.at, early);
      EmptyRight(Accepted(before, node));
    }
  }

  /** A refused request always had twenty accepted ones of its node in the minute up to it. */
  lemma RefusedOnlyWhenFull(arrivals: seq<Arrival>, node: string, now: real)
    requires !Admits(Run(arrivals).rates, node, now)
    ensures |After(Accepted(Run(arrivals).log, node), now - WINDOW)| >= LIMIT
  {
    AdmittedExactly(arrivals, node, now);
    StandingAtMost(Run(arrivals).log, node, now - WINDOW, now - WINDOW);
  }

  /** If none of its earlier requests is younger, a request is refused exactly when twenty
      accepted ones lie in the minute up to it, and the list then kept is that minute's. */
  lemma RefusedExactlyWhenFull(arrivals: seq<Arrival>, node: string, now: real)
    requires Unexpired(Run(arrivals).log, node, now - WINDOW)
    ensures !Admits(Run(arrivals).rates, node, now) <==>
      |After(Accepted(Run(arrivals).log, node), now - WINDOW)| >= LIMIT
    ensures After(Kept(Run(arrivals).rates, node), now - WINDOW) ==
      After(Accepted(Run(arrivals).log, node), now - WINDOW)
  {
    RunAgrees(arrivals, node);
    StandingIsWindow(Run(arrivals).log, node, now - WINDOW);
    assert After(Kept(Run(arrivals).rates, node), now - WINDOW) == Standing(Run(arrivals).log, node, now - WINDOW);
  }

  // ------------------------------------------------------- how many in a window

  /** The times after lo and not after hi. */
  function Within(times: seq<real>, lo: real, hi: real): seq<real> {
    if |times| == 0 then []
    else
      var n := |times| - 1;
      Within(times[..n], lo, hi) + (if lo < times[n] <= hi then [times[n]] else [])
  }

  lemma WithinSnoc(times: seq<real>, x: real, lo: real, hi: real)
    ensures Within(times + [x], lo, hi) == Within(times, lo, hi) + (if lo < x <= hi then [x] else [])
  {
    assert (times + [x])[..|times|] == times;
  }

  lemma {:induction false} WithinStands(log: seq<Request>, node: string, lo: real, hi: real, horizon: real)
    requires horizon <= lo && Unexpired(log, node, lo)
    ensures |Within(Accepted(log, node), lo, hi)| <= |Standing(log, node, horizon)|
    decreases |log|
  {
    if |log| > 0 {
      var r, before := log[|log| - 1], log[..|log| - 1];
      UnexpiredBefore(log, node, lo);
      WithinStands(before, node, lo, hi, if r.node == node then Later(horizon, r.at - WINDOW) else horizon);
      WithinSnoc(Accepted(before, node), r.at, lo, hi);
      EmptyRight(Accepted(before, node));
    }
  }

  lemma {:induction false} LogTimes(arrivals: seq<Arrival>, bound: real)
    requires forall i :: 0 <= i < |arrivals| ==> arrivals[i].at <= bound
    ensures forall r <- Run(arrivals).log :: r.at <= bound
    decreases |arrivals|
  {
    if |arrivals| > 0 {
      LogTimes(Earlier(arrivals), bound);
    }
  }

  lemma LastWithin(arrivals: seq<Arrival>, late: real, node: string, t: real)
    requires late >= 0.0 && |arrivals| > 0 && LateBy(arrivals, late)
    requires var a := arrivals[|arrivals| - 1];
      a.node == node && a.at <= t && Admits(Run(Earlier(arrivals)).rates, node, a.at)
    ensures |Within(Accepted(Run(Earlier(arrivals)).log, node), t - WINDOW + late, t)| < LIMIT
  {
    var a, before := arrivals[|arrivals| - 1], Earlier(arrivals);
    AdmittedExactly(before, node, a.at);
    LogTimes(before, a.at + late);
    WithinStands(Run(before).log, node, t - WINDOW + late, t, a.at - WINDOW);
  }

  lemma AcceptedStep(arrivals: seq<Arrival>, node: string)
    requires |arrivals| > 0
    ensures var a, s := arrivals[|arrivals| - 1], Run(Earlier(arrivals));
      Accepted(Run(arrivals).log, node) ==
      Accepted(s.log, node) + (if a.node == node && Admits(s.rates, node, a.at) then [a.at] else [])
  {
    var a, s := arrivals[|arrivals| - 1], Run(Earlier(arrivals));
    AcceptedSnoc(s.log, Request(a.node, a.at, Admits(s.rates, a.node, a.at)), node);
  }

  lemma StepWithin(arrivals: seq<Arrival>, late: real, node: string, t: real, before: seq<real>)
    requires late >= 0.0 && |arrivals| > 0 && LateBy(arrivals, late)
    requires before == Accepted(Run(Earlier(arrivals)).log, node) && |Within(before, t - WINDOW + late, t)| <= LIMIT
    ensures |Within(Accepted(Run(arrivals).log, node), t - WINDOW + late, t)| <= LIMIT
  {
    var a := arrivals[|arrivals| - 1];
    AcceptedStep(arrivals, node);
    EmptyRight(before);
    WithinSnoc(before, a.at, t - WINDOW + late, t);
    if a.node == node && a.at <= t && Admits(Run(Earlier(arrivals)).rates, node, a.at) {
      LastWithin(arrivals, late, node, t);
    }
  }

  /** If requests are served at most late seconds out of order, every stretch of a minute less
      late seconds holds at most twenty accepted ones of a node. */
  lemma {:induction false} AtMostTwentyWithin(arrivals: seq<Arrival>, late: real, node: string, t: real)
    requires late >= 0.0 && LateBy(arrivals, late)
    ensures |Within(Accepted(Run(arrivals).log, node), t - WINDOW + late, t)| <= LIMIT
    decreases |arrivals|
  {
    if |arrivals| > 0 {
      AtMostTwentyWithin(Earlier(arrivals), late, node, t);
      StepWithin(arrivals, late, node, t, Accepted(Run(Earlier(arrivals)).log, node));
    }
  }

  /** Served in the order of their times, every minute holds at most twenty. */
  lemma AtMostTwentyAMinute(arrivals: seq<Arrival>, node: string, t: real)
    requires LateBy(arrivals, 0.0)
    ensures |Within(Accepted(Run(arrivals).log, node), t - WINDOW, t)| <= LIMIT
  {
    AtMostTwentyWithin(arrivals, 0.0, node, t);
  }

  // --------------------------------------------------------- requests out of order

  function Copies(x: real, n: nat): seq<real> {
    if n == 0 then [] else Copies(x, n - 1) + [x]
  }

  function Burst(node: string, x: real, n: nat): seq<Arrival> {
    if n == 0 then [] else Burst(node, x, n - 1) + [Arrival(node, x)]
  }

  lemma {:induction false} CopiesAfter(x: real, n: nat, lo: real)
    ensures After(Copies(x, n), lo) == if x > lo then Copies(x, n) else []
    ensures |Copies(x, n)| == n
  {
    if n > 0 {
      CopiesAfter(x, n - 1, lo);
      AfterSnoc(Copies(x, n - 1), x, lo);
    }
  }

  lemma {:induction false} CopiesWithin(x: real, n: nat, lo: real, hi: real)
    requires lo < x <= hi
    ensures |Within(Copies(x, n), lo, hi)| == n
  {
    if n > 0 {
      CopiesWithin(x, n - 1, lo, hi);
      WithinSnoc(Copies(x, n - 1), x, lo, hi);
    }
  }

  lemma RunSnoc(arrivals: seq<Arrival>, a: Arrival)
    ensures Run(arrivals + [a]) == Step(Run(arrivals), a)
  {
    assert (arrivals + [a])[..|arrivals|] == arrivals;
  }

  lemma {:induction false} BurstAt(node: string, x: real, n: nat)
    ensures forall a <- Burst(node, x, n) :: a == Arrival(node, x)
  {
    if n > 0 {
      BurstAt(node, x, n - 1);
    }
  }

  /** All accepted requests of the node are kept. */
  predicate Holds(s: State, node: string, times: seq<real>) {
    Kept(s.rates, node) == times && Accepted(s.log, node) == times
  }

  lemma BurstStep(s: State, node: string, x: real, n: nat)
    requires n < LIMIT && Holds(s, node, Copies(x, n))
    ensures Holds(Step(s, Arrival(node, x)), node, Copies(x, n + 1))
  {
    CopiesAfter(x, n, x - WINDOW);
    AcceptedSnoc(s.log, Request(node, x, true), node);
  }

  lemma {:induction false} BurstRuns(node: string, x: real, n: nat)
    requires n <= LIMIT
    ensures Holds(Run(Burst(node, x, n)), node, Copies(x, n))
  {
    if n > 0 {
      var burst, s := Burst(node, x, n - 1), Run(Burst(node, x, n - 1));
      BurstRuns(node, x, n - 1);
      BurstStep(s, node, x, n - 1);
      RunSnoc(burst, Arrival(node, x));
    } else {
      NothingHeld(node);
    }
  }

  lemma NothingHeld(node: string)
    ensures Holds(Run([]), node, [])
  {
  }

  /** Twenty requests at x, one at y a minute or more later, then one at z between them that
      read the clock first: the last is served when the first twenty are forgotten. */
  function Race(node: string, x: real, y: real, z: real): seq<Arrival> {
    Burst(node, x, LIMIT) + [Arrival(node, y)] + [Arrival(node, z)]
  }

  lemma RaceRuns(node: string, x: real, y: real, z: real)
    requires x + WINDOW <= y
    ensures Accepted(Run(Race(node, x, y, z)).log, node) == Copies(x, LIMIT) + [y] + [z]
  {
    var burst := Burst(node, x, LIMIT);
    var s := Run(burst);
    BurstRuns(node, x, LIMIT);
    RunSnoc(burst, Arrival(node, y));
    RunSnoc(burst + [Arrival(node, y)], Arrival(node, z));
    CopiesAfter(x, LIMIT, y - WINDOW);
    assert Serve(s.rates, node, y)[node] == [y];
    AcceptedSnoc(s.log, Request(node, y, true), node);
    assert |After([y], z - WINDOW)| <= 1;
    AcceptedSnoc(s.log + [Request(node, y, true)], Request(node, z, true), node);
  }

  lemma RaceLate(node: string, x: real, y: real, z: real)
    requires x <= z < y
    ensures LateBy(Race(node, x, y, z), y - z)
  {
    var race, burst := Race(node, x, y, z), Burst(node, x, LIMIT);
    BurstAt(node, x, LIMIT);
    assert forall i :: 0 <= i < |burst| ==> race[i] == burst[i] && burst[i] in burst;
  }

  /** So a request that is late by any time at all can be the twenty-first of a stretch just
      longer than a minute less that time: the bound above is exact. */
  lemma LateRequestBreaksLimit(node: string, x: real, y: real, z: real, lo: real)
    requires x + WINDOW <= y && lo < x <= z < y
    ensures LateBy(Race(node, x, y, z), y - z)
    ensures |Within(Accepted(Run(Race(node, x, y, z)).log, node), lo, z)| == LIMIT + 1
  {
    RaceLate(node, x, y, z);
    RaceRuns(node, x, y, z);
    CopiesWithin(x, LIMIT, lo, z);
    WithinSnoc(Copies(x, LIMIT), y, lo, z);
    WithinSnoc(Copies(x, LIMIT) + [y], z, lo, z);
    EmptyRight(Within(Copies(x, LIMIT), lo, z));
  }

  /** Twenty requests at 40.2, one at 100.5, then one at 100.0: twenty-one in one minute. */
  lemma TwentyOneInAMinute(node: string)
    ensures |Within(Accepted(Run(Race(node, 40.2, 100.5, 100.0)).log, node), 100.0 - WINDOW, 100.0)| == 21
  {
    LateRequestBreaksLimit(node, 40.2, 100.5, 100.0, 40.0);
  }
}
