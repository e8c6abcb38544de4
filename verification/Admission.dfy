/** How many requests of one address the limiter admits in a window of time. */
module Admission {
  import opened RateLimiting
  import opened LimiterTraces
  import opened Eviction

  function Admitted(ip: string, ds: seq<Decision>): nat {
    if ds == [] then 0
    else (if ds[0] == Decision(ip, true) then 1 else 0) + Admitted(ip, ds[1..])
  }

  lemma {:induction false} AdmittedConcat(ip: string, a: seq<Decision>, b: seq<Decision>)
    ensures Admitted(ip, a + b) == Admitted(ip, a) + Admitted(ip, b)
    decreases |a|
  {
    if a == [] {
      assert a + b == b;
    } else {
      assert (a + b)[1..] == a[1..] + b;
      AdmittedConcat(ip, a[1..], b);
    }
  }

  // ---------------------------------------------------------------- the rate over a window

  /** The tokens an address could use now; an address not yet known would start with a full bucket. */
  function TokensOf(cfg: Config, s: State, ip: string): real {
    if ip in s.entries && s.entries[ip].limiter in s.buckets then
      Level(cfg, s.buckets[s.entries[ip].limiter], s.clock)
    else cfg.burst as real
  }

  lemma RefillIsBounded(cfg: Config, b: Bucket, t: real, u: real)
    requires Sensible(cfg) && b.last <= t <= u
    ensures Level(cfg, b, u) <= Level(cfg, b, t) + cfg.rate * (u - t)
  {
    LevelComposes(cfg, b, t, u);
  }

  /** Between two states, an address was admitted no more often than its tokens and the refill pay for. */
  ghost predicate Paid(cfg: Config, ip: string, n: State, ds: seq<Decision>, n': State) {
    && n.clock <= n'.clock
    && Admitted(ip, ds) as real + TokensOf(cfg, n', ip) <= TokensOf(cfg, n, ip) + cfg.rate * (n'.clock - n.clock)
  }

  lemma AdvancePays(cfg: Config, n: State, d: real, ip: string)
    requires Sensible(cfg) && Ok(cfg, n) && d >= 0.0
    ensures Paid(cfg, ip, n, [], n.(clock := n.clock + d))
  {
    TimesNonNegative(cfg.rate, d);
    if ip in n.entries {
      RefillIsBounded(cfg, n.buckets[n.entries[ip].limiter], n.clock, n.clock + d);
    }
  }

  lemma GetPays(cfg: Config, n: State, q: Request, address: nat, ip: string)
    requires Sensible(cfg) && Ok(cfg, n) && Enabled(n, Get(q, address))
    ensures Paid(cfg, ip, n, [], Next(cfg, n, Get(q, address)))
  {
    TimesZero(cfg.rate, n.clock - n.clock);
    FreshIsFull(cfg, n.clock);
  }

  lemma AllowPays(cfg: Config, n: State, q: Request, ip: string)
    requires Sensible(cfg) && Ok(cfg, n) && NeverForgets(n) && Enabled(n, Allow(q))
    ensures Paid(cfg, ip, n, DecisionsOf(cfg, n, Allow(q)), Next(cfg, n, Allow(q)))
  {
    TimesZero(cfg.rate, n.clock - n.clock);
    var l := n.waiting[q].limiter;
    assert Holds(n, q.ip, l);
    if ip in n.entries && ip != q.ip {
      assert Holds(n, ip, n.entries[ip].limiter);
    }
    AllowSpendsOne(cfg, n.buckets[l], n.clock);
    var d := DecisionsOf(cfg, n, Allow(q))[0];
    assert Admitted(ip, [d]) == if d == Decision(ip, true) then 1 else 0;
  }

  lemma StepSpendsTokens(cfg: Config, n: State, e: Step, ip: string)
    requires Sensible(cfg) && Ok(cfg, n) && NeverForgets(n) && Enabled(n, e) && !e.Sweep?
    ensures NeverForgets(Next(cfg, n, e))
    ensures Paid(cfg, ip, n, DecisionsOf(cfg, n, e), Next(cfg, n, e))
  {
    match e
    case Advance(d) => AdvancePays(cfg, n, d, ip);
    case Get(q, address) => GetPays(cfg, n, q, address, ip);
    case Allow(q) => AllowPays(cfg, n, q, ip);
  }

  lemma AllowSpendsOne(cfg: Config, b: Bucket, t: real)
    requires BucketOk(cfg, b, t)
    ensures Level(cfg, AfterAllow(cfg, b, t), t) == Level(cfg, b, t) - if Admits(cfg, b, t) then 1.0 else 0.0
  {
    if Admits(cfg, b, t) {
      TimesZero(cfg.rate, t - AfterAllow(cfg, b, t).last);
    }
  }

  predicate SweepFree(steps: seq<Step>) {
    forall i :: 0 <= i < |steps| ==> !steps[i].Sweep?
  }

  lemma TimesAdds(r: real, a: real, b: real, c: real)
    ensures r * (c - a) == r * (b - a) + r * (c - b)
  {
  }

  lemma PaymentsAdd(cfg: Config, ip: string, n: State, first: seq<Decision>, m: State, second: seq<Decision>, n': State)
    requires Paid(cfg, ip, n, first, m) && Paid(cfg, ip, m, second, n')
    ensures Paid(cfg, ip, n, first + second, n')
  {
    AdmittedConcat(ip, first, second);
    TimesAdds(cfg.rate, n.clock, m.clock, n'.clock);
  }

  lemma {:induction false} RunSpendsTokens(cfg: Config, n: State, steps: seq<Step>, ip: string)
    requires Sensible(cfg) && Ok(cfg, n) && NeverForgets(n) && Feasible(cfg, n, steps) && SweepFree(steps)
    ensures Ok(cfg, Run(cfg, n, steps)) && Paid(cfg, ip, n, Decisions(cfg, n, steps), Run(cfg, n, steps))
    decreases |steps|
  {
    if steps == [] {
      TimesZero(cfg.rate, n.clock - n.clock);
    } else {
      var m := Next(cfg, n, steps[0]);
      StepKeepsOk(cfg, n, steps[0]);
      StepSpendsTokens(cfg, n, steps[0], ip);
      RunSpendsTokens(cfg, m, steps[1..], ip);
      PaymentsAdd(cfg, ip, n, DecisionsOf(cfg, n, steps[0]), m, Decisions(cfg, m, steps[1..]), Run(cfg, n, steps));
    }
  }

  lemma {:induction false} WithoutSweepsIsSweepFree(steps: seq<Step>)
    ensures SweepFree(WithoutSweeps(steps))
    decreases |steps|
  {
    if steps == [] {
    } else {
      WithoutSweepsIsSweepFree(steps[1..]);
    }
  }

  lemma TokensAreBounded(cfg: Config, n: State, ip: string)
    requires Sensible(cfg) && Ok(cfg, n)
    ensures 0.0 <= TokensOf(cfg, n, ip) <= cfg.burst as real
  {
    if ip in n.entries {
      LevelIsBounded(cfg, n.buckets[n.entries[ip].limiter], n.clock);
    }
  }

  /** At most a burst plus what the rate allows in the elapsed time. */
  ghost predicate WithinRate(cfg: Config, admitted: nat, elapsed: real) {
    admitted as real <= cfg.burst as real + cfg.rate * elapsed
  }

  lemma PaidIsWithinRate(cfg: Config, ip: string, n: State, ds: seq<Decision>, n': State)
    requires Sensible(cfg) && Ok(cfg, n) && Ok(cfg, n') && Paid(cfg, ip, n, ds, n')
    ensures WithinRate(cfg, Admitted(ip, ds), n'.clock - n.clock)
  {
    TokensAreBounded(cfg, n, ip);
    TokensAreBounded(cfg, n', ip);
  }

  lemma NeverForgettingBound(cfg: Config, n: State, steps: seq<Step>, ip: string)
    requires Sensible(cfg) && Ok(cfg, n) && NeverForgets(n) && Feasible(cfg, n, steps) && SweepFree(steps)
    ensures WithinRate(cfg, Admitted(ip, Decisions(cfg, n, steps)), Run(cfg, n, steps).clock - n.clock)
  {
    RunSpendsTokens(cfg, n, steps, ip);
    PaidIsWithinRate(cfg, ip, n, Decisions(cfg, n, steps), Run(cfg, n, steps));
  }

  /** A stretch of a prompt trace. */
  ghost predicate IsWindow(cfg: Config, delay: real, before: seq<Step>, window: seq<Step>) {
    && Feasible(cfg, Init(), before) && Prompt(cfg, Init(), before, delay)
    && var s := Run(cfg, Init(), before);
       Feasible(cfg, s, window) && Prompt(cfg, s, window, delay)
  }

  /** Over the window, an address gets at most a burst plus what the rate allows. */
  ghost predicate WindowWithinRate(cfg: Config, before: seq<Step>, window: seq<Step>, ip: string)
    requires Feasible(cfg, Init(), before) && Feasible(cfg, Run(cfg, Init(), before), window)
  {
    var s := Run(cfg, Init(), before);
    WithinRate(cfg, Admitted(ip, Decisions(cfg, s, window)), Run(cfg, s, window).clock - s.clock)
  }

  /** Every window of every trace whose Allows come within `delay`, for every address. */
  ghost predicate KeepsRate(cfg: Config, delay: real) {
    forall before, window, ip :: IsWindow(cfg, delay, before, window) ==> WindowWithinRate(cfg, before, window, ip)
  }

  lemma SafeWindowWithinRate(cfg: Config, delay: real, before: seq<Step>, window: seq<Step>, ip: string)
    requires Safe(cfg, delay) && 0.0 <= delay && IsWindow(cfg, delay, before, window)
    ensures WindowWithinRate(cfg, before, window, ip)
  {
    var s := Run(cfg, Init(), before);
    InitSimulates(cfg, delay);
    TraceSimulates(cfg, delay, Init(), Init(), before);
    WindowBoundFrom(cfg, delay, s, Run(cfg, Init(), WithoutSweeps(before)), window, ip);
  }

  lemma WindowBoundFrom(cfg: Config, delay: real, s: State, n: State, window: seq<Step>, ip: string)
    requires Safe(cfg, delay) && 0.0 <= delay && Simulates(cfg, delay, s, n)
    requires Feasible(cfg, s, window) && Prompt(cfg, s, window, delay)
    ensures WithinRate(cfg, Admitted(ip, Decisions(cfg, s, window)), Run(cfg, s, window).clock - s.clock)
  {
    TraceSimulates(cfg, delay, s, n, window);
    WithoutSweepsIsSweepFree(window);
    NeverForgettingBound(cfg, n, WithoutSweeps(window), ip);
  }
}
