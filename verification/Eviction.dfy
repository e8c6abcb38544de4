/**
 Pruning idle entries is unobservable, exactly when a request cannot stay between its get and its Allow for so
 long that an evicted bucket may be less than full: the bound on that delay d is rate * (idle - d) >= burst.
 */
module Eviction {
  import opened RateLimiting
  import opened LimiterTraces

  // ---------------------------------------------------------------- the simulation

  /** The limiter that never forgets: a waiting request always holds its address's current bucket. */
  ghost predicate NeverForgets(n: State) {
    forall q :: q in n.waiting ==> q.ip in n.entries && n.waiting[q].limiter == n.entries[q.ip].limiter
  }

  /** One address, pruned against unpruned: same tokens if both know it, a full bucket if only the second does. */
  ghost predicate SameTokens(cfg: Config, delay: real, s: State, n: State, ip: string)
    requires ip in s.entries ==> s.entries[ip].limiter in s.buckets
    requires ip in n.entries ==> n.entries[ip].limiter in n.buckets
  {
    && (ip in s.entries ==>
      && ip in n.entries
      && Level(cfg, s.buckets[s.entries[ip].limiter], s.clock) == Level(cfg, n.buckets[n.entries[ip].limiter], s.clock)
      && s.buckets[s.entries[ip].limiter].last <= s.entries[ip].lastSeen + delay)
    && (ip in n.entries && ip !in s.entries ==>
      Level(cfg, n.buckets[n.entries[ip].limiter], s.clock) == cfg.burst as real)
  }

  /** A request that may still be served promptly holds its address's current bucket, which it has marked as seen. */
  ghost predicate HoldsCurrent(s: State, q: Request, delay: real)
    requires q in s.waiting
  {
    s.clock <= s.waiting[q].since + delay ==>
      && q.ip in s.entries
      && s.waiting[q].limiter == s.entries[q.ip].limiter
      && s.waiting[q].since <= s.entries[q.ip].lastSeen
  }

  ghost predicate SameRequests(s: State, n: State) {
    && s.waiting.Keys == n.waiting.Keys
    && forall q :: q in s.waiting ==> s.waiting[q].since == n.waiting[q].since
  }

  ghost predicate Simulates(cfg: Config, delay: real, s: State, n: State) {
    && Ok(cfg, s) && Ok(cfg, n)
    && s.clock == n.clock
    && n.buckets.Keys <= s.buckets.Keys
    && SameRequests(s, n)
    && NeverForgets(n)
    && (forall q :: q in s.waiting ==> HoldsCurrent(s, q, delay))
    && (forall ip :: SameTokens(cfg, delay, s, n, ip))
  }

  /** The delay bound under which an evicted bucket is full and no prompt request still holds it. */
  ghost predicate Safe(cfg: Config, delay: real) {
    Sensible(cfg) && cfg.rate * (cfg.idle - delay) >= cfg.burst as real
  }

  lemma FactorIsNonNegative(r: real, x: real)
    requires r > 0.0 && r * x >= 0.0
    ensures x >= 0.0
  {
  }

  lemma SafeDelayIsShort(cfg: Config, delay: real)
    requires Safe(cfg, delay)
    ensures delay <= cfg.idle
  {
    FactorIsNonNegative(cfg.rate, cfg.idle - delay);
  }

  lemma AdvanceSameTokens(cfg: Config, delay: real, s: State, n: State, d: real, ip: string)
    requires Sensible(cfg) && Ok(cfg, s) && Ok(cfg, n) && s.clock == n.clock && d >= 0.0
    requires SameTokens(cfg, delay, s, n, ip)
    ensures SameTokens(cfg, delay, s.(clock := s.clock + d), n.(clock := n.clock + d), ip)
  {
    if ip in n.entries {
      var b := n.buckets[n.entries[ip].limiter];
      if ip in s.entries {
        EqualLevelsStayEqual(cfg, s.buckets[s.entries[ip].limiter], b, s.clock, s.clock + d);
      } else {
        FullStaysFull(cfg, b, s.clock, s.clock + d);
      }
    }
  }

  lemma AdvanceSimulates(cfg: Config, delay: real, s: State, n: State, d: real)
    requires Sensible(cfg) && Simulates(cfg, delay, s, n) && d >= 0.0
    ensures Simulates(cfg, delay, Next(cfg, s, Advance(d)), Next(cfg, n, Advance(d)))
  {
    var s', n' := Next(cfg, s, Advance(d)), Next(cfg, n, Advance(d));
    StepKeepsOk(cfg, s, Advance(d));
    StepKeepsOk(cfg, n, Advance(d));
    forall q | q in s'.waiting ensures HoldsCurrent(s', q, delay) {
      assert HoldsCurrent(s, q, delay);
    }
    forall ip ensures SameTokens(cfg, delay, s', n', ip) {
      assert SameTokens(cfg, delay, s, n, ip);
      AdvanceSameTokens(cfg, delay, s, n, d, ip);
    }
  }

  lemma GetSameTokens(cfg: Config, delay: real, s: State, n: State, q: Request, address: nat, ip: string)
    requires 0.0 <= delay && Simulates(cfg, delay, s, n)
    requires Enabled(s, Get(q, address)) && Enabled(n, Get(q, address))
    ensures var s', n' := Next(cfg, s, Get(q, address)), Next(cfg, n, Get(q, address));
            && (ip in s'.entries ==> s'.entries[ip].limiter in s'.buckets)
            && (ip in n'.entries ==> n'.entries[ip].limiter in n'.buckets)
            && SameTokens(cfg, delay, s', n', ip)
  {
    assert SameTokens(cfg, delay, s, n, ip);
    FreshIsFull(cfg, s.clock);
  }

  lemma GetHoldsCurrent(cfg: Config, delay: real, s: State, q: Request, address: nat, r: Request)
    requires Ok(cfg, s) && Enabled(s, Get(q, address)) && r in s.waiting && HoldsCurrent(s, r, delay)
    ensures r in Next(cfg, s, Get(q, address)).waiting && HoldsCurrent(Next(cfg, s, Get(q, address)), r, delay)
  {
  }

  lemma GetKeepsRequests(cfg: Config, s: State, n: State, q: Request, address: nat)
    requires s.clock == n.clock && SameRequests(s, n) && NeverForgets(n)
    requires Enabled(s, Get(q, address)) && Enabled(n, Get(q, address))
    ensures SameRequests(Next(cfg, s, Get(q, address)), Next(cfg, n, Get(q, address)))
    ensures NeverForgets(Next(cfg, n, Get(q, address)))
  {
  }

  lemma GetSimulates(cfg: Config, delay: real, s: State, n: State, q: Request, address: nat)
    requires Sensible(cfg) && 0.0 <= delay && Simulates(cfg, delay, s, n) && Enabled(s, Get(q, address))
    ensures Enabled(n, Get(q, address))
    ensures Simulates(cfg, delay, Next(cfg, s, Get(q, address)), Next(cfg, n, Get(q, address)))
  {
    var s', n' := Next(cfg, s, Get(q, address)), Next(cfg, n, Get(q, address));
    StepKeepsOk(cfg, s, Get(q, address));
    StepKeepsOk(cfg, n, Get(q, address));
    assert SameTokens(cfg, delay, s, n, q.ip);
    GetKeepsRequests(cfg, s, n, q, address);
    forall r | r in s'.waiting ensures HoldsCurrent(s', r, delay) {
      if r != q {
        GetHoldsCurrent(cfg, delay, s, q, address, r);
      }
    }
    forall ip ensures SameTokens(cfg, delay, s', n', ip) {
      GetSameTokens(cfg, delay, s, n, q, address, ip);
    }
  }

  /** Two buckets with equal tokens decide alike and stay equal. */
  lemma EqualLevelsAllowAlike(cfg: Config, a: Bucket, b: Bucket, t: real)
    requires Level(cfg, a, t) == Level(cfg, b, t) && 0.0 <= a.tokens && 0.0 <= b.tokens
    ensures Admits(cfg, a, t) == Admits(cfg, b, t)
    ensures Level(cfg, AfterAllow(cfg, a, t), t) == Level(cfg, AfterAllow(cfg, b, t), t)
  {
  }

  lemma AllowSimulates(cfg: Config, delay: real, s: State, n: State, q: Request)
    requires Sensible(cfg) && Simulates(cfg, delay, s, n)
    requires Enabled(s, Allow(q)) && PromptStep(s, Allow(q), delay)
    ensures Enabled(n, Allow(q))
    ensures DecisionsOf(cfg, s, Allow(q)) == DecisionsOf(cfg, n, Allow(q))
    ensures Simulates(cfg, delay, Next(cfg, s, Allow(q)), Next(cfg, n, Allow(q)))
  {
    var s', n' := Next(cfg, s, Allow(q)), Next(cfg, n, Allow(q));
    StepKeepsOk(cfg, s, Allow(q));
    StepKeepsOk(cfg, n, Allow(q));
    assert HoldsCurrent(s, q, delay) && SameTokens(cfg, delay, s, n, q.ip);
    var l, m := s.waiting[q].limiter, n.waiting[q].limiter;
    EqualLevelsAllowAlike(cfg, s.buckets[l], n.buckets[m], s.clock);
    assert Holds(s, q.ip, l) && Holds(n, q.ip, m);
    forall r | r in s'.waiting ensures HoldsCurrent(s', r, delay) {
      assert HoldsCurrent(s, r, delay);
    }
    forall ip ensures SameTokens(cfg, delay, s', n', ip) {
      assert SameTokens(cfg, delay, s, n, ip);
      if ip != q.ip {
        assert ip in s.entries ==> Holds(s, ip, s.entries[ip].limiter);
        assert ip in n.entries ==> Holds(n, ip, n.entries[ip].limiter);
      }
    }
  }

  /** An evicted bucket is full, and every request that holds it is overdue. */
  lemma SweepSimulates(cfg: Config, delay: real, s: State, n: State, ips: set<string>)
    requires Safe(cfg, delay) && Simulates(cfg, delay, s, n)
    ensures Simulates(cfg, delay, Next(cfg, s, Sweep(ips)), n)
  {
    var s' := Next(cfg, s, Sweep(ips));
    StepKeepsOk(cfg, s, Sweep(ips));
    SafeDelayIsShort(cfg, delay);
    forall q | q in s'.waiting ensures HoldsCurrent(s', q, delay) {
      assert HoldsCurrent(s, q, delay);
    }
    forall ip ensures SameTokens(cfg, delay, s', n, ip) {
      assert SameTokens(cfg, delay, s, n, ip);
      if ip in s.entries && ip !in s'.entries {
        IdleIsFull(cfg, s.buckets[s.entries[ip].limiter], s.clock, cfg.idle - delay);
      }
    }
  }

  lemma {:induction false} TraceSimulates(cfg: Config, delay: real, s: State, n: State, steps: seq<Step>)
    requires Safe(cfg, delay) && 0.0 <= delay && Simulates(cfg, delay, s, n)
    requires Feasible(cfg, s, steps) && Prompt(cfg, s, steps, delay)
    ensures Feasible(cfg, n, WithoutSweeps(steps))
    ensures Decisions(cfg, s, steps) == Decisions(cfg, n, WithoutSweeps(steps))
    ensures Simulates(cfg, delay, Run(cfg, s, steps), Run(cfg, n, WithoutSweeps(steps)))
    decreases |steps|
  {
    if steps == [] {
    } else {
      var e, rest := steps[0], steps[1..];
      var s' := Next(cfg, s, e);
      if e.Sweep? {
        SweepSimulates(cfg, delay, s, n, e.ips);
        assert WithoutSweeps(steps) == WithoutSweeps(rest);
        TraceSimulates(cfg, delay, s', n, rest);
      } else {
        match e {
          case Advance(d) => AdvanceSimulates(cfg, delay, s, n, d);
          case Get(q, address) => GetSimulates(cfg, delay, s, n, q, address);
          case Allow(q) => AllowSimulates(cfg, delay, s, n, q);
        }
        TraceSimulates(cfg, delay, s', Next(cfg, n, e), rest);
        assert WithoutSweeps(steps)[1..] == WithoutSweeps(rest);
      }
    }
  }

  lemma InitSimulates(cfg: Config, delay: real)
    ensures Simulates(cfg, delay, Init(), Init())
  {
  }
}
