/** The exact delay between get and Allow up to which pruning cannot be observed and the rate is kept. */
module DelayBound {
  import opened Sequences
  import opened RateLimiting
  import opened LimiterTraces
  import opened Eviction
  import opened Admission

  /** On every feasible trace whose Allows come within `delay`, the pruning limiter decides like the unpruned one. */
  ghost predicate Unobservable(cfg: Config, delay: real) {
    forall steps {:trigger Feasible(cfg, Init(), steps)} ::
      Feasible(cfg, Init(), steps) && Prompt(cfg, Init(), steps, delay) ==>
      && Feasible(cfg, Init(), WithoutSweeps(steps))
      && Decisions(cfg, Init(), WithoutSweeps(steps)) == Decisions(cfg, Init(), steps)
  }

  // ---------------------------------------------------------------- putting traces together

  lemma {:induction false} Splice(cfg: Config, s: State, a: seq<Step>, b: seq<Step>, delay: real)
    requires Feasible(cfg, s, a) && Feasible(cfg, Run(cfg, s, a), b)
    ensures Feasible(cfg, s, a + b)
    ensures Run(cfg, s, a + b) == Run(cfg, Run(cfg, s, a), b)
    ensures Decisions(cfg, s, a + b) == Decisions(cfg, s, a) + Decisions(cfg, Run(cfg, s, a), b)
    ensures Prompt(cfg, s, a + b, delay) <==> Prompt(cfg, s, a, delay) && Prompt(cfg, Run(cfg, s, a), b, delay)
    decreases |a|
  {
    if a == [] {
      assert a + b == b;
    } else {
      assert (a + b)[1..] == a[1..] + b && (a + b)[0] == a[0];
      var t := Next(cfg, s, a[0]);
      Splice(cfg, t, a[1..], b, delay);
      ConcatAssociates(DecisionsOf(cfg, s, a[0]), Decisions(cfg, t, a[1..]), Decisions(cfg, Run(cfg, s, a), b));
    }
  }

  lemma {:induction false} SweepsDropOut(a: seq<Step>, b: seq<Step>)
    ensures WithoutSweeps(a + b) == WithoutSweeps(a) + WithoutSweeps(b)
    decreases |a|
  {
    if a == [] {
      assert a + b == b;
    } else {
      assert (a + b)[1..] == a[1..] + b;
      SweepsDropOut(a[1..], b);
    }
  }

  function Elapsed(steps: seq<Step>): real {
    if steps == [] then 0.0
    else (if steps[0].Advance? then steps[0].seconds else 0.0) + Elapsed(steps[1..])
  }

  lemma {:induction false} ElapsedAdds(a: seq<Step>, b: seq<Step>)
    ensures Elapsed(a + b) == Elapsed(a) + Elapsed(b)
    decreases |a|
  {
    if a == [] {
      assert a + b == b;
    } else {
      assert (a + b)[1..] == a[1..] + b;
      ElapsedAdds(a[1..], b);
    }
  }

  lemma {:induction false} ClockElapses(cfg: Config, s: State, steps: seq<Step>)
    requires Feasible(cfg, s, steps)
    ensures Run(cfg, s, steps).clock == s.clock + Elapsed(steps)
    decreases |steps|
  {
    if steps == [] {
    } else {
      ClockElapses(cfg, Next(cfg, s, steps[0]), steps[1..]);
    }
  }

  lemma {:induction false} SweepsTakeNoTime(steps: seq<Step>)
    ensures Elapsed(WithoutSweeps(steps)) == Elapsed(steps)
    decreases |steps|
  {
    if steps == [] {
    } else {
      SweepsTakeNoTime(steps[1..]);
      ElapsedAdds(if steps[0].Sweep? then [] else [steps[0]], WithoutSweeps(steps[1..]));
    }
  }

  /** A trace without Allow steps decides nothing. */
  lemma {:induction false} NoAllowNoDecision(cfg: Config, s: State, steps: seq<Step>, delay: real)
    requires Feasible(cfg, s, steps) && forall i :: 0 <= i < |steps| ==> !steps[i].Allow?
    ensures Decisions(cfg, s, steps) == [] && Prompt(cfg, s, steps, delay)
    decreases |steps|
  {
    if steps == [] {
    } else {
      NoAllowNoDecision(cfg, Next(cfg, s, steps[0]), steps[1..], delay);
    }
  }

  // ---------------------------------------------------------------- a trace that gives pruning away

  const IP := "x"

  /** Requests k - 1 down to 0 of the address. */
  function GetAll(k: nat, address: nat): (steps: seq<Step>)
    ensures forall i :: 0 <= i < |steps| ==> steps[i].Get?
  {
    if k == 0 then [] else [Get(Request(IP, k - 1), address)] + GetAll(k - 1, address)
  }

  function AllowAll(k: nat): (steps: seq<Step>)
    ensures forall i :: 0 <= i < |steps| ==> steps[i].Allow?
  {
    if k == 0 then [] else [Allow(Request(IP, k - 1))] + AllowAll(k - 1)
  }

  ghost predicate AllHold(s: State, k: nat, l: nat, since: real) {
    forall i: nat :: i < k ==> Request(IP, i) in s.waiting && s.waiting[Request(IP, i)] == Waiting(l, since)
  }

  ghost predicate NoneWaits(s: State, k: nat) {
    forall i: nat :: i < k ==> Request(IP, i) !in s.waiting
  }

  lemma {:induction false} GetAllHolds(cfg: Config, s: State, k: nat, l: nat, address: nat)
    requires IP in s.entries && s.entries[IP] == Entry(l, s.clock) && address !in s.buckets && NoneWaits(s, k)
    ensures var steps := GetAll(k, address);
            && Feasible(cfg, s, steps)
            && var t := Run(cfg, s, steps);
               && t == s.(waiting := t.waiting) && AllHold(t, k, l, s.clock)
               && forall q :: q in t.waiting ==> q in s.waiting || (q.ip == IP && q.serial < k)
    ensures forall q :: q in s.waiting ==>
      q in Run(cfg, s, GetAll(k, address)).waiting && Run(cfg, s, GetAll(k, address)).waiting[q] == s.waiting[q]
    decreases k
  {
    if k == 0 {
    } else {
      var t := Next(cfg, s, Get(Request(IP, k - 1), address));
      assert t.entries == s.entries;
      GetAllHolds(cfg, t, k - 1, l, address);
      assert GetAll(k, address)[1..] == GetAll(k - 1, address);
    }
  }

  lemma AllowLeavesTheRest(cfg: Config, b: Bucket, t: real, k: nat)
    requires k > 0 && Level(cfg, b, t) >= k as real
    ensures Admits(cfg, b, t) && Level(cfg, AfterAllow(cfg, b, t), t) >= (k - 1) as real
  {
    TimesZero(cfg.rate, t - AfterAllow(cfg, b, t).last);
  }

  /** With k tokens in the bucket they all hold, k requests are all admitted. */
  lemma {:induction false} AllowAllAdmits(cfg: Config, s: State, k: nat, l: nat, since: real, delay: real)
    requires AllHold(s, k, l, since) && l in s.buckets && Level(cfg, s.buckets[l], s.clock) >= k as real
    requires k <= cfg.burst && s.clock - since <= delay
    ensures var steps := AllowAll(k);
            && Feasible(cfg, s, steps) && Prompt(cfg, s, steps, delay)
            && Admitted(IP, Decisions(cfg, s, steps)) == k
            && var t := Run(cfg, s, steps);
               && t.clock == s.clock && t.entries == s.entries && t.buckets.Keys == s.buckets.Keys
               && NoneWaits(t, k) && t.waiting.Keys <= s.waiting.Keys
    decreases k
  {
    if k == 0 {
    } else {
      var e := Allow(Request(IP, k - 1));
      var t := Next(cfg, s, e);
      AllowLeavesTheRest(cfg, s.buckets[l], s.clock, k);
      AllowAllAdmits(cfg, t, k - 1, l, since, delay);
      assert AllowAll(k)[1..] == AllowAll(k - 1);
      AdmittedConcat(IP, DecisionsOf(cfg, s, e), Decisions(cfg, t, AllowAll(k - 1)));
      assert Admitted(IP, [Decision(IP, true)]) == 1;
    }
  }

  /** A burst of requests gets its bucket at time 0 and waits; the first request of the address never goes on. */
  function Gathering(cfg: Config, wait: real): seq<Step> {
    [Get(Request(IP, cfg.burst), 0)] + GetAll(cfg.burst, 1) + [Advance(wait)]
  }

  /** The burst is admitted; then the entry is pruned, and a second burst gets a new bucket and is admitted. */
  function TwoBursts(cfg: Config, rest: real): seq<Step> {
    AllowAll(cfg.burst) + Renewal(cfg, rest) + (GetAll(cfg.burst, 2) + AllowAll(cfg.burst))
  }

  function Renewal(cfg: Config, rest: real): seq<Step> {
    [Advance(rest), Sweep({IP}), Get(Request(IP, cfg.burst + 1), 1)]
  }

  ghost predicate Gathered(cfg: Config, t: State, wait: real) {
    && t.clock == wait
    && t.entries == map[IP := Entry(0, 0.0)]
    && t.buckets == map[0 := Fresh(cfg, 0.0)]
    && AllHold(t, cfg.burst, 0, 0.0)
    && forall q :: q in t.waiting ==> q.ip == IP && q.serial <= cfg.burst && t.waiting[q] == Waiting(0, 0.0)
  }

  lemma GatheringGathers(cfg: Config, wait: real)
    requires wait >= 0.0
    ensures Feasible(cfg, Init(), Gathering(cfg, wait))
    ensures Gathered(cfg, Run(cfg, Init(), Gathering(cfg, wait)), wait)
  {
    var n := cfg.burst;
    var first, last := [Get(Request(IP, n), 0)], [Advance(wait)];
    var s := Next(cfg, Init(), first[0]);
    GetAllHolds(cfg, s, n, 0, 1);
    var t := Run(cfg, s, GetAll(n, 1));
    forall q | q in t.waiting ensures q.ip == IP && q.serial <= n && t.waiting[q] == Waiting(0, 0.0) {
      if q.serial < n {
        assert q == Request(IP, q.serial);
      }
    }
    assert Run(cfg, Init(), first) == s && Run(cfg, t, last) == Next(cfg, t, last[0]);
    Splice(cfg, Init(), first, GetAll(n, 1), 0.0);
    Splice(cfg, Init(), first + GetAll(n, 1), last, 0.0);
  }

  /** After the first burst was admitted, pruning makes room for a new, full bucket. */
  lemma RenewalRenews(cfg: Config, s: State, rest: real, delay: real)
    requires IP in s.entries && s.entries[IP].lastSeen == 0.0 && s.clock + rest > cfg.idle && rest >= 0.0
    requires 1 !in s.buckets && Request(IP, cfg.burst + 1) !in s.waiting && NoneWaits(s, cfg.burst)
    ensures var steps := Renewal(cfg, rest);
            && Feasible(cfg, s, steps) && Prompt(cfg, s, steps, delay) && Decisions(cfg, s, steps) == []
            && var t := Run(cfg, s, steps);
               && IP in t.entries && t.entries[IP] == Entry(1, t.clock)
               && t.buckets == s.buckets[1 := Fresh(cfg, t.clock)] && NoneWaits(t, cfg.burst)
  {
    var steps := Renewal(cfg, rest);
    var a := Next(cfg, s, steps[0]);
    var b := Next(cfg, a, steps[1]);
    assert IP !in b.entries;
    assert steps[1..][0] == steps[1] && steps[1..][1..] == [steps[2]];
    assert Feasible(cfg, b, [steps[2]]);
    assert Run(cfg, b, [steps[2]]) == Next(cfg, b, steps[2]);
    assert Run(cfg, s, steps) == Next(cfg, b, steps[2]);
    NoAllowNoDecision(cfg, s, steps, delay);
  }

  lemma SecondBurstAdmits(cfg: Config, s: State, delay: real)
    requires IP in s.entries && s.entries[IP] == Entry(1, s.clock)
    requires 1 in s.buckets && s.buckets[1] == Fresh(cfg, s.clock) && 2 !in s.buckets
    requires NoneWaits(s, cfg.burst) && delay >= 0.0
    ensures var steps := GetAll(cfg.burst, 2) + AllowAll(cfg.burst);
            && Feasible(cfg, s, steps) && Prompt(cfg, s, steps, delay)
            && Admitted(IP, Decisions(cfg, s, steps)) == cfg.burst
  {
    var n := cfg.burst;
    GetAllHolds(cfg, s, n, 1, 2);
    NoAllowNoDecision(cfg, s, GetAll(n, 2), delay);
    var t := Run(cfg, s, GetAll(n, 2));
    FreshIsFull(cfg, t.clock);
    AllowAllAdmits(cfg, t, n, 1, t.clock, delay);
    Splice(cfg, s, GetAll(n, 2), AllowAll(n), delay);
    assert [] + Decisions(cfg, t, AllowAll(n)) == Decisions(cfg, t, AllowAll(n));
  }

  /** The pruning limiter admits both bursts. */
  lemma TwoBurstsAdmitted(cfg: Config, t: State, wait: real, rest: real, delay: real)
    requires Sensible(cfg) && 0.0 <= wait <= delay && rest >= 0.0 && wait + rest > cfg.idle
    requires Gathered(cfg, t, wait)
    ensures var steps := TwoBursts(cfg, rest);
            && Feasible(cfg, t, steps) && Prompt(cfg, t, steps, delay)
            && Admitted(IP, Decisions(cfg, t, steps)) == 2 * cfg.burst
  {
    var n := cfg.burst;
    FullStaysFullFresh(cfg, wait);
    AllowAllAdmits(cfg, t, n, 0, 0.0, delay);
    var u := Run(cfg, t, AllowAll(n));
    RenewalRenews(cfg, u, rest, delay);
    var v := Run(cfg, u, Renewal(cfg, rest));
    SecondBurstAdmits(cfg, v, delay);
    var last := GetAll(n, 2) + AllowAll(n);
    Splice(cfg, t, AllowAll(n), Renewal(cfg, rest), delay);
    Splice(cfg, t, AllowAll(n) + Renewal(cfg, rest), last, delay);
    AdmittedConcat(IP, Decisions(cfg, t, AllowAll(n)), Decisions(cfg, u, Renewal(cfg, rest)));
    AdmittedConcat(IP, Decisions(cfg, t, AllowAll(n) + Renewal(cfg, rest)), Decisions(cfg, v, last));
  }

  lemma FullStaysFullFresh(cfg: Config, t: real)
    requires Sensible(cfg) && t >= 0.0
    ensures Level(cfg, Fresh(cfg, 0.0), t) == cfg.burst as real
  {
    FreshIsFull(cfg, 0.0);
    FullStaysFull(cfg, Fresh(cfg, 0.0), 0.0, t);
  }

  lemma {:induction false} Unsplice(cfg: Config, s: State, a: seq<Step>, b: seq<Step>)
    requires Feasible(cfg, s, a) && Feasible(cfg, s, a + b)
    ensures Feasible(cfg, Run(cfg, s, a), b)
    decreases |a|
  {
    if a == [] {
      assert a + b == b;
    } else {
      assert (a + b)[1..] == a[1..] + b && (a + b)[0] == a[0];
      Unsplice(cfg, Next(cfg, s, a[0]), a[1..], b);
    }
  }

  lemma {:induction false} GetAllTakesNoTime(k: nat, address: nat)
    ensures Elapsed(GetAll(k, address)) == 0.0 && WithoutSweeps(GetAll(k, address)) == GetAll(k, address)
  {
    if k == 0 {
    } else {
      GetAllTakesNoTime(k - 1, address);
      assert GetAll(k, address)[1..] == GetAll(k - 1, address);
    }
  }

  lemma {:induction false} AllowAllTakesNoTime(k: nat)
    ensures Elapsed(AllowAll(k)) == 0.0
  {
    if k == 0 {
    } else {
      AllowAllTakesNoTime(k - 1);
      assert AllowAll(k)[1..] == AllowAll(k - 1);
    }
  }

  lemma TwoBurstsTake(cfg: Config, rest: real)
    ensures Elapsed(TwoBursts(cfg, rest)) == rest
  {
    var n := cfg.burst;
    AllowAllTakesNoTime(n);
    GetAllTakesNoTime(n, 2);
    var middle := Renewal(cfg, rest);
    assert middle[1..][1..] == [middle[2]] && middle[1..][0] == middle[1];
    assert Elapsed([middle[2]]) == 0.0;
    assert Elapsed(middle) == rest;
    ElapsedAdds(AllowAll(n), middle);
    ElapsedAdds(GetAll(n, 2), AllowAll(n));
    ElapsedAdds(AllowAll(n) + middle, GetAll(n, 2) + AllowAll(n));
  }

  lemma GatheringHasNoSweeps(cfg: Config, wait: real)
    ensures WithoutSweeps(Gathering(cfg, wait)) == Gathering(cfg, wait)
  {
    var n := cfg.burst;
    var first, last := [Get(Request(IP, n), 0)], [Advance(wait)];
    GetAllTakesNoTime(n, 1);
    SweepsDropOut(first, GetAll(n, 1));
    SweepsDropOut(first + GetAll(n, 1), last);
    assert WithoutSweeps(first) == first && WithoutSweeps(last) == last;
  }

  /** The limiter that never forgets admits, after the gathering, no more than a burst and the refill of `rest`. */
  lemma UnprunedAdmitsLess(cfg: Config, wait: real, rest: real)
    requires Sensible(cfg) && wait >= 0.0
    requires Feasible(cfg, Init(), WithoutSweeps(Gathering(cfg, wait) + TwoBursts(cfg, rest)))
    ensures var steps := WithoutSweeps(Gathering(cfg, wait) + TwoBursts(cfg, rest));
            WithinRate(cfg, Admitted(IP, Decisions(cfg, Init(), steps)), rest)
  {
    var a, b := Gathering(cfg, wait), WithoutSweeps(TwoBursts(cfg, rest));
    SweepsDropOut(a, TwoBursts(cfg, rest));
    GatheringHasNoSweeps(cfg, wait);
    GatheringGathers(cfg, wait);
    var t := Run(cfg, Init(), a);
    Unsplice(cfg, Init(), a, b);
    Splice(cfg, Init(), a, b, 0.0);
    NoAllowNoDecision(cfg, Init(), a, 0.0);
    assert [] + Decisions(cfg, t, b) == Decisions(cfg, t, b);
    UnprunedAdmitsLessFrom(cfg, t, wait, rest);
  }

  lemma UnprunedAdmitsLessFrom(cfg: Config, t: State, wait: real, rest: real)
    requires Sensible(cfg) && wait >= 0.0 && Gathered(cfg, t, wait)
    requires Feasible(cfg, t, WithoutSweeps(TwoBursts(cfg, rest)))
    ensures WithinRate(cfg, Admitted(IP, Decisions(cfg, t, WithoutSweeps(TwoBursts(cfg, rest)))), rest)
  {
    var b := WithoutSweeps(TwoBursts(cfg, rest));
    WithoutSweepsIsSweepFree(TwoBursts(cfg, rest));
    assert Ok(cfg, t) && NeverForgets(t);
    NeverForgettingBound(cfg, t, b, IP);
    ClockElapses(cfg, t, b);
    SweepsTakeNoTime(TwoBursts(cfg, rest));
    TwoBurstsTake(cfg, rest);
  }

  /** The whole trace, from the start. */
  lemma PrunedAdmitsTwoBursts(cfg: Config, wait: real, rest: real, delay: real)
    requires Sensible(cfg) && 0.0 <= wait <= delay && rest >= 0.0 && wait + rest > cfg.idle
    ensures var steps := Gathering(cfg, wait) + TwoBursts(cfg, rest);
            && Feasible(cfg, Init(), steps) && Prompt(cfg, Init(), steps, delay)
            && Admitted(IP, Decisions(cfg, Init(), steps)) == 2 * cfg.burst
  {
    var a, b := Gathering(cfg, wait), TwoBursts(cfg, rest);
    GatheringGathers(cfg, wait);
    var t := Run(cfg, Init(), a);
    TwoBurstsAdmitted(cfg, t, wait, rest, delay);
    NoAllowNoDecision(cfg, Init(), a, delay);
    Splice(cfg, Init(), a, b, delay);
    assert [] + Decisions(cfg, t, b) == Decisions(cfg, t, b);
  }

  lemma TwoBurstsExceedRate(cfg: Config, rest: real)
    requires cfg.rate * rest < cfg.burst as real
    ensures !WithinRate(cfg, 2 * cfg.burst, rest)
  {
  }

  /** A delay past the bound lets two bursts through where the unpruned limiter stops the second. */
  lemma LongDelayIsObservable(cfg: Config, wait: real, rest: real, delay: real)
    requires Sensible(cfg) && 0.0 <= wait <= delay && rest >= 0.0 && wait + rest > cfg.idle
    requires cfg.rate * rest < cfg.burst as real
    ensures !Unobservable(cfg, delay)
  {
    var steps := Gathering(cfg, wait) + TwoBursts(cfg, rest);
    PrunedAdmitsTwoBursts(cfg, wait, rest, delay);
    TwoBurstsExceedRate(cfg, rest);
    if Unobservable(cfg, delay) {
      assert Feasible(cfg, Init(), steps);
      UnprunedAdmitsLess(cfg, wait, rest);
      assert false;
    }
  }

  /** A delay past the bound lets more through in one window than the burst and the rate allow. */
  lemma LongDelayBreaksRate(cfg: Config, wait: real, rest: real, delay: real)
    requires Sensible(cfg) && 0.0 <= wait <= delay && rest >= 0.0 && wait + rest > cfg.idle
    requires cfg.rate * rest < cfg.burst as real
    ensures !KeepsRate(cfg, delay)
  {
    var before, window := Gathering(cfg, wait), TwoBursts(cfg, rest);
    GatheringGathers(cfg, wait);
    NoAllowNoDecision(cfg, Init(), before, delay);
    var t := Run(cfg, Init(), before);
    TwoBurstsAdmitted(cfg, t, wait, rest, delay);
    ClockElapses(cfg, t, window);
    TwoBurstsTake(cfg, rest);
    TwoBurstsExceedRate(cfg, rest);
    assert IsWindow(cfg, delay, before, window) && !WindowWithinRate(cfg, before, window, IP);
  }

  /** Room between the bound and the burst: a rest a little longer than the idle limit allows. */
  lemma RestExists(rate: real, gap: real, burst: real) returns (rest: real)
    requires rate > 0.0 && gap >= 0.0 && rate * gap < burst
    ensures rest > gap && rate * rest < burst
  {
    rest := gap + (burst - rate * gap) / (2.0 * rate);
    assert rate * ((burst - rate * gap) / (2.0 * rate)) == (burst - rate * gap) / 2.0;
  }

  // ---------------------------------------------------------------- buckets that hold nothing

  /** With a burst of zero all that matters is that the same requests wait. */
  ghost predicate SameWaiting(cfg: Config, s: State, n: State) {
    && Ok(cfg, s) && Ok(cfg, n) && s.clock == n.clock
    && s.waiting.Keys == n.waiting.Keys
    && n.buckets.Keys <= s.buckets.Keys
    && s.entries.Keys <= n.entries.Keys
  }

  lemma EmptyBucketAdmitsNothing(cfg: Config, b: Bucket, t: real)
    requires cfg.burst == 0
    ensures !Admits(cfg, b, t)
  {
  }

  lemma EmptyStep(cfg: Config, s: State, n: State, e: Step)
    requires Sensible(cfg) && cfg.burst == 0 && SameWaiting(cfg, s, n) && Enabled(s, e)
    ensures e.Sweep? ==> SameWaiting(cfg, Next(cfg, s, e), n)
    ensures !e.Sweep? ==> Enabled(n, e)
    ensures !e.Sweep? ==> SameWaiting(cfg, Next(cfg, s, e), Next(cfg, n, e))
    ensures !e.Sweep? ==> DecisionsOf(cfg, n, e) == DecisionsOf(cfg, s, e)
  {
    StepKeepsOk(cfg, s, e);
    if !e.Sweep? {
      StepKeepsOk(cfg, n, e);
    }
    if e.Allow? {
      EmptyBucketAdmitsNothing(cfg, s.buckets[s.waiting[e.request].limiter], s.clock);
      EmptyBucketAdmitsNothing(cfg, n.buckets[n.waiting[e.request].limiter], n.clock);
    }
  }

  lemma {:induction false} EmptyTrace(cfg: Config, s: State, n: State, steps: seq<Step>)
    requires Sensible(cfg) && cfg.burst == 0 && SameWaiting(cfg, s, n) && Feasible(cfg, s, steps)
    ensures Feasible(cfg, n, WithoutSweeps(steps))
    ensures Decisions(cfg, n, WithoutSweeps(steps)) == Decisions(cfg, s, steps)
    decreases |steps|
  {
    if steps == [] {
    } else {
      var e, rest := steps[0], steps[1..];
      EmptyStep(cfg, s, n, e);
      if e.Sweep? {
        assert WithoutSweeps(steps) == WithoutSweeps(rest);
        EmptyTrace(cfg, Next(cfg, s, e), n, rest);
      } else {
        EmptyTrace(cfg, Next(cfg, s, e), Next(cfg, n, e), rest);
        assert WithoutSweeps(steps)[1..] == WithoutSweeps(rest);
      }
    }
  }

  lemma SafeIsUnobservable(cfg: Config, delay: real)
    requires Sensible(cfg) && delay >= 0.0 && (cfg.burst == 0 || Safe(cfg, delay))
    ensures Unobservable(cfg, delay)
  {
    forall steps {:trigger Feasible(cfg, Init(), steps)}
      | Feasible(cfg, Init(), steps) && Prompt(cfg, Init(), steps, delay)
      ensures Feasible(cfg, Init(), WithoutSweeps(steps))
      ensures Decisions(cfg, Init(), WithoutSweeps(steps)) == Decisions(cfg, Init(), steps)
    {
      if cfg.burst == 0 {
        EmptyTrace(cfg, Init(), Init(), steps);
      } else {
        InitSimulates(cfg, delay);
        TraceSimulates(cfg, delay, Init(), Init(), steps);
      }
    }
  }

  /** Past the bound there is a wait within the delay and a rest too short to refill the burst. */
  lemma UnsafeDelay(cfg: Config, delay: real) returns (wait: real, rest: real)
    requires Sensible(cfg) && delay >= 0.0 && cfg.burst > 0 && !Safe(cfg, delay)
    ensures 0.0 <= wait <= delay && rest >= 0.0 && wait + rest > cfg.idle && cfg.rate * rest < cfg.burst as real
  {
    wait := if delay <= cfg.idle then delay else cfg.idle;
    TimesZero(cfg.rate, cfg.idle - cfg.idle);
    rest := RestExists(cfg.rate, cfg.idle - wait, cfg.burst as real);
  }

  lemma {:induction false} EmptyBurstAdmitsNothing(cfg: Config, s: State, steps: seq<Step>, ip: string)
    requires cfg.burst == 0 && Feasible(cfg, s, steps)
    ensures Admitted(ip, Decisions(cfg, s, steps)) == 0 && s.clock <= Run(cfg, s, steps).clock
    decreases |steps|
  {
    if steps == [] {
    } else {
      var e := steps[0];
      if e.Allow? {
        EmptyBucketAdmitsNothing(cfg, s.buckets[s.waiting[e.request].limiter], s.clock);
      }
      EmptyBurstAdmitsNothing(cfg, Next(cfg, s, e), steps[1..], ip);
      AdmittedConcat(ip, DecisionsOf(cfg, s, e), Decisions(cfg, Next(cfg, s, e), steps[1..]));
    }
  }

  lemma SafeKeepsRate(cfg: Config, delay: real)
    requires Sensible(cfg) && delay >= 0.0 && (cfg.burst == 0 || Safe(cfg, delay))
    ensures KeepsRate(cfg, delay)
  {
    forall before, window, ip | IsWindow(cfg, delay, before, window)
      ensures WindowWithinRate(cfg, before, window, ip)
    {
      if cfg.burst == 0 {
        var s := Run(cfg, Init(), before);
        EmptyBurstAdmitsNothing(cfg, s, window, ip);
        TimesNonNegative(cfg.rate, Run(cfg, s, window).clock - s.clock);
      } else {
        SafeWindowWithinRate(cfg, delay, before, window, ip);
      }
    }
  }

  /** Every window admits no more than the burst and the refill for exactly the same delays. */
  lemma RateKeptExactlyWhenSafe(cfg: Config, delay: real)
    requires Sensible(cfg) && delay >= 0.0
    ensures KeepsRate(cfg, delay) <==> cfg.burst == 0 || cfg.rate * (cfg.idle - delay) >= cfg.burst as real
  {
    if cfg.burst == 0 || Safe(cfg, delay) {
      SafeKeepsRate(cfg, delay);
    } else {
      var wait, rest := UnsafeDelay(cfg, delay);
      LongDelayBreaksRate(cfg, wait, rest, delay);
    }
  }

  /** Pruning is unobservable for exactly the delays d with rate * (idle - d) >= burst, unless the burst is zero. */
  lemma UnobservableExactlyWhenSafe(cfg: Config, delay: real)
    requires Sensible(cfg) && delay >= 0.0
    ensures Unobservable(cfg, delay) <==> cfg.burst == 0 || cfg.rate * (cfg.idle - delay) >= cfg.burst as real
  {
    if cfg.burst == 0 || Safe(cfg, delay) {
      SafeIsUnobservable(cfg, delay);
    } else {
      var wait, rest := UnsafeDelay(cfg, delay);
      LongDelayIsObservable(cfg, wait, rest, delay);
    }
  }

  /** As shipped (10 per second, burst 30, 3 minutes), requests may dawdle for up to 177 seconds, and no longer. */
  lemma ShippedDelay(delay: real)
    requires delay >= 0.0
    ensures Unobservable(SHIPPED, delay) <==> delay <= 177.0
    ensures KeepsRate(SHIPPED, delay) <==> delay <= 177.0
  {
    RateKeptExactlyWhenSafe(SHIPPED, delay);
    UnobservableExactlyWhenSafe(SHIPPED, delay);
  }

  /** As shipped, an address gets at most 30 requests and 10 for each second through in any such window. */
  lemma ShippedWindow(delay: real, before: seq<Step>, window: seq<Step>, ip: string)
    requires 0.0 <= delay <= 177.0 && IsWindow(SHIPPED, delay, before, window)
    ensures var s := Run(SHIPPED, Init(), before);
            Admitted(ip, Decisions(SHIPPED, s, window)) as real
              <= 30.0 + 10.0 * (Run(SHIPPED, s, window).clock - s.clock)
  {
    SafeWindowWithinRate(SHIPPED, delay, before, window, ip);
  }
}
