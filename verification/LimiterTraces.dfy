/**
 Timed traces of the rate limiter, with `get` and `Allow` of a request as separate steps. A request holds the
 bucket it got, so a bucket can outlive its map entry. Removing the sweeps from a trace gives the limiter that
 never forgets; the question is when the two decide alike.
 */
module LimiterTraces {
  import opened RateLimiting

  datatype Request = Request(ip: string, serial: nat)

  /** A request between its get and its Allow: the bucket it holds and when it got it. */
  datatype Waiting = Waiting(limiter: nat, since: real)

  datatype State = State(
    clock: real,
    entries: map<string, Entry<nat>>,
    buckets: map<nat, Bucket>,
    waiting: map<Request, Waiting>)

  datatype Step =
    | Advance(seconds: real)
    | Get(request: Request, address: nat)  // address: where a new bucket would be allocated
    | Allow(request: Request)
    | Sweep(ips: set<string>)

  datatype Decision = Decision(ip: string, admitted: bool)

  function Init(): State {
    State(0.0, map[], map[], map[])
  }

  predicate Enabled(s: State, e: Step) {
    match e
    case Advance(d) => d >= 0.0
    case Get(q, address) => q !in s.waiting && address !in s.buckets
    case Allow(q) => q in s.waiting && s.waiting[q].limiter in s.buckets
    case Sweep(_) => true
  }

  function Next(cfg: Config, s: State, e: Step): State
    requires Enabled(s, e)
  {
    match e
    case Advance(d) => s.(clock := s.clock + d)
    case Get(q, address) =>
      var entries := Touched(s.entries, q.ip, s.clock, address);
      var buckets := if q.ip in s.entries then s.buckets else s.buckets[address := Fresh(cfg, s.clock)];
      State(s.clock, entries, buckets, s.waiting[q := Waiting(entries[q.ip].limiter, s.clock)])
    case Allow(q) =>
      var l := s.waiting[q].limiter;
      s.(buckets := s.buckets[l := AfterAllow(cfg, s.buckets[l], s.clock)], waiting := s.waiting - {q})
    case Sweep(ips) => s.(entries := Swept(s.entries, ips, s.clock, cfg.idle))
  }

  function DecisionsOf(cfg: Config, s: State, e: Step): seq<Decision>
    requires Enabled(s, e)
  {
    if e.Allow? then
      [Decision(e.request.ip, Admits(cfg, s.buckets[s.waiting[e.request].limiter], s.clock))]
    else []
  }

  predicate Feasible(cfg: Config, s: State, steps: seq<Step>)
    decreases |steps|
  {
    steps == [] || (Enabled(s, steps[0]) && Feasible(cfg, Next(cfg, s, steps[0]), steps[1..]))
  }

  function Run(cfg: Config, s: State, steps: seq<Step>): State
    requires Feasible(cfg, s, steps)
    decreases |steps|
  {
    if steps == [] then s else Run(cfg, Next(cfg, s, steps[0]), steps[1..])
  }

  function Decisions(cfg: Config, s: State, steps: seq<Step>): seq<Decision>
    requires Feasible(cfg, s, steps)
    decreases |steps|
  {
    if steps == [] then []
    else DecisionsOf(cfg, s, steps[0]) + Decisions(cfg, Next(cfg, s, steps[0]), steps[1..])
  }

  predicate PromptStep(s: State, e: Step, delay: real)
    requires Enabled(s, e)
  {
    e.Allow? ==> s.clock - s.waiting[e.request].since <= delay
  }

  /** Every Allow of the trace comes within `delay` of its get. */
  predicate Prompt(cfg: Config, s: State, steps: seq<Step>, delay: real)
    requires Feasible(cfg, s, steps)
    decreases |steps|
  {
    steps != [] ==> PromptStep(s, steps[0], delay) && Prompt(cfg, Next(cfg, s, steps[0]), steps[1..], delay)
  }

  /** The trace of the limiter that never forgets. */
  function WithoutSweeps(steps: seq<Step>): seq<Step> {
    if steps == [] then []
    else (if steps[0].Sweep? then [] else [steps[0]]) + WithoutSweeps(steps[1..])
  }

  // ---------------------------------------------------------------- buckets in time

  lemma LevelComposes(cfg: Config, b: Bucket, t: real, u: real)
    requires Sensible(cfg) && b.last <= t <= u
    ensures Level(cfg, b, u) == Capped(cfg, Level(cfg, b, t) + cfg.rate * (u - t))
  {
    assert cfg.rate * (u - b.last) == cfg.rate * (t - b.last) + cfg.rate * (u - t);
    assert cfg.rate * (u - t) >= 0.0;
  }

  lemma FreshIsFull(cfg: Config, t: real)
    ensures Level(cfg, Fresh(cfg, t), t) == cfg.burst as real
  {
    TimesZero(cfg.rate, t - Fresh(cfg, t).last);
  }

  lemma TimesZero(r: real, z: real)
    requires z == 0.0
    ensures r * z == 0.0
  {
  }

  lemma TimesMonotone(r: real, x: real, y: real)
    requires r > 0.0 && x <= y
    ensures r * x <= r * y
  {
  }

  lemma TimesNonNegative(r: real, x: real)
    requires r > 0.0 && x >= 0.0
    ensures r * x >= 0.0
  {
  }

  lemma CappedIsBounded(cfg: Config, tokens: real)
    requires tokens >= 0.0
    ensures 0.0 <= Capped(cfg, tokens) <= cfg.burst as real
  {
  }

  lemma LevelIsCapped(cfg: Config, b: Bucket, t: real, grown: real)
    requires grown == cfg.rate * (t - b.last)
    ensures Level(cfg, b, t) == Capped(cfg, b.tokens + grown)
  {
  }

  /** What a bucket gains by time t. */
  lemma Growth(cfg: Config, b: Bucket, t: real) returns (grown: real)
    requires Sensible(cfg) && b.last <= t
    ensures grown >= 0.0 && Level(cfg, b, t) == Capped(cfg, b.tokens + grown)
  {
    var span := t - b.last;
    grown := cfg.rate * span;
    TimesNonNegative(cfg.rate, span);
    LevelIsCapped(cfg, b, t, grown);
  }

  lemma LevelIsBounded(cfg: Config, b: Bucket, t: real)
    requires Sensible(cfg) && b.tokens >= 0.0 && b.last <= t
    ensures 0.0 <= Level(cfg, b, t) <= cfg.burst as real
  {
    var grown := Growth(cfg, b, t);
    CappedIsBounded(cfg, b.tokens + grown);
  }

  lemma EqualLevelsStayEqual(cfg: Config, a: Bucket, b: Bucket, t: real, u: real)
    requires Sensible(cfg) && a.last <= t <= u && b.last <= t
    requires Level(cfg, a, t) == Level(cfg, b, t)
    ensures Level(cfg, a, u) == Level(cfg, b, u)
  {
    LevelComposes(cfg, a, t, u);
    LevelComposes(cfg, b, t, u);
  }

  lemma FullStaysFull(cfg: Config, b: Bucket, t: real, u: real)
    requires Sensible(cfg) && b.last <= t <= u && Level(cfg, b, t) == cfg.burst as real
    ensures Level(cfg, b, u) == cfg.burst as real
  {
    LevelComposes(cfg, b, t, u);
    assert cfg.rate * (u - t) >= 0.0;
  }

  lemma CappedAtBurst(cfg: Config, tokens: real)
    requires tokens >= cfg.burst as real
    ensures Capped(cfg, tokens) == cfg.burst as real
  {
  }

  /** A bucket untouched for long enough is full. */
  lemma IdleIsFull(cfg: Config, b: Bucket, t: real, gap: real)
    requires Sensible(cfg) && b.tokens >= 0.0 && t - b.last >= gap && cfg.rate * gap >= cfg.burst as real
    ensures Level(cfg, b, t) == cfg.burst as real
  {
    var grown := cfg.rate * (t - b.last);
    TimesMonotone(cfg.rate, gap, t - b.last);
    LevelIsCapped(cfg, b, t, grown);
    CappedAtBurst(cfg, b.tokens + grown);
  }

  // ---------------------------------------------------------------- well-formed states

  /** A bucket that an address's map entry or one of its waiting requests holds. */
  ghost predicate Holds(s: State, ip: string, l: nat) {
    || (ip in s.entries && s.entries[ip].limiter == l)
    || (exists q :: q in s.waiting && q.ip == ip && s.waiting[q].limiter == l)
  }

  ghost predicate BucketOk(cfg: Config, b: Bucket, clock: real) {
    0.0 <= b.tokens <= cfg.burst as real && b.last <= clock
  }

  ghost predicate Ok(cfg: Config, s: State) {
    && (forall l :: l in s.buckets ==> BucketOk(cfg, s.buckets[l], s.clock))
    && (forall ip :: ip in s.entries ==> s.entries[ip].limiter in s.buckets && s.entries[ip].lastSeen <= s.clock)
    && (forall q :: q in s.waiting ==> s.waiting[q].limiter in s.buckets && s.waiting[q].since <= s.clock)
    && (forall ip, ip', l :: Holds(s, ip, l) && Holds(s, ip', l) ==> ip == ip')
  }

  lemma AllowKeepsBucketOk(cfg: Config, b: Bucket, t: real)
    requires Sensible(cfg) && BucketOk(cfg, b, t)
    ensures BucketOk(cfg, AfterAllow(cfg, b, t), t)
  {
  }

  lemma StepKeepsOk(cfg: Config, s: State, e: Step)
    requires Sensible(cfg) && Ok(cfg, s) && Enabled(s, e)
    ensures Ok(cfg, Next(cfg, s, e))
  {
    var t := Next(cfg, s, e);
    match e
    case Advance(_) =>
      forall ip, l | Holds(t, ip, l) ensures Holds(s, ip, l) {}
    case Sweep(_) =>
      forall ip, l | Holds(t, ip, l) ensures Holds(s, ip, l) {}
    case Allow(q) =>
      AllowKeepsBucketOk(cfg, s.buckets[s.waiting[q].limiter], s.clock);
      forall ip, l | Holds(t, ip, l) ensures Holds(s, ip, l) {}
    case Get(q, address) =>
      forall ip, l | Holds(t, ip, l)
        ensures Holds(s, ip, l) || (ip == q.ip && l == address && q.ip !in s.entries)
      {}
      forall ip, l | Holds(s, ip, l) ensures l in s.buckets {}
  }
}
