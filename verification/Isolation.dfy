/** Addresses do not influence each other: one address's decisions are those of its own requests alone. */
module Isolation {
  import opened Sequences
  import opened RateLimiting
  import opened LimiterTraces

  predicate Concerns(e: Step, ip: string) {
    match e
    case Get(q, _) => q.ip == ip
    case Allow(q) => q.ip == ip
    case _ => true
  }

  /** The trace with the requests of every other address taken out; time and pruning go on as before. */
  function OnlyFor(ip: string, steps: seq<Step>): seq<Step> {
    if steps == [] then []
    else (if Concerns(steps[0], ip) then [steps[0]] else []) + OnlyFor(ip, steps[1..])
  }

  function DecisionsFor(ip: string, ds: seq<Decision>): seq<Decision> {
    if ds == [] then []
    else (if ds[0].ip == ip then [ds[0]] else []) + DecisionsFor(ip, ds[1..])
  }

  /** r is what s looks like to one address. */
  ghost predicate Mirrors(cfg: Config, ip: string, s: State, r: State) {
    && Ok(cfg, s)
    && r.clock == s.clock
    && r.entries.Keys <= {ip} && (ip in s.entries <==> ip in r.entries)
    && (ip in s.entries ==> r.entries[ip] == s.entries[ip])
    && (forall q :: q in r.waiting <==> q in s.waiting && q.ip == ip)
    && (forall q :: q in r.waiting ==> r.waiting[q] == s.waiting[q])
    && r.buckets.Keys <= s.buckets.Keys
    && (forall l :: Holds(s, ip, l) ==> l in r.buckets && r.buckets[l] == s.buckets[l])
  }

  lemma OtherGetMirrors(cfg: Config, ip: string, s: State, r: State, q: Request, address: nat)
    requires Sensible(cfg) && Mirrors(cfg, ip, s, r) && Enabled(s, Get(q, address)) && q.ip != ip
    ensures Mirrors(cfg, ip, Next(cfg, s, Get(q, address)), r)
  {
    var s' := Next(cfg, s, Get(q, address));
    StepKeepsOk(cfg, s, Get(q, address));
    forall l | Holds(s', ip, l) ensures l in r.buckets && r.buckets[l] == s'.buckets[l] {
      assert Holds(s, ip, l);
    }
  }

  lemma OtherAllowMirrors(cfg: Config, ip: string, s: State, r: State, q: Request)
    requires Sensible(cfg) && Mirrors(cfg, ip, s, r) && Enabled(s, Allow(q)) && q.ip != ip
    ensures Mirrors(cfg, ip, Next(cfg, s, Allow(q)), r)
  {
    var s' := Next(cfg, s, Allow(q));
    StepKeepsOk(cfg, s, Allow(q));
    assert Holds(s, q.ip, s.waiting[q].limiter);
    forall l | Holds(s', ip, l) ensures l in r.buckets && r.buckets[l] == s'.buckets[l] {
      assert Holds(s, ip, l);
    }
  }

  /** A request of another address. */
  lemma OthersMirror(cfg: Config, ip: string, s: State, r: State, e: Step)
    requires Sensible(cfg) && Mirrors(cfg, ip, s, r) && Enabled(s, e) && !Concerns(e, ip)
    ensures Mirrors(cfg, ip, Next(cfg, s, e), r)
    ensures DecisionsFor(ip, DecisionsOf(cfg, s, e)) == []
  {
    match e
    case Get(q, address) => OtherGetMirrors(cfg, ip, s, r, q, address);
    case Allow(q) => OtherAllowMirrors(cfg, ip, s, r, q);
  }

  lemma OwnGetMirrors(cfg: Config, ip: string, s: State, r: State, q: Request, address: nat)
    requires Sensible(cfg) && Mirrors(cfg, ip, s, r) && Enabled(s, Get(q, address)) && q.ip == ip
    ensures Enabled(r, Get(q, address))
    ensures Mirrors(cfg, ip, Next(cfg, s, Get(q, address)), Next(cfg, r, Get(q, address)))
  {
    StepKeepsOk(cfg, s, Get(q, address));
    var s', r' := Next(cfg, s, Get(q, address)), Next(cfg, r, Get(q, address));
    forall l | Holds(s', ip, l) ensures l in r'.buckets && r'.buckets[l] == s'.buckets[l] {
      assert Holds(s, ip, l) || l == address;
    }
  }

  lemma OwnAllowMirrors(cfg: Config, ip: string, s: State, r: State, q: Request)
    requires Sensible(cfg) && Mirrors(cfg, ip, s, r) && Enabled(s, Allow(q)) && q.ip == ip
    ensures Enabled(r, Allow(q))
    ensures Mirrors(cfg, ip, Next(cfg, s, Allow(q)), Next(cfg, r, Allow(q)))
    ensures DecisionsFor(ip, DecisionsOf(cfg, s, Allow(q))) == DecisionsOf(cfg, r, Allow(q))
  {
    StepKeepsOk(cfg, s, Allow(q));
    assert Holds(s, ip, s.waiting[q].limiter);
    var s', r' := Next(cfg, s, Allow(q)), Next(cfg, r, Allow(q));
    forall l | Holds(s', ip, l) ensures l in r'.buckets && r'.buckets[l] == s'.buckets[l] {
      assert Holds(s, ip, l);
    }
  }

  /** A step of the address itself, of time or of the pruning loop. */
  lemma OwnStepMirrors(cfg: Config, ip: string, s: State, r: State, e: Step)
    requires Sensible(cfg) && Mirrors(cfg, ip, s, r) && Enabled(s, e) && Concerns(e, ip)
    ensures Enabled(r, e)
    ensures Mirrors(cfg, ip, Next(cfg, s, e), Next(cfg, r, e))
    ensures DecisionsFor(ip, DecisionsOf(cfg, s, e)) == DecisionsOf(cfg, r, e)
  {
    match e
    case Get(q, address) => OwnGetMirrors(cfg, ip, s, r, q, address);
    case Allow(q) => OwnAllowMirrors(cfg, ip, s, r, q);
    case _ =>
      StepKeepsOk(cfg, s, e);
      forall l | Holds(Next(cfg, s, e), ip, l) ensures Holds(s, ip, l) {}
  }

  lemma {:induction false} DecisionsForConcat(ip: string, a: seq<Decision>, b: seq<Decision>)
    ensures DecisionsFor(ip, a + b) == DecisionsFor(ip, a) + DecisionsFor(ip, b)
    decreases |a|
  {
    if a == [] {
      assert a + b == b;
    } else {
      assert (a + b)[1..] == a[1..] + b;
      DecisionsForConcat(ip, a[1..], b);
      ConcatAssociates(if a[0].ip == ip then [a[0]] else [], DecisionsFor(ip, a[1..]), DecisionsFor(ip, b));
    }
  }

  lemma {:induction false} TraceMirrors(cfg: Config, ip: string, s: State, r: State, steps: seq<Step>)
    requires Sensible(cfg) && Mirrors(cfg, ip, s, r) && Feasible(cfg, s, steps)
    ensures Feasible(cfg, r, OnlyFor(ip, steps))
    ensures DecisionsFor(ip, Decisions(cfg, s, steps)) == Decisions(cfg, r, OnlyFor(ip, steps))
    decreases |steps|
  {
    if steps == [] {
    } else {
      var e, rest := steps[0], steps[1..];
      var s' := Next(cfg, s, e);
      DecisionsForConcat(ip, DecisionsOf(cfg, s, e), Decisions(cfg, s', rest));
      if Concerns(e, ip) {
        OwnStepMirrors(cfg, ip, s, r, e);
        TraceMirrors(cfg, ip, s', Next(cfg, r, e), rest);
        assert OnlyFor(ip, steps)[1..] == OnlyFor(ip, rest);
      } else {
        OthersMirror(cfg, ip, s, r, e);
        TraceMirrors(cfg, ip, s', r, rest);
        assert OnlyFor(ip, steps) == OnlyFor(ip, rest);
      }
    }
  }

  /** On every trace, the decisions for an address are those it would get with no other address about. */
  lemma AddressesAreIndependent(cfg: Config, ip: string, steps: seq<Step>)
    requires Sensible(cfg) && Feasible(cfg, Init(), steps)
    ensures Feasible(cfg, Init(), OnlyFor(ip, steps))
    ensures DecisionsFor(ip, Decisions(cfg, Init(), steps)) == Decisions(cfg, Init(), OnlyFor(ip, steps))
  {
    TraceMirrors(cfg, ip, Init(), Init(), steps);
  }
}
