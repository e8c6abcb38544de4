/**
 The per-IP rate limiter (internal/observability/ratelimit.go): a map of token buckets, created on first use and
 pruned when idle. Time is in seconds. A bucket is the textbook one: it refills at `rate` up to `burst` and a
 request takes one token if a whole one is there.
 */
module RateLimiting {

  datatype Config = Config(rate: real, burst: nat, idle: real)

  // 10 requests per second with a burst of 30 (cmd/api/main.go); entries unseen for 3 minutes are stale.
  const SHIPPED := Config(10.0, 30, 180.0)

  predicate Sensible(cfg: Config) {
    cfg.rate > 0.0 && cfg.idle >= 0.0
  }

  datatype Bucket = Bucket(tokens: real, last: real)

  function Fresh(cfg: Config, now: real): Bucket {
    Bucket(cfg.burst as real, now)
  }

  function Capped(cfg: Config, tokens: real): real {
    if tokens < cfg.burst as real then tokens else cfg.burst as real
  }

  /** The tokens in the bucket at time t. */
  function Level(cfg: Config, b: Bucket, t: real): real {
    Capped(cfg, b.tokens + cfg.rate * (t - b.last))
  }

  predicate Admits(cfg: Config, b: Bucket, t: real) {
    Level(cfg, b, t) >= 1.0
  }

  function AfterAllow(cfg: Config, b: Bucket, t: real): Bucket {
    if Admits(cfg, b, t) then Bucket(Level(cfg, b, t) - 1.0, t) else b
  }

  /** A map entry; L is whatever identifies a bucket that several requests may hold. */
  datatype Entry<L> = Entry(limiter: L, lastSeen: real)

  function Touched<L>(entries: map<string, Entry<L>>, ip: string, now: real, created: L): map<string, Entry<L>> {
    if ip in entries then entries[ip := entries[ip].(lastSeen := now)] else entries[ip := Entry(created, now)]
  }

  predicate Stale<L>(entry: Entry<L>, now: real, idle: real) {
    now - entry.lastSeen > idle
  }

  /** What is left when the entries of `ips` are visited and the stale ones deleted. */
  function Swept<L>(entries: map<string, Entry<L>>, ips: set<string>, now: real, idle: real): map<string, Entry<L>> {
    map ip | ip in entries && !(ip in ips && Stale(entries[ip], now, idle)) :: entries[ip]
  }

  // ---------------------------------------------------------------- the program's objects

  class Limiter {
    const cfg: Config
    var bucket: Bucket

    constructor (cfg: Config, now: real)
      ensures this.cfg == cfg && bucket == Fresh(cfg, now)
    {
      this.cfg := cfg;
      bucket := Fresh(cfg, now);
    }

    method Allow(now: real) returns (ok: bool)
      modifies this
      ensures ok == Admits(cfg, old(bucket), now)
      ensures bucket == AfterAllow(cfg, old(bucket), now)
    {
      ok := Admits(cfg, bucket, now);
      if ok {
        bucket := Bucket(Level(cfg, bucket, now) - 1.0, now);
      }
    }
  }

  class IpLimiter {
    const limiter: Limiter
    var lastSeen: real

    constructor (limiter: Limiter, lastSeen: real)
      ensures this.limiter == limiter && this.lastSeen == lastSeen
    {
      this.limiter := limiter;
      this.lastSeen := lastSeen;
    }
  }

  class RateLimiter {
    const cfg: Config
    var limiters: map<string, IpLimiter>

    /** Entries are never shared between addresses, and neither are their buckets. */
    ghost predicate Valid()
      reads this, limiters.Values
    {
      && (forall ip :: ip in limiters ==> limiters[ip].limiter.cfg == cfg)
      && (forall ip, ip' :: ip in limiters && ip' in limiters && ip != ip' ==> limiters[ip] != limiters[ip'])
      && (forall ip, ip' :: ip in limiters && ip' in limiters && ip != ip' ==>
            limiters[ip].limiter != limiters[ip'].limiter)
    }

    ghost function Entries(): map<string, Entry<Limiter>>
      reads this, limiters.Values
    {
      map ip | ip in limiters :: Entry(limiters[ip].limiter, limiters[ip].lastSeen)
    }

    constructor (cfg: Config)
      ensures Valid() && this.cfg == cfg && Entries() == map[]
    {
      this.cfg := cfg;
      limiters := map[];
    }

    /** Returns the bucket of an address, marking it seen; an unknown address gets a full bucket. */
    method Get(ip: string, now: real) returns (l: Limiter)
      requires Valid()
      modifies this, limiters.Values
      ensures Valid()
      ensures Entries() == Touched(old(Entries()), ip, now, l)
      ensures ip in old(Entries()) ==> l == old(Entries())[ip].limiter
      ensures ip !in old(Entries()) ==> fresh(l) && l.bucket == Fresh(cfg, now)
      ensures fresh(limiters.Values - old(limiters.Values))
    {
      if ip in limiters {
        var entry := limiters[ip];
        entry.lastSeen := now;
        l := entry.limiter;
      } else {
        l := new Limiter(cfg, now);
        var entry := new IpLimiter(l, now);
        limiters := limiters[ip := entry];
      }
    }

    /** One pass of the pruning loop, which holds the lock throughout. */
    method Cleanup(now: real)
      requires Valid()
      modifies this
      ensures Valid()
      ensures Entries() == Swept(old(Entries()), old(limiters).Keys, now, cfg.idle)
      ensures limiters.Values <= old(limiters).Values
    {
      var unvisited := limiters.Keys;
      ghost var before := Entries();
      while unvisited != {}
        invariant unvisited <= limiters.Keys <= old(limiters).Keys
        invariant forall ip :: ip in limiters ==> limiters[ip] == old(limiters)[ip]
        invariant forall ip :: ip in old(limiters) ==>
          (ip in limiters <==> ip in unvisited || !Stale(before[ip], now, cfg.idle))
        decreases unvisited
      {
        var ip :| ip in unvisited;
        if now - limiters[ip].lastSeen > cfg.idle {
          limiters := limiters - {ip};
        }
        unvisited := unvisited - {ip};
      }
    }

    /** The middleware's decision for one request: get at one moment, Allow at a later one. */
    method Serve(ip: string, now: real, later: real) returns (ok: bool)
      requires Valid()
      modifies this, limiters.Values, set e | e in limiters.Values :: e.limiter
      ensures Valid()
      ensures ip in Entries() && Entries() == Touched(old(Entries()), ip, now, Entries()[ip].limiter)
      ensures ip in old(Entries()) ==>
        && Entries()[ip].limiter == old(Entries())[ip].limiter
        && ok == Admits(cfg, old(limiters[ip].limiter.bucket), later)
        && Entries()[ip].limiter.bucket == AfterAllow(cfg, old(limiters[ip].limiter.bucket), later)
      ensures ip !in old(Entries()) ==>
        && ok == Admits(cfg, Fresh(cfg, now), later)
        && Entries()[ip].limiter.bucket == AfterAllow(cfg, Fresh(cfg, now), later)
      ensures forall other :: other in old(limiters) && other != ip ==>
        old(limiters)[other].limiter.bucket == old(limiters[other].limiter.bucket)
    {
      var l := Get(ip, now);
      ok := l.Allow(later);
    }
  }
}
