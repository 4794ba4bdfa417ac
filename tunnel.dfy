/** The in-memory control core of the localtunnel server: named tunnels, each
    with a bounded stack of backend connections, the registry that maps names
    to tunnels, hostname resolution, and one pass of the idle scanner.
    Clocks are integer ticks passed in as `now`. */
module TunnelServer {
  import PyStr

  /** `Tunnel.max_pool_size`. */
  const MaxPoolSize: nat := 3
  /** `Tunnel.domain_part`: the tunnel name is the third label from the right. */
  const DomainPart: nat := 3
  /** `Tunnel.active_timeout`, in ticks (5 * 60 seconds). */
  const ActiveTimeout: int := 5 * 60

  datatype Option<T> = None | Some(value: T)

  /** The exceptions the core raises to its caller. */
  datatype Error =
    | PoolFull(name: string)          // ValueError from add_proxy_backend
    | NameInUse(name: string)         // RuntimeError from the two request lookups
    | InvalidProtect(protect: string) // ValueError from unpacking protect.split(':')
    | KeyMissing(name: string)        // KeyError from destroy's registry lookup

  datatype Result<T> = Ok(value: T) | Err(error: Error)

  datatype Outcome = Pass | Fail(error: Error)

  /** `protect`, `protect_user` and `protect_passwd` of a tunnel. */
  datatype Protection = Unprotected | Protected(user: string, passwd: string)

  /** One call into the stats collector: `stats.value(...)` or `stats.count(...)`. */
  datatype StatEvent = Value(metric: string, amount: int) | Count(metric: string, delta: int)

  /** The keyword arguments a control request passes to the tunnel constructor. */
  datatype ControlRequest = ControlRequest(name: string, client: string, protect: Option<string>, domain: Option<string>)

  datatype ProxyRequest = ProxyRequest(name: string, client: string)

  /** What one idle scan reports: `tunnel_count` and `idle_count`. */
  datatype ScanReport = ScanReport(tunnelCount: nat, idleCount: nat)

  /** The constructor's handling of `protect`: a falsy value (absent or empty)
      leaves the tunnel unprotected; anything else must split on ':' into
      exactly two parts, or the tuple unpacking raises. */
  function ParseProtect(protect: Option<string>): (r: Result<Protection>)
    ensures protect.None? || protect.value == "" ==> r == Ok(Unprotected)
    ensures r.Ok? ==> (r.value.Protected? <==> protect.Some? && protect.value != "")
    ensures protect.Some? && protect.value != "" ==> (r.Ok? <==> multiset(protect.value)[':'] == 1)
    ensures r.Ok? && r.value.Protected? ==>
      r.value.user + ":" + r.value.passwd == protect.value && ':' !in r.value.user && ':' !in r.value.passwd
    ensures r.Err? ==> protect.Some? && r.error == InvalidProtect(protect.value)
  {
    match protect
    case None => Ok(Unprotected)
    case Some(s) =>
      if s == "" then Ok(Unprotected)
      else
        var parts := PyStr.Split(s, ':');
        PyStr.SplitLength(s, ':');
        PyStr.SplitJoin(s, ':');
        PyStr.SplitPieces(s, ':');
        if |parts| == 2 then
          assert parts[1..] == [parts[1]];
          assert PyStr.Join(parts, ':') == parts[0] + [':'] + parts[1];
          Ok(Protected(parts[0], parts[1]))
        else
          Err(InvalidProtect(s))
  }

  /** A well-formed `user:passwd` string parses back into its two parts. */
  lemma ParseProtectRoundTrip(user: string, passwd: string)
    requires ':' !in user && ':' !in passwd
    ensures ParseProtect(Some(user + ":" + passwd)) == Ok(Protected(user, passwd))
  {
    PyStr.SplitConcat(user, passwd, ':');
    PyStr.SplitNoSep(user, ':');
    PyStr.SplitNoSep(passwd, ':');
  }

  /** The usage token destroy reports: the client string after its first ';',
      lower-cased, or the whole client string when it has no ';'. */
  function PlatformToken(client: string): (r: string)
    ensures |r| <= |client|
    ensures forall i :: 0 <= i < |r| ==> !('A' <= r[i] <= 'Z')
    ensures ';' in client ==> |r| < |client|
  {
    PyStr.Lower(PyStr.SplitOnceTail(client, ';'))
  }

  lemma PlatformTokenAfterFirstSemicolon(agent: string, platform: string)
    requires ';' !in agent
    ensures PlatformToken(agent + ";" + platform) == PyStr.Lower(platform)
  {
    PyStr.SplitOnceTailConcat(agent, platform, ';');
  }

  lemma PlatformTokenWithoutSemicolon(client: string)
    requires ';' !in client
    ensures PlatformToken(client) == PyStr.Lower(client)
  {
  }

  /** The name `get_by_hostname` looks up: `hostname.split('.')[-domain_part]`,
      or nothing when the hostname has too few labels (the IndexError path). */
  function HostnameCandidate(hostname: string): (r: Option<string>)
    ensures r.Some? <==> multiset(hostname)['.'] + 1 >= DomainPart
    ensures r.Some? ==> '.' !in r.value
  {
    var labels := PyStr.Split(hostname, '.');
    PyStr.SplitLength(hostname, '.');
    PyStr.SplitPieces(hostname, '.');
    if |labels| < DomainPart then None else Some(labels[|labels| - DomainPart])
  }

  /** Under a two-label base domain, any host `<prefix>name.d1.d2` resolves
      to `name`, whatever subdomains the prefix adds. */
  lemma HostnameCandidateOfSubdomain(prefix: string, name: string, d1: string, d2: string)
    requires prefix == [] || prefix[|prefix| - 1] == '.'
    requires '.' !in name && '.' !in d1 && '.' !in d2
    ensures HostnameCandidate(prefix + name + "." + d1 + "." + d2) == Some(name)
  {
    var host := prefix + name + "." + d1 + "." + d2;
    var tail := name + "." + d1 + "." + d2;
    PyStr.SplitThree(name, d1, d2, '.');
    var labels: seq<string>;
    if prefix == [] {
      assert host == tail;
      labels := [name, d1, d2];
    } else {
      var q := prefix[..|prefix| - 1];
      assert host == q + "." + tail;
      PyStr.SplitConcat(q, tail, '.');
      labels := PyStr.Split(q, '.') + [name, d1, d2];
    }
    assert PyStr.Split(host, '.') == labels;
    assert labels[|labels| - DomainPart] == name;
  }

  lemma HostnameExampleDeep()
    ensures HostnameCandidate("a.b.name.example.com") == Some("name")
  {
    var prefix, name, d1, d2 := "a.b.", "name", "example", "com";
    assert prefix + name + "." + d1 + "." + d2 == "a.b.name.example.com";
    HostnameCandidateOfSubdomain(prefix, name, d1, d2);
  }

  lemma HostnameExampleTooShort()
    ensures HostnameCandidate("x") == None
  {
    assert multiset("x")['.'] == 0;
  }

  /** The custom-domain test of the fallback scan: a truthy `domain` that the
      hostname ends with. */
  predicate DomainMatches(t: Tunnel, hostname: string): (b: bool)
    ensures b <==>
      && t.domain.Some? && t.domain.value != ""
      && exists k :: 0 <= k < |hostname| && hostname[k..] == t.domain.value
  {
    t.domain.Some? && t.domain.value != "" && PyStr.EndsWith(hostname, t.domain.value)
  }

  /** A tunnel is stale once more than `active_timeout` ticks have passed
      since its last activity. */
  predicate IsStale(updated: int, now: int): (b: bool)
    ensures b <==> updated + ActiveTimeout < now
  {
    now - updated > ActiveTimeout
  }

  /** An opaque backend socket; only `close()` is used. */
  class Backend {
    var closed: bool

    constructor ()
      ensures !closed
    {
      closed := false;
    }

    method Close()
      modifies this
      ensures closed
    {
      closed := true;
    }
  }

  class Tunnel {
    const name: string
    const client: string
    const protection: Protection
    const domain: Option<string>
    const created: int
    var updated: int
    var idle: bool
    /** `proxy_pool`: a stack, most recently added last. */
    var pool: seq<Backend>
    /** The counter of `pool_semaphore`. */
    var available: nat

    /** The pool is within capacity and the semaphore counts its backends. */
    ghost predicate Valid()
      reads this
    {
      |pool| <= MaxPoolSize && available == |pool|
    }

    /** The state `__init__` leaves a tunnel in. */
    ghost predicate IsNew(name: string, client: string, protection: Protection, domain: Option<string>, now: int)
      reads this
    {
      && Valid()
      && this.name == name && this.client == client
      && this.protection == protection && this.domain == domain
      && created == now && updated == now
      && !idle && pool == [] && available == 0
    }

    /** `__init__` once `protect` has been parsed (see ParseProtect). */
    constructor (name: string, client: string, protection: Protection, domain: Option<string>, now: int)
      ensures IsNew(name, client, protection, domain, now)
    {
      this.name := name;
      this.client := client;
      this.protection := protection;
      this.domain := domain;
      created := now;
      updated := now;
      idle := false;
      pool := [];
      available := 0;
    }

    /** `add_proxy_backend`: pushes a backend unless the pool is full. */
    method AddProxyBackend(socket: Backend, now: int) returns (r: Outcome)
      requires Valid()
      modifies this
      ensures Valid()
      ensures old(|pool|) < MaxPoolSize ==>
        && r == Pass
        && pool == old(pool) + [socket]
        && available == old(available) + 1
        && updated == now && !idle
      ensures old(|pool|) >= MaxPoolSize ==>
        && r == Fail(PoolFull(name))
        && pool == old(pool) && available == old(available)
        && updated == old(updated) && idle == old(idle)
    {
      if |pool| < MaxPoolSize {
        pool := pool + [socket];
        available := available + 1;
        updated := now;
        idle := false;
        r := Pass;
      } else {
        r := Fail(PoolFull(name));
      }
    }

    /** `pop_proxy_backend` without blocking: the semaphore is acquired only
      when its counter is positive, and an empty pool yields nothing. */
    method PopProxyBackend() returns (r: Option<Backend>)
      requires Valid()
      modifies this`pool, this`available
      ensures Valid()
      ensures old(pool) == [] ==> r == None && pool == old(pool) && available == old(available)
      ensures old(pool) != [] ==>
        && r == Some(old(pool)[|old(pool)| - 1])
        && pool == old(pool)[..|old(pool)| - 1]
        && available == old(available) - 1
    {
      if available > 0 {
        available := available - 1;
      }
      if |pool| == 0 {
        return None;
      }
      r := Some(pool[|pool| - 1]);
      pool := pool[..|pool| - 1];
    }
  }

  /** Taking one more name out of `remaining` adds it to the names counted so
      far exactly when it is in `chosen`. */
  lemma CountStep(chosen: set<string>, remaining: set<string>, n: string)
    requires n in remaining
    ensures n in chosen ==> |chosen - (remaining - {n})| == |chosen - remaining| + 1
    ensures n !in chosen ==> chosen - (remaining - {n}) == chosen - remaining
  {
    if n in chosen {
      assert chosen - (remaining - {n}) == (chosen - remaining) + {n};
    }
  }

  /** What destroy reports to the stats collector. */
  function DestroyEvents(t: Tunnel, now: int): (r: seq<StatEvent>)
    ensures |r| == 2
    ensures r[0].Value? && r[0].metric == "tunnel_duration" && r[0].amount == now - t.created
    ensures r[1].Count? && r[1].delta == 1
    ensures |r[1].metric| >= 6 && r[1].metric[..6] == "usage:" && r[1].metric[6..] == PlatformToken(t.client)
  {
    [Value("tunnel_duration", now - t.created), Count("usage:" + PlatformToken(t.client), 1)]
  }

  /** The class-level state of `Tunnel`: the `_tunnels` dict and the optional
      stats collector, whose calls are recorded in `statsLog`. */
  class Registry {
    var tunnels: map<string, Tunnel>
    const hasStats: bool
    var statsLog: seq<StatEvent>

    /** Every tunnel is filed under its own name and keeps its pool invariant. */
    ghost predicate Valid()
      reads this, tunnels.Values
    {
      forall n :: n in tunnels ==> tunnels[n].name == n && tunnels[n].Valid()
    }

    /** `name` is registered to a client other than `client`. */
    predicate OwnedByOther(name: string, client: string)
      reads this
    {
      name in tunnels && tunnels[name].client != client
    }

    /** The backends pooled by the tunnel registered under `name`, if any. */
    function PooledUnder(name: string): seq<Backend>
      reads this, tunnels.Values
    {
      if name in tunnels then tunnels[name].pool else []
    }

    ghost function StaleNames(now: int): set<string>
      reads this`tunnels, tunnels.Values`updated
    {
      set n | n in tunnels && IsStale(tunnels[n].updated, now)
    }

    constructor (hasStats: bool)
      ensures Valid()
      ensures tunnels == map[] && statsLog == [] && this.hasStats == hasStats
    {
      tunnels := map[];
      statsLog := [];
      this.hasStats := hasStats;
    }

    /** `create`: construct a tunnel from the request and file it under its
        name, replacing any previous entry. */
    method Create(req: ControlRequest, now: int) returns (r: Result<Tunnel>)
      requires Valid()
      modifies this`tunnels
      ensures Valid()
      ensures ParseProtect(req.protect).Err? ==>
        r == Err(ParseProtect(req.protect).error) && tunnels == old(tunnels)
      ensures ParseProtect(req.protect).Ok? ==>
        && r.Ok? && fresh(r.value)
        && r.value.IsNew(req.name, req.client, ParseProtect(req.protect).value, req.domain, now)
        && tunnels == old(tunnels)[req.name := r.value]
    {
      var protection := ParseProtect(req.protect);
      if protection.Err? {
        return Err(protection.error);
      }
      var t := new Tunnel(req.name, req.client, protection.value, req.domain, now);
      tunnels := tunnels[t.name := t];
      r := Ok(t);
    }

    /** `destroy`: report to the stats collector, close every pooled
        backend, then unregister the tunnel only if it is still the one
        filed under its name. The pool itself is left as it was. */
    method Destroy(t: Tunnel, now: int) returns (r: Outcome)
      requires Valid()
      modifies this`tunnels, this`statsLog, t.pool
      ensures Valid()
      ensures forall b :: b in t.pool ==> b.closed
      ensures statsLog == old(statsLog) + (if hasStats then DestroyEvents(t, now) else [])
      ensures t.name !in old(tunnels) ==> r == Fail(KeyMissing(t.name)) && tunnels == old(tunnels)
      ensures t.name in old(tunnels) && old(tunnels)[t.name] == t ==> r == Pass && tunnels == old(tunnels) - {t.name}
      ensures t.name in old(tunnels) && old(tunnels)[t.name] != t ==> r == Pass && tunnels == old(tunnels)
    {
      if hasStats {
        statsLog := statsLog + DestroyEvents(t, now);
      }
      var i := 0;
      while i < |t.pool|
        modifies t.pool
        invariant 0 <= i <= |t.pool|
        invariant forall j :: 0 <= j < i ==> t.pool[j].closed
      {
        t.pool[i].Close();
        i := i + 1;
      }
      if t.name !in tunnels {
        return Fail(KeyMissing(t.name));
      }
      if tunnels[t.name] == t {
        tunnels := tunnels - {t.name};
      }
      r := Pass;
    }

    /** `get_by_hostname`: the tunnel named by the hostname's label at
        `-domain_part`, else some tunnel whose custom domain the hostname
        ends with. Which one, among several, is left open. */
    method GetByHostname(hostname: string) returns (r: Option<Tunnel>)
      ensures HostnameCandidate(hostname).None? ==> r == None
      ensures HostnameCandidate(hostname).Some? && HostnameCandidate(hostname).value in tunnels ==>
        r == Some(tunnels[HostnameCandidate(hostname).value])
      ensures HostnameCandidate(hostname).Some? && HostnameCandidate(hostname).value !in tunnels ==>
        && (r.Some? ==> r.value in tunnels.Values && DomainMatches(r.value, hostname))
        && (r.None? <==> forall n :: n in tunnels ==> !DomainMatches(tunnels[n], hostname))
    {
      var name := HostnameCandidate(hostname);
      if name.None? {
        return None;
      }
      if name.value in tunnels {
        return Some(tunnels[name.value]);
      }
      var remaining := tunnels.Keys;
      while remaining != {}
        invariant remaining <= tunnels.Keys
        invariant forall n :: n in tunnels && n !in remaining ==> !DomainMatches(tunnels[n], hostname)
        decreases remaining
      {
        var n :| n in remaining;
        if DomainMatches(tunnels[n], hostname) {
          return Some(tunnels[n]);
        }
        remaining := remaining - {n};
      }
      return None;
    }

    /** The same client reconnecting under `req.name`: its old tunnel `t` is
        destroyed, then a fresh tunnel is created for the request. */
    method Replace(t: Tunnel, req: ControlRequest, now: int) returns (r: Result<Tunnel>)
      requires Valid() && req.name in tunnels && tunnels[req.name] == t
      modifies this`tunnels, this`statsLog, t.pool
      ensures Valid()
      ensures forall b :: b in t.pool ==> b.closed
      ensures statsLog == old(statsLog) + (if hasStats then DestroyEvents(t, now) else [])
      ensures ParseProtect(req.protect).Err? ==>
        r == Err(ParseProtect(req.protect).error) && tunnels == old(tunnels) - {req.name}
      ensures ParseProtect(req.protect).Ok? ==>
        && r.Ok? && fresh(r.value)
        && r.value.IsNew(req.name, req.client, ParseProtect(req.protect).value, req.domain, now)
        && tunnels == old(tunnels)[req.name := r.value]
    {
      var _ := Destroy(t, now);
      r := Create(req, now);
    }

    /** `get_by_control_request`: a name held by another client is refused;
        the same client's old tunnel is destroyed; then a fresh tunnel is
        created for the request. */
    method GetByControlRequest(req: ControlRequest, now: int) returns (r: Result<Tunnel>)
      requires Valid()
      modifies this`tunnels, this`statsLog, PooledUnder(req.name)
      ensures Valid()
      ensures old(OwnedByOther(req.name, req.client)) ==>
        && r == Err(NameInUse(req.name)) && tunnels == old(tunnels) && statsLog == old(statsLog)
        && unchanged(old(PooledUnder(req.name)))
      ensures !old(OwnedByOther(req.name, req.client)) ==>
        forall b :: b in old(PooledUnder(req.name)) ==> b.closed
      ensures !old(OwnedByOther(req.name, req.client)) ==>
        statsLog == old(statsLog) +
          (if hasStats && req.name in old(tunnels) then DestroyEvents(old(tunnels)[req.name], now) else [])
      ensures !old(OwnedByOther(req.name, req.client)) && ParseProtect(req.protect).Err? ==>
        r == Err(ParseProtect(req.protect).error) && tunnels == old(tunnels) - {req.name}
      ensures !old(OwnedByOther(req.name, req.client)) && ParseProtect(req.protect).Ok? ==>
        && r.Ok? && fresh(r.value)
        && r.value.IsNew(req.name, req.client, ParseProtect(req.protect).value, req.domain, now)
        && tunnels == old(tunnels)[req.name := r.value]
    {
      if req.name in tunnels {
        var t := tunnels[req.name];
        if t.client != req.client {
          return Err(NameInUse(t.name));
        }
        r := Replace(t, req, now);
      } else {
        assert old(tunnels) - {req.name} == old(tunnels);
        r := Create(req, now);
      }
    }

    /** `get_by_proxy_request`: look the name up, refusing another client. */
    function GetByProxyRequest(req: ProxyRequest): (r: Result<Option<Tunnel>>)
      requires Valid()
      reads this, tunnels.Values
      ensures r.Err? <==> OwnedByOther(req.name, req.client)
      ensures r.Err? ==> r.error == NameInUse(req.name)
      ensures r == Ok(None) <==> req.name !in tunnels
      ensures r.Ok? && r.value.Some? ==>
        req.name in tunnels && r.value.value == tunnels[req.name] && r.value.value.client == req.client
    {
      if req.name in tunnels then
        var t := tunnels[req.name];
        if t.client != req.client then Err(NameInUse(t.name)) else Ok(Some(t))
      else
        Ok(None)
    }

    /** The loop of `_scan_idle`: flag every stale tunnel idle and count them.
        Staleness is judged on `updated`, which the loop does not change. */
    method FlagStale(now: int) returns (idleCount: nat)
      requires Valid()
      modifies tunnels.Values`idle
      ensures idleCount == |old(StaleNames(now))|
      ensures forall n :: n in tunnels ==>
        tunnels[n].idle == (old(tunnels[n].idle) || n in old(StaleNames(now)))
    {
      ghost var stale := StaleNames(now);
      idleCount := 0;
      var ts := tunnels;
      var remaining := ts.Keys;
      while remaining != {}
        modifies ts.Values`idle
        invariant remaining <= ts.Keys
        invariant idleCount == |stale - remaining|
        invariant forall n :: n in ts ==>
          ts[n].idle == (old(ts[n].idle) || (n in stale && n !in remaining))
        decreases remaining
      {
        var n :| n in remaining;
        var t := ts[n];
        CountStep(stale, remaining, n);
        if IsStale(t.updated, now) {
          assert n in stale;
          t.idle := true;
          idleCount := idleCount + 1;
        } else {
          assert n !in stale;
        }
        assert idleCount == |stale - (remaining - {n})|;
        remaining := remaining - {n};
      }
    }

    /** One pass of `_scan_idle`: flag every stale tunnel idle and count
        them; nothing is unregistered and no pool is touched. */
    method ScanIdle(now: int) returns (report: ScanReport)
      requires Valid()
      modifies this`statsLog, tunnels.Values`idle
      ensures Valid()
      ensures tunnels == old(tunnels)
      ensures report.tunnelCount == |tunnels|
      ensures report.idleCount == |StaleNames(now)|
      ensures forall n :: n in tunnels ==>
        tunnels[n].idle == (old(tunnels[n].idle) || IsStale(tunnels[n].updated, now))
      ensures forall n :: n in tunnels ==>
        && tunnels[n].updated == old(tunnels[n].updated)
        && tunnels[n].pool == old(tunnels[n].pool)
        && tunnels[n].available == old(tunnels[n].available)
      ensures statsLog == old(statsLog) +
        (if hasStats then [Value("total_tunnels", report.tunnelCount), Value("idle_tunnels", report.idleCount)] else [])
    {
      var tunnelCount := |tunnels|;
      var idleCount := FlagStale(now);
      if hasStats {
        statsLog := statsLog + [Value("total_tunnels", tunnelCount), Value("idle_tunnels", idleCount)];
      }
      report := ScanReport(tunnelCount, idleCount);
    }
  }
}
