/** Client code that strings the tunnel server's operations together and
    states what callers can rely on from their contracts alone. */
module TunnelScenarios {
  import opened TunnelServer

  /** Push A then B on an empty pool, pop twice: B comes out first, then A. */
  method StackOrder(t: Tunnel, a: Backend, b: Backend, now: int) returns (first: Option<Backend>, second: Option<Backend>)
    requires t.Valid() && t.pool == []
    modifies t
    ensures t.Valid()
    ensures first == Some(b) && second == Some(a)
    ensures t.pool == [] && t.available == 0
  {
    var _ := t.AddProxyBackend(a, now);
    var _ := t.AddProxyBackend(b, now);
    first := t.PopProxyBackend();
    second := t.PopProxyBackend();
  }

  /** The backend offered to a full pool is refused; the three before it are kept. */
  method FourthBackendRefused(t: Tunnel, b1: Backend, b2: Backend, b3: Backend, b4: Backend, now: int)
    returns (r: Outcome)
    requires t.Valid() && t.pool == []
    modifies t
    ensures t.Valid()
    ensures r == Fail(PoolFull(t.name))
    ensures t.pool == [b1, b2, b3] && t.available == MaxPoolSize
  {
    var _ := t.AddProxyBackend(b1, now);
    var _ := t.AddProxyBackend(b2, now);
    var _ := t.AddProxyBackend(b3, now);
    r := t.AddProxyBackend(b4, now);
  }

  /** A scan after the timeout flags a tunnel idle; the next backend clears it. */
  method IdleUntilNextBackend(reg: Registry, t: Tunnel, b: Backend, now: int)
    returns (flaggedByScan: bool)
    requires reg.Valid()
    requires t.name in reg.tunnels && reg.tunnels[t.name] == t
    requires now - t.updated > ActiveTimeout && |t.pool| < MaxPoolSize
    modifies reg, reg.tunnels.Values
    ensures flaggedByScan
    ensures t.Valid() && !t.idle && t.updated == now
  {
    var _ := reg.ScanIdle(now);
    flaggedByScan := t.idle;
    var _ := t.AddProxyBackend(b, now);
  }

  /** Recreating a name and then destroying the old instance leaves the new
      one registered. */
  method StaleDestroyKeepsNewer(reg: Registry, req: ControlRequest, now: int)
    returns (older: Tunnel, newer: Tunnel)
    requires reg.Valid() && ParseProtect(req.protect).Ok?
    modifies reg
    ensures reg.Valid() && older != newer
    ensures req.name in reg.tunnels && reg.tunnels[req.name] == newer
  {
    var r1 := reg.Create(req, now);
    older := r1.value;
    var r2 := reg.Create(req, now);
    newer := r2.value;
    var _ := reg.Destroy(older, now);
  }

  /** The same client reconnecting gets a new tunnel, and the old one's
      backends are closed; a proxy request from that client then finds the
      new tunnel and one from another client is refused. */
  method Reconnect(reg: Registry, req: ControlRequest, other: string, b: Backend, now: int)
    returns (first: Tunnel, second: Tunnel)
    requires reg.Valid() && ParseProtect(req.protect).Ok? && other != req.client
    requires !reg.OwnedByOther(req.name, req.client)
    modifies reg, reg.PooledUnder(req.name), b
    ensures reg.Valid() && first != second && b.closed && first.pool == [b]
    ensures reg.GetByProxyRequest(ProxyRequest(req.name, req.client)) == Ok(Some(second))
    ensures reg.GetByProxyRequest(ProxyRequest(req.name, other)) == Err(NameInUse(req.name))
  {
    var r1 := reg.GetByControlRequest(req, now);
    first := r1.value;
    var _ := first.AddProxyBackend(b, now);
    var r2 := reg.GetByControlRequest(req, now + 1);
    second := r2.value;
  }

  /** The proxy side of a connection: look the tunnel up for the request, then
      take a backend from it. The registry invariant is what makes the pop
      possible on whatever tunnel the lookup returns. */
  method ProxyThroughTunnel(reg: Registry, req: ProxyRequest) returns (r: Result<Option<Backend>>)
    requires reg.Valid()
    modifies reg.tunnels.Values
    ensures reg.Valid() && reg.tunnels == old(reg.tunnels)
    ensures old(reg.OwnedByOther(req.name, req.client)) ==> r == Err(NameInUse(req.name))
    ensures req.name !in reg.tunnels ==> r == Ok(None)
    ensures req.name in reg.tunnels && !old(reg.OwnedByOther(req.name, req.client)) ==>
      var p := old(reg.tunnels[req.name].pool);
      && (p == [] ==> r == Ok(None))
      && (p != [] ==> r == Ok(Some(p[|p| - 1])) && reg.tunnels[req.name].pool == p[..|p| - 1])
  {
    var found := reg.GetByProxyRequest(req);
    if found.Err? {
      return Err(found.error);
    }
    if found.value.None? {
      return Ok(None);
    }
    var t := found.value.value;
    var b := t.PopProxyBackend();
    r := Ok(b);
  }
}
