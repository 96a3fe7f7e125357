// The service proxies and their ports (service/proxy.go).
module ServiceProxy {
  import opened ApiTypes
  import opened Ports

  datatype ServicePort = ServicePort(port: int, nodePort: int)

  datatype Service = Service(key: Key, ports: seq<ServicePort>)

  // The pool, and the port each live proxy listens on.
  datatype Proxies = Proxies(pool: Pool, live: map<Key, int>)

  // The service's own port is tried first, then one of the pool.  busy holds the ports that cannot be bound.
  function Started(p: Proxies, svc: Service, busy: set<int>): (Proxies, Option<int>) {
    if svc.key in p.live then (p, Some(p.live[svc.key]))
    else if |svc.ports| == 0 then (p, None)
    else if svc.ports[0].port > 0 && svc.ports[0].port !in busy then
      (p.(live := p.live[svc.key := svc.ports[0].port]), Some(svc.ports[0].port))
    else
      var (pool, port) := Allocation(p.pool, svc.key);
      if port.None? then (p, None)
      else if port.value in busy then (p.(pool := Released(pool, svc.key)), None)
      else (Proxies(pool, p.live[svc.key := port.value]), port)
  }

  function Stopped(p: Proxies, key: Key): Proxies {
    if key in p.live then Proxies(Released(p.pool, key), p.live - {key}) else p
  }

  function StoppedAll(p: Proxies, keys: seq<Key>): Proxies
    decreases |keys|
  {
    if keys == [] then p else StoppedAll(Stopped(p, keys[0]), keys[1..])
  }

  class ProxyManager {
    const portPool: PortPool
    var proxies: map<Key, int>

    ghost function Value(): Proxies
      reads this, portPool
    {
      Proxies(portPool.Value(), proxies)
    }

    constructor (portPool: PortPool)
      ensures this.portPool == portPool && proxies == map[]
    {
      this.portPool := portPool;
      proxies := map[];
    }

    method StartProxy(svc: Service, busy: set<int>) returns (port: Option<int>)
      modifies this, portPool
      ensures (Value(), port) == Started(old(Value()), svc, busy)
    {
      if svc.key in proxies {
        return Some(proxies[svc.key]);
      }
      if |svc.ports| == 0 {
        return None;
      }
      var requestedPort := svc.ports[0].port;
      if requestedPort > 0 {
        if requestedPort !in busy {
          proxies := proxies[svc.key := requestedPort];
          return Some(requestedPort);
        }
      }
      var dynPort := portPool.Allocate(svc.key);
      if dynPort.None? {
        return None;
      }
      if dynPort.value in busy {
        portPool.Release(svc.key);
        return None;
      }
      proxies := proxies[svc.key := dynPort.value];
      return dynPort;
    }

    method StopProxy(key: Key)
      modifies this, portPool
      ensures Value() == Stopped(old(Value()), key)
    {
      if key in proxies {
        proxies := proxies - {key};
        portPool.Release(key);
      }
    }

    // The table is emptied only at the end.
    method Shutdown() returns (ghost keys: seq<Key>)
      modifies this, portPool
      ensures forall k :: k in keys <==> k in old(proxies)
      ensures Value() == StoppedAll(old(Value()), keys)
    {
      var rest := proxies.Keys;
      keys := [];
      ghost var before := Value();
      while rest != {}
        invariant rest <= proxies.Keys && proxies == before.live
        invariant forall k :: k in before.live <==> k in rest || k in keys
        invariant forall k :: k in rest ==> k !in keys
        invariant portPool.Value() == StoppedAll(before, keys).pool
        invariant forall k :: k in StoppedAll(before, keys).live <==> k in rest
        decreases |rest|
      {
        var k :| k in rest;
        portPool.Release(k);
        StopOneMore(before, keys, k);
        keys := keys + [k];
        rest := rest - {k};
      }
      proxies := map[];
      assert StoppedAll(before, keys).live == map[];
    }
  }

  lemma {:induction false} StopOneMore(p: Proxies, keys: seq<Key>, k: Key)
    ensures StoppedAll(p, keys + [k]) == Stopped(StoppedAll(p, keys), k)
    decreases |keys|
  {
    if keys == [] {
      assert StoppedAll(Stopped(p, k), []) == Stopped(p, k);
    } else {
      assert (keys + [k])[1..] == keys[1..] + [k];
      StopOneMore(Stopped(p, keys[0]), keys[1..], k);
    }
  }

  // A start that fails, and a start followed by a stop, leave the pool without the service's key and the other
  // proxies alone.
  lemma StartThenStop(p: Proxies, svc: Service, busy: set<int>)
    requires Faithful(p.pool) && Positive(p.pool) && svc.key !in p.live
    ensures var (after, port) := Started(p, svc, busy);
      if port.None? then after.live == p.live && (after.pool == p.pool || after.pool == Released(p.pool, svc.key))
      else
        && after.live == p.live[svc.key := port.value]
        && port.value !in busy && port.value > 0
        && Stopped(after, svc.key) == Proxies(Released(p.pool, svc.key), p.live)
    ensures var (after, port) := Started(p, svc, busy);
      port.Some? && after.pool != p.pool ==> after.pool.held == p.pool.held[svc.key := port.value]
  {
    PositivePort(p.pool, svc.key);
    var (after, port) := Started(p, svc, busy);
    if port.Some? {
      assert after.live - {svc.key} == p.live;
      if svc.key in p.pool.held {
        assert p.pool.held[svc.key] in p.pool.used;
      }
    }
  }
}
