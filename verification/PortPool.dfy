// The pool of host ports (network/portpool.go), shared by pods and services.
module Ports {
  import opened ApiTypes
  import opened Totals

  datatype Pool = Pool(minPort: int, maxPort: int, held: map<Key, int>, used: map<int, Key>)

  function EmptyPool(minPort: int, maxPort: int): Pool {
    Pool(minPort, maxPort, map[], map[])
  }

  // The first port from port on that is in range and not used.
  function FreeFrom(pool: Pool, port: int): Option<int>
    decreases pool.maxPort - port
  {
    if port > pool.maxPort then None
    else if port !in pool.used then Some(port)
    else FreeFrom(pool, port + 1)
  }

  function Bind(pool: Pool, id: Key, port: int): Pool {
    pool.(held := pool.held[id := port], used := pool.used[port := id])
  }

  function Allocation(pool: Pool, id: Key): (Pool, Option<int>) {
    if id in pool.held then (pool, Some(pool.held[id]))
    else match FreeFrom(pool, pool.minPort)
      case None => (pool, None)
      case Some(port) => (Bind(pool, id, port), Some(port))
  }

  function Released(pool: Pool, id: Key): Pool {
    if id in pool.held then
      pool.(held := pool.held - {id}, used := pool.used - {pool.held[id]})
    else pool
  }

  function HeldBy(pool: Pool, id: Key): Option<int> {
    if id in pool.held then Some(pool.held[id]) else None
  }

  // Whether the reservation is accepted, and the pool after it.
  function Reservation(pool: Pool, id: Key, port: int): (Pool, bool) {
    if port in pool.used then (pool, pool.used[port] == id) else (Bind(pool, id, port), true)
  }

  class PortPool {
    const minPort: int
    const maxPort: int
    var held: map<Key, int>
    var usedPorts: map<int, Key>

    ghost function Value(): Pool
      reads this
    {
      Pool(minPort, maxPort, held, usedPorts)
    }

    constructor (minPort: int, maxPort: int)
      ensures Value() == EmptyPool(minPort, maxPort)
    {
      this.minPort, this.maxPort := minPort, maxPort;
      held, usedPorts := map[], map[];
    }

    method Allocate(id: Key) returns (port: Option<int>)
      modifies this
      ensures (Value(), port) == Allocation(old(Value()), id)
    {
      if id in held {
        return Some(held[id]);
      }
      var p := minPort;
      while p <= maxPort
        invariant FreeFrom(Value(), p) == FreeFrom(Value(), minPort)
        invariant Value() == old(Value())
      {
        if p !in usedPorts {
          held := held[id := p];
          usedPorts := usedPorts[p := id];
          return Some(p);
        }
        p := p + 1;
      }
      return None;
    }

    method Release(id: Key)
      modifies this
      ensures Value() == Released(old(Value()), id)
    {
      if id in held {
        var port := held[id];
        held := held - {id};
        usedPorts := usedPorts - {port};
      }
    }

    method Lookup(id: Key) returns (port: Option<int>)
      ensures port == HeldBy(Value(), id)
    {
      if id in held {
        return Some(held[id]);
      }
      return None;
    }

    method Reserve(id: Key, port: int) returns (ok: bool)
      modifies this
      ensures (Value(), ok) == Reservation(old(Value()), id, port)
    {
      if port in usedPorts {
        return usedPorts[port] == id;
      }
      held := held[id := port];
      usedPorts := usedPorts[port := id];
      return true;
    }
  }

  // Every allocation is recorded as a use by its holder; so no two holders share a port.
  ghost predicate Faithful(pool: Pool) {
    forall id :: id in pool.held ==> pool.held[id] in pool.used && pool.used[pool.held[id]] == id
  }

  // A used port that its recorded holder does not hold.
  predicate Orphan(pool: Pool, port: int) {
    && port in pool.used
    && (pool.used[port] in pool.held ==> pool.held[pool.used[port]] != port)
  }

  // The two maps are inverses of each other.
  ghost predicate Mutual(pool: Pool) {
    Faithful(pool) && forall port :: port in pool.used ==> !Orphan(pool, port)
  }

  ghost predicate InRange(pool: Pool) {
    forall port :: port in pool.used ==> pool.minPort <= port <= pool.maxPort
  }

  lemma HoldersDiffer(pool: Pool, id: Key, other: Key)
    requires Faithful(pool) && id in pool.held && other in pool.held && id != other
    ensures pool.held[id] != pool.held[other]
  {
    assert pool.used[pool.held[id]] == id;
  }

  // The search finds the least free port, and fails only when there is none.
  lemma {:induction false} FreeFromIsLeast(pool: Pool, from: int, p: int)
    requires from <= p <= pool.maxPort && p !in pool.used
    ensures FreeFrom(pool, from).Some? && from <= FreeFrom(pool, from).value <= p
    ensures FreeFrom(pool, from).value !in pool.used
    decreases pool.maxPort - from
  {
    if from in pool.used {
      FreeFromIsLeast(pool, from + 1, p);
    }
  }

  lemma {:induction false} FreeFromIsFree(pool: Pool, from: int)
    ensures match FreeFrom(pool, from)
      case None => true
      case Some(p) => from <= p <= pool.maxPort && p !in pool.used
    decreases pool.maxPort - from
  {
    if from <= pool.maxPort && from in pool.used {
      FreeFromIsFree(pool, from + 1);
    }
  }

  // A new holder gets the least port in range that is free, and no port exactly when all are used.
  lemma AllocateIsLeast(pool: Pool, id: Key)
    requires id !in pool.held
    ensures match Allocation(pool, id).1
      case None =>
        && Allocation(pool, id).0 == pool
        && forall p :: pool.minPort <= p <= pool.maxPort ==> p in pool.used
      case Some(port) =>
        && pool.minPort <= port <= pool.maxPort && port !in pool.used
        && (forall p :: pool.minPort <= p < port ==> p in pool.used)
        && Allocation(pool, id).0 == Bind(pool, id, port)
  {
    FreeFromIsFree(pool, pool.minPort);
    forall p | pool.minPort <= p <= pool.maxPort && p !in pool.used
      ensures FreeFrom(pool, pool.minPort).Some? && FreeFrom(pool, pool.minPort).value <= p
    {
      FreeFromIsLeast(pool, pool.minPort, p);
    }
  }

  // Every port of the pool is positive: the range and the ports in use are.
  ghost predicate Positive(pool: Pool) {
    pool.minPort > 0 && forall port :: port in pool.used ==> port > 0
  }

  // A positive pool hands out positive ports, and releasing what was just allocated leaves the pool without the
  // key's port, whoever allocated it.
  lemma PositivePort(pool: Pool, key: Key)
    requires Faithful(pool) && Positive(pool)
    ensures Positive(Allocation(pool, key).0)
    ensures Allocation(pool, key).1.Some? ==> Allocation(pool, key).1.value > 0
    ensures Released(Allocation(pool, key).0, key) == Released(pool, key)
    ensures key !in pool.held ==> Released(pool, key) == pool
  {
    FreeFromIsFree(pool, pool.minPort);
    if key !in pool.held && Allocation(pool, key).1.Some? {
      var port := Allocation(pool, key).1.value;
      assert pool.held[key := port] - {key} == pool.held;
      assert pool.used[port := key] - {port} == pool.used;
    }
  }

  datatype Op = AllocateOp(id: Key) | ReleaseOp(id: Key) | ReserveOp(id: Key, port: int)

  function Apply(pool: Pool, op: Op): Pool {
    match op
    case AllocateOp(id) => Allocation(pool, id).0
    case ReleaseOp(id) => Released(pool, id)
    case ReserveOp(id, port) => Reservation(pool, id, port).0
  }

  function Run(pool: Pool, ops: seq<Op>): Pool
    decreases |ops|
  {
    if ops == [] then pool else Run(Apply(pool, ops[0]), ops[1..])
  }

  // A reservation of a free port for a holder that already has a port.
  predicate Orphans(pool: Pool, op: Op) {
    op.ReserveOp? && op.port !in pool.used && op.id in pool.held
  }

  predicate Clean(pool: Pool, ops: seq<Op>)
    decreases |ops|
  {
    ops == [] || (!Orphans(pool, ops[0]) && Clean(Apply(pool, ops[0]), ops[1..]))
  }

  lemma ApplyFaithful(pool: Pool, op: Op)
    requires Faithful(pool)
    ensures Faithful(Apply(pool, op))
  {
    if op.AllocateOp? {
      FreeFromIsFree(pool, pool.minPort);
    }
  }

  // An operation keeps the maps inverse exactly when it does not reserve over a port already held.
  lemma ApplyMutual(pool: Pool, op: Op)
    requires Mutual(pool)
    ensures Mutual(Apply(pool, op)) <==> !Orphans(pool, op)
    ensures Orphans(pool, op) ==> Orphan(Apply(pool, op), pool.held[op.id])
  {
    ApplyFaithful(pool, op);
    if op.AllocateOp? {
      FreeFromIsFree(pool, pool.minPort);
    }
    var after := Apply(pool, op);
    if Orphans(pool, op) {
      var lost := pool.held[op.id];
      assert !Orphan(pool, lost);
      assert Orphan(after, lost);
    } else {
      forall port | port in after.used
        ensures !Orphan(after, port)
      {
        if port in pool.used {
          assert !Orphan(pool, port);
        }
      }
    }
  }

  // A port lost by such a reservation stays used for ever: no operation frees it or hands it out again.
  lemma ApplyKeepsOrphan(pool: Pool, op: Op, port: int)
    requires Faithful(pool) && Orphan(pool, port)
    ensures Orphan(Apply(pool, op), port)
    ensures op.AllocateOp? ==> Allocation(pool, op.id).1 != Some(port)
  {
    if op.AllocateOp? {
      FreeFromIsFree(pool, pool.minPort);
    }
  }

  lemma {:induction false} OrphanForever(pool: Pool, ops: seq<Op>, port: int)
    requires Faithful(pool) && Orphan(pool, port)
    ensures Orphan(Run(pool, ops), port)
    decreases |ops|
  {
    if ops != [] {
      ApplyKeepsOrphan(pool, ops[0], port);
      ApplyFaithful(pool, ops[0]);
      OrphanForever(Apply(pool, ops[0]), ops[1..], port);
    }
  }

  // Over any run the first map is faithful; it is inverse to the second at the end exactly when no step of the
  // run reserved over a held port.
  lemma {:induction false} RunFaithful(pool: Pool, ops: seq<Op>)
    requires Faithful(pool)
    ensures Faithful(Run(pool, ops))
    decreases |ops|
  {
    if ops != [] {
      ApplyFaithful(pool, ops[0]);
      RunFaithful(Apply(pool, ops[0]), ops[1..]);
    }
  }

  lemma {:induction false} RunMutual(pool: Pool, ops: seq<Op>)
    requires Mutual(pool)
    ensures Mutual(Run(pool, ops)) <==> Clean(pool, ops)
    decreases |ops|
  {
    if ops != [] {
      var next := Apply(pool, ops[0]);
      ApplyMutual(pool, ops[0]);
      ApplyFaithful(pool, ops[0]);
      if Orphans(pool, ops[0]) {
        OrphanForever(next, ops[1..], pool.held[ops[0].id]);
      } else {
        RunMutual(next, ops[1..]);
      }
    }
  }

  function RangeSize(pool: Pool): nat {
    if pool.minPort <= pool.maxPort then pool.maxPort - pool.minPort + 1 else 0
  }

  function Range(lo: int, hi: int): set<int>
    decreases hi - lo
  {
    if lo > hi then {} else Range(lo, hi - 1) + {hi}
  }

  lemma {:induction false} RangeIs(lo: int, hi: int)
    requires lo <= hi + 1
    ensures |Range(lo, hi)| == hi - lo + 1
    ensures forall p :: p in Range(lo, hi) <==> lo <= p <= hi
    decreases hi - lo
  {
    if lo <= hi {
      RangeIs(lo, hi - 1);
    }
  }

  lemma UsedIsHeld(pool: Pool, port: int)
    requires Mutual(pool) && port in pool.used
    ensures pool.used[port] in pool.held && pool.held[pool.used[port]] == port
  {
    assert !Orphan(pool, port);
  }

  lemma NoneHeldNoneUsed(pool: Pool)
    requires Mutual(pool) && pool.held.Keys == {}
    ensures pool.used.Keys == {}
  {
    forall port | port in pool.used
      ensures pool.used[port] in pool.held.Keys
    {
      UsedIsHeld(pool, port);
    }
  }

  // As many ports are used as are held.
  lemma {:induction false} UsedCount(pool: Pool)
    requires Mutual(pool)
    ensures |pool.used.Keys| == |pool.held.Keys|
    decreases |pool.held.Keys|
  {
    if |pool.held.Keys| == 0 {
      NoneHeldNoneUsed(pool);
    } else {
      var id :| id in pool.held;
      var rest := Released(pool, id);
      ApplyMutual(pool, ReleaseOp(id));
      assert rest.held.Keys == pool.held.Keys - {id};
      assert rest.used.Keys == pool.used.Keys - {pool.held[id]};
      UsedCount(rest);
    }
  }

  // When every used port is held and in range, a new holder is refused exactly when the whole range is held.
  lemma RefusedIffFull(pool: Pool, id: Key)
    requires Mutual(pool) && InRange(pool) && id !in pool.held
    ensures Allocation(pool, id).1.None? <==> |pool.held.Keys| == RangeSize(pool)
  {
    UsedCount(pool);
    AllocateIsLeast(pool, id);
    if pool.minPort <= pool.maxPort {
      RangeIs(pool.minPort, pool.maxPort);
    }
    var all, used := Range(pool.minPort, pool.maxPort), pool.used.Keys;
    assert used <= all by {
      forall p | p in used
        ensures p in all
      {
        assert p in pool.used;
      }
    }
    SubsetIffAsMany(used, all);
    if all <= used {
      forall p | pool.minPort <= p <= pool.maxPort
        ensures p in pool.used
      {
        assert p in all;
      }
    }
    if Allocation(pool, id).1.None? {
      forall p | p in all
        ensures p in used
      {
        assert p in pool.used;
      }
      assert all <= used;
    }
  }

  // Allocating and releasing alone never leave the range nor orphan a port.
  lemma {:induction false} WithoutReserve(pool: Pool, ops: seq<Op>)
    requires Mutual(pool) && InRange(pool)
    requires forall i :: 0 <= i < |ops| ==> !ops[i].ReserveOp?
    ensures Mutual(Run(pool, ops)) && InRange(Run(pool, ops))
    ensures Run(pool, ops).minPort == pool.minPort && Run(pool, ops).maxPort == pool.maxPort
    decreases |ops|
  {
    if ops != [] {
      ApplyMutual(pool, ops[0]);
      FreeFromIsFree(pool, pool.minPort);
      WithoutReserve(Apply(pool, ops[0]), ops[1..]);
    }
  }

  // With those alone, a new holder is refused exactly when as many holders are outstanding as there are ports.
  lemma RefusedWithoutReserve(minPort: int, maxPort: int, ops: seq<Op>, id: Key)
    requires forall i :: 0 <= i < |ops| ==> !ops[i].ReserveOp?
    requires id !in Run(EmptyPool(minPort, maxPort), ops).held
    ensures var pool := Run(EmptyPool(minPort, maxPort), ops);
      Allocation(pool, id).1.None? <==> |pool.held.Keys| == RangeSize(EmptyPool(minPort, maxPort))
  {
    WithoutReserve(EmptyPool(minPort, maxPort), ops);
    RefusedIffFull(Run(EmptyPool(minPort, maxPort), ops), id);
  }

  // With inverse maps a reservation is refused exactly when another holder has the port; otherwise the port is used by
  // the one who reserves it, and that one has it.
  lemma ReserveRefusedIff(pool: Pool, id: Key, port: int)
    requires Mutual(pool)
    ensures var (after, ok) := Reservation(pool, id, port);
      && (!ok <==> exists other :: other in pool.held && other != id && pool.held[other] == port)
      && (if ok then id in after.held && after.held[id] == port && port in after.used && after.used[port] == id
          else after == pool)
  {
    if port in pool.used {
      UsedIsHeld(pool, port);
    }
  }
}
