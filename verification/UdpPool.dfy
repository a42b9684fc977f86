/** udp_conn_pool.go: the shard of an address, and what is done to one shard under its lock. */
module UdpPool {
  import opened Wire

  const SHARDS: int := 64
  const MAX_PER_ADDR: int := 4
  const MAX_IDLE: int := 30_000_000_000

  type Addr = Bytes
  type Conn = nat

  datatype Idle = Idle(conn: Conn, lastUsed: int)

  type Shard = map<Addr, seq<Idle>>

  // ---------- shard of an address ----------

  function HashPrefix(addr: Addr, n: nat): (h: nat)
    requires n <= |addr|
    ensures h < 0x1_0000_0000
  {
    if n == 0 then 0 else (HashPrefix(addr, n - 1) * 31 + addr[n - 1]) % 0x1_0000_0000
  }

  /** The bytes as digits to the base 31, first digit first. */
  function Digits31(addr: Addr): nat {
    if addr == [] then 0 else addr[0] * Power31(|addr| - 1) + Digits31(addr[1..])
  }

  function Power31(n: nat): nat {
    if n == 0 then 1 else 31 * Power31(n - 1)
  }

  function ShardOf(addr: Addr): (k: nat)
    ensures k < SHARDS
  {
    HashPrefix(addr, |addr|) % SHARDS
  }

  lemma {:induction false} DigitsAppend(addr: Addr, b: Byte)
    ensures Digits31(addr + [b]) == 31 * Digits31(addr) + b
  {
    if addr == [] {
      assert [b][1..] == [] && Power31(0) == 1;
    } else {
      assert (addr + [b])[1..] == addr[1..] + [b];
      DigitsAppend(addr[1..], b);
      assert Power31(|addr|) == 31 * Power31(|addr| - 1);
      assert addr[0] * (31 * Power31(|addr| - 1)) == 31 * (addr[0] * Power31(|addr| - 1));
    }
  }

  lemma {:induction false} MultipleVanishes(x: nat, k: nat)
    ensures (x + k * 0x1_0000_0000) % 0x1_0000_0000 == x % 0x1_0000_0000
  {
    if k > 0 {
      MultipleVanishes(x, k - 1);
      assert x + k * 0x1_0000_0000 == (x + (k - 1) * 0x1_0000_0000) + 0x1_0000_0000;
    }
  }

  lemma ReduceEarly(d: nat, b: nat)
    ensures (d % 0x1_0000_0000 * 31 + b) % 0x1_0000_0000 == (31 * d + b) % 0x1_0000_0000
  {
    var q, r := d / 0x1_0000_0000, d % 0x1_0000_0000;
    assert 31 * d + b == (r * 31 + b) + (31 * q) * 0x1_0000_0000;
    MultipleVanishes(r * 31 + b, 31 * q);
  }

  /** The hash is that number modulo 2^32, whatever its length. */
  lemma {:induction false} HashIsNumber(addr: Addr, n: nat)
    requires n <= |addr|
    ensures HashPrefix(addr, n) == Digits31(addr[..n]) % 0x1_0000_0000
  {
    if n > 0 {
      HashIsNumber(addr, n - 1);
      assert addr[..n] == addr[..n - 1] + [addr[n - 1]];
      DigitsAppend(addr[..n - 1], addr[n - 1]);
      ReduceEarly(Digits31(addr[..n - 1]), addr[n - 1]);
    }
  }

  lemma {:induction false} ShardIsNumber(addr: Addr)
    ensures ShardOf(addr) == Digits31(addr) % 0x1_0000_0000 % 64
  {
    HashIsNumber(addr, |addr|);
    assert addr[..|addr|] == addr;
  }

  method GetShard(addr: Addr) returns (k: nat)
    ensures k == ShardOf(addr)
  {
    var h := 0;
    for i := 0 to |addr|
      invariant h == HashPrefix(addr, i)
    {
      h := (h * 31 + addr[i]) % 0x1_0000_0000;
    }
    k := h % SHARDS;
  }

  // ---------- what a critical section does to its shard ----------

  function At(m: Shard, addr: Addr): seq<Idle> {
    if addr in m then m[addr] else []
  }

  function Popped(m: Shard, addr: Addr): Shard {
    if At(m, addr) == [] then m else m[addr := m[addr][..|m[addr]| - 1]]
  }

  function Pushed(m: Shard, addr: Addr, conn: Conn, now: int): Shard {
    m[addr := At(m, addr) + [Idle(conn, now)]]
  }

  function Active(conns: seq<Idle>, now: int): seq<Idle> {
    if conns == [] then [] else
    var last := conns[|conns| - 1];
    Active(conns[..|conns| - 1], now) + if now - last.lastUsed > MAX_IDLE then [] else [last]
  }

  function Cleaned(m: Shard, now: int): Shard {
    map addr | addr in m && Active(m[addr], now) != [] :: Active(m[addr], now)
  }

  /** The connections a cleanup closes. */
  function Stale(conns: seq<Idle>, now: int): set<Conn> {
    set x | x in conns && now - x.lastUsed > MAX_IDLE :: x.conn
  }

  lemma {:induction false} SplitLast(conns: seq<Idle>, x: Idle, now: int)
    ensures Stale(conns + [x], now) == Stale(conns, now) + if now - x.lastUsed > MAX_IDLE then {x.conn} else {}
    ensures Active(conns + [x], now) == Active(conns, now) + if now - x.lastUsed > MAX_IDLE then [] else [x]
  {
    assert (conns + [x])[..|conns|] == conns;
    var before, after := Stale(conns, now), Stale(conns + [x], now);
    forall c | c in before ensures c in after {
      var y :| y in conns && now - y.lastUsed > MAX_IDLE && y.conn == c;
      assert y in conns + [x];
    }
    assert x in conns + [x];
  }

  function StaleIn(m: Shard, addrs: set<Addr>, now: int): set<Conn> {
    set addr, c | addr in addrs && addr in m && c in Stale(m[addr], now) :: c
  }

  lemma StaleInAdd(m: Shard, addrs: set<Addr>, addr: Addr, now: int)
    requires addr in m
    ensures StaleIn(m, addrs + {addr}, now) == StaleIn(m, addrs, now) + Stale(m[addr], now)
  {
  }

  /** One shard as the pool mutates it while holding its lock. */
  class PoolShard {
    var conns: Shard

    constructor ()
      ensures conns == map[]
    {
      conns := map[];
    }

    method Take(addr: Addr) returns (found: bool, conn: Conn)
      modifies this
      ensures conns == Popped(old(conns), addr)
      ensures found == (At(old(conns), addr) != [])
      ensures found ==> conn == At(old(conns), addr)[|At(old(conns), addr)| - 1].conn
    {
      var cs := At(conns, addr);
      if |cs| > 0 {
        conns := conns[addr := cs[..|cs| - 1]];
        return true, cs[|cs| - 1].conn;
      }
      return false, 0;
    }

    method Offer(addr: Addr, conn: Conn, now: int) returns (kept: bool)
      modifies this
      ensures kept == (|At(old(conns), addr)| < MAX_PER_ADDR)
      ensures conns == if kept then Pushed(old(conns), addr, conn, now) else old(conns)
    {
      var cs := At(conns, addr);
      if |cs| >= MAX_PER_ADDR { return false; }
      conns := conns[addr := cs + [Idle(conn, now)]];
      return true;
    }

    method RemoveStale(now: int) returns (closed: set<Conn>)
      modifies this
      ensures conns == Cleaned(old(conns), now)
      ensures closed == StaleIn(old(conns), old(conns).Keys, now)
    {
      conns, closed := CleanShard(conns, now);
    }
  }

  /** What cleaning has to leave at one address. */
  ghost predicate CleanedAt(before: Shard, m: Shard, addr: Addr, now: int)
    requires addr in before
  {
    if Active(before[addr], now) == [] then addr !in m
    else addr in m && m[addr] == Active(before[addr], now)
  }

  /** The loop of cleanupStale over one shard. */
  method CleanShard(before: Shard, now: int) returns (m: Shard, closed: set<Conn>)
    ensures m == Cleaned(before, now)
    ensures closed == StaleIn(before, before.Keys, now)
  {
    m, closed := before, {};
    var todo := before.Keys;
    while todo != {}
      invariant todo <= before.Keys && m.Keys <= before.Keys
      invariant forall addr :: addr in todo ==> addr in m && m[addr] == before[addr]
      invariant forall addr :: addr in before && addr !in todo ==> CleanedAt(before, m, addr, now)
      invariant closed == StaleIn(before, before.Keys - todo, now)
      decreases |todo|
    {
      var addr :| addr in todo;
      StaleInAdd(before, before.Keys - todo, addr, now);
      assert before.Keys - (todo - {addr}) == before.Keys - todo + {addr};
      var active, dropped := Filter(m[addr], now);
      closed := closed + dropped;
      ghost var m0 := m;
      if |active| == 0 { m := m - {addr}; } else { m := m[addr := active]; }
      todo := todo - {addr};
      forall a | a in before && a !in todo ensures CleanedAt(before, m, a, now) {
        if a != addr { assert CleanedAt(before, m0, a, now); }
      }
    }
    assert before.Keys - todo == before.Keys;
  }

  method Filter(conns: seq<Idle>, now: int) returns (active: seq<Idle>, dropped: set<Conn>)
    ensures active == Active(conns, now)
    ensures dropped == Stale(conns, now)
  {
    active, dropped := [], {};
    for i := 0 to |conns|
      invariant active == Active(conns[..i], now)
      invariant dropped == Stale(conns[..i], now)
    {
      SplitLast(conns[..i], conns[i], now);
      assert conns[..i + 1] == conns[..i] + [conns[i]];
      if now - conns[i].lastUsed > MAX_IDLE {
        dropped := dropped + {conns[i].conn};
      } else {
        active := active + [conns[i]];
      }
    }
    assert conns[..|conns|] == conns;
  }
}
