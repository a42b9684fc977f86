/** Every interleaving of callers, cleanup and shutdown on the UDP connection pool.  Threads interleave at each
    lock operation, each read of the closed flag and each change of a shard. */
module UdpPoolRuns {
  import opened UdpPool

  /** Where a connection is.  A connection being returned belongs to the thread that returns it. */
  datatype Place = Held | Moving(thread: nat) | Pooled(addr: Addr) | Closed

  datatype Pc =
    | Ready
    | Putting(addr: Addr, conn: Conn)     // Put entered
    | Offering(addr: Addr, conn: Conn)    // closed flag read as clear, shard lock wanted
    | Inside(addr: Addr, conn: Conn)      // shard lock held
    | Accepting(addr: Addr, conn: Conn)   // closed flag read as clear again, under the lock
    | Rejecting(conn: Conn)               // shard lock released, connection still to be closed
    | Looking(addr: Addr)                 // Get entered
    | Dialing                             // nothing pooled
    | Cleaning(next: nat, now: int)       // shards before `next` cleaned
    | Closing                             // Close entered
    | Draining(next: nat)                 // flag set, shards before `next` drained

  predicate Carries(pc: Pc) {
    pc.Putting? || pc.Offering? || pc.Inside? || pc.Accepting? || pc.Rejecting?
  }

  predicate Locks(pc: Pc, k: nat) {
    (pc.Inside? || pc.Accepting?) && ShardOf(pc.addr) == k
  }

  type Shards = s: seq<Shard> | |s| == SHARDS witness seq(SHARDS, i => map[])

  /** `drained` and `returned` record which shards a Close has emptied and whether one has returned. */
  datatype Pool = Pool(
    closed: bool,
    shards: Shards,
    place: map<Conn, Place>,
    threads: map<nat, Pc>,
    drained: set<nat>,
    returned: bool)

  function PcOf(s: Pool, t: nat): Pc {
    if t in s.threads then s.threads[t] else Ready
  }

  function To(s: Pool, t: nat, pc: Pc): Pool {
    s.(threads := s.threads[t := pc])
  }

  function Put(s: Pool, c: Conn, p: Place): Pool {
    s.(place := s.place[c := p])
  }

  function SetShard(s: Pool, k: nat, m: Shard): Pool
    requires k < SHARDS
  {
    s.(shards := s.shards[k := m])
  }

  ghost predicate LockFree(s: Pool, k: nat) {
    forall t :: t in s.threads ==> !Locks(s.threads[t], k)
  }

  function Row(s: Pool, addr: Addr): seq<Idle>
  {
    At(s.shards[ShardOf(addr)], addr)
  }

  ghost predicate Init(s: Pool) {
    && !s.closed && !s.returned && s.drained == {} && s.place == map[] && s.threads == map[]
    && forall k :: 0 <= k < SHARDS ==> s.shards[k] == map[]
  }

  // ---------- steps ----------

  function MarkClosed(place: map<Conn, Place>, gone: set<Conn>): map<Conn, Place> {
    map c | c in place :: if c in gone then Closed else place[c]
  }

  function AllConns(m: Shard): set<Conn> {
    set addr, x | addr in m && x in m[addr] :: x.conn
  }

  datatype Action =
    | CallPut(addr: Addr, conn: Conn)
    | ReadFlag
    | Lock
    | Recheck
    | Accept(now: int)
    | Reject
    | CallGet(addr: Addr)
    | Pop
    | Dial(conn: Conn)
    | DialFails
    | Discard(conn: Conn)
    | CallClean(now: int)
    | Clean
    | CallClose
    | SetFlag
    | Drain
    | Finish

  ghost predicate PutStep(s: Pool, t: nat, a: Action, s': Pool) {
    var pc := PcOf(s, t);
    match a
    case CallPut(addr, conn) =>
      && pc.Ready? && conn in s.place && s.place[conn] == Held
      && s' == Put(To(s, t, Putting(addr, conn)), conn, Moving(t))
    case ReadFlag =>
      && pc.Putting?
      && s' == if s.closed then Put(To(s, t, Ready), pc.conn, Closed) else To(s, t, Offering(pc.addr, pc.conn))
    case Lock =>
      pc.Offering? && LockFree(s, ShardOf(pc.addr)) && s' == To(s, t, Inside(pc.addr, pc.conn))
    case Recheck =>
      && pc.Inside?
      && s' == To(s, t, if s.closed then Rejecting(pc.conn) else Accepting(pc.addr, pc.conn))
    case Accept(now) =>
      && pc.Accepting?
      && if |Row(s, pc.addr)| >= MAX_PER_ADDR then s' == To(s, t, Rejecting(pc.conn))
         else
           var k := ShardOf(pc.addr);
           s' == Put(SetShard(To(s, t, Ready), k, Pushed(s.shards[k], pc.addr, pc.conn, now)), pc.conn, Pooled(pc.addr))
    case Reject =>
      pc.Rejecting? && s' == Put(To(s, t, Ready), pc.conn, Closed)
    case _ => false
  }

  ghost predicate GetStep(s: Pool, t: nat, a: Action, s': Pool) {
    var pc := PcOf(s, t);
    match a
    case CallGet(addr) => pc.Ready? && s' == To(s, t, Looking(addr))
    case Pop =>
      && pc.Looking? && LockFree(s, ShardOf(pc.addr))
      && var k, row := ShardOf(pc.addr), Row(s, pc.addr);
         if row == [] then s' == To(s, t, Dialing)
         else s' == Put(SetShard(To(s, t, Ready), k, Popped(s.shards[k], pc.addr)), row[|row| - 1].conn, Held)
    case Dial(conn) => pc.Dialing? && conn !in s.place && s' == Put(To(s, t, Ready), conn, Held)
    case DialFails => pc.Dialing? && s' == To(s, t, Ready)
    case Discard(conn) => pc.Ready? && conn in s.place && s.place[conn] == Held && s' == Put(s, conn, Closed)
    case _ => false
  }

  ghost predicate SweepStep(s: Pool, t: nat, a: Action, s': Pool) {
    var pc := PcOf(s, t);
    match a
    case CallClean(now) => pc.Ready? && s' == To(s, t, Cleaning(0, now))
    case Clean =>
      && pc.Cleaning? && pc.next < SHARDS && LockFree(s, pc.next)
      && var m := s.shards[pc.next];
         s' == SetShard(To(s, t, Cleaning(pc.next + 1, pc.now)), pc.next, Cleaned(m, pc.now))
                 .(place := MarkClosed(s.place, StaleIn(m, m.Keys, pc.now)))
    case CallClose => pc.Ready? && s' == To(s, t, Closing)
    case SetFlag => pc.Closing? && s' == To(s, t, Draining(0)).(closed := true)
    case Drain =>
      && pc.Draining? && pc.next < SHARDS && LockFree(s, pc.next)
      && s' == SetShard(To(s, t, Draining(pc.next + 1)), pc.next, map[])
                 .(place := MarkClosed(s.place, AllConns(s.shards[pc.next])), drained := s.drained + {pc.next})
    case Finish =>
      || (pc.Cleaning? && pc.next == SHARDS && s' == To(s, t, Ready))
      || (pc.Draining? && pc.next == SHARDS && s' == To(s, t, Ready).(returned := true))
    case _ => false
  }

  ghost predicate Step(s: Pool, t: nat, a: Action, s': Pool)
  {
    PutStep(s, t, a, s') || GetStep(s, t, a, s') || SweepStep(s, t, a, s')
  }

  // ---------- invariants ----------

  /** A pooled row: at most four distinct connections, each known to be pooled at this address. */
  ghost predicate RowSound(place: map<Conn, Place>, addr: Addr, row: seq<Idle>) {
    && |row| <= MAX_PER_ADDR
    && (forall i :: 0 <= i < |row| ==> row[i].conn in place && place[row[i].conn] == Pooled(addr))
    && (forall i, j :: 0 <= i < j < |row| ==> row[i].conn != row[j].conn)
  }

  ghost predicate ShardSound(place: map<Conn, Place>, k: nat, m: Shard) {
    forall addr :: addr in m ==> ShardOf(addr) == k && RowSound(place, addr, m[addr])
  }

  ghost predicate InRow(row: seq<Idle>, c: Conn) {
    exists i :: 0 <= i < |row| && row[i].conn == c
  }

  ghost predicate Shelved(s: Pool)
  {
    && (forall k :: 0 <= k < SHARDS ==> ShardSound(s.place, k, s.shards[k]))
    && (forall c :: c in s.place && s.place[c].Pooled? ==> InRow(Row(s, s.place[c].addr), c))
  }

  ghost predicate Carried(s: Pool) {
    && (forall t :: t in s.threads && Carries(s.threads[t]) ==>
          s.threads[t].conn in s.place && s.place[s.threads[t].conn] == Moving(t))
    && (forall c :: c in s.place && s.place[c].Moving? ==>
          var t := s.place[c].thread; t in s.threads && Carries(s.threads[t]) && s.threads[t].conn == c)
  }

  ghost predicate Exclusive(s: Pool) {
    forall t, u, k: nat ::
      t in s.threads && u in s.threads && Locks(s.threads[t], k) && Locks(s.threads[u], k) ==> t == u
  }

  ghost predicate ShutDown(s: Pool)
  {
    && (forall k :: k in s.drained ==>
          && k < SHARDS && s.closed && s.shards[k] == map[]
          && forall t :: t in s.threads && s.threads[t].Accepting? ==> ShardOf(s.threads[t].addr) != k)
    && (forall t :: t in s.threads && s.threads[t].Draining? ==>
          s.closed && forall k: nat :: k < s.threads[t].next ==> k in s.drained)
    && (s.returned ==> forall k: nat :: k < SHARDS ==> k in s.drained)
  }

  ghost predicate Invariant(s: Pool) {
    Shelved(s) && Carried(s) && Exclusive(s) && ShutDown(s)
  }

  // ---------- the shelf ----------

  /** No connection was shelved or taken off the shelf. */
  lemma ShelfUntouched(s: Pool, s': Pool)
    requires Shelved(s) && s'.shards == s.shards
    requires forall c :: c in s.place && s.place[c].Pooled? ==> c in s'.place && s'.place[c] == s.place[c]
    requires forall c :: c in s'.place && s'.place[c].Pooled? ==> c in s.place && s.place[c] == s'.place[c]
    ensures Shelved(s')
  {
    forall k | 0 <= k < SHARDS ensures ShardSound(s'.place, k, s'.shards[k]) {
      assert ShardSound(s.place, k, s.shards[k]);
    }
    forall c | c in s'.place && s'.place[c].Pooled? ensures InRow(Row(s', s'.place[c].addr), c) {
      assert InRow(Row(s, s.place[c].addr), c);
    }
  }

  /** A row whose connections keep their place stays sound. */
  lemma RowKept(place: map<Conn, Place>, place': map<Conn, Place>, addr: Addr, row: seq<Idle>)
    requires RowSound(place, addr, row)
    requires forall c :: c in place && place[c] == Pooled(addr) && InRow(row, c) ==>
               c in place' && place'[c] == place[c]
    ensures RowSound(place', addr, row)
  {
    forall i | 0 <= i < |row| ensures row[i].conn in place' && place'[row[i].conn] == Pooled(addr) {
      assert InRow(row, row[i].conn);
    }
  }

  /** Connections pooled at other addresses are where they were. */
  ghost predicate ElsewhereKept(place: map<Conn, Place>, place': map<Conn, Place>, addr: Addr) {
    && (forall c :: c in place && place[c].Pooled? && place[c].addr != addr ==> c in place' && place'[c] == place[c])
    && (forall c :: c in place' && place'[c].Pooled? && place'[c].addr != addr ==> c in place && place[c] == place'[c])
  }

  lemma ShardKept(place: map<Conn, Place>, place': map<Conn, Place>, addr: Addr, k: nat, m: Shard)
    requires ShardSound(place, k, m) && ElsewhereKept(place, place', addr)
    ensures forall a :: a in m && a != addr ==> ShardOf(a) == k && RowSound(place', a, m[a])
  {
    forall a | a in m && a != addr ensures RowSound(place', a, m[a]) {
      RowKept(place, place', a, m[a]);
    }
  }

  /** Replacing one row by a sound one keeps the shelf. */
  lemma RowReplaced(s: Pool, addr: Addr, row: seq<Idle>, s': Pool)
    requires Shelved(s)
    requires s'.shards == s.shards[ShardOf(addr) := s.shards[ShardOf(addr)][addr := row]]
    requires ElsewhereKept(s.place, s'.place, addr)
    requires RowSound(s'.place, addr, row)
    requires forall c :: c in s'.place && s'.place[c] == Pooled(addr) ==> InRow(row, c)
    ensures Shelved(s')
  {
    forall j | 0 <= j < SHARDS ensures ShardSound(s'.place, j, s'.shards[j]) {
      ShardKept(s.place, s'.place, addr, j, s.shards[j]);
      if j != ShardOf(addr) { assert forall a :: a in s.shards[j] ==> a != addr; }
    }
    forall c | c in s'.place && s'.place[c].Pooled? ensures InRow(Row(s', s'.place[c].addr), c) {
      if s'.place[c].addr != addr {
        assert InRow(Row(s, s.place[c].addr), c);
        assert Row(s', s'.place[c].addr) == Row(s, s.place[c].addr);
      }
    }
  }

  lemma RowOf(s: Pool, addr: Addr)
    requires Shelved(s)
    ensures RowSound(s.place, addr, Row(s, addr))
    ensures forall c :: c in s.place && s.place[c] == Pooled(addr) ==> InRow(Row(s, addr), c)
  {
    assert ShardSound(s.place, ShardOf(addr), s.shards[ShardOf(addr)]);
  }

  lemma PushShelved(s: Pool, addr: Addr, conn: Conn, now: int)
    requires Shelved(s)
    requires conn in s.place && !s.place[conn].Pooled?
    requires |Row(s, addr)| < MAX_PER_ADDR
    ensures
      var k := ShardOf(addr);
      Shelved(Put(SetShard(s, k, Pushed(s.shards[k], addr, conn, now)), conn, Pooled(addr)))
  {
    var k, row := ShardOf(addr), Row(s, addr);
    var row' := row + [Idle(conn, now)];
    var s' := Put(SetShard(s, k, Pushed(s.shards[k], addr, conn, now)), conn, Pooled(addr));
    RowOf(s, addr);
    forall c | c in s'.place && s'.place[c] == Pooled(addr) ensures InRow(row', c) {
      if c == conn {
        assert row'[|row|].conn == conn;
      } else {
        var i :| 0 <= i < |row| && row[i].conn == c;
        assert row'[i].conn == c;
      }
    }
    RowReplaced(s, addr, row', s');
  }

  lemma PopShelved(s: Pool, addr: Addr)
    requires Shelved(s) && Row(s, addr) != []
    ensures
      var k, row := ShardOf(addr), Row(s, addr);
      var c := row[|row| - 1].conn;
      && c in s.place && s.place[c] == Pooled(addr)
      && Shelved(Put(SetShard(s, k, Popped(s.shards[k], addr)), c, Held))
  {
    var k, row := ShardOf(addr), Row(s, addr);
    var n := |row| - 1;
    var conn := row[n].conn;
    var s' := Put(SetShard(s, k, Popped(s.shards[k], addr)), conn, Held);
    RowOf(s, addr);
    forall c | c in s'.place && s'.place[c] == Pooled(addr) ensures InRow(row[..n], c) {
      var i :| 0 <= i < |row| && row[i].conn == c;
      assert row[..n][i].conn == c;
    }
    RowReplaced(s, addr, row[..n], s');
  }

  // ---------- sweeping a shard ----------

  /** Sweeping closes what it removes and keeps the rest of the shard in order. */
  ghost predicate Swept(place: map<Conn, Place>, m: Shard, gone: set<Conn>, m': Shard) {
    && (forall addr :: addr in m' ==> addr in m && RowSound(place, addr, m'[addr]))
    && (forall addr, i :: addr in m' && 0 <= i < |m'[addr]| ==> m'[addr][i].conn !in gone)
    && (forall addr, i :: addr in m && 0 <= i < |m[addr]| ==>
          m[addr][i].conn in gone || InRow(At(m', addr), m[addr][i].conn))
    && (forall c :: c in gone ==> exists addr :: addr in m && InRow(m[addr], c))
  }

  lemma SweepShelved(s: Pool, k: nat, gone: set<Conn>, m': Shard, s': Pool)
    requires Shelved(s) && k < SHARDS
    requires Swept(s.place, s.shards[k], gone, m')
    requires s'.shards == s.shards[k := m'] && s'.place == MarkClosed(s.place, gone)
    ensures Shelved(s')
    ensures forall c :: c in gone ==> c in s.place && s.place[c].Pooled?
  {
    assert ShardSound(s.place, k, s.shards[k]);
    forall c | c in gone ensures c in s.place && s.place[c].Pooled? && ShardOf(s.place[c].addr) == k {
      var addr :| addr in s.shards[k] && InRow(s.shards[k][addr], c);
    }
    forall j | 0 <= j < SHARDS ensures ShardSound(s'.place, j, s'.shards[j]) {
      assert ShardSound(s.place, j, s.shards[j]);
      if j == k {
        forall addr | addr in m' ensures RowSound(s'.place, addr, m'[addr]) {}
      } else {
        forall addr | addr in s.shards[j] ensures RowSound(s'.place, addr, s.shards[j][addr]) {
          RowKept(s.place, s'.place, addr, s.shards[j][addr]);
        }
      }
    }
    forall c | c in s'.place && s'.place[c].Pooled? ensures InRow(Row(s', s'.place[c].addr), c) {
      var addr := s.place[c].addr;
      assert InRow(Row(s, addr), c);
    }
  }

  lemma {:induction false} ActiveMembers(row: seq<Idle>, now: int, x: Idle)
    ensures x in Active(row, now) <==> x in row && now - x.lastUsed <= MAX_IDLE
  {
    if row != [] {
      ActiveMembers(row[..|row| - 1], now, x);
      assert row == row[..|row| - 1] + [row[|row| - 1]];
    }
  }

  lemma {:induction false} ActiveSound(place: map<Conn, Place>, addr: Addr, row: seq<Idle>, now: int)
    requires RowSound(place, addr, row)
    ensures RowSound(place, addr, Active(row, now))
    ensures |Active(row, now)| <= |row|
  {
    if row != [] {
      var init, last := row[..|row| - 1], row[|row| - 1];
      ActiveSound(place, addr, init, now);
      forall i | 0 <= i < |Active(init, now)| ensures Active(init, now)[i].conn != last.conn {
        ActiveMembers(init, now, Active(init, now)[i]);
      }
    }
  }

  lemma SameConnSameEntry(place: map<Conn, Place>, k: nat, m: Shard, a: Addr, x: Idle, b: Addr, y: Idle)
    requires ShardSound(place, k, m)
    requires a in m && x in m[a] && b in m && y in m[b] && x.conn == y.conn
    ensures x == y && a == b
  {
    var i :| 0 <= i < |m[a]| && m[a][i] == x;
    var j :| 0 <= j < |m[b]| && m[b][j] == y;
    assert place[x.conn] == Pooled(a) && place[y.conn] == Pooled(b);
  }

  lemma FreshNotGone(place: map<Conn, Place>, k: nat, m: Shard, a: Addr, x: Idle, now: int)
    requires ShardSound(place, k, m)
    requires a in m && x in m[a] && now - x.lastUsed <= MAX_IDLE
    ensures x.conn !in StaleIn(m, m.Keys, now)
  {
    forall b, y | b in m && y in m[b] && now - y.lastUsed > MAX_IDLE ensures y.conn != x.conn {
      if y.conn == x.conn { SameConnSameEntry(place, k, m, a, x, b, y); }
    }
  }

  lemma CleanedSwept(place: map<Conn, Place>, k: nat, m: Shard, now: int)
    requires ShardSound(place, k, m)
    ensures Swept(place, m, StaleIn(m, m.Keys, now), Cleaned(m, now))
  {
    var gone, m' := StaleIn(m, m.Keys, now), Cleaned(m, now);
    forall addr | addr in m' ensures RowSound(place, addr, m'[addr]) {
      ActiveSound(place, addr, m[addr], now);
    }
    forall addr, i | addr in m' && 0 <= i < |m'[addr]| ensures m'[addr][i].conn !in gone {
      var x := m'[addr][i];
      ActiveMembers(m[addr], now, x);
      FreshNotGone(place, k, m, addr, x, now);
    }
    forall addr, i | addr in m && 0 <= i < |m[addr]|
      ensures m[addr][i].conn in gone || InRow(At(m', addr), m[addr][i].conn)
    {
      var x := m[addr][i];
      ActiveMembers(m[addr], now, x);
      if now - x.lastUsed <= MAX_IDLE {
        var j :| 0 <= j < |Active(m[addr], now)| && Active(m[addr], now)[j] == x;
      } else {
        assert x.conn in Stale(m[addr], now);
      }
    }
    forall c | c in gone ensures exists addr :: addr in m && InRow(m[addr], c) {
      var b :| b in m && c in Stale(m[b], now);
      var y :| y in m[b] && now - y.lastUsed > MAX_IDLE && y.conn == c;
      var j :| 0 <= j < |m[b]| && m[b][j] == y;
      assert InRow(m[b], c);
    }
  }

  lemma DrainedSwept(place: map<Conn, Place>, k: nat, m: Shard)
    requires ShardSound(place, k, m)
    ensures Swept(place, m, AllConns(m), map[])
  {
    forall c | c in AllConns(m) ensures exists addr :: addr in m && InRow(m[addr], c) {
      var addr, x :| addr in m && x in m[addr] && x.conn == c;
      var j :| 0 <= j < |m[addr]| && m[addr][j] == x;
      assert InRow(m[addr], c);
    }
    forall addr, i | addr in m && 0 <= i < |m[addr]| ensures m[addr][i].conn in AllConns(m) {
      assert m[addr][i] in m[addr];
    }
  }

  // ---------- the steps keep the invariant ----------

  lemma PutKeepsShelf(s: Pool, t: nat, a: Action, s': Pool)
    requires Invariant(s) && PutStep(s, t, a, s')
    ensures Shelved(s')
  {
    var pc := PcOf(s, t);
    if a.Accept? && |Row(s, pc.addr)| < MAX_PER_ADDR {
      PushShelved(To(s, t, Ready), pc.addr, pc.conn, a.now);
    } else {
      ShelfUntouched(s, s');
    }
  }

  lemma PutKeepsCarried(s: Pool, t: nat, a: Action, s': Pool)
    requires Carried(s) && PutStep(s, t, a, s')
    ensures Carried(s')
  {
    match a {
      case CallPut(_, _) =>
      case ReadFlag =>
      case Lock =>
      case Recheck =>
      case Accept(_) =>
      case Reject =>
    }
  }

  lemma PutKeepsExclusive(s: Pool, t: nat, a: Action, s': Pool)
    requires Exclusive(s) && PutStep(s, t, a, s')
    ensures Exclusive(s')
  {
  }

  lemma PutKeepsShutDown(s: Pool, t: nat, a: Action, s': Pool)
    requires ShutDown(s) && PutStep(s, t, a, s')
    ensures ShutDown(s')
  {
  }

  lemma GetKeepsShelf(s: Pool, t: nat, a: Action, s': Pool)
    requires Invariant(s) && GetStep(s, t, a, s')
    ensures Shelved(s')
  {
    var pc := PcOf(s, t);
    if a.Pop? && Row(s, pc.addr) != [] {
      PopShelved(To(s, t, Ready), pc.addr);
    } else {
      ShelfUntouched(s, s');
    }
  }

  /** A step by a thread that carries nothing, and that moves nothing another thread carries. */
  lemma BystanderKeeps(s: Pool, t: nat, s': Pool)
    requires Carried(s) && Exclusive(s)
    requires !Carries(PcOf(s, t)) && !Carries(PcOf(s', t))
    requires forall u :: u != t ==> PcOf(s', u) == PcOf(s, u)
    requires forall c :: c in s.place && s.place[c].Moving? ==> c in s'.place && s'.place[c] == s.place[c]
    requires forall c :: c in s'.place && s'.place[c].Moving? ==> c in s.place && s.place[c] == s'.place[c]
    ensures Carried(s') && Exclusive(s')
  {
    forall u | u in s'.threads && Carries(s'.threads[u])
      ensures s'.threads[u].conn in s'.place && s'.place[s'.threads[u].conn] == Moving(u)
    {
      assert PcOf(s', u) == PcOf(s, u);
    }
    forall c | c in s'.place && s'.place[c].Moving?
      ensures var u := s'.place[c].thread; u in s'.threads && Carries(s'.threads[u]) && s'.threads[u].conn == c
    {
      assert PcOf(s', s'.place[c].thread) == PcOf(s, s'.place[c].thread);
    }
    forall u, v, k: nat | u in s'.threads && v in s'.threads && Locks(s'.threads[u], k) && Locks(s'.threads[v], k)
      ensures u == v
    {
      assert PcOf(s', u) == PcOf(s, u) && PcOf(s', v) == PcOf(s, v);
    }
  }

  lemma GetKeepsThreads(s: Pool, t: nat, a: Action, s': Pool)
    requires Invariant(s) && GetStep(s, t, a, s')
    ensures Carried(s') && Exclusive(s')
  {
    if a.Pop? { RowOf(s, PcOf(s, t).addr); }
    BystanderKeeps(s, t, s');
  }

  lemma GetKeepsShutDown(s: Pool, t: nat, a: Action, s': Pool)
    requires ShutDown(s) && GetStep(s, t, a, s')
    ensures ShutDown(s')
  {
  }

  lemma SweepKeepsShelf(s: Pool, t: nat, a: Action, s': Pool)
    requires Invariant(s) && SweepStep(s, t, a, s')
    ensures Shelved(s')
    ensures forall c :: c in s'.place ==>
              c in s.place && (s'.place[c] == s.place[c] || (s.place[c].Pooled? && s'.place[c].Closed?))
    ensures s.place.Keys == s'.place.Keys
  {
    var pc := PcOf(s, t);
    if a.Clean? {
      var m := s.shards[pc.next];
      CleanedSwept(s.place, pc.next, m, pc.now);
      SweepShelved(s, pc.next, StaleIn(m, m.Keys, pc.now), Cleaned(m, pc.now), s');
    } else if a.Drain? {
      DrainedSwept(s.place, pc.next, s.shards[pc.next]);
      SweepShelved(s, pc.next, AllConns(s.shards[pc.next]), map[], s');
    } else {
      ShelfUntouched(s, s');
    }
  }

  lemma SweepKeepsThreads(s: Pool, t: nat, a: Action, s': Pool)
    requires Invariant(s) && SweepStep(s, t, a, s')
    ensures Carried(s') && Exclusive(s')
  {
    SweepKeepsShelf(s, t, a, s');
    BystanderKeeps(s, t, s');
  }

  lemma DrainKeepsShutDown(s: Pool, t: nat, s': Pool)
    requires ShutDown(s) && SweepStep(s, t, Drain, s')
    ensures ShutDown(s')
  {
  }

  lemma SweepKeepsShutDown(s: Pool, t: nat, a: Action, s': Pool)
    requires ShutDown(s) && SweepStep(s, t, a, s')
    ensures ShutDown(s')
  {
    if a.Drain? { DrainKeepsShutDown(s, t, s'); }
  }

  lemma StepKeeps(s: Pool, t: nat, a: Action, s': Pool)
    requires Invariant(s) && Step(s, t, a, s')
    ensures Invariant(s')
  {
    if PutStep(s, t, a, s') {
      PutKeepsShelf(s, t, a, s');
      PutKeepsCarried(s, t, a, s');
      PutKeepsExclusive(s, t, a, s');
      PutKeepsShutDown(s, t, a, s');
    } else if GetStep(s, t, a, s') {
      GetKeepsShelf(s, t, a, s');
      GetKeepsThreads(s, t, a, s');
      GetKeepsShutDown(s, t, a, s');
    } else {
      SweepKeepsShelf(s, t, a, s');
      SweepKeepsThreads(s, t, a, s');
      SweepKeepsShutDown(s, t, a, s');
    }
  }

  // ---------- runs ----------

  datatype Taken = Taken(thread: nat, action: Action)

  ghost predicate IsRun(steps: seq<Taken>, states: seq<Pool>) {
    && |states| == |steps| + 1
    && Init(states[0])
    && forall i {:trigger Step(states[i], steps[i].thread, steps[i].action, states[i + 1])} ::
         0 <= i < |steps| ==> Step(states[i], steps[i].thread, steps[i].action, states[i + 1])
  }

  lemma {:induction false} AlwaysInvariant(steps: seq<Taken>, states: seq<Pool>, n: nat)
    requires IsRun(steps, states) && n < |states|
    ensures Invariant(states[n])
  {
    if n > 0 {
      var i := n - 1;
      AlwaysInvariant(steps, states, i);
      StepKeeps(states[i], steps[i].thread, steps[i].action, states[i + 1]);
    }
  }

  ghost predicate OccursAt(s: Pool, c: Conn, k: nat, addr: Addr, i: nat) {
    k < SHARDS && addr in s.shards[k] && i < |s.shards[k][addr]| && s.shards[k][addr][i].conn == c
  }

  /** Conservation: a connection known to the pool is in exactly one place, and a pooled one occurs exactly
      once, in the row of one address, in that address's shard. */
  lemma PooledExactlyOnce(steps: seq<Taken>, states: seq<Pool>, n: nat, c: Conn)
    requires IsRun(steps, states) && n < |states| && c in states[n].place
    ensures
      var s := states[n];
      && (s.place[c].Pooled? <==> exists k: nat, addr, i: nat :: OccursAt(s, c, k, addr, i))
      && (s.place[c].Moving? <==> exists t :: t in s.threads && Carries(s.threads[t]) && s.threads[t].conn == c)
      && forall k: nat, a, i: nat, l: nat, b, j: nat :: OccursAt(s, c, k, a, i) && OccursAt(s, c, l, b, j) ==>
           k == l == ShardOf(a) && a == b && i == j
  {
    var s := states[n];
    AlwaysInvariant(steps, states, n);
    forall k: nat, addr, i: nat | OccursAt(s, c, k, addr, i) ensures s.place[c] == Pooled(addr) && k == ShardOf(addr) {
      assert ShardSound(s.place, k, s.shards[k]);
    }
    if s.place[c].Pooled? {
      var addr := s.place[c].addr;
      var i :| 0 <= i < |Row(s, addr)| && Row(s, addr)[i].conn == c;
      assert OccursAt(s, c, ShardOf(addr), addr, i);
    }
    forall k: nat, a, i: nat, l: nat, b, j: nat | OccursAt(s, c, k, a, i) && OccursAt(s, c, l, b, j)
      ensures k == l == ShardOf(a) && a == b && i == j
    {
      assert ShardSound(s.place, k, s.shards[k]);
    }
  }

  /** No address ever pools more than four connections. */
  lemma AtMostFour(steps: seq<Taken>, states: seq<Pool>, n: nat, addr: Addr)
    requires IsRun(steps, states) && n < |states|
    ensures |Row(states[n], addr)| <= MAX_PER_ADDR
  {
    AlwaysInvariant(steps, states, n);
    RowOf(states[n], addr);
  }

  /** The connection a Get takes from the pool was pooled there until then, so it was neither closed nor in
      anyone's hands, and from then on it is the caller's. */
  lemma ReusedWasPooled(steps: seq<Taken>, states: seq<Pool>, n: nat)
    requires IsRun(steps, states) && n < |steps| && steps[n].action.Pop?
    requires PcOf(states[n], steps[n].thread).Looking? && Row(states[n], PcOf(states[n], steps[n].thread).addr) != []
    ensures
      var addr := PcOf(states[n], steps[n].thread).addr;
      var row := Row(states[n], addr);
      var c := row[|row| - 1].conn;
      && c in states[n].place && states[n].place[c] == Pooled(addr)
      && c in states[n + 1].place && states[n + 1].place[c] == Held
  {
    AlwaysInvariant(steps, states, n);
    assert Step(states[n], steps[n].thread, steps[n].action, states[n + 1]);
    RowOf(states[n], PcOf(states[n], steps[n].thread).addr);
  }

  lemma {:induction false} ReturnedStays(steps: seq<Taken>, states: seq<Pool>, m: nat, n: nat)
    requires IsRun(steps, states) && m <= n < |states| && states[m].returned
    ensures states[n].returned
    decreases n
  {
    if m < n {
      var i := n - 1;
      ReturnedStays(steps, states, m, i);
      assert Step(states[i], steps[i].thread, steps[i].action, states[i + 1]);
    }
  }

  /** From the moment some Close has returned, every shard is empty for good, whatever Puts were racing. */
  lemma EmptyAfterClose(steps: seq<Taken>, states: seq<Pool>, m: nat, n: nat, k: nat)
    requires IsRun(steps, states) && m <= n < |states| && k < SHARDS
    requires states[m].returned
    ensures states[n].shards[k] == map[]
  {
    ReturnedStays(steps, states, m, n);
    AlwaysInvariant(steps, states, n);
  }

  // ---------- progress ----------

  ghost predicate CanStep(s: Pool, t: nat) {
    exists a, s' :: Step(s, t, a, s')
  }

  /** Sweeps stop at the last shard. */
  ghost predicate InBounds(s: Pool) {
    forall t :: t in s.threads && (s.threads[t].Cleaning? || s.threads[t].Draining?) ==> s.threads[t].next <= SHARDS
  }

  lemma CallsInBounds(s: Pool, t: nat, a: Action, s': Pool)
    requires InBounds(s) && (PutStep(s, t, a, s') || GetStep(s, t, a, s'))
    ensures InBounds(s')
  {
    assert t in s'.threads ==> s'.threads[t] == PcOf(s, t) || !(s'.threads[t].Cleaning? || s'.threads[t].Draining?);
    assert forall u :: u in s'.threads && u != t ==> u in s.threads && s'.threads[u] == s.threads[u];
  }

  lemma SweepsInBounds(s: Pool, t: nat, a: Action, s': Pool)
    requires InBounds(s) && SweepStep(s, t, a, s')
    ensures InBounds(s')
  {
    assert forall u :: u in s'.threads && u != t ==> u in s.threads && s'.threads[u] == s.threads[u];
  }

  lemma {:induction false} AlwaysInBounds(steps: seq<Taken>, states: seq<Pool>, n: nat)
    requires IsRun(steps, states) && n < |states|
    ensures InBounds(states[n])
  {
    if n > 0 {
      var i := n - 1;
      AlwaysInBounds(steps, states, i);
      var t, a := steps[i].thread, steps[i].action;
      assert Step(states[i], t, a, states[i + 1]);
      if SweepStep(states[i], t, a, states[i + 1]) {
        SweepsInBounds(states[i], t, a, states[i + 1]);
      } else {
        CallsInBounds(states[i], t, a, states[i + 1]);
      }
    }
  }

  /** A thread that holds a shard lock can go on ... */
  lemma HolderSteps(s: Pool, t: nat)
    requires t in s.threads && (s.threads[t].Inside? || s.threads[t].Accepting?)
    ensures CanStep(s, t)
  {
    var pc := s.threads[t];
    if pc.Inside? {
      var s' := To(s, t, if s.closed then Rejecting(pc.conn) else Accepting(pc.addr, pc.conn));
      assert PutStep(s, t, Recheck, s') && Step(s, t, Recheck, s');
    } else if |Row(s, pc.addr)| >= MAX_PER_ADDR {
      var s' := To(s, t, Rejecting(pc.conn));
      assert PutStep(s, t, Accept(0), s') && Step(s, t, Accept(0), s');
    } else {
      var k := ShardOf(pc.addr);
      var s' := Put(SetShard(To(s, t, Ready), k, Pushed(s.shards[k], pc.addr, pc.conn, 0)), pc.conn, Pooled(pc.addr));
      assert PutStep(s, t, Accept(0), s') && Step(s, t, Accept(0), s');
    }
  }

  ghost predicate NoLocks(s: Pool) {
    forall t :: t in s.threads ==> !s.threads[t].Inside? && !s.threads[t].Accepting?
  }

  /** ... and if nobody holds any, every thread in the middle of a call can. */
  lemma PutterSteps(s: Pool, t: nat)
    requires t in s.threads && NoLocks(s) && Carries(s.threads[t])
    ensures CanStep(s, t)
  {
    var pc := s.threads[t];
    if pc.Putting? {
      var s' := if s.closed then Put(To(s, t, Ready), pc.conn, Closed) else To(s, t, Offering(pc.addr, pc.conn));
      assert PutStep(s, t, ReadFlag, s') && Step(s, t, ReadFlag, s');
    } else if pc.Offering? {
      var s' := To(s, t, Inside(pc.addr, pc.conn));
      assert PutStep(s, t, Lock, s') && Step(s, t, Lock, s');
    } else {
      var s' := Put(To(s, t, Ready), pc.conn, Closed);
      assert PutStep(s, t, Reject, s') && Step(s, t, Reject, s');
    }
  }

  lemma GetterSteps(s: Pool, t: nat)
    requires t in s.threads && NoLocks(s) && (s.threads[t].Looking? || s.threads[t].Dialing?)
    ensures CanStep(s, t)
  {
    var pc := s.threads[t];
    if pc.Dialing? {
      assert GetStep(s, t, DialFails, To(s, t, Ready)) && Step(s, t, DialFails, To(s, t, Ready));
    } else {
      var k, row := ShardOf(pc.addr), Row(s, pc.addr);
      var s' := if row == [] then To(s, t, Dialing)
                else Put(SetShard(To(s, t, Ready), k, Popped(s.shards[k], pc.addr)), row[|row| - 1].conn, Held);
      assert GetStep(s, t, Pop, s') && Step(s, t, Pop, s');
    }
  }

  lemma CleanerSteps(s: Pool, t: nat)
    requires t in s.threads && NoLocks(s) && InBounds(s) && s.threads[t].Cleaning?
    ensures CanStep(s, t)
  {
    var pc := s.threads[t];
    if pc.next == SHARDS {
      assert SweepStep(s, t, Finish, To(s, t, Ready)) && Step(s, t, Finish, To(s, t, Ready));
    } else {
      var m := s.shards[pc.next];
      var s' := SetShard(To(s, t, Cleaning(pc.next + 1, pc.now)), pc.next, Cleaned(m, pc.now))
                  .(place := MarkClosed(s.place, StaleIn(m, m.Keys, pc.now)));
      assert SweepStep(s, t, Clean, s') && Step(s, t, Clean, s');
    }
  }

  lemma CloserSteps(s: Pool, t: nat)
    requires t in s.threads && NoLocks(s) && InBounds(s) && (s.threads[t].Closing? || s.threads[t].Draining?)
    ensures CanStep(s, t)
  {
    var pc := s.threads[t];
    if pc.Closing? {
      var s' := To(s, t, Draining(0)).(closed := true);
      assert SweepStep(s, t, SetFlag, s') && Step(s, t, SetFlag, s');
    } else if pc.next == SHARDS {
      var s' := To(s, t, Ready).(returned := true);
      assert SweepStep(s, t, Finish, s') && Step(s, t, Finish, s');
    } else {
      var s' := SetShard(To(s, t, Draining(pc.next + 1)), pc.next, map[])
                  .(place := MarkClosed(s.place, AllConns(s.shards[pc.next])), drained := s.drained + {pc.next});
      assert SweepStep(s, t, Drain, s') && Step(s, t, Drain, s');
    }
  }

  /** No deadlock: in every reachable state with a thread in the middle of a call, some such thread can go on. */
  lemma NeverDeadlocked(steps: seq<Taken>, states: seq<Pool>, n: nat, t: nat) returns (u: nat)
    requires IsRun(steps, states) && n < |states|
    requires t in states[n].threads && !states[n].threads[t].Ready?
    ensures u in states[n].threads && !states[n].threads[u].Ready? && CanStep(states[n], u)
  {
    var s := states[n];
    AlwaysInBounds(steps, states, n);
    u := t;
    if x :| x in s.threads && (s.threads[x].Inside? || s.threads[x].Accepting?) {
      HolderSteps(s, x);
      u := x;
    } else if Carries(s.threads[t]) {
      PutterSteps(s, t);
    } else if s.threads[t].Looking? || s.threads[t].Dialing? {
      GetterSteps(s, t);
    } else if s.threads[t].Cleaning? {
      CleanerSteps(s, t);
    } else {
      CloserSteps(s, t);
    }
  }

  /** A connection returned to the pool is the one the next Get for that address takes, and the row is as before. */
  lemma LastReturnedFirstTaken(s: Pool, t: nat, now: int, s1: Pool, u: nat, s2: Pool)
    requires PcOf(s, t).Accepting? && |Row(s, PcOf(s, t).addr)| < MAX_PER_ADDR && Step(s, t, Accept(now), s1)
    requires t != u && PcOf(s, u) == Looking(PcOf(s, t).addr) && Step(s1, u, Pop, s2)
    ensures
      var pc := PcOf(s, t);
      && PcOf(s2, t).Ready? && PcOf(s2, u).Ready? && Row(s2, pc.addr) == Row(s, pc.addr)
      && pc.conn in s2.place && s2.place[pc.conn] == Held
  {
  }
}
