/** Client-key rotation against certificate refresh and query encryption (crypto.go, serversInfo.go).
    Threads interleave at every lock operation and at every server the rotation recomputes; the key
    lock (cryptoKeyMu) is a readers-writer lock, the server-list lock a mutex always taken second. */
module ClientKeys {

  // ---------- symbolic keys ----------

  type Secret = nat

  datatype Construction = Undefined | XSalsa20Poly1305 | XChacha20Poly1305 | XWingPQ

  datatype PublicKey = Public(secret: Secret)

  /** The Diffie-Hellman key of a client secret and a server key, as a free term. */
  datatype SharedKey = Zero | Shared(construction: Construction, secret: Secret, serverPk: nat)

  predicate Classic(c: Construction) {
    c == XSalsa20Poly1305 || c == XChacha20Poly1305
  }

  function ComputeSharedKey(c: Construction, secret: Secret, serverPk: nat): SharedKey {
    if Classic(c) then Shared(c, secret, serverPk) else Zero
  }

  // ---------- state ----------

  type Ref = nat

  datatype Server = Server(name: string, construction: Construction, serverPk: nat, sharedKey: SharedKey)

  predicate KeyedWith(v: Server, secret: Secret) {
    Classic(v.construction) ==> v.sharedKey == Shared(v.construction, secret, v.serverPk)
  }

  /** recomputeServerSharedKeyLocked: a classic server gets a key from this secret, nothing else changes. */
  function WithKey(v: Server, secret: Secret): (r: Server)
    ensures KeyedWith(r, secret) && r.(sharedKey := v.sharedKey) == v
    ensures v.construction == Undefined || v.construction == XWingPQ ==> r == v
    ensures v.construction == XSalsa20Poly1305 || v.construction == XChacha20Poly1305 ==>
              r.sharedKey == Shared(v.construction, secret, v.serverPk)
  {
    if Classic(v.construction) then v.(sharedKey := ComputeSharedKey(v.construction, secret, v.serverPk)) else v
  }

  /** Where a thread stands. */
  datatype Pc =
    | Idle
    // refreshServer
    | Fetched(server: Server)        // the slow fetch is over, no lock held
    | Joining(server: Server)        // read lock taken
    | Recomputed(server: Server)     // shared key recomputed under the read lock
    | Publishing(server: Server)     // server-list lock taken as well
    | Published                      // server-list lock released, read lock still held
    // rotateDNSCryptClientKey
    | Rotating                       // write lock taken
    | Rekeyed                        // new keypair installed
    | Recomputing(done: nat)         // server-list lock taken, first `done` servers recomputed
    | Rotated                        // server-list lock released, write lock still held
    // Encrypt with the long-term key
    | Chosen(ref: Ref)               // server picked by getOne, no lock held
    | Reading(ref: Ref)              // read lock taken

  predicate HoldsRead(pc: Pc) {
    pc.Joining? || pc.Recomputed? || pc.Publishing? || pc.Published? || pc.Reading?
  }

  predicate HoldsWrite(pc: Pc) {
    pc.Rotating? || pc.Rekeyed? || pc.Recomputing? || pc.Rotated?
  }

  predicate HoldsList(pc: Pc) {
    pc.Publishing? || pc.Recomputing?
  }

  /** What a query put on the wire: the key it encrypted with and the public key it sent, and whether the
      server object was still published when both were read. */
  datatype Sent = Sent(server: Server, sharedKey: SharedKey, publicKey: PublicKey, published: bool)

  datatype Sys = Sys(
    secret: Secret,
    publicKey: PublicKey,
    heap: map<Ref, Server>,
    inner: seq<Ref>,
    threads: map<nat, Pc>,
    sent: seq<Sent>)

  function PcOf(s: Sys, t: nat): Pc {
    if t in s.threads then s.threads[t] else Idle
  }

  function At(s: Sys, t: nat, pc: Pc): Sys {
    s.(threads := s.threads[t := pc])
  }

  predicate Init(s: Sys) {
    s.publicKey == Public(s.secret) && s.heap == map[] && s.inner == [] && s.threads == map[] && s.sent == []
  }

  // ---------- steps ----------

  datatype Action =
    | Fetch(name: string, construction: Construction, serverPk: nat, prior: Secret)
    | LockRead
    | Recompute
    | LockList
    | Publish(ref: Ref)
    | Unlock
    | LockWrite
    | Rekey(secret: Secret)
    | RecomputeOne
    | Choose(ref: Ref)
    | Read
    | Reorder(inner: seq<Ref>)

  ghost predicate NoWriter(s: Sys) {
    forall t :: t in s.threads ==> !HoldsWrite(s.threads[t])
  }

  ghost predicate NoReader(s: Sys) {
    forall t :: t in s.threads ==> !HoldsRead(s.threads[t])
  }

  ghost predicate ListFree(s: Sys) {
    forall t :: t in s.threads ==> !HoldsList(s.threads[t])
  }

  /** Index of the published server with that name, or the length of the list. */
  function Position(s: Sys, name: string, i: nat): (r: nat)
    requires i <= |s.inner|
    ensures i <= r <= |s.inner|
    ensures r < |s.inner| ==> s.inner[r] in s.heap && s.heap[s.inner[r]].name == name
    decreases |s.inner| - i
  {
    if i == |s.inner| then i
    else if s.inner[i] in s.heap && s.heap[s.inner[i]].name == name then i
    else Position(s, name, i + 1)
  }

  /** The list after publishing the object: in place of its predecessor, or at the end. */
  function Placed(s: Sys, ref: Ref, name: string): seq<Ref> {
    var i := Position(s, name, 0);
    if i < |s.inner| then s.inner[i := ref] else s.inner + [ref]
  }

  /** Thread t takes action a from s to s'. */
  ghost predicate Step(s: Sys, t: nat, a: Action, s': Sys) {
    var pc := PcOf(s, t);
    match a
    case Fetch(name, c, pk, prior) =>
      // the fetch computed a shared key from whatever the client secret was at the time
      pc.Idle? && s' == At(s, t, Fetched(Server(name, c, pk, ComputeSharedKey(c, prior, pk))))
    case LockRead =>
      && NoWriter(s)
      && ((pc.Fetched? && s' == At(s, t, Joining(pc.server))) || (pc.Chosen? && s' == At(s, t, Reading(pc.ref))))
    case Recompute =>
      && pc.Joining?
      && var v := pc.server;
         s' == At(s, t, Recomputed(WithKey(v, s.secret)))
    case LockList =>
      && ListFree(s)
      && ((pc.Recomputed? && s' == At(s, t, Publishing(pc.server))) || (pc.Rekeyed? && s' == At(s, t, Recomputing(0))))
    case Publish(ref) =>
      && pc.Publishing? && ref !in s.heap
      && s' == At(s, t, Published).(heap := s.heap[ref := pc.server], inner := Placed(s, ref, pc.server.name))
    case Unlock =>
      || ((pc.Published? || pc.Rotated?) && s' == At(s, t, Idle))
      || (pc.Recomputing? && pc.done == |s.inner| && s' == At(s, t, Rotated))
    case LockWrite =>
      pc.Idle? && NoWriter(s) && NoReader(s) && s' == At(s, t, Rotating)
    case Rekey(secret) =>
      pc.Rotating? && s' == At(s, t, Rekeyed).(secret := secret, publicKey := Public(secret))
    case RecomputeOne =>
      && pc.Recomputing? && pc.done < |s.inner| && s.inner[pc.done] in s.heap
      && var r := s.inner[pc.done];
         s' == At(s, t, Recomputing(pc.done + 1)).(heap := s.heap[r := WithKey(s.heap[r], s.secret)])
    case Choose(ref) =>
      pc.Idle? && ref in s.heap && ref in s.inner && s' == At(s, t, Chosen(ref))
    case Read =>
      && pc.Reading? && pc.ref in s.heap
      && var v := s.heap[pc.ref];
         s' == At(s, t, Idle).(sent := s.sent + [Sent(v, v.sharedKey, s.publicKey, pc.ref in s.inner)])
    case Reorder(inner) =>
      // sorting by latency and swapping under the server-list lock
      ListFree(s) && multiset(inner) == multiset(s.inner) && s' == s.(inner := inner)
  }

  // ---------- invariants ----------

  /** The locks do their job. */
  ghost predicate LocksHeld(s: Sys) {
    && (forall t, u :: t in s.threads && u in s.threads && t != u && HoldsWrite(s.threads[t]) ==>
          !HoldsWrite(s.threads[u]) && !HoldsRead(s.threads[u]))
    && (forall t, u :: t in s.threads && u in s.threads && t != u && HoldsList(s.threads[t]) ==>
          !HoldsList(s.threads[u]))
  }

  /** How many servers, from the front of the list, are known to be keyed with the current secret. */
  ghost predicate KeyedUpTo(s: Sys, n: nat) {
    && n <= |s.inner|
    && forall i :: 0 <= i < n ==> s.inner[i] in s.heap && KeyedWith(s.heap[s.inner[i]], s.secret)
  }

  ghost predicate Allocated(s: Sys) {
    forall i :: 0 <= i < |s.inner| ==> s.inner[i] in s.heap
  }

  ghost predicate ThreadsKeyed(s: Sys) {
    forall t :: t in s.threads ==>
      match s.threads[t]
      case Recomputed(v) => KeyedWith(v, s.secret)
      case Publishing(v) => KeyedWith(v, s.secret)
      case Recomputing(done) => KeyedUpTo(s, done)
      case _ => true
  }

  /** Some rotation has installed its key and not yet recomputed every server. */
  ghost predicate MidRotation(s: Sys) {
    exists t :: t in s.threads && (s.threads[t].Rekeyed? || s.threads[t].Recomputing?)
  }

  ghost predicate SentMatches(m: Sent) {
    m.published && Classic(m.server.construction) ==>
      m.sharedKey == Shared(m.server.construction, m.publicKey.secret, m.server.serverPk)
  }

  ghost predicate Invariant(s: Sys) {
    && Allocated(s)
    && s.publicKey == Public(s.secret)
    && LocksHeld(s)
    && ThreadsKeyed(s)
    && (MidRotation(s) || KeyedUpTo(s, |s.inner|))
    && forall m :: m in s.sent ==> SentMatches(m)
  }

  lemma InitInvariant(s: Sys)
    requires Init(s)
    ensures Invariant(s)
  {
  }

  /** Steps that only move one thread, without touching keys, list or heap. */
  lemma MoveKeeps(s: Sys, t: nat, pc: Pc)
    requires Invariant(s)
    requires LocksHeld(At(s, t, pc))
    requires pc.Recomputed? || pc.Publishing? ==> KeyedWith(pc.server, s.secret)
    requires pc.Recomputing? ==> KeyedUpTo(s, pc.done)
    requires PcOf(s, t).Rekeyed? ==> pc.Recomputing?
    requires PcOf(s, t).Recomputing? ==> pc.Rotated? && KeyedUpTo(s, |s.inner|)
    ensures Invariant(At(s, t, pc))
  {
    var s' := At(s, t, pc);
    if MidRotation(s) && !KeyedUpTo(s, |s.inner|) {
      var u :| u in s.threads && (s.threads[u].Rekeyed? || s.threads[u].Recomputing?);
      if u != t { assert s'.threads[u] == s.threads[u]; } else { assert s'.threads[t].Recomputing?; }
      assert MidRotation(s');
    }
  }

  /** While some thread reads, no rotation is under way, so every published server has the current key. */
  lemma ReaderSeesKeys(s: Sys, t: nat)
    requires Invariant(s) && t in s.threads && HoldsRead(s.threads[t])
    ensures NoWriter(s) && KeyedUpTo(s, |s.inner|)
  {
  }

  lemma PublishKeeps(s: Sys, t: nat, ref: Ref, s': Sys)
    requires Invariant(s) && Step(s, t, Publish(ref), s')
    ensures Invariant(s')
  {
    ReaderSeesKeys(s, t);
    assert KeyedUpTo(s', |s'.inner|);
  }

  lemma RekeyKeeps(s: Sys, t: nat, secret: Secret, s': Sys)
    requires Invariant(s) && Step(s, t, Rekey(secret), s')
    ensures Invariant(s')
  {
    assert s'.threads[t].Rekeyed?;
  }

  lemma RecomputeOneKeeps(s: Sys, t: nat, s': Sys)
    requires Invariant(s) && Step(s, t, RecomputeOne, s')
    ensures Invariant(s')
  {
    var done := PcOf(s, t).done;
    assert KeyedUpTo(s, done);
    assert KeyedUpTo(s', done + 1);
    assert s'.threads[t].Recomputing?;
  }

  lemma ReadKeeps(s: Sys, t: nat, s': Sys)
    requires Invariant(s) && Step(s, t, Read, s')
    ensures Invariant(s')
  {
    ReaderSeesKeys(s, t);
    MoveKeeps(s, t, Idle);
    var ref := PcOf(s, t).ref;
    if ref in s.inner {
      var i :| 0 <= i < |s.inner| && s.inner[i] == ref;
      assert KeyedWith(s.heap[s.inner[i]], s.secret);
    }
  }

  lemma ReorderKeeps(s: Sys, t: nat, inner: seq<Ref>, s': Sys)
    requires Invariant(s) && Step(s, t, Reorder(inner), s')
    ensures Invariant(s')
  {
    forall i | 0 <= i < |inner|
      ensures inner[i] in s.heap && (KeyedUpTo(s, |s.inner|) ==> KeyedWith(s.heap[inner[i]], s.secret))
    {
      assert inner[i] in multiset(inner);
      var j :| 0 <= j < |s.inner| && s.inner[j] == inner[i];
    }
    assert |multiset(inner)| == |multiset(s.inner)|;
  }

  lemma LockListKeeps(s: Sys, t: nat, s': Sys)
    requires Invariant(s) && Step(s, t, LockList, s')
    ensures Invariant(s')
  {
    MoveKeeps(s, t, s'.threads[t]);
  }

  lemma LockReadKeeps(s: Sys, t: nat, s': Sys)
    requires Invariant(s) && Step(s, t, LockRead, s')
    ensures Invariant(s')
  {
    MoveKeeps(s, t, s'.threads[t]);
  }

  lemma LockWriteKeeps(s: Sys, t: nat, s': Sys)
    requires Invariant(s) && Step(s, t, LockWrite, s')
    ensures Invariant(s')
  {
    MoveKeeps(s, t, s'.threads[t]);
  }

  lemma PrivateKeeps(s: Sys, t: nat, a: Action, s': Sys)
    requires a.Fetch? || a.Recompute? || a.Choose?
    requires Invariant(s) && Step(s, t, a, s')
    ensures Invariant(s')
  {
    MoveKeeps(s, t, s'.threads[t]);
  }

  lemma UnlockKeeps(s: Sys, t: nat, s': Sys)
    requires Invariant(s) && Step(s, t, Unlock, s')
    ensures Invariant(s')
  {
    MoveKeeps(s, t, s'.threads[t]);
  }

  lemma StepKeeps(s: Sys, t: nat, a: Action, s': Sys)
    requires Invariant(s) && Step(s, t, a, s')
    ensures Invariant(s')
  {
    match a
    case Publish(ref) => PublishKeeps(s, t, ref, s');
    case Rekey(secret) => RekeyKeeps(s, t, secret, s');
    case RecomputeOne => RecomputeOneKeeps(s, t, s');
    case Read => ReadKeeps(s, t, s');
    case Reorder(inner) => ReorderKeeps(s, t, inner, s');
    case LockList => LockListKeeps(s, t, s');
    case Unlock => UnlockKeeps(s, t, s');
    case LockRead => LockReadKeeps(s, t, s');
    case LockWrite => LockWriteKeeps(s, t, s');
    case Fetch(_, _, _, _) => PrivateKeeps(s, t, a, s');
    case Recompute => PrivateKeeps(s, t, a, s');
    case Choose(_) => PrivateKeeps(s, t, a, s');
  }

  // ---------- runs ----------

  datatype Taken = Taken(thread: nat, action: Action)

  ghost predicate IsRun(steps: seq<Taken>, states: seq<Sys>) {
    && |states| == |steps| + 1
    && Init(states[0])
    && forall i {:trigger Step(states[i], steps[i].thread, steps[i].action, states[i + 1])} ::
         0 <= i < |steps| ==> Step(states[i], steps[i].thread, steps[i].action, states[i + 1])
  }

  lemma {:induction false} AlwaysInvariant(steps: seq<Taken>, states: seq<Sys>, n: nat)
    requires IsRun(steps, states) && n < |states|
    ensures Invariant(states[n])
  {
    if n == 0 {
      InitInvariant(states[0]);
    } else {
      var i := n - 1;
      AlwaysInvariant(steps, states, i);
      StepKeeps(states[i], steps[i].thread, steps[i].action, states[i + 1]);
    }
  }

  /** Whenever no rotation holds the write lock, every published classic server has the shared key of the
      current client secret, however fetches, publishes, rotations and queries interleaved. */
  lemma PublishedServersHaveCurrentKey(steps: seq<Taken>, states: seq<Sys>, n: nat, i: nat)
    requires IsRun(steps, states) && n < |states|
    requires NoWriter(states[n]) && i < |states[n].inner|
    ensures
      var s := states[n];
      && s.inner[i] in s.heap && s.publicKey == Public(s.secret)
      && var v := s.heap[s.inner[i]];
         v.construction == XSalsa20Poly1305 || v.construction == XChacha20Poly1305 ==>
           v.sharedKey == Shared(v.construction, s.secret, v.serverPk)
  {
    AlwaysInvariant(steps, states, n);
  }

  /** Every query on a server published at the time sends the public key that belongs to the shared key it
      encrypts with. */
  lemma QueriesSendMatchingKey(steps: seq<Taken>, states: seq<Sys>, n: nat, m: Sent)
    requires IsRun(steps, states) && n < |states|
    requires m in states[n].sent && m.published
    requires m.server.construction == XSalsa20Poly1305 || m.server.construction == XChacha20Poly1305
    ensures m.sharedKey == Shared(m.server.construction, m.publicKey.secret, m.server.serverPk)
  {
    AlwaysInvariant(steps, states, n);
    assert SentMatches(m);
  }

  // ---------- progress ----------

  ghost predicate CanStep(s: Sys, t: nat) {
    exists a, s' :: Step(s, t, a, s')
  }

  /** A server that a query has picked never goes away, though it may be replaced in the list. */
  ghost predicate Anchored(s: Sys) {
    && Allocated(s)
    && forall t :: t in s.threads && (s.threads[t].Chosen? || s.threads[t].Reading?) ==> s.threads[t].ref in s.heap
  }

  lemma StepAnchors(s: Sys, t: nat, a: Action, s': Sys)
    requires Anchored(s) && Step(s, t, a, s') && Allocated(s')
    ensures Anchored(s')
  {
    assert forall r :: r in s.heap ==> r in s'.heap;
    forall u | u in s'.threads && (s'.threads[u].Chosen? || s'.threads[u].Reading?)
      ensures s'.threads[u].ref in s'.heap
    {
      if u != t || a.Reorder? { assert u in s.threads && s'.threads[u] == s.threads[u]; }
    }
  }

  lemma {:induction false} AlwaysAnchored(steps: seq<Taken>, states: seq<Sys>, n: nat)
    requires IsRun(steps, states) && n < |states|
    ensures Anchored(states[n])
  {
    if n > 0 {
      var i := n - 1;
      AlwaysAnchored(steps, states, i);
      AlwaysInvariant(steps, states, n);
      StepAnchors(states[i], steps[i].thread, steps[i].action, states[i + 1]);
    }
  }

  lemma {:induction false} UnusedRef(refs: set<Ref>) returns (ref: Ref)
    ensures forall r :: r in refs ==> r < ref
  {
    if refs == {} {
      ref := 0;
    } else {
      var r :| r in refs;
      var rest := refs - {r};
      ref := UnusedRef(rest);
      if ref <= r { ref := r + 1; }
      forall x | x in refs ensures x < ref { assert x == r || x in rest; }
    }
  }

  /** A thread that holds the server-list lock can go on ... */
  lemma ListHolderSteps(s: Sys, t: nat)
    requires Anchored(s) && LocksHeld(s) && ThreadsKeyed(s) && t in s.threads && HoldsList(s.threads[t])
    ensures CanStep(s, t)
  {
    var pc := s.threads[t];
    if pc.Publishing? {
      var ref := UnusedRef(s.heap.Keys);
      assert Step(s, t, Publish(ref), At(s, t, Published).(heap := s.heap[ref := pc.server],
                                                           inner := Placed(s, ref, pc.server.name)));
    } else if pc.done == |s.inner| {
      assert Step(s, t, Unlock, At(s, t, Rotated));
    } else {
      assert KeyedUpTo(s, pc.done);
      var r := s.inner[pc.done];
      assert Step(s, t, RecomputeOne,
                  At(s, t, Recomputing(pc.done + 1)).(heap := s.heap[r := WithKey(s.heap[r], s.secret)]));
    }
  }

  /** ... if nobody holds that one, a thread that holds the write lock can ... */
  lemma WriterSteps(s: Sys, t: nat)
    requires t in s.threads && HoldsWrite(s.threads[t]) && ListFree(s)
    ensures CanStep(s, t)
  {
    var pc := s.threads[t];
    if pc.Rotating? {
      assert Step(s, t, Rekey(0), At(s, t, Rekeyed).(secret := 0, publicKey := Public(0)));
    } else if pc.Rekeyed? {
      assert Step(s, t, LockList, At(s, t, Recomputing(0)));
    } else {
      assert Step(s, t, Unlock, At(s, t, Idle));
    }
  }

  /** ... and if nobody holds either, any thread can. */
  lemma OthersStep(s: Sys, t: nat)
    requires Anchored(s) && ListFree(s) && NoWriter(s) && t in s.threads
    ensures CanStep(s, t)
  {
    var pc := s.threads[t];
    if pc.Idle? {
      var server := Server("", Undefined, 0, ComputeSharedKey(Undefined, 0, 0));
      assert Step(s, t, Fetch("", Undefined, 0, 0), At(s, t, Fetched(server)));
    } else if pc.Fetched? {
      assert Step(s, t, LockRead, At(s, t, Joining(pc.server)));
    } else if pc.Joining? {
      assert Step(s, t, Recompute, At(s, t, Recomputed(WithKey(pc.server, s.secret))));
    } else if pc.Recomputed? {
      assert Step(s, t, LockList, At(s, t, Publishing(pc.server)));
    } else if pc.Published? {
      assert Step(s, t, Unlock, At(s, t, Idle));
    } else if pc.Chosen? {
      assert Step(s, t, LockRead, At(s, t, Reading(pc.ref)));
    } else {
      var v := s.heap[pc.ref];
      assert Step(s, t, Read,
                  At(s, t, Idle).(sent := s.sent + [Sent(v, v.sharedKey, s.publicKey, pc.ref in s.inner)]));
    }
  }

  /** No deadlock: in every reachable state with a thread in the middle of an operation, some such thread can go
      on. */
  lemma NeverDeadlocked(steps: seq<Taken>, states: seq<Sys>, n: nat, t: nat) returns (u: nat)
    requires IsRun(steps, states) && n < |states|
    requires t in states[n].threads && !states[n].threads[t].Idle?
    ensures u in states[n].threads && !states[n].threads[u].Idle? && CanStep(states[n], u)
  {
    var s := states[n];
    AlwaysInvariant(steps, states, n);
    AlwaysAnchored(steps, states, n);
    if x :| x in s.threads && HoldsList(s.threads[x]) {
      ListHolderSteps(s, x);
      u := x;
    } else if x :| x in s.threads && HoldsWrite(s.threads[x]) {
      WriterSteps(s, x);
      u := x;
    } else {
      OthersStep(s, t);
      u := t;
    }
  }
}
