/** Post-quantum key material across network changes (pq.go, netmon.go).  Queries, responses and network
    changes interleave at every critical section of a session: starting a query, the ticket lookup, the
    encapsulation lookup, storing an encapsulation, the epoch check on a ticket, storing the ticket. */
module PqSessions {
  import opened NetworkMonitor
  import opened Wire
  import opened Wrappers

  // ---------- symbolic keys ----------

  /** X-Wing ciphertexts are fresh draws; keys and secrets are free terms over what they derive from. */
  type Ciphertext = nat
  type Nonce = Bytes

  datatype Key =
    | NoKey
    | Encapsulated(ciphertext: Ciphertext)
    | Resumed(secret: Secret, nonce: Nonce, ticket: Bytes)

  datatype Secret = NoSecret | ResumeSecret(key: Key, nonce: Nonce)

  // ---------- the control block ----------

  const PQ_RESUMED_PADDING_FLOOR: int := 256
  const MAX_UDP: int := 4096

  function ResumedOverhead(ticketLen: nat): nat {
    8 + 2 + ticketLen + 12 + 16
  }

  /** A ticket worth keeping leaves room for a padded question. */
  predicate Storable(ticket: Bytes) {
    ResumedOverhead(|ticket|) + PQ_RESUMED_PADDING_FLOOR <= MAX_UDP
  }

  const CONTROL_MAGIC: Bytes := [0x50, 0x51, 0x44, 0x52]

  datatype Grant = Grant(lifetime: nat, ticket: Bytes)

  /** pqProcessControl up to the epoch check: magic, version, lifetime, length, ticket. */
  function ParseControl(c: Bytes): (r: Option<Grant>)
    ensures r.Some? ==> |c| >= 11 && Storable(r.value.ticket) && r.value.ticket <= c[11..]
  {
    if |c| < 11 then None
    else if c[..4] != CONTROL_MAGIC || c[4] != 1 then None
    else
      var ticketLen := Uint16(c[9], c[10]);
      if 11 + ticketLen > |c| then None
      else
        var ticket := c[11..11 + ticketLen];
        if Storable(ticket) then Some(Grant(Uint32(c[5], c[6], c[7], c[8]), ticket)) else None
  }

  /** The control block that grants a ticket. */
  function ControlBlock(g: Grant): Bytes
    requires g.lifetime < 0x1_0000_0000 && |g.ticket| < 0x1_0000
  {
    CONTROL_MAGIC + [1] + Encoded32(g.lifetime) + Encoded16(|g.ticket|) + g.ticket
  }

  lemma SplitBlock(c: Bytes, t: nat)
    requires 11 + t <= |c|
    ensures c[..11 + t] == c[..4] + [c[4]] + c[5..9] + c[9..11] + c[11..11 + t]
  {
  }

  /** A control block is accepted as a grant if and only if it starts with the block of that grant and the
      ticket leaves room for a padded question. */
  lemma ControlExact(c: Bytes, g: Grant)
    ensures ParseControl(c) == Some(g) <==>
            Storable(g.ticket) && g.lifetime < 0x1_0000_0000 && ControlBlock(g) <= c
  {
    var t := |g.ticket|;
    if 11 + t <= |c| && t < 0x1_0000 && g.lifetime < 0x1_0000_0000 {
      SplitBlock(c, t);
      Encoded32Exact(g.lifetime, c[5..9]);
      Encoded16Exact(t, c[9..11]);
      var block := ControlBlock(g);
      SplitBlock(block, t);
      assert block <= c <==> block == c[..11 + t];
      assert block[..4] == CONTROL_MAGIC && block[4] == 1 && block[5..9] == Encoded32(g.lifetime);
      assert block[9..11] == Encoded16(t) && block[11..11 + t] == g.ticket;
    }
  }

  // ---------- a session ----------

  type QueryId = nat

  const SECOND: int := 1_000_000_000

  /** Where a ticket came from: the query that earned it, the lifetime granted with it, and when it was stored. */
  datatype Origin = Origin(earner: QueryId, lifetime: nat, storedAt: int)

  const NO_ORIGIN := Origin(0, 0, 0)

  /** pqSessionState; an empty byte string is Go's nil.  `origin` remembers the query whose response carried
      the ticket. */
  datatype Session = Session(
    ticket: Bytes,
    resumeSecret: Secret,
    expiry: int,
    epoch: nat,
    origin: Origin,
    encap: Option<Ciphertext>,
    encapKey: Key,
    encapEpoch: nat)

  const NEW_SESSION := Session([], NoSecret, 0, 0, NO_ORIGIN, None, NoKey, 0)

  function Store(s: Session, grant: Grant, secret: Secret, expiry: int, epoch: nat, origin: Origin): Session {
    s.(ticket := grant.ticket, resumeSecret := secret, expiry := expiry, epoch := epoch, origin := origin)
  }

  predicate Resumable(s: Session, epoch: nat, now: int) {
    s.ticket != [] && now < s.expiry && s.epoch == epoch
  }

  /** get() also forgets a live ticket of another epoch. */
  function AfterGet(s: Session, epoch: nat, now: int): Session {
    if s.ticket == [] || now >= s.expiry || s.epoch == epoch then s
    else s.(ticket := [], resumeSecret := NoSecret, expiry := 0)
  }

  predicate Reusable(s: Session, epoch: nat) {
    s.encap.Some? && s.encapEpoch == epoch
  }

  function AfterGetEncap(s: Session, epoch: nat): Session {
    if s.encap.None? || s.encapEpoch == epoch then s else s.(encap := None, encapKey := NoKey)
  }

  function StoreEncap(s: Session, ct: Ciphertext, key: Key, epoch: nat): Session {
    s.(encap := Some(ct), encapKey := key, encapEpoch := epoch)
  }

  /** After a lookup in epoch e, whichever lookups succeed later are those that would have succeeded before, in the
      epoch of the ticket, provided that is e: a live ticket of another epoch is gone for good. */
  lemma LookupForgets(s: Session, e: nat, now: int, other: nat, later: int)
    requires now <= later
    ensures Resumable(AfterGet(s, e, now), other, later) <==> Resumable(s, other, later) && s.epoch == e
    ensures Resumable(s, e, now) ==> AfterGet(s, e, now) == s
    ensures AfterGet(s, e, now).encap == s.encap && AfterGet(s, e, now).encapKey == s.encapKey
  {
  }

  /** Likewise for ciphertexts. */
  lemma EncapLookupForgets(s: Session, e: nat, later: nat)
    ensures Reusable(AfterGetEncap(s, e), later) <==> Reusable(s, later) && s.encapEpoch == e
    ensures Reusable(s, e) ==> AfterGetEncap(s, e) == s
    ensures AfterGetEncap(s, e).ticket == s.ticket && AfterGetEncap(s, e).resumeSecret == s.resumeSecret
  {
  }

  /** pqSessionState, whose critical sections are the functions above. */
  class SessionState {
    var ticket: Bytes
    var resumeSecret: Secret
    var expiry: int
    var epoch: nat
    var encap: Option<Ciphertext>
    var encapKey: Key
    var encapEpoch: nat
    ghost var origin: Origin

    constructor ()
      ensures View() == NEW_SESSION
    {
      ticket, resumeSecret, expiry, epoch := [], NoSecret, 0, 0;
      encap, encapKey, encapEpoch, origin := None, NoKey, 0, NO_ORIGIN;
    }

    ghost function View(): Session
      reads this
    {
      Session(ticket, resumeSecret, expiry, epoch, origin, encap, encapKey, encapEpoch)
    }

    method Keep(grant: Grant, secret: Secret, expiry: int, epoch: nat, ghost origin: Origin)
      modifies this
      ensures View() == Store(old(View()), grant, secret, expiry, epoch, origin)
    {
      ticket, resumeSecret := grant.ticket, secret;
      this.expiry, this.epoch, this.origin := expiry, epoch, origin;
    }

    method Get(current: nat, now: int) returns (r: Option<(Bytes, Secret)>)
      modifies this
      ensures r == if Resumable(old(View()), current, now) then Some((old(ticket), old(resumeSecret))) else None
      ensures View() == AfterGet(old(View()), current, now)
    {
      if ticket == [] || now >= expiry { return None; }
      if epoch != current {
        ticket, resumeSecret, expiry := [], NoSecret, 0;
        return None;
      }
      return Some((ticket, resumeSecret));
    }

    method GetCachedEncapsulation(current: nat) returns (r: Option<(Ciphertext, Key)>)
      modifies this
      ensures r == if Reusable(old(View()), current) then Some((old(encap.value), old(encapKey))) else None
      ensures View() == AfterGetEncap(old(View()), current)
    {
      if encap.None? { return None; }
      if encapEpoch != current {
        encap, encapKey := None, NoKey;
        return None;
      }
      return Some((encap.value, encapKey));
    }

    method StoreEncapsulation(ct: Ciphertext, key: Key, epoch: nat)
      modifies this
      ensures View() == StoreEncap(old(View()), ct, key, epoch)
    {
      encap, encapKey, encapEpoch := Some(ct), key, epoch;
    }
  }

  // ---------- queries ----------

  datatype Stage =
    | Started                                  // epoch read
    | TicketMissed                             // ticket lookup failed
    | EncapMissed                              // encapsulation lookup failed
    | Drawn                                    // own ciphertext drawn, not stored yet
    | Sent                                     // on the wire
    | Checking(grant: Grant)                   // a response passed the epoch check, ticket not stored yet

  /** How a sent query was keyed. */
  datatype Mode =
    | Unkeyed
    | Carries(ciphertext: Ciphertext)
    | Resumes(ticket: Bytes, secret: Secret, origin: Origin, expiry: int, readAt: int)

  datatype Query = Query(server: nat, epoch: nat, nonce: Nonce, stage: Stage, mode: Mode, key: Key)

  datatype Sys = Sys(
    monitor: Monitor,
    sessions: map<nat, Session>,
    queries: map<QueryId, Query>,
    drawn: map<Ciphertext, QueryId>,
    granted: set<(QueryId, Grant)>,
    stored: set<(QueryId, Grant, int)>)

  function SessionOf(s: Sys, server: nat): Session {
    if server in s.sessions then s.sessions[server] else NEW_SESSION
  }

  function With(s: Sys, server: nat, x: Session): Sys {
    s.(sessions := s.sessions[server := x])
  }

  function WithQuery(s: Sys, q: QueryId, x: Query): Sys {
    s.(queries := s.queries[q := x])
  }

  const INITIAL := Sys(NEW_MONITOR, map[], map[], map[], {}, {})

  // ---------- steps ----------

  datatype Action =
    | Network(call: Call)
    | Start(q: QueryId, server: nat, nonce: Nonce)
    | GetTicket(q: QueryId, now: int)
    | GetEncap(q: QueryId)
    | Draw(q: QueryId, ciphertext: Ciphertext)
    | KeepEncap(q: QueryId)
    | Respond(q: QueryId, control: Bytes)
    | KeepTicket(q: QueryId, now: int)

  ghost predicate StartStep(s: Sys, q: QueryId, server: nat, nonce: Nonce, s': Sys) {
    && q !in s.queries
    && s' == WithQuery(s, q, Query(server, s.monitor.epoch, nonce, Started, Unkeyed, NoKey))
  }

  ghost predicate GetTicketStep(s: Sys, q: QueryId, now: int, s': Sys) {
    && q in s.queries && s.queries[q].stage.Started?
    && var x := s.queries[q];
       var p := SessionOf(s, x.server);
       if Resumable(p, x.epoch, now) then
         var mode := Resumes(p.ticket, p.resumeSecret, p.origin, p.expiry, now);
         s' == WithQuery(s, q, x.(stage := Sent, mode := mode, key := Resumed(p.resumeSecret, x.nonce, p.ticket)))
       else s' == With(WithQuery(s, q, x.(stage := TicketMissed)), x.server, AfterGet(p, x.epoch, now))
  }

  ghost predicate GetEncapStep(s: Sys, q: QueryId, s': Sys) {
    && q in s.queries && s.queries[q].stage.TicketMissed?
    && var x := s.queries[q];
       var p := SessionOf(s, x.server);
       if Reusable(p, x.epoch) then
         s' == WithQuery(s, q, x.(stage := Sent, mode := Carries(p.encap.value), key := p.encapKey))
       else s' == With(WithQuery(s, q, x.(stage := EncapMissed)), x.server, AfterGetEncap(p, x.epoch))
  }

  ghost predicate DrawStep(s: Sys, q: QueryId, ct: Ciphertext, s': Sys) {
    && q in s.queries && s.queries[q].stage.EncapMissed? && ct !in s.drawn
    && var x := s.queries[q].(stage := Drawn, mode := Carries(ct), key := Encapsulated(ct));
       s' == WithQuery(s, q, x).(drawn := s.drawn[ct := q])
  }

  ghost predicate KeepEncapStep(s: Sys, q: QueryId, s': Sys) {
    && q in s.queries && s.queries[q].stage.Drawn? && s.queries[q].mode.Carries?
    && var x := s.queries[q];
       var p := StoreEncap(SessionOf(s, x.server), x.mode.ciphertext, x.key, x.epoch);
       s' == With(WithQuery(s, q, x.(stage := Sent)), x.server, p)
  }

  ghost predicate RespondStep(s: Sys, q: QueryId, control: Bytes, s': Sys) {
    && q in s.queries && s.queries[q].stage.Sent?
    && var x, g := s.queries[q], ParseControl(control);
       if g.Some? && x.epoch == s.monitor.epoch then
         s' == WithQuery(s, q, x.(stage := Checking(g.value))).(granted := s.granted + {(q, g.value)})
       else s' == s
  }

  ghost predicate KeepTicketStep(s: Sys, q: QueryId, now: int, s': Sys) {
    && q in s.queries && s.queries[q].stage.Checking?
    && var x := s.queries[q];
       var g, secret := x.stage.grant, ResumeSecret(x.key, x.nonce);
       var expiry, origin := now + g.lifetime * SECOND, Origin(q, g.lifetime, now);
       var p := Store(SessionOf(s, x.server), g, secret, expiry, x.epoch, origin);
       s' == With(WithQuery(s, q, x.(stage := Sent)), x.server, p).(stored := s.stored + {(q, g, now)})
  }

  function Observed(m: Monitor, call: Call): Monitor {
    match call
    case Init(x) => Initialized(m, x)
    case Check(x) => Checked(m, x)
  }

  ghost predicate Step(s: Sys, a: Action, s': Sys) {
    match a
    case Network(call) => s' == s.(monitor := Observed(s.monitor, call))
    case Start(q, server, nonce) => StartStep(s, q, server, nonce, s')
    case GetTicket(q, now) => GetTicketStep(s, q, now, s')
    case GetEncap(q) => GetEncapStep(s, q, s')
    case Draw(q, ct) => DrawStep(s, q, ct, s')
    case KeepEncap(q) => KeepEncapStep(s, q, s')
    case Respond(q, control) => RespondStep(s, q, control, s')
    case KeepTicket(q, now) => KeepTicketStep(s, q, now, s')
  }

  // ---------- invariants ----------

  /** A ticket in hand was granted in a response to its earner, on this server, and is kept together with the
      secret derived from the earner's key and under the epoch the earner began in. */
  ghost predicate TicketSound(
    s: Sys, server: nat, ticket: Bytes, secret: Secret, expiry: int, epoch: nat, origin: Origin)
  {
    var earner, grant := origin.earner, Grant(origin.lifetime, ticket);
    && earner in s.queries
    && s.queries[earner].server == server
    && s.queries[earner].epoch == epoch
    && !s.queries[earner].mode.Unkeyed?
    && secret == ResumeSecret(s.queries[earner].key, s.queries[earner].nonce)
    && (earner, grant) in s.granted
    && (earner, grant, origin.storedAt) in s.stored
    && expiry == origin.storedAt + origin.lifetime * SECOND
    && Storable(ticket)
  }

  /** A ciphertext was drawn by a query of that server and that epoch. */
  ghost predicate CiphertextSound(s: Sys, server: nat, ct: Ciphertext, key: Key, epoch: nat) {
    && ct in s.drawn
    && s.drawn[ct] in s.queries
    && s.queries[s.drawn[ct]].server == server
    && s.queries[s.drawn[ct]].epoch == epoch
    && key == Encapsulated(ct)
  }

  ghost predicate SessionSound(s: Sys, server: nat) {
    var p := SessionOf(s, server);
    && (p.ticket != [] ==> TicketSound(s, server, p.ticket, p.resumeSecret, p.expiry, p.epoch, p.origin))
    && (p.encap.Some? ==> CiphertextSound(s, server, p.encap.value, p.encapKey, p.encapEpoch))
  }

  ghost predicate QuerySound(s: Sys, q: QueryId)
    requires q in s.queries
  {
    var x := s.queries[q];
    && (x.stage.Sent? || x.stage.Drawn? || x.stage.Checking? <==> !x.mode.Unkeyed?)
    && (x.stage.Drawn? ==> x.mode.Carries?)
    && (x.stage.Checking? ==> (q, x.stage.grant) in s.granted && Storable(x.stage.grant.ticket))
    && (x.mode.Carries? ==> CiphertextSound(s, x.server, x.mode.ciphertext, x.key, x.epoch))
    && (x.mode.Resumes? ==>
          && TicketSound(s, x.server, x.mode.ticket, x.mode.secret, x.mode.expiry, x.epoch, x.mode.origin)
          && x.mode.readAt < x.mode.expiry
          && x.key == Resumed(x.mode.secret, x.nonce, x.mode.ticket))
  }

  ghost predicate Invariant(s: Sys) {
    && (forall server: nat :: SessionSound(s, server))
    && (forall q :: q in s.queries ==> QuerySound(s, q))
  }

  // ---------- nothing a proof relies on is ever undone ----------

  ghost predicate Kept(x: Query, x': Query) {
    && x'.server == x.server && x'.epoch == x.epoch && x'.nonce == x.nonce
    && (!x.mode.Unkeyed? ==> x'.mode == x.mode && x'.key == x.key)
  }

  ghost predicate Extends(s: Sys, s': Sys) {
    && (forall q :: q in s.queries ==> q in s'.queries && Kept(s.queries[q], s'.queries[q]))
    && (forall ct :: ct in s.drawn ==> ct in s'.drawn && s'.drawn[ct] == s.drawn[ct])
    && s.granted <= s'.granted && s.stored <= s'.stored
  }

  /** Only query q and the session of its server differ, and both are sound. */
  ghost predicate Touches(s: Sys, q: QueryId, s': Sys) {
    && q in s'.queries
    && Extends(s, s')
    && (forall r :: r in s'.queries && r != q ==> r in s.queries && s'.queries[r] == s.queries[r])
    && (forall v: nat :: v != s'.queries[q].server ==> SessionOf(s', v) == SessionOf(s, v))
    && QuerySound(s', q)
    && SessionSound(s', s'.queries[q].server)
  }

  /** What a step on query q starts from. */
  ghost predicate Ready(s: Sys, q: QueryId) {
    q in s.queries && QuerySound(s, q) && SessionSound(s, s.queries[q].server)
  }

  lemma TouchKeeps(s: Sys, q: QueryId, s': Sys)
    requires Invariant(s) && Touches(s, q, s')
    ensures Invariant(s')
  {
    forall v: nat ensures SessionSound(s', v) { assert SessionSound(s, v); }
    forall r | r in s'.queries ensures QuerySound(s', r) {
      if r != q { assert QuerySound(s, r); }
    }
  }

  lemma StartTouches(s: Sys, q: QueryId, server: nat, nonce: Nonce, s': Sys)
    requires StartStep(s, q, server, nonce, s') && SessionSound(s, server)
    ensures Touches(s, q, s')
  {
  }

  lemma GetTicketTouches(s: Sys, q: QueryId, now: int, s': Sys)
    requires GetTicketStep(s, q, now, s') && Ready(s, q)
    ensures Touches(s, q, s')
  {
    var server := s.queries[q].server;
    assert Extends(s, s');
    assert SessionSound(s', server);
  }

  lemma GetEncapTouches(s: Sys, q: QueryId, s': Sys)
    requires GetEncapStep(s, q, s') && Ready(s, q)
    ensures Touches(s, q, s')
  {
  }

  lemma DrawTouches(s: Sys, q: QueryId, ct: Ciphertext, s': Sys)
    requires DrawStep(s, q, ct, s') && Ready(s, q)
    ensures Touches(s, q, s')
  {
  }

  lemma KeepEncapTouches(s: Sys, q: QueryId, s': Sys)
    requires KeepEncapStep(s, q, s') && Ready(s, q)
    ensures Touches(s, q, s')
  {
  }

  lemma RespondTouches(s: Sys, q: QueryId, control: Bytes, s': Sys)
    requires RespondStep(s, q, control, s') && Ready(s, q)
    ensures Touches(s, q, s')
  {
    var g := ParseControl(control);
    if g.Some? && s.queries[q].epoch == s.monitor.epoch {
      GrantTouches(s, q, g.value);
    }
  }

  lemma GrantTouches(s: Sys, q: QueryId, g: Grant)
    requires Ready(s, q) && s.queries[q].stage.Sent? && Storable(g.ticket)
    ensures Touches(
              s, q, WithQuery(s, q, s.queries[q].(stage := Checking(g))).(granted := s.granted + {(q, g)}))
  {
    var s' := WithQuery(s, q, s.queries[q].(stage := Checking(g))).(granted := s.granted + {(q, g)});
    var server := s.queries[q].server;
    SoundExtends(s, s', server, q);
  }

  /** Granting a ticket changes no session and no key. */
  lemma SoundExtends(s: Sys, s': Sys, server: nat, q: QueryId)
    requires q in s.queries && q in s'.queries && s'.queries == s.queries[q := s'.queries[q]]
    requires Kept(s.queries[q], s'.queries[q]) && s'.drawn == s.drawn
    requires s.granted <= s'.granted && s'.stored == s.stored
    requires s'.sessions == s.sessions && SessionSound(s, server)
    ensures Extends(s, s') && SessionSound(s', server)
  {
    assert Extends(s, s');
    assert SessionOf(s', server) == SessionOf(s, server);
  }

  lemma KeepTicketTouches(s: Sys, q: QueryId, now: int, s': Sys)
    requires KeepTicketStep(s, q, now, s') && Ready(s, q)
    ensures Touches(s, q, s')
  {
  }

  lemma NetworkKeeps(s: Sys, s': Sys)
    requires Invariant(s) && s' == s.(monitor := s'.monitor)
    ensures Invariant(s')
  {
    forall v: nat ensures SessionSound(s', v) { assert SessionSound(s, v); }
    forall r | r in s'.queries ensures QuerySound(s', r) { assert QuerySound(s, r); }
  }

  lemma StepKeeps(s: Sys, a: Action, s': Sys)
    requires Invariant(s) && Step(s, a, s')
    ensures Invariant(s')
  {
    if a.Start? { assert SessionSound(s, a.server); }
    if !a.Network? && !a.Start? { assert Ready(s, a.q); }
    match a {
      case Network(_) => NetworkKeeps(s, s');
      case Start(q, server, nonce) => StartTouches(s, q, server, nonce, s');
      case GetTicket(q, now) => GetTicketTouches(s, q, now, s');
      case GetEncap(q) => GetEncapTouches(s, q, s');
      case Draw(q, ct) => DrawTouches(s, q, ct, s');
      case KeepEncap(q) => KeepEncapTouches(s, q, s');
      case Respond(q, control) => RespondTouches(s, q, control, s');
      case KeepTicket(q, now) => KeepTicketTouches(s, q, now, s');
    }
    if !a.Network? { TouchKeeps(s, a.q, s'); }
  }

  // ---------- runs ----------

  ghost predicate IsRun(actions: seq<Action>, states: seq<Sys>) {
    && |states| == |actions| + 1
    && states[0] == INITIAL
    && forall i {:trigger Step(states[i], actions[i], states[i + 1])} ::
         0 <= i < |actions| ==> Step(states[i], actions[i], states[i + 1])
  }

  lemma {:induction false} AlwaysInvariant(actions: seq<Action>, states: seq<Sys>, n: nat)
    requires IsRun(actions, states) && n < |states|
    ensures Invariant(states[n])
  {
    if n > 0 {
      var i := n - 1;
      AlwaysInvariant(actions, states, i);
      StepKeeps(states[i], actions[i], states[i + 1]);
    }
  }

  /** Every resumed query used a ticket together with the secret stored with it, before the granted lifetime
      had passed since it was stored; the query that earned it was granted that very ticket by the same server
      and began in the same network epoch. */
  lemma ResumptionStaysInEpoch(actions: seq<Action>, states: seq<Sys>, n: nat, q: QueryId)
    requires IsRun(actions, states) && n < |states|
    requires q in states[n].queries && states[n].queries[q].mode.Resumes?
    ensures
      var s, x := states[n], states[n].queries[q];
      var o := x.mode.origin;
      && x.mode.readAt < o.storedAt + o.lifetime * SECOND
      && (o.earner, Grant(o.lifetime, x.mode.ticket)) in s.granted
      && (o.earner, Grant(o.lifetime, x.mode.ticket), o.storedAt) in s.stored
      && o.earner in s.queries
      && var earner := s.queries[o.earner];
         && earner.epoch == x.epoch && earner.server == x.server
         && x.mode.secret == ResumeSecret(earner.key, earner.nonce)
         && x.key == Resumed(x.mode.secret, x.nonce, x.mode.ticket)
  {
    AlwaysInvariant(actions, states, n);
    assert QuerySound(states[n], q);
  }

  /** A grant is taken up only from a response that carries it, and only if the network has not changed since the
      query began. */
  lemma {:induction false} GrantedInEpoch(actions: seq<Action>, states: seq<Sys>, n: nat, q: QueryId, g: Grant)
    returns (i: nat)
    requires IsRun(actions, states) && n < |states| && (q, g) in states[n].granted
    ensures i < n && actions[i].Respond? && actions[i].q == q && ParseControl(actions[i].control) == Some(g)
    ensures q in states[i].queries && states[i].queries[q].epoch == states[i].monitor.epoch
  {
    i := n - 1;
    assert Step(states[i], actions[i], states[i + 1]);
    if (q, g) in states[i].granted { i := GrantedInEpoch(actions, states, i, q, g); }
  }

  lemma GrantIsStored(s: Sys, q: QueryId, control: Bytes, g: Grant, s1: Sys, now: int, s2: Sys)
    requires q in s.queries && s.queries[q].stage.Sent? && s.queries[q].epoch == s.monitor.epoch
    requires ParseControl(control) == Some(g)
    requires RespondStep(s, q, control, s1) && KeepTicketStep(s1, q, now, s2)
    ensures
      var x, p := s.queries[q], SessionOf(s2, s.queries[q].server);
      && s2.monitor == s.monitor && p.ticket == g.ticket && p.resumeSecret == ResumeSecret(x.key, x.nonce)
      && p.expiry == now + g.lifetime * SECOND && p.epoch == x.epoch
  {
    assert s1.queries[q] == s.queries[q].(stage := Checking(g));
  }

  lemma HeldTicketIsUsed(s: Sys, r: QueryId, server: nat, nonce: Nonce, s1: Sys, now: int, s2: Sys)
    requires StartStep(s, r, server, nonce, s1) && GetTicketStep(s1, r, now, s2)
    ensures
      var p := SessionOf(s, server);
      && r in s2.queries
      && (s2.queries[r].mode.Resumes? <==> p.ticket != [] && now < p.expiry && p.epoch == s.monitor.epoch)
      && (s2.queries[r].mode.Resumes? ==>
            && s2.queries[r].mode.ticket == p.ticket && s2.queries[r].mode.secret == p.resumeSecret
            && s2.queries[r].key == Resumed(p.resumeSecret, nonce, p.ticket))
  {
    assert s1.queries[r] == Query(server, s.monitor.epoch, nonce, Started, Unkeyed, NoKey);
    assert SessionOf(s1, server) == SessionOf(s, server);
  }

  /** And such a grant is of use, unless its ticket is empty: stored, it lets the next query to that server in that
      epoch resume, with the secret that belongs to it, for exactly as long as it was granted. */
  lemma GrantIsUsed(
    s: Sys, q: QueryId, control: Bytes, g: Grant, s1: Sys, now: int, s2: Sys, r: QueryId, nonce: Nonce, s3: Sys,
    later: int, s4: Sys)
    requires q in s.queries && s.queries[q].stage.Sent? && s.queries[q].epoch == s.monitor.epoch
    requires ParseControl(control) == Some(g)
    requires RespondStep(s, q, control, s1) && KeepTicketStep(s1, q, now, s2)
    requires StartStep(s2, r, s.queries[q].server, nonce, s3) && GetTicketStep(s3, r, later, s4)
    ensures
      var secret := ResumeSecret(s.queries[q].key, s.queries[q].nonce);
      && r in s4.queries
      && (s4.queries[r].mode.Resumes? <==> g.ticket != [] && later < now + g.lifetime * SECOND)
      && (s4.queries[r].mode.Resumes? ==>
            && s4.queries[r].mode.ticket == g.ticket && s4.queries[r].mode.secret == secret
            && s4.queries[r].key == Resumed(secret, nonce, g.ticket))
  {
    GrantIsStored(s, q, control, g, s1, now, s2);
    HeldTicketIsUsed(s2, r, s.queries[q].server, nonce, s3, later, s4);
  }

  /** Queries that share one X-Wing ciphertext share their server, their key and their network epoch. */
  lemma CiphertextStaysInEpoch(actions: seq<Action>, states: seq<Sys>, n: nat, q: QueryId, r: QueryId)
    requires IsRun(actions, states) && n < |states|
    requires q in states[n].queries && r in states[n].queries
    requires states[n].queries[q].mode.Carries? && states[n].queries[q].mode == states[n].queries[r].mode
    ensures
      var x, y := states[n].queries[q], states[n].queries[r];
      x.epoch == y.epoch && x.server == y.server && x.key == y.key
  {
    AlwaysInvariant(actions, states, n);
    assert QuerySound(states[n], q) && QuerySound(states[n], r);
  }

  function Calls(actions: seq<Action>): seq<Call> {
    if actions == [] then [] else
    var a := actions[|actions| - 1];
    Calls(actions[..|actions| - 1]) + if a.Network? then [a.call] else []
  }

  /** The epoch every query starts in is the number of adjacent differing successful interface snapshots. */
  lemma {:induction false} EpochIsChangeCount(actions: seq<Action>, states: seq<Sys>, n: nat)
    requires IsRun(actions, states) && n < |states|
    ensures states[n].monitor == After(Calls(actions[..n]))
    ensures states[n].monitor.epoch == Changes(Successes(Calls(actions[..n])))
  {
    EpochCountsChanges(Calls(actions[..n]));
    if n > 0 {
      var i := n - 1;
      EpochIsChangeCount(actions, states, i);
      assert Step(states[i], actions[i], states[i + 1]);
      assert actions[..n][..i] == actions[..i];
      var calls := Calls(actions[..n]);
      if actions[i].Network? {
        assert calls[..|calls| - 1] == Calls(actions[..i]);
      } else {
        assert calls == Calls(actions[..i]);
      }
    }
  }
}
