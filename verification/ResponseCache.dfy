/** plugin_cache.go and the TTL helpers of dnsutils.go.  Records are heap objects whose TTL is rewritten in
    place; messages are values that refer to them. */
module ResponseCache {

  const SECOND: int := 1_000_000_000
  const STALE_TTL: int := 30 * SECOND
  const UINT32: int := 0x1_0000_0000
  /** TTLs are 32-bit unsigned. */
  type Uint32 = n: int | 0 <= n < UINT32

  const TYPE_OPT: nat := 41
  const RCODE_SUCCESS: nat := 0
  const RCODE_NAME_ERROR: nat := 3
  const RCODE_NOT_AUTH: nat := 9

  // ---------- records and messages ----------

  class Record {
    var ttl: Uint32
    const rrType: nat
    const rdata: string

    constructor (ttl: Uint32, rrType: nat, rdata: string)
      ensures this.ttl == ttl && this.rrType == rrType && this.rdata == rdata
    {
      this.ttl, this.rrType, this.rdata := ttl, rrType, rdata;
    }
  }

  datatype Header = Header(id: nat, response: bool, rcode: nat, truncated: bool, flags: nat)

  datatype Msg = Msg(
    header: Header,
    question: seq<Record>,
    answer: seq<Record>,
    ns: seq<Record>,
    extra: seq<Record>,
    pseudo: seq<Record>)

  /** The records whose TTL and data a response carries. */
  function Body(m: Msg): set<Record> {
    set r | r in m.answer + m.ns + m.extra + m.pseudo
  }

  function AllRecords(m: Msg): set<Record> {
    set r | r in m.question + (m.answer + m.ns + m.extra + m.pseudo)
  }

  datatype RecordVal = RecordVal(ttl: Uint32, rrType: nat, rdata: string)

  datatype MsgVal = MsgVal(
    header: Header,
    answer: seq<RecordVal>,
    ns: seq<RecordVal>,
    extra: seq<RecordVal>,
    pseudo: seq<RecordVal>)

  /** The records show these values, in order. */
  ghost predicate Shows(s: seq<Record>, v: seq<RecordVal>)
    reads s
  {
    && |s| == |v|
    && forall i :: 0 <= i < |s| ==> s[i].ttl == v[i].ttl && s[i].rrType == v[i].rrType && s[i].rdata == v[i].rdata
  }

  /** The message reads as v. */
  ghost predicate Reads(m: Msg, v: MsgVal)
    reads Body(m)
  {
    && m.header == v.header
    && Shows(m.answer, v.answer) && Shows(m.ns, v.ns) && Shows(m.extra, v.extra) && Shows(m.pseudo, v.pseudo)
  }

  // ---------- lifetimes ----------

  function MinOf(s: seq<Uint32>, start: Uint32): (m: Uint32)
    ensures m <= start && forall t :: t in s ==> m <= t
    ensures m == start || m in s
  {
    if s == [] then start else
    var init := MinOf(s[..|s| - 1], start);
    assert s == s[..|s| - 1] + [s[|s| - 1]];
    if s[|s| - 1] < init then s[|s| - 1] else init
  }

  /** Rounded to the nearest second, halves up; nothing once the lifetime is over. */
  function RoundTTL(until: int): Uint32 {
    if until <= 0 then 0 else
    var whole := (until / SECOND) % UINT32;
    if until - whole * SECOND >= SECOND / 2 then (whole + 1) % UINT32 else whole
  }

  /** For every lifetime a 32-bit TTL can express, the TTL served is within half a second of what remains,
      never above the whole lifetime, and never grows as time passes. */
  lemma RoundTTLTracks(lifetime: Uint32, until: int, later: int)
    requires later <= until <= lifetime * SECOND
    ensures RoundTTL(until) <= lifetime
    ensures until >= 0 ==> -SECOND <= 2 * (RoundTTL(until) * SECOND - until) <= SECOND
    ensures until < 0 ==> RoundTTL(until) == 0
    ensures RoundTTL(later) <= RoundTTL(until)
  {
  }

  /** Half a second rounds up. */
  lemma HalvesRoundUp(seconds: Uint32)
    requires seconds + 1 < UINT32
    ensures RoundTTL(seconds * 1_000_000_000 + 500_000_000) == seconds + 1
    ensures RoundTTL(seconds * 1_000_000_000 + 499_999_999) == seconds
  {
  }

  // ---------- cloning ----------

  /** Fresh copies of the records. */
  method CloneRRs(src: seq<Record>) returns (dst: seq<Record>)
    ensures forall r :: r in dst ==> fresh(r)
    ensures |dst| == |src|
    ensures forall i :: 0 <= i < |src| ==>
              dst[i].ttl == src[i].ttl && dst[i].rrType == src[i].rrType && dst[i].rdata == src[i].rdata
  {
    dst := [];
    for i := 0 to |src|
      invariant |dst| == i
      invariant forall r :: r in dst ==> fresh(r)
      invariant forall j :: 0 <= j < i ==>
                  dst[j].ttl == src[j].ttl && dst[j].rrType == src[j].rrType && dst[j].rdata == src[j].rdata
    {
      var r := new Record(src[i].ttl, src[i].rrType, src[i].rdata);
      dst := dst + [r];
    }
  }

  /** No record belongs to two sections. */
  ghost predicate Unshared(m: Msg) {
    && (forall r :: r in m.ns ==> r !in m.answer)
    && (forall r :: r in m.extra ==> r !in m.answer && r !in m.ns)
    && (forall r :: r in m.pseudo ==> r !in m.answer && r !in m.ns && r !in m.extra)
  }

  method CloneMsg(src: Msg, ghost v: MsgVal) returns (dst: Msg)
    requires Reads(src, v)
    ensures forall r :: r in AllRecords(dst) ==> fresh(r)
    ensures Unshared(dst) && Reads(dst, v)
  {
    var question := CloneRRs(src.question);
    var answer := CloneRRs(src.answer);
    var ns := CloneRRs(src.ns);
    var extra := CloneRRs(src.extra);
    var pseudo := CloneRRs(src.pseudo);
    dst := Msg(src.header, question, answer, ns, extra, pseudo);
  }

  // ---------- TTL rewriting ----------

  function Ttls(v: seq<RecordVal>): seq<Uint32> {
    seq(|v|, i requires 0 <= i < |v| => v[i].ttl)
  }

  datatype Limits = Limits(min: Uint32, max: Uint32, negMin: Uint32, negMax: Uint32)

  /** getMinTTL: the lifetime, in seconds, of a message that reads as v. */
  function Lifetime(v: MsgVal, limits: Limits): Uint32 {
    var rcode := v.header.rcode;
    if (rcode != RCODE_SUCCESS && rcode != RCODE_NAME_ERROR) || (v.answer == [] && v.ns == []) then limits.negMin
    else
      var lo := if rcode == RCODE_SUCCESS then limits.min else limits.negMin;
      var hi := if rcode == RCODE_SUCCESS then limits.max else limits.negMax;
      var ttl := MinOf(Ttls(if v.answer != [] then v.answer else v.ns), hi);
      if ttl < lo then lo else ttl
  }

  lemma {:induction false} MinOfTtls(section: seq<RecordVal>, start: Uint32)
    ensures
      var m := MinOf(Ttls(section), start);
      && m <= start && (forall r :: r in section ==> m <= r.ttl)
      && (m == start || exists r :: r in section && r.ttl == m)
  {
    var ttls := Ttls(section);
    var m := MinOf(ttls, start);
    forall r | r in section ensures m <= r.ttl {
      var i :| 0 <= i < |section| && section[i] == r;
      assert ttls[i] in ttls;
    }
    if m != start {
      var i :| 0 <= i < |ttls| && ttls[i] == m;
      assert section[i] in section && section[i].ttl == m;
    }
  }

  /** The lifetime of a message: the negative minimum when there is nothing to go by; otherwise at least the
      floor and, above it, the lowest of the ceiling and the TTLs of the answer or else the authority section. */
  lemma LifetimeClamped(v: MsgVal, limits: Limits)
    ensures
      var life, rcode := Lifetime(v, limits), v.header.rcode;
      var section := if v.answer != [] then v.answer else v.ns;
      var lo := if rcode == RCODE_SUCCESS then limits.min else limits.negMin;
      var hi := if rcode == RCODE_SUCCESS then limits.max else limits.negMax;
      if (rcode != RCODE_SUCCESS && rcode != RCODE_NAME_ERROR) || section == [] then life == limits.negMin
      else
        && life >= lo
        && (life > lo ==> life <= hi && forall r :: r in section ==> life <= r.ttl)
        && (life == lo || life == hi || exists r :: r in section && r.ttl == life)
  {
    var section := if v.answer != [] then v.answer else v.ns;
    MinOfTtls(section, if v.header.rcode == RCODE_SUCCESS then limits.max else limits.negMax);
  }

  method LowestTTL(s: seq<Record>, start: Uint32, ghost v: seq<RecordVal>) returns (ttl: Uint32)
    requires Shows(s, v)
    ensures ttl == MinOf(Ttls(v), start)
  {
    ttl := start;
    ghost var all := Ttls(v);
    for i := 0 to |s|
      invariant ttl == MinOf(all[..i], start)
    {
      assert all[..i + 1][..i] == all[..i];
      if s[i].ttl < ttl { ttl := s[i].ttl; }
    }
    assert all[..|s|] == all;
  }

  /** getMinTTL */
  method GetMinTTL(m: Msg, limits: Limits, ghost v: MsgVal) returns (lifetime: int)
    requires Reads(m, v)
    ensures lifetime == Lifetime(v, limits) * SECOND
  {
    var rcode := m.header.rcode;
    if (rcode != RCODE_SUCCESS && rcode != RCODE_NAME_ERROR) || (|m.answer| == 0 && |m.ns| == 0) {
      return limits.negMin * SECOND;
    }
    var ttl := if rcode == RCODE_SUCCESS then limits.max else limits.negMax;
    if |m.answer| > 0 {
      ttl := LowestTTL(m.answer, ttl, v.answer);
    } else {
      ttl := LowestTTL(m.ns, ttl, v.ns);
    }
    if rcode == RCODE_SUCCESS {
      if ttl < limits.min { ttl := limits.min; }
    } else {
      if ttl < limits.negMin { ttl := limits.negMin; }
    }
    return ttl * SECOND;
  }

  function Timed(v: RecordVal, ttl: Uint32, keepOPT: bool): RecordVal {
    if keepOPT && v.rrType == TYPE_OPT then v else v.(ttl := ttl)
  }

  function TimedAll(s: seq<RecordVal>, ttl: Uint32, keepOPT: bool): seq<RecordVal> {
    seq(|s|, i requires 0 <= i < |s| => Timed(s[i], ttl, keepOPT))
  }

  /** The message with the TTLs of its answer, authority and (but for OPT) additional records replaced. */
  function Retimed(v: MsgVal, ttl: Uint32): MsgVal {
    MsgVal(v.header, TimedAll(v.answer, ttl, false), TimedAll(v.ns, ttl, false), TimedAll(v.extra, ttl, true), v.pseudo)
  }

  /** The records whose TTL may be rewritten: all of them, or all but OPT. */
  function Timeable(s: seq<Record>, keepOPT: bool): set<Record> {
    set r | r in s && !(keepOPT && r.rrType == TYPE_OPT)
  }

  method SetTTLs(s: seq<Record>, ttl: Uint32, keepOPT: bool, ghost v: seq<RecordVal>)
    modifies Timeable(s, keepOPT)
    ensures forall r :: r in Timeable(s, keepOPT) ==> r.ttl == ttl
    ensures old(Shows(s, v)) ==> Shows(s, TimedAll(v, ttl, keepOPT))
  {
    for i := 0 to |s|
      invariant forall j :: 0 <= j < i && s[j] in Timeable(s, keepOPT) ==> s[j].ttl == ttl
    {
      if !(keepOPT && s[i].rrType == TYPE_OPT) { s[i].ttl := ttl; }
    }
  }

  function Rewritten(m: Msg): set<Record> {
    Timeable(m.answer, false) + Timeable(m.ns, false) + Timeable(m.extra, true)
  }

  /** The message expires that many nanoseconds from now. */
  ghost predicate TimedFor(m: Msg, until: int)
    reads Rewritten(m)
  {
    forall r :: r in Rewritten(m) ==> r.ttl == RoundTTL(until)
  }

  /** updateTTL: rewrites records of this message only; without sharing between sections the result is exactly
      the retimed message. */
  method UpdateTTL(m: Msg, expiration: int, now: int, ghost v: MsgVal)
    modifies Rewritten(m)
    ensures TimedFor(m, expiration - now)
    ensures Unshared(m) && old(Reads(m, v)) ==> Reads(m, Retimed(v, RoundTTL(expiration - now)))
  {
    var until := expiration - now;
    var ttl := 0;
    if until > 0 {
      ttl := (until / SECOND) % UINT32;
      if until - ttl * SECOND >= SECOND / 2 { ttl := (ttl + 1) % UINT32; }
    }
    SetTTLs(m.answer, ttl, false, v.answer);
    SetTTLs(m.ns, ttl, false, v.ns);
    SetTTLs(m.extra, ttl, true, v.extra);
  }

  /** The private copy a cache entry keeps. */
  method CopyForStorage(src: Msg, ghost v: MsgVal) returns (dst: Msg)
    requires Reads(src, v)
    ensures fresh(Body(dst)) && dst.question == [] && Reads(dst, v)
  {
    var copy := CloneMsg(src, v);
    dst := copy.(question := []);
    assert Body(dst) <= AllRecords(copy);
  }

  /** A reply built from a stored message: its identifier and response flag, and TTLs, replaced. */
  function Answered(v: MsgVal, id: nat, ttl: Uint32): MsgVal {
    Retimed(v.(header := v.header.(id := id, response := true)), ttl)
  }

  /** A retimed section holds the same records in the same order, all of them (but OPT, if it is kept) with the new
      TTL. */
  ghost predicate SameData(s: seq<RecordVal>, v: seq<RecordVal>, ttl: Uint32, keepOPT: bool) {
    && |s| == |v|
    && forall i :: 0 <= i < |s| ==>
         && s[i].rrType == v[i].rrType && s[i].rdata == v[i].rdata
         && s[i].ttl == if keepOPT && v[i].rrType == 41 then v[i].ttl else ttl
  }

  /** A reply says what was written, and it says it of this query. */
  lemma AnsweredKeeps(v: MsgVal, id: nat, ttl: Uint32)
    ensures
      var r := Answered(v, id, ttl);
      && r.header.id == id && r.header.response
      && r.header.rcode == v.header.rcode && r.header.truncated == v.header.truncated
      && r.header.flags == v.header.flags
      && SameData(r.answer, v.answer, ttl, false) && SameData(r.ns, v.ns, ttl, false)
      && SameData(r.extra, v.extra, ttl, true) && r.pseudo == v.pseudo
  {
  }

  method Synthesize(src: Msg, query: Msg, expiration: int, now: int, ghost v: MsgVal) returns (synth: Msg)
    requires Reads(src, v)
    ensures fresh(Body(synth))
    ensures synth.question == query.question
    ensures Reads(synth, Answered(v, query.header.id, RoundTTL(expiration - now)))
  {
    var copy := CloneMsg(src, v);
    var header := copy.header.(id := query.header.id, response := true);
    synth := copy.(header := header, question := query.question);
    assert Rewritten(synth) <= Body(synth) <= AllRecords(copy);
    UpdateTTL(synth, expiration, now, v.(header := header));
  }

  // ---------- the cache ----------

  type Key = string

  datatype Entry = Entry(expiration: int, msg: Msg)

  /** What was written under a key: the message as it was, when, and for how many seconds. */
  datatype Written = Written(msg: MsgVal, at: int, lifetime: Uint32)

  function Expiration(w: Written): int {
    w.at + w.lifetime * SECOND
  }

  predicate Cacheable(h: Header) {
    (h.rcode == RCODE_SUCCESS || h.rcode == RCODE_NAME_ERROR || h.rcode == RCODE_NOT_AUTH) && !h.truncated
  }

  lemma CacheableIff(h: Header)
    ensures Cacheable(h) <==> h.truncated == false && h.rcode in {0, 3, 9}
  {
  }

  /** What may be kept: a whole response that is a success, names nothing, or is not authoritative. */
  ghost predicate Keepable(w: Written) {
    w.msg.header.truncated == false && w.msg.header.rcode in {0, 3, 9}
  }

  /** Nothing, a hit, or an expired answer kept for the case that the upstream query fails. */
  datatype Reply = Miss | Found(stale: bool, msg: Msg)

  /** The TTL served: what remains of the lifetime, or thirty seconds on a stale answer. */
  function ServedTTL(w: Written, now: int, later: int, latest: int): Uint32 {
    if now > Expiration(w) then RoundTTL(later + STALE_TTL - latest) else RoundTTL(Expiration(w) - later)
  }

  /** The cache and, as ghosts, what was written to it and every record the rest of the proxy has ever held.
      Eviction by the cache library is a method of its own. */
  class Cache {
    var entries: map<Key, Entry>
    ghost var written: map<Key, Written>
    ghost var outside: set<Record>

    constructor ()
      ensures Valid() && entries == map[] && written == map[] && outside == {}
    {
      entries, written, outside := map[], map[], {};
    }

    function Stored(): set<Record>
      reads this
    {
      set k, r | k in entries && r in Body(entries[k].msg) :: r
    }

    /** Every entry still holds what was written, and no stored record is reachable from outside. */
    ghost predicate Valid()
      reads this, Stored()
    {
      && entries.Keys == written.Keys
      && Stored() !! outside
      && forall k :: k in entries ==>
           && entries[k].msg.question == []
           && Body(entries[k].msg) <= Stored()
           && Reads(entries[k].msg, written[k].msg)
           && entries[k].expiration == Expiration(written[k])
           && Keepable(written[k])
    }

    /** Records the rest of the proxy holds from now on. */
    ghost method Meet(records: set<Record>)
      requires Valid() && records !! Stored()
      modifies `outside
      ensures Valid() && outside == old(outside) + records
    {
      outside := outside + records;
    }

    /** The entry for a response: its expiration and a private copy. */
    method Prepare(src: Msg, limits: Limits, now: int, ghost v: MsgVal) returns (entry: Entry)
      requires Valid() && Reads(src, v)
      ensures Valid() && fresh(Body(entry.msg)) && Body(entry.msg) !! outside
      ensures entry.msg.question == [] && Reads(entry.msg, v)
      ensures entry.expiration == Expiration(Written(v, now, Lifetime(v, limits)))
    {
      var ttl := GetMinTTL(src, limits, v);
      var copy := CopyForStorage(src, v);
      entry := Entry(now + ttl, copy);
      forall k | k in entries ensures Reads(entries[k].msg, written[k].msg) {}
    }

    method Insert(key: Key, entry: Entry, ghost w: Written)
      requires Valid() && Body(entry.msg) !! outside
      requires entry.msg.question == [] && Reads(entry.msg, w.msg) && entry.expiration == Expiration(w)
      requires Keepable(w)
      modifies `entries, `written
      ensures Valid() && written == old(written)[key := w]
    {
      entries := entries[key := entry];
      written := written[key := w];
      forall k | k in entries ensures Body(entries[k].msg) <= Stored() {}
    }

    /** Rewriting TTLs of records held outside leaves the cache as it is. */
    method Retime(m: Msg, expiration: int, now: int, ghost until: int, ghost v: MsgVal)
      requires Valid() && Body(m) <= outside && until == expiration - now
      modifies Rewritten(m)
      ensures Valid() && TimedFor(m, until)
    {
      UpdateTTL(m, expiration, now, v);
      forall k | k in entries ensures Reads(entries[k].msg, written[k].msg) {
        assert Body(entries[k].msg) <= Stored();
      }
    }

    method Store(key: Key, msg: Msg, limits: Limits, now: int, ghost v: MsgVal) returns (expiration: int)
      requires Valid() && Reads(msg, v) && Cacheable(msg.header)
      modifies `entries, `written
      ensures Valid()
      ensures written == old(written)[key := Written(v, now, Lifetime(v, limits))]
      ensures expiration == Expiration(Written(v, now, Lifetime(v, limits)))
    {
      var entry := Prepare(msg, limits, now, v);
      Insert(key, entry, Written(v, now, Lifetime(v, limits)));
      return entry.expiration;
    }

    method StoreAndRetime(key: Key, msg: Msg, limits: Limits, now: int, later: int, ghost until: int, ghost v: MsgVal)
      requires Valid() && Body(msg) <= outside && Reads(msg, v) && Cacheable(msg.header)
      requires until == Expiration(Written(v, now, Lifetime(v, limits))) - later
      modifies `entries, `written, Rewritten(msg)
      ensures Valid()
      ensures written == old(written)[key := Written(v, now, Lifetime(v, limits))]
      ensures TimedFor(msg, until)
    {
      var expiration := Store(key, msg, limits, now, v);
      Retime(msg, expiration, later, until, v);
    }

    /** PluginCacheResponse.Eval: stores a private copy, then rewrites the TTLs of the response on its way to
        the client. */
    method Write(key: Key, msg: Msg, limits: Limits, now: int, later: int, ghost v: MsgVal)
      requires Valid() && Body(msg) <= outside && Reads(msg, v)
      modifies `entries, `written, Rewritten(msg)
      ensures Valid()
      ensures !Cacheable(msg.header) ==> unchanged(this) && unchanged(Rewritten(msg))
      ensures Cacheable(msg.header) ==> written == old(written)[key := Written(v, now, Lifetime(v, limits))]
      ensures Cacheable(msg.header) ==> TimedFor(msg, Expiration(Written(v, now, Lifetime(v, limits))) - later)
    {
      if !Cacheable(msg.header) { return; }
      StoreAndRetime(key, msg, limits, now, later, Expiration(Written(v, now, Lifetime(v, limits))) - later, v);
    }

    /** PluginCache.Eval: a hit or a stale reply is a fresh copy of what was written, with the identifier,
        the question and the TTLs of this exchange. */
    method Read(key: Key, query: Msg, now: int, later: int, latest: int) returns (reply: Reply)
      requires Valid()
      modifies `outside
      ensures Valid()
      ensures reply.Miss? <==> key !in written
      ensures reply.Miss? ==> outside == old(outside)
      ensures reply.Found? ==>
                && reply.stale == (now > Expiration(written[key]))
                && reply.msg.question == query.question && fresh(Body(reply.msg))
                && outside == old(outside) + Body(reply.msg)
      ensures reply.Found? ==> !reply.msg.header.truncated && reply.msg.header.rcode in {0, 3, 9}
      ensures reply.Found? ==>
                var ttl := ServedTTL(written[key], now, later, latest);
                Reads(reply.msg, Answered(written[key].msg, query.header.id, ttl))
    {
      if key !in entries { return Miss; }
      var cached := entries[key];
      var stale := now > cached.expiration;
      var expiration := if stale then later + STALE_TTL else cached.expiration;
      var at := if stale then latest else later;
      assert RoundTTL(expiration - at) == ServedTTL(written[key], now, later, latest);
      var synth := Synthesize(cached.msg, query, expiration, at, written[key].msg);
      ghost var answer := Answered(written[key].msg, query.header.id, ServedTTL(written[key], now, later, latest));
      assert Reads(synth, answer);
      Meet(Body(synth));
      assert Reads(synth, answer);
      return Found(stale, synth);
    }

    method Evict(key: Key)
      requires Valid()
      modifies `entries, `written
      ensures Valid()
      ensures written == old(written) - {key}
    {
      entries := entries - {key};
      written := written - {key};
    }

    /** Whatever the rest of the proxy does to records it holds, the cache keeps what was written. */
    method Tamper(r: Record, ttl: Uint32)
      requires Valid() && r in outside
      modifies r
      ensures Valid()
    {
      r.ttl := ttl;
    }
  }

  /** A stale answer, served at once, is given thirty seconds. */
  lemma StaleTTL(w: Written, now: int, later: int, latest: int)
    requires now > Expiration(w) && later <= latest < later + SECOND / 2
    ensures ServedTTL(w, now, later, latest) == 30
  {
  }

  /** A hit is served what is left of the lifetime it was written with, to the nearest second. */
  lemma FreshTTL(w: Written, now: int, later: int, latest: int)
    requires w.at <= now <= later
    requires now <= w.at + w.lifetime * 1_000_000_000
    ensures
      var ttl, left := ServedTTL(w, now, later, latest), w.at + w.lifetime * 1_000_000_000 - later;
      && ttl <= w.lifetime
      && (left >= 0 ==> -SECOND <= 2 * (ttl * SECOND - left) <= SECOND)
      && (left < 0 ==> ttl == 0)
  {
    RoundTTLTracks(w.lifetime, Expiration(w) - later, Expiration(w) - later);
  }

  /** Successive hits on one entry: TTLs never grow, stay within half a second of the remaining lifetime, and
      never exceed the lifetime it was written with. */
  lemma HitTTLs(w: Written, now: int, later: int)
    requires w.at <= now <= later
    ensures
      var first, second := RoundTTL(Expiration(w) - now), RoundTTL(Expiration(w) - later);
      && second <= first <= w.lifetime
      && (now <= Expiration(w) ==> -SECOND <= 2 * (first * SECOND - (Expiration(w) - now)) <= SECOND)
      && (now > Expiration(w) ==> first == 0)
  {
    RoundTTLTracks(w.lifetime, Expiration(w) - now, Expiration(w) - later);
  }
}
