/** Padding and query sizes (crypto.go, pq.go, estimators.go).  Sealing is a parameter that adds a tag. */
module QuerySizing {
  import opened MovingAverages
  import opened Wire
  import opened Wrappers
  import PqSessions

  const DELIMITER: Byte := 0x80
  const TAG_SIZE: nat := 16
  const HALF_NONCE_SIZE: nat := 12
  const QUERY_OVERHEAD: nat := 8 + 32 + HALF_NONCE_SIZE + TAG_SIZE
  const CIPHERTEXT_SIZE: nat := 1120
  const RESUMED_FLOOR: nat := PqSessions.PQ_RESUMED_PADDING_FLOOR
  const MAX_PACKET: nat := 4096
  const MAX_UDP: nat := PqSessions.MAX_UDP
  const MAX_SAFE_UDP: nat := 1252
  const INITIAL_SIZE: nat := 512

  datatype Error = ShortPacket | NoDelimiter | QuestionTooLarge

  function Min(a: int, b: int): int { if a < b then a else b }

  function Max(a: int, b: int): int { if a > b then a else b }

  // ---------- padding (ISO/IEC 7816-4) ----------

  function Zeros(n: nat): Bytes {
    seq(n, _ => 0)
  }

  /** The packet, the delimiter, and zeros up to the size asked for. */
  function Padded(packet: Bytes, size: int): (r: Bytes)
    ensures |r| == Max(|packet| + 1, size)
  {
    packet + [DELIMITER] + Zeros(Max(0, size - |packet| - 1))
  }

  method Pad(packet: Bytes, minSize: int) returns (padded: Bytes)
    ensures padded == Padded(packet, minSize)
  {
    padded := packet + [DELIMITER];
    ghost var n := 0;
    while |padded| < minSize
      invariant n <= Max(0, minSize - |packet| - 1)
      invariant padded == packet + [DELIMITER] + Zeros(n)
      decreases minSize - |padded|
    {
      padded := padded + [0];
      n := n + 1;
    }
  }

  /** Clears the low six bits; two's complement rounds down, negatives included. */
  function Mask64(n: int): (r: int)
    ensures r % 64 == 0 && n - 64 < r <= n
  {
    n - n % 64
  }

  function RoundUp64(n: int): int {
    Mask64(n + 63)
  }

  lemma RoundUpWithin(n: int, blocks: int)
    requires n <= 64 * blocks
    ensures RoundUp64(n) <= 64 * blocks
  {
  }

  method PqPad(packet: Bytes, floor: int) returns (padded: array<Byte>)
    ensures padded[..] == Padded(packet, Max(RoundUp64(|packet| + 1), floor))
  {
    var target := RoundUp64(|packet| + 1);
    if target < floor { target := floor; }
    padded := new Byte[target](_ => 0);
    forall i | 0 <= i < |packet| { padded[i] := packet[i]; }
    padded[|packet|] := DELIMITER;
  }

  function Unpadded(s: Bytes): Result<Bytes, Error> {
    if s == [] then Err(ShortPacket)
    else
      var init, last := s[..|s| - 1], s[|s| - 1];
      if last == DELIMITER then Ok(init) else if last != 0 then Err(NoDelimiter) else Unpadded(init)
  }

  method Unpad(packet: Bytes) returns (r: Result<Bytes, Error>)
    ensures r == Unpadded(packet)
  {
    var i := |packet|;
    assert packet[..i] == packet;
    while true
      invariant 0 <= i <= |packet|
      invariant Unpadded(packet) == Unpadded(packet[..i])
      decreases i
    {
      if i == 0 { return Err(ShortPacket); }
      assert packet[..i][..i - 1] == packet[..i - 1];
      i := i - 1;
      if packet[i] == DELIMITER { return Ok(packet[..i]); }
      if packet[i] != 0 { return Err(NoDelimiter); }
    }
  }

  lemma {:induction false} UnpadZeros(s: Bytes, n: nat)
    ensures Unpadded(s + Zeros(n)) == Unpadded(s)
  {
    if n == 0 {
      assert s + Zeros(0) == s;
    } else {
      assert (s + Zeros(n))[..|s| + n - 1] == s + Zeros(n - 1);
      UnpadZeros(s, n - 1);
    }
  }

  /** Padding of any size is undone. */
  lemma UnpadUndoesPad(packet: Bytes, size: int)
    ensures Unpadded(Padded(packet, size)) == Ok(packet)
  {
    UnpadZeros(packet + [DELIMITER], Max(0, size - |packet| - 1));
    assert (packet + [DELIMITER])[..|packet|] == packet;
  }

  /** Nothing but a padded packet is accepted, and it is accepted as that packet. */
  lemma {:induction false} UnpadAcceptsOnlyPadding(s: Bytes, packet: Bytes)
    ensures Unpadded(s) == Ok(packet) <==> (|packet| < |s| && s == Padded(packet, |s|))
  {
    if |packet| < |s| && s == Padded(packet, |s|) {
      UnpadUndoesPad(packet, |s|);
    }
    if Unpadded(s) == Ok(packet) {
      var init, last := s[..|s| - 1], s[|s| - 1];
      assert s == init + [last];
      if last == DELIMITER {
        assert Padded(packet, |s|) == s;
      } else {
        UnpadAcceptsOnlyPadding(init, packet);
        assert init == Padded(packet, |init|);
      }
    }
  }

  /** The two errors, for any string split at its trailing zeros. */
  lemma {:induction false} UnpadRejects(t: Bytes, n: nat)
    requires t == [] || t[|t| - 1] != 0
    ensures Unpadded(t + Zeros(n)) == Err(ShortPacket) <==> t == []
    ensures Unpadded(t + Zeros(n)) == Err(NoDelimiter) <==> t != [] && t[|t| - 1] != DELIMITER
  {
    UnpadZeros(t, n);
  }

  // ---------- classic queries ----------

  datatype Proto = Udp | Tcp

  /** What the server's known bugs and the route ask for. */
  datatype Route = Route(proto: Proto, fragmentsBlocked: bool, relayed: bool)

  function UdpLimit(fragmentsBlocked: bool): nat {
    if fragmentsBlocked then MAX_SAFE_UDP else MAX_UDP
  }

  /** The size of the whole query; over TCP a random byte is added to it. */
  function PaddedLength(len: nat, route: Route, estimate: nat, random: Byte): int {
    var size := if route.proto.Udp? then Max(estimate, QUERY_OVERHEAD + len) else QUERY_OVERHEAD + len + random;
    if route.fragmentsBlocked && route.proto.Udp? then MAX_SAFE_UDP
    else if route.relayed && route.proto.Tcp? then MAX_PACKET
    else Min(MAX_UDP, RoundUp64(Max(size, QUERY_OVERHEAD) + 1))
  }

  method ChooseLength(len: nat, route: Route, estimate: nat, random: Byte) returns (paddedLength: int)
    ensures paddedLength == PaddedLength(len, route, estimate, random)
  {
    var size := QUERY_OVERHEAD + len;
    if route.proto.Udp? {
      size := Max(estimate, size);
    } else {
      size := size + random;
    }
    paddedLength := Min(MAX_UDP, RoundUp64(Max(size, QUERY_OVERHEAD) + 1));
    if route.fragmentsBlocked && route.proto.Udp? {
      paddedLength := MAX_SAFE_UDP;
    } else if route.relayed && route.proto.Tcp? {
      paddedLength := MAX_PACKET;
    }
  }

  lemma PaddedLengthBounded(len: nat, route: Route, estimate: nat, random: Byte)
    ensures PaddedLength(len, route, estimate, random) <= MAX_PACKET
  {
  }

  /** The classic branch of Encrypt, after the keys are read. */
  method EncryptClassic(magic: Bytes, publicKey: Bytes, nonce: Bytes, packet: Bytes, route: Route, estimate: nat,
                        random: Byte, seal: Bytes -> Bytes) returns (r: Result<Bytes, Error>)
    requires |magic| == 8 && |publicKey| == 32 && |nonce| == HALF_NONCE_SIZE
    requires forall p :: |seal(p)| == |p| + TAG_SIZE
    ensures r.Ok? <==> QUERY_OVERHEAD + |packet| + 1 <= PaddedLength(|packet|, route, estimate, random)
    ensures r.Ok? ==>
              && |r.value| == PaddedLength(|packet|, route, estimate, random) <= MAX_PACKET
              && exists body :: r.value == magic + publicKey + nonce + seal(body) && Unpadded(body) == Ok(packet)
    ensures r.Err? ==> r.error == QuestionTooLarge
  {
    var paddedLength := ChooseLength(|packet|, route, estimate, random);
    if QUERY_OVERHEAD + |packet| + 1 > paddedLength { return Err(QuestionTooLarge); }
    PaddedLengthBounded(|packet|, route, estimate, random);
    var padded := Pad(packet, paddedLength - QUERY_OVERHEAD);
    UnpadUndoesPad(packet, paddedLength - QUERY_OVERHEAD);
    return Ok(magic + publicKey + nonce + seal(padded));
  }

  /** Padding never costs a question its place: only the packet limit does.  Over UDP the query is at least as
      long as the size target, unless fragments are blocked. */
  lemma ClassicFits(len: nat, route: Route, estimate: nat, random: Byte)
    ensures
      var limit := if route.proto.Udp? then UdpLimit(route.fragmentsBlocked) else MAX_PACKET;
      QUERY_OVERHEAD + len + 1 <= PaddedLength(len, route, estimate, random) <==> QUERY_OVERHEAD + len + 1 <= limit
    ensures route.proto.Udp? && !route.fragmentsBlocked ==>
              PaddedLength(len, route, estimate, random) >= Min(MAX_UDP, estimate)
  {
  }

  /** How long a query is: over TCP, through a relay always 4096 bytes, otherwise the question, its overhead and a
      random byte's worth, rounded up to 64 and cut off at 4096; over UDP, always 1252 bytes if fragments are
      blocked, otherwise the question or the target, rounded in the same way. */
  lemma ClassicLength(len: nat, route: Route, estimate: nat, random: Byte)
    ensures
      var length := PaddedLength(len, route, estimate, random);
      var least := if route.proto.Tcp? then 68 + len + random else Max(estimate, 68 + len);
      if route.proto.Tcp? && route.relayed then length == 4096
      else if route.proto.Udp? && route.fragmentsBlocked then length == 1252
      else
        && length % 64 == 0 && length <= least + 64
        && (least < 4096 ==> least < length) && (least >= 4096 ==> length == 4096)
  {
  }

  // ---------- post-quantum queries ----------

  /** pqResumedPaddingFloor */
  function ResumedFloor(ticketLen: nat, proto: Proto, fragmentsBlocked: bool, estimate: nat): (r: int)
    ensures r >= RESUMED_FLOOR
  {
    if proto.Tcp? then RESUMED_FLOOR
    else
      var overhead := PqSessions.ResumedOverhead(ticketLen);
      Max(RESUMED_FLOOR, Min(RoundUp64(estimate - overhead), Mask64(UdpLimit(fragmentsBlocked) - overhead)))
  }

  function CiphertextOverhead(): nat {
    8 + CIPHERTEXT_SIZE + HALF_NONCE_SIZE + TAG_SIZE
  }

  /** The length of a query whose padded question is sealed behind this much. */
  function PqLength(overhead: nat, len: nat, floor: int): int {
    overhead + Max(RoundUp64(len + 1), floor)
  }

  /** The header of a query: a resumption ticket, or a ciphertext. */
  datatype Header = Resume(ticket: Bytes) | Carry(magic: Bytes, ciphertext: Bytes)

  predicate ValidHeader(h: Header) {
    match h
    case Resume(ticket) => PqSessions.Storable(ticket)
    case Carry(magic, ciphertext) => |magic| == 8 && |ciphertext| == CIPHERTEXT_SIZE
  }

  function Overhead(h: Header): nat {
    match h
    case Resume(ticket) => PqSessions.ResumedOverhead(|ticket|)
    case Carry(_, _) => CiphertextOverhead()
  }

  function Floor(h: Header, proto: Proto, fragmentsBlocked: bool, estimate: nat): int {
    match h
    case Resume(ticket) => ResumedFloor(|ticket|, proto, fragmentsBlocked, estimate)
    case Carry(_, _) => 64
  }

  const RESUME_MAGIC: Bytes := [0x50, 0x51, 0x52, 0x65, 0x73, 0x75, 0x6d, 0x65]

  function Serialized(h: Header): Bytes {
    match h
    case Resume(ticket) => RESUME_MAGIC + Encoded16(|ticket| % 0x1_0000) + ticket
    case Carry(magic, ciphertext) => magic + ciphertext
  }

  /** encryptPQ's assembly of the query and the size check on its result. */
  method EncryptPQ(header: Header, nonce: Bytes, packet: Bytes, proto: Proto, fragmentsBlocked: bool, estimate: nat,
                   seal: Bytes -> Bytes) returns (r: Result<Bytes, Error>)
    requires ValidHeader(header) && |nonce| == HALF_NONCE_SIZE
    requires forall p :: |seal(p)| == |p| + TAG_SIZE
    ensures
      var length := PqLength(Overhead(header), |packet|, Floor(header, proto, fragmentsBlocked, estimate));
      && (r.Ok? <==> (proto.Udp? ==> length <= UdpLimit(fragmentsBlocked)))
      && (r.Ok? ==> |r.value| == length)
    ensures r.Ok? ==>
              exists body :: r.value == Serialized(header) + nonce + seal(body) && Unpadded(body) == Ok(packet)
    ensures r.Err? ==> r.error == QuestionTooLarge
  {
    var floor := Floor(header, proto, fragmentsBlocked, estimate);
    var padded := PqPad(packet, floor);
    UnpadUndoesPad(packet, Max(RoundUp64(|packet| + 1), floor));
    var out := Serialized(header) + nonce + seal(padded[..]);
    if proto.Udp? && |out| > UdpLimit(fragmentsBlocked) { return Err(QuestionTooLarge); }
    return Ok(out);
  }

  /** The size target never pushes a resumed query over the limit: it fits if and only if its question, padded
      to the smallest floor, does.  When it fits it reaches the target, or comes within 63 bytes of the limit. */
  lemma ResumedFits(ticketLen: nat, len: nat, fragmentsBlocked: bool, estimate: nat)
    ensures
      var overhead, limit := PqSessions.ResumedOverhead(ticketLen), UdpLimit(fragmentsBlocked);
      var length := PqLength(overhead, len, ResumedFloor(ticketLen, Udp, fragmentsBlocked, estimate));
      && (length <= limit <==> overhead + Max(RoundUp64(len + 1), RESUMED_FLOOR) <= limit)
      && length >= Min(estimate, limit - 63)
  {
  }

  /** Nor does it make a query longer than the target rounded up, or than the question needs. */
  lemma ResumedLength(ticketLen: nat, len: nat, fragmentsBlocked: bool, estimate: nat)
    ensures
      var overhead := PqSessions.ResumedOverhead(ticketLen);
      PqLength(overhead, len, ResumedFloor(ticketLen, Udp, fragmentsBlocked, estimate))
      <= Max(overhead + Max(RoundUp64(len + 1), RESUMED_FLOOR), estimate + 63)
    ensures ResumedFloor(ticketLen, Tcp, fragmentsBlocked, estimate) == RESUMED_FLOOR
  {
  }

  /** A query that carries its ciphertext is as long as its question needs, whatever the target. */
  lemma CarriedLength(magic: Bytes, ciphertext: Bytes, len: nat, proto: Proto, fragmentsBlocked: bool, estimate: nat)
    ensures
      var h := Carry(magic, ciphertext);
      var length := PqLength(Overhead(h), len, Floor(h, proto, fragmentsBlocked, estimate));
      (length - 1156) % 64 == 0 && 1156 + len + 1 <= length <= 1156 + len + 64
  {
  }

  /** With fragments allowed, every ticket the client stores resumes every question of up to 255 bytes. */
  lemma StoredTicketResumes(ticket: Bytes, len: nat, estimate: nat)
    requires PqSessions.Storable(ticket) && len <= 255
    ensures
      var length := PqLength(PqSessions.ResumedOverhead(|ticket|), len, ResumedFloor(|ticket|, Udp, false, estimate));
      Min(estimate, MAX_UDP - 63) <= length <= MAX_UDP
  {
    RoundUpWithin(len + 1, 4);
    ResumedFits(|ticket|, len, false, estimate);
  }

  /** And it stores every ticket that resumes any question at all. */
  lemma StorableIff(ticket: Bytes, estimate: nat)
    ensures PqSessions.Storable(ticket) <==>
            exists len: nat ::
              PqLength(PqSessions.ResumedOverhead(|ticket|), len, ResumedFloor(|ticket|, Udp, false, estimate)) <= 4096
  {
    forall len: nat { ResumedFits(|ticket|, len, false, estimate); }
    var overhead, floor := PqSessions.ResumedOverhead(|ticket|), ResumedFloor(|ticket|, Udp, false, estimate);
    if PqSessions.Storable(ticket) { assert PqLength(overhead, 0, floor) <= MAX_UDP; }
  }

  /** With fragments blocked, a stored ticket over 958 bytes resumes no question at all over UDP. */
  lemma LongTicketBlocksUdp(ticketLen: nat, estimate: nat)
    ensures
      var overhead, floor := PqSessions.ResumedOverhead(ticketLen), ResumedFloor(ticketLen, Udp, true, estimate);
      (exists len: nat :: PqLength(overhead, len, floor) <= MAX_SAFE_UDP) <==> ticketLen <= 958
  {
    var overhead, floor := PqSessions.ResumedOverhead(ticketLen), ResumedFloor(ticketLen, Udp, true, estimate);
    forall len: nat {
      ResumedFits(ticketLen, len, true, estimate);
    }
    if ticketLen <= 958 { assert PqLength(overhead, 0, floor) <= MAX_SAFE_UDP; }
  }

  /** The longest questions a query that carries its ciphertext has room for over UDP. */
  lemma CarriedFits(len: nat, fragmentsBlocked: bool)
    ensures PqLength(CiphertextOverhead(), len, 64) <= UdpLimit(fragmentsBlocked) <==>
            len <= if fragmentsBlocked then 63 else 2879
  {
  }

  // ---------- the size estimator ----------

  const DECAY: real := 2.0 / 31.0

  function Mixed(average: real, sample: real): real {
    sample * DECAY + average * (1.0 - DECAY)
  }

  /** The average after these samples, starting from the first. */
  function MixedAll(start: real, samples: seq<real>): real {
    if samples == [] then start else Mixed(MixedAll(start, samples[..|samples| - 1]), samples[|samples| - 1])
  }

  /** In closed form: every further sample enters with two parts in thirty-one. */
  lemma {:induction false} MixedFades(start: real, samples: seq<real>)
    ensures MixedAll(start, samples) == FadedFrom(2.0 / 31.0, start, samples)
  {
    if samples != [] {
      var init, last := samples[..|samples| - 1], samples[|samples| - 1];
      MixedFades(start, init);
      FadedFromAppend(2.0 / 31.0, start, init, last);
      assert samples == init + [last];
    }
  }

  predicate IsTarget(size: int) {
    size == 512 || size == 1024 || size == 2048 || size == 4096
  }

  /** QuestionSizeEstimator; the average is zero until the first sample. */
  class QuestionSizeEstimator {
    var minQuestionSize: int
    var average: real

    ghost predicate Valid()
      reads this
    {
      IsTarget(minQuestionSize) && average >= 0.0
    }

    constructor ()
      ensures Valid() && minQuestionSize == INITIAL_SIZE
    {
      minQuestionSize, average := INITIAL_SIZE, 0.0;
    }

    /** A truncated response: the next larger target, if there is one. */
    method BlindAdjust()
      requires Valid()
      modifies this
      ensures Valid()
      ensures minQuestionSize == Min(MAX_UDP, 2 * old(minQuestionSize))
      ensures average == minQuestionSize as real
    {
      if MAX_UDP - minQuestionSize < minQuestionSize {
        minQuestionSize := MAX_UDP;
      } else {
        minQuestionSize := minQuestionSize * 2;
      }
      average := minQuestionSize as real;
    }

    /** A response: the target shrinks by one step at most, and stays above the average response. */
    method Adjust(packetSize: nat)
      requires Valid()
      modifies this
      ensures Valid()
      ensures average == if old(average) == 0.0 then packetSize as real else Mixed(old(average), packetSize as real)
      ensures minQuestionSize == old(minQuestionSize) ||
              (minQuestionSize == old(minQuestionSize) / 2 && INITIAL_SIZE < average.Floor < minQuestionSize)
      ensures INITIAL_SIZE < average.Floor < old(minQuestionSize) / 2 ==> minQuestionSize < old(minQuestionSize)
    {
      if average == 0.0 {
        average := packetSize as real;
      } else {
        average := Mixed(average, packetSize as real);
      }
      var rounded := average.Floor;
      if rounded > INITIAL_SIZE && rounded < minQuestionSize / 2 {
        minQuestionSize := Max(INITIAL_SIZE, minQuestionSize / 2);
      }
    }
  }
}
