/** Length-prefixed packets over a stream (common.go; section 4.2.2 of RFC 1035). */
module Framing {
  import opened Wire
  import opened Wrappers

  const MIN_PACKET: nat := 17
  const MAX_PACKET: nat := 4096

  datatype Error = PacketTooLarge | PacketTooShort | ReadFailed

  // ---------- writing ----------

  function Prefixed(packet: Bytes): Bytes
    requires |packet| <= 0xffff
  {
    Encoded16(|packet|) + packet
  }

  /** A copy from index 0 to index 2 of the same buffer: every byte moves before it is overwritten. */
  method ShiftByTwo(a: array<Byte>)
    requires a.Length >= 2
    modifies a
    ensures a[2..] == old(a[..a.Length - 2])
  {
    var i := a.Length;
    while i > 2
      invariant 2 <= i <= a.Length
      invariant a[..i] == old(a[..i])
      invariant a[i..] == old(a[i - 2..a.Length - 2])
    {
      i := i - 1;
      a[i] := a[i - 2];
    }
  }

  method PrefixWithSize(packet: Bytes) returns (r: Result<Bytes, Error>)
    ensures r == if |packet| > 0xffff then Err(PacketTooLarge) else Ok(Prefixed(packet))
  {
    if |packet| > 0xffff { return Err(PacketTooLarge); }
    var extended := packet + [0] + [0];
    var a := new Byte[|extended|](i requires 0 <= i < |extended| => extended[i]);
    assert a[..] == extended;
    ShiftByTwo(a);
    var size := a.Length - 2;
    a[0], a[1] := size / 256, size % 256;
    assert a[..] == [a[0], a[1]] + a[2..] && a[2..] == packet;
    return Ok(a[..]);
  }

  // ---------- reading ----------

  /** What one read has to deliver; it may report an error along with its bytes. */
  datatype Piece = Piece(bytes: Bytes, failed: bool)

  /** The bytes that arrive without an error. */
  function Flat(pieces: seq<Piece>): Bytes {
    if pieces == [] || pieces[0].failed then [] else pieces[0].bytes + Flat(pieces[1..])
  }

  /** The frame at the head of a stream, however it is cut into reads. */
  function Frame(stream: Bytes): Result<Bytes, Error> {
    if |stream| < 2 then Err(ReadFailed)
    else
      var length := Uint16(stream[0], stream[1]);
      if length > MAX_PACKET - 1 then Err(PacketTooLarge)
      else if length < MIN_PACKET then Err(PacketTooShort)
      else if |stream| < 2 + length then Err(ReadFailed)
      else Ok(stream[2..2 + length])
  }

  /** A connection that still has these pieces to deliver, and then fails. */
  class Conn {
    var incoming: seq<Piece>

    /** Delivers one piece, or as much of it as there is room for. */
    method Read(buf: array<Byte>, pos: nat) returns (n: nat, failed: bool)
      requires pos < buf.Length
      modifies this, buf
      ensures pos + n <= buf.Length && buf[..pos] == old(buf[..pos])
      ensures failed <==> old(incoming) == [] || old(incoming)[0].failed
      ensures !failed ==>
                && n <= |old(Flat(incoming))|
                && buf[pos..pos + n] == old(Flat(incoming))[..n]
                && Flat(incoming) == old(Flat(incoming))[n..]
                && |Flat(incoming)| + |incoming| < old(|Flat(incoming)| + |incoming|)
    {
      if incoming == [] { return 0, true; }
      var piece, room := incoming[0].bytes, buf.Length - pos;
      n, failed := if |piece| <= room then |piece| else room, incoming[0].failed;
      forall i | 0 <= i < n { buf[pos + i] := piece[i]; }
      assert buf[pos..pos + n] == piece[..n];
      assert !failed ==> Flat(incoming) == piece[..n] + (piece[n..] + Flat(incoming[1..]));
      ghost var rest := incoming[1..];
      if n < |piece| {
        incoming := incoming[0 := Piece(piece[n..], failed)];
        assert incoming[1..] == rest;
      } else {
        incoming := incoming[1..];
      }
    }
  }

  /** The first bytes decide the outcome as soon as there are enough of them. */
  lemma HeadDecides(stream: Bytes, head: Bytes)
    requires 2 <= |head| && head <= stream
    ensures
      var length := Uint16(head[0], head[1]);
      && (length > MAX_PACKET - 1 ==> Frame(stream) == Err(PacketTooLarge))
      && (length < MIN_PACKET ==> Frame(stream) == Err(PacketTooShort))
      && (MIN_PACKET <= length < MAX_PACKET ==>
            if 2 + length <= |head| then Frame(stream) == Ok(head[2..2 + length])
            else |head| == |stream| ==> Frame(stream) == Err(ReadFailed))
  {
    var length := Uint16(head[0], head[1]);
    if 2 + length <= |head| { assert head[2..2 + length] == stream[2..2 + length]; }
  }

  lemma SliceOfFilled(buf: array<Byte>, pos: nat, n: nat)
    requires 2 + n <= pos <= buf.Length
    ensures buf[..pos][2..2 + n] == buf[2..2 + n]
  {
  }

  /** One more read: the buffer still holds the head of the stream. */
  method Fill(conn: Conn, buf: array<Byte>, pos: nat, ghost stream: Bytes) returns (r: Result<nat, Error>)
    requires pos < buf.Length && pos <= |stream| && buf[..pos] <= stream && Flat(conn.incoming) == stream[pos..]
    modifies conn, buf
    ensures r.Err? ==> r.error == ReadFailed && pos == |stream|
    ensures r.Ok? ==>
              && pos <= r.value <= buf.Length && r.value <= |stream|
              && buf[..r.value] <= stream && Flat(conn.incoming) == stream[r.value..]
              && |Flat(conn.incoming)| + |conn.incoming| < old(|Flat(conn.incoming)| + |conn.incoming|)
              && buf[..pos] == old(buf[..pos])
  {
    var readnb, failed := conn.Read(buf, pos);
    if failed { return Err(ReadFailed); }
    assert stream[..pos + readnb] == stream[..pos] + stream[pos..][..readnb];
    assert buf[..pos + readnb] == buf[..pos] + buf[pos..pos + readnb];
    return Ok(pos + readnb);
  }

  /** ReadPrefixed: the outcome depends on the bytes that arrive alone, and no read has an empty buffer. */
  method ReadPrefixed(conn: Conn) returns (r: Result<Bytes, Error>)
    modifies conn
    ensures r == Frame(old(Flat(conn.incoming)))
  {
    ghost var stream := Flat(conn.incoming);
    var buf := new Byte[2 + MAX_PACKET](_ => 0);
    var packetLength, pos := -1, 0;
    while true
      invariant 0 <= pos < buf.Length && pos <= |stream|
      invariant buf[..pos] <= stream && Flat(conn.incoming) == stream[pos..]
      invariant packetLength < 0 ==> pos < 2
      invariant packetLength >= 0 ==> 2 <= pos < 2 + packetLength && packetLength == Uint16(buf[0], buf[1])
      invariant packetLength >= 0 ==> MIN_PACKET <= packetLength < MAX_PACKET
      decreases |Flat(conn.incoming)| + |conn.incoming|
    {
      if pos >= 2 { HeadDecides(stream, buf[..pos]); }
      ghost var head := buf[..pos];
      var filled := Fill(conn, buf, pos, stream);
      if filled.Err? { return Err(filled.error); }
      assert pos >= 2 ==> buf[0] == head[0] && buf[1] == head[1];
      pos := filled.value;
      if pos >= 2 { HeadDecides(stream, buf[..pos]); }
      if pos >= 2 && packetLength < 0 {
        packetLength := Uint16(buf[0], buf[1]);
        if packetLength > MAX_PACKET - 1 { return Err(PacketTooLarge); }
        if packetLength < MIN_PACKET { return Err(PacketTooShort); }
      }
      if packetLength >= 0 && pos >= 2 + packetLength {
        SliceOfFilled(buf, pos, packetLength);
        return Ok(buf[2..2 + packetLength]);
      }
    }
  }

  /** What is read back is what was framed: exactly the packets of 17 to 4095 bytes survive, whatever follows. */
  lemma FrameUndoesPrefix(packet: Bytes, stream: Bytes)
    ensures Frame(stream) == Ok(packet) <==>
            MIN_PACKET <= |packet| < MAX_PACKET && Prefixed(packet) <= stream
  {
    if MIN_PACKET <= |packet| < MAX_PACKET && Prefixed(packet) <= stream {
      var trailing := stream[2 + |packet|..];
      assert stream == Prefixed(packet) + trailing;
      assert stream[2..2 + |packet|] == packet;
    }
    if Frame(stream) == Ok(packet) {
      assert stream[..2 + |packet|] == Prefixed(packet);
    }
  }

  /** A packet of a size the reader refuses is never taken for another one. */
  lemma RefusedSizes(packet: Bytes, trailing: Bytes)
    requires |packet| <= 0xffff
    ensures |packet| < MIN_PACKET ==> Frame(Prefixed(packet) + trailing) == Err(PacketTooShort)
    ensures |packet| >= MAX_PACKET ==> Frame(Prefixed(packet) + trailing) == Err(PacketTooLarge)
  {
  }
}
