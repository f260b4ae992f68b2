/**
 * The tiny UDP datagrams a client sends to the masterserver and to game servers
 * (src/application/masterserver/nat_puncher_commands.h). Each is written into a stack byte
 * buffer through a memory stream whose write position advances, and exactly the written
 * prefix is sent. The numeric values of the command enumerators and the byte layout of a
 * network address are defined in headers that are not part of this model, so they are
 * parameters here: a command byte and the address's raw bytes.
 */
module NatPuncher {
  import opened Ints
  import opened Wrappers

  /** A byte stream over a fixed buffer (`augs::ptr_memory_stream` over `augs::pointer_to_buffer`). */
  class MemoryStream {
    const buffer: array<uint8>
    var writePos: nat

    predicate Valid()
      reads this
    {
      writePos <= buffer.Length
    }

    /** The bytes written so far (`data()` up to `get_write_pos()`). */
    function Written(): seq<uint8>
      reads this, buffer
      requires Valid()
    {
      buffer[..writePos]
    }

    constructor (capacity: nat)
      ensures Valid() && fresh(buffer) && buffer.Length == capacity && writePos == 0
    {
      buffer := new uint8[capacity](_ => 0);
      writePos := 0;
    }

    /** `augs::write_bytes`: appends raw bytes at the write position. */
    method WriteBytes(bytes: seq<uint8>)
      requires Valid() && writePos + |bytes| <= buffer.Length
      modifies this, buffer
      ensures Valid() && writePos == old(writePos) + |bytes|
      ensures Written() == old(Written()) + bytes
    {
      var k := 0;
      while k < |bytes|
        invariant 0 <= k <= |bytes|
        invariant buffer[..old(writePos)] == old(buffer[..writePos])
        invariant forall j | 0 <= j < k :: buffer[old(writePos) + j] == bytes[j]
        modifies buffer
      {
        buffer[writePos + k] := bytes[k];
        k := k + 1;
      }
      writePos := writePos + |bytes|;
      assert Written() == old(Written()) + bytes;
    }
  }

  /** The in-memory bytes of a `uint64_t` on a little-endian host, lowest byte first. */
  function LittleEndian64(x: uint64): (r: seq<uint8>)
    ensures |r| == 8
  {
    LittleEndian(x, 8)
  }

  function LittleEndian(x: nat, width: nat): (r: seq<uint8>)
    ensures |r| == width
  {
    if width == 0 then [] else [x % 256] + LittleEndian(x / 256, width - 1)
  }

  function FromLittleEndian(bytes: seq<uint8>): nat {
    if bytes == [] then 0 else bytes[0] + 256 * FromLittleEndian(bytes[1..])
  }

  function Pow256(width: nat): nat {
    if width == 0 then 1 else 256 * Pow256(width - 1)
  }

  /** A value that fits the width reads back from its little-endian bytes. */
  lemma {:induction false} LittleEndianRoundTrip(x: nat, width: nat)
    requires x < Pow256(width)
    ensures FromLittleEndian(LittleEndian(x, width)) == x
  {
    if width > 0 {
      LittleEndianRoundTrip(x / 256, width - 1);
      assert LittleEndian(x, width)[1..] == LittleEndian(x / 256, width - 1);
    }
  }

  lemma Uint64Fits(x: uint64)
    ensures x < Pow256(8)
  {
    assert Pow256(8) == UINT64_LIMIT;
  }

  /** The sequence number carried by a ping datagram, as the receiving side reads it. */
  function PingSequence(datagram: seq<uint8>): Option<nat> {
    if |datagram| == 9 then Some(FromLittleEndian(datagram[1..])) else None
  }

  /** `tell_me_my_address`: a one-byte datagram holding the command. */
  method TellMeMyAddress(tellMeMyAddress: uint8) returns (sent: seq<uint8>)
    ensures sent == [tellMeMyAddress]
  {
    sent := [tellMeMyAddress];
  }

  /**
   * `ping_this_server`: the ping-request byte followed by the raw sequence number; the
   * datagram is the written prefix, nine bytes, and the receiver reads the sequence back.
   */
  method PingThisServer(pingRequestPacket: uint8, sequence: uint64) returns (sent: seq<uint8>)
    ensures |sent| == 1 + 8 && sent[0] == pingRequestPacket && sent[1..] == LittleEndian64(sequence)
    ensures PingSequence(sent) == Some(sequence)
  {
    var out := new MemoryStream(1 + 8);
    out.WriteBytes([pingRequestPacket]);
    out.WriteBytes(LittleEndian64(sequence));
    sent := out.Written();
    assert sent[1..] == LittleEndian64(sequence);
    Uint64Fits(sequence);
    LittleEndianRoundTrip(sequence, 8);
  }

  /** The punched server's address carried by a punch request, as the relay reads it. */
  function PunchedAddress(datagram: seq<uint8>, addressSize: nat): Option<seq<uint8>> {
    if |datagram| == 1 + addressSize then Some(datagram[1..]) else None
  }

  /**
   * `punch_this_server`: the one-byte command followed by the raw address, in a buffer of
   * exactly one plus the address size; the relay reads the same address back.
   */
  method PunchThisServer(punchThisServer: uint8, punchedServer: seq<uint8>) returns (sent: seq<uint8>)
    ensures |sent| == 1 + |punchedServer| && sent[0] == punchThisServer
    ensures PunchedAddress(sent, |punchedServer|) == Some(punchedServer)
  {
    var out := new MemoryStream(1 + |punchedServer|);
    out.WriteBytes([punchThisServer]);
    out.WriteBytes(punchedServer);
    sent := out.Written();
    assert sent[1..] == punchedServer;
  }
}
