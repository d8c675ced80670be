/** Reading a byte stream through partial transfers, into a plain buffer or into the
    chunked buffer by way of scatter slices. */
module Streams {
  import opened Basics
  import opened Buffers
  import TypedBuffer

  /** The peer's bytes still to come and what the kernel will answer to each receive:
      a positive number caps the transfer, anything else is returned as it is. */
  class Socket {
    var connected: bool
    var incoming: seq<byte>
    var replies: seq<int>

    /** One receive for at most `cap` bytes: any prefix, end of stream, or an error. */
    method Receive(cap: nat) returns (rt: int, data: seq<byte>)
      modifies this`incoming, this`replies
      ensures rt <= cap && |data| == Max(rt, 0) && old(incoming) == data + incoming
    {
      if |replies| == 0 {
        return 0, [];
      }
      rt := replies[0];
      replies := replies[1..];
      data := [];
      if rt > 0 {
        rt := Min(rt, Min(cap, |incoming|));
        data := incoming[..rt];
        incoming := incoming[rt..];
      }
    }
  }

  class SocketStream {
    const socket: Socket

    constructor (s: Socket)
      ensures socket == s
    {
      socket := s;
    }

    /** Receives straight into a plain buffer. */
    method Read(buffer: array<byte>, offset: nat, length: nat) returns (rt: int, ghost data: seq<byte>)
      requires offset + length <= buffer.Length
      modifies socket`incoming, socket`replies, buffer
      ensures rt <= length && |data| == Max(rt, 0) && old(socket.incoming) == data + socket.incoming
      ensures buffer[..] == Splice(old(buffer[..]), offset, data)
    {
      if !socket.connected {
        return -1, [];
      }
      var got;
      rt, got := socket.Receive(length);
      Memcpy(buffer, offset, got);
      data := got;
    }

    /** Receives through the write slices of a chunked buffer and then moves its head:
        the effect is that of writing the received bytes. */
    method ReadInto(ba: ByteArray, length: nat) returns (rt: int, ghost data: seq<byte>)
      requires ba.Valid() && socket !in ba.store
      modifies socket`incoming, socket`replies, ba, ba.store
      ensures rt <= length && |data| == Max(rt, 0) && old(socket.incoming) == data + socket.incoming
      ensures ba.Valid() && fresh(ba.store - old(ba.store))
      ensures ba.Data() == Overwrite(old(ba.Data()), old(ba.position), data) && ba.position == old(ba.position) + |data|
    {
      if !socket.connected {
        return -1, [];
      }
      ghost var before := ba.Contents();
      var iovs := ba.GetWriteBuffers(length);
      var got;
      rt, got := socket.Receive(length);
      data := got;
      Fill(ba, iovs, length, got, before);
    }

    /** Fills a plain buffer; the answer is `length` exactly when all of it was received, in order. */
    method ReadFixSize(buffer: array<byte>, length: nat) returns (rt: int, ghost taken: nat)
      requires length <= buffer.Length
      modifies socket`incoming, socket`replies, buffer
      ensures taken <= length && taken <= |old(socket.incoming)|
      ensures rt == length <==> taken == length
      ensures rt == length || rt <= 0
      ensures buffer[..] == Splice(old(buffer[..]), 0, old(socket.incoming)[..taken])
      ensures socket.incoming == old(socket.incoming)[taken..]
    {
      var offset, left := 0, length;
      ghost var b0, stream := buffer[..], socket.incoming;
      while left > 0
        invariant 0 <= offset && left == length - offset && 0 <= left && offset <= |stream|
        invariant buffer[..] == Splice(b0, 0, stream[..offset])
        invariant socket.incoming == stream[offset..]
      {
        ghost var data;
        rt, data := Read(buffer, offset, left);
        NextPart(stream, offset, data, socket.incoming);
        if rt <= 0 {
          assert data == [];
          return rt, offset;
        }
        SpliceExtend(b0, 0, stream[..offset + rt], offset, rt);
        assert stream[..offset + rt][..offset] == stream[..offset];
        assert stream[..offset + rt][offset..offset + rt] == data;
        assert stream[..offset + rt][..offset + rt] == stream[..offset + rt];
        offset := offset + rt;
        left := left - rt;
      }
      return length, offset;
    }

    /** One round of filling a chunked buffer that holds the first `taken` bytes of the stream from `p0` on. */
    method ReadMore(ba: ByteArray, left: nat, ghost taken: nat, ghost d0: seq<byte>, ghost p0: nat,
                    ghost stream: seq<byte>)
      returns (rt: int)
      requires ba.Valid() && socket !in ba.store && p0 <= |d0| && taken <= |stream|
      requires ba.position == p0 + taken && ba.Data() == Overwrite(d0, p0, stream[..taken])
      requires socket.incoming == stream[taken..]
      modifies socket`incoming, socket`replies, ba, ba.store
      ensures ba.Valid() && fresh(ba.store - old(ba.store)) && rt <= left
      ensures var got := taken + Max(rt, 0);
              && got <= |stream| && socket.incoming == stream[got..]
              && ba.position == p0 + got && ba.Data() == Overwrite(d0, p0, stream[..got])
    {
      ghost var data;
      rt, data := ReadInto(ba, left);
      NextPart(stream, taken, data, socket.incoming);
      TypedBuffer.OverwriteTwice(d0, p0, stream[..taken], data);
    }

    /** The same into a chunked buffer. */
    method ReadFixSizeInto(ba: ByteArray, length: nat) returns (rt: int, ghost taken: nat)
      requires ba.Valid() && socket !in ba.store
      modifies socket`incoming, socket`replies, ba, ba.store
      ensures taken <= length && taken <= |old(socket.incoming)|
      ensures rt == length <==> taken == length
      ensures rt == length || rt <= 0
      ensures ba.Valid() && ba.position == old(ba.position) + taken
      ensures ba.Data() == Overwrite(old(ba.Data()), old(ba.position), old(socket.incoming)[..taken])
      ensures socket.incoming == old(socket.incoming)[taken..]
    {
      var left := length;
      taken := 0;
      ghost var d0, p0, stream := ba.Data(), ba.position, socket.incoming;
      while left > 0
        invariant taken == length - left && 0 <= left && taken <= |stream|
        invariant ba.Valid() && socket !in ba.store && fresh(ba.store - old(ba.store))
        invariant ba.position == p0 + taken && ba.Data() == Overwrite(d0, p0, stream[..taken])
        invariant socket.incoming == stream[taken..]
      {
        rt := ReadMore(ba, left, taken, d0, p0, stream);
        if rt <= 0 {
          return;
        }
        left := left - rt;
        taken := taken + rt;
      }
      return length, taken;
    }
  }

  /** What the receive stores through the write slices, and the head moved behind it; `before` is
      what the chunks held before making room. */
  method Fill(ba: ByteArray, iovs: seq<Slice>, ghost len: nat, data: seq<byte>, ghost before: seq<byte>)
    requires ba.Valid() && ba.position + len <= ba.capacity && iovs == ba.HeadSlices(len) && |data| <= len
    requires ba.size <= |before| && before <= ba.Contents()
    modifies ba, ba.store
    ensures ba.Valid() && ba.store == old(ba.store) && ba.position == old(ba.position) + |data|
    ensures ba.Data() == Overwrite(before[..old(ba.size)], old(ba.position), data)
  {
    OverwriteIsSplice(before, ba.Contents(), ba.size, ba.position, data);
    ba.Scatter(iovs, len, data);
    if |data| > 0 {
      var ok := ba.SetPosition(ba.position + |data|);
      assert ok;
    }
  }

  /** What a transfer takes is the next part of the stream. */
  lemma NextPart(stream: seq<byte>, done: nat, data: seq<byte>, left: seq<byte>)
    requires done <= |stream| && stream[done..] == data + left
    ensures done + |data| <= |stream| && data == stream[done..done + |data|] && left == stream[done + |data|..]
    ensures stream[..done] + data == stream[..done + |data|]
  {
    assert data == stream[done..][..|data|];
    assert left == stream[done..][|data|..];
  }
}
