/** The byte buffer as an object, and the request parser's scan for the end of a line in it. */
module Buffer {
  import opened Options
  import opened BufferSpec
  import opened FeedSpec
  import opened LineSpec

  class Buffer {
    var buffer: seq<char>
    var readerIndex: nat
    var writerIndex: nat

    function Value(): Buf
      reads this
    {
      Buf(buffer, readerIndex, writerIndex)
    }

    predicate Ok()
      reads this
    {
      Valid(Value())
    }

    ghost function Contents(): seq<char>
      reads this
      requires Ok()
    {
      Content(Value())
    }

    constructor (initialSize: nat)
      ensures Value() == Init(initialSize)
    {
      buffer := seq(8 + initialSize, i => '\0');
      readerIndex, writerIndex := 8, 8;
    }

    function ReadableBytes(): (n: nat)
      requires Ok()
      reads this
      ensures n == |Contents()|
    {
      writerIndex - readerIndex
    }

    function WritableBytes(): nat
      requires Ok()
      reads this
    {
      |buffer| - writerIndex
    }

    method Retrieve(len: nat)
      requires Ok()
      modifies this
      ensures Ok() && Value() == BufferSpec.Retrieve(old(Value()), len)
      ensures Contents() == if len < |old(Contents())| then old(Contents())[len..] else []
    {
      if len < ReadableBytes() {
        readerIndex := readerIndex + len;
      } else {
        RetrieveAll();
      }
    }

    method RetrieveAll()
      modifies this
      ensures Value() == old(Value()).(reader := CHEAP_PREPEND, writer := CHEAP_PREPEND)
    {
      readerIndex := 8;
      writerIndex := 8;
    }

    /** With a length above the readable bytes the string goes on behind them, as far as the vector has bytes. */
    method RetrieveAsString(len: nat) returns (result: string)
      requires Ok() && readerIndex + len <= |buffer|
      modifies this
      ensures Ok() && |result| == len && (result <= old(Contents()) || old(Contents()) <= result)
      ensures result == old(buffer[readerIndex..readerIndex + len])
      ensures Contents() == if len < |old(Contents())| then old(Contents())[len..] else []
    {
      result := buffer[readerIndex..readerIndex + len];
      Retrieve(len);
    }

    /** As written: in the second branch the writer index is computed from the reader index just changed. */
    method MakeSpace(len: nat)
      requires Ok()
      modifies this
      ensures Value() == BufferSpec.MakeSpace(old(Value()), len)
      ensures old(WritableBytes()) < len ==> Ok() && (WritableBytes() >= len <==> !Compacts(old(Value()), len))
    {
      if WritableBytes() < len { MakeSpaceOk(Value(), len); }
      if WritableBytes() + readerIndex < len + 8 {
        buffer := buffer + seq(writerIndex + len - |buffer|, i => '\0');
      } else {
        buffer := Patch(buffer, 8, buffer[readerIndex..writerIndex]);
        readerIndex := 8;
        writerIndex := readerIndex + (writerIndex - readerIndex);
      }
    }

    method EnsureWritableBytes(len: nat)
      requires Ok()
      modifies this
      ensures Value() == EnsureWritable(old(Value()), len)
    {
      if WritableBytes() < len {
        MakeSpace(len);
      }
    }

    /** Where makeSpace would compact, the copy is past the end of the vector: C++ leaves that undefined. */
    method Append(data: seq<char>)
      requires Ok() && !Compacts(Value(), |data|)
      modifies this
      ensures Ok() && Some(Value()) == BufferSpec.Append(old(Value()), data) && Contents() == old(Contents()) + data
    {
      AppendOk(Value(), data);
      EnsureWritableBytes(|data|);
      buffer := Patch(buffer, writerIndex, data);
      writerIndex := writerIndex + |data|;
    }

    /** readFd for a readv that returns; input is None on an error, else the bytes, scattered over the tail and the
        spill. */
    method ReadFd(input: Option<seq<char>>) returns (n: int)
      requires Ok() && (input.Some? ==> |input.value| <= Capacity(Value()) && !Compacts(Value(), |input.value|))
      modifies this
      ensures Ok()
      ensures input.None? ==> n == -1 && Value() == old(Value())
      ensures input.Some? ==> n == |input.value| && Some(Value()) == BufferSpec.Append(old(Value()), input.value)
                              && Contents() == old(Contents()) + input.value
    {
      if input.None? {
        return -1;
      }
      ReadFdIsAppend(Value(), input.value);
      AppendOk(Value(), input.value);
      n := |input.value|;
      var writable := WritableBytes();
      if n <= writable {
        buffer := Patch(buffer, writerIndex, input.value);
        writerIndex := writerIndex + n;
      } else {
        buffer := Patch(buffer, writerIndex, input.value[..writable]);
        writerIndex := |buffer|;
        Append(input.value[writable..]);
      }
    }
  }

  /** Overwrites the next byte with NUL and consumes it. */
  method NulAndRetrieve(b: Buffer)
    requires b.Ok() && b.readerIndex < b.writerIndex
    modifies b
    ensures b.Value() == TakeNul(old(b.Value()))
  {
    b.buffer := b.buffer[b.readerIndex := '\0'];
    b.Retrieve(1);
  }

  /** HttpConnection::parseLine. */
  method ParseLine(b: Buffer) returns (status: Status)
    requires b.Ok()
    modifies b
    ensures b.Ok() && status == Parsed(old(b.Value())).0
    ensures b.Contents() == old(b.Contents())[Parsed(old(b.Value())).1..]
    ensures old(Settled(b.Value())) ==> Settled(b.Value())
  {
    ParseIsParsed(b.Value());
    if Settled(b.Value()) { ParseSettled(b.Value()); }
    status := ParseLoop(b);
  }

  /** Its loop. */
  method ParseLoop(b: Buffer) returns (status: Status)
    requires b.Ok()
    modifies b
    ensures status == ParseBuf(old(b.Value())).0 && b.Value() == ParseBuf(old(b.Value())).1
  {
    while b.ReadableBytes() != 0
      invariant b.Ok() && ParseBuf(b.Value()) == ParseBuf(old(b.Value()))
      decreases b.ReadableBytes()
    {
      var temp := b.buffer[b.readerIndex];
      if temp == '\r' {
        if b.ReadableBytes() == 1 {
          return Open;
        } else if b.buffer[b.readerIndex + 1] == '\n' {
          NulAndRetrieve(b);
          NulAndRetrieve(b);
          return Ok;
        }
        return Bad;
      } else if temp == '\n' {
        if b.readerIndex - 8 > 1 && b.buffer[b.readerIndex - 1] == '\r' {
          b.buffer := b.buffer[b.readerIndex - 1 := '\0'];
          NulAndRetrieve(b);
          return Ok;
        }
        return Bad;
      }
      b.Retrieve(1);
    }
    return Open;
  }

  /** HttpConnection::read, then the first parseLine of processRead; k bytes are consumed. */
  method ReadAndParse(b: Buffer, input: seq<char>) returns (status: Status, ghost k: nat)
    requires b.Ok() && Settled(b.Value()) && |input| <= Capacity(b.Value()) && !Compacts(b.Value(), |input|)
    modifies b
    ensures b.Ok() && Settled(b.Value())
    ensures var all := old(b.Contents()) + input;
            status == Scan(all).0 && k == Scan(all).1 && b.Contents() == all[k..]
  {
    AppendSettled(b.Value(), input);
    var n := b.ReadFd(Some(input));
    SettledNeverLooksBack(b.Value());
    k := Scan(b.Contents()).1;
    status := ParseLine(b);
  }
}
