/** The byte buffer on values, as written: `makeSpace` computes the new writer index after it has
    changed the reader index.  Then the line scanner over it. */
module BufferSpec {
  import opened Options

  const CHEAP_PREPEND: nat := 8
  const EXTRA: nat := 65536

  datatype Buf = Buf(bytes: seq<char>, reader: nat, writer: nat)

  predicate Valid(b: Buf) {
    CHEAP_PREPEND <= b.reader <= b.writer <= |b.bytes|
  }

  function Content(b: Buf): seq<char>
    requires Valid(b)
  {
    b.bytes[b.reader..b.writer]
  }

  function Init(size: nat): (b: Buf)
    ensures Valid(b) && Content(b) == []
  {
    Buf(seq(CHEAP_PREPEND + size, i => '\0'), CHEAP_PREPEND, CHEAP_PREPEND)
  }

  function Writable(b: Buf): nat
    requires Valid(b)
  {
    |b.bytes| - b.writer
  }

  function Retrieve(b: Buf, len: nat): (r: Buf)
    requires Valid(b)
    ensures Valid(r)
  {
    if len < b.writer - b.reader then b.(reader := b.reader + len)
    else b.(reader := CHEAP_PREPEND, writer := CHEAP_PREPEND)
  }

  /** Where makeSpace moves the contents to the front instead of growing. */
  predicate Compacts(b: Buf, len: nat)
    requires Valid(b)
  {
    Writable(b) < len && Writable(b) + b.reader >= len + CHEAP_PREPEND
  }

  /** Overwrites the bytes from position at on. */
  function Patch(s: seq<char>, at: nat, data: seq<char>): (r: seq<char>)
    requires at + |data| <= |s|
    ensures |r| == |s|
    ensures forall i :: 0 <= i < |s| ==> r[i] == if at <= i < at + |data| then data[i - at] else s[i]
  {
    s[..at] + data + s[at + |data|..]
  }

  function MakeSpace(b: Buf, len: nat): Buf
    requires Valid(b)
  {
    if Writable(b) + b.reader < len + CHEAP_PREPEND then
      b.(bytes := b.bytes + seq(b.writer + len - |b.bytes|, i => '\0'))
    else
      var moved := Patch(b.bytes, CHEAP_PREPEND, Content(b));
      Buf(moved, CHEAP_PREPEND, CHEAP_PREPEND + (b.writer - CHEAP_PREPEND))
  }

  function EnsureWritable(b: Buf, len: nat): Buf
    requires Valid(b)
  {
    if Writable(b) < len then MakeSpace(b, len) else b
  }

  /** The copy behind the writer index; None if it would run past the end of the vector. */
  function Append(b: Buf, data: seq<char>): (r: Option<Buf>)
    requires Valid(b)
    ensures r.Some? ==> Valid(r.value)
  {
    var c := EnsureWritable(b, |data|);
    if c.writer + |data| <= |c.bytes| then Some(Buf(Patch(c.bytes, c.writer, data), c.reader, c.writer + |data|))
    else None
  }

  /** How much one readv can bring: the tail, and a spill unless the tail is larger than that. */
  function Capacity(b: Buf): (c: nat)
    requires Valid(b)
    ensures c >= 65536 && c >= Writable(b)
  {
    if Writable(b) <= EXTRA then Writable(b) + EXTRA else Writable(b)
  }

  /** readFd, when the kernel delivers input. */
  function ReadFd(b: Buf, input: seq<char>): (r: Option<Buf>)
    requires Valid(b) && |input| <= Capacity(b)
    ensures r.Some? ==> Valid(r.value)
  {
    var w := Writable(b);
    if |input| <= w then Some(Buf(Patch(b.bytes, b.writer, input), b.reader, b.writer + |input|))
    else Append(Buf(Patch(b.bytes, b.writer, input[..w]), b.reader, |b.bytes|), input[w..])
  }

  // ---------------------------------------------------------------- first in, first out

  lemma RetrieveOk(b: Buf, len: nat)
    requires Valid(b)
    ensures Valid(Retrieve(b, len))
    ensures Content(Retrieve(b, len)) == if len < |Content(b)| then Content(b)[len..] else []
  {
  }

  /** append does what it is for exactly when makeSpace does not compact: there, the contents are not kept, the space is
      not made, and the copy runs past the end. */
  lemma AppendOk(b: Buf, data: seq<char>)
    requires Valid(b)
    ensures Append(b, data).Some? <==> !Compacts(b, |data|)
    ensures Append(b, data).Some? ==>
              Valid(Append(b, data).value) && Content(Append(b, data).value) == Content(b) + data
              && Append(b, data).value.bytes[..b.writer] == b.bytes[..b.writer]
              && Append(b, data).value.reader == b.reader
  {
    if Append(b, data).Some? {
      var r := Append(b, data).value;
      assert Content(r) == Content(b) + data;
    }
  }

  /** What compaction does: the writer index stays, so stale bytes join the contents and no byte more is writable. */
  lemma CompactionKeepsWriter(b: Buf, len: nat)
    requires Valid(b) && Compacts(b, len)
    ensures var c := MakeSpace(b, len);
            Valid(c) && c.writer == b.writer && Writable(c) == Writable(b) < len
            && Content(b) <= Content(c) && |Content(c)| == |Content(b)| + (b.reader - CHEAP_PREPEND) > |Content(b)|
  {
    var c := MakeSpace(b, len);
    assert Content(c)[..|Content(b)|] == Content(b);
  }

  /** makeSpace makes the space, and keeps the contents, exactly when it grows. */
  lemma MakeSpaceOk(b: Buf, len: nat)
    requires Valid(b) && Writable(b) < len
    ensures var c := MakeSpace(b, len);
            Valid(c) && (Writable(c) >= len <==> !Compacts(b, len)) && (Content(c) == Content(b) <==> !Compacts(b, len))
            && (!Compacts(b, len) ==> |c.bytes| == b.writer + len)
  {
    if Compacts(b, len) {
      CompactionKeepsWriter(b, len);
    } else {
      assert Content(MakeSpace(b, len)) == Content(b);
    }
  }

  /** Where nothing has been consumed since the last reset, append never compacts. */
  lemma NoCompactionAtFront(b: Buf, len: nat)
    requires Valid(b) && b.reader == CHEAP_PREPEND
    ensures !Compacts(b, len)
  {
  }

  lemma PatchTwice(b: Buf, input: seq<char>)
    requires Valid(b) && |input| > Writable(b) && !Compacts(b, |input|)
    ensures var c := Buf(Patch(b.bytes, b.writer, input[..Writable(b)]), b.reader, |b.bytes|);
            Append(c, input[Writable(b)..]) == Append(b, input)
  {
    var c := Buf(Patch(b.bytes, b.writer, input[..Writable(b)]), b.reader, |b.bytes|);
    assert Append(c, input[Writable(b)..]).value.bytes == b.bytes[..b.writer] + input;
    assert Append(b, input).value.bytes == b.bytes[..b.writer] + input;
  }

  /** However the bytes split between the tail and the spill, readFd is append of them. */
  lemma ReadFdIsAppend(b: Buf, input: seq<char>)
    requires Valid(b) && |input| <= Capacity(b)
    ensures ReadFd(b, input) == Append(b, input)
  {
    var w := Writable(b);
    if |input| > w {
      var c := Buf(Patch(b.bytes, b.writer, input[..w]), b.reader, |b.bytes|);
      AppendOk(b, input);
      AppendOk(c, input[w..]);
      if !Compacts(b, |input|) { PatchTwice(b, input); }
    }
  }

  datatype Op = Write(data: seq<char>) | Read(input: seq<char>) | Take(len: nat)

  datatype Trace = Trace(buf: Buf, put: seq<char>, taken: seq<char>)

  function Min(a: nat, b: nat): nat {
    if a < b then a else b
  }

  /** One call; None where it would compact. */
  function Step(t: Trace, op: Op): Option<Trace>
    requires Valid(t.buf)
  {
    match op
    case Write(data) =>
      var r := Append(t.buf, data);
      if r.None? then None else Some(Trace(r.value, t.put + data, t.taken))
    case Read(input) =>
      if |input| > Capacity(t.buf) then None
      else
        var r := ReadFd(t.buf, input);
        if r.None? then None else Some(Trace(r.value, t.put + input, t.taken))
    case Take(len) =>
      Some(Trace(Retrieve(t.buf, len), t.put, t.taken + Content(t.buf)[..Min(len, |Content(t.buf)|)]))
  }

  /** Nothing but the second branch of makeSpace, and more input than one readv can bring, is left out. */
  lemma StepIff(t: Trace, op: Op)
    requires Valid(t.buf)
    ensures Step(t, op).Some?
            <==> match op
                 case Write(data) => !Compacts(t.buf, |data|)
                 case Read(input) => |input| <= Capacity(t.buf) && !Compacts(t.buf, |input|)
                 case Take(_) => true
  {
    match op
    case Write(data) => AppendOk(t.buf, data);
    case Read(input) =>
      if |input| <= Capacity(t.buf) {
        ReadFdIsAppend(t.buf, input);
        AppendOk(t.buf, input);
      }
    case Take(_) =>
  }

  lemma StepOk(t: Trace, op: Op)
    requires Valid(t.buf) && t.taken + Content(t.buf) == t.put && Step(t, op).Some?
    ensures var u := Step(t, op).value; Valid(u.buf) && u.taken + Content(u.buf) == u.put
  {
    match op
    case Write(data) => PutOk(t, data);
    case Read(input) =>
      ReadFdIsAppend(t.buf, input);
      PutOk(t, input);
    case Take(len) =>
      RetrieveOk(t.buf, len);
      Rejoin(t.taken, Content(t.buf), Min(len, |Content(t.buf)|));
  }

  lemma PutOk(t: Trace, data: seq<char>)
    requires Valid(t.buf) && t.taken + Content(t.buf) == t.put && Append(t.buf, data).Some?
    ensures t.taken + Content(Append(t.buf, data).value) == t.put + data
  {
    AppendOk(t.buf, data);
    assert t.taken + (Content(t.buf) + data) == t.taken + Content(t.buf) + data;
  }

  lemma Rejoin(taken: seq<char>, c: seq<char>, k: nat)
    requires k <= |c|
    ensures taken + c[..k] + c[k..] == taken + c
  {
    assert c == c[..k] + c[k..];
  }

  function Run(size: nat, ops: seq<Op>): (r: Option<Trace>)
    ensures r.Some? ==> Valid(r.value.buf) && r.value.taken + Content(r.value.buf) == r.value.put
  {
    if ops == [] then Some(Trace(Init(size), [], []))
    else
      var t := Run(size, ops[..|ops| - 1]);
      if t.None? || Step(t.value, ops[|ops| - 1]).None? then None
      else
        StepOk(t.value, ops[|ops| - 1]);
        Step(t.value, ops[|ops| - 1])
  }

  lemma RunOne(size: nat, ops: seq<Op>, op: Op)
    requires Run(size, ops).Some?
    ensures Run(size, ops + [op]) == Step(Run(size, ops).value, op)
  {
    assert (ops + [op])[..|ops|] == ops;
  }

  lemma FilledAndRead(data: seq<char>)
    requires |data| > 1
    ensures Append(Init(|data|), data).Some?
    ensures Compacts(Retrieve(Append(Init(|data|), data).value, |data| - 1), 1)
  {
    NoCompactionAtFront(Init(|data|), |data|);
    AppendOk(Init(|data|), data);
  }

  /** Compaction is reached: in a buffer of any size above 1 that is filled and read but for one byte. */
  lemma CompactionReached(data: seq<char>, more: char)
    requires |data| > 1
    ensures Run(|data|, [Write(data), Take(|data| - 1)]).Some?
    ensures Run(|data|, [Write(data), Take(|data| - 1)] + [Write([more])]).None?
  {
    var size := |data|;
    FilledAndRead(data);
    RunOne(size, [], Write(data));
    RunOne(size, [] + [Write(data)], Take(size - 1));
    assert [] + [Write(data)] + [Take(size - 1)] == [Write(data), Take(size - 1)];
    RunOne(size, [Write(data), Take(size - 1)], Write([more]));
    AppendOk(Retrieve(Append(Init(size), data).value, size - 1), [more]);
  }
}
