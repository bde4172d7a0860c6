/** The logger as it is built: shared buffers moved between a producer side and the backend.
    Each method is one atomic step; a ghost state says which step of `AsyncLogSpec` it is. */
module AsyncLog {
  import opened Options
  import opened AsyncLogSpec
  import opened FixedBuffers

  function Opt(b: FixedBuffer?): Option<FixedBuffer> {
    if b == null then None else Some(b)
  }

  /** b holds the lines ls. */
  ghost predicate Holds(b: FixedBuffer, ls: seq<Line>)
    reads b`cur, b.data
  {
    b.data.Length == SIZE && b.Valid() && b.Contents() == Flat(ls)
  }

  ghost predicate HoldsAll(lines: map<FixedBuffer, seq<Line>>)
    reads lines.Keys`cur, set b | b in lines :: b.data
  {
    && (forall b {:trigger lines[b]} :: b in lines ==> Holds(b, lines[b]))
    && (forall b, c :: b in lines && c in lines && b != c ==> b.data != c.data)
  }

  lemma HoldsMore(lines: map<FixedBuffer, seq<Line>>, b: FixedBuffer)
    requires HoldsAll(lines) && Holds(b, []) && b !in lines && forall c :: c in lines ==> c.data != b.data
    ensures HoldsAll(lines[b := []])
  {
  }

  /** FixedBuffer::append on one of several buffers. */
  method AppendTo(b: FixedBuffer, logline: string, len: int, ghost lines: map<FixedBuffer, seq<Line>>)
    requires HoldsAll(lines) && b in lines
    requires len <= |logline| && -0x8000_0000 <= len < 0x8000_0000
    modifies b`cur, b.data
    ensures HoldsAll(if 0 <= len < SIZE - |Flat(lines[b])| then lines[b := lines[b] + [Line(logline[..len])]]
                     else lines)
  {
    assert Holds(b, lines[b]);
    var size := if len < 0 then len + 0x1_0000_0000_0000_0000 else len;
    b.Append(logline, size);
    if 0 <= len { FlatAdd(lines[b], Line(logline[..len])); }
    forall c | c in lines && c != b ensures Holds(c, lines[c]) { assert old(Holds(c, lines[c])); }
  }

  /** FixedBuffer::reset on one of several buffers. */
  method ResetOne(b: FixedBuffer, ghost lines: map<FixedBuffer, seq<Line>>)
    requires HoldsAll(lines) && b in lines
    modifies b`cur
    ensures HoldsAll(lines[b := []])
  {
    assert Holds(b, lines[b]);
    b.Reset();
    forall c | c in lines && c != b ensures Holds(c, lines[c]) { assert old(Holds(c, lines[c])); }
  }

  lemma {:induction false} FlatConcat(a: seq<Line>, b: seq<Line>)
    ensures Flat(a + b) == Flat(a) + Flat(b)
    decreases |b|
  {
    if b == [] {
      assert a + b == a;
    } else {
      var c, l := b[..|b| - 1], b[|b| - 1];
      FlatConcat(a, c);
      assert a + b == (a + c) + [l];
      FlatAdd(a + c, l);
      Associate(Flat(a), Flat(c), l.text);
    }
  }

  lemma FlatPrefix(a: seq<Line>, b: seq<Line>)
    requires a <= b
    ensures Flat(a) <= Flat(b)
  {
    assert b == a + b[|a|..];
    FlatConcat(a, b[|a|..]);
  }

  lemma Associate(a: string, b: string, c: string)
    ensures a + b + c == a + (b + c)
  {
  }

  method NewBuffer(ghost lines: map<FixedBuffer, seq<Line>>) returns (b: FixedBuffer)
    requires HoldsAll(lines)
    ensures fresh(b) && fresh(b.data) && b !in lines && HoldsAll(lines) && HoldsAll(lines[b := []])
  {
    b := new FixedBuffer(SIZE);
    HoldsMore(lines, b);
  }

  method NewBuffers(ghost lines: map<FixedBuffer, seq<Line>>) returns (b: FixedBuffer, c: FixedBuffer)
    requires HoldsAll(lines)
    ensures fresh(b) && fresh(b.data) && fresh(c) && fresh(c.data) && b != c && b !in lines && c !in lines
    ensures HoldsAll(lines[b := []][c := []])
  {
    b := NewBuffer(lines);
    c := NewBuffer(lines[b := []]);
  }

  lemma PutLines(s: State<FixedBuffer>, text: string, len: int)
    requires s.current in s.lines && len <= |text|
    ensures var s', b := Put(s, text, len), s.current;
            s' == s.(lines := s'.lines, accepted := s'.accepted)
            && s'.lines == if 0 <= len < SIZE - |Flat(s.lines[b])| then s.lines[b := s.lines[b] + [Line(text[..len])]]
               else s.lines
  {
  }

  class AsyncLogging {
    var currentBuffer: FixedBuffer?
    var nextBuffer: FixedBuffer?
    var buffers: seq<FixedBuffer>
    var running: bool

    // The backend's own variables.
    var newBuffer1: FixedBuffer?
    var newBuffer2: FixedBuffer?
    var buffersToWrite: seq<FixedBuffer>
    var written: nat
    var output: string

    ghost var state: State<FixedBuffer>

    /** The fields are what the state says. */
    ghost predicate Matches()
      reads this
    {
      && currentBuffer == state.current && Opt(nextBuffer) == state.next && buffers == state.queued
      && running == state.running
      && Opt(newBuffer1) == state.new1 && Opt(newBuffer2) == state.new2 && buffersToWrite == state.batch
      && (state.pc.Writing? ==> written == state.pc.i)
      && output == Flat(state.file)
    }

    ghost predicate Valid()
      reads this, state.lines.Keys`cur, set b | b in state.lines :: b.data
    {
      Matches() && HoldsAll(state.lines) && Inv(state)
    }

    constructor ()
      ensures Valid() && fresh(state.lines.Keys) && fresh(set b | b in state.lines :: b.data)
      ensures exists b, c :: b in state.lines && c in state.lines && b != c && state == Init(b, c)
    {
      currentBuffer, nextBuffer := null, null;
      buffers, running := [], false;
      newBuffer1, newBuffer2, buffersToWrite, written, output := null, null, [], 0, "";
      var b, c := NewBuffers(map[]);
      currentBuffer, nextBuffer := b, c;
      state := Init(b, c);
      new;
      InvInit(b, c);
    }

    /** currentBuffer_->append(logline, len): the length becomes a size_t. */
    method PutLine(logline: string, len: int)
      requires Matches() && HoldsAll(state.lines) && currentBuffer in state.lines
      requires len <= |logline| && -0x8000_0000 <= len < 0x8000_0000
      modifies currentBuffer`cur, currentBuffer.data, this`state
      ensures Matches() && HoldsAll(state.lines) && state == Put(old(state), logline, len)
    {
      PutLines(state, logline, len);
      AppendTo(currentBuffer, logline, len, state.lines);
      SetState(Put(state, logline, len));
    }

    /** The field updates of append when the current buffer is full: it is queued and b takes its place. */
    method Replace(b: FixedBuffer, ghost lines: map<FixedBuffer, seq<Line>>)
      modifies this`buffers, this`currentBuffer, this`nextBuffer, this`state
      requires currentBuffer != null && currentBuffer == state.current && buffers == state.queued
      ensures buffers == old(buffers) + [old(currentBuffer)] && currentBuffer == b && nextBuffer == null
      ensures state == old(state).(queued := buffers, current := b, next := None, lines := lines)
      ensures HoldsAll(lines) == old(HoldsAll(lines))
    {
      buffers := buffers + [currentBuffer];
      currentBuffer := b;
      nextBuffer := null;
      state := state.(queued := buffers, current := b, next := None, lines := lines);
    }

    /** The current buffer is full: it is queued, and the next one, or a new one, takes its place. */
    method Turn() returns (ghost spare: FixedBuffer)
      requires Matches() && HoldsAll(state.lines)
      modifies this`buffers, this`currentBuffer, this`nextBuffer, this`state
      ensures Matches() && HoldsAll(state.lines) && (old(state).next.None? ==> spare !in old(state).lines)
      ensures state == Turned(old(state), spare)
      ensures buffers == old(buffers) + [old(currentBuffer)] && nextBuffer == null
      ensures old(nextBuffer) != null ==> currentBuffer == old(nextBuffer)
      ensures forall b :: b in state.lines && b !in old(state).lines ==> fresh(b) && fresh(b.data)
    {
      spare := currentBuffer;
      if nextBuffer != null {
        Replace(nextBuffer, state.lines);
      } else {
        var b := NewBuffer(state.lines);
        spare := b;
        Replace(b, state.lines[b := []]);
      }
    }

    /** The first half of append: after it the line fits the current buffer, if it fits any. */
    method TurnIfFull(len: int) returns (ghost spare: FixedBuffer)
      requires Matches() && HoldsAll(state.lines) && currentBuffer in state.lines
      modifies this`buffers, this`currentBuffer, this`nextBuffer, this`state
      ensures Matches() && HoldsAll(state.lines) && Fresh(old(state), len, spare)
      ensures forall b :: b in state.lines && b !in old(state).lines ==> fresh(b) && fresh(b.data)
      ensures if old(currentBuffer.Avail()) > len then state == old(state) && Avail(state, state.current) > len
              else state == Turned(old(state), spare) && Avail(old(state), old(state).current) <= len
    {
      spare := currentBuffer;
      assert Holds(currentBuffer, state.lines[currentBuffer]);
      if currentBuffer.Avail() <= len {
        spare := Turn();
      }
    }

    /** Any producer, under the lock. */
    method Append(logline: string, len: int) returns (ghost spare: FixedBuffer)
      requires Valid() && len <= |logline| && -0x8000_0000 <= len < 0x8000_0000
      modifies this`buffers, this`currentBuffer, this`nextBuffer, this`state
      modifies state.lines.Keys`cur, set b | b in state.lines :: b.data
      ensures Valid() && Fresh(old(state), len, spare) && state == DoAppend(old(state), logline, len, spare)
      ensures old(currentBuffer) != null
      ensures old(currentBuffer.Avail()) > len ==> buffers == old(buffers) && currentBuffer == old(currentBuffer)
      ensures old(currentBuffer.Avail()) <= len ==> buffers == old(buffers) + [old(currentBuffer)] && nextBuffer == null
      ensures old(currentBuffer.Avail()) <= len && old(nextBuffer) != null ==> currentBuffer == old(nextBuffer)
    {
      ghost var s := state;
      spare := TurnIfFull(len);
      PutLine(logline, len);
      InvAppend(s, logline, len, spare);
    }

    // Below, the methods named Do... are the code, and need of the state only what the code relies on there;
    // the others add that the invariant supplies this and is kept.

    /** start(): the backend thread is begun. */
    method Start()
      requires Valid() && state.pc == Idle
      modifies this`running, this`state
      ensures Valid() && state == DoStart(old(state)) && running
    {
      SetRunning(true, DoStart(state));
      InvStart(old(state));
    }

    method SetRunning(value: bool, ghost s: State<FixedBuffer>)
      requires Matches() && ((s == DoStart(state) && value) || (s == DoStop(state) && !value))
      modifies this`running, this`state
      ensures Matches() && state == s && HoldsAll(state.lines) == old(HoldsAll(state.lines)) && running == value
    {
      running, state := value, s;
    }

    method DoEnterThread() returns (ghost b: FixedBuffer, ghost c: FixedBuffer)
      requires Matches() && HoldsAll(state.lines) && running
      modifies this`newBuffer1, this`newBuffer2, this`state
      ensures Matches() && HoldsAll(state.lines) && state == DoEnter(old(state), b, c)
      ensures b != c && b !in old(state).lines && c !in old(state).lines
      ensures fresh(b) && fresh(c) && fresh(b.data) && fresh(c.data)
    {
      var first, second := NewBuffers(state.lines);
      b, c := first, second;
      SetSpares(first, second, DoEnter(state, b, c));
    }

    method SetSpares(first: FixedBuffer, second: FixedBuffer, ghost s: State<FixedBuffer>)
      modifies this`newBuffer1, this`newBuffer2, this`state
      ensures newBuffer1 == first && newBuffer2 == second && state == s
      ensures HoldsAll(s.lines) == old(HoldsAll(s.lines))
    {
      newBuffer1, newBuffer2, state := first, second, s;
    }

    /** The backend thread up to its loop, with the assertion at its head. */
    method Enter() returns (ghost b: FixedBuffer, ghost c: FixedBuffer)
      requires Valid() && state.pc == Starting
      modifies this`newBuffer1, this`newBuffer2, this`state
      ensures Valid() && Enabled(old(state), Action.Enter(b, c)) && state == DoEnter(old(state), b, c)
      ensures fresh(b) && fresh(c) && fresh(b.data) && fresh(c.data)
    {
      assert running;
      b, c := DoEnterThread();
      InvEnter(old(state), b, c);
    }

    /** stop(), which start's caller cannot reach before the thread has passed that assertion. */
    method Stop()
      requires Valid() && state.pc != Idle && state.pc != Starting
      modifies this`running, this`state
      ensures Valid() && state == DoStop(old(state)) && !running
    {
      SetRunning(false, DoStop(state));
      InvStop(old(state));
    }

    lemma EmptyMeansZero(b: FixedBuffer)
      requires HoldsAll(state.lines) && b in state.lines && state.lines[b] == []
      ensures b.Length() == 0
    {
      assert Holds(b, state.lines[b]);
      assert |b.Contents()| == b.cur;
    }

    lemma SparesEmpty()
      requires Valid() && state.pc == Top && running
      ensures newBuffer1 != null && newBuffer2 != null && newBuffer1 in state.lines && newBuffer2 in state.lines
      ensures state.lines[newBuffer1] == [] && state.lines[newBuffer2] == [] && buffersToWrite == []
    {
    }

    /** The assertions at the head of the loop. */
    lemma HeadHolds()
      requires Valid() && state.pc == Top && running
      ensures newBuffer1 != null && newBuffer1.Length() == 0
      ensures newBuffer2 != null && newBuffer2.Length() == 0
      ensures buffersToWrite == []
    {
      SparesEmpty();
      EmptyMeansZero(newBuffer1);
      EmptyMeansZero(newBuffer2);
    }

    method DoTestRunning() returns (go: bool)
      requires Matches()
      modifies this`state
      ensures Matches() && state == DoTest(old(state)) && HoldsAll(state.lines) == old(HoldsAll(state.lines))
              && go == running
    {
      go := running;
      SetState(DoTest(state));
    }

    /** The loop test and the assertions behind it. */
    method Test() returns (go: bool)
      requires Valid() && state.pc == Top
      modifies this`state
      ensures Valid() && state == DoTest(old(state)) && go == running
      ensures state.pc == if go then Ready else Ended
    {
      if running { HeadHolds(); }
      go := DoTestRunning();
      InvTest(old(state));
    }

    method SetState(ghost s: State<FixedBuffer>)
      modifies this`state
      ensures state == s && HoldsAll(s.lines) == old(HoldsAll(s.lines))
    {
      state := s;
    }

    method DoSwapBuffers()
      requires currentBuffer != null && newBuffer1 != null
      modifies this`buffers, this`currentBuffer, this`nextBuffer, this`newBuffer1, this`newBuffer2, this`buffersToWrite
      ensures buffersToWrite == old(buffers) + [old(currentBuffer)] && buffers == old(buffersToWrite)
      ensures currentBuffer == old(newBuffer1) && newBuffer1 == null
      ensures old(nextBuffer) == null ==> nextBuffer == old(newBuffer2) && newBuffer2 == null
      ensures old(nextBuffer) != null ==> nextBuffer == old(nextBuffer) && newBuffer2 == old(newBuffer2)
      ensures HoldsAll(state.lines) == old(HoldsAll(state.lines))
    {
      buffers := buffers + [currentBuffer];
      currentBuffer := newBuffer1;
      newBuffer1 := null;
      buffersToWrite, buffers := buffers, buffersToWrite;
      if nextBuffer == null {
        nextBuffer := newBuffer2;
        newBuffer2 := null;
      }
    }

    method DoSwapState()
      requires Matches() && HoldsAll(state.lines) && newBuffer1 != null
      modifies this`buffers, this`currentBuffer, this`nextBuffer, this`newBuffer1, this`newBuffer2
      modifies this`buffersToWrite, this`state
      ensures Matches() && HoldsAll(state.lines) && state == DoSwap(old(state))
      ensures buffersToWrite == old(buffers) + [old(currentBuffer)] && buffers == old(buffersToWrite)
      ensures currentBuffer == old(newBuffer1) && newBuffer1 == null
    {
      DoSwapBuffers();
      SetState(DoSwap(state));
    }

    /** Under the lock: the batch is what was queued and the current buffer, which is replaced at once. */
    method Swap()
      requires Valid() && state.pc == Ready
      modifies this`buffers, this`currentBuffer, this`nextBuffer, this`newBuffer1, this`newBuffer2
      modifies this`buffersToWrite, this`state
      ensures Valid() && state == DoSwap(old(state)) && buffersToWrite != []
      ensures buffersToWrite == old(buffers) + [old(currentBuffer)] && buffers == []
      ensures currentBuffer == old(newBuffer1) && newBuffer1 == null
    {
      DoSwapState();
      InvSwap(old(state));
    }

    method DoTrimBatch()
      requires Matches() && buffersToWrite != []
      modifies this`buffersToWrite, this`written, this`state
      ensures Matches() && state == DoTrim(old(state)) && HoldsAll(state.lines) == old(HoldsAll(state.lines))
      ensures buffersToWrite == if old(|buffersToWrite|) > 25 then old(buffersToWrite)[..2] else old(buffersToWrite)
      ensures written == 0
    {
      ghost var s := DoTrim(state);
      if |buffersToWrite| > 25 {
        buffersToWrite := buffersToWrite[..2];
      }
      written := 0;
      state := s;
    }

    method Trim()
      requires Valid() && state.pc == Swapped
      modifies this`buffersToWrite, this`written, this`state
      ensures Valid() && state == DoTrim(old(state))
      ensures buffersToWrite == if old(|buffersToWrite|) > 25 then old(buffersToWrite)[..2] else old(buffersToWrite)
      ensures written == 0
    {
      DoTrimBatch();
      InvTrim(old(state));
    }

    method DoWriteOne()
      requires Matches() && HoldsAll(state.lines) && state.pc.Writing?
               && forall b :: b in buffersToWrite ==> b in state.lines
      modifies this`output, this`written, this`state
      ensures Matches() && state == DoWrite(old(state)) && HoldsAll(state.lines)
      ensures output == old(output)
              + if old(written) < |buffersToWrite| then buffersToWrite[old(written)].Contents() else ""
    {
      ghost var s := DoWrite(state);
      if written < |buffersToWrite| {
        var b := buffersToWrite[written];
        assert Holds(b, state.lines[b]);
        FlatConcat(state.file, state.lines[b]);
        output := output + b.data[..b.Length()];
        written := written + 1;
      }
      state := s;
    }

    /** Without the lock: the next buffer of the batch goes to the file, data()..length(). */
    method Write()
      requires Valid() && state.pc.Writing?
      modifies this`output, this`written, this`state
      ensures Valid() && state == DoWrite(old(state))
      ensures output == old(output)
              + if old(written) < |buffersToWrite| then buffersToWrite[old(written)].Contents() else ""
    {
      DoWriteOne();
      InvWrite(old(state));
    }

    method DoShrink()
      requires Matches()
      modifies this`buffersToWrite, this`state
      ensures Matches() && state == DoResize(old(state)) && HoldsAll(state.lines) == old(HoldsAll(state.lines))
      ensures buffersToWrite == if old(|buffersToWrite|) > 2 then old(buffersToWrite)[..2] else old(buffersToWrite)
    {
      if |buffersToWrite| > 2 {
        buffersToWrite := buffersToWrite[..2];
      }
      state := DoResize(state);
    }

    method Resize()
      requires Valid() && state.pc == Written
      modifies this`buffersToWrite, this`state
      ensures Valid() && state == DoResize(old(state))
      ensures buffersToWrite == if old(|buffersToWrite|) > 2 then old(buffersToWrite)[..2] else old(buffersToWrite)
    {
      DoShrink();
      InvResize(old(state));
    }

    /** Resets the last buffer of the batch. */
    method TakeBack() returns (b: FixedBuffer)
      requires HoldsAll(state.lines) && buffersToWrite != [] && forall c :: c in buffersToWrite ==> c in state.lines
      modifies this`buffersToWrite, buffersToWrite`cur
      ensures b == old(buffersToWrite[|buffersToWrite| - 1])
              && buffersToWrite == old(buffersToWrite[..|buffersToWrite| - 1])
      ensures HoldsAll(state.lines[b := []])
    {
      b := buffersToWrite[|buffersToWrite| - 1];
      buffersToWrite := buffersToWrite[..|buffersToWrite| - 1];
      ResetOne(b, state.lines);
    }

    method SetFirst(b: FixedBuffer, ghost s: State<FixedBuffer>)
      modifies this`newBuffer1, this`state
      ensures newBuffer1 == b && state == s && HoldsAll(s.lines) == old(HoldsAll(s.lines))
    {
      newBuffer1, state := b, s;
    }

    method SetSecond(b: FixedBuffer, ghost s: State<FixedBuffer>)
      modifies this`newBuffer2, this`state
      ensures newBuffer2 == b && state == s && HoldsAll(s.lines) == old(HoldsAll(s.lines))
    {
      newBuffer2, state := b, s;
    }

    method DoRefill1()
      requires Matches() && HoldsAll(state.lines) && newBuffer1 == null
      requires buffersToWrite != [] && forall b :: b in buffersToWrite ==> b in state.lines
      modifies this`newBuffer1, this`buffersToWrite, this`state, buffersToWrite`cur
      ensures Matches() && HoldsAll(state.lines) && state == DoRecycle1(old(state))
      ensures newBuffer1 == old(buffersToWrite[|buffersToWrite| - 1])
      ensures buffersToWrite == old(buffersToWrite[..|buffersToWrite| - 1])
    {
      ghost var s := DoRecycle1(state);
      var b := TakeBack();
      SetFirst(b, s);
    }

    method DoRefill2()
      requires Matches() && HoldsAll(state.lines) && newBuffer2 == null
      requires buffersToWrite != [] && forall b :: b in buffersToWrite ==> b in state.lines
      modifies this`newBuffer2, this`buffersToWrite, this`state, buffersToWrite`cur
      ensures Matches() && HoldsAll(state.lines) && state == DoRecycle2(old(state))
      ensures newBuffer2 == old(buffersToWrite[|buffersToWrite| - 1])
      ensures buffersToWrite == old(buffersToWrite[..|buffersToWrite| - 1])
    {
      ghost var s := DoRecycle2(state);
      var b := TakeBack();
      SetSecond(b, s);
    }

    method DoKeep2()
      requires Matches() && newBuffer2 != null
      modifies this`state
      ensures Matches() && state == DoRecycle2(old(state)) && HoldsAll(state.lines) == old(HoldsAll(state.lines))
    {
      state := DoRecycle2(state);
    }

    method Recycle1()
      requires Valid() && state.pc == Shrunk
      modifies this`newBuffer1, this`buffersToWrite, this`state, buffersToWrite`cur
      ensures Valid() && state == DoRecycle1(old(state))
      ensures old(buffersToWrite) != [] && newBuffer1 == old(buffersToWrite[|buffersToWrite| - 1])
      ensures buffersToWrite == old(buffersToWrite[..|buffersToWrite| - 1])
    {
      assert newBuffer1 == null && buffersToWrite != [];
      DoRefill1();
      InvRecycle1(old(state));
    }

    method Recycle2()
      requires Valid() && state.pc == Refilled
      modifies this`newBuffer2, this`buffersToWrite, this`state, buffersToWrite`cur
      ensures Valid() && state == DoRecycle2(old(state))
      ensures old(newBuffer2) != null ==> newBuffer2 == old(newBuffer2) && buffersToWrite == old(buffersToWrite)
      ensures old(newBuffer2) == null ==> old(buffersToWrite) != []
      ensures old(newBuffer2) == null ==> newBuffer2 == old(buffersToWrite[|buffersToWrite| - 1])
      ensures old(newBuffer2) == null ==> buffersToWrite == old(buffersToWrite[..|buffersToWrite| - 1])
    {
      if newBuffer2 == null {
        assert buffersToWrite != [];
        DoRefill2();
      } else {
        DoKeep2();
      }
      InvRecycle2(old(state));
    }

    method DoClearBatch()
      requires Matches()
      modifies this`buffersToWrite, this`state
      ensures Matches() && state == DoClear(old(state)) && HoldsAll(state.lines) == old(HoldsAll(state.lines))
      ensures buffersToWrite == []
    {
      buffersToWrite := [];
      state := DoClear(state);
    }

    method Clear()
      requires Valid() && state.pc == Recycled
      modifies this`buffersToWrite, this`state
      ensures Valid() && state == DoClear(old(state))
      ensures buffersToWrite == []
    {
      DoClearBatch();
      InvClear(old(state));
    }

    /** Byte by byte: while no batch was cut, the file is a prefix of the lines accepted. */
    lemma OutputIsPrefix()
      requires Valid() && NoDrops(state)
      ensures output <= Flat(state.accepted)
    {
      PrefixHere(state);
      FlatPrefix(state.file, state.accepted);
    }
  }
}
