/** Integer and text output into the fixed buffer of a log line. */
module LogStream {
  import opened Decimal
  import opened FixedBuffers
  import opened Options

  /** The positions lo..hi of the array, in the opposite order. */
  method ReverseRange(a: array<char>, lo: nat, hi: nat)
    requires lo <= hi <= a.Length
    modifies a
    ensures a[lo..hi] == Reversed(old(a[lo..hi]))
    ensures forall k :: 0 <= k < lo || hi <= k < a.Length ==> a[k] == old(a[k])
  {
    var i, j := lo, hi;
    while i + 1 < j
      invariant lo <= i <= j <= hi && i - lo == hi - j
      invariant forall k :: lo <= k < i || j <= k < hi ==> a[k] == old(a[lo + hi - 1 - k])
      invariant forall k :: i <= k < j || 0 <= k < lo || hi <= k < a.Length ==> a[k] == old(a[k])
      decreases j - i
    {
      j := j - 1;
      a[i], a[j] := a[j], a[i];
      i := i + 1;
    }
  }

  method PutChar(buf: array<char>, p: nat, c: char, ghost start: nat)
    requires start <= p < buf.Length
    modifies buf
    ensures buf[start..p + 1] == old(buf[start..p]) + [c]
    ensures forall k :: 0 <= k < buf.Length && k != p ==> buf[k] == old(buf[k])
  {
    buf[p] := c;
  }

  /** The loop of convert: the digits of value, last one first. */
  method PutDigits(buf: array<char>, start: nat, value: int) returns (p: nat)
    requires start + |Low(Abs(value))| <= buf.Length
    modifies buf
    ensures p == start + |Low(Abs(value))| && buf[start..p] == Low(Abs(value))
    ensures forall k :: 0 <= k < start || p <= k < buf.Length ==> buf[k] == old(buf[k])
  {
    var i := value;
    p := start;
    var first := true;
    ghost var all, left := Low(Abs(value)), Low(Abs(value));
    while first || i != 0
      invariant start <= p && p + |left| == start + |all| && (first ==> i == value && p == start)
      invariant left == if first then Low(Abs(i)) else Rest(i)
      invariant all == buf[start..p] + left
      invariant forall k :: 0 <= k < start || p <= k < buf.Length ==> buf[k] == old(buf[k])
      decreases first, Abs(i)
    {
      var c := NextDigit(i);
      i := DivTen(i);
      Shift(buf[start..p], c, Rest(i));
      left := Rest(i);
      PutChar(buf, p, c, start);
      p := p + 1;
      first := false;
    }
  }

  lemma Shift(a: string, c: char, b: string)
    ensures a + ([c] + b) == (a + [c]) + b
  {
  }

  /** zero[i % 10], where zero points to the middle of the table. */
  method NextDigit(i: int) returns (c: char)
    ensures Low(Abs(i)) == [c] + Rest(DivTen(i)) && Abs(DivTen(i)) == Abs(i) / 10
  {
    TableEntry(i);
    LowStep(i);
    var lsd := ModTen(i);
    c := TABLE[9 + lsd];
  }

  /** Writes value from position start on, with a NUL behind it. */
  method Convert(buf: array<char>, start: nat, value: int) returns (len: nat)
    requires -0x8000_0000_0000_0000 <= value < 0x1_0000_0000_0000_0000
    requires start + 21 <= buf.Length
    modifies buf
    ensures 1 <= len <= 20 && buf[start..start + len] == Text(value) && buf[start + len] == '\0'
    ensures forall k :: 0 <= k < start || start + len < k < buf.Length ==> buf[k] == old(buf[k])
  {
    LowLength(value);
    var p := PutDigits(buf, start, value);
    if value < 0 {
      PutChar(buf, p, '-', start);
      p := p + 1;
    }
    buf[p] := '\0';
    assert buf[start..p] == Low(Abs(value)) + if value < 0 then "-" else "";
    ReverseRange(buf, start, p);
    len := p - start;
    ReversedText(value);
  }

  lemma LowLength(v: int)
    requires -0x8000_0000_0000_0000 <= v < 0x1_0000_0000_0000_0000
    ensures 1 <= |Low(Abs(v))| <= (if v < 0 then 19 else 20)
  {
    TextLength(v);
    ReversedLow(Abs(v));
  }

  lemma ReversedText(v: int)
    ensures Reversed(Low(Abs(v)) + if v < 0 then "-" else "") == Text(v)
  {
    ReversedLow(Abs(v));
    if v < 0 { assert Reversed(Low(-v) + "-") == "-" + Reversed(Low(-v)); }
    else { assert Low(v) + "" == Low(v); }
  }

  // ---------------------------------------------------------------- the stream

  const SMALL_BUFFER: nat := 4000
  const MAX_NUMERIC_SIZE: nat := 32

  datatype Item = Number(value: int) | Chars(text: string)

  /** What one output operation makes of the buffer's contents: each item goes in whole or not at all, and a number
      only where 32 characters are free. */
  function Emit(s: string, item: Item): string {
    match item
    case Number(v) => if SMALL_BUFFER - |s| >= MAX_NUMERIC_SIZE then s + Text(v) else s
    case Chars(t) => if SMALL_BUFFER - |s| > |t| then s + t else s
  }

  predicate Printable(item: Item) {
    item.Number? ==> -0x8000_0000_0000_0000 <= item.value < 0x1_0000_0000_0000_0000
  }

  function Render(items: seq<Item>): string {
    if items == [] then "" else Emit(Render(items[..|items| - 1]), items[|items| - 1])
  }

  /** Every run of integer and text output stays inside the buffer, with at least one byte free. */
  lemma {:induction false} RenderFits(items: seq<Item>)
    requires forall i :: 0 <= i < |items| ==> Printable(items[i])
    ensures |Render(items)| < SMALL_BUFFER
  {
    if items != [] {
      RenderFits(items[..|items| - 1]);
      var last := items[|items| - 1];
      if last.Number? { TextLength(last.value); }
    }
  }

  /** s' is s with the decimal text of v behind it: in canonical form, and read back as v. */
  ghost predicate Written(s: string, s': string, v: int) {
    s <= s' && Canonical(s'[|s|..]) && Parse(s'[|s|..]) == v
  }

  /** What an output operation means: a number is written where 32 characters are free, a text where it is shorter than
      what is free, and otherwise nothing is. */
  lemma EmitMeans(s: string, item: Item)
    ensures item.Number? ==> if 4000 - |s| >= 32 then Written(s, Emit(s, item), item.value) else Emit(s, item) == s
    ensures item.Chars? ==> Emit(s, item) == if |item.text| < 4000 - |s| then s + item.text else s
  {
    if item.Number? {
      TextParses(item.value);
      assert (s + Text(item.value))[|s|..] == Text(item.value);
    }
  }

  class LogStream {
    const buffer: FixedBuffer

    ghost predicate Valid()
      reads buffer`cur
    {
      buffer.Valid() && buffer.data.Length == SMALL_BUFFER && buffer.Avail() > 0
    }

    ghost function Contents(): string
      reads buffer`cur, buffer.data
      requires Valid()
    {
      buffer.Contents()
    }

    constructor ()
      ensures Valid() && Contents() == "" && fresh(buffer) && fresh(buffer.data)
    {
      buffer := new FixedBuffer(SMALL_BUFFER);
    }

    /** operator<< of every integer type: short and int, signed or not, are widened and come here too. */
    method FormatInteger(v: int)
      requires Valid() && Printable(Number(v))
      modifies buffer`cur, buffer.data
      ensures Valid() && Contents() == Emit(old(Contents()), Number(v))
      ensures if old(buffer.Avail()) >= 32 then Written(old(Contents()), Contents(), v)
              else Contents() == old(Contents())
    {
      EmitMeans(Contents(), Number(v));
      if buffer.Avail() >= MAX_NUMERIC_SIZE {
        ghost var before := buffer.Contents();
        var len := Convert(buffer.data, buffer.cur, v);
        assert buffer.data[..buffer.cur] == before;
        assert buffer.data[..buffer.cur + len] == before + Text(v);
        buffer.Add(len);
      }
    }

    method Append(text: string)
      requires Valid()
      modifies buffer`cur, buffer.data
      ensures Valid() && Contents() == Emit(old(Contents()), Chars(text))
      ensures Contents() == if |text| < old(buffer.Avail()) then old(Contents()) + text else old(Contents())
    {
      buffer.Append(text, |text|);
      assert text[..|text|] == text;
    }

    method PutBool(v: bool)
      requires Valid()
      modifies buffer`cur, buffer.data
      ensures Valid() && Contents() == Emit(old(Contents()), Chars(if v then "1" else "0"))
      ensures Contents() == old(Contents()) + if old(buffer.Avail()) == 1 then "" else if v then "1" else "0"
    {
      Append(if v then "1" else "0");
    }

    /** operator<< of a C string, which may be null. */
    method PutCString(s: Option<string>)
      requires Valid()
      modifies buffer`cur, buffer.data
      ensures Valid() && Contents() == Emit(old(Contents()), Chars(if s.Some? then s.value else "(null)"))
      ensures s.None? ==> Contents() == old(Contents()) + if old(buffer.Avail()) > 6 then "(null)" else ""
      ensures s.Some? ==> Contents() == old(Contents()) + if |s.value| < old(buffer.Avail()) then s.value else ""
    {
      Append(if s.Some? then s.value else "(null)");
    }

    method ResetBuffer()
      requires Valid()
      modifies buffer`cur
      ensures Valid() && Contents() == ""
    {
      buffer.Reset();
    }
  }
}
