/** The scanner on the buffer, and input arriving in chunks with the scanner called after each. */
module FeedSpec {
  import opened Options
  import opened BufferSpec
  import opened LineSpec

  /** What the scanner looks for before the reader index when it comes to an LF. */
  predicate LooksBack(b: Buf)
    requires Valid(b)
  {
    b.reader > CHEAP_PREPEND + 1 && b.bytes[b.reader - 1] == '\r'
  }

  /** Overwrites the next byte with NUL and consumes it. */
  function TakeNul(b: Buf): (r: Buf)
    requires Valid(b) && b.reader < b.writer
    ensures Valid(r)
  {
    Retrieve(b.(bytes := b.bytes[b.reader := '\0']), 1)
  }

  /** HttpConnection::parseLine: its answer, and the buffer it leaves. */
  function ParseBuf(b: Buf): (r: (Status, Buf))
    requires Valid(b)
    ensures Valid(r.1) && |Content(r.1)| <= |Content(b)|
    decreases b.writer - b.reader
  {
    if b.reader == b.writer then (Open, b)
    else if b.bytes[b.reader] == '\r' then
      if b.reader + 1 == b.writer then (Open, b)
      else if b.bytes[b.reader + 1] == '\n' then (Ok, TakeNul(TakeNul(b)))
      else (Bad, b)
    else if b.bytes[b.reader] == '\n' then
      if LooksBack(b) then (Ok, TakeNul(b.(bytes := b.bytes[b.reader - 1 := '\0']))) else (Bad, b)
    else ParseBuf(Retrieve(b, 1))
  }

  /** What parseLine answers, and how much it consumes: the scan, but for an LF behind a CR consumed before. */
  function Parsed(b: Buf): (r: (Status, nat))
    requires Valid(b)
    ensures r.1 <= |Content(b)|
  {
    if Content(b) != [] && Content(b)[0] == '\n' && LooksBack(b) then (Ok, 1) else Scan(Content(b))
  }

  lemma TakeNulOk(b: Buf)
    requires Valid(b) && b.reader < b.writer
    ensures Content(TakeNul(b)) == Content(b)[1..]
  {
  }

  lemma RetrieveOne(b: Buf)
    requires Valid(b) && b.reader < b.writer && b.bytes[b.reader] != '\r'
    ensures !LooksBack(Retrieve(b, 1)) && Content(Retrieve(b, 1)) == Content(b)[1..]
  {
  }

  lemma {:induction false} ParseIsParsed(b: Buf)
    requires Valid(b)
    ensures ParseBuf(b).0 == Parsed(b).0
    ensures Content(ParseBuf(b).1) == Content(b)[Parsed(b).1..]
    decreases b.writer - b.reader
  {
    var c := Content(b);
    if c == [] {
    } else if c[0] == '\r' {
      if |c| > 1 && c[1] == '\n' {
        TakeNulOk(b);
        TakeNulOk(TakeNul(b));
        assert Content(ParseBuf(b).1) == c[1..][1..];
      }
    } else if c[0] == '\n' {
      if LooksBack(b) {
        var a := b.(bytes := b.bytes[b.reader - 1 := '\0']);
        TakeNulOk(a);
        assert Content(a) == c;
      }
    } else {
      RetrieveOne(b);
      ParseIsParsed(Retrieve(b, 1));
      assert Content(Retrieve(b, 1)) == c[1..];
    }
  }

  // ---------------------------------------------------------------- what every run keeps

  /** No byte consumed since the last reset is a CR, and when nothing is left to read there was a reset. */
  ghost predicate Settled(b: Buf) {
    && (forall i :: CHEAP_PREPEND <= i < b.reader && i < |b.bytes| ==> b.bytes[i] != '\r')
    && (b.reader == b.writer ==> b.reader == CHEAP_PREPEND)
  }

  lemma SettledNeverLooksBack(b: Buf)
    requires Valid(b) && Settled(b)
    ensures !LooksBack(b)
  {
    if b.reader > CHEAP_PREPEND { assert b.bytes[b.reader - 1] != '\r'; }
  }

  lemma AppendSettled(b: Buf, data: seq<char>)
    requires Valid(b) && Settled(b) && Append(b, data).Some?
    ensures Settled(Append(b, data).value)
  {
    AppendOk(b, data);
    var r := Append(b, data).value;
    forall i | CHEAP_PREPEND <= i < b.reader ensures r.bytes[i] != '\r' {
      assert r.bytes[..b.writer][i] == b.bytes[..b.writer][i];
    }
  }

  /** The scan consumes a CR only where it has overwritten it; and it does not move what it leaves. */
  lemma {:induction false} ParseSettled(b: Buf)
    requires Valid(b) && Settled(b)
    ensures var r := ParseBuf(b).1;
            Settled(r) && |r.bytes| == |b.bytes| && (r.reader < r.writer ==> r.writer == b.writer)
    decreases b.writer - b.reader
  {
    SettledNeverLooksBack(b);
    if b.reader < b.writer && b.bytes[b.reader] != '\r' && b.bytes[b.reader] != '\n' {
      ParseSettled(Retrieve(b, 1));
    }
  }

  /** All that happens to a connection's input buffer. */
  datatype Event = Arrive(input: seq<char>) | Parse | Reset

  /** One of them; None where it would compact. */
  function Happen(b: Buf, e: Event): (r: Option<Buf>)
    requires Valid(b)
    ensures r.Some? ==> Valid(r.value)
  {
    match e
    case Arrive(input) => if |input| > Capacity(b) then None else ReadFd(b, input)
    case Parse => Some(ParseBuf(b).1)
    case Reset => Some(b.(reader := CHEAP_PREPEND, writer := CHEAP_PREPEND))
  }

  function Serve(size: nat, events: seq<Event>): (r: Option<Buf>)
    ensures r.Some? ==> Valid(r.value)
  {
    if events == [] then Some(Init(size))
    else
      var b := Serve(size, events[..|events| - 1]);
      if b.None? then None else Happen(b.value, events[|events| - 1])
  }

  lemma HappenSettled(b: Buf, e: Event)
    requires Valid(b) && Settled(b) && Happen(b, e).Some?
    ensures Settled(Happen(b, e).value)
  {
    match e
    case Arrive(input) =>
      ReadFdIsAppend(b, input);
      AppendSettled(b, input);
    case Parse => ParseSettled(b);
    case Reset =>
  }

  /** On every run of a connection the look-back branch is never taken: parseLine is the scan of what can be read. */
  lemma {:induction false} NeverLooksBack(size: nat, events: seq<Event>, b: Buf)
    requires Serve(size, events) == Some(b)
    ensures Settled(b) && !LooksBack(b)
    ensures ParseBuf(b).0 == Scan(Content(b)).0 && Content(ParseBuf(b).1) == Content(b)[Scan(Content(b)).1..]
    decreases |events|
  {
    if events != [] {
      var a := Serve(size, events[..|events| - 1]).value;
      NeverLooksBack(size, events[..|events| - 1], a);
      HappenSettled(a, events[|events| - 1]);
    }
    SettledNeverLooksBack(b);
    ParseIsParsed(b);
  }

  // ---------------------------------------------------------------- input in chunks

  /** How a feed ended: the status, the chunks and the bytes it took, and the buffer then. */
  datatype Fed = Fed(status: Status, used: nat, consumed: nat, rest: Buf)

  /** Each chunk is appended and the scanner called, until it decides; None where an append would compact. */
  function FeedBuf(b: Buf, chunks: seq<seq<char>>): Option<Fed>
    requires Valid(b)
    decreases |chunks|
  {
    if chunks == [] then Some(Fed(Open, 0, 0, b))
    else
      var c := Append(b, chunks[0]);
      if c.None? then None
      else
        var (s, d) := ParseBuf(c.value);
        var k := |Content(c.value)| - |Content(d)|;
        if s != Open then Some(Fed(s, 1, k, d))
        else
          var f := FeedBuf(d, chunks[1..]);
          if f.None? then None else Some(Fed(f.value.status, 1 + f.value.used, k + f.value.consumed, f.value.rest))
  }

  /** One chunk: the buffer's answer is the scan's. */
  lemma FeedOne(b: Buf, chunk: seq<char>)
    requires Valid(b) && Settled(b) && Append(b, chunk).Some?
    ensures var c := Append(b, chunk).value; var (s, d) := ParseBuf(c); var all := Content(b) + chunk;
            Content(c) == all && Settled(d) && s == Scan(all).0 && Content(d) == all[Scan(all).1..]
  {
    AppendOk(b, chunk);
    AppendSettled(b, chunk);
    var c := Append(b, chunk).value;
    SettledNeverLooksBack(c);
    ParseIsParsed(c);
    ParseSettled(c);
  }

  /** The first chunk and the rest of a feed. */
  lemma FeedStep(b: Buf, chunks: seq<seq<char>>, f: Fed) returns (d: Buf, g: Fed)
    requires Valid(b) && Settled(b) && chunks != [] && FeedBuf(b, chunks) == Some(f)
    ensures Valid(d) && Settled(d)
    ensures var all := Content(b) + chunks[0]; var (s, k) := Scan(all);
            Content(d) == all[k..]
            && if s != Open then f == Fed(s, 1, k, d)
               else FeedBuf(d, chunks[1..]) == Some(g) && f == Fed(g.status, 1 + g.used, k + g.consumed, g.rest)
  {
    FeedOne(b, chunks[0]);
    d := ParseBuf(Append(b, chunks[0]).value).1;
    g := f;
    if Scan(Content(b) + chunks[0]).0 == Open { g := FeedBuf(d, chunks[1..]).value; }
  }

  lemma FeedFirst(left: seq<char>, chunks: seq<seq<char>>, rest: seq<char>, s: Status, k: nat)
    requires chunks != [] && Scan(left + chunks[0]).0 == Open
    requires rest == (left + chunks[0])[Scan(left + chunks[0]).1..] && Feed(rest, chunks[1..]).0 == s
             && Feed(rest, chunks[1..]).1 == k
    ensures Feed(left, chunks).0 == s && Feed(left, chunks).1 == Scan(left + chunks[0]).1 + k
  {
  }

  lemma FeedLast(left: seq<char>, chunks: seq<seq<char>>)
    requires chunks != [] && Scan(left + chunks[0]).0 != Open
    ensures Feed(left, chunks) == Scan(left + chunks[0])
  {
  }

  lemma {:induction false} FeedBufIsFeed(b: Buf, chunks: seq<seq<char>>, f: Fed)
    requires Valid(b) && Settled(b) && FeedBuf(b, chunks) == Some(f)
    ensures Feed(Content(b), chunks).0 == f.status && Feed(Content(b), chunks).1 == f.consumed
    ensures Valid(f.rest) && Settled(f.rest)
    decreases |chunks|
  {
    if chunks == [] {
      assert Feed(Content(b), chunks) == (Open, 0);
    } else {
      var d, g := FeedStep(b, chunks, f);
      if Scan(Content(b) + chunks[0]).0 != Open {
        FeedLast(Content(b), chunks);
      } else {
        FeedBufIsFeed(d, chunks[1..], g);
        FeedFirst(Content(b), chunks, Content(d), g.status, g.consumed);
      }
    }
  }

  lemma ConcatFirst(chunks: seq<seq<char>>, n: nat)
    requires 0 < n <= |chunks|
    ensures Concat(chunks[..n]) == chunks[0] + Concat(chunks[1..][..n - 1])
  {
    assert chunks[..n][1..] == chunks[1..][..n - 1];
  }

  /** Nothing of the chunks taken is lost: what is not consumed is still to be read. */
  lemma {:induction false} FeedKeepsRest(b: Buf, chunks: seq<seq<char>>, f: Fed)
    requires Valid(b) && Settled(b) && FeedBuf(b, chunks) == Some(f)
    ensures f.used <= |chunks| && (f.status == Open ==> f.used == |chunks|)
    ensures Valid(f.rest)
    ensures var all := Content(b) + Concat(chunks[..f.used]);
            f.consumed <= |all| && Content(f.rest) == all[f.consumed..]
    decreases |chunks|
  {
    if chunks == [] {
      assert Content(b) + [] == Content(b);
    } else {
      var d, g := FeedStep(b, chunks, f);
      var (s, k) := Scan(Content(b) + chunks[0]);
      if s != Open {
        assert Concat(chunks[..1]) == chunks[0] by { ConcatFirst(chunks, 1); }
      } else {
        FeedKeepsRest(d, chunks[1..], g);
        ConcatFirst(chunks, f.used);
        Skipped(Content(b), chunks[0], Concat(chunks[1..][..g.used]), k, g.consumed);
      }
    }
  }

  lemma Skipped(a: seq<char>, b: seq<char>, c: seq<char>, k: nat, j: nat)
    requires k <= |a + b| && j <= |(a + b)[k..] + c|
    ensures k + j <= |a + (b + c)| && ((a + b)[k..] + c)[j..] == (a + (b + c))[k + j..]
  {
    assert a + (b + c) == (a + b) + c;
    assert (a + b)[k..] + c == (a + (b + c))[k..];
  }

  /** However the input is split: appending the chunks and calling parseLine after each gives the status and the offset
      of one scan of it all, and what is not consumed of the chunks taken is still to be read. */
  lemma FeedIsScan(b: Buf, chunks: seq<seq<char>>, f: Fed)
    requires Valid(b) && Settled(b) && Scan(Content(b)) == (Open, 0) && FeedBuf(b, chunks) == Some(f)
    ensures Scan(Content(b) + Concat(chunks)) == (f.status, f.consumed)
    ensures f.used <= |chunks| && Valid(f.rest) && Settled(f.rest)
    ensures var all := Content(b) + Concat(chunks[..f.used]);
            f.consumed <= |all| && Content(f.rest) == all[f.consumed..]
  {
    FeedBufIsFeed(b, chunks, f);
    FeedKeepsRest(b, chunks, f);
    SplitIndependent(Content(b), chunks);
  }

  // ---------------------------------------------------------------- when an append would compact

  /** Behind an open scan an append compacts if and only if a CR is waiting and the vector has too little space behind
      it, but enough together with what was consumed in front of it. */
  lemma CompactsAfterOpen(b: Buf, len: nat)
    requires Valid(b) && Settled(b) && ParseBuf(b).0 == Open
    ensures var d := ParseBuf(b).1;
            Compacts(d, len)
            <==> Content(d) == ['\r'] && Writable(d) < len <= Writable(d) + (d.reader - CHEAP_PREPEND)
  {
    var d := ParseBuf(b).1;
    SettledNeverLooksBack(b);
    ParseIsParsed(b);
    ParseSettled(b);
    ScanMeans(Content(b));
    if Content(d) == [] { NoCompactionAtFront(d, len); }
  }

  predicate EndsInCr(chunk: seq<char>) {
    chunk != [] && chunk[|chunk| - 1] == '\r'
  }

  /** A chunk that comes while nothing waits. */
  lemma FirstFits(b: Buf, chunk: seq<char>)
    requires Valid(b) && Settled(b) && Content(b) == []
    ensures Append(b, chunk).Some?
    ensures var (s, d) := ParseBuf(Append(b, chunk).value);
            Settled(d) && s == Scan(chunk).0 && Content(d) == chunk[Scan(chunk).1..]
            && (s == Open && !EndsInCr(chunk) ==> Content(d) == [])
  {
    NoCompactionAtFront(b, |chunk|);
    AppendOk(b, chunk);
    FeedOne(b, chunk);
    assert Content(b) + chunk == chunk;
    ScanMeans(chunk);
  }

  /** So when no chunk but the last ends in a CR, and nothing waits at first, all appends are in order. */
  lemma {:induction false} FeedFits(b: Buf, chunks: seq<seq<char>>)
    requires Valid(b) && Settled(b) && Content(b) == []
    requires forall i :: 0 <= i < |chunks| - 1 ==> !EndsInCr(chunks[i])
    ensures FeedBuf(b, chunks).Some?
    decreases |chunks|
  {
    if chunks != [] {
      FirstFits(b, chunks[0]);
      var (s, d) := ParseBuf(Append(b, chunks[0]).value);
      if s == Open && |chunks| > 1 { FeedFits(d, chunks[1..]); }
    }
  }

  lemma {:induction false} ScanText(text: seq<char>)
    requires forall i :: 0 <= i < |text| ==> text[i] != '\r' && text[i] != '\n'
    ensures Scan(text + ['\r']) == (Open, |text|)
  {
    if text != [] {
      ScanText(text[1..]);
      assert (text + ['\r'])[1..] == text[1..] + ['\r'];
    }
  }

  lemma FeedTwo(b: Buf, first: seq<char>, second: seq<char>)
    requires Valid(b) && Append(b, first).Some?
    requires ParseBuf(Append(b, first).value).0 == Open && Append(ParseBuf(Append(b, first).value).1, second).None?
    ensures FeedBuf(b, [first, second]).None?
  {
    assert [first, second][1..] == [second];
  }

  /** A line that fills the buffer up to its CR. */
  lemma CrWaits(text: seq<char>)
    requires forall i :: 0 <= i < |text| ==> text[i] != '\r' && text[i] != '\n'
    ensures Append(Init(|text| + 1), text + ['\r']).Some?
    ensures var (s, d) := ParseBuf(Append(Init(|text| + 1), text + ['\r']).value);
            s == Open && Content(d) == ['\r'] && Writable(d) == 0 && d.reader == CHEAP_PREPEND + |text|
  {
    var b, chunk := Init(|text| + 1), text + ['\r'];
    FirstFits(b, chunk);
    ScanText(text);
    AppendSettled(b, chunk);
    ParseSettled(Append(b, chunk).value);
  }

  /** It does happen: in a buffer of any size, a line that fills it up to its CR, whose LF comes with the next chunk. */
  lemma SplitCrLfCompacts(text: seq<char>)
    requires text != [] && forall i :: 0 <= i < |text| ==> text[i] != '\r' && text[i] != '\n'
    ensures FeedBuf(Init(|text| + 1), [text + ['\r'], ['\n']]).None?
  {
    var b, chunk := Init(|text| + 1), text + ['\r'];
    CrWaits(text);
    var d := ParseBuf(Append(b, chunk).value).1;
    AppendOk(d, ['\n']);
    FeedTwo(b, chunk, ['\n']);
  }
}
