/** The double-buffered logger as a transition system: producers append under the lock,
    one backend thread swaps, trims, writes and recycles.  Every C++ assertion and every
    dereference of a moved-from pointer is a step to `Crashed`.  B names buffers. */
module AsyncLogSpec {
  import opened Options

  datatype Line = Line(text: string)

  const SIZE: nat := 4000000

  /** A batch may be this long before it is cut down to its first KEPT buffers. */
  const MAX_BATCH: nat := 25
  const KEPT: nat := 2

  datatype Pc =
    | Idle | Starting | Top | Ready | Swapped | Writing(i: nat) | Written | Shrunk | Refilled | Recycled
    | Ended | Crashed

  /** The contents of the buffers of one swap, oldest first. */
  type Batch = seq<seq<Line>>

  /** `lines` is what each buffer holds.  The last four are ghosts: the lines written, the lines a buffer took
      in lock order, the batches dealt with so far, and the contents of the batch at hand when it was swapped. */
  datatype State<B(==)> = State(
    current: B, next: Option<B>, queued: seq<B>, lines: map<B, seq<Line>>, running: bool,
    pc: Pc, new1: Option<B>, new2: Option<B>, batch: seq<B>,
    file: seq<Line>, accepted: seq<Line>, ledger: seq<Batch>, whole: Batch)

  datatype Action<B> =
    | Append(text: string, len: int, spare: B)
    | Start | Stop
    | Enter(first: B, second: B) | Test | Swap | Trim | Write | Resize | Recycle1 | Recycle2 | Clear

  function Flat(ls: seq<Line>): (r: string) {
    if ls == [] then [] else Flat(ls[..|ls| - 1]) + ls[|ls| - 1].text
  }

  /** The lines of several buffers, one after the other. */
  function Join(b: Batch): (r: seq<Line>) {
    if b == [] then [] else Join(b[..|b| - 1]) + b[|b| - 1]
  }

  function KeptOf(b: Batch): Batch {
    if |b| > MAX_BATCH then b[..KEPT] else b
  }

  function All(l: seq<Batch>): (r: seq<Line>) {
    if l == [] then [] else All(l[..|l| - 1]) + Join(l[|l| - 1])
  }

  function AllKept(l: seq<Batch>): (r: seq<Line>) {
    if l == [] then [] else AllKept(l[..|l| - 1]) + Join(KeptOf(l[|l| - 1]))
  }

  function Content<B(==)>(s: State<B>, b: B): seq<Line> {
    if b in s.lines then s.lines[b] else []
  }

  function Contents<B(==)>(s: State<B>, bs: seq<B>): (r: Batch)
    ensures |r| == |bs| && forall i :: 0 <= i < |bs| ==> r[i] == Content(s, bs[i])
  {
    seq(|bs|, i requires 0 <= i < |bs| => Content(s, bs[i]))
  }

  function Avail<B(==)>(s: State<B>, b: B): int {
    SIZE - |Flat(Content(s, b))|
  }

  /** FixedBuffer::append: takes the line whole, or not at all.  A negative length is a huge size_t. */
  function Put<B(==)>(s: State<B>, text: string, len: int): State<B> {
    if 0 <= len <= |text| && Avail(s, s.current) > len then
      s.(lines := s.lines[s.current := Content(s, s.current) + [Line(text[..len])]],
         accepted := s.accepted + [Line(text[..len])])
    else s
  }

  function Crash<B(==)>(s: State<B>): State<B> {
    s.(pc := Crashed)
  }

  /** append finds the current buffer full: it queues it and takes the spare one, or a new one. */
  function Turned<B(==)>(s: State<B>, spare: B): State<B> {
    var s1 := s.(queued := s.queued + [s.current]);
    if s.next.Some? then s1.(current := s.next.value, next := None)
    else s1.(current := spare, lines := s1.lines[spare := []])
  }

  function DoAppend<B(==)>(s: State<B>, text: string, len: int, spare: B): State<B> {
    if Avail(s, s.current) > len then Put(s, text, len) else Put(Turned(s, spare), text, len)
  }

  /** What the assertions at the head of the loop ask. */
  predicate HeadOk<B(==)>(s: State<B>) {
    && s.new1.Some? && Content(s, s.new1.value) == []
    && s.new2.Some? && Content(s, s.new2.value) == []
    && s.batch == []
  }

  function DoStart<B(==)>(s: State<B>): State<B> {
    s.(running := true, pc := Starting)
  }

  /** The backend up to its loop: its first assertion, then its two spare buffers. */
  function DoEnter<B(==)>(s: State<B>, b: B, c: B): State<B> {
    if !s.running then Crash(s)
    else s.(pc := Top, new1 := Some(b), new2 := Some(c), lines := s.lines[b := []][c := []])
  }

  function DoStop<B(==)>(s: State<B>): State<B> {
    s.(running := false)
  }

  function DoTest<B(==)>(s: State<B>): State<B> {
    if !s.running then s.(pc := Ended) else if HeadOk(s) then s.(pc := Ready) else Crash(s)
  }

  function DoSwap<B(==)>(s: State<B>): State<B> {
    if s.new1.None? then Crash(s)
    else
      var batch := s.queued + [s.current];
      var s1 := s.(batch := batch, queued := s.batch, current := s.new1.value, new1 := None,
                   whole := Contents(s, batch), pc := Swapped);
      if s.next.None? then s1.(next := s.new2, new2 := None) else s1
  }

  function DoTrim<B(==)>(s: State<B>): State<B> {
    if s.batch == [] then Crash(s)
    else s.(batch := if |s.batch| > MAX_BATCH then s.batch[..KEPT] else s.batch, pc := Writing(0))
  }

  function DoWrite<B(==)>(s: State<B>): State<B>
    requires s.pc.Writing?
  {
    if s.pc.i < |s.batch| then s.(file := s.file + Content(s, s.batch[s.pc.i]), pc := Writing(s.pc.i + 1))
    else s.(pc := Written)
  }

  function DoResize<B(==)>(s: State<B>): State<B> {
    s.(batch := if |s.batch| > KEPT then s.batch[..KEPT] else s.batch, pc := Shrunk)
  }

  function DoRecycle1<B(==)>(s: State<B>): State<B> {
    if s.new1.Some? then s.(pc := Refilled)
    else if s.batch == [] then Crash(s)
    else
      var n := |s.batch| - 1;
      s.(new1 := Some(s.batch[n]), batch := s.batch[..n], lines := s.lines[s.batch[n] := []], pc := Refilled)
  }

  function DoRecycle2<B(==)>(s: State<B>): State<B> {
    if s.new2.Some? then s.(pc := Recycled)
    else if s.batch == [] then Crash(s)
    else
      var n := |s.batch| - 1;
      s.(new2 := Some(s.batch[n]), batch := s.batch[..n], lines := s.lines[s.batch[n] := []], pc := Recycled)
  }

  function DoClear<B(==)>(s: State<B>): State<B> {
    s.(batch := [], ledger := s.ledger + [s.whole], whole := [], pc := Top)
  }

  /** Where append makes a new buffer, that is one that never existed. */
  predicate Fresh<B(==)>(s: State<B>, len: int, spare: B) {
    Avail(s, s.current) <= len && s.next.None? ==> spare !in s.lines
  }

  /** Which steps may come next: the backend follows its code; producers come at any time, and stop at any time
      after start has returned, which waits until the backend is past its first assertion. */
  predicate Enabled<B(==)>(s: State<B>, a: Action<B>) {
    match a
    case Append(text, len, spare) => len <= |text| && Fresh(s, len, spare)
    case Start => s.pc == Idle
    case Stop => s.pc != Idle && s.pc != Starting
    case Enter(b, c) => s.pc == Starting && b != c && b !in s.lines && c !in s.lines
    case Test => s.pc == Top
    case Swap => s.pc == Ready
    case Trim => s.pc == Swapped
    case Write => s.pc.Writing?
    case Resize => s.pc == Written
    case Recycle1 => s.pc == Shrunk
    case Recycle2 => s.pc == Refilled
    case Clear => s.pc == Recycled
  }

  function Do<B(==)>(s: State<B>, a: Action<B>): State<B>
    requires Enabled(s, a)
  {
    match a
    case Append(text, len, spare) => DoAppend(s, text, len, spare)
    case Start => DoStart(s)
    case Stop => DoStop(s)
    case Enter(b, c) => DoEnter(s, b, c)
    case Test => DoTest(s)
    case Swap => DoSwap(s)
    case Trim => DoTrim(s)
    case Write => DoWrite(s)
    case Resize => DoResize(s)
    case Recycle1 => DoRecycle1(s)
    case Recycle2 => DoRecycle2(s)
    case Clear => DoClear(s)
  }

  function Init<B(==)>(b: B, c: B): State<B> {
    State(b, Some(c), [], map[b := [], c := []], false, Idle, None, None, [], [], [], [], [])
  }

  // ---------------------------------------------------------------- runs

  /** Where a run leads from s; None if some step was not enabled. */
  function Run<B(==)>(s: State<B>, run: seq<Action<B>>): Option<State<B>> {
    if run == [] then Some(s)
    else
      var t := Run(s, run[..|run| - 1]);
      if t.Some? && Enabled(t.value, run[|run| - 1]) then Some(Do(t.value, run[|run| - 1])) else None
  }

  // ---------------------------------------------------------------- the invariant

  predicate Distinct<T(==)>(c: seq<T>) {
    forall i, j :: 0 <= i < j < |c| ==> c[i] != c[j]
  }

  /** b is neither queued nor in the batch. */
  predicate Off<B(==)>(s: State<B>, b: B) {
    b in s.lines && b !in s.queued && b !in s.batch
  }

  /** The buffers held as current, next, queued, first and second spare and in the batch are pairwise distinct. */
  predicate Apart<B(==)>(s: State<B>) {
    && Off(s, s.current) && s.next != Some(s.current) && s.new1 != Some(s.current) && s.new2 != Some(s.current)
    && (s.next.Some? ==> Off(s, s.next.value) && s.new1 != s.next && s.new2 != s.next)
    && (s.new1.Some? ==> Off(s, s.new1.value) && s.new2 != s.new1)
    && (s.new2.Some? ==> Off(s, s.new2.value))
    && Distinct(s.queued) && Distinct(s.batch)
    && (forall b :: b in s.queued ==> b in s.lines && b !in s.batch)
    && (forall b :: b in s.batch ==> b in s.lines)
  }

  predicate EmptyOpt<B(==)>(s: State<B>, o: Option<B>) {
    o.Some? ==> Content(s, o.value) == []
  }

  /** How many buffers of the batch are in the file. */
  function WrittenCount<B(==)>(s: State<B>): nat {
    if s.pc.Writing? then s.pc.i
    else if s.pc in {Written, Shrunk, Refilled, Recycled} then |KeptOf(s.whole)|
    else 0
  }

  /** The batch at hand; when the second spare was given away it has two buffers. */
  predicate BatchOk<B(==)>(s: State<B>) {
    s.new1 == None && s.batch != [] && (s.new2.None? ==> |s.batch| >= 2)
  }

  /** What the backend has in hand at each point of its loop. */
  predicate BackendOk<B(==)>(s: State<B>) {
    || (s.pc == Idle && s.new1 == None && s.new2 == None && s.batch == [] && s.whole == [])
    || (s.pc == Starting && s.running && s.new1 == None && s.new2 == None && s.batch == [] && s.whole == [])
    || (s.pc in {Top, Ready, Ended} && HeadOk(s) && s.whole == [])
    || (s.pc == Swapped && BatchOk(s) && s.whole == Contents(s, s.batch))
    || (s.pc.Writing? && BatchOk(s) && s.pc.i <= |s.batch| && KeptOf(s.whole) == Contents(s, s.batch))
    || (s.pc in {Written, Shrunk} && BatchOk(s) && (s.pc == Shrunk ==> |s.batch| <= KEPT))
    || (s.pc == Refilled && s.new1.Some? && (s.new2.None? ==> s.batch != []) && |s.batch| <= KEPT)
    || (s.pc == Recycled && s.new1.Some? && s.new2.Some?)
  }

  /** Buffers waiting to be filled are empty; there is a spare or a full buffer. */
  predicate SparesOk<B(==)>(s: State<B>) {
    && EmptyOpt(s, s.next) && EmptyOpt(s, s.new1) && EmptyOpt(s, s.new2)
    && (s.next.None? ==> s.queued != [])
  }

  predicate Bounded<B(==)>(s: State<B>) {
    forall b :: b in s.lines ==> |Flat(s.lines[b])| < SIZE
  }

  /** Every line accepted is in a batch dealt with, in the batch at hand, queued or current, in this order. */
  predicate Conserved<B(==)>(s: State<B>) {
    s.accepted == All(s.ledger) + Join(s.whole) + Join(Contents(s, s.queued)) + Content(s, s.current)
  }

  /** The file has what was kept of the batches dealt with, and the buffers written of the one at hand. */
  predicate FileOk<B(==)>(s: State<B>) {
    && WrittenCount(s) <= |KeptOf(s.whole)|
    && s.file == AllKept(s.ledger) + Join(KeptOf(s.whole)[..WrittenCount(s)])
  }

  predicate Inv<B(==)>(s: State<B>) {
    Apart(s) && SparesOk(s) && BackendOk(s) && Bounded(s) && Conserved(s) && FileOk(s)
  }

  // ---------------------------------------------------------------- every step keeps it

  lemma FlatAdd(ls: seq<Line>, l: Line)
    ensures Flat(ls + [l]) == Flat(ls) + l.text
  {
    assert (ls + [l])[..|ls|] == ls;
  }

  lemma JoinAdd(b: Batch, ls: seq<Line>)
    ensures Join(b + [ls]) == Join(b) + ls
  {
    assert (b + [ls])[..|b|] == b;
  }

  lemma AllAdd(l: seq<Batch>, b: Batch)
    ensures All(l + [b]) == All(l) + Join(b) && AllKept(l + [b]) == AllKept(l) + Join(KeptOf(b))
  {
    assert (l + [b])[..|l|] == l;
  }

  /** b is at most the current buffer. */
  predicate Alone<B(==)>(s: State<B>, b: B) {
    b !in s.queued && b !in s.batch && s.next != Some(b) && s.new1 != Some(b) && s.new2 != Some(b)
  }

  lemma PutConserved<B>(s: State<B>, text: string, len: int)
    requires Apart(s) && Conserved(s)
    ensures Conserved(Put(s, text, len))
  {
    var s' := Put(s, text, len);
    if s' != s {
      assert Contents(s', s.queued) == Contents(s, s.queued);
    }
  }

  /** The backend's part of the state is as it was. */
  predicate SameBackend<B(==)>(s: State<B>, s': State<B>) {
    && (s.pc == Starting ==> s'.running == s.running)
    && s'.pc == s.pc && s'.new1 == s.new1 && s'.new2 == s.new2 && s'.batch == s.batch && s'.whole == s.whole
    && (forall b :: b in s.batch ==> Content(s', b) == Content(s, b))
    && (s.new1.Some? ==> Content(s', s.new1.value) == Content(s, s.new1.value))
    && (s.new2.Some? ==> Content(s', s.new2.value) == Content(s, s.new2.value))
  }

  lemma BackendStays<B>(s: State<B>, s': State<B>)
    requires BackendOk(s) && SameBackend(s, s')
    ensures BackendOk(s')
  {
    assert Contents(s', s.batch) == Contents(s, s.batch);
  }

  lemma PutBounded<B>(s: State<B>, text: string, len: int)
    requires Bounded(s)
    ensures Bounded(Put(s, text, len))
  {
    if 0 <= len <= |text| { FlatAdd(Content(s, s.current), Line(text[..len])); }
  }

  lemma PutFrame<B>(s: State<B>, text: string, len: int)
    requires Alone(s, s.current) && SparesOk(s)
    ensures SparesOk(Put(s, text, len)) && SameBackend(s, Put(s, text, len))
  {
  }

  lemma PutApart<B>(s: State<B>, text: string, len: int)
    requires Apart(s) && FileOk(s)
    ensures Apart(Put(s, text, len)) && FileOk(Put(s, text, len)) && Alone(s, s.current)
  {
  }

  lemma InvPut<B>(s: State<B>, text: string, len: int)
    requires Inv(s)
    ensures Inv(Put(s, text, len))
  {
    PutApart(s, text, len);
    PutConserved(s, text, len);
    PutBounded(s, text, len);
    PutFrame(s, text, len);
    BackendStays(s, Put(s, text, len));
  }

  lemma ContentsAdd<B>(s: State<B>, bs: seq<B>, b: B)
    ensures Contents(s, bs + [b]) == Contents(s, bs) + [Content(s, b)]
  {
  }

  lemma TurnedApart<B>(s: State<B>, spare: B)
    requires Apart(s) && (s.next.None? ==> spare !in s.lines)
    ensures Apart(Turned(s, spare))
  {
  }

  lemma TurnedFrame<B>(s: State<B>, spare: B)
    requires SparesOk(s) && Bounded(s) && Apart(s) && (s.next.None? ==> spare !in s.lines)
    ensures var s' := Turned(s, spare);
            SparesOk(s') && Bounded(s') && SameBackend(s, s') && Content(s', s'.current) == []
  {
  }

  lemma TurnedConserved<B>(s: State<B>, spare: B)
    requires Apart(s) && SparesOk(s) && Conserved(s) && (s.next.None? ==> spare !in s.lines)
    ensures Conserved(Turned(s, spare))
  {
    var s' := Turned(s, spare);
    assert Contents(s', s.queued) == Contents(s, s.queued);
    assert Content(s', s.current) == Content(s, s.current);
    ContentsAdd(s', s.queued, s.current);
    JoinAdd(Contents(s', s.queued), Content(s', s.current));
    Regroup(All(s.ledger) + Join(s.whole), Join(Contents(s, s.queued)), Content(s, s.current));
  }

  lemma Regroup<T>(a: seq<T>, b: seq<T>, c: seq<T>)
    ensures a + (b + c) + [] == a + b + c
  {
  }

  lemma InvTurned<B>(s: State<B>, spare: B)
    requires Inv(s) && (s.next.None? ==> spare !in s.lines)
    ensures Inv(Turned(s, spare))
  {
    TurnedApart(s, spare);
    TurnedFrame(s, spare);
    TurnedConserved(s, spare);
    BackendStays(s, Turned(s, spare));
  }

  lemma InvAppend<B>(s: State<B>, text: string, len: int, spare: B)
    requires Inv(s) && Fresh(s, len, spare)
    ensures Inv(DoAppend(s, text, len, spare))
  {
    if Avail(s, s.current) > len {
      InvPut(s, text, len);
    } else {
      InvTurned(s, spare);
      InvPut(Turned(s, spare), text, len);
    }
  }

  lemma InvEnter<B>(s: State<B>, b: B, c: B)
    requires Inv(s) && s.pc == Starting && b != c && b !in s.lines && c !in s.lines
    ensures Inv(DoEnter(s, b, c))
  {
    EnterApart(s, b, c);
    EnterConserved(s, b, c);
    EnterBackend(s, b, c);
  }

  lemma EnterBackend<B>(s: State<B>, b: B, c: B)
    requires SparesOk(s) && Bounded(s) && s.batch == [] && s.whole == [] && FileOk(s) && s.pc == Starting && s.running
    requires Alone(s, b) && Alone(s, c)
    ensures var s' := DoEnter(s, b, c); SparesOk(s') && Bounded(s') && BackendOk(s') && FileOk(s')
  {
  }

  lemma EnterApart<B>(s: State<B>, b: B, c: B)
    requires Apart(s) && s.new1.None? && s.new2.None? && b != c && b !in s.lines && c !in s.lines
    ensures Apart(DoEnter(s, b, c))
  {
  }

  lemma EnterConserved<B>(s: State<B>, b: B, c: B)
    requires Conserved(s) && Alone(s, b) && Alone(s, c) && s.current != b && s.current != c
    ensures Conserved(DoEnter(s, b, c))
  {
    assert Contents(DoEnter(s, b, c), s.queued) == Contents(s, s.queued);
  }

  lemma SwapApart<B>(s: State<B>)
    requires Apart(s) && HeadOk(s)
    ensures Apart(DoSwap(s))
  {
  }

  lemma SwapConserved<B>(s: State<B>)
    requires HeadOk(s) && s.whole == [] && Conserved(s)
    ensures Conserved(DoSwap(s))
  {
    var s' := DoSwap(s);
    ContentsAdd(s, s.queued, s.current);
    JoinAdd(Contents(s, s.queued), Content(s, s.current));
    assert Contents(s', []) == [];
    assert s'.whole == Contents(s, s.queued) + [Content(s, s.current)];
    Resettle(All(s.ledger), Join(Contents(s, s.queued)), Content(s, s.current));
  }

  lemma Resettle<T>(a: seq<T>, b: seq<T>, c: seq<T>)
    ensures a + [] + b + c == a + (b + c) + [] + []
  {
  }

  lemma SwapBackend<B>(s: State<B>)
    requires SparesOk(s) && Bounded(s) && HeadOk(s)
    ensures SparesOk(DoSwap(s)) && Bounded(DoSwap(s)) && DoSwap(s).pc == Swapped && BackendOk(DoSwap(s))
  {
    var s' := DoSwap(s);
    assert Contents(s', s'.batch) == Contents(s, s'.batch);
  }

  lemma InvSwap<B>(s: State<B>)
    requires Inv(s) && s.pc == Ready
    ensures Inv(DoSwap(s))
  {
    SwapApart(s);
    SwapConserved(s);
    SwapBackend(s);
    SwapFile(s);
  }

  lemma SwapFile<B>(s: State<B>)
    requires FileOk(s) && s.pc == Ready && HeadOk(s) && s.whole == []
    ensures FileOk(DoSwap(s))
  {
    assert KeptOf(DoSwap(s).whole)[..0] == [] == KeptOf(s.whole)[..0];
  }

  /** Buffers that are let go leave the others apart. */
  lemma CutApart<B>(s: State<B>, k: nat)
    requires Apart(s) && k <= |s.batch|
    ensures Apart(s.(batch := s.batch[..k]))
  {
    assert s.batch == s.batch[..k] + s.batch[k..];
  }

  /** Nobody else holds a buffer of the batch. */
  lemma LastApart<B>(s: State<B>)
    requires Apart(s) && s.batch != []
    ensures var b := s.batch[|s.batch| - 1];
            b in s.lines && b != s.current && b !in s.queued && s.next != Some(b) && s.new1 != Some(b)
            && s.new2 != Some(b)
  {
    var b := s.batch[|s.batch| - 1];
  }

  /** What is conserved depends on the front end and the ghosts only. */
  predicate SameFront<B(==)>(s: State<B>, s': State<B>) {
    && s'.current == s.current && s'.next == s.next && s'.queued == s.queued
    && Content(s', s.current) == Content(s, s.current)
    && (s.next.Some? ==> Content(s', s.next.value) == Content(s, s.next.value))
    && (forall b :: b in s.queued ==> Content(s', b) == Content(s, b))
    && s'.accepted == s.accepted && s'.ledger == s.ledger && s'.whole == s.whole
  }

  lemma FrontStays<B>(s: State<B>, s': State<B>)
    requires SameFront(s, s') && Conserved(s)
    ensures Conserved(s')
  {
    assert Contents(s', s.queued) == Contents(s, s.queued);
  }

  lemma TrimBackend<B>(s: State<B>)
    requires BackendOk(s) && s.pc == Swapped
    ensures DoTrim(s).pc == Writing(0) && BackendOk(DoTrim(s))
  {
    var s' := DoTrim(s);
    assert KeptOf(s.whole) == Contents(s', s'.batch);
  }

  /** A step of the backend on its own: it lets go of buffers at the end of the batch, and writes. */
  predicate Quiet<B(==)>(s: State<B>, s': State<B>) {
    s'.batch <= s.batch && s' == s.(pc := s'.pc, batch := s'.batch, file := s'.file, running := s'.running)
  }

  lemma QuietFront<B>(s: State<B>, s': State<B>)
    requires SparesOk(s) && Bounded(s) && Conserved(s) && Quiet(s, s')
    ensures SparesOk(s') && Bounded(s') && Conserved(s')
  {
    assert Contents(s', s.queued) == Contents(s, s.queued);
  }

  lemma QuietApart<B>(s: State<B>, s': State<B>)
    requires Apart(s) && Quiet(s, s')
    ensures Apart(s')
  {
    CutApart(s, |s'.batch|);
    assert s'.batch == s.batch[..|s'.batch|];
  }

  lemma InvQuiet<B>(s: State<B>, s': State<B>)
    requires Apart(s) && SparesOk(s) && Bounded(s) && Conserved(s) && Quiet(s, s') && BackendOk(s') && FileOk(s')
    ensures Inv(s')
  {
    QuietFront(s, s');
    QuietApart(s, s');
  }

  lemma TrimFile<B>(s: State<B>)
    requires FileOk(s) && s.pc == Swapped && s.batch != []
    ensures FileOk(DoTrim(s))
  {
  }

  lemma InvTrim<B>(s: State<B>)
    requires Inv(s) && s.pc == Swapped
    ensures Inv(DoTrim(s))
  {
    TrimBackend(s);
    TrimFile(s);
    InvQuiet(s, DoTrim(s));
  }

  lemma WriteFile<B>(s: State<B>)
    requires BackendOk(s) && s.pc.Writing? && FileOk(s)
    ensures FileOk(DoWrite(s))
  {
    var i, k := s.pc.i, KeptOf(s.whole);
    assert |k| == |s.batch|;
    if i < |k| {
      assert k[i] == Content(s, s.batch[i]);
      WriteOne(AllKept(s.ledger), k, i);
      assert DoWrite(s).file == s.file + k[i];
    } else {
      assert k[..i] == k[..|k|];
    }
  }

  lemma WriteBackend<B>(s: State<B>)
    requires BackendOk(s) && s.pc.Writing?
    ensures BackendOk(DoWrite(s))
  {
    assert |KeptOf(s.whole)| == |s.batch|;
    assert Contents(DoWrite(s), s.batch) == Contents(s, s.batch);
  }

  lemma WriteOne(file: seq<Line>, k: Batch, i: nat)
    requires i < |k|
    ensures file + Join(k[..i]) + k[i] == file + Join(k[..i + 1])
  {
    assert k[..i + 1] == k[..i] + [k[i]];
    JoinAdd(k[..i], k[i]);
  }

  lemma InvWrite<B>(s: State<B>)
    requires Inv(s) && s.pc.Writing?
    ensures Inv(DoWrite(s))
  {
    WriteFile(s);
    WriteBackend(s);
    InvQuiet(s, DoWrite(s));
  }

  lemma ResizeBackend<B>(s: State<B>)
    requires BackendOk(s) && FileOk(s) && s.pc == Written
    ensures BackendOk(DoResize(s)) && FileOk(DoResize(s)) && Quiet(s, DoResize(s))
  {
  }

  lemma InvResize<B>(s: State<B>)
    requires Inv(s) && s.pc == Written
    ensures Inv(DoResize(s))
  {
    ResizeBackend(s);
    InvQuiet(s, DoResize(s));
  }

  /** Taking back the last buffer of the batch empties it and leaves the others as they are. */
  predicate TakenBack<B(==)>(s: State<B>, s': State<B>) {
    && s.batch != []
    && var n := |s.batch| - 1;
    && s'.lines == s.lines[s.batch[n] := []] && s'.batch == s.batch[..n]
    && ((s.new1.None? && s'.new1 == Some(s.batch[n]) && s'.new2 == s.new2)
        || (s.new2.None? && s'.new2 == Some(s.batch[n]) && s'.new1 == s.new1))
    && s'.current == s.current && s'.next == s.next && s'.queued == s.queued
    && s'.accepted == s.accepted && s'.ledger == s.ledger && s'.whole == s.whole
  }

  lemma TakenBackApart<B>(s: State<B>, s': State<B>)
    requires Apart(s) && TakenBack(s, s')
    ensures Apart(s')
  {
    var n := |s.batch| - 1;
    assert s.batch == s.batch[..n] + [s.batch[n]];
  }

  lemma TakenBackFront<B>(s: State<B>, s': State<B>)
    requires TakenBack(s, s')
    requires var b := s.batch[|s.batch| - 1]; b != s.current && b !in s.queued && s.next != Some(b)
    ensures SameFront(s, s')
  {
  }

  lemma TakenBackSpares<B>(s: State<B>, s': State<B>)
    requires SparesOk(s) && Bounded(s) && TakenBack(s, s') && SameFront(s, s')
    ensures SparesOk(s') && Bounded(s')
  {
  }

  lemma InvTakenBack<B>(s: State<B>, s': State<B>)
    requires Apart(s) && SparesOk(s) && Bounded(s) && Conserved(s) && TakenBack(s, s') && BackendOk(s') && FileOk(s')
    ensures Inv(s')
  {
    TakenBackApart(s, s');
    LastApart(s);
    TakenBackFront(s, s');
    FrontStays(s, s');
    TakenBackSpares(s, s');
  }

  lemma InvRecycle1<B>(s: State<B>)
    requires Inv(s) && s.pc == Shrunk
    ensures Inv(DoRecycle1(s))
  {
    InvTakenBack(s, DoRecycle1(s));
  }

  lemma InvRecycle2<B>(s: State<B>)
    requires Inv(s) && s.pc == Refilled
    ensures Inv(DoRecycle2(s))
  {
    if s.new2.None? {
      InvTakenBack(s, DoRecycle2(s));
    } else {
      InvQuiet(s, DoRecycle2(s));
    }
  }

  lemma ClearConserved<B>(s: State<B>)
    requires Conserved(s) && FileOk(s) && s.pc == Recycled
    ensures Conserved(DoClear(s)) && FileOk(DoClear(s))
  {
    var s', k := DoClear(s), KeptOf(s.whole);
    AllAdd(s.ledger, s.whole);
    assert Contents(s', s.queued) == Contents(s, s.queued);
    assert k[..|k|] == k;
    Settle(All(s'.ledger));
    Settle(AllKept(s'.ledger));
  }

  lemma Settle(a: seq<Line>)
    ensures a + Join([]) == a && Join(KeptOf([])[..0]) == []
  {
  }

  lemma InvClear<B>(s: State<B>)
    requires Inv(s) && s.pc == Recycled
    ensures Inv(DoClear(s))
  {
    ClearApart(s);
    ClearConserved(s);
  }

  lemma ClearApart<B>(s: State<B>)
    requires Apart(s) && SparesOk(s) && Bounded(s)
    ensures Apart(DoClear(s)) && SparesOk(DoClear(s)) && Bounded(DoClear(s))
  {
  }

  lemma StepKeeps<B>(s: State<B>, a: Action<B>)
    requires Inv(s) && Enabled(s, a)
    ensures Inv(Do(s, a))
  {
    match a
    case Append(text, len, spare) => InvAppend(s, text, len, spare);
    case Start => InvStart(s);
    case Stop => InvStop(s);
    case Enter(b, c) => InvEnter(s, b, c);
    case Test => InvTest(s);
    case Swap => InvSwap(s);
    case Trim => InvTrim(s);
    case Write => InvWrite(s);
    case Resize => InvResize(s);
    case Recycle1 => InvRecycle1(s);
    case Recycle2 => InvRecycle2(s);
    case Clear => InvClear(s);
  }

  lemma InvStart<B>(s: State<B>)
    requires Inv(s) && s.pc == Idle
    ensures Inv(DoStart(s))
  {
    InvQuiet(s, DoStart(s));
  }

  lemma InvStop<B>(s: State<B>)
    requires Inv(s) && s.pc != Starting
    ensures Inv(DoStop(s))
  {
    var s' := DoStop(s);
    BackendStays(s, s');
    InvQuiet(s, s');
  }

  lemma InvTest<B>(s: State<B>)
    requires Inv(s) && s.pc == Top
    ensures Inv(DoTest(s))
  {
    InvQuiet(s, DoTest(s));
  }

  lemma InvInit<B>(b: B, c: B)
    requires b != c
    ensures Inv(Init(b, c))
  {
    var s := Init(b, c);
    assert Contents(s, []) == [];
    assert Flat([]) == [];
  }

  /** s is where the run leads, from a logger whose first two buffers are b and c. */
  predicate Reaches<B(==)>(b: B, c: B, run: seq<Action<B>>, s: State<B>) {
    b != c && Run(Init(b, c), run) == Some(s)
  }

  /** The invariant holds after every run, in whatever order the threads take their steps. */
  lemma {:induction false} RunKeeps<B>(b: B, c: B, run: seq<Action<B>>, s: State<B>)
    requires Reaches(b, c, run, s)
    ensures Inv(s)
  {
    if run == [] {
      InvInit(b, c);
    } else {
      var t := Run(Init(b, c), run[..|run| - 1]).value;
      RunKeeps(b, c, run[..|run| - 1], t);
      StepKeeps(t, run[|run| - 1]);
    }
  }

  // ---------------------------------------------------------------- what the logger promises

  /** The buffers of the batch at hand that are still to be written. */
  function Unwritten<B(==)>(s: State<B>): Batch
    requires WrittenCount(s) <= |KeptOf(s.whole)|
  {
    KeptOf(s.whole)[WrittenCount(s)..]
  }

  lemma {:induction false} JoinConcat(a: Batch, b: Batch)
    ensures Join(a + b) == Join(a) + Join(b)
    decreases |b|
  {
    if b == [] {
      assert a + b == a;
    } else {
      var c, ls := b[..|b| - 1], b[|b| - 1];
      JoinConcat(a, c);
      assert a + b == (a + c) + [ls];
      JoinAdd(a + c, ls);
      Associate(Join(a), Join(c), ls);
    }
  }

  lemma Associate(a: seq<Line>, b: seq<Line>, c: seq<Line>)
    ensures a + b + c == a + (b + c)
  {
  }

  lemma JoinSplit(b: Batch, i: nat)
    requires i <= |b|
    ensures Join(b) == Join(b[..i]) + Join(b[i..])
  {
    Halves(b, i);
    JoinConcat(b[..i], b[i..]);
  }

  lemma Halves<T>(b: seq<T>, i: nat)
    requires i <= |b|
    ensures b == b[..i] + b[i..]
  {
  }

  lemma NothingDropped(l: seq<Batch>)
    requires forall i :: 0 <= i < |l| ==> |l[i]| <= MAX_BATCH
    ensures AllKept(l) == All(l)
  {
    if l != [] {
      NothingDropped(l[..|l| - 1]);
    }
  }

  /** No batch so far exceeded 25 buffers. */
  predicate NoDrops<B(==)>(s: State<B>) {
    (forall i :: 0 <= i < |s.ledger| ==> |s.ledger[i]| <= MAX_BATCH) && |s.whole| <= MAX_BATCH
  }

  /** While no batch exceeds 25 buffers, the file, what is left of the batch, the queued buffers and the
      current one hold, in this order, exactly the lines accepted; so the file is always a prefix of them. */
  lemma FileIsPrefix<B>(b: B, c: B, run: seq<Action<B>>, s: State<B>)
    requires Reaches(b, c, run, s) && NoDrops(s)
    ensures WrittenCount(s) <= |KeptOf(s.whole)|
            && s.accepted == s.file + Join(Unwritten(s)) + Join(Contents(s, s.queued)) + Content(s, s.current)
            && s.file <= s.accepted == Offered(run)
  {
    RunKeeps(b, c, run, s);
    PrefixHere(s);
    AcceptedAreOffered(b, c, run, s);
  }

  lemma PrefixHere<B>(s: State<B>)
    requires Conserved(s) && FileOk(s) && NoDrops(s)
    ensures s.accepted == s.file + Join(Unwritten(s)) + Join(Contents(s, s.queued)) + Content(s, s.current)
    ensures s.file <= s.accepted
  {
    NothingDropped(s.ledger);
    JoinSplit(s.whole, WrittenCount(s));
    PrefixOf(s.accepted, s.file, All(s.ledger), Join(s.whole[..WrittenCount(s)]), Join(s.whole[WrittenCount(s)..]),
             Join(Contents(s, s.queued)), Content(s, s.current));
  }

  lemma PrefixOf<T>(accepted: seq<T>, file: seq<T>, a: seq<T>, w: seq<T>, u: seq<T>, q: seq<T>, cur: seq<T>)
    requires accepted == a + (w + u) + q + cur && file == a + w
    ensures accepted == file + u + q + cur && file <= accepted
  {
  }

  /** While buffers are being written, what is left to write is what they still hold. */
  lemma UnwrittenIsInHand<B>(b: B, c: B, run: seq<Action<B>>, s: State<B>)
    requires Reaches(b, c, run, s) && s.pc.Writing?
    ensures WrittenCount(s) <= |s.batch| == |KeptOf(s.whole)| && Unwritten(s) == Contents(s, s.batch[WrittenCount(s)..])
  {
    RunKeeps(b, c, run, s);
    RestInHand(s);
  }

  lemma RestInHand<B>(s: State<B>)
    requires BackendOk(s) && s.pc.Writing?
    ensures WrittenCount(s) <= |s.batch| == |KeptOf(s.whole)| && Unwritten(s) == Contents(s, s.batch[WrittenCount(s)..])
  {
  }

  /** f picks the lines a from b, in order. */
  predicate Picks(a: seq<Line>, b: seq<Line>, f: seq<nat>) {
    && |f| == |a|
    && (forall i :: 0 <= i < |f| ==> f[i] < |b| && a[i] == b[f[i]])
    && (forall i, j :: 0 <= i < j < |f| ==> f[i] < f[j])
  }

  lemma PicksConcat(a: seq<Line>, b: seq<Line>, f: seq<nat>, c: seq<Line>, d: seq<Line>, g: seq<nat>)
    returns (h: seq<nat>)
    requires Picks(a, b, f) && Picks(c, d, g)
    ensures Picks(a + c, b + d, h)
  {
    h := f + seq(|g|, i requires 0 <= i < |g| => g[i] + |b|);
  }

  lemma PicksPrefix(a: seq<Line>, b: seq<Line>) returns (f: seq<nat>)
    requires a <= b
    ensures Picks(a, b, f)
  {
    f := seq(|a|, i => i);
  }

  lemma PicksKept(b: Batch, k: nat) returns (f: seq<nat>)
    requires k <= |KeptOf(b)|
    ensures Picks(Join(KeptOf(b)[..k]), Join(b), f)
  {
    JoinSplit(b, k);
    assert KeptOf(b)[..k] == b[..k];
    f := PicksPrefix(Join(b[..k]), Join(b));
  }

  lemma PicksAll(l: seq<Batch>) returns (f: seq<nat>)
    ensures Picks(AllKept(l), All(l), f)
  {
    if l == [] {
      f := [];
    } else {
      var n := |l| - 1;
      var g := PicksAll(l[..n]);
      var h := PicksKept(l[n], |KeptOf(l[n])|);
      assert KeptOf(l[n])[..|KeptOf(l[n])|] == KeptOf(l[n]);
      f := PicksConcat(AllKept(l[..n]), All(l[..n]), g, Join(KeptOf(l[n])), Join(l[n]), h);
    }
  }

  /** In every run, drops or none, the file has whole accepted lines, in the order they were accepted. */
  lemma FileIsSubsequence<B>(b: B, c: B, run: seq<Action<B>>, s: State<B>) returns (f: seq<nat>)
    requires Reaches(b, c, run, s)
    ensures Picks(s.file, s.accepted, f)
  {
    RunKeeps(b, c, run, s);
    f := PicksFile(s);
  }

  lemma PicksFile<B>(s: State<B>) returns (f: seq<nat>)
    requires Conserved(s) && FileOk(s)
    ensures Picks(s.file, s.accepted, f)
  {
    var g := PicksAll(s.ledger);
    var h := PicksKept(s.whole, WrittenCount(s));
    f := PicksConcat(AllKept(s.ledger), All(s.ledger), g, Join(KeptOf(s.whole)[..WrittenCount(s)]), Join(s.whole), h);
    var rest := Join(Contents(s, s.queued)) + Content(s, s.current);
    f := PicksMore(s.file, All(s.ledger) + Join(s.whole), f, rest);
    assert s.accepted == All(s.ledger) + Join(s.whole) + rest;
  }

  lemma PicksMore(a: seq<Line>, b: seq<Line>, f: seq<nat>, rest: seq<Line>) returns (g: seq<nat>)
    requires Picks(a, b, f)
    ensures Picks(a, b + rest, g)
  {
    g := f;
  }

  /** What the file lacks: of every batch dealt with it has all buffers, or, of one over 25, the first two; of the
      batch at hand the first ones of these; and so at most 25 of any batch. */
  lemma FileIsWhatIsKept<B>(b: B, c: B, run: seq<Action<B>>, s: State<B>)
    requires Reaches(b, c, run, s)
    ensures WrittenCount(s) <= |KeptOf(s.whole)| <= MAX_BATCH
            && s.file == AllKept(s.ledger) + Join(KeptOf(s.whole)[..WrittenCount(s)])
            && s.accepted == All(s.ledger) + Join(s.whole) + Join(Contents(s, s.queued)) + Content(s, s.current)
    ensures KeptOf(s.whole) == if |s.whole| > 25 then s.whole[..2] else s.whole
  {
    RunKeeps(b, c, run, s);
  }

  /** No assertion of the backend fails and no vector is empty when its last buffer is taken. */
  lemma NeverCrashes<B>(b: B, c: B, run: seq<Action<B>>, s: State<B>)
    requires Reaches(b, c, run, s)
    ensures s.pc != Crashed && Apart(s) && (s.next.None? ==> s.queued != [])
    ensures s.pc == Shrunk ==> s.batch != [] && |s.batch| <= 2
  {
    RunKeeps(b, c, run, s);
  }

  /** A line is accepted, whole, exactly when its length is from 0 to one less than a buffer's size. */
  lemma AcceptedIffFits<B>(b: B, c: B, run: seq<Action<B>>, s: State<B>, text: string, len: int, spare: B)
    requires Reaches(b, c, run, s) && Enabled(s, Append(text, len, spare))
    ensures DoAppend(s, text, len, spare).accepted
            == s.accepted + if 0 <= len < 4000000 then [Line(text[..len])] else []
  {
    RunKeeps(b, c, run, s);
    Accepts(s, text, len, spare);
  }

  lemma Accepts<B>(s: State<B>, text: string, len: int, spare: B)
    requires Apart(s) && SparesOk(s) && Bounded(s) && len <= |text| && Fresh(s, len, spare)
    ensures DoAppend(s, text, len, spare).accepted == s.accepted + if 0 <= len < SIZE then [Line(text[..len])] else []
  {
    assert |Flat(s.lines[s.current])| < SIZE;
    if Avail(s, s.current) <= len {
      TurnedFrame(s, spare);
    }
  }

  /** The lines a run's calls of append offer, in lock order: those that fit a buffer. */
  function Offered<B>(run: seq<Action<B>>): seq<Line> {
    if run == [] then []
    else
      var a, earlier := run[|run| - 1], Offered(run[..|run| - 1]);
      if a.Append? && 0 <= a.len < 4000000 && a.len <= |a.text| then earlier + [Line(a.text[..a.len])] else earlier
  }

  lemma StepAccepts<B>(s: State<B>, a: Action<B>)
    requires Inv(s) && Enabled(s, a)
    ensures Do(s, a).accepted
            == if a.Append? && 0 <= a.len < 4000000 && a.len <= |a.text| then s.accepted + [Line(a.text[..a.len])]
               else s.accepted
  {
    if a.Append? { Accepts(s, a.text, a.len, a.spare); }
  }

  /** In every run the lines accepted are exactly those offered. */
  lemma {:induction false} AcceptedAreOffered<B>(b: B, c: B, run: seq<Action<B>>, s: State<B>)
    requires Reaches(b, c, run, s)
    ensures s.accepted == Offered(run)
    decreases |run|
  {
    if run != [] {
      var earlier := run[..|run| - 1];
      var t := Run(Init(b, c), earlier).value;
      RunKeeps(b, c, earlier, t);
      AcceptedAreOffered(b, c, earlier, t);
      StepAccepts(t, run[|run| - 1]);
    }
  }

  /** The current buffer is queued when, and only when, the line does not fit it. */
  lemma TurnsWhenFull<B>(s: State<B>, text: string, len: int, spare: B)
    requires Enabled(s, Append(text, len, spare))
    ensures var s' := DoAppend(s, text, len, spare);
            if Avail(s, s.current) > len then s'.queued == s.queued && s'.current == s.current && s'.next == s.next
            else s'.queued == s.queued + [s.current] && s'.next == None
                 && s'.current == if s.next.Some? then s.next.value else spare
  {
  }

  /** What the backend reads while it writes without the lock cannot be changed by a producer. */
  lemma AppendSparesBatch<B>(b: B, c: B, run: seq<Action<B>>, s: State<B>, text: string, len: int, spare: B)
    requires Reaches(b, c, run, s) && Enabled(s, Append(text, len, spare))
    ensures Contents(DoAppend(s, text, len, spare), s.batch) == Contents(s, s.batch)
  {
    RunKeeps(b, c, run, s);
    if Avail(s, s.current) > len {
      PutFrame(s, text, len);
    } else {
      var t := Turned(s, spare);
      TurnedApart(s, spare);
      TurnedFrame(s, spare);
      PutFrame(t, text, len);
    }
  }

  // ---------------------------------------------------------------- what stop leaves behind

  /** The accepted lines no batch has taken yet. */
  function Front<B(==)>(s: State<B>): seq<Line> {
    Join(Contents(s, s.queued)) + Content(s, s.current)
  }

  predicate BackendStep<B>(a: Action<B>) {
    a.Test? || a.Swap? || a.Trim? || a.Write? || a.Resize? || a.Recycle1? || a.Recycle2? || a.Clear?
  }

  predicate AllBackend<B>(run: seq<Action<B>>) {
    forall i :: 0 <= i < |run| ==> BackendStep(run[i])
  }

  /** A swap empties the front end; the backend's other steps leave it as it is. */
  lemma SwapEmptiesFront<B>(s: State<B>)
    requires HeadOk(s)
    ensures Front(DoSwap(s)) == []
  {
    assert Contents(DoSwap(s), []) == [];
  }

  lemma FrontIsKept<B>(s: State<B>, s': State<B>)
    requires s'.current == s.current && s'.queued == s.queued && Content(s', s.current) == Content(s, s.current)
    requires forall b :: b in s.queued ==> Content(s', b) == Content(s, b)
    ensures Front(s') == Front(s)
  {
    assert Contents(s', s.queued) == Contents(s, s.queued);
  }

  lemma RecycleKeepsFront<B>(s: State<B>)
    requires Apart(s) && s.batch != []
    ensures Front(DoRecycle1(s)) == Front(s) && Front(DoRecycle2(s)) == Front(s)
  {
    LastApart(s);
    FrontIsKept(s, DoRecycle1(s));
    FrontIsKept(s, DoRecycle2(s));
  }

  lemma StepKeepsFront<B>(s: State<B>, a: Action<B>)
    requires Apart(s) && (s.pc == Ready ==> HeadOk(s)) && Enabled(s, a) && BackendStep(a)
    ensures Front(Do(s, a)) == if a.Swap? then [] else Front(s)
    ensures Do(s, a).accepted == s.accepted && Do(s, a).running == s.running
  {
    if a.Swap? {
      SwapEmptiesFront(s);
    } else if (a.Recycle1? || a.Recycle2?) && s.batch != [] {
      RecycleKeepsFront(s);
    } else {
      FrontIsKept(s, Do(s, a));
    }
  }

  /** t is later than the stop at s: only a swap the backend was waiting for can have come between. */
  predicate AfterStop<B(==)>(s: State<B>, t: State<B>) {
    && !t.running && t.accepted == s.accepted && (t.pc == Ready ==> s.pc == Ready)
    && Front(t) == if s.pc == Ready && t.pc != Ready then [] else Front(s)
  }

  lemma OneSwap<B>(s: State<B>, a: Action<B>)
    requires Enabled(s, a) && BackendStep(a) && !s.running
    ensures Do(s, a).pc != Ready && (a.Swap? <==> s.pc == Ready)
  {
  }

  lemma AfterNext<B>(s: State<B>, u: State<B>, t: State<B>)
    requires AfterStop(s, u) && Front(t) == (if u.pc == Ready then [] else Front(u))
    requires t.accepted == u.accepted && t.running == u.running && t.pc != Ready
    ensures AfterStop(s, t)
  {
  }

  lemma StoppedStep<B>(s: State<B>, u: State<B>, a: Action<B>)
    requires Apart(u) && (u.pc == Ready ==> HeadOk(u)) && AfterStop(s, u) && Enabled(u, a) && BackendStep(a)
    ensures AfterStop(s, Do(u, a))
  {
    StepKeepsFront(u, a);
    OneSwap(u, a);
    AfterNext(s, u, Do(u, a));
  }

  lemma {:induction false} StoppedRun<B>(s: State<B>, more: seq<Action<B>>, t: State<B>)
    requires Inv(s) && !s.running && Run(s, more) == Some(t)
    requires AllBackend(more)
    ensures Inv(t) && AfterStop(s, t)
    decreases |more|
  {
    if more != [] {
      var n := |more| - 1;
      var u := Run(s, more[..n]).value;
      StoppedRun(s, more[..n], u);
      StepKeeps(u, more[n]);
      StoppedStep(s, u, more[n]);
    }
  }

  /** When the loop has ended, what is missing in the file is what is still in front of the backend. */
  lemma EndedFile<B>(t: State<B>)
    requires Inv(t) && t.pc == Ended && NoDrops(t)
    ensures t.file == t.accepted <==> Front(t) == []
  {
    EndedBatch(t);
    PrefixHere(t);
    NoneLeft(t.accepted, t.file, Join(Unwritten(t)), Join(Contents(t, t.queued)), Content(t, t.current));
  }

  lemma EndedBatch<B>(t: State<B>)
    requires BackendOk(t) && t.pc == Ended
    ensures Join(Unwritten(t)) == []
  {
  }

  lemma NoneLeft<T>(accepted: seq<T>, file: seq<T>, u: seq<T>, q: seq<T>, cur: seq<T>)
    requires accepted == file + u + q + cur && u == []
    ensures file == accepted <==> q + cur == []
  {
    assert |accepted| == |file| + |q + cur|;
    if q + cur == [] { assert accepted == file; }
  }

  lemma StopLeaves<B>(s: State<B>, more: seq<Action<B>>, t: State<B>)
    requires Inv(s) && Enabled(s, Stop)
    requires Run(Do(s, Stop), more) == Some(t) && t.pc == Ended
    requires AllBackend(more)
    ensures Inv(t) && t.accepted == s.accepted
    ensures Front(t) == [] <==> s.pc == Ready || Front(s) == []
  {
    InvStop(s);
    FrontIsKept(s, DoStop(s));
    StoppedRun(DoStop(s), more, t);
  }

  lemma StopHere<B>(s: State<B>, more: seq<Action<B>>, t: State<B>)
    requires Inv(s) && Enabled(s, Stop)
    requires Run(Do(s, Stop), more) == Some(t) && t.pc == Ended
    requires AllBackend(more)
    ensures t.accepted == s.accepted
    ensures Front(t) == [] <==> s.pc == Ready || Front(s) == []
    ensures NoDrops(t) ==> (t.file == t.accepted <==> s.pc == Ready || Front(s) == [])
  {
    StopLeaves(s, more, t);
    if NoDrops(t) { EndedFile(t); }
  }

  /** What stop leaves: when the loop has ended, with no append after stop, nothing accepted is left in front of the
      backend if and only if, at the stop, the backend was already waiting for its swap or there was nothing in front
      of it.  So, where no batch was cut, everything accepted is in the file exactly then. */
  lemma StopFlushes<B>(b: B, c: B, run: seq<Action<B>>, s: State<B>, more: seq<Action<B>>, t: State<B>)
    requires Reaches(b, c, run, s) && Enabled(s, Stop)
    requires Run(Do(s, Stop), more) == Some(t) && t.pc == Ended
    requires AllBackend(more)
    ensures t.accepted == s.accepted
    ensures Front(t) == [] <==> s.pc == Ready || Front(s) == []
    ensures NoDrops(t) ==> (t.file == t.accepted <==> s.pc == Ready || Front(s) == [])
  {
    RunKeeps(b, c, run, s);
    StopHere(s, more, t);
  }

  lemma RunOne<B>(s: State<B>, run: seq<Action<B>>, t: State<B>, a: Action<B>)
    requires Run(s, run) == Some(t) && Enabled(t, a)
    ensures Run(s, run + [a]) == Some(Do(t, a))
  {
    assert (run + [a])[..|run|] == run;
  }

  /** A logger that has started and taken one line. */
  function OneLine<B(==)>(b: B, c: B, d: B, e: B): State<B> {
    Init(b, c).(running := true, pc := Top, new1 := Some(d), new2 := Some(e),
                lines := map[b := [], c := []][d := []][e := []][b := [Line("a")]], accepted := [Line("a")])
  }

  lemma FirstLine<B>(s: State<B>, text: string, x: B)
    requires Content(s, s.current) == [] && |text| < SIZE
    ensures var s' := s.(lines := s.lines[s.current := [Line(text)]], accepted := s.accepted + [Line(text)]);
            Enabled(s, Append(text, |text|, x)) && DoAppend(s, text, |text|, x) == s'
  {
    assert Flat([]) == "" && text[..|text|] == text && [] + [Line(text)] == [Line(text)];
  }

  lemma OneLineReached<B>(b: B, c: B, d: B, e: B, x: B)
    requires b != c && d != e && d != b && d != c && e != b && e != c
    ensures Run(Init(b, c), [Start, Enter(d, e), Append("a", 1, x)]) == Some(OneLine(b, c, d, e))
  {
    var s := Init(b, c);
    RunOne(s, [], s, Start);
    RunOne(s, [] + [Start], DoStart(s), Enter(d, e));
    var s' := DoEnter(DoStart(s), d, e);
    FirstLine(s', "a", x);
    RunOne(s, [] + [Start] + [Enter(d, e)], s', Append("a", 1, x));
    assert [] + [Start] + [Enter(d, e)] + [Append("a", 1, x)] == [Start, Enter(d, e), Append("a", 1, x)];
    assert Do(s', Append("a", 1, x)) == DoAppend(s', "a", 1, x) && s'.lines == map[b := [], c := []][d := []][e := []];
    assert [] + [Line("a")] == [Line("a")];
    assert DoAppend(s', "a", 1, x) == OneLine(b, c, d, e);
  }

  /** The other case happens: the loop may end with an accepted line still in the current buffer. */
  lemma StopMayKeepLines<B>(b: B, c: B, d: B, e: B, x: B)
    requires b != c && d != e && d != b && d != c && e != b && e != c
    ensures var t := Run(Init(b, c), [Start, Enter(d, e), Append("a", 1, x)] + [Stop] + [Test]);
            t.Some? && t.value.pc == Ended && t.value.accepted == [Line("a")] && t.value.file == []
  {
    var s := OneLine(b, c, d, e);
    OneLineReached(b, c, d, e, x);
    RunOne(Init(b, c), [Start, Enter(d, e), Append("a", 1, x)], s, Stop);
    RunOne(Init(b, c), [Start, Enter(d, e), Append("a", 1, x)] + [Stop], DoStop(s), Test);
  }

  // ---------------------------------------------------------------- the backend gets on

  /** Whether start, or stop, has been called. */
  predicate Started<B>(run: seq<Action<B>>) {
    exists i :: 0 <= i < |run| && run[i].Start?
  }

  predicate Stopped<B>(run: seq<Action<B>>) {
    exists i :: 0 <= i < |run| && run[i].Stop?
  }

  lemma StartedMore<B>(run: seq<Action<B>>, a: Action<B>)
    ensures Started(run + [a]) <==> Started(run) || a.Start?
    ensures Stopped(run + [a]) <==> Stopped(run) || a.Stop?
  {
    var more := run + [a];
    assert more[|run|] == a && forall i :: 0 <= i < |run| ==> more[i] == run[i];
  }

  /** What of this the state remembers. */
  predicate Remembers<B(==)>(s: State<B>, started: bool, stopped: bool) {
    (s.pc == Idle <==> !started) && (s.pc == Idle || s.pc == Starting ==> !stopped)
    && (s.running <==> started && !stopped) && (s.pc == Ended ==> stopped)
  }

  lemma StepRemembers<B>(s: State<B>, a: Action<B>, started: bool, stopped: bool)
    requires Remembers(s, started, stopped) && Enabled(s, a)
    ensures Remembers(Do(s, a), started || a.Start?, stopped || a.Stop?)
  {
  }

  lemma RemembersMore<B>(s: State<B>, run: seq<Action<B>>, a: Action<B>, s': State<B>)
    requires Remembers(s, Started(run), Stopped(run)) && Enabled(s, a) && s' == Do(s, a)
    ensures Remembers(s', Started(run + [a]), Stopped(run + [a]))
  {
    StepRemembers(s, a, Started(run), Stopped(run));
    StartedMore(run, a);
  }

  lemma {:induction false} RunRemembers<B>(b: B, c: B, run: seq<Action<B>>, s: State<B>)
    requires Reaches(b, c, run, s)
    ensures Remembers(s, Started(run), Stopped(run))
    decreases |run|
  {
    if run != [] {
      var earlier, a := run[..|run| - 1], run[|run| - 1];
      var t := Run(Init(b, c), earlier).value;
      RunRemembers(b, c, earlier, t);
      assert run == earlier + [a];
      RemembersMore(t, earlier, a, s);
    }
  }

  /** The loop ends only after stop. */
  lemma EndsOnlyAfterStop<B>(b: B, c: B, run: seq<Action<B>>, s: State<B>)
    requires Reaches(b, c, run, s)
    ensures s.pc == Ended ==> Stopped(run)
    ensures s.running <==> Started(run) && !Stopped(run)
  {
    RunRemembers(b, c, run, s);
  }

  /** Producers are never held up, with any new buffer for a spare, and neither is stop once start has returned. */
  lemma CallsAnyTime<B>(b: B, c: B, run: seq<Action<B>>, s: State<B>, text: string, len: int, spare: B)
    requires Reaches(b, c, run, s)
    ensures len <= |text| && spare !in s.lines ==> Run(Init(b, c), run + [Append(text, len, spare)]).Some?
    ensures s.pc != Idle && s.pc != Starting ==> Run(Init(b, c), run + [Stop]).Some?
  {
    if len <= |text| && spare !in s.lines { RunOne(Init(b, c), run, s, Append(text, len, spare)); }
    if s.pc != Idle && s.pc != Starting { RunOne(Init(b, c), run, s, Stop); }
  }

  /** What the backend does next. */
  function NextStep<B>(s: State<B>): Action<B> {
    match s.pc
    case Ready => Swap
    case Swapped => Trim
    case Writing(_) => Write
    case Written => Resize
    case Shrunk => Recycle1
    case Refilled => Recycle2
    case Recycled => Clear
    case _ => Test
  }

  /** How far it is from the end of a round. */
  function Distance<B(==)>(s: State<B>): nat {
    match s.pc
    case Ready => |s.queued| + 9
    case Swapped => |s.batch| + 7
    case Writing(i) => (if i < |s.batch| then |s.batch| - i else 0) + 6
    case Written => 4
    case Shrunk => 3
    case Refilled => 2
    case Recycled => 1
    case _ => 0
  }

  /** Inside a round, behind its swap. */
  predicate Behind<B(==)>(s: State<B>) {
    s.pc != Idle && s.pc != Starting && s.pc != Ready && s.pc != Ended
  }

  lemma StepNears<B>(s: State<B>)
    requires Distance(s) > 0
    ensures Enabled(s, NextStep(s)) && BackendStep(NextStep(s)) && (NextStep(s).Swap? <==> s.pc == Ready)
    ensures Distance(Do(s, NextStep(s))) < Distance(s) && Behind(Do(s, NextStep(s)))
  {
  }

  lemma StepAlone<B>(s: State<B>, a: Action<B>)
    requires Inv(s) && Enabled(s, a) && BackendStep(a) && (a.Swap? <==> s.pc == Ready)
    ensures Do(s, a).accepted == s.accepted && Do(s, a).running == s.running
    ensures Front(Do(s, a)) == if s.pc == Ready then [] else Front(s)
  {
    StepKeepsFront(s, a);
  }

  lemma ReachesMore<B>(b: B, c: B, run: seq<Action<B>>, s: State<B>, a: Action<B>)
    requires Reaches(b, c, run, s) && Enabled(s, a)
    ensures Reaches(b, c, run + [a], Do(s, a))
  {
    RunOne(Init(b, c), run, s, a);
  }

  /** One step of a round. */
  lemma RoundStep<B>(b: B, c: B, run: seq<Action<B>>, s: State<B>) returns (a: Action<B>, u: State<B>)
    requires Reaches(b, c, run, s) && Distance(s) > 0
    ensures BackendStep(a) && Reaches(b, c, run + [a], u) && Distance(u) < Distance(s) && Behind(u)
    ensures u.accepted == s.accepted && u.running == s.running && Front(u) == if s.pc == Ready then [] else Front(s)
  {
    a, u := NextStep(s), Do(s, NextStep(s));
    StepNears(s);
    ReachesMore(b, c, run, s, a);
    RunKeeps(b, c, run, s);
    StepAlone(s, a);
  }

  lemma AtTop<B>(b: B, c: B, run: seq<Action<B>>, s: State<B>)
    requires Reaches(b, c, run, s) && Distance(s) == 0 && s.pc != Idle && s.pc != Starting && s.pc != Ended
    ensures s.pc == Top
  {
    RunKeeps(b, c, run, s);
  }

  lemma Longer<B>(run: seq<Action<B>>, first: seq<Action<B>>, rest: seq<Action<B>>)
    requires AllBackend(first) && AllBackend(rest)
    ensures run + first + rest == run + (first + rest) && AllBackend(first + rest)
  {
  }

  /** The backend comes to the end of its round, and empties the front end if it has a swap to do. */
  lemma {:induction false} Finish<B>(b: B, c: B, run: seq<Action<B>>, s: State<B>)
    returns (more: seq<Action<B>>, t: State<B>)
    requires Reaches(b, c, run, s) && s.pc != Idle && s.pc != Starting && s.pc != Ended
    ensures AllBackend(more) && Reaches(b, c, run + more, t) && t.pc == Top
    ensures t.accepted == s.accepted && t.running == s.running && Front(t) == if s.pc == Ready then [] else Front(s)
    decreases Distance(s)
  {
    if Distance(s) == 0 {
      AtTop(b, c, run, s);
      more, t := [], s;
      assert run + more == run;
    } else {
      var a, u := RoundStep(b, c, run, s);
      var rest;
      rest, t := Finish(b, c, run + [a], u);
      Longer(run, [a], rest);
      more := [a] + rest;
    }
  }

  /** While running, the loop test leads to the swap. */
  lemma TestToReady<B>(b: B, c: B, run: seq<Action<B>>, s: State<B>) returns (u: State<B>)
    requires Reaches(b, c, run, s) && s.pc == Top && s.running
    ensures Reaches(b, c, run + [Test], u) && u.pc == Ready && u.running && u.accepted == s.accepted
  {
    u := Do(s, Test);
    RunKeeps(b, c, run, s);
    ReachesMore(b, c, run, s, Test);
  }

  /** A whole round, from the loop test on. */
  lemma Round<B>(b: B, c: B, run: seq<Action<B>>, s: State<B>) returns (more: seq<Action<B>>, t: State<B>)
    requires Reaches(b, c, run, s) && s.pc == Top && s.running
    ensures AllBackend(more) && Reaches(b, c, run + more, t)
    ensures t.pc == Top && t.accepted == s.accepted && Front(t) == []
  {
    var u := TestToReady(b, c, run, s);
    var rest;
    rest, t := Finish(b, c, run + [Test], u);
    Longer(run, [Action<B>.Test], rest);
    more := [Action<B>.Test] + rest;
  }

  /** When the backend is at its loop test, what is missing in the file is what is still in front of it. */
  lemma TopFile<B>(t: State<B>)
    requires Inv(t) && t.pc == Top && NoDrops(t) && Front(t) == []
    ensures t.file == t.accepted
  {
    assert Join(Unwritten(t)) == [];
    PrefixHere(t);
    NoneLeft(t.accepted, t.file, Join(Unwritten(t)), Join(Contents(t, t.queued)), Content(t, t.current));
  }

  lemma RoundsFrom<B>(b: B, c: B, run: seq<Action<B>>, s: State<B>) returns (more: seq<Action<B>>, t: State<B>)
    requires Reaches(b, c, run, s) && s.running && s.pc != Idle && s.pc != Starting && s.pc != Ended
    ensures AllBackend(more) && Reaches(b, c, run + more, t)
    ensures t.pc == Top && t.accepted == s.accepted && Front(t) == []
  {
    var first, u := Finish(b, c, run, s);
    var rest;
    rest, t := Round(b, c, run + first, u);
    Longer(run, first, rest);
    more := first + rest;
  }

  /** Progress: while running, from wherever it is, the backend comes, by its own steps, to its loop test with
      everything accepted taken from the front end; with no batch cut all of it is in the file then. */
  lemma EverythingIsWritten<B>(b: B, c: B, run: seq<Action<B>>, s: State<B>)
    returns (more: seq<Action<B>>, t: State<B>)
    requires Reaches(b, c, run, s) && Started(run) && !Stopped(run) && s.pc != Starting
    ensures AllBackend(more) && Reaches(b, c, run + more, t)
    ensures t.pc == Top && t.accepted == s.accepted == Offered(run) && Front(t) == []
    ensures NoDrops(t) ==> t.file == Offered(run)
  {
    RunRemembers(b, c, run, s);
    AcceptedAreOffered(b, c, run, s);
    more, t := RoundsFrom(b, c, run, s);
    if NoDrops(t) {
      RunKeeps(b, c, run + more, t);
      TopFile(t);
    }
  }

  lemma TestToEnded<B>(b: B, c: B, run: seq<Action<B>>, s: State<B>) returns (t: State<B>)
    requires Reaches(b, c, run, s) && s.pc == Top && !s.running
    ensures Reaches(b, c, run + [Test], t) && t.pc == Ended
  {
    t := Do(s, Test);
    ReachesMore(b, c, run, s, Test);
  }

  /** And after stop it comes to the end of its loop, so that stop's join returns. */
  lemma StopEndsLoop<B>(b: B, c: B, run: seq<Action<B>>, s: State<B>) returns (more: seq<Action<B>>, t: State<B>)
    requires Reaches(b, c, run, s) && Stopped(run)
    ensures AllBackend(more) && Reaches(b, c, run + more, t) && t.pc == Ended
  {
    RunRemembers(b, c, run, s);
    if s.pc == Ended {
      more, t := [], s;
      assert run + more == run;
    } else {
      var first, u := Finish(b, c, run, s);
      t := TestToEnded(b, c, run + first, u);
      Longer(run, first, [Action<B>.Test]);
      more := first + [Action<B>.Test];
    }
  }
}
