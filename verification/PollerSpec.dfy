/** Registration of channels with epoll, on values: three statuses per channel, the poller's table of
    channels, and the kernel's table of interests. */
module PollerSpec {
  import opened Options

  const EPOLLIN: bv32 := 0x1
  const EPOLLPRI: bv32 := 0x2
  const EPOLLOUT: bv32 := 0x4
  const EPOLLHUP: bv32 := 0x10
  const EPOLLRDHUP: bv32 := 0x2000
  const EPOLLONESHOT: bv32 := 0x4000_0000

  const NONE: bv32 := 0
  const READ: bv32 := EPOLLIN | EPOLLPRI | EPOLLONESHOT
  const CLOSE: bv32 := EPOLLHUP | EPOLLRDHUP
  const WRITE: bv32 := EPOLLOUT | EPOLLONESHOT

  datatype Status = New | Added | Deleted

  datatype Chan = Chan(status: Status, events: bv32)

  datatype Ctl = Add | Mod | Del

  datatype Call = EnableReading | EnableWriting | DisableReading | DisableWriting | DisableAll | Remove

  /** The channels by descriptor, the keys of channels_, the kernel's masks; `legal` while every epoll_ctl was. */
  datatype Poller = Poller(chans: map<int, Chan>, channels: set<int>, kernel: map<int, bv32>, legal: bool)

  /** epoll_ctl: adding what is there, or changing or deleting what is not, is an error. */
  function Control(p: Poller, op: Ctl, fd: int, events: bv32): Poller {
    if (op == Add) == (fd in p.kernel) then p.(legal := false)
    else if op == Del then p.(kernel := p.kernel - {fd})
    else p.(kernel := p.kernel[fd := events])
  }

  function SetStatus(p: Poller, fd: int, s: Status): Poller
    requires fd in p.chans
  {
    p.(chans := p.chans[fd := p.chans[fd].(status := s)])
  }

  function UpdateChannel(p: Poller, fd: int): Poller
    requires fd in p.chans
  {
    var c := p.chans[fd];
    if c.status == New || c.status == Deleted then
      var p1 := if c.status == New then p.(channels := p.channels + {fd}) else p;
      Control(SetStatus(p1, fd, Added), Add, fd, c.events)
    else if c.events == NONE then SetStatus(Control(p, Del, fd, c.events), fd, Deleted)
    else Control(p, Mod, fd, c.events)
  }

  function RemoveChannel(p: Poller, fd: int): Poller
    requires fd in p.chans
  {
    var p1 := p.(channels := p.channels - {fd});
    var p2 := if p.chans[fd].status == Added then Control(p1, Del, fd, p.chans[fd].events) else p1;
    SetStatus(p2, fd, New)
  }

  /** The mask a call leaves. */
  function Mask(call: Call, e: bv32): bv32 {
    match call
    case EnableReading => e | (READ | CLOSE)
    case EnableWriting => e | (WRITE | CLOSE)
    case DisableReading => e & !READ
    case DisableWriting => e & !WRITE
    case DisableAll => NONE
    case Remove => e
  }

  function SetEvents(p: Poller, fd: int, e: bv32): Poller
    requires fd in p.chans
  {
    p.(chans := p.chans[fd := p.chans[fd].(events := e)])
  }

  function Do(p: Poller, fd: int, call: Call): Poller
    requires fd in p.chans
  {
    if call == Remove then RemoveChannel(p, fd)
    else UpdateChannel(SetEvents(p, fd, Mask(call, p.chans[fd].events)), fd)
  }

  /** No channel registered yet. */
  ghost predicate Fresh(p: Poller) {
    p.legal && p.channels == {} && p.kernel == map[] && forall fd :: fd in p.chans ==> p.chans[fd] == Chan(New, NONE)
  }

  ghost predicate ChanOk(p: Poller, fd: int) {
    && fd in p.chans
    && (fd in p.kernel <==> p.chans[fd].status == Added)
    && (fd in p.kernel ==> p.kernel[fd] == p.chans[fd].events)
    && (fd in p.channels <==> p.chans[fd].status != New)
  }

  /** The kernel holds exactly the added channels, each with its current mask, and channels_ those that are not new. */
  ghost predicate Consistent(p: Poller) {
    && p.legal
    && (forall fd {:trigger ChanOk(p, fd)} :: fd in p.chans ==> ChanOk(p, fd))
    && (forall fd :: fd in p.kernel ==> fd in p.chans)
    && (forall fd :: fd in p.channels ==> fd in p.chans)
  }

  lemma UpdateKeeps(p: Poller, fd: int, e: bv32)
    requires Consistent(p) && fd in p.chans
    ensures Consistent(UpdateChannel(SetEvents(p, fd, e), fd))
  {
    var p' := UpdateChannel(SetEvents(p, fd, e), fd);
    assert ChanOk(p, fd);
    forall f | f in p'.chans ensures ChanOk(p', f) { assert ChanOk(p, f); }
  }

  lemma RemoveKeeps(p: Poller, fd: int)
    requires Consistent(p) && fd in p.chans
    ensures Consistent(RemoveChannel(p, fd))
  {
    var p' := RemoveChannel(p, fd);
    assert ChanOk(p, fd);
    forall f | f in p'.chans ensures ChanOk(p', f) { assert ChanOk(p, f); }
  }

  lemma StepKeeps(p: Poller, fd: int, call: Call)
    requires Consistent(p) && fd in p.chans
    ensures Consistent(Do(p, fd, call))
  {
    if call == Remove { RemoveKeeps(p, fd); } else { UpdateKeeps(p, fd, Mask(call, p.chans[fd].events)); }
  }

  /** The calls, each on a channel of the poller, in order. */
  function Run(p: Poller, calls: seq<(int, Call)>): Option<Poller> {
    if calls == [] then Some(p)
    else
      var q, c := Run(p, calls[..|calls| - 1]), calls[|calls| - 1];
      if q.Some? && c.0 in q.value.chans then Some(Do(q.value, c.0, c.1)) else None
  }

  /** On every sequence of calls, on distinct descriptors, no epoll_ctl is illegal and the tables agree. */
  lemma {:induction false} RunKeeps(p: Poller, calls: seq<(int, Call)>)
    requires Fresh(p) && Run(p, calls).Some?
    ensures Consistent(Run(p, calls).value)
  {
    if calls == [] {
      forall fd | fd in p.chans ensures ChanOk(p, fd) { }
    } else {
      RunKeeps(p, calls[..|calls| - 1]);
      var c := calls[|calls| - 1];
      StepKeeps(Run(p, calls[..|calls| - 1]).value, c.0, c.1);
    }
  }

  /** After any call but remove, a channel is out of the kernel exactly when it was in and its mask is now empty. */
  lemma DeletedWhenEmpty(p: Poller, fd: int, call: Call)
    requires Consistent(p) && fd in p.chans && call != Remove
    ensures fd in Do(p, fd, call).kernel <==> fd !in p.kernel || Mask(call, p.chans[fd].events) != NONE
  {
    assert ChanOk(p, fd);
  }

  /** Disabling reading or writing keeps the close events; so only disableAll empties a mask that has them.
      It also takes the one-shot flag, which both share. */
  lemma DisableKeepsClose(e: bv32)
    ensures (e & CLOSE) != 0 ==> Mask(DisableReading, e) != NONE && Mask(DisableWriting, e) != NONE
    ensures Mask(DisableReading, Mask(EnableReading, e)) & CLOSE == CLOSE
    ensures Mask(DisableReading, Mask(EnableWriting, e)) & EPOLLONESHOT == 0
  {
  }

  // ---------------------------------------------------------------- what a mask says of the calls

  /** Whether the last of the calls that is in on or off is in on. */
  predicate Wants(calls: seq<Call>, on: set<Call>, off: set<Call>) {
    if calls == [] then false
    else
      var last := calls[|calls| - 1];
      if last in on then true else if last in off then false else Wants(calls[..|calls| - 1], on, off)
  }

  function Bits(reading: bool, writing: bool, closing: bool, oneShot: bool): bv32 {
    (if reading then EPOLLIN | EPOLLPRI else 0) | (if writing then EPOLLOUT else 0)
    | (if closing then EPOLLHUP | EPOLLRDHUP else 0) | (if oneShot then EPOLLONESHOT else 0)
  }

  /** The mask in terms of the calls so far: reading and writing are as last asked; the close events are there since the
      first enabling after a disableAll; the one-shot flag is there when the last of these calls was an enabling. */
  function Wanted(calls: seq<Call>): bv32 {
    var enabling := {EnableReading, EnableWriting};
    Bits(Wants(calls, {EnableReading}, {DisableReading, DisableAll}),
         Wants(calls, {EnableWriting}, {DisableWriting, DisableAll}),
         Wants(calls, enabling, {DisableAll}),
         Wants(calls, enabling, {DisableReading, DisableWriting, DisableAll}))
  }

  lemma MaskBits(call: Call, r: bool, w: bool, c: bool, o: bool)
    ensures Mask(call, Bits(r, w, c, o))
            == match call
               case EnableReading => Bits(true, w, true, true)
               case EnableWriting => Bits(r, true, true, true)
               case DisableReading => Bits(false, w, c, false)
               case DisableWriting => Bits(r, false, c, false)
               case DisableAll => Bits(false, false, false, false)
               case Remove => Bits(r, w, c, o)
  {
  }

  lemma WantsNext(calls: seq<Call>, call: Call, on: set<Call>, off: set<Call>)
    ensures Wants(calls + [call], on, off)
            == if call in on then true else if call in off then false else Wants(calls, on, off)
  {
    assert (calls + [call])[..|calls|] == calls;
  }

  lemma NextWanted(calls: seq<Call>, call: Call)
    ensures Wanted(calls + [call]) == Mask(call, Wanted(calls))
  {
    var enabling := {EnableReading, EnableWriting};
    var r := Wants(calls, {EnableReading}, {DisableReading, DisableAll});
    var w := Wants(calls, {EnableWriting}, {DisableWriting, DisableAll});
    var c := Wants(calls, enabling, {DisableAll});
    var o := Wants(calls, enabling, {DisableReading, DisableWriting, DisableAll});
    WantsNext(calls, call, {EnableReading}, {DisableReading, DisableAll});
    WantsNext(calls, call, {EnableWriting}, {DisableWriting, DisableAll});
    WantsNext(calls, call, enabling, {DisableAll});
    WantsNext(calls, call, enabling, {DisableReading, DisableWriting, DisableAll});
    MaskBits(call, r, w, c, o);
  }

  /** The calls on one channel. */
  function CallsOn(calls: seq<(int, Call)>, fd: int): seq<Call> {
    if calls == [] then []
    else
      var c := calls[|calls| - 1];
      var earlier := CallsOn(calls[..|calls| - 1], fd);
      if c.0 == fd then earlier + [c.1] else earlier
  }

  lemma UpdateEvents(p: Poller, fd: int, other: int)
    requires fd in p.chans && other in p.chans
    ensures other in UpdateChannel(p, fd).chans && UpdateChannel(p, fd).chans[other].events == p.chans[other].events
    ensures other in RemoveChannel(p, fd).chans && RemoveChannel(p, fd).chans[other].events == p.chans[other].events
  {
  }

  lemma StepEvents(p: Poller, fd: int, call: Call, other: int)
    requires fd in p.chans && other in p.chans
    ensures other in Do(p, fd, call).chans
    ensures Do(p, fd, call).chans[other].events
            == if other == fd then Mask(call, p.chans[fd].events) else p.chans[other].events
  {
    UpdateEvents(p, fd, other);
    UpdateEvents(SetEvents(p, fd, Mask(call, p.chans[fd].events)), fd, other);
  }

  lemma NothingWanted()
    ensures Wanted([]) == NONE
  {
  }

  lemma {:induction false} EventsAreWanted(p: Poller, calls: seq<(int, Call)>, fd: int)
    requires Fresh(p) && Run(p, calls).Some? && fd in p.chans
    ensures fd in Run(p, calls).value.chans
    ensures Run(p, calls).value.chans[fd].events == Wanted(CallsOn(calls, fd))
  {
    if calls == [] {
      NothingWanted();
      assert p.chans[fd] == Chan(New, NONE);
    } else {
      var earlier, c := calls[..|calls| - 1], calls[|calls| - 1];
      EventsAreWanted(p, earlier, fd);
      StepEvents(Run(p, earlier).value, c.0, c.1, fd);
      NextWanted(CallsOn(earlier, fd), c.1);
    }
  }

  /** What a removal does: the channel is in neither table, new again, and keeps its mask. */
  lemma RemoveForgets(p: Poller, fd: int)
    requires Consistent(p) && fd in p.chans
    ensures var q := Do(p, fd, Remove);
            fd !in q.channels && fd !in q.kernel && q.chans == p.chans[fd := Chan(New, p.chans[fd].events)]
  {
    assert ChanOk(p, fd);
  }

  /** The channel is as it was, in all tables. */
  ghost predicate Untouched(p: Poller, q: Poller, fd: int) {
    && (fd in q.channels <==> fd in p.channels)
    && (fd in q.chans <==> fd in p.chans) && (fd in p.chans ==> q.chans[fd] == p.chans[fd])
    && (fd in q.kernel <==> fd in p.kernel) && (fd in p.kernel ==> q.kernel[fd] == p.kernel[fd])
  }

  lemma ControlOthers(p: Poller, op: Ctl, fd: int, events: bv32, other: int)
    requires other != fd
    ensures Untouched(p, Control(p, op, fd, events), other)
  {
  }

  lemma UpdateOthers(p: Poller, fd: int, other: int)
    requires fd in p.chans && other != fd
    ensures Untouched(p, UpdateChannel(p, fd), other)
  {
    var c := p.chans[fd];
    if c.status == Added && c.events == NONE {
      ControlOthers(p, Del, fd, c.events, other);
    } else if c.status == Added {
      ControlOthers(p, Mod, fd, c.events, other);
    } else {
      var p1 := if c.status == New then p.(channels := p.channels + {fd}) else p;
      ControlOthers(SetStatus(p1, fd, Added), Add, fd, c.events, other);
    }
  }

  lemma RemoveOthers(p: Poller, fd: int, other: int)
    requires fd in p.chans && other != fd
    ensures Untouched(p, RemoveChannel(p, fd), other)
  {
    ControlOthers(p.(channels := p.channels - {fd}), Del, fd, p.chans[fd].events, other);
  }

  /** No call concerns another channel. */
  lemma OthersStay(p: Poller, fd: int, call: Call, other: int)
    requires fd in p.chans && other != fd
    ensures Untouched(p, Do(p, fd, call), other)
  {
    if call == Remove {
      RemoveOthers(p, fd, other);
    } else {
      UpdateOthers(SetEvents(p, fd, Mask(call, p.chans[fd].events)), fd, other);
    }
  }

  /** Whether some call other than remove came since the last remove. */
  predicate Known(calls: seq<Call>) {
    calls != [] && calls[|calls| - 1] != Remove
  }

  /** Whether the kernel is to watch for it: the calls since the last remove add it, take it out when its mask is empty,
      and add it again. */
  predicate Watched(calls: seq<Call>) {
    Known(calls) && (!Watched(calls[..|calls| - 1]) || Wanted(calls) != NONE)
  }

  /** The channel of these calls stands as it should in both tables. */
  ghost predicate StandsRight(p: Poller, fd: int, calls: seq<Call>) {
    && fd in p.chans && p.chans[fd].events == Wanted(calls)
    && (fd in p.channels <==> Known(calls)) && (fd in p.kernel <==> Watched(calls))
  }

  lemma UpdateKnows(p: Poller, fd: int, call: Call)
    requires Consistent(p) && fd in p.chans && call != Remove
    ensures fd in Do(p, fd, call).channels
  {
    assert ChanOk(p, fd);
  }

  lemma StepStands(p: Poller, fd: int, call: Call, calls: seq<Call>)
    requires Consistent(p) && StandsRight(p, fd, calls)
    ensures StandsRight(Do(p, fd, call), fd, calls + [call])
  {
    assert (calls + [call])[..|calls|] == calls;
    NextWanted(calls, call);
    StepEvents(p, fd, call, fd);
    if call == Remove {
      RemoveForgets(p, fd);
    } else {
      UpdateKnows(p, fd, call);
      DeletedWhenEmpty(p, fd, call);
    }
  }

  /** On every sequence of calls the tables are what the calls on each channel say: it is in channels_ if and only if
      some call other than remove came since its last remove, and in the kernel if and only if it is to be watched. */
  lemma {:induction false} TablesAreHistory(p: Poller, calls: seq<(int, Call)>, fd: int)
    requires Fresh(p) && Run(p, calls).Some? && fd in p.chans
    ensures StandsRight(Run(p, calls).value, fd, CallsOn(calls, fd))
    decreases |calls|
  {
    if calls == [] {
      NothingWanted();
      assert p.chans[fd] == Chan(New, NONE);
    } else {
      var earlier, c := calls[..|calls| - 1], calls[|calls| - 1];
      var q := Run(p, earlier).value;
      TablesAreHistory(p, earlier, fd);
      RunKeeps(p, earlier);
      if c.0 == fd { StepStands(q, fd, c.1, CallsOn(earlier, fd)); }
      else { OthersStay(q, c.0, c.1, fd); }
    }
  }

  /** After every sequence of calls each channel has the mask they ask for, and the kernel no other for it. */
  lemma MaskIsWanted(p: Poller, calls: seq<(int, Call)>, fd: int)
    requires Fresh(p) && Run(p, calls).Some? && fd in p.chans
    ensures var q := Run(p, calls).value;
            fd in q.chans && q.chans[fd].events == Wanted(CallsOn(calls, fd))
            && (fd in q.kernel ==> q.kernel[fd] == Wanted(CallsOn(calls, fd)))
  {
    EventsAreWanted(p, calls, fd);
    RunKeeps(p, calls);
    assert ChanOk(Run(p, calls).value, fd);
  }
}
