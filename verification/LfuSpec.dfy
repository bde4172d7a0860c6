/** What the LFU cache is for, stated without pointers.

    `Lists` is the abstract cache: one recency-ordered list of entries per
    frequency.  `Reference` is defined from the history of calls alone.  The
    main result, `RunsAreLfu`, says that on every history the two agree. */
module LfuSpec {
  import opened Options

  datatype Entry = Entry(key: string, value: string)

  /** Frequency to the entries with that frequency, most recently used first. */
  type Lists = map<int, seq<Entry>>

  datatype Op = Get(key: string) | Set(key: string, value: string)

  // ---------------------------------------------------------------- lists

  ghost predicate At(m: Lists, f: int, j: int, e: Entry) {
    f in m && 0 <= j < |m[f]| && m[f][j] == e
  }

  ghost predicate Filed(m: Lists, f: int, e: Entry) {
    exists j :: At(m, f, j, e)
  }

  function Keys(m: Lists): set<string> {
    set f, j | f in m && 0 <= j < |m[f]| :: m[f][j].key
  }

  /** Adds an entry in front of the list of frequency f, creating the list. */
  function Push(m: Lists, f: int, e: Entry): Lists {
    m[f := [e] + (if f in m then m[f] else [])]
  }

  function Without<T>(s: seq<T>, j: nat): seq<T>
    requires j < |s|
  {
    s[..j] + s[j + 1..]
  }

  /** Removes entry j of frequency f, and the list with it when that was the last. */
  function Cut(m: Lists, f: int, j: nat): Lists
    requires f in m && j < |m[f]|
  {
    if |m[f]| == 1 then m - {f} else m[f := Without(m[f], j)]
  }

  ghost function Least(s: set<int>): (f: int)
    requires s != {}
    ensures f in s && forall g :: g in s ==> f <= g
    decreases s
  {
    assert (forall g :: g !in s) ==> s == {};
    var g :| g in s;
    var rest := s - {g};
    assert s == rest + {g};
    if rest == {} then g
    else
      var f := Least(rest);
      if g < f then g else f
  }

  /** A list is dropped as soon as it is empty. */
  ghost predicate NoneEmpty(m: Lists) {
    forall f :: f in m ==> m[f] != []
  }

  ghost predicate KeysUnique(m: Lists) {
    forall f, j, d, g, i, e :: At(m, f, j, d) && At(m, g, i, e) && d.key == e.key ==> f == g && j == i
  }

  // ---------------------------------------------------------------- operations

  /** A hit moves the entry to the front of the next frequency. */
  function Hit(m: Lists, f: int, j: nat): Lists
    requires f in m && j < |m[f]|
  {
    Push(Cut(m, f, j), f + 1, m[f][j])
  }

  /** The entry to evict: the last one of the smallest frequency. */
  ghost function Victim(m: Lists): Entry
    requires m != map[] && NoneEmpty(m)
  {
    var s := m[Least(m.Keys)];
    s[|s| - 1]
  }

  ghost function Evict(m: Lists): Lists
    requires m != map[] && NoneEmpty(m)
  {
    Cut(m, Least(m.Keys), |m[Least(m.Keys)]| - 1)
  }

  ghost function GetLists(m: Lists, k: string): (r: (Lists, Option<string>))
    requires NoneEmpty(m)
    ensures NoneEmpty(r.0)
  {
    if k in Keys(m) then
      var f, j :| f in m && 0 <= j < |m[f]| && m[f][j].key == k;
      (Hit(m, f, j), Some(m[f][j].value))
    else (m, None)
  }

  ghost function SetLists(m: Lists, capacity: nat, k: string, v: string): (r: Lists)
    requires NoneEmpty(m)
    ensures NoneEmpty(r)
  {
    if capacity == 0 then m
    else Push(if |Keys(m)| == capacity then Evict(m) else m, 1, Entry(k, v))
  }

  ghost function Step(m: Lists, capacity: nat, op: Op): (r: Lists)
    requires NoneEmpty(m)
    ensures NoneEmpty(r)
  {
    match op
    case Get(k) => GetLists(m, k).0
    case Set(k, v) => SetLists(m, capacity, k, v)
  }

  ghost function RunLists(capacity: nat, ops: seq<Op>): (m: Lists)
    ensures NoneEmpty(m)
  {
    if ops == [] then map[] else Step(RunLists(capacity, ops[..|ops| - 1]), capacity, ops[|ops| - 1])
  }

  // ---------------------------------------------------------------- reference

  /** Calls of get for k since k was last set. */
  ghost function Hits(ops: seq<Op>, k: string): nat {
    if ops == [] then 0
    else
      var last, before := ops[|ops| - 1], ops[..|ops| - 1];
      if last.key != k then Hits(before, k)
      else if last.Set? then 0
      else 1 + Hits(before, k)
  }

  /** When k was last mentioned, or -1. */
  ghost function LastUse(ops: seq<Op>, k: string): (t: int)
    ensures -1 <= t < |ops|
    ensures t >= 0 ==> ops[t].key == k
  {
    if ops == [] then -1
    else if ops[|ops| - 1].key == k then |ops| - 1
    else LastUse(ops[..|ops| - 1], k)
  }

  /** a is no better a candidate to stay than b: fewer hits, or as many and used earlier. */
  ghost predicate Before(ops: seq<Op>, a: string, b: string) {
    Hits(ops, a) < Hits(ops, b) || (Hits(ops, a) == Hits(ops, b) && LastUse(ops, a) <= LastUse(ops, b))
  }

  /** The least frequently used key of s, ties broken by the oldest use. */
  ghost function LeastUsed(s: set<string>, ops: seq<Op>): (k: string)
    requires s != {}
    ensures k in s && forall other :: other in s ==> Before(ops, k, other)
    decreases |s|
  {
    assert (forall a :: a !in s) ==> s == {};
    var a :| a in s;
    if s == {a} then a
    else
      var rest := s - {a};
      assert s == rest + {a};
      var b := LeastUsed(rest, ops);
      assert forall other :: other in s ==> other == a || other in rest;
      if Before(ops, a, b) then a else b
  }

  /** The cached keys and values after a history of calls. */
  ghost function Reference(capacity: nat, ops: seq<Op>): (c: map<string, string>) {
    if ops == [] || capacity == 0 then map[]
    else
      var last, before := ops[|ops| - 1], ops[..|ops| - 1];
      var c := Reference(capacity, before);
      match last
      case Get(_) => c
      case Set(k, v) =>
        (if |c| == capacity then c - {LeastUsed(c.Keys, before)} else c)[k := v]
  }

  /** What get is to answer after a history of calls. */
  ghost function Answer(capacity: nat, ops: seq<Op>, k: string): Option<string> {
    var c := Reference(capacity, ops);
    if k in c then Some(c[k]) else None
  }

  /** Where set does what it is for: the key is absent, at least once room has been made. */
  ghost predicate MaySet(capacity: nat, ops: seq<Op>, k: string) {
    var c := Reference(capacity, ops);
    k !in c || (|c| == capacity && k == LeastUsed(c.Keys, ops))
  }

  ghost predicate Admissible(capacity: nat, ops: seq<Op>) {
    ops == [] ||
    (var last, before := ops[|ops| - 1], ops[..|ops| - 1];
     Admissible(capacity, before) && (last.Set? ==> MaySet(capacity, before, last.key)))
  }

  // ---------------------------------------------------------------- agreement

  /** Every entry is cached, with its value, and filed under 1 plus its hits. */
  ghost predicate FiledRight(m: Lists, c: map<string, string>, ops: seq<Op>) {
    forall f, j, e :: At(m, f, j, e) ==> e.key in c && c[e.key] == e.value && f == 1 + Hits(ops, e.key)
  }

  /** Within a list, earlier means used more recently. */
  ghost predicate Recency(m: Lists, ops: seq<Op>) {
    forall f, i, j, d, e :: At(m, f, i, d) && At(m, f, j, e) && i < j ==> LastUse(ops, d.key) > LastUse(ops, e.key)
  }

  ghost predicate AllFiled(m: Lists, c: map<string, string>, ops: seq<Op>) {
    forall k :: k in c ==> Filed(m, 1 + Hits(ops, k), Entry(k, c[k]))
  }

  /** The lists m hold exactly the cached pairs c, filed by hits and by recency. */
  ghost predicate Tracks(m: Lists, c: map<string, string>, ops: seq<Op>) {
    NoneEmpty(m) && FiledRight(m, c, ops) && Recency(m, ops) && AllFiled(m, c, ops)
  }

  lemma SamePlace(m: Lists, c: map<string, string>, ops: seq<Op>, f: int, j: int, d: Entry, g: int, i: int, e: Entry)
    requires FiledRight(m, c, ops) && Recency(m, ops)
    requires At(m, f, j, d) && At(m, g, i, e) && d.key == e.key
    ensures f == g && j == i
  {
    assert j < i ==> LastUse(ops, d.key) > LastUse(ops, e.key);
  }

  lemma TracksUnique(m: Lists, c: map<string, string>, ops: seq<Op>)
    requires Tracks(m, c, ops)
    ensures KeysUnique(m) && Keys(m) == c.Keys
  {
    forall k | k in c ensures k in Keys(m) {
      var j :| At(m, 1 + Hits(ops, k), j, Entry(k, c[k]));
    }
    forall k | k in Keys(m) ensures k in c {
      var f, j :| f in m && 0 <= j < |m[f]| && m[f][j].key == k;
      assert At(m, f, j, m[f][j]);
    }
    forall f, j, d, g, i, e | At(m, f, j, d) && At(m, g, i, e) && d.key == e.key ensures f == g && j == i {
      SamePlace(m, c, ops, f, j, d, g, i, e);
    }
  }

  lemma {:induction false} Mentioned(capacity: nat, ops: seq<Op>, k: string)
    requires k in Reference(capacity, ops)
    ensures LastUse(ops, k) >= 0
  {
    if ops != [] && ops[|ops| - 1].key != k {
      Mentioned(capacity, ops[..|ops| - 1], k);
    }
  }

  /** One more call changes the record of the key it names and of no other. */
  lemma Extend(ops: seq<Op>, op: Op, k: string)
    ensures k != op.key ==> Hits(ops + [op], k) == Hits(ops, k) && LastUse(ops + [op], k) == LastUse(ops, k)
    ensures k == op.key ==> LastUse(ops + [op], k) == |ops|
                            && Hits(ops + [op], k) == if op.Set? then 0 else 1 + Hits(ops, k)
  {
    assert (ops + [op])[..|ops|] == ops;
  }

  lemma PushAt(m: Lists, f: int, d: Entry, g: int, i: int, e: Entry)
    ensures At(Push(m, f, d), g, i, e) <==>
              if g == f then (i == 0 && e == d) || (i > 0 && At(m, f, i - 1, e)) else At(m, g, i, e)
  {
  }

  lemma CutAt(m: Lists, f: int, j: nat, g: int, i: int, e: Entry)
    requires f in m && j < |m[f]|
    ensures At(Cut(m, f, j), g, i, e) <==>
              if g == f then i >= 0 && At(m, f, if i < j then i else i + 1, e) else At(m, g, i, e)
  {
  }

  /** Where an entry of the lists after a hit was before it. */
  lemma HitAt(m: Lists, f: int, j: nat, g: int, i: int, e: Entry)
    requires f in m && j < |m[f]|
    ensures At(Hit(m, f, j), g, i, e) <==>
              if g == f + 1 then (i == 0 && e == m[f][j]) || (i > 0 && At(m, g, i - 1, e))
              else if g == f then i >= 0 && At(m, f, if i < j then i else i + 1, e)
              else At(m, g, i, e)
  {
    PushAt(Cut(m, f, j), f + 1, m[f][j], g, i, e);
    CutAt(m, f, j, g, i, e);
    CutAt(m, f, j, g, i - 1, e);
  }

  lemma HitAllFiled(m: Lists, c: map<string, string>, ops: seq<Op>, f: int, j: nat, k: string)
    requires FiledRight(m, c, ops) && AllFiled(m, c, ops)
    requires f in m && j < |m[f]| && k in c
    ensures Filed(Hit(m, f, j), 1 + Hits(ops + [Get(m[f][j].key)], k), Entry(k, c[k]))
  {
    var e := m[f][j];
    Extend(ops, Get(e.key), k);
    assert At(m, f, j, e);
    if k == e.key {
      HitAt(m, f, j, f + 1, 0, e);
      assert At(Hit(m, f, j), f + 1, 0, e);
    } else {
      var h, d := 1 + Hits(ops, k), Entry(k, c[k]);
      var i :| At(m, h, i, d);
      var i' := if h == f + 1 then i + 1 else if h == f && i > j then i - 1 else i;
      HitAt(m, f, j, h, i', d);
      assert At(Hit(m, f, j), h, i', d);
    }
  }

  lemma HitFiledRight(m: Lists, c: map<string, string>, ops: seq<Op>, f: int, j: nat)
    requires FiledRight(m, c, ops) && Recency(m, ops) && f in m && j < |m[f]|
    ensures FiledRight(Hit(m, f, j), c, ops + [Get(m[f][j].key)])
  {
    var e := m[f][j];
    assert At(m, f, j, e);
    forall g, i, d | At(Hit(m, f, j), g, i, d)
      ensures d.key in c && c[d.key] == d.value && g == 1 + Hits(ops + [Get(e.key)], d.key)
    {
      HitAt(m, f, j, g, i, d);
      Extend(ops, Get(e.key), d.key);
      if !(g == f + 1 && i == 0) {
        var i' := if g == f + 1 then i - 1 else if g == f && i >= j then i + 1 else i;
        if d.key == e.key { SamePlace(m, c, ops, g, i', d, f, j, e); }
      }
    }
  }

  lemma HitRecency(m: Lists, c: map<string, string>, ops: seq<Op>, f: int, j: nat)
    requires FiledRight(m, c, ops) && Recency(m, ops) && f in m && j < |m[f]|
    ensures Recency(Hit(m, f, j), ops + [Get(m[f][j].key)])
  {
    var e, ops', m' := m[f][j], ops + [Get(m[f][j].key)], Hit(m, f, j);
    assert At(m, f, j, e);
    HitFiledRight(m, c, ops, f, j);
    forall g, i, l, d, b | At(m', g, i, d) && At(m', g, l, b) && i < l
      ensures LastUse(ops', d.key) > LastUse(ops', b.key)
    {
      HitAt(m, f, j, g, i, d);
      HitAt(m, f, j, g, l, b);
      Extend(ops, Get(e.key), d.key);
      Extend(ops, Get(e.key), b.key);
      var l' := if g == f + 1 then l - 1 else if g == f && l >= j then l + 1 else l;
      if b.key == e.key { SamePlace(m, c, ops, g, l', b, f, j, e); }
    }
  }

  /** A hit keeps the agreement, with one more call on record. */
  lemma TracksHit(m: Lists, c: map<string, string>, ops: seq<Op>, f: int, j: nat)
    requires Tracks(m, c, ops) && f in m && j < |m[f]|
    ensures Tracks(Hit(m, f, j), c, ops + [Get(m[f][j].key)])
  {
    HitFiledRight(m, c, ops, f, j);
    HitRecency(m, c, ops, f, j);
    forall k | k in c
      ensures Filed(Hit(m, f, j), 1 + Hits(ops + [Get(m[f][j].key)], k), Entry(k, c[k]))
    {
      HitAllFiled(m, c, ops, f, j, k);
    }
  }

  /** The entry evicted is the least frequently, then least recently, used of all. */
  lemma VictimIsLeastUsed(m: Lists, c: map<string, string>, ops: seq<Op>)
    requires Tracks(m, c, ops) && m != map[]
    requires forall k :: k in c ==> LastUse(ops, k) >= 0
    ensures c.Keys != {} && Victim(m).key == LeastUsed(c.Keys, ops)
  {
    var f := Least(m.Keys);
    var j, v := |m[f]| - 1, Victim(m);
    assert At(m, f, j, v);
    var k := LeastUsed(c.Keys, ops);
    var i :| At(m, 1 + Hits(ops, k), i, Entry(k, c[k]));
    assert i < j ==> LastUse(ops, k) > LastUse(ops, v.key);
    assert Before(ops, k, v.key);
    assert ops[LastUse(ops, k)].key == k && ops[LastUse(ops, v.key)].key == v.key;
  }

  lemma TracksEvict(m: Lists, c: map<string, string>, ops: seq<Op>)
    requires Tracks(m, c, ops) && m != map[]
    ensures Tracks(Evict(m), c - {Victim(m).key}, ops)
  {
    var f := Least(m.Keys);
    var j, v, m', c' := |m[f]| - 1, Victim(m), Evict(m), c - {Victim(m).key};
    assert At(m, f, j, v);
    TracksUnique(m, c, ops);
    forall g, i, d | At(m', g, i, d) ensures d.key in c' && c'[d.key] == d.value && g == 1 + Hits(ops, d.key) {
      CutAt(m, f, j, g, i, d);
    }
    forall g, i, l, d, b | At(m', g, i, d) && At(m', g, l, b) && i < l
      ensures LastUse(ops, d.key) > LastUse(ops, b.key)
    {
      CutAt(m, f, j, g, i, d);
      CutAt(m, f, j, g, l, b);
    }
    forall k | k in c' ensures Filed(m', 1 + Hits(ops, k), Entry(k, c'[k])) {
      var i :| At(m, 1 + Hits(ops, k), i, Entry(k, c[k]));
      CutAt(m, f, j, 1 + Hits(ops, k), i, Entry(k, c[k]));
    }
  }

  lemma TracksInsert(m: Lists, c: map<string, string>, ops: seq<Op>, k: string, v: string)
    requires Tracks(m, c, ops) && k !in c
    ensures Tracks(Push(m, 1, Entry(k, v)), c[k := v], ops + [Set(k, v)])
  {
    var e, ops', m', c' := Entry(k, v), ops + [Set(k, v)], Push(m, 1, Entry(k, v)), c[k := v];
    forall g, i, d | At(m', g, i, d) ensures d.key in c' && c'[d.key] == d.value && g == 1 + Hits(ops', d.key) {
      PushAt(m, 1, e, g, i, d);
      Extend(ops, Set(k, v), d.key);
    }
    forall g, i, l, d, b | At(m', g, i, d) && At(m', g, l, b) && i < l
      ensures LastUse(ops', d.key) > LastUse(ops', b.key)
    {
      PushAt(m, 1, e, g, i, d);
      PushAt(m, 1, e, g, l, b);
      Extend(ops, Set(k, v), d.key);
      Extend(ops, Set(k, v), b.key);
    }
    forall x | x in c' ensures Filed(m', 1 + Hits(ops', x), Entry(x, c'[x])) {
      Extend(ops, Set(k, v), x);
      if x == k {
        PushAt(m, 1, e, 1, 0, e);
      } else {
        var h, d := 1 + Hits(ops, x), Entry(x, c[x]);
        var i :| At(m, h, i, d);
        PushAt(m, 1, e, h, if h == 1 then i + 1 else i, d);
      }
    }
  }

  /** A miss leaves the lists as they are. */
  lemma TracksMiss(m: Lists, c: map<string, string>, ops: seq<Op>, k: string)
    requires Tracks(m, c, ops) && k !in c
    ensures Tracks(m, c, ops + [Get(k)])
  {
    forall x | x in c
      ensures Hits(ops + [Get(k)], x) == Hits(ops, x) && LastUse(ops + [Get(k)], x) == LastUse(ops, x)
    {
      Extend(ops, Get(k), x);
    }
  }

  lemma TracksGet(m: Lists, c: map<string, string>, ops: seq<Op>, k: string)
    requires Tracks(m, c, ops)
    ensures Tracks(GetLists(m, k).0, c, ops + [Get(k)])
    ensures GetLists(m, k).1 == if k in c then Some(c[k]) else None
  {
    TracksUnique(m, c, ops);
    if k in c {
      var f, j :| f in m && 0 <= j < |m[f]| && m[f][j].key == k
        && GetLists(m, k) == (Hit(m, f, j), Some(m[f][j].value));
      assert At(m, f, j, m[f][j]);
      TracksHit(m, c, ops, f, j);
    } else {
      TracksMiss(m, c, ops, k);
    }
  }

  lemma RoomSize(c: map<string, string>, gone: string, k: string, v: string)
    ensures k !in c ==> |c[k := v]| == |c| + 1
    ensures gone in c ==> |c - {gone}| == |c| - 1
  {
    assert c[k := v].Keys == c.Keys + {k};
    assert (c - {gone}).Keys == c.Keys - {gone};
  }

  lemma ReferenceSet(capacity: nat, ops: seq<Op>, k: string, v: string)
    requires capacity > 0 && |Reference(capacity, ops)| <= capacity && MaySet(capacity, ops, k)
    ensures var c := Reference(capacity, ops);
            var c' := Reference(capacity, ops + [Set(k, v)]);
            var room := if |c| == capacity then c - {LeastUsed(c.Keys, ops)} else c;
            c' == room[k := v] && k !in room && |c'| <= capacity
  {
    assert (ops + [Set(k, v)])[..|ops|] == ops;
    var c := Reference(capacity, ops);
    if |c| == capacity {
      var gone := LeastUsed(c.Keys, ops);
      RoomSize(c, gone, k, v);
      RoomSize(c - {gone}, gone, k, v);
    } else {
      RoomSize(c, k, k, v);
    }
  }

  lemma TracksEmpty(m: Lists, ops: seq<Op>)
    requires Tracks(m, map[], ops)
    ensures m == map[]
  {
    assert forall f :: f in m ==> At(m, f, 0, m[f][0]);
  }

  lemma TracksRoom(capacity: nat, m: Lists, ops: seq<Op>)
    requires capacity > 0
    requires var c := Reference(capacity, ops); Tracks(m, c, ops) && |c| == capacity
    ensures var c := Reference(capacity, ops);
            m != map[] && Tracks(Evict(m), c - {LeastUsed(c.Keys, ops)}, ops)
  {
    var c := Reference(capacity, ops);
    forall x | x in c ensures LastUse(ops, x) >= 0 { Mentioned(capacity, ops, x); }
    assert c.Keys != {};
    TracksUnique(m, c, ops);
    VictimIsLeastUsed(m, c, ops);
    TracksEvict(m, c, ops);
  }

  lemma TracksSet(capacity: nat, m: Lists, ops: seq<Op>, k: string, v: string)
    requires var c := Reference(capacity, ops); Tracks(m, c, ops) && |c| <= capacity
    requires MaySet(capacity, ops, k)
    ensures var ops' := ops + [Set(k, v)];
            var c' := Reference(capacity, ops');
            Tracks(SetLists(m, capacity, k, v), c', ops') && |c'| <= capacity
  {
    var c := Reference(capacity, ops);
    if capacity == 0 {
      TracksEmpty(m, ops);
    } else {
      assert |Keys(m)| == |c| by { TracksUnique(m, c, ops); }
      ReferenceSet(capacity, ops, k, v);
      if |c| == capacity {
        TracksRoom(capacity, m, ops);
        TracksInsert(Evict(m), c - {LeastUsed(c.Keys, ops)}, ops, k, v);
      } else {
        TracksInsert(m, c, ops, k, v);
      }
    }
  }

  /** On every history of calls the lists hold exactly what the reference cache holds, each
      entry under 1 plus its hits since it was set and ordered by last use; never more than
      `capacity` keys. */
  lemma {:induction false} RunsAreLfu(capacity: nat, ops: seq<Op>)
    requires Admissible(capacity, ops)
    ensures var c := Reference(capacity, ops);
            Tracks(RunLists(capacity, ops), c, ops) && |c| <= capacity
  {
    if ops == [] {
    } else {
      var last, before := ops[|ops| - 1], ops[..|ops| - 1];
      RunsAreLfu(capacity, before);
      assert before + [last] == ops;
      match last
      case Get(k) => TracksGet(RunLists(capacity, before), Reference(capacity, before), before, k);
      case Set(k, v) => TracksSet(capacity, RunLists(capacity, before), before, k, v);
    }
  }

  /** The answer of get: the value last set, exactly when the reference still holds the key. */
  lemma AnswersAreLfu(capacity: nat, ops: seq<Op>, k: string)
    requires Admissible(capacity, ops)
    ensures GetLists(RunLists(capacity, ops), k).1 == Answer(capacity, ops, k)
  {
    RunsAreLfu(capacity, ops);
    TracksGet(RunLists(capacity, ops), Reference(capacity, ops), ops, k);
  }

  lemma InKeys(m: Lists, k: string)
    ensures k in Keys(m) <==> exists f, j, e :: At(m, f, j, e) && e.key == k
  {
    if k in Keys(m) {
      var f, j :| f in m && 0 <= j < |m[f]| && m[f][j].key == k;
      assert At(m, f, j, m[f][j]);
    }
  }

  /** set never looks whether the key is there already; it keeps keys unique exactly when the
      key is absent or is the very entry it evicts to make room. */
  lemma SetKeepsKeysUnique(m: Lists, capacity: nat, k: string, v: string)
    requires NoneEmpty(m) && KeysUnique(m)
    ensures KeysUnique(SetLists(m, capacity, k, v)) <==>
              capacity == 0 || k !in Keys(m) || (|Keys(m)| == capacity && Victim(m).key == k)
  {
    if capacity > 0 {
      var room := if |Keys(m)| == capacity then Evict(m) else m;
      EvictKeepsKeysUnique(m, capacity, k);
      InKeys(room, k);
      var e := Entry(k, v);
      forall f, j, d, g, i, b
        | k !in Keys(room) && At(Push(room, 1, e), f, j, d) && At(Push(room, 1, e), g, i, b) && d.key == b.key
        ensures f == g && j == i
      {
        PushAt(room, 1, e, f, j, d);
        PushAt(room, 1, e, g, i, b);
      }
      if k in Keys(room) {
        var f, j, d :| At(room, f, j, d) && d.key == k;
        PushAt(room, 1, e, 1, 0, e);
        PushAt(room, 1, e, f, if f == 1 then j + 1 else j, d);
        assert At(Push(room, 1, e), 1, 0, e);
        assert At(Push(room, 1, e), f, if f == 1 then j + 1 else j, d);
      }
    }
  }

  lemma EvictKeepsKeysUnique(m: Lists, capacity: nat, k: string)
    requires NoneEmpty(m) && KeysUnique(m) && capacity > 0
    ensures var room := if |Keys(m)| == capacity then Evict(m) else m;
            KeysUnique(room) &&
            (k in Keys(room) <==> k in Keys(m) && !(|Keys(m)| == capacity && Victim(m).key == k))
  {
    if |Keys(m)| == capacity {
      var f := Least(m.Keys);
      var j, v, room := |m[f]| - 1, Victim(m), Evict(m);
      assert At(m, f, j, v);
      InKeys(m, k);
      InKeys(room, k);
      forall g, i, d, h, l, b | At(room, g, i, d) && At(room, h, l, b) && d.key == b.key ensures g == h && i == l {
        CutAt(m, f, j, g, i, d);
        CutAt(m, f, j, h, l, b);
      }
      if k in Keys(room) {
        var g, i, d :| At(room, g, i, d) && d.key == k;
        CutAt(m, f, j, g, i, d);
        assert g == f && d.key == v.key ==> i < j && At(m, f, i, d);
      }
      if k in Keys(m) && k != v.key {
        var g, i, d :| At(m, g, i, d) && d.key == k;
        CutAt(m, f, j, g, i, d);
        assert At(room, g, i, d);
      }
    }
  }

  lemma RunStep(capacity: nat, ops: seq<Op>, op: Op)
    ensures RunLists(capacity, ops + [op]) == Step(RunLists(capacity, ops), capacity, op)
    ensures Admissible(capacity, ops + [op])
            <==> Admissible(capacity, ops) && (op.Set? ==> MaySet(capacity, ops, op.key))
  {
    assert (ops + [op])[..|ops|] == ops;
  }

  /** The precondition of set, read off the history and off the lists. */
  lemma MaySetLists(capacity: nat, ops: seq<Op>, k: string)
    requires Admissible(capacity, ops)
    ensures var m := RunLists(capacity, ops);
            |Keys(m)| <= capacity
            && (MaySet(capacity, ops, k)
                <==> k !in Keys(m) || (|Keys(m)| == capacity && m != map[] && Victim(m).key == k))
  {
    RunsAreLfu(capacity, ops);
    var m, c := RunLists(capacity, ops), Reference(capacity, ops);
    TracksUnique(m, c, ops);
    if k in c {
      InKeys(m, k);
      forall x | x in c ensures LastUse(ops, x) >= 0 { Mentioned(capacity, ops, x); }
      VictimIsLeastUsed(m, c, ops);
    }
  }

  /** That precondition is exact: a set outside it files the key twice. */
  lemma MaySetIsNeeded(capacity: nat, ops: seq<Op>, k: string, v: string)
    requires Admissible(capacity, ops)
    ensures KeysUnique(RunLists(capacity, ops + [Op.Set(k, v)])) <==> MaySet(capacity, ops, k)
  {
    var m := RunLists(capacity, ops);
    RunsAreLfu(capacity, ops);
    TracksUnique(m, Reference(capacity, ops), ops);
    MaySetLists(capacity, ops, k);
    RunStep(capacity, ops, Op.Set(k, v));
    InKeys(m, k);
    SetKeepsKeysUnique(m, capacity, k, v);
  }

  // ---------------------------------------------------------------- callers that set after a miss

  /** A key absent at a get is absent until it is set. */
  lemma {:induction false} AbsentStays(capacity: nat, ops: seq<Op>, mid: seq<Op>, k: string)
    requires k !in Reference(capacity, ops)
    requires forall i :: 0 <= i < |mid| && mid[i].Set? ==> mid[i].key != k
    ensures k !in Reference(capacity, ops + mid)
    decreases |mid|
  {
    if mid == [] {
      assert ops + mid == ops;
    } else {
      var n := |mid| - 1;
      AbsentStays(capacity, ops, mid[..n], k);
      assert (ops + mid)[..|ops + mid| - 1] == ops + mid[..n];
    }
  }

  /** So a caller may set a key after a miss, whatever others do in between but set that key. */
  lemma MissMaySet(capacity: nat, ops: seq<Op>, mid: seq<Op>, k: string)
    requires Answer(capacity, ops, k) == None
    requires forall i :: 0 <= i < |mid| && mid[i].Set? ==> mid[i].key != k
    ensures MaySet(capacity, ops + [Op.Get(k)] + mid, k)
  {
    assert (ops + [Op.Get(k)])[..|ops|] == ops;
    AbsentStays(capacity, ops + [Op.Get(k)], mid, k);
  }

  lemma OneMore(capacity: nat, ops: seq<Op>, op: Op)
    ensures Reference(capacity, ops + [op])
            == if capacity == 0 then map[]
               else if op.Get? then Reference(capacity, ops)
               else var c := Reference(capacity, ops);
                    (if |c| == capacity then c - {LeastUsed(c.Keys, ops)} else c)[op.key := op.value]
  {
    assert (ops + [op])[..|ops|] == ops;
  }

  /** With that it goes wrong, unless there is no room for two: both miss, both set, and the key is filed twice. */
  lemma TwoMisses(capacity: nat, k: string, v: string, w: string)
    ensures var run := [Op.Get(k), Op.Get(k), Op.Set(k, v), Op.Set(k, w)];
            (Admissible(capacity, run) <==> capacity <= 1) && (KeysUnique(RunLists(capacity, run)) <==> capacity <= 1)
  {
    var misses: seq<Op>, one := [Op.Get(k), Op.Get(k)], [Op.Get(k), Op.Get(k), Op.Set(k, v)];
    assert [] + [Op.Get(k)] + [Op.Get(k)] == misses && misses + [Op.Set(k, v)] == one;
    OneMore(capacity, [], Op.Get(k));
    OneMore(capacity, [] + [Op.Get(k)], Op.Get(k));
    OneMore(capacity, misses, Op.Set(k, v));
    RunStep(capacity, [], Op.Get(k));
    RunStep(capacity, [] + [Op.Get(k)], Op.Get(k));
    RunStep(capacity, misses, Op.Set(k, v));
    RunStep(capacity, one, Op.Set(k, w));
    assert one + [Op.Set(k, w)] == [Op.Get(k), Op.Get(k), Op.Set(k, v), Op.Set(k, w)];
    if capacity > 0 {
      assert Reference(capacity, one) == map[k := v] && map[k := v].Keys == {k};
      assert LeastUsed({k}, one) == k;
    }
    MaySetIsNeeded(capacity, one, k, w);
  }
}
