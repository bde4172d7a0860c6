/** The LFU cache as it is built: the linked structure of `LfuHeap` and two hash maps.
    Each public method is proved to do to the abstract lists exactly what `LfuSpec`
    says, and so to answer as the reference cache would from the history of calls. */
module LfuCache {
  import opened Options
  import opened LfuSpec
  import opened LfuLayout
  import opened LfuHeap

  // ---------------------------------------------------------------- the cache

  ghost predicate Recorded(data: map<KeyNode, Entry>, n: KeyNode)
  {
    n in data && n.key == data[n].key && n.value == data[n].value
  }

  /** The nodes hold the data the layout says. */
  ghost predicate Records(data: map<KeyNode, Entry>)
  {
    forall n {:trigger Recorded(data, n)} :: n in data ==> Recorded(data, n)
  }

  /** k is mapped to a node that holds it. */
  ghost predicate KeyMapped(v: View, kmap: map<string, KeyNode>, k: string) {
    k in kmap && kmap[k] in v.data && v.data[kmap[k]].key == k
  }

  /** The key of n is mapped to n and to the list n is in. */
  ghost predicate NodeMapped(v: View, kmap: map<string, KeyNode>, fmap: map<string, FreqNode>, n: KeyNode) {
    && n in v.data && v.data[n].key in kmap && kmap[v.data[n].key] == n && v.data[n].key in fmap
    && (n in v.owner ==> v.owner[n] in v.node && fmap[v.data[n].key] == v.node[v.owner[n]])
  }

  lemma RecordsWithout(data: map<KeyNode, Entry>, n: KeyNode)
    requires Records(data)
    ensures Records(data - {n})
  {
    forall x | x in data - {n} ensures Recorded(data - {n}, x) { assert Recorded(data, x); }
  }

  lemma RecordsWith(data: map<KeyNode, Entry>, n: KeyNode)
    requires Records(data)
    ensures Records(data[n := Entry(n.key, n.value)])
  {
    var more := data[n := Entry(n.key, n.value)];
    forall x | x in more ensures Recorded(more, x) {
      if x != n { assert Recorded(data, x); }
    }
  }

  ghost predicate SameKeys(kmap: map<string, KeyNode>, fmap: map<string, FreqNode>) {
    forall k :: k in kmap <==> k in fmap
  }

  lemma SameKeysStay(kmap: map<string, KeyNode>, fmap: map<string, FreqNode>, key: string, f: FreqNode)
    requires SameKeys(kmap, fmap) && key in kmap
    ensures SameKeys(kmap, fmap[key := f])
  {
  }

  /** The two hash maps agree with the layout and with each other. */
  ghost predicate Mapped(v: View, kmap: map<string, KeyNode>, fmap: map<string, FreqNode>) {
    && SameKeys(kmap, fmap)
    && (forall k {:trigger KeyMapped(v, kmap, k)} :: k in kmap ==> KeyMapped(v, kmap, k))
    && (forall n {:trigger NodeMapped(v, kmap, fmap, n)} :: n in v.data ==> NodeMapped(v, kmap, fmap, n))
  }

  ghost predicate Agree(v: View, kmap: map<string, KeyNode>, fmap: map<string, FreqNode>, capacity: nat) {
    v.loose == {} && NoneEmpty(v.lists) && Mapped(v, kmap, fmap) && |kmap| <= capacity
  }

  lemma EntryAt(v: View, g: int, i: int, e: Entry)
    requires Ok(v) && At(v.lists, g, i, e)
    ensures g in v.chain && 0 < i + 1 < |v.chain[g]|
    ensures var n := v.chain[g][i + 1];
            n in v.data && v.data[n] == e && n in v.owner && v.owner[n] == g
  {
    Fits(v, g);
  }

  lemma AtEntry(v: View, n: KeyNode) returns (g: int, p: nat, j: nat)
    requires Ok(v) && n in v.data && n in v.owner
    ensures g == v.owner[n] && Placed(v, n, g, j) && At(v.lists, g, j - 1, v.data[n])
    ensures 0 < p < |v.order| && g == v.order[p] && g in v.node
  {
    g := v.owner[n];
    assert AtHome(v, n) && ChainOk(v.chain[g], g, v.owner, v.data);
    j :| 0 <= j < |v.chain[g]| && v.chain[g][j] == n;
    assert g != 0;
    Fits(v, g);
    assert Listed(v, g);
    p :| 0 <= p < |v.order| && v.order[p] == g;
  }

  lemma MappedKeys(v: View, kmap: map<string, KeyNode>, fmap: map<string, FreqNode>)
    requires Ok(v) && v.loose == {} && Mapped(v, kmap, fmap)
    ensures KeysUnique(v.lists) && Keys(v.lists) == kmap.Keys
  {
    forall f, j, d, g, i, e | At(v.lists, f, j, d) && At(v.lists, g, i, e) && d.key == e.key ensures f == g && j == i {
      EntryAt(v, f, j, d);
      EntryAt(v, g, i, e);
      assert NodeMapped(v, kmap, fmap, v.chain[f][j + 1]) && NodeMapped(v, kmap, fmap, v.chain[g][i + 1]);
      assert ChainOk(v.chain[f], f, v.owner, v.data);
    }
    forall k | k in kmap ensures k in Keys(v.lists) {
      assert KeyMapped(v, kmap, k);
      var g, p, j := AtEntry(v, kmap[k]);
    }
    forall k | k in Keys(v.lists) ensures k in kmap {
      InKeys(v.lists, k);
      var f, j, e :| At(v.lists, f, j, e) && e.key == k;
      EntryAt(v, f, j, e);
      assert NodeMapped(v, kmap, fmap, v.chain[f][j + 1]);
    }
  }

  lemma GetIs(m: Lists, k: string, g: int, i: nat, e: Entry)
    requires NoneEmpty(m) && KeysUnique(m) && At(m, g, i, e) && e.key == k
    ensures GetLists(m, k) == (Hit(m, g, i), Some(e.value))
  {
    InKeys(m, k);
    var f, j :| f in m && 0 <= j < |m[f]| && m[f][j].key == k && GetLists(m, k) == (Hit(m, f, j), Some(m[f][j].value));
    assert At(m, f, j, m[f][j]);
  }

  lemma StillMapped(v: View, v': View, kmap: map<string, KeyNode>, fmap: map<string, FreqNode>, n: KeyNode, g: int,
                    x: KeyNode)
    requires Ok(v) && Ok(v') && v.loose == {} && Refiled(v, v', n, g) && n in v.data && x in v.data
    requires NodeMapped(v, kmap, fmap, n) && NodeMapped(v, kmap, fmap, x)
    ensures NodeMapped(v', kmap, fmap[v.data[n].key := v'.node[g]], x)
  {
    if x in v'.owner { assert AtHome(v', x); }
    if x in v.owner { assert AtHome(v, x); }
  }

  /** After a hit the maps agree again once fmap points to the entry's new list. */
  lemma RefiledMapped(v: View, v': View, kmap: map<string, KeyNode>, fmap: map<string, FreqNode>, n: KeyNode, g: int)
    requires Ok(v) && Ok(v') && v.loose == {} && Mapped(v, kmap, fmap) && n in v.data && Refiled(v, v', n, g)
    ensures v'.loose == {} && Mapped(v', kmap, fmap[v.data[n].key := v'.node[g]])
  {
    var newF := fmap[v.data[n].key := v'.node[g]];
    assert NodeMapped(v, kmap, fmap, n);
    SameKeysStay(kmap, fmap, v.data[n].key, v'.node[g]);
    forall x | x in v'.data ensures NodeMapped(v', kmap, newF, x) {
      assert NodeMapped(v, kmap, fmap, x);
      StillMapped(v, v', kmap, fmap, n, g, x);
    }
    forall k | k in kmap ensures KeyMapped(v', kmap, k) { assert KeyMapped(v, kmap, k); }
  }

  lemma HitKeeps(m: Lists, g: int, j: nat)
    requires NoneEmpty(m) && g in m && j < |m[g]|
    ensures NoneEmpty(Hit(m, g, j))
  {
  }

  /** Where the maps lead for a cached key, and what get answers there. */
  lemma Lookup(v: View, kmap: map<string, KeyNode>, fmap: map<string, FreqNode>, capacity: nat, key: string)
    returns (g: int, p: nat, j: nat)
    requires Ok(v) && Agree(v, kmap, fmap, capacity) && key in kmap
    requires forall n :: n in v.data ==> n in v.owner || n in v.loose
    ensures key in fmap && kmap[key] in v.data && v.data[kmap[key]].key == key
    ensures 0 < p < |v.order| && p < |v.spine| && g == v.order[p] && Placed(v, kmap[key], g, j)
            && fmap[key] == v.spine[p]
    ensures GetLists(v.lists, key) == (Hit(v.lists, g, j - 1), Some(v.data[kmap[key]].value))
  {
    var n := kmap[key];
    assert KeyMapped(v, kmap, key) && NodeMapped(v, kmap, fmap, n);
    g, p, j := AtEntry(v, n);
    MappedKeys(v, kmap, fmap);
    GetIs(v.lists, key, g, j - 1, v.data[n]);
  }

  lemma HitAgrees(v: View, v': View, kmap: map<string, KeyNode>, fmap: map<string, FreqNode>, capacity: nat,
                  n: KeyNode, g: int, j: nat)
    requires Ok(v) && Ok(v') && Agree(v, kmap, fmap, capacity) && n in v.data && Refiled(v, v', n, g + 1)
    requires g in v.lists && j < |v.lists[g]| && v'.lists == Hit(v.lists, g, j)
    ensures Agree(v', kmap, fmap[v.data[n].key := v'.node[g + 1]], capacity)
  {
    RefiledMapped(v, v', kmap, fmap, n, g + 1);
    HitKeeps(v.lists, g, j);
  }

  /** A hit: addFreq, and its entry of fmap. */
  method HitStep(head: FreqNode, pool: ElementPool, kmap: map<string, KeyNode>, fmap: map<string, FreqNode>,
                 key: string,
                 ghost capacity: nat, ghost v: View)
    returns (value: string, newF: map<string, FreqNode>, ghost v': View)
    requires Holds(head, pool, v) && Records(v.data) && Agree(v, kmap, fmap, capacity) && key in kmap
    modifies v.freqs`dummyHead, v.freqs`tail, v.freqs`pre, v.freqs`next
    modifies v.owner.Keys`pre, v.owner.Keys`next, pool`keyNodes, pool`freqNodes
    ensures Holds(head, pool, v') && Records(v'.data) && Agree(v', kmap, newF, capacity)
    ensures GetLists(v.lists, key) == (v'.lists, Some(value))
    ensures fresh(v'.freqs - v.freqs) && fresh(v'.owner.Keys - v.owner.Keys)
  {
    ghost var g, p, j := Lookup(v, kmap, fmap, capacity, key);
    var nowk, nowf := kmap[key], fmap[key];
    assert Recorded(v.data, nowk);
    value := nowk.value;
    var nxt;
    nxt, v' := AddFreq(head, pool, nowk, nowf, v, p, g, j);
    HitAgrees(v, v', kmap, fmap, capacity, nowk, g, j - 1);
    assert Recorded(v.data, nowk);
    newF := fmap[nowk.key := nxt];
  }

  // ---------------------------------------------------------------- eviction

  /** The node to evict is the last one of the list behind the dummy list. */
  lemma VictimPlace(v: View) returns (g: int, j: nat)
    requires Ok(v) && NoneEmpty(v.lists) && v.lists != map[]
    ensures 1 < |v.order| && g == v.order[1] && g in v.node && g in v.lists && g == Least(v.lists.Keys)
    ensures g in v.chain && j == |v.chain[g]| - 1 == |v.lists[g]| && Placed(v, v.chain[g][j], g, j)
    ensures v.data[v.chain[g][j]] == Victim(v.lists)
  {
    g := Least(v.lists.Keys);
    Fits(v, g);
    j := |v.chain[g]| - 1;
    assert Listed(v, g);
    assert v.order[1] in v.node;
    assert v.order[1] in v.lists.Keys;
    var i :| 0 <= i < |v.order| && v.order[i] == g;
    assert i != 0;
  }

  lemma ForgetHolds(head: FreqNode, pool: ElementPool, v: View, n: KeyNode, ks: set<KeyNode>)
    requires Ok(v) && head == v.spine[0] && Strung(v.spine) && Inner(v) && n in v.loose
    requires Nodes(ks, pool.freqNodes, v) && pool.keyNodes == ks - {n}
    ensures Holds(head, pool, Forget(v, n))
  {
    ForgetOk(v, n);
    var v' := Forget(v, n);
    forall h | h in v'.chain ensures ListAt(v', h) { assert ListAt(v, h); }
  }

  /** Unlinks and frees the last node of headf's list. */
  method FreeLast(head: FreqNode, pool: ElementPool, headf: FreqNode, ghost v: View, ghost g: int, ghost j: nat)
    returns (key: string)
    requires Holds(head, pool, v) && g in v.node && headf == v.node[g] && g in v.chain
    requires j == |v.chain[g]| - 1 && Placed(v, v.chain[g][j], g, j)
    modifies v.freqs`tail, v.owner.Keys`pre, v.owner.Keys`next, pool`keyNodes
    ensures key == v.chain[g][j].key && Holds(head, pool, Forget(Unlink(v, g, j), v.chain[g][j]))
  {
    assert ListAt(v, g);
    var last := headf.GetLast(v.chain[g]);
    Detach(head, pool, last, headf, v, g, j);
    key := last.key;
    FreeNode(head, pool, last, Unlink(v, g, j));
  }

  method FreeNode(head: FreqNode, pool: ElementPool, n: KeyNode, ghost v: View)
    requires Holds(head, pool, v) && n in v.loose
    modifies pool`keyNodes
    ensures Holds(head, pool, Forget(v, n))
  {
    pool.DeleteKeyNode(n);
    ForgetHolds(head, pool, v, n, old(pool.keyNodes));
  }

  /** n is gone and every other node is where it was. */
  ghost predicate Evicted(v: View, v': View, n: KeyNode) {
    && v'.data == v.data - {n} && v'.loose == v.loose
    && (forall x :: x in v'.data && x in v.owner ==> x in v'.owner && v'.owner[x] == v.owner[x])
    && (forall h :: h in v'.node ==> h in v.node && v'.node[h] == v.node[h])
    && v'.freqs <= v.freqs && (forall x :: x in v'.owner ==> x in v.owner)
  }

  lemma EvictedIs(v: View, v': View, g: int, j: nat, d: KeyNode?)
    requires Ok(v) && NoneEmpty(v.lists) && v.lists != map[] && g == Least(v.lists.Keys) && v.loose == {}
    requires 1 < |v.order| && g == v.order[1] && g in v.chain && j == |v.chain[g]| - 1 && Placed(v, v.chain[g][j], g, j)
    requires Dropped(Forget(Unlink(v, g, j), v.chain[g][j]), v', 1, d)
    ensures v'.lists == Evict(v.lists) && Evicted(v, v', v.chain[g][j])
  {
    var n := v.chain[g][j];
    var v2 := Forget(Unlink(v, g, j), n);
    Fits(v, g);
    assert v2.lists[g] == Without(v.lists[g], j - 1);
    assert v'.lists == Evict(v.lists);
  }

  lemma StayMapped(v: View, v': View, kmap: map<string, KeyNode>, fmap: map<string, FreqNode>, n: KeyNode, x: KeyNode)
    requires Ok(v') && Evicted(v, v', n) && n in v.data && x in v'.data
    requires NodeMapped(v, kmap, fmap, n) && NodeMapped(v, kmap, fmap, x)
    ensures NodeMapped(v', kmap - {v.data[n].key}, fmap - {v.data[n].key}, x)
  {
    if x in v'.owner { assert AtHome(v', x); }
  }

  lemma SameKeysWithout(kmap: map<string, KeyNode>, fmap: map<string, FreqNode>, key: string)
    requires SameKeys(kmap, fmap) && key in kmap
    ensures SameKeys(kmap - {key}, fmap - {key}) && |kmap - {key}| == |kmap| - 1
  {
    assert (kmap - {key}).Keys == kmap.Keys - {key};
  }

  lemma EvictKeeps(m: Lists)
    requires m != map[] && NoneEmpty(m)
    ensures NoneEmpty(Evict(m))
  {
  }

  lemma EvictAgrees(v: View, v': View, kmap: map<string, KeyNode>, fmap: map<string, FreqNode>, capacity: nat,
                    n: KeyNode)
    requires Ok(v) && Ok(v') && Agree(v, kmap, fmap, capacity) && n in v.data && Evicted(v, v', n)
    requires v.lists != map[] && v'.lists == Evict(v.lists)
    ensures Agree(v', kmap - {v.data[n].key}, fmap - {v.data[n].key}, capacity)
    ensures v.data[n].key in kmap && |kmap - {v.data[n].key}| == |kmap| - 1
  {
    var key := v.data[n].key;
    assert NodeMapped(v, kmap, fmap, n);
    SameKeysWithout(kmap, fmap, key);
    EvictKeeps(v.lists);
    forall x | x in v'.data ensures NodeMapped(v', kmap - {key}, fmap - {key}, x) {
      assert NodeMapped(v, kmap, fmap, x);
      StayMapped(v, v', kmap, fmap, n, x);
    }
    forall k | k in kmap - {key} ensures KeyMapped(v', kmap - {key}, k) { assert KeyMapped(v, kmap, k); }
  }

  /** Makes room: the victim leaves its list, both maps and the heap, and its list goes with it if that is left. */
  method EvictStep(head: FreqNode, pool: ElementPool, kmap: map<string, KeyNode>, fmap: map<string, FreqNode>,
                   ghost capacity: nat, ghost v: View)
    returns (newK: map<string, KeyNode>, newF: map<string, FreqNode>, ghost v': View)
    requires Holds(head, pool, v) && Records(v.data) && Agree(v, kmap, fmap, capacity) && v.lists != map[]
    modifies v.freqs`dummyHead, v.freqs`tail, v.freqs`pre, v.freqs`next
    modifies v.owner.Keys`pre, v.owner.Keys`next, pool`keyNodes, pool`freqNodes
    ensures Holds(head, pool, v') && Records(v'.data) && Agree(v', newK, newF, capacity)
    ensures v'.lists == Evict(v.lists) && newK == kmap - {Victim(v.lists).key} && |newK| == |kmap| - 1
    ensures v'.freqs <= v.freqs && v'.owner.Keys <= v.owner.Keys
  {
    ghost var g, j := VictimPlace(v);
    ghost var n := v.chain[g][j];
    Neighbour(head, head, 0, v);
    var headf := head.next;
    var key := FreeLast(head, pool, headf, v, g, j);
    assert Recorded(v.data, n);
    assert key == v.data[n].key;
    newK, newF := kmap - {key}, fmap - {key};
    assert newK == kmap - {v.data[n].key};
    assert newF == fmap - {v.data[n].key};
    ghost var d;
    d, v' := DropEmpty(head, pool, headf, Forget(Unlink(v, g, j), n), 1);
    EvictedIs(v, v', g, j, d);
    RecordsWithout(v.data, n);
    EvictAgrees(v, v', kmap, fmap, capacity, n);
  }

  // ---------------------------------------------------------------- insertion

  lemma PrepareHolds(head: FreqNode, pool: ElementPool, v: View, n: KeyNode, e: Entry)
    requires Ok(v) && head == v.spine[0] && Strung(v.spine) && Inner(v) && n !in v.owner && n !in v.loose
    requires Nodes(pool.keyNodes - {n}, pool.freqNodes, v) && n in pool.keyNodes
    ensures Holds(head, pool, Prepare(v, n, e))
  {
    PrepareOk(v, n, e);
    var v' := Prepare(v, n, e);
    forall h | h in v'.chain ensures ListAt(v', h) { assert ListAt(v, h); }
  }

  method NewEntry(head: FreqNode, pool: ElementPool, key: string, value: string, ghost v: View) returns (nowk: KeyNode)
    requires Holds(head, pool, v)
    modifies pool`keyNodes
    ensures fresh(nowk) && nowk.key == key && nowk.value == value && nowk !in v.data
    ensures Holds(head, pool, Prepare(v, nowk, Entry(key, value)))
  {
    nowk := pool.NewKeyNode(key, value);
    PrepareHolds(head, pool, v, nowk, Entry(key, value));
  }

  method AddEntry(head: FreqNode, pool: ElementPool, key: string, value: string, ghost v: View)
    returns (nowk: KeyNode, nxt: FreqNode, ghost v': View, ghost fs: set<FreqNode>, ghost ks: set<KeyNode>)
    requires Holds(head, pool, v)
    modifies v.freqs`tail, v.freqs`pre, v.freqs`next
    modifies v.owner.Keys`pre, v.owner.Keys`next, pool`keyNodes, pool`freqNodes
    ensures Holds(head, pool, v') && nowk.key == key && nowk.value == value && nowk !in v.data
    ensures Refiled(Prepare(v, nowk, Entry(key, value)), v', nowk, 1) && nxt == v'.node[1]
    ensures v'.lists == Push(v.lists, 1, Entry(key, value))
    ensures fresh(nowk) && fresh(fs) && v'.freqs <= v.freqs + fs && fresh(ks)
            && v'.owner.Keys <= v.owner.Keys + ks + {nowk}
  {
    nowk := NewEntry(head, pool, key, value, v);
    nxt, v', fs, ks := AddFreqNew(head, pool, nowk, Prepare(v, nowk, Entry(key, value)));
  }

  lemma SameKeysWith(kmap: map<string, KeyNode>, fmap: map<string, FreqNode>, key: string, n: KeyNode, f: FreqNode)
    requires SameKeys(kmap, fmap) && key !in kmap
    ensures SameKeys(kmap[key := n], fmap[key := f]) && |kmap[key := n]| == |kmap| + 1
  {
    assert kmap[key := n].Keys == kmap.Keys + {key};
  }

  /** Every node is in the chain of its owner, and every chain has a list node. */
  ghost predicate Housed(v: View) {
    Disjoint(v) && v.chain.Keys == v.node.Keys
  }

  lemma NewlyMapped(v: View, v': View, kmap: map<string, KeyNode>, fmap: map<string, FreqNode>, n: KeyNode, e: Entry,
                    x: KeyNode)
    requires Housed(v) && Housed(v') && n !in v.data && Refiled(Prepare(v, n, e), v', n, 1) && e.key !in kmap
    requires x == n || (x in v.data && NodeMapped(v, kmap, fmap, x))
    ensures NodeMapped(v', kmap[e.key := n], fmap[e.key := v'.node[1]], x)
  {
    if x in v'.owner { assert AtHome(v', x); }
    if x in v.owner { assert AtHome(v, x); }
  }

  lemma KeysStayMapped(v: View, v': View, kmap: map<string, KeyNode>, n: KeyNode, e: Entry, k: string)
    requires v'.data == v.data[n := e] && n !in v.data && k != e.key && k in kmap && KeyMapped(v, kmap, k)
    ensures KeyMapped(v', kmap[e.key := n], k)
  {
  }

  lemma InsertMapped(v: View, v': View, kmap: map<string, KeyNode>, fmap: map<string, FreqNode>, n: KeyNode, e: Entry)
    requires Housed(v) && Housed(v') && Mapped(v, kmap, fmap) && n !in v.data && Refiled(Prepare(v, n, e), v', n, 1)
             && e.key !in kmap
    ensures Mapped(v', kmap[e.key := n], fmap[e.key := v'.node[1]])
  {
    var newK, newF := kmap[e.key := n], fmap[e.key := v'.node[1]];
    SameKeysWith(kmap, fmap, e.key, n, v'.node[1]);
    forall x | x in v'.data ensures NodeMapped(v', newK, newF, x) {
      if x != n { assert NodeMapped(v, kmap, fmap, x); }
      NewlyMapped(v, v', kmap, fmap, n, e, x);
    }
    forall k | k in newK ensures KeyMapped(v', newK, k) {
      if k != e.key {
        assert KeyMapped(v, kmap, k);
        KeysStayMapped(v, v', kmap, n, e, k);
      }
    }
  }

  lemma PushKeeps(m: Lists, e: Entry)
    requires NoneEmpty(m)
    ensures NoneEmpty(Push(m, 1, e))
  {
  }

  lemma InsertAgrees(v: View, v': View, kmap: map<string, KeyNode>, fmap: map<string, FreqNode>, capacity: nat,
                     n: KeyNode, e: Entry)
    requires Ok(v) && Ok(v') && Agree(v, kmap, fmap, capacity) && n !in v.data && Refiled(Prepare(v, n, e), v', n, 1)
    requires e.key !in kmap && |kmap| < capacity && v'.lists == Push(v.lists, 1, e)
    ensures Agree(v', kmap[e.key := n], fmap[e.key := v'.node[1]], capacity)
  {
    InsertMapped(v, v', kmap, fmap, n, e);
    SameKeysWith(kmap, fmap, e.key, n, v'.node[1]);
    PushKeeps(v.lists, e);
  }

  /** A list of frequency 1 is the one right behind the dummy list. */
  lemma FirstIsOne(v: View)
    requires Ok(v) && 1 in v.node
    ensures 1 < |v.order| && v.order[1] == 1 && 1 < |v.spine| && v.spine[1] == v.node[1]
  {
    assert Listed(v, 1);
    var i :| 0 <= i < |v.order| && v.order[i] == 1;
    assert i != 0 && v.order[1] in v.node;
  }

  lemma Overwrite<K, V>(m: map<K, V>, k: K, x: V, y: V)
    ensures m[k := x][k := y] == m[k := y]
  {
  }

  /** A new entry: its node joins the list of frequency 1 and both maps. */
  method InsertStep(head: FreqNode, pool: ElementPool, kmap: map<string, KeyNode>, fmap: map<string, FreqNode>,
                    key: string, value: string, ghost capacity: nat, ghost v: View)
    returns (newK: map<string, KeyNode>, newF: map<string, FreqNode>, ghost v': View,
             ghost fs: set<FreqNode>, ghost ks: set<KeyNode>, nowk: KeyNode)
    requires Holds(head, pool, v) && Records(v.data) && Agree(v, kmap, fmap, capacity) && key !in kmap
             && |kmap| < capacity
    modifies v.freqs`tail, v.freqs`pre, v.freqs`next
    modifies v.owner.Keys`pre, v.owner.Keys`next, pool`keyNodes, pool`freqNodes
    ensures Holds(head, pool, v') && Records(v'.data) && Agree(v', newK, newF, capacity)
    ensures v'.lists == Push(v.lists, 1, Entry(key, value))
    ensures fresh(nowk) && fresh(fs) && v'.freqs <= v.freqs + fs && fresh(ks)
            && v'.owner.Keys <= v.owner.Keys + ks + {nowk}
  {
    var nxt;
    nowk, nxt, v', fs, ks := AddEntry(head, pool, key, value, v);
    ghost var e := Entry(key, value);
    newF := fmap[nowk.key := nxt];
    newK := kmap[key := nowk];
    FirstIsOne(v');
    Neighbour(head, head, 0, v');
    Overwrite(fmap, key, nxt, v'.node[1]);
    newF := newF[key := head.next];
    RecordsWith(v.data, nowk);
    InsertAgrees(v, v', kmap, fmap, capacity, nowk, e);
  }

  // ---------------------------------------------------------------- destruction

  /** n belongs to none of the first i lists. */
  ghost predicate Left(v: View, i: nat, n: KeyNode) {
    n in v.owner && forall p :: 0 <= p < i && p < |v.order| ==> v.owner[n] != v.order[p]
  }

  /** The lists from position i on are intact, and their nodes are the only ones still allocated. */
  ghost predicate Remaining(pool: ElementPool, v: View, i: nat)
    reads pool`keyNodes, pool`freqNodes, v.owner.Keys`pre, v.owner.Keys`next
    reads v.freqs`freq, v.freqs`dummyHead, v.freqs`tail, v.freqs`pre, v.freqs`next
  {
    && Ordered(v) && Strung(v.spine) && i <= |v.order|
    && (forall p {:trigger v.order[p]} :: i <= p < |v.order| ==> ListAt(v, v.order[p]))
    && (forall n :: n in pool.keyNodes ==> Left(v, i, n))
    && (forall n :: n in v.owner && Left(v, i, n) ==> n in pool.keyNodes)
    && (forall f :: f in pool.freqNodes ==> f in v.spine[i..])
    && (forall f :: f in v.spine[i..] ==> f in pool.freqNodes)
  }

  lemma AllRemain(pool: ElementPool, v: View)
    requires Ok(v) && Strung(v.spine) && Inner(v) && Nodes(pool.keyNodes, pool.freqNodes, v) && v.loose == {}
    ensures Remaining(pool, v, 0)
  {
  }

  lemma NoneRemain(pool: ElementPool, v: View, i: nat)
    requires Ok(v) && Remaining(pool, v, i) && i == |v.spine|
    ensures pool.keyNodes == {} && pool.freqNodes == {}
  {
    forall n {:trigger Left(v, i, n)} | n in v.owner ensures !Left(v, i, n) {
      assert AtHome(v, n) && Listed(v, v.owner[n]);
    }
  }

  lemma LeftStep(v: View, i: nat, n: KeyNode)
    requires Ordered(v) && Disjoint(v) && i < |v.order| && v.order[i] in v.chain
    ensures Left(v, i + 1, n) <==> Left(v, i, n) && n !in v.chain[v.order[i]]
  {
    assert ChainOk(v.chain[v.order[i]], v.order[i], v.owner, v.data);
    if n in v.owner { assert AtHome(v, n); }
  }

  /** Frees the list at position i and its node. */
  method FreeFirst(node: FreqNode, pool: ElementPool, ghost v: View, ghost i: nat)
    requires Disjoint(v) && Distinct(v.spine) && Remaining(pool, v, i) && i < |v.spine| && node == v.spine[i]
    modifies node`dummyHead, pool`keyNodes, pool`freqNodes
    ensures Remaining(pool, v, i + 1)
  {
    ghost var c := v.chain[v.order[i]];
    assert ListAt(v, v.order[i]) && ChainOk(c, v.order[i], v.owner, v.data);
    forall n | n in c ensures Left(v, i, n) { }
    node.Destroy(pool, c);
    pool.DeleteFreqNode(node);
    forall n | n in v.owner ensures n in pool.keyNodes <==> Left(v, i + 1, n) { LeftStep(v, i, n); }
    forall p {:trigger v.order[p]} | i < p < |v.order| ensures ListAt(v, v.order[p]) {
      assert old(ListAt(v, v.order[p])) && v.spine[p] != node;
    }
  }

  // ---------------------------------------------------------------- the cache object

  ghost function InitView(head: FreqNode, d: KeyNode): View {
    var node: map<int, FreqNode> := map[0 := head];
    var owner: map<KeyNode, int> := map[d := 0];
    Layout([0], [head], {head}, node, map[0 := [d]], owner, map[], {}, map[])
  }

  lemma InitHolds(head: FreqNode, pool: ElementPool, d: KeyNode)
    requires head.freq == 0 && head.Is([d]) && head.next == null
    requires pool.keyNodes == {d} && pool.freqNodes == {head}
    ensures Holds(head, pool, InitView(head, d))
  {
    var v := InitView(head, d);
    assert v.order[0] == 0 && v.chain[0][0] == d && v.spine[0] == head;
    assert ChainOk(v.chain[0], 0, v.owner, v.data);
    assert AtHome(v, d) && Listed(v, 0);
    assert Ok(v);
  }

  lemma InitAgrees(head: FreqNode, d: KeyNode, capacity: nat)
    ensures var v := InitView(head, d);
            Records(v.data) && Agree(v, map[], map[], capacity) && v.freqs == {head} && v.owner.Keys == {d}
  {
  }

  class LFUCache {
    var dummyHead: FreqNode?
    const capacity: nat
    var kmap: map<string, KeyNode>
    var fmap: map<string, FreqNode>
    const pool: ElementPool
    ghost var view: View
    ghost var history: seq<Op>

    /** The heap is laid out as the view says, and both maps agree with it. */
    ghost predicate Sound()
      reads this`dummyHead, this`kmap, this`fmap, this`view
      reads pool`keyNodes, pool`freqNodes, view.owner.Keys`pre, view.owner.Keys`next
      reads view.freqs`freq, view.freqs`dummyHead, view.freqs`tail, view.freqs`pre, view.freqs`next
    {
      dummyHead != null && Holds(dummyHead, pool, view) && Records(view.data) && Agree(view, kmap, fmap, capacity)
    }

    constructor (capacity: int)
      ensures Valid() && history == [] && this.capacity == capacity % 0x1_0000_0000_0000_0000
      ensures fresh(pool) && fresh(view.freqs) && fresh(view.owner.Keys)
    {
      this.capacity := capacity % 0x1_0000_0000_0000_0000;
      kmap, fmap := map[], map[];
      pool := new ElementPool();
      dummyHead := null;
      history := [];
      view := Layout([], [], {}, map[], map[], map[], map[], {}, map[]);
      new;
      Init();
      NoCallYet();
    }

    lemma NoCallYet()
      requires Sound() && history == [] && view.lists == map[]
      ensures Valid()
    {
    }

    /** LFUCache::init: the dummy list. */
    method Init()
      requires pool.keyNodes == {} && pool.freqNodes == {} && kmap == map[] && fmap == map[]
      modifies this`dummyHead, this`view, pool`keyNodes, pool`freqNodes
      ensures Sound() && view.lists == map[] && fresh(view.freqs) && fresh(view.owner.Keys)
    {
      dummyHead := pool.NewFreqNode();
      ghost var d := dummyHead.Init(0, pool);
      dummyHead.next := null;
      view := InitView(dummyHead, d);
      Started(d);
    }

    lemma Started(d: KeyNode)
      requires dummyHead != null && dummyHead.freq == 0 && dummyHead.Is([d]) && dummyHead.next == null
      requires pool.keyNodes == {d} && pool.freqNodes == {dummyHead}
      requires view == InitView(dummyHead, d) && kmap == map[] && fmap == map[]
      ensures Sound() && view.lists == map[] && view.freqs == {dummyHead} && view.owner.Keys == {d}
    {
      InitHolds(dummyHead, pool, d);
      InitAgrees(dummyHead, d, capacity);
    }

    method Store(newK: map<string, KeyNode>, newF: map<string, FreqNode>, ghost v: View)
      modifies this`kmap, this`fmap, this`view
      ensures view == v && kmap == newK && fmap == newF
      ensures Strung(v.spine) == old(Strung(v.spine)) && Inner(v) == old(Inner(v))
    {
      kmap, fmap, view := newK, newF, v;
    }

    /** Stores what a step has come to. */
    method Install(newK: map<string, KeyNode>, newF: map<string, FreqNode>, ghost v: View)
      requires dummyHead != null && Holds(dummyHead, pool, v) && Records(v.data) && Agree(v, newK, newF, capacity)
      modifies this`kmap, this`fmap, this`view
      ensures Sound() && view == v && kmap == newK && fmap == newF
    {
      Store(newK, newF, v);
    }

    method GetHit(key: string) returns (value: string)
      requires Sound() && key in kmap
      modifies this`kmap, this`fmap, this`view
      modifies view.freqs`dummyHead, view.freqs`tail, view.freqs`pre, view.freqs`next
      modifies view.owner.Keys`pre, view.owner.Keys`next, pool`keyNodes, pool`freqNodes
      ensures Sound() && GetLists(old(view.lists), key) == (view.lists, Some(value))
      ensures fresh(view.freqs - old(view.freqs)) && fresh(view.owner.Keys - old(view.owner.Keys))
    {
      var newF;
      ghost var v';
      value, newF, v' := HitStep(dummyHead, pool, kmap, fmap, key, capacity, view);
      Install(kmap, newF, v');
    }

    method MakeRoom()
      requires Sound() && view.lists != map[]
      modifies this`kmap, this`fmap, this`view
      modifies view.freqs`dummyHead, view.freqs`tail, view.freqs`pre, view.freqs`next
      modifies view.owner.Keys`pre, view.owner.Keys`next, pool`keyNodes, pool`freqNodes
      ensures Sound() && view.lists == Evict(old(view.lists)) && kmap == old(kmap) - {Victim(old(view.lists)).key}
      ensures |kmap| == old(|kmap|) - 1 && view.freqs <= old(view.freqs) && view.owner.Keys <= old(view.owner.Keys)
    {
      var newK, newF;
      ghost var v';
      newK, newF, v' := EvictStep(dummyHead, pool, kmap, fmap, capacity, view);
      Install(newK, newF, v');
    }

    method Insert(key: string, value: string)
      returns (ghost fs: set<FreqNode>, ghost ks: set<KeyNode>, ghost n: KeyNode?)
      requires Sound() && key !in kmap && |kmap| < capacity
      modifies this`kmap, this`fmap, this`view
      modifies view.freqs`tail, view.freqs`pre, view.freqs`next
      modifies view.owner.Keys`pre, view.owner.Keys`next, pool`keyNodes, pool`freqNodes
      ensures Sound() && view.lists == Push(old(view.lists), 1, Entry(key, value))
      ensures fresh(fs) && view.freqs <= old(view.freqs) + fs && fresh(ks) && (n == null || fresh(n))
      ensures forall k :: k in view.owner ==> k in old(view.owner) || k in ks || k == n
    {
      var newK, newF;
      ghost var v';
      newK, newF, v', fs, ks, n := InsertStep(dummyHead, pool, kmap, fmap, key, value, capacity, view);
      Install(newK, newF, v');
    }

    /** The lists are what the history of calls makes of them. */
    ghost predicate Valid()
      reads this`dummyHead, this`kmap, this`fmap, this`view, this`history
      reads pool`keyNodes, pool`freqNodes, view.owner.Keys`pre, view.owner.Keys`next
      reads view.freqs`freq, view.freqs`dummyHead, view.freqs`tail, view.freqs`pre, view.freqs`next
    {
      Sound() && Admissible(capacity, history) && view.lists == RunLists(capacity, history)
    }

    method Note(ghost op: Op)
      modifies this`history
      ensures history == old(history) + [op] && Sound() == old(Sound())
    {
      history := history + [op];
    }

    /** The call is over: it joins the history. */
    method Finish(ghost op: Op)
      requires Sound() && Admissible(capacity, history + [op]) && view.lists == RunLists(capacity, history + [op])
      modifies this`history
      ensures Valid() && history == old(history) + [op]
    {
      Note(op);
    }

    lemma BeforeGet(key: string)
      requires Valid()
      ensures KeysUnique(view.lists) && Keys(view.lists) == kmap.Keys
      ensures GetLists(view.lists, key) == (RunLists(capacity, history + [Op.Get(key)]), Answer(capacity, history, key))
      ensures Admissible(capacity, history + [Op.Get(key)])
    {
      AnswersAreLfu(capacity, history, key);
      RunStep(capacity, history, Op.Get(key));
      MappedKeys(view, kmap, fmap);
    }

    /** The call; m and answer are what it is to come to. */
    method Find(key: string, val: string, ghost m: Lists, ghost answer: Option<string>)
      returns (hit: bool, val': string)
      requires Sound() && KeysUnique(view.lists) && Keys(view.lists) == kmap.Keys
      requires GetLists(view.lists, key).0 == m && GetLists(view.lists, key).1 == answer
      modifies this`kmap, this`fmap, this`view
      modifies view.freqs`dummyHead, view.freqs`tail, view.freqs`pre, view.freqs`next
      modifies view.owner.Keys`pre, view.owner.Keys`next, pool`keyNodes, pool`freqNodes
      ensures Sound() && view.lists == m
      ensures hit <==> answer.Some?
      ensures val' == if hit then val + answer.value else val
      ensures fresh(view.freqs - old(view.freqs)) && fresh(view.owner.Keys - old(view.owner.Keys))
    {
      hit, val' := false, val;
      if capacity != 0 && key in fmap {
        var value := GetHit(key);
        hit, val' := true, val + value;
      }
    }

    method FindNoted(key: string, val: string, ghost m: Lists, ghost answer: Option<string>)
      returns (hit: bool, val': string)
      requires Sound() && KeysUnique(view.lists) && Keys(view.lists) == kmap.Keys
      requires GetLists(view.lists, key).0 == m && GetLists(view.lists, key).1 == answer
      requires m == RunLists(capacity, history + [Op.Get(key)]) && Admissible(capacity, history + [Op.Get(key)])
      modifies this`kmap, this`fmap, this`view, this`history
      modifies view.freqs`dummyHead, view.freqs`tail, view.freqs`pre, view.freqs`next
      modifies view.owner.Keys`pre, view.owner.Keys`next, pool`keyNodes, pool`freqNodes
      ensures Valid() && history == old(history) + [Op.Get(key)]
      ensures hit <==> answer.Some?
      ensures val' == if hit then val + answer.value else val
      ensures fresh(view.freqs - old(view.freqs)) && fresh(view.owner.Keys - old(view.owner.Keys))
    {
      hit, val' := Find(key, val, m, answer);
      Finish(Op.Get(key));
    }

    /** Answers exactly when the reference cache holds the key, appending the value to val. */
    method Get(key: string, val: string) returns (hit: bool, val': string)
      requires Valid()
      modifies this`kmap, this`fmap, this`view, this`history
      modifies view.freqs`dummyHead, view.freqs`tail, view.freqs`pre, view.freqs`next
      modifies view.owner.Keys`pre, view.owner.Keys`next, pool`keyNodes, pool`freqNodes
      ensures Valid() && history == old(history) + [Op.Get(key)]
      ensures hit <==> Answer(capacity, old(history), key).Some?
      ensures val' == if hit then val + Answer(capacity, old(history), key).value else val
      ensures fresh(view.freqs - old(view.freqs)) && fresh(view.owner.Keys - old(view.owner.Keys))
    {
      BeforeGet(key);
      hit, val' := FindNoted(key, val, RunLists(capacity, history + [Op.Get(key)]), Answer(capacity, history, key));
    }

    lemma BeforeSet(key: string, value: string)
      requires Valid() && MaySet(capacity, history, key)
      ensures |kmap| == capacity > 0 ==> view.lists != map[] && (key in kmap ==> Victim(view.lists).key == key)
      ensures |kmap| < capacity ==> key !in kmap
      ensures RunLists(capacity, history + [Op.Set(key, value)]) == if capacity == 0 then view.lists
                else Push(if |kmap| == capacity then Evict(view.lists) else view.lists, 1, Entry(key, value))
      ensures Admissible(capacity, history + [Op.Set(key, value)])
    {
      MaySetLists(capacity, history, key);
      MappedKeys(view, kmap, fmap);
      RunStep(capacity, history, Op.Set(key, value));
      if |kmap| > 0 { assert kmap.Keys != {}; }
    }

    method Put(key: string, value: string) returns (ghost fs: set<FreqNode>, ghost ks: set<KeyNode>, ghost n: KeyNode?)
      requires Sound()
      requires |kmap| == capacity > 0 ==> view.lists != map[] && (key in kmap ==> Victim(view.lists).key == key)
      requires |kmap| < capacity ==> key !in kmap
      modifies this`kmap, this`fmap, this`view
      modifies view.freqs`dummyHead, view.freqs`tail, view.freqs`pre, view.freqs`next
      modifies view.owner.Keys`pre, view.owner.Keys`next, pool`keyNodes, pool`freqNodes
      ensures Sound()
      ensures view.lists == if capacity == 0 then old(view.lists)
                            else Push(if old(|kmap|) == capacity then Evict(old(view.lists)) else old(view.lists), 1,
                                      Entry(key, value))
      ensures fresh(fs) && view.freqs <= old(view.freqs) + fs && fresh(ks) && (n == null || fresh(n))
      ensures forall k :: k in view.owner ==> k in old(view.owner) || k in ks || k == n
    {
      fs, ks, n := {}, {}, null;
      if capacity != 0 {
        if |kmap| == capacity {
          MakeRoom();
        }
        fs, ks, n := Insert(key, value);
      }
    }

    method PutNoted(key: string, value: string, ghost m: Lists)
      requires Sound()
      requires |kmap| == capacity > 0 ==> view.lists != map[] && (key in kmap ==> Victim(view.lists).key == key)
      requires |kmap| < capacity ==> key !in kmap
      requires m == RunLists(capacity, history + [Op.Set(key, value)])
      requires m == if capacity == 0 then view.lists
                    else Push(if |kmap| == capacity then Evict(view.lists) else view.lists, 1, Entry(key, value))
      requires Admissible(capacity, history + [Op.Set(key, value)])
      modifies this`kmap, this`fmap, this`view, this`history
      modifies view.freqs`dummyHead, view.freqs`tail, view.freqs`pre, view.freqs`next
      modifies view.owner.Keys`pre, view.owner.Keys`next, pool`keyNodes, pool`freqNodes
      ensures Valid() && history == old(history) + [Op.Set(key, value)]
      ensures fresh(view.freqs - old(view.freqs)) && fresh(view.owner.Keys - old(view.owner.Keys))
    {
      ghost var fs, ks, n := Put(key, value);
      Finish(Op.Set(key, value));
    }

    /** Caches the pair, evicting the least frequently, then least recently, used key when full. */
    method Set(key: string, value: string)
      requires Valid() && MaySet(capacity, history, key)
      modifies this`kmap, this`fmap, this`view, this`history
      modifies view.freqs`dummyHead, view.freqs`tail, view.freqs`pre, view.freqs`next
      modifies view.owner.Keys`pre, view.owner.Keys`next, pool`keyNodes, pool`freqNodes
      ensures Valid() && history == old(history) + [Op.Set(key, value)]
      ensures fresh(view.freqs - old(view.freqs)) && fresh(view.owner.Keys - old(view.owner.Keys))
    {
      BeforeSet(key, value);
      PutNoted(key, value, RunLists(capacity, history + [Op.Set(key, value)]));
    }

    method Advance(ghost v: View, ghost i: nat) returns (pre: FreqNode)
      requires dummyHead != null
      modifies this`dummyHead
      ensures pre == old(dummyHead) && dummyHead == pre.next && Remaining(pool, v, i) == old(Remaining(pool, v, i))
    {
      pre := dummyHead;
      dummyHead := dummyHead.next;
    }

    method FreeLists(ghost v: View)
      requires Disjoint(v) && Distinct(v.spine) && Remaining(pool, v, 0) && v.spine != [] && dummyHead == v.spine[0]
      modifies this`dummyHead, v.freqs`dummyHead, pool`keyNodes, pool`freqNodes
      ensures dummyHead == null && Remaining(pool, v, |v.spine|)
    {
      ghost var i := 0;
      while dummyHead != null
        invariant 0 <= i <= |v.spine| && dummyHead == if i < |v.spine| then v.spine[i] else null
        invariant Remaining(pool, v, i)
        decreases |v.spine| - i
      {
        var pre := Advance(v, i);
        FreeFirst(pre, pool, v, i);
        i := i + 1;
      }
    }

    /** The destructor frees every node, and since a node can be freed only while it is allocated, each exactly once. */
    method Destroy()
      requires Sound()
      modifies this`dummyHead, view.freqs`dummyHead, pool`keyNodes, pool`freqNodes
      ensures dummyHead == null && pool.keyNodes == {} && pool.freqNodes == {}
    {
      SpineDistinct(view);
      AllRemain(pool, view);
      FreeLists(view);
      NoneRemain(pool, view, |view.spine|);
    }
  }

  /** How both callers use the cache: set only after a miss.  With no other call in between, that is all set asks
      for. */
  method GetOrSet(cache: LFUCache, key: string, val: string, loaded: string) returns (hit: bool, val': string)
    requires cache.Valid()
    modifies cache`kmap, cache`fmap, cache`view, cache`history
    modifies cache.view.freqs`dummyHead, cache.view.freqs`tail, cache.view.freqs`pre, cache.view.freqs`next
    modifies cache.view.owner.Keys`pre, cache.view.owner.Keys`next, cache.pool`keyNodes, cache.pool`freqNodes
    ensures cache.Valid()
    ensures hit <==> Answer(cache.capacity, old(cache.history), key).Some?
    ensures val' == if hit then val + Answer(cache.capacity, old(cache.history), key).value else loaded
    ensures cache.history == old(cache.history) + [Op.Get(key)] + if hit then [] else [Op.Set(key, loaded)]
  {
    hit, val' := cache.Get(key, val);
    if !hit {
      val' := loaded;
      assert cache.history == old(cache.history) + [Op.Get(key)] + [];
      MissMaySet(cache.capacity, old(cache.history), [], key);
      cache.Set(key, loaded);
    }
  }
}
