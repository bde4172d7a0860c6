/** The linked structure of the LFU cache, a doubly linked list of doubly linked lists
    updated in place.  A ghost `Layout` says where every node is; each step here is
    proved to do to the layout what `LfuLayout` has as a pure change of it. */
module LfuHeap {
  import opened LfuSpec
  import opened LfuLayout

  type View = Layout<FreqNode, KeyNode>

  /** Node<Key>: an entry, linked in the list of its frequency.  Its key and value are
      written once, when it has just been allocated, and never again. */
  class KeyNode {
    const key: string
    const value: string
    var pre: KeyNode?
    var next: KeyNode?

    constructor (key: string, value: string)
      ensures this.key == key && this.value == value && pre == null && next == null
    {
      this.key, this.value, pre, next := key, value, null, null;
    }
  }

  /** newElement and deleteElement, with a record of which nodes are allocated:
      a node can be freed only while it is, so at most once. */
  class ElementPool {
    ghost var keyNodes: set<KeyNode>
    ghost var freqNodes: set<FreqNode>

    constructor ()
      ensures keyNodes == {} && freqNodes == {}
    {
      keyNodes, freqNodes := {}, {};
    }

    method NewKeyNode(key: string, value: string) returns (n: KeyNode)
      modifies this`keyNodes
      ensures fresh(n) && keyNodes == old(keyNodes) + {n}
      ensures n.key == key && n.value == value && n.pre == null && n.next == null
    {
      n := new KeyNode(key, value);
      keyNodes := keyNodes + {n};
    }

    method DeleteKeyNode(n: KeyNode)
      requires n in keyNodes
      modifies this`keyNodes
      ensures keyNodes == old(keyNodes) - {n}
    {
      keyNodes := keyNodes - {n};
    }

    method NewFreqNode() returns (f: FreqNode)
      modifies this`freqNodes
      ensures fresh(f) && freqNodes == old(freqNodes) + {f}
      ensures f.freq == 0 && f.dummyHead == null && f.tail == null && f.pre == null && f.next == null
    {
      f := new FreqNode();
      freqNodes := freqNodes + {f};
    }

    method DeleteFreqNode(f: FreqNode)
      requires f in freqNodes
      modifies this`freqNodes
      ensures freqNodes == old(freqNodes) - {f}
    {
      freqNodes := freqNodes - {f};
    }
  }

  /** c is linked both ways, in this order, and ends in null. */
  ghost predicate Linked(c: seq<KeyNode>)
    reads c`pre, c`next
  {
    && (forall i {:trigger c[i].next} :: 0 <= i < |c| - 1 ==> c[i].next == c[i + 1])
    && (forall i {:trigger c[i].pre} :: 0 < i < |c| ==> c[i].pre == c[i - 1])
    && (c != [] ==> c[|c| - 1].next == null)
  }

  /** Node<KeyList>: the list of one frequency, itself a node of the outer list. */
  class FreqNode {
    var freq: int
    var dummyHead: KeyNode?
    var tail: KeyNode?
    var pre: FreqNode?
    var next: FreqNode?

    constructor ()
      ensures freq == 0 && dummyHead == null && tail == null && pre == null && next == null
    {
      freq, dummyHead, tail, pre, next := 0, null, null, null, null;
    }

    /** The list consists of the nodes c, the dummy head first. */
    ghost predicate Is(c: seq<KeyNode>)
      reads this`dummyHead, this`tail, c`pre, c`next
    {
      c != [] && dummyHead == c[0] && tail == c[|c| - 1] && Linked(c)
    }

    method Init(freq: int, pool: ElementPool) returns (ghost d: KeyNode)
      modifies this`freq, this`dummyHead, this`tail, pool`keyNodes
      ensures this.freq == freq && fresh(d) && Is([d])
      ensures pool.keyNodes == old(pool.keyNodes) + {d}
    {
      this.freq := freq;
      dummyHead := pool.NewKeyNode("", "");
      tail := dummyHead;
      dummyHead.next := null;
      d := dummyHead;
    }

    function GetFreq(): int
      reads this`freq
    {
      freq
    }

    method IsEmpty(ghost c: seq<KeyNode>) returns (empty: bool)
      requires Is(c) && Distinct(c)
      ensures empty <==> |c| == 1
    {
      empty := dummyHead == tail;
    }

    method GetLast(ghost c: seq<KeyNode>) returns (n: KeyNode)
      requires Is(c)
      ensures n == c[|c| - 1]
    {
      n := tail;
    }

    /** Links node in right behind the dummy head. */
    method Add(node: KeyNode, ghost c: seq<KeyNode>)
      requires Is(c) && Distinct(c) && node !in c
      modifies this`tail, c`pre, c`next, node`pre, node`next
      ensures Is(Inserted(c, 1, node))
    {
      assert dummyHead.next == if |c| > 1 then c[1] else null;
      if dummyHead.next == null {
        tail := node;
      } else {
        dummyHead.next.pre := node;
      }
      node.next := dummyHead.next;
      node.pre := dummyHead;
      dummyHead.next := node;
    }

    /** Unlinks the node at position j. */
    method Del(node: KeyNode, ghost c: seq<KeyNode>, ghost j: nat)
      requires Is(c) && Distinct(c) && 0 < j < |c| && node == c[j]
      modifies this`tail, c`pre, c`next
      ensures Is(Without(c, j))
    {
      assert node.pre == c[j - 1] && node.next == if j + 1 < |c| then c[j + 1] else null;
      node.pre.next := node.next;
      if node.next == null {
        tail := node.pre;
      } else {
        node.next.pre := node.pre;
      }
    }

    /** Frees every node of the list, the dummy head included. */
    method Destroy(pool: ElementPool, ghost c: seq<KeyNode>)
      requires Is(c) && Distinct(c) && forall i :: 0 <= i < |c| ==> c[i] in pool.keyNodes
      modifies this`dummyHead, pool`keyNodes
      ensures dummyHead == null && pool.keyNodes == old(pool.keyNodes) - (set n | n in c)
    {
      ghost var i := 0;
      while dummyHead != null
        invariant 0 <= i <= |c|
        invariant dummyHead == if i < |c| then c[i] else null
        invariant Linked(c)
        invariant forall k :: i <= k < |c| ==> c[k] in pool.keyNodes
        invariant pool.keyNodes == old(pool.keyNodes) - (set n | n in c[..i])
        decreases |c| - i
      {
        var pre := dummyHead;
        dummyHead := dummyHead.next;
        pool.DeleteKeyNode(pre);
        i := i + 1;
      }
      assert c[..i] == c;
    }
  }

  /** The list nodes c are linked both ways, in this order, and end in null. */
  ghost predicate Strung(c: seq<FreqNode>)
    reads c`pre, c`next
  {
    && (forall i {:trigger c[i].next} :: 0 <= i < |c| - 1 ==> c[i].next == c[i + 1])
    && (forall i {:trigger c[i].pre} :: 0 < i < |c| ==> c[i].pre == c[i - 1])
    && (c != [] ==> c[|c| - 1].next == null)
  }

  /** The list of frequency g is the chain the layout has for it. */
  ghost predicate ListAt(v: View, g: int)
    reads v.freqs`freq, v.freqs`dummyHead, v.freqs`tail, v.owner.Keys`pre, v.owner.Keys`next
  {
    && g in v.chain && g in v.node && v.node[g] in v.freqs && (forall n :: n in v.chain[g] ==> n in v.owner)
    && v.node[g].freq == g && v.node[g].Is(v.chain[g])
  }

  ghost predicate Inner(v: View)
    reads v.freqs`freq, v.freqs`dummyHead, v.freqs`tail, v.owner.Keys`pre, v.owner.Keys`next
  {
    forall g {:trigger ListAt(v, g)} :: g in v.chain ==> ListAt(v, g)
  }

  /** These are the nodes of the layout and no others. */
  ghost predicate Nodes(keyNodes: set<KeyNode>, freqNodes: set<FreqNode>, v: View) {
    && (forall n :: n in keyNodes ==> n in v.owner || n in v.loose)
    && (forall n :: n in v.owner ==> n in keyNodes)
    && (forall n :: n in v.loose ==> n in keyNodes)
    && (forall f :: f in freqNodes ==> f in v.spine)
    && freqNodes == v.freqs
  }

  /** The heap is laid out as v. */
  ghost predicate Holds(head: FreqNode?, pool: ElementPool, v: View)
    reads pool`keyNodes, pool`freqNodes, v.owner.Keys`pre, v.owner.Keys`next
    reads v.freqs`freq, v.freqs`dummyHead, v.freqs`tail, v.freqs`pre, v.freqs`next
  {
    && Ok(v) && v.spine != [] && head == v.spine[0]
    && Strung(v.spine) && Inner(v) && Nodes(pool.keyNodes, pool.freqNodes, v)
  }

  // ---------------------------------------------------------------- one list

  /** Unlinks node j of nowf's list. */
  method Cut(nowk: KeyNode, nowf: FreqNode, ghost v: View, ghost g: int, ghost j: nat)
    requires Inner(v) && Disjoint(v) && g in v.lists
    requires g in v.chain && g in v.node && nowf == v.node[g] && 0 < j < |v.chain[g]| && nowk == v.chain[g][j]
             && j <= |v.lists[g]|
    modifies nowf`tail, v.chain[g]`pre, v.chain[g]`next
    ensures Inner(Unlink(v, g, j))
  {
    assert ListAt(v, g) && ChainOk(v.chain[g], g, v.owner, v.data);
    nowf.Del(nowk, v.chain[g], j);
    ghost var v' := Unlink(v, g, j);
    UnlinkDisjoint(v, g, j);
    forall h | h in v'.chain ensures ListAt(v', h) {
      assert old(ListAt(v, h)) && ChainOk(v.chain[h], h, v.owner, v.data) && ChainOk(v'.chain[h], h, v'.owner, v'.data);
    }
  }

  /** Links nowk in at the front of nxt's list. */
  method Paste(nowk: KeyNode, nxt: FreqNode, ghost v: View, ghost g: int)
    requires Inner(v) && Disjoint(v) && g in v.lists
    requires g in v.chain && g in v.node && nxt == v.node[g] && v.chain[g] != [] && nowk in v.loose && nowk in v.data
    modifies nxt`tail, v.chain[g]`pre, v.chain[g]`next, nowk`pre, nowk`next
    ensures Inner(Link(v, g, nowk))
  {
    assert ListAt(v, g) && ChainOk(v.chain[g], g, v.owner, v.data);
    nxt.Add(nowk, v.chain[g]);
    ghost var v' := Link(v, g, nowk);
    LinkDisjoint(v, g, nowk);
    forall h | h in v'.chain ensures ListAt(v', h) {
      assert old(ListAt(v, h)) && ChainOk(v.chain[h], h, v.owner, v.data) && ChainOk(v'.chain[h], h, v'.owner, v'.data);
    }
  }

  /** A new, empty list for frequency g, still to be strung in. */
  method NewList(pool: ElementPool, g: int, ghost v: View, ghost p: nat) returns (nxt: FreqNode, ghost d: KeyNode)
    requires Inner(v) && p < |v.order| && p < |v.spine|
    modifies pool`keyNodes, pool`freqNodes
    ensures fresh(nxt) && fresh(d)
    ensures pool.keyNodes == old(pool.keyNodes) + {d} && pool.freqNodes == old(pool.freqNodes) + {nxt}
    ensures Inner(AddList(v, p, nxt, g, d)) && Strung(v.spine) == old(Strung(v.spine))
  {
    nxt := pool.NewFreqNode();
    d := nxt.Init(g, pool);
    ghost var v' := AddList(v, p, nxt, g, d);
    InsertedSet(v.spine, p + 1, nxt);
    forall h | h in v'.chain ensures ListAt(v', h) {
      if h != g { assert ListAt(v, h); }
    }
  }

  /** Frees an empty list's node and dummy node. */
  method FreeList(pool: ElementPool, node: FreqNode, ghost v: View, ghost p: nat, ghost d: KeyNode)
    requires Inner(v) && Disjoint(v) && p < |v.order| && p < |v.spine| && Distinct(v.spine)
    requires v.order[p] in v.chain && v.order[p] in v.node && node == v.spine[p] == v.node[v.order[p]]
    requires v.chain[v.order[p]] == [d] && node in pool.freqNodes && d in pool.keyNodes
    modifies node`dummyHead, pool`keyNodes, pool`freqNodes
    ensures Inner(DropList(v, p, d))
    ensures pool.keyNodes == old(pool.keyNodes) - {d} && pool.freqNodes == old(pool.freqNodes) - {node}
  {
    assert ListAt(v, v.order[p]);
    node.Destroy(pool, [d]);
    assert (set n | n in [d]) == {d};
    pool.DeleteFreqNode(node);
    ghost var v' := DropList(v, p, d);
    DropListDisjoint(v, p, d);
    WithoutSet(v.spine, p);
    forall h | h in v'.chain ensures ListAt(v', h) {
      assert old(ListAt(v, h)) && ChainOk(v'.chain[h], h, v'.owner, v'.data);
    }
  }

  // ---------------------------------------------------------------- the list of lists

  method InsertAfter(nowf: FreqNode, nxt: FreqNode, ghost c: seq<FreqNode>, ghost p: nat, ghost v: View)
    requires Inner(v) && Strung(c) && Distinct(c) && p < |c| && nowf == c[p] && nxt !in c
    modifies c`pre, c`next, nxt`pre, nxt`next
    ensures Inner(v) && Strung(Inserted(c, p + 1, nxt))
  {
    assert nowf.next == if p + 1 < |c| then c[p + 1] else null;
    if nowf.next != null {
      nowf.next.pre := nxt;
    }
    nxt.next := nowf.next;
    nowf.next := nxt;
    nxt.pre := nowf;
  }

  method TakeOut(node: FreqNode, ghost c: seq<FreqNode>, ghost p: nat, ghost v: View)
    requires Inner(v) && Strung(c) && Distinct(c) && 0 < p < |c| && node == c[p]
    modifies c`pre, c`next
    ensures Inner(v) && Strung(Without(c, p))
  {
    assert node.pre == c[p - 1] && node.next == if p + 1 < |c| then c[p + 1] else null;
    node.pre.next := node.next;
    if node.next != null {
      node.next.pre := node.pre;
    }
  }

  /** Two lists are two nodes, since a node knows its frequency. */
  lemma SpineDistinct(v: View)
    requires Ordered(v) && Inner(v) && v.chain.Keys == v.node.Keys
    ensures Distinct(v.spine)
    ensures forall i :: 0 <= i < |v.order| ==> v.spine[i].freq == v.order[i]
  {
    forall i | 0 <= i < |v.order| ensures v.spine[i].freq == v.order[i] {
      assert v.order[i] in v.node && ListAt(v, v.order[i]);
    }
  }

  // ---------------------------------------------------------------- steps of the cache

  /** What the code can see of nowf and its successor. */
  lemma Neighbour(head: FreqNode?, nowf: FreqNode, p: nat, v: View)
    requires Ok(v) && Inner(v) && Strung(v.spine) && p < |v.order| && nowf == v.spine[p] && head == v.spine[0]
    ensures nowf.freq == v.order[p] && (nowf == head <==> p == 0)
    ensures p + 1 == |v.order| ==> nowf.next == null
    ensures p + 1 < |v.order| ==> v.order[p] < v.order[p + 1]
    ensures p + 1 < |v.order| ==> nowf.next == v.spine[p + 1] && v.spine[p + 1].freq == v.order[p + 1]
  {
    SpineDistinct(v);
  }

  lemma NodesAdd(ks: set<KeyNode>, fs: set<FreqNode>, v: View, p: nat, f: FreqNode, g: int, d: KeyNode)
    requires Nodes(ks, fs, v) && p < |v.order| && p < |v.spine|
    ensures Nodes(ks + {d}, fs + {f}, AddList(v, p, f, g, d))
  {
    InsertedSet(v.spine, p + 1, f);
  }

  lemma NodesDrop(ks: set<KeyNode>, fs: set<FreqNode>, v: View, p: nat, d: KeyNode)
    requires Nodes(ks, fs, v) && p < |v.order| && p < |v.spine| && Distinct(v.spine) && d !in v.loose
    ensures Nodes(ks - {d}, fs - {v.spine[p]}, DropList(v, p, d))
  {
    WithoutSet(v.spine, p);
  }

  /** A new, empty list for frequency g behind nowf. */
  method CreateList(head: FreqNode, pool: ElementPool, nowf: FreqNode, g: int, ghost v: View, ghost p: nat)
    returns (nxt: FreqNode, ghost d: KeyNode)
    requires Holds(head, pool, v) && p < |v.order| && nowf == v.spine[p]
    requires v.order[p] < g && (p + 1 < |v.order| ==> g < v.order[p + 1])
    modifies v.freqs`pre, v.freqs`next, pool`keyNodes, pool`freqNodes
    ensures fresh(nxt) && fresh(d) && d !in v.owner && d !in v.loose && Holds(head, pool, AddList(v, p, nxt, g, d))
  {
    SpineDistinct(v);
    nxt, d := NewList(pool, g, v, p);
    InsertAfter(nowf, nxt, v.spine, p, AddList(v, p, nxt, g, d));
    NodesAdd(old(pool.keyNodes), old(pool.freqNodes), v, p, nxt, g, d);
    AddHolds(head, pool, v, p, nxt, g, d);
  }

  lemma AddHolds(head: FreqNode, pool: ElementPool, v: View, p: nat, f: FreqNode, g: int, d: KeyNode)
    requires Ok(v) && head == v.spine[0] && p < |v.order| && v.order[p] < g
             && (p + 1 < |v.order| ==> g < v.order[p + 1])
    requires d !in v.owner && d !in v.loose
    requires var v' := AddList(v, p, f, g, d);
             Strung(v'.spine) && Inner(v') && Nodes(pool.keyNodes, pool.freqNodes, v')
    ensures Holds(head, pool, AddList(v, p, f, g, d))
  {
    AddListOk(v, p, f, g, d);
  }

  /** The list behind position p is that of the next frequency. */
  ghost predicate HasNext(v: View, p: nat) {
    p + 1 < |v.order| && v.order[p + 1] == v.order[p] + 1
  }

  /** v1 is v with a list for g, the frequency after position p's, given or new. */
  ghost predicate Provided(v: View, v1: View, p: nat, g: int, f: FreqNode, d: KeyNode?) {
    && p < |v.order| && p < |v.spine| && g == v.order[p] + 1
    && if HasNext(v, p) then v1 == v
       else d != null && d !in v.owner && d !in v.loose && v1 == AddList(v, p, f, g, d)
  }

  method AddNext(head: FreqNode, pool: ElementPool, nowf: FreqNode, g: int, ghost v: View, ghost p: nat)
    returns (nxt: FreqNode, ghost d: KeyNode, ghost v': View)
    requires Holds(head, pool, v) && p < |v.order| && nowf == v.spine[p]
    requires v.order[p] < g && (p + 1 < |v.order| ==> g < v.order[p + 1])
    modifies v.freqs`pre, v.freqs`next, pool`keyNodes, pool`freqNodes
    ensures Holds(head, pool, v')
    ensures d !in v.owner && d !in v.loose && v' == AddList(v, p, nxt, g, d)
    ensures fresh(v'.freqs - v.freqs)
    ensures fresh(v'.owner.Keys - v.owner.Keys)
  {
    nxt, d := CreateList(head, pool, nowf, g, v, p);
    v' := AddList(v, p, nxt, g, d);
    assert v'.freqs - v.freqs <= {nxt} && v'.owner.Keys - v.owner.Keys <= {d};
  }

  /** The list of frequency g, the one after nowf's, created behind nowf when it is missing. */
  method NextList(head: FreqNode, pool: ElementPool, nowf: FreqNode, ghost v: View, ghost p: nat, ghost g: int)
    returns (nxt: FreqNode, ghost d: KeyNode?, ghost v': View)
    requires Holds(head, pool, v) && p < |v.order| && nowf == v.spine[p] && g == v.order[p] + 1
    modifies v.freqs`pre, v.freqs`next, pool`keyNodes, pool`freqNodes
    ensures Holds(head, pool, v') && Provided(v, v', p, g, nxt, d)
    ensures g in v'.node && nxt == v'.node[g]
    ensures fresh(v'.freqs - v.freqs)
    ensures fresh(v'.owner.Keys - v.owner.Keys)
  {
    Neighbour(head, nowf, p, v);
    var next := nowf.GetFreq() + 1;
    if nowf.next == null || nowf.next.GetFreq() != next {
      nxt, d, v' := AddNext(head, pool, nowf, next, v, p);
    } else {
      nxt, d, v' := nowf.next, null, v;
      assert v.order[p + 1] == g;
    }
  }

  /** Takes node j out of nowf's list. */
  method Detach(head: FreqNode, pool: ElementPool, nowk: KeyNode, nowf: FreqNode, ghost v: View, ghost g: int,
                ghost j: nat)
    requires Holds(head, pool, v) && g in v.node && nowf == v.node[g] && Placed(v, nowk, g, j)
    modifies v.freqs`tail, v.owner.Keys`pre, v.owner.Keys`next
    ensures Holds(head, pool, Unlink(v, g, j))
  {
    Fits(v, g);
    assert ListAt(v, g);
    Cut(nowk, nowf, v, g, j);
    UnlinkHolds(head, pool, v, g, j);
  }

  lemma UnlinkHolds(head: FreqNode, pool: ElementPool, v: View, g: int, j: nat)
    requires Ok(v) && head == v.spine[0] && Strung(v.spine) && Nodes(pool.keyNodes, pool.freqNodes, v)
    requires g in v.lists && 0 < j < |v.chain[g]| && j <= |v.lists[g]| && Inner(Unlink(v, g, j))
    ensures Holds(head, pool, Unlink(v, g, j))
  {
    Fits(v, g);
    UnlinkOk(v, g, j);
    NodesUnlink(pool.keyNodes, pool.freqNodes, v, g, j);
  }

  lemma NodesUnlink(ks: set<KeyNode>, fs: set<FreqNode>, v: View, g: int, j: nat)
    requires Nodes(ks, fs, v) && g in v.lists && g in v.chain && 0 < j < |v.chain[g]| && j <= |v.lists[g]|
    requires v.chain[g][j] in v.owner
    ensures Nodes(ks, fs, Unlink(v, g, j))
  {
  }

  lemma NodesLink(ks: set<KeyNode>, fs: set<FreqNode>, v: View, g: int, n: KeyNode)
    requires Nodes(ks, fs, v) && ReadyFor(v, g) && n in v.loose && n in v.data
    ensures Nodes(ks, fs, Link(v, g, n))
  {
  }

  /** Node j of the chain of frequency g is n. */
  ghost predicate Placed(v: View, n: KeyNode, g: int, j: nat) {
    g in v.lists && g in v.chain && 0 < j < |v.chain[g]| && n == v.chain[g][j] && n in v.data && j <= |v.lists[g]|
  }

  ghost predicate ReadyFor(v: View, g: int) {
    g in v.node && g in v.lists && g in v.chain && v.chain[g] != []
  }

  /** Puts a loose node at the front of nxt's list. */
  method Attach(head: FreqNode, pool: ElementPool, nowk: KeyNode, nxt: FreqNode, ghost v: View, ghost g: int)
    requires Holds(head, pool, v) && ReadyFor(v, g) && nxt == v.node[g] && nowk in v.loose && nowk in v.data
    modifies v.freqs`tail, v.owner.Keys`pre, v.owner.Keys`next, nowk`pre, nowk`next
    ensures Holds(head, pool, Link(v, g, nowk))
  {
    Fits(v, g);
    assert ListAt(v, g);
    Paste(nowk, nxt, v, g);
    LinkHolds(head, pool, v, g, nowk);
  }

  lemma LinkHolds(head: FreqNode, pool: ElementPool, v: View, g: int, n: KeyNode)
    requires Ok(v) && head == v.spine[0] && Strung(v.spine) && Nodes(pool.keyNodes, pool.freqNodes, v)
    requires ReadyFor(v, g) && n in v.loose && n in v.data && Inner(Link(v, g, n))
    ensures Holds(head, pool, Link(v, g, n))
  {
    LinkOk(v, g, n);
    NodesLink(pool.keyNodes, pool.freqNodes, v, g, n);
  }

  method RemoveList(pool: ElementPool, node: FreqNode, ghost v: View, ghost p: nat, ghost d: KeyNode)
    requires Strung(v.spine) && Distinct(v.spine) && 0 < p < |v.spine| && node == v.spine[p]
    requires Inner(v) && Disjoint(v) && p < |v.order| && v.order[p] in v.chain && v.order[p] in v.node
    requires node == v.node[v.order[p]] && v.chain[v.order[p]] == [d] && node in pool.freqNodes && d in pool.keyNodes
    modifies v.spine`pre, v.spine`next, node`dummyHead, pool`keyNodes, pool`freqNodes
    ensures Strung(Without(v.spine, p)) && Inner(DropList(v, p, d))
    ensures pool.keyNodes == old(pool.keyNodes) - {d} && pool.freqNodes == old(pool.freqNodes) - {node}
  {
    TakeOut(node, v.spine, p, v);
    FreeList(pool, node, v, p, d);
  }

  /** LFUCache::del: unlinks and frees the list node, whose list is empty. */
  method Del(head: FreqNode, pool: ElementPool, node: FreqNode, ghost v: View, ghost p: nat, ghost d: KeyNode)
    requires Holds(head, pool, v) && 0 < p < |v.order| && node == v.spine[p] && v.order[p] in v.chain
    requires v.chain[v.order[p]] == [d]
    modifies v.freqs`pre, v.freqs`next, node`dummyHead, pool`keyNodes, pool`freqNodes
    ensures Holds(head, pool, DropList(v, p, d))
  {
    SpineDistinct(v);
    DropListOk(v, p, d);
    RemoveList(pool, node, v, p, d);
    NodesDrop(old(pool.keyNodes), old(pool.freqNodes), v, p, d);
  }

  /** v' is v without the list at position p if that is empty; its dummy was d. */
  ghost predicate Dropped(v: View, v': View, p: nat, d: KeyNode?) {
    && p < |v.order| && p < |v.spine| && v.order[p] in v.lists
    && if v.lists[v.order[p]] == [] then d != null && d !in v.data && v' == DropList(v, p, d) else v' == v
  }

  /** Drops the list of nowf, which is not the dummy list, if it is empty. */
  method DropEmpty(head: FreqNode, pool: ElementPool, nowf: FreqNode, ghost v: View, ghost p: nat)
    returns (ghost d: KeyNode?, ghost v': View)
    requires Holds(head, pool, v) && 0 < p < |v.order| && nowf == v.spine[p] && v.order[p] in v.lists
    modifies v.freqs`pre, v.freqs`next, nowf`dummyHead, pool`keyNodes, pool`freqNodes
    ensures Holds(head, pool, v') && Dropped(v, v', p, d)
  {
    ghost var g := v.order[p];
    Fits(v, g);
    assert ListAt(v, g);
    var empty := nowf.IsEmpty(v.chain[g]);
    d, v' := null, v;
    if empty {
      d := v.chain[g][0];
      assert v.chain[g] == [d];
      Del(head, pool, nowf, v, p, d);
      v' := DropList(v, p, d);
    }
  }

  lemma ProvidedIs(v: View, v1: View, p: nat, g: int, f: FreqNode, d: KeyNode?)
    requires Ok(v) && Provided(v, v1, p, g, f, d)
    ensures p < |v1.order| && v1.order[p] == v.order[p] && p < |v1.spine| && v1.spine[p] == v.spine[p]
    ensures v1.data == v.data && v1.loose == v.loose
    ensures v1.lists == if g in v.lists then v.lists else v.lists[g := []]
    ensures forall n :: n in v.owner ==> n in v1.owner && v1.owner[n] == v.owner[n]
    ensures forall h :: h in v.node ==> h in v1.node && v1.node[h] == v.node[h]
    ensures v.order[p] in v.chain ==> v.order[p] in v1.chain && v1.chain[v.order[p]] == v.chain[v.order[p]]
  {
    if HasNext(v, p) {
      assert v.order[p + 1] in v.node && v.order[0] <= v.order[p];
    } else {
      if p + 1 < |v.order| { assert g < v.order[p + 1]; }
      AddListOk(v, p, f, g, d);
    }
  }

  /** The changes of addFreq add up to a hit of the abstract lists, or to a push. */
  lemma StepsAreHit(m: Lists, g: int, j: nat)
    requires NoneEmpty(m) && g in m && j < |m[g]|
    ensures var m1 := if g + 1 in m then m else m[g + 1 := []];
            var m2 := m1[g := Without(m1[g], j)];
            var m3 := m2[g + 1 := [m[g][j]] + m2[g + 1]];
            (if m3[g] == [] then m3 - {g} else m3) == Hit(m, g, j)
  {
  }

  lemma StepsArePush(m: Lists, e: Entry)
    ensures var m1 := if 1 in m then m else m[1 := []];
            m1[1 := [e] + m1[1]] == Push(m, 1, e)
  {
  }

  /** What addFreq comes to: n is filed under frequency g, and every other node is where it was. */
  ghost predicate Refiled(v: View, v': View, n: KeyNode, g: int) {
    && v'.data == v.data && v'.loose == v.loose - {n}
    && g in v'.node && n in v'.owner && v'.owner[n] == g
    && (forall x :: x in v.data && x != n && x in v.owner ==> x in v'.owner && v'.owner[x] == v.owner[x])
    && (forall h :: h in v.node && h in v'.node ==> v'.node[h] == v.node[h])
  }

  lemma FiledNew(v: View, v1: View, n: KeyNode, f: FreqNode, d: KeyNode?)
    requires Ok(v) && Ok(v1) && Provided(v, v1, 0, 1, f, d) && n in v.loose && n in v.data && 1 in v1.node
    ensures 1 in v1.lists && 1 in v1.chain && v1.chain[1] != []
    ensures var v' := Link(v1, 1, n);
            Refiled(v, v', n, 1) && v'.lists == Push(v.lists, 1, v.data[n])
  {
    Fits(v1, 1);
    ProvidedIs(v, v1, 0, 1, f, d);
    StepsArePush(v.lists, v.data[n]);
  }

  lemma ProvidedReady(v: View, v1: View, n: KeyNode, p: nat, g: int, j: nat, f: FreqNode, d: KeyNode?)
    requires Ok(v) && Ok(v1) && Provided(v, v1, p, g + 1, f, d) && Placed(v, n, g, j) && g + 1 in v1.node
    ensures Placed(v1, n, g, j) && ReadyFor(v1, g + 1) && g in v1.node && g in v.node && v1.node[g] == v.node[g]
  {
    ProvidedIs(v, v1, p, g + 1, f, d);
    assert v.order[0] <= v.order[p];
    Fits(v, g);
    Fits(v1, g + 1);
    Fits(v1, g);
  }

  /** v' is v with n moved from the list of g to that of g + 1. */
  ghost predicate Shifted(v: View, v': View, n: KeyNode, g: int, j: nat) {
    Placed(v, n, g, j) && ReadyFor(v, g + 1) && v' == Link(Unlink(v, g, j), g + 1, n)
  }

  lemma FiledUp(v: View, v1: View, v3: View, v4: View, n: KeyNode, p: nat, g: int, j: nat, f: FreqNode, d: KeyNode?,
                e: KeyNode?)
    requires Ok(v) && Ok(v1) && NoneEmpty(v.lists) && Provided(v, v1, p, g + 1, f, d)
    requires Placed(v, n, g, j) && Shifted(v1, v3, n, g, j) && Dropped(v3, v4, p, e)
    ensures Refiled(v, v4, n, g + 1) && v4.lists == Hit(v.lists, g, j - 1)
  {
    ProvidedIs(v, v1, p, g + 1, f, d);
    Fits(v, g);
    StepsAreHit(v.lists, g, j - 1);
    assert v4.lists == if v3.lists[g] == [] then v3.lists - {g} else v3.lists;
  }

  /** addFreq for a new entry, which comes from the dummy list.  The caller files it in fmap under nxt. */
  method AddFreqNew(head: FreqNode, pool: ElementPool, nowk: KeyNode, ghost v: View)
    returns (nxt: FreqNode, ghost v': View, ghost fs: set<FreqNode>, ghost ks: set<KeyNode>)
    requires Holds(head, pool, v) && nowk in v.loose && nowk in v.data
    modifies v.freqs`pre, v.freqs`next, v.freqs`tail
    modifies v.owner.Keys`pre, v.owner.Keys`next, nowk`pre, nowk`next, pool`keyNodes, pool`freqNodes
    ensures Holds(head, pool, v') && Refiled(v, v', nowk, 1) && v'.lists == Push(v.lists, 1, v.data[nowk])
    ensures nxt == v'.node[1]
    ensures fresh(fs) && v'.freqs <= v.freqs + fs && fresh(ks) && v'.owner.Keys <= v.owner.Keys + ks + {nowk}
  {
    ghost var d, v1;
    nxt, d, v1 := NextList(head, pool, head, v, 0, 1);
    fs, ks := v1.freqs - v.freqs, v1.owner.Keys - v.owner.Keys;
    FiledNew(v, v1, nowk, nxt, d);
    Attach(head, pool, nowk, nxt, v1, 1);
    v' := Link(v1, 1, nowk);
  }

  lemma ShiftedSame(v: View, v': View, n: KeyNode, g: int, j: nat)
    requires Ok(v) && Shifted(v, v', n, g, j)
    ensures v'.freqs == v.freqs && forall x :: x in v'.owner ==> x in v.owner
  {
    Fits(v, g);
  }

  method Shift(head: FreqNode, pool: ElementPool, nowk: KeyNode, nowf: FreqNode, nxt: FreqNode, ghost v: View,
               ghost g: int, ghost j: nat)
    returns (ghost v': View)
    requires Holds(head, pool, v) && Placed(v, nowk, g, j) && g in v.node && nowf == v.node[g]
    requires ReadyFor(v, g + 1) && nxt == v.node[g + 1]
    modifies v.freqs`tail, v.owner.Keys`pre, v.owner.Keys`next
    ensures Holds(head, pool, v') && Shifted(v, v', nowk, g, j)
  {
    Fits(v, g);
    assert nowk in v.owner;
    Detach(head, pool, nowk, nowf, v, g, j);
    Attach(head, pool, nowk, nxt, Unlink(v, g, j), g + 1);
    v' := Link(Unlink(v, g, j), g + 1, nowk);
  }

  method Lift(head: FreqNode, pool: ElementPool, nowk: KeyNode, nowf: FreqNode, ghost v: View, ghost p: nat,
              ghost g: int, ghost j: nat)
    returns (nxt: FreqNode, ghost d: KeyNode?, ghost v1: View, ghost v3: View)
    requires Holds(head, pool, v) && p < |v.order| && g == v.order[p] && Placed(v, nowk, g, j) && nowf == v.spine[p]
    modifies v.freqs`pre, v.freqs`next, v.freqs`tail, v.owner.Keys`pre, v.owner.Keys`next, pool`keyNodes, pool`freqNodes
    ensures Ok(v1) && Provided(v, v1, p, g + 1, nxt, d) && Shifted(v1, v3, nowk, g, j) && Holds(head, pool, v3)
    ensures p < |v3.order| && v3.order[p] == g && g in v3.lists && p < |v3.spine| && v3.spine[p] == nowf
    ensures g + 1 in v1.node && nxt == v1.node[g + 1]
    ensures fresh(v3.freqs - v.freqs) && fresh(v3.owner.Keys - v.owner.Keys)
  {
    assert v.order[p] in v.node;
    nxt, d, v1 := NextList(head, pool, nowf, v, p, g + 1);
    ProvidedReady(v, v1, nowk, p, g, j, nxt, d);
    ProvidedIs(v, v1, p, g + 1, nxt, d);
    v3 := Shift(head, pool, nowk, nowf, nxt, v1, g, j);
    ShiftedSame(v1, v3, nowk, g, j);
  }

  /** addFreq for a cached entry, node j of the list at position p: it moves to the list of the next frequency,
      created if missing, and its own list goes if that leaves it empty.  The caller files it in fmap under nxt. */
  method AddFreq(head: FreqNode, pool: ElementPool, nowk: KeyNode, nowf: FreqNode, ghost v: View, ghost p: nat,
                 ghost g: int, ghost j: nat)
    returns (nxt: FreqNode, ghost v': View)
    requires Holds(head, pool, v) && NoneEmpty(v.lists) && 0 < p < |v.order| && g == v.order[p]
    requires Placed(v, nowk, g, j) && nowf == v.spine[p]
    modifies v.freqs`pre, v.freqs`next, v.freqs`tail, v.freqs`dummyHead, v.owner.Keys`pre, v.owner.Keys`next
    modifies pool`keyNodes, pool`freqNodes
    ensures Holds(head, pool, v') && Refiled(v, v', nowk, g + 1) && v'.lists == Hit(v.lists, g, j - 1)
    ensures nxt == v'.node[g + 1]
    ensures fresh(v'.freqs - v.freqs) && fresh(v'.owner.Keys - v.owner.Keys)
  {
    ghost var d, v1, v3, e;
    nxt, d, v1, v3 := Lift(head, pool, nowk, nowf, v, p, g, j);
    e, v' := DropEmpty(head, pool, nowf, v3, p);
    FiledUp(v, v1, v3, v', nowk, p, g, j, nxt, d, e);
  }
}
