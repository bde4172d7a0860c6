/** The linked cache as a value: which frequencies have a list, in which order the lists
    stand, which list node each has, which entry nodes it links, and the abstract lists
    this amounts to.  F and K are the two kinds of node. */
module LfuLayout {
  import opened LfuSpec

  /** `order` starts with the dummy list's 0, `spine` has the list nodes in that order and `freqs` as a set; every
      chain starts with its own dummy node; `data` is what the entry nodes hold; `loose` are the nodes in no chain. */
  datatype Layout<F(==), K(==)> = Layout(
    order: seq<int>, spine: seq<F>, freqs: set<F>, node: map<int, F>, chain: map<int, seq<K>>, owner: map<K, int>,
    data: map<K, Entry>, loose: set<K>, lists: Lists)

  function Inserted<T>(s: seq<T>, p: nat, x: T): (r: seq<T>)
    requires p <= |s|
    ensures |r| == |s| + 1
    ensures forall i :: 0 <= i < |r| ==> r[i] == if i < p then s[i] else if i == p then x else s[i - 1]
  {
    s[..p] + [x] + s[p..]
  }

  ghost predicate Distinct<T>(c: seq<T>) {
    forall i, j :: 0 <= i < j < |c| ==> c[i] != c[j]
  }

  ghost predicate Ascending(s: seq<int>) {
    forall i, j :: 0 <= i < j < |s| ==> s[i] < s[j]
  }

  ghost predicate Listed<F, K>(v: Layout<F, K>, g: int) {
    g in v.order
  }

  /** The lists stand in ascending order of frequency, from the dummy's 0. */
  ghost predicate Ordered<F, K>(v: Layout<F, K>) {
    && v.order != [] && v.order[0] == 0 && Ascending(v.order) && |v.spine| == |v.order|
    && (forall i {:trigger v.order[i]} {:trigger v.spine[i]} :: 0 <= i < |v.order| ==>
          v.order[i] in v.node && v.node[v.order[i]] == v.spine[i] && v.spine[i] in v.freqs)
    && (forall g {:trigger Listed(v, g)} :: g in v.node ==> Listed(v, g))
  }

  /** c is a chain of frequency g: its nodes are distinct and g's own, and all but the head carry data. */
  ghost predicate ChainOk<K>(c: seq<K>, g: int, owner: map<K, int>, data: map<K, Entry>) {
    && c != [] && Distinct(c)
    && (forall j :: 0 <= j < |c| ==> c[j] in owner && owner[c[j]] == g && (c[j] in data <==> j > 0))
  }

  ghost predicate AtHome<F, K>(v: Layout<F, K>, n: K) {
    n in v.owner && v.owner[n] in v.chain && n in v.chain[v.owner[n]]
  }

  /** No node is in two places: each has one owner, and is in its chain. */
  ghost predicate Disjoint<F, K>(v: Layout<F, K>) {
    && (forall g {:trigger ChainOk(v.chain[g], g, v.owner, v.data)} :: g in v.chain ==>
          ChainOk(v.chain[g], g, v.owner, v.data))
    && (forall n {:trigger AtHome(v, n)} :: n in v.owner ==> AtHome(v, n))
    && v.loose !! v.owner.Keys && v.data.Keys <= v.owner.Keys + v.loose
  }

  /** c, its head left out, carries the entries s. */
  ghost predicate Carries<K>(c: seq<K>, data: map<K, Entry>, s: seq<Entry>) {
    |c| == |s| + 1 && forall j :: 0 < j < |c| ==> c[j] in data && s[j - 1] == data[c[j]]
  }

  /** Read off list by list, the chains are the abstract lists. */
  ghost predicate Shows<F, K>(v: Layout<F, K>) {
    && v.chain.Keys == v.node.Keys
    && v.chain.Keys == v.lists.Keys + {0}
    && 0 !in v.lists && |v.chain[0]| == 1
    && (forall g {:trigger Carries(v.chain[g], v.data, v.lists[g])} :: g in v.lists ==>
          Carries(v.chain[g], v.data, v.lists[g]))
  }

  ghost predicate Ok<F, K>(v: Layout<F, K>) {
    Ordered(v) && Disjoint(v) && Shows(v)
  }

  // ---------------------------------------------------------------- changes

  /** A new list f for frequency g, with dummy d, behind position p. */
  function AddList<F, K>(v: Layout<F, K>, p: nat, f: F, g: int, d: K): Layout<F, K>
    requires p < |v.order| && p < |v.spine|
  {
    v.(order := Inserted(v.order, p + 1, g), spine := Inserted(v.spine, p + 1, f), freqs := v.freqs + {f},
       node := v.node[g := f], chain := v.chain[g := [d]],
       owner := v.owner[d := g], lists := v.lists[g := []])
  }

  /** The list at position p goes, with its dummy d. */
  function DropList<F, K>(v: Layout<F, K>, p: nat, d: K): Layout<F, K>
    requires p < |v.order| && p < |v.spine|
  {
    var g := v.order[p];
    v.(order := Without(v.order, p), spine := Without(v.spine, p), freqs := v.freqs - {v.spine[p]},
       node := v.node - {g}, chain := v.chain - {g},
       owner := v.owner - {d}, lists := v.lists - {g})
  }

  /** Node j of the chain of frequency g is unlinked. */
  function Unlink<F, K>(v: Layout<F, K>, g: int, j: nat): Layout<F, K>
    requires g in v.chain && g in v.lists && 0 < j < |v.chain[g]| && j <= |v.lists[g]|
  {
    var n := v.chain[g][j];
    v.(chain := v.chain[g := Without(v.chain[g], j)], owner := v.owner - {n},
       loose := v.loose + {n}, lists := v.lists[g := Without(v.lists[g], j - 1)])
  }

  /** Node n is linked in right behind the dummy node of frequency g. */
  function Link<F, K>(v: Layout<F, K>, g: int, n: K): Layout<F, K>
    requires g in v.chain && v.chain[g] != [] && g in v.lists && n in v.data
  {
    v.(chain := v.chain[g := Inserted(v.chain[g], 1, n)], owner := v.owner[n := g],
       loose := v.loose - {n}, lists := v.lists[g := [v.data[n]] + v.lists[g]])
  }

  lemma InsertedSet<T>(s: seq<T>, p: nat, x: T)
    requires p <= |s|
    ensures forall y :: y in Inserted(s, p, x) <==> y in s || y == x
  {
    var r := Inserted(s, p, x);
    assert r[p] == x;
    forall y | y in s ensures y in r {
      var i :| 0 <= i < |s| && s[i] == y;
      assert r[if i < p then i else i + 1] == y;
    }
  }

  lemma WithoutSet<T>(s: seq<T>, p: nat)
    requires p < |s| && Distinct(s)
    ensures forall y :: y in Without(s, p) <==> y in s && y != s[p]
  {
    var r := Without(s, p);
    forall y | y in s && y != s[p] ensures y in r {
      var i :| 0 <= i < |s| && s[i] == y;
      assert r[if i < p then i else i - 1] == y;
    }
  }

  /** No list has a frequency strictly between two neighbours'. */
  lemma Gap(s: seq<int>, p: nat, g: int)
    requires Ascending(s) && p < |s| && s[p] < g && (p + 1 < |s| ==> g < s[p + 1])
    ensures g !in s && Ascending(Inserted(s, p + 1, g))
  {
    if g in s {
      var i :| 0 <= i < |s| && s[i] == g;
    }
  }

  lemma AddListOrdered<F, K>(v: Layout<F, K>, p: nat, f: F, g: int, d: K)
    requires Ordered(v) && p < |v.order| && v.order[p] < g && (p + 1 < |v.order| ==> g < v.order[p + 1])
    ensures g !in v.node && 0 < g && Ordered(AddList(v, p, f, g, d))
  {
    Gap(v.order, p, g);
    InsertedSet(v.order, p + 1, g);
    assert g in v.node ==> Listed(v, g);
    var v' := AddList(v, p, f, g, d);
    forall h | h in v'.node ensures Listed(v', h) {
      if h != g { assert Listed(v, h); }
    }
  }

  lemma AddListDisjoint<F, K>(v: Layout<F, K>, p: nat, f: F, g: int, d: K)
    requires Disjoint(v) && p < |v.order| && p < |v.spine| && g !in v.chain && d !in v.owner && d !in v.loose
    ensures Disjoint(AddList(v, p, f, g, d))
  {
    var v' := AddList(v, p, f, g, d);
    forall h | h in v'.chain ensures ChainOk(v'.chain[h], h, v'.owner, v'.data) {
      if h != g { assert ChainOk(v.chain[h], h, v.owner, v.data); }
    }
    forall n | n in v'.owner ensures AtHome(v', n) {
      if n != d { assert AtHome(v, n); }
    }
  }

  lemma AddListOk<F, K>(v: Layout<F, K>, p: nat, f: F, g: int, d: K)
    requires Ok(v) && p < |v.order| && v.order[p] < g && (p + 1 < |v.order| ==> g < v.order[p + 1])
    requires d !in v.owner && d !in v.loose
    ensures g !in v.node && g !in v.lists && Ok(AddList(v, p, f, g, d))
  {
    var v' := AddList(v, p, f, g, d);
    AddListOrdered(v, p, f, g, d);
    AddListDisjoint(v, p, f, g, d);
    assert v.order[0] <= v.order[p];
    forall h | h in v'.lists ensures Carries(v'.chain[h], v'.data, v'.lists[h]) {
      if h != g { assert Carries(v.chain[h], v.data, v.lists[h]); }
    }
  }

  lemma DropListDisjoint<F, K>(v: Layout<F, K>, p: nat, d: K)
    requires Disjoint(v) && p < |v.order| && p < |v.spine| && v.order[p] in v.chain && v.chain[v.order[p]] == [d]
    ensures Disjoint(DropList(v, p, d)) && d in v.owner
  {
    var v', g := DropList(v, p, d), v.order[p];
    assert ChainOk(v.chain[g], g, v.owner, v.data) && v.chain[g][0] == d;
    forall h | h in v'.chain ensures ChainOk(v'.chain[h], h, v'.owner, v'.data) {
      assert ChainOk(v.chain[h], h, v.owner, v.data);
    }
    forall n | n in v'.owner ensures AtHome(v', n) {
      assert AtHome(v, n);
    }
  }

  lemma DropListOrdered<F, K>(v: Layout<F, K>, p: nat, d: K)
    requires Ordered(v) && 0 < p < |v.order| && Distinct(v.spine)
    ensures Ordered(DropList(v, p, d))
  {
    var v' := DropList(v, p, d);
    WithoutSet(v.order, p);
    forall h | h in v'.node ensures Listed(v', h) { assert Listed(v, h); }
  }

  lemma DropListOk<F, K>(v: Layout<F, K>, p: nat, d: K)
    requires Ok(v) && Distinct(v.spine) && 0 < p < |v.order| && v.chain[v.order[p]] == [d]
    ensures Ok(DropList(v, p, d)) && d in v.owner
  {
    var v' := DropList(v, p, d);
    DropListOrdered(v, p, d);
    DropListDisjoint(v, p, d);
    assert v.order[0] < v.order[p];
    forall h | h in v'.lists ensures Carries(v'.chain[h], v'.data, v'.lists[h]) {
      assert Carries(v.chain[h], v.data, v.lists[h]);
    }
  }

  /** The chain of a frequency and its abstract list agree; so the changes above are defined. */
  lemma Fits<F, K>(v: Layout<F, K>, g: int)
    requires Ok(v) && g in v.lists
    ensures g in v.node && g in v.chain && g != 0
    ensures Carries(v.chain[g], v.data, v.lists[g]) && ChainOk(v.chain[g], g, v.owner, v.data)
  {
  }

  lemma UnlinkDisjoint<F, K>(v: Layout<F, K>, g: int, j: nat)
    requires Disjoint(v) && g in v.chain && g in v.lists && 0 < j < |v.chain[g]| && j <= |v.lists[g]|
    ensures Disjoint(Unlink(v, g, j))
  {
    var v' := Unlink(v, g, j);
    assert ChainOk(v.chain[g], g, v.owner, v.data);
    WithoutSet(v.chain[g], j);
    forall h | h in v'.chain ensures ChainOk(v'.chain[h], h, v'.owner, v'.data) {
      assert ChainOk(v.chain[h], h, v.owner, v.data);
    }
    forall n | n in v'.owner ensures AtHome(v', n) {
      assert AtHome(v, n);
    }
  }

  /** The order of the lists is a matter of these three components only. */
  lemma SameOrder<F, K>(v: Layout<F, K>, v': Layout<F, K>)
    requires Ordered(v) && v'.order == v.order && v'.spine == v.spine && v'.freqs == v.freqs && v'.node == v.node
    ensures Ordered(v')
  {
    forall g | g in v'.node ensures Listed(v', g) { assert Listed(v, g); }
  }

  lemma UnlinkOk<F, K>(v: Layout<F, K>, g: int, j: nat)
    requires Ok(v) && g in v.lists && 0 < j < |v.chain[g]| && j <= |v.lists[g]|
    ensures Ok(Unlink(v, g, j))
  {
    var v' := Unlink(v, g, j);
    SameOrder(v, v');
    UnlinkDisjoint(v, g, j);
    forall h | h in v'.lists ensures Carries(v'.chain[h], v'.data, v'.lists[h]) {
      assert Carries(v.chain[h], v.data, v.lists[h]);
    }
  }

  lemma LinkDisjoint<F, K>(v: Layout<F, K>, g: int, n: K)
    requires Disjoint(v) && g in v.chain && v.chain[g] != [] && g in v.lists && n in v.loose && n in v.data
    ensures Disjoint(Link(v, g, n))
  {
    var v' := Link(v, g, n);
    assert ChainOk(v.chain[g], g, v.owner, v.data);
    InsertedSet(v.chain[g], 1, n);
    forall h | h in v'.chain ensures ChainOk(v'.chain[h], h, v'.owner, v'.data) {
      assert ChainOk(v.chain[h], h, v.owner, v.data);
    }
    forall x | x in v'.owner ensures AtHome(v', x) {
      if x != n { assert AtHome(v, x); }
    }
  }

  lemma LinkOk<F, K>(v: Layout<F, K>, g: int, n: K)
    requires Ok(v) && g in v.lists && v.chain[g] != [] && n in v.loose && n in v.data
    ensures Ok(Link(v, g, n))
  {
    var v' := Link(v, g, n);
    SameOrder(v, v');
    LinkDisjoint(v, g, n);
    forall h | h in v'.lists ensures Carries(v'.chain[h], v'.data, v'.lists[h]) {
      assert Carries(v.chain[h], v.data, v.lists[h]);
    }
  }

  /** A loose node is freed. */
  function Forget<F, K>(v: Layout<F, K>, n: K): Layout<F, K> {
    v.(data := v.data - {n}, loose := v.loose - {n})
  }

  lemma ForgetOk<F, K>(v: Layout<F, K>, n: K)
    requires Ok(v) && n in v.loose
    ensures Ok(Forget(v, n))
  {
    var v' := Forget(v, n);
    SameOrder(v, v');
    forall h | h in v'.chain ensures ChainOk(v'.chain[h], h, v'.owner, v'.data) {
      assert ChainOk(v.chain[h], h, v.owner, v.data);
    }
    forall x | x in v'.owner ensures AtHome(v', x) { assert AtHome(v, x); }
    forall h | h in v'.lists ensures Carries(v'.chain[h], v'.data, v'.lists[h]) {
      assert Carries(v.chain[h], v.data, v.lists[h]) && ChainOk(v.chain[h], h, v.owner, v.data);
    }
  }

  /** A new node, which holds e and is in no chain yet. */
  function Prepare<F, K>(v: Layout<F, K>, n: K, e: Entry): Layout<F, K> {
    v.(data := v.data[n := e], loose := v.loose + {n})
  }

  lemma PrepareOk<F, K>(v: Layout<F, K>, n: K, e: Entry)
    requires Ok(v) && n !in v.owner && n !in v.loose
    ensures Ok(Prepare(v, n, e))
  {
    var v' := Prepare(v, n, e);
    SameOrder(v, v');
    forall h | h in v'.chain ensures ChainOk(v'.chain[h], h, v'.owner, v'.data) {
      assert ChainOk(v.chain[h], h, v.owner, v.data);
    }
    forall x | x in v'.owner ensures AtHome(v', x) { assert AtHome(v, x); }
    forall h | h in v'.lists ensures Carries(v'.chain[h], v'.data, v'.lists[h]) {
      assert Carries(v.chain[h], v.data, v.lists[h]) && ChainOk(v.chain[h], h, v.owner, v.data);
    }
  }
}
