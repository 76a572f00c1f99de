/** The frozen table of lualib-src/lua-sharedata.c: an array part, and a hash part with exactly as many
    slots as keys, filled in two passes. A Lua table is a map together with the order in which `lua_next`
    walks through it; values are abstract. */
module Sharedata {

  datatype Option<T> = None | Some(value: T)

  const MaxInt := 0x7fff_ffff

  /** An integer key is stored as a C int; larger integers have no key here. */
  type Int32 = i: int | -MaxInt - 1 <= i <= MaxInt

  datatype Key = IntKey(i: Int32) | StrKey(s: seq<bv8>)

  /** A slot of the hash part; `Empty` is the value type NIL. */
  datatype Node<V> =
    | Empty
    | Node(key: Key, keyhash: bv32, value: V, next: int, nocolliding: bool)

  // ---------------------------------------------------------------------------
  // Hashing
  // ---------------------------------------------------------------------------

  function HashFrom(s: seq<bv8>, l1: nat, step: nat, h: bv32): bv32
    requires l1 <= |s| && step > 0
    decreases l1
  {
    if l1 < step then h
    else HashFrom(s, l1 - step, step, h ^ ((h << 5) + (h >> 2) + (s[l1 - 1] as bv32)))
  }

  /** `calchash`. */
  function CalcHash(s: seq<bv8>): bv32 {
    HashFrom(s, |s|, |s| / 32 + 1, (|s| % 0x1_0000_0000) as bv32)
  }

  /** An integer key is cast to an unsigned 32-bit number. */
  function KeyHash(k: Key): bv32 {
    match k
    case IntKey(i) => (i % 0x1_0000_0000) as bv32
    case StrKey(s) => CalcHash(s)
  }

  function MainPos(k: Key, size: nat): nat
    requires size > 0
    ensures MainPos(k, size) < size
  {
    (KeyHash(k) as int) % size
  }

  predicate InArray(k: Key, sizearray: nat) {
    k.IntKey? && 0 < k.i <= sizearray
  }

  // ---------------------------------------------------------------------------
  // Chains
  // ---------------------------------------------------------------------------

  /** `c` lists the slots of the chain that starts at `j`: all keys of the chain have `j` as their main
      position, the links follow the list, and the flag tells whether `j` is alone. */
  ghost predicate ChainOk<V>(h: seq<Node<V>>, j: nat, c: seq<nat>) {
    && c != [] && c[0] == j
    && (forall p, q :: 0 <= p < q < |c| ==> c[p] != c[q])
    && (forall p :: 0 <= p < |c| ==>
          && c[p] < |h| && h[c[p]].Node? && MainPos(h[c[p]].key, |h|) == j
          && h[c[p]].nocolliding == (|c| == 1))
    && (forall p :: 0 <= p < |c| - 1 ==> h[c[p]].next == c[p + 1])
    && h[c[|c| - 1]].next == -1
  }

  ghost predicate ChainsOk<V>(h: seq<Node<V>>, chains: map<nat, seq<nat>>) {
    forall j :: j in chains ==> ChainOk(h, j, chains[j])
  }

  /** A slot in use holds an entry of the map under its own hash and is in the chain of its main position. */
  ghost predicate SlotOk<V>(h: seq<Node<V>>, chains: map<nat, seq<nat>>, m: map<Key, V>, x: nat)
    requires x < |h|
  {
    h[x].Node? ==>
      && h[x].key in m && h[x].value == m[h[x].key] && h[x].keyhash == KeyHash(h[x].key)
      && MainPos(h[x].key, |h|) in chains && x in chains[MainPos(h[x].key, |h|)]
  }

  /** No key is in two slots. */
  ghost predicate Distinct<V>(h: seq<Node<V>>) {
    forall x, y :: 0 <= x < y < |h| && h[x].Node? && h[y].Node? ==> h[x].key != h[y].key
  }

  ghost predicate HashOk<V>(h: seq<Node<V>>, chains: map<nat, seq<nat>>, m: map<Key, V>) {
    ChainsOk(h, chains) && (forall x :: 0 <= x < |h| ==> SlotOk(h, chains, m, x)) && Distinct(h)
  }

  ghost predicate Has<V>(h: seq<Node<V>>, k: Key) {
    exists x :: 0 <= x < |h| && h[x].Node? && h[x].key == k
  }

  /** A new node that is alone at its main position. */
  function First<V>(k: Key, v: V): Node<V> {
    Node(k, KeyHash(k), v, -1, true)
  }

  lemma PlaceMain<V>(h: seq<Node<V>>, chains: map<nat, seq<nat>>, m: map<Key, V>, k: Key)
    requires HashOk(h, chains, m) && k in m && |h| > 0 && h[MainPos(k, |h|)].Empty? && !Has(h, k)
    ensures var j := MainPos(k, |h|); HashOk(h[j := First(k, m[k])], chains[j := [j]], m)
  {
    hide KeyHash, MainPos;
    var j := MainPos(k, |h|);
    var h' := h[j := First(k, m[k])];
    forall i | i in chains ensures i != j && ChainOk(h', i, chains[i]) {
      var c := chains[i];
      assert ChainOk(h, i, c);
      assert forall p :: 0 <= p < |c| ==> h'[c[p]] == h[c[p]];
    }
    assert ChainOk(h', j, [j]);
    var chains' := chains[j := [j]];
    forall x | 0 <= x < |h'| ensures SlotOk(h', chains', m, x) {
      assert SlotOk(h, chains, m, x);
    }
    assert Distinct(h');
    hide ChainOk, Distinct, SlotOk;
  }

  /** A node that goes to the free slot `n`, linked in behind the first node of its chain. */
  function Linked<V>(h: seq<Node<V>>, k: Key, v: V, n: nat): seq<Node<V>>
    requires |h| > 0 && n < |h| && h[MainPos(k, |h|)].Node?
  {
    var j := MainPos(k, |h|);
    h[n := Node(k, KeyHash(k), v, h[j].next, false)][j := h[j].(next := n, nocolliding := false)]
  }

  lemma LinkedChain<V>(h: seq<Node<V>>, k: Key, v: V, n: nat, c: seq<nat>)
    requires |h| > 0 && n < |h| && h[n].Empty? && ChainOk(h, MainPos(k, |h|), c)
    ensures ChainOk(Linked(h, k, v, n), MainPos(k, |h|), [c[0], n] + c[1..])
  {
    hide KeyHash, MainPos;
    var j := MainPos(k, |h|);
    var h', c' := Linked(h, k, v, n), [c[0], n] + c[1..];
    assert forall p :: 0 <= p < |c| ==> c[p] != n;
    forall p | 0 <= p < |c'|
      ensures c'[p] < |h'| && h'[c'[p]].Node? && MainPos(h'[c'[p]].key, |h'|) == j && !h'[c'[p]].nocolliding
    {
      if p > 1 { assert c'[p] == c[p - 1]; }
    }
    forall p | 0 <= p < |c'| - 1 ensures h'[c'[p]].next == c'[p + 1] {
      if p > 1 { assert c'[p] == c[p - 1] && c'[p + 1] == c[p]; assert h[c[p - 1]].next == c[p - 1 + 1]; }
    }
  }

  lemma Link<V>(h: seq<Node<V>>, chains: map<nat, seq<nat>>, m: map<Key, V>, k: Key, n: nat)
    requires HashOk(h, chains, m) && k in m && |h| > 0 && !Has(h, k)
    requires MainPos(k, |h|) in chains && n < |h| && h[n].Empty?
    ensures h[MainPos(k, |h|)].Node?
    ensures var j := MainPos(k, |h|); var c := chains[j];
      c != [] && HashOk(Linked(h, k, m[k], n), chains[j := [c[0], n] + c[1..]], m)
  {
    hide KeyHash, MainPos;
    var j := MainPos(k, |h|);
    var c := chains[j];
    assert ChainOk(h, j, c);
    var h', chains' := Linked(h, k, m[k], n), chains[j := [c[0], n] + c[1..]];
    LinkedChain(h, k, m[k], n, c);
    assert Distinct(h');
    assert h[j].Node? && MainPos(h[j].key, |h|) == j;
    forall i | i in chains && i != j ensures ChainOk(h', i, chains[i]) {
      assert ChainOk(h, i, chains[i]);
      OtherChain(h, i, chains[i], h', j, n);
    }
    forall x | 0 <= x < |h'| ensures SlotOk(h', chains', m, x) { LinkedSlot(h, chains, m, k, n, x); }
    hide ChainOk, Distinct, SlotOk, Linked;
  }

  lemma LinkedSlot<V>(h: seq<Node<V>>, chains: map<nat, seq<nat>>, m: map<Key, V>, k: Key, n: nat, x: nat)
    requires HashOk(h, chains, m) && k in m && n < |h| && h[n].Empty? && x < |h| && MainPos(k, |h|) in chains
    requires var j := MainPos(k, |h|); h[j].Node? && MainPos(h[j].key, |h|) == j && chains[j] != []
    ensures var j := MainPos(k, |h|); var c := chains[j];
      SlotOk(Linked(h, k, m[k], n), chains[j := [c[0], n] + c[1..]], m, x)
  {
    hide KeyHash, MainPos, ChainOk, Distinct;
    var c := chains[MainPos(k, |h|)];
    assert SlotOk(h, chains, m, x);
    assert ([c[0], n] + c[1..])[1] == n && c == [c[0]] + c[1..];
  }

  lemma OtherChain<V>(h: seq<Node<V>>, i: nat, c: seq<nat>, h': seq<Node<V>>, j: nat, n: nat)
    requires ChainOk(h, i, c) && |h'| == |h| && i != j && j < |h| && n < |h| && h[n].Empty?
    requires h[j].Node? && MainPos(h[j].key, |h|) == j
    requires forall x :: 0 <= x < |h| && x != j && x != n ==> h'[x] == h[x]
    ensures ChainOk(h', i, c)
  {
    forall p | 0 <= p < |c| ensures h'[c[p]] == h[c[p]] {
      assert MainPos(h[c[p]].key, |h|) == i;
    }
  }

  // ---------------------------------------------------------------------------
  // As many slots as keys
  // ---------------------------------------------------------------------------

  ghost function KeysOf<V>(h: seq<Node<V>>): set<Key> {
    set x | 0 <= x < |h| && h[x].Node? :: h[x].key
  }

  lemma {:induction false} CountKeys<V>(h: seq<Node<V>>)
    requires Distinct(h)
    ensures |KeysOf(h)| <= |h|
    ensures |KeysOf(h)| == |h| <==> forall x :: 0 <= x < |h| ==> h[x].Node?
  {
    if h != [] {
      var n := |h| - 1;
      var front := h[..n];
      CountKeys(front);
      if h[n].Node? {
        assert h[n].key !in KeysOf(front);
        assert KeysOf(h) == KeysOf(front) + {h[n].key};
      } else {
        assert KeysOf(h) == KeysOf(front);
      }
      assert forall x :: 0 <= x < n ==> front[x] == h[x];
    }
  }

  lemma SmallerSet<T>(a: set<T>, b: set<T>)
    requires a <= b
    ensures |a| <= |b| && (|a| == |b| ==> a == b)
  {
    var rest := b - a;
    assert b == a + rest;
    assert |b| == |a| + |rest|;
    assert |rest| == 0 ==> rest == {};
  }

  lemma KeysWithin<V>(h: seq<Node<V>>, chains: map<nat, seq<nat>>, m: map<Key, V>)
    requires HashOk(h, chains, m)
    ensures KeysOf(h) <= m.Keys
  {
    forall k | k in KeysOf(h) ensures k in m {
      var x :| 0 <= x < |h| && h[x].Node? && h[x].key == k;
      assert SlotOk(h, chains, m, x);
    }
  }

  /** While a key is missing there is a free slot. */
  lemma FreeSlot<V>(h: seq<Node<V>>, chains: map<nat, seq<nat>>, m: map<Key, V>, k: Key) returns (x: nat)
    requires HashOk(h, chains, m) && |h| == |m.Keys| && k in m && !Has(h, k)
    ensures x < |h| && h[x].Empty?
  {
    KeysWithin(h, chains, m);
    CountKeys(h);
    SmallerSet(KeysOf(h), m.Keys);
    assert k !in KeysOf(h);
    x :| 0 <= x < |h| && !h[x].Node?;
  }

  /** When no key is missing there is none. */
  lemma AllFull<V>(h: seq<Node<V>>, m: map<Key, V>)
    requires Distinct(h) && |h| == |m.Keys| && forall k :: k in m ==> Has(h, k)
    ensures forall x :: 0 <= x < |h| ==> h[x].Node?
  {
    CountKeys(h);
    assert m.Keys <= KeysOf(h);
    SmallerSet(m.Keys, KeysOf(h));
  }

  // ---------------------------------------------------------------------------
  // Building the table
  // ---------------------------------------------------------------------------

  /** The order in which `lua_next` enumerates a table. */
  ghost predicate Enumerates<V>(order: seq<Key>, m: map<Key, V>) {
    && (forall i, j :: 0 <= i < j < |order| ==> order[i] != order[j])
    && (forall k :: k in m <==> k in order)
  }

  lemma Visit<V>(order: seq<Key>, m: map<Key, V>, i: nat)
    requires Enumerates(order, m) && i < |order|
    ensures order[i] in m && order[i] !in order[..i] && order[..i + 1] == order[..i] + [order[i]]
  {
  }

  /** The entries that go to the hash part. */
  ghost function HashPart<V>(m: map<Key, V>, sizearray: nat): map<Key, V> {
    map k | k in m && !InArray(k, sizearray) :: m[k]
  }

  /** What the array part holds after the keys of `done` have been visited. */
  ghost predicate ArrayOk<V>(a: seq<Option<V>>, m: map<Key, V>, done: seq<Key>) {
    |a| <= MaxInt && forall i :: 0 <= i < |a| ==>
      a[i] == if IntKey(i + 1) in m && IntKey(i + 1) in done then Some(m[IntKey(i + 1)]) else None
  }

  /** After the first pass over `done`: nodes are at their main positions, and no main position of a key
      seen is free. */
  ghost predicate FirstPass<V>(h: seq<Node<V>>, chains: map<nat, seq<nat>>, m: map<Key, V>, done: seq<Key>) {
    && HashOk(h, chains, m)
    && (forall x :: 0 <= x < |h| && h[x].Node? ==> h[x].key in done && MainPos(h[x].key, |h|) == x)
    && (forall k :: k in done && k in m ==> |h| > 0 && MainPos(k, |h|) in chains)
  }

  /** During the second pass: keys seen are in, others are in only at their main positions. */
  ghost predicate SecondPass<V>(h: seq<Node<V>>, chains: map<nat, seq<nat>>, m: map<Key, V>, done: seq<Key>) {
    && HashOk(h, chains, m)
    && (forall k :: k in m ==> |h| > 0 && MainPos(k, |h|) in chains)
    && (forall x :: 0 <= x < |h| && h[x].Node? && h[x].key !in done ==> MainPos(h[x].key, |h|) == x)
    && (forall k :: k in m && k in done ==> Has(h, k))
  }

  /** The finished hash part: all keys are in, and no slot is free. */
  ghost predicate Frozen<V>(h: seq<Node<V>>, chains: map<nat, seq<nat>>, m: map<Key, V>) {
    && HashOk(h, chains, m)
    && (forall k :: k in m ==> Has(h, k))
    && (forall x :: 0 <= x < |h| ==> h[x].Node?)
  }

  lemma FirstPassStep<V>(h: seq<Node<V>>, chains: map<nat, seq<nat>>, m: map<Key, V>, done: seq<Key>, k: Key)
    requires FirstPass(h, chains, m, done) && k in m && k !in done && |h| > 0
    ensures var j := MainPos(k, |h|);
      if h[j].Empty? then FirstPass(h[j := First(k, m[k])], chains[j := [j]], m, done + [k])
      else FirstPass(h, chains, m, done + [k])
  {
    hide KeyHash, MainPos;
    var j := MainPos(k, |h|);
    if h[j].Empty? {
      PlaceMain(h, chains, m, k);
    } else {
      assert SlotOk(h, chains, m, j);
    }
    hide HashOk;
  }

  lemma LinkedHas<V>(h: seq<Node<V>>, k: Key, v: V, n: nat, k': Key)
    requires |h| > 0 && n < |h| && h[MainPos(k, |h|)].Node? && h[n].Empty? && (Has(h, k') || k' == k)
    ensures Has(Linked(h, k, v, n), k')
  {
    hide KeyHash, MainPos;
    var h' := Linked(h, k, v, n);
    if k' == k {
      assert h'[n].key == k;
    } else {
      var x :| 0 <= x < |h| && h[x].Node? && h[x].key == k';
      assert h'[x].Node? && h'[x].key == k';
    }
  }

  /** A key that is still to be placed is nowhere, as it is not at its main position. */
  lemma NotYet<V>(h: seq<Node<V>>, chains: map<nat, seq<nat>>, m: map<Key, V>, done: seq<Key>, k: Key)
    requires SecondPass(h, chains, m, done) && k in m && k !in done
    requires h[MainPos(k, |h|)].Node? && h[MainPos(k, |h|)].key != k
    ensures !Has(h, k) && MainPos(k, |h|) in chains && chains[MainPos(k, |h|)] != []
  {
    hide KeyHash, MainPos;
    assert ChainOk(h, MainPos(k, |h|), chains[MainPos(k, |h|)]);
  }

  lemma SecondPassStep<V>(h: seq<Node<V>>, chains: map<nat, seq<nat>>, m: map<Key, V>, done: seq<Key>, k: Key, n: nat)
    requires SecondPass(h, chains, m, done) && k in m && k !in done
    requires h[MainPos(k, |h|)].Node? && h[MainPos(k, |h|)].key != k && n < |h| && h[n].Empty?
    ensures MainPos(k, |h|) in chains
    ensures var j := MainPos(k, |h|); var c := chains[j];
      c != [] && SecondPass(Linked(h, k, m[k], n), chains[j := [c[0], n] + c[1..]], m, done + [k])
  {
    NotYet(h, chains, m, done, k);
    hide KeyHash, MainPos, HashOk, ChainOk, Has, Linked;
    Link(h, chains, m, k, n);
    OthersMain(h, chains, m, done, k, n);
    OthersHave(h, chains, m, done, k, n);
    hide SecondPass;
    Passed(h, chains, m, done, k, n);
  }

  lemma OthersHave<V>(h: seq<Node<V>>, chains: map<nat, seq<nat>>, m: map<Key, V>, done: seq<Key>, k: Key, n: nat)
    requires SecondPass(h, chains, m, done) && k in m && n < |h| && h[MainPos(k, |h|)].Node? && h[n].Empty?
    ensures forall k' :: k' in m && k' in done + [k] ==> Has(Linked(h, k, m[k], n), k')
  {
    hide KeyHash, MainPos, HashOk, ChainOk, Has, Linked;
    forall k' | k' in m && k' in done + [k] ensures Has(Linked(h, k, m[k], n), k') { LinkedHas(h, k, m[k], n, k'); }
  }

  /** The parts of `SecondPass` together. */
  lemma Passed<V>(h: seq<Node<V>>, chains: map<nat, seq<nat>>, m: map<Key, V>, done: seq<Key>, k: Key, n: nat)
    requires SecondPass(h, chains, m, done) && k in m && n < |h| && h[MainPos(k, |h|)].Node?
    requires MainPos(k, |h|) in chains && chains[MainPos(k, |h|)] != []
    requires var h', j := Linked(h, k, m[k], n), MainPos(k, |h|); var c := chains[j];
      && |h'| == |h| && HashOk(h', chains[j := [c[0], n] + c[1..]], m)
      && (forall x :: 0 <= x < |h'| && h'[x].Node? && h'[x].key !in done + [k] ==> MainPos(h'[x].key, |h'|) == x)
      && (forall k' :: k' in m && k' in done + [k] ==> Has(h', k'))
    ensures var j := MainPos(k, |h|); var c := chains[j];
      SecondPass(Linked(h, k, m[k], n), chains[j := [c[0], n] + c[1..]], m, done + [k])
  {
    hide KeyHash, MainPos, HashOk, ChainOk, Has, Linked;
  }

  /** The keys still to be placed stay away; those placed at their main position stay there. */
  lemma OthersMain<V>(h: seq<Node<V>>, chains: map<nat, seq<nat>>, m: map<Key, V>, done: seq<Key>, k: Key, n: nat)
    requires SecondPass(h, chains, m, done) && k in m && n < |h| && h[MainPos(k, |h|)].Node? && h[n].Empty?
    ensures var h' := Linked(h, k, m[k], n);
      |h'| == |h|
      && forall x :: 0 <= x < |h'| && h'[x].Node? && h'[x].key !in done + [k] ==> MainPos(h'[x].key, |h'|) == x
  {
    hide KeyHash, MainPos, HashOk, ChainOk, Has;
    var h' := Linked(h, k, m[k], n);
    forall x | 0 <= x < |h'| && h'[x].Node? && h'[x].key !in done + [k] ensures MainPos(h'[x].key, |h'|) == x {
      assert x != n && h'[x].key == h[x].key;
    }
  }

  lemma ArrayStep<V>(a: seq<Option<V>>, m: map<Key, V>, done: seq<Key>, k: Key)
    requires ArrayOk(a, m, done) && k in m
    ensures if InArray(k, |a|) then ArrayOk(a[k.i - 1 := Some(m[k])], m, done + [k]) else ArrayOk(a, m, done + [k])
  {
  }

  lemma SkipKey<V>(h: seq<Node<V>>, chains: map<nat, seq<nat>>, m: map<Key, V>, done: seq<Key>, k: Key)
    requires k !in m
    ensures FirstPass(h, chains, m, done) ==> FirstPass(h, chains, m, done + [k])
    ensures SecondPass(h, chains, m, done) ==> SecondPass(h, chains, m, done + [k])
  {
    hide KeyHash, MainPos;
    if HashOk(h, chains, m) {
      forall x | 0 <= x < |h| && h[x].Node? ensures h[x].key != k { assert SlotOk(h, chains, m, x); }
    }
    hide HashOk, Has;
  }

  lemma StartSecondPass<V>(h: seq<Node<V>>, chains: map<nat, seq<nat>>, m: map<Key, V>, order: seq<Key>)
    requires FirstPass(h, chains, m, order) && forall k :: k in m ==> k in order
    ensures SecondPass(h, chains, m, [])
  {
    hide KeyHash, MainPos, HashOk;
  }

  /** What the second pass finds at the main position of a key. */
  lemma AtMainPos<V>(h: seq<Node<V>>, chains: map<nat, seq<nat>>, m: map<Key, V>, done: seq<Key>, k: Key)
    returns (free: nat)
    requires SecondPass(h, chains, m, done) && |h| == |m.Keys| && k in m && k !in done
    ensures |h| > 0 && h[MainPos(k, |h|)].Node?
    ensures if h[MainPos(k, |h|)].key == k then SecondPass(h, chains, m, done + [k])
            else free < |h| && h[free].Empty?
  {
    hide KeyHash, MainPos;
    var j := MainPos(k, |h|);
    assert ChainOk(h, j, chains[j]);
    free := 0;
    if h[j].key == k {
      assert Has(h, k);
      hide HashOk, Has;
    } else {
      assert !Has(h, k);
      free := FreeSlot(h, chains, m, k);
    }
  }

  // ---------------------------------------------------------------------------
  // Looking up
  // ---------------------------------------------------------------------------

  /** The chain that a slot is in, and its place there. */
  lemma ChainOf<V>(h: seq<Node<V>>, chains: map<nat, seq<nat>>, m: map<Key, V>, x: nat) returns (c: seq<nat>, p: nat)
    requires Frozen(h, chains, m) && x < |h|
    ensures MainPos(h[x].key, |h|) in chains && c == chains[MainPos(h[x].key, |h|)]
    ensures p < |c| && c[p] == x && ChainOk(h, MainPos(h[x].key, |h|), c)
    ensures h[x].keyhash == KeyHash(h[x].key)
  {
    hide KeyHash, MainPos;
    assert SlotOk(h, chains, m, x);
    c := chains[MainPos(h[x].key, |h|)];
    p :| 0 <= p < |c| && c[p] == x;
    assert ChainOk(h, MainPos(h[x].key, |h|), c);
  }

  /** A key that is not between its main position and the end of the chain there is nowhere. */
  lemma NotInChain<V>(h: seq<Node<V>>, chains: map<nat, seq<nat>>, m: map<Key, V>, k: Key, c: seq<nat>, p: nat)
    requires Frozen(h, chains, m) && |h| > 0 && p < |c| && c[p] == MainPos(k, |h|)
    requires MainPos(h[c[p]].key, |h|) in chains && c == chains[MainPos(h[c[p]].key, |h|)]
    requires forall q :: p <= q < |c| ==> c[q] < |h| && h[c[q]].key != k
    ensures k !in m
  {
    hide KeyHash, MainPos;
    var j := MainPos(k, |h|);
    forall y | 0 <= y < |h| ensures h[y].key != k {
      assert SlotOk(h, chains, m, y);
      assert MainPos(h[y].key, |h|) == j ==> ChainOk(h, j, chains[j]) && chains[j] == c && p == 0;
    }
    assert !Has(h, k);
  }

  lemma FollowChain<V>(h: seq<Node<V>>, chains: map<nat, seq<nat>>, m: map<Key, V>, j: nat, c: seq<nat>, p: nat)
    requires Frozen(h, chains, m) && p < |c| && j in chains && c == chains[j]
    ensures c[p] < |h| && h[c[p]].Node? && h[c[p]].keyhash == KeyHash(h[c[p]].key)
    ensures h[c[p]].next == if p + 1 < |c| then c[p + 1] else -1
    ensures forall q :: 0 <= q < |c| ==> c[q] < |h| && h[c[q]].Node?
  {
    hide KeyHash, MainPos;
    assert ChainOk(h, j, c);
    assert SlotOk(h, chains, m, c[p]);
    if p + 1 < |c| { assert h[c[p]].next == c[p + 1]; }
  }

  lemma FoundInMap<V>(h: seq<Node<V>>, chains: map<nat, seq<nat>>, m: map<Key, V>, x: nat)
    requires Frozen(h, chains, m) && x < |h|
    ensures h[x].Node? && h[x].key in m && h[x].value == m[h[x].key]
  {
    assert SlotOk(h, chains, m, x);
  }

  // ---------------------------------------------------------------------------
  // Walking through
  // ---------------------------------------------------------------------------

  /** The keys of the array part, and of a full hash part, in the order in which they are visited. */
  ghost function ArrayKeys<V>(a: seq<Option<V>>): seq<Key>
    requires |a| <= MaxInt
  {
    if a == [] then []
    else ArrayKeys(a[..|a| - 1]) + if a[|a| - 1].Some? then [IntKey(|a|)] else []
  }

  ghost function HashKeys<V>(h: seq<Node<V>>): seq<Key>
    requires forall x :: 0 <= x < |h| ==> h[x].Node?
  {
    seq(|h|, x requires 0 <= x < |h| => h[x].key)
  }

  lemma {:induction false} ArrayKeysAre<V>(a: seq<Option<V>>, k: Key)
    requires |a| <= MaxInt
    ensures k in ArrayKeys(a) <==> k.IntKey? && 0 < k.i <= |a| && a[k.i - 1].Some?
  {
    if a != [] { ArrayKeysAre(a[..|a| - 1], k); }
  }

  lemma {:induction false} ArrayKeysDistinct<V>(a: seq<Option<V>>)
    requires |a| <= MaxInt
    ensures forall i, j :: 0 <= i < j < |ArrayKeys(a)| ==> ArrayKeys(a)[i] != ArrayKeys(a)[j]
  {
    if a != [] {
      ArrayKeysDistinct(a[..|a| - 1]);
      ArrayKeysAre(a[..|a| - 1], IntKey(|a|));
    }
  }

  /** `k` is at place `i` of the traversal, and `r` is what comes next. */
  ghost predicate FollowsAt(t: seq<Key>, i: int, k: Key, r: Option<Key>) {
    0 <= i < |t| && t[i] == k && r == if i + 1 < |t| then Some(t[i + 1]) else None
  }

  lemma DistinctConcat(a: seq<Key>, b: seq<Key>)
    requires (forall i, j :: 0 <= i < j < |a| ==> a[i] != a[j]) && (forall i, j :: 0 <= i < j < |b| ==> b[i] != b[j])
    requires forall k :: k in a ==> k !in b
    ensures forall i, j :: 0 <= i < j < |a + b| ==> (a + b)[i] != (a + b)[j]
  {
    forall i, j | 0 <= i < j < |a + b| ensures (a + b)[i] != (a + b)[j] {
      if i < |a| <= j { assert (a + b)[i] in a && (a + b)[j] in b; }
    }
  }

  /** The keys up to an index come first; with nothing in between, the next one follows. */
  lemma {:induction false} ArrayKeysPrefix<V>(a: seq<Option<V>>, n: nat)
    requires n <= |a| <= MaxInt
    ensures ArrayKeys(a[..n]) <= ArrayKeys(a)
    ensures n < |a| && a[n].Some? ==> ArrayKeys(a[..n]) + [IntKey(n + 1)] <= ArrayKeys(a)
    ensures (forall i :: n <= i < |a| ==> a[i].None?) ==> ArrayKeys(a[..n]) == ArrayKeys(a)
  {
    if n == |a| {
      assert a[..n] == a;
    } else {
      var front := a[..|a| - 1];
      ArrayKeysPrefix(front, n);
      assert front[..n] == a[..n];
      if n < |front| { assert front[n] == a[n]; }
      assert (forall i :: n <= i < |a| ==> a[i].None?) ==> a[|a| - 1].None? && forall i :: n <= i < |front| ==> front[i].None?;
    }
  }

  class Table<V> {
    const items: array<Option<V>>
    const hash: array<Node<V>>
    ghost var chains: map<nat, seq<nat>>

    /** The table holds the map, and is frozen. */
    ghost predicate Holds(m: map<Key, V>)
      reads this, items, hash
    {
      && items.Length <= MaxInt && Frozen(hash[..], chains, HashPart(m, items.Length))
      && forall i :: 0 <= i < items.Length ==>
           items[i] == if IntKey(i + 1) in m then Some(m[IntKey(i + 1)]) else None
    }

    /** `countsize`, `convtable`: the two parts, then the two passes. */
    constructor (m: map<Key, V>, order: seq<Key>, sizearray: nat)
      requires Enumerates(order, m) && sizearray <= MaxInt
      ensures items.Length == sizearray && Holds(m)
    {
      var n := CountSize(m, order, sizearray);
      items := new Option<V>[sizearray](_ => None);
      hash := new Node<V>[n](_ => Empty);
      chains := map[];
      new;
      FillNoColliding(m, order);
      FillColliding(m, order);
      assert ArrayOk(items[..], m, order);
      AllFull(hash[..], HashPart(m, items.Length));
    }

    method FillNoColliding(m: map<Key, V>, order: seq<Key>)
      requires Enumerates(order, m) && hash.Length == |HashPart(m, items.Length).Keys|
      requires (forall x :: 0 <= x < hash.Length ==> hash[x].Empty?) && chains == map[]
      requires items.Length <= MaxInt && forall x :: 0 <= x < items.Length ==> items[x].None?
      modifies this`chains, items, hash
      ensures ArrayOk(items[..], m, order)
      ensures FirstPass(hash[..], chains, HashPart(m, items.Length), order)
    {
      ghost var hm := HashPart(m, items.Length);
      assert FirstPass(hash[..], chains, hm, []);
      assert ArrayOk(items[..], m, []);
      hide FirstPass, MainPos, KeyHash, Enumerates, ArrayOk;
      for i := 0 to |order|
        invariant ArrayOk(items[..], m, order[..i])
        invariant FirstPass(hash[..], chains, hm, order[..i])
      {
        var k := order[i];
        Visit(order, m, i);
        ArrayStep(items[..], m, order[..i], k);
        if InArray(k, items.Length) {
          ghost var a := items[..];
          items[k.i - 1] := Some(m[k]);
          assert items[..] == a[k.i - 1 := Some(m[k])];
          SkipKey(hash[..], chains, hm, order[..i], k);
        } else {
          assert k in hm.Keys;
          ghost var h := hash[..];
          FirstPassStep(h, chains, hm, order[..i], k);
          var j := MainPos(k, hash.Length);
          if hash[j].Empty? {
            hash[j] := First(k, m[k]);
            chains := chains[j := [j]];
            assert hash[..] == h[j := First(k, m[k])];
          }
        }
      }
      assert order[..|order|] == order;
    }

    method FillColliding(m: map<Key, V>, order: seq<Key>)
      requires Enumerates(order, m) && hash.Length == |HashPart(m, items.Length).Keys|
      requires FirstPass(hash[..], chains, HashPart(m, items.Length), order)
      modifies this`chains, hash
      ensures SecondPass(hash[..], chains, HashPart(m, items.Length), order)
    {
      ghost var hm := HashPart(m, items.Length);
      var emptySlot: nat := 0;
      StartSecondPass(hash[..], chains, hm, order);
      hide FirstPass, SecondPass, Enumerates;
      for i := 0 to |order|
        invariant SecondPass(hash[..], chains, hm, order[..i])
        invariant emptySlot <= hash.Length && forall x :: 0 <= x < emptySlot ==> hash[x].Node?
      {
        var k := order[i];
        Visit(order, m, i);
        if !InArray(k, items.Length) {
          emptySlot := InsertColliding(k, m[k], emptySlot, hm, order[..i]);
        } else {
          SkipKey(hash[..], chains, hm, order[..i], k);
        }
      }
      assert order[..|order|] == order;
    }

    /** One key of the second pass. The search for a free slot goes on from where the last one ended. */
    method InsertColliding(k: Key, v: V, emptySlot: nat, ghost hm: map<Key, V>, ghost done: seq<Key>)
      returns (emptySlot': nat)
      requires SecondPass(hash[..], chains, hm, done) && hash.Length == |hm.Keys|
      requires k in hm && hm[k] == v && k !in done
      requires emptySlot <= hash.Length && forall x :: 0 <= x < emptySlot ==> hash[x].Node?
      modifies this`chains, hash
      ensures SecondPass(hash[..], chains, hm, done + [k])
      ensures emptySlot' <= hash.Length && forall x :: 0 <= x < emptySlot' ==> hash[x].Node?
    {
      hide SecondPass, KeyHash, MainPos;
      emptySlot' := emptySlot;
      ghost var h := hash[..];
      ghost var free := AtMainPos(h, chains, hm, done, k);
      var j := MainPos(k, hash.Length);
      if hash[j].key != k {
        var n := emptySlot;
        while hash[n].Node?
          invariant n <= free && forall x :: 0 <= x < n ==> hash[x].Node?
          decreases free - n
        {
          n := n + 1;
        }
        emptySlot' := n + 1;
        SecondPassStep(h, chains, hm, done, k, n);
        ghost var c := chains[j];
        hash[n] := Node(k, KeyHash(k), v, hash[j].next, false);
        hash[j] := hash[j].(next := n, nocolliding := false);
        chains := chains[j := [c[0], n] + c[1..]];
        assert hash[..] == Linked(h, k, v, n);
      }
    }

    /** `lookup_key`: follows one chain. */
    method LookupKey(k: Key, ghost m: map<Key, V>) returns (r: Option<nat>)
      requires Holds(m)
      ensures r.Some? <==> k in HashPart(m, items.Length)
      ensures r.Some? ==> r.value < hash.Length && hash[r.value].Node? && hash[r.value].key == k
    {
      ghost var hm, h := HashPart(m, items.Length), hash[..];
      assert Frozen(h, chains, hm);
      if hash.Length == 0 {
        assert !Has(h, k);
        return None;
      }
      hide Holds, HashPart, Frozen;
      var x := MainPos(k, hash.Length);
      ghost var c, p := ChainOf(h, chains, hm, x);
      if KeyHash(k) != hash[x].keyhash && hash[x].nocolliding {
        NotInChain(h, chains, hm, k, c, p);
        return None;
      }
      r := Walk(k, x, hm, MainPos(h[x].key, |h|), p);
    }

    /** The loop of `lookup_key`, from the slot `first`, which is the `start`-th of its chain, to the end. */
    method Walk(k: Key, first: nat, ghost hm: map<Key, V>, ghost j: nat, ghost start: nat) returns (r: Option<nat>)
      requires Frozen(hash[..], chains, hm) && hash.Length > 0 && first == MainPos(k, hash.Length)
      requires hash[first].Node? && j == MainPos(hash[first].key, hash.Length)
      requires j in chains && start < |chains[j]| && chains[j][start] == first
      ensures r.Some? <==> k in hm
      ensures r.Some? ==> r.value < hash.Length && hash[r.value].Node? && hash[r.value].key == k
    {
      hide KeyHash, MainPos, Frozen;
      ghost var h, c, p := hash[..], chains[j], start;
      var x := first;
      FollowChain(h, chains, hm, j, c, p);
      while true
        invariant start <= p < |c| && c[p] == x && forall q :: start <= q < p ==> h[c[q]].key != k
        decreases |c| - p
      {
        FollowChain(h, chains, hm, j, c, p);
        hide ChainOk;
        if KeyHash(k) == hash[x].keyhash && hash[x].key == k {
          FoundInMap(h, chains, hm, x);
          return Some(x);
        }
        assert h[c[p]].key != k;
        if hash[x].next < 0 {
          assert p + 1 == |c|;
          NotInChain(h, chains, hm, k, c, start);
          return None;
        }
        assert p + 1 < |c| && hash[x].next == c[p + 1];
        x, p := hash[x].next, p + 1;
      }
    }

    /** `lindexconf`: the table answers as the map does. */
    method Index(k: Key, ghost m: map<Key, V>) returns (r: Option<V>)
      requires Holds(m)
      ensures r == if k in m then Some(m[k]) else None
    {
      if InArray(k, items.Length) {
        return items[k.i - 1];
      }
      var x := LookupKey(k, m);
      if x.None? { return None; }
      assert SlotOk(hash[..], chains, HashPart(m, items.Length), x.value);
      return Some(hash[x.value].value);
    }

    /** All keys in the order in which `lnextkey` visits them. */
    ghost function Traversal(m: map<Key, V>): seq<Key>
      reads this, items, hash
      requires Holds(m)
    {
      ArrayKeys(items[..]) + HashKeys(hash[..])
    }

    /** The traversal visits every key of the map exactly once. */
    lemma TraversalComplete(m: map<Key, V>)
      requires Holds(m)
      ensures Enumerates(Traversal(m), m)
    {
      var a, h, hm := items[..], hash[..], HashPart(m, items.Length);
      ArrayKeysDistinct(a);
      forall k ensures k in ArrayKeys(a) <==> k in m && k !in hm { ArrayKeysAre(a, k); }
      forall k ensures k in HashKeys(h) <==> k in hm {
        if k in hm {
          var x :| 0 <= x < |h| && h[x].Node? && h[x].key == k;
          assert HashKeys(h)[x] == k;
        }
        if k in HashKeys(h) {
          var x :| 0 <= x < |h| && HashKeys(h)[x] == k;
          FoundInMap(h, chains, hm, x);
        }
      }
      DistinctConcat(ArrayKeys(a), HashKeys(h));
    }

    /** The first array index from `start` on that is not nil, or the first slot of the hash part. */
    method NextFrom(start: nat, ghost m: map<Key, V>) returns (r: Option<Key>)
      requires Holds(m) && start <= items.Length
      ensures var t, n := Traversal(m), |ArrayKeys(items[..start])|; r == if n < |t| then Some(t[n]) else None
    {
      ghost var a := items[..];
      ArrayKeysPrefix(a, start);
      assert a[..start] == items[..start];
      hide ArrayKeys, Frozen;
      for i := start to items.Length
        invariant forall j :: start <= j < i ==> a[j].None?
      {
        if items[i].Some? {
          ArrayKeysPrefix(a, i);
          ArrayKeysPrefix(a[..i], start);
          assert a[..i][..start] == a[..start];
          return Some(IntKey(i + 1));
        }
      }
      if hash.Length > 0 { return Some(hash[0].key); }
      return None;
    }

    /** `lnextkey`: the key after `k` in the traversal, where `k` is at place `i`, or its first key. */
    method NextKey(k: Option<Key>, ghost m: map<Key, V>) returns (r: Option<Key>, ghost i: int)
      requires Holds(m) && (k.Some? ==> k.value in m)
      ensures k.None? ==> r == if Traversal(m) != [] then Some(Traversal(m)[0]) else None
      ensures k.Some? ==> FollowsAt(Traversal(m), i, k.value, r)
    {
      ghost var t, a, h := Traversal(m), items[..], hash[..];
      i := -1;
      if k.None? {
        r := NextFrom(0, m);
      } else if InArray(k.value, items.Length) {
        r := NextFrom(k.value.i, m);
        ghost var n := k.value.i - 1;
        ArrayKeysPrefix(a, n);
        assert items[..n + 1][..n] == a[..n];
        i := |ArrayKeys(a[..n])|;
      } else {
        var x := LookupKey(k.value, m);
        r := if x.value + 1 == hash.Length then None else Some(hash[x.value + 1].key);
        i := |ArrayKeys(a)| + x.value;
        assert t[i] == HashKeys(h)[x.value];
        assert x.value + 1 < hash.Length ==> t[i + 1] == HashKeys(h)[x.value + 1];
        hide ArrayKeys;
      }
    }
  }

  method CountSize<V>(m: map<Key, V>, order: seq<Key>, sizearray: nat) returns (n: nat)
    requires Enumerates(order, m)
    ensures n == |HashPart(m, sizearray).Keys|
  {
    n := 0;
    ghost var seen: set<Key> := {};
    assert forall k :: k in m <==> k in order;
    hide Enumerates;
    for i := 0 to |order|
      invariant n == |seen| && seen == set k | k in order[..i] && !InArray(k, sizearray)
    {
      Visit(order, m, i);
      if !InArray(order[i], sizearray) {
        n := n + 1;
        seen := seen + {order[i]};
      }
    }
    assert order[..|order|] == order;
    assert seen == HashPart(m, sizearray).Keys;
  }
}
