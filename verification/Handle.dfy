/** The handle table of skynet-src/skynet_handle.c: a hash table of contexts under growing handles, and a
    sorted array of names. Each method is one section under the lock of the table. */
module Handle {
  import opened Arithmetic

  datatype Option<T> = None | Some(value: T)

  /** A context knows its own handle. */
  datatype Context = Context(handle: nat, id: int)

  datatype Named = Named(name: string, handle: nat)

  /** What registering may come to: a handle, the read of a handle through a null pointer, or the failed
      assertion that the table may still grow. */
  datatype Registered = Registered(handle: nat) | NullContext | TooMany

  const HandleMask := 0xff_ffff
  const DefaultSlotSize := 4
  const MaxSlotSize := 0x4000_0000

  // ---------------------------------------------------------------------------
  // Slots
  // ---------------------------------------------------------------------------

  /** A size that the table may have: doubled some times it is the range of the handles. */
  ghost predicate Divides(n: nat) {
    n > 0 && exists k: nat :: n * Pow2(k) == HandleMask + 1
  }

  lemma DividesTwice(n: nat)
    requires Divides(n) && 2 * n <= HandleMask + 1
    ensures Divides(2 * n)
  {
    var k: nat :| n * Pow2(k) == HandleMask + 1;
    assert k > 0;
    assert (2 * n) * Pow2(k - 1) == n * Pow2(k);
  }

  lemma DividesRange(n: nat)
    requires Divides(n)
    ensures n <= HandleMask + 1
  {
    var k: nat :| n * Pow2(k) == HandleMask + 1;
    MulGe(n, Pow2(k));
  }

  /** Taking out a multiple of the range does not move a handle. */
  lemma SameSlot(x: nat, h: nat, n: nat)
    requires Divides(n)
    ensures (x + h * (HandleMask + 1)) % n == x % n
  {
    var e: nat :| n * Pow2(e) == HandleMask + 1;
    var k, q := Pow2(e), x / n;
    assert x + h * (HandleMask + 1) == n * (q + h * k) + x % n;
    ModUnique(x + h * (HandleMask + 1), n, q + h * k, x % n);
  }

  /** In a table of twice the size a handle is at its old place or `n` further. */
  lemma TwiceSlot(x: nat, n: nat)
    requires n > 0
    ensures x % (2 * n) == x % n || x % (2 * n) == x % n + n
  {
    var q, r := x / (2 * n), x % (2 * n);
    assert x == 2 * n * q + r;
    if r < n {
      assert x == n * (2 * q) + r;
      ModUnique(x, n, 2 * q, r);
    } else {
      assert x == n * (2 * q + 1) + (r - n);
      ModUnique(x, n, 2 * q + 1, r - n);
    }
  }

  /** Of `n` consecutive handles one is at each place. */
  lemma Covered(h: nat, n: nat, i: nat) returns (d: nat)
    requires i < n
    ensures d < n && (h + d) % n == i
  {
    var q, r := h / n, h % n;
    d := if i >= r then i - r else i - r + n;
    if i >= r {
      assert h + d == n * q + i;
      ModUnique(h + d, n, q, i);
    } else {
      assert h + d == n * (q + 1) + i;
      ModUnique(h + d, n, q + 1, i);
    }
  }

  /** The scan for a free slot steps from one handle to the next and skips 0 when it wraps. */
  function Fix(h: nat): nat { if h > HandleMask then 1 else h }

  function Visited(index: nat, d: nat): nat {
    var x := Fix(index) + d;
    if x <= HandleMask then x else x - HandleMask
  }

  /** The scan wraps on its way through `n` handles. */
  predicate Wraps(index: nat, n: nat) { HandleMask + 1 - Fix(index) < n }

  /** A scan that does not wrap looks at every slot; one that wraps misses slot 0 and no other. */
  lemma ScanCovers(index: nat, n: nat, i: nat) returns (d: nat)
    requires Divides(n) && 0 < Fix(index) && i < n && !(Wraps(index, n) && i == 0)
    ensures d < n && Visited(index, d) % n == i
  {
    var h := Fix(index);
    if !Wraps(index, n) {
      d := Covered(h, n, i);
    } else {
      var w := HandleMask + 1 - h;
      var e: nat :| n * Pow2(e) == HandleMask + 1;
      var k := Pow2(e);
      if i >= n - w {
        d := i - (n - w);
        assert h + d == n * (k - 1) + i by { assert n * (k - 1) == HandleMask + 1 - n; }
        ModUnique(h + d, n, k - 1, i);
      } else {
        d := w + i - 1;
        assert h + d - HandleMask == i;
        ModUnique(i, n, 0, i);
      }
    }
  }

  lemma ScanMisses(index: nat, n: nat, d: nat)
    requires Divides(n) && 0 < Fix(index) && n <= HandleMask + 1 && Wraps(index, n) && d < n
    ensures Visited(index, d) % n != 0
  {
    var h := Fix(index);
    var w := HandleMask + 1 - h;
    var e: nat :| n * Pow2(e) == HandleMask + 1;
    var k := Pow2(e);
    if d < w {
      assert h + d == n * (k - 1) + (n - w + d) by { assert n * (k - 1) == HandleMask + 1 - n; }
      ModUnique(h + d, n, k - 1, n - w + d);
    } else {
      ModUnique(d - w + 1, n, 0, d - w + 1);
    }
  }

  /** The slots agree with the map from handles to contexts. */
  ghost predicate SlotsOk(slot: seq<Option<Context>>, contexts: map<nat, Context>) {
    && |slot| > 0
    && (forall h :: h in contexts ==> contexts[h].handle == h && slot[h % |slot|] == Some(contexts[h]))
    && (forall i :: 0 <= i < |slot| && slot[i].Some? ==> slot[i].value.handle in contexts && slot[i].value.handle % |slot| == i)
  }

  /** After rehashing the first `k` slots of a full table into one of twice the size. */
  ghost predicate Rehashed(slot: seq<Option<Context>>, bigger: seq<Option<Context>>, k: nat)
    requires k <= |slot|
  {
    && |bigger| == 2 * |slot| > 0
    && (forall i :: 0 <= i < k && slot[i].Some? ==> bigger[slot[i].value.handle % |bigger|] == slot[i])
    && (forall j :: 0 <= j < |bigger| && bigger[j].Some? ==>
          && bigger[j].value.handle % |bigger| == j && (j < k || |slot| <= j < |slot| + k)
          && slot[if j < |slot| then j else j - |slot|] == bigger[j])
  }

  lemma RehashStep(slot: seq<Option<Context>>, bigger: seq<Option<Context>>, contexts: map<nat, Context>, k: nat)
    requires SlotsOk(slot, contexts) && k < |slot| && slot[k].Some? && Rehashed(slot, bigger, k)
    ensures var j := slot[k].value.handle % |bigger|; bigger[j].None? && Rehashed(slot, bigger[j := slot[k]], k + 1)
  {
    TwiceSlot(slot[k].value.handle, |slot|);
  }

  lemma RehashDone(slot: seq<Option<Context>>, bigger: seq<Option<Context>>, contexts: map<nat, Context>)
    requires SlotsOk(slot, contexts) && Rehashed(slot, bigger, |slot|)
    ensures SlotsOk(bigger, contexts)
    ensures forall i :: 0 <= i < |slot| ==> bigger[i].None? || bigger[i + |slot|].None?
  {
    forall h | h in contexts ensures bigger[h % |bigger|] == Some(contexts[h]) {
      var i := h % |slot|;
      assert slot[i] == Some(contexts[h]);
    }
    forall j | 0 <= j < |bigger| && bigger[j].Some? ensures bigger[j].value.handle in contexts {
      var i := if j < |slot| then j else j - |slot|;
      assert slot[i].Some?;
    }
    assert forall i :: 0 <= i < |slot| && bigger[i].Some? ==> bigger[i] == slot[i];
  }

  // ---------------------------------------------------------------------------
  // Contexts without their handle
  // ---------------------------------------------------------------------------

  /** Where the rehash puts the context of a slot. `skynet_context_new` writes the handle into a new context
      after the section that registered it, so a rehash by another thread may still find 0 there; `late` are
      the slots of such contexts. */
  function Goes(slot: seq<Option<Context>>, late: set<nat>, i: nat): nat
    requires i < |slot| && slot[i].Some?
  {
    (if i in late then 0 else slot[i].value.handle) % (2 * |slot|)
  }

  /** Two contexts go to one slot, so the assertion of the rehash fails. */
  ghost predicate Meets(slot: seq<Option<Context>>, late: set<nat>)
    requires Full(slot)
  {
    exists i, j :: 0 <= i < j < |slot| && Goes(slot, late, i) == Goes(slot, late, j)
  }

  /** Every context goes where its handle will be looked for. */
  ghost predicate Placed(slot: seq<Option<Context>>, late: set<nat>)
    requires Full(slot)
  {
    forall i :: 0 <= i < |slot| ==> Goes(slot, late, i) == Goes(slot, {}, i)
  }

  lemma GoesWhere(slot: seq<Option<Context>>, contexts: map<nat, Context>, late: set<nat>, i: nat)
    requires SlotsOk(slot, contexts) && Full(slot) && i < |slot|
    ensures i in late ==> Goes(slot, late, i) == 0
    ensures i !in late ==> Goes(slot, late, i) == Goes(slot, {}, i)
    ensures Goes(slot, {}, i) == i || Goes(slot, {}, i) == i + |slot|
  {
    TwiceSlot(slot[i].value.handle, |slot|);
  }

  /** The assertion fails if and only if two contexts are without their handle, or one of them is and
      the context in slot 0 stays there. */
  lemma LateMeets(slot: seq<Option<Context>>, contexts: map<nat, Context>, late: set<nat>)
    requires SlotsOk(slot, contexts) && Full(slot) && forall i :: i in late ==> i < |slot|
    ensures Meets(slot, late) <==>
      || (exists i, j :: i in late && j in late && i < j)
      || (0 !in late && late != {} && Goes(slot, {}, 0) == 0)
  {
    forall i | 0 <= i < |slot|
      ensures i in late ==> Goes(slot, late, i) == 0
      ensures i !in late ==> Goes(slot, late, i) == Goes(slot, {}, i)
      ensures Goes(slot, {}, i) == i || Goes(slot, {}, i) == i + |slot|
    {
      GoesWhere(slot, contexts, late, i);
    }
    hide SlotsOk, Goes;
    if i, j :| i in late && j in late && i < j {
      assert Goes(slot, late, i) == Goes(slot, late, j);
    } else if 0 !in late && late != {} && Goes(slot, {}, 0) == 0 {
      var j :| j in late;
      assert Goes(slot, late, 0) == Goes(slot, late, j);
    }
  }

  /** No context is lost if and only if at most the one in slot 0 is without its handle, and stays there. */
  lemma LatePlaced(slot: seq<Option<Context>>, contexts: map<nat, Context>, late: set<nat>)
    requires SlotsOk(slot, contexts) && Full(slot) && forall i :: i in late ==> i < |slot|
    ensures Placed(slot, late) <==> late == {} || (late == {0} && Goes(slot, {}, 0) == 0)
  {
    forall i | 0 <= i < |slot|
      ensures i in late ==> Goes(slot, late, i) == 0
      ensures i !in late ==> Goes(slot, late, i) == Goes(slot, {}, i)
      ensures Goes(slot, {}, i) == i || Goes(slot, {}, i) == i + |slot|
    {
      GoesWhere(slot, contexts, late, i);
    }
    hide SlotsOk, Goes;
    if Placed(slot, late) {
      forall i | i in late ensures i == 0 && Goes(slot, {}, i) == 0 { assert Goes(slot, late, i) == 0; }
      assert late == {} || late == {0};
    }
  }

  /** The fifth registration, before the fourth context has its handle: that context is lost. */
  lemma LateExample() returns (slot: seq<Option<Context>>, contexts: map<nat, Context>)
    ensures SlotsOk(slot, contexts) && Full(slot) && |slot| == DefaultSlotSize && contexts.Keys == {1, 2, 3, 4}
    ensures !Meets(slot, {0}) && !Placed(slot, {0}) && Meets(slot, {0, 3})
  {
    var c := (h: nat) => Context(h, h);
    contexts := map[1 := c(1), 2 := c(2), 3 := c(3), 4 := c(4)];
    slot := [Some(c(4)), Some(c(1)), Some(c(2)), Some(c(3))];
    LateMeets(slot, contexts, {0});
    LatePlaced(slot, contexts, {0});
    LateMeets(slot, contexts, {0, 3});
  }

  lemma AddContext(slot: seq<Option<Context>>, contexts: map<nat, Context>, c: Context)
    requires SlotsOk(slot, contexts) && slot[c.handle % |slot|].None?
    ensures c.handle !in contexts
    ensures SlotsOk(slot[c.handle % |slot| := Some(c)], contexts[c.handle := c])
  {
  }

  lemma DropContext(slot: seq<Option<Context>>, contexts: map<nat, Context>, h: nat)
    requires SlotsOk(slot, contexts)
    ensures h in contexts <==> slot[h % |slot|].Some? && slot[h % |slot|].value.handle == h
    ensures h in contexts ==> SlotsOk(slot[h % |slot| := None], contexts - {h})
  {
  }

  /** Slot 0 is the only free one. */
  ghost predicate OnlyZeroFree(slot: seq<Option<Context>>) {
    |slot| > 0 && slot[0].None? && forall i :: 0 < i < |slot| ==> slot[i].Some?
  }

  ghost predicate Full(slot: seq<Option<Context>>) {
    forall i :: 0 <= i < |slot| ==> slot[i].Some?
  }

  /** The scan comes to the handle `h`, whose slot is free, and has seen no free slot before. */
  ghost predicate FirstFree(slot: seq<Option<Context>>, index: nat, h: nat)
    requires |slot| > 0
  {
    exists d :: 0 <= d < |slot| && h == Visited(index, d) && slot[h % |slot|].None?
      && forall e :: 0 <= e < d ==> slot[Visited(index, e) % |slot|].Some?
  }

  lemma FourDivides()
    ensures Divides(4)
  {
    assert Pow2(11) == 0x800;
    assert Pow2(22) == 0x40_0000;
    assert 4 * Pow2(22) == HandleMask + 1;
  }

  /** A table of four slots in which the scan, close to the last handle, does not see the free one. */
  lemma FreeSlotMissed(index: nat) returns (slot: seq<Option<Context>>, contexts: map<nat, Context>)
    requires index == HandleMask - 2
    ensures |slot| == 4 && Divides(4) && SlotsOk(slot, contexts) && OnlyZeroFree(slot) && !Full(slot)
    ensures Wraps(index, 4) && forall h: nat :: !FirstFree(slot, index, h)
  {
    FourDivides();
    var a, b, c := Context(1, 0), Context(2, 0), Context(3, 0);
    slot, contexts := [None, Some(a), Some(b), Some(c)], map[1 := a, 2 := b, 3 := c];
    assert 1 % 4 == 1 && 2 % 4 == 2 && 3 % 4 == 3;
    forall d: nat | d < 4 ensures Visited(index, d) % 4 != 0 { ScanMisses(index, 4, d); }
  }

  // ---------------------------------------------------------------------------
  // Names
  // ---------------------------------------------------------------------------

  /** `strcmp`. */
  function StrCmp(a: string, b: string): int {
    if a == [] then (if b == [] then 0 else -1)
    else if b == [] then 1
    else if a[0] < b[0] then -1
    else if a[0] > b[0] then 1
    else StrCmp(a[1..], b[1..])
  }

  lemma {:induction false} StrCmpEqual(a: string, b: string)
    ensures StrCmp(a, b) == 0 <==> a == b
  {
    if a != [] && b != [] && a[0] == b[0] {
      StrCmpEqual(a[1..], b[1..]);
      assert a == [a[0]] + a[1..] && b == [b[0]] + b[1..];
    }
  }

  lemma {:induction false} StrCmpReverse(a: string, b: string)
    ensures StrCmp(a, b) < 0 <==> StrCmp(b, a) > 0
  {
    if a != [] && b != [] && a[0] == b[0] { StrCmpReverse(a[1..], b[1..]); }
  }

  lemma {:induction false} StrCmpTransitive(a: string, b: string, c: string)
    requires StrCmp(a, b) < 0 && StrCmp(b, c) < 0
    ensures StrCmp(a, c) < 0
  {
    if a != [] && b != [] && c != [] && a[0] == b[0] == c[0] { StrCmpTransitive(a[1..], b[1..], c[1..]); }
  }

  ghost predicate Sorted(l: seq<Named>) {
    forall i, j :: 0 <= i < j < |l| ==> StrCmp(l[i].name, l[j].name) < 0
  }

  /** The list agrees with the map from names to handles. */
  ghost predicate NamesOk(l: seq<Named>, names: map<string, nat>) {
    && Sorted(l)
    && (forall i :: 0 <= i < |l| ==> l[i].name in names && names[l[i].name] == l[i].handle)
    && (forall n :: n in names ==> exists i :: 0 <= i < |l| && l[i].name == n)
  }

  /** Where a binary search for `name` ends. */
  ghost predicate Between(l: seq<Named>, name: string, p: int) {
    && 0 <= p <= |l|
    && (forall i :: 0 <= i < p ==> StrCmp(l[i].name, name) < 0)
    && (forall i :: p <= i < |l| ==> StrCmp(name, l[i].name) < 0)
  }

  lemma InsertKeepsOrder(l: seq<Named>, x: Named, p: nat)
    requires Sorted(l) && Between(l, x.name, p)
    ensures Sorted(l[..p] + [x] + l[p..])
  {
    hide StrCmp;
  }

  lemma InsertSorted(l: seq<Named>, names: map<string, nat>, x: Named, p: nat)
    requires NamesOk(l, names) && Between(l, x.name, p)
    ensures x.name !in names
    ensures NamesOk(l[..p] + [x] + l[p..], names[x.name := x.handle])
  {
    var l', names' := l[..p] + [x] + l[p..], names[x.name := x.handle];
    InsertKeepsOrder(l, x, p);
    forall i | 0 <= i < |l| ensures l[i].name != x.name { StrCmpEqual(l[i].name, x.name); StrCmpEqual(x.name, l[i].name); }
    forall n | n in names' ensures exists i :: 0 <= i < |l'| && l'[i].name == n {
      if n == x.name {
        assert l'[p].name == n;
      } else {
        var i :| 0 <= i < |l| && l[i].name == n;
        assert l'[if i < p then i else i + 1].name == n;
      }
    }
    hide Sorted, StrCmp;
  }

  lemma InList(l: seq<Named>, names: map<string, nat>, at: nat)
    requires NamesOk(l, names) && at < |l|
    ensures l[at].name in names && names[l[at].name] == l[at].handle
  {
  }

  lemma BetweenBounds(l: seq<Named>, name: string, p: nat)
    requires Between(l, name, p)
    ensures p <= |l|
  {
  }

  /** The names that do not belong to a handle. */
  ghost function Without(l: seq<Named>, h: nat): seq<Named> {
    if l == [] then []
    else Without(l[..|l| - 1], h) + if l[|l| - 1].handle == h then [] else [l[|l| - 1]]
  }

  lemma WithoutNext(l: seq<Named>, h: nat, i: nat)
    requires i < |l|
    ensures Without(l[..i + 1], h) == Without(l[..i], h) + if l[i].handle == h then [] else [l[i]]
  {
    assert l[..i + 1][..i] == l[..i];
  }

  lemma {:induction false} WithoutMembers(l: seq<Named>, h: nat, x: Named)
    ensures x in Without(l, h) <==> x in l && x.handle != h
  {
    if l != [] {
      WithoutMembers(l[..|l| - 1], h, x);
      assert l == l[..|l| - 1] + [l[|l| - 1]];
    }
  }

  lemma {:induction false} WithoutSorted(l: seq<Named>, h: nat)
    requires Sorted(l)
    ensures Sorted(Without(l, h))
  {
    if l != [] {
      var n := |l| - 1;
      var front := Without(l[..n], h);
      WithoutSorted(l[..n], h);
      forall i | 0 <= i < |front| ensures StrCmp(front[i].name, l[n].name) < 0 {
        WithoutMembers(l[..n], h, front[i]);
      }
    }
  }

  lemma WithoutNames(l: seq<Named>, names: map<string, nat>, h: nat)
    requires NamesOk(l, names)
    ensures NamesOk(Without(l, h), map n | n in names && names[n] != h :: names[n])
  {
    var l' := Without(l, h);
    WithoutSorted(l, h);
    hide Sorted, Without;
    forall i | 0 <= i < |l'| ensures l'[i].name in names && names[l'[i].name] == l'[i].handle != h {
      WithoutMembers(l, h, l'[i]);
    }
    forall n | n in names && names[n] != h ensures exists i :: 0 <= i < |l'| && l'[i].name == n {
      var i :| 0 <= i < |l| && l[i].name == n;
      WithoutMembers(l, h, l[i]);
      var j :| 0 <= j < |l'| && l'[j] == l[i];
      assert l'[j].name == n;
    }
  }

  // ---------------------------------------------------------------------------
  // The table
  // ---------------------------------------------------------------------------

  class HandleStorage {
    const harbor: nat
    var handleIndex: nat
    var slot: array<Option<Context>>
    var name: array<Named>
    var nameCount: nat
    ghost var contexts: map<nat, Context>
    ghost var names: map<string, nat>

    ghost predicate ValidSlots()
      reads this, slot
    {
      && 0 < handleIndex <= HandleMask + 1
      && slot.Length >= DefaultSlotSize && Divides(slot.Length) && SlotsOk(slot[..], contexts)
    }

    ghost predicate ValidNames()
      reads this, name
    {
      0 < name.Length && nameCount <= name.Length && NamesOk(name[..nameCount], names)
    }

    ghost predicate Valid()
      reads this, slot, name
    {
      ValidSlots() && ValidNames()
    }

    constructor (harbor: nat)
      ensures Valid() && contexts == map[] && names == map[] && this.harbor == harbor % 0x100
      ensures fresh(slot) && fresh(name) && handleIndex == 1 && slot.Length == DefaultSlotSize
    {
      this.harbor := harbor % 0x100;
      handleIndex := 1;
      slot := new Option<Context>[DefaultSlotSize](_ => None);
      name := new Named[2](_ => Named("", 0));
      nameCount := 0;
      contexts, names := map[], map[];
      FourDivides();
    }

    /** The inner loop of `skynet_handle_register`: the first free slot of the scan. */
    method Scan() returns (found: bool, handle: nat)
      requires ValidSlots()
      ensures found ==> 0 < handle <= HandleMask && FirstFree(slot[..], handleIndex, handle)
      ensures !found <==> Full(slot[..]) || (Wraps(handleIndex, slot.Length) && OnlyZeroFree(slot[..]))
    {
      var n := slot.Length;
      DividesRange(n);
      handle := handleIndex;
      for i := 0 to n
        invariant handle <= HandleMask + 1 && Fix(handle) == Fix(Visited(handleIndex, i))
        invariant forall d :: 0 <= d < i ==> slot[Visited(handleIndex, d) % n].Some?
      {
        if handle > HandleMask { handle := 1; }
        if slot[handle % n].None? {
          if Wraps(handleIndex, n) { ScanMisses(handleIndex, n, i); }
          assert FirstFree(slot[..], handleIndex, Visited(handleIndex, i));
          return true, handle;
        }
        handle := handle + 1;
      }
      found := false;
      forall j | 0 <= j < n && !(Wraps(handleIndex, n) && j == 0) ensures slot[j].Some? {
        var d := ScanCovers(handleIndex, n, j);
      }
    }

    /** Registers a context. A slot that is free is found, except that a scan that wraps does not see slot 0;
        the table grows only if the scan finds nothing. */
    method Register(id: int) returns (r: Registered)
      requires Valid()
      modifies this, slot
      ensures Valid() && names == old(names) && name == old(name) && (slot == old(slot) || fresh(slot))
      ensures var s, wraps := old(slot[..]), Wraps(old(handleIndex), old(slot.Length));
        var missed := Full(s) || (wraps && OnlyZeroFree(s));
        && (r.TooMany? <==> missed && 2 * |s| - 1 > HandleMask)
        && (r.NullContext? <==> missed && !Full(s) && 2 * |s| - 1 <= HandleMask)
        && (slot != old(slot) ==> Full(s) && slot.Length == 2 * |s|)
      ensures r.Registered? ==>
        && r.handle !in old(contexts) && r.handle / (HandleMask + 1) == harbor && r.handle % (HandleMask + 1) != 0
        && contexts == old(contexts)[r.handle := Context(r.handle, id)]
        && handleIndex == r.handle % (HandleMask + 1) + 1
        && (slot == old(slot) ==> FirstFree(old(slot[..]), old(handleIndex), r.handle % (HandleMask + 1)))
      ensures !r.Registered? ==> contexts == old(contexts) && slot == old(slot) && handleIndex == old(handleIndex)
    {
      var found, handle := Scan();
      if !found {
        if slot.Length * 2 - 1 > HandleMask { return TooMany; }
        if slot[0].None? { return NullContext; }
        Expand();
        found, handle := Scan();
      }
      r := Place(handle, id);
    }

    /** Rehashes a full table into one of twice the size; no two contexts meet in a slot. */
    method Expand()
      requires ValidSlots() && Full(slot[..]) && 2 * slot.Length - 1 <= HandleMask
      modifies this`slot
      ensures ValidSlots() && fresh(slot) && slot.Length == 2 * old(slot.Length)
      ensures !Full(slot[..]) && !OnlyZeroFree(slot[..])
    {
      var bigger := new Option<Context>[slot.Length * 2](_ => None);
      ghost var s := slot[..];
      for i := 0 to slot.Length
        modifies bigger
        invariant Rehashed(s, bigger[..], i)
      {
        RehashStep(s, bigger[..], contexts, i);
        var hash := slot[i].value.handle % bigger.Length;
        assert bigger[hash].None?;
        ghost var b := bigger[..];
        bigger[hash] := slot[i];
        assert bigger[..] == b[hash := s[i]];
      }
      RehashDone(s, bigger[..], contexts);
      DividesTwice(slot.Length);
      assert bigger[..][1].None? || bigger[..][1 + slot.Length].None?;
      slot := bigger;
    }

    method Place(handle: nat, id: int) returns (r: Registered)
      requires Valid() && 0 < handle <= HandleMask && slot[handle % slot.Length].None?
      modifies this`handleIndex, this`contexts, slot
      ensures Valid() && r.Registered? && r.handle !in old(contexts)
      ensures r.handle / (HandleMask + 1) == harbor && r.handle % (HandleMask + 1) == handle
      ensures contexts == old(contexts)[r.handle := Context(r.handle, id)] && handleIndex == handle + 1
    {
      ghost var s := slot[..];
      var full := handle + harbor * (HandleMask + 1);
      SameSlot(handle, harbor, slot.Length);
      AddContext(s, contexts, Context(full, id));
      slot[handle % slot.Length] := Some(Context(full, id));
      handleIndex := handle + 1;
      contexts := contexts[full := Context(full, id)];
      assert slot[..] == s[full % |s| := Some(Context(full, id))];
      r := Registered(full);
    }

    /** Looks up a handle, of this node or not, live or not. */
    method Grab(handle: nat) returns (r: Option<Context>)
      requires Valid()
      ensures r == if handle in contexts then Some(contexts[handle]) else None
    {
      DropContext(slot[..], contexts, handle);
      var c := slot[handle % slot.Length];
      r := if c.Some? && c.value.handle == handle then c else None;
    }

    /** Retires a handle, and with it all its names. */
    method Retire(handle: nat) returns (ret: bool)
      requires Valid()
      modifies this`contexts, this`names, this`nameCount, slot, name
      ensures Valid() && ret == (handle in old(contexts))
      ensures contexts == old(contexts) - {handle}
      ensures names == if ret then (map n | n in old(names) && old(names)[n] != handle :: old(names)[n]) else old(names)
    {
      ghost var s := slot[..];
      DropContext(s, contexts, handle);
      var hash := handle % slot.Length;
      ret := slot[hash].Some? && slot[hash].value.handle == handle;
      if ret {
        slot[hash] := None;
        contexts := contexts - {handle};
        assert slot[..] == s[hash := None];
        Compact(handle);
      }
    }

    /** Moves the names that stay to the front. */
    method Compact(handle: nat)
      requires ValidNames()
      modifies this`names, this`nameCount, name
      ensures ValidNames()
      ensures names == map n | n in old(names) && old(names)[n] != handle :: old(names)[n]
    {
      WithoutNames(name[..nameCount], names, handle);
      nameCount := MoveUp(name, nameCount, handle);
      names := map n | n in names && names[n] != handle :: names[n];
    }

    /** The binary search of `skynet_handle_findname` and `_insert_name`. */
    method Search(key: string) returns (found: bool, at: nat)
      requires ValidNames()
      ensures found ==> at < nameCount && name[at].name == key
      ensures !found ==> Between(name[..nameCount], key, at)
    {
      var l := name[..nameCount];
      var begin, end := 0, nameCount - 1;
      while begin <= end
        invariant 0 <= begin <= end + 1 <= nameCount
        invariant forall i :: 0 <= i < begin ==> StrCmp(l[i].name, key) < 0
        invariant forall i :: end < i < nameCount ==> StrCmp(key, l[i].name) < 0
        decreases end - begin
      {
        var mid := (begin + end) / 2;
        var c := StrCmp(name[mid].name, key);
        if c == 0 {
          StrCmpEqual(name[mid].name, key);
          return true, mid;
        }
        if c < 0 {
          SmallerBelow(l, key, mid);
          begin := mid + 1;
        } else {
          LargerAbove(l, key, mid);
          end := mid - 1;
        }
      }
      return false, begin;
    }

    /** The handle of a name, or 0. */
    method FindName(key: string) returns (handle: nat)
      requires ValidNames()
      ensures handle == if key in names then names[key] else 0
    {
      hide NamesOk, Between;
      var found, at := Search(key);
      handle := if found then name[at].handle else 0;
      if found { InList(name[..nameCount], names, at); } else { InsertSorted(name[..nameCount], names, Named(key, 0), at); }
    }

    /** Gives a name to a handle, unless the name is taken; with too many names an assertion fails. */
    method NameHandle(handle: nat, key: string) returns (done: bool, tooMany: bool)
      requires ValidNames()
      modifies this`name, this`nameCount, this`names, name
      ensures ValidNames() && (name == old(name) || fresh(name))
      ensures done == (key !in old(names) && !tooMany)
      ensures names == if done then old(names)[key := handle] else old(names)
      ensures tooMany <==> key !in old(names) && old(nameCount) >= old(name.Length) && 2 * old(name.Length) > MaxSlotSize
    {
      hide NamesOk, Between;
      tooMany := false;
      var found, at := Search(key);
      if found {
        InList(name[..nameCount], names, at);
        return false, false;
      }
      BetweenBounds(name[..nameCount], key, at);
      InsertSorted(name[..nameCount], names, Named(key, handle), at);
      done := InsertBefore(Named(key, handle), at);
      if !done { return false, true; }
      names := names[key := handle];
    }

    /** `_insert_name_before`. */
    method InsertBefore(x: Named, at: nat) returns (ok: bool)
      requires 0 < name.Length && nameCount <= name.Length && at <= nameCount
      modifies this`name, this`nameCount, name
      ensures ok <==> old(nameCount) < old(name.Length) || 2 * old(name.Length) <= MaxSlotSize
      ensures nameCount <= name.Length && (name == old(name) || fresh(name)) && 0 < name.Length
      ensures name[..nameCount] ==
        if ok then old(name[..nameCount])[..at] + [x] + old(name[..nameCount])[at..] else old(name[..nameCount])
    {
      ghost var l := name[..nameCount];
      if nameCount >= name.Length {
        if 2 * name.Length > MaxSlotSize { return false; }
        name := Grow(name, nameCount, at);
      } else {
        MoveDown(name, nameCount, at);
      }
      assert name[..at] == l[..at] && name[at + 1..nameCount + 1] == l[at..];
      name[at] := x;
      nameCount := nameCount + 1;
      assert name[..nameCount] == name[..at] + [name[at]] + name[at + 1..nameCount];
      ok := true;
    }
  }

  /** A handle whose slot is free is taken at once. */
  lemma TakenAtOnce(slot: seq<Option<Context>>, contexts: map<nat, Context>, index: nat, h: nat)
    requires SlotsOk(slot, contexts) && 0 < index <= HandleMask && FirstFree(slot, index, h)
    requires forall x :: x in contexts ==> x % |slot| != index % |slot|
    ensures h == index
  {
    assert Visited(index, 0) == index;
  }

  /** Three contexts leave slot 0 free, and the next handle that leads there is taken. */
  lemma ThreeStay(slot: seq<Option<Context>>, stay: map<nat, Context>)
    requires |slot| == 4 && SlotsOk(slot, stay) && stay.Keys == {1, 2, 3}
    ensures OnlyZeroFree(slot)
    ensures forall index: nat, h: nat :: 4 <= index < HandleMask - 2 && FirstFree(slot, index, h) ==>
      h % 4 == 0 && index <= h < index + 4
  {
    assert slot[1 % 4].Some? && slot[2 % 4].Some? && slot[3 % 4].Some?;
  }

  ghost function Three(): map<nat, Context> {
    map[1 := Context(1, 1), 2 := Context(2, 2), 3 := Context(3, 3)]
  }

  ghost function UpTo(k: nat): map<nat, Context> {
    map x | x in Three() && x < k :: Three()[x]
  }

  lemma UpToNext(k: nat)
    requires 1 <= k <= 3
    ensures UpTo(k)[k := Context(k, k)] == UpTo(k + 1) && forall x :: x in UpTo(k) ==> 1 <= x < k && x % 4 != k % 4
  {
  }

  /** The first handles, one after the other. */
  method RegisterNext(h: HandleStorage, k: nat)
    requires 1 <= k <= 3 && h.Valid() && h.harbor == 0 && h.slot.Length == 4 && h.handleIndex == k
    requires h.contexts == UpTo(k)
    modifies h, h.slot
    ensures h.Valid() && h.slot == old(h.slot) && h.name == old(h.name) && h.handleIndex == k + 1
    ensures h.contexts == UpTo(k + 1)
  {
    ghost var slot, contexts := h.slot[..], h.contexts;
    TwoFree(slot, contexts, k);
    UpToNext(k);
    hide SlotsOk, FirstFree, Visited, NamesOk, Divides, UpTo;
    var r := h.Register(k);
    TakenAtOnce(slot, contexts, k, r.handle % (HandleMask + 1));
  }

  lemma TwoFree(slot: seq<Option<Context>>, contexts: map<nat, Context>, k: nat)
    requires |slot| == 4 && SlotsOk(slot, contexts) && 1 <= k <= 3 && forall x :: x in contexts ==> 1 <= x < k
    ensures slot[0].None? && slot[k].None? && !Full(slot) && !OnlyZeroFree(slot)
  {
  }

  /** A context comes and goes. */
  method ComeAndGo(h: HandleStorage)
    requires h.Valid() && h.harbor == 0 && h.slot.Length == 4 && h.contexts == Three()
    requires 4 <= h.handleIndex < HandleMask - 2 && (h.handleIndex == 4 || h.handleIndex % 4 == 1)
    modifies h, h.slot, h.name
    ensures h.Valid() && h.slot == old(h.slot) && h.name == old(h.name) && h.contexts == Three()
    ensures old(h.handleIndex) < h.handleIndex <= HandleMask - 2 && h.handleIndex % 4 == 1
  {
    ThreeStay(h.slot[..], h.contexts);
    hide FirstFree, SlotsOk, Visited, NamesOk, Divides, OnlyZeroFree;
    var r := h.Register(4);
    assert h.contexts - {r.handle} == Three();
    hide Three, Full, Wraps;
    var gone := h.Retire(r.handle);
  }

  /** Three contexts that stay and one that comes and goes bring the index close to its end; then a free slot is
      missed, and the handle of a null context is read. */
  method WrapReadsNull() returns (r: Registered)
    ensures r.NullContext?
  {
    var h := new HandleStorage(0);
    RegisterNext(h, 1);
    RegisterNext(h, 2);
    RegisterNext(h, 3);
    assert UpTo(4) == Three();
    hide FirstFree, Visited, NamesOk, Divides, UpTo;
    while h.handleIndex < HandleMask - 2
      invariant fresh(h) && fresh(h.slot) && fresh(h.name) && h.Valid() && h.harbor == 0
      invariant h.slot.Length == 4 && h.contexts == Three()
      invariant 4 <= h.handleIndex <= HandleMask - 2 && (h.handleIndex == 4 || h.handleIndex % 4 == 1)
      decreases HandleMask - h.handleIndex
    {
      ComeAndGo(h);
    }
    ThreeStay(h.slot[..], h.contexts);
    r := h.Register(4);
  }

  lemma SmallerBelow(l: seq<Named>, key: string, mid: nat)
    requires Sorted(l) && mid < |l| && StrCmp(l[mid].name, key) < 0
    ensures forall i :: 0 <= i <= mid ==> StrCmp(l[i].name, key) < 0
  {
    forall i | 0 <= i < mid ensures StrCmp(l[i].name, key) < 0 { StrCmpTransitive(l[i].name, l[mid].name, key); }
  }

  lemma LargerAbove(l: seq<Named>, key: string, mid: nat)
    requires Sorted(l) && mid < |l| && StrCmp(l[mid].name, key) > 0
    ensures forall i :: mid <= i < |l| ==> StrCmp(key, l[i].name) < 0
  {
    StrCmpReverse(key, l[mid].name);
    forall i | mid < i < |l| ensures StrCmp(key, l[i].name) < 0 { StrCmpTransitive(key, l[mid].name, l[i].name); }
  }

  /** Keeps the names of other handles, in order. */
  method MoveUp(name: array<Named>, n: nat, handle: nat) returns (j: nat)
    requires n <= name.Length
    modifies name
    ensures j <= n && name[..j] == Without(old(name[..n]), handle)
  {
    ghost var l := name[..n];
    j := 0;
    for i := 0 to n
      invariant j <= i && name[..j] == Without(l[..i], handle)
      invariant forall k :: i <= k < n ==> name[k] == l[k]
    {
      WithoutNext(l, handle, i);
      hide Without;
      if name[i].handle != handle {
        name[j] := name[i];
        j := j + 1;
      }
    }
    assert l[..n] == l;
  }

  /** Makes room at `at` in a longer array. */
  method Grow(name: array<Named>, n: nat, at: nat) returns (longer: array<Named>)
    requires at <= n == name.Length && n > 0
    ensures fresh(longer) && longer.Length == 2 * n
    ensures longer[..at] == name[..at] && longer[at + 1..n + 1] == name[at..n]
  {
    longer := new Named[2 * n](_ => Named("", 0));
    for i := 0 to at
      invariant longer[..i] == name[..i]
    {
      longer[i] := name[i];
    }
    for i := at to n
      invariant longer[..at] == name[..at] && longer[at + 1..i + 1] == name[at..i]
    {
      longer[i + 1] := name[i];
    }
  }

  /** Makes room at `at` in place. */
  method MoveDown(name: array<Named>, n: nat, at: nat)
    requires at <= n < name.Length
    modifies name
    ensures name[..at] == old(name[..at]) && name[at + 1..n + 1] == old(name[at..n])
  {
    for i := n downto at
      invariant name[..i] == old(name[..i]) && name[i + 1..n + 1] == old(name[i..n])
    {
      name[i + 1] := name[i];
    }
  }
}
