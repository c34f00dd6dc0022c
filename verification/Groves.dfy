/**
 Trees of two levels spelled out page by page: the one on which a delete has
 nowhere to put a longer separator, and one on which it leaves a separator that is
 no longer a key. And three puts into a new file, the last of which cannot be done.
 */
module Groves {
  import opened Bytes
  import opened Options
  import opened PageFile
  import opened FreeLists
  import opened Pagers
  import opened Nodes
  import opened Sorted
  import opened Trees
  import opened Ledgers
  import opened Surgery
  import opened Reads
  import opened Prunings
  import opened Separators
  import opened Btrees

  /** Leaves on the pages after the root's. */
  function KidsOf(leaves: seq<seq<Item>>): (r: seq<Tree>)
    ensures |r| == |leaves| && forall i | 0 <= i < |leaves| :: r[i] == LeafAt(3 + i, leaves[i])
  {
    seq(|leaves|, i requires 0 <= i < |leaves| => LeafAt(3 + i, leaves[i]))
  }

  function Grove(keys: seq<Bytes>, leaves: seq<seq<Item>>): Tree { BranchAt(2, keys, KidsOf(leaves)) }

  function PagesFor(keys: seq<Bytes>, leaves: seq<seq<Item>>): map<PageId, Page> {
    map id: nat | 2 <= id < 3 + |leaves| :: PageAt(keys, leaves, id)
  }

  function PageAt(keys: seq<Bytes>, leaves: seq<seq<Item>>, id: nat): Page
    requires 2 <= id < 3 + |leaves|
  {
    if id == 2 then RootPage(Grove(keys, leaves)) else Leaf(StoredAll(leaves[id - 3]))
  }

  /** The transaction that committed it. */
  function Planted(keys: seq<Bytes>, leaves: seq<seq<Item>>): Version {
    Version(Meta(1, 2, 0, 3 + |leaves|, false), PagesFor(keys, leaves), map[], [], [])
  }

  /** Every value is beside its key. */
  ghost predicate AllInline(leaves: seq<seq<Item>>) {
    forall i, j | 0 <= i < |leaves| && 0 <= j < |leaves[i]| :: leaves[i][j].pages == []
  }

  /** What a two-level tree must be to be well formed. */
  ghost predicate Growable(keys: seq<Bytes>, leaves: seq<seq<Item>>) {
    && keys != [] && |leaves| == |keys| + 1 && KeysOk(keys, [], None) && BranchBytes(keys) <= CAPACITY && AllInline(leaves)
    && forall i: nat | i < |leaves| :: leaves[i] != [] && LeafBytes(StoredAll(leaves[i])) <= CAPACITY
                         && ItemsOk(leaves[i], LowerOf(keys, i, []), UpperOf(keys, i, None))
  }

  lemma {:induction false} NoItemPages(items: seq<Item>, p: PageId)
    requires forall j | 0 <= j < |items| :: items[j].pages == []
    ensures ItemCopies(items, p) == 0
  {
    if items != [] { NoItemPages(items[..|items| - 1], p); }
  }

  lemma LeafOccurs(leaves: seq<seq<Item>>, i: nat, p: PageId)
    requires i < |leaves| && AllInline(leaves)
    ensures Occurs(LeafAt(3 + i, leaves[i]), p) == if p == 3 + i then 1 else 0
  {
    NoItemPages(leaves[i], p);
  }

  lemma {:induction false} KidsOccurUpTo(leaves: seq<seq<Item>>, n: nat, p: PageId)
    requires n <= |leaves| && AllInline(leaves)
    ensures KidsOccur(KidsOf(leaves)[..n], p) == if 3 <= p < 3 + n then 1 else 0
  {
    var kids := KidsOf(leaves);
    if n > 0 {
      KidsOccurUpTo(leaves, n - 1, p);
      assert kids[..n] == kids[..n - 1] + [kids[n - 1]];
      KidsOccurPush(kids[..n - 1], kids[n - 1], p);
      LeafOccurs(leaves, n - 1, p);
    }
  }

  lemma GroveOccurs(keys: seq<Bytes>, leaves: seq<seq<Item>>, p: PageId)
    requires AllInline(leaves)
    ensures Occurs(Grove(keys, leaves), p) == if 2 <= p < 3 + |leaves| then 1 else 0
  {
    KidsOccurUpTo(leaves, |leaves|, p);
    assert KidsOf(leaves)[..|leaves|] == KidsOf(leaves);
  }

  lemma GroveIsWhole(keys: seq<Bytes>, leaves: seq<seq<Item>>)
    requires AllInline(leaves)
    ensures Whole(Planted(keys, leaves), 2)
  {
    var v := Planted(keys, leaves);
    forall id | id in v.tree ensures Refs(v.tree[id]) <= v.tree.Keys {
      if id > 2 {
        var es := StoredAll(leaves[id - 3]);
        forall i | 0 <= i < |es| ensures es[i].Inline? { assert leaves[id - 3][i].pages == []; }
      }
    }
    assert PagesOf([]) == [];
    assert ListAt(map[], [], []);
  }

  lemma GroveWeight(keys: seq<Bytes>, leaves: seq<seq<Item>>, p: PageId)
    requires AllInline(leaves)
    ensures Weight(Subtrees(ForestOf(Some(Grove(keys, leaves)))), p) == Has(Planted(keys, leaves).tree.Keys, p)
  {
    hide Occurs;
    hide KidsOccur;
    hide Grove;
    hide AllInline;
    KidsOccurOne(Grove(keys, leaves), p);
    GroveOccurs(keys, leaves, p);
  }

  lemma GrovePreserved(keys: seq<Bytes>, leaves: seq<seq<Item>>)
    requires Growable(keys, leaves)
    ensures Preserves(Planted(keys, leaves), Some(Grove(keys, leaves)), 1)
  {
    hide Ordered;
    hide Full;
    hide Spells;
    hide Weight;
    hide KeysOk;
    hide ItemsOk;
    hide LeafBytes;
    hide BranchBytes;
    hide AllInline;
    GroveOrdered(keys, leaves);
    GroveFull(keys, leaves);
    GroveSpelled(keys, leaves);
    forall p: PageId ensures Weight(Subtrees(ForestOf(Some(Grove(keys, leaves)))), p) == Has(Planted(keys, leaves).tree.Keys, p) {
      GroveWeight(keys, leaves, p);
    }
  }

  lemma GroveOrdered(keys: seq<Bytes>, leaves: seq<seq<Item>>)
    requires Growable(keys, leaves)
    ensures Ordered(Grove(keys, leaves), 1, [], None)
  {
    hide ItemsOk;
    hide KeysOk;
    hide LowerOf;
    hide UpperOf;
    var kids := KidsOf(leaves);
    forall i: nat | i < |kids| ensures Ordered(kids[i], 0, LowerOf(keys, i, []), UpperOf(keys, i, None)) {
      assert kids[i] == LeafAt(3 + i, leaves[i]);
    }
  }

  lemma GroveFull(keys: seq<Bytes>, leaves: seq<seq<Item>>)
    requires Growable(keys, leaves)
    ensures Full(Grove(keys, leaves))
  {
    hide LeafBytes;
    hide BranchBytes;
    hide ItemsOk;
    var kids := KidsOf(leaves);
    forall k | k in kids ensures Full(k) {
      var i: nat :| i < |kids| && kids[i] == k;
      assert LeafBytes(StoredAll(leaves[i])) <= CAPACITY && leaves[i] != [];
    }
  }

  lemma GroveSpelled(keys: seq<Bytes>, leaves: seq<seq<Item>>)
    requires AllInline(leaves)
    ensures Spells(PagesFor(keys, leaves), Grove(keys, leaves))
  {
    var pages, kids := PagesFor(keys, leaves), KidsOf(leaves);
    forall k | k in kids ensures Spells(pages, k) {
      var i: nat :| i < |kids| && kids[i] == k;
      assert pages[3 + i] == Leaf(StoredAll(leaves[i]));
      forall x | x in k.items ensures ChainHolds(pages, x.pages, x.value, 0) {
        var j: nat :| j < |leaves[i]| && leaves[i][j] == x;
      }
    }
  }

  /** The file after that commit. */
  function ImageOf(v: Version): map<PageId, Cell> {
    map id | id in v.tree.Keys + {0, 1} :: if id in v.tree then PageCell(v.tree[id]) else MetaCell(v.meta)
  }

  lemma ImageOpens(keys: seq<Bytes>, leaves: seq<seq<Item>>)
    ensures
      var v := Planted(keys, leaves);
      var image := ImageOf(v);
      LoadMeta(image).Some? && LoadMeta(image).value.meta == v.meta && Held(image, v) && NoPageInSlots(image)
  {
    var v := Planted(keys, leaves);
    var image := ImageOf(v);
    assert image[0] == MetaCell(v.meta) && image[1] == MetaCell(v.meta);
  }

  // ---- where a delete has nowhere to put a longer separator ----

  /** A key of a given length that starts with two given bytes. */
  function LongKey(a: byte, b: byte, length: nat): (k: Bytes)
    requires length >= 2
    ensures |k| == length && k[0] == a && k[1] == b
  {
    [a, b] + seq(length - 2, _ => 0)
  }

  function Zeros(n: nat): (r: Bytes)
    ensures |r| == n
  {
    seq(n, _ => 0)
  }

  /** A branch exactly full, its first separator one byte long. */
  function FullKeys(): (r: seq<Bytes>)
    ensures |r| == 9 && r[0] == [2] && r[1] == LongKey(3, 0, 512) && forall i | 0 <= i < 9 :: |r[i]| >= 1 && r[i][0] == i + 2
  {
    [[2], LongKey(3, 0, 512), LongKey(4, 0, 512), LongKey(5, 0, 512), LongKey(6, 0, 512),
     LongKey(7, 0, 512), LongKey(8, 0, 512), LongKey(9, 0, 512), LongKey(10, 0, 345)]
  }

  /** The first leaf, its neighbour, and one entry in every other. */
  function First(): seq<Item> { [Item([1], Zeros(900), []), Item([1, 0], [], [])] }

  function Second(): seq<Item> { [Item(LongKey(2, 1, 512), Zeros(1480), []), Item(LongKey(2, 2, 512), Zeros(1480), [])] }

  function Leaves(): (r: seq<seq<Item>>)
    ensures |r| == 10 && r[0] == First() && r[1] == Second()
    ensures forall i | 2 <= i < 10 :: r[i] == [Item(FullKeys()[i - 1], [], [])]
  {
    [First(), Second()] + seq(8, i requires 0 <= i < 8 => [Item(FullKeys()[i + 1], [], [])])
  }

  lemma FullKeysTotal()
    ensures BranchBytes(FullKeys()) == CAPACITY && BranchBytes(FullKeys()[0 := LongKey(2, 2, 512)]) > CAPACITY
    ensures forall k | k in FullKeys() :: |k| <= 512
  {
    var keys, longer := FullKeys(), FullKeys()[0 := LongKey(2, 2, 512)];
    hide KeyTotal;
    KeyTotalEmpty();
    assert keys[..0] == [] && longer[..0] == [] && keys[..9] == keys && longer[..9] == longer;
    var i := 0;
    while i < 9
      invariant 0 <= i <= 9
      invariant KeyTotal(keys[..i]) == (if i == 0 then 0 else if i <= 8 then 13 + (i - 1) * 524 else 13 + 7 * 524 + 357)
      invariant KeyTotal(longer[..i]) == (if i <= 8 then i * 524 else 8 * 524 + 357)
    {
      KeyTotalPush(keys, i);
      KeyTotalPush(longer, i);
      i := i + 1;
    }
  }

  lemma FullKeysSorted()
    ensures KeysOk(FullKeys(), [], None)
  {
    FullKeysTotal();
    hide FullKeys;
    hide BranchBytes;
    var keys := FullKeys();
    forall i, j | 0 <= i < j < |keys| ensures Less(keys[i], keys[j]) {
      assert keys[i][0] == i + 2 && keys[j][0] == j + 2;
    }
  }

  lemma LeafTotals()
    ensures LeafBytes(StoredAll(First())) <= CAPACITY && LeafBytes(StoredAll(Second())) <= CAPACITY
    ensures LeafBytes(StoredAll([First()[0]])) < UNDERFULL
  {
    var a, b := StoredAll(First()), StoredAll(Second());
    hide Total;
    TotalEmpty();
    assert a[..0] == [] && a[..2] == a && b[..0] == [] && b[..2] == b;
    TotalPush(a, 0);
    TotalPush(a, 1);
    TotalPush(b, 0);
    TotalPush(b, 1);
    assert StoredAll([First()[0]]) == [a[0]];
    TotalOne(a[0]);
  }

  lemma LoneTotal(k: Bytes)
    requires 1 <= |k| <= 512
    ensures LeafBytes(StoredAll([Item(k, [], [])])) <= CAPACITY && ItemOk(Item(k, [], []))
  {
    assert StoredAll([Item(k, [], [])]) == [Inline(k, [])];
    TotalOne(Inline(k, []));
  }

  lemma PairOk()
    ensures ItemsOk(First(), [], Some([2])) && ItemsOk(Second(), [2], Some(LongKey(3, 0, 512)))
  {
    var a, b := LongKey(2, 1, 512), LongKey(2, 2, 512);
    assert Less([1], [1, 0]) && Less([1], [2]) && Less([1, 0], [2]);
    assert Less(a, LongKey(3, 0, 512)) && Less(b, LongKey(3, 0, 512));
    assert a[1..][0] == 1 && b[1..][0] == 2;
    assert Less(a, b) && !Less(a, [2]) && !Less(b, [2]);
  }

  lemma LeavesGrow()
    ensures Growable(FullKeys(), Leaves())
  {
    FullKeysTotal();
    FullKeysSorted();
    LeafTotals();
    PairOk();
    hide BranchBytes;
    hide LeafBytes;
    hide FullKeys;
    var keys, leaves: seq<seq<Item>> := FullKeys(), Leaves();
    forall i: nat | i < |leaves|
      ensures leaves[i] != [] && LeafBytes(StoredAll(leaves[i])) <= CAPACITY && ItemsOk(leaves[i], LowerOf(keys, i, []), UpperOf(keys, i, None))
      ensures forall j: nat | j < |leaves[i]| :: leaves[i][j].pages == []
    {
      if i >= 2 {
        var k := keys[i - 1];
        assert k in keys;
        LoneTotal(k);
        Irreflexive(k);
        assert i < 9 ==> Less(k, keys[i]);
      }
    }
  }

  /** Where the poured pair is cut again. */
  lemma PouredCut()
    ensures
      var items := [First()[0]] + Second();
      LeafBytes(StoredAll(items)) > CAPACITY && BestLeafCut(StoredAll(items), 2) && items[2].key == LongKey(2, 2, 512)
  {
    var items := [First()[0]] + Second();
    var es := StoredAll(items);
    hide Total;
    TotalEmpty();
    assert es[..0] == [] && es[..3] == es;
    TotalPush(es, 0);
    TotalPush(es, 1);
    TotalPush(es, 2);
    TotalCut(es, 1);
    TotalCut(es, 2);
    assert LeafFitsAt(es, 1) && LeafFitsAt(es, 2);
    assert LeafSkew(es, 2) < LeafSkew(es, 1);
  }

  /** The first leaf after the removal is poured together with the second, and what comes up is long. */
  lemma GrovePours()
    ensures
      var keys, kids := FullKeys(), BareAll(KidsOf(Leaves()))[0 := LeafAt(0, [First()[0]])];
      Mended(keys, kids, 0).keys == keys[0 := LongKey(2, 2, 512)]
  {
    LeafTotals();
    PouredCut();
    hide FullKeys;
    hide LeafBytes;
    hide BestLeafCut;
    var keys, kids := FullKeys(), BareAll(KidsOf(Leaves()))[0 := LeafAt(0, [First()[0]])];
    assert kids[1] == LeafAt(0, Second());
    LeafCutIs(StoredAll([First()[0]] + Second()), 2);
    hide LeafCutOf;
    assert Mixed(kids[0], keys[0], kids[1]) == MixLeaves([First()[0]] + Second());
  }

  lemma GroveBursts()
    ensures Bursts(Grove(FullKeys(), Leaves()), [1, 0])
  {
    var keys, leaves := FullKeys(), Leaves();
    var t := Grove(keys, leaves);
    assert Finds(First(), [1, 0], 1, true) by { assert Less([1], [1, 0]); Irreflexive([1, 0]); }
    PrunedLeaf(3, First(), [1, 0], 1, true);
    assert First()[..1] + First()[2..] == [First()[0]];
    assert Routes(keys, [1, 0], 0);
    FullKeysTotal();
    GrovePours();
    hide FullKeys;
    hide Less;
    hide BranchBytes;
    hide Finds;
    hide Routes;
    hide Mended;
    PrunedBranch(t, [1, 0], 0);
    hide Pruned;
    hide Bare;
    assert t.kids[0] == LeafAt(3, First());
  }

  /**
   ErrCannotSplit out of Delete: a leaf left underfull is poured together with its
   neighbour and cut again, the new separator is 512 bytes where the old one was
   one, and the branch above is exactly full. `remove` writes that branch without
   trying to split it. BTree.Delete says exactly when this happens.
   */
  method DeleteCanOverflow() returns (out: Outcome, removed: bool)
    ensures out.CannotSplit? && !removed
  {
    hide Growable;
    hide Whole;
    hide Preserves;
    hide Held;
    hide LoadMeta;
    hide NoPageInSlots;
    hide Pager.Valid;
    hide FullKeys;
    hide Leaves;
    hide Bursts;
    hide Grove;
    hide PagesFor;
    LeavesGrow();
    GroveBursts();
    ghost var keys, leaves := FullKeys(), Leaves();
    ghost var v := Planted(keys, leaves);
    GroveIsWhole(keys, leaves);
    GrovePreserved(keys, leaves);
    ImageOpens(keys, leaves);
    var p := new Pager.Open(ImageOf(Planted(FullKeys(), Leaves())), 0, v);
    var t := new BTree.New(p, Some(Grove(keys, leaves)), 1);
    out, removed := t.Delete([1, 0], 0);
  }

  // ---- where a delete leaves a separator that is no longer there ----

  /** Half a leaf on the right, so that one entry less still leaves more than a quarter. */
  function TwoLeaves(): (r: seq<seq<Item>>)
    ensures |r| == 2 && r[0] == [Item([1], [], [])] && r[1] == [Item([2], Zeros(1200), []), Item([3], Zeros(1200), [])]
  {
    [[Item([1], [], [])], [Item([2], Zeros(1200), []), Item([3], Zeros(1200), [])]]
  }

  lemma TwoLeavesTotals()
    ensures LeafBytes(StoredAll(TwoLeaves()[0])) <= CAPACITY && LeafBytes(StoredAll(TwoLeaves()[1])) <= CAPACITY
    ensures LeafBytes(StoredAll([TwoLeaves()[1][1]])) >= UNDERFULL && BranchBytes([[2]]) <= CAPACITY
  {
    var a, b, c := StoredAll(TwoLeaves()[0]), StoredAll(TwoLeaves()[1]), StoredAll([TwoLeaves()[1][1]]);
    hide Total;
    TotalEmpty();
    TotalOne(a[0]);
    TotalOne(c[0]);
    assert a == [a[0]] && c == [c[0]];
    assert b[..0] == [] && b[..2] == b;
    TotalPush(b, 0);
    TotalPush(b, 1);
    assert [[2 as byte]][..0] == [] && [[2 as byte]][..1] == [[2]];
    KeyTotalPush([[2]], 0);
  }

  lemma TwoLeavesGrows()
    ensures Growable([[2]], TwoLeaves())
  {
    TwoLeavesTotals();
    hide LeafBytes;
    hide BranchBytes;
    var leaves: seq<seq<Item>> := TwoLeaves();
    assert Less([1], [2]) && Less([2], [3]) && !Less([2], [2]) && !Less([3], [2]);
    assert ItemsOk(leaves[0], [], Some([2])) && ItemsOk(leaves[1], [2], None);
    forall i, j | 0 <= i < |leaves| && 0 <= j < |leaves[i]| ensures leaves[i][j].pages == [] {
    }
    forall i: nat | i < |leaves|
      ensures leaves[i] != [] && LeafBytes(StoredAll(leaves[i])) <= CAPACITY && ItemsOk(leaves[i], LowerOf([[2]], i, []), UpperOf([[2]], i, None))
    {
    }
  }

  /** Its separator is the smallest key on its right. */
  lemma TwoLeavesIsTight()
    ensures var t := Grove([[2]], TwoLeaves()); Tight(t) && Separator([2], t)
  {
    var t := Grove([[2]], TwoLeaves());
    var es := Entries(t.kids[1]);
    assert t.kids[1].LeafAt? && es == PairsOf(TwoLeaves()[1]);
    assert es[0] in es && es[0].key == [2];
    assert !Less([2], [2]) && !Less([3], [2]);
    assert forall e | e in es :: e == es[0] || e == es[1];
    assert Smallest([2], t.kids[1]);
    assert t.kids[0].LeafAt?;
    assert Tight(t.kids[0]) && Tight(t.kids[1]);
    assert t.keys[0] == [2];
  }

  /** What is left of the leaf is not poured with its neighbour. */
  lemma TwoLeavesStays()
    ensures !Refreshes(Grove([[2]], TwoLeaves()), [2])
  {
    var t := Grove([[2]], TwoLeaves());
    var items := TwoLeaves()[1];
    assert Routes([[2]], [2], 1) by { Irreflexive([2]); }
    WayIs([[2]], [2], 1);
    assert t.kids[1] == LeafAt(4, items);
    assert Less([2], [3]) && !Less([2], [2]) && !Less([3], [2]);
    assert Finds(items, [2], 0, true);
    WithoutIs(items, [2], 0, true);
    assert items[..0] + items[1..] == [items[1]];
    TwoLeavesTotals();
    hide LeafBytes;
    hide Without;
    hide Way;
  }

  lemma TwoLeavesUniform()
    ensures Uniform(Grove([[2]], TwoLeaves()), 1)
  {
    var t := Grove([[2]], TwoLeaves());
    forall k | k in t.kids ensures Uniform(k, 1) {
      var i: nat :| i < |t.kids| && t.kids[i] == k;
      assert k == LeafAt(3 + i, TwoLeaves()[i]);
    }
  }

  lemma TwoLeavesKeys()
    ensures var es := Entries(Grove([[2]], TwoLeaves())); HasKey(es, [2]) && Removed(es, [2]) != []
  {
    var t := Grove([[2]], TwoLeaves());
    var es := Entries(t);
    var a, b := PairsOf(TwoLeaves()[0]), PairsOf(TwoLeaves()[1]);
    KidsEntriesAt(t.kids, 0);
    KidsEntriesAt(t.kids, 1);
    assert a[0] in es && b[0] in es;
    var m := AsMap(es);
    PutIsUpdate(es, [2], []);
    AsMapKeys(es, [1]);
    assert a[0].key == [1] && b[0].key == [2];
    assert [1] in AsMap(Removed(es, [2]));
  }

  /**
   A delete of a separator whose leaf stays more than a quarter full: the separator
   stays, and is no longer the smallest key on its right, nor a key at all.
   */
  method DeleteLeavesStale() returns (t: BTree, out: Outcome, removed: bool)
    ensures Tight(Grove([[2]], TwoLeaves())) && out.Done? && removed
    ensures t.Valid() && t.Contents() == Removed(Entries(Grove([[2]], TwoLeaves())), [2])
    ensures t.tree.Some? && !Tight(t.tree.value)
  {
    hide Growable;
    hide Whole;
    hide Preserves;
    hide Held;
    hide LoadMeta;
    hide NoPageInSlots;
    hide Pager.Valid;
    hide TwoLeaves;
    hide Bursts;
    hide Grove;
    hide PagesFor;
    hide Tight;
    hide Separator;
    hide Refreshes;
    hide Removed;
    hide Entries;
    hide Uniform;
    TwoLeavesGrows();
    TwoLeavesIsTight();
    TwoLeavesStays();
    TwoLeavesUniform();
    TwoLeavesKeys();
    ghost var v := Planted([[2]], TwoLeaves());
    GroveIsWhole([[2]], TwoLeaves());
    GrovePreserved([[2]], TwoLeaves());
    ImageOpens([[2]], TwoLeaves());
    var p := new Pager.Open(ImageOf(Planted([[2]], TwoLeaves())), 0, v);
    t := new BTree.New(p, Some(Grove([[2]], TwoLeaves())), 1);
    out, removed := t.Delete([2], 1);
  }

  // ---- where a put has nowhere to cut a leaf ----

  /** The entries put, in this order: two that fill a leaf exactly, and the largest there is, which goes between them. */
  function LowPair(): Pair { Pair(LongKey(1, 0, 512), Zeros(1503)) }

  function HighPair(): Pair { Pair(LongKey(3, 0, 512), Zeros(1503)) }

  function MiddlePair(): Pair { Pair(LongKey(2, 0, 512), Zeros(1504)) }

  lemma PairsApart()
    ensures Less(LowPair().key, MiddlePair().key) && Less(MiddlePair().key, HighPair().key) && Less(LowPair().key, HighPair().key)
  {
  }

  /** After the first two puts the entries are these two, and fill one leaf. */
  lemma TwoPut()
    ensures Updated([], LowPair().key, LowPair().value) == [LowPair()]
    ensures Updated([LowPair()], HighPair().key, HighPair().value) == [LowPair(), HighPair()]
    ensures OneLeaf([LowPair()]) && OneLeaf([LowPair(), HighPair()])
  {
    PairsApart();
    PairSizes();
    hide Less;
    hide LowPair;
    hide HighPair;
    OneThenTwo(LowPair(), HighPair());
    TwoTotal(LowPair(), HighPair());
  }

  lemma OneThenTwo(a: Pair, b: Pair)
    requires Less(a.key, b.key)
    ensures Updated([], a.key, a.value) == [a] && Updated([a], b.key, b.value) == [a, b]
  {
    hide Less;
    hide Updated;
    PutNew([], 0, a.key, a.value);
    assert [a][..1] == [a] && [a][1..] == [];
    PutNew([a], 1, b.key, b.value);
    assert [Pair(a.key, a.value)] == [a] && [a] + [Pair(b.key, b.value)] == [a, b];
  }

  lemma TwoTotal(a: Pair, b: Pair)
    requires PairCost(a) + PairCost(b) + LEAF_HEADER <= CAPACITY
    ensures OneLeaf([a]) && OneLeaf([a, b])
  {
    assert [a][..0] == [] && [a, b][..1] == [a];
    assert PairsTotal([a]) == PairCost(a);
    assert PairsTotal([a, b]) == PairCost(a) + PairCost(b);
  }

  lemma MiddleJams(id: PageId, items: seq<Item>)
    requires PairsOf(items) == [LowPair(), HighPair()] && ItemsOk(items, [], None)
    ensures Jams(LeafAt(id, items), Item(MiddlePair().key, MiddlePair().value, []))
  {
    PairsApart();
    var a, c, b := items[0], items[1], Item(MiddlePair().key, MiddlePair().value, []);
    assert PairsOf(items)[0] == LowPair() && PairsOf(items)[1] == HighPair();
    assert a.pages == [] && c.pages == [] by { assert ItemOk(a) && ItemOk(c); }
    assert !Less(c.key, b.key) by { Asymmetric(b.key, c.key); }
    assert c.key != b.key by { Irreflexive(b.key); }
    assert Finds(items, b.key, 1, false) by { hide Less; hide LongKey; hide Zeros; }
    assert PutItem(items, 1, false, b) == [a, b, c];
    var after := StoredAll([a, b, c]);
    assert after == [StoredOf(a), StoredOf(b), StoredOf(c)];
    assert after[..1] == [StoredOf(a)] && after[2..] == [StoredOf(c)];
    hide Less;
    hide Finds;
    hide Total;
    TotalOne(StoredOf(a));
    TotalOne(StoredOf(c));
    TotalPush(after, 1);
    TotalCut(after, 2);
    assert LeafJams(items, 1, false, b);
  }

  /** ErrCannotSplit out of Put: a new file and three puts. BTree.Put says exactly when this happens. */
  method PutsComeToAWedge() returns (t: BTree, first: Outcome, second: Outcome, third: Outcome)
    ensures first.Done? && second.Done? && third.CannotSplit?
  {
    hide Pager.Valid;
    hide Pager.Recoverable;
    hide BTree.Valid;
    hide BTree.Ready;
    hide Preserves;
    hide Quiet;
    hide Updated;
    hide OneLeaf;
    hide Jams;
    hide Tight;
    hide LowPair;
    hide HighPair;
    hide MiddlePair;
    TwoPut();
    PairSizes();
    NothingPlanted();
    var p := new Pager.Create(0);
    FreshPager(p);
    t := new BTree.New(p, None, 0);
    first := t.Put(LowPair().key, LowPair().value, 0);
    NotLargest(t.tree);
    second := t.Put(HighPair().key, HighPair().value, 0);
    ItemsInOrder(t);
    MiddleJams(t.tree.value.id, t.tree.value.items);
    third := t.Put(MiddlePair().key, MiddlePair().value, 0);
  }

  lemma NothingPlanted()
    ensures Preserves(FRESH, None, 0)
  {
  }

  lemma PairSizes()
    ensures LegalKey(LowPair().key) && LegalKey(HighPair().key) && LegalKey(MiddlePair().key)
    ensures |LowPair().value| == |HighPair().value| == 1503 && |MiddlePair().value| == 1504 == MAX_INLINE
    ensures |LowPair().key| == |HighPair().key| == 512
  {
  }

  /** Only the largest entry jams, and this is one byte less. */
  lemma NotLargest(tree: Option<Tree>)
    ensures tree.Some? ==> !Jams(tree.value, Item(HighPair().key, HighPair().value, []))
  {
    PairSizes();
    var i := Item(HighPair().key, HighPair().value, []);
    if tree.Some? && Jams(tree.value, i) { OnlyLargestJams(tree.value, i); }
  }

  lemma ItemsInOrder(t: BTree)
    requires t.Valid() && t.tree.Some? && t.tree.value.LeafAt?
    ensures ItemsOk(t.tree.value.items, [], None) && t.Contents() == PairsOf(t.tree.value.items)
  {
    hide BTree.Ready;
    hide Exact;
    hide Written;
    hide ItemsOk;
  }
}
