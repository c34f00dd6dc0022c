/** The steps a rewrite is made of, each as what it does to the pages that are held. */
module Surgery {
  import opened Bytes
  import opened Options
  import opened PageFile
  import opened FreeLists
  import opened Nodes
  import opened Sorted
  import opened Seqs
  import opened Trees
  import opened Pagers
  import opened Ledgers
  import opened Rewrites

  /** The page a rewritten node gives up: none when it is a new node. */
  ghost function AtMostOne(at: PageId): seq<PageId> { if at == 0 then [] else [at] }

  lemma OwnedIsCovered(w: World, at: PageId)
    requires at == 0 || at in w.owned
    ensures Good(w, Loose(AtMostOne(at)))
  {
    forall p: PageId ensures Weight(Loose(AtMostOne(at)), p) <= Has(w.owned, p) { CopiesOne(at, p); }
  }

  /** Giving one page up and taking one page, with nothing written. */
  lemma PlacedTrades(w0: World, at: PageId, w1: World, id: PageId)
    requires at == 0 || at in w0.owned
    requires w1 == w0.(owned := w1.owned)
    requires if at != 0 && id == at then w1.owned == w0.owned
             else id !in (if at == 0 then w0.owned else w0.owned - {at}) && w1.owned == (if at == 0 then w0.owned else w0.owned - {at}) + {id}
    ensures Steps(w0, Loose(AtMostOne(at)), w1, Loose([id]))
  {
    OwnedIsCovered(w0, at);
    forall p: PageId
      ensures Weight(Loose([id]), p) + Has(w0.owned, p) == Weight(Loose(AtMostOne(at)), p) + Has(w1.owned, p)
      ensures Weight(Loose([id]), p) <= Has(w1.owned, p)
    {
      CopiesOne(at, p);
      CopiesOne(id, p);
    }
    hide Weight;
    QuietStart(w0);
  }

  /** Writing a page that is held: it is now a page with known contents. */
  lemma WriteTrades(w0: World, id: PageId, page: Page, w1: World)
    requires id in w0.owned && id != 0 && w1.owned == w0.owned && w1.pages == w0.pages[id := page] && Quiet(w0, w1)
    ensures Steps(w0, Loose([id]), w1, Node(id, page))
  {
    hide Quiet;
    forall p: PageId
      ensures Weight(Loose([id]), p) == Weight(Node(id, page), p)
      ensures Weight(Loose([id]), p) <= Has(w1.owned, p)
      ensures p != id <==> Weight(Loose([id]), p) == 0
    {
      CopiesOne(id, p);
    }
    hide Weight;
  }

  /** Freeing a page that is held. */
  lemma FreeTrades(w0: World, id: PageId, w1: World)
    requires id in w0.owned && w1 == w0.(owned := w0.owned - {id})
    ensures Steps(w0, Loose([id]), w1, NOTHING)
  {
    QuietStart(w0);
    forall p: PageId
      ensures Weight(NOTHING, p) + Has(w0.owned, p) == Weight(Loose([id]), p) + Has(w1.owned, p)
      ensures Weight(Loose([id]), p) <= Has(w0.owned, p) && Weight(NOTHING, p) <= Has(w1.owned, p)
    {
      CopiesOne(id, p);
    }
    hide Weight;
  }

  lemma CoveredIsOwned(w: World, ids: seq<PageId>, id: PageId)
    requires Covers(w, Loose(ids)) && id in ids
    ensures id in w.owned
  {
    CopiesIn(ids, id);
    assert Weight(Loose(ids), id) <= Has(w.owned, id);
  }

  lemma ChainBegins(w: World, value: Bytes, first: nat)
    ensures Steps(w, NOTHING, w, Links([], value, first))
  {
    OwnedIsCovered(w, 0);
    hide Yields;
    hide Good;
    hide Steps;
    StepsNothing(w, NOTHING);
    EmptyClaims(value, first);
    YieldsItself(NOTHING);
    StepsYield(w, NOTHING, w, NOTHING, NOTHING, Links([], value, first));
  }

  /** One more page in front of a chain. */
  lemma ChainGoesOn(w0: World, w: World, w1: World, ids: seq<PageId>, value: Bytes, first: nat, id: PageId)
    requires Offset(first) <= |value| && Steps(w0, NOTHING, w, Links(ids, value, first + 1))
    requires Steps(w, Loose(AtMostOne(0)), w1, Node(id, Blob(HeadOf(ids), ChunkOf(value, first))))
    ensures Steps(w0, NOTHING, w1, Links([id] + ids, value, first))
  {
    var x, n, d := Links(ids, value, first + 1), Node(id, Blob(HeadOf(ids), ChunkOf(value, first))), Links([id] + ids, value, first);
    StepEnds(w0, NOTHING, w, x);
    hide Yields;
    hide Steps;
    DropsNothing(x);
    ChainGrows(id, ids, value, first);
    Carry(w, x, NOTHING, w1, n, x, d);
    StepsChain(w0, NOTHING, w, x, w1, d);
  }

  lemma StepEnds(w0: World, a: Claim, w1: World, b: Claim)
    requires Steps(w0, a, w1, b)
    ensures Good(w0, a) && Good(w1, b) && Quiet(w0, w1)
  {
  }

  lemma ReleaseBegins(w: World, i: Item)
    requires Good(w, Values([i])) && ItemOk(i)
    ensures Steps(w, Values([i]), w, Links(i.pages[0..], i.value, 0))
    ensures i.pages != [] ==> i.pages[0] >= 2
  {
    assert i.pages != [] ==> i.pages[0] in i.pages;
    hide ItemOk;
    hide Yields;
    hide Good;
    hide Steps;
    assert i.pages[0..] == i.pages;
    StepsNothing(w, Values([i]));
    ChainClaim(i);
    YieldsItself(Values([i]));
    StepsYield(w, Values([i]), w, Values([i]), Values([i]), Links(i.pages, i.value, 0));
  }

  /** The page a release is at: it can be read, it is held, and it says where the rest continues. */
  lemma LinkReads(w0: World, w: World, i: Item, k: nat)
    requires k < |i.pages| && Steps(w0, Values([i]), w, Links(i.pages[k..], i.value, k)) && ItemOk(i)
    ensures
      var id := i.pages[k];
      && id in w.owned && id in w.pages && w.pages[id].Blob?
      && w.pages[id].next == (if k + 1 < |i.pages| then i.pages[k + 1] else 0)
      && (w.pages[id].next == 0 <==> k + 1 == |i.pages|)
  {
    assert k + 1 < |i.pages| ==> i.pages[k + 1] in i.pages;
    hide ItemOk;
    var ids := i.pages[k..];
    assert LinkHolds(w.pages, ids, i.value, k, 0) && ids[0] == i.pages[k] && ids[0] in ids;
    assert k + 1 < |i.pages| ==> ids[1] == i.pages[k + 1];
    CopiesIn(ids, ids[0]);
    assert Weight(Links(ids, i.value, k), ids[0]) <= Has(w.owned, ids[0]);
    hide Copies;
  }

  lemma ReleaseGoesOn(w0: World, w: World, w1: World, i: Item, k: nat)
    requires k < |i.pages| && Steps(w0, Values([i]), w, Links(i.pages[k..], i.value, k))
    requires i.pages[k] in w.owned && w1 == w.(owned := w.owned - {i.pages[k]})
    ensures Steps(w0, Values([i]), w1, Links(i.pages[k + 1..], i.value, k + 1))
  {
    var ids, x := i.pages[k..], Links(i.pages[k + 1..], i.value, k + 1);
    StepEnds(w0, Values([i]), w, Links(ids, i.value, k));
    hide Yields;
    hide Steps;
    hide Good;
    ChainShrinks(ids, i.value, k);
    assert ids[1..] == i.pages[k + 1..] && ids[0] == i.pages[k];
    FreeTrades(w, ids[0], w1);
    DropsNothing(x);
    Carry(w, Links(ids, i.value, k), Loose([ids[0]]), w1, NOTHING, x, x);
    StepsChain(w0, Values([i]), w, Links(ids, i.value, k), w1, x);
  }

  lemma ReleaseEnds(w0: World, w: World, i: Item, k: nat)
    requires k == |i.pages| && Steps(w0, Values([i]), w, Links(i.pages[k..], i.value, k))
    ensures Steps(w0, Values([i]), w, Values([]))
  {
    StepEnds(w0, Values([i]), w, Links(i.pages[k..], i.value, k));
    hide Yields;
    hide Steps;
    hide Good;
    assert i.pages[k..] == [];
    EmptyClaims(i.value, k);
    YieldsItself(Values([i]));
    StepsYield(w0, Values([i]), w, Links([], i.value, k), Values([i]), Values([]));
  }

  lemma QuietOwned(w0: World, w1: World)
    requires w1 == w0.(owned := w1.owned)
    ensures Quiet(w0, w1)
  {
    QuietStart(w0);
  }

  // ---- storing a leaf ----

  /** What an insertion makes of a subtree: one in its bounds, or two with a separator that divides the bounds. */
  ghost predicate Grafted(mid: seq<Tree>, left: PageId, sep: Bytes, right: PageId, h: nat, lo: Bytes, hi: Option<Bytes>) {
    && |mid| in {1, 2} && left == mid[0].id && right == (if |mid| == 1 then 0 else mid[1].id) && (right == 0 <==> |mid| == 1)
    && (forall t | t in mid :: t.id != 0 && Full(t))
    && (|mid| == 1 ==> Ordered(mid[0], h, lo, hi))
    && (|mid| == 2 ==> Separates(sep, lo, hi) && Ordered(mid[0], h, lo, Some(sep)) && Ordered(mid[1], h, sep, hi))
  }

  /** The page is written, the chains stay where they are: a leaf. */
  lemma LeafStays(w0: World, w1: World, id: PageId, id1: PageId, items: seq<Item>)
    requires id != 0 && Good(w0, Both(Loose([id]), Values(items)))
    requires Steps(w0, Loose(AtMostOne(id)), w1, Node(id1, Leaf(StoredAll(items))))
    ensures Steps(w0, Both(Loose([id]), Values(items)), w1, Subtrees([LeafAt(id1, items)]))
  {
    hide Steps;
    hide Good;
    hide Yields;
    YieldsItself(Both(Loose([id]), Values(items)));
    LeafCloses(id1, items);
    Carry(w0, Both(Loose([id]), Values(items)), Loose([id]), w1, Node(id1, Leaf(StoredAll(items))), Values(items), Subtrees([LeafAt(id1, items)]));
  }

  /** Two pages are written: two leaves. */
  lemma LeafParts(w0: World, w1: World, w2: World, id: PageId, id1: PageId, id2: PageId, items: seq<Item>, cut: nat)
    requires cut <= |items| && id != 0 && Good(w0, Both(Loose([id]), Values(items)))
    requires Steps(w0, Loose(AtMostOne(id)), w1, Node(id1, Leaf(StoredAll(items[..cut]))))
    requires Steps(w1, Loose(AtMostOne(0)), w2, Node(id2, Leaf(StoredAll(items[cut..]))))
    ensures Steps(w0, Both(Loose([id]), Values(items)), w2, Subtrees([LeafAt(id1, items[..cut]), LeafAt(id2, items[cut..])]))
  {
    var c, x, n1, n2 := Both(Loose([id]), Values(items)), Values(items), Node(id1, Leaf(StoredAll(items[..cut]))), Node(id2, Leaf(StoredAll(items[cut..])));
    StepsBeside(w0, Loose([id]), w1, n1, x);
    StepEnds(w0, c, w1, Both(n1, x));
    hide Steps;
    hide Good;
    hide Yields;
    DropsNothing(Both(n1, x));
    LeafClosesTwo(id1, id2, items, cut);
    var d := Subtrees([LeafAt(id1, items[..cut]), LeafAt(id2, items[cut..])]);
    Carry(w1, Both(n1, x), NOTHING, w2, n2, Both(n1, x), d);
    StepsChain(w0, c, w1, Both(n1, x), w2, d);
  }

  lemma FullLeaf(id: PageId, items: seq<Item>)
    requires items != [] && LeafBytes(StoredAll(items)) <= CAPACITY
    ensures Full(LeafAt(id, items))
  {
  }

  lemma FullBranch(id: PageId, keys: seq<Bytes>, kids: seq<Tree>)
    requires keys != [] && BranchBytes(keys) <= CAPACITY && forall k | k in kids :: Full(k)
    ensures Full(BranchAt(id, keys, kids))
  {
  }

  lemma GraftOne(t: Tree, h: nat, lo: Bytes, hi: Option<Bytes>)
    requires t.id >= 2 && Full(t) && Ordered(t, h, lo, hi)
    ensures Grafted([t], t.id, [], 0, h, lo, hi) && KidsEntries([t]) == Entries(t)
  {
    hide Full;
    hide Ordered;
    KidsEntriesOne(t);
  }

  lemma GraftTwo(l: Tree, sep: Bytes, r: Tree, h: nat, lo: Bytes, hi: Option<Bytes>)
    requires l.id >= 2 && r.id >= 2 && Full(l) && Full(r) && Separates(sep, lo, hi)
    requires Ordered(l, h, lo, Some(sep)) && Ordered(r, h, sep, hi)
    ensures Grafted([l, r], l.id, sep, r.id, h, lo, hi) && KidsEntries([l, r]) == Entries(l) + Entries(r)
  {
    hide Full;
    hide Ordered;
    hide Separates;
    KidsEntriesOne(l);
    KidsEntriesPush([l], r);
    assert [l, r] == [l] + [r];
  }

  lemma LeafGrafts(id1: PageId, items: seq<Item>, lo: Bytes, hi: Option<Bytes>)
    requires ItemsOk(items, lo, hi) && items != [] && LeafBytes(StoredAll(items)) <= CAPACITY && id1 >= 2
    ensures Grafted([LeafAt(id1, items)], id1, [], 0, 0, lo, hi)
    ensures KidsEntries([LeafAt(id1, items)]) == PairsOf(items)
  {
    hide ItemsOk;
    FullLeaf(id1, items);
    GraftOne(LeafAt(id1, items), 0, lo, hi);
    hide Full;
    hide Grafted;
  }

  lemma CutFits(items: seq<Item>, cut: int)
    requires LeafFitsAt(StoredAll(items), cut)
    ensures 0 < cut < |items|
    ensures LeafBytes(StoredAll(items[..cut])) <= CAPACITY && LeafBytes(StoredAll(items[cut..])) <= CAPACITY
    ensures StoredAll(items)[..cut] == StoredAll(items[..cut]) && StoredAll(items)[cut..] == StoredAll(items[cut..])
  {
    StoredSlice(items, 0, cut);
    StoredSlice(items, cut, |items|);
    assert items[cut..] == items[cut..|items|] && StoredAll(items)[cut..] == StoredAll(items)[cut..|items|];
  }

  lemma LeavesGraft(id1: PageId, id2: PageId, items: seq<Item>, lo: Bytes, hi: Option<Bytes>, cut: nat)
    requires ItemsOk(items, lo, hi) && LeafFitsAt(StoredAll(items), cut) && id1 >= 2 && id2 >= 2
    ensures Grafted([LeafAt(id1, items[..cut]), LeafAt(id2, items[cut..])], id1, items[cut].key, id2, 0, lo, hi)
    ensures KidsEntries([LeafAt(id1, items[..cut]), LeafAt(id2, items[cut..])]) == PairsOf(items)
  {
    hide LeafBytes;
    hide ItemsOk;
    hide Full;
    hide Grafted;
    hide KidsEntries;
    hide Separates;
    CutFits(items, cut);
    LeafCut(items, lo, hi, cut);
    FullLeaf(id1, items[..cut]);
    FullLeaf(id2, items[cut..]);
    GraftTwo(LeafAt(id1, items[..cut]), items[cut].key, LeafAt(id2, items[cut..]), 0, lo, hi);
  }

  // ---- storing a branch ----

  lemma BranchStays(w0: World, w1: World, id: PageId, id1: PageId, keys: seq<Bytes>, kids: seq<Tree>)
    requires id != 0 && Good(w0, Both(Loose([id]), Subtrees(kids)))
    requires Steps(w0, Loose(AtMostOne(id)), w1, Node(id1, Branch(keys, RootsOf(kids))))
    ensures Steps(w0, Both(Loose([id]), Subtrees(kids)), w1, Subtrees([BranchAt(id1, keys, kids)]))
  {
    hide Steps;
    hide Good;
    hide Yields;
    YieldsItself(Both(Loose([id]), Subtrees(kids)));
    BranchCloses(id1, keys, kids);
    Carry(w0, Both(Loose([id]), Subtrees(kids)), Loose([id]), w1, Node(id1, Branch(keys, RootsOf(kids))), Subtrees(kids), Subtrees([BranchAt(id1, keys, kids)]));
  }

  lemma BranchParts(w0: World, w1: World, w2: World, id: PageId, id1: PageId, id2: PageId,
                    k1: seq<Bytes>, c1: seq<Tree>, k2: seq<Bytes>, c2: seq<Tree>)
    requires id != 0 && Good(w0, Both(Loose([id]), Subtrees(c1 + c2)))
    requires Steps(w0, Loose(AtMostOne(id)), w1, Node(id1, Branch(k1, RootsOf(c1))))
    requires Steps(w1, Loose(AtMostOne(0)), w2, Node(id2, Branch(k2, RootsOf(c2))))
    ensures Steps(w0, Both(Loose([id]), Subtrees(c1 + c2)), w2, Subtrees([BranchAt(id1, k1, c1), BranchAt(id2, k2, c2)]))
  {
    var x, n1, n2 := Subtrees(c1 + c2), Node(id1, Branch(k1, RootsOf(c1))), Node(id2, Branch(k2, RootsOf(c2)));
    var c, d := Both(Loose([id]), x), Subtrees([BranchAt(id1, k1, c1), BranchAt(id2, k2, c2)]);
    StepsBeside(w0, Loose([id]), w1, n1, x);
    StepEnds(w0, c, w1, Both(n1, x));
    hide Steps;
    hide Good;
    hide Yields;
    DropsNothing(Both(n1, x));
    BranchClosesTwo(id1, id2, k1, c1, k2, c2);
    Carry(w1, Both(n1, x), NOTHING, w2, n2, Both(n1, x), d);
    StepsChain(w0, c, w1, Both(n1, x), w2, d);
  }

  lemma BranchGrafts(id1: PageId, keys: seq<Bytes>, kids: seq<Tree>, h: nat, lo: Bytes, hi: Option<Bytes>)
    requires OrderedKids(keys, kids, h, lo, hi) && keys != [] && BranchBytes(keys) <= CAPACITY && id1 >= 2
    requires forall k | k in kids :: Full(k)
    ensures Grafted([BranchAt(id1, keys, kids)], id1, [], 0, h + 1, lo, hi)
    ensures KidsEntries([BranchAt(id1, keys, kids)]) == KidsEntries(kids)
  {
    hide BranchBytes;
    hide OrderedKids;
    hide Ordered;
    hide Grafted;
    OrderedBranch(id1, keys, kids, h + 1, lo, hi);
    FullBranch(id1, keys, kids);
    hide Full;
    GraftOne(BranchAt(id1, keys, kids), h + 1, lo, hi);
    hide KidsEntries;
  }

  lemma BranchesGraft(id1: PageId, id2: PageId, keys: seq<Bytes>, kids: seq<Tree>, h: nat, lo: Bytes, hi: Option<Bytes>, cut: nat)
    requires OrderedKids(keys, kids, h, lo, hi) && id1 >= 2 && id2 >= 2
    requires BranchFitsAt(keys, cut) && 1 <= cut < |keys| - 1 && |kids| == |keys| + 1
    requires forall k | k in kids :: Full(k)
    ensures
      var l, r := BranchAt(id1, keys[..cut], kids[..cut + 1]), BranchAt(id2, keys[cut + 1..], kids[cut + 1..]);
      && Grafted([l, r], id1, keys[cut], id2, h + 1, lo, hi)
      && KidsEntries([l, r]) == KidsEntries(kids)
  {
    hide BranchBytes;
    hide OrderedKids;
    hide Ordered;
    hide Separates;
    hide Grafted;
    hide Full;
    hide KidsEntries;
    BranchCut(keys, kids, h, lo, hi, cut);
    var k1, c1, k2, c2 := keys[..cut], kids[..cut + 1], keys[cut + 1..], kids[cut + 1..];
    var l, r := BranchAt(id1, k1, c1), BranchAt(id2, k2, c2);
    OrderedBranch(id1, k1, c1, h + 1, lo, Some(keys[cut]));
    OrderedBranch(id2, k2, c2, h + 1, keys[cut], hi);
    FullBranch(id1, k1, c1);
    FullBranch(id2, k2, c2);
    GraftTwo(l, keys[cut], r, h + 1, lo, hi);
    KidsEntriesConcat(c1, c2);
    Cut(kids, cut + 1);
  }

  // ---- putting an entry in ----

  /** A leaf about to take an entry in: the chain it displaces is given back first. */
  lemma LeafTakes(w0: World, w1: World, id: PageId, items: seq<Item>, at: nat, found: bool, i: Item)
    requires at <= |items| && (found ==> at < |items|)
    requires Good(w0, Both(Subtrees([LeafAt(id, items)]), Values([i])))
    requires Steps(w0, Values(Gone(items, at, found)), w1, Values([]))
    ensures Steps(w0, Both(Subtrees([LeafAt(id, items)]), Values([i])), w1, Both(Loose([id]), Values(PutItem(items, at, found, i))))
  {
    hide Steps;
    hide Good;
    hide Yields;
    var x := Both(Loose([id]), Values(PutItem(items, at, found, i)));
    LeafPutOpens(id, items, at, found, i);
    DropsValues(x);
    Carry(w0, Both(Subtrees([LeafAt(id, items)]), Values([i])), Values(Gone(items, at, found)), w1, Values([]), x, x);
  }

  lemma GoneIsGood(w: World, id: PageId, items: seq<Item>, at: nat, found: bool, i: Item)
    requires at <= |items| && (found ==> at < |items|)
    requires Good(w, Both(Subtrees([LeafAt(id, items)]), Values([i])))
    ensures Good(w, Values(Gone(items, at, found)))
  {
    hide Good;
    hide Yields;
    LeafPutOpens(id, items, at, found, i);
    PartGood(w, Both(Subtrees([LeafAt(id, items)]), Values([i])), Values(Gone(items, at, found)),
             Both(Loose([id]), Values(PutItem(items, at, found, i))));
  }

  /** The root page of a subtree that is held can be read. */
  lemma RootReads(w: World, t: Tree)
    requires Good(w, Subtrees([t]))
    ensures t.id != 0 && t.id in w.owned && t.id in w.pages && w.pages[t.id] == RootPage(t)
    ensures t.LeafAt? ==> forall i | i in t.items :: ChainHolds(w.pages, i.pages, i.value, 0)
    ensures t.BranchAt? ==> forall k | k in t.kids :: Spells(w.pages, k)
  {
    assert t in [t] && Spells(w.pages, t);
    KidsOccurOne(t, t.id);
    hide KidsOccur;
    assert Weight(Subtrees([t]), t.id) <= Has(w.owned, t.id);
  }

  /** A branch whose child at `at` is about to take a value in. */
  lemma KidTakes(w: World, id: PageId, keys: seq<Bytes>, kids: seq<Tree>, at: nat, i: Item)
    requires at < |kids| && Good(w, Both(Subtrees([BranchAt(id, keys, kids)]), Values([i])))
    ensures Good(w, Both(Subtrees([kids[at]]), Values([i])))
  {
    hide Good;
    hide Yields;
    Around(kids, at);
    var a, b := kids[..at], kids[at + 1..];
    StretchTakes(id, keys, a, [kids[at]], b, i);
    PartGood(w, Both(Subtrees([BranchAt(id, keys, kids)]), Values([i])), Both(Subtrees([kids[at]]), Values([i])),
             Both(Loose([id]), Both(Subtrees(a), Subtrees(b))));
  }

  /** ... and has: the branch now has the new children on loan from its page. */
  lemma KidTook(w0: World, w1: World, id: PageId, keys: seq<Bytes>, kids: seq<Tree>, at: nat, i: Item, mid: seq<Tree>)
    requires at < |kids| && Good(w0, Both(Subtrees([BranchAt(id, keys, kids)]), Values([i])))
    requires Steps(w0, Both(Subtrees([kids[at]]), Values([i])), w1, Subtrees(mid))
    ensures Steps(w0, Both(Subtrees([BranchAt(id, keys, kids)]), Values([i])), w1, Both(Loose([id]), Subtrees(kids[..at] + mid + kids[at + 1..])))
  {
    hide Good;
    hide Yields;
    hide Steps;
    Around(kids, at);
    var a, b := kids[..at], kids[at + 1..];
    var x := Both(Loose([id]), Both(Subtrees(a), Subtrees(b)));
    StretchTakes(id, keys, a, [kids[at]], b, i);
    StretchCloses(id, a, mid, b);
    Carry(w0, Both(Subtrees([BranchAt(id, keys, kids)]), Values([i])), Both(Subtrees([kids[at]]), Values([i])), w1,
          Subtrees(mid), x, Both(Loose([id]), Subtrees(a + mid + b)));
  }

  /** The keys of a branch one of whose children was replaced by one or two. */
  function KeysWith(keys: seq<Bytes>, at: nat, sep: Bytes, right: PageId): seq<Bytes>
    requires at <= |keys|
  {
    if right == 0 then keys else keys[..at] + [sep] + keys[at..]
  }

  lemma KidGrafted(keys: seq<Bytes>, kids: seq<Tree>, h: nat, lo: Bytes, hi: Option<Bytes>, at: nat,
                   mid: seq<Tree>, left: PageId, sep: Bytes, right: PageId)
    requires at < |kids| && OrderedKids(keys, kids, h, lo, hi) && |kids| == |keys| + 1
    requires Grafted(mid, left, sep, right, h, LowerOf(keys, at, lo), UpperOf(keys, at, hi))
    ensures OrderedKids(KeysWith(keys, at, sep, right), kids[..at] + mid + kids[at + 1..], h, lo, hi)
  {
    hide Full;
    hide OrderedKids;
    hide Ordered;
    hide Separates;
    if |mid| == 1 {
      assert mid == [mid[0]];
      KidReplaced(keys, kids, h, lo, hi, at, mid[0]);
    } else {
      assert mid == [mid[0], mid[1]] && mid[1] in mid;
      KidSplit(keys, kids, h, lo, hi, at, mid[0], sep, mid[1]);
    }
  }

  /** One separator more never makes a branch too big to cut. */
  lemma KeysGrow(keys: seq<Bytes>, at: nat, sep: Bytes, right: PageId)
    requires at <= |keys| && BranchBytes(keys) <= CAPACITY && LegalKey(sep)
    ensures BranchBytes(KeysWith(keys, at, sep, right)) <= CAPACITY + KeyCost(sep)
    ensures CAPACITY + KeyCost(sep) <= 2 * CAPACITY - BRANCH_HEADER
  {
    hide KeyTotal;
    if right != 0 {
      Cut(keys, at);
      KeyTotalConcat(keys[..at], keys[at..]);
      KeyTotalConcat(keys[..at] + [sep], keys[at..]);
      KeyTotalConcat(keys[..at], [sep]);
      KeyTotalOne(sep);
    }
  }

  lemma KeyTotalOne(key: Bytes)
    ensures KeyTotal([key]) == KeyCost(key)
  {
    assert [key][..0] == [];
  }

  lemma RootsAround(kids: seq<Tree>, at: nat, mid: seq<Tree>, children: seq<PageId>)
    requires at < |kids| && children == RootsOf(kids)
    ensures RootsOf(kids[..at] + mid + kids[at + 1..]) == children[..at] + RootsOf(mid) + children[at + 1..]
  {
  }

  lemma GraftedRoots(mid: seq<Tree>, left: PageId, sep: Bytes, right: PageId, h: nat, lo: Bytes, hi: Option<Bytes>)
    requires Grafted(mid, left, sep, right, h, lo, hi)
    ensures RootsOf(mid) == if right == 0 then [left] else [left, right]
    ensures right != 0 ==> LegalKey(sep)
    ensures forall t | t in mid :: Full(t)
  {
    assert |mid| == 2 ==> mid[1] in mid;
    hide Full;
    hide Ordered;
  }

  lemma LooseHeld(w: World, id: PageId, x: Claim)
    requires Good(w, Both(Loose([id]), x))
    ensures id in w.owned
  {
    GoodParts(w, Loose([id]), x);
    CoveredIsOwned(w, [id], id);
  }

  // ---- whole trees ----

  /** Every page that is held is named exactly once: nothing is shared and nothing leaks. */
  ghost predicate Exact(w: World, c: Claim) { forall p: PageId :: Weight(c, p) == Has(w.owned, p) }

  lemma ExactKept(w0: World, a: Claim, w1: World, b: Claim)
    requires Exact(w0, a) && Steps(w0, a, w1, b)
    ensures Exact(w1, b)
  {
    hide Weight;
    hide Written;
    hide Quiet;
    forall p: PageId ensures Weight(b, p) == Has(w1.owned, p) {
      assert Weight(a, p) == Has(w0.owned, p);
      assert Weight(b, p) + Has(w0.owned, p) == Weight(a, p) + Has(w1.owned, p);
    }
  }

  lemma ExactIsGood(w: World, c: Claim)
    requires Exact(w, c) && Written(w.pages, c)
    ensures Good(w, c)
  {
    hide Weight;
    hide Written;
  }

  /** A value stored beside a tree. */
  lemma ValueBeside(w0: World, w1: World, trees: seq<Tree>, i: Item)
    requires Good(w0, Subtrees(trees)) && Steps(w0, NOTHING, w1, Values([i]))
    ensures Steps(w0, Subtrees(trees), w1, Both(Subtrees(trees), Values([i])))
  {
    hide Good;
    hide Steps;
    hide Yields;
    DropsNothing(Subtrees(trees));
    Flips(Values([i]), Subtrees(trees));
    Carry(w0, Subtrees(trees), NOTHING, w1, Values([i]), Subtrees(trees), Both(Subtrees(trees), Values([i])));
  }

  lemma Flips(a: Claim, b: Claim)
    ensures Yields(Both(a, b), Both(b, a))
  {
    forall p: PageId ensures Weight(Both(a, b), p) == Weight(Both(b, a), p) {
      WeightTwo(a, b, p);
      WeightTwo(b, a, p);
    }
    hide Weight;
  }

  /** An inline value claims no page. */
  lemma InlineClaims(w: World, i: Item)
    requires i.pages == []
    ensures Steps(w, NOTHING, w, Values([i]))
  {
    OwnedIsCovered(w, 0);
    hide Steps;
    hide Good;
    StepsNothing(w, NOTHING);
    YieldsItself(NOTHING);
    forall p: PageId ensures Weight(NOTHING, p) == Weight(Values([i]), p) { ItemCopiesOne(i, p); }
    assert forall pages: map<PageId, Page> :: Written(pages, Values([i]));
    StepsYield(w, NOTHING, w, NOTHING, NOTHING, Values([i]));
  }

  lemma ChainedClaims(w0: World, w1: World, i: Item)
    requires Steps(w0, NOTHING, w1, Links(i.pages, i.value, 0))
    ensures Steps(w0, NOTHING, w1, Values([i]))
  {
    StepEnds(w0, NOTHING, w1, Links(i.pages, i.value, 0));
    hide Steps;
    hide Good;
    hide Yields;
    ChainClaim(i);
    YieldsItself(NOTHING);
    StepsYield(w0, NOTHING, w1, Links(i.pages, i.value, 0), NOTHING, Values([i]));
  }

  /** The first leaf of an empty tree. */
  lemma FirstLeaf(w0: World, w1: World, i: Item, id: PageId)
    requires Good(w0, Both(Subtrees([]), Values([i]))) && Steps(w0, Loose(AtMostOne(0)), w1, Node(id, Leaf(StoredAll([i]))))
    ensures Steps(w0, Both(Subtrees([]), Values([i])), w1, Subtrees([LeafAt(id, [i])]))
  {
    var c, x := Both(Subtrees([]), Values([i])), Values([i]);
    EmptyTrees(x);
    hide Good;
    hide Steps;
    hide Yields;
    LeafCloses(id, [i]);
    Carry(w0, c, NOTHING, w1, Node(id, Leaf(StoredAll([i]))), x, Subtrees([LeafAt(id, [i])]));
  }

  lemma EmptyTrees(x: Claim)
    ensures Yields(Both(Subtrees([]), x), Both(NOTHING, x))
  {
    forall p: PageId ensures Weight(Both(Subtrees([]), x), p) == Weight(Both(NOTHING, x), p) {
      WeightTwo(Subtrees([]), x, p);
      WeightTwo(NOTHING, x, p);
      CopiesOne(0, p);
    }
    hide Weight;
    forall pages: map<PageId, Page> | Written(pages, Both(Subtrees([]), x)) ensures Written(pages, Both(NOTHING, x)) {
      assert Written(pages, NOTHING);
    }
  }

  lemma FirstLeafFits(i: Item, id: PageId)
    requires ItemOk(i) && id >= 2
    ensures LeafBytes(StoredAll([i])) <= CAPACITY
    ensures Full(LeafAt(id, [i])) && Ordered(LeafAt(id, [i]), 0, [], None)
    ensures Entries(LeafAt(id, [i])) == Updated([], i.key, i.value)
  {
    LegalStored(i);
    assert StoredAll([i]) == [StoredOf(i)];
    TotalOne(StoredOf(i));
    hide Total;
    hide ItemOk;
    NothingAt(i.key);
    hide Pick;
    assert PairsOf([i]) == [Pair(i.key, i.value)];
  }

  /** The root split: the tree grows a level. */
  lemma NewRoot(w0: World, w1: World, id: PageId, sep: Bytes, mid: seq<Tree>)
    requires Good(w0, Subtrees(mid)) && Steps(w0, Loose(AtMostOne(0)), w1, Node(id, Branch([sep], RootsOf(mid))))
    ensures Steps(w0, Subtrees(mid), w1, Subtrees([BranchAt(id, [sep], mid)]))
  {
    hide Good;
    hide Steps;
    hide Yields;
    DropsNothing(Subtrees(mid));
    BranchCloses(id, [sep], mid);
    Carry(w0, Subtrees(mid), NOTHING, w1, Node(id, Branch([sep], RootsOf(mid))), Subtrees(mid), Subtrees([BranchAt(id, [sep], mid)]));
  }

  lemma NewRootFits(id: PageId, sep: Bytes, mid: seq<Tree>, left: PageId, right: PageId, h: nat)
    requires right != 0 && Grafted(mid, left, sep, right, h, [], None)
    ensures BranchBytes([sep]) <= CAPACITY
    ensures Full(BranchAt(id, [sep], mid)) && Ordered(BranchAt(id, [sep], mid), h + 1, [], None)
    ensures Entries(BranchAt(id, [sep], mid)) == KidsEntries(mid)
  {
    KeyTotalOne(sep);
    hide KeyTotal;
    FullBranch(id, [sep], mid);
    hide Full;
    hide Less;
    var t := BranchAt(id, [sep], mid);
    assert KeysOk([sep], [], None);
    forall i: nat | i < |mid| ensures Ordered(mid[i], h, LowerOf([sep], i, []), UpperOf([sep], i, None)) {
      assert i == 0 || i == 1;
    }
  }

  // ---- taking an entry out ----

  /** A leaf an entry was taken out of, its chain given back. */
  lemma LeafGives(w0: World, w1: World, id: PageId, items: seq<Item>, at: nat)
    requires at < |items| && Good(w0, Subtrees([LeafAt(id, items)])) && Steps(w0, Values([items[at]]), w1, Values([]))
    ensures Steps(w0, Subtrees([LeafAt(id, items)]), w1, Both(Loose([id]), Values(items[..at] + items[at + 1..])))
  {
    hide Steps;
    hide Good;
    hide Yields;
    var x := Both(Loose([id]), Values(items[..at] + items[at + 1..]));
    LeafRemoveOpens(id, items, at);
    DropsValues(x);
    Carry(w0, Subtrees([LeafAt(id, items)]), Values([items[at]]), w1, Values([]), x, x);
  }

  lemma ItemIsGood(w: World, id: PageId, items: seq<Item>, at: nat)
    requires at < |items| && Good(w, Subtrees([LeafAt(id, items)]))
    ensures Good(w, Values([items[at]]))
  {
    hide Good;
    hide Yields;
    LeafRemoveOpens(id, items, at);
    PartGood(w, Subtrees([LeafAt(id, items)]), Values([items[at]]), Both(Loose([id]), Values(items[..at] + items[at + 1..])));
  }

  lemma KidGives(w: World, id: PageId, keys: seq<Bytes>, kids: seq<Tree>, at: nat)
    requires at < |kids| && Good(w, Subtrees([BranchAt(id, keys, kids)]))
    ensures Good(w, Subtrees([kids[at]]))
  {
    hide Good;
    hide Yields;
    Around(kids, at);
    var a, b := kids[..at], kids[at + 1..];
    StretchOpens(id, keys, a, [kids[at]], b);
    PartGood(w, Subtrees([BranchAt(id, keys, kids)]), Subtrees([kids[at]]), Both(Loose([id]), Both(Subtrees(a), Subtrees(b))));
  }

  lemma KidGave(w0: World, w1: World, id: PageId, keys: seq<Bytes>, kids: seq<Tree>, at: nat, k: Tree)
    requires at < |kids| && Good(w0, Subtrees([BranchAt(id, keys, kids)])) && Steps(w0, Subtrees([kids[at]]), w1, Subtrees([k]))
    ensures Steps(w0, Subtrees([BranchAt(id, keys, kids)]), w1, Both(Loose([id]), Subtrees(kids[..at] + [k] + kids[at + 1..])))
  {
    hide Good;
    hide Yields;
    hide Steps;
    Around(kids, at);
    var a, b := kids[..at], kids[at + 1..];
    var x := Both(Loose([id]), Both(Subtrees(a), Subtrees(b)));
    StretchOpens(id, keys, a, [kids[at]], b);
    StretchCloses(id, a, [k], b);
    Carry(w0, Subtrees([BranchAt(id, keys, kids)]), Subtrees([kids[at]]), w1, Subtrees([k]), x, Both(Loose([id]), Subtrees(a + [k] + b)));
  }

  /** A pair of neighbours among the children of a branch. */
  lemma PairOf(kids: seq<Tree>, left: nat)
    requires left + 1 < |kids|
    ensures kids == kids[..left] + [kids[left], kids[left + 1]] + kids[left + 2..]
  {
  }

  lemma PairIsGood(w: World, id: PageId, kids: seq<Tree>, left: nat)
    requires left + 1 < |kids| && Good(w, Both(Loose([id]), Subtrees(kids)))
    ensures Good(w, Subtrees([kids[left], kids[left + 1]]))
  {
    hide Good;
    hide Yields;
    var a, mid, b := kids[..left], [kids[left], kids[left + 1]], kids[left + 2..];
    PairOf(kids, left);
    StretchReopens(id, a, mid, b);
    PartGood(w, Both(Loose([id]), Subtrees(kids)), Subtrees(mid), Both(Loose([id]), Both(Subtrees(a), Subtrees(b))));
  }

  lemma PairReplaced(w0: World, w1: World, id: PageId, kids: seq<Tree>, left: nat, mid: seq<Tree>)
    requires left + 1 < |kids| && Good(w0, Both(Loose([id]), Subtrees(kids)))
    requires Steps(w0, Subtrees([kids[left], kids[left + 1]]), w1, Subtrees(mid))
    ensures Steps(w0, Both(Loose([id]), Subtrees(kids)), w1, Both(Loose([id]), Subtrees(kids[..left] + mid + kids[left + 2..])))
  {
    hide Good;
    hide Yields;
    hide Steps;
    var a, pair, b := kids[..left], [kids[left], kids[left + 1]], kids[left + 2..];
    PairOf(kids, left);
    StretchReopens(id, a, pair, b);
    StretchCloses(id, a, mid, b);
    Carry(w0, Both(Loose([id]), Subtrees(kids)), Subtrees(pair), w1, Subtrees(mid), Both(Loose([id]), Both(Subtrees(a), Subtrees(b))),
          Both(Loose([id]), Subtrees(a + mid + b)));
  }

  /** The first of a pair is rewritten: the second is still there, loose, with everything the two held. */
  lemma FirstWritten(w0: World, w1: World, l: PageId, r: PageId, c: Claim, x: Claim, n: Claim)
    requires l != 0 && Good(w0, c) && Yields(c, Both(Loose([l]), Both(Loose([r]), x))) && Steps(w0, Loose(AtMostOne(l)), w1, n)
    ensures Steps(w0, c, w1, Both(Loose([r]), Both(n, x)))
  {
    hide Good;
    hide Yields;
    hide Steps;
    SecondFirst(n, Loose([r]), x);
    Carry(w0, c, Loose([l]), w1, n, Both(Loose([r]), x), Both(Loose([r]), Both(n, x)));
  }

  /** The second is given back ... */
  lemma SecondFreed(w0: World, w1: World, r: PageId, n: Claim, x: Claim, d: Claim)
    requires Good(w0, Both(Loose([r]), Both(n, x))) && Steps(w0, Loose([r]), w1, NOTHING) && Yields(Both(n, x), d)
    ensures Steps(w0, Both(Loose([r]), Both(n, x)), w1, d)
  {
    DropsNothing(Both(n, x));
    YieldsOn(Both(NOTHING, Both(n, x)), Both(n, x), d);
    hide Good;
    hide Yields;
    hide Steps;
    YieldsItself(Both(Loose([r]), Both(n, x)));
    Carry(w0, Both(Loose([r]), Both(n, x)), Loose([r]), w1, NOTHING, Both(n, x), d);
  }

  /** ... or rewritten too. */
  lemma SecondWritten(w0: World, w1: World, r: PageId, n: Claim, n2: Claim, x: Claim, d: Claim)
    requires r != 0 && Good(w0, Both(Loose([r]), Both(n, x))) && Steps(w0, Loose(AtMostOne(r)), w1, n2)
    requires Yields(Both(n2, Both(n, x)), d)
    ensures Steps(w0, Both(Loose([r]), Both(n, x)), w1, d)
  {
    hide Good;
    hide Yields;
    hide Steps;
    YieldsItself(Both(Loose([r]), Both(n, x)));
    Carry(w0, Both(Loose([r]), Both(n, x)), Loose([r]), w1, n2, Both(n, x), d);
  }

  lemma YieldsOn(a: Claim, b: Claim, c: Claim)
    requires Yields(a, b) && Yields(b, c)
    ensures Yields(a, c)
  {
    hide Weight;
    forall p: PageId ensures Weight(a, p) == Weight(c, p) { assert Weight(a, p) == Weight(b, p); }
  }

  lemma PairReads(w: World, l: Tree, r: Tree)
    requires Good(w, Subtrees([l, r]))
    ensures Good(w, Subtrees([l])) && Good(w, Subtrees([r]))
  {
    forall p: PageId ensures Weight(Subtrees([l, r]), p) == Weight(Subtrees([l]), p) + Weight(Subtrees([r]), p) {
      assert [l, r] == [l] + [r];
      SubtreesWeight([l], [r], p);
    }
    hide Weight;
    forall p: PageId ensures Weight(Subtrees([l]), p) <= Has(w.owned, p) && Weight(Subtrees([r]), p) <= Has(w.owned, p) {
      assert Weight(Subtrees([l, r]), p) <= Has(w.owned, p);
    }
    assert l in [l, r] && r in [l, r];
    hide Spells;
  }

  // ---- poured together ----

  /** Two neighbouring leaves poured together always have a place to be cut: where they met. */
  lemma LeavesPour(a: seq<Item>, b: seq<Item>)
    requires LeafBytes(StoredAll(a)) <= CAPACITY && LeafBytes(StoredAll(b)) <= CAPACITY
    requires LeafBytes(StoredAll(a + b)) > CAPACITY
    ensures LeafFitsAt(StoredAll(a + b), |a|)
  {
    hide Total;
    var es := StoredAll(a + b);
    StoredConcat(a, b);
    assert es[..|a|] == StoredAll(a) && es[|a|..] == StoredAll(b);
    assert a == [] ==> a + b == b;
    assert b == [] ==> a + b == a;
  }

  /** Two neighbouring branches, one of them underfull, poured together are not too big to cut. */
  lemma BranchesPour(a: seq<Bytes>, sep: Bytes, b: seq<Bytes>)
    requires BranchBytes(a) <= CAPACITY && BranchBytes(b) <= CAPACITY && LegalKey(sep)
    requires BranchBytes(a) < UNDERFULL || BranchBytes(b) < UNDERFULL
    ensures BranchBytes(a + [sep] + b) <= 2 * CAPACITY - BRANCH_HEADER
  {
    hide KeyTotal;
    KeyTotalConcat(a + [sep], b);
    KeyTotalConcat(a, [sep]);
    KeyTotalOne(sep);
  }

  /** What is not underfull is not empty. */
  lemma NotUnderfull(t: Tree)
    requires Shaped(t)
    requires t.LeafAt? ==> LeafBytes(StoredAll(t.items)) >= UNDERFULL
    requires t.BranchAt? ==> BranchBytes(t.keys) >= UNDERFULL
    ensures Full(t)
  {
  }

  lemma LeafPairOrder(l: Tree, r: Tree, lo: Bytes, sep: Bytes, hi: Option<Bytes>)
    requires l.LeafAt? && r.LeafAt? && Separates(sep, lo, hi)
    requires Ordered(l, 0, lo, Some(sep)) && Ordered(r, 0, sep, hi)
    ensures ItemsOk(l.items + r.items, lo, hi) && PairsOf(l.items + r.items) == Entries(l) + Entries(r)
  {
    hide Less;
    hide ItemsOk;
    LeafJoin(l.items, r.items, lo, sep, hi);
  }

  lemma BranchPairOrder(l: Tree, r: Tree, h: nat, lo: Bytes, sep: Bytes, hi: Option<Bytes>)
    requires l.BranchAt? && r.BranchAt? && Separates(sep, lo, hi)
    requires Ordered(l, h, lo, Some(sep)) && Ordered(r, h, sep, hi)
    ensures h > 0 && OrderedKids(l.keys + [sep] + r.keys, l.kids + r.kids, h - 1, lo, hi)
    ensures |l.kids + r.kids| == |l.keys + [sep] + r.keys| + 1
    ensures KidsEntries(l.kids + r.kids) == Entries(l) + Entries(r)
  {
    hide Less;
    OrderedBranch(l.id, l.keys, l.kids, h, lo, Some(sep));
    OrderedBranch(r.id, r.keys, r.kids, h, sep, hi);
    assert |l.kids| == |l.keys| + 1 && |r.kids| == |r.keys| + 1;
    hide OrderedKids;
    hide Ordered;
    BranchJoin(l.keys, l.kids, r.keys, r.kids, h - 1, lo, sep, hi);
    KidsEntriesConcat(l.kids, r.kids);
    hide KidsEntries;
  }

  lemma PairFull(l: Tree, r: Tree)
    requires l.BranchAt? && r.BranchAt? && Shaped(l) && Shaped(r)
    ensures forall k | k in l.kids + r.kids :: Full(k)
    ensures BranchBytes(l.keys) <= CAPACITY && BranchBytes(r.keys) <= CAPACITY
  {
  }

  /** The keys of a branch after two neighbours were merged, or cut at another place. */
  function KeysAfter(keys: seq<Bytes>, left: nat, sep: Bytes, right: PageId): seq<Bytes>
    requires left < |keys|
  {
    if right == 0 then keys[..left] + keys[left + 1..] else keys[left := sep]
  }

  lemma PairGrafted(keys: seq<Bytes>, kids: seq<Tree>, h: nat, lo: Bytes, hi: Option<Bytes>, left: nat,
                    mid: seq<Tree>, l: PageId, sep: Bytes, r: PageId)
    requires left < |keys| && |kids| == |keys| + 1 && OrderedKids(keys, kids, h, lo, hi)
    requires Grafted(mid, l, sep, r, h, LowerOf(keys, left, lo), UpperOf(keys, left + 1, hi))
    ensures OrderedKids(KeysAfter(keys, left, sep, r), kids[..left] + mid + kids[left + 2..], h, lo, hi)
    ensures |kids[..left] + mid + kids[left + 2..]| == |KeysAfter(keys, left, sep, r)| + 1
  {
    hide Full;
    hide OrderedKids;
    hide Ordered;
    hide Separates;
    if |mid| == 1 {
      assert mid == [mid[0]];
      KidsMerged(keys, kids, h, lo, hi, left, mid[0]);
    } else {
      assert mid == [mid[0], mid[1]];
      KidsResplit(keys, kids, h, lo, hi, left, mid[0], sep, mid[1]);
    }
  }

  lemma PairRoots(kids: seq<Tree>, left: nat, mid: seq<Tree>, children: seq<PageId>)
    requires left + 1 < |kids| && children == RootsOf(kids)
    ensures RootsOf(kids[..left] + mid + kids[left + 2..]) == children[..left] + RootsOf(mid) + children[left + 2..]
  {
  }

  // ---- keys of one length ----

  /** Every key and every separator of the tree is `n` bytes long. */
  ghost predicate Uniform(t: Tree, n: nat) {
    match t
    case LeafAt(_, items) => forall i | i in items :: |i.key| == n
    case BranchAt(_, keys, kids) => (forall k | k in keys :: |k| == n) && (forall c | c in kids :: Uniform(c, n))
  }

  ghost predicate UniformGraft(mid: seq<Tree>, sep: Bytes, right: PageId, n: nat) {
    (forall t | t in mid :: Uniform(t, n)) && (right != 0 ==> |sep| == n)
  }

  lemma UniformCut(id: PageId, id2: PageId, items: seq<Item>, cut: nat, n: nat)
    requires 0 < cut < |items| && Uniform(LeafAt(id, items), n)
    ensures UniformGraft([LeafAt(id, items[..cut]), LeafAt(id2, items[cut..])], items[cut].key, id2, n)
  {
    assert items[cut] in items;
  }

  lemma UniformPut(id: PageId, items: seq<Item>, at: nat, found: bool, i: Item, n: nat)
    requires at <= |items| && (found ==> at < |items|) && Uniform(LeafAt(id, items), n) && |i.key| == n
    ensures Uniform(LeafAt(id, PutItem(items, at, found, i)), n)
  {
  }

  lemma UniformKidOf(t: Tree, at: nat, n: nat)
    requires t.BranchAt? && at < |t.kids| && Uniform(t, n)
    ensures Uniform(t.kids[at], n)
  {
  }

  lemma UniformRoot(id: PageId, sep: Bytes, mid: seq<Tree>, right: PageId, n: nat)
    requires right != 0 && UniformGraft(mid, sep, right, n)
    ensures Uniform(BranchAt(id, [sep], mid), n)
  {
  }

  lemma UniformBranchCut(id: PageId, id2: PageId, keys: seq<Bytes>, kids: seq<Tree>, cut: nat, n: nat)
    requires cut < |keys| && |kids| == |keys| + 1 && Uniform(BranchAt(id, keys, kids), n)
    ensures UniformGraft([BranchAt(id, keys[..cut], kids[..cut + 1]), BranchAt(id2, keys[cut + 1..], kids[cut + 1..])], keys[cut], id2, n)
  {
    assert keys[cut] in keys;
    var l, r := BranchAt(id, keys[..cut], kids[..cut + 1]), BranchAt(id2, keys[cut + 1..], kids[cut + 1..]);
    assert forall k | k in l.kids || k in r.kids :: k in kids;
    assert Uniform(l, n) && Uniform(r, n);
  }

  lemma UniformKid(id: PageId, keys: seq<Bytes>, kids: seq<Tree>, at: nat, mid: seq<Tree>, sep: Bytes, right: PageId, n: nat)
    requires at < |kids| && |kids| == |keys| + 1 && Uniform(BranchAt(id, keys, kids), n) && UniformGraft(mid, sep, right, n)
    ensures Uniform(BranchAt(id, KeysWith(keys, at, sep, right), kids[..at] + mid + kids[at + 1..]), n)
  {
  }

  lemma UniformPair(id: PageId, keys: seq<Bytes>, kids: seq<Tree>, left: nat, mid: seq<Tree>, sep: Bytes, right: PageId, n: nat)
    requires left < |keys| && |kids| == |keys| + 1 && Uniform(BranchAt(id, keys, kids), n) && UniformGraft(mid, sep, right, n)
    ensures Uniform(BranchAt(id, KeysAfter(keys, left, sep, right), kids[..left] + mid + kids[left + 2..]), n)
  {
  }

  /** A separator no longer than the one it replaces still fits. */
  lemma KeysAfterFit(keys: seq<Bytes>, left: nat, sep: Bytes, right: PageId)
    requires left < |keys| && BranchBytes(keys) <= CAPACITY && (right == 0 || |sep| <= |keys[left]|)
    ensures BranchBytes(KeysAfter(keys, left, sep, right)) <= CAPACITY
  {
    hide KeyTotal;
    KeyTotalCut(keys, left);
    KeyTotalConcat(keys[..left], keys[left + 1..]);
    KeyTotalConcat(keys[..left] + [sep], keys[left + 1..]);
    KeyTotalConcat(keys[..left], [sep]);
    KeyTotalOne(sep);
    assert keys[left := sep] == keys[..left] + [sep] + keys[left + 1..];
  }

  // ---- the root ----

  /** A root with one child is given back. */
  lemma RootDropped(w0: World, w1: World, id: PageId, keys: seq<Bytes>, k: Tree)
    requires Good(w0, Subtrees([BranchAt(id, keys, [k])])) && Steps(w0, Loose([id]), w1, NOTHING)
    ensures Steps(w0, Subtrees([BranchAt(id, keys, [k])]), w1, Subtrees([k]))
  {
    hide Good;
    hide Steps;
    hide Yields;
    BranchOpens(id, keys, [k]);
    DropsNothing(Subtrees([k]));
    Carry(w0, Subtrees([BranchAt(id, keys, [k])]), Loose([id]), w1, NOTHING, Subtrees([k]), Subtrees([k]));
  }

  /** So is an empty leaf, and with it the tree. */
  lemma LastLeafDropped(w0: World, w1: World, id: PageId)
    requires Good(w0, Subtrees([LeafAt(id, [])])) && Steps(w0, Loose([id]), w1, NOTHING)
    ensures Steps(w0, Subtrees([LeafAt(id, [])]), w1, Subtrees([]))
  {
    hide Good;
    hide Steps;
    LeafOpens(id, []);
    forall p: PageId ensures Weight(Both(NOTHING, Values([])), p) == Weight(Subtrees([]), p) {
      WeightTwo(NOTHING, Values([]), p);
      CopiesOne(0, p);
    }
    assert Yields(Both(NOTHING, Values([])), Subtrees([]));
    hide Yields;
    Carry(w0, Subtrees([LeafAt(id, [])]), Loose([id]), w1, NOTHING, Values([]), Subtrees([]));
  }

  /** Every page of a tree that is spelled out leads only to pages of that tree. */
  lemma {:induction false} TreeIsClosed(pages: map<PageId, Page>, t: Tree, id: PageId)
    requires Spells(pages, t) && Occurs(t, id) > 0
    ensures id in pages
    ensures forall r | r in Refs(pages[id]) :: Occurs(t, r) > 0
    decreases t
  {
    match t
    case LeafAt(_, items) =>
      LeafIsClosed(pages, t, id);
    case BranchAt(_, keys, kids) =>
      if KidsOccur(kids, id) > 0 {
        var at := KidHolding(kids, id);
        TreeIsClosed(pages, kids[at], id);
        forall r | r in Refs(pages[id]) ensures Occurs(t, r) > 0 { KidPageOccurs(t, kids[at], r); }
      } else {
        forall r | r in Refs(pages[id]) ensures Occurs(t, r) > 0 {
          var i :| 0 <= i < |kids| && kids[i].id == r;
          assert Occurs(kids[i], r) > 0;
          KidPageOccurs(t, kids[i], r);
        }
      }
  }

  lemma {:induction false} KidHolding(kids: seq<Tree>, id: PageId) returns (at: nat)
    requires KidsOccur(kids, id) > 0
    ensures at < |kids| && Occurs(kids[at], id) > 0
  {
    hide Occurs;
    at := |kids| - 1;
    if Occurs(kids[at], id) == 0 { at := KidHolding(kids[..|kids| - 1], id); }
  }

  lemma {:induction false} ItemHolding(items: seq<Item>, id: PageId) returns (at: nat)
    requires ItemCopies(items, id) > 0
    ensures at < |items| && id in items[at].pages
  {
    at := |items| - 1;
    CopiesIn(items[at].pages, id);
    hide Copies;
    if id !in items[at].pages { at := ItemHolding(items[..|items| - 1], id); }
  }

  lemma LeafIsClosed(pages: map<PageId, Page>, t: Tree, id: PageId)
    requires t.LeafAt? && Spells(pages, t) && Occurs(t, id) > 0
    ensures id in pages
    ensures forall r | r in Refs(pages[id]) :: Occurs(t, r) > 0
  {
    var items := t.items;
    if ItemCopies(items, id) > 0 {
      var at := ItemHolding(items, id);
      var i := items[at];
      var j: nat :| j < |i.pages| && i.pages[j] == id;
      assert LinkHolds(pages, i.pages, i.value, 0, j);
      hide Occurs;
      forall r | r in Refs(pages[id]) ensures Occurs(t, r) > 0 { ItemPageOccurs(t, i, r); }
    } else {
      hide Occurs;
      forall r | r in Refs(pages[id]) ensures Occurs(t, r) > 0 {
        var e :| 0 <= e < |StoredAll(items)| && StoredAll(items)[e].Chained? && StoredAll(items)[e].head == r;
        assert items[e].pages != [] && items[e].pages[0] == r;
        ItemPageOccurs(t, items[e], r);
      }
    }
  }

  /** A tree that names every page that is held is closed, so it can be committed. */
  lemma ForestIsClosed(w: World, forest: seq<Tree>, root: PageId)
    requires |forest| <= 1 && root == (if forest == [] then 0 else forest[0].id)
    requires Exact(w, Subtrees(forest)) && Written(w.pages, Subtrees(forest))
    ensures Closed(w.pages, root, w.owned)
  {
    if forest != [] {
      var t := forest[0];
      forall p: PageId ensures Occurs(t, p) == Has(w.owned, p) {
        assert forest == [t];
        KidsOccurOne(t, p);
        assert Weight(Subtrees(forest), p) == Has(w.owned, p);
      }
      hide Weight;
      hide Exact;
      hide KidsOccur;
      assert t in forest && Spells(w.pages, t);
      assert Occurs(t, t.id) > 0;
      hide Occurs;
      hide Spells;
      forall id | id in w.owned ensures id in w.pages && Refs(w.pages[id]) <= w.owned {
        assert Occurs(t, id) > 0;
        TreeIsClosed(w.pages, t, id);
      }
    } else {
      forall id | id in w.owned ensures false {
        assert Weight(Subtrees(forest), id) == Has(w.owned, id);
      }
    }
  }
}
