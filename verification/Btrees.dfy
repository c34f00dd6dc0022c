/**
 The copy-on-write B+tree over a pager. Every method carries, as a ghost, the
 tree its pages spell; what the tree denotes is a sorted run of pairs.
 */
module Btrees {
  import opened Bytes
  import opened Options
  import opened PageFile
  import opened FreeLists
  import opened Pagers
  import opened Nodes
  import opened Sorted
  import opened Seqs
  import opened Trees
  import opened Ledgers
  import opened Rewrites
  import opened Surgery
  import opened Reads
  import opened Prunings
  import opened Separators

  /** The entry cannot be put in: the leaf it belongs in would hold it wedged between two full halves. */
  ghost predicate Jams(t: Tree, i: Item) {
    match t
    case LeafAt(_, items) => exists at: nat, found ::
      Finds(items, i.key, at, found) && LeafJams(items, at, found, i)
    case BranchAt(_, keys, kids) => exists at: nat ::
      Routes(keys, i.key, at) && at < |kids| && Jams(kids[at], i)
  }

  ghost predicate LeafJams(items: seq<Item>, at: nat, found: bool, i: Item)
    requires at <= |items| && (found ==> at < |items|)
  {
    var after := StoredAll(PutItem(items, at, found, i));
    LeafBytes(after) > CAPACITY && Wedged(after, at)
  }

  /** Only the one entry of the largest size can jam. */
  lemma {:induction false} OnlyLargestJams(t: Tree, i: Item)
    requires Jams(t, i)
    ensures |i.key| + (if i.pages == [] then |i.value| else 8) == MAX_KEY + MAX_INLINE
    decreases t
  {
    match t
    case LeafAt(_, items) =>
      var at: nat, found :| Finds(items, i.key, at, found) && LeafJams(items, at, found, i);
      var items1 := PutItem(items, at, found, i);
      assert items1[at] == i;
      assert StoredAll(items1)[at] == StoredOf(i);
    case BranchAt(_, keys, kids) =>
      var at: nat :| Routes(keys, i.key, at) && at < |kids| && Jams(kids[at], i);
      OnlyLargestJams(kids[at], i);
  }

  lemma PutStored(items: seq<Item>, at: nat, found: bool, i: Item)
    requires at <= |items| && (found ==> at < |items|)
    ensures
      var es := StoredAll(items);
      StoredAll(PutItem(items, at, found, i)) ==
        if found then es[..at] + [StoredOf(i)] + es[at + 1..] else es[..at] + [StoredOf(i)] + es[at..]
  {
    hide StoredOf;
  }

  lemma JamsLeaf(id: PageId, items: seq<Item>, lo: Bytes, hi: Option<Bytes>, i: Item, at: nat, found: bool)
    requires ItemsOk(items, lo, hi) && LeafBytes(StoredAll(items)) <= CAPACITY && ItemOk(i) && Finds(items, i.key, at, found)
    ensures
      var after := StoredAll(PutItem(items, at, found, i));
      Jams(LeafAt(id, items), i) <==> LeafBytes(after) > CAPACITY && !exists c :: LeafFitsAt(after, c)
  {
    hide Less;
    hide LeafBytes;
    hide Wedged;
    var before, after := StoredAll(items), StoredAll(PutItem(items, at, found, i));
    PutStored(items, at, found, i);
    if LeafBytes(after) > CAPACITY {
      forall x | x in before ensures Legal(x) {
        var j :| 0 <= j < |before| && before[j] == x;
        LegalStored(items[j]);
      }
      LegalStored(i);
      hide LeafFitsAt;
      LeafSplits(before, after, at, StoredOf(i));
    }
    hide ItemsOk;
    assert LeafJams(items, at, found, i) ==> Jams(LeafAt(id, items), i);
    forall a: nat, f | Finds(items, i.key, a, f) ensures a == at && f == found { FindsOnce(items, i.key, a, f, at, found); }
  }

  lemma JamsBelow(id: PageId, keys: seq<Bytes>, kids: seq<Tree>, i: Item, at: nat)
    requires Routes(keys, i.key, at) && at < |kids|
    ensures Jams(BranchAt(id, keys, kids), i) <==> Jams(kids[at], i)
  {
    forall a: nat | Routes(keys, i.key, a) ensures a == at { RoutesOnce(keys, i.key, a, at); }
    hide Routes;
  }

  lemma FullAround(kids: seq<Tree>, at: nat, mid: seq<Tree>)
    requires at < |kids| && (forall k | k in kids :: Full(k)) && (forall k | k in mid :: Full(k))
    ensures forall k | k in kids[..at] + mid + kids[at + 1..] :: Full(k)
  {
    hide Full;
  }

  /** Only an inline value can jam. */
  lemma JamsInline(t: Tree, i: Item)
    requires ItemOk(i)
    ensures Jams(t, i) <==> |i.value| <= MAX_INLINE && Jams(t, Item(i.key, i.value, []))
  {
    if Jams(t, i) { OnlyLargestJams(t, i); }
    hide Jams;
  }

  lemma GraftedAlone(mid: seq<Tree>, left: PageId, sep: Bytes, h: nat)
    requires Grafted(mid, left, sep, 0, h, [], None)
    ensures |mid| == 1 && mid == [mid[0]] && mid[0].id == left != 0 && Full(mid[0]) && Ordered(mid[0], h, [], None)
    ensures KidsEntries(mid) == Entries(mid[0])
  {
    assert mid[0] in mid;
    hide Full;
    hide Ordered;
    KidsEntriesOne(mid[0]);
  }

  lemma UniformMoved(t: Tree, u: Tree, n: nat)
    requires Uniform(t, n)
    requires match t case LeafAt(_, items) => u == LeafAt(u.id, items) case BranchAt(_, keys, kids) => u == BranchAt(u.id, keys, kids)
    ensures Uniform(u, n) && UniformGraft([u], [], 0, n)
  {
  }

  lemma UniformPour(id: PageId, a: Tree, b: Tree, n: nat)
    requires a.LeafAt? && b.LeafAt? && Uniform(a, n) && Uniform(b, n)
    ensures Uniform(LeafAt(id, a.items + b.items), n)
  {
  }

  lemma UniformPourBranches(id: PageId, a: Tree, sep: Bytes, b: Tree, n: nat)
    requires a.BranchAt? && b.BranchAt? && Uniform(a, n) && Uniform(b, n) && |sep| == n
    ensures Uniform(BranchAt(id, a.keys + [sep] + b.keys, a.kids + b.kids), n)
  {
  }

  lemma RootsJoin(a: seq<Tree>, b: seq<Tree>)
    ensures RootsOf(a + b) == RootsOf(a) + RootsOf(b)
  {
  }

  lemma UniformLone(mid: seq<Tree>, sep: Bytes, n: nat)
    requires mid != [] && UniformGraft(mid, sep, 0, n)
    ensures Uniform(mid[0], n)
  {
  }

  /** Every child is full, but the one an entry was just taken from may not be. */
  ghost predicate AllFullBut(kids: seq<Tree>, at: nat) {
    forall j: nat | j < |kids| :: Shaped(kids[j]) && (j != at ==> Full(kids[j]))
  }

  lemma PairFacts(keys: seq<Bytes>, kids: seq<Tree>, h: nat, lo: Bytes, hi: Option<Bytes>, left: nat, at: nat)
    requires left < |keys| && |kids| == |keys| + 1 && OrderedKids(keys, kids, h, lo, hi) && AllFullBut(kids, at)
    requires (at == left || at == left + 1) && Thin(kids[at])
    ensures
      var a, b := kids[left], kids[left + 1];
      && Shaped(a) && Shaped(b) && (Full(a) || Full(b)) && (Thin(a) || Thin(b))
      && Separates(keys[left], LowerOf(keys, left, lo), UpperOf(keys, left + 1, hi))
      && Ordered(a, h, LowerOf(keys, left, lo), Some(keys[left])) && Ordered(b, h, keys[left], UpperOf(keys, left + 1, hi))
  {
    hide Less;
    hide Full;
    hide Shaped;
    hide Thin;
    hide Ordered;
    assert Ordered(kids[left], h, LowerOf(keys, left, lo), UpperOf(keys, left, hi));
    assert Ordered(kids[left + 1], h, LowerOf(keys, left + 1, lo), UpperOf(keys, left + 1, hi));
  }

  lemma FullAroundPair(kids: seq<Tree>, left: nat, at: nat, mid: seq<Tree>)
    requires left + 1 < |kids| && AllFullBut(kids, at) && (at == left || at == left + 1) && (forall k | k in mid :: Full(k))
    ensures forall k | k in kids[..left] + mid + kids[left + 2..] :: Full(k)
  {
    hide Full;
    hide Shaped;
  }

  lemma UniformPairOf(id: PageId, keys: seq<Bytes>, kids: seq<Tree>, left: nat, mid: seq<Tree>, sep: Bytes, right: PageId, n: nat)
    requires left < |keys| && |kids| == |keys| + 1 && Uniform(BranchAt(id, keys, kids), n)
    requires Uniform(kids[left], n) && Uniform(kids[left + 1], n) && |keys[left]| == n ==> UniformGraft(mid, sep, right, n)
    ensures Uniform(BranchAt(id, KeysAfter(keys, left, sep, right), kids[..left] + mid + kids[left + 2..]), n)
    ensures right == 0 || |sep| == n
  {
    assert keys[left] in keys && kids[left] in kids && kids[left + 1] in kids;
    UniformPair(id, keys, kids, left, mid, sep, right, n);
  }

  ghost predicate HasKey(es: seq<Pair>, k: Bytes) { exists p :: p in es && p.key == k }

  /** What a removal from one child means for the whole branch. */
  lemma RemovedBelow(t: Tree, h: nat, lo: Bytes, hi: Option<Bytes>, at: nat, key: Bytes, k: Tree)
    requires t.BranchAt? && at < |t.kids| && |t.kids| == |t.keys| + 1 && h > 0 && Full(t) && Ordered(t, h, lo, hi)
    requires Inside(key, LowerOf(t.keys, at, lo), UpperOf(t.keys, at, hi))
    ensures Removed(Entries(t.kids[at]), key) == Entries(t.kids[at]) ==> Removed(Entries(t), key) == Entries(t)
    ensures Entries(k) == Removed(Entries(t.kids[at]), key) ==>
              KidsEntries(t.kids[..at] + [k] + t.kids[at + 1..]) == Removed(Entries(t), key)
    ensures HasKey(Entries(t.kids[at]), key) ==> HasKey(Entries(t), key)
    ensures Ordered(k, h - 1, LowerOf(t.keys, at, lo), UpperOf(t.keys, at, hi)) ==>
              OrderedKids(t.keys, t.kids[..at] + [k] + t.kids[at + 1..], h - 1, lo, hi)
    ensures Shaped(k) ==> AllFullBut(t.kids[..at] + [k] + t.kids[at + 1..], at)
  {
    hide Inside;
    hide Removed;
    hide LowerOf;
    hide UpperOf;
    var kids := t.kids;
    AllFullAround(t, at, k);
    FullIsShaped(t);
    BranchFacts(t, h, lo, hi);
    hide Full;
    hide Shaped;
    hide Ordered;
    hide OrderedKids;
    PutInKid(t.keys, kids, h, lo, hi, at, [k], key, []);
    PutInKid(t.keys, kids, h, lo, hi, at, [kids[at]], key, []);
    KidsEntriesOne(k);
    KidsEntriesOne(kids[at]);
    KidsEntriesAt(kids, at);
    assert Entries(t) == KidsEntries(kids);
    hide Entries;
    hide KidsEntries;
    Around(kids, at);
    if Ordered(k, h - 1, LowerOf(t.keys, at, lo), UpperOf(t.keys, at, hi)) { KidReplaced(t.keys, kids, h - 1, lo, hi, at, k); }
  }

  lemma AllFullAround(t: Tree, at: nat, k: Tree)
    requires t.BranchAt? && at < |t.kids| && Full(t)
    ensures Shaped(k) ==> AllFullBut(t.kids[..at] + [k] + t.kids[at + 1..], at)
  {
    var kids1 := t.kids[..at] + [k] + t.kids[at + 1..];
    if Shaped(k) {
      forall j: nat | j < |kids1| ensures Shaped(kids1[j]) && (j != at ==> Full(kids1[j])) {
        if j != at {
          assert kids1[j] == t.kids[j] && t.kids[j] in t.kids;
          assert Full(t.kids[j]);
        }
      }
    }
  }

  lemma AllFull(kids: seq<Tree>, at: nat)
    requires at < |kids| && AllFullBut(kids, at) && !Thin(kids[at])
    ensures forall k | k in kids :: Full(k)
  {
    NotUnderfull(kids[at]);
    hide Full;
    hide Shaped;
  }

  lemma KidIsGood(w: World, id: PageId, kids: seq<Tree>, at: nat)
    requires at < |kids| && Good(w, Both(Loose([id]), Subtrees(kids)))
    ensures Good(w, Subtrees([kids[at]]))
  {
    hide Good;
    hide Yields;
    var a, b := kids[..at], kids[at + 1..];
    Around(kids, at);
    StretchReopens(id, a, [kids[at]], b);
    PartGood(w, Both(Loose([id]), Subtrees(kids)), Subtrees([kids[at]]), Both(Loose([id]), Both(Subtrees(a), Subtrees(b))));
  }

  lemma UniformFits(id: PageId, keys: seq<Bytes>, kids: seq<Tree>, left: nat, sep: Bytes, right: PageId, n: nat)
    requires left < |keys| && BranchBytes(keys) <= CAPACITY && Uniform(BranchAt(id, keys, kids), n) && (right == 0 || |sep| == n)
    ensures BranchBytes(KeysAfter(keys, left, sep, right)) <= CAPACITY
  {
    assert keys[left] in keys;
    KeysAfterFit(keys, left, sep, right);
  }

  lemma BranchIsSound(id: PageId, keys: seq<Bytes>, kids: seq<Tree>, h: nat, lo: Bytes, hi: Option<Bytes>)
    requires h > 0 && OrderedKids(keys, kids, h - 1, lo, hi) && BranchBytes(keys) <= CAPACITY && (forall k | k in kids :: Full(k))
    ensures Ordered(BranchAt(id, keys, kids), h, lo, hi) && Shaped(BranchAt(id, keys, kids))
    ensures Entries(BranchAt(id, keys, kids)) == KidsEntries(kids)
  {
    OrderedBranch(id, keys, kids, h, lo, hi);
    hide OrderedKids;
    hide Ordered;
    hide BranchBytes;
  }

  lemma NothingRemoved(k: Bytes)
    ensures Removed([], k) == []
  {
  }

  ghost function ForestOf(tree: Option<Tree>): seq<Tree> { if tree.None? then [] else [tree.value] }

  /** The version holds this tree: its root page is the one the meta names, and its pages are exactly the tree's. */
  ghost predicate Preserves(v: Version, tree: Option<Tree>, h: nat) {
    && v.meta.root == (if tree.None? then 0 else tree.value.id)
    && (tree.Some? ==> tree.value.id != 0 && Ordered(tree.value, h, [], None) && Full(tree.value) && Spells(v.tree, tree.value))
    && (forall p: PageId :: Weight(Subtrees(ForestOf(tree)), p) == Has(v.tree.Keys, p))
  }

  /** A commit leaves the pages of the tree as they were. */
  lemma CommittedReads(w0: World, w1: World, forest: seq<Tree>)
    requires Exact(w0, Subtrees(forest)) && Written(w0.pages, Subtrees(forest))
    requires w1.owned == w0.owned && Restrict(w1.pages, w0.owned) == Restrict(w0.pages, w0.owned)
    ensures Exact(w1, Subtrees(forest)) && Written(w1.pages, Subtrees(forest))
  {
    hide Weight;
    hide Written;
    var a, b := Restrict(w0.pages, w0.owned), Restrict(w1.pages, w0.owned);
    forall p | p in w0.pages && Weight(Subtrees(forest), p) > 0 ensures p in w1.pages && w1.pages[p] == w0.pages[p] {
      assert Weight(Subtrees(forest), p) == Has(w0.owned, p);
      assert p in a;
      assert p in b && b[p] == a[p];
    }
    WrittenFrame(Subtrees(forest), w0.pages, w1.pages);
  }

  lemma CommittedPreserves(w: World, v: Version, tree: Option<Tree>, h: nat)
    requires Exact(w, Subtrees(ForestOf(tree))) && Written(w.pages, Subtrees(ForestOf(tree)))
    requires v.tree == Restrict(w.pages, w.owned) && v.tree.Keys == w.owned
    requires v.meta.root == (if tree.None? then 0 else tree.value.id)
    requires tree.Some? ==> tree.value.id != 0 && Ordered(tree.value, h, [], None) && Full(tree.value)
    ensures Preserves(v, tree, h)
  {
    hide Ordered;
    hide Full;
    if tree.Some? {
      var t := tree.value;
      assert t in ForestOf(tree);
      forall p | p in w.pages && Occurs(t, p) > 0 ensures p in v.tree && v.tree[p] == w.pages[p] {
        KidsOccurOne(t, p);
        assert Weight(Subtrees(ForestOf(tree)), p) == Has(w.owned, p);
      }
      hide Weight;
      hide Spells;
      hide Occurs;
      SpellsFrame(w.pages, v.tree, t);
    }
  }

  lemma OpenedReads(disk: Disk, v: Version, tree: Option<Tree>, h: nat)
    requires Intact(disk, v) && Preserves(v, tree, h)
    ensures Written(PagesIn(disk.View()), Subtrees(ForestOf(tree)))
  {
    hide Ordered;
    hide Full;
    if tree.Some? {
      var t, pages := tree.value, PagesIn(disk.View());
      forall p | p in v.tree ensures p in pages && pages[p] == v.tree[p] { }
      hide PagesIn;
      hide Spells;
      SpellsFrame(v.tree, pages, t);
      assert ForestOf(tree) == [t];
    }
  }

  class BTree {
    const pages: Pager
    var root: PageId
    /** The tree the pages spell, if any, and how high it is. */
    ghost var tree: Option<Tree>
    ghost var height: nat

    /** A handle on the tree at a root. */
    constructor At(pages: Pager, root: PageId, ghost tree: Option<Tree>, ghost height: nat)
      ensures this.pages == pages && this.root == root && this.tree == tree && this.height == height
    {
      this.pages, this.root, this.tree, this.height := pages, root, tree, height;
    }

    /** What a rewrite can see of the pager. */
    ghost function Here(): World
      reads pages`disk, pages`owned, pages`stable, pages`held, pages`readers, pages`history
    {
      World(pages.Pages(), pages.owned, pages.stable, pages.held, pages.readers, pages.history)
    }

    /** The pager is in order, with two meta pages at the front of the file. */
    ghost predicate Ready()
      reads pages
    {
      pages.Valid() && pages.reserved == 2
    }

    ghost function Forest(): seq<Tree>
      reads this`tree
    {
      ForestOf(tree)
    }

    /** What the tree denotes. */
    ghost function Contents(): seq<Pair>
      reads this`tree
    {
      if tree.None? then [] else Entries(tree.value)
    }

    /** All leaves at one depth, left < separator <= right everywhere, at least two children per branch, every page fitting. */
    ghost predicate Sound()
      reads this`root, this`tree, this`height
    {
      && (root == 0 <==> tree.None?)
      && (tree.Some? ==> tree.value.id == root && Ordered(tree.value, height, [], None) && Full(tree.value))
    }

    ghost predicate KeysAre(n: nat)
      reads this`tree
    {
      tree.Some? ==> Uniform(tree.value, n)
    }

    /** Between operations: the pages spell a sound tree, and they are exactly the pages the client holds. */
    ghost predicate Valid()
      reads this, pages
    {
      Ready() && Sound() && Exact(Here(), Subtrees(Forest())) && Written(pages.Pages(), Subtrees(Forest()))
    }

    /** place: keeps the page the transaction owns, and trades one it does not own for a new one; the books stay exact. */
    method Place(at: PageId) returns (r: Option<PageId>)
      requires Ready() && (at == 0 || at in pages.owned)
      modifies pages`meta, pages`taken, pages`free, pages`owned
      ensures Ready()
      ensures Quiet(old(Here()), Here())
      ensures r.None? ==> pages.AtQuota()
      ensures r.Some? ==> r.value >= 2 && pages.Dirty(r.value) && r.value in pages.owned
      ensures r.Some? ==> Steps(old(Here()), Loose(AtMostOne(at)), Here(), Loose([r.value]))
    {
      QuietStart(Here());
      hide OnlyLeads;
      hide Steps;
      hide Pager.Recoverable;
      hide Pager.Booked;
      if at != 0 {
        if pages.Dirty(at) {
          PlacedTrades(Here(), at, Here(), at);
          OwnedInRange(at);
          return Some(at);
        }
        pages.Free(at);
      }
      r := pages.Allocate();
      if r.Some? {
        PlacedTrades(old(Here()), at, Here(), r.value);
      }
    }

    lemma OwnedInRange(at: PageId)
      requires Ready() && at in pages.owned
      ensures 2 <= at < pages.meta.pageCount
    {
      assert at in pages.Used();
      assert pages.Books().Sums(pages.Used());
      hide Copies;
      hide Waiting;
      hide Book.Shields;
      hide Book.Ranges;
      hide Pager.Recoverable;
      assert Copies(pages.Books().free.ready, at) >= 0;
    }

    /** Puts one node in the file. */
    method PutNode(at: PageId, page: Page) returns (r: Option<PageId>)
      requires Ready() && (at == 0 || at in pages.owned)
      modifies pages`meta, pages`taken, pages`free, pages`owned, pages`disk, pages`history
      ensures Ready()
      ensures Quiet(old(Here()), Here())
      ensures r.None? ==> pages.AtQuota()
      ensures r.Some? ==> r.value >= 2
      ensures r.Some? ==> Steps(old(Here()), Loose(AtMostOne(at)), Here(), Node(r.value, page))
    {
      hide OnlyLeads;
      hide Steps;
      hide Pager.Recoverable;
      hide Pager.Booked;
      hide Pager.Current;
      r := Place(at);
      if r.Some? {
        ghost var w := Here();
        var ok := pages.Write(r.value, page);
        WriteTrades(w, r.value, page, Here());
        QuietChain(old(Here()), w, Here());
        StepsChain(old(Here()), Loose(AtMostOne(at)), w, Loose([r.value]), Here(), Node(r.value, page));
      }
    }

    method WriteLeaf(at: PageId, entries: seq<Stored>) returns (out: Outcome, id: PageId)
      requires Ready() && (at == 0 || at in pages.owned)
      modifies pages`meta, pages`taken, pages`free, pages`owned, pages`disk, pages`history
      ensures Ready()
      ensures Quiet(old(Here()), Here())
      ensures out.Done? || out.NoRoom? || out.CannotSplit?
      ensures out.Done? ==> LeafBytes(entries) <= CAPACITY && id >= 2
      ensures out.Done? ==> Steps(old(Here()), Loose(AtMostOne(at)), Here(), Node(id, Leaf(entries)))
      ensures out.NoRoom? ==> pages.AtQuota()
      ensures out.CannotSplit? ==> LeafBytes(entries) > CAPACITY
    {
      hide Quiet;
      hide Steps;
      hide Pager.Valid;
      hide LeafBytes;
      id := 0;
      if LeafBytes(entries) > CAPACITY {
        var r := Place(at);
        return (if r.None? then NoRoom else CannotSplit), 0;
      }
      var r := PutNode(at, Leaf(entries));
      if r.None? {
        return NoRoom, 0;
      }
      return Done, r.value;
    }

    method WriteBranch(at: PageId, keys: seq<Bytes>, children: seq<PageId>) returns (out: Outcome, id: PageId)
      requires Ready() && (at == 0 || at in pages.owned)
      modifies pages`meta, pages`taken, pages`free, pages`owned, pages`disk, pages`history
      ensures Ready()
      ensures Quiet(old(Here()), Here())
      ensures out.Done? || out.NoRoom? || out.CannotSplit? || out.Malformed?
      ensures out.Malformed? ==> |children| != |keys| + 1
      ensures out.Done? ==> |children| == |keys| + 1 && BranchBytes(keys) <= CAPACITY && id >= 2
      ensures out.Done? ==> Steps(old(Here()), Loose(AtMostOne(at)), Here(), Node(id, Branch(keys, children)))
      ensures out.NoRoom? ==> pages.AtQuota()
      ensures out.CannotSplit? ==> BranchBytes(keys) > CAPACITY
    {
      hide Quiet;
      hide Steps;
      hide Pager.Valid;
      hide BranchBytes;
      id := 0;
      if |children| != |keys| + 1 || BranchBytes(keys) > CAPACITY {
        var r := Place(at);
        return (if r.None? then NoRoom else if |children| != |keys| + 1 then Malformed else CannotSplit), 0;
      }
      var r := PutNode(at, Branch(keys, children));
      if r.None? {
        return NoRoom, 0;
      }
      return Done, r.value;
    }

    /** writeOverflow: new pages that together carry the value, each naming the next. */
    method WriteOverflow(value: Bytes) returns (r: Option<PageId>, ghost ids: seq<PageId>)
      requires Ready() && value != []
      modifies pages`meta, pages`taken, pages`free, pages`owned, pages`disk, pages`history
      ensures Ready()
      ensures Quiet(old(Here()), Here())
      ensures r.None? ==> pages.AtQuota()
      ensures r.Some? ==> |ids| == Chunks(|value|) && r.value == HeadOf(ids) && (forall p | p in ids :: p >= 2)
      ensures r.Some? ==> Steps(old(Here()), NOTHING, Here(), Links(ids, value, 0))
    {
      hide Quiet;
      hide Pager.Valid;
      hide Steps;
      hide Yields;
      var next: PageId := 0;
      ids := [];
      var start := (|value| - 1) / CHUNK * CHUNK;
      ghost var first: nat := (|value| - 1) / CHUNK + 1;
      ghost var w0 := Here();
      QuietStart(w0);
      ChainBegins(w0, value, first);
      while start >= 0
        invariant start == (first - 1) * CHUNK && first <= Chunks(|value|) && |ids| == Chunks(|value|) - first
        invariant Ready() && Quiet(w0, Here())
        invariant next == HeadOf(ids) && (forall p | p in ids :: p >= 2)
        invariant Steps(w0, NOTHING, Here(), Links(ids, value, first))
        decreases first
      {
        var chunk := value[start..Min(start + CHUNK, |value|)];
        first := first - 1;
        ghost var w := Here();
        var id := PutNode(0, Blob(next, chunk));
        QuietChain(w0, w, Here());
        if id.None? {
          return None, ids;
        }
        ChainGoesOn(w0, w, Here(), ids, value, first, id.value);
        next := id.value;
        ids := [id.value] + ids;
        start := start - CHUNK;
      }
      return Some(next), ids;
    }

    /** release: every page of the chain, and no other, goes back to the pager. */
    method Release(e: Stored, ghost i: Item)
      requires Ready() && e == StoredOf(i) && ItemOk(i) && Good(Here(), Values([i]))
      modifies pages`free, pages`owned
      ensures Ready()
      ensures Quiet(old(Here()), Here())
      ensures Steps(old(Here()), Values([i]), Here(), Values([]))
    {
      hide Quiet;
      hide Pager.Valid;
      hide Steps;
      hide Yields;
      hide Good;
      ghost var w0 := Here();
      QuietStart(w0);
      ReleaseBegins(w0, i);
      if e.Inline? {
        ReleaseEnds(w0, w0, i, 0);
        return;
      }
      var id: PageId := e.head;
      ghost var k: nat := 0;
      while id != 0
        invariant k <= |i.pages| && id == (if k < |i.pages| then i.pages[k] else 0) && (id == 0 <==> k == |i.pages|)
        invariant Ready() && Quiet(w0, Here())
        invariant Steps(w0, Values([i]), Here(), Links(i.pages[k..], i.value, k))
        decreases |i.pages| - k
      {
        ghost var w := Here();
        LinkReads(w0, w, i, k);
        OwnedInRange(id);
        var page := pages.Read(id);
        var next := page.value.next;
        pages.Free(id);
        ReleaseGoesOn(w0, w, Here(), i, k);
        QuietOwned(w, Here());
        QuietChain(w0, w, Here());
        id := next;
        k := k + 1;
      }
      ReleaseEnds(w0, Here(), i, k);
    }

    /** Puts the entries of a leaf in the file, on one page or on two. */
    method StoreLeaf(id: PageId, entries: seq<Stored>, ghost items: seq<Item>, ghost lo: Bytes, ghost hi: Option<Bytes>, ghost n: nat)
      returns (out: Outcome, left: PageId, separator: Bytes, right: PageId, ghost mid: seq<Tree>)
      requires Ready() && id != 0 && id in pages.owned
      requires entries == StoredAll(items) && items != [] && ItemsOk(items, lo, hi)
      requires Good(Here(), Both(Loose([id]), Values(items)))
      modifies pages`meta, pages`taken, pages`free, pages`owned, pages`disk, pages`history
      ensures Ready() && Quiet(old(Here()), Here())
      ensures out.Done? || out.NoRoom? || out.CannotSplit?
      ensures out.NoRoom? ==> pages.AtQuota()
      ensures out.CannotSplit? <==> LeafBytes(entries) > CAPACITY && !exists c :: LeafFitsAt(entries, c)
      ensures out.Done? ==> Grafted(mid, left, separator, right, 0, lo, hi) && KidsEntries(mid) == PairsOf(items)
      ensures out.Done? && Uniform(LeafAt(id, items), n) ==> UniformGraft(mid, separator, right, n)
      ensures out.Done? ==> Sprouts(mid, separator, Some(items[0].key))
      ensures out.Done? && LeafBytes(entries) <= CAPACITY ==> |mid| == 1 && mid[0].LeafAt?
      ensures out.Done? ==> Steps(old(Here()), Both(Loose([id]), Values(items)), Here(), Subtrees(mid))
    {
      hide Quiet;
      hide Pager.Valid;
      hide Steps;
      hide Good;
      hide ItemsOk;
      hide LeafBytes;
      hide Grafted;
      hide Uniform;
      hide UniformGraft;
      hide KidsEntries;
      hide Sprouts;
      hide LeafFitsAt;
      left, separator, right, mid := 0, [], 0, [];
      ghost var w0 := Here();
      if LeafBytes(entries) <= CAPACITY {
        out, left := WriteLeaf(id, entries);
        if out.Done? {
          LeafStays(w0, Here(), id, left, items);
          LeafGrafts(left, items, lo, hi);
          mid := [LeafAt(left, items)];
          SproutLeaf(left, items, separator);
          if Uniform(LeafAt(id, items), n) { UniformMoved(LeafAt(id, items), mid[0], n); }
        }
        return;
      }
      QuietStart(w0);
      var cut, ok := SplitLeaf(entries);
      if !ok {
        return CannotSplit, 0, [], 0, [];
      }
      CutFits(items, cut);
      assert LeafFitsAt(entries, cut);
      out, left := WriteLeaf(id, entries[..cut]);
      if !out.Done? {
        return;
      }
      ghost var w1 := Here();
      out, right := WriteLeaf(0, entries[cut..]);
      QuietChain(w0, w1, Here());
      if !out.Done? {
        return;
      }
      separator := entries[cut].key;
      LeafParts(w0, w1, Here(), id, left, right, items, cut);
      if Uniform(LeafAt(id, items), n) { UniformMoved(LeafAt(id, items), LeafAt(left, items), n); UniformCut(left, right, items, cut, n); }
      LeavesGraft(left, right, items, lo, hi, cut);
      SproutLeaves(left, right, items, cut);
      mid := [LeafAt(left, items[..cut]), LeafAt(right, items[cut..])];
    }

    /** Puts the keys and children of a branch in the file, on one page or on two. */
    method StoreBranch(id: PageId, keys: seq<Bytes>, children: seq<PageId>, ghost kids: seq<Tree>, ghost h: nat, ghost lo: Bytes,
        ghost hi: Option<Bytes>, ghost n: nat)
      returns (out: Outcome, left: PageId, separator: Bytes, right: PageId, ghost mid: seq<Tree>)
      requires Ready() && id != 0 && id in pages.owned
      requires children == RootsOf(kids) && |kids| == |keys| + 1 && keys != [] && OrderedKids(keys, kids, h, lo, hi)
      requires BranchBytes(keys) <= 2 * CAPACITY - BRANCH_HEADER && (forall k | k in kids :: Full(k))
      requires Good(Here(), Both(Loose([id]), Subtrees(kids)))
      modifies pages`meta, pages`taken, pages`free, pages`owned, pages`disk, pages`history
      ensures Ready() && Quiet(old(Here()), Here())
      ensures out.Done? || out.NoRoom?
      ensures out.NoRoom? ==> pages.AtQuota()
      ensures out.Done? ==> Grafted(mid, left, separator, right, h + 1, lo, hi) && KidsEntries(mid) == KidsEntries(kids)
      ensures out.Done? && Uniform(BranchAt(id, keys, kids), n) ==> UniformGraft(mid, separator, right, n)
      ensures out.Done? && SnugKids(keys, kids) ==> Sprouts(mid, separator, Head(kids[0]))
      ensures out.Done? ==> Steps(old(Here()), Both(Loose([id]), Subtrees(kids)), Here(), Subtrees(mid))
    {
      hide Quiet;
      hide Pager.Valid;
      hide Steps;
      hide Good;
      hide Full;
      hide BranchBytes;
      hide Grafted;
      hide Uniform;
      hide Sprouts;
      hide SnugKids;
      hide Head;
      hide UniformGraft;
      hide KidsEntries;
      left, separator, right, mid := 0, [], 0, [];
      ghost var w0 := Here();
      if BranchBytes(keys) <= CAPACITY {
        hide OrderedKids;
        out, left := WriteBranch(id, keys, children);
        if out.Done? {
          BranchStays(w0, Here(), id, left, keys, kids);
          BranchGrafts(left, keys, kids, h, lo, hi);
          mid := [BranchAt(left, keys, kids)];
          if SnugKids(keys, kids) { SproutBranch(left, keys, kids, separator); }
          if Uniform(BranchAt(id, keys, kids), n) { UniformMoved(BranchAt(id, keys, kids), mid[0], n); }
        }
        return;
      }
      BranchSplits(keys);
      assert forall k | k in keys :: LegalKey(k);
      hide OrderedKids;
      var cut, ok := SplitBranch(keys);
      BranchHalvesHaveKeys(keys, cut);
      RootsCut(kids, cut + 1);
      assert BranchFitsAt(keys, cut);
      out, left := WriteBranch(id, keys[..cut], children[..cut + 1]);
      if !out.Done? {
        return;
      }
      ghost var w1 := Here();
      out, right := WriteBranch(0, keys[cut + 1..], children[cut + 1..]);
      QuietChain(w0, w1, Here());
      if !out.Done? {
        return;
      }
      separator := keys[cut];
      BranchParts(w0, w1, Here(), id, left, right, keys[..cut], kids[..cut + 1], keys[cut + 1..], kids[cut + 1..]);
      BranchesGraft(left, right, keys, kids, h, lo, hi, cut);
      if SnugKids(keys, kids) { SproutBranches(left, right, keys, kids, cut); }
      if Uniform(BranchAt(id, keys, kids), n) {
        UniformMoved(BranchAt(id, keys, kids), BranchAt(left, keys, kids), n);
        UniformBranchCut(left, right, keys, kids, cut, n);
      }
      mid := [BranchAt(left, keys[..cut], kids[..cut + 1]), BranchAt(right, keys[cut + 1..], kids[cut + 1..])];
    }

    lemma RootsCut(kids: seq<Tree>, cut: nat)
      requires cut <= |kids|
      ensures RootsOf(kids)[..cut] == RootsOf(kids[..cut]) && RootsOf(kids)[cut..] == RootsOf(kids[cut..])
      ensures kids == kids[..cut] + kids[cut..]
    {
    }

    /**
     insert: what the subtree denotes, updated by the entry. It comes back as one
     subtree or as two, in order, with the separator that stands between them. It fails to split
     exactly when the entry is the largest there is and jams the leaf it belongs in.
     */
    method Insert(id: PageId, e: Stored, ghost i: Item, ghost t: Tree, ghost h: nat, ghost lo: Bytes, ghost hi: Option<Bytes>, ghost n: nat)
      returns (out: Outcome, left: PageId, separator: Bytes, right: PageId, ghost mid: seq<Tree>)
      requires Ready() && id == t.id && e == StoredOf(i) && ItemOk(i) && Inside(i.key, lo, hi)
      requires Ordered(t, h, lo, hi) && Full(t)
      requires Good(Here(), Both(Subtrees([t]), Values([i])))
      modifies pages`meta, pages`taken, pages`free, pages`owned, pages`disk, pages`history
      ensures Ready() && Quiet(old(Here()), Here())
      ensures out.Done? || out.NoRoom? || out.CannotSplit?
      ensures out.NoRoom? ==> pages.AtQuota()
      ensures out.CannotSplit? <==> Jams(t, i)
      ensures out.Done? ==> Grafted(mid, left, separator, right, h, lo, hi)
      ensures out.Done? ==> KidsEntries(mid) == Updated(Entries(t), i.key, i.value)
      ensures out.Done? && Uniform(t, n) && |i.key| == n ==> UniformGraft(mid, separator, right, n)
      ensures out.Done? && t.LeafAt? && OneLeaf(Updated(Entries(t), i.key, i.value)) ==> |mid| == 1 && mid[0].LeafAt?
      ensures out.Done? && Snug(t) ==> Sprouts(mid, separator, Begun(t, i.key))
      ensures out.Done? ==> Steps(old(Here()), Both(Subtrees([t]), Values([i])), Here(), Subtrees(mid))
      decreases t, 1
    {
      hide Quiet;
      hide Pager.Valid;
      hide Steps;
      hide Good;
      hide Grafted;
      hide Uniform;
      hide Sprouts;
      hide Snug;
      hide OneLeaf;
      hide Begun;
      hide UniformGraft;
      hide KidsEntries;
      hide Updated;
      ghost var w0 := Here();
      GoodParts(w0, Subtrees([t]), Values([i]));
      RootReads(w0, t);
      OwnedInRange(id);
      var page := pages.Read(id);
      match page.value {
        case Leaf(entries) =>
          out, left, separator, right, mid := InsertLeaf(id, e, entries, i, t.items, lo, hi, n);
        case Branch(keys, children) =>
          out, left, separator, right, mid := InsertBelow(id, e, keys, children, i, t, h, lo, hi, n);
        case _ =>
          assert false;
      }
    }

    /** insert, at a leaf. */
    method InsertLeaf(id: PageId, e: Stored, entries: seq<Stored>, ghost i: Item, ghost items: seq<Item>, ghost lo: Bytes,
        ghost hi: Option<Bytes>, ghost n: nat)
      returns (out: Outcome, left: PageId, separator: Bytes, right: PageId, ghost mid: seq<Tree>)
      requires Ready() && id != 0 && e == StoredOf(i) && ItemOk(i) && Inside(i.key, lo, hi)
      requires entries == StoredAll(items) && ItemsOk(items, lo, hi) && LeafBytes(entries) <= CAPACITY
      requires Good(Here(), Both(Subtrees([LeafAt(id, items)]), Values([i])))
      modifies pages`meta, pages`taken, pages`free, pages`owned, pages`disk, pages`history
      ensures Ready() && Quiet(old(Here()), Here())
      ensures out.Done? || out.NoRoom? || out.CannotSplit?
      ensures out.NoRoom? ==> pages.AtQuota()
      ensures out.CannotSplit? <==> Jams(LeafAt(id, items), i)
      ensures out.Done? ==> Grafted(mid, left, separator, right, 0, lo, hi)
      ensures out.Done? ==> KidsEntries(mid) == Updated(PairsOf(items), i.key, i.value)
      ensures out.Done? && Uniform(LeafAt(id, items), n) && |i.key| == n ==> UniformGraft(mid, separator, right, n)
      ensures out.Done? ==> Sprouts(mid, separator, Begun(LeafAt(id, items), i.key))
      ensures out.Done? && OneLeaf(Updated(PairsOf(items), i.key, i.value)) ==> |mid| == 1 && mid[0].LeafAt?
      ensures out.Done? ==> Steps(old(Here()), Both(Subtrees([LeafAt(id, items)]), Values([i])), Here(), Subtrees(mid))
    {
      hide Quiet;
      hide Pager.Valid;
      hide Steps;
      hide Good;
      hide Grafted;
      hide Uniform;
      hide Sprouts;
      hide OneLeaf;
      hide Begun;
      hide UniformGraft;
      hide KidsEntries;
      hide Updated;
      hide LeafBytes;
      hide Less;
      hide Jams;
      hide LeafFitsAt;
      ghost var w0 := Here();
      var at, found := FindKey(entries, e.key);
      FindsItem(items, lo, hi, i.key, at, found);
      assert found ==> ItemOk(items[at]);
      LeafPut(items, lo, hi, i, at, found);
      JamsLeaf(id, items, lo, hi, i, at, found);
      LeafBegun(id, items, at, found, i);
      PutFitsLeaf(items, lo, hi, at, found, i);
      hide ItemsOk;
      hide ItemOk;
      hide Finds;
      PutStored(items, at, found, i);
      GoneIsGood(w0, id, items, at, found, i);
      var after: seq<Stored>;
      if found {
        // The old value goes, and with it every page of its chain.
        Release(entries[at], items[at]);
        after := entries[..at] + [e] + entries[at + 1..];
      } else {
        StepsNothing(w0, Values([]));
        QuietStart(w0);
        after := entries[..at] + [e] + entries[at..];
      }
      ghost var w1, items1 := Here(), PutItem(items, at, found, i);
      LeafTakes(w0, w1, id, items, at, found, i);
      StepEnds(w0, Both(Subtrees([LeafAt(id, items)]), Values([i])), w1, Both(Loose([id]), Values(items1)));
      LooseHeld(w1, id, Values(items1));
      assert |items1| > 0;
      if Uniform(LeafAt(id, items), n) && |i.key| == n { UniformPut(id, items, at, found, i, n); }
      hide PutItem;
      out, left, separator, right, mid := StoreLeaf(id, after, items1, lo, hi, n);
      QuietChain(w0, w1, Here());
      if out.Done? {
        StepsChain(w0, Both(Subtrees([LeafAt(id, items)]), Values([i])), w1, Both(Loose([id]), Values(items1)), Here(), Subtrees(mid));
      }
    }

    /** How much the leaf takes up afterwards, told from what it then denotes. */
    lemma PutFitsLeaf(items: seq<Item>, lo: Bytes, hi: Option<Bytes>, at: nat, found: bool, i: Item)
      requires ItemsOk(items, lo, hi) && Finds(items, i.key, at, found) && ItemOk(i) && Inside(i.key, lo, hi)
      ensures LeafBytes(StoredAll(PutItem(items, at, found, i))) <= CAPACITY <==> OneLeaf(Updated(PairsOf(items), i.key, i.value))
    {
      LeafPut(items, lo, hi, i, at, found);
      hide Updated;
      hide Less;
      hide PutItem;
      hide Total;
      hide ItemOk;
      LeafBytesOf(PutItem(items, at, found, i));
    }

    /** A branch whose child has been put to is one that can be stored, in the place of what there was. */
    lemma KidStored(w0: World, w1: World, t: Tree, i: Item, h: nat, lo: Bytes, hi: Option<Bytes>, at: nat, under: seq<Tree>,
                    child: PageId, sep: Bytes, split: PageId)
      requires t.BranchAt? && Ordered(t, h, lo, hi) && Full(t) && at < |t.kids| && |t.kids| == |t.keys| + 1 && h > 0
      requires Good(w0, Both(Subtrees([t]), Values([i]))) && Inside(i.key, LowerOf(t.keys, at, lo), UpperOf(t.keys, at, hi))
      requires Grafted(under, child, sep, split, h - 1, LowerOf(t.keys, at, lo), UpperOf(t.keys, at, hi))
      requires KidsEntries(under) == Updated(Entries(t.kids[at]), i.key, i.value)
      requires Steps(w0, Both(Subtrees([t.kids[at]]), Values([i])), w1, Subtrees(under))
      ensures
        var keys1, kids1, children := KeysWith(t.keys, at, sep, split), t.kids[..at] + under + t.kids[at + 1..], RootsOf(t.kids);
        && RootsOf(kids1) == (if split == 0 then children[at := child] else children[..at] + [child, split] + children[at + 1..])
        && |kids1| == |keys1| + 1 && keys1 != [] && OrderedKids(keys1, kids1, h - 1, lo, hi)
        && BranchBytes(keys1) <= 2 * CAPACITY - BRANCH_HEADER && (forall k | k in kids1 :: Full(k))
        && KidsEntries(kids1) == Updated(KidsEntries(t.kids), i.key, i.value) && Quiet(w0, w1)
        && Steps(w0, Both(Subtrees([t]), Values([i])), w1, Both(Loose([t.id]), Subtrees(kids1)))
        && Good(w1, Both(Loose([t.id]), Subtrees(kids1))) && t.id in w1.owned
    {
      hide Quiet;
      hide Steps;
      hide Good;
      hide Grafted;
      hide KidsEntries;
      hide Entries;
      hide Updated;
      hide BranchBytes;
      hide Ordered;
      hide OrderedKids;
      hide Full;
      hide Inside;
      hide LowerOf;
      hide UpperOf;
      ghost var keys, kids := t.keys, t.kids;
      FullIsShaped(t);
      BranchFacts(t, h, lo, hi);
      KidTook(w0, w1, t.id, keys, kids, at, i, under);
      PutInKid(keys, kids, h, lo, hi, at, under, i.key, i.value);
      KidGrafted(keys, kids, h - 1, lo, hi, at, under, child, sep, split);
      GraftedRoots(under, child, sep, split, h - 1, LowerOf(keys, at, lo), UpperOf(keys, at, hi));
      RootsAround(kids, at, under, RootsOf(kids));
      if split != 0 { KeysGrow(keys, at, sep, split); }
      var c, kids1 := Both(Subtrees([t]), Values([i])), kids[..at] + under + kids[at + 1..];
      StepEnds(w0, c, w1, Both(Loose([t.id]), Subtrees(kids1)));
      LooseHeld(w1, t.id, Subtrees(kids1));
      FullAround(kids, at, under);
    }

    /** insert, at a branch. */
    method InsertBelow(id: PageId, e: Stored, keys: seq<Bytes>, children: seq<PageId>, ghost i: Item, ghost t: Tree, ghost h: nat,
        ghost lo: Bytes, ghost hi: Option<Bytes>, ghost n: nat)
      returns (out: Outcome, left: PageId, separator: Bytes, right: PageId, ghost mid: seq<Tree>)
      requires Ready() && e == StoredOf(i) && ItemOk(i) && Inside(i.key, lo, hi)
      requires t.BranchAt? && t.id == id != 0 && keys == t.keys && children == RootsOf(t.kids)
      requires Ordered(t, h, lo, hi) && Full(t)
      requires Good(Here(), Both(Subtrees([t]), Values([i])))
      modifies pages`meta, pages`taken, pages`free, pages`owned, pages`disk, pages`history
      ensures Ready() && Quiet(old(Here()), Here())
      ensures out.Done? || out.NoRoom? || out.CannotSplit?
      ensures out.NoRoom? ==> pages.AtQuota()
      ensures out.CannotSplit? <==> Jams(t, i)
      ensures out.Done? ==> Grafted(mid, left, separator, right, h, lo, hi)
      ensures out.Done? ==> KidsEntries(mid) == Updated(KidsEntries(t.kids), i.key, i.value)
      ensures out.Done? && Uniform(t, n) && |i.key| == n ==> UniformGraft(mid, separator, right, n)
      ensures out.Done? && Snug(t) ==> Sprouts(mid, separator, Begun(t, i.key))
      ensures out.Done? ==> Steps(old(Here()), Both(Subtrees([t]), Values([i])), Here(), Subtrees(mid))
      decreases t, 0
    {
      hide Pager.AtQuota;
      hide Quiet;
      hide Pager.Valid;
      hide Steps;
      hide Good;
      hide Grafted;
      hide Uniform;
      hide Sprouts;
      hide Snug;
      hide SnugKids;
      hide Begun;
      hide Head;
      hide UniformGraft;
      hide KidsEntries;
      hide Entries;
      hide Updated;
      hide Less;
      hide Jams;
      hide ItemOk;
      hide BranchBytes;
      hide Ordered;
      hide OrderedKids;
      hide Full;
      hide Inside;
      hide LowerOf;
      hide UpperOf;
      ghost var w0, kids := Here(), t.kids;
      FullIsShaped(t);
      BranchFacts(t, h, lo, hi);
      var at := ChildFor(keys, e.key);
      RouteInside(keys, lo, hi, i.key, at);
      JamsBelow(id, keys, kids, i, at);
      KidTakes(w0, id, keys, kids, at, i);
      if Uniform(t, n) { UniformKidOf(t, at, n); }
      if Snug(t) { SnugKidOf(t, at); }
      ghost var lower, upper := LowerOf(keys, at, lo), UpperOf(keys, at, hi);
      var child, sep, split;
      ghost var under;
      out, child, sep, split, under := Insert(children[at], e, i, kids[at], h - 1, lower, upper, n);
      left, separator, right, mid := 0, [], 0, [];
      if !out.Done? {
        return;
      }
      if Snug(t) { SproutKid(t, h, lo, hi, at, i.key, under, sep); }
      ghost var w1, c, kids1 := Here(), Both(Subtrees([t]), Values([i])), kids[..at] + under + kids[at + 1..];
      KidStored(w0, w1, t, i, h, lo, hi, at, under, child, sep, split);
      var keys1, children1 := keys, children[at := child];
      if split != 0 {
        keys1 := keys[..at] + [sep] + keys[at..];
        children1 := children[..at] + [child, split] + children[at + 1..];
      }
      if Uniform(t, n) && |i.key| == n { UniformKid(id, keys, kids, at, under, sep, split, n); }
      out, left, separator, right, mid := StoreBranch(id, keys1, children1, kids1, h - 1, lo, hi, n);
      QuietChain(w0, w1, Here());
      if out.Done? {
        StepsChain(w0, c, w1, Both(Loose([id]), Subtrees(kids1)), Here(), Subtrees(mid));
      }
    }

    /** store: the entry for a value, legal for a leaf, whose pages if it has any are new and carry the value. */
    method StoreValue(key: Bytes, value: Bytes) returns (out: Outcome, e: Stored, ghost i: Item)
      requires Ready() && LegalKey(key) && |value| <= MAX_VALUE
      modifies pages`meta, pages`taken, pages`free, pages`owned, pages`disk, pages`history
      ensures Ready() && Quiet(old(Here()), Here())
      ensures out.Done? || out.NoRoom?
      ensures out.NoRoom? ==> pages.AtQuota() && |value| > MAX_INLINE
      ensures out.Done? ==> e == StoredOf(i) && ItemOk(i) && i.key == key && i.value == value
      ensures out.Done? ==> Steps(old(Here()), NOTHING, Here(), Values([i]))
    {
      hide Quiet;
      hide Pager.Valid;
      hide Steps;
      ghost var w0 := Here();
      if |value| <= MAX_INLINE {
        i := Item(key, value, []);
        InlineClaims(w0, i);
        QuietStart(w0);
        return Done, Inline(key, value), i;
      }
      ghost var ids;
      var head;
      head, ids := WriteOverflow(value);
      i := Item(key, value, ids);
      e := Inline(key, []);
      if head.None? {
        return NoRoom, e, i;
      }
      ChainedClaims(w0, Here(), i);
      return Done, Chained(key, head.value, |value|), i;
    }

    /**
     Put: when no error comes back, what the tree denotes is updated at the key,
     and separators that were all smallest keys still are. It cannot split exactly when
     the entry is the largest there is and jams its leaf.
     */
    method Put(key: Bytes, value: Bytes, ghost n: nat) returns (out: Outcome)
      requires Valid()
      modifies this`root, this`tree, this`height
      modifies pages`meta, pages`taken, pages`free, pages`owned, pages`disk, pages`history
      ensures Ready() && Quiet(old(Here()), Here())
      ensures out.Done? ==> Valid() && Contents() == Updated(old(Contents()), key, value)
      ensures out.Done? && old(KeysAre(n)) && |key| == n ==> KeysAre(n)
      ensures out.Done? && (old(tree).Some? ==> Tight(old(tree).value)) ==> tree.Some? && Tight(tree.value)
      ensures out.Done? && (old(tree).Some? ==> old(tree).value.LeafAt?) && OneLeaf(Updated(old(Contents()), key, value)) ==>
        tree.Some? && tree.value.LeafAt?
      ensures out.EmptyKey? <==> key == []
      ensures out.KeyTooLarge? <==> |key| > MAX_KEY
      ensures out.ValueTooLarge? <==> LegalKey(key) && |value| > MAX_VALUE
      ensures out.EmptyKey? || out.KeyTooLarge? || out.ValueTooLarge? ==>
        Valid() && tree == old(tree) && root == old(root) && Here() == old(Here())
      ensures out.NoRoom? ==> pages.AtQuota()
      ensures out.CannotSplit? <==>
        LegalKey(key) && |value| <= MAX_INLINE && old(tree).Some? && Jams(old(tree).value, Item(key, value, []))
      ensures !out.Malformed?
    {
      hide Quiet;
      hide Pager.Valid;
      hide Steps;
      hide Good;
      hide Jams;
      hide Exact;
      hide Written;
      hide Updated;
      hide Grafted;
      hide Uniform;
      hide UniformGraft;
      hide Full;
      hide Ordered;
      hide Entries;
      hide OneLeaf;
      hide Tight;
      hide KidsEntries;
      ghost var w0 := Here();
      QuietStart(w0);
      if key == [] {
        return EmptyKey;
      }
      if |key| > MAX_KEY {
        return KeyTooLarge;
      }
      if |value| > MAX_VALUE {
        return ValueTooLarge;
      }
      var e;
      ghost var i;
      out, e, i := StoreValue(key, value);
      if !out.Done? {
        return;
      }
      ghost var f0, w1 := Forest(), Here();
      ExactIsGood(w0, Subtrees(f0));
      ValueBeside(w0, w1, f0, i);
      StepEnds(w0, Subtrees(f0), w1, Both(Subtrees(f0), Values([i])));
      if root == 0 {
        out := PutFirst(e, i, n);
      } else {
        out := PutInto(e, i, n);
        JamsInline(old(tree).value, i);
      }
      QuietChain(w0, w1, Here());
      if out.Done? {
        Settle(w0, f0, w1, Both(Subtrees(f0), Values([i])));
      }
    }

    /** The first entry of an empty tree. */
    method PutFirst(e: Stored, ghost i: Item, ghost n: nat) returns (out: Outcome)
      requires Ready() && Sound() && tree.None? && e == StoredOf(i) && ItemOk(i)
      requires Good(Here(), Both(Subtrees(Forest()), Values([i])))
      modifies this`root, this`tree, this`height
      modifies pages`meta, pages`taken, pages`free, pages`owned, pages`disk, pages`history
      ensures Ready() && Quiet(old(Here()), Here())
      ensures out.Done? || out.NoRoom?
      ensures out.NoRoom? ==> pages.AtQuota()
      ensures out.Done? ==> Sound() && Contents() == Updated(old(Contents()), i.key, i.value)
      ensures out.Done? && old(KeysAre(n)) && |i.key| == n ==> KeysAre(n)
      ensures out.Done? ==> tree.Some? && Tight(tree.value) && tree.value.LeafAt?
      ensures out.Done? ==> Steps(old(Here()), Both(Subtrees(old(Forest())), Values([i])), Here(), Subtrees(Forest()))
    {
      hide Quiet;
      hide Pager.Valid;
      hide Steps;
      hide Good;
      hide Updated;
      hide Full;
      hide Ordered;
      hide Entries;
      hide ItemOk;
      ghost var w := Here();
      FirstLeafFits(i, 2);
      assert StoredAll([i]) == [e];
      var id;
      out, id := WriteLeaf(0, [e]);
      if out.Done? {
        FirstLeaf(w, Here(), i, id);
        FirstLeafFits(i, id);
        root, tree, height := id, Some(LeafAt(id, [i])), 0;
      }
    }

    /** An entry put in a tree that has some, which grows a level when its root splits. */
    method PutInto(e: Stored, ghost i: Item, ghost n: nat) returns (out: Outcome)
      requires Ready() && Sound() && tree.Some? && e == StoredOf(i) && ItemOk(i)
      requires Good(Here(), Both(Subtrees(Forest()), Values([i])))
      modifies this`root, this`tree, this`height
      modifies pages`meta, pages`taken, pages`free, pages`owned, pages`disk, pages`history
      ensures Ready() && Quiet(old(Here()), Here())
      ensures out.Done? || out.NoRoom? || out.CannotSplit?
      ensures out.NoRoom? ==> pages.AtQuota()
      ensures out.CannotSplit? <==> Jams(old(tree).value, i)
      ensures out.Done? ==> Sound() && Contents() == Updated(old(Contents()), i.key, i.value)
      ensures out.Done? && old(KeysAre(n)) && |i.key| == n ==> KeysAre(n)
      ensures out.Done? && old(tree).value.LeafAt? && OneLeaf(Updated(old(Contents()), i.key, i.value)) ==> tree.Some? && tree.value.LeafAt?
      ensures out.Done? ==> tree.Some? && (Tight(old(tree).value) ==> Tight(tree.value))
      ensures out.Done? ==> Steps(old(Here()), Both(Subtrees(old(Forest())), Values([i])), Here(), Subtrees(Forest()))
    {
      hide Pager.AtQuota;
      hide Here;
      hide Quiet;
      hide Pager.Valid;
      hide Steps;
      hide Good;
      hide Jams;
      hide Updated;
      hide Grafted;
      hide Uniform;
      hide Sprouts;
      hide Snug;
      hide OneLeaf;
      hide Begun;
      hide UniformGraft;
      hide Full;
      hide Ordered;
      hide Entries;
      hide KidsEntries;
      hide ItemOk;
      hide Tight;
      ghost var t0 := tree.value;
      TightOrSnug(t0, height, [], None);
      ghost var w, c := Here(), Both(Subtrees(Forest()), Values([i]));
      var left, separator, right;
      ghost var mid;
      assert Inside(i.key, [], None);
      out, left, separator, right, mid := Insert(root, e, i, tree.value, height, [], None, n);
      if !out.Done? {
        return;
      }
      if right == 0 {
        GraftedAlone(mid, left, separator, height);
        root, tree := left, Some(mid[0]);
        if UniformGraft(mid, separator, 0, n) { UniformLone(mid, separator, n); }
        if Snug(t0) { RootSprouts(0, mid, separator, Begun(t0, i.key)); }
        TightOrSnug(mid[0], height, [], None);
        return;
      }
      ghost var w1 := Here();
      StepEnds(w, c, w1, Subtrees(mid));
      NewRootFits(2, separator, mid, left, right, height);
      GraftedRoots(mid, left, separator, right, height, [], None);
      var id;
      out, id := WriteBranch(0, [separator], [left, right]);
      QuietChain(w, w1, Here());
      if out.Done? {
        NewRoot(w1, Here(), id, separator, mid);
        NewRootFits(id, separator, mid, left, right, height);
        if UniformGraft(mid, separator, right, n) { UniformRoot(id, separator, mid, right, n); }
        if Snug(t0) { RootSprouts(id, mid, separator, Begun(t0, i.key)); }
        TightOrSnug(BranchAt(id, [separator], mid), height + 1, [], None);
        StepsChain(w, c, w1, Subtrees(mid), Here(), Subtrees([BranchAt(id, [separator], mid)]));
        root, tree, height := id, Some(BranchAt(id, [separator], mid)), height + 1;
      }
    }

    /** The end of an operation: the pages that are held are the pages of the tree. */
    lemma Settle(w0: World, f0: seq<Tree>, w: World, c: Claim)
      requires Exact(w0, Subtrees(f0)) && Steps(w0, Subtrees(f0), w, c) && Steps(w, c, Here(), Subtrees(Forest()))
      ensures Exact(Here(), Subtrees(Forest())) && Written(pages.Pages(), Subtrees(Forest()))
    {
      hide Exact;
      hide Written;
      hide Traded;
      StepEnds(w, c, Here(), Subtrees(Forest()));
      ExactKept(w0, Subtrees(f0), w, c);
      ExactKept(w, c, Here(), Subtrees(Forest()));
    }

    method IsUnderfull(id: PageId, ghost t: Tree) returns (out: Outcome, underfull: bool)
      requires Ready() && id == t.id && Good(Here(), Subtrees([t]))
      ensures out.Done?
      ensures underfull <==> if t.LeafAt? then LeafBytes(StoredAll(t.items)) < UNDERFULL else BranchBytes(t.keys) < UNDERFULL
    {
      hide Pager.Valid;
      hide LeafBytes;
      hide BranchBytes;
      RootReads(Here(), t);
      OwnedInRange(id);
      hide Good;
      var page := pages.Read(id);
      match page.value {
        case Leaf(entries) => return Done, LeafBytes(entries) < UNDERFULL;
        case Branch(keys, _) => return Done, BranchBytes(keys) < UNDERFULL;
        case _ => assert false;
      }
    }

    /** rebalance, on two leaves: poured together they stay one leaf or are cut again. It never fails to split. */
    method RebalanceLeaves(l: PageId, r: PageId, first: seq<Stored>, second: seq<Stored>, ghost a: Tree, ghost b: Tree,
                           ghost lo: Bytes, ghost sep: Bytes, ghost hi: Option<Bytes>, ghost n: nat)
      returns (out: Outcome, left: PageId, separator: Bytes, right: PageId, ghost mid: seq<Tree>)
      requires Ready() && a.LeafAt? && b.LeafAt? && l == a.id && r == b.id
      requires first == StoredAll(a.items) && second == StoredAll(b.items)
      requires Shaped(a) && Shaped(b) && (Full(a) || Full(b))
      requires Separates(sep, lo, hi) && Ordered(a, 0, lo, Some(sep)) && Ordered(b, 0, sep, hi)
      requires Good(Here(), Subtrees([a, b]))
      modifies pages`meta, pages`taken, pages`free, pages`owned, pages`disk, pages`history
      ensures Ready() && Quiet(old(Here()), Here())
      ensures out.Done? || out.NoRoom?
      ensures out.NoRoom? ==> pages.AtQuota()
      ensures out.Done? ==> Grafted(mid, left, separator, right, 0, lo, hi) && KidsEntries(mid) == Entries(a) + Entries(b)
      ensures out.Done? && Uniform(a, n) && Uniform(b, n) ==> UniformGraft(mid, separator, right, n)
      ensures out.Done? ==> Steps(old(Here()), Subtrees([a, b]), Here(), Subtrees(mid))
      ensures out.Done? ==> Blends(mid, separator, Mixed(Bare(a), sep, Bare(b)))
    {
      hide Blends;
      hide MixLeaves;
      hide MixBranches;
      hide Mixed;
      hide Bare;
      hide Quiet;
      hide Pager.Valid;
      hide Steps;
      hide Yields;
      hide Grafted;
      hide Uniform;
      hide UniformGraft;
      hide KidsEntries;
      hide Entries;
      hide LeafBytes;
      hide LeafFitsAt;
      hide Separates;
      ghost var w0, items, c := Here(), a.items + b.items, Subtrees([a, b]);
      PairReads(w0, a, b);
      RootReads(w0, a);
      RootReads(w0, b);
      hide Good;
      assert items != [];
      LeafPairOrder(a, b, lo, sep, hi);
      hide Ordered;
      hide ItemsOk;
      assert LeafBytes(first) <= CAPACITY && LeafBytes(second) <= CAPACITY;
      hide Full;
      hide Shaped;
      StoredConcat(a.items, b.items);
      MixedLeaves(a, sep, b);
      LeavesOpen(a, b);
      if Uniform(a, n) && Uniform(b, n) { UniformPour(l, a, b, n); }
      var merged := first + second;
      if LeafBytes(merged) <= CAPACITY {
        out, left, mid := MergeLeaves(l, r, merged, items, c, lo, hi, n);
        separator, right := [], 0;
        return;
      }
      LeavesPour(a.items, b.items);
      out, left, separator, right, mid := RecutLeaves(l, r, merged, items, c, lo, hi, n);
    }

    /** The two leaves of a pair fit on one page: the second page is given back. */
    method MergeLeaves(l: PageId, r: PageId, merged: seq<Stored>, ghost items: seq<Item>, ghost c: Claim,
                       ghost lo: Bytes, ghost hi: Option<Bytes>, ghost n: nat)
      returns (out: Outcome, id: PageId, ghost mid: seq<Tree>)
      requires Ready() && l != 0 && l in pages.owned && merged == StoredAll(items) && items != [] && ItemsOk(items, lo, hi)
      requires LeafBytes(merged) <= CAPACITY
      requires Good(Here(), c) && Yields(c, Both(Loose([l]), Both(Loose([r]), Values(items))))
      modifies pages`meta, pages`taken, pages`free, pages`owned, pages`disk, pages`history
      ensures Ready() && Quiet(old(Here()), Here())
      ensures out.Done? || out.NoRoom?
      ensures out.NoRoom? ==> pages.AtQuota()
      ensures out.Done? ==> Grafted(mid, id, [], 0, 0, lo, hi) && KidsEntries(mid) == PairsOf(items)
      ensures out.Done? ==> Blends(mid, [], MixLeaves(items))
      ensures out.Done? && Uniform(LeafAt(l, items), n) ==> UniformGraft(mid, [], 0, n)
      ensures out.Done? ==> Steps(old(Here()), c, Here(), Subtrees(mid))
    {
      hide Blends;
      hide MixLeaves;
      hide MixBranches;
      hide Mixed;
      hide Bare;
      hide Quiet;
      hide Pager.Valid;
      hide Steps;
      hide Good;
      hide Yields;
      hide Grafted;
      hide Uniform;
      hide UniformGraft;
      hide KidsEntries;
      hide LeafBytes;
      hide ItemsOk;
      ghost var w0, x := Here(), Values(items);
      out, id := WriteLeaf(l, merged);
      mid := [];
      if out.Done? {
        ghost var w1, node := Here(), Node(id, Leaf(merged));
        FirstWritten(w0, w1, l, r, c, x, node);
        StepEnds(w0, c, w1, Both(Loose([r]), Both(node, x)));
        LooseHeld(w1, r, Both(node, x));
        pages.Free(r);
        FreeTrades(w1, r, Here());
        QuietOwned(w1, Here());
        QuietChain(w0, w1, Here());
        LeafCloses(id, items);
        mid := [LeafAt(id, items)];
        SecondFreed(w1, Here(), r, node, x, Subtrees(mid));
        StepsChain(w0, c, w1, Both(Loose([r]), Both(node, x)), Here(), Subtrees(mid));
        LeafGrafts(id, items, lo, hi);
        BlendsMergedLeaves(id, items);
        if Uniform(LeafAt(l, items), n) { UniformMoved(LeafAt(l, items), mid[0], n); }
      }
    }

    /** They do not: both pages are rewritten, cut as evenly as the entries allow. */
    method RecutLeaves(l: PageId, r: PageId, merged: seq<Stored>, ghost items: seq<Item>, ghost c: Claim,
                       ghost lo: Bytes, ghost hi: Option<Bytes>, ghost n: nat)
      returns (out: Outcome, left: PageId, separator: Bytes, right: PageId, ghost mid: seq<Tree>)
      requires Ready() && l != 0 && r != 0 && l in pages.owned && merged == StoredAll(items) && ItemsOk(items, lo, hi)
      requires LeafBytes(merged) > CAPACITY && exists cut :: LeafFitsAt(merged, cut)
      requires Good(Here(), c) && Yields(c, Both(Loose([l]), Both(Loose([r]), Values(items))))
      modifies pages`meta, pages`taken, pages`free, pages`owned, pages`disk, pages`history
      ensures Ready() && Quiet(old(Here()), Here())
      ensures out.Done? || out.NoRoom?
      ensures out.NoRoom? ==> pages.AtQuota()
      ensures out.Done? ==> Grafted(mid, left, separator, right, 0, lo, hi) && KidsEntries(mid) == PairsOf(items)
      ensures out.Done? ==> Blends(mid, separator, MixLeaves(items))
      ensures out.Done? && Uniform(LeafAt(l, items), n) ==> UniformGraft(mid, separator, right, n)
      ensures out.Done? ==> Steps(old(Here()), c, Here(), Subtrees(mid))
    {
      hide Blends;
      hide MixLeaves;
      hide MixBranches;
      hide Mixed;
      hide Bare;
      hide Quiet;
      hide Pager.Valid;
      hide Steps;
      hide Good;
      hide Yields;
      hide Grafted;
      hide Uniform;
      hide UniformGraft;
      hide KidsEntries;
      hide LeafBytes;
      hide LeafFitsAt;
      hide ItemsOk;
      left, separator, right, mid := 0, [], 0, [];
      ghost var w0, x := Here(), Values(items);
      var cut, ok := SplitLeaf(merged);
      CutFits(items, cut);
      hide BestLeafCut;
      out, left := WriteLeaf(l, merged[..cut]);
      if !out.Done? {
        return;
      }
      ghost var w1, node := Here(), Node(left, Leaf(merged[..cut]));
      FirstWritten(w0, w1, l, r, c, x, node);
      StepEnds(w0, c, w1, Both(Loose([r]), Both(node, x)));
      LooseHeld(w1, r, Both(node, x));
      out, right := WriteLeaf(r, merged[cut..]);
      QuietChain(w0, w1, Here());
      if !out.Done? {
        return;
      }
      separator := merged[cut].key;
      mid := [LeafAt(left, items[..cut]), LeafAt(right, items[cut..])];
      LeafClosesTwo(left, right, items, cut);
      SecondWritten(w1, Here(), r, node, Node(right, Leaf(merged[cut..])), x, Subtrees(mid));
      StepsChain(w0, c, w1, Both(Loose([r]), Both(node, x)), Here(), Subtrees(mid));
      LeavesGraft(left, right, items, lo, hi, cut);
      BlendsCutLeaves(left, right, items, cut);
      if Uniform(LeafAt(l, items), n) { UniformMoved(LeafAt(l, items), LeafAt(left, items), n); UniformCut(left, right, items, cut, n); }
    }

    /** Two branches and the separator between them, poured together. */
    lemma BranchesPoured(w: World, a: Tree, sep: Bytes, b: Tree, h: nat, lo: Bytes, hi: Option<Bytes>, n: nat)
      requires a.BranchAt? && b.BranchAt? && Shaped(a) && Shaped(b) && (BranchBytes(a.keys) < UNDERFULL || BranchBytes(b.keys) < UNDERFULL)
      requires Separates(sep, lo, hi) && Ordered(a, h, lo, Some(sep)) && Ordered(b, h, sep, hi) && Good(w, Subtrees([a, b]))
      ensures
        var keys, kids := a.keys + [sep] + b.keys, a.kids + b.kids;
        && a.id != 0 && a.id in w.owned && b.id != 0 && RootsOf(kids) == RootsOf(a.kids) + RootsOf(b.kids)
        && h > 0 && |kids| == |keys| + 1 && OrderedKids(keys, kids, h - 1, lo, hi) && (forall k | k in kids :: Full(k))
        && BranchBytes(keys) <= 2 * CAPACITY - BRANCH_HEADER && KidsEntries(kids) == Entries(a) + Entries(b)
        && Yields(Subtrees([a, b]), Both(Loose([a.id]), Both(Loose([b.id]), Subtrees(kids))))
        && Mixed(Bare(a), sep, Bare(b)) == MixBranches(keys, BareAll(kids))
        && (Uniform(a, n) && Uniform(b, n) && |sep| == n ==> Uniform(BranchAt(a.id, keys, kids), n))
    {
      hide MixLeaves;
      hide MixBranches;
      hide Mixed;
      hide Bare;
      hide Yields;
      hide Uniform;
      hide KidsEntries;
      hide Entries;
      hide BranchBytes;
      hide Ordered;
      hide OrderedKids;
      hide Full;
      hide Shaped;
      hide Good;
      PairReads(w, a, b);
      RootReads(w, a);
      RootReads(w, b);
      BranchPairOrder(a, b, h, lo, sep, hi);
      PairFull(a, b);
      BranchesPour(a.keys, sep, b.keys);
      BranchesOpen(a, b);
      MixedBranches(a, sep, b);
      RootsJoin(a.kids, b.kids);
      if Uniform(a, n) && Uniform(b, n) && |sep| == n { UniformPourBranches(a.id, a, sep, b, n); }
    }

    /** rebalance, on two branches: the separator between them is the key that was missing. It never fails to split. */
    method RebalanceBranches(l: PageId, r: PageId, k1: seq<Bytes>, c1: seq<PageId>, sep: Bytes, k2: seq<Bytes>, c2: seq<PageId>,
                             ghost a: Tree, ghost b: Tree, ghost h: nat, ghost lo: Bytes, ghost hi: Option<Bytes>, ghost n: nat)
      returns (out: Outcome, left: PageId, separator: Bytes, right: PageId, ghost mid: seq<Tree>)
      requires Ready() && a.BranchAt? && b.BranchAt? && l == a.id && r == b.id
      requires k1 == a.keys && c1 == RootsOf(a.kids) && k2 == b.keys && c2 == RootsOf(b.kids)
      requires Shaped(a) && Shaped(b) && (BranchBytes(k1) < UNDERFULL || BranchBytes(k2) < UNDERFULL)
      requires Separates(sep, lo, hi) && Ordered(a, h, lo, Some(sep)) && Ordered(b, h, sep, hi)
      requires Good(Here(), Subtrees([a, b]))
      modifies pages`meta, pages`taken, pages`free, pages`owned, pages`disk, pages`history
      ensures Ready() && Quiet(old(Here()), Here())
      ensures out.Done? || out.NoRoom?
      ensures out.NoRoom? ==> pages.AtQuota()
      ensures out.Done? ==> Grafted(mid, left, separator, right, h, lo, hi) && KidsEntries(mid) == Entries(a) + Entries(b)
      ensures out.Done? && Uniform(a, n) && Uniform(b, n) && |sep| == n ==> UniformGraft(mid, separator, right, n)
      ensures out.Done? ==> Steps(old(Here()), Subtrees([a, b]), Here(), Subtrees(mid))
      ensures out.Done? ==> Blends(mid, separator, Mixed(Bare(a), sep, Bare(b)))
    {
      hide Ready;
      hide Blends;
      hide MixLeaves;
      hide MixBranches;
      hide Mixed;
      hide Bare;
      hide Quiet;
      hide Pager.Valid;
      hide Steps;
      hide Yields;
      hide Grafted;
      hide Uniform;
      hide UniformGraft;
      hide KidsEntries;
      hide Entries;
      hide BranchBytes;
      hide Ordered;
      hide OrderedKids;
      hide Full;
      hide Shaped;
      ghost var kids, c := a.kids + b.kids, Subtrees([a, b]);
      BranchesPoured(Here(), a, sep, b, h, lo, hi, n);
      hide Good;
      var keys, children := k1 + [sep] + k2, c1 + c2;
      if BranchBytes(keys) <= CAPACITY {
        out, left, mid := MergeBranches(l, r, keys, children, kids, c, h - 1, lo, hi, n);
        separator, right := [], 0;
        return;
      }
      out, left, separator, right, mid := RecutBranches(l, r, keys, children, kids, c, h - 1, lo, hi, n);
    }

    method MergeBranches(l: PageId, r: PageId, keys: seq<Bytes>, children: seq<PageId>, ghost kids: seq<Tree>, ghost c: Claim,
                         ghost h: nat, ghost lo: Bytes, ghost hi: Option<Bytes>, ghost n: nat)
      returns (out: Outcome, id: PageId, ghost mid: seq<Tree>)
      requires Ready() && l != 0 && l in pages.owned && children == RootsOf(kids) && |kids| == |keys| + 1
      requires keys != [] && OrderedKids(keys, kids, h, lo, hi) && BranchBytes(keys) <= CAPACITY && (forall k | k in kids :: Full(k))
      requires Good(Here(), c) && Yields(c, Both(Loose([l]), Both(Loose([r]), Subtrees(kids))))
      modifies pages`meta, pages`taken, pages`free, pages`owned, pages`disk, pages`history
      ensures Ready() && Quiet(old(Here()), Here())
      ensures out.Done? || out.NoRoom?
      ensures out.NoRoom? ==> pages.AtQuota()
      ensures out.Done? ==> Grafted(mid, id, [], 0, h + 1, lo, hi) && KidsEntries(mid) == KidsEntries(kids)
      ensures out.Done? ==> Blends(mid, [], MixBranches(keys, BareAll(kids)))
      ensures out.Done? && Uniform(BranchAt(l, keys, kids), n) ==> UniformGraft(mid, [], 0, n)
      ensures out.Done? ==> Steps(old(Here()), c, Here(), Subtrees(mid))
    {
      hide Blends;
      hide MixLeaves;
      hide MixBranches;
      hide Mixed;
      hide Bare;
      hide Quiet;
      hide Pager.Valid;
      hide Steps;
      hide Good;
      hide Yields;
      hide Grafted;
      hide Uniform;
      hide UniformGraft;
      hide KidsEntries;
      hide BranchBytes;
      hide OrderedKids;
      hide Full;
      ghost var w0, x := Here(), Subtrees(kids);
      out, id := WriteBranch(l, keys, children);
      mid := [];
      if out.Done? {
        ghost var w1, node := Here(), Node(id, Branch(keys, children));
        FirstWritten(w0, w1, l, r, c, x, node);
        StepEnds(w0, c, w1, Both(Loose([r]), Both(node, x)));
        LooseHeld(w1, r, Both(node, x));
        pages.Free(r);
        FreeTrades(w1, r, Here());
        QuietOwned(w1, Here());
        QuietChain(w0, w1, Here());
        BranchCloses(id, keys, kids);
        mid := [BranchAt(id, keys, kids)];
        SecondFreed(w1, Here(), r, node, x, Subtrees(mid));
        StepsChain(w0, c, w1, Both(Loose([r]), Both(node, x)), Here(), Subtrees(mid));
        BranchGrafts(id, keys, kids, h, lo, hi);
        BlendsMergedBranches(id, keys, kids);
        if Uniform(BranchAt(l, keys, kids), n) { UniformMoved(BranchAt(l, keys, kids), mid[0], n); }
      }
    }

    method RecutBranches(l: PageId, r: PageId, keys: seq<Bytes>, children: seq<PageId>, ghost kids: seq<Tree>, ghost c: Claim,
                         ghost h: nat, ghost lo: Bytes, ghost hi: Option<Bytes>, ghost n: nat)
      returns (out: Outcome, left: PageId, separator: Bytes, right: PageId, ghost mid: seq<Tree>)
      requires Ready() && l != 0 && r != 0 && l in pages.owned && children == RootsOf(kids) && |kids| == |keys| + 1
      requires OrderedKids(keys, kids, h, lo, hi) && (forall k | k in kids :: Full(k))
      requires CAPACITY < BranchBytes(keys) <= 2 * CAPACITY - BRANCH_HEADER
      requires Good(Here(), c) && Yields(c, Both(Loose([l]), Both(Loose([r]), Subtrees(kids))))
      modifies pages`meta, pages`taken, pages`free, pages`owned, pages`disk, pages`history
      ensures Ready() && Quiet(old(Here()), Here())
      ensures out.Done? || out.NoRoom?
      ensures out.NoRoom? ==> pages.AtQuota()
      ensures out.Done? ==> Grafted(mid, left, separator, right, h + 1, lo, hi) && KidsEntries(mid) == KidsEntries(kids)
      ensures out.Done? ==> Blends(mid, separator, MixBranches(keys, BareAll(kids)))
      ensures out.Done? && Uniform(BranchAt(l, keys, kids), n) ==> UniformGraft(mid, separator, right, n)
      ensures out.Done? ==> Steps(old(Here()), c, Here(), Subtrees(mid))
    {
      hide Blends;
      hide MixLeaves;
      hide MixBranches;
      hide Mixed;
      hide Bare;
      hide Quiet;
      hide Pager.Valid;
      hide Steps;
      hide Good;
      hide Yields;
      hide Grafted;
      hide Uniform;
      hide UniformGraft;
      hide KidsEntries;
      hide BranchBytes;
      hide Full;
      left, separator, right, mid := 0, [], 0, [];
      BranchSplits(keys);
      assert forall k | k in keys :: LegalKey(k);
      hide OrderedKids;
      ghost var w0, x := Here(), Subtrees(kids);
      var cut, ok := SplitBranch(keys);
      BranchHalvesHaveKeys(keys, cut);
      hide BestBranchCut;
      RootsCut(kids, cut + 1);
      out, left := WriteBranch(l, keys[..cut], children[..cut + 1]);
      if !out.Done? {
        return;
      }
      ghost var w1, node := Here(), Node(left, Branch(keys[..cut], children[..cut + 1]));
      FirstWritten(w0, w1, l, r, c, x, node);
      StepEnds(w0, c, w1, Both(Loose([r]), Both(node, x)));
      LooseHeld(w1, r, Both(node, x));
      out, right := WriteBranch(r, keys[cut + 1..], children[cut + 1..]);
      QuietChain(w0, w1, Here());
      if !out.Done? {
        return;
      }
      separator := keys[cut];
      mid := [BranchAt(left, keys[..cut], kids[..cut + 1]), BranchAt(right, keys[cut + 1..], kids[cut + 1..])];
      BranchClosesTwo(left, right, keys[..cut], kids[..cut + 1], keys[cut + 1..], kids[cut + 1..]);
      SecondWritten(w1, Here(), r, node, Node(right, Branch(keys[cut + 1..], children[cut + 1..])), x, Subtrees(mid));
      StepsChain(w0, c, w1, Both(Loose([r]), Both(node, x)), Here(), Subtrees(mid));
      BranchesGraft(left, right, keys, kids, h, lo, hi, cut);
      BlendsCutBranches(left, right, keys, kids, cut);
      if Uniform(BranchAt(l, keys, kids), n) { UniformMoved(BranchAt(l, keys, kids), BranchAt(left, keys, kids), n); UniformBranchCut(left, right, keys, kids, cut, n); }
    }

    /** rebalance, on a pair of neighbours. */
    method RebalancePair(l: PageId, r: PageId, sep: Bytes, ghost a: Tree, ghost b: Tree, ghost h: nat,
                         ghost lo: Bytes, ghost hi: Option<Bytes>, ghost n: nat)
      returns (out: Outcome, left: PageId, separator: Bytes, right: PageId, ghost mid: seq<Tree>)
      requires Ready() && l == a.id && r == b.id && Shaped(a) && Shaped(b) && (Full(a) || Full(b)) && (Thin(a) || Thin(b))
      requires Separates(sep, lo, hi) && Ordered(a, h, lo, Some(sep)) && Ordered(b, h, sep, hi)
      requires Good(Here(), Subtrees([a, b]))
      modifies pages`meta, pages`taken, pages`free, pages`owned, pages`disk, pages`history
      ensures Ready() && Quiet(old(Here()), Here())
      ensures out.Done? || out.NoRoom?
      ensures out.NoRoom? ==> pages.AtQuota()
      ensures out.Done? ==> Grafted(mid, left, separator, right, h, lo, hi) && KidsEntries(mid) == Entries(a) + Entries(b)
      ensures out.Done? && Uniform(a, n) && Uniform(b, n) && |sep| == n ==> UniformGraft(mid, separator, right, n)
      ensures out.Done? ==> Steps(old(Here()), Subtrees([a, b]), Here(), Subtrees(mid))
      ensures out.Done? ==> Blends(mid, separator, Mixed(Bare(a), sep, Bare(b)))
    {
      hide Blends;
      hide MixLeaves;
      hide MixBranches;
      hide Mixed;
      hide Bare;
      hide Quiet;
      hide Pager.Valid;
      hide Steps;
      hide Grafted;
      hide Uniform;
      hide UniformGraft;
      hide KidsEntries;
      hide Entries;
      hide Full;
      hide Shaped;
      hide BranchBytes;
      hide LeafBytes;
      hide Separates;
      PairReads(Here(), a, b);
      RootReads(Here(), a);
      RootReads(Here(), b);
      hide Good;
      OwnedInRange(l);
      OwnedInRange(r);
      SameKind(a, b, h, lo, sep, hi);
      hide Ordered;
      var firstPage := pages.Read(l);
      var secondPage := pages.Read(r);
      match (firstPage.value, secondPage.value) {
        case (Leaf(first), Leaf(second)) =>
          out, left, separator, right, mid := RebalanceLeaves(l, r, first, second, a, b, lo, sep, hi, n);
        case (Branch(k1, c1), Branch(k2, c2)) =>
          out, left, separator, right, mid := RebalanceBranches(l, r, k1, c1, sep, k2, c2, a, b, h, lo, hi, n);
        case _ =>
          assert false;
      }
    }

    /** Neighbours are at the same height, so both are leaves or both are branches. */
    lemma SameKind(a: Tree, b: Tree, h: nat, lo: Bytes, sep: Bytes, hi: Option<Bytes>)
      requires Ordered(a, h, lo, Some(sep)) && Ordered(b, h, sep, hi)
      ensures a.LeafAt? == b.LeafAt? && (a.LeafAt? <==> h == 0)
    {
    }

    /**
     rebalance: child `at` and its left neighbour, or the right one of the first
     child, are poured together: one child with the entries of both, or two.
     */
    method Rebalance(id: PageId, keys: seq<Bytes>, children: seq<PageId>, at: nat, ghost kids: seq<Tree>, ghost h: nat,
                     ghost lo: Bytes, ghost hi: Option<Bytes>, ghost n: nat)
      returns (out: Outcome, keys1: seq<Bytes>, children1: seq<PageId>, ghost kids1: seq<Tree>, ghost left: nat, ghost sep: Bytes, ghost right: PageId)
      requires Ready() && children == RootsOf(kids) && |kids| == |keys| + 1 && keys != [] && at < |kids|
      requires OrderedKids(keys, kids, h, lo, hi) && AllFullBut(kids, at) && Thin(kids[at])
      requires Good(Here(), Both(Loose([id]), Subtrees(kids)))
      modifies pages`meta, pages`taken, pages`free, pages`owned, pages`disk, pages`history
      ensures Ready() && Quiet(old(Here()), Here())
      ensures out.Done? || out.NoRoom?
      ensures out.NoRoom? ==> pages.AtQuota()
      ensures out.Done? ==> left < |keys| && keys1 == KeysAfter(keys, left, sep, right)
      ensures out.Done? ==> Poured(keys1, BareAll(kids1)) == Pour(keys, BareAll(kids), LeftOf(at))
      ensures out.Done? ==> children1 == RootsOf(kids1) && |kids1| == |keys1| + 1 && OrderedKids(keys1, kids1, h, lo, hi)
      ensures out.Done? ==> (forall k | k in kids1 :: Full(k)) && KidsEntries(kids1) == KidsEntries(kids)
      ensures out.Done? && Uniform(BranchAt(id, keys, kids), n) ==> Uniform(BranchAt(id, keys1, kids1), n) && (right == 0 || |sep| == n)
      ensures out.Done? ==> Steps(old(Here()), Both(Loose([id]), Subtrees(kids)), Here(), Both(Loose([id]), Subtrees(kids1)))
    {
      hide Blends;
      hide MixLeaves;
      hide MixBranches;
      hide Mixed;
      hide Bare;
      hide Pour;
      hide Quiet;
      hide Pager.Valid;
      hide Steps;
      hide Good;
      hide Grafted;
      hide Uniform;
      hide UniformGraft;
      hide KidsEntries;
      hide Entries;
      hide OrderedKids;
      hide Ordered;
      hide Full;
      hide Shaped;
      hide Thin;
      hide Separates;
      keys1, children1, kids1, sep, right := keys, children, kids, [], 0;
      var from := if at > 0 then at - 1 else at;
      left := from;
      ghost var w0, a, b := Here(), kids[from], kids[from + 1];
      ghost var lower, upper := LowerOf(keys, from, lo), UpperOf(keys, from + 1, hi);
      PairIsGood(w0, id, kids, from);
      PairFacts(keys, kids, h, lo, hi, from, at);
      var l, r, separator;
      ghost var mid;
      out, l, separator, r, mid := RebalancePair(children[from], children[from + 1], keys[from], a, b, h, lower, upper, n);
      if !out.Done? {
        return;
      }
      sep, right := separator, r;
      PairReplaced(w0, Here(), id, kids, from, mid);
      PairGrafted(keys, kids, h, lo, hi, from, mid, l, separator, r);
      PairEntries(kids, from, mid);
      PairRoots(kids, from, mid, children);
      GraftedRoots(mid, l, separator, r, h, lower, upper);
      FullAroundPair(kids, from, at, mid);
      PourIs(keys, kids, from, mid, separator);
      if Uniform(BranchAt(id, keys, kids), n) { UniformPairOf(id, keys, kids, from, mid, separator, r, n); }
      kids1 := kids[..from] + mid + kids[from + 2..];
      if r == 0 {
        keys1 := keys[..from] + keys[from + 1..];
        children1 := children[..from] + [l] + children[from + 2..];
      } else {
        keys1 := keys[from := separator];
        children1 := children[..from] + [l, r] + children[from + 2..];
      }
    }

    /**
     remove: what the subtree denotes, less the key; the same pages when it was
     not among the entries. It fails to split only where a rebalance put a longer
     separator into a branch with no room for it, so never when all keys have one length.
     */
    method Remove(id: PageId, key: Bytes, ghost t: Tree, ghost h: nat, ghost lo: Bytes, ghost hi: Option<Bytes>, ghost n: nat)
      returns (out: Outcome, newId: PageId, removed: bool, ghost t1: Tree)
      requires Ready() && id == t.id && Inside(key, lo, hi) && Ordered(t, h, lo, hi) && Full(t) && Good(Here(), Subtrees([t]))
      modifies pages`meta, pages`taken, pages`free, pages`owned, pages`disk, pages`history
      ensures Ready() && Quiet(old(Here()), Here())
      ensures out.Done? || out.NoRoom? || out.CannotSplit?
      ensures out.NoRoom? ==> pages.AtQuota()
      ensures out.CannotSplit? ==> !Uniform(t, n)
      ensures out.CannotSplit? ==> Bursts(t, key)
      ensures out.Done? ==> !Bursts(t, key) && Pruned(Bare(t), key).removed == removed
      ensures out.Done? && removed ==> Bare(t1) == Pruned(Bare(t), key).tree
      ensures out.Done? && !removed ==> Here() == old(Here()) && Removed(Entries(t), key) == Entries(t)
      ensures out.Done? && removed ==> newId == t1.id != 0 && Ordered(t1, h, lo, hi) && Shaped(t1)
      ensures out.Done? && removed ==> HasKey(Entries(t), key) && Entries(t1) == Removed(Entries(t), key)
      ensures out.Done? && removed && Uniform(t, n) ==> Uniform(t1, n)
      ensures out.Done? && removed ==> Steps(old(Here()), Subtrees([t]), Here(), Subtrees([t1]))
      decreases t, 1
    {
      hide Bare;
      hide Pruned;
      hide Mended;
      hide Quiet;
      hide Pager.Valid;
      hide Steps;
      hide Entries;
      hide KidsEntries;
      hide Removed;
      hide HasKey;
      hide Uniform;
      hide LeafBytes;
      ghost var w0 := Here();
      RootReads(w0, t);
      hide Good;
      OwnedInRange(id);
      FullIsShaped(t);
      var page := pages.Read(id);
      match page.value {
        case Leaf(entries) =>
          LeafFacts(t, h, lo, hi);
          out, newId, removed, t1 := RemoveLeaf(id, key, entries, t, lo, hi, n);
        case Branch(keys, children) =>
          out, newId, removed, t1 := RemoveBelow(id, key, keys, children, t, h, lo, hi, n);
        case _ =>
          assert false;
      }
    }

    /** remove, at a leaf. */
    method RemoveLeaf(id: PageId, key: Bytes, entries: seq<Stored>, ghost t: Tree, ghost lo: Bytes, ghost hi: Option<Bytes>, ghost n: nat)
      returns (out: Outcome, newId: PageId, removed: bool, ghost t1: Tree)
      requires Ready() && t.LeafAt? && id == t.id != 0 && entries == StoredAll(t.items) && ItemsOk(t.items, lo, hi)
      requires LeafBytes(entries) <= CAPACITY && Good(Here(), Subtrees([t]))
      modifies pages`meta, pages`taken, pages`free, pages`owned, pages`disk, pages`history
      ensures Ready() && Quiet(old(Here()), Here())
      ensures out.Done? || out.NoRoom?
      ensures out.NoRoom? ==> pages.AtQuota()
      ensures !Bursts(t, key)
      ensures out.Done? ==> Pruned(Bare(t), key).removed == removed
      ensures out.Done? && removed ==> Bare(t1) == Pruned(Bare(t), key).tree
      ensures out.Done? && !removed ==> Here() == old(Here()) && Removed(Entries(t), key) == Entries(t)
      ensures out.Done? && removed ==> newId == t1.id != 0 && Ordered(t1, 0, lo, hi) && Shaped(t1)
      ensures out.Done? && removed ==> HasKey(Entries(t), key) && Entries(t1) == Removed(Entries(t), key)
      ensures out.Done? && removed && Uniform(t, n) ==> Uniform(t1, n)
      ensures out.Done? && removed ==> Steps(old(Here()), Subtrees([t]), Here(), Subtrees([t1]))
    {
      hide Bare;
      hide Pruned;
      hide Mended;
      hide Quiet;
      hide Pager.Valid;
      hide Steps;
      hide Good;
      hide Less;
      hide Removed;
      hide LeafBytes;
      hide Uniform;
      hide HasKey;
      t1 := t;
      ghost var w0, items := Here(), t.items;
      QuietStart(w0);
      var at, found := FindKey(entries, key);
      FindsItem(items, lo, hi, key, at, found);
      LeafRemove(items, lo, hi, key, at, found);
      PrunedLeaf(id, items, key, at, found);
      hide Finds;
      if !found {
        return Done, id, false, t;
      }
      assert ItemOk(items[at]);
      hide ItemsOk;
      ItemIsGood(w0, id, items, at);
      Release(entries[at], items[at]);
      ghost var w1, items1 := Here(), items[..at] + items[at + 1..];
      LeafGives(w0, w1, id, items, at);
      StepEnds(w0, Subtrees([t]), w1, Both(Loose([id]), Values(items1)));
      LooseHeld(w1, id, Values(items1));
      RemoveFacts(items, at, key, id, n);
      var left := entries[..at] + entries[at + 1..];
      out, newId := WriteLeaf(id, left);
      QuietChain(w0, w1, Here());
      removed := true;
      if out.Done? {
        t1 := LeafAt(newId, items1);
        BareLeaf(newId, items1);
        LeafStays(w1, Here(), id, newId, items1);
        StepsChain(w0, Subtrees([t]), w1, Both(Loose([id]), Values(items1)), Here(), Subtrees([t1]));
        if Uniform(t, n) { UniformMoved(LeafAt(id, items1), t1, n); }
      }
    }

    lemma RemoveFacts(items: seq<Item>, at: nat, key: Bytes, id: PageId, n: nat)
      requires at < |items| && items[at].key == key
      ensures
        var items1 := items[..at] + items[at + 1..];
        && StoredAll(items1) == StoredAll(items)[..at] + StoredAll(items)[at + 1..]
        && LeafBytes(StoredAll(items1)) <= LeafBytes(StoredAll(items))
        && HasKey(PairsOf(items), key)
        && (Uniform(LeafAt(id, items), n) ==> Uniform(LeafAt(id, items1), n))
    {
      hide Total;
      var es := StoredAll(items);
      assert PairsOf(items)[at].key == key;
      StoredConcat(items[..at], items[at + 1..]);
      StoredSlice(items, 0, at);
      StoredSlice(items, at + 1, |items|);
      assert items[at + 1..] == items[at + 1..|items|] && es[at + 1..] == es[at + 1..|items|];
      Around(es, at);
      TotalConcat(es[..at] + [es[at]], es[at + 1..]);
      TotalConcat(es[..at], [es[at]]);
      TotalConcat(es[..at], es[at + 1..]);
      TotalOne(es[at]);
    }

    /** remove, at a branch. */
    method RemoveBelow(id: PageId, key: Bytes, keys: seq<Bytes>, children: seq<PageId>, ghost t: Tree, ghost h: nat,
                       ghost lo: Bytes, ghost hi: Option<Bytes>, ghost n: nat)
      returns (out: Outcome, newId: PageId, removed: bool, ghost t1: Tree)
      requires Ready() && t.BranchAt? && id == t.id != 0 && keys == t.keys && children == RootsOf(t.kids)
      requires Inside(key, lo, hi) && Ordered(t, h, lo, hi) && Full(t) && Good(Here(), Subtrees([t]))
      modifies pages`meta, pages`taken, pages`free, pages`owned, pages`disk, pages`history
      ensures Ready() && Quiet(old(Here()), Here())
      ensures out.Done? || out.NoRoom? || out.CannotSplit?
      ensures out.NoRoom? ==> pages.AtQuota()
      ensures out.CannotSplit? ==> !Uniform(t, n)
      ensures out.CannotSplit? ==> Bursts(t, key)
      ensures out.Done? ==> !Bursts(t, key) && Pruned(Bare(t), key).removed == removed
      ensures out.Done? && removed ==> Bare(t1) == Pruned(Bare(t), key).tree
      ensures out.Done? && !removed ==> Here() == old(Here()) && Removed(Entries(t), key) == Entries(t)
      ensures out.Done? && removed ==> newId == t1.id != 0 && Ordered(t1, h, lo, hi) && Shaped(t1)
      ensures out.Done? && removed ==> HasKey(Entries(t), key) && Entries(t1) == Removed(Entries(t), key)
      ensures out.Done? && removed && Uniform(t, n) ==> Uniform(t1, n)
      ensures out.Done? && removed ==> Steps(old(Here()), Subtrees([t]), Here(), Subtrees([t1]))
      decreases t, 0
    {
      hide Pager.AtQuota;
      hide Bare;
      hide Pruned;
      hide Mended;
      hide Quiet;
      hide Pager.Valid;
      hide Steps;
      hide Good;
      hide Less;
      hide Entries;
      hide KidsEntries;
      hide Removed;
      hide HasKey;
      hide Uniform;
      hide Inside;
      hide Ordered;
      hide OrderedKids;
      hide Full;
      hide Shaped;
      hide BranchBytes;
      hide LowerOf;
      hide UpperOf;
      hide Thin;
      t1 := t;
      ghost var w0, kids := Here(), t.kids;
      FullIsShaped(t);
      BranchFacts(t, h, lo, hi);
      var at := ChildFor(keys, key);
      RouteInside(keys, lo, hi, key, at);
      PrunedBranch(t, key, at);
      hide Routes;
      KidGives(w0, id, keys, kids, at);
      if Uniform(t, n) { UniformKidOf(t, at, n); }
      ghost var k;
      var child;
      out, child, removed, k := Remove(children[at], key, kids[at], h - 1, LowerOf(keys, at, lo), UpperOf(keys, at, hi), n);
      newId := id;
      RemovedBelow(t, h, lo, hi, at, key, k);
      if !out.Done? || !removed {
        removed := false;
        return;
      }
      ghost var w1, kids1 := Here(), kids[..at] + [k] + kids[at + 1..];
      KidGave(w0, w1, id, keys, kids, at, k);
      StepEnds(w0, Subtrees([t]), w1, Both(Loose([id]), Subtrees(kids1)));
      RootsAround(kids, at, [k], children);
      BareSwap(kids, at, k);
      if Uniform(t, n) { UniformKid(id, keys, kids, at, [k], [], 0, n); }
      out, newId, t1 := RemoveAt(id, keys, children[at := child], at, kids1, h, lo, hi, n);
      QuietChain(w0, w1, Here());
      if out.Done? {
        StepsChain(w0, Subtrees([t]), w1, Both(Loose([id]), Subtrees(kids1)), Here(), Subtrees([t1]));
      }
    }

    /** The end of a removal at a branch: the child is put back in shape if it has to be, and the branch is written. */
    method RemoveAt(id: PageId, keys: seq<Bytes>, children: seq<PageId>, at: nat, ghost kids: seq<Tree>, ghost h: nat,
                    ghost lo: Bytes, ghost hi: Option<Bytes>, ghost n: nat)
      returns (out: Outcome, newId: PageId, ghost t1: Tree)
      requires Ready() && id != 0 && children == RootsOf(kids) && |kids| == |keys| + 1 && keys != [] && at < |kids|
      requires h > 0 && OrderedKids(keys, kids, h - 1, lo, hi) && AllFullBut(kids, at) && BranchBytes(keys) <= CAPACITY
      requires Good(Here(), Both(Loose([id]), Subtrees(kids)))
      modifies pages`meta, pages`taken, pages`free, pages`owned, pages`disk, pages`history
      ensures Ready() && Quiet(old(Here()), Here())
      ensures out.Done? || out.NoRoom? || out.CannotSplit?
      ensures out.NoRoom? ==> pages.AtQuota()
      ensures out.CannotSplit? ==> !Uniform(BranchAt(id, keys, kids), n)
      ensures
        var now := Mended(keys, BareAll(kids), at);
        && (out.CannotSplit? ==> BranchBytes(now.keys) > CAPACITY)
        && (out.Done? ==> BranchBytes(now.keys) <= CAPACITY && Bare(t1) == BranchAt(0, now.keys, now.kids))
      ensures out.Done? ==> newId == t1.id != 0 && Ordered(t1, h, lo, hi) && Shaped(t1) && Entries(t1) == KidsEntries(kids)
      ensures out.Done? && Uniform(BranchAt(id, keys, kids), n) ==> Uniform(t1, n)
      ensures out.Done? ==> Steps(old(Here()), Both(Loose([id]), Subtrees(kids)), Here(), Subtrees([t1]))
    {
      hide Bare;
      hide Pruned;
      hide Mended;
      hide Quiet;
      hide Pager.Valid;
      hide Steps;
      hide Good;
      hide Entries;
      hide KidsEntries;
      hide Uniform;
      hide Ordered;
      hide OrderedKids;
      hide Full;
      hide Shaped;
      hide BranchBytes;
      hide LeafBytes;
      newId, t1 := 0, kids[at];
      ghost var w0, c := Here(), Both(Loose([id]), Subtrees(kids));
      KidIsGood(w0, id, kids, at);
      MendedIs(keys, kids, at);
      var underfull;
      out, underfull := IsUnderfull(children[at], kids[at]);
      var keys1, children1 := keys, children;
      ghost var kids1 := kids;
      StepsNothing(w0, c);
      QuietStart(w0);
      if underfull {
        ghost var left, sep, right;
        out, keys1, children1, kids1, left, sep, right := Rebalance(id, keys, children, at, kids, h - 1, lo, hi, n);
        if !out.Done? {
          return;
        }
        if Uniform(BranchAt(id, keys, kids), n) { UniformFits(id, keys, kids, left, sep, right, n); }
      } else {
        AllFull(kids, at);
      }
      ghost var w1, c1 := Here(), Both(Loose([id]), Subtrees(kids1));
      StepEnds(w0, c, w1, c1);
      LooseHeld(w1, id, Subtrees(kids1));
      out, newId := WriteBranch(id, keys1, children1);
      QuietChain(w0, w1, Here());
      if out.Done? {
        t1 := BranchAt(newId, keys1, kids1);
        BareBranch(newId, keys1, kids1);
        BranchStays(w1, Here(), id, newId, keys1, kids1);
        StepsChain(w0, c, w1, c1, Here(), Subtrees([t1]));
        BranchIsSound(newId, keys1, kids1, h, lo, hi);
        if Uniform(BranchAt(id, keys1, kids1), n) { UniformMoved(BranchAt(id, keys1, kids1), t1, n); }
      }
    }

    /**
     Delete: when no error comes back, the key is gone from what the tree denotes,
     and the answer says truly whether it was among the keys. It never fails to split
     when all keys have one length.
     */
    method Delete(key: Bytes, ghost n: nat) returns (out: Outcome, removed: bool)
      requires Valid()
      modifies this`root, this`tree, this`height
      modifies pages`meta, pages`taken, pages`free, pages`owned, pages`disk, pages`history
      ensures Ready() && Quiet(old(Here()), Here())
      ensures out.Done? ==> Valid() && Contents() == Removed(old(Contents()), key)
      ensures out.Done? ==> (removed <==> HasKey(old(Contents()), key))
      ensures out.Done? && old(KeysAre(n)) ==> KeysAre(n)
      ensures out.EmptyKey? <==> key == []
      ensures out.KeyTooLarge? <==> |key| > MAX_KEY
      ensures !out.Done? ==> !removed
      ensures out.EmptyKey? || out.KeyTooLarge? || (out.Done? && !removed) ==>
        Valid() && tree == old(tree) && root == old(root) && Here() == old(Here())
      ensures out.NoRoom? ==> pages.AtQuota()
      ensures old(KeysAre(n)) ==> !out.CannotSplit?
      ensures out.CannotSplit? ==> LegalKey(key) && old(tree).Some? && Bursts(old(tree).value, key)
      ensures LegalKey(key) && old(tree).Some? && Bursts(old(tree).value, key) ==> out.CannotSplit? || out.NoRoom?
      ensures out.Done? && old(tree).Some? && tree.Some? && Tight(old(tree).value) ==>
        (Tight(tree.value) <==> !Separator(key, old(tree).value) || Refreshes(old(tree).value, key))
      ensures !out.Malformed? && !out.ValueTooLarge?
    {
      hide Bursts;
      hide Pruned;
      hide Bare;
      hide Quiet;
      hide Pager.Valid;
      hide Steps;
      hide Good;
      hide Exact;
      hide Written;
      hide Removed;
      hide Full;
      hide Ordered;
      hide Entries;
      hide Uniform;
      hide Tight;
      hide Separator;
      hide Refreshes;
      ghost var w0, f0 := Here(), Forest();
      QuietStart(w0);
      RemovedLacks(Contents(), key);
      if key == [] {
        return EmptyKey, false;
      }
      if |key| > MAX_KEY {
        return KeyTooLarge, false;
      }
      if root == 0 {
        assert Removed([], key) == [] by { NothingRemoved(key); }
        return Done, false;
      }
      ExactIsGood(w0, Subtrees(f0));
      Bottom(key);
      var newRoot;
      ghost var t1;
      ghost var t, h := tree.value, height;
      out, newRoot, removed, t1 := Remove(root, key, t, h, [], None, n);
      if out.Done? && Tight(t) { TightRemains(t, h, key, removed, t1); }
      if !out.Done? || !removed {
        return out, false;
      }
      ghost var w1 := Here();
      StepEnds(w0, Subtrees(f0), w1, Subtrees([t1]));
      CollapseRoot(newRoot, t1, height, n);
      QuietChain(w0, w1, Here());
      Settle(w0, f0, w1, Subtrees([t1]));
    }

    /** The end of Delete: levels with a single child are dropped from the top, and a root with nothing in it altogether. */
    method CollapseRoot(id: PageId, ghost t0: Tree, ghost h0: nat, ghost n: nat)
      requires Ready() && id == t0.id && Ordered(t0, h0, [], None) && Shaped(t0) && Good(Here(), Subtrees([t0]))
      modifies this`root, this`tree, this`height
      modifies pages`free, pages`owned
      ensures Ready() && Quiet(old(Here()), Here())
      ensures Sound() && Contents() == Entries(t0) && (Uniform(t0, n) ==> KeysAre(n))
      ensures Steps(old(Here()), Subtrees([t0]), Here(), Subtrees(Forest()))
      ensures tree.Some? ==> (Tight(tree.value) <==> Tight(t0))
    {
      hide Copies;
      hide Waiting;
      hide Freeing;
      hide Covers;
      hide Same;
      hide PagesIn;
      hide Whole;
      hide Quiet;
      hide Pager.Valid;
      hide Steps;
      hide Good;
      hide Full;
      hide Shaped;
      hide Ordered;
      hide Entries;
      hide Uniform;
      hide Tight;
      root := id;
      ghost var t, h, w0 := t0, h0, Here();
      QuietStart(w0);
      StepsNothing(w0, Subtrees([t0]));
      while true
        invariant Ready() && Quiet(w0, Here()) && root == t.id && Ordered(t, h, [], None) && Shaped(t)
        invariant Good(Here(), Subtrees([t])) && Steps(w0, Subtrees([t0]), Here(), Subtrees([t]))
        invariant Entries(t) == Entries(t0) && (Uniform(t0, n) ==> Uniform(t, n))
        invariant Tight(t) <==> Tight(t0)
        decreases t
      {
        ghost var w := Here();
        RootReads(w, t);
        OwnedInRange(root);
        var page := pages.Read(root);
        match page.value {
          case Branch(keys, children) =>
            BranchFacts(t, h, [], None);
            if |children| > 1 {
              NowFull(t);
              tree, height := Some(t), h;
              return;
            }
            LoneChild(t, h, n);
            LoneIsTight(t);
            ghost var k := t.kids[0];
            pages.Free(root);
            FreeTrades(w, root, Here());
            QuietOwned(w, Here());
            QuietChain(w0, w, Here());
            RootDropped(w, Here(), root, t.keys, k);
            StepEnds(w, Subtrees([t]), Here(), Subtrees([k]));
            StepsChain(w0, Subtrees([t0]), w, Subtrees([t]), Here(), Subtrees([k]));
            root := children[0];
            t, h := k, h - 1;
          case Leaf(entries) =>
            if |entries| == 0 {
              pages.Free(root);
              FreeTrades(w, root, Here());
              QuietOwned(w, Here());
              QuietChain(w0, w, Here());
              assert t == LeafAt(root, []);
              LastLeafDropped(w, Here(), root);
              StepsChain(w0, Subtrees([t0]), w, Subtrees([t]), Here(), Subtrees([]));
              LeafEntries(t);
              root, tree, height := 0, None, 0;
              return;
            }
            NowFull(t);
            tree, height := Some(t), h;
            return;
          case _ =>
            assert false;
        }
      }
    }

    lemma NowFull(t: Tree)
      requires Shaped(t) && (t.LeafAt? ==> t.items != []) && (t.BranchAt? ==> t.keys != [])
      ensures Full(t)
    {
    }

    lemma LoneChild(t: Tree, h: nat, n: nat)
      requires t.BranchAt? && |t.kids| == 1 && Shaped(t) && Ordered(t, h, [], None)
      ensures h > 0 && t.kids == [t.kids[0]] && t == BranchAt(t.id, t.keys, [t.kids[0]])
      ensures Ordered(t.kids[0], h - 1, [], None) && Shaped(t.kids[0])
      ensures Entries(t) == Entries(t.kids[0]) && (Uniform(t, n) ==> Uniform(t.kids[0], n))
    {
      hide Less;
      BranchFacts(t, h, [], None);
      FullIsShaped(t.kids[0]);
      KidsEntriesOne(t.kids[0]);
      hide KidsEntries;
    }

    /** The tree can be read: also at the root of a snapshot, whatever has been written since. */
    ghost predicate Seen()
      reads this, pages`disk, pages`meta
    {
      Sound() && (tree.Some? ==> Legible(pages.Pages(), tree.value, pages.meta.pageCount))
    }

    lemma ValidIsSeen()
      requires Valid()
      ensures Seen()
    {
      hide Ordered;
      hide Full;
      hide Pager.Valid;
      if tree.Some? {
        ghost var t := tree.value;
        forall p: PageId | Occurs(t, p) > 0 ensures p < pages.meta.pageCount {
          KidsOccurOne(t, p);
          assert Weight(Subtrees(Forest()), p) == Has(pages.owned, p);
          OwnedInRange(p);
        }
        assert t in Forest();
      }
    }

    /** Get returns the value for a key. */
    method Get(key: Bytes) returns (out: Outcome, value: Option<Bytes>)
      requires Seen()
      ensures out == (if key == [] then EmptyKey else if |key| > MAX_KEY then KeyTooLarge else Done)
      ensures out.Done? ==> value == Lookup(Contents(), key)
    {
      hide Legible;
      hide Ordered;
      if key == [] {
        return EmptyKey, None;
      }
      if |key| > MAX_KEY {
        return KeyTooLarge, None;
      }
      if root == 0 {
        return Done, None;
      }
      FullIsShaped(tree.value);
      hide Full;
      out, value := GetAt(pages, root, key, tree.value, height);
    }

    /** Ascend: the visitor sees the entries not below `from`, smallest first, up to the one it stops at. */
    method Ascend(from: Option<Bytes>, more: seq<Pair> -> bool) returns (out: Outcome, seen: seq<Pair>)
      requires Seen()
      ensures out.Done? && seen == Visit([], Upward(Contents(), from), more).0
    {
      hide Legible;
      hide Ordered;
      if root == 0 {
        assert Upward([], from) == [];
        return Done, [];
      }
      FullIsShaped(tree.value);
      hide Full;
      if from.Some? { Bottom(from.value); }
      var go;
      out, seen, go := AscendAt(pages, root, from, more, [], tree.value, height, [], None);
    }

    /** Descend: the visitor sees the entries below `from`, largest first, up to the one it stops at. */
    method Descend(from: Option<Bytes>, more: seq<Pair> -> bool) returns (out: Outcome, seen: seq<Pair>)
      requires Seen()
      ensures out.Done? && seen == Visit([], Downward(Contents(), from), more).0
    {
      hide Legible;
      hide Ordered;
      if root == 0 {
        assert Downward([], from) == [];
        return Done, [];
      }
      FullIsShaped(tree.value);
      hide Full;
      if from.Some? { Bottom(from.value); }
      var go;
      out, seen, go := DescendAt(pages, root, from, more, [], tree.value, height, [], None);
    }

    /** Commit: the stable version is the tree in hand, and every instant on the way lands on it or on the one before. */
    method Commit() returns (ok: bool)
      requires Valid() && !pages.led
      modifies pages
      ensures pages.Recoverable() && pages.held == old(pages.held) && pages.readers == old(pages.readers) && pages.flight.None?
      ensures !ok ==> pages.stable == old(pages.stable) && OnlyLeads(old(pages.history), pages.history, pages.stable) && pages.AtQuota()
      ensures ok ==> Valid() && Preserves(pages.stable, tree, height) && Closed(pages.stable.tree, root, pages.stable.tree.Keys)
      ensures ok ==> Lands(old(pages.history), pages.history, old(pages.stable), pages.stable)
      ensures ok ==> pages.stable.meta.txid == old(pages.stable).meta.txid + 1
    {
      hide Pager.Valid;
      hide Pager.Recoverable;
      hide Exact;
      hide Written;
      hide Full;
      hide Ordered;
      hide Closed;
      hide Lands;
      hide OnlyLeads;
      hide Preserves;
      hide Restrict;
      hide Occurs;
      ghost var before := Here();
      ForestIsClosed(before, Forest(), root);
      RestrictClosed(before.pages, root, before.owned);
      ClosedIsFilled(before.pages, root, before.owned);
      ok := pages.Commit(root);
      if ok {
        CommittedReads(before, Here(), Forest());
        CommittedPreserves(before, pages.stable, tree, height);
      }
    }

    /** New: a tree over what the stable version of the pager spells. */
    constructor New(pages: Pager, ghost tree: Option<Tree>, ghost height: nat)
      requires pages.Valid() && pages.reserved == 2 && pages.owned == pages.stable.tree.Keys
      requires Preserves(pages.stable, tree, height)
      ensures Valid() && this.pages == pages && this.tree == tree && this.height == height
    {
      hide Book.Balanced;
      hide Book.Shields;
      hide Whole;
      hide Guarded;
      hide Full;
      hide Ordered;
      this.pages, this.tree, this.height := pages, tree, height;
      root := pages.meta.root;
      new;
      OpenedReads(pages.disk, pages.stable, tree, height);
      hide Weight;
      hide Spells;
      hide Intact;
    }

    /**
     Page conservation: every page of the file is one of the two meta pages, a page
     of the tree, a page of the list, or a free page, and it is that exactly once.
     */
    lemma PagesPartition(p: PageId)
      requires Valid()
      ensures (if p < 2 then 1 else 0) + KidsOccur(Forest(), p) + Copies(pages.free.chain, p)
              + Copies(pages.free.ready, p) + Copies(pages.free.freeing, p) + Waiting(pages.free.pending, p)
           == if p < 2 || p < pages.meta.pageCount then 1 else 0
    {
      assert Weight(Subtrees(Forest()), p) == Has(pages.owned, p);
      hide Weight;
      hide Sound;
      hide Book.Shields;
      hide KidsOccur;
      hide Waiting;
      ChainOnce(p);
      CopiesIn(pages.free.chain, p);
      hide Copies;
      hide Pager.Recoverable;
      assert p in pages.Used() <==> p in pages.owned || p in pages.free.chain;
      assert pages.Books().Sums(pages.Used());
      hide Written;
    }

    lemma ChainOnce(p: PageId)
      requires Ready()
      ensures Copies(pages.free.chain, p) <= 1
    {
      hide Book.Balanced;
      hide Book.Shields;
      hide Guarded;
      hide Intact;
      hide StillRead;
      assert NoDup(pages.stable.chain);
    }
  }
}
