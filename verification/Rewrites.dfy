/** The ways a rewrite takes a node apart and puts a new one together, as claims on the same pages. */
module Rewrites {
  import opened Bytes
  import opened PageFile
  import opened FreeLists
  import opened Trees
  import opened Ledgers
  import opened Seqs

  lemma WeightTwo(a: Claim, b: Claim, p: PageId)
    ensures Weight(Both(a, b), p) == Weight(a, p) + Weight(b, p)
  {
  }

  lemma WeightThree(a: Claim, b: Claim, c: Claim, p: PageId)
    ensures Weight(Both(a, Both(b, c)), p) == Weight(a, p) + Weight(b, p) + Weight(c, p)
  {
    assert Weight(Both(b, c), p) == Weight(b, p) + Weight(c, p);
  }

  lemma WeightFour(a: Claim, b: Claim, c: Claim, d: Claim, p: PageId)
    ensures Weight(Both(a, Both(b, Both(c, d))), p) == Weight(a, p) + Weight(b, p) + Weight(c, p) + Weight(d, p)
  {
    WeightThree(b, c, d, p);
    WeightTwo(a, Both(b, Both(c, d)), p);
    hide Weight;
  }

  lemma CopiesOne(id: PageId, p: PageId)
    ensures Copies([id], p) == (if id == p then 1 else 0) && Copies([], p) == 0
  {
    assert [id][..0] == [];
  }

  lemma ItemCopiesOne(i: Item, p: PageId)
    ensures ItemCopies([i], p) == Copies(i.pages, p)
  {
    assert [i][..0] == [];
  }

  // ---- leaves ----

  lemma LeafWeight(id: PageId, items: seq<Item>, p: PageId)
    ensures Weight(Subtrees([LeafAt(id, items)]), p) == Weight(Loose([id]), p) + Weight(Values(items), p)
  {
    KidsOccurOne(LeafAt(id, items), p);
    CopiesOne(id, p);
    hide KidsOccur;
    hide Copies;
    hide ItemCopies;
  }

  /** A leaf is its page and the chains of its entries. */
  lemma LeafOpens(id: PageId, items: seq<Item>)
    ensures Yields(Subtrees([LeafAt(id, items)]), Both(Loose([id]), Values(items)))
  {
    hide ChainHolds;
    var t := LeafAt(id, items);
    forall p: PageId ensures Weight(Subtrees([t]), p) == Weight(Both(Loose([id]), Values(items)), p) {
      LeafWeight(id, items, p);
      WeightTwo(Loose([id]), Values(items), p);
    }
    hide Weight;
    forall pages: map<PageId, Page> | Written(pages, Subtrees([t])) ensures Written(pages, Both(Loose([id]), Values(items))) {
      assert t in [t];
    }
  }

  lemma LeafCloses(id: PageId, items: seq<Item>)
    ensures Yields(Both(Node(id, Leaf(StoredAll(items))), Values(items)), Subtrees([LeafAt(id, items)]))
  {
    hide ChainHolds;
    var t, n := LeafAt(id, items), Node(id, Leaf(StoredAll(items)));
    forall p: PageId ensures Weight(Subtrees([t]), p) == Weight(Both(n, Values(items)), p) {
      LeafWeight(id, items, p);
      WeightTwo(n, Values(items), p);
      CopiesOne(id, p);
      hide Copies;
    }
    hide Weight;
    forall pages: map<PageId, Page> | Written(pages, Both(n, Values(items))) ensures Written(pages, Subtrees([t])) {
      assert Written(pages, n) && Written(pages, Values(items));
      assert Spells(pages, t);
    }
  }

  /** What a chain claims: its pages, chunk by chunk. */
  lemma ChainClaim(i: Item)
    ensures Yields(Links(i.pages, i.value, 0), Values([i])) && Yields(Values([i]), Links(i.pages, i.value, 0))
  {
    hide ChainHolds;
    forall p: PageId ensures Weight(Links(i.pages, i.value, 0), p) == Weight(Values([i]), p) { ItemCopiesOne(i, p); }
    hide Weight;
    assert i in [i];
  }

  lemma ChainGrows(id: PageId, ids: seq<PageId>, value: Bytes, first: nat)
    requires Offset(first) <= |value|
    ensures Yields(Both(Node(id, Blob(HeadOf(ids), ChunkOf(value, first))), Links(ids, value, first + 1)),
                   Links([id] + ids, value, first))
  {
    var n, x, all := Node(id, Blob(HeadOf(ids), ChunkOf(value, first))), Links(ids, value, first + 1), [id] + ids;
    forall p: PageId ensures Weight(Both(n, x), p) == Weight(Links(all, value, first), p) {
      WeightTwo(n, x, p);
      CopiesConcat([id], ids, p);
      CopiesOne(id, p);
    }
    hide Weight;
    forall pages: map<PageId, Page> | Written(pages, Both(n, x)) ensures Written(pages, Links(all, value, first)) {
      assert Written(pages, n) && Written(pages, x);
      ChainPrepends(pages, ids, value, first, id);
    }
  }

  lemma ChainPrepends(pages: map<PageId, Page>, ids: seq<PageId>, value: Bytes, first: nat, id: PageId)
    requires Offset(first) <= |value| && ChainHolds(pages, ids, value, first + 1)
    requires id in pages && pages[id] == Blob(HeadOf(ids), ChunkOf(value, first))
    ensures ChainHolds(pages, [id] + ids, value, first)
  {
    hide Offset;
    hide ChunkOf;
    var all := [id] + ids;
    forall j: nat | j < |all| ensures LinkHolds(pages, all, value, first, j) {
      if j > 0 {
        assert all[j] == ids[j - 1] && LinkHolds(pages, ids, value, first + 1, j - 1);
      }
    }
  }

  lemma ChainDrops(pages: map<PageId, Page>, ids: seq<PageId>, value: Bytes, first: nat)
    requires ids != [] && ChainHolds(pages, ids, value, first)
    ensures ChainHolds(pages, ids[1..], value, first + 1)
  {
    hide Offset;
    hide ChunkOf;
    var rest, next := ids[1..], first + 1;
    forall j: nat | j < |rest| ensures LinkHolds(pages, rest, value, next, j) {
      assert ids[j + 1] == rest[j] && LinkHolds(pages, ids, value, first, j + 1);
    }
  }

  lemma ChainShrinks(ids: seq<PageId>, value: Bytes, first: nat)
    requires ids != []
    ensures Yields(Links(ids, value, first), Both(Loose([ids[0]]), Links(ids[1..], value, first + 1)))
  {
    var c, a, x := Links(ids, value, first), Loose([ids[0]]), Links(ids[1..], value, first + 1);
    forall p: PageId ensures Weight(Both(a, x), p) == Weight(c, p) {
      WeightTwo(a, x, p);
      CopiesConcat([ids[0]], ids[1..], p);
      assert [ids[0]] + ids[1..] == ids;
    }
    hide Weight;
    forall pages: map<PageId, Page> | Written(pages, c) ensures Written(pages, Both(a, x)) {
      assert Written(pages, a);
      ChainDrops(pages, ids, value, first);
      assert Written(pages, x);
    }
  }

  lemma EmptyClaims(value: Bytes, first: nat)
    ensures Yields(NOTHING, Links([], value, first)) && Yields(Links([], value, first), Values([]))
  {
    forall p: PageId ensures Weight(NOTHING, p) == 0 == Weight(Links([], value, first), p) == Weight(Values([]), p) { CopiesOne(0, p); }
    hide Weight;
  }

  /** The entries a put or a removal at `at` displaces. */
  ghost function Gone(items: seq<Item>, at: nat, found: bool): seq<Item>
    requires found ==> at < |items|
  {
    if found then [items[at]] else []
  }

  lemma PutItemCopies(items: seq<Item>, at: nat, found: bool, i: Item, p: PageId)
    requires at <= |items| && (found ==> at < |items|)
    ensures ItemCopies(PutItem(items, at, found, i), p) + ItemCopies(Gone(items, at, found), p)
         == ItemCopies(items, p) + Copies(i.pages, p)
  {
    assert ItemCopies([], p) == 0;
    if found { ItemCopiesOne(items[at], p); }
    hide Copies;
    hide ItemCopies;
    ItemCopiesPush(items[..at], i, p);
    if found {
      ItemCopiesAt(items, at, p);
      ItemCopiesConcat(items[..at] + [i], items[at + 1..], p);
    } else {
      Cut(items, at);
      ItemCopiesConcat(items[..at], items[at..], p);
      ItemCopiesConcat(items[..at] + [i], items[at..], p);
    }
  }

  /** Putting an entry in a leaf: the chain it replaces comes loose, the rest is the new leaf. */
  lemma LeafPutOpens(id: PageId, items: seq<Item>, at: nat, found: bool, i: Item)
    requires at <= |items| && (found ==> at < |items|)
    ensures Yields(Both(Subtrees([LeafAt(id, items)]), Values([i])),
                   Both(Values(Gone(items, at, found)), Both(Loose([id]), Values(PutItem(items, at, found, i)))))
  {
    hide ChainHolds;
    var t, items1, gone := LeafAt(id, items), PutItem(items, at, found, i), Gone(items, at, found);
    var c, d := Both(Subtrees([t]), Values([i])), Both(Values(gone), Both(Loose([id]), Values(items1)));
    forall p: PageId ensures Weight(c, p) == Weight(d, p) {
      LeafWeight(id, items, p);
      WeightTwo(Subtrees([t]), Values([i]), p);
      WeightThree(Values(gone), Loose([id]), Values(items1), p);
      PutItemCopies(items, at, found, i, p);
      ItemCopiesOne(i, p);
      hide Copies;
      hide ItemCopies;
    }
    hide Weight;
    forall pages: map<PageId, Page> | Written(pages, c) ensures Written(pages, d) {
      assert t in [t] && i in [i] && Written(pages, Subtrees([t])) && Written(pages, Values([i]));
      assert Written(pages, Values(items1)) && Written(pages, Values(gone));
      assert Written(pages, Both(Loose([id]), Values(items1)));
    }
  }

  lemma LeafRemoveOpens(id: PageId, items: seq<Item>, at: nat)
    requires at < |items|
    ensures Yields(Subtrees([LeafAt(id, items)]),
                   Both(Values([items[at]]), Both(Loose([id]), Values(items[..at] + items[at + 1..]))))
  {
    hide ChainHolds;
    var t, items1, gone := LeafAt(id, items), items[..at] + items[at + 1..], [items[at]];
    var c, d := Subtrees([t]), Both(Values(gone), Both(Loose([id]), Values(items1)));
    forall p: PageId ensures Weight(c, p) == Weight(d, p) {
      LeafWeight(id, items, p);
      WeightThree(Values(gone), Loose([id]), Values(items1), p);
      ItemCopiesAt(items, at, p);
      ItemCopiesOne(items[at], p);
      ItemCopiesConcat(items[..at], items[at + 1..], p);
      hide Copies;
      hide ItemCopies;
    }
    hide Weight;
    forall pages: map<PageId, Page> | Written(pages, c) ensures Written(pages, d) {
      assert t in [t];
      assert Written(pages, Values(items1)) && Written(pages, Values(gone));
      assert Written(pages, Both(Loose([id]), Values(items1)));
    }
  }

  lemma DropsValues(c: Claim)
    ensures Yields(Both(Values([]), c), c)
  {
    forall p: PageId ensures Weight(Both(Values([]), c), p) == Weight(c, p) { WeightTwo(Values([]), c, p); }
    hide Weight;
  }

  /** Nothing loose is nothing. */
  lemma DropsNothing(c: Claim)
    ensures Yields(Both(NOTHING, c), c) && Yields(c, Both(NOTHING, c))
  {
    forall p: PageId ensures Weight(Both(NOTHING, c), p) == Weight(c, p) {
      WeightTwo(NOTHING, c, p);
      CopiesOne(0, p);
    }
    hide Weight;
    forall pages: map<PageId, Page> ensures Written(pages, Both(NOTHING, c)) <==> Written(pages, c) {
      assert Written(pages, NOTHING);
    }
  }

  lemma YieldsItself(c: Claim)
    ensures Yields(c, c)
  {
    hide Weight;
  }

  /** A leaf written on two pages. */
  lemma LeafClosesTwo(id: PageId, id2: PageId, items: seq<Item>, cut: nat)
    requires cut <= |items|
    ensures Yields(Both(Node(id2, Leaf(StoredAll(items[cut..]))), Both(Node(id, Leaf(StoredAll(items[..cut]))), Values(items))),
                   Subtrees([LeafAt(id, items[..cut]), LeafAt(id2, items[cut..])]))
  {
    hide ChainHolds;
    var a, b := items[..cut], items[cut..];
    var n, n2, l, r := Node(id, Leaf(StoredAll(a))), Node(id2, Leaf(StoredAll(b))), LeafAt(id, a), LeafAt(id2, b);
    var c, d := Both(n2, Both(n, Values(items))), Subtrees([l, r]);
    forall p: PageId ensures Weight(c, p) == Weight(d, p) {
      WeightThree(n2, n, Values(items), p);
      Cut(items, cut);
      ItemCopiesConcat(a, b, p);
      LeafWeight(id, a, p);
      LeafWeight(id2, b, p);
      CopiesOne(id, p);
      CopiesOne(id2, p);
      assert [l, r] == [l] + [r];
      KidsOccurConcat([l], [r], p);
      hide Copies;
      hide ItemCopies;
      hide KidsOccur;
    }
    hide Weight;
    forall pages: map<PageId, Page> | Written(pages, c) ensures Written(pages, d) {
      assert Written(pages, Both(n, Values(items)));
      assert Written(pages, n2) && Written(pages, n) && Written(pages, Values(items));
      assert Spells(pages, l) && Spells(pages, r);
    }
  }

  /** Two leaves poured together: two pages and one run of entries. */
  lemma LeavesOpen(l: Tree, r: Tree)
    requires l.LeafAt? && r.LeafAt?
    ensures Yields(Subtrees([l, r]), Both(Loose([l.id]), Both(Loose([r.id]), Values(l.items + r.items))))
  {
    hide ChainHolds;
    var items := l.items + r.items;
    var c, d := Subtrees([l, r]), Both(Loose([l.id]), Both(Loose([r.id]), Values(items)));
    forall p: PageId ensures Weight(c, p) == Weight(d, p) {
      WeightThree(Loose([l.id]), Loose([r.id]), Values(items), p);
      ItemCopiesConcat(l.items, r.items, p);
      LeafWeight(l.id, l.items, p);
      LeafWeight(r.id, r.items, p);
      assert [l, r] == [l] + [r];
      KidsOccurConcat([l], [r], p);
      hide Copies;
      hide ItemCopies;
      hide KidsOccur;
    }
    hide Weight;
    forall pages: map<PageId, Page> | Written(pages, c) ensures Written(pages, d) {
      assert l in [l, r] && r in [l, r];
      assert Written(pages, Values(items));
      assert Written(pages, Both(Loose([r.id]), Values(items)));
    }
  }

  // ---- branches ----

  lemma BranchWeight(id: PageId, keys: seq<Bytes>, kids: seq<Tree>, p: PageId)
    ensures Weight(Subtrees([BranchAt(id, keys, kids)]), p) == Weight(Loose([id]), p) + Weight(Subtrees(kids), p)
  {
    KidsOccurOne(BranchAt(id, keys, kids), p);
    CopiesOne(id, p);
    hide KidsOccur;
    hide Copies;
  }

  lemma BranchOpens(id: PageId, keys: seq<Bytes>, kids: seq<Tree>)
    ensures Yields(Subtrees([BranchAt(id, keys, kids)]), Both(Loose([id]), Subtrees(kids)))
  {
    var t := BranchAt(id, keys, kids);
    forall p: PageId ensures Weight(Subtrees([t]), p) == Weight(Both(Loose([id]), Subtrees(kids)), p) {
      BranchWeight(id, keys, kids, p);
      WeightTwo(Loose([id]), Subtrees(kids), p);
    }
    hide Weight;
    forall pages: map<PageId, Page> | Written(pages, Subtrees([t])) ensures Written(pages, Both(Loose([id]), Subtrees(kids))) {
      assert t in [t];
    }
  }

  lemma BranchCloses(id: PageId, keys: seq<Bytes>, kids: seq<Tree>)
    ensures Yields(Both(Node(id, Branch(keys, RootsOf(kids))), Subtrees(kids)), Subtrees([BranchAt(id, keys, kids)]))
  {
    var t, n := BranchAt(id, keys, kids), Node(id, Branch(keys, RootsOf(kids)));
    forall p: PageId ensures Weight(Subtrees([t]), p) == Weight(Both(n, Subtrees(kids)), p) {
      BranchWeight(id, keys, kids, p);
      WeightTwo(n, Subtrees(kids), p);
      CopiesOne(id, p);
      hide Copies;
    }
    hide Weight;
    forall pages: map<PageId, Page> | Written(pages, Both(n, Subtrees(kids))) ensures Written(pages, Subtrees([t])) {
      assert Written(pages, n) && Written(pages, Subtrees(kids));
      assert Spells(pages, t);
    }
  }

  lemma SubtreesWeight(a: seq<Tree>, b: seq<Tree>, p: PageId)
    ensures Weight(Subtrees(a + b), p) == Weight(Subtrees(a), p) + Weight(Subtrees(b), p)
  {
    KidsOccurConcat(a, b, p);
    hide KidsOccur;
  }

  /** A run of subtrees around one stretch of it. */
  lemma RunWeight(a: seq<Tree>, mid: seq<Tree>, b: seq<Tree>, p: PageId)
    ensures Weight(Subtrees(a + mid + b), p) == Weight(Subtrees(a), p) + Weight(Subtrees(mid), p) + Weight(Subtrees(b), p)
  {
    SubtreesWeight(a + mid, b, p);
    SubtreesWeight(a, mid, p);
    hide Weight;
  }

  /** A branch around a stretch of its children: the stretch, and the page with the other children. */
  lemma StretchOpens(id: PageId, keys: seq<Bytes>, a: seq<Tree>, mid: seq<Tree>, b: seq<Tree>)
    ensures Yields(Subtrees([BranchAt(id, keys, a + mid + b)]),
                   Both(Subtrees(mid), Both(Loose([id]), Both(Subtrees(a), Subtrees(b)))))
  {
    var t := BranchAt(id, keys, a + mid + b);
    var c, d := Subtrees([t]), Both(Subtrees(mid), Both(Loose([id]), Both(Subtrees(a), Subtrees(b))));
    forall p: PageId ensures Weight(c, p) == Weight(d, p) {
      BranchWeight(id, keys, a + mid + b, p);
      RunWeight(a, mid, b, p);
      WeightFour(Subtrees(mid), Loose([id]), Subtrees(a), Subtrees(b), p);
      hide Weight;
    }
    hide Weight;
    forall pages: map<PageId, Page> | Written(pages, c) ensures Written(pages, d) {
      assert t in [t];
      assert Written(pages, Both(Subtrees(a), Subtrees(b)));
      assert Written(pages, Both(Loose([id]), Both(Subtrees(a), Subtrees(b))));
    }
  }

  lemma StretchCloses(id: PageId, a: seq<Tree>, mid: seq<Tree>, b: seq<Tree>)
    ensures Yields(Both(Subtrees(mid), Both(Loose([id]), Both(Subtrees(a), Subtrees(b)))),
                   Both(Loose([id]), Subtrees(a + mid + b)))
  {
    var c, d := Both(Subtrees(mid), Both(Loose([id]), Both(Subtrees(a), Subtrees(b)))), Both(Loose([id]), Subtrees(a + mid + b));
    forall p: PageId ensures Weight(c, p) == Weight(d, p) {
      RunWeight(a, mid, b, p);
      WeightFour(Subtrees(mid), Loose([id]), Subtrees(a), Subtrees(b), p);
      WeightTwo(Loose([id]), Subtrees(a + mid + b), p);
      hide Weight;
    }
    hide Weight;
    forall pages: map<PageId, Page> | Written(pages, c) ensures Written(pages, d) {
      assert Written(pages, Both(Loose([id]), Both(Subtrees(a), Subtrees(b))));
      assert Written(pages, Both(Subtrees(a), Subtrees(b)));
      assert Written(pages, Subtrees(a)) && Written(pages, Subtrees(b)) && Written(pages, Subtrees(mid));
      assert Written(pages, Subtrees(a + mid + b));
    }
  }

  lemma StretchReopens(id: PageId, a: seq<Tree>, mid: seq<Tree>, b: seq<Tree>)
    ensures Yields(Both(Loose([id]), Subtrees(a + mid + b)),
                   Both(Subtrees(mid), Both(Loose([id]), Both(Subtrees(a), Subtrees(b)))))
  {
    var c, d := Both(Loose([id]), Subtrees(a + mid + b)), Both(Subtrees(mid), Both(Loose([id]), Both(Subtrees(a), Subtrees(b))));
    forall p: PageId ensures Weight(c, p) == Weight(d, p) {
      RunWeight(a, mid, b, p);
      WeightFour(Subtrees(mid), Loose([id]), Subtrees(a), Subtrees(b), p);
      WeightTwo(Loose([id]), Subtrees(a + mid + b), p);
      hide Weight;
    }
    hide Weight;
    forall pages: map<PageId, Page> | Written(pages, c) ensures Written(pages, d) {
      assert Written(pages, Subtrees(a + mid + b));
      assert Written(pages, Both(Subtrees(a), Subtrees(b)));
      assert Written(pages, Both(Loose([id]), Both(Subtrees(a), Subtrees(b))));
    }
  }

  /** The same, with a value on its way into the stretch. */
  lemma StretchTakes(id: PageId, keys: seq<Bytes>, a: seq<Tree>, mid: seq<Tree>, b: seq<Tree>, i: Item)
    ensures Yields(Both(Subtrees([BranchAt(id, keys, a + mid + b)]), Values([i])),
                   Both(Both(Subtrees(mid), Values([i])), Both(Loose([id]), Both(Subtrees(a), Subtrees(b)))))
  {
    var t := BranchAt(id, keys, a + mid + b);
    var x := Both(Loose([id]), Both(Subtrees(a), Subtrees(b)));
    var c, d := Both(Subtrees([t]), Values([i])), Both(Both(Subtrees(mid), Values([i])), x);
    StretchOpens(id, keys, a, mid, b);
    hide Occurs;
    hide ItemCopies;
    forall p: PageId ensures Weight(c, p) == Weight(d, p) {
      WeightTwo(Subtrees([t]), Values([i]), p);
      WeightTwo(Both(Subtrees(mid), Values([i])), x, p);
      WeightTwo(Subtrees(mid), Values([i]), p);
      WeightTwo(Subtrees(mid), x, p);
      hide Weight;
      assert Weight(Subtrees([t]), p) == Weight(Both(Subtrees(mid), x), p);
    }
    hide Weight;
    forall pages: map<PageId, Page> | Written(pages, c) ensures Written(pages, d) {
      assert Written(pages, Subtrees([t])) && Written(pages, Values([i]));
      assert Written(pages, Both(Subtrees(mid), x));
      assert Written(pages, Both(Subtrees(mid), Values([i])));
    }
  }

  /** Children written under two branches. */
  lemma BranchClosesTwo(id: PageId, id2: PageId, k1: seq<Bytes>, c1: seq<Tree>, k2: seq<Bytes>, c2: seq<Tree>)
    ensures Yields(Both(Node(id2, Branch(k2, RootsOf(c2))), Both(Node(id, Branch(k1, RootsOf(c1))), Subtrees(c1 + c2))),
                   Subtrees([BranchAt(id, k1, c1), BranchAt(id2, k2, c2)]))
  {
    var n, n2, l, r := Node(id, Branch(k1, RootsOf(c1))), Node(id2, Branch(k2, RootsOf(c2))), BranchAt(id, k1, c1), BranchAt(id2, k2, c2);
    var c, d := Both(n2, Both(n, Subtrees(c1 + c2))), Subtrees([l, r]);
    forall p: PageId ensures Weight(c, p) == Weight(d, p) {
      WeightThree(n2, n, Subtrees(c1 + c2), p);
      SubtreesWeight(c1, c2, p);
      BranchWeight(id, k1, c1, p);
      BranchWeight(id2, k2, c2, p);
      NodeWeight(id, n.page, p);
      NodeWeight(id2, n2.page, p);
      assert [l, r] == [l] + [r];
      SubtreesWeight([l], [r], p);
      hide Weight;
    }
    hide Weight;
    forall pages: map<PageId, Page> | Written(pages, c) ensures Written(pages, d) {
      assert Written(pages, Both(n, Subtrees(c1 + c2)));
      assert Written(pages, n2) && Written(pages, n) && Written(pages, Subtrees(c1 + c2));
      assert Spells(pages, l) && Spells(pages, r);
    }
  }

  lemma NodeWeight(id: PageId, page: Page, p: PageId)
    ensures Weight(Node(id, page), p) == Weight(Loose([id]), p)
  {
    CopiesOne(id, p);
  }

  /** Two branches poured together. */
  lemma BranchesOpen(l: Tree, r: Tree)
    requires l.BranchAt? && r.BranchAt?
    ensures Yields(Subtrees([l, r]), Both(Loose([l.id]), Both(Loose([r.id]), Subtrees(l.kids + r.kids))))
  {
    var kids := l.kids + r.kids;
    var c, d := Subtrees([l, r]), Both(Loose([l.id]), Both(Loose([r.id]), Subtrees(kids)));
    forall p: PageId ensures Weight(c, p) == Weight(d, p) {
      WeightThree(Loose([l.id]), Loose([r.id]), Subtrees(kids), p);
      SubtreesWeight(l.kids, r.kids, p);
      BranchWeight(l.id, l.keys, l.kids, p);
      BranchWeight(r.id, r.keys, r.kids, p);
      assert [l, r] == [l] + [r];
      SubtreesWeight([l], [r], p);
      hide Weight;
    }
    hide Weight;
    forall pages: map<PageId, Page> | Written(pages, c) ensures Written(pages, d) {
      assert l in [l, r] && r in [l, r];
      assert Written(pages, Subtrees(kids));
      assert Written(pages, Both(Loose([r.id]), Subtrees(kids)));
    }
  }

  /** Any three claims, the second brought to the front. */
  lemma SecondFirst(a: Claim, b: Claim, c: Claim)
    ensures Yields(Both(a, Both(b, c)), Both(b, Both(a, c)))
  {
    forall p: PageId ensures Weight(Both(a, Both(b, c)), p) == Weight(Both(b, Both(a, c)), p) {
      WeightThree(a, b, c, p);
      WeightThree(b, a, c, p);
      hide Weight;
    }
    hide Weight;
    forall pages: map<PageId, Page> | Written(pages, Both(a, Both(b, c))) ensures Written(pages, Both(b, Both(a, c))) {
      assert Written(pages, Both(b, c));
      assert Written(pages, Both(a, c));
    }
  }
}
