/**
 Who holds which page while a tree is being rewritten. A step of a rewrite gives
 some pages up and takes others; steps compose, and what a step does not
 mention it leaves alone.
 */
module Ledgers {
  import opened Bytes
  import opened PageFile
  import opened FreeLists
  import opened Trees
  import opened Pagers

  /** What a rewrite can see of the pager it works on. */
  datatype World = World(
    pages: map<PageId, Page>, owned: set<PageId>,
    stable: Version, held: map<TxId, Version>, readers: map<TxId, int>, history: seq<Moment>)

  /** Some pages: loose ones, one with known contents, part of a chain, the chains of some entries, whole subtrees, or several of these at once. */
  datatype Claim =
    | Loose(ids: seq<PageId>)
    | Node(id: PageId, page: Page)
    | Links(links: seq<PageId>, value: Bytes, first: nat)
    | Values(items: seq<Item>)
    | Subtrees(trees: seq<Tree>)
    | Both(left: Claim, right: Claim)

  const NOTHING: Claim := Loose([])

  /** How often a claim names a page. */
  ghost function Weight(c: Claim, p: PageId): nat {
    match c
    case Loose(ids) => Copies(ids, p)
    case Node(id, _) => if id == p then 1 else 0
    case Links(ids, _, _) => Copies(ids, p)
    case Values(items) => ItemCopies(items, p)
    case Subtrees(trees) => KidsOccur(trees, p)
    case Both(left, right) => Weight(left, p) + Weight(right, p)
  }

  ghost function Has(owned: set<PageId>, p: PageId): nat { if p in owned then 1 else 0 }

  /** Every page of the claim is held, and named once. */
  ghost predicate Covers(w: World, c: Claim) { forall p: PageId :: Weight(c, p) <= Has(w.owned, p) }

  ghost predicate Same(a: Claim, b: Claim) { forall p: PageId :: Weight(a, p) == Weight(b, p) }

  /** Nothing was committed, no snapshot came or went, and a crash at any instant in between lands on the same version. */
  ghost predicate Quiet(w0: World, w1: World) {
    && w1.stable == w0.stable && w1.held == w0.held && w1.readers == w0.readers
    && OnlyLeads(w0.history, w1.history, w0.stable)
  }

  /** Page for page: what is held after is what was held before, less `a`, and `b`. */
  ghost predicate Balances(w0: World, a: Claim, w1: World, b: Claim) {
    forall p: PageId :: Weight(b, p) + Has(w0.owned, p) == Weight(a, p) + Has(w1.owned, p)
  }

  /** No other page that was held has changed. */
  ghost predicate Spares(w0: World, a: Claim, w1: World) {
    forall p: PageId | p in w0.owned && p in w0.pages :: Weight(a, p) == 0 ==> p in w1.pages && w1.pages[p] == w0.pages[p]
  }

  ghost predicate Traded(w0: World, a: Claim, w1: World, b: Claim) {
    Quiet(w0, w1) && Balances(w0, a, w1, b) && Spares(w0, a, w1)
  }

  /** The pages of the file spell the claim. */
  ghost predicate Written(pages: map<PageId, Page>, c: Claim) {
    match c
    case Loose(_) => true
    case Node(id, page) => id != 0 && id in pages && pages[id] == page
    case Links(ids, value, first) => ChainHolds(pages, ids, value, first)
    case Values(items) => forall i | i in items :: ChainHolds(pages, i.pages, i.value, 0)
    case Subtrees(trees) => forall t | t in trees :: Spells(pages, t)
    case Both(left, right) => Written(pages, left) && Written(pages, right)
  }

  lemma QuietStart(w: World)
    ensures Quiet(w, w)
  {
  }

  lemma QuietChain(w0: World, w1: World, w2: World)
    requires Quiet(w0, w1) && Quiet(w1, w2)
    ensures Quiet(w0, w2)
  {
    OnlyLeadsChain(w0.history, w1.history, w2.history, w0.stable);
    hide OnlyLeads;
  }

  lemma TradedNothing(w: World, c: Claim)
    ensures Traded(w, c, w, c)
  {
    hide Weight;
  }

  lemma TradedChain(w0: World, a: Claim, w1: World, b: Claim, w2: World, c: Claim)
    requires Traded(w0, a, w1, b) && Traded(w1, b, w2, c)
    ensures Traded(w0, a, w2, c)
  {
    hide Weight;
    QuietChain(w0, w1, w2);
    hide Quiet;
    forall p: PageId ensures Weight(c, p) + Has(w0.owned, p) == Weight(a, p) + Has(w2.owned, p) {
      assert Weight(b, p) + Has(w0.owned, p) == Weight(a, p) + Has(w1.owned, p);
    }
    forall p: PageId | p in w0.owned && p in w0.pages && Weight(a, p) == 0
      ensures p in w2.pages && w2.pages[p] == w0.pages[p]
    {
      assert Weight(b, p) + Has(w0.owned, p) == Weight(a, p) + Has(w1.owned, p);
    }
  }

  /** The frame rule: a step leaves what it does not mention alone. */
  lemma TradedBeside(w0: World, a: Claim, w1: World, b: Claim, x: Claim)
    requires Traded(w0, a, w1, b)
    ensures Traded(w0, Both(a, x), w1, Both(b, x))
  {
    forall p: PageId
      ensures Weight(Both(a, x), p) == Weight(a, p) + Weight(x, p)
      ensures Weight(Both(b, x), p) == Weight(b, p) + Weight(x, p)
    {
    }
    hide Weight;
    hide Quiet;
  }

  lemma TradedSame(w0: World, a: Claim, w1: World, b: Claim, a': Claim, b': Claim)
    requires Traded(w0, a, w1, b) && Same(a, a') && Same(b, b')
    ensures Traded(w0, a', w1, b')
  {
    hide Weight;
    hide Quiet;
    forall p: PageId ensures Weight(b', p) + Has(w0.owned, p) == Weight(a', p) + Has(w1.owned, p) {
      assert Weight(a, p) == Weight(a', p) && Weight(b, p) == Weight(b', p);
    }
    forall p: PageId | p in w0.owned && p in w0.pages && Weight(a', p) == 0
      ensures p in w1.pages && w1.pages[p] == w0.pages[p]
    {
      assert Weight(a, p) == Weight(a', p);
    }
  }

  lemma CoversKept(w0: World, a: Claim, w1: World, b: Claim)
    requires Traded(w0, a, w1, b) && Covers(w0, a)
    ensures Covers(w1, b)
  {
    hide Weight;
    hide Quiet;
    forall p: PageId ensures Weight(b, p) <= Has(w1.owned, p) {
      assert Weight(a, p) <= Has(w0.owned, p);
    }
  }

  lemma CoversSame(w: World, a: Claim, b: Claim)
    requires Covers(w, a) && Same(a, b)
    ensures Covers(w, b)
  {
    hide Weight;
    forall p: PageId ensures Weight(b, p) <= Has(w.owned, p) {
      assert Weight(a, p) == Weight(b, p);
    }
  }

  lemma CoversParts(w: World, a: Claim, b: Claim)
    requires Covers(w, Both(a, b))
    ensures Covers(w, a) && Covers(w, b)
  {
    forall p: PageId ensures Weight(a, p) <= Has(w.owned, p) && Weight(b, p) <= Has(w.owned, p) {
      assert Weight(Both(a, b), p) == Weight(a, p) + Weight(b, p);
    }
    hide Weight;
  }

  // ---- what a step leaves alone still reads the same ----

  ghost predicate SameOn(c: Claim, a: map<PageId, Page>, b: map<PageId, Page>) {
    forall p | p in a && Weight(c, p) > 0 :: p in b && b[p] == a[p]
  }

  lemma BesideReadsSame(w0: World, a: Claim, w1: World, b: Claim, x: Claim)
    requires Traded(w0, a, w1, b) && Covers(w0, Both(a, x))
    ensures SameOn(x, w0.pages, w1.pages)
  {
    forall p | p in w0.pages && Weight(x, p) > 0 ensures p in w1.pages && w1.pages[p] == w0.pages[p] {
      assert Weight(Both(a, x), p) == Weight(a, p) + Weight(x, p) <= Has(w0.owned, p);
    }
    hide Weight;
    hide Quiet;
  }

  lemma ValuesFrame(items: seq<Item>, a: map<PageId, Page>, b: map<PageId, Page>)
    requires SameOn(Values(items), a, b) && Written(a, Values(items))
    ensures Written(b, Values(items))
  {
    hide ChainHolds;
    hide Copies;
    forall i | i in items ensures ChainHolds(b, i.pages, i.value, 0) {
      var at :| 0 <= at < |items| && items[at] == i;
      forall p | p in i.pages && p in a ensures p in b && b[p] == a[p] {
        ItemCopiesAt(items, at, p);
        CopiesIn(i.pages, p);
        assert Weight(Values(items), p) > 0;
      }
      ChainFrame(a, b, i.pages, i.value, 0);
    }
  }

  lemma SubtreesFrame(trees: seq<Tree>, a: map<PageId, Page>, b: map<PageId, Page>)
    requires SameOn(Subtrees(trees), a, b) && Written(a, Subtrees(trees))
    ensures Written(b, Subtrees(trees))
  {
    hide Spells;
    hide Occurs;
    forall t | t in trees ensures Spells(b, t) {
      var at :| 0 <= at < |trees| && trees[at] == t;
      forall p | p in a && Occurs(t, p) > 0 ensures p in b && b[p] == a[p] {
        KidsOccurAt(trees, at, p);
        assert Weight(Subtrees(trees), p) > 0;
      }
      SpellsFrame(a, b, t);
    }
  }

  lemma {:induction false} WrittenFrame(c: Claim, a: map<PageId, Page>, b: map<PageId, Page>)
    requires SameOn(c, a, b) && Written(a, c)
    ensures Written(b, c)
  {
    match c
    case Loose(_) =>
    case Node(id, _) => assert Weight(c, id) > 0;
    case Links(ids, value, first) =>
      forall p | p in ids ensures Weight(c, p) > 0 { CopiesIn(ids, p); }
      ChainFrame(a, b, ids, value, first);
    case Values(items) => ValuesFrame(items, a, b);
    case Subtrees(trees) => SubtreesFrame(trees, a, b);
    case Both(left, right) =>
      forall p | p in a && (Weight(left, p) > 0 || Weight(right, p) > 0) ensures p in b && b[p] == a[p] {
        assert Weight(c, p) > 0;
      }
      assert SameOn(left, a, b) && SameOn(right, a, b);
      hide Weight;
      hide SameOn;
      WrittenFrame(left, a, b);
      WrittenFrame(right, a, b);
  }

  lemma WrittenBeside(w0: World, a: Claim, w1: World, b: Claim, x: Claim)
    requires Traded(w0, a, w1, b) && Covers(w0, Both(a, x)) && Written(w0.pages, x)
    ensures Written(w1.pages, x)
  {
    hide Traded;
    hide Weight;
    hide Written;
    hide SameOn;
    BesideReadsSame(w0, a, w1, b, x);
    WrittenFrame(x, w0.pages, w1.pages);
  }

  // ---- steps ----

  /** The claim is held and its pages say what it says. */
  ghost predicate Good(w: World, c: Claim) { Covers(w, c) && Written(w.pages, c) }

  ghost predicate Steps(w0: World, a: Claim, w1: World, b: Claim) {
    Traded(w0, a, w1, b) && Good(w0, a) && Good(w1, b)
  }

  /** The same pages, described in less detail or another way. */
  ghost predicate Yields(a: Claim, b: Claim) {
    Same(a, b) && forall pages: map<PageId, Page> {:trigger Written(pages, a)} :: Written(pages, a) ==> Written(pages, b)
  }

  lemma GoodYields(w: World, a: Claim, b: Claim)
    requires Good(w, a) && Yields(a, b)
    ensures Good(w, b)
  {
    CoversSame(w, a, b);
    hide Covers;
  }

  lemma GoodParts(w: World, a: Claim, b: Claim)
    requires Good(w, Both(a, b))
    ensures Good(w, a) && Good(w, b)
  {
    CoversParts(w, a, b);
    hide Covers;
  }

  lemma StepsNothing(w: World, c: Claim)
    requires Good(w, c)
    ensures Steps(w, c, w, c)
  {
    TradedNothing(w, c);
    hide Traded;
    hide Good;
  }

  lemma StepsChain(w0: World, a: Claim, w1: World, b: Claim, w2: World, c: Claim)
    requires Steps(w0, a, w1, b) && Steps(w1, b, w2, c)
    ensures Steps(w0, a, w2, c)
  {
    hide Traded;
    hide Good;
    TradedChain(w0, a, w1, b, w2, c);
  }

  lemma StepsBeside(w0: World, a: Claim, w1: World, b: Claim, x: Claim)
    requires Steps(w0, a, w1, b) && Good(w0, Both(a, x))
    ensures Steps(w0, Both(a, x), w1, Both(b, x))
  {
    hide Traded;
    hide Covers;
    WrittenBeside(w0, a, w1, b, x);
    TradedBeside(w0, a, w1, b, x);
    CoversKept(w0, Both(a, x), w1, Both(b, x));
  }

  lemma StepsYield(w0: World, a: Claim, w1: World, b: Claim, a': Claim, b': Claim)
    requires Steps(w0, a, w1, b) && Good(w0, a') && Yields(a', a) && Yields(b, b')
    ensures Steps(w0, a', w1, b')
  {
    GoodYields(w1, b, b');
    hide Good;
    hide Traded;
    SameFlips(a', a);
    TradedSame(w0, a, w1, b, a', b');
  }

  lemma SameFlips(a: Claim, b: Claim)
    requires Same(a, b)
    ensures Same(b, a)
  {
    hide Weight;
  }

  /** One step of a rewrite: part of what is held changes, the rest is carried along. */
  lemma Carry(w0: World, c: Claim, a: Claim, w1: World, b: Claim, x: Claim, d: Claim)
    requires Good(w0, c) && Yields(c, Both(a, x)) && Yields(Both(b, x), d)
    requires Steps(w0, a, w1, b)
    ensures Steps(w0, c, w1, d)
  {
    hide Steps;
    hide Yields;
    hide Good;
    GoodYields(w0, c, Both(a, x));
    StepsBeside(w0, a, w1, b, x);
    StepsYield(w0, Both(a, x), w1, Both(b, x), c, d);
  }

  /** The part of a claim a step needs is good when the whole is. */
  lemma PartGood(w: World, c: Claim, a: Claim, x: Claim)
    requires Good(w, c) && Yields(c, Both(a, x))
    ensures Good(w, a)
  {
    hide Yields;
    hide Good;
    GoodYields(w, c, Both(a, x));
    GoodParts(w, a, x);
  }
}
