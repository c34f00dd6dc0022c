/**
 A tree as its pages spell it: which page each node and each chunk of a value is
 on, what the whole denotes, and what makes it well formed.
 */
module Trees {
  import opened Bytes
  import opened Options
  import opened PageFile
  import opened FreeLists
  import opened Nodes
  import opened Sorted
  import opened Seqs

  /** How much of a value one overflow page carries. */
  const CHUNK: int := CAPACITY - 12

  /** A leaf entry, its value in full, and the overflow pages the value lies on (none when it is inline). */
  datatype Item = Item(key: Bytes, value: Bytes, pages: seq<PageId>)

  datatype Tree =
    | LeafAt(id: PageId, items: seq<Item>)
    | BranchAt(id: PageId, keys: seq<Bytes>, kids: seq<Tree>)

  function StoredOf(i: Item): Stored {
    if i.pages == [] then Inline(i.key, i.value) else Chained(i.key, i.pages[0], |i.value|)
  }

  function StoredAll(items: seq<Item>): (r: seq<Stored>)
    ensures |r| == |items| && forall i | 0 <= i < |items| :: r[i] == StoredOf(items[i])
  {
    seq(|items|, i requires 0 <= i < |items| => StoredOf(items[i]))
  }

  function PairsOf(items: seq<Item>): (r: seq<Pair>)
    ensures |r| == |items| && forall i | 0 <= i < |items| :: r[i] == Pair(items[i].key, items[i].value)
  {
    seq(|items|, i requires 0 <= i < |items| => Pair(items[i].key, items[i].value))
  }

  function Chunks(n: nat): nat { (n + 4096 - 48 - 12 - 1) / (4096 - 48 - 12) }

  /** An entry the tree would store: a small value beside its key, a large one in a chain long enough to hold it. */
  predicate ItemOk(i: Item) {
    && LegalKey(i.key) && |i.value| <= MAX_VALUE
    && (if |i.value| <= MAX_INLINE then i.pages == [] else |i.pages| == Chunks(|i.value|))
    && (forall p | p in i.pages :: p >= 2)
  }

  /** Where chunk `j` starts. */
  function Offset(j: nat): nat { j * (4096 - 48 - 12) }

  /** Chunk `j` of a value. */
  function ChunkOf(value: Bytes, j: nat): Bytes
    requires Offset(j) <= |value|
  {
    value[Offset(j)..Min(Offset(j) + CHUNK, |value|)]
  }

  /** These overflow pages carry the chunks of the value from chunk `first` on, and lead to one another. */
  ghost predicate ChainHolds(pages: map<PageId, Page>, ids: seq<PageId>, value: Bytes, first: nat) {
    forall j: nat {:trigger ids[j]} | j < |ids| :: LinkHolds(pages, ids, value, first, j)
  }

  ghost predicate LinkHolds(pages: map<PageId, Page>, ids: seq<PageId>, value: Bytes, first: nat, j: nat)
    requires j < |ids|
  {
    && Offset(first + j) <= |value| && ids[j] in pages
    && pages[ids[j]] == Blob(if j + 1 < |ids| then ids[j + 1] else 0, ChunkOf(value, first + j))
  }

  function RootsOf(kids: seq<Tree>): (r: seq<PageId>)
    ensures |r| == |kids| && forall i | 0 <= i < |kids| :: r[i] == kids[i].id
  {
    seq(|kids|, i requires 0 <= i < |kids| => kids[i].id)
  }

  /** What the root page of a tree says. */
  function RootPage(t: Tree): Page {
    match t
    case LeafAt(_, items) => Leaf(StoredAll(items))
    case BranchAt(_, keys, kids) => Branch(keys, RootsOf(kids))
  }

  /** The pages of the file spell this tree. */
  ghost predicate Spells(pages: map<PageId, Page>, t: Tree) {
    && t.id != 0 && t.id in pages && pages[t.id] == RootPage(t)
    && match t
       case LeafAt(_, items) => forall i | i in items :: ChainHolds(pages, i.pages, i.value, 0)
       case BranchAt(_, _, kids) => forall k | k in kids :: Spells(pages, k)
  }

  // ---- which pages a tree occupies ----

  ghost function ItemCopies(items: seq<Item>, p: PageId): nat {
    if items == [] then 0 else ItemCopies(items[..|items| - 1], p) + Copies(items[|items| - 1].pages, p)
  }

  /** How often a page occurs in a tree, overflow pages included. */
  ghost function Occurs(t: Tree, p: PageId): nat
    decreases t, 1
  {
    (if t.id == p then 1 else 0) +
    match t
    case LeafAt(_, items) => ItemCopies(items, p)
    case BranchAt(_, _, kids) => KidsOccur(kids, p)
  }

  ghost function KidsOccur(kids: seq<Tree>, p: PageId): nat
    decreases kids, 0
  {
    if kids == [] then 0 else KidsOccur(kids[..|kids| - 1], p) + Occurs(kids[|kids| - 1], p)
  }

  lemma KidsOccurPush(kids: seq<Tree>, k: Tree, p: PageId)
    ensures KidsOccur(kids + [k], p) == KidsOccur(kids, p) + Occurs(k, p)
  {
    hide Occurs;
    assert (kids + [k])[..|kids|] == kids;
  }

  lemma {:induction false} KidsOccurConcat(a: seq<Tree>, b: seq<Tree>, p: PageId)
    ensures KidsOccur(a + b, p) == KidsOccur(a, p) + KidsOccur(b, p)
  {
    hide Occurs;
    if b == [] {
      assert a + b == a;
    } else {
      var before, last := b[..|b| - 1], b[|b| - 1];
      KidsOccurConcat(a, before, p);
      KidsOccurPush(a + before, last, p);
      KidsOccurPush(before, last, p);
      hide KidsOccur;
      assert b == before + [last] && a + b == (a + before) + [last];
    }
  }

  lemma KidsOccurOne(k: Tree, p: PageId)
    ensures KidsOccur([k], p) == Occurs(k, p)
  {
    hide Occurs;
    assert [k][..0] == [];
  }

  lemma KidsOccurAt(kids: seq<Tree>, at: nat, p: PageId)
    requires at < |kids|
    ensures KidsOccur(kids, p) == KidsOccur(kids[..at], p) + Occurs(kids[at], p) + KidsOccur(kids[at + 1..], p)
  {
    hide Occurs;
    hide KidsOccur;
    Around(kids, at);
    KidsOccurConcat(kids[..at] + [kids[at]], kids[at + 1..], p);
    KidsOccurPush(kids[..at], kids[at], p);
  }

  lemma ItemCopiesPush(items: seq<Item>, i: Item, p: PageId)
    ensures ItemCopies(items + [i], p) == ItemCopies(items, p) + Copies(i.pages, p)
  {
    hide Copies;
    assert (items + [i])[..|items|] == items;
  }

  lemma {:induction false} ItemCopiesConcat(a: seq<Item>, b: seq<Item>, p: PageId)
    ensures ItemCopies(a + b, p) == ItemCopies(a, p) + ItemCopies(b, p)
  {
    hide Copies;
    if b == [] {
      assert a + b == a;
    } else {
      var before, last := b[..|b| - 1], b[|b| - 1];
      ItemCopiesConcat(a, before, p);
      ItemCopiesPush(a + before, last, p);
      ItemCopiesPush(before, last, p);
      hide ItemCopies;
      assert b == before + [last] && a + b == (a + before) + [last];
    }
  }

  lemma ItemCopiesAt(items: seq<Item>, at: nat, p: PageId)
    requires at < |items|
    ensures ItemCopies(items, p) == ItemCopies(items[..at], p) + Copies(items[at].pages, p) + ItemCopies(items[at + 1..], p)
  {
    hide Copies;
    hide ItemCopies;
    Around(items, at);
    ItemCopiesConcat(items[..at] + [items[at]], items[at + 1..], p);
    ItemCopiesPush(items[..at], items[at], p);
  }

  // ---- reading the same pages ----

  /** Two files agree on every page of a tree. */
  ghost predicate Agree(a: map<PageId, Page>, b: map<PageId, Page>, t: Tree) {
    forall p | p in a && Occurs(t, p) > 0 :: p in b && b[p] == a[p]
  }

  lemma ItemPageOccurs(t: Tree, i: Item, p: PageId)
    requires t.LeafAt? && i in t.items && p in i.pages
    ensures Occurs(t, p) > 0
  {
    var at :| 0 <= at < |t.items| && t.items[at] == i;
    ItemCopiesAt(t.items, at, p);
    CopiesIn(i.pages, p);
    hide Copies;
    hide ItemCopies;
  }

  lemma KidPageOccurs(t: Tree, k: Tree, p: PageId)
    requires t.BranchAt? && k in t.kids
    ensures Occurs(t, p) >= Occurs(k, p)
  {
    var at :| 0 <= at < |t.kids| && t.kids[at] == k;
    KidsOccurAt(t.kids, at, p);
    hide KidsOccur;
  }

  lemma ChainFrame(a: map<PageId, Page>, b: map<PageId, Page>, ids: seq<PageId>, value: Bytes, first: nat)
    requires ChainHolds(a, ids, value, first) && forall p | p in ids && p in a :: p in b && b[p] == a[p]
    ensures ChainHolds(b, ids, value, first)
  {
    forall j: nat | j < |ids| ensures LinkHolds(b, ids, value, first, j) {
      assert ids[j] in ids;
      assert LinkHolds(a, ids, value, first, j);
    }
  }

  lemma {:induction false} SpellsFrame(a: map<PageId, Page>, b: map<PageId, Page>, t: Tree)
    requires Spells(a, t) && Agree(a, b, t)
    ensures Spells(b, t)
    decreases t
  {
    assert Occurs(t, t.id) > 0;
    hide Occurs;
    hide ChainHolds;
    match t
    case LeafAt(_, items) =>
      forall i | i in items ensures ChainHolds(b, i.pages, i.value, 0) {
        forall p | p in i.pages ensures Occurs(t, p) > 0 { ItemPageOccurs(t, i, p); }
        ChainFrame(a, b, i.pages, i.value, 0);
      }
    case BranchAt(_, _, kids) =>
      forall k | k in kids ensures Spells(b, k) {
        forall p | Occurs(k, p) > 0 ensures Occurs(t, p) > 0 { KidPageOccurs(t, k, p); }
        SpellsFrame(a, b, k);
      }
  }

  // ---- what a tree denotes ----

  ghost function Entries(t: Tree): seq<Pair>
    decreases t, 1
  {
    match t
    case LeafAt(_, items) => PairsOf(items)
    case BranchAt(_, _, kids) => KidsEntries(kids)
  }

  ghost function KidsEntries(kids: seq<Tree>): seq<Pair>
    decreases kids, 0
  {
    if kids == [] then [] else KidsEntries(kids[..|kids| - 1]) + Entries(kids[|kids| - 1])
  }

  lemma KidsEntriesPush(kids: seq<Tree>, k: Tree)
    ensures KidsEntries(kids + [k]) == KidsEntries(kids) + Entries(k)
  {
    hide Entries;
    assert (kids + [k])[..|kids|] == kids;
  }

  lemma {:induction false} KidsEntriesConcat(a: seq<Tree>, b: seq<Tree>)
    ensures KidsEntries(a + b) == KidsEntries(a) + KidsEntries(b)
  {
    hide Entries;
    if b == [] {
      assert a + b == a;
    } else {
      var before, last := b[..|b| - 1], b[|b| - 1];
      KidsEntriesConcat(a, before);
      KidsEntriesPush(a + before, last);
      KidsEntriesPush(before, last);
      hide KidsEntries;
      assert b == before + [last] && a + b == (a + before) + [last];
    }
  }

  lemma KidsEntriesOne(k: Tree)
    ensures KidsEntries([k]) == Entries(k)
  {
    hide Entries;
    assert [k][..0] == [];
  }

  lemma KidsEntriesAt(kids: seq<Tree>, at: nat)
    requires at < |kids|
    ensures KidsEntries(kids) == KidsEntries(kids[..at]) + Entries(kids[at]) + KidsEntries(kids[at + 1..])
  {
    hide Entries;
    hide KidsEntries;
    Around(kids, at);
    KidsEntriesConcat(kids[..at] + [kids[at]], kids[at + 1..]);
    KidsEntriesPush(kids[..at], kids[at]);
  }

  /** Replacing two neighbouring children by others with the same entries changes nothing. */
  lemma PairEntries(kids: seq<Tree>, left: nat, mid: seq<Tree>)
    requires left + 1 < |kids| && KidsEntries(mid) == Entries(kids[left]) + Entries(kids[left + 1])
    ensures KidsEntries(kids[..left] + mid + kids[left + 2..]) == KidsEntries(kids)
  {
    hide KidsEntries;
    hide Entries;
    var a, l, r, b := kids[..left], kids[left], kids[left + 1], kids[left + 2..];
    assert kids == a + [l, r] + b;
    assert [l, r] == [l] + [r];
    KidsEntriesOne(l);
    KidsEntriesPush([l], r);
    KidsEntriesConcat(a + [l, r], b);
    KidsEntriesConcat(a, [l, r]);
    KidsEntriesConcat(a + mid, b);
    KidsEntriesConcat(a, mid);
  }

  /** Every entry of a list of subtrees is an entry of one of them. */
  lemma {:induction false} InKids(kids: seq<Tree>, e: Pair)
    requires e in KidsEntries(kids)
    ensures exists i :: 0 <= i < |kids| && e in Entries(kids[i])
  {
    hide Entries;
    var before, last := kids[..|kids| - 1], kids[|kids| - 1];
    if e in Entries(last) {
      assert e in Entries(kids[|kids| - 1]);
    } else {
      InKids(before, e);
      var i :| 0 <= i < |before| && e in Entries(before[i]);
      assert e in Entries(kids[i]);
    }
  }

  // ---- well-formed trees ----

  /** Keys in [lo, hi); the empty key is below every key, None is above. */
  predicate Inside(k: Bytes, lo: Bytes, hi: Option<Bytes>) {
    AtMost(lo, k) && (hi.Some? ==> Less(k, hi.value))
  }

  function LowerOf(keys: seq<Bytes>, i: nat, lo: Bytes): Bytes
    requires i <= |keys|
  {
    if i == 0 then lo else keys[i - 1]
  }

  function UpperOf(keys: seq<Bytes>, i: nat, hi: Option<Bytes>): Option<Bytes>
    requires i <= |keys|
  {
    if i == |keys| then hi else Some(keys[i])
  }

  /** A separator lies strictly between the bounds of its node. */
  predicate Separates(k: Bytes, lo: Bytes, hi: Option<Bytes>) {
    LegalKey(k) && Less(lo, k) && (hi.Some? ==> Less(k, hi.value))
  }

  ghost predicate KeysOk(keys: seq<Bytes>, lo: Bytes, hi: Option<Bytes>) {
    && (forall i | 0 <= i < |keys| :: Separates(keys[i], lo, hi))
    && (forall i, j | 0 <= i < j < |keys| :: Less(keys[i], keys[j]))
  }

  ghost predicate ItemsOk(items: seq<Item>, lo: Bytes, hi: Option<Bytes>) {
    && (forall i | 0 <= i < |items| :: ItemOk(items[i]) && Inside(items[i].key, lo, hi))
    && (forall i, j | 0 <= i < j < |items| :: Less(items[i].key, items[j].key))
  }

  /**
   All leaves at depth `h`, and everywhere left < separator <= right: the keys of
   child i lie in [separator i-1, separator i).
   */
  ghost predicate Ordered(t: Tree, h: nat, lo: Bytes, hi: Option<Bytes>) {
    match t
    case LeafAt(_, items) => h == 0 && ItemsOk(items, lo, hi)
    case BranchAt(_, keys, kids) =>
      && h > 0 && |kids| == |keys| + 1 && KeysOk(keys, lo, hi)
      && forall i: nat | i < |kids| :: Ordered(kids[i], h - 1, LowerOf(keys, i, lo), UpperOf(keys, i, hi))
  }

  /** Every page fits. Below the root every leaf has an entry and every branch at least two children. */
  ghost predicate Shaped(t: Tree)
    decreases t, 0
  {
    match t
    case LeafAt(_, items) => LeafBytes(StoredAll(items)) <= CAPACITY
    case BranchAt(_, keys, kids) => BranchBytes(keys) <= CAPACITY && forall k | k in kids :: Full(k)
  }

  ghost predicate Full(t: Tree)
    decreases t, 1
  {
    && Shaped(t)
    && (t.LeafAt? ==> t.items != [])
    && (t.BranchAt? ==> t.keys != [])
  }

  /** The bounds of a child lie within the bounds of its parent. */
  lemma InsideWider(k: Bytes, keys: seq<Bytes>, i: nat, lo: Bytes, hi: Option<Bytes>)
    requires i <= |keys| && KeysOk(keys, lo, hi) && Inside(k, LowerOf(keys, i, lo), UpperOf(keys, i, hi))
    ensures Inside(k, lo, hi)
  {
    StrictTotalOrder();
    hide Less;
  }

  lemma {:induction false} EntriesInside(t: Tree, h: nat, lo: Bytes, hi: Option<Bytes>)
    requires Ordered(t, h, lo, hi)
    ensures forall e | e in Entries(t) :: Inside(e.key, lo, hi)
    decreases t
  {
    hide Less;
    match t
    case LeafAt(_, items) =>
    case BranchAt(_, keys, kids) =>
      forall e | e in Entries(t) ensures Inside(e.key, lo, hi) {
        InKids(kids, e);
        var i: nat :| i < |kids| && e in Entries(kids[i]);
        EntriesInside(kids[i], h - 1, LowerOf(keys, i, lo), UpperOf(keys, i, hi));
        InsideWider(e.key, keys, i, lo, hi);
      }
  }

  /** Everything left of child `at` is below what child `at` may hold, everything right of it above. */
  lemma KidsApart(keys: seq<Bytes>, kids: seq<Tree>, h: nat, lo: Bytes, hi: Option<Bytes>, at: nat, k: Bytes)
    requires Ordered(BranchAt(1, keys, kids), h, lo, hi) && at < |kids|
    requires Inside(k, LowerOf(keys, at, lo), UpperOf(keys, at, hi))
    ensures AllOn(KidsEntries(kids[..at]), Under, k) && AllOn(KidsEntries(kids[at + 1..]), Over, k)
  {
    hide Less;
    hide KidsEntries;
    hide Entries;
    forall e | e in KidsEntries(kids[..at]) ensures Less(e.key, k) {
      InKids(kids[..at], e);
      var i: nat :| i < at && e in Entries(kids[..at][i]);
      EntriesInside(kids[i], h - 1, LowerOf(keys, i, lo), UpperOf(keys, i, hi));
      StrictTotalOrder();
    }
    forall e | e in KidsEntries(kids[at + 1..]) ensures Less(k, e.key) {
      InKids(kids[at + 1..], e);
      var j: nat :| j < |kids| - at - 1 && e in Entries(kids[at + 1..][j]);
      var i := at + 1 + j;
      EntriesInside(kids[i], h - 1, LowerOf(keys, i, lo), UpperOf(keys, i, hi));
      StrictTotalOrder();
    }
  }

  /** Changing one child changes the whole run the same way. */
  lemma PutInKid(keys: seq<Bytes>, kids: seq<Tree>, h: nat, lo: Bytes, hi: Option<Bytes>, at: nat, mid: seq<Tree>, k: Bytes, v: Bytes)
    requires Ordered(BranchAt(1, keys, kids), h, lo, hi) && at < |kids|
    requires Inside(k, LowerOf(keys, at, lo), UpperOf(keys, at, hi))
    ensures KidsEntries(mid) == Updated(Entries(kids[at]), k, v) ==>
              KidsEntries(kids[..at] + mid + kids[at + 1..]) == Updated(KidsEntries(kids), k, v)
    ensures KidsEntries(mid) == Removed(Entries(kids[at]), k) ==>
              KidsEntries(kids[..at] + mid + kids[at + 1..]) == Removed(KidsEntries(kids), k)
  {
    hide Less;
    hide KidsEntries;
    hide Entries;
    hide AllOn;
    KidsApart(keys, kids, h, lo, hi, at, k);
    hide Ordered;
    KidsEntriesAt(kids, at);
    PutInside(KidsEntries(kids[..at]), Entries(kids[at]), KidsEntries(kids[at + 1..]), k, v);
    hide Updated;
    hide Removed;
    KidsEntriesConcat(kids[..at] + mid, kids[at + 1..]);
    KidsEntriesConcat(kids[..at], mid);
  }

  // ---- leaves ----

  lemma StoredConcat(a: seq<Item>, b: seq<Item>)
    ensures StoredAll(a + b) == StoredAll(a) + StoredAll(b)
    ensures PairsOf(a + b) == PairsOf(a) + PairsOf(b)
  {
  }

  lemma StoredSlice(items: seq<Item>, from: nat, to: nat)
    requires from <= to <= |items|
    ensures StoredAll(items[from..to]) == StoredAll(items)[from..to]
    ensures PairsOf(items[from..to]) == PairsOf(items)[from..to]
  {
  }

  /** The entries of a leaf with one put in at `at`, over the one there or beside it. */
  function PutItem(items: seq<Item>, at: nat, found: bool, i: Item): seq<Item>
    requires at <= |items| && (found ==> at < |items|)
  {
    if found then items[..at] + [i] + items[at + 1..] else items[..at] + [i] + items[at..]
  }

  /** `at` is the first place whose key is not below `k`, and `found` says whether it is `k`. */
  ghost predicate Finds(items: seq<Item>, k: Bytes, at: int, found: bool) {
    && 0 <= at <= |items|
    && (forall i | 0 <= i < at :: Less(items[i].key, k))
    && (forall i | at <= i < |items| :: AtMost(k, items[i].key))
    && (found <==> at < |items| && items[at].key == k)
  }

  lemma FoundSides(items: seq<Item>, lo: Bytes, hi: Option<Bytes>, k: Bytes, at: nat, found: bool)
    requires ItemsOk(items, lo, hi) && Finds(items, k, at, found)
    ensures forall i | at < i < |items| :: Less(k, items[i].key)
    ensures !found ==> forall i | at <= i < |items| :: Less(k, items[i].key)
  {
    StrictTotalOrder();
    hide Less;
  }

  /** Entries before `at` are below `k`, entries from `rest` on above. */
  ghost predicate Sides(items: seq<Item>, k: Bytes, at: nat, rest: nat)
    requires at <= rest <= |items|
  {
    AllOn(PairsOf(items)[..at], Under, k) && AllOn(PairsOf(items)[rest..], Over, k)
  }

  lemma FoundBetween(items: seq<Item>, lo: Bytes, hi: Option<Bytes>, k: Bytes, at: nat, found: bool)
    requires ItemsOk(items, lo, hi) && Finds(items, k, at, found)
    ensures Sides(items, k, at, if found then at + 1 else at)
  {
    hide Less;
    FoundSides(items, lo, hi, k, at, found);
    hide ItemsOk;
  }

  lemma LeafPutPairs(items: seq<Item>, i: Item, at: nat, found: bool)
    requires at <= |items| && (found ==> at < |items| && items[at].key == i.key)
    requires Sides(items, i.key, at, if found then at + 1 else at)
    ensures PairsOf(PutItem(items, at, found, i)) == Updated(PairsOf(items), i.key, i.value)
  {
    hide AllOn;
    var es, rest := PairsOf(items), if found then at + 1 else at;
    StoredConcat(items[..at] + [i], items[rest..]);
    StoredConcat(items[..at], [i]);
    StoredSlice(items, 0, at);
    StoredSlice(items, rest, |items|);
    assert PairsOf([i]) == [Pair(i.key, i.value)];
    if found { PutOver(es, at, i.key, i.value); } else { PutNew(es, at, i.key, i.value); }
    hide Updated;
  }

  lemma LeafPutOrder(items: seq<Item>, lo: Bytes, hi: Option<Bytes>, i: Item, at: nat, found: bool)
    requires ItemsOk(items, lo, hi) && Finds(items, i.key, at, found) && ItemOk(i) && Inside(i.key, lo, hi)
    ensures ItemsOk(PutItem(items, at, found, i), lo, hi)
  {
    hide Less;
    hide ItemOk;
    FoundSides(items, lo, hi, i.key, at, found);
  }

  /** Putting an entry where its key belongs keeps a leaf sorted and is Updated on what it denotes. */
  lemma LeafPut(items: seq<Item>, lo: Bytes, hi: Option<Bytes>, i: Item, at: nat, found: bool)
    requires ItemsOk(items, lo, hi) && Finds(items, i.key, at, found) && ItemOk(i) && Inside(i.key, lo, hi)
    ensures ItemsOk(PutItem(items, at, found, i), lo, hi)
    ensures PairsOf(PutItem(items, at, found, i)) == Updated(PairsOf(items), i.key, i.value)
  {
    hide Less;
    hide ItemsOk;
    hide Sides;
    hide Updated;
    hide PutItem;
    FoundBetween(items, lo, hi, i.key, at, found);
    LeafPutPairs(items, i, at, found);
    LeafPutOrder(items, lo, hi, i, at, found);
  }

  lemma LeafRemovePairs(items: seq<Item>, k: Bytes, at: nat, found: bool)
    requires at <= |items| && (found ==> at < |items| && items[at].key == k)
    requires Sides(items, k, at, if found then at + 1 else at)
    ensures found ==> PairsOf(items[..at] + items[at + 1..]) == Removed(PairsOf(items), k)
    ensures !found ==> Removed(PairsOf(items), k) == PairsOf(items)
  {
    hide AllOn;
    var es := PairsOf(items);
    if found {
      StoredConcat(items[..at], items[at + 1..]);
      StoredSlice(items, 0, at);
      StoredSlice(items, at + 1, |items|);
      PutOver(es, at, k, []);
    } else {
      PutNew(es, at, k, []);
    }
    hide Removed;
  }

  /** Taking an entry out. */
  lemma LeafRemove(items: seq<Item>, lo: Bytes, hi: Option<Bytes>, k: Bytes, at: nat, found: bool)
    requires ItemsOk(items, lo, hi) && Finds(items, k, at, found)
    ensures found ==> ItemsOk(items[..at] + items[at + 1..], lo, hi)
    ensures found ==> PairsOf(items[..at] + items[at + 1..]) == Removed(PairsOf(items), k)
    ensures !found ==> Removed(PairsOf(items), k) == PairsOf(items)
  {
    hide Less;
    hide ItemOk;
    hide Sides;
    hide Removed;
    FoundBetween(items, lo, hi, k, at, found);
    LeafRemovePairs(items, k, at, found);
  }

  lemma LeafCutLeft(items: seq<Item>, lo: Bytes, hi: Option<Bytes>, cut: nat)
    requires ItemsOk(items, lo, hi) && 0 < cut < |items|
    ensures ItemsOk(items[..cut], lo, Some(items[cut].key))
  {
    hide Less;
    hide ItemOk;
  }

  lemma LeafCutRight(items: seq<Item>, lo: Bytes, hi: Option<Bytes>, cut: nat)
    requires ItemsOk(items, lo, hi) && 0 < cut < |items|
    ensures ItemsOk(items[cut..], items[cut].key, hi)
  {
    var s := items[cut].key;
    forall i | cut <= i < |items| ensures AtMost(s, items[i].key) {
      if i == cut { Irreflexive(s); } else { Asymmetric(s, items[i].key); }
    }
    hide Less;
    hide ItemOk;
    hide AtMost;
  }

  /** Cutting a leaf: the first key on the right separates the halves. */
  lemma LeafCut(items: seq<Item>, lo: Bytes, hi: Option<Bytes>, cut: nat)
    requires ItemsOk(items, lo, hi) && 0 < cut < |items|
    ensures ItemsOk(items[..cut], lo, Some(items[cut].key)) && ItemsOk(items[cut..], items[cut].key, hi)
    ensures PairsOf(items[..cut]) + PairsOf(items[cut..]) == PairsOf(items)
    ensures Separates(items[cut].key, lo, hi)
  {
    LeafCutLeft(items, lo, hi, cut);
    LeafCutRight(items, lo, hi, cut);
    assert Less(items[0].key, items[cut].key) && AtMost(lo, items[0].key);
    BelowThenLess(lo, items[0].key, items[cut].key);
    assert ItemOk(items[cut]) && Inside(items[cut].key, lo, hi);
    hide Less;
    hide ItemsOk;
    StoredSlice(items, 0, cut);
    StoredSlice(items, cut, |items|);
  }

  lemma BelowThenLess(a: Bytes, b: Bytes, c: Bytes)
    requires AtMost(a, b) && Less(b, c)
    ensures Less(a, c)
  {
    StrictTotalOrder();
    hide Less;
  }

  /** What an entry takes up in a leaf, told from what it denotes: a small value is beside its key, a large one in a chain. */
  function PairCost(p: Pair): int { 8 + |p.key| + if |p.value| <= MAX_INLINE then |p.value| else 8 }

  function PairsTotal(es: seq<Pair>): int {
    if es == [] then 0 else PairsTotal(es[..|es| - 1]) + PairCost(es[|es| - 1])
  }

  /** These entries fit one leaf. */
  predicate OneLeaf(es: seq<Pair>) { LEAF_HEADER + PairsTotal(es) <= CAPACITY }

  lemma {:induction false} LeafBytesOf(items: seq<Item>)
    requires forall i | i in items :: ItemOk(i)
    ensures Total(StoredAll(items)) == PairsTotal(PairsOf(items))
  {
    if items != [] {
      var n := |items| - 1;
      LeafBytesOf(items[..n]);
      StoredSlice(items, 0, n);
      assert items[..n] == items[0..n];
      assert items[n] in items;
    }
  }

  lemma LegalStored(i: Item)
    requires ItemOk(i)
    ensures Legal(StoredOf(i)) && Cost(StoredOf(i)) <= CAPACITY / 2
  {
  }

  /** Joining two neighbouring leaves. */
  lemma LeafJoin(a: seq<Item>, b: seq<Item>, lo: Bytes, sep: Bytes, hi: Option<Bytes>)
    requires ItemsOk(a, lo, Some(sep)) && ItemsOk(b, sep, hi) && Separates(sep, lo, hi)
    ensures ItemsOk(a + b, lo, hi) && PairsOf(a + b) == PairsOf(a) + PairsOf(b)
  {
    StrictTotalOrder();
    hide Less;
    hide ItemOk;
  }

  // ---- branches ----

  /** The keys and children of a branch, and the height of the tree under it. */
  ghost predicate OrderedKids(keys: seq<Bytes>, kids: seq<Tree>, h: nat, lo: Bytes, hi: Option<Bytes>) {
    && |kids| == |keys| + 1 && KeysOk(keys, lo, hi)
    && forall i: nat | i < |kids| :: Ordered(kids[i], h, LowerOf(keys, i, lo), UpperOf(keys, i, hi))
  }

  lemma OrderedBranch(id: PageId, keys: seq<Bytes>, kids: seq<Tree>, h: nat, lo: Bytes, hi: Option<Bytes>)
    ensures Ordered(BranchAt(id, keys, kids), h, lo, hi) <==> h > 0 && OrderedKids(keys, kids, h - 1, lo, hi)
  {
    hide Less;
  }

  /** A child replaced by one child. */
  lemma KidReplaced(keys: seq<Bytes>, kids: seq<Tree>, h: nat, lo: Bytes, hi: Option<Bytes>, at: nat, l: Tree)
    requires OrderedKids(keys, kids, h, lo, hi) && at < |kids|
    requires Ordered(l, h, LowerOf(keys, at, lo), UpperOf(keys, at, hi))
    ensures OrderedKids(keys, kids[..at] + [l] + kids[at + 1..], h, lo, hi)
  {
    hide KeysOk;
    hide Ordered;
  }

  /** A child replaced by two, with a separator between them. */
  lemma KidSplit(keys: seq<Bytes>, kids: seq<Tree>, h: nat, lo: Bytes, hi: Option<Bytes>, at: nat, l: Tree, sep: Bytes, r: Tree)
    requires OrderedKids(keys, kids, h, lo, hi) && at < |kids|
    requires Separates(sep, LowerOf(keys, at, lo), UpperOf(keys, at, hi))
    requires Ordered(l, h, LowerOf(keys, at, lo), Some(sep)) && Ordered(r, h, sep, UpperOf(keys, at, hi))
    ensures OrderedKids(keys[..at] + [sep] + keys[at..], kids[..at] + [l, r] + kids[at + 1..], h, lo, hi)
  {
    var keys1, kids1 := keys[..at] + [sep] + keys[at..], kids[..at] + [l, r] + kids[at + 1..];
    assert KeysOk(keys1, lo, hi) by { KeyInserted(keys, lo, hi, at, sep); }
    hide KeysOk;
    hide Ordered;
    forall i: nat | i < |kids1| ensures Ordered(kids1[i], h, LowerOf(keys1, i, lo), UpperOf(keys1, i, hi)) {
      if i < at {
        assert kids1[i] == kids[i] && LowerOf(keys1, i, lo) == LowerOf(keys, i, lo) && UpperOf(keys1, i, hi) == UpperOf(keys, i, hi);
      } else if i > at + 1 {
        assert kids1[i] == kids[i - 1] && LowerOf(keys1, i, lo) == LowerOf(keys, i - 1, lo) && UpperOf(keys1, i, hi) == UpperOf(keys, i - 1, hi);
      }
    }
  }

  lemma KeyInserted(keys: seq<Bytes>, lo: Bytes, hi: Option<Bytes>, at: nat, sep: Bytes)
    requires KeysOk(keys, lo, hi) && at <= |keys|
    requires Separates(sep, LowerOf(keys, at, lo), UpperOf(keys, at, hi))
    ensures KeysOk(keys[..at] + [sep] + keys[at..], lo, hi)
  {
    StrictTotalOrder();
    hide Less;
    hide LegalKey;
  }

  /** Two neighbouring children replaced by one: the separator between them goes. */
  lemma KidsMerged(keys: seq<Bytes>, kids: seq<Tree>, h: nat, lo: Bytes, hi: Option<Bytes>, left: nat, m: Tree)
    requires OrderedKids(keys, kids, h, lo, hi) && left < |keys|
    requires Ordered(m, h, LowerOf(keys, left, lo), UpperOf(keys, left + 1, hi))
    ensures OrderedKids(keys[..left] + keys[left + 1..], kids[..left] + [m] + kids[left + 2..], h, lo, hi)
  {
    var keys1, kids1 := keys[..left] + keys[left + 1..], kids[..left] + [m] + kids[left + 2..];
    assert KeysOk(keys1, lo, hi) by { hide Less; hide LegalKey; }
    hide KeysOk;
    hide Ordered;
    forall i: nat | i < |kids1| ensures Ordered(kids1[i], h, LowerOf(keys1, i, lo), UpperOf(keys1, i, hi)) {
      if i < left {
        assert kids1[i] == kids[i] && LowerOf(keys1, i, lo) == LowerOf(keys, i, lo) && UpperOf(keys1, i, hi) == UpperOf(keys, i, hi);
      } else if i > left {
        assert kids1[i] == kids[i + 1] && LowerOf(keys1, i, lo) == LowerOf(keys, i + 1, lo) && UpperOf(keys1, i, hi) == UpperOf(keys, i + 1, hi);
      }
    }
  }

  /** Two neighbouring children replaced by two, with a new separator between them. */
  lemma KidsResplit(keys: seq<Bytes>, kids: seq<Tree>, h: nat, lo: Bytes, hi: Option<Bytes>, left: nat, l: Tree, sep: Bytes, r: Tree)
    requires OrderedKids(keys, kids, h, lo, hi) && left < |keys|
    requires Separates(sep, LowerOf(keys, left, lo), UpperOf(keys, left + 1, hi))
    requires Ordered(l, h, LowerOf(keys, left, lo), Some(sep)) && Ordered(r, h, sep, UpperOf(keys, left + 1, hi))
    ensures OrderedKids(keys[left := sep], kids[..left] + [l, r] + kids[left + 2..], h, lo, hi)
  {
    var keys1, kids1 := keys[left := sep], kids[..left] + [l, r] + kids[left + 2..];
    assert KeysOk(keys1, lo, hi) by { KeyChanged(keys, lo, hi, left, sep); }
    hide KeysOk;
    hide Ordered;
    forall i: nat | i < |kids1| ensures Ordered(kids1[i], h, LowerOf(keys1, i, lo), UpperOf(keys1, i, hi)) {
      if i < left || i > left + 1 {
        assert kids1[i] == kids[i] && LowerOf(keys1, i, lo) == LowerOf(keys, i, lo) && UpperOf(keys1, i, hi) == UpperOf(keys, i, hi);
      }
    }
  }

  lemma KeyChanged(keys: seq<Bytes>, lo: Bytes, hi: Option<Bytes>, at: nat, sep: Bytes)
    requires KeysOk(keys, lo, hi) && at < |keys|
    requires Separates(sep, LowerOf(keys, at, lo), UpperOf(keys, at + 1, hi))
    ensures KeysOk(keys[at := sep], lo, hi)
  {
    StrictTotalOrder();
    hide Less;
    hide LegalKey;
  }

  /** Cutting a branch: the key at the cut separates the halves and belongs to neither. */
  lemma BranchCut(keys: seq<Bytes>, kids: seq<Tree>, h: nat, lo: Bytes, hi: Option<Bytes>, cut: nat)
    requires OrderedKids(keys, kids, h, lo, hi) && cut < |keys|
    ensures OrderedKids(keys[..cut], kids[..cut + 1], h, lo, Some(keys[cut]))
    ensures OrderedKids(keys[cut + 1..], kids[cut + 1..], h, keys[cut], hi)
    ensures Separates(keys[cut], lo, hi)
  {
    assert KeysOk(keys[..cut], lo, Some(keys[cut])) && KeysOk(keys[cut + 1..], keys[cut], hi) by { hide Less; hide LegalKey; }
    assert Separates(keys[cut], lo, hi);
    hide KeysOk;
    hide Ordered;
    var k1, c1, k2, c2 := keys[..cut], kids[..cut + 1], keys[cut + 1..], kids[cut + 1..];
    forall i: nat | i < |c2| ensures Ordered(c2[i], h, LowerOf(k2, i, keys[cut]), UpperOf(k2, i, hi)) {
      assert Ordered(kids[cut + 1 + i], h, LowerOf(keys, cut + 1 + i, lo), UpperOf(keys, cut + 1 + i, hi));
    }
    forall i: nat | i < |c1| ensures Ordered(c1[i], h, LowerOf(k1, i, lo), UpperOf(k1, i, Some(keys[cut]))) {
      assert Ordered(kids[i], h, LowerOf(keys, i, lo), UpperOf(keys, i, hi));
    }
  }

  /** Pouring two neighbouring branches together puts the separator between them back. */
  lemma BranchJoin(k1: seq<Bytes>, c1: seq<Tree>, k2: seq<Bytes>, c2: seq<Tree>, h: nat, lo: Bytes, sep: Bytes, hi: Option<Bytes>)
    requires OrderedKids(k1, c1, h, lo, Some(sep)) && OrderedKids(k2, c2, h, sep, hi) && Separates(sep, lo, hi)
    ensures OrderedKids(k1 + [sep] + k2, c1 + c2, h, lo, hi)
  {
    var keys, kids := k1 + [sep] + k2, c1 + c2;
    assert KeysOk(keys, lo, hi) by { KeysJoin(k1, k2, lo, sep, hi); }
    hide KeysOk;
    hide Ordered;
    forall i: nat | i < |kids| ensures Ordered(kids[i], h, LowerOf(keys, i, lo), UpperOf(keys, i, hi)) {
      if i < |c1| {
        assert Ordered(c1[i], h, LowerOf(k1, i, lo), UpperOf(k1, i, Some(sep)));
      } else {
        assert Ordered(c2[i - |c1|], h, LowerOf(k2, i - |c1|, sep), UpperOf(k2, i - |c1|, hi));
      }
    }
  }

  lemma KeysJoin(k1: seq<Bytes>, k2: seq<Bytes>, lo: Bytes, sep: Bytes, hi: Option<Bytes>)
    requires KeysOk(k1, lo, Some(sep)) && KeysOk(k2, sep, hi) && Separates(sep, lo, hi)
    ensures KeysOk(k1 + [sep] + k2, lo, hi)
  {
    StrictTotalOrder();
    hide Less;
    hide LegalKey;
  }
}
