/**
 When a separator is the smallest key on its right: what keeps it so, and the one
 way a removal leaves one that is not.
 */
module Separators {
  import opened Bytes
  import opened Options
  import opened PageFile
  import opened Nodes
  import opened Sorted
  import opened Trees
  import opened Reads
  import opened Prunings

  /** The key is one of the tree's, and none of them is smaller. */
  ghost predicate Smallest(k: Bytes, t: Tree) {
    (exists e :: e in Entries(t) && e.key == k) && forall e | e in Entries(t) :: AtMost(k, e.key)
  }

  /** Every separator is the smallest key of the subtree on its right. */
  ghost predicate Tight(t: Tree) {
    match t
    case LeafAt(_, _) => true
    case BranchAt(_, keys, kids) =>
      && |kids| == |keys| + 1 && (forall i: nat | i < |keys| :: Smallest(keys[i], kids[i + 1]))
      && forall i: nat | i < |kids| :: Tight(kids[i])
  }

  /** The key separates two children somewhere in the tree. */
  ghost predicate Separator(k: Bytes, t: Tree) {
    match t
    case LeafAt(_, _) => false
    case BranchAt(_, keys, kids) => k in keys || exists i: nat :: i < |kids| && Separator(k, kids[i])
  }

  /** The leaf the key leaves is not the first child of its branch, and is left less than a quarter full. */
  ghost predicate Refreshes(t: Tree, k: Bytes) {
    match t
    case LeafAt(_, _) => false
    case BranchAt(_, keys, kids) =>
      var at := Way(keys, k);
      && at < |kids|
      && match kids[at]
         case LeafAt(id, items) => at > 0 && Thin(LeafAt(id, Without(items, k)))
         case BranchAt(_, _, _) => Refreshes(kids[at], k)
  }

  // ---- the first key of a tree ----

  /** What the leftmost leaf begins with. */
  function Head(t: Tree): Option<Bytes> {
    match t
    case LeafAt(_, items) => if items == [] then None else Some(items[0].key)
    case BranchAt(_, _, kids) => if kids == [] then None else Head(kids[0])
  }

  /** The children a branch may have: each separator is what the child on its right begins with. */
  ghost predicate SnugKids(keys: seq<Bytes>, kids: seq<Tree>)
    decreases kids, 0
  {
    && |kids| == |keys| + 1 && (forall i: nat | i < |keys| :: Head(kids[i + 1]) == Some(keys[i]))
    && forall i: nat | i < |kids| :: Snug(kids[i])
  }

  ghost predicate Snug(t: Tree)
    decreases t, 1
  {
    t.BranchAt? ==> SnugKids(t.keys, t.kids)
  }

  lemma {:induction false} HeadIsFirst(t: Tree)
    requires Head(t).Some?
    ensures Entries(t) != [] && Entries(t)[0].key == Head(t).value
  {
    if t.BranchAt? {
      HeadIsFirst(t.kids[0]);
      KidsEntriesAt(t.kids, 0);
      hide Entries;
      hide KidsEntries;
      assert t.kids[..0] == [] && KidsEntries([]) == [] by { NoKids(); }
      assert Entries(t) == KidsEntries(t.kids) by { BranchEntries(t); }
    }
  }

  lemma NoKids()
    ensures KidsEntries([]) == []
  {
  }

  lemma BranchEntries(t: Tree)
    requires t.BranchAt?
    ensures Entries(t) == KidsEntries(t.kids)
  {
  }

  lemma SmallestIsHead(k: Bytes, t: Tree)
    requires InOrder(Entries(t)) && Head(t).Some?
    ensures Smallest(k, t) <==> Head(t) == Some(k)
  {
    HeadIsFirst(t);
    var es := Entries(t);
    assert es[0] in es;
    forall e | e in es ensures AtMost(es[0].key, e.key) {
      var i :| 0 <= i < |es| && es[i] == e;
      if i == 0 { Irreflexive(e.key); } else { Asymmetric(es[0].key, e.key); }
    }
    if Smallest(k, t) { Trichotomy(k, es[0].key); }
  }

  lemma MiddleInOrder(a: seq<Pair>, b: seq<Pair>, c: seq<Pair>)
    requires InOrder(a + b + c)
    ensures InOrder(b)
  {
    hide Less;
    var es := a + b + c;
    forall i, j | 0 <= i < j < |b| ensures Less(b[i].key, b[j].key) {
      assert es[|a| + i] == b[i] && es[|a| + j] == b[j];
    }
  }

  /** A child's entries are in order when the branch's are. */
  lemma KidInOrder(kids: seq<Tree>, i: nat)
    requires i < |kids| && InOrder(KidsEntries(kids))
    ensures InOrder(Entries(kids[i]))
  {
    hide Entries;
    hide KidsEntries;
    hide InOrder;
    KidsEntriesAt(kids, i);
    MiddleInOrder(KidsEntries(kids[..i]), Entries(kids[i]), KidsEntries(kids[i + 1..]));
  }

  lemma {:induction false} SnugIsTight(t: Tree)
    requires Snug(t) && InOrder(Entries(t))
    ensures Tight(t)
  {
    if t.BranchAt? {
      BranchEntries(t);
      hide Entries;
      hide KidsEntries;
      hide Smallest;
      hide InOrder;
      forall i: nat | i < |t.kids| ensures Tight(t.kids[i]) {
        KidInOrder(t.kids, i);
        SnugIsTight(t.kids[i]);
      }
      forall i: nat | i < |t.keys| ensures Smallest(t.keys[i], t.kids[i + 1]) {
        KidInOrder(t.kids, i + 1);
        SmallestIsHead(t.keys[i], t.kids[i + 1]);
      }
    }
  }

  /** Every leaf but a lone root has an entry, so every subtree has a first key. */
  lemma {:induction false} FullHasHead(t: Tree, h: nat, lo: Bytes, hi: Option<Bytes>)
    requires Ordered(t, h, lo, hi) && Full(t)
    ensures Head(t).Some? && Inside(Head(t).value, lo, hi)
    decreases t
  {
    hide Less;
    if t.BranchAt? {
      assert t.kids[0] in t.kids;
      hide LeafBytes;
      hide BranchBytes;
      FullHasHead(t.kids[0], h - 1, LowerOf(t.keys, 0, lo), UpperOf(t.keys, 0, hi));
      InsideWider(Head(t.kids[0]).value, t.keys, 0, lo, hi);
    }
  }

  lemma {:induction false} TightIsSnug(t: Tree, h: nat, lo: Bytes, hi: Option<Bytes>)
    requires Ordered(t, h, lo, hi) && Full(t) && Tight(t) && InOrder(Entries(t))
    ensures Snug(t)
    decreases t
  {
    if t.BranchAt? {
      BranchEntries(t);
      hide Entries;
      hide KidsEntries;
      hide Smallest;
      hide InOrder;
      hide Less;
      hide KeysOk;
      hide BranchBytes;
      forall i: nat | i < |t.kids| ensures Head(t.kids[i]).Some? && Snug(t.kids[i]) && InOrder(Entries(t.kids[i])) {
        assert t.kids[i] in t.kids;
        KidInOrder(t.kids, i);
        FullHasHead(t.kids[i], h - 1, LowerOf(t.keys, i, lo), UpperOf(t.keys, i, hi));
        TightIsSnug(t.kids[i], h - 1, LowerOf(t.keys, i, lo), UpperOf(t.keys, i, hi));
      }
      forall i: nat | i < |t.keys| ensures Head(t.kids[i + 1]) == Some(t.keys[i]) {
        SmallestIsHead(t.keys[i], t.kids[i + 1]);
      }
    }
  }

  // ---- pouring ----

  /** The two children beside a key are of one kind. */
  ghost predicate Alike(a: Tree, b: Tree) { a.LeafAt? <==> b.LeafAt? }

  /** Everything snug but the separator of the pair, and that one too when the pair is branches. */
  ghost predicate SnugBut(keys: seq<Bytes>, kids: seq<Tree>, left: nat) {
    && left < |keys| && |kids| == |keys| + 1 && Alike(kids[left], kids[left + 1])
    && (forall i: nat | i < |keys| && (i != left || kids[left].BranchAt?) :: Head(kids[i + 1]) == Some(keys[i]))
    && forall i: nat | i < |kids| :: Snug(kids[i])
  }

  /** What comes out of the mix is snug, and begins as the pair did. */
  ghost predicate MixSnug(m: Mix, first: Option<Bytes>) {
    match m
    case One(t) => Snug(t) && (first.Some? ==> Head(t) == first)
    case Two(a, sep, b) => Snug(a) && Snug(b) && Head(b) == Some(sep) && (first.Some? ==> Head(a) == first)
  }

  lemma MixLeavesSnug(a: seq<Item>, b: seq<Item>)
    ensures MixSnug(MixLeaves(a + b), Head(LeafAt(0, a)))
  {
    hide LeafCutOf;
    hide LeafBytes;
  }

  lemma MixBranchesSnug(k1: seq<Bytes>, c1: seq<Tree>, sep: Bytes, k2: seq<Bytes>, c2: seq<Tree>)
    requires SnugKids(k1, c1) && SnugKids(k2, c2) && Head(c2[0]) == Some(sep)
    ensures MixSnug(MixBranches(k1 + [sep] + k2, c1 + c2), Head(c1[0]))
  {
    hide BranchCutOf;
    hide BranchBytes;
    hide Snug;
    var keys, kids := k1 + [sep] + k2, c1 + c2;
    forall i: nat | i < |kids| ensures Snug(kids[i]) && (i > 0 ==> Head(kids[i]) == Some(keys[i - 1])) {
      if i >= |c1| { assert kids[i] == c2[i - |c1|]; }
    }
    assert SnugKids(keys, kids);
    SnugCut(keys, kids);
  }

  lemma SnugCut(keys: seq<Bytes>, kids: seq<Tree>)
    requires SnugKids(keys, kids)
    ensures MixSnug(MixBranches(keys, kids), Head(kids[0]))
  {
    hide BranchCutOf;
    hide BranchBytes;
    var m := MixBranches(keys, kids);
    if m.Two? {
      var cut := BranchCutOf(keys);
      assert SnugKids(keys[..cut], kids[..cut + 1]);
      assert SnugKids(keys[cut + 1..], kids[cut + 1..]);
    }
  }

  /** A pour keeps a branch snug, whatever the separator of two leaves had become. */
  lemma PourSnug(keys: seq<Bytes>, kids: seq<Tree>, left: nat)
    requires SnugBut(keys, kids, left)
    ensures
      var now := Pour(keys, kids, left);
      SnugKids(now.keys, now.kids) && (Head(kids[0]).Some? ==> Head(now.kids[0]) == Head(kids[0]))
  {
    var a, b := kids[left], kids[left + 1];
    assert Snug(a) && Snug(b);
    if a.LeafAt? {
      MixLeavesSnug(a.items, b.items);
    } else {
      MixBranchesSnug(a.keys, a.kids, keys[left], b.keys, b.kids);
    }
    var m := Mixed(a, keys[left], b);
    assert MixSnug(m, Head(a));
    PourMix(keys, kids, left, m);
  }

  lemma PourMix(keys: seq<Bytes>, kids: seq<Tree>, left: nat, m: Mix)
    requires SnugBut(keys, kids, left) && m == Mixed(kids[left], keys[left], kids[left + 1]) && MixSnug(m, Head(kids[left]))
    ensures
      var now := Pour(keys, kids, left);
      SnugKids(now.keys, now.kids) && (Head(kids[0]).Some? ==> Head(now.kids[0]) == Head(kids[0]))
  {
    hide Mixed;
    hide Head;
    var now := Pour(keys, kids, left);
    hide Snug;
    assert left > 0 ==> Head(kids[left - 1 + 1]) == Some(keys[left - 1]);
    forall i: nat | i < |now.kids| ensures Snug(now.kids[i]) && (i > 0 ==> Head(now.kids[i]) == Some(now.keys[i - 1])) {
      if i < left {
        assert now.kids[i] == kids[i] && (i > 0 ==> now.keys[i - 1] == keys[i - 1]);
        assert i > 0 ==> Head(kids[i - 1 + 1]) == Some(keys[i - 1]);
      } else if m.One? && i > left {
        assert now.kids[i] == kids[i + 1] && now.keys[i - 1] == keys[i];
      } else if m.Two? && i > left + 1 {
        assert now.kids[i] == kids[i] && now.keys[i - 1] == keys[i - 1];
        assert Head(kids[i - 1 + 1]) == Some(keys[i - 1]);
      }
    }
  }

  lemma InKid(k: Bytes, id: PageId, keys: seq<Bytes>, kids: seq<Tree>, i: nat)
    requires i < |kids| && Separator(k, kids[i])
    ensures Separator(k, BranchAt(id, keys, kids))
  {
  }

  lemma InKeys(k: Bytes, id: PageId, keys: seq<Bytes>, kids: seq<Tree>)
    requires k in keys
    ensures Separator(k, BranchAt(id, keys, kids))
  {
  }

  ghost predicate Carries(k: Bytes, m: Mix) {
    match m
    case One(t) => Separator(k, t)
    case Two(a, sep, b) => Separator(k, a) || k == sep || Separator(k, b)
  }

  /** A branch cut in two, or left whole, keeps every separator there was. */
  lemma CutCarries(k: Bytes, keys: seq<Bytes>, kids: seq<Tree>)
    requires |kids| == |keys| + 1 && (k in keys || exists i: nat :: i < |kids| && Separator(k, kids[i]))
    ensures Carries(k, MixBranches(keys, kids))
  {
    hide BranchBytes;
    hide BranchCutOf;
    hide Separator;
    var m := MixBranches(keys, kids);
    var cut := BranchCutOf(keys);
    if k in keys {
      var i: nat :| i < |keys| && keys[i] == k;
      if m.One? {
        InKeys(k, 0, keys, kids);
      } else if i < cut {
        assert keys[..cut][i] == k;
        InKeys(k, 0, keys[..cut], kids[..cut + 1]);
      } else if i > cut {
        assert keys[cut + 1..][i - cut - 1] == k;
        InKeys(k, 0, keys[cut + 1..], kids[cut + 1..]);
      }
    } else {
      var i: nat :| i < |kids| && Separator(k, kids[i]);
      if m.One? {
        InKid(k, 0, keys, kids, i);
      } else if i <= cut {
        InKid(k, 0, keys[..cut], kids[..cut + 1], i);
      } else {
        InKid(k, 0, keys[cut + 1..], kids[cut + 1..], i - cut - 1);
      }
    }
  }

  /** Pouring two branches together carries every separator along, the one between them too. */
  lemma PourCarries(k: Bytes, keys: seq<Bytes>, kids: seq<Tree>, left: nat)
    requires left < |keys| && |kids| == |keys| + 1 && kids[left].BranchAt? && kids[left + 1].BranchAt?
    requires |kids[left].kids| == |kids[left].keys| + 1 && |kids[left + 1].kids| == |kids[left + 1].keys| + 1
    requires Separator(k, BranchAt(0, keys, kids))
    ensures var now := Pour(keys, kids, left); Separator(k, BranchAt(0, now.keys, now.kids))
  {
    var a, b := kids[left], kids[left + 1];
    var k1, k2 := a.keys + [keys[left]] + b.keys, a.kids + b.kids;
    var now := Pour(keys, kids, left);
    var m := Mixed(a, keys[left], b);
    assert m == MixBranches(k1, k2);
    if k == keys[left] || Separator(k, a) || Separator(k, b) {
      PairCarries(k, a, keys[left], b);
      hide Mixed;
      hide MixBranches;
      hide Separator;
      match m
      case One(t) =>
        InKid(k, 0, now.keys, now.kids, left);
      case Two(x, sep, y) =>
        if k == sep {
          assert now.keys[left] == k;
          InKeys(k, 0, now.keys, now.kids);
        } else if Separator(k, x) {
          InKid(k, 0, now.keys, now.kids, left);
        } else {
          InKid(k, 0, now.keys, now.kids, left + 1);
        }
    } else {
      hide Mixed;
      hide MixBranches;
      OthersCarry(k, keys, kids, left, m);
    }
  }

  lemma PairCarries(k: Bytes, a: Tree, sep: Bytes, b: Tree)
    requires a.BranchAt? && b.BranchAt? && |a.kids| == |a.keys| + 1 && |b.kids| == |b.keys| + 1
    requires k == sep || Separator(k, a) || Separator(k, b)
    ensures Carries(k, MixBranches(a.keys + [sep] + b.keys, a.kids + b.kids))
  {
    var keys, kids := a.keys + [sep] + b.keys, a.kids + b.kids;
    if k == sep {
      assert keys[|a.keys|] == k;
    } else if Separator(k, a) && k !in a.keys {
      var i: nat :| i < |a.kids| && Separator(k, a.kids[i]);
      assert Separator(k, kids[i]);
    } else if !Separator(k, a) && k !in b.keys {
      var i: nat :| i < |b.kids| && Separator(k, b.kids[i]);
      assert Separator(k, kids[|a.kids| + i]);
    }
    hide Separator;
    CutCarries(k, keys, kids);
  }

  /** What is not about the pair stays where it is. */
  lemma OthersCarry(k: Bytes, keys: seq<Bytes>, kids: seq<Tree>, left: nat, m: Mix)
    requires left < |keys| && |kids| == |keys| + 1 && m == Mixed(kids[left], keys[left], kids[left + 1])
    requires Separator(k, BranchAt(0, keys, kids))
    requires k != keys[left] && !Separator(k, kids[left]) && !Separator(k, kids[left + 1])
    ensures var now := Pour(keys, kids, left); Separator(k, BranchAt(0, now.keys, now.kids))
  {
    hide Mixed;
    var now := Pour(keys, kids, left);
    if k in keys {
      var i: nat :| i < |keys| && keys[i] == k;
      assert now.keys[if m.One? && i > left then i - 1 else i] == k;
      hide Separator;
      InKeys(k, 0, now.keys, now.kids);
    } else {
      var i: nat :| i < |kids| && Separator(k, kids[i]);
      hide Separator;
      var j: nat := if m.One? && i > left then i - 1 else i;
      assert now.kids[j] == kids[i];
      InKid(k, 0, now.keys, now.kids, j);
    }
  }

  /** Pouring neither adds an entry nor loses one. */
  lemma PourEntries(keys: seq<Bytes>, kids: seq<Tree>, left: nat)
    requires left < |keys| && |kids| == |keys| + 1 && Alike(kids[left], kids[left + 1])
    ensures KidsEntries(Pour(keys, kids, left).kids) == KidsEntries(kids)
  {
    hide Mixed;
    hide Entries;
    hide KidsEntries;
    MixEntries(kids[left], keys[left], kids[left + 1]);
    PairEntries(kids, left, NodesOf(Mixed(kids[left], keys[left], kids[left + 1])));
  }

  lemma TwoKids(a: Tree, b: Tree)
    ensures KidsEntries([a, b]) == Entries(a) + Entries(b)
  {
    hide Entries;
    KidsEntriesOne(a);
    KidsEntriesPush([a], b);
    assert [a] + [b] == [a, b];
  }

  lemma MixEntries(a: Tree, sep: Bytes, b: Tree)
    requires Alike(a, b)
    ensures KidsEntries(NodesOf(Mixed(a, sep, b))) == Entries(a) + Entries(b)
  {
    if a.LeafAt? {
      StoredConcat(a.items, b.items);
      LeavesEntries(a.items + b.items);
    } else {
      KidsEntriesConcat(a.kids, b.kids);
      BranchesEntries(a.keys + [sep] + b.keys, a.kids + b.kids);
    }
    hide MixLeaves;
    hide MixBranches;
    hide KidsEntries;
  }

  lemma LeavesEntries(items: seq<Item>)
    ensures KidsEntries(NodesOf(MixLeaves(items))) == PairsOf(items)
  {
    hide KidsEntries;
    hide LeafBytes;
    hide LeafCutOf;
    match MixLeaves(items)
    case One(t) => KidsEntriesOne(t);
    case Two(x, _, y) =>
      TwoKids(x, y);
      StoredConcat(x.items, y.items);
      assert x.items + y.items == items;
  }

  lemma BranchesEntries(keys: seq<Bytes>, kids: seq<Tree>)
    ensures KidsEntries(NodesOf(MixBranches(keys, kids))) == KidsEntries(kids)
  {
    hide KidsEntries;
    hide BranchBytes;
    hide BranchCutOf;
    match MixBranches(keys, kids)
    case One(t) => KidsEntriesOne(t);
    case Two(x, _, y) =>
      TwoKids(x, y);
      KidsEntriesConcat(x.kids, y.kids);
      assert x.kids + y.kids == kids;
  }

  // ---- a whole removal ----

  lemma RouteOf(keys: seq<Bytes>, k: Bytes)
    requires SortedKeys(keys)
    ensures Routes(keys, k, Way(keys, k))
  {
    var at := 0;
    hide Less;
    while at < |keys| && !Less(k, keys[at])
      invariant 0 <= at <= |keys| && forall i | 0 <= i < at :: AtMost(keys[i], k)
    {
      at := at + 1;
    }
    StrictTotalOrder();
    assert Routes(keys, k, at);
    WayIs(keys, k, at);
  }

  lemma PlaceOf(items: seq<Item>, lo: Bytes, hi: Option<Bytes>, k: Bytes) returns (at: nat, found: bool)
    requires ItemsOk(items, lo, hi)
    ensures Finds(items, k, at, found)
  {
    at := 0;
    hide ItemOk;
    while at < |items| && Less(items[at].key, k)
      invariant 0 <= at <= |items| && forall i | 0 <= i < at :: Less(items[i].key, k)
    {
      at := at + 1;
    }
    found := at < |items| && items[at].key == k;
    StrictTotalOrder();
    hide Less;
  }

  /** Separators lie strictly within the bounds of their tree. */
  lemma {:induction false} SeparatorInside(k: Bytes, t: Tree, h: nat, lo: Bytes, hi: Option<Bytes>)
    requires Ordered(t, h, lo, hi) && Separator(k, t)
    ensures Less(lo, k) && (hi.Some? ==> Less(k, hi.value))
    decreases t
  {
    hide Less;
    if k !in t.keys {
      var i: nat :| i < |t.kids| && Separator(k, t.kids[i]);
      SeparatorInside(k, t.kids[i], h - 1, LowerOf(t.keys, i, lo), UpperOf(t.keys, i, hi));
      StrictTotalOrder();
    }
  }

  /** The first key of a tree separates nothing in it, and leaves the first child of its branch. */
  lemma {:induction false} FirstIsNoSeparator(t: Tree, h: nat, lo: Bytes, hi: Option<Bytes>, k: Bytes)
    requires Ordered(t, h, lo, hi) && Full(t) && Head(t) == Some(k)
    ensures !Separator(k, t) && !Refreshes(t, k)
    decreases t
  {
    if t.BranchAt? {
      var keys, kids := t.keys, t.kids;
      assert kids[0] in kids;
      FullHasHead(kids[0], h - 1, lo, UpperOf(keys, 0, hi));
      hide LeafBytes;
      hide BranchBytes;
      hide Full;
      hide Thin;
      hide Head;
      FirstRoute(keys, kids, h, lo, hi, k);
      if kids[0].BranchAt? {
        assert Full(kids[0]);
        assert Head(kids[0]) == Some(k) by { HeadOfBranch(t); }
        FirstIsNoSeparator(kids[0], h - 1, lo, UpperOf(keys, 0, hi), k);
      }
      hide Less;
      forall i: nat | i < |kids| && i > 0 ensures !Separator(k, kids[i]) {
        if Separator(k, kids[i]) {
          SeparatorInside(k, kids[i], h - 1, LowerOf(keys, i, lo), UpperOf(keys, i, hi));
          Asymmetric(k, keys[i - 1]);
        }
      }
      forall i | 0 <= i < |keys| ensures keys[i] != k { Irreflexive(k); }
    }
  }

  lemma HeadOfBranch(t: Tree)
    requires t.BranchAt? && t.kids != []
    ensures Head(t) == Head(t.kids[0])
  {
  }

  lemma FirstRoute(keys: seq<Bytes>, kids: seq<Tree>, h: nat, lo: Bytes, hi: Option<Bytes>, k: Bytes)
    requires Ordered(BranchAt(1, keys, kids), h, lo, hi) && keys != [] && Less(k, keys[0])
    ensures Way(keys, k) == 0 && forall i | 0 <= i < |keys| :: Less(k, keys[i])
  {
    forall i | 0 <= i < |keys| ensures Less(k, keys[i]) {
      if i > 0 { Transitive(k, keys[0], keys[i]); }
    }
    hide Less;
    WayIs(keys, k, 0);
  }

  /** Which separators of a branch are the key: the one left of where it is routed, or one further down that way. */
  lemma WhereSeparates(t: Tree, h: nat, lo: Bytes, hi: Option<Bytes>, k: Bytes, at: nat)
    requires Ordered(t, h, lo, hi) && t.BranchAt? && Routes(t.keys, k, at)
    ensures Separator(k, t) <==> (at > 0 && t.keys[at - 1] == k) || Separator(k, t.kids[at])
  {
    var keys, kids := t.keys, t.kids;
    hide Less;
    forall i: nat | i < |kids| && i != at ensures !Separator(k, kids[i]) {
      if Separator(k, kids[i]) {
        SeparatorInside(k, kids[i], h - 1, LowerOf(keys, i, lo), UpperOf(keys, i, hi));
        StrictTotalOrder();
      }
    }
    Irreflexive(k);
    assert forall i | 0 <= i < at - 1 :: Less(keys[i], keys[at - 1]);
  }

  /** Mending keeps a branch snug. */
  lemma MendedSnug(keys: seq<Bytes>, kids: seq<Tree>, at: nat)
    requires at < |kids| && keys != [] && SnugKids(keys, kids) && Alike(kids[LeftOf(at)], kids[LeftOf(at) + 1])
    ensures
      var now := Mended(keys, kids, at);
      SnugKids(now.keys, now.kids) && (Head(kids[0]).Some? ==> Head(now.kids[0]) == Head(kids[0]))
  {
    hide Thin;
    hide Head;
    hide Snug;
    PourSnug(keys, kids, LeftOf(at));
    hide Pour;
  }

  lemma MendedCarries(k: Bytes, keys: seq<Bytes>, kids: seq<Tree>, at: nat)
    requires at < |kids| && |kids| == |keys| + 1 && keys != []
    requires Separator(k, BranchAt(0, keys, kids))
    requires Thin(kids[at]) ==> Branching(kids[LeftOf(at)]) && Branching(kids[LeftOf(at) + 1])
    ensures var now := Mended(keys, kids, at); Separator(k, BranchAt(0, now.keys, now.kids))
  {
    hide Separator;
    hide Thin;
    if Thin(kids[at]) { PourCarries(k, keys, kids, LeftOf(at)); }
    hide Pour;
  }

  /** A branch with one more child than keys. */
  ghost predicate Branching(t: Tree) { t.BranchAt? && |t.kids| == |t.keys| + 1 }

  /** What a removal does to a snug tree. */
  ghost predicate PrunesTo(t: Tree, k: Bytes, r: Tree) {
    && (t.LeafAt? <==> r.LeafAt?) && (t.BranchAt? ==> Branching(r))
    && (Head(t) != Some(k) ==> Head(r) == Head(t))
    && (if Separator(k, t) && !Refreshes(t, k) then Separator(k, r) else Snug(r))
  }

  /** The key is there. */
  ghost predicate Finding(t: Tree, k: Bytes) { Head(t) == Some(k) || Separator(k, t) }

  lemma LeafPrunes(t: Tree, h: nat, lo: Bytes, hi: Option<Bytes>, k: Bytes)
    requires t.LeafAt? && Ordered(t, h, lo, hi)
    ensures var p := Pruned(t, k);
      (p.removed ==> PrunesTo(t, k, p.tree) && p.tree == LeafAt(t.id, Without(t.items, k))) && (Finding(t, k) ==> p.removed)
  {
    var at, found := PlaceOf(t.items, lo, hi, k);
    WithoutIs(t.items, k, at, found);
    if Head(t) == Some(k) {
      Irreflexive(k);
      assert at == 0 by { hide Less; }
    }
    hide Less;
    hide ItemsOk;
    hide Found;
    hide Without;
  }

  /** The kids of a branch after the removal below, and the pair a rebalance would take. */
  lemma KidsAlike(t: Tree, h: nat, lo: Bytes, hi: Option<Bytes>, at: nat, b: Tree)
    requires Ordered(t, h, lo, hi) && t.BranchAt? && t.keys != [] && at < |t.kids|
    requires (t.kids[at].LeafAt? <==> b.LeafAt?) && (b.BranchAt? ==> Branching(b))
    ensures
      var kids, left := t.kids[at := b], LeftOf(at);
      Alike(kids[left], kids[left + 1]) && (b.BranchAt? ==> Branching(kids[left]) && Branching(kids[left + 1]))
  {
    hide KeysOk;
    hide ItemsOk;
    hide LowerOf;
    hide UpperOf;
    var left := LeftOf(at);
    assert Ordered(t.kids[left], h - 1, LowerOf(t.keys, left, lo), UpperOf(t.keys, left, hi));
    assert Ordered(t.kids[left + 1], h - 1, LowerOf(t.keys, left + 1, lo), UpperOf(t.keys, left + 1, hi));
  }

  /** A tree goes on beginning as it did, whichever pair is poured. */
  lemma PourHead(keys: seq<Bytes>, kids: seq<Tree>, left: nat)
    requires left < |keys| && |kids| == |keys| + 1 && Alike(kids[left], kids[left + 1]) && Head(kids[0]).Some?
    ensures var now := Pour(keys, kids, left); now.kids != [] && Head(now.kids[0]) == Head(kids[0])
  {
    hide LeafBytes;
    hide BranchBytes;
    hide LeafCutOf;
    hide BranchCutOf;
    var m := Mixed(kids[left], keys[left], kids[left + 1]);
    if left == 0 {
      assert Head(NodesOf(m)[0]) == Head(kids[0]);
    }
  }

  lemma MendedHead(keys: seq<Bytes>, kids: seq<Tree>, at: nat)
    requires at < |kids| && |kids| == |keys| + 1 && keys != [] && Alike(kids[LeftOf(at)], kids[LeftOf(at) + 1])
    requires Head(kids[0]).Some?
    ensures var now := Mended(keys, kids, at); now.kids != [] && Head(now.kids[0]) == Head(kids[0])
  {
    hide Thin;
    hide Head;
    PourHead(keys, kids, LeftOf(at));
    hide Pour;
  }

  lemma MendedShape(keys: seq<Bytes>, kids: seq<Tree>, at: nat)
    requires at < |kids| && |kids| == |keys| + 1 && keys != []
    ensures var now := Mended(keys, kids, at); |now.kids| == |now.keys| + 1
  {
    hide Thin;
    hide Mixed;
  }

  /** The branch above a removal that has been done. */
  lemma BranchPrunes(t: Tree, h: nat, lo: Bytes, hi: Option<Bytes>, k: Bytes, at: nat, b: Tree)
    requires Ordered(t, h, lo, hi) && Full(t) && Snug(t) && t.BranchAt? && Routes(t.keys, k, at) && Way(t.keys, k) == at
    requires PrunesTo(t.kids[at], k, b)
    requires t.kids[at].LeafAt? ==> b == LeafAt(t.kids[at].id, Without(t.kids[at].items, k))
    ensures var now := Mended(t.keys, t.kids[at := b], at); PrunesTo(t, k, BranchAt(t.id, now.keys, now.kids))
  {
    var keys, kids, kids1 := t.keys, t.kids, t.kids[at := b];
    var now := Mended(keys, kids1, at);
    var r := BranchAt(t.id, now.keys, now.kids);
    WhereSeparates(t, h, lo, hi, k, at);
    KidsAlike(t, h, lo, hi, at, b);
    MendedShape(keys, kids1, at);
    assert Head(kids[0]).Some? by {
      assert kids[0] in kids;
      FullHasHead(kids[0], h - 1, LowerOf(keys, 0, lo), UpperOf(keys, 0, hi));
    }
    HeadOfBranch(t);
    if Head(t) != Some(k) {
      MendedHead(keys, kids1, at);
      HeadOfBranch(r);
    }
    assert SnugKids(keys, kids);
    assert kids[at].BranchAt? ==> Refreshes(t, k) == Refreshes(kids[at], k);
    assert kids[at].LeafAt? ==> Refreshes(t, k) == (at > 0 && Thin(b));
    assert kids[at].LeafAt? ==> !Separator(k, kids[at]);
    if at > 0 && keys[at - 1] == k {
      assert Head(kids[at - 1 + 1]) == Some(keys[at - 1]);
      StalePrunes(t, h, lo, hi, k, at, b);
    } else if Separator(k, kids[at]) && !Refreshes(kids[at], k) {
      InKid(k, 0, keys, kids1, at);
      MendedCarries(k, keys, kids1, at);
      SameSeparators(k, now.keys, now.kids, t.id);
    } else {
      assert Snug(b);
      StillSnug(keys, kids, k, at, b);
      MendedSnug(keys, kids1, at);
    }
  }

  lemma SameSeparators(k: Bytes, keys: seq<Bytes>, kids: seq<Tree>, id: PageId)
    ensures Separator(k, BranchAt(0, keys, kids)) == Separator(k, BranchAt(id, keys, kids))
  {
  }

  lemma StillSnug(keys: seq<Bytes>, kids: seq<Tree>, k: Bytes, at: nat, b: Tree)
    requires SnugKids(keys, kids) && at < |kids| && Snug(b) && (Head(kids[at]) != Some(k) ==> Head(b) == Head(kids[at]))
    requires at > 0 ==> keys[at - 1] != k
    ensures SnugKids(keys, kids[at := b])
  {
    hide Head;
    hide Snug;
    if at > 0 { assert Head(kids[at - 1 + 1]) == Some(keys[at - 1]); }
  }

  /** The key is the separator left of where it is routed: only two leaves poured together refresh it. */
  lemma StalePrunes(t: Tree, h: nat, lo: Bytes, hi: Option<Bytes>, k: Bytes, at: nat, b: Tree)
    requires Ordered(t, h, lo, hi) && Full(t) && Snug(t) && t.BranchAt? && 0 < at < |t.kids| && t.keys[at - 1] == k
    requires PrunesTo(t.kids[at], k, b) && Head(t.kids[at]) == Some(k) && Way(t.keys, k) == at
    requires t.kids[at].LeafAt? ==> b == LeafAt(t.kids[at].id, Without(t.kids[at].items, k))
    ensures
      var now := Mended(t.keys, t.kids[at := b], at);
      if Refreshes(t, k) then SnugKids(now.keys, now.kids) else Separator(k, BranchAt(t.id, now.keys, now.kids))
  {
    var keys, kids, kids1 := t.keys, t.kids, t.kids[at := b];
    KidsAlike(t, h, lo, hi, at, b);
    assert kids[at] in kids;
    FirstIsNoSeparator(kids[at], h - 1, LowerOf(keys, at, lo), UpperOf(keys, at, hi), k);
    assert kids[at].BranchAt? ==> Refreshes(t, k) == Refreshes(kids[at], k);
    assert kids[at].LeafAt? ==> Refreshes(t, k) == Thin(b) && Snug(b);
    assert SnugKids(keys, kids);
    hide Ordered;
    hide Full;
    hide Thin;
    hide Head;
    hide Snug;
    hide Refreshes;
    hide Separator;
    hide Mended;
    if Refreshes(t, k) {
      Refreshed(keys, kids, at, b);
    } else {
      StaysStale(k, t.id, keys, kids1, at);
    }
  }

  lemma Refreshed(keys: seq<Bytes>, kids: seq<Tree>, at: nat, b: Tree)
    requires SnugKids(keys, kids) && 0 < at < |kids| && kids[at].LeafAt? && b.LeafAt? && Snug(b) && Thin(b)
    requires Alike(kids[at - 1], b)
    ensures var now := Mended(keys, kids[at := b], at); SnugKids(now.keys, now.kids)
  {
    hide Head;
    hide Snug;
    hide Thin;
    assert SnugBut(keys, kids[at := b], at - 1);
    PourSnug(keys, kids[at := b], at - 1);
    hide Pour;
  }

  lemma StaysStale(k: Bytes, id: PageId, keys: seq<Bytes>, kids: seq<Tree>, at: nat)
    requires 0 < at < |kids| == |keys| + 1 && keys[at - 1] == k
    requires Thin(kids[at]) ==> Branching(kids[LeftOf(at)]) && Branching(kids[LeftOf(at) + 1])
    ensures var now := Mended(keys, kids, at); Separator(k, BranchAt(id, now.keys, now.kids))
  {
    InKeys(k, 0, keys, kids);
    hide Separator;
    hide Thin;
    MendedCarries(k, keys, kids, at);
    hide Mended;
    var now := Mended(keys, kids, at);
    SameSeparators(k, now.keys, now.kids, id);
  }

  /** A key that is there is found where it is routed. */
  lemma FindingBelow(t: Tree, h: nat, lo: Bytes, hi: Option<Bytes>, k: Bytes, at: nat)
    requires Ordered(t, h, lo, hi) && Full(t) && Snug(t) && t.BranchAt? && Routes(t.keys, k, at) && Finding(t, k)
    ensures Finding(t.kids[at], k)
  {
    WhereSeparates(t, h, lo, hi, k, at);
    if Separator(k, t) {
      assert at > 0 ==> Head(t.kids[at - 1 + 1]) == Some(t.keys[at - 1]);
    } else {
      HeadOfBranch(t);
      assert t.kids[0] in t.kids;
      FullHasHead(t.kids[0], h - 1, LowerOf(t.keys, 0, lo), UpperOf(t.keys, 0, hi));
      assert at == 0;
    }
  }

  /** What a removal leaves of a snug tree, all the way down. */
  lemma {:induction false} PrunedSnug(t: Tree, h: nat, lo: Bytes, hi: Option<Bytes>, k: Bytes)
    requires Ordered(t, h, lo, hi) && Full(t) && Snug(t) && Inside(k, lo, hi) && !Pruned(t, k).bursts
    ensures var p := Pruned(t, k); (p.removed ==> PrunesTo(t, k, p.tree)) && (Finding(t, k) ==> p.removed)
    decreases t
  {
    if t.LeafAt? {
      LeafPrunes(t, h, lo, hi, k);
    } else {
      var keys, kids, at := t.keys, t.kids, Way(t.keys, k);
      KeysSorted(t, h, lo, hi);
      RouteOf(keys, k);
      RouteInside(keys, lo, hi, k, at);
      assert kids[at] in kids;
      PrunedSnug(kids[at], h - 1, LowerOf(keys, at, lo), UpperOf(keys, at, hi), k);
      if Finding(t, k) { FindingBelow(t, h, lo, hi, k, at); }
      var below := Pruned(kids[at], k);
      if below.removed {
        if kids[at].LeafAt? { LeafPrunes(kids[at], h - 1, LowerOf(keys, at, lo), UpperOf(keys, at, hi), k); }
        BranchPrunes(t, h, lo, hi, k, at, below.tree);
      }
    }
  }

  lemma KeysSorted(t: Tree, h: nat, lo: Bytes, hi: Option<Bytes>)
    requires Ordered(t, h, lo, hi) && t.BranchAt?
    ensures SortedKeys(t.keys)
  {
    hide Less;
  }

  // ---- the entries a removal leaves ----

  lemma {:induction false} OrderedEntries(t: Tree, h: nat, lo: Bytes, hi: Option<Bytes>)
    requires Ordered(t, h, lo, hi)
    ensures InOrder(Entries(t))
    decreases t
  {
    hide Less;
    if t.BranchAt? {
      OrderedKidsEntries(t.keys, t.kids, |t.kids|, h, lo, hi);
      assert t.kids[..|t.kids|] == t.kids;
    } else {
      hide ItemOk;
    }
  }

  lemma {:induction false} OrderedKidsEntries(keys: seq<Bytes>, kids: seq<Tree>, n: nat, h: nat, lo: Bytes, hi: Option<Bytes>)
    requires n <= |kids| && Ordered(BranchAt(1, keys, kids), h, lo, hi)
    ensures InOrder(KidsEntries(kids[..n]))
    decreases kids, n
  {
    hide Less;
    if n > 0 {
      var before, last := kids[..n - 1], kids[n - 1];
      OrderedKidsEntries(keys, kids, n - 1, h, lo, hi);
      OrderedEntries(last, h - 1, LowerOf(keys, n - 1, lo), UpperOf(keys, n - 1, hi));
      assert kids[..n] == before + [last];
      KidsEntriesPush(before, last);
      EntriesInside(last, h - 1, LowerOf(keys, n - 1, lo), UpperOf(keys, n - 1, hi));
      hide Entries;
      hide KidsEntries;
      hide Ordered;
      hide LowerOf;
      hide UpperOf;
      forall b | b in Entries(last) ensures forall a | a in KidsEntries(before) :: Less(a.key, b.key) {
        KidsApart(keys, kids, h, lo, hi, n - 1, b.key);
      }
      JoinInOrder(KidsEntries(before), Entries(last));
    }
  }

  lemma JoinInOrder(a: seq<Pair>, b: seq<Pair>)
    requires InOrder(a) && InOrder(b) && forall x, y | x in a && y in b :: Less(x.key, y.key)
    ensures InOrder(a + b)
  {
    hide Less;
    var es := a + b;
    forall i, j | 0 <= i < j < |es| ensures Less(es[i].key, es[j].key) {
      if i < |a| <= j { assert a[i] in a && b[j - |a|] in b; }
    }
  }

  lemma {:induction false} PickInOrder(es: seq<Pair>, side: Side, k: Bytes)
    requires InOrder(es)
    ensures InOrder(Pick(es, side, k)) && forall p | p in Pick(es, side, k) :: p in es && Keeps(side, p.key, k)
  {
    hide Less;
    hide Keeps;
    if es != [] {
      var before, last := es[..|es| - 1], es[|es| - 1];
      PickInOrder(before, side, k);
      forall p | p in before ensures Less(p.key, last.key) {
        var i :| 0 <= i < |before| && before[i] == p;
        assert es[i] == p;
      }
      JoinInOrder(Pick(before, side, k), [last]);
    }
  }

  lemma RemovedInOrder(es: seq<Pair>, k: Bytes)
    requires InOrder(es)
    ensures InOrder(Removed(es, k))
  {
    PickInOrder(es, Under, k);
    PickInOrder(es, Over, k);
    forall x, y | x in Below(es, k) && y in Above(es, k) ensures Less(x.key, y.key) { Transitive(x.key, k, y.key); }
    hide Less;
    hide Pick;
    JoinInOrder(Below(es, k), Above(es, k));
  }

  /** Mending neither adds an entry nor loses one. */
  lemma MendedEntries(keys: seq<Bytes>, kids: seq<Tree>, at: nat)
    requires at < |kids| && |kids| == |keys| + 1 && keys != [] && Alike(kids[LeftOf(at)], kids[LeftOf(at) + 1])
    ensures KidsEntries(Mended(keys, kids, at).kids) == KidsEntries(kids)
  {
    hide KidsEntries;
    hide Thin;
    PourEntries(keys, kids, LeftOf(at));
    hide Pour;
  }

  /** What a removal that was done leaves, without any pages. */
  lemma {:induction false} PrunedEntries(t: Tree, h: nat, lo: Bytes, hi: Option<Bytes>, k: Bytes)
    requires Ordered(t, h, lo, hi) && Full(t) && Inside(k, lo, hi) && !Pruned(t, k).bursts && Pruned(t, k).removed
    ensures
      var r := Pruned(t, k).tree;
      Entries(r) == Removed(Entries(t), k) && (t.LeafAt? <==> r.LeafAt?) && (t.BranchAt? ==> Branching(r))
    decreases t
  {
    if t.LeafAt? {
      var at, found := PlaceOf(t.items, lo, hi, k);
      WithoutIs(t.items, k, at, found);
      LeafRemove(t.items, lo, hi, k, at, found);
      hide Removed;
      hide Less;
      hide Without;
    } else {
      var keys, kids, at := t.keys, t.kids, Way(t.keys, k);
      KeysSorted(t, h, lo, hi);
      RouteOf(keys, k);
      RouteInside(keys, lo, hi, k, at);
      assert kids[at] in kids;
      PrunedEntries(kids[at], h - 1, LowerOf(keys, at, lo), UpperOf(keys, at, hi), k);
      PrunedKids(t, h, lo, hi, k, at, Pruned(kids[at], k).tree);
    }
  }

  lemma PrunedKids(t: Tree, h: nat, lo: Bytes, hi: Option<Bytes>, k: Bytes, at: nat, b: Tree)
    requires t.BranchAt? && Ordered(t, h, lo, hi) && at < |t.kids| && t.keys != []
    requires Inside(k, LowerOf(t.keys, at, lo), UpperOf(t.keys, at, hi))
    requires Entries(b) == Removed(Entries(t.kids[at]), k) && (t.kids[at].LeafAt? <==> b.LeafAt?) && (b.BranchAt? ==> Branching(b))
    ensures
      var now := Mended(t.keys, t.kids[at := b], at);
      KidsEntries(now.kids) == Removed(Entries(t), k) && |now.kids| == |now.keys| + 1
  {
    assert |t.kids| == |t.keys| + 1;
    hide Ordered;
    hide OrderedKids;
    hide Less;
    hide LowerOf;
    hide UpperOf;
    hide Entries;
    hide KidsEntries;
    hide Removed;
    hide Mended;
    OrderedBranch(1, t.keys, t.kids, h, lo, hi);
    OrderedBranch(t.id, t.keys, t.kids, h, lo, hi);
    assert t.kids[..at] + [b] + t.kids[at + 1..] == t.kids[at := b];
    MendedShape(t.keys, t.kids[at := b], at);
    KidsAlike(t, h, lo, hi, at, b);
    MendedEntries(t.keys, t.kids[at := b], at);
    KidsEntriesOne(b);
    BranchEntries(t);
    PutInKid(t.keys, t.kids, h, lo, hi, at, [b], k, []);
  }

  /** In a tight tree a separator is a key. */
  lemma {:induction false} SeparatorIsKey(k: Bytes, t: Tree)
    requires Tight(t) && Separator(k, t)
    ensures exists e :: e in Entries(t) && e.key == k
  {
    BranchEntries(t);
    hide Entries;
    hide KidsEntries;
    hide Less;
    var i: nat;
    if k in t.keys {
      var j: nat :| j < |t.keys| && t.keys[j] == k;
      i := j + 1;
      assert Smallest(t.keys[j], t.kids[i]);
    } else {
      i :| i < |t.kids| && Separator(k, t.kids[i]);
      SeparatorIsKey(k, t.kids[i]);
    }
    var e :| e in Entries(t.kids[i]) && e.key == k;
    KidsEntriesAt(t.kids, i);
    assert e in KidsEntries(t.kids);
  }

  // ---- without page numbers ----

  lemma {:induction false} BareKeepsOrder(t: Tree, h: nat, lo: Bytes, hi: Option<Bytes>)
    requires Ordered(t, h, lo, hi)
    ensures Ordered(Bare(t), h, lo, hi)
    decreases t
  {
    hide KeysOk;
    hide ItemsOk;
    hide LowerOf;
    hide UpperOf;
    if t.BranchAt? {
      forall i: nat | i < |t.kids| ensures Ordered(Bare(t.kids[i]), h - 1, LowerOf(t.keys, i, lo), UpperOf(t.keys, i, hi)) {
        BareKeepsOrder(t.kids[i], h - 1, LowerOf(t.keys, i, lo), UpperOf(t.keys, i, hi));
      }
    }
  }

  lemma {:induction false} BareKeepsFull(t: Tree)
    requires Full(t)
    ensures Full(Bare(t))
  {
    hide LeafBytes;
    hide BranchBytes;
    if t.BranchAt? {
      forall k | k in BareAll(t.kids) ensures Full(k) {
        var i: nat :| i < |t.kids| && Bare(t.kids[i]) == k;
        assert t.kids[i] in t.kids;
        BareKeepsFull(t.kids[i]);
      }
    }
  }

  lemma {:induction false} BareEntries(t: Tree)
    ensures Entries(Bare(t)) == Entries(t)
    decreases t, 1
  {
    if t.BranchAt? { BareKidsEntries(t.kids); }
  }

  lemma {:induction false} BareKidsEntries(kids: seq<Tree>)
    ensures KidsEntries(BareAll(kids)) == KidsEntries(kids)
    decreases kids, 0
  {
    hide Entries;
    if kids != [] {
      BareCut(kids, |kids| - 1);
      BareKidsEntries(kids[..|kids| - 1]);
      BareEntries(kids[|kids| - 1]);
    }
  }

  lemma {:induction false} BareIsTight(t: Tree)
    ensures Tight(Bare(t)) <==> Tight(t)
  {
    if t.BranchAt? {
      hide Entries;
      forall i: nat | i < |t.kids|
        ensures Tight(Bare(t.kids[i])) <==> Tight(t.kids[i])
        ensures i > 0 && i <= |t.keys| ==> (Smallest(t.keys[i - 1], Bare(t.kids[i])) <==> Smallest(t.keys[i - 1], t.kids[i]))
      {
        BareIsTight(t.kids[i]);
        BareEntries(t.kids[i]);
      }
      hide Smallest;
      var b := Bare(t);
      assert b == BranchAt(0, t.keys, BareAll(t.kids));
      hide Bare;
      if Tight(b) {
        forall i: nat | i < |t.kids| ensures Tight(t.kids[i]) { assert Tight(b.kids[i]); }
        forall i: nat | i < |t.keys| ensures Smallest(t.keys[i], t.kids[i + 1]) {
          assert i + 1 > 0 && Smallest(t.keys[i], b.kids[i + 1]);
        }
      }
      if Tight(t) {
        forall i: nat | i < |t.kids| ensures Tight(b.kids[i]) { assert Tight(t.kids[i]); }
        forall i: nat | i < |t.keys| ensures Smallest(t.keys[i], b.kids[i + 1]) {
          assert i + 1 > 0 && Smallest(t.keys[i], t.kids[i + 1]);
        }
      }
    }
  }

  lemma {:induction false} BareSeparates(k: Bytes, t: Tree)
    ensures Separator(k, Bare(t)) <==> Separator(k, t)
  {
    if t.BranchAt? {
      forall i: nat | i < |t.kids| ensures Separator(k, Bare(t.kids[i])) <==> Separator(k, t.kids[i]) {
        BareSeparates(k, t.kids[i]);
      }
      var b := Bare(t);
      assert b == BranchAt(0, t.keys, BareAll(t.kids));
      hide Bare;
      if i: nat :| i < |t.kids| && Separator(k, t.kids[i]) { assert Separator(k, b.kids[i]); }
      if i: nat :| i < |t.kids| && Separator(k, b.kids[i]) { assert Separator(k, t.kids[i]); }
    }
  }

  lemma {:induction false} BareRefreshes(t: Tree, k: Bytes)
    ensures Refreshes(Bare(t), k) <==> Refreshes(t, k)
  {
    if t.BranchAt? {
      var at := Way(t.keys, k);
      if at < |t.kids| {
        BareRefreshes(t.kids[at], k);
        assert BareAll(t.kids)[at] == Bare(t.kids[at]);
        if t.kids[at].LeafAt? { BareIsThin(LeafAt(t.kids[at].id, Without(t.kids[at].items, k))); }
        hide Way;
        hide Without;
      }
    }
  }

  // ---- when it holds ----

  /**
   A removal from a tree whose separators are all smallest keys leaves one, if and
   only if the key is no separator, or its leaf is poured together with the leaf on
   its left: only then is the separator between the two renewed. Pouring branches
   together carries the stale key along.
   */
  lemma TightAfter(t: Tree, h: nat, k: Bytes)
    requires Ordered(t, h, [], None) && Full(t) && Tight(t) && !Bursts(t, k)
    ensures Tight(Pruned(Bare(t), k).tree) <==> !Separator(k, t) || Refreshes(t, k)
  {
    var u := Bare(t);
    BareKeepsOrder(t, h, [], None);
    BareKeepsFull(t);
    BareIsTight(t);
    BareSeparates(k, t);
    BareRefreshes(t, k);
    assert Inside(k, [], None);
    hide Bare;
    hide Ordered;
    hide Full;
    hide Less;
    BareTightAfter(u, h, k);
  }

  lemma BareTightAfter(u: Tree, h: nat, k: Bytes)
    requires Ordered(u, h, [], None) && Full(u) && Tight(u) && !Pruned(u, k).bursts
    ensures Tight(Pruned(u, k).tree) <==> !Separator(k, u) || Refreshes(u, k)
  {
    assert Inside(k, [], None);
    OrderedEntries(u, h, [], None);
    TightIsSnug(u, h, [], None);
    PrunedSnug(u, h, [], None, k);
    var p := Pruned(u, k);
    if p.removed {
      PrunedEntries(u, h, [], None, k);
      RemovedInOrder(Entries(u), k);
      RemovedLacks(Entries(u), k);
      hide Ordered;
      hide Full;
      hide Less;
      hide Pruned;
      hide Tight;
      hide Entries;
      hide Refreshes;
      hide Separator;
      hide Snug;
      hide Removed;
      if Separator(k, u) && !Refreshes(u, k) {
        if Tight(p.tree) { SeparatorIsKey(k, p.tree); }
      } else {
        SnugIsTight(p.tree);
      }
    }
  }

  /** The same of the tree a removal came to, wherever its pages are. */
  lemma TightRemains(t: Tree, h: nat, k: Bytes, removed: bool, t1: Tree)
    requires Ordered(t, h, [], None) && Full(t) && Tight(t) && !Bursts(t, k) && Pruned(Bare(t), k).removed == removed
    requires removed ==> Bare(t1) == Pruned(Bare(t), k).tree
    ensures Tight(if removed then t1 else t) <==> !Separator(k, t) || Refreshes(t, k)
  {
    TightAfter(t, h, k);
    BareIsTight(t);
    BareIsTight(t1);
    if !removed { PrunedNothing(Bare(t), k); }
    hide Tight;
    hide Bare;
    hide Pruned;
    hide Separator;
    hide Refreshes;
  }

  lemma PrunedNothing(t: Tree, k: Bytes)
    requires !Pruned(t, k).removed
    ensures Pruned(t, k).tree == t
  {
  }

  /** A root with one child is as tight as the child. */
  lemma LoneIsTight(t: Tree)
    requires t.BranchAt? && |t.kids| == 1 && t.keys == []
    ensures Tight(t) <==> Tight(t.kids[0])
  {
  }

  // ---- putting an entry in ----

  /** What an insertion made of a subtree: all of it snug, beginning with `first`, the separator beginning the second. */
  ghost predicate Sprouts(mid: seq<Tree>, sep: Bytes, first: Option<Bytes>) {
    && |mid| in {1, 2} && (forall i: nat | i < |mid| :: Snug(mid[i]))
    && Head(mid[0]) == first && (|mid| == 2 ==> Head(mid[1]) == Some(sep))
  }

  /** What a tree begins with once the key is in it. */
  function Begun(t: Tree, k: Bytes): Option<Bytes> {
    if Head(t).Some? && AtMost(Head(t).value, k) then Head(t) else Some(k)
  }

  lemma SproutLeaf(id: PageId, items: seq<Item>, sep: Bytes)
    requires items != []
    ensures Sprouts([LeafAt(id, items)], sep, Some(items[0].key))
  {
  }

  lemma SproutLeaves(l: PageId, r: PageId, items: seq<Item>, cut: nat)
    requires 0 < cut < |items|
    ensures Sprouts([LeafAt(l, items[..cut]), LeafAt(r, items[cut..])], items[cut].key, Some(items[0].key))
  {
  }

  lemma LeafBegun(id: PageId, items: seq<Item>, at: nat, found: bool, i: Item)
    requires Finds(items, i.key, at, found)
    ensures var items1 := PutItem(items, at, found, i); items1 != [] && Begun(LeafAt(id, items), i.key) == Some(items1[0].key)
  {
    StrictTotalOrder();
    hide Less;
  }

  lemma SproutBranch(id: PageId, keys: seq<Bytes>, kids: seq<Tree>, sep: Bytes)
    requires SnugKids(keys, kids)
    ensures Sprouts([BranchAt(id, keys, kids)], sep, Head(kids[0]))
  {
  }

  lemma SproutBranches(l: PageId, r: PageId, keys: seq<Bytes>, kids: seq<Tree>, cut: nat)
    requires SnugKids(keys, kids) && cut < |keys|
    ensures Sprouts([BranchAt(l, keys[..cut], kids[..cut + 1]), BranchAt(r, keys[cut + 1..], kids[cut + 1..])], keys[cut], Head(kids[0]))
  {
    var a, b := BranchAt(l, keys[..cut], kids[..cut + 1]), BranchAt(r, keys[cut + 1..], kids[cut + 1..]);
    assert SnugKids(a.keys, a.kids) && SnugKids(b.keys, b.kids);
    assert Snug(a) && Snug(b);
    assert Head(b) == Head(kids[cut + 1]);
  }

  /** A child that has sprouted leaves its branch snug: no key put in there is below the separator left of it. */
  lemma SproutKid(t: Tree, h: nat, lo: Bytes, hi: Option<Bytes>, at: nat, k: Bytes, under: seq<Tree>, sep: Bytes)
    requires t.BranchAt? && Ordered(t, h, lo, hi) && Full(t) && Snug(t) && Routes(t.keys, k, at)
    requires Sprouts(under, sep, Begun(t.kids[at], k))
    ensures
      var keys1 := if |under| == 1 then t.keys else t.keys[..at] + [sep] + t.keys[at..];
      var kids1 := t.kids[..at] + under + t.kids[at + 1..];
      SnugKids(keys1, kids1) && Head(kids1[0]) == Begun(t, k)
  {
    var keys, kids := t.keys, t.kids;
    HeadOfBranch(t);
    if at > 0 {
      assert Head(kids[at - 1 + 1]) == Some(keys[at - 1]);
      assert AtMost(keys[at - 1], k);
      assert kids[0] in kids;
      FullHasHead(kids[0], h - 1, LowerOf(keys, 0, lo), UpperOf(keys, 0, hi));
      assert AtMost(Head(t).value, k) by { StrictTotalOrder(); }
    }
    assert SnugKids(keys, kids);
    hide Less;
    hide Ordered;
    hide Full;
    hide Head;
    hide Snug;
    SproutKids(keys, kids, at, under, sep, Begun(kids[at], k));
    assert (kids[..at] + under + kids[at + 1..])[0] == if at == 0 then under[0] else kids[0];
  }

  lemma SproutKids(keys: seq<Bytes>, kids: seq<Tree>, at: nat, under: seq<Tree>, sep: Bytes, first: Option<Bytes>)
    requires SnugKids(keys, kids) && at < |kids| && Sprouts(under, sep, first) && (at > 0 ==> first == Some(keys[at - 1]))
    ensures SnugKids(if |under| == 1 then keys else keys[..at] + [sep] + keys[at..], kids[..at] + under + kids[at + 1..])
  {
    hide Head;
    hide Snug;
    var keys1 := if |under| == 1 then keys else keys[..at] + [sep] + keys[at..];
    var kids1 := kids[..at] + under + kids[at + 1..];
    forall i: nat | i < |kids1| ensures Snug(kids1[i]) && (i > 0 ==> Head(kids1[i]) == Some(keys1[i - 1])) {
      if i < at {
        assert kids1[i] == kids[i] && (i > 0 ==> keys1[i - 1] == keys[i - 1] && Head(kids[i - 1 + 1]) == Some(keys[i - 1]));
      } else if i >= at + |under| {
        var j := i - |under| + 1;
        assert kids1[i] == kids[j] && keys1[i - 1] == keys[j - 1] && Head(kids[j - 1 + 1]) == Some(keys[j - 1]);
      } else {
        assert kids1[i] == under[i - at];
      }
    }
  }

  /** A tree in order is tight exactly when it is snug. */
  lemma TightOrSnug(t: Tree, h: nat, lo: Bytes, hi: Option<Bytes>)
    requires Ordered(t, h, lo, hi) && Full(t)
    ensures Tight(t) <==> Snug(t)
  {
    OrderedEntries(t, h, lo, hi);
    if Snug(t) { SnugIsTight(t); } else if Tight(t) { TightIsSnug(t, h, lo, hi); }
  }

  lemma SnugKidOf(t: Tree, at: nat)
    requires t.BranchAt? && Snug(t) && at < |t.kids|
    ensures Snug(t.kids[at])
  {
  }

  /** What has sprouted at the root: itself, or the two under a new one. */
  lemma RootSprouts(id: PageId, mid: seq<Tree>, sep: Bytes, first: Option<Bytes>)
    requires Sprouts(mid, sep, first)
    ensures Snug(mid[0]) && (|mid| == 2 ==> Snug(BranchAt(id, [sep], mid)))
  {
    hide Head;
  }
}
