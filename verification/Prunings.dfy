/**
 What a removal makes of a tree, apart from which pages it lands on: which child is
 poured together with its neighbour, where the two are cut again, and whether the
 branch above still has room for the separator that comes out.
 */
module Prunings {
  import opened Bytes
  import opened PageFile
  import opened Nodes
  import opened Trees
  import opened Reads

  /** A tree without its page numbers. */
  ghost function Bare(t: Tree): Tree
    decreases t, 1
  {
    match t
    case LeafAt(_, items) => LeafAt(0, items)
    case BranchAt(_, keys, kids) => BranchAt(0, keys, BareAll(kids))
  }

  ghost function BareAll(kids: seq<Tree>): (r: seq<Tree>)
    ensures |r| == |kids| && forall i | 0 <= i < |kids| :: r[i] == Bare(kids[i])
    decreases kids, 0
  {
    seq(|kids|, i requires 0 <= i < |kids| => Bare(kids[i]))
  }

  lemma BareConcat(a: seq<Tree>, b: seq<Tree>)
    ensures BareAll(a + b) == BareAll(a) + BareAll(b)
  {
  }

  lemma BareCut(kids: seq<Tree>, at: nat)
    requires at <= |kids|
    ensures BareAll(kids[..at]) == BareAll(kids)[..at] && BareAll(kids[at..]) == BareAll(kids)[at..]
  {
  }

  lemma BareSwap(kids: seq<Tree>, at: nat, k: Tree)
    requires at < |kids|
    ensures BareAll(kids[..at] + [k] + kids[at + 1..]) == BareAll(kids)[at := Bare(k)]
  {
  }

  lemma BarePair(kids: seq<Tree>, left: nat, mid: seq<Tree>)
    requires left + 1 < |kids|
    ensures BareAll(kids[..left] + mid + kids[left + 2..]) == BareAll(kids)[..left] + BareAll(mid) + BareAll(kids)[left + 2..]
  {
    BareConcat(kids[..left] + mid, kids[left + 2..]);
    BareConcat(kids[..left], mid);
    BareCut(kids, left);
    BareCut(kids, left + 2);
  }

  /** Less than a quarter of a page. */
  ghost predicate Thin(t: Tree) {
    if t.LeafAt? then LeafBytes(StoredAll(t.items)) < UNDERFULL else BranchBytes(t.keys) < UNDERFULL
  }

  lemma BareIsThin(t: Tree)
    ensures Thin(Bare(t)) <==> Thin(t)
  {
  }

  // ---- two neighbours poured together ----

  /** Where splitLeaf cuts, when it can. */
  ghost function LeafCutOf(es: seq<Stored>): int {
    if exists c :: BestLeafCut(es, c) then var c :| BestLeafCut(es, c); c else 0
  }

  ghost function BranchCutOf(keys: seq<Bytes>): int {
    if exists c :: BestBranchCut(keys, c) then var c :| BestBranchCut(keys, c); c else 0
  }

  lemma LeafCutIs(es: seq<Stored>, cut: int)
    requires BestLeafCut(es, cut)
    ensures LeafCutOf(es) == cut
  {
    BestLeafCutOnce(es, LeafCutOf(es), cut);
  }

  lemma BranchCutIs(keys: seq<Bytes>, cut: int)
    requires BestBranchCut(keys, cut)
    ensures BranchCutOf(keys) == cut
  {
    BestBranchCutOnce(keys, BranchCutOf(keys), cut);
  }

  /** What two neighbours become: one node, or two and the separator between them. */
  datatype Mix = One(tree: Tree) | Two(first: Tree, sep: Bytes, second: Tree)

  function NodesOf(m: Mix): seq<Tree> { match m case One(t) => [t] case Two(a, _, b) => [a, b] }

  ghost function MixLeaves(items: seq<Item>): Mix {
    var cut := LeafCutOf(StoredAll(items));
    if LeafBytes(StoredAll(items)) <= CAPACITY || !(0 < cut < |items|) then One(LeafAt(0, items))
    else Two(LeafAt(0, items[..cut]), items[cut].key, LeafAt(0, items[cut..]))
  }

  ghost function MixBranches(keys: seq<Bytes>, kids: seq<Tree>): Mix {
    var cut := BranchCutOf(keys);
    if BranchBytes(keys) <= CAPACITY || !(0 <= cut < |keys| < |kids|) then One(BranchAt(0, keys, kids))
    else Two(BranchAt(0, keys[..cut], kids[..cut + 1]), keys[cut], BranchAt(0, keys[cut + 1..], kids[cut + 1..]))
  }

  /** The separator between two branches is the key that was missing. */
  ghost function Mixed(a: Tree, sep: Bytes, b: Tree): Mix {
    match (a, b)
    case (LeafAt(_, first), LeafAt(_, second)) => MixLeaves(first + second)
    case (BranchAt(_, k1, c1), BranchAt(_, k2, c2)) => MixBranches(k1 + [sep] + k2, c1 + c2)
    case _ => Two(a, sep, b)
  }

  /** These nodes, wherever they are, are what the mix says. */
  ghost predicate Blends(mid: seq<Tree>, sep: Bytes, m: Mix) {
    BareAll(mid) == NodesOf(m) && (m.Two? ==> sep == m.sep)
  }

  lemma BlendsMergedLeaves(id: PageId, items: seq<Item>)
    requires LeafBytes(StoredAll(items)) <= CAPACITY
    ensures Blends([LeafAt(id, items)], [], MixLeaves(items))
  {
  }

  lemma BlendsCutLeaves(l: PageId, r: PageId, items: seq<Item>, cut: int)
    requires LeafBytes(StoredAll(items)) > CAPACITY && BestLeafCut(StoredAll(items), cut)
    ensures 0 < cut < |items| && Blends([LeafAt(l, items[..cut]), LeafAt(r, items[cut..])], items[cut].key, MixLeaves(items))
  {
    LeafCutIs(StoredAll(items), cut);
    hide LeafCutOf;
    hide LeafBytes;
  }

  lemma BlendsMergedBranches(id: PageId, keys: seq<Bytes>, kids: seq<Tree>)
    requires BranchBytes(keys) <= CAPACITY
    ensures Blends([BranchAt(id, keys, kids)], [], MixBranches(keys, BareAll(kids)))
  {
  }

  lemma BlendsCutBranches(l: PageId, r: PageId, keys: seq<Bytes>, kids: seq<Tree>, cut: int)
    requires BranchBytes(keys) > CAPACITY && BestBranchCut(keys, cut) && |kids| == |keys| + 1
    ensures 0 <= cut < |keys|
    ensures Blends([BranchAt(l, keys[..cut], kids[..cut + 1]), BranchAt(r, keys[cut + 1..], kids[cut + 1..])], keys[cut],
        MixBranches(keys, BareAll(kids)))
  {
    BranchCutIs(keys, cut);
    BareCut(kids, cut + 1);
    hide BranchCutOf;
    hide BranchBytes;
  }

  lemma MixedLeaves(a: Tree, sep: Bytes, b: Tree)
    requires a.LeafAt? && b.LeafAt?
    ensures Mixed(Bare(a), sep, Bare(b)) == MixLeaves(a.items + b.items)
  {
    hide MixLeaves;
  }

  lemma MixedBranches(a: Tree, sep: Bytes, b: Tree)
    requires a.BranchAt? && b.BranchAt?
    ensures Mixed(Bare(a), sep, Bare(b)) == MixBranches(a.keys + [sep] + b.keys, BareAll(a.kids + b.kids))
  {
    hide MixBranches;
    BareConcat(a.kids, b.kids);
  }

  /** A branch's keys and children after the pair at `left` has been poured together. */
  datatype Poured = Poured(keys: seq<Bytes>, kids: seq<Tree>)

  ghost function Pour(keys: seq<Bytes>, kids: seq<Tree>, left: nat): Poured
    requires left < |keys| && |kids| == |keys| + 1
  {
    match Mixed(kids[left], keys[left], kids[left + 1])
    case One(t) => Poured(keys[..left] + keys[left + 1..], kids[..left] + [t] + kids[left + 2..])
    case Two(a, sep, b) => Poured(keys[left := sep], kids[..left] + [a, b] + kids[left + 2..])
  }

  /** A child that is underfull is poured together with its left neighbour, the first one with its right. */
  function LeftOf(at: nat): nat { if at > 0 then at - 1 else at }

  ghost function Mended(keys: seq<Bytes>, kids: seq<Tree>, at: nat): Poured
    requires at < |kids| && |kids| == |keys| + 1 && keys != []
  {
    if Thin(kids[at]) then Pour(keys, kids, LeftOf(at)) else Poured(keys, kids)
  }

  /** What a rebalance of one pair makes of the branch. */
  lemma PourIs(keys: seq<Bytes>, kids: seq<Tree>, left: nat, mid: seq<Tree>, sep: Bytes)
    requires left < |keys| && |kids| == |keys| + 1
    requires Blends(mid, sep, Mixed(Bare(kids[left]), keys[left], Bare(kids[left + 1])))
    ensures |mid| in {1, 2}
    ensures Pour(keys, BareAll(kids), left) ==
      Poured(if |mid| == 1 then keys[..left] + keys[left + 1..] else keys[left := sep], BareAll(kids[..left] + mid + kids[left + 2..]))
  {
    hide Mixed;
    hide Bare;
    BarePair(kids, left, mid);
    assert |BareAll(mid)| == |mid|;
  }

  /**
   Pouring makes a branch too large only by a longer separator: the pair was cut
   again, and what the new separator has over the old one is more than there was
   room for.
   */
  lemma PourBursts(keys: seq<Bytes>, kids: seq<Tree>, left: nat)
    requires left < |keys| && |kids| == |keys| + 1 && BranchBytes(keys) <= CAPACITY
    ensures
      var m := Mixed(kids[left], keys[left], kids[left + 1]);
      BranchBytes(Pour(keys, kids, left).keys) > CAPACITY <==>
        m.Two? && |m.sep| - |keys[left]| > CAPACITY - BranchBytes(keys)
  {
    hide KeyTotal;
    hide Mixed;
    KeyTotalCut(keys, left);
    var m := Mixed(kids[left], keys[left], kids[left + 1]);
    if m.One? {
      KeyTotalConcat(keys[..left], keys[left + 1..]);
    } else {
      var now := keys[left := m.sep];
      KeyTotalCut(now, left);
      assert now[..left] == keys[..left] && now[left + 1..] == keys[left + 1..];
    }
  }

  // ---- a whole removal ----

  ghost function Way(keys: seq<Bytes>, k: Bytes): nat {
    if exists at: nat :: Routes(keys, k, at) then var at: nat :| Routes(keys, k, at); at else 0
  }

  lemma WayIs(keys: seq<Bytes>, k: Bytes, at: nat)
    requires Routes(keys, k, at)
    ensures Way(keys, k) == at
  {
    RoutesOnce(keys, k, Way(keys, k), at);
  }

  ghost predicate Found(items: seq<Item>, k: Bytes) { exists at: nat :: Finds(items, k, at, true) }

  ghost function Without(items: seq<Item>, k: Bytes): seq<Item> {
    if Found(items, k) then var at: nat :| Finds(items, k, at, true); items[..at] + items[at + 1..] else items
  }

  lemma WithoutIs(items: seq<Item>, k: Bytes, at: nat, found: bool)
    requires Finds(items, k, at, found)
    ensures Found(items, k) <==> found
    ensures found ==> Without(items, k) == items[..at] + items[at + 1..]
  {
    forall a: nat | Finds(items, k, a, true) ensures found && a == at { FindsOnce(items, k, a, true, at, found); }
    hide Finds;
  }

  /** The tree a removal leaves, whether the key was there, and whether a branch on the way had no room. */
  datatype Pruning = Pruning(tree: Tree, removed: bool, bursts: bool)

  ghost function Pruned(t: Tree, k: Bytes): Pruning
    decreases t
  {
    match t
    case LeafAt(id, items) =>
      if Found(items, k) then Pruning(LeafAt(id, Without(items, k)), true, false) else Pruning(t, false, false)
    case BranchAt(id, keys, kids) =>
      var at := Way(keys, k);
      if !(at < |kids| == |keys| + 1 && keys != []) then Pruning(t, false, false)
      else
        var below := Pruned(kids[at], k);
        if !below.removed || below.bursts then Pruning(t, below.removed, below.bursts)
        else
          var now := Mended(keys, kids[at := below.tree], at);
          Pruning(BranchAt(id, now.keys, now.kids), true, BranchBytes(now.keys) > CAPACITY)
  }

  lemma MendedIs(keys: seq<Bytes>, kids: seq<Tree>, at: nat)
    requires at < |kids| && |kids| == |keys| + 1 && keys != []
    ensures Mended(keys, BareAll(kids), at) == if Thin(kids[at]) then Pour(keys, BareAll(kids), LeftOf(at)) else Poured(keys, BareAll(kids))
  {
    hide Pour;
    BareIsThin(kids[at]);
  }

  lemma BareLeaf(id: PageId, items: seq<Item>)
    ensures Bare(LeafAt(id, items)) == LeafAt(0, items)
  {
  }

  lemma BareBranch(id: PageId, keys: seq<Bytes>, kids: seq<Tree>)
    ensures Bare(BranchAt(id, keys, kids)) == BranchAt(0, keys, BareAll(kids))
  {
  }

  /** Removing the key makes some branch too large for its page. */
  ghost predicate Bursts(t: Tree, k: Bytes) { Pruned(Bare(t), k).bursts }

  lemma PrunedLeaf(id: PageId, items: seq<Item>, k: Bytes, at: nat, found: bool)
    requires Finds(items, k, at, found)
    ensures
      var p := Pruned(Bare(LeafAt(id, items)), k);
      p.removed == found && !p.bursts && (found ==> p.tree == LeafAt(0, items[..at] + items[at + 1..]))
  {
    WithoutIs(items, k, at, found);
    hide Finds;
  }

  lemma PrunedBranch(t: Tree, k: Bytes, at: nat)
    requires t.BranchAt? && Routes(t.keys, k, at) && |t.kids| == |t.keys| + 1 && t.keys != []
    ensures
      var below, p := Pruned(Bare(t.kids[at]), k), Pruned(Bare(t), k);
      if !below.removed || below.bursts then p.removed == below.removed && p.bursts == below.bursts
      else
        var now := Mended(t.keys, BareAll(t.kids)[at := below.tree], at);
        p == Pruning(BranchAt(0, now.keys, now.kids), true, BranchBytes(now.keys) > CAPACITY)
  {
    WayIs(t.keys, k, at);
    hide Routes;
    hide Mended;
    assert Bare(t) == BranchAt(0, t.keys, BareAll(t.kids));
    assert BareAll(t.kids)[at] == Bare(t.kids[at]);
  }
}
