/** Reading the tree: finding a key, following a chain, and the two walks. */
module Reads {
  import opened Bytes
  import opened Options
  import opened PageFile
  import opened FreeLists
  import opened Pagers
  import opened Nodes
  import opened Sorted
  import opened Seqs
  import opened Trees

  datatype Outcome = Done | EmptyKey | KeyTooLarge | ValueTooLarge | NoRoom | CannotSplit | Malformed

  /** sort.Search: a place where `f` turns from false to true. */
  method Search(n: nat, f: nat -> bool) returns (at: nat)
    ensures at <= n && (at < n ==> f(at)) && (at > 0 ==> !f(at - 1))
  {
    var i, j := 0, n;
    while i < j
      invariant 0 <= i <= j <= n && (j < n ==> f(j)) && (i > 0 ==> !f(i - 1))
    {
      var m := (i + j) / 2;
      if !f(m) {
        i := m + 1;
      } else {
        j := m;
      }
    }
    at := i;
  }

  ghost predicate SortedKeys(keys: seq<Bytes>) {
    forall i, j | 0 <= i < j < |keys| :: Less(keys[i], keys[j])
  }

  /** Child `at` is the one whose subtree a key belongs in. */
  ghost predicate Routes(keys: seq<Bytes>, k: Bytes, at: int) {
    && 0 <= at <= |keys|
    && (forall i | 0 <= i < at :: AtMost(keys[i], k))
    && (forall i | at <= i < |keys| :: Less(k, keys[i]))
  }

  method ChildFor(keys: seq<Bytes>, key: Bytes) returns (at: nat)
    ensures at <= |keys|
    ensures SortedKeys(keys) ==> Routes(keys, key, at)
  {
    at := Search(|keys|, (i: nat) => i < |keys| && Less(key, keys[i]));
    StrictTotalOrder();
    hide Less;
  }

  function KeysOf(entries: seq<Stored>): (r: seq<Bytes>)
    ensures |r| == |entries| && forall i | 0 <= i < |r| :: r[i] == entries[i].key
  {
    seq(|entries|, i requires 0 <= i < |entries| => entries[i].key)
  }

  /** findKey: keys before `at` are smaller, and none from there on is. */
  method FindKey(entries: seq<Stored>, key: Bytes) returns (at: nat, found: bool)
    ensures at <= |entries| && (found <==> at < |entries| && entries[at].key == key)
    ensures SortedKeys(KeysOf(entries)) ==>
      && (forall i | 0 <= i < at :: Less(entries[i].key, key))
      && (forall i | at <= i < |entries| :: AtMost(key, entries[i].key))
  {
    at := Search(|entries|, (i: nat) => i < |entries| && AtMost(key, entries[i].key));
    found := at < |entries| && entries[at].key == key;
    ghost var keys := KeysOf(entries);
    StrictTotalOrder();
    hide Less;
  }

  lemma FindsItem(items: seq<Item>, lo: Bytes, hi: Option<Bytes>, k: Bytes, at: nat, found: bool)
    requires ItemsOk(items, lo, hi)
    requires var es := StoredAll(items);
      && at <= |es| && (found <==> at < |es| && es[at].key == k)
      && (SortedKeys(KeysOf(es)) ==>
            && (forall i | 0 <= i < at :: Less(es[i].key, k))
            && (forall i | at <= i < |es| :: AtMost(k, es[i].key)))
    ensures Finds(items, k, at, found)
  {
    hide Less;
    hide ItemOk;
    var es := StoredAll(items);
    assert SortedKeys(KeysOf(es));
    assert forall i | 0 <= i < |items| :: es[i].key == items[i].key;
  }

  /** A key within the bounds of a branch is within the bounds of the child it is routed to. */
  lemma RouteInside(keys: seq<Bytes>, lo: Bytes, hi: Option<Bytes>, k: Bytes, at: nat)
    requires Inside(k, lo, hi) && Routes(keys, k, at)
    ensures Inside(k, LowerOf(keys, at, lo), UpperOf(keys, at, hi))
  {
    hide Less;
  }

  lemma RoutesOnce(keys: seq<Bytes>, k: Bytes, a: nat, b: nat)
    requires Routes(keys, k, a) && Routes(keys, k, b)
    ensures a == b
  {
    assert (a < |keys| ==> Less(k, keys[a])) && (b < |keys| ==> Less(k, keys[b]));
    hide Less;
  }

  lemma FindsOnce(items: seq<Item>, k: Bytes, a: nat, f: bool, b: nat, g: bool)
    requires Finds(items, k, a, f) && Finds(items, k, b, g)
    ensures a == b && f == g
  {
    hide Less;
  }

  /** What a well-formed branch gives: sorted keys, one child more than keys, and every child well formed. */
  lemma BranchFacts(t: Tree, h: nat, lo: Bytes, hi: Option<Bytes>)
    requires t.BranchAt? && Ordered(t, h, lo, hi) && Shaped(t)
    ensures h > 0 && |t.kids| == |t.keys| + 1 && SortedKeys(t.keys) && BranchBytes(t.keys) <= CAPACITY
    ensures OrderedKids(t.keys, t.kids, h - 1, lo, hi)
    ensures forall k | k in t.kids :: Full(k)
    ensures forall i: nat | i < |t.kids| :: Ordered(t.kids[i], h - 1, LowerOf(t.keys, i, lo), UpperOf(t.keys, i, hi))
    ensures Ordered(BranchAt(1, t.keys, t.kids), h, lo, hi)
  {
    hide Less;
  }

  lemma LeafFacts(t: Tree, h: nat, lo: Bytes, hi: Option<Bytes>)
    requires t.LeafAt? && Ordered(t, h, lo, hi) && Shaped(t)
    ensures h == 0 && ItemsOk(t.items, lo, hi) && LeafBytes(StoredAll(t.items)) <= CAPACITY
  {
  }

  // ---- chains of overflow pages ----

  /** What a walk along a chain has seen after `k` pages. */
  ghost predicate Along(i: Item, k: nat, id: PageId, value: Bytes) {
    && k <= |i.pages| && id == (if k < |i.pages| then i.pages[k] else 0) && (id == 0 <==> k == |i.pages|)
    && value == i.value[..Min(Offset(k), |i.value|)]
  }

  /** A stored value that can be read back: its chain holds together and lies within the file. */
  ghost predicate Chain(pages: map<PageId, Page>, i: Item, count: int) {
    ItemOk(i) && ChainHolds(pages, i.pages, i.value, 0) && (forall p | p in i.pages :: p < count)
  }

  lemma ChunkBounds(n: nat, k: nat)
    requires k < Chunks(n)
    ensures Offset(k) < n && Offset(k + 1) == Offset(k) + CHUNK
  {
  }

  lemma SliceOn(v: Bytes, a: nat, b: nat)
    requires a <= b <= |v|
    ensures v[..a] + v[a..b] == v[..b] && |v[..a]| + |v[a..b]| == b
  {
  }

  lemma AlongStep(pages: map<PageId, Page>, i: Item, count: int, k: nat, id: PageId, value: Bytes)
    requires Chain(pages, i, count) && Along(i, k, id, value) && id != 0
    ensures id < count && id in pages && pages[id].Blob?
    ensures
      var page := pages[id];
      && 0 < |page.bytes| <= CHUNK && |value| + |page.bytes| <= |i.value|
      && Along(i, k + 1, page.next, value + page.bytes)
  {
    assert id == i.pages[k] && i.pages[k] in i.pages;
    assert k + 1 < |i.pages| ==> i.pages[k + 1] in i.pages;
    ChunkBounds(|i.value|, k);
    hide Offset;
    hide Chunks;
    hide LegalKey;
    assert LinkHolds(pages, i.pages, i.value, 0, k);
    hide ChainHolds;
    SliceOn(i.value, Offset(k), Min(Offset(k) + CHUNK, |i.value|));
  }

  lemma AlongStarts(pages: map<PageId, Page>, i: Item, count: int)
    requires Chain(pages, i, count)
    ensures ItemOk(i)
    ensures i.pages == [] ==> StoredOf(i) == Inline(i.key, i.value)
    ensures i.pages != [] ==> StoredOf(i) == Chained(i.key, i.pages[0], |i.value|) && Along(i, 0, i.pages[0], [])
  {
    assert i.pages != [] ==> i.pages[0] in i.pages;
  }

  lemma AlongEnd(i: Item, k: nat, value: Bytes)
    requires ItemOk(i) && i.pages != [] && Along(i, k, 0, value)
    ensures value == i.value
  {
  }

  /** The value an entry stands for. It ends on any chain at all; on one that was written whole it returns the value. */
  method LoadValue(pages: Pager, e: Stored, ghost i: Item) returns (out: Outcome, value: Bytes)
    ensures out.Done? || out.Malformed?
    ensures Chain(pages.Pages(), i, pages.meta.pageCount) && e == StoredOf(i) ==> out.Done? && value == i.value
  {
    hide PagesIn;
    ghost var good := Chain(pages.Pages(), i, pages.meta.pageCount) && e == StoredOf(i);
    if good { AlongStarts(pages.Pages(), i, pages.meta.pageCount); }
    hide Chain;
    hide StoredOf;
    hide Along;
    if e.Inline? {
      return Done, e.value;
    }
    value := [];
    var id: PageId := e.head;
    ghost var k: nat := 0;
    while id != 0
      invariant |value| <= e.length
      invariant good ==> Along(i, k, id, value)
      decreases e.length - |value|, id
    {
      if good { AlongStep(pages.Pages(), i, pages.meta.pageCount, k, id, value); }
      var page := pages.Read(id);
      if page.None? || !page.value.Blob? {
        return Malformed, [];
      }
      var n := |page.value.bytes|;
      if n == 0 || n > CHUNK || |value| + n > e.length {
        return Malformed, [];
      }
      value := value + page.value.bytes;
      id := page.value.next;
      k := k + 1;
    }
    if good { AlongEnd(i, k, value); }
    if |value| != e.length {
      return Malformed, [];
    }
    return Done, value;
  }

  // ---- trees that can be read ----

  lemma FullIsShaped(t: Tree)
    requires Full(t)
    ensures Shaped(t) && (t.LeafAt? ==> t.items != []) && (t.BranchAt? ==> t.keys != [])
  {
  }

  /** The pages of the file spell the tree, and all of them are within it. */
  ghost predicate Legible(pages: map<PageId, Page>, t: Tree, count: int) {
    Spells(pages, t) && forall p: PageId | Occurs(t, p) > 0 :: p < count
  }

  lemma LegibleRoot(pages: map<PageId, Page>, t: Tree, count: int)
    requires Legible(pages, t, count)
    ensures t.id != 0 && t.id < count && t.id in pages && pages[t.id] == RootPage(t)
  {
    assert Occurs(t, t.id) > 0;
  }

  lemma LegibleKid(pages: map<PageId, Page>, t: Tree, count: int, at: nat)
    requires Legible(pages, t, count) && t.BranchAt? && at < |t.kids|
    ensures Legible(pages, t.kids[at], count)
  {
    forall p: PageId | Occurs(t.kids[at], p) > 0 ensures p < count { KidPageOccurs(t, t.kids[at], p); }
    hide Occurs;
  }

  lemma LegibleItem(pages: map<PageId, Page>, t: Tree, count: int, at: nat)
    requires Legible(pages, t, count) && t.LeafAt? && at < |t.items| && ItemOk(t.items[at])
    ensures Chain(pages, t.items[at], count)
  {
    hide ItemOk;
    hide ChainHolds;
    forall p | p in t.items[at].pages ensures p < count { ItemPageOccurs(t, t.items[at], p); }
    hide Occurs;
  }

  // ---- one key ----

  /** What a run of pairs says about a key. */
  function Lookup(es: seq<Pair>, k: Bytes): Option<Bytes> {
    if k in AsMap(es) then Some(AsMap(es)[k]) else None
  }

  lemma LookupInside(a: seq<Pair>, m: seq<Pair>, b: seq<Pair>, k: Bytes)
    requires AllOn(a, Under, k) && AllOn(b, Over, k)
    ensures Lookup(a + m + b, k) == Lookup(m, k)
  {
    hide AsMap;
    AsMapConcat(a + m, b);
    AsMapConcat(a, m);
    AsMapKeys(a, k);
    AsMapKeys(b, k);
    Irreflexive(k);
    hide Less;
  }

  lemma LookupKid(t: Tree, h: nat, lo: Bytes, hi: Option<Bytes>, at: nat, k: Bytes)
    requires t.BranchAt? && at < |t.kids| && |t.kids| == |t.keys| + 1 && Ordered(BranchAt(1, t.keys, t.kids), h, lo, hi)
    requires Inside(k, LowerOf(t.keys, at, lo), UpperOf(t.keys, at, hi))
    ensures Lookup(Entries(t), k) == Lookup(Entries(t.kids[at]), k)
  {
    hide Lookup;
    hide Less;
    KidsApart(t.keys, t.kids, h, lo, hi, at, k);
    hide AllOn;
    hide Ordered;
    KidsEntriesAt(t.kids, at);
    LookupInside(KidsEntries(t.kids[..at]), Entries(t.kids[at]), KidsEntries(t.kids[at + 1..]), k);
    assert Entries(t) == KidsEntries(t.kids);
  }

  lemma LookupItem(items: seq<Item>, lo: Bytes, hi: Option<Bytes>, k: Bytes, at: nat, found: bool)
    requires ItemsOk(items, lo, hi) && Finds(items, k, at, found)
    ensures Lookup(PairsOf(items), k) == if found then Some(items[at].value) else None
  {
    hide AsMap;
    hide ItemOk;
    var es := PairsOf(items);
    assert InOrder(es) by { hide Less; }
    if found {
      AsMapAt(es, at);
    } else {
      AsMapKeys(es, k);
      FoundSides(items, lo, hi, k, at, found);
      Irreflexive(k);
      hide Less;
      forall p | p in es ensures p.key != k {
        var i :| 0 <= i < |es| && es[i] == p;
        assert i < at || at <= i;
      }
    }
  }

  /** Get, from the root page down: the value the map holds for the key, if it holds one. */
  method GetAt(pages: Pager, root: PageId, key: Bytes, ghost tree: Tree, ghost height: nat)
    returns (out: Outcome, value: Option<Bytes>)
    requires root == tree.id && Ordered(tree, height, [], None) && Shaped(tree) && Legible(pages.Pages(), tree, pages.meta.pageCount)
    ensures out.Done? && value == Lookup(Entries(tree), key)
  {
    hide PagesIn;
    hide Legible;
    hide Lookup;
    hide Entries;
    hide Ordered;
    hide OrderedKids;
    hide Full;
    hide Shaped;
    hide Less;
    hide ItemOk;
    hide ItemsOk;
    hide Finds;
    hide Chain;
    var id := root;
    ghost var t, h, lo, hi := tree, height, [], None;
    assert Inside(key, lo, hi) by { Bottom(key); }
    hide Inside;
    while id != 0
      invariant id == t.id && Ordered(t, h, lo, hi) && Shaped(t) && Legible(pages.Pages(), t, pages.meta.pageCount)
      invariant Inside(key, lo, hi) && Lookup(Entries(t), key) == Lookup(Entries(tree), key)
      decreases t
    {
      LegibleRoot(pages.Pages(), t, pages.meta.pageCount);
      var page := pages.Read(id);
      match page.value {
        case Leaf(entries) =>
          LeafFacts(t, h, lo, hi);
          var at, found := FindKey(entries, key);
          FindsItem(t.items, lo, hi, key, at, found);
          LookupItem(t.items, lo, hi, key, at, found);
          LeafEntries(t);
          if !found {
            return Done, None;
          }
          assert ItemOk(t.items[at]) by { ItemAt(t.items, lo, hi, at); }
          LegibleItem(pages.Pages(), t, pages.meta.pageCount, at);
          var v;
          out, v := LoadValue(pages, entries[at], t.items[at]);
          return out, Some(v);
        case Branch(keys, children) =>
          BranchFacts(t, h, lo, hi);
          var at := ChildFor(keys, key);
          RouteInside(keys, lo, hi, key, at);
          LookupKid(t, h, lo, hi, at, key);
          LegibleKid(pages.Pages(), t, pages.meta.pageCount, at);
          FullIsShaped(t.kids[at]);
          id := children[at];
          h, lo, hi := h - 1, LowerOf(keys, at, lo), UpperOf(keys, at, hi);
          t := t.kids[at];
          LegibleRoot(pages.Pages(), t, pages.meta.pageCount);
          if id == 0 {
            return Malformed, None;
          }
        case _ =>
          return Malformed, None;
      }
    }
    LegibleRoot(pages.Pages(), t, pages.meta.pageCount);
    return Done, None;
  }

  lemma Bottom(k: Bytes)
    ensures Inside(k, [], None)
  {
  }

  lemma ItemAt(items: seq<Item>, lo: Bytes, hi: Option<Bytes>, at: nat)
    requires ItemsOk(items, lo, hi) && at < |items|
    ensures ItemOk(items[at])
  {
  }

  lemma LeafEntries(t: Tree)
    requires t.LeafAt?
    ensures Entries(t) == PairsOf(t.items)
  {
  }

  // ---- walks ----

  /**
   What a visitor sees of a run: every pair in turn until it says stop. It may
   decide by everything it has seen so far.
   */
  function Visit(seen: seq<Pair>, es: seq<Pair>, more: seq<Pair> -> bool): (seq<Pair>, bool)
    decreases |es|
  {
    if es == [] then (seen, true)
    else
      var now := seen + [es[0]];
      if more(now) then Visit(now, es[1..], more) else (now, false)
  }

  lemma {:induction false} VisitConcat(seen: seq<Pair>, a: seq<Pair>, b: seq<Pair>, more: seq<Pair> -> bool)
    ensures
      var (s, go) := Visit(seen, a, more);
      Visit(seen, a + b, more) == if go then Visit(s, b, more) else (s, false)
    decreases |a|
  {
    if a == [] {
      assert a + b == b;
    } else {
      assert (a + b)[1..] == a[1..] + b;
      VisitConcat(seen + [a[0]], a[1..], b, more);
    }
  }

  /** A visitor that never stops sees the whole run. */
  lemma {:induction false} VisitAll(seen: seq<Pair>, es: seq<Pair>, more: seq<Pair> -> bool)
    requires forall s :: more(s)
    ensures Visit(seen, es, more) == (seen + es, true)
    decreases |es|
  {
    if es != [] {
      VisitAll(seen + [es[0]], es[1..], more);
      assert seen + es == seen + [es[0]] + es[1..];
    } else {
      assert seen + es == seen;
    }
  }

  function Reversed(es: seq<Pair>): seq<Pair> {
    if es == [] then [] else [es[|es| - 1]] + Reversed(es[..|es| - 1])
  }

  lemma ReversedPush(es: seq<Pair>, p: Pair)
    ensures Reversed(es + [p]) == [p] + Reversed(es)
  {
    assert (es + [p])[..|es|] == es;
  }

  lemma {:induction false} ReversedConcat(a: seq<Pair>, b: seq<Pair>)
    ensures Reversed(a + b) == Reversed(b) + Reversed(a)
  {
    if b == [] {
      assert a + b == a && Reversed(b) == [];
    } else {
      var before, last := b[..|b| - 1], b[|b| - 1];
      ReversedConcat(a, before);
      ReversedPush(a + before, last);
      ReversedPush(before, last);
      hide Reversed;
      assert b == before + [last] && a + b == (a + before) + [last];
    }
  }

  lemma {:induction false} ReversedTwice(es: seq<Pair>)
    ensures Reversed(Reversed(es)) == es
  {
    if es != [] {
      var before, last := es[..|es| - 1], es[|es| - 1];
      assert es == before + [last];
      ReversedTwice(before);
      ReversedPush(before, last);
      ReversedConcat([last], Reversed(before));
      assert Reversed([last]) == [last] by { ReversedPush([], last); assert [] + [last] == [last]; }
    }
  }

  /** The stretch of a run an upward walk covers. */
  function Upward(es: seq<Pair>, from: Option<Bytes>): seq<Pair> {
    if from.None? then es else From(es, from.value)
  }

  /** The stretch a downward walk covers, in the order it covers it. */
  function Downward(es: seq<Pair>, from: Option<Bytes>): seq<Pair> {
    Reversed(if from.None? then es else Below(es, from.value))
  }

  /** A walk up from `k` covers the pairs whose key is not below it, from the lowest on; a walk down those below it, from the highest on. */
  lemma StretchesAre(es: seq<Pair>, k: Bytes)
    requires InOrder(es)
    ensures forall p :: p in Upward(es, Some(k)) <==> p in es && !Less(p.key, k)
    ensures forall p :: p in Downward(es, Some(k)) <==> p in es && Less(p.key, k)
    ensures InOrder(Upward(es, Some(k)))
    ensures forall i, j | 0 <= i < j < |Downward(es, Some(k))| :: Less(Downward(es, Some(k))[j].key, Downward(es, Some(k))[i].key)
    ensures Upward(es, None) == es && |Downward(es, None)| == |es| && forall i | 0 <= i < |es| :: Downward(es, None)[i] == es[|es| - 1 - i]
  {
    hide Less;
    PickIs(es, Onward, k);
    PickIs(es, Under, k);
    ReversedIs(Below(es, k));
    ReversedIs(es);
    hide Pick;
    hide Reversed;
    var low, down := Below(es, k), Downward(es, Some(k));
    forall p ensures p in down <==> p in low {
      if p in low {
        var i :| 0 <= i < |low| && low[i] == p;
        assert down[|low| - 1 - i] == p;
      }
    }
  }

  lemma {:induction false} PickIs(es: seq<Pair>, side: Side, k: Bytes)
    requires InOrder(es)
    ensures InOrder(Pick(es, side, k)) && forall p :: p in Pick(es, side, k) <==> p in es && Keeps(side, p.key, k)
  {
    hide Less;
    hide Keeps;
    if es != [] {
      var before, last := es[..|es| - 1], es[|es| - 1];
      PickIs(before, side, k);
      assert es == before + [last];
    }
  }

  lemma {:induction false} ReversedIs(es: seq<Pair>)
    ensures |Reversed(es)| == |es| && forall i | 0 <= i < |es| :: Reversed(es)[i] == es[|es| - 1 - i]
  {
    if es != [] { ReversedIs(es[..|es| - 1]); }
  }

  /** A visitor is shown one pair after another for as long as it says so, and is told whether there was nothing left. */
  lemma {:induction false} VisitIs(seen: seq<Pair>, es: seq<Pair>, more: seq<Pair> -> bool) returns (n: nat)
    ensures n <= |es| && Visit(seen, es, more).0 == seen + es[..n] && forall j | 1 <= j < n :: more(seen + es[..j])
    ensures Visit(seen, es, more).1 <==> n == |es| && (n > 0 ==> more(seen + es))
    ensures !Visit(seen, es, more).1 ==> n > 0 && !more(seen + es[..n])
    decreases |es|
  {
    if es == [] {
      assert seen + es == seen;
      return 0;
    }
    var now := seen + [es[0]];
    assert es[..1] == [es[0]];
    if !more(now) {
      assert |es| == 1 ==> seen + es == now;
      return 1;
    }
    var m := VisitIs(now, es[1..], more);
    n := m + 1;
    assert now + es[1..] == seen + es;
    forall j | 1 <= j <= n ensures seen + es[..j] == now + es[1..][..j - 1] { assert es[..j] == [es[0]] + es[1..][..j - 1]; }
  }

  /** Read upward, [lo, hi) is what is read downward, backwards. */
  lemma StretchesAgree(es: seq<Pair>, lo: Bytes, hi: Bytes)
    ensures Below(From(es, lo), hi) == From(Below(es, hi), lo)
    ensures Below(Upward(es, Some(lo)), hi) == From(Reversed(Downward(es, Some(hi))), lo)
  {
    PicksCommute(es, Onward, lo, Under, hi);
    ReversedTwice(Below(es, hi));
  }

  lemma {:induction false} PicksCommute(es: seq<Pair>, s1: Side, k1: Bytes, s2: Side, k2: Bytes)
    ensures Pick(Pick(es, s1, k1), s2, k2) == Pick(Pick(es, s2, k2), s1, k1)
  {
    hide Keeps;
    if es != [] {
      var before, last := es[..|es| - 1], es[|es| - 1];
      assert es == before + [last];
      PicksCommute(before, s1, k1, s2, k2);
      PickPush(before, last, s1, k1);
      PickPush(before, last, s2, k2);
      PickPush(Pick(before, s1, k1), last, s2, k2);
      PickPush(Pick(before, s2, k2), last, s1, k1);
      hide Pick;
    }
  }

  lemma SidesOfLeaf(items: seq<Item>, lo: Bytes, hi: Option<Bytes>, k: Bytes, at: nat, found: bool)
    requires ItemsOk(items, lo, hi) && Finds(items, k, at, found)
    ensures From(PairsOf(items), k) == PairsOf(items)[at..]
    ensures Below(PairsOf(items), k) == PairsOf(items)[..at]
  {
    hide ItemsOk;
    hide Less;
    var es := PairsOf(items);
    var a, b := es[..at], es[at..];
    Cut(es, at);
    assert AllOn(a, Under, k) && AllOn(b, Onward, k);
    SidesExclude(a, k);
    SidesExclude(b, k);
    SplitsPick(a, b, k);
  }

  lemma SplitsPick(a: seq<Pair>, b: seq<Pair>, k: Bytes)
    requires AllOn(a, Under, k) && NoneOn(a, Onward, k) && AllOn(b, Onward, k) && NoneOn(b, Under, k)
    ensures From(a + b, k) == b && Below(a + b, k) == a
  {
    hide Pick;
    hide AllOn;
    hide NoneOn;
    PickConcat(a, b, Onward, k);
    PickConcat(a, b, Under, k);
    PickAll(a, Onward, k);
    PickAll(b, Onward, k);
    PickAll(a, Under, k);
    PickAll(b, Under, k);
  }

  lemma SidesOfKids(t: Tree, h: nat, lo: Bytes, hi: Option<Bytes>, k: Bytes, at: nat)
    requires t.BranchAt? && at < |t.kids| && |t.kids| == |t.keys| + 1 && Ordered(BranchAt(1, t.keys, t.kids), h, lo, hi)
    requires Inside(k, LowerOf(t.keys, at, lo), UpperOf(t.keys, at, hi))
    ensures From(KidsEntries(t.kids), k) == From(Entries(t.kids[at]), k) + KidsEntries(t.kids[at + 1..])
    ensures Below(KidsEntries(t.kids), k) == KidsEntries(t.kids[..at]) + Below(Entries(t.kids[at]), k)
  {
    hide Less;
    hide Pick;
    hide KidsEntries;
    hide Entries;
    KidsApart(t.keys, t.kids, h, lo, hi, at, k);
    hide Ordered;
    KidsEntriesAt(t.kids, at);
    var a, m, b := KidsEntries(t.kids[..at]), Entries(t.kids[at]), KidsEntries(t.kids[at + 1..]);
    SidesExclude(a, k);
    SidesExclude(b, k);
    hide AllOn;
    hide NoneOn;
    PickConcat(a + m, b, Onward, k);
    PickConcat(a, m, Onward, k);
    PickConcat(a + m, b, Under, k);
    PickConcat(a, m, Under, k);
    PickAll(a, Onward, k);
    PickAll(b, Onward, k);
    PickAll(a, Under, k);
    PickAll(b, Under, k);
  }

  lemma VisitNext(seen: seq<Pair>, es: seq<Pair>, i: nat, more: seq<Pair> -> bool)
    requires i < |es|
    ensures Visit(seen, es[i..], more) ==
      (if more(seen + [es[i]]) then Visit(seen + [es[i]], es[i + 1..], more) else (seen + [es[i]], false))
  {
    assert es[i..][1..] == es[i + 1..];
  }

  lemma VisitNone(seen: seq<Pair>, more: seq<Pair> -> bool)
    ensures Visit(seen, [], more) == (seen, true)
  {
  }

  /** What is left of an upward walk of a branch before child `i`, when it started at child `start`. */
  ghost function LeftUp(kids: seq<Tree>, start: nat, from: Option<Bytes>, i: nat): seq<Pair>
    requires start < |kids| && start <= i <= |kids|
  {
    if i == start then Upward(Entries(kids[start]), from) + KidsEntries(kids[start + 1..]) else KidsEntries(kids[i..])
  }

  lemma LeftUpStep(kids: seq<Tree>, start: nat, from: Option<Bytes>, i: nat)
    requires start <= i < |kids|
    ensures LeftUp(kids, start, from, i) == Upward(Entries(kids[i]), if i > start then None else from) + LeftUp(kids, start, from, i + 1)
    ensures LeftUp(kids, start, from, |kids|) == []
  {
    hide Entries;
    hide From;
    assert kids[|kids|..] == [];
    if i > start {
      var rest := kids[i..];
      KidsEntriesAt(rest, 0);
      assert rest[..0] == [] && rest[0] == kids[i] && rest[1..] == kids[i + 1..];
      assert KidsEntries([]) == [];
      hide KidsEntries;
      assert [] + Entries(kids[i]) == Entries(kids[i]);
    }
  }

  lemma KidsFirst(kids: seq<Tree>)
    requires kids != []
    ensures KidsEntries(kids) == Entries(kids[0]) + KidsEntries(kids[1..])
  {
    KidsEntriesAt(kids, 0);
    assert kids[..0] == [];
    assert KidsEntries([]) == [];
    hide KidsEntries;
    hide Entries;
    assert [] + Entries(kids[0]) == Entries(kids[0]);
  }

  lemma UpBegins(t: Tree, h: nat, lo: Bytes, hi: Option<Bytes>, from: Option<Bytes>, start: nat)
    requires t.BranchAt? && |t.kids| == |t.keys| + 1 && start < |t.kids| && Ordered(BranchAt(1, t.keys, t.kids), h, lo, hi)
    requires if from.None? then start == 0 else Inside(from.value, LowerOf(t.keys, start, lo), UpperOf(t.keys, start, hi))
    ensures Upward(Entries(t), from) == LeftUp(t.kids, start, from, start)
  {
    assert Entries(t) == KidsEntries(t.kids);
    hide Entries;
    hide KidsEntries;
    hide Less;
    hide Ordered;
    hide From;
    hide Inside;
    if from.Some? {
      SidesOfKids(t, h, lo, hi, from.value, start);
    } else {
      KidsFirst(t.kids);
    }
  }

  /** ascend: every entry at or above `from`, in order, until the visitor stops. */
  method AscendAt(pages: Pager, id: PageId, from: Option<Bytes>, more: seq<Pair> -> bool, before: seq<Pair>,
                  ghost t: Tree, ghost h: nat, ghost lo: Bytes, ghost hi: Option<Bytes>)
    returns (out: Outcome, seen: seq<Pair>, go: bool)
    requires id == t.id && Ordered(t, h, lo, hi) && Shaped(t) && Legible(pages.Pages(), t, pages.meta.pageCount)
    requires from.Some? ==> Inside(from.value, lo, hi)
    ensures out.Done? && (seen, go) == Visit(before, Upward(Entries(t), from), more)
    decreases t
  {
    hide SortedKeys;
    hide Routes;
    hide PagesIn;
    hide Legible;
    hide Entries;
    hide Ordered;
    hide OrderedKids;
    hide Full;
    hide Shaped;
    hide Less;
    hide ItemOk;
    hide ItemsOk;
    hide Finds;
    hide Chain;
    hide Visit;
    hide From;
    hide LeftUp;
    hide Inside;
    LegibleRoot(pages.Pages(), t, pages.meta.pageCount);
    var page := pages.Read(id);
    seen, go := before, true;
    match page.value {
      case Leaf(entries) =>
        LeafFacts(t, h, lo, hi);
        LeafEntries(t);
        var at := 0;
        if from.Some? {
          var found;
          at, found := FindKey(entries, from.value);
          FindsItem(t.items, lo, hi, from.value, at, found);
          SidesOfLeaf(t.items, lo, hi, from.value, at, found);
        }
        ghost var es := PairsOf(t.items);
        assert es[0..] == es && es[|es|..] == [];
        VisitFrom(before, es, at, from, more);
        var i := at;
        while i < |entries|
          invariant at <= i <= |entries|
          invariant Visit(before, Upward(Entries(t), from), more) == Visit(seen, es[i..], more)
        {
          ItemAt(t.items, lo, hi, i);
          LegibleItem(pages.Pages(), t, pages.meta.pageCount, i);
          var value;
          out, value := LoadValue(pages, entries[i], t.items[i]);
          VisitNext(seen, es, i, more);
          seen := seen + [Pair(entries[i].key, value)];
          if !more(seen) {
            return Done, seen, false;
          }
          i := i + 1;
        }
        VisitNone(seen, more);
        return Done, seen, true;
      case Branch(keys, children) =>
        BranchFacts(t, h, lo, hi);
        var start := 0;
        if from.Some? {
          start := ChildFor(keys, from.value);
          RouteInside(keys, lo, hi, from.value, start);
        }
        UpBegins(t, h, lo, hi, from, start);
        LeftUpStep(t.kids, start, from, start);
        var i := start;
        while i < |children|
          invariant start <= i <= |children|
          invariant Visit(before, Upward(Entries(t), from), more) == Visit(seen, LeftUp(t.kids, start, from, i), more)
        {
          var cursor := if i > start then None else from;
          LegibleKid(pages.Pages(), t, pages.meta.pageCount, i);
          FullIsShaped(t.kids[i]);
          LeftUpStep(t.kids, start, from, i);
          VisitConcat(seen, Upward(Entries(t.kids[i]), cursor), LeftUp(t.kids, start, from, i + 1), more);
          out, seen, go := AscendAt(pages, children[i], cursor, more, seen, t.kids[i], h - 1, LowerOf(keys, i, lo), UpperOf(keys, i, hi));
          if !go {
            return Done, seen, false;
          }
          i := i + 1;
        }
        VisitNone(seen, more);
        return Done, seen, true;
      case _ =>
        assert false;
    }
  }

  lemma VisitFrom(seen: seq<Pair>, es: seq<Pair>, at: nat, from: Option<Bytes>, more: seq<Pair> -> bool)
    requires at <= |es| && (if from.None? then at == 0 else From(es, from.value) == es[at..])
    ensures Visit(seen, Upward(es, from), more) == Visit(seen, es[at..], more)
  {
    hide Visit;
    hide From;
    assert es[0..] == es;
  }

  // ---- downward ----

  ghost function LeftDown(kids: seq<Tree>, start: nat, from: Option<Bytes>, i: int): seq<Pair>
    requires start < |kids| && -1 <= i <= start
  {
    if i == start then Downward(Entries(kids[start]), from) + Reversed(KidsEntries(kids[..start])) else Reversed(KidsEntries(kids[..i + 1]))
  }

  lemma LeftDownStep(kids: seq<Tree>, start: nat, from: Option<Bytes>, i: nat)
    requires i <= start < |kids|
    ensures LeftDown(kids, start, from, i) == Downward(Entries(kids[i]), if i < start then None else from) + LeftDown(kids, start, from, i - 1)
    ensures LeftDown(kids, start, from, -1) == []
  {
    hide Entries;
    hide Below;
    assert kids[..0] == [];
    assert KidsEntries(kids[..0]) == [] && Reversed([]) == [];
    if i < start {
      assert kids[..i + 1] == kids[..i] + [kids[i]];
      KidsEntriesPush(kids[..i], kids[i]);
      ReversedConcat(KidsEntries(kids[..i]), Entries(kids[i]));
    }
    hide KidsEntries;
    hide Reversed;
  }

  lemma DownBegins(t: Tree, h: nat, lo: Bytes, hi: Option<Bytes>, from: Option<Bytes>, start: nat)
    requires t.BranchAt? && |t.kids| == |t.keys| + 1 && start < |t.kids| && Ordered(BranchAt(1, t.keys, t.kids), h, lo, hi)
    requires if from.None? then start == |t.keys| else Inside(from.value, LowerOf(t.keys, start, lo), UpperOf(t.keys, start, hi))
    ensures Downward(Entries(t), from) == LeftDown(t.kids, start, from, start)
  {
    hide Less;
    hide Below;
    assert Entries(t) == KidsEntries(t.kids);
    if from.Some? {
      SidesOfKids(t, h, lo, hi, from.value, start);
      ReversedConcat(KidsEntries(t.kids[..start]), Below(Entries(t.kids[start]), from.value));
    } else {
      KidsEntriesAt(t.kids, start);
      assert t.kids[start + 1..] == [];
      assert KidsEntries([]) == [];
      ReversedConcat(KidsEntries(t.kids[..start]), Entries(t.kids[start]));
      hide KidsEntries;
      hide Entries;
      assert KidsEntries(t.kids) == KidsEntries(t.kids[..start]) + Entries(t.kids[start]);
    }
  }

  lemma VisitPrevious(seen: seq<Pair>, es: seq<Pair>, i: nat, more: seq<Pair> -> bool)
    requires i < |es|
    ensures Visit(seen, Reversed(es[..i + 1]), more) ==
      (if more(seen + [es[i]]) then Visit(seen + [es[i]], Reversed(es[..i]), more) else (seen + [es[i]], false))
  {
    assert es[..i + 1] == es[..i] + [es[i]];
    ReversedPush(es[..i], es[i]);
    hide Reversed;
    var all, rest := Reversed(es[..i + 1]), Reversed(es[..i]);
    assert all == [es[i]] + rest;
    assert all[0] == es[i] && all[1..] == rest;
  }

  lemma VisitBelow(seen: seq<Pair>, es: seq<Pair>, end: nat, from: Option<Bytes>, more: seq<Pair> -> bool)
    requires end <= |es| && (if from.None? then end == |es| else Below(es, from.value) == es[..end])
    ensures Visit(seen, Downward(es, from), more) == Visit(seen, Reversed(es[..end]), more)
  {
    hide Visit;
    hide Below;
    hide Reversed;
    assert es[..|es|] == es;
  }

  /** descend: every entry strictly below `from`, in reverse order, until the visitor stops. */
  method DescendAt(pages: Pager, id: PageId, from: Option<Bytes>, more: seq<Pair> -> bool, before: seq<Pair>,
                   ghost t: Tree, ghost h: nat, ghost lo: Bytes, ghost hi: Option<Bytes>)
    returns (out: Outcome, seen: seq<Pair>, go: bool)
    requires id == t.id && Ordered(t, h, lo, hi) && Shaped(t) && Legible(pages.Pages(), t, pages.meta.pageCount)
    requires from.Some? ==> Inside(from.value, lo, hi)
    ensures out.Done? && (seen, go) == Visit(before, Downward(Entries(t), from), more)
    decreases t
  {
    hide PagesIn;
    hide Legible;
    hide Entries;
    hide Ordered;
    hide OrderedKids;
    hide Full;
    hide Shaped;
    hide Less;
    hide ItemOk;
    hide ItemsOk;
    hide Finds;
    hide Chain;
    hide Visit;
    hide Below;
    hide Reversed;
    hide LeftDown;
    hide Inside;
    LegibleRoot(pages.Pages(), t, pages.meta.pageCount);
    var page := pages.Read(id);
    seen, go := before, true;
    match page.value {
      case Leaf(entries) =>
        LeafFacts(t, h, lo, hi);
        LeafEntries(t);
        var end := |entries|;
        if from.Some? {
          var found;
          end, found := FindKey(entries, from.value);
          FindsItem(t.items, lo, hi, from.value, end, found);
          SidesOfLeaf(t.items, lo, hi, from.value, end, found);
        }
        ghost var es := PairsOf(t.items);
        VisitBelow(before, es, end, from, more);
        var i := end - 1;
        while i >= 0
          invariant -1 <= i < end
          invariant Visit(before, Downward(Entries(t), from), more) == Visit(seen, Reversed(es[..i + 1]), more)
        {
          ItemAt(t.items, lo, hi, i);
          LegibleItem(pages.Pages(), t, pages.meta.pageCount, i);
          var value;
          out, value := LoadValue(pages, entries[i], t.items[i]);
          VisitPrevious(seen, es, i, more);
          seen := seen + [Pair(entries[i].key, value)];
          if !more(seen) {
            return Done, seen, false;
          }
          i := i - 1;
        }
        assert es[..0] == [];
        NoneReversed(seen, more);
        return Done, seen, true;
      case Branch(keys, children) =>
        BranchFacts(t, h, lo, hi);
        var start := |children| - 1;
        if from.Some? {
          start := ChildFor(keys, from.value);
          RouteInside(keys, lo, hi, from.value, start);
        }
        DownBegins(t, h, lo, hi, from, start);
        LeftDownStep(t.kids, start, from, start);
        var i := start;
        while i >= 0
          invariant -1 <= i <= start
          invariant Visit(before, Downward(Entries(t), from), more) == Visit(seen, LeftDown(t.kids, start, from, i), more)
        {
          var cursor := if i < start then None else from;
          LegibleKid(pages.Pages(), t, pages.meta.pageCount, i);
          FullIsShaped(t.kids[i]);
          LeftDownStep(t.kids, start, from, i);
          VisitConcat(seen, Downward(Entries(t.kids[i]), cursor), LeftDown(t.kids, start, from, i - 1), more);
          out, seen, go := DescendAt(pages, children[i], cursor, more, seen, t.kids[i], h - 1, LowerOf(keys, i, lo), UpperOf(keys, i, hi));
          if !go {
            return Done, seen, false;
          }
          i := i - 1;
        }
        VisitNone(seen, more);
        return Done, seen, true;
      case _ =>
        assert false;
    }
  }

  lemma NoneReversed(seen: seq<Pair>, more: seq<Pair> -> bool)
    ensures Visit(seen, Reversed([]), more) == (seen, true)
  {
  }
}
