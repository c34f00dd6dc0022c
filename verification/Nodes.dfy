/**
 Tree nodes as pages count them: how many bytes entries take, and where a node
 that overflows is cut.
 */
module Nodes {
  import opened Bytes
  import opened PageFile

  /** 4096-byte pages with a 48-byte header. */
  const CAPACITY: int := 4096 - 48
  const LEAF_HEADER: int := 2
  const BRANCH_HEADER: int := 2 + 8
  const MAX_KEY: int := 512
  /** Two entries of the largest size share a page. */
  const MAX_INLINE: int := CAPACITY / 2 - (2 + 4) - 2 - MAX_KEY
  const MAX_VALUE: int := 16 * 1024 * 1024
  const UNDERFULL: int := CAPACITY / 4

  /** What an entry takes up in a leaf: its slot, its lengths, its key, and its value or the head of its chain. */
  function Cost(e: Stored): int {
    2 + 6 + |e.key| + (if e.Inline? then |e.value| else 8)
  }

  /** An entry the tree would make: the longest key and the longest inline value cost half a page. */
  predicate Legal(e: Stored) {
    1 <= |e.key| <= MAX_KEY && (e.Inline? ==> |e.value| <= MAX_INLINE)
  }

  function Total(es: seq<Stored>): int {
    if es == [] then 0 else Total(es[..|es| - 1]) + Cost(es[|es| - 1])
  }

  function LeafBytes(es: seq<Stored>): int { LEAF_HEADER + Total(es) }

  function KeyCost(key: Bytes): int { 2 + 10 + |key| }

  function KeyTotal(keys: seq<Bytes>): int {
    if keys == [] then 0 else KeyTotal(keys[..|keys| - 1]) + KeyCost(keys[|keys| - 1])
  }

  function BranchBytes(keys: seq<Bytes>): int { BRANCH_HEADER + KeyTotal(keys) }

  lemma {:induction false} TotalConcat(a: seq<Stored>, b: seq<Stored>)
    ensures Total(a + b) == Total(a) + Total(b)
  {
    if b == [] {
      assert a + b == a;
    } else {
      TotalConcat(a, b[..|b| - 1]);
      assert (a + b)[..|a + b| - 1] == a + b[..|b| - 1];
    }
  }

  lemma {:induction false} KeyTotalConcat(a: seq<Bytes>, b: seq<Bytes>)
    ensures KeyTotal(a + b) == KeyTotal(a) + KeyTotal(b)
  {
    if b == [] {
      assert a + b == a;
    } else {
      KeyTotalConcat(a, b[..|b| - 1]);
      assert (a + b)[..|a + b| - 1] == a + b[..|b| - 1];
    }
  }

  lemma {:induction false} TotalGrows(es: seq<Stored>)
    ensures Total(es) >= 8 * |es|
  {
    if es != [] { TotalGrows(es[..|es| - 1]); }
  }

  lemma {:induction false} KeyTotalGrows(keys: seq<Bytes>)
    ensures KeyTotal(keys) >= 12 * |keys|
  {
    if keys != [] { KeyTotalGrows(keys[..|keys| - 1]); }
  }

  lemma TotalCut(es: seq<Stored>, cut: nat)
    requires cut <= |es|
    ensures Total(es) == Total(es[..cut]) + Total(es[cut..])
  {
    hide Total;
    TotalConcat(es[..cut], es[cut..]);
    assert es == es[..cut] + es[cut..];
  }

  lemma KeyTotalPush(keys: seq<Bytes>, i: nat)
    requires i < |keys|
    ensures KeyTotal(keys[..i + 1]) == KeyTotal(keys[..i]) + KeyCost(keys[i])
  {
    assert keys[..i + 1][..i] == keys[..i];
  }

  lemma KeyTotalCut(keys: seq<Bytes>, cut: nat)
    requires cut < |keys|
    ensures KeyTotal(keys) == KeyTotal(keys[..cut]) + KeyCost(keys[cut]) + KeyTotal(keys[cut + 1..])
    ensures KeyTotal(keys[..cut + 1]) == KeyTotal(keys[..cut]) + KeyCost(keys[cut])
  {
    hide KeyTotal;
    KeyTotalConcat(keys[..cut + 1], keys[cut + 1..]);
    assert keys == keys[..cut + 1] + keys[cut + 1..];
    KeyTotalPush(keys, cut);
  }

  // ---- where a leaf is cut ----

  ghost predicate LeafFitsAt(es: seq<Stored>, cut: int) {
    && 1 <= cut < |es|
    && LeafBytes(es[..cut]) <= CAPACITY && LeafBytes(es[cut..]) <= CAPACITY
  }

  ghost function LeafSkew(es: seq<Stored>, cut: int): int
    requires 0 <= cut <= |es|
  {
    var d := LeafBytes(es[..cut]) - LeafBytes(es[cut..]);
    if d < 0 then -d else d
  }

  /** The first of the cuts that fit and are as even as the entry sizes allow. */
  ghost predicate BestLeafCut(es: seq<Stored>, cut: int) {
    && LeafFitsAt(es, cut)
    && (forall c | LeafFitsAt(es, c) :: LeafSkew(es, cut) <= LeafSkew(es, c))
    && (forall c | LeafFitsAt(es, c) && c < cut :: LeafSkew(es, cut) < LeafSkew(es, c))
  }

  lemma BestLeafCutOnce(es: seq<Stored>, a: int, b: int)
    requires BestLeafCut(es, a) && BestLeafCut(es, b)
    ensures a == b
  {
    hide LeafFitsAt;
    hide LeafSkew;
  }

  /** splitLeaf: finds the first of the most even cuts that fit, if and only if there is one that fits. */
  method SplitLeaf(entries: seq<Stored>) returns (cut: int, ok: bool)
    ensures ok <==> exists c :: LeafFitsAt(entries, c)
    ensures ok ==> BestLeafCut(entries, cut)
    ensures !ok ==> cut == 0
  {
    hide Total;
    var n := |entries|;
    var prefix := new int[n + 1];
    prefix[0] := 0;
    var i := 0;
    assert Total(entries[..0]) == 0 by { TotalEmpty(); assert entries[..0] == []; }
    while i < n
      invariant 0 <= i <= n
      invariant forall j | 0 <= j <= i :: prefix[j] == Total(entries[..j])
    {
      TotalPush(entries, i);
      prefix[i + 1] := prefix[i] + 2 + 6 + |entries[i].key| + (if entries[i].Inline? then |entries[i].value| else 8);
      i := i + 1;
    }
    assert entries[..n] == entries;

    var best, bestSkew := 0, 0;
    cut := 1;
    while cut < n
      invariant 1 <= cut && (n >= 1 ==> cut <= n)
      invariant forall j | 0 <= j <= n :: prefix[j] == Total(entries[..j])
      invariant best == 0 ==> forall c | LeafFitsAt(entries, c) :: c >= cut
      invariant best != 0 ==> best < cut && LeafFitsAt(entries, best) && bestSkew == LeafSkew(entries, best)
      invariant best != 0 ==> forall c | LeafFitsAt(entries, c) && c < cut :: bestSkew <= LeafSkew(entries, c)
      invariant best != 0 ==> forall c | LeafFitsAt(entries, c) && c < best :: bestSkew < LeafSkew(entries, c)
    {
      TotalCut(entries, cut);
      var left := LEAF_HEADER + prefix[cut];
      var right := LEAF_HEADER + prefix[n] - prefix[cut];
      assert left == LeafBytes(entries[..cut]) && right == LeafBytes(entries[cut..]);
      if left <= CAPACITY && right <= CAPACITY {
        var skew := left - right;
        if skew < 0 {
          skew := -skew;
        }
        if best == 0 || skew < bestSkew {
          best, bestSkew := cut, skew;
        }
      }
      cut := cut + 1;
    }
    return best, best != 0;
  }

  lemma TotalEmpty()
    ensures Total([]) == 0
  {
  }

  lemma TotalPush(es: seq<Stored>, i: nat)
    requires i < |es|
    ensures Total(es[..i + 1]) == Total(es[..i]) + Cost(es[i])
  {
    assert es[..i + 1][..i] == es[..i];
  }

  /** The one shape splitLeaf cannot cut: the largest entry, between two halves of an exactly full leaf. */
  ghost predicate Wedged(es: seq<Stored>, at: int) {
    && 0 <= at < |es|
    && Total(es[..at]) == CAPACITY / 2 - 1 && Cost(es[at]) == CAPACITY / 2 && Total(es[at + 1..]) == CAPACITY / 2 - 1
  }

  /** The last place where what is to the right still does not fit a page. */
  lemma Straddle(es: seq<Stored>) returns (k: nat)
    requires LeafBytes(es) > CAPACITY && forall e | e in es :: Cost(e) <= CAPACITY / 2
    ensures k + 1 < |es|
    ensures Total(es) - Total(es[..k]) > CAPACITY - LEAF_HEADER
    ensures Total(es) - Total(es[..k + 1]) <= CAPACITY - LEAF_HEADER
    ensures Total(es[..k + 1]) == Total(es[..k]) + Cost(es[k]) && Cost(es[k]) <= CAPACITY / 2
  {
    hide Total;
    k := 0;
    assert es[..0] == [] && es[..|es|] == es;
    TotalEmpty();
    assert |es| > 0;
    TotalPush(es, 0);
    while Total(es) - Total(es[..k + 1]) > CAPACITY - LEAF_HEADER
      invariant k < |es|
      invariant Total(es) - Total(es[..k]) > CAPACITY - LEAF_HEADER
      invariant Total(es[..k + 1]) == Total(es[..k]) + Cost(es[k])
      decreases |es| - k
    {
      k := k + 1;
      assert k != |es|;
      TotalPush(es, k);
    }
    assert es[k] in es;
    assert k + 1 != |es|;
  }

  /**
   When a leaf made by adding or replacing one legal entry overflows, splitLeaf
   finds a cut unless the new entry is wedged, and then there is none.
   */
  lemma LeafSplits(before: seq<Stored>, after: seq<Stored>, at: nat, e: Stored)
    requires LeafBytes(before) <= CAPACITY && LeafBytes(after) > CAPACITY
    requires Legal(e) && forall x | x in before :: Legal(x)
    requires at <= |before|
    requires after == before[..at] + [e] + before[at..]
          || (at < |before| && after == before[..at] + [e] + before[at + 1..])
    ensures (exists c :: LeafFitsAt(after, c)) <==> !Wedged(after, at)
  {
    hide Total;
    TotalAround(before, after, at, e);
    forall x | x in after ensures Cost(x) <= CAPACITY / 2 { assert x == e || x in before; }
    var k := Straddle(after);
    TotalCut(after, k + 1);
    if Total(after[..k + 1]) <= CAPACITY - LEAF_HEADER {
      assert LeafFitsAt(after, k + 1);
      if Wedged(after, at) { WedgedFitsNowhere(after, at, k + 1); }
    } else {
      // The straddling entry is worth more than 2023 bytes, so it is the new one.
      TotalCut(after, k);
      if k < at {
        TotalWithin(after, k + 1, at);
      } else if k > at {
        TotalWithin(after, 0, at);
      }
      assert k == at;
      TotalCut(after[k..], 1);
      assert Wedged(after, at);
      forall c | LeafFitsAt(after, c) ensures false { WedgedFitsNowhere(after, at, c); }
    }
  }

  /** What adding or replacing one entry does to the total. */
  lemma TotalAround(before: seq<Stored>, after: seq<Stored>, at: nat, e: Stored)
    requires at <= |before|
    requires after == before[..at] + [e] + before[at..]
          || (at < |before| && after == before[..at] + [e] + before[at + 1..])
    ensures at < |after| && after[at] == e
    ensures Total(after) <= Total(before) + Cost(e)
    ensures after != before[..at] + [e] + before[at..] ==> Total(after) <= Total(before) + Cost(e) - 8
  {
    hide Total;
    TotalCut(before, at);
    TotalOne(e);
    TotalConcat(before[..at], [e]);
    TotalConcat(before[..at] + [e], before[at..]);
    if after != before[..at] + [e] + before[at..] {
      TotalConcat(before[..at] + [e], before[at + 1..]);
      TotalCut(before[at..], 1);
      assert before[at..][..1] == [before[at]] && before[at..][1..] == before[at + 1..];
      TotalOne(before[at]);
    }
  }

  lemma TotalOne(e: Stored)
    ensures Total([e]) == Cost(e)
  {
    assert [e][..0] == [];
  }

  /** The entries between two places count for no more than what is left of the second or right of the first. */
  lemma TotalWithin(es: seq<Stored>, from: nat, at: nat)
    requires from <= at < |es|
    ensures Total(es[from..]) >= Cost(es[at])
    ensures Total(es[..at + 1]) >= Cost(es[at])
    ensures forall k | at < k <= |es| :: Total(es[..k]) >= Cost(es[at])
  {
    hide Total;
    TotalCut(es[from..], at - from);
    assert es[from..][at - from..] == es[at..];
    TotalGrows(es[from..][..at - from]);
    TotalCut(es[at..], 1);
    assert es[at..][..1] == [es[at]];
    TotalOne(es[at]);
    TotalGrows(es[at..][1..]);
    forall k | at < k <= |es| ensures Total(es[..k]) >= Cost(es[at]) {
      TotalCut(es[..k], at + 1);
      assert es[..k][..at + 1] == es[..at + 1];
      TotalGrows(es[..k][at + 1..]);
      TotalPush(es, at);
      TotalGrows(es[..at]);
    }
  }

  lemma WedgedFitsNowhere(es: seq<Stored>, at: int, cut: int)
    requires Wedged(es, at) && 1 <= cut < |es|
    ensures !LeafFitsAt(es, cut)
  {
    hide Total;
    TotalPush(es, at);
    if cut <= at {
      TotalCut(es[cut..], at - cut);
      assert es[cut..][at - cut..] == es[at..];
      TotalGrows(es[cut..][..at - cut]);
      TotalCut(es[at..], 1);
      assert es[at..][..1] == [es[at]] && es[at..][1..] == es[at + 1..];
      TotalOne(es[at]);
    } else {
      TotalCut(es[..cut], at + 1);
      assert es[..cut][..at + 1] == es[..at + 1];
      TotalGrows(es[..cut][at + 1..]);
    }
  }

  /** Where the left half would be underfull, one more entry on the left still fits and is more even. */
  lemma LeafRoomLeft(es: seq<Stored>, cut: int)
    requires LeafBytes(es) > CAPACITY && (forall e | e in es :: Cost(e) <= CAPACITY / 2) && LeafFitsAt(es, cut)
    requires LeafBytes(es[..cut]) < UNDERFULL
    ensures LeafFitsAt(es, cut + 1) && LeafSkew(es, cut + 1) < LeafSkew(es, cut)
  {
    hide Total;
    TotalCut(es, cut);
    TotalPush(es, cut);
    assert es[cut] in es && es[..|es|] == es;
    TotalCut(es, cut + 1);
  }

  lemma LeafRoomRight(es: seq<Stored>, cut: int)
    requires LeafBytes(es) > CAPACITY && (forall e | e in es :: Cost(e) <= CAPACITY / 2) && LeafFitsAt(es, cut)
    requires LeafBytes(es[cut..]) < UNDERFULL
    ensures LeafFitsAt(es, cut - 1) && LeafSkew(es, cut - 1) < LeafSkew(es, cut)
  {
    hide Total;
    TotalCut(es, cut);
    TotalPush(es, cut - 1);
    assert es[cut - 1] in es && es[..0] == [];
    TotalEmpty();
    TotalCut(es, cut - 1);
  }

  /** The halves of a split leaf are not underfull. */
  lemma LeafHalvesAreFull(es: seq<Stored>, cut: int)
    requires LeafBytes(es) > CAPACITY && (forall e | e in es :: Cost(e) <= CAPACITY / 2) && BestLeafCut(es, cut)
    ensures LeafBytes(es[..cut]) >= UNDERFULL && LeafBytes(es[cut..]) >= UNDERFULL
  {
    hide Total;
    if LeafBytes(es[..cut]) < UNDERFULL {
      LeafRoomLeft(es, cut);
    }
    if LeafBytes(es[cut..]) < UNDERFULL {
      LeafRoomRight(es, cut);
    }
  }

  // ---- where a branch is cut: the key at the cut goes up ----

  ghost predicate BranchFitsAt(keys: seq<Bytes>, cut: int) {
    && 0 <= cut < |keys|
    && BranchBytes(keys[..cut]) <= CAPACITY && BranchBytes(keys[cut + 1..]) <= CAPACITY
  }

  ghost function BranchSkew(keys: seq<Bytes>, cut: int): int
    requires 0 <= cut < |keys|
  {
    var d := BranchBytes(keys[..cut]) - BranchBytes(keys[cut + 1..]);
    if d < 0 then -d else d
  }

  ghost predicate BestBranchCut(keys: seq<Bytes>, cut: int) {
    && BranchFitsAt(keys, cut)
    && (forall c | BranchFitsAt(keys, c) :: BranchSkew(keys, cut) <= BranchSkew(keys, c))
    && (forall c | BranchFitsAt(keys, c) && c < cut :: BranchSkew(keys, cut) < BranchSkew(keys, c))
  }

  lemma BestBranchCutOnce(keys: seq<Bytes>, a: int, b: int)
    requires BestBranchCut(keys, a) && BestBranchCut(keys, b)
    ensures a == b
  {
    hide BranchFitsAt;
    hide BranchSkew;
  }

  method SplitBranch(keys: seq<Bytes>) returns (cut: int, ok: bool)
    ensures ok <==> exists c :: BranchFitsAt(keys, c)
    ensures ok ==> BestBranchCut(keys, cut)
    ensures !ok ==> cut == -1
  {
    hide KeyTotal;
    var n := |keys|;
    var prefix := new int[n + 1];
    prefix[0] := 0;
    var i := 0;
    assert KeyTotal(keys[..0]) == 0 by { KeyTotalEmpty(); assert keys[..0] == []; }
    while i < n
      invariant 0 <= i <= n
      invariant forall j | 0 <= j <= i :: prefix[j] == KeyTotal(keys[..j])
    {
      KeyTotalPush(keys, i);
      prefix[i + 1] := prefix[i] + 2 + 10 + |keys[i]|;
      i := i + 1;
    }
    assert keys[..n] == keys;

    var best, bestSkew := -1, 0;
    cut := 0;
    while cut < n
      invariant 0 <= cut <= n
      invariant forall j | 0 <= j <= n :: prefix[j] == KeyTotal(keys[..j])
      invariant best == -1 ==> forall c | BranchFitsAt(keys, c) :: c >= cut
      invariant best != -1 ==> 0 <= best < cut && BranchFitsAt(keys, best) && bestSkew == BranchSkew(keys, best)
      invariant best != -1 ==> forall c | BranchFitsAt(keys, c) && c < cut :: bestSkew <= BranchSkew(keys, c)
      invariant best != -1 ==> forall c | BranchFitsAt(keys, c) && c < best :: bestSkew < BranchSkew(keys, c)
    {
      KeyTotalCut(keys, cut);
      var left := BRANCH_HEADER + prefix[cut];
      var right := BRANCH_HEADER + prefix[n] - prefix[cut + 1];
      assert left == BranchBytes(keys[..cut]) && right == BranchBytes(keys[cut + 1..]);
      if left <= CAPACITY && right <= CAPACITY {
        var skew := left - right;
        if skew < 0 {
          skew := -skew;
        }
        if best < 0 || skew < bestSkew {
          best, bestSkew := cut, skew;
        }
      }
      cut := cut + 1;
    }
    return best, best >= 0;
  }

  lemma KeyTotalEmpty()
    ensures KeyTotal([]) == 0
  {
  }

  predicate LegalKey(key: Bytes) { 1 <= |key| <= MAX_KEY }

  /** A branch that overflows, by however much one separator or one merge can make it, has a place to be cut. */
  lemma BranchSplits(keys: seq<Bytes>)
    requires CAPACITY < BranchBytes(keys) <= 2 * CAPACITY - BRANCH_HEADER
    ensures exists c :: BranchFitsAt(keys, c)
  {
    hide KeyTotal;
    var k := 0;
    KeyTotalEmpty();
    assert keys[..0] == [] && keys[..|keys|] == keys;
    KeyTotalCut(keys, 0);
    while BranchBytes(keys[k + 1..]) > CAPACITY
      invariant 0 <= k < |keys|
      invariant BranchBytes(keys[..k]) <= CAPACITY
      decreases |keys| - k
    {
      KeyTotalCut(keys, k);
      assert keys[|keys|..] == [];
      k := k + 1;
    }
    assert BranchFitsAt(keys, k);
  }

  /** Nothing on the left: one key on the left still fits and is more even. */
  lemma BranchRoomLeft(keys: seq<Bytes>)
    requires BranchBytes(keys) > CAPACITY && (forall k | k in keys :: LegalKey(k)) && BranchFitsAt(keys, 0)
    ensures BranchFitsAt(keys, 1) && BranchSkew(keys, 1) < BranchSkew(keys, 0)
  {
    hide KeyTotal;
    KeyTotalEmpty();
    KeyTotalCut(keys, 0);
    assert keys[0] in keys && keys[..0] == [] && keys[|keys|..] == [];
    assert keys[1] in keys;
    KeyTotalCut(keys, 1);
    KeyTotalGrows(keys[2..]);
  }

  lemma BranchRoomRight(keys: seq<Bytes>)
    requires BranchBytes(keys) > CAPACITY && (forall k | k in keys :: LegalKey(k)) && BranchFitsAt(keys, |keys| - 1)
    ensures BranchFitsAt(keys, |keys| - 2) && BranchSkew(keys, |keys| - 2) < BranchSkew(keys, |keys| - 1)
  {
    hide KeyTotal;
    var cut := |keys| - 1;
    KeyTotalEmpty();
    KeyTotalCut(keys, cut);
    assert keys[cut] in keys && keys[..0] == [] && keys[cut + 1..] == [];
    assert keys[cut - 1] in keys;
    KeyTotalCut(keys, cut - 1);
    KeyTotalCut(keys[cut..], 0);
    assert keys[cut..][..0] == [] && keys[cut..][1..] == [];
    KeyTotalGrows(keys[..cut - 1]);
  }

  /** The best cut leaves at least one key on each side, so at least two children. */
  lemma BranchHalvesHaveKeys(keys: seq<Bytes>, cut: int)
    requires BranchBytes(keys) > CAPACITY && (forall k | k in keys :: LegalKey(k)) && BestBranchCut(keys, cut)
    ensures 1 <= cut < |keys| - 1
  {
    hide KeyTotal;
    if cut == 0 {
      BranchRoomLeft(keys);
    } else if cut == |keys| - 1 {
      BranchRoomRight(keys);
    }
  }

  // ---- the one leaf that cannot be cut ----

  function Padded(key: byte, cost: nat): Stored
    requires cost >= 9
  {
    Inline([key], seq(cost - 9, _ => 0))
  }

  /** An exactly full leaf with 2023 bytes of entries on each side of where a key goes. */
  function Brimming(): seq<Stored> { [Padded(1, 1009), Padded(2, 1014), Padded(4, 1009), Padded(5, 1014)] }

  /** The largest entry there is. */
  function Largest(): Stored { Inline([3] + seq(511, _ => 0), seq(MAX_INLINE, _ => 0)) }

  /** ErrCannotSplit does happen: the largest entry, put in the middle of such a leaf. */
  lemma WedgeHappens()
    ensures (forall e | e in Brimming() :: Legal(e)) && Legal(Largest()) && LeafBytes(Brimming()) == CAPACITY
    ensures
      var after := Brimming()[..2] + [Largest()] + Brimming()[2..];
      LeafBytes(after) > CAPACITY && Wedged(after, 2) && !exists c :: LeafFitsAt(after, c)
  {
    var before := Brimming();
    var after := before[..2] + [Largest()] + before[2..];
    assert after == [before[0], before[1], Largest(), before[2], before[3]];
    BrimmingTotals();
    assert after[..2] == before[..2] && after[3..] == before[2..];
    hide Total;
    TotalCut(before, 2);
    TotalPush(after, 2);
    TotalCut(after, 3);
    LeafSplits(before, after, 2, Largest());
  }

  lemma BrimmingTotals()
    ensures Total(Brimming()[..2]) == 2023 && Total(Brimming()[2..]) == 2023
  {
    var es := Brimming();
    assert es[..2] == [es[0]] + [es[1]] && es[2..] == [es[2]] + [es[3]];
    hide Total;
    TotalConcat([es[0]], [es[1]]);
    TotalConcat([es[2]], [es[3]]);
    TotalOne(es[0]);
    TotalOne(es[1]);
    TotalOne(es[2]);
    TotalOne(es[3]);
  }
}
