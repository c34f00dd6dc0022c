/** Sorted runs of key/value pairs: what the tree denotes, stated without any tree. */
module Sorted {
  import opened Bytes

  datatype Pair = Pair(key: Bytes, value: Bytes)

  ghost predicate InOrder(es: seq<Pair>) {
    forall i, j | 0 <= i < j < |es| :: Less(es[i].key, es[j].key)
  }

  /** A stretch of keys relative to `k`: below it, above it, or at it and above. */
  datatype Side = Under | Over | Onward

  predicate Keeps(side: Side, x: Bytes, k: Bytes) {
    match side
    case Under => Less(x, k)
    case Over => Less(k, x)
    case Onward => !Less(x, k)
  }

  /** The pairs of a run on one side of `k`, in their order. */
  function Pick(es: seq<Pair>, side: Side, k: Bytes): seq<Pair> {
    if es == [] then []
    else
      var before, last := es[..|es| - 1], es[|es| - 1];
      if Keeps(side, last.key, k) then Pick(before, side, k) + [last] else Pick(before, side, k)
  }

  function Below(es: seq<Pair>, k: Bytes): seq<Pair> { Pick(es, Under, k) }

  function Above(es: seq<Pair>, k: Bytes): seq<Pair> { Pick(es, Over, k) }

  /** The stretch [k, ...). */
  function From(es: seq<Pair>, k: Bytes): seq<Pair> { Pick(es, Onward, k) }

  function Updated(es: seq<Pair>, k: Bytes, v: Bytes): seq<Pair> { Below(es, k) + [Pair(k, v)] + Above(es, k) }

  function Removed(es: seq<Pair>, k: Bytes): seq<Pair> { Below(es, k) + Above(es, k) }

  function AsMap(es: seq<Pair>): map<Bytes, Bytes> {
    if es == [] then map[] else AsMap(es[..|es| - 1])[es[|es| - 1].key := es[|es| - 1].value]
  }

  lemma PickPush(es: seq<Pair>, p: Pair, side: Side, k: Bytes)
    ensures Pick(es + [p], side, k) == Pick(es, side, k) + (if Keeps(side, p.key, k) then [p] else [])
  {
    hide Less;
    assert (es + [p])[..|es|] == es;
  }

  lemma {:induction false} PickConcat(a: seq<Pair>, b: seq<Pair>, side: Side, k: Bytes)
    ensures Pick(a + b, side, k) == Pick(a, side, k) + Pick(b, side, k)
  {
    hide Less;
    if b == [] {
      assert a + b == a;
    } else {
      var before, last := b[..|b| - 1], b[|b| - 1];
      PickConcat(a, before, side, k);
      PickPush(a + before, last, side, k);
      PickPush(before, last, side, k);
      hide Pick;
      assert b == before + [last] && a + b == (a + before) + [last];
    }
  }

  ghost predicate AllOn(es: seq<Pair>, side: Side, k: Bytes) { forall p | p in es :: Keeps(side, p.key, k) }

  ghost predicate NoneOn(es: seq<Pair>, side: Side, k: Bytes) { forall p | p in es :: !Keeps(side, p.key, k) }

  lemma {:induction false} PickAll(es: seq<Pair>, side: Side, k: Bytes)
    ensures AllOn(es, side, k) ==> Pick(es, side, k) == es
    ensures NoneOn(es, side, k) ==> Pick(es, side, k) == []
  {
    hide Keeps;
    if es != [] {
      var before, last := es[..|es| - 1], es[|es| - 1];
      PickAll(before, side, k);
      PickPush(before, last, side, k);
      hide Pick;
      assert es == before + [last] && last in es;
      assert forall p | p in before :: p in es;
    }
  }

  lemma Asymmetric(a: Bytes, b: Bytes)
    requires Less(a, b)
    ensures !Less(b, a)
  {
    if Less(b, a) {
      Transitive(a, b, a);
      Irreflexive(a);
    }
  }

  /** What is below is not above, nor onward. */
  lemma SidesExclude(es: seq<Pair>, k: Bytes)
    ensures AllOn(es, Under, k) ==> NoneOn(es, Over, k) && NoneOn(es, Onward, k)
    ensures AllOn(es, Over, k) ==> NoneOn(es, Under, k)
    ensures AllOn(es, Onward, k) <==> NoneOn(es, Under, k)
  {
    forall p | p in es && Less(p.key, k) ensures !Less(k, p.key) { Asymmetric(p.key, k); }
    hide Less;
  }

  /** Changing the middle of a run changes the whole run the same way, when nothing on either side is at `k`. */
  lemma PutInside(a: seq<Pair>, m: seq<Pair>, b: seq<Pair>, k: Bytes, v: Bytes)
    requires AllOn(a, Under, k) && AllOn(b, Over, k)
    ensures Updated(a + m + b, k, v) == a + Updated(m, k, v) + b
    ensures Removed(a + m + b, k) == a + Removed(m, k) + b
  {
    hide Pick;
    SidesExclude(a, k);
    SidesExclude(b, k);
    hide AllOn;
    hide NoneOn;
    PickConcat(a + m, b, Under, k);
    PickConcat(a, m, Under, k);
    PickConcat(a + m, b, Over, k);
    PickConcat(a, m, Over, k);
    PickAll(a, Under, k);
    PickAll(a, Over, k);
    PickAll(b, Under, k);
    PickAll(b, Over, k);
    var low, high := Pick(m, Under, k), Pick(m, Over, k);
    assert Pick(a + m + b, Under, k) == a + low;
    assert Pick(a + m + b, Over, k) == high + b;
  }

  lemma NothingAt(k: Bytes)
    ensures Pick([], Under, k) == [] && Pick([], Over, k) == []
  {
  }

  lemma OneAt(p: Pair)
    ensures Pick([p], Under, p.key) == [] && Pick([p], Over, p.key) == []
  {
    Irreflexive(p.key);
    hide Less;
    assert [p] == [] + [p];
    PickPush([], p, Under, p.key);
    PickPush([], p, Over, p.key);
  }

  /** Where the key is not there: the pair goes where the run splits. */
  lemma PutNew(es: seq<Pair>, at: nat, k: Bytes, v: Bytes)
    requires at <= |es| && AllOn(es[..at], Under, k) && AllOn(es[at..], Over, k)
    ensures Updated(es, k, v) == es[..at] + [Pair(k, v)] + es[at..] && Removed(es, k) == es
  {
    hide AllOn;
    hide Pick;
    NothingAt(k);
    assert es == es[..at] + [] + es[at..];
    PutInside(es[..at], [], es[at..], k, v);
  }

  /** Where it is: the pair takes its place, or leaves it. */
  lemma PutOver(es: seq<Pair>, at: nat, k: Bytes, v: Bytes)
    requires at < |es| && es[at].key == k && AllOn(es[..at], Under, k) && AllOn(es[at + 1..], Over, k)
    ensures Updated(es, k, v) == es[..at] + [Pair(k, v)] + es[at + 1..]
    ensures Removed(es, k) == es[..at] + es[at + 1..]
  {
    hide AllOn;
    hide Pick;
    OneAt(es[at]);
    assert es == es[..at] + [es[at]] + es[at + 1..];
    PutInside(es[..at], [es[at]], es[at + 1..], k, v);
  }

  // ---- runs and maps ----

  lemma AsMapPush(es: seq<Pair>, p: Pair)
    ensures AsMap(es + [p]) == AsMap(es)[p.key := p.value]
  {
    assert (es + [p])[..|es|] == es;
  }

  lemma {:induction false} AsMapConcat(a: seq<Pair>, b: seq<Pair>)
    ensures AsMap(a + b) == AsMap(a) + AsMap(b)
  {
    if b == [] {
      assert a + b == a;
    } else {
      hide AsMap;
      var before, last := b[..|b| - 1], b[|b| - 1];
      AsMapConcat(a, before);
      AsMapPush(a + before, last);
      AsMapPush(before, last);
      assert b == before + [last] && a + b == (a + before) + [last];
      UpdateLast(AsMap(a), AsMap(before), last.key, last.value);
    }
  }

  lemma UpdateLast(m: map<Bytes, Bytes>, n: map<Bytes, Bytes>, k: Bytes, v: Bytes)
    ensures (m + n)[k := v] == m + n[k := v]
  {
  }

  ghost function OnSide(m: map<Bytes, Bytes>, side: Side, k: Bytes): map<Bytes, Bytes> {
    map x | x in m && Keeps(side, x, k) :: m[x]
  }

  lemma {:induction false} AsMapPick(es: seq<Pair>, side: Side, k: Bytes)
    ensures AsMap(Pick(es, side, k)) == OnSide(AsMap(es), side, k)
  {
    hide Keeps;
    if es == [] {
      assert AsMap(Pick(es, side, k)) == map[];
    } else {
      hide Pick;
      hide AsMap;
      var before, last := es[..|es| - 1], es[|es| - 1];
      assert es == before + [last];
      AsMapPick(before, side, k);
      PickPush(before, last, side, k);
      AsMapPush(before, last);
      AsMapPush(Pick(before, side, k), last);
      OnSideUpdate(AsMap(before), side, k, last.key, last.value);
    }
  }

  lemma OnSideUpdate(m: map<Bytes, Bytes>, side: Side, k: Bytes, x: Bytes, v: Bytes)
    ensures OnSide(m[x := v], side, k) == if Keeps(side, x, k) then OnSide(m, side, k)[x := v] else OnSide(m, side, k)
  {
    hide Keeps;
  }

  /** Updated is map update, Removed is map removal, whatever the run. */
  lemma PutIsUpdate(es: seq<Pair>, k: Bytes, v: Bytes)
    ensures AsMap(Updated(es, k, v)) == AsMap(es)[k := v]
    ensures AsMap(Removed(es, k)) == AsMap(es) - {k}
  {
    hide Pick;
    hide AsMap;
    var low, high, m := Pick(es, Under, k), Pick(es, Over, k), AsMap(es);
    AsMapPick(es, Under, k);
    AsMapPick(es, Over, k);
    AsMapPush(low, Pair(k, v));
    AsMapConcat(low + [Pair(k, v)], high);
    AsMapConcat(low, high);
    forall x: Bytes ensures x == k || Less(x, k) || Less(k, x) { Trichotomy(x, k); }
    forall x: Bytes | Less(x, k) ensures !Less(k, x) { Asymmetric(x, k); }
    Irreflexive(k);
    hide Less;
    SidesJoin(m, k, v);
  }

  lemma SidesJoin(m: map<Bytes, Bytes>, k: Bytes, v: Bytes)
    requires forall x: Bytes :: x == k || Less(x, k) || Less(k, x)
    requires forall x: Bytes | Less(x, k) :: !Less(k, x)
    requires !Less(k, k)
    ensures OnSide(m, Under, k)[k := v] + OnSide(m, Over, k) == m[k := v]
    ensures OnSide(m, Under, k) + OnSide(m, Over, k) == m - {k}
  {
    hide Less;
  }

  /** In an ascending run a pair is what its key maps to. */
  lemma {:induction false} AsMapAt(es: seq<Pair>, i: nat)
    requires InOrder(es) && i < |es|
    ensures es[i].key in AsMap(es) && AsMap(es)[es[i].key] == es[i].value
  {
    var before, last := es[..|es| - 1], es[|es| - 1];
    assert es == before + [last];
    AsMapPush(before, last);
    if i < |es| - 1 {
      AsMapAt(before, i);
      Irreflexive(last.key);
      hide Less;
    }
  }

  lemma {:induction false} AsMapKeys(es: seq<Pair>, k: Bytes)
    ensures k in AsMap(es) <==> exists p :: p in es && p.key == k
  {
    if es != [] {
      var before, last := es[..|es| - 1], es[|es| - 1];
      assert es == before + [last];
      AsMapPush(before, last);
      AsMapKeys(before, k);
      hide AsMap;
      if p :| p in before && p.key == k { assert p in es; }
      if last.key == k { assert last in es; }
    }
  }

  lemma {:induction false} PickKeeps(es: seq<Pair>, side: Side, k: Bytes)
    ensures AllOn(Pick(es, side, k), side, k)
  {
    hide Keeps;
    if es != [] {
      var before, last := es[..|es| - 1], es[|es| - 1];
      PickKeeps(before, side, k);
    }
  }

  /** A key that was removed is not there. */
  lemma RemovedLacks(es: seq<Pair>, k: Bytes)
    ensures forall p | p in Removed(es, k) :: p.key != k
  {
    PickKeeps(es, Under, k);
    PickKeeps(es, Over, k);
    Irreflexive(k);
    hide Less;
    hide Pick;
  }
}
