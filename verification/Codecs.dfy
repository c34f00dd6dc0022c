/** Tree nodes as the bytes of a page, laid out so that nothing overlaps, and read back as they were. */
module Codecs {
  import opened Bytes
  import opened Words
  import opened PageFile
  import opened Nodes

  /** 4096-byte pages with a 48-byte header. */
  const ROOM: nat := 4096 - 48
  /** The top bit of a length says that what is in the leaf is not the value but where its chain starts. */
  const OVERFLOW: nat := 0x8000_0000

  predicate Has(p: Bytes, at: nat, b: Bytes) { at + |b| <= |p| && p[at..at + |b|] == b }

  lemma HasAt(p: Bytes, at: nat, b: Bytes)
    ensures Has(p, at, b) <==> at + |b| <= |p| && forall i | 0 <= i < |b| :: p[at + i] == b[i]
  {
    if at + |b| <= |p| && forall i | 0 <= i < |b| :: p[at + i] == b[i] {
      assert forall i | 0 <= i < |b| :: p[at..at + |b|][i] == b[i];
    }
    if Has(p, at, b) {
      forall i | 0 <= i < |b| ensures p[at + i] == b[i] { assert p[at..at + |b|][i] == b[i]; }
    }
  }

  /** Bytes copied over a page. */
  method PutBytes(page: array<byte>, at: nat, b: Bytes)
    requires at + |b| <= page.Length
    modifies page
    ensures Has(page[..], at, b)
    ensures forall i | 0 <= i < page.Length && !(at <= i < at + |b|) :: page[i] == old(page[i])
  {
    var i := 0;
    while i < |b|
      invariant 0 <= i <= |b|
      invariant forall j | 0 <= j < i :: page[at + j] == b[j]
      invariant forall j | 0 <= j < page.Length && !(at <= j < at + |b|) :: page[j] == old(page[j])
    {
      page[at + i] := b[i];
      i := i + 1;
    }
    HasAt(page[..], at, b);
  }

  // ---- the layout ----

  ghost function SizeOf(records: seq<Bytes>): nat {
    if records == [] then 0 else SizeOf(records[..|records| - 1]) + |records[|records| - 1]|
  }

  lemma SizePush(records: seq<Bytes>, i: nat)
    requires i < |records|
    ensures SizeOf(records[..i + 1]) == SizeOf(records[..i]) + |records[i]|
  {
    assert records[..i + 1][..i] == records[..i];
  }

  lemma {:induction false} SizePrefix(records: seq<Bytes>, i: nat)
    requires i <= |records|
    ensures SizeOf(records[..i]) <= SizeOf(records)
    decreases |records|
  {
    if i < |records| {
      SizePrefix(records[..|records| - 1], i);
      assert records[..|records| - 1][..i] == records[..i];
    } else {
      assert records[..i] == records;
    }
  }

  /** Where record `i` starts. */
  ghost function Place(records: seq<Bytes>, i: nat): int
    requires i < |records|
  {
    ROOM - SizeOf(records[..i + 1])
  }

  /** The first `n` records are in their places, each with a slot that says where. */
  ghost predicate Laid(p: Bytes, base: nat, records: seq<Bytes>, n: nat)
    requires n <= |records|
  {
    |p| == ROOM && forall i: nat | i < n :: LaidAt(p, base, records, i)
  }

  ghost predicate LaidAt(p: Bytes, base: nat, records: seq<Bytes>, i: nat)
    requires i < |records|
  {
    Place(records, i) >= 0 && Has(p, base + 2 * i, Word(Place(records, i), 2)) && Has(p, Place(records, i), records[i])
  }

  lemma HasKept(p: Bytes, q: Bytes, at: nat, b: Bytes, lo: int, hi: int)
    requires Has(p, at, b) && |p| == |q| && (forall i | 0 <= i < |p| && !(lo <= i < hi) :: q[i] == p[i])
    requires at + |b| <= lo || hi <= at
    ensures Has(q, at, b)
  {
    HasAt(p, at, b);
    HasAt(q, at, b);
  }

  lemma PlacesFall(records: seq<Bytes>, i: nat, j: nat)
    requires i < j < |records|
    ensures Place(records, j) + |records[j]| <= Place(records, i)
  {
    SizePush(records, j);
    assert records[..j][..i + 1] == records[..i + 1];
    SizePrefix(records[..j], i + 1);
  }

  /** Slots and entries, neither meeting the other: the caller has established that they fit. */
  method Lay(page: array<byte>, base: nat, records: seq<Bytes>)
    requires page.Length == ROOM && base + 2 * |records| + SizeOf(records) <= ROOM
    modifies page
    ensures Laid(page[..], base, records, |records|)
    ensures forall i | 0 <= i < base :: page[i] == old(page[i])
  {
    hide Word;
    hide SizeOf;
    hide LaidAt;
    var heap, i := ROOM, 0;
    assert SizeOf(records[..0]) == 0 by { SizeNone(); assert records[..0] == []; }
    assert records[..|records|] == records;
    while i < |records|
      invariant 0 <= i <= |records| && heap == ROOM - SizeOf(records[..i]) && base + 2 * |records| <= heap <= ROOM
      invariant Laid(page[..], base, records, i)
      invariant forall j | 0 <= j < base :: page[j] == old(page[j])
    {
      SizePush(records, i);
      SizePrefix(records, i + 1);
      heap := heap - |records[i]|;
      PlaceFits(heap);
      ghost var p := page[..];
      PutBytes(page, base + 2 * i, Word(heap, 2));
      ghost var q := page[..];
      PutBytes(page, heap, records[i]);
      LayOne(p, q, page[..], base, records, i);
      i := i + 1;
    }
  }

  lemma SizeNone()
    ensures SizeOf([]) == 0
  {
  }

  lemma PlaceFits(at: nat)
    requires at <= ROOM
    ensures |Word(at, 2)| == 2 && FromWord(Word(at, 2)) == at
  {
    assert Power(2) == 65536;
    WordRoundTrip(at, 2);
  }

  lemma LayOne(p: Bytes, q: Bytes, r: Bytes, base: nat, records: seq<Bytes>, i: nat)
    requires i < |records| && Laid(p, base, records, i) && |q| == |r| == ROOM
    requires var at := Place(records, i);
      && base + 2 * |records| <= at && at + |records[i]| <= ROOM && |Word(at, 2)| == 2
      && (forall j | 0 <= j < ROOM && !(base + 2 * i <= j < base + 2 * i + 2) :: q[j] == p[j]) && Has(q, base + 2 * i, Word(at, 2))
      && (forall j | 0 <= j < ROOM && !(at <= j < at + |records[i]|) :: r[j] == q[j]) && Has(r, at, records[i])
    ensures Laid(r, base, records, i + 1)
  {
    hide Word;
    hide Has;
    hide SizeOf;
    var at := Place(records, i);
    HasKept(q, r, base + 2 * i, Word(at, 2), at, at + |records[i]|);
    forall j: nat | j < i ensures LaidAt(r, base, records, j) {
      assert LaidAt(p, base, records, j);
      PlacesFall(records, j, i);
      PlaceFits(Place(records, j));
      HasKept(p, q, base + 2 * j, Word(Place(records, j), 2), base + 2 * i, base + 2 * i + 2);
      HasKept(q, r, base + 2 * j, Word(Place(records, j), 2), at, at + |records[i]|);
      HasKept(p, q, Place(records, j), records[j], base + 2 * i, base + 2 * i + 2);
      HasKept(q, r, Place(records, j), records[j], at, at + |records[i]|);
    }
    assert LaidAt(r, base, records, i);
  }

  // ---- leaves ----

  function Tail(e: Stored): Bytes { if e.Inline? then e.value else Word(e.head, 8) }

  /** What the length field says: how long the value is, and whether it is elsewhere. */
  function Field(e: Stored): nat { if e.Inline? then |e.value| else e.length + OVERFLOW }

  function RecordOf(e: Stored): Bytes { Word(|e.key|, 2) + Word(Field(e), 4) + e.key + Tail(e) }

  /** An entry whose numbers fit their fields. */
  predicate Writable(e: Stored) {
    |e.key| <= MAX_KEY && match e case Inline(_, v) => |v| <= ROOM case Chained(_, head, n) => n <= MAX_VALUE && head < 0x1_0000_0000_0000_0000
  }

  function Records(es: seq<Stored>): (r: seq<Bytes>)
    ensures |r| == |es| && forall i | 0 <= i < |es| :: r[i] == RecordOf(es[i])
  {
    seq(|es|, i requires 0 <= i < |es| => RecordOf(es[i]))
  }

  lemma FieldFits(e: Stored)
    requires Writable(e)
    ensures |Word(|e.key|, 2)| == 2 && FromWord(Word(|e.key|, 2)) == |e.key|
    ensures |Word(Field(e), 4)| == 4 && FromWord(Word(Field(e), 4)) == Field(e)
    ensures e.Chained? ==> |Word(e.head, 8)| == 8 && FromWord(Word(e.head, 8)) == e.head
    ensures |RecordOf(e)| == Cost(e) - 2
  {
    assert Power(2) == 65536 && Power(4) == 0x1_0000_0000;
    WordRoundTrip(|e.key|, 2);
    WordRoundTrip(Field(e), 4);
    if e.Chained? {
      Power8();
      WordRoundTrip(e.head, 8);
    }
    hide Word;
    hide FromWord;
  }

  lemma Power8()
    ensures Power(8) == 0x1_0000_0000_0000_0000
  {
    assert Power(4) == 0x1_0000_0000;
  }

  lemma {:induction false} RecordsSize(es: seq<Stored>)
    requires forall e | e in es :: Writable(e)
    ensures SizeOf(Records(es)) + 2 * |es| == Total(es)
  {
    if es != [] {
      hide RecordOf;
      hide Writable;
      var before, last := es[..|es| - 1], es[|es| - 1];
      RecordsSize(before);
      FieldFits(last);
      assert Records(es)[..|es| - 1] == Records(before);
    }
  }

  /** The page holds this leaf. */
  ghost predicate LeafIn(p: Bytes, es: seq<Stored>) {
    && |p| == ROOM && (forall e | e in es :: Writable(e)) && LeafBytes(es) <= CAPACITY
    && Has(p, 0, Word(|es|, 2)) && Laid(p, 2, Records(es), |es|)
  }

  /** encodeLeaf: a leaf that does not fit is refused. */
  method EncodeLeaf(page: array<byte>, entries: seq<Stored>) returns (ok: bool)
    requires page.Length == ROOM && forall e | e in entries :: Writable(e)
    modifies page
    ensures ok <==> LeafBytes(entries) <= CAPACITY
    ensures ok ==> LeafIn(page[..], entries)
  {
    hide Word;
    hide SizeOf;
    hide Total;
    hide Laid;
    if LeafBytes(entries) > CAPACITY {
      return false;
    }
    RecordsSize(entries);
    PlaceFits(|entries|);
    PutBytes(page, 0, Word(|entries|, 2));
    ghost var p := page[..];
    Lay(page, 2, Records(entries));
    HasKept(p, page[..], 0, Word(|entries|, 2), 2, ROOM);
    return true;
  }

  /** One entry of a leaf, every offset and length checked against the page. */
  method DecodeEntry(p: Bytes, slot: nat, slotsEnd: nat, ghost e: Stored) returns (ok: bool, entry: Stored)
    requires |p| == ROOM && slot + 2 <= slotsEnd <= ROOM
    ensures Lies(p, slot, slotsEnd, e) ==> (ok <==> (e.Chained? ==> e.head >= 2)) && (ok ==> entry == e)
  {
    hide Word;
    hide FromWord;
    ghost var good := Lies(p, slot, slotsEnd, e);
    var at := FromWord(p[slot..slot + 2]);
    if good { EntryFields(p, slot, slotsEnd, at, e); }
    hide Lies;
    entry := Inline([], []);
    if at < slotsEnd || at + 6 > ROOM {
      return false, entry;
    }
    var keyLen := FromWord(p[at..at + 2]);
    var stored := FromWord(p[at + 2..at + 6]);
    var start := at + 6;
    if keyLen > MAX_KEY || start + keyLen > ROOM {
      return false, entry;
    }
    var key := p[start..start + keyLen];
    if stored >= OVERFLOW {
      var length := stored - OVERFLOW;
      if length > MAX_VALUE || start + keyLen + 8 > ROOM {
        return false, entry;
      }
      var head := FromWord(p[start + keyLen..start + keyLen + 8]);
      if head <= 1 {
        return false, entry;
      }
      return true, Chained(key, head, length);
    }
    if stored > ROOM || start + keyLen + stored > ROOM {
      return false, entry;
    }
    return true, Inline(key, p[start + keyLen..start + keyLen + stored]);
  }

  /** An entry in its place: a slot that says where, and its bytes there, above the slots. */
  ghost predicate EntryLies(p: Bytes, slot: nat, slotsEnd: nat, at: nat, e: Stored) {
    && |p| == ROOM && slot + 2 <= slotsEnd <= at && at + |RecordOf(e)| <= ROOM && Writable(e)
    && Has(p, slot, Word(at, 2)) && Has(p, at, RecordOf(e))
  }

  ghost predicate Lies(p: Bytes, slot: nat, slotsEnd: nat, e: Stored) { exists at: nat :: EntryLies(p, slot, slotsEnd, at, e) }

  lemma EntryFields(p: Bytes, slot: nat, slotsEnd: nat, at: nat, e: Stored)
    requires |p| == ROOM && slot + 2 <= ROOM && at == FromWord(p[slot..slot + 2]) && Lies(p, slot, slotsEnd, e)
    ensures slotsEnd <= at && at + 6 + |e.key| + |Tail(e)| <= ROOM && |e.key| <= MAX_KEY
    ensures FromWord(p[at..at + 2]) == |e.key| && FromWord(p[at + 2..at + 6]) == Field(e)
    ensures p[at + 6..at + 6 + |e.key|] == e.key && p[at + 6 + |e.key|..at + 6 + |e.key| + |Tail(e)|] == Tail(e)
    ensures e.Chained? ==> |Tail(e)| == 8 && FromWord(Tail(e)) == e.head && e.length <= MAX_VALUE
    ensures e.Inline? ==> |e.value| <= ROOM
  {
    hide Word;
    hide FromWord;
    var x: nat :| EntryLies(p, slot, slotsEnd, x, e);
    PlaceFits(x);
    assert at == x;
    FieldFits(e);
    var r := RecordOf(e);
    assert p[at..at + |r|] == r;
    Pieces(p, at, Word(|e.key|, 2), Word(Field(e), 4), e.key, Tail(e));
  }

  lemma HasConcat(p: Bytes, at: nat, a: Bytes, b: Bytes)
    requires Has(p, at, a + b)
    ensures Has(p, at, a) && Has(p, at + |a|, b)
  {
    var r := a + b;
    HasAt(p, at, r);
    forall i | 0 <= i < |b| ensures p[at + |a| + i] == b[i] { assert r[|a| + i] == b[i]; }
    forall i | 0 <= i < |a| ensures p[at + i] == a[i] { assert r[i] == a[i]; }
    HasAt(p, at, a);
    HasAt(p, at + |a|, b);
  }

  lemma Pieces(p: Bytes, at: nat, a: Bytes, b: Bytes, c: Bytes, d: Bytes)
    requires Has(p, at, a + b + c + d) && |a| == 2 && |b| == 4
    ensures p[at..at + 2] == a && p[at + 2..at + 6] == b && p[at + 6..at + 6 + |c|] == c && p[at + 6 + |c|..at + 6 + |c| + |d|] == d
  {
    HasConcat(p, at, a + b + c, d);
    HasConcat(p, at, a + b, c);
    HasConcat(p, at, a, b);
  }

  /** Every chain in a leaf starts past the two pages a leader reserves. */
  predicate HeadsPastMeta(es: seq<Stored>) { forall e | e in es :: e.Chained? ==> e.head >= 2 }

  /**
   decodeLeaf. Whatever the bytes, it answers without reading outside the page. A
   leaf that was encoded comes back as it was, exactly when no chain in it starts
   at page 1: in a file that reserves one page such a leaf cannot be read back.
   */
  method DecodeLeaf(p: Bytes, ghost es: seq<Stored>) returns (ok: bool, entries: seq<Stored>)
    requires |p| == ROOM
    ensures LeafIn(p, es) ==> (ok <==> HeadsPastMeta(es)) && (ok ==> entries == es)
  {
    hide Word;
    hide FromWord;
    hide SizeOf;
    hide Total;
    ghost var good := LeafIn(p, es);
    entries := [];
    var count := FromWord(p[..2]);
    if good { PlaceFitsCount(p, es); }
    var slotsEnd := 2 + count * 2;
    if slotsEnd > ROOM {
      return false, entries;
    }
    var i := 0;
    while i < count
      invariant 0 <= i <= count && |entries| == i
      invariant good ==> count == |es| && entries == es[..i] && HeadsPastMeta(es[..i])
    {
      if good { EntryIsThere(p, es, i); }
      var fine, e := DecodeEntry(p, 2 + 2 * i, slotsEnd, if good then es[i] else Inline([], []));
      if !fine {
        assert good ==> es[i] in es;
        return false, entries;
      }
      entries := entries + [e];
      assert good ==> es[..i + 1] == es[..i] + [es[i]];
      i := i + 1;
    }
    assert good ==> es[..i] == es;
    return true, entries;
  }

  lemma PlaceFitsCount(p: Bytes, es: seq<Stored>)
    requires LeafIn(p, es)
    ensures FromWord(p[..2]) == |es| && 2 + 2 * |es| <= ROOM
  {
    hide Word;
    hide FromWord;
    RecordsSize(es);
    PlaceFits(|es|);
    assert p[0..2] == p[..2];
  }

  lemma EntryIsThere(p: Bytes, es: seq<Stored>, i: nat)
    requires LeafIn(p, es) && i < |es|
    ensures Lies(p, 2 + 2 * i, 2 + 2 * |es|, es[i])
  {
    hide Word;
    hide SizeOf;
    hide Has;
    var records := Records(es);
    assert LaidAt(p, 2, records, i);
    RecordsSize(es);
    SizePrefix(records, i + 1);
    SizePush(records, i);
    assert es[i] in es;
    FieldFits(es[i]);
    assert records[..|records|] == records;
    PlaceBelow(records, i);
    assert EntryLies(p, 2 + 2 * i, 2 + 2 * |es|, Place(records, i), es[i]);
  }

  lemma PlaceBelow(records: seq<Bytes>, i: nat)
    requires i < |records|
    ensures Place(records, i) + |records[i]| <= ROOM && Place(records, i) >= ROOM - SizeOf(records)
  {
    SizePush(records, i);
    SizePrefix(records, i + 1);
  }

  // ---- branches ----

  /** One record of a branch page: a key and the page number after it. */
  function KeyRecord(key: Bytes, child: PageId): Bytes { Word(|key|, 2) + Word(child, 8) + key }

  function KeyRecords(keys: seq<Bytes>, children: seq<PageId>): (r: seq<Bytes>)
    requires |children| == |keys| + 1
    ensures |r| == |keys| && forall i | 0 <= i < |keys| :: r[i] == KeyRecord(keys[i], children[i + 1])
  {
    seq(|keys|, i requires 0 <= i < |keys| => KeyRecord(keys[i], children[i + 1]))
  }

  predicate WritableKey(key: Bytes) { |key| <= MAX_KEY }

  predicate WritableChild(child: PageId) { child < 0x1_0000_0000_0000_0000 }

  lemma KeyFits(key: Bytes, child: PageId)
    requires WritableKey(key) && WritableChild(child)
    ensures |Word(|key|, 2)| == 2 && FromWord(Word(|key|, 2)) == |key|
    ensures |Word(child, 8)| == 8 && FromWord(Word(child, 8)) == child
    ensures |KeyRecord(key, child)| == KeyCost(key) - 2
  {
    assert Power(2) == 65536;
    WordRoundTrip(|key|, 2);
    Power8();
    WordRoundTrip(child, 8);
    hide Word;
    hide FromWord;
  }

  lemma {:induction false} KeyRecordsSize(keys: seq<Bytes>, children: seq<PageId>)
    requires |children| == |keys| + 1 && (forall k | k in keys :: WritableKey(k)) && (forall c | c in children :: WritableChild(c))
    ensures SizeOf(KeyRecords(keys, children)) + 2 * |keys| == KeyTotal(keys)
    decreases |keys|
  {
    if keys != [] {
      hide KeyRecord;
      var n := |keys| - 1;
      KeyRecordsSize(keys[..n], children[..n + 1]);
      KeyFits(keys[n], children[n + 1]);
      assert KeyRecords(keys, children)[..n] == KeyRecords(keys[..n], children[..n + 1]);
    }
  }

  /** The page holds this branch. */
  ghost predicate BranchIn(p: Bytes, keys: seq<Bytes>, children: seq<PageId>) {
    && |p| == ROOM && |children| == |keys| + 1 && BranchBytes(keys) <= CAPACITY
    && (forall k | k in keys :: WritableKey(k)) && (forall c | c in children :: WritableChild(c))
    && Has(p, 0, Word(|keys|, 2) + Word(children[0], 8)) && Laid(p, 10, KeyRecords(keys, children), |keys|)
  }

  /** encodeBranch: one child more than keys, and room for them, or a refusal. */
  method EncodeBranch(page: array<byte>, keys: seq<Bytes>, children: seq<PageId>) returns (ok: bool)
    requires page.Length == ROOM && (forall k | k in keys :: WritableKey(k)) && (forall c | c in children :: WritableChild(c))
    modifies page
    ensures ok <==> |children| == |keys| + 1 && BranchBytes(keys) <= CAPACITY
    ensures ok ==> BranchIn(page[..], keys, children)
  {
    hide Word;
    hide SizeOf;
    hide KeyTotal;
    hide Laid;
    if |children| != |keys| + 1 || BranchBytes(keys) > CAPACITY {
      return false;
    }
    KeyRecordsSize(keys, children);
    PlaceFits(|keys|);
    assert children[0] in children;
    KeyFits([], children[0]);
    PutBytes(page, 0, Word(|keys|, 2) + Word(children[0], 8));
    ghost var p := page[..];
    Lay(page, 10, KeyRecords(keys, children));
    HasKept(p, page[..], 0, Word(|keys|, 2) + Word(children[0], 8), 10, ROOM);
    return true;
  }

  ghost predicate KeyLiesAt(p: Bytes, slot: nat, slotsEnd: nat, at: nat, key: Bytes, child: PageId) {
    && |p| == ROOM && slot + 2 <= slotsEnd <= at && at + |KeyRecord(key, child)| <= ROOM && WritableKey(key) && WritableChild(child)
    && Has(p, slot, Word(at, 2)) && Has(p, at, KeyRecord(key, child))
  }

  ghost predicate KeyLies(p: Bytes, slot: nat, slotsEnd: nat, key: Bytes, child: PageId) {
    exists at: nat :: KeyLiesAt(p, slot, slotsEnd, at, key, child)
  }

  lemma KeyFields(p: Bytes, slot: nat, slotsEnd: nat, at: nat, key: Bytes, child: PageId)
    requires |p| == ROOM && slot + 2 <= ROOM && at == FromWord(p[slot..slot + 2]) && KeyLies(p, slot, slotsEnd, key, child)
    ensures slotsEnd <= at && at + 10 + |key| <= ROOM && |key| <= MAX_KEY
    ensures FromWord(p[at..at + 2]) == |key| && FromWord(p[at + 2..at + 10]) == child && p[at + 10..at + 10 + |key|] == key
  {
    hide Word;
    hide FromWord;
    var x: nat :| KeyLiesAt(p, slot, slotsEnd, x, key, child);
    PlaceFits(x);
    assert at == x;
    KeyFits(key, child);
    KeyPieces(p, at, Word(|key|, 2), Word(child, 8), key);
  }

  lemma KeyPieces(p: Bytes, at: nat, a: Bytes, b: Bytes, c: Bytes)
    requires Has(p, at, a + b + c) && |a| == 2 && |b| == 8
    ensures p[at..at + 2] == a && p[at + 2..at + 10] == b && p[at + 10..at + 10 + |c|] == c
  {
    HasConcat(p, at, a + b, c);
    HasConcat(p, at, a, b);
  }

  /** One record of a branch page, read back. */
  method DecodeSlot(p: Bytes, slot: nat, slotsEnd: nat, ghost k: Bytes, ghost c: PageId) returns (ok: bool, key: Bytes, child: PageId)
    requires |p| == ROOM && slot + 2 <= slotsEnd <= ROOM
    ensures KeyLies(p, slot, slotsEnd, k, c) ==> ok && key == k && child == c
    ensures ok ==> |key| <= MAX_KEY
  {
    hide FromWord;
    hide KeyLies;
    var at := FromWord(p[slot..slot + 2]);
    if KeyLies(p, slot, slotsEnd, k, c) { KeyFields(p, slot, slotsEnd, at, k, c); }
    if at < slotsEnd || at + 10 > ROOM {
      return false, [], 0;
    }
    var keyLen := FromWord(p[at..at + 2]);
    var start := at + 10;
    if keyLen > MAX_KEY || start + keyLen > ROOM {
      return false, [], 0;
    }
    return true, p[start..start + keyLen], FromWord(p[at + 2..at + 10]);
  }

  /** decodeBranch. Whatever the bytes, it stays within the page; a branch that was encoded comes back as it was. */
  method DecodeBranch(p: Bytes, ghost ks: seq<Bytes>, ghost cs: seq<PageId>) returns (ok: bool, keys: seq<Bytes>, children: seq<PageId>)
    requires |p| == ROOM
    ensures BranchIn(p, ks, cs) ==> ok && keys == ks && children == cs
    ensures ok ==> |children| == |keys| + 1
  {
    hide Word;
    hide FromWord;
    hide SizeOf;
    hide KeyTotal;
    ghost var good := BranchIn(p, ks, cs);
    var count := FromWord(p[..2]);
    keys, children := [], [FromWord(p[2..10])];
    if good { BranchHead(p, ks, cs); }
    hide BranchIn;
    hide KeyLies;
    var slotsEnd := 10 + count * 2;
    if slotsEnd > ROOM {
      return false, keys, children;
    }
    var i := 0;
    while i < count
      invariant 0 <= i <= count && |keys| == i && |children| == i + 1
      invariant good ==> count == |ks| && |cs| == |ks| + 1 && keys == ks[..i] && children == cs[..i + 1]
    {
      if good { KeyIsThere(p, ks, cs, i); }
      var fine, key, child := DecodeSlot(p, 10 + 2 * i, slotsEnd, if good then ks[i] else [], if good then cs[i + 1] else 0);
      if !fine {
        return false, keys, children;
      }
      keys := keys + [key];
      children := children + [child];
      assert good ==> ks[..i + 1] == ks[..i] + [ks[i]] && cs[..i + 2] == cs[..i + 1] + [cs[i + 1]];
      i := i + 1;
    }
    assert good ==> ks[..i] == ks && cs[..i + 1] == cs;
    return true, keys, children;
  }

  lemma BranchHead(p: Bytes, ks: seq<Bytes>, cs: seq<PageId>)
    requires BranchIn(p, ks, cs)
    ensures |cs| == |ks| + 1 && FromWord(p[..2]) == |ks| && FromWord(p[2..10]) == cs[0] && 10 + 2 * |ks| <= ROOM
  {
    hide Word;
    hide FromWord;
    KeyRecordsSize(ks, cs);
    PlaceFits(|ks|);
    assert cs[0] in cs;
    KeyFits([], cs[0]);
    var r := Word(|ks|, 2) + Word(cs[0], 8);
    assert r == Word(|ks|, 2) + Word(cs[0], 8) + [];
    KeyPieces(p, 0, Word(|ks|, 2), Word(cs[0], 8), []);
    assert p[0..2] == p[..2];
  }

  lemma KeyIsThere(p: Bytes, ks: seq<Bytes>, cs: seq<PageId>, i: nat)
    requires BranchIn(p, ks, cs) && i < |ks|
    ensures KeyLies(p, 10 + 2 * i, 10 + 2 * |ks|, ks[i], cs[i + 1])
  {
    hide Word;
    hide SizeOf;
    hide Has;
    var records := KeyRecords(ks, cs);
    assert LaidAt(p, 10, records, i);
    KeyRecordsSize(ks, cs);
    assert ks[i] in ks && cs[i + 1] in cs;
    KeyFits(ks[i], cs[i + 1]);
    PlaceBelow(records, i);
    assert KeyLiesAt(p, 10 + 2 * i, 10 + 2 * |ks|, Place(records, i), ks[i], cs[i + 1]);
  }
}
