/**
 A collection's documents with everything derived from them: index entries, the
 uniqueness of unique indexes, and rollup totals.
 */
module Collections {
  import opened Bytes
  import opened Words
  import opened Options
  import opened Keys

  type Path = string

  /** What a document has at a path: one value, or a list of them, or something a key cannot hold. */
  datatype Held = One(value: Value) | Many(values: seq<Value>)

  type Document = map<Path, Held>

  datatype Type = OfString | OfNumber | OfBool | OfAny

  datatype IndexField = IndexField(path: Path, kind: Type, field: Field)

  datatype Index = Index(id: nat, fields: seq<IndexField>, spreads: Option<Path>, unique: bool)

  datatype Rollup = Rollup(id: nat, group: seq<IndexField>, sums: seq<Path>)

  /** matches: whether a value is of the declared type. */
  /** A null is of every type. */
  predicate Matches(kind: Type, h: Held) {
    || h == One(Null)
    || match kind
       case OfAny => true
       case OfString => h.One? && h.value.Text?
       case OfNumber => h.One? && (h.value.Number? || h.value.Integer?)
       case OfBool => h.One? && h.value.Bool?
  }

  /** A value as a key takes it: a list it refuses, as it does everything else it has no code for. */
  function Plainly(h: Held): Value { if h.One? then h.value else Other }

  /** spreadOf: a value that is not a list contributes itself. */
  function SpreadOf(h: Held): seq<Value> { if h.Many? then h.values else [h.value] }

  function Encodings(fields: seq<IndexField>): (r: seq<Field>)
    ensures |r| == |fields| && forall i | 0 <= i < |r| :: r[i] == fields[i].field
  {
    seq(|fields|, i requires 0 <= i < |fields| => fields[i].field)
  }

  // ---- which entries describe a document ----

  /** The value of each field, in order; one of them may be a list to spread. */
  datatype Gathered = Skips | Mistyped | Has(values: seq<Value>, spread: Option<nat>, elements: seq<Value>)

  function Gather(d: Document, fields: seq<IndexField>, spreads: Option<Path>, n: nat): (r: Gathered)
    requires n <= |fields|
    ensures r.Has? ==> |r.values| == n && (r.spread.Some? ==> r.spread.value < n)
  {
    if n == 0 then Has([], None, [])
    else
      match Gather(d, fields, spreads, n - 1)
      case Skips => Skips
      case Mistyped => Mistyped
      case Has(values, spread, elements) =>
        var f := fields[n - 1];
        if f.path !in d then (if f.field.missing == Skip then Skips else Has(values + [Absent], spread, elements))
        else if spreads == Some(f.path) then Has(values + [Plainly(d[f.path])], Some(n - 1), SpreadOf(d[f.path]))
        else if !Matches(f.kind, d[f.path]) then Mistyped
        else Has(values + [Plainly(d[f.path])], spread, elements)
  }

  /** One row of values per element of the spread field; without one, a single row. */
  function RowAt(values: seq<Value>, spread: Option<nat>, elements: seq<Value>, i: nat): seq<Value>
    requires (spread.Some? ==> spread.value < |values| && i < |elements|)
  {
    if spread.None? then values else values[spread.value := elements[i]]
  }

  function RowCount(g: Gathered): nat
    requires g.Has?
  {
    if g.spread.None? then 1 else |g.elements|
  }

  predicate ElementsMatch(fields: seq<IndexField>, g: Gathered)
    requires g.Has? && |g.values| == |fields| && (g.spread.Some? ==> g.spread.value < |fields|)
  {
    g.spread.Some? ==> forall e | e in g.elements :: Matches(fields[g.spread.value].kind, One(e))
  }

  /** The encoded values of every row, or None where the document cannot be described. */
  ghost predicate Describes(d: Document, index: Index) {
    var g := Gather(d, index.fields, index.spreads, |index.fields|);
    && !g.Mistyped?
    && (g.Has? ==>
          && ElementsMatch(index.fields, g)
          && forall i: nat | i < RowCount(g) :: KeyCode(RowAt(g.values, g.spread, g.elements, i), Encodings(index.fields)).Ok?)
  }

  /** The values a document is found under in an index, encoded. */
  ghost function Codes(d: Document, index: Index): set<Bytes>
    requires Describes(d, index)
  {
    var g := Gather(d, index.fields, index.spreads, |index.fields|);
    if g.Skips? then {}
    else set i: nat | i < RowCount(g) :: KeyCode(RowAt(g.values, g.spread, g.elements, i), Encodings(index.fields)).value
  }

  /** Where the entries of one index lie. */
  function Space(id: nat): Bytes { [2] + Word(id, 2) }

  /** One index entry: the index, the values, the document's own key. */
  function EntryKey(index: Index, code: Bytes, pk: Bytes): Bytes { Space(index.id) + code + pk }

  ghost function EntryKeys(d: Document, pk: Bytes, index: Index): set<Bytes>
    requires Describes(d, index)
  {
    set code | code in Codes(d, index) :: EntryKey(index, code, pk)
  }

  ghost predicate DescribesAll(d: Document, indexes: seq<Index>) { forall i | 0 <= i < |indexes| :: Describes(d, indexes[i]) }

  /** Every entry that describes a document, over all the indexes. */
  ghost predicate IsEntry(k: Bytes, d: Document, pk: Bytes, indexes: seq<Index>) {
    exists i: nat :: i < |indexes| && EntryIn(k, d, pk, indexes[i])
  }

  ghost predicate EntryIn(k: Bytes, d: Document, pk: Bytes, index: Index) {
    Describes(d, index) && k in EntryKeys(d, pk, index)
  }

  // ---- the same said of the document itself ----

  /** The last field over the list that is spread, in a document that has it. */
  predicate Spreads(d: Document, index: Index, i: nat)
    requires i < |index.fields|
  {
    SpreadsAmong(d, index, |index.fields|, i)
  }

  predicate SpreadsAmong(d: Document, index: Index, n: nat, i: nat)
    requires i < n <= |index.fields|
  {
    && index.spreads == Some(index.fields[i].path) && index.fields[i].path in d
    && forall j | i < j < n :: index.fields[j].path != index.fields[i].path
  }

  /** What an entry may hold at one field: an element of the list that is spread, the document's own value, or that there is none. */
  ghost predicate Stands(d: Document, index: Index, i: nat, v: Value)
    requires i < |index.fields|
  {
    var path := index.fields[i].path;
    if path !in d then v == Absent
    else if Spreads(d, index, i) then d[path] == One(v) || (d[path].Many? && v in d[path].values)
    else if d[path].One? then d[path] == One(v)
    else v == Other
  }

  /** A row of values the document is found under. */
  ghost predicate Lists(d: Document, index: Index, row: seq<Value>) {
    |row| == |index.fields| && forall i | 0 <= i < |row| :: Stands(d, index, i, row[i])
  }

  /** The document lacks a field the index does not take documents without. */
  predicate Lacks(d: Document, index: Index, i: nat)
    requires i < |index.fields|
  {
    index.fields[i].path !in d && index.fields[i].field.missing == Skip
  }

  /** A value of the declared type, or a list that is spread. */
  predicate Typed(d: Document, index: Index, i: nat)
    requires i < |index.fields|
  {
    var f := index.fields[i];
    f.path in d && index.spreads != Some(f.path) ==> Matches(f.kind, d[f.path])
  }

  ghost predicate LacksFirst(d: Document, index: Index, i: nat)
    requires i < |index.fields|
  {
    Lacks(d, index, i) && forall j | 0 <= j < i :: Typed(d, index, j)
  }

  ghost predicate MistypedFirst(d: Document, index: Index, i: nat)
    requires i < |index.fields|
  {
    !Typed(d, index, i) && forall j | 0 <= j < i :: !Lacks(d, index, j)
  }

  /** The index passes the document over: it lacks a field, and those before it are in order. */
  ghost predicate PassedOver(d: Document, index: Index) {
    exists i: nat :: i < |index.fields| && LacksFirst(d, index, i)
  }

  /** The index can describe the document: it passes it over, or every value is of its type and every row has a code. */
  ghost predicate Describable(d: Document, index: Index) {
    || PassedOver(d, index)
    || (&& (forall i | 0 <= i < |index.fields| :: !Lacks(d, index, i) && Typed(d, index, i))
        && (forall i, v | 0 <= i < |index.fields| && Spreads(d, index, i) && Stands(d, index, i, v) :: Matches(index.fields[i].kind, One(v)))
        && (forall row | Lists(d, index, row) :: KeyCode(row, Encodings(index.fields)).Ok?))
  }

  /** A code the index files the document under. */
  ghost predicate FiledUnder(d: Document, index: Index, code: Bytes) {
    !PassedOver(d, index) && exists row :: Lists(d, index, row) && KeyCode(row, Encodings(index.fields)) == Ok(code)
  }

  /** The key of an entry: the index, a code the document is filed under, the document's own key. */
  ghost predicate Filed(d: Document, index: Index, pk: Bytes, k: Bytes) {
    exists code :: FiledUnder(d, index, code) && k == Space(index.id) + code + pk
  }

  /** How far the fields were gathered, and what was found. */
  ghost predicate GatheredIs(d: Document, index: Index, n: nat, g: Gathered)
    requires n <= |index.fields|
  {
    match g
    case Skips => exists i: nat :: i < n && LacksFirst(d, index, i)
    case Mistyped => exists i: nat :: i < n && MistypedFirst(d, index, i)
    case Has(values, spread, elements) =>
      && |values| == n && (forall i | 0 <= i < n :: !Lacks(d, index, i) && Typed(d, index, i))
      && (forall i | 0 <= i < n :: values[i] == if index.fields[i].path in d then Plainly(d[index.fields[i].path]) else Absent)
      && (forall i | 0 <= i < n :: spread == Some(i) <==> SpreadsAmong(d, index, n, i))
      && (spread.Some? ==> spread.value < n && elements == SpreadOf(d[index.fields[spread.value].path]))
  }

  lemma {:induction false} GatherIs(d: Document, index: Index, n: nat)
    requires n <= |index.fields|
    ensures GatheredIs(d, index, n, Gather(d, index.fields, index.spreads, n))
  {
    hide Matches;
    hide Plainly;
    hide SpreadOf;
    if n > 0 {
      GatherIs(d, index, n - 1);
      if Gather(d, index.fields, index.spreads, n - 1).Has? {
        GatherNext(d, index, n);
      } else {
        hide Lacks;
        hide Typed;
      }
    }
  }

  lemma GatherNext(d: Document, index: Index, n: nat)
    requires 0 < n <= |index.fields| && Gather(d, index.fields, index.spreads, n - 1).Has?
    requires GatheredIs(d, index, n - 1, Gather(d, index.fields, index.spreads, n - 1))
    ensures GatheredIs(d, index, n, Gather(d, index.fields, index.spreads, n))
  {
    hide Matches;
    hide Plainly;
    hide SpreadOf;
    var g, f := Gather(d, index.fields, index.spreads, n), index.fields[n - 1];
    if Lacks(d, index, n - 1) {
      assert LacksFirst(d, index, n - 1);
    } else if !Typed(d, index, n - 1) {
      assert MistypedFirst(d, index, n - 1);
    } else {
      hide LacksFirst;
      hide MistypedFirst;
      hide Lacks;
      hide Typed;
      forall i | 0 <= i < n ensures g.spread == Some(i) <==> SpreadsAmong(d, index, n, i) {
        if i < n - 1 { SpreadsNext(d, index, n, i); }
      }
      hide SpreadsAmong;
    }
  }

  lemma SpreadsNext(d: Document, index: Index, n: nat, i: nat)
    requires i < n - 1 < |index.fields|
    ensures SpreadsAmong(d, index, n, i) <==> SpreadsAmong(d, index, n - 1, i) && index.fields[n - 1].path != index.fields[i].path
  {
  }

  /** What is gathered once spread is exactly what the document lists. */
  lemma RowsAre(d: Document, index: Index)
    requires Gather(d, index.fields, index.spreads, |index.fields|).Has?
    ensures
      var g := Gather(d, index.fields, index.spreads, |index.fields|);
      forall row :: Lists(d, index, row) <==> exists i: nat :: i < RowCount(g) && row == RowAt(g.values, g.spread, g.elements, i)
  {
    GatherIs(d, index, |index.fields|);
    hide Gather;
    var g := Gather(d, index.fields, index.spreads, |index.fields|);
    forall row ensures Lists(d, index, row) <==> exists i: nat :: i < RowCount(g) && row == RowAt(g.values, g.spread, g.elements, i) {
      if Lists(d, index, row) {
        if g.spread.None? {
          assert row == RowAt(g.values, g.spread, g.elements, 0);
        } else {
          var at := g.spread.value;
          assert Stands(d, index, at, row[at]);
          var i: nat :| i < |g.elements| && g.elements[i] == row[at];
          assert row == RowAt(g.values, g.spread, g.elements, i);
        }
      }
    }
  }

  /** What describes a document, said of the document alone. */
  lemma DescribesExactly(d: Document, index: Index)
    ensures Describes(d, index) <==> Describable(d, index)
    ensures Describes(d, index) ==> forall code :: code in Codes(d, index) <==> FiledUnder(d, index, code)
  {
    GatherIs(d, index, |index.fields|);
    var g := Gather(d, index.fields, index.spreads, |index.fields|);
    hide Gather;
    match g
    case Skips =>
    case Mistyped =>
      var i: nat :| i < |index.fields| && MistypedFirst(d, index, i);
      assert !PassedOver(d, index);
    case Has(values, spread, elements) =>
      RowsAre(d, index);
      hide Lists;
      assert !PassedOver(d, index);
      ElementsAre(d, index, g);
      hide Stands;
      hide KeyCode;
      forall i: nat | i < RowCount(g) ensures Lists(d, index, RowAt(values, spread, elements, i)) { }
  }

  /** Entries made for the codes of a document are exactly those it is filed under. */
  lemma FiledExactly(d: Document, index: Index, pk: Bytes, at: nat)
    requires Describes(d, index)
    ensures forall made, k {:trigger EntriesMade(made, at, index, Codes(d, index), pk), Contains(made, k)} ::
      EntriesMade(made, at, index, Codes(d, index), pk) ==> (Contains(made, k) <==> Filed(d, index, pk, k))
  {
    DescribesExactly(d, index);
    hide Describes;
    hide Codes;
    hide FiledUnder;
    hide Space;
  }

  /** The elements that must be of the declared type are what may stand in the place that is spread. */
  lemma ElementsAre(d: Document, index: Index, g: Gathered)
    requires g.Has? && GatheredIs(d, index, |index.fields|, g)
    ensures ElementsMatch(index.fields, g) <==>
      forall i, v | 0 <= i < |index.fields| && Spreads(d, index, i) && Stands(d, index, i, v) :: Matches(index.fields[i].kind, One(v))
  {
    if g.spread.Some? {
      var at := g.spread.value;
      assert Spreads(d, index, at);
      forall e | e in g.elements ensures Stands(d, index, at, e) { }
      hide Matches;
    }
  }

  // ---- entries of different documents are different ----

  /** A code that describes something in this index. */
  ghost predicate IsCode(code: Bytes, fields: seq<Field>) {
    exists vs: seq<Value> :: |vs| == |fields| && KeyCode(vs, fields) == Ok(code)
  }

  /** Codes of one list of fields delimit themselves: what follows them does not change where they end. */
  lemma CodesSplit(a: Bytes, b: Bytes, fields: seq<Field>, x: Bytes, y: Bytes)
    requires IsCode(a, fields) && IsCode(b, fields) && a + x == b + y
    ensures a == b && x == y
  {
    hide KeyCode;
    var vs: seq<Value> :| |vs| == |fields| && KeyCode(vs, fields) == Ok(a);
    var ws: seq<Value> :| |ws| == |fields| && KeyCode(ws, fields) == Ok(b);
    KeyOrder(vs, ws, fields);
    KeyOrder(ws, vs, fields);
    Comparable(a, b, a + x);
    assert x == (a + x)[|a|..];
    assert y == (b + y)[|b|..];
  }

  /** Of two beginnings of one string, one is a beginning of the other. */
  lemma Comparable(a: Bytes, b: Bytes, s: Bytes)
    requires a <= s && b <= s
    ensures a <= b || b <= a
  {
    assert a == s[..|a|] && b == s[..|b|];
  }

  lemma SpacesDiffer(a: nat, b: nat, x: Bytes, y: Bytes)
    requires a < Power(2) && b < Power(2) && Space(a) + x == Space(b) + y
    ensures a == b && x == y
  {
    WordRoundTrip(a, 2);
    WordRoundTrip(b, 2);
    hide Word;
    assert Space(a) == (Space(a) + x)[..3] && Space(b) == (Space(b) + y)[..3];
    assert Word(a, 2) == Space(a)[1..] && Word(b, 2) == Space(b)[1..];
    assert x == (Space(a) + x)[3..] && y == (Space(b) + y)[3..];
  }

  lemma CodesAreCodes(d: Document, index: Index, code: Bytes)
    requires Describes(d, index) && code in Codes(d, index)
    ensures IsCode(code, Encodings(index.fields))
  {
    hide KeyCode;
    var g := Gather(d, index.fields, index.spreads, |index.fields|);
    var i: nat :| i < RowCount(g) && KeyCode(RowAt(g.values, g.spread, g.elements, i), Encodings(index.fields)).value == code;
    var row := RowAt(g.values, g.spread, g.elements, i);
    assert |row| == |Encodings(index.fields)|;
  }

  /** Indexes have ids of their own. */
  ghost predicate Apart(indexes: seq<Index>) {
    && (forall i | 0 <= i < |indexes| :: indexes[i].id < Power(2))
    && (forall i, j | 0 <= i < j < |indexes| :: indexes[i].id != indexes[j].id)
  }

  /** An entry belongs to one index, one set of values and one document. */
  lemma EntryOnce(k: Bytes, a: Document, p: Bytes, i: nat, b: Document, q: Bytes, j: nat, indexes: seq<Index>)
    requires Apart(indexes) && i < |indexes| && j < |indexes|
    requires EntryIn(k, a, p, indexes[i]) && EntryIn(k, b, q, indexes[j])
    ensures i == j && p == q
  {
    hide Power;
    hide Codes;
    hide Space;
    hide Describes;
    var c :| c in Codes(a, indexes[i]) && EntryKey(indexes[i], c, p) == k;
    var e :| e in Codes(b, indexes[j]) && EntryKey(indexes[j], e, q) == k;
    assert k == Space(indexes[i].id) + (c + p) && k == Space(indexes[j].id) + (e + q);
    SpacesDiffer(indexes[i].id, indexes[j].id, c + p, e + q);
    assert i == j;
    CodesAreCodes(a, indexes[i], c);
    CodesAreCodes(b, indexes[j], e);
    CodesSplit(c, e, Encodings(indexes[i].fields), p, q);
  }

  // ---- totals ----

  /** A rollup row; a path that is not in `sum` counts as nought. Amounts are in units of 2^-1074. */
  datatype Totals = Totals(count: int, sum: map<Path, int>)

  function SumAt(t: Totals, path: Path): int { if path in t.sum then t.sum[path] else 0 }

  datatype Grouping = NoGroup | BadGroup | In(key: Bytes)

  function RollSpace(id: nat): Bytes { [3] + Word(id, 2) }

  /** groupKey: the group of a document, nothing for one the rollup is declared to skip, or a refusal. */
  function GroupOf(r: Rollup, d: Document): Grouping {
    match Gather(d, r.group, None, |r.group|)
    case Skips => NoGroup
    case Mistyped => BadGroup
    case Has(values, _, _) =>
      match KeyCode(values, Encodings(r.group))
      case Ok(code) => In(RollSpace(r.id) + code)
      case Fail(_) => BadGroup
  }

  predicate Summable(d: Document, paths: seq<Path>) {
    forall p | p in paths && p in d :: d[p].One? && d[p].value.Number?
  }

  function Amount(d: Document, path: Path): int {
    if path in d && d[path].One? then Quantity(d[path].value) else 0
  }

  predicate Rolls(r: Rollup, d: Document) { !GroupOf(r, d).BadGroup? && (GroupOf(r, d).In? ==> Summable(d, r.sums)) }

  function CountFor(r: Rollup, g: Bytes): Document -> int {
    (d: Document) => if GroupOf(r, d) == In(g) then 1 else 0
  }

  function AmountFor(r: Rollup, g: Bytes, path: Path): Document -> int {
    (d: Document) => if GroupOf(r, d) == In(g) then Amount(d, path) else 0
  }

  /** Adding something up over all the documents. */
  ghost function Over(docs: map<Bytes, Document>, f: Document -> int): int {
    if docs == map[] then 0 else var k :| k in docs; f(docs[k]) + Over(docs - {k}, f)
  }

  lemma {:induction false} OverTake(docs: map<Bytes, Document>, f: Document -> int, k: Bytes)
    requires k in docs
    ensures Over(docs, f) == f(docs[k]) + Over(docs - {k}, f)
    decreases |docs|
  {
    var j :| j in docs && Over(docs, f) == f(docs[j]) + Over(docs - {j}, f);
    if j != k {
      OverTake(docs - {j}, f, k);
      OverTake(docs - {k}, f, j);
      assert docs - {j} - {k} == docs - {k} - {j};
    }
  }

  lemma OverPut(docs: map<Bytes, Document>, f: Document -> int, k: Bytes, d: Document)
    requires k !in docs
    ensures Over(docs[k := d], f) == Over(docs, f) + f(d)
  {
    OverTake(docs[k := d], f, k);
    assert docs[k := d] - {k} == docs;
  }

  /** A group nobody is in adds up to nothing. */
  lemma {:induction false} EmptyGroup(docs: map<Bytes, Document>, r: Rollup, g: Bytes, path: Path)
    ensures Over(docs, CountFor(r, g)) >= 0
    ensures Over(docs, CountFor(r, g)) == 0 ==> Over(docs, AmountFor(r, g, path)) == 0
    decreases |docs|
  {
    if docs != map[] {
      var k :| k in docs;
      OverTake(docs, CountFor(r, g), k);
      OverTake(docs, AmountFor(r, g, path), k);
      EmptyGroup(docs - {k}, r, g, path);
    }
  }

  /** Every row of a rollup is the count and the sums of its group, recomputed, and an empty group has no row. */
  ghost predicate RollOk(totals: map<Bytes, Totals>, docs: map<Bytes, Document>, r: Rollup) {
    forall g: Bytes | RollSpace(r.id) <= g :: RowOk(totals, docs, r, g)
  }

  ghost predicate RowOk(totals: map<Bytes, Totals>, docs: map<Bytes, Document>, r: Rollup, g: Bytes) {
    && (g in totals <==> Over(docs, CountFor(r, g)) > 0)
    && (g in totals ==> totals[g].count == Over(docs, CountFor(r, g)))
    && (g in totals ==> forall p | p in r.sums :: SumAt(totals[g], p) == Over(docs, AmountFor(r, g, p)))
  }

  /** What contribute does to one rollup's row. */
  function Moved(t: Totals, d: Document, paths: seq<Path>, sign: int): Totals {
    Totals(t.count + sign, map p | p in t.sum.Keys + (set q | q in paths && q in d) ::
      SumAt(t, p) + if p in paths && p in d then sign * Amount(d, p) else 0)
  }

  function Row(totals: map<Bytes, Totals>, g: Bytes): Totals { if g in totals then totals[g] else Totals(0, map[]) }

  function Contributed(totals: map<Bytes, Totals>, r: Rollup, d: Document, sign: int): map<Bytes, Totals> {
    match GroupOf(r, d)
    case In(g) =>
      var t := Moved(Row(totals, g), d, r.sums, sign);
      if t.count <= 0 then totals - {g} else totals[g := t]
    case _ => totals
  }

  lemma MovedSums(t: Totals, d: Document, paths: seq<Path>, sign: int, p: Path)
    requires p in paths
    ensures SumAt(Moved(t, d, paths, sign), p) == SumAt(t, p) + sign * Amount(d, p)
  {
    hide Quantity;
    if p !in d { assert sign * Amount(d, p) == 0; }
  }

  /** Adding a document keeps every row of its rollup right. */
  lemma ContributeAdds(totals: map<Bytes, Totals>, docs: map<Bytes, Document>, r: Rollup, k: Bytes, d: Document)
    requires RollOk(totals, docs, r) && k !in docs
    ensures RollOk(Contributed(totals, r, d, 1), docs[k := d], r)
  {
    hide GroupOf;
    hide Over;
    hide Moved;
    var after, now := Contributed(totals, r, d, 1), docs[k := d];
    forall g: Bytes | RollSpace(r.id) <= g ensures RowOk(after, now, r, g) {
      assert RowOk(totals, docs, r, g);
      OverPut(docs, CountFor(r, g), k, d);
      forall p | p in r.sums ensures Over(now, AmountFor(r, g, p)) == Over(docs, AmountFor(r, g, p)) + (if GroupOf(r,
        d) == In(g) then Amount(d, p) else 0) {
        OverPut(docs, AmountFor(r, g, p), k, d);
      }
      RowMoves(totals, docs, r, g, d, 1);
    }
  }

  /** What moving one row means for what it says. */
  lemma RowMoves(totals: map<Bytes, Totals>, docs: map<Bytes, Document>, r: Rollup, g: Bytes, d: Document, sign: int)
    requires RowOk(totals, docs, r, g)
    ensures Over(docs, CountFor(r, g)) >= 0
    ensures Moved(Row(totals, g), d, r.sums, sign).count == Over(docs, CountFor(r, g)) + sign
    ensures forall p | p in r.sums :: SumAt(Moved(Row(totals, g), d, r.sums, sign), p) == Over(docs, AmountFor(r, g, p)) + sign * Amount(d, p)
  {
    EmptyGroup(docs, r, g, "");
    forall p | p in r.sums
      ensures SumAt(Moved(Row(totals, g), d, r.sums, sign), p) == Over(docs, AmountFor(r, g, p)) + sign * Amount(d, p)
    {
      MovedSums(Row(totals, g), d, r.sums, sign, p);
      EmptyGroup(docs, r, g, p);
    }
    hide Over;
  }

  /** Taking a document away is the exact opposite. */
  lemma ContributeTakes(totals: map<Bytes, Totals>, docs: map<Bytes, Document>, r: Rollup, k: Bytes)
    requires RollOk(totals, docs, r) && k in docs
    ensures RollOk(Contributed(totals, r, docs[k], -1), docs - {k}, r)
  {
    hide GroupOf;
    hide Over;
    hide Moved;
    var d := docs[k];
    var after, now := Contributed(totals, r, d, -1), docs - {k};
    forall g: Bytes | RollSpace(r.id) <= g ensures RowOk(after, now, r, g) {
      assert RowOk(totals, docs, r, g);
      OverTake(docs, CountFor(r, g), k);
      EmptyGroup(docs - {k}, r, g, "");
      forall p | p in r.sums ensures Over(now, AmountFor(r, g, p)) == Over(docs, AmountFor(r, g, p)) - (if GroupOf(r,
        d) == In(g) then Amount(d, p) else 0) {
        OverTake(docs, AmountFor(r, g, p), k);
      }
      RowMoves(totals, docs, r, g, d, -1);
    }
  }

  // ---- rollups said of the document itself ----

  /** The fields of a group are gathered as those of an index that spreads nothing. */
  function AsIndex(r: Rollup): Index { Index(r.id, r.group, None, false) }

  /** The document is counted in this row: every field of the group is there or stands for missing, and the row is their code. */
  ghost predicate Grouped(d: Document, r: Rollup, g: Bytes) {
    && Describable(d, AsIndex(r)) && !PassedOver(d, AsIndex(r))
    && exists row :: GroupedBy(d, r, row, g)
  }

  ghost predicate GroupedBy(d: Document, r: Rollup, row: seq<Value>, g: Bytes) {
    && Lists(d, AsIndex(r), row) && KeyCode(row, Encodings(r.group)).Ok?
    && g == RollSpace(r.id) + KeyCode(row, Encodings(r.group)).value
  }

  /** What a document adds to a sum over a path: the number there, or nothing where there is none. */
  ghost predicate Adds(d: Document, path: Path, n: int) {
    if path in d then d[path].One? && d[path].value.Number? && n == Numeric(d[path].value.bits) else n == 0
  }

  /** Which row a document is in, if any; and a rollup takes a document exactly when its group has a code and every path it sums holds a number or nothing. */
  lemma GroupExactly(r: Rollup, d: Document)
    ensures forall g :: GroupOf(r, d) == In(g) <==> Grouped(d, r, g)
    ensures GroupOf(r, d) == NoGroup <==> PassedOver(d, AsIndex(r))
    ensures Rolls(r, d) <==>
      Describable(d, AsIndex(r)) && (PassedOver(d, AsIndex(r)) || forall p | p in r.sums :: exists n :: Adds(d, p, n))
  {
    DescribesExactly(d, AsIndex(r));
    GroupRow(r, d);
    hide Lists;
    hide KeyCode;
    hide Gather;
    hide Describable;
    hide PassedOver;
    var got := Gather(d, r.group, None, |r.group|);
    if got.Has? { assert RowAt(got.values, got.spread, got.elements, 0) == got.values; }
    assert Describes(d, AsIndex(r)) <==> !GroupOf(r, d).BadGroup?;
    SumsExactly(r, d);
    if got.Has? {
      forall g ensures GroupOf(r, d) == In(g) <==> Grouped(d, r, g) {
        if GroupOf(r, d) == In(g) { assert GroupedBy(d, r, got.values, g); }
      }
    }
  }

  /** The one row a group can be listed by. */
  lemma GroupRow(r: Rollup, d: Document)
    ensures
      match Gather(d, r.group, None, |r.group|)
      case Skips => PassedOver(d, AsIndex(r))
      case Mistyped => !PassedOver(d, AsIndex(r))
      case Has(values, spread, _) =>
        !PassedOver(d, AsIndex(r)) && spread == None && |values| == |r.group| && forall row :: Lists(d, AsIndex(r), row) <==> row == values
  {
    var index := AsIndex(r);
    GatherIs(d, index, |r.group|);
    var got := Gather(d, r.group, None, |r.group|);
    hide Gather;
    if got.Has? {
      assert got.spread == None;
      RowsAre(d, index);
      hide Lists;
      assert RowAt(got.values, got.spread, got.elements, 0) == got.values;
    }
  }

  lemma SumsExactly(r: Rollup, d: Document)
    ensures Summable(d, r.sums) <==> forall p | p in r.sums :: exists n :: Adds(d, p, n)
  {
    forall p | p in r.sums ensures (exists n :: Adds(d, p, n)) <==> (p in d ==> d[p].One? && d[p].value.Number?) {
      if p !in d {
        assert Adds(d, p, 0);
      } else if d[p].One? && d[p].value.Number? {
        assert Adds(d, p, Numeric(d[p].value.bits));
      }
    }
  }

  /** Two documents are counted in one row exactly when their values are alike, field by field. */
  lemma ShareRow(r: Rollup, a: Document, b: Document, x: seq<Value>, y: seq<Value>, g: Bytes, h: Bytes)
    requires GroupedBy(a, r, x, g) && GroupedBy(b, r, y, h)
    ensures g == h <==> KeyAlike(x, y, Encodings(r.group))
  {
    KeyOrder(x, y, Encodings(r.group));
    var p := RollSpace(r.id);
    assert g[|p|..] == KeyCode(x, Encodings(r.group)).value && h[|p|..] == KeyCode(y, Encodings(r.group)).value;
    hide KeyCode;
    hide KeyAlike;
    hide KeyBefore;
    hide Lists;
  }

  /** One document moves one row by one, and every sum of it by the number it holds; a row that comes to nothing is gone. */
  lemma OneDocument(totals: map<Bytes, Totals>, r: Rollup, d: Document, sign: int, g: Bytes)
    requires Grouped(d, r, g)
    ensures
      var after, before := Contributed(totals, r, d, sign), Row(totals, g);
      && after - {g} == totals - {g} && (g in after <==> before.count + sign > 0)
      && (g in after ==> after[g].count == before.count + sign)
      && (g in after ==> forall p, n | p in r.sums && Adds(d, p, n) :: SumAt(after[g], p) == SumAt(before, p) + sign * n)
  {
    GroupExactly(r, d);
    hide Grouped;
    hide GroupOf;
    forall p, n | p in r.sums && Adds(d, p, n)
      ensures SumAt(Moved(Row(totals, g), d, r.sums, sign), p) == SumAt(Row(totals, g), p) + sign * n
    {
      MovedSums(Row(totals, g), d, r.sums, sign, p);
    }
  }

  ghost predicate RollupsApart(rollups: seq<Rollup>) {
    && (forall i | 0 <= i < |rollups| :: rollups[i].id < Power(2))
    && (forall i, j | 0 <= i < j < |rollups| :: rollups[i].id != rollups[j].id)
  }

  /** One rollup's rows are not another's. */
  lemma OtherRollup(totals: map<Bytes, Totals>, docs: map<Bytes, Document>, r: Rollup, other: Rollup, d: Document, sign: int)
    requires RollOk(totals, docs, r) && r.id != other.id && r.id < Power(2) && other.id < Power(2)
    ensures RollOk(Contributed(totals, other, d, sign), docs, r)
  {
    hide Over;
    hide Moved;
    WordRoundTrip(r.id, 2);
    WordRoundTrip(other.id, 2);
    hide Word;
    hide KeyCode;
    var after := Contributed(totals, other, d, sign);
    if GroupOf(other, d).In? {
      var h := GroupOf(other, d).key;
      assert RollSpace(other.id) == h[..3] && RollSpace(other.id)[1..] == Word(other.id, 2) && RollSpace(r.id)[1..] == Word(r.id, 2);
      forall g: Bytes | RollSpace(r.id) <= g ensures RowOk(after, docs, r, g) {
        assert RowOk(totals, docs, r, g);
        assert RollSpace(r.id) == g[..3];
        assert g != h;
      }
    }
  }

  function ContributedAll(totals: map<Bytes, Totals>, rollups: seq<Rollup>, n: nat, d: Document, sign: int): map<Bytes, Totals>
    requires n <= |rollups|
  {
    if n == 0 then totals else Contributed(ContributedAll(totals, rollups, n - 1, d, sign), rollups[n - 1], d, sign)
  }

  ghost predicate RollsOk(totals: map<Bytes, Totals>, docs: map<Bytes, Document>, rollups: seq<Rollup>) {
    forall i | 0 <= i < |rollups| :: RollOk(totals, docs, rollups[i])
  }

  /** The rollups a document has been counted in so far are right with it, the others without. */
  ghost predicate Halfway(totals: map<Bytes, Totals>, before: map<Bytes, Document>, after: map<Bytes, Document>, rollups: seq<Rollup>, n: nat) {
    forall i | 0 <= i < |rollups| :: RollOk(totals, if i < n then after else before, rollups[i])
  }

  lemma {:induction false} AllAdded(totals: map<Bytes, Totals>, docs: map<Bytes, Document>, rollups: seq<Rollup>, n: nat, k: Bytes, d: Document)
    requires RollupsApart(rollups) && RollsOk(totals, docs, rollups) && k !in docs && n <= |rollups|
    ensures Halfway(ContributedAll(totals, rollups, n, d, 1), docs, docs[k := d], rollups, n)
  {
    hide RollOk;
    hide Contributed;
    hide Power;
    if n > 0 {
      AllAdded(totals, docs, rollups, n - 1, k, d);
      var t, r := ContributedAll(totals, rollups, n - 1, d, 1), rollups[n - 1];
      ContributeAdds(t, docs, r, k, d);
      forall i | 0 <= i < |rollups| ensures RollOk(Contributed(t, r, d, 1), if i < n then docs[k := d] else docs, rollups[i]) {
        if i != n - 1 { OtherRollup(t, if i < n then docs[k := d] else docs, rollups[i], r, d, 1); }
      }
    }
  }

  lemma {:induction false} AllTaken(totals: map<Bytes, Totals>, docs: map<Bytes, Document>, rollups: seq<Rollup>, n: nat, k: Bytes)
    requires RollupsApart(rollups) && RollsOk(totals, docs, rollups) && k in docs && n <= |rollups|
    ensures Halfway(ContributedAll(totals, rollups, n, docs[k], -1), docs, docs - {k}, rollups, n)
  {
    hide RollOk;
    hide Contributed;
    hide Power;
    if n > 0 {
      AllTaken(totals, docs, rollups, n - 1, k);
      var t, r, d := ContributedAll(totals, rollups, n - 1, docs[k], -1), rollups[n - 1], docs[k];
      ContributeTakes(t, docs, r, k);
      forall i | 0 <= i < |rollups| ensures RollOk(Contributed(t, r, d, -1), if i < n then docs - {k} else docs, rollups[i]) {
        if i != n - 1 { OtherRollup(t, if i < n then docs - {k} else docs, rollups[i], r, d, -1); }
      }
    }
  }

  // ---- the collection ----

  /** One entry on its way into the tree: which index it is of, and how much of its key is values. */
  datatype Entry = Entry(key: Bytes, index: nat, prefix: nat)

  ghost predicate EntryOf(e: Entry, d: Document, pk: Bytes, indexes: seq<Index>) {
    && e.index < |indexes| && Describes(d, indexes[e.index])
    && e.prefix <= |e.key| && e.key[e.prefix..] == pk
    && exists code :: code in Codes(d, indexes[e.index]) && e.key == EntryKey(indexes[e.index], code, pk) && e.key[..e.prefix] == Space(indexes[e.index].id) + code
  }

  /** These are the entries of a document, all of them and no other. */
  ghost predicate Entries(es: seq<Entry>, d: Document, pk: Bytes, indexes: seq<Index>) {
    && (forall e | e in es :: EntryOf(e, d, pk, indexes))
    && (forall k :: IsEntry(k, d, pk, indexes) ==> exists e :: e in es && e.key == k)
  }

  /** Every index entry there is describes a document, and every document is described. */
  ghost predicate IndexOk(entries: set<Bytes>, docs: map<Bytes, Document>, indexes: seq<Index>) {
    && (forall p | p in docs :: DescribesAll(docs[p], indexes))
    && (forall k | k in entries :: exists p :: p in docs && IsEntry(k, docs[p], p, indexes))
    && (forall p, k | p in docs && IsEntry(k, docs[p], p, indexes) :: k in entries)
  }

  /** No two documents share a value of a unique index. */
  ghost predicate UniqueOk(docs: map<Bytes, Document>, indexes: seq<Index>) {
    forall i, p, q | 0 <= i < |indexes| && indexes[i].unique && p in docs && q in docs && p != q
      && Describes(docs[p], indexes[i]) && Describes(docs[q], indexes[i]) :: Codes(docs[p], indexes[i]) !! Codes(docs[q], indexes[i])
  }

  function KeysOf(es: seq<Entry>): set<Bytes> { set e | e in es :: e.key }

  lemma KeysOfEntries(es: seq<Entry>, d: Document, pk: Bytes, indexes: seq<Index>, k: Bytes)
    requires Entries(es, d, pk, indexes)
    ensures k in KeysOf(es) <==> IsEntry(k, d, pk, indexes)
  {
    hide Describes;
    hide Codes;
    hide Space;
    if k in KeysOf(es) {
      var e :| e in es && e.key == k;
      assert EntryOf(e, d, pk, indexes);
      assert EntryIn(k, d, pk, indexes[e.index]);
    }
  }

  /** Taking a document's entries out leaves exactly those of the others. */
  lemma EntriesTaken(entries: set<Bytes>, docs: map<Bytes, Document>, indexes: seq<Index>, pk: Bytes, es: seq<Entry>)
    requires Apart(indexes) && IndexOk(entries, docs, indexes) && pk in docs && Entries(es, docs[pk], pk, indexes)
    ensures IndexOk(entries - KeysOf(es), docs - {pk}, indexes)
  {
    hide EntryIn;
    hide Entries;
    hide KeysOf;
    hide DescribesAll;
    var left, some := entries - KeysOf(es), docs - {pk};
    forall k | k in left ensures exists p :: p in some && IsEntry(k, some[p], p, indexes) {
      var p :| p in docs && IsEntry(k, docs[p], p, indexes);
      KeysOfEntries(es, docs[pk], pk, indexes, k);
      assert p in some && IsEntry(k, some[p], p, indexes);
    }
    forall p, k | p in some && IsEntry(k, some[p], p, indexes) ensures k in left {
      KeysOfEntries(es, docs[pk], pk, indexes, k);
      if IsEntry(k, docs[pk], pk, indexes) {
        var i: nat :| i < |indexes| && EntryIn(k, docs[p], p, indexes[i]);
        var j: nat :| j < |indexes| && EntryIn(k, docs[pk], pk, indexes[j]);
        EntryOnce(k, docs[p], p, i, docs[pk], pk, j, indexes);
      }
    }
  }

  lemma EntriesAdded(entries: set<Bytes>, docs: map<Bytes, Document>, indexes: seq<Index>, pk: Bytes, d: Document, es: seq<Entry>)
    requires IndexOk(entries, docs, indexes) && pk !in docs && DescribesAll(d, indexes) && Entries(es, d, pk, indexes)
    ensures IndexOk(entries + KeysOf(es), docs[pk := d], indexes)
  {
    hide EntryIn;
    hide IsEntry;
    hide Entries;
    hide KeysOf;
    hide DescribesAll;
    var more, all := entries + KeysOf(es), docs[pk := d];
    forall k | k in more ensures exists p :: p in all && IsEntry(k, all[p], p, indexes) {
      KeysOfEntries(es, d, pk, indexes, k);
      if k in entries {
        var p :| p in docs && IsEntry(k, docs[p], p, indexes);
        assert p in all && all[p] == docs[p];
      } else {
        assert pk in all && all[pk] == d;
      }
    }
    forall p, k | p in all && IsEntry(k, all[p], p, indexes) ensures k in more {
      KeysOfEntries(es, d, pk, indexes, k);
    }
  }

  /** Whether another document holds a value in a unique index. */
  ghost predicate Clashes(docs: map<Bytes, Document>, index: Index, code: Bytes, pk: Bytes) {
    exists q :: q in docs && q != pk && Describes(docs[q], index) && code in Codes(docs[q], index)
  }

  /** No other document holds any value of a unique index this one would hold. */
  ghost predicate FreshAmong(docs: map<Bytes, Document>, indexes: seq<Index>, d: Document, pk: Bytes) {
    forall i: nat, c | i < |indexes| && indexes[i].unique && Describes(d, indexes[i]) &&
      c in Codes(d, indexes[i]) :: !Clashes(docs, indexes[i], c, pk)
  }

  /** What an entry under a value's prefix is: that value, of some document. */
  lemma PrefixMeansValue(entries: set<Bytes>, docs: map<Bytes, Document>, indexes: seq<Index>, i: nat, code: Bytes, k: Bytes)
    requires Apart(indexes) && IndexOk(entries, docs, indexes) && i < |indexes| && IsCode(code, Encodings(indexes[i].fields))
    requires k in entries && Space(indexes[i].id) + code <= k
    ensures var q := k[|Space(indexes[i].id) + code|..]; q in docs && Describes(docs[q], indexes[i]) && code in Codes(docs[q], indexes[i])
  {
    hide Describes;
    hide DescribesAll;
    hide Codes;
    hide Power;
    hide Space;
    hide IsCode;
    var q :| q in docs && IsEntry(k, docs[q], q, indexes);
    var j: nat :| j < |indexes| && EntryIn(k, docs[q], q, indexes[j]);
    var c :| c in Codes(docs[q], indexes[j]) && EntryKey(indexes[j], c, q) == k;
    CodesAreCodes(docs[q], indexes[j], c);
    SameEntry(indexes, i, j, code, c, q, k);
  }

  lemma SameEntry(indexes: seq<Index>, i: nat, j: nat, code: Bytes, c: Bytes, q: Bytes, k: Bytes)
    requires Apart(indexes) && i < |indexes| && j < |indexes|
    requires IsCode(code, Encodings(indexes[i].fields)) && IsCode(c, Encodings(indexes[j].fields))
    requires Space(indexes[i].id) + code <= k && EntryKey(indexes[j], c, q) == k
    ensures i == j && code == c && k[|Space(indexes[i].id) + code|..] == q
  {
    hide Power;
    hide Space;
    hide IsCode;
    var P := Space(indexes[i].id) + code;
    var x := k[|P|..];
    assert k == P + x;
    assert Space(indexes[i].id) + (code + x) == k && Space(indexes[j].id) + (c + q) == k;
    SpacesDiffer(indexes[i].id, indexes[j].id, code + x, c + q);
    assert i == j;
    CodesSplit(code, c, Encodings(indexes[i].fields), x, q);
  }

  lemma ValueHasPrefix(entries: set<Bytes>, docs: map<Bytes, Document>, indexes: seq<Index>, i: nat, code: Bytes, q: Bytes)
    requires IndexOk(entries, docs, indexes) && i < |indexes| && q in docs && Describes(docs[q], indexes[i]) && code in Codes(docs[q], indexes[i])
    ensures EntryKey(indexes[i], code, q) in entries
  {
    hide Describes;
    hide Codes;
    hide Space;
    assert EntryIn(EntryKey(indexes[i], code, q), docs[q], q, indexes[i]);
    assert IsEntry(EntryKey(indexes[i], code, q), docs[q], q, indexes);
  }

  // ---- what a collection keeps, said of its documents alone ----

  /** The entries there are, are exactly those its documents are filed under. */
  lemma IndexExactly(entries: set<Bytes>, docs: map<Bytes, Document>, indexes: seq<Index>)
    requires IndexOk(entries, docs, indexes)
    ensures forall p, i | p in docs && 0 <= i < |indexes| :: Describable(docs[p], indexes[i])
    ensures forall k :: k in entries <==> exists p, i: nat :: p in docs && i < |indexes| && Filed(docs[p], indexes[i], p, k)
  {
    hide Describable;
    hide FiledUnder;
    hide Describes;
    hide Codes;
    hide Space;
    forall p, i | p in docs && 0 <= i < |indexes| ensures Describable(docs[p], indexes[i]) {
      assert DescribesAll(docs[p], indexes);
      DescribesExactly(docs[p], indexes[i]);
    }
    forall k, p, i: nat | p in docs && i < |indexes| ensures EntryIn(k, docs[p], p, indexes[i]) <==> Filed(docs[p], indexes[i], p, k) {
      assert DescribesAll(docs[p], indexes);
      DescribesExactly(docs[p], indexes[i]);
    }
    forall k ensures k in entries <==> exists p, i: nat :: p in docs && i < |indexes| && Filed(docs[p], indexes[i], p, k) {
      if k in entries {
        var p :| p in docs && IsEntry(k, docs[p], p, indexes);
        var i: nat :| i < |indexes| && EntryIn(k, docs[p], p, indexes[i]);
        assert Filed(docs[p], indexes[i], p, k);
      }
      if p, i: nat :| p in docs && i < |indexes| && Filed(docs[p], indexes[i], p, k) {
        assert EntryIn(k, docs[p], p, indexes[i]);
        assert IsEntry(k, docs[p], p, indexes);
      }
    }
  }

  /** No two documents are filed under one code of a unique index. */
  lemma UniqueExactly(docs: map<Bytes, Document>, indexes: seq<Index>, i: nat, p: Bytes, q: Bytes, code: Bytes)
    requires UniqueOk(docs, indexes) && i < |indexes| && indexes[i].unique && p in docs && q in docs
    requires Describable(docs[p], indexes[i]) && Describable(docs[q], indexes[i])
    requires FiledUnder(docs[p], indexes[i], code) && FiledUnder(docs[q], indexes[i], code)
    ensures p == q
  {
    DescribesExactly(docs[p], indexes[i]);
    DescribesExactly(docs[q], indexes[i]);
    hide Describes;
    hide Codes;
    hide Describable;
    hide FiledUnder;
  }

  /** A document is refused for its values exactly when another one is filed under one of them in a unique index. */
  lemma FreshExactly(docs: map<Bytes, Document>, indexes: seq<Index>, d: Document, pk: Bytes)
    requires DescribesAll(d, indexes) && forall p | p in docs :: DescribesAll(docs[p], indexes)
    ensures FreshAmong(docs, indexes, d, pk) <==>
      forall i: nat, q, code | i < |indexes| && indexes[i].unique && q in docs && q != pk && FiledUnder(d, indexes[i], code) ::
        !FiledUnder(docs[q], indexes[i], code)
  {
    hide Describes;
    hide Codes;
    hide FiledUnder;
    hide Describable;
    forall i: nat | i < |indexes| ensures forall code :: code in Codes(d, indexes[i]) <==> FiledUnder(d, indexes[i], code) {
      DescribesExactly(d, indexes[i]);
    }
    forall i: nat, q | i < |indexes| && q in docs ensures forall code :: code in Codes(docs[q], indexes[i]) <==> FiledUnder(docs[q], indexes[i], code) {
      DescribesExactly(docs[q], indexes[i]);
    }
    if FreshAmong(docs, indexes, d, pk) {
      forall i: nat, q, code | i < |indexes| && indexes[i].unique && q in docs && q != pk && FiledUnder(d, indexes[i], code)
        ensures !FiledUnder(docs[q], indexes[i], code)
      {
        assert !Clashes(docs, indexes[i], code, pk);
      }
    }
  }

  /** The documents counted in a row. */
  ghost function Members(docs: map<Bytes, Document>, r: Rollup, g: Bytes): set<Bytes> { set p | p in docs && Grouped(docs[p], r, g) }

  /** Every row counts the documents that are in it, and it is there exactly when there is one. */
  lemma CountedExactly(totals: map<Bytes, Totals>, docs: map<Bytes, Document>, r: Rollup, g: Bytes)
    requires RollOk(totals, docs, r) && RollSpace(r.id) <= g
    ensures g in totals <==> Members(docs, r, g) != {}
    ensures g in totals ==> totals[g].count == |Members(docs, r, g)|
  {
    assert RowOk(totals, docs, r, g);
    CountIs(docs, r, g);
    hide Over;
    hide Members;
  }

  /** And sums over a path what each of them holds there. */
  lemma SummedExactly(totals: map<Bytes, Totals>, docs: map<Bytes, Document>, r: Rollup, g: Bytes, path: Path, worth: Document -> int)
    requires RollOk(totals, docs, r) && RollSpace(r.id) <= g && path in r.sums && g in totals && forall p | p in docs :: Rolls(r, docs[p])
    requires forall p | p in docs :: if Grouped(docs[p], r, g) then Adds(docs[p], path, worth(docs[p])) else worth(docs[p]) == 0
    ensures SumAt(totals[g], path) == Over(docs, worth)
  {
    hide Grouped;
    hide GroupOf;
    assert RowOk(totals, docs, r, g);
    forall p | p in docs ensures AmountFor(r, g, path)(docs[p]) == worth(docs[p]) { GroupExactly(r, docs[p]); }
    SameOver(docs, AmountFor(r, g, path), worth);
    hide Over;
  }

  lemma {:induction false} CountIs(docs: map<Bytes, Document>, r: Rollup, g: Bytes)
    ensures Over(docs, CountFor(r, g)) == |Members(docs, r, g)|
    decreases |docs|
  {
    hide Grouped;
    hide GroupOf;
    if docs == map[] {
      assert Members(docs, r, g) == {};
    } else {
      var k :| k in docs;
      OverTake(docs, CountFor(r, g), k);
      hide Over;
      CountIs(docs - {k}, r, g);
      GroupExactly(r, docs[k]);
      MembersLess(docs, r, g, k);
      hide Members;
    }
  }

  lemma MembersLess(docs: map<Bytes, Document>, r: Rollup, g: Bytes, k: Bytes)
    requires k in docs
    ensures k !in Members(docs - {k}, r, g)
    ensures Members(docs, r, g) == if Grouped(docs[k], r, g) then Members(docs - {k}, r, g) + {k} else Members(docs - {k}, r, g)
  {
    hide Grouped;
  }

  lemma {:induction false} SameOver(docs: map<Bytes, Document>, f: Document -> int, h: Document -> int)
    requires forall p | p in docs :: f(docs[p]) == h(docs[p])
    ensures Over(docs, f) == Over(docs, h)
    decreases |docs|
  {
    if docs != map[] {
      var k :| k in docs && Over(docs, f) == f(docs[k]) + Over(docs - {k}, f);
      SameOver(docs - {k}, f, h);
      OverTake(docs, h, k);
    }
  }

  class Collection {
    const indexes: seq<Index>
    const rollups: seq<Rollup>
    /** Documents by their encoded key. */
    var docs: map<Bytes, Document>
    var entries: set<Bytes>
    var totals: map<Bytes, Totals>

    ghost predicate Declared()
      reads this
    {
      Apart(indexes) && RollupsApart(rollups)
    }

    /** Everything derived is what the documents say, recomputed. */
    ghost predicate Valid()
      reads this
    {
      Declared() && IndexOk(entries, docs, indexes) && UniqueOk(docs, indexes) && RollsOk(totals, docs, rollups)
    }

    constructor (indexes: seq<Index>, rollups: seq<Rollup>)
      requires Apart(indexes) && RollupsApart(rollups)
      ensures Valid() && docs == map[] && this.indexes == indexes && this.rollups == rollups
    {
      this.indexes, this.rollups := indexes, rollups;
      docs, entries, totals := map[], {}, map[];
    }

    /** The field loop of entriesForIndex. */
    method GatherFields(d: Document, fields: seq<IndexField>, spreads: Option<Path>) returns (g: Gathered)
      ensures g == Gather(d, fields, spreads, |fields|)
    {
      var i := 0;
      g := Has([], None, []);
      while i < |fields|
        invariant 0 <= i <= |fields| && g.Has? && g == Gather(d, fields, spreads, i)
      {
        var f := fields[i];
        if f.path !in d {
          if f.field.missing == Skip {
            GatherStops(d, fields, spreads, i + 1);
            return Skips;
          }
          g := g.(values := g.values + [Absent]);
        } else if spreads == Some(f.path) {
          g := Has(g.values + [Plainly(d[f.path])], Some(i), SpreadOf(d[f.path]));
        } else if !Matches(f.kind, d[f.path]) {
          GatherStops(d, fields, spreads, i + 1);
          return Mistyped;
        } else {
          g := g.(values := g.values + [Plainly(d[f.path])]);
        }
        i := i + 1;
      }
    }

    lemma {:induction false} GatherStops(d: Document, fields: seq<IndexField>, spreads: Option<Path>, n: nat)
      requires n <= |fields| && !Gather(d, fields, spreads, n).Has?
      ensures Gather(d, fields, spreads, |fields|) == Gather(d, fields, spreads, n)
      decreases |fields| - n
    {
      if n < |fields| { GatherStops(d, fields, spreads, n + 1); }
    }

    /** Every element of the spread field is of the declared type. */
    method ElementsFit(elements: seq<Value>, kind: Type) returns (ok: bool)
      ensures ok <==> forall e | e in elements :: Matches(kind, One(e))
    {
      var j := 0;
      while j < |elements|
        invariant 0 <= j <= |elements| && forall e | e in elements[..j] :: Matches(kind, One(e))
      {
        if !Matches(kind, One(elements[j])) {
          assert elements[j] in elements;
          return false;
        }
        j := j + 1;
      }
      assert elements[..j] == elements;
      return true;
    }

    /** One entry per row of values, each once. */
    method EncodeRows(g: Gathered, index: Index, at: nat, pk: Bytes) returns (ok: bool, made: seq<Entry>)
      requires g.Has? && |g.values| == |index.fields| && (g.spread.Some? ==> g.spread.value < |g.values|)
      ensures ok <==> RowsEncode(g, index, RowCount(g))
      ensures ok ==> EntriesMade(made, at, index, RowCodes(g, index, RowCount(g)), pk) && OnceEach(made)
    {
      hide KeyCode;
      hide Space;
      hide EntriesMade;
      made := [];
      var i, n := 0, if g.spread.None? then 1 else |g.elements|;
      MadeNone(at, index, pk);
      RowCodesNone(g, index);
      hide RowCodes;
      while i < n
        invariant 0 <= i <= n && RowsEncode(g, index, i) && EntriesMade(made, at, index, RowCodes(g, index, i), pk) && OnceEach(made)
      {
        var row := RowAt(g.values, g.spread, g.elements, i);
        var encoded := EncodeKey(Space(index.id), row, Encodings(index.fields));
        if encoded.Fail? {
          return false, made;
        }
        ghost var code := KeyCode(row, Encodings(index.fields)).value;
        var key := encoded.value + pk;
        var one := Entry(key, at, |encoded.value|);
        MadeMore(made, at, index, RowCodes(g, index, i), pk, code, one);
        RowCodesPush(g, index, i);
        if !Contains(made, key) {
          made := made + [one];
        }
        i := i + 1;
      }
      return true, made;
    }

    /** entriesForIndex: exactly the entries that describe the document in this index, each once, or a refusal. */
    method EntriesForIndex(d: Document, pk: Bytes, at: nat) returns (ok: bool, made: seq<Entry>)
      requires at < |indexes|
      ensures ok <==> Describes(d, indexes[at])
      ensures ok ==> EntriesMade(made, at, indexes[at], Codes(d, indexes[at]), pk)
      ensures ok <==> Describable(d, indexes[at])
      ensures ok ==> OnceEach(made) && forall k :: Contains(made, k) <==> Filed(d, indexes[at], pk, k)
    {
      hide KeyCode;
      hide Gather;
      hide EntriesMade;
      hide EntryKey;
      hide Describable;
      hide Contains;
      hide Filed;
      var index := indexes[at];
      if Describes(d, index) { FiledExactly(d, index, pk, at); }
      DescribesExactly(d, index);
      made := [];
      MadeNone(at, index, pk);
      var g := GatherFields(d, index.fields, index.spreads);
      if g.Skips? {
        return true, made;
      }
      if g.Mistyped? {
        return false, made;
      }
      if g.spread.Some? {
        ok := ElementsFit(g.elements, index.fields[g.spread.value].kind);
        if !ok {
          return false, made;
        }
      }
      ok, made := EncodeRows(g, index, at, pk);
    }

    /** entriesFor: every index entry that describes a document, or a refusal of the whole. */
    method EntriesFor(d: Document, pk: Bytes) returns (ok: bool, all: seq<Entry>)
      ensures ok <==> DescribesAll(d, indexes)
      ensures ok ==> Entries(all, d, pk, indexes)
    {
      hide Describes;
      hide Codes;
      hide EntriesMade;
      hide EntryOf;
      hide EntryIn;
      all := [];
      var i := 0;
      while i < |indexes|
        invariant 0 <= i <= |indexes| && (forall j | 0 <= j < i :: Describes(d, indexes[j]))
        invariant forall e | e in all :: EntryOf(e, d, pk, indexes)
        invariant forall j: nat, k | j < i && EntryIn(k, d, pk, indexes[j]) :: Contains(all, k)
      {
        var fine, made := EntriesForIndex(d, pk, i);
        if !fine {
          return false, all;
        }
        MadeAre(made, d, pk, indexes, i);
        ghost var was := all;
        all := all + made;
        forall j: nat, k | j < i + 1 && EntryIn(k, d, pk, indexes[j]) ensures Contains(all, k) {
          if j < i { ContainsMore(was, made, k); } else { ContainsMore(made, was, k); ContainsSwap(was, made, k); }
        }
        i := i + 1;
      }
      forall k | IsEntry(k, d, pk, indexes) ensures exists e :: e in all && e.key == k {
        var j: nat :| j < |indexes| && EntryIn(k, d, pk, indexes[j]);
        assert Contains(all, k);
      }
      return true, all;
    }

    /** The numbers of a document a rollup sums, or a refusal where one is not a number. */
    method Numbers(d: Document, paths: seq<Path>) returns (ok: bool)
      ensures ok <==> Summable(d, paths)
    {
      var i := 0;
      while i < |paths|
        invariant 0 <= i <= |paths| && Summable(d, paths[..i])
      {
        if paths[i] in d && !(d[paths[i]].One? && d[paths[i]].value.Number?) {
          assert paths[i] in paths;
          return false;
        }
        i := i + 1;
      }
      assert paths[..i] == paths;
      return true;
    }

    /** contribute: moves each rollup by one document, up or down, or stops at the first that refuses it. */
    method Contribute(d: Document, sign: int) returns (ok: bool)
      modifies this`totals
      ensures ok <==> forall i | 0 <= i < |rollups| :: Rolls(rollups[i], d)
      ensures ok ==> totals == ContributedAll(old(totals), rollups, |rollups|, d, sign)
    {
      hide GroupOf;
      hide Moved;
      var i := 0;
      while i < |rollups|
        invariant 0 <= i <= |rollups| && forall j | 0 <= j < i :: Rolls(rollups[j], d)
        invariant totals == ContributedAll(old(totals), rollups, i, d, sign)
      {
        var r := rollups[i];
        var group := GroupOf(r, d);
        if group.BadGroup? {
          return false;
        }
        if group.In? {
          var fine := Numbers(d, r.sums);
          if !fine {
            return false;
          }
          var row := Moved(Row(totals, group.key), d, r.sums, sign);
          if row.count <= 0 {
            totals := totals - {group.key};
          } else {
            totals := totals[group.key := row];
          }
        }
        i := i + 1;
      }
      return true;
    }

    /** The walk of checkUnique: whether any other document's entry lies under a prefix. */
    method Occupied(prefix: Bytes, pk: Bytes) returns (clash: bool)
      ensures clash <==> exists k :: k in entries && prefix <= k && k[|prefix|..] != pk
    {
      var left := entries;
      while left != {}
        invariant left <= entries && forall k | k in entries && k !in left && prefix <= k :: k[|prefix|..] == pk
        decreases left
      {
        var k :| k in left;
        if prefix <= k && k[|prefix|..] != pk {
          return true;
        }
        left := left - {k};
      }
      return false;
    }

    /** checkUnique: refuses exactly where another document already holds a value of a unique index. */
    method CheckUnique(additions: seq<Entry>, ghost d: Document, pk: Bytes) returns (ok: bool)
      requires Declared() && IndexOk(entries, docs, indexes) && DescribesAll(d, indexes) && Entries(additions, d, pk, indexes)
      ensures ok <==> Fresh(d, pk)
    {
      hide Describes;
      hide Codes;
      hide IndexOk;
      hide Space;
      hide Clashes;
      var i := 0;
      while i < |additions|
        invariant 0 <= i <= |additions| && forall j | 0 <= j < |additions| :: EntryOf(additions[j], d, pk, indexes)
        invariant forall j | 0 <= j < i && indexes[additions[j].index].unique :: !EntryClashes(additions[j], pk)
      {
        var e := additions[i];
        assert EntryOf(e, d, pk, indexes);
        if indexes[e.index].unique {
          var clash := Occupied(e.key[..e.prefix], pk);
          if clash {
            ClashIsReal(e, d, pk);
            return false;
          }
        }
        i := i + 1;
      }
      AllFresh(additions, d, pk);
      return true;
    }

    ghost predicate EntryClashes(e: Entry, pk: Bytes)
      reads this
      requires e.prefix <= |e.key|
    {
      exists k :: k in entries && e.key[..e.prefix] <= k && k[e.prefix..] != pk
    }

    ghost predicate Fresh(d: Document, pk: Bytes)
      reads this
    {
      FreshAmong(docs, indexes, d, pk)
    }

    lemma ClashIsReal(e: Entry, d: Document, pk: Bytes)
      requires Declared() && IndexOk(entries, docs, indexes) && EntryOf(e, d, pk, indexes) && indexes[e.index].unique && EntryClashes(e, pk)
      ensures !Fresh(d, pk)
    {
      hide Describes;
      hide Codes;
      hide IndexOk;
      hide Space;
      hide IsCode;
      var c :| c in Codes(d, indexes[e.index]) && e.key == EntryKey(indexes[e.index], c, pk) && e.key[..e.prefix] == Space(indexes[e.index].id) + c;
      var k :| k in entries && e.key[..e.prefix] <= k && k[e.prefix..] != pk;
      CodesAreCodes(d, indexes[e.index], c);
      PrefixMeansValue(entries, docs, indexes, e.index, c, k);
      assert Clashes(docs, indexes[e.index], c, pk);
    }

    lemma AllFresh(additions: seq<Entry>, d: Document, pk: Bytes)
      requires IndexOk(entries, docs, indexes) && Entries(additions, d, pk, indexes)
      requires forall j | 0 <= j < |additions| :: EntryOf(additions[j], d, pk, indexes)
      requires forall j | 0 <= j < |additions| && indexes[additions[j].index].unique :: !EntryClashes(additions[j], pk)
      requires Apart(indexes)
      ensures Fresh(d, pk)
    {
      hide Describes;
      hide Codes;
      hide IndexOk;
      hide Space;
      forall i: nat, c | i < |indexes| && indexes[i].unique && Describes(d, indexes[i]) && c in Codes(d, indexes[i])
        ensures !Clashes(docs, indexes[i], c, pk)
      {
        if Clashes(docs, indexes[i], c, pk) {
          var q :| q in docs && q != pk && Describes(docs[q], indexes[i]) && c in Codes(docs[q], indexes[i]);
          Refuted(additions, d, pk, i, c, q);
        }
      }
    }

    /** A value another document holds would have been found under its prefix. */
    lemma Refuted(additions: seq<Entry>, d: Document, pk: Bytes, i: nat, c: Bytes, q: Bytes)
      requires IndexOk(entries, docs, indexes) && Entries(additions, d, pk, indexes) && Apart(indexes)
      requires i < |indexes| && Describes(d, indexes[i]) && c in Codes(d, indexes[i])
      requires q in docs && q != pk && Describes(docs[q], indexes[i]) && c in Codes(docs[q], indexes[i])
      ensures exists j :: 0 <= j < |additions| && additions[j].index == i && EntryOf(additions[j], d, pk, indexes) && EntryClashes(additions[j], pk)
    {
      hide Describes;
      hide Codes;
      hide IndexOk;
      hide Space;
      hide IsCode;
      var k := EntryKey(indexes[i], c, pk);
      assert EntryIn(k, d, pk, indexes[i]);
      assert IsEntry(k, d, pk, indexes);
      var e :| e in additions && e.key == k;
      var j :| 0 <= j < |additions| && additions[j] == e;
      assert EntryOf(e, d, pk, indexes);
      var c2 :| c2 in Codes(d, indexes[e.index]) && e.key == EntryKey(indexes[e.index], c2, pk) && e.key[..e.prefix] == Space(indexes[e.index].id) + c2;
      CodesAreCodes(d, indexes[i], c);
      CodesAreCodes(d, indexes[e.index], c2);
      assert Space(indexes[i].id) + c <= k by { assert k[..|Space(indexes[i].id) + c|] == Space(indexes[i].id) + c; }
      SameEntry(indexes, i, e.index, c, c2, pk, k);
      ValueHasPrefix(entries, docs, indexes, i, c, q);
      var other := EntryKey(indexes[i], c, q);
      assert other[..e.prefix] == Space(indexes[i].id) + c && other[e.prefix..] == q;
    }

    /** Entries taken out of the tree, or put in. */
    method TakeEntries(es: seq<Entry>)
      modifies this`entries
      ensures entries == old(entries) - KeysOf(es)
    {
      var i := 0;
      while i < |es|
        invariant 0 <= i <= |es| && entries == old(entries) - KeysOf(es[..i])
      {
        assert es[..i + 1] == es[..i] + [es[i]];
        entries := entries - {es[i].key};
        i := i + 1;
      }
      assert es[..i] == es;
    }

    method PutEntries(es: seq<Entry>)
      modifies this`entries
      ensures entries == old(entries) + KeysOf(es)
    {
      var i := 0;
      while i < |es|
        invariant 0 <= i <= |es| && entries == old(entries) + KeysOf(es[..i])
      {
        assert es[..i + 1] == es[..i] + [es[i]];
        entries := entries + {es[i].key};
        i := i + 1;
      }
      assert es[..i] == es;
    }

    /** Every document is one the rollups can count. */
    ghost predicate AllRoll()
      reads this
    {
      forall p, i | p in docs && 0 <= i < |rollups| :: Rolls(rollups[i], docs[p])
    }

    /**
     write: the document with everything that describes it. It is refused exactly
     where an index or a rollup cannot describe it or a unique value is taken.
     */
    method Write(pk: Bytes, d: Document) returns (ok: bool)
      requires Valid() && AllRoll()
      modifies this`docs, this`entries, this`totals
      ensures ok <==> DescribesAll(d, indexes) && old(Fresh(d, pk)) && forall i | 0 <= i < |rollups| :: Rolls(rollups[i], d)
      ensures ok ==> Valid() && AllRoll() && docs == old(docs)[pk := d]
      ensures !DescribesAll(d, indexes) || !old(Fresh(d, pk)) ==> docs == old(docs) && entries == old(entries) && totals == old(totals)
    {
      hide Describes;
      hide DescribesAll;
      hide Entries;
      hide IndexOk;
      hide Fresh;
      hide RollsOk;
      hide UniqueOk;
      hide KeysOf;
      hide ContributedAll;
      hide Rolls;
      hide Apart;
      hide RollupsApart;
      ghost var docs0 := docs;
      var fine, additions := EntriesFor(d, pk);
      if !fine {
        return false;
      }
      var unique := CheckUnique(additions, d, pk);
      if !unique {
        return false;
      }
      FreshIsUnique(d, pk);
      ghost var left := docs - {pk};
      if pk in docs {
        Unlist(pk);
      } else {
        assert left == docs;
      }
      ghost var was := totals;
      ok := Contribute(d, 1);
      if !ok {
        return;
      }
      Counted(was, left, pk, d);
      EntriesAdded(entries, left, indexes, pk, d, additions);
      assert left[pk := d] == docs[pk := d];
      docs := docs[pk := d];
      PutEntries(additions);
    }

    /** Everything that describes a document is taken back: its entries, and its part of the totals. */
    method Unlist(pk: Bytes)
      requires Valid() && AllRoll() && pk in docs
      modifies this`entries, this`totals
      ensures IndexOk(entries, docs - {pk}, indexes) && RollsOk(totals, docs - {pk}, rollups)
    {
      hide Describes;
      hide DescribesAll;
      hide Entries;
      hide RollsOk;
      hide UniqueOk;
      hide KeysOf;
      hide ContributedAll;
      hide Rolls;
      hide IsEntry;
      hide Apart;
      hide RollupsApart;
      ghost var was := totals;
      var fine, removals := EntriesFor(docs[pk], pk);
      EntriesTaken(entries, docs, indexes, pk, removals);
      hide IndexOk;
      TakeEntries(removals);
      var ok := Contribute(docs[pk], -1);
      Uncounted(was, pk);
    }

    lemma Uncounted(was: map<Bytes, Totals>, pk: Bytes)
      requires RollupsApart(rollups) && RollsOk(was, docs, rollups) && pk in docs
      ensures RollsOk(ContributedAll(was, rollups, |rollups|, docs[pk], -1), docs - {pk}, rollups)
    {
      AllTaken(was, docs, rollups, |rollups|, pk);
      hide RollOk;
      hide ContributedAll;
    }

    lemma Counted(was: map<Bytes, Totals>, left: map<Bytes, Document>, pk: Bytes, d: Document)
      requires RollupsApart(rollups) && RollsOk(was, left, rollups) && pk !in left
      ensures RollsOk(ContributedAll(was, rollups, |rollups|, d, 1), left[pk := d], rollups)
    {
      AllAdded(was, left, rollups, |rollups|, pk, d);
      hide RollOk;
      hide ContributedAll;
    }

    lemma FreshIsUnique(d: Document, pk: Bytes)
      requires UniqueOk(docs, indexes) && Fresh(d, pk)
      ensures UniqueOk(docs[pk := d], indexes)
    {
      hide Describes;
      hide Codes;
      var now := docs[pk := d];
      forall i, p, q | 0 <= i < |indexes| && indexes[i].unique && p in now && q in now && p != q
        && Describes(now[p], indexes[i]) && Describes(now[q], indexes[i]) ensures Codes(now[p], indexes[i]) !! Codes(now[q], indexes[i])
      {
        if p == pk {
          forall c | c in Codes(d, indexes[i]) ensures c !in Codes(now[q], indexes[i]) { assert !Clashes(docs, indexes[i], c, pk); }
        } else if q == pk {
          forall c | c in Codes(d, indexes[i]) ensures c !in Codes(now[p], indexes[i]) { assert !Clashes(docs, indexes[i], c, pk); }
        }
      }
    }

    /** remove: the document and everything that describes it. */
    method Remove(pk: Bytes) returns (removed: bool)
      requires Valid() && AllRoll()
      modifies this`docs, this`entries, this`totals
      ensures Valid() && AllRoll() && docs == old(docs) - {pk}
      ensures removed <==> pk in old(docs)
      ensures !removed ==> entries == old(entries) && totals == old(totals)
    {
      hide Describes;
      hide DescribesAll;
      hide IndexOk;
      hide RollsOk;
      hide Rolls;
      hide Apart;
      hide RollupsApart;
      hide Codes;
      if pk !in docs {
        assert docs - {pk} == docs;
        return false;
      }
      Unlist(pk);
      docs := docs - {pk};
      return true;
    }
  }

  lemma ContainsMore(a: seq<Entry>, b: seq<Entry>, k: Bytes)
    requires Contains(a, k)
    ensures Contains(a + b, k)
  {
    var e :| e in a && e.key == k;
    assert e in a + b;
  }

  lemma ContainsSwap(a: seq<Entry>, b: seq<Entry>, k: Bytes)
    requires Contains(b + a, k)
    ensures Contains(a + b, k)
  {
    var e :| e in b + a && e.key == k;
    assert e in a + b;
  }

  ghost predicate RowsEncode(g: Gathered, index: Index, n: nat)
    requires g.Has? && |g.values| == |index.fields| && (g.spread.Some? ==> g.spread.value < |g.values| && n <= |g.elements|)
  {
    forall x: nat | x < n :: KeyCode(RowAt(g.values, g.spread, g.elements, x), Encodings(index.fields)).Ok?
  }

  ghost function RowCodes(g: Gathered, index: Index, n: nat): set<Bytes>
    requires g.Has? && |g.values| == |index.fields| && (g.spread.Some? ==> g.spread.value < |g.values| && n <= |g.elements|) &&
        RowsEncode(g, index, n)
  {
    set x: nat | x < n :: KeyCode(RowAt(g.values, g.spread, g.elements, x), Encodings(index.fields)).value
  }

  lemma RowCodesNone(g: Gathered, index: Index)
    requires g.Has? && |g.values| == |index.fields| && (g.spread.Some? ==> g.spread.value < |g.values|)
    ensures RowsEncode(g, index, 0) && RowCodes(g, index, 0) == {}
  {
  }

  lemma RowCodesPush(g: Gathered, index: Index, n: nat)
    requires g.Has? && |g.values| == |index.fields| && (g.spread.Some? ==> g.spread.value < |g.values| && n < |g.elements|)
    requires RowsEncode(g, index, n) && KeyCode(RowAt(g.values, g.spread, g.elements, n), Encodings(index.fields)).Ok?
    ensures RowsEncode(g, index, n + 1)
    ensures RowCodes(g, index, n + 1) == RowCodes(g, index, n) + {KeyCode(RowAt(g.values, g.spread, g.elements, n), Encodings(index.fields)).value}
  {
    hide KeyCode;
  }

  /** The entries of one index for a set of encoded values: all of them, and no other. */
  ghost predicate OnceEach(made: seq<Entry>) { forall i, j | 0 <= i < j < |made| :: made[i].key != made[j].key }

  ghost predicate EntriesMade(made: seq<Entry>, at: nat, index: Index, codes: set<Bytes>, pk: Bytes) {
    && (forall e | e in made :: EntryFor(e, at, index, codes, pk))
    && (forall c | c in codes :: Contains(made, EntryKey(index, c, pk)))
  }

  lemma MadeNone(at: nat, index: Index, pk: Bytes)
    ensures EntriesMade([], at, index, {}, pk)
  {
  }

  lemma MadeMore(made: seq<Entry>, at: nat, index: Index, codes: set<Bytes>, pk: Bytes, code: Bytes, one: Entry)
    requires EntriesMade(made, at, index, codes, pk) && one == Entry(Space(index.id) + code + pk, at, |Space(index.id) + code|)
    ensures EntriesMade(if Contains(made, one.key) then made else made + [one], at, index, codes + {code}, pk)
  {
    hide Space;
    var now, all := if Contains(made, one.key) then made else made + [one], codes + {code};
    assert one.key == EntryKey(index, code, pk) && one.key[..one.prefix] == Space(index.id) + code && one.key[one.prefix..] == pk;
    assert EntryFor(one, at, index, all, pk);
    forall e | e in now ensures EntryFor(e, at, index, all, pk) {
      if e in made { Wider(e, at, index, codes, all, pk); }
    }
    hide EntryKey;
    forall c | c in all ensures Contains(now, EntryKey(index, c, pk)) {
      if c in codes {
        assert Contains(made, EntryKey(index, c, pk));
        ContainsMore(made, [one], EntryKey(index, c, pk));
      } else {
        assert one in [one];
        assert Contains([one], one.key);
        ContainsMore([one], made, one.key);
        ContainsSwap(made, [one], one.key);
      }
    }
  }

  lemma Wider(e: Entry, at: nat, index: Index, codes: set<Bytes>, all: set<Bytes>, pk: Bytes)
    requires EntryFor(e, at, index, codes, pk) && codes <= all
    ensures EntryFor(e, at, index, all, pk)
  {
    hide Space;
  }

  lemma MadeAre(made: seq<Entry>, d: Document, pk: Bytes, indexes: seq<Index>, at: nat)
    requires at < |indexes| && Describes(d, indexes[at]) && EntriesMade(made, at, indexes[at], Codes(d, indexes[at]), pk)
    ensures forall e | e in made :: EntryOf(e, d, pk, indexes)
    ensures forall k | EntryIn(k, d, pk, indexes[at]) :: Contains(made, k)
  {
    hide Describes;
    hide Codes;
    hide Space;
    forall e | e in made ensures EntryOf(e, d, pk, indexes) { assert EntryFor(e, at, indexes[at], Codes(d, indexes[at]), pk); }
  }

  predicate Contains(es: seq<Entry>, key: Bytes) { exists e | e in es :: e.key == key }

  ghost predicate EntryFor(e: Entry, at: nat, index: Index, codes: set<Bytes>, pk: Bytes) {
    && e.index == at && e.prefix <= |e.key| && e.key[e.prefix..] == pk
    && exists code :: code in codes && e.key == EntryKey(index, code, pk) && e.key[..e.prefix] == Space(index.id) + code
  }
}
