/**
 What the walks say before an operation runs is no more than some run of it comes to:
 arguments and documents on which an operation returns and changes as many rows as its
 ceiling says, looks at everything its envelope names, and cannot share the lock
 where it is told not to.
 */
module Ceilings {
  import opened Options
  import opened Operations
  import opened Effects

  // ---- arguments and documents with enough of everything ----

  const ID: Name := "id"
  const AT: Name := "at"
  const MINTED: Value := "p"

  /** The keys that are used up one after another. */
  function Tally(n: nat): (r: Value)
    ensures |r| == n && r != MINTED
  {
    var r := seq(n, i => 'x');
    assert r != [] ==> r[0] == 'x';
    r
  }

  /** A document with its key and every one of these fields. */
  function Filled(fields: set<Name>, key: Value): Doc { map f | f in fields + {ID} :: if f == ID then key else "" }

  function From(values: Values): nat { if AT in values then |values[AT]| else 0 }

  /** What the steps before the `i`-th are worth. */
  ghost function Spent(table: Table, op: Operation, i: nat, depth: nat): nat {
    if i > |op.steps| then 0
    else match SumSteps(Rows(), table, op.steps[..i], depth) case Some(n) => n case None => 0
  }

  /** Every action that takes a key takes the next one, every condition holds, every stretch is as long as its limit. */
  ghost function Plenty(table: Table, depth: nat): Terms {
    Terms(
      (op: Operation, values: Values) => Some(Tally(From(values))),
      (op: Operation, values: Values) => Some(map[]),
      (op: Operation, i: nat, values: Values, produced: Produced) => Some(Some(Tally(From(values) + Spent(table, op, i, depth)))),
      (op: Operation, i: nat, values: Values, produced: Produced) => Some(map[]),
      (op: Operation, i: nat, values: Values, produced: Produced, document: Option<Doc>) => true,
      (op: Operation, i: nat, values: Values, produced: Produced) => Some(map[AT := Tally(From(values) + Spent(table, op, i, depth))]),
      (op: Operation, values: Values, here: Docs) => Some(Stretch(From(values), Cap(op.limit))),
      (op: Operation, values: Values, here: Docs) => Some(seq(Cap(op.limit), i => map[])),
      (c: Name) => ID,
      (c: Name, document: Doc, here: Docs) => Some(MINTED),
      (c: Name, document: Doc, here: Docs) => true,
      (rows: seq<Row>) => true)
  }

  function Stretch(from: nat, n: nat): (r: seq<Value>)
    ensures |r| == n && forall i | 0 <= i < n :: r[i] == Tally(from + i)
  {
    seq(n, i requires 0 <= i < n => Tally(from + i))
  }

  /** The collections still hold every key from this one on. */
  ghost predicate Stocked(docs: map<Name, Docs>, names: set<Name>, fields: set<Name>, from: nat, to: nat) {
    && docs.Keys == names
    && forall c, j: nat | c in names && from <= j < to :: Tally(j) in docs[c] && docs[c][Tally(j)] == Filled(fields, Tally(j))
  }

  function Stock(names: set<Name>, fields: set<Name>, to: nat): map<Name, Docs> {
    map c | c in names :: map k | k in (set j | 0 <= j < to :: Tally(j)) :: Filled(fields, k)
  }

  lemma StockIsStocked(names: set<Name>, fields: set<Name>, to: nat)
    ensures Stocked(Stock(names, fields, to), names, fields, 0, to)
  {
  }

  /** A count and a digest answer with no row: one for each. */
  function Silent(): Weigh {
    Weigh((op: Operation) => Some(if op.action in {Count, HashRange} then 1 else 0), (step: Step) => Some(0))
  }

  /** The run shows what it was said to be about: a collection it touched, an index it walked, a field or a whole document it returned. */
  ghost predicate Shows(x: Effect, fields: set<Name>, m: Mark) {
    match m
    case OfCollection(name) => name in x.touched
    case OfIndex(name) => name in x.walked
    case OfField(name) => name in fields ==> exists row :: row in x.r.rows && row.OfDocument? && name in row.fields
    case OfWhole => exists row :: row in x.r.rows && row.OfDocument? && row.fields.Keys == fields + {ID}
  }

  /** The run changed something, or looked into a partitioned collection. */
  ghost predicate Unshared(x: Effect, specs: Specs) { x.r.changed > 0 || exists c :: c in x.touched && !Whole(specs, c) }

  /** As many rows and changes as `worth` says, one less for each silent answer, and the rest still in stock. */
  ghost predicate Full(x: Effect, names: set<Name>, fields: set<Name>, from: nat, worth: nat, silent: nat, to: nat) {
    x.ok && |x.r.rows| + x.r.changed + silent == worth && Stocked(x.docs, names, fields, from + worth, to)
  }

  /** What declaring checks of an operation and its steps: their collections are there, and a step touches one document. */
  ghost predicate Sound(op: Operation, specs: Specs) {
    && op.collection in specs
    && forall step | step in op.steps && step.Touch? :: step.action in {Get, Insert, Put, Update, Delete} && step.collection in specs
  }

  // ---- a single action ----

  lemma Used(docs: map<Name, Docs>, names: set<Name>, fields: set<Name>, from: nat, to: nat, c: Name, now: Docs, worth: nat)
    requires Stocked(docs, names, fields, from, to) && c in names
    requires forall j: nat | from + worth <= j < to :: Tally(j) in now && now[Tally(j)] == Filled(fields, Tally(j))
    ensures Stocked(docs[c := now], names, fields, from + worth, to)
  {
    hide Tally;
    hide Filled;
  }

  lemma PutFull(table: Table, depth: nat, action: Action, c: Name, docs: map<Name, Docs>, names: set<Name>, fields: set<Name>, from: nat, to: nat)
    requires Stocked(docs, names, fields, from, to) && c in names
    ensures var x := PutOf(Plenty(table, depth), c, action, Some(map[]), docs); Full(x, names, fields, from, 1, 0, to) && x.touched == {c} && x.r.changed == 1
  {
    hide Filled;
    Used(docs, names, fields, from, to, c, docs[c][MINTED := map[ID := MINTED]], 1);
    hide Tally;
    hide Stocked;
  }

  lemma MergeFull(table: Table, depth: nat, c: Name, docs: map<Name, Docs>, names: set<Name>, fields: set<Name>, from: nat, to: nat)
    requires Stocked(docs, names, fields, from, to) && c in names && from < to
    ensures Tally(from) in docs[c]
    ensures var x := MergeOf(Plenty(table, depth), c, Tally(from), docs[c][Tally(from)], Some(map[]), docs);
      Full(x, names, fields, from, 1, 0, to) && x.touched == {c} && x.r.changed == 1
  {
    var key := Tally(from);
    var document := docs[c][key];
    assert document == Filled(fields, key) && ID in document && document[ID] == key;
    assert document + map[] == document && document[ID := key] == document;
    Used(docs, names, fields, from, to, c, docs[c][key := document], 1);
    hide Tally;
    hide Filled;
    hide Stocked;
  }

  lemma DropFull(c: Name, docs: map<Name, Docs>, names: set<Name>, fields: set<Name>, from: nat, to: nat)
    requires Stocked(docs, names, fields, from, to) && c in names && from < to
    ensures var x := DropOf(c, Tally(from), docs); Full(x, names, fields, from, 1, 0, to) && x.touched == {c} && x.r.changed == 1
  {
    Used(docs, names, fields, from, to, c, docs[c] - {Tally(from)}, 1);
    hide Tally;
    hide Filled;
    hide Stocked;
  }

  lemma GetFull(table: Table, depth: nat, op: Operation, values: Values, docs: map<Name, Docs>, names: set<Name>, fields: set<Name>, from: nat, to: nat)
    requires op.collection in names && From(values) == from && Stocked(docs, names, fields, from, to) && from < to
    ensures var x := GetOf(Plenty(table, depth), op, values, docs);
      && Full(x, names, fields, from, 1, 0, to) && x.touched == {op.collection}
      && x.r.rows == [OfDocument(Project(Filled(fields, Tally(from)), op.projection))]
  {
    hide Filled;
    hide Project;
    assert docs[op.collection := docs[op.collection]] == docs;
    Used(docs, names, fields, from, to, op.collection, docs[op.collection], 1);
    hide Tally;
  }

  lemma {:induction false} FoundAll(keys: seq<Value>, docs: Docs)
    requires forall i | 0 <= i < |keys| :: keys[i] in docs
    ensures Found(keys, docs) == |keys|
  {
    if keys != [] { FoundAll(keys[1..], docs); }
  }

  lemma ScanFull(table: Table, depth: nat, op: Operation, values: Values, docs: map<Name, Docs>, names: set<Name>, fields: set<Name>, from: nat, to: nat)
    requires op.collection in names && From(values) == from && op.limit > 0 && Stocked(docs, names, fields, from, to) && from + op.limit <= to
    ensures var x := ScanOf(Plenty(table, depth), op, values, docs);
      && Full(x, names, fields, from, op.limit, 0, to) && x.touched == {op.collection} && x.walked == {IndexName(op.index)}
      && x.r.rows[0] == OfDocument(Project(Filled(fields, Tally(from)), op.projection))
  {
    hide Filled;
    hide Project;
    hide Tally;
    hide Found;
    FoundAll(Stretch(from, op.limit), docs[op.collection]);
    assert docs[op.collection := docs[op.collection]] == docs;
    Used(docs, names, fields, from, to, op.collection, docs[op.collection], op.limit);
  }

  lemma TotalsFull(table: Table, depth: nat, op: Operation, values: Values, docs: map<Name, Docs>, names: set<Name>, fields: set<Name>, from: nat, to: nat)
    requires op.collection in names && op.limit > 0 && Stocked(docs, names, fields, from, to)
    ensures var x := TotalsOf(Plenty(table, depth), op, values, docs);
      && Full(x, names, fields, from, op.limit, 0, to) && x.touched == {op.collection}
  {
    hide Filled;
    hide Tally;
    assert docs[op.collection := docs[op.collection]] == docs;
    Used(docs, names, fields, from, to, op.collection, docs[op.collection], op.limit);
  }

  /** A count and a digest: one answer, and no row. */
  lemma SilentFull(table: Table, depth: nat, op: Operation, values: Values, docs: map<Name, Docs>, names: set<Name>, fields: set<Name>, from: nat, to: nat)
    requires op.collection in names && Stocked(docs, names, fields, from, to)
    ensures
      var x, y := CountOf(Plenty(table, depth), op, values, docs), DigestOf(Plenty(table, depth), op, values, docs);
      && Full(x, names, fields, from, 1, 1, to) && x.touched == {op.collection} && x.walked == {IndexName(op.index)}
      && Full(y, names, fields, from, 1, 1, to) && y.touched == {op.collection} && y.walked == {IndexName(op.index)}
  {
    hide Filled;
    hide Tally;
    hide Found;
    assert docs[op.collection := docs[op.collection]] == docs;
    Used(docs, names, fields, from, to, op.collection, docs[op.collection], 1);
  }

  lemma {:induction false} TakenEach(keys: seq<Value>, n: nat)
    requires n <= |keys| && forall i, j | 0 <= i < j < |keys| :: keys[i] != keys[j]
    ensures |Taken(keys, n)| == n
  {
    if n > 0 {
      TakenEach(keys, n - 1);
      assert Taken(keys, n) == Taken(keys, n - 1) + {keys[n - 1]};
    }
  }

  lemma TakenAll(from: nat, n: nat, docs: Docs)
    requires forall j: nat | from <= j < from + n :: Tally(j) in docs
    ensures var taken := Taken(Stretch(from, n), n);
      |taken| == n && taken <= docs.Keys && forall j: nat | j >= from + n :: Tally(j) !in taken
  {
    var keys := Stretch(from, n);
    hide Tally;
    hide Stretch;
    forall i, j | 0 <= i < j < |keys| ensures keys[i] != keys[j] { TallyApart(from + i, from + j); }
    TakenEach(keys, n);
    forall j: nat | j >= from + n ensures Tally(j) !in Taken(keys, n) {
      forall i | 0 <= i < n ensures keys[i] != Tally(j) { TallyApart(from + i, j); }
    }
  }

  lemma TallyApart(a: nat, b: nat)
    requires a != b
    ensures Tally(a) != Tally(b)
  {
    assert |Tally(a)| != |Tally(b)|;
  }

  lemma DeleteRangeFull(table: Table, depth: nat, op: Operation, values: Values, docs: map<Name, Docs>, names: set<Name>, fields: set<Name>, from: nat, to: nat)
    requires op.collection in names && From(values) == from && op.limit > 0 && Stocked(docs, names, fields, from, to) && from + op.limit <= to
    ensures var x := DeleteRangeOf(Plenty(table, depth), op, values, docs);
      && Full(x, names, fields, from, op.limit, 0, to) && x.touched == {op.collection} && x.walked == {IndexName(op.index)} && x.r.changed == op.limit
  {
    hide Filled;
    hide Tally;
    hide LastOf;
    var c := op.collection;
    TakenAll(from, op.limit, docs[c]);
    var taken := Taken(Stretch(from, op.limit), op.limit);
    hide Taken;
    assert taken * docs[c].Keys == taken;
    Used(docs, names, fields, from, to, c, docs[c] - taken, op.limit);
  }

  /** A single action, on enough of everything, comes to what it is worth and shows what it is about. */
  lemma OwnFull(table: Table, depth: nat, op: Operation, values: Values, docs: map<Name, Docs>, names: set<Name>, fields: set<Name>,
                specs: Specs, from: nat, worth: nat, to: nat)
    requires op.action != Batch && op.collection in names && Own(op) == Ok(worth) && From(values) == from
    requires Stocked(docs, names, fields, from, to) && from + worth <= to
    ensures Full(OwnOf(Plenty(table, depth), op, values, docs), names, fields, from, worth, Silent().own(op).value, to)
    ensures forall m: Mark | Bears(op, m) :: Shows(OwnOf(Plenty(table, depth), op, values, docs), fields, m)
    ensures Lock(specs).own(op).None? ==> Unshared(OwnOf(Plenty(table, depth), op, values, docs), specs)
  {
    hide Stocked;
    hide OwnOf;
    hide Shows;
    hide Bears;
    hide Full;
    hide Filled;
    hide Plenty;
    if Writes(op.action) {
      WriteFull(table, depth, op, values, docs, names, fields, from, worth, to);
    } else {
      ReadFull(table, depth, op, values, docs, names, fields, from, worth, to);
    }
    ShowsOwn(OwnOf(Plenty(table, depth), op, values, docs), op, fields, from);
  }

  /** What one action looked at, walked and returned first. */
  ghost predicate Exhibits(x: Effect, op: Operation, fields: set<Name>, from: nat) {
    && x.touched == {op.collection} && (Walks(op.action) ==> x.walked == {IndexName(op.index)})
    && (op.action in {Get, Scan} ==> x.r.rows != [] && x.r.rows[0] == OfDocument(Project(Filled(fields, Tally(from)), op.projection)))
  }

  lemma ShowsOwn(x: Effect, op: Operation, fields: set<Name>, from: nat)
    requires Exhibits(x, op, fields, from)
    ensures forall m: Mark | Bears(op, m) :: Shows(x, fields, m)
  {
    Projects(fields, from, op);
    hide Project;
    hide Filled;
    hide Tally;
    if op.action in {Get, Scan} { assert x.r.rows[0] in x.r.rows; }
  }

  lemma ReadFull(table: Table, depth: nat, op: Operation, values: Values, docs: map<Name, Docs>, names: set<Name>, fields: set<Name>,
                 from: nat, worth: nat, to: nat)
    requires !Writes(op.action) && op.collection in names && Own(op) == Ok(worth) && From(values) == from
    requires Stocked(docs, names, fields, from, to) && from + worth <= to
    ensures var x := OwnOf(Plenty(table, depth), op, values, docs);
      Full(x, names, fields, from, worth, Silent().own(op).value, to) && Exhibits(x, op, fields, from)
  {
    KeyThere(docs, names, fields, from, to, op.collection);
    hide Full;
    hide Tally;
    hide Filled;
    hide Stocked;
    hide Project;
    hide Plenty;
    hide GetOf;
    hide ScanOf;
    hide TotalsOf;
    hide CountOf;
    hide DigestOf;
    match op.action
    case Get => GetFull(table, depth, op, values, docs, names, fields, from, to);
    case Scan => ScanFull(table, depth, op, values, docs, names, fields, from, to);
    case Totals => TotalsFull(table, depth, op, values, docs, names, fields, from, to);
    case Count => SilentFull(table, depth, op, values, docs, names, fields, from, to);
    case HashRange => SilentFull(table, depth, op, values, docs, names, fields, from, to);
  }

  lemma WriteFull(table: Table, depth: nat, op: Operation, values: Values, docs: map<Name, Docs>, names: set<Name>, fields: set<Name>,
                  from: nat, worth: nat, to: nat)
    requires op.action != Batch && Writes(op.action) && op.collection in names && Own(op) == Ok(worth) && From(values) == from
    requires Stocked(docs, names, fields, from, to) && from + worth <= to
    ensures var x := OwnOf(Plenty(table, depth), op, values, docs);
      Full(x, names, fields, from, worth, Silent().own(op).value, to) && Exhibits(x, op, fields, from) && x.r.changed > 0
  {
    hide OwnOf;
    hide Full;
    hide Stocked;
    hide Plenty;
    hide Exhibits;
    if op.action == Insert || op.action == Put {
      MadeFull(table, depth, op, values, docs, names, fields, from, worth, to);
    } else {
      KeyedFull(table, depth, op, values, docs, names, fields, from, worth, to);
    }
  }

  lemma MadeFull(table: Table, depth: nat, op: Operation, values: Values, docs: map<Name, Docs>, names: set<Name>, fields: set<Name>,
                  from: nat, worth: nat, to: nat)
    requires op.action in {Insert, Put} && op.collection in names && Own(op) == Ok(worth) && From(values) == from
    requires Stocked(docs, names, fields, from, to) && from + worth <= to
    ensures var x := OwnOf(Plenty(table, depth), op, values, docs);
      Full(x, names, fields, from, worth, Silent().own(op).value, to) && Exhibits(x, op, fields, from) && x.r.changed > 0
  {
    var c := op.collection;
    KeyThere(docs, names, fields, from, to, c);
    PlentyGives(table, depth, op, values);
    hide Plenty;
    hide Full;
    hide Tally;
    hide Filled;
    hide Stocked;
    hide DeleteRangeOf;
    hide PutOf;
    hide MergeOf;
    hide DropOf;
    PutFull(table, depth, op.action, c, docs, names, fields, from, to);
  }

  lemma KeyedFull(table: Table, depth: nat, op: Operation, values: Values, docs: map<Name, Docs>, names: set<Name>, fields: set<Name>,
                  from: nat, worth: nat, to: nat)
    requires op.action in {Update, Delete, DeleteRange} && op.collection in names && Own(op) == Ok(worth) && From(values) == from
    requires Stocked(docs, names, fields, from, to) && from + worth <= to
    ensures var x := OwnOf(Plenty(table, depth), op, values, docs);
      Full(x, names, fields, from, worth, Silent().own(op).value, to) && Exhibits(x, op, fields, from) && x.r.changed > 0
  {
    var c := op.collection;
    KeyThere(docs, names, fields, from, to, c);
    PlentyGives(table, depth, op, values);
    hide Plenty;
    hide Full;
    hide Tally;
    hide Filled;
    hide Stocked;
    hide DeleteRangeOf;
    hide PutOf;
    hide MergeOf;
    hide DropOf;
    if op.action == DeleteRange {
      DeleteRangeFull(table, depth, op, values, docs, names, fields, from, to);
    } else if op.action == Update {
      MergeFull(table, depth, c, docs, names, fields, from, to);
    } else {
      DropFull(c, docs, names, fields, from, to);
    }
  }

  lemma PlentyGives(table: Table, depth: nat, op: Operation, values: Values)
    ensures Plenty(table, depth).key(op, values) == Some(Tally(From(values))) && Plenty(table, depth).document(op, values) == Some(map[])
  {
  }

  lemma KeyThere(docs: map<Name, Docs>, names: set<Name>, fields: set<Name>, from: nat, to: nat, c: Name)
    requires Stocked(docs, names, fields, from, to) && c in names
    ensures c in docs && docs.Keys == names && (from < to ==> Tally(from) in docs[c])
  {
  }

  lemma Projects(fields: set<Name>, from: nat, op: Operation)
    ensures op.projection == [] ==> Project(Filled(fields, Tally(from)), op.projection).Keys == fields + {ID}
    ensures forall f | f in fields && f in op.projection :: f in Project(Filled(fields, Tally(from)), op.projection)
  {
  }

  // ---- a step ----

  /** A step on one document comes to one row or one change. */
  lemma TouchFull(table: Table, depth: nat, op: Operation, i: nat, values: Values, produced: Produced, docs: map<Name, Docs>,
                  names: set<Name>, fields: set<Name>, specs: Specs, from: nat, to: nat)
    requires i < |op.steps| && op.steps[i].Touch? && op.steps[i].collection in names
    requires op.steps[i].action in {Get, Insert, Put, Update, Delete}
    requires From(values) + Spent(table, op, i, depth) == from && Stocked(docs, names, fields, from, to) && from < to
    ensures var x := TouchOf(Plenty(table, depth), op, i, values, produced, docs);
      && Full(x, names, fields, from, 1, 0, to)
      && (forall m: Mark | StepBears(op.steps[i], m) :: Shows(x, fields, m))
      && (Lock(specs).touch(op.steps[i]).None? ==> Unshared(x, specs))
  {
    var c := op.steps[i].collection;
    KeyThere(docs, names, fields, from, to, c);
    StepActsFull(table, depth, op, i, values, produced, docs, names, fields, from, to);
    TouchIs(table, depth, op, i, values, produced, docs, from);
    hide Plenty;
    hide StepActs;
    hide TouchOf;
    hide Stocked;
    hide Filled;
    hide Tally;
    var x := TouchOf(Plenty(table, depth), op, i, values, produced, docs);
    if op.steps[i].action == Get { assert x.r.rows[0] in x.r.rows; }
  }

  lemma TouchIs(table: Table, depth: nat, op: Operation, i: nat, values: Values, produced: Produced, docs: map<Name, Docs>, from: nat)
    requires i < |op.steps| && op.steps[i].Touch? && op.steps[i].collection in docs && Tally(from) in docs[op.steps[i].collection]
    requires From(values) + Spent(table, op, i, depth) == from
    ensures
      var c, terms := op.steps[i].collection, Plenty(table, depth);
      var e := StepActs(terms, op, i, Some(Tally(from)), Some(docs[c][Tally(from)]), values, produced, docs);
      TouchOf(terms, op, i, values, produced, docs) == e.(touched := e.touched + {c})
  {
    StepGives(table, depth, op, i, values, produced);
    hide Plenty;
    hide StepActs;
    hide Tally;
  }

  lemma StepGives(table: Table, depth: nat, op: Operation, i: nat, values: Values, produced: Produced)
    ensures var terms := Plenty(table, depth);
      && terms.stepKey(op, i, values, produced) == Some(Some(Tally(From(values) + Spent(table, op, i, depth))))
      && terms.stepDocument(op, i, values, produced) == Some(map[])
      && (forall document :: terms.stepPasses(op, i, values, produced, document)) && (forall rows :: terms.fits(rows))
      && terms.bind(op, i, values, produced) == Some(map[AT := Tally(From(values) + Spent(table, op, i, depth))])
  {
  }

  lemma StepActsFull(table: Table, depth: nat, op: Operation, i: nat, values: Values, produced: Produced, docs: map<Name, Docs>,
                     names: set<Name>, fields: set<Name>, from: nat, to: nat)
    requires i < |op.steps| && op.steps[i].Touch? && op.steps[i].collection in names
    requires op.steps[i].action in {Get, Insert, Put, Update, Delete}
    requires Stocked(docs, names, fields, from, to) && from < to
    ensures Tally(from) in docs[op.steps[i].collection]
    ensures
      var x := StepActs(Plenty(table, depth), op, i, Some(Tally(from)), Some(docs[op.steps[i].collection][Tally(from)]), values, produced, docs);
      && Full(x, names, fields, from, 1, 0, to)
      && (op.steps[i].action == Get ==> x.r.rows == [OfDocument(Filled(fields, Tally(from)))])
      && (op.steps[i].action != Get ==> x.r.changed > 0)
  {
    var c := op.steps[i].collection;
    StepGives(table, depth, op, i, values, produced);
    if op.steps[i].action == Get {
      hide Tally;
      hide Filled;
      hide Plenty;
      assert docs[c := docs[c]] == docs;
      Used(docs, names, fields, from, to, c, docs[c], 1);
    } else {
      KeyThere(docs, names, fields, from, to, c);
      hide PutOf;
      hide MergeOf;
      hide DropOf;
      hide Plenty;
      hide Tally;
      hide Filled;
      hide Stocked;
      if op.steps[i].action == Update {
        MergeFull(table, depth, c, docs, names, fields, from, to);
      } else if op.steps[i].action == Delete {
        DropFull(c, docs, names, fields, from, to);
      } else {
        PutFull(table, depth, op.steps[i].action, c, docs, names, fields, from, to);
      }
    }
  }

  // ---- batches ----

  /** What was shown, or changed, or looked into, is so of the whole. */
  lemma JoinedShows(before: Fold, one: Effect, tag: Name, fields: set<Name>, specs: Specs)
    requires one.ok
    ensures forall m: Mark | Shows(before.e, fields, m) || Shows(one, fields, m) :: Shows(Joined(before, one, tag).e, fields, m)
    ensures Unshared(before.e, specs) || Unshared(one, specs) ==> Unshared(Joined(before, one, tag).e, specs)
  {
    hide Whole;
    var x := Joined(before, one, tag).e;
    forall m: Mark | Shows(before.e, fields, m) || Shows(one, fields, m) ensures Shows(x, fields, m) {
      assert forall row | row in before.e.r.rows || row in one.r.rows :: row in x.r.rows;
    }
  }

  lemma JoinedFull(before: Fold, one: Effect, tag: Name, names: set<Name>, fields: set<Name>, from: nat, w: nat, a: nat, v: nat, b: nat, to: nat)
    requires Full(before.e, names, fields, from, w, a, to) && Full(one, names, fields, from + w, v, b, to)
    ensures Full(Joined(before, one, tag).e, names, fields, from, w + v, a + b, to)
  {
    hide Stocked;
  }

  /** The walks that never refuse have an answer wherever the ceiling has one. */
  lemma SilentThere(table: Table, op: Operation, d: nat)
    requires Sum(Rows(), table, op, d).Some?
    ensures Sum(Silent(), table, op, d).Some?
  {
    EasierSums(Rows(), Silent(), table, op, d);
  }

  lemma {:induction false} RunFull(table: Table, op: Operation, values: Values, docs: map<Name, Docs>, fields: set<Name>, specs: Specs,
                                   from: nat, to: nat, d: nat, depth: nat)
    requires d <= depth && Sum(Rows(), table, op, d).Some? && Sum(Silent(), table, op, d).Some?
    requires Sound(op, specs) && forall p | p in table :: Sound(table[p], specs)
    requires From(values) == from && Stocked(docs, specs.Keys, fields, from, to) && from + Sum(Rows(), table, op, d).value <= to
    ensures
      var x := RunOf(table, Plenty(table, depth), op, values, docs, d);
      && Full(x, specs.Keys, fields, from, Sum(Rows(), table, op, d).value, Sum(Silent(), table, op, d).value, to)
      && (forall m: Mark | Sum(Shun(m), table, op, d).None? :: Shows(x, fields, m))
      && (Sum(Lock(specs), table, op, d).None? ==> Unshared(x, specs))
    decreases d, 1, 0
  {
    hide Full;
    hide Shows;
    hide Unshared;
    hide Stocked;
    hide Plenty;
    if op.action != Batch {
      hide OwnOf;
      OwnFull(table, depth, op, values, docs, specs.Keys, fields, specs, from, Sum(Rows(), table, op, d).value, to);
    } else {
      assert op.steps[..|op.steps|] == op.steps;
      StepsFull(table, op, values, docs, fields, specs, from, to, |op.steps|, d - 1, depth);
    }
  }

  lemma {:induction false} StepFull(table: Table, op: Operation, i: nat, values: Values, produced: Produced, docs: map<Name, Docs>, fields: set<Name>,
                                    specs: Specs, from: nat, to: nat, d: nat, depth: nat)
    requires d <= depth && i < |op.steps| && SumStep(Rows(), table, op.steps[i], d).Some? && SumStep(Silent(), table, op.steps[i], d).Some?
    requires Sound(op, specs) && forall p | p in table :: Sound(table[p], specs)
    requires From(values) + Spent(table, op, i, depth) == from && Stocked(docs, specs.Keys, fields, from, to)
    requires from + SumStep(Rows(), table, op.steps[i], d).value <= to
    ensures
      var x := StepOf(table, Plenty(table, depth), op, i, values, produced, docs, d);
      && Full(x, specs.Keys, fields, from, SumStep(Rows(), table, op.steps[i], d).value, SumStep(Silent(), table, op.steps[i], d).value, to)
      && (forall m: Mark | SumStep(Shun(m), table, op.steps[i], d).None? :: Shows(x, fields, m))
      && (SumStep(Lock(specs), table, op.steps[i], d).None? ==> Unshared(x, specs))
    decreases d, 1, 1
  {
    hide Full;
    hide Shows;
    hide Unshared;
    hide Stocked;
    hide Plenty;
    hide TouchOf;
    hide RunOf;
    hide Sum;
    hide Spent;
    hide Tally;
    var step := op.steps[i];
    assert step in op.steps;
    if step.Touch? {
      TouchFull(table, depth, op, i, values, produced, docs, specs.Keys, fields, specs, from, to);
    } else {
      StepGives(table, depth, op, i, values, produced);
      RunFull(table, table[Pin(step.operation, step.version)], map[AT := Tally(from)], docs, fields, specs, from, to, d, depth);
    }
  }

  /** The first `n` steps come to what they are worth, and show what they are about. */
  ghost predicate Meet(x: Effect, table: Table, steps: seq<Step>, fields: set<Name>, specs: Specs, from: nat, to: nat, d: nat)
    requires SumSteps(Rows(), table, steps, d).Some? && SumSteps(Silent(), table, steps, d).Some?
  {
    && Full(x, specs.Keys, fields, from, SumSteps(Rows(), table, steps, d).value, SumSteps(Silent(), table, steps, d).value, to)
    && (forall m: Mark | SumSteps(Shun(m), table, steps, d).None? :: Shows(x, fields, m))
    && (SumSteps(Lock(specs), table, steps, d).None? ==> Unshared(x, specs))
  }

  lemma MeetNone(table: Table, docs: map<Name, Docs>, fields: set<Name>, specs: Specs, from: nat, to: nat, d: nat)
    requires Stocked(docs, specs.Keys, fields, from, to)
    ensures Meet(Finds(docs, NOTHING, {}, {}), table, [], fields, specs, from, to, d)
  {
    hide Stocked;
  }

  lemma MeetNext(before: Fold, one: Effect, table: Table, steps: seq<Step>, i: nat, fields: set<Name>, specs: Specs, from: nat, to: nat, d: nat)
    requires i < |steps| && SumSteps(Rows(), table, steps[..i + 1], d).Some? && SumSteps(Silent(), table, steps[..i + 1], d).Some?
    requires SumSteps(Rows(), table, steps[..i], d).Some? && SumSteps(Silent(), table, steps[..i], d).Some?
    requires SumStep(Rows(), table, steps[i], d).Some? && SumStep(Silent(), table, steps[i], d).Some?
    requires Meet(before.e, table, steps[..i], fields, specs, from, to, d)
    requires Full(one, specs.Keys, fields, from + SumSteps(Rows(), table, steps[..i], d).value, SumStep(Rows(), table, steps[i], d).value,
                  SumStep(Silent(), table, steps[i], d).value, to)
    requires forall m: Mark | SumStep(Shun(m), table, steps[i], d).None? :: Shows(one, fields, m)
    requires SumStep(Lock(specs), table, steps[i], d).None? ==> Unshared(one, specs)
    ensures Meet(Joined(before, one, steps[i].tag).e, table, steps[..i + 1], fields, specs, from, to, d)
  {
    SumStepsPush(Rows(), table, steps, i, d);
    SumStepsPush(Silent(), table, steps, i, d);
    SumStepsPush(Lock(specs), table, steps, i, d);
    hide SumStep;
    hide SumSteps;
    hide Joined;
    hide Shows;
    hide Unshared;
    hide Rows;
    hide Silent;
    hide Lock;
    hide Shun;
    JoinedFull(before, one, steps[i].tag, specs.Keys, fields, from, SumSteps(Rows(), table, steps[..i], d).value,
      SumSteps(Silent(), table, steps[..i], d).value, SumStep(Rows(), table, steps[i], d).value, SumStep(Silent(), table, steps[i], d).value, to);
    assert one.ok;
    hide Full;
    JoinedShows(before, one, steps[i].tag, fields, specs);
    forall m: Mark | SumSteps(Shun(m), table, steps[..i + 1], d).None? ensures Shows(Joined(before, one, steps[i].tag).e, fields, m) {
      SumStepsPush(Shun(m), table, steps, i, d);
    }
  }

  lemma {:induction false} StepsFull(table: Table, op: Operation, values: Values, docs: map<Name, Docs>, fields: set<Name>, specs: Specs,
                                     from: nat, to: nat, n: nat, d: nat, depth: nat)
    requires d <= depth && n <= |op.steps| && SumSteps(Rows(), table, op.steps[..n], d).Some? && SumSteps(Silent(), table, op.steps[..n], d).Some?
    requires Sound(op, specs) && forall p | p in table :: Sound(table[p], specs)
    requires From(values) == from && Stocked(docs, specs.Keys, fields, from, to) && from + SumSteps(Rows(), table, op.steps[..n], d).value <= to
    ensures Meet(StepsOf(table, Plenty(table, depth), op, values, docs, n, d).e, table, op.steps[..n], fields, specs, from, to, d)
    decreases d, 2, n
  {
    hide Shows;
    hide Unshared;
    hide Plenty;
    hide StepOf;
    hide SumStep;
    hide Joined;
    hide Rows;
    hide Silent;
    hide Lock;
    hide Shun;
    hide Sound;
    hide From;
    hide Stocked;
    if n == 0 {
      MeetNone(table, docs, fields, specs, from, to, d);
    } else {
      SumStepsPush(Rows(), table, op.steps, n - 1, d);
      SumStepsPush(Silent(), table, op.steps, n - 1, d);
      StepsFull(table, op, values, docs, fields, specs, from, to, n - 1, d, depth);
      StepsStay(Rows(), table, op.steps[..n - 1], d, depth);
      var before := StepsOf(table, Plenty(table, depth), op, values, docs, n - 1, d);
      var w := SumSteps(Rows(), table, op.steps[..n - 1], d).value;
      assert Spent(table, op, n - 1, depth) == w;
      hide SumSteps;
      StepFull(table, op, n - 1, values, before.produced, before.e.docs, fields, specs, from + w, to, d, depth);
      var one := StepOf(table, Plenty(table, depth), op, n - 1, values, before.produced, before.e.docs, d);
      assert before.e.ok;
      MeetNext(before, one, table, op.steps, n - 1, fields, specs, from, to, d);
    }
  }

  // ---- what is promised is reached ----

  /**
   For every operation with a ceiling there are arguments and documents on which its
   run returns and changes exactly that many rows, one less for each count and digest
   on the way. That run touches every collection, walks every index and returns every
   field, or a whole document, that anything it reaches gives cause for. Where the
   lock may not be shared it changes something or looks into a partition.
   */
  lemma CeilingReached(table: Table, specs: Specs, op: Operation, n: nat, fields: set<Name>)
    returns (terms: Terms, values: Values, docs: map<Name, Docs>, silent: nat)
    requires Sums(Rows(), table, op, n) && Sound(op, specs) && forall p | p in table :: Sound(table[p], specs)
    ensures docs.Keys == specs.Keys && Sums(Silent(), table, op, silent)
    ensures forall d: nat | Sum(Ends(), table, op, d).Some? ::
      var x := RunOf(table, terms, op, values, docs, d);
      && x.ok && |x.r.rows| + x.r.changed + silent == n
      && (forall m: Mark | NeverSums(Shun(m), table, op) :: Shows(x, fields, m))
      && (NeverSums(Lock(specs), table, op) ==> Unshared(x, specs))
  {
    hide Shows;
    hide Unshared;
    hide Plenty;
    hide Stocked;
    var depth: nat :| Sum(Rows(), table, op, depth) == Some(n);
    hide Sum;
    SilentThere(table, op, depth);
    EasierSums(Rows(), Ends(), table, op, depth);
    silent := Sum(Silent(), table, op, depth).value;
    terms, values, docs := Plenty(table, depth), map[], Stock(specs.Keys, fields, n);
    StockIsStocked(specs.Keys, fields, n);
    hide Stock;
    RunFull(table, op, values, docs, fields, specs, 0, n, depth, depth);
    forall d: nat | Sum(Ends(), table, op, d).Some? ensures RunOf(table, terms, op, values, docs, d) == RunOf(table, terms, op, values, docs, depth) {
      if d <= depth {
        RunStays(table, terms, op, values, docs, d, depth);
      } else {
        RunStays(table, terms, op, values, docs, depth, d);
      }
    }
    hide RunOf;
  }

  /** Where nothing that is reached counts or digests, every row of the ceiling is one that is returned or changed. */
  lemma {:induction false} NothingSilent(table: Table, op: Operation, d: nat)
    requires op.action !in {Count, HashRange} && (forall p | p in table :: table[p].action !in {Count, HashRange}) && Sum(Silent(), table, op, d).Some?
    ensures Sum(Silent(), table, op, d) == Some(0)
    decreases d, 1, 0
  {
    if op.action == Batch { NoStepSilent(table, op.steps, d - 1); }
  }

  lemma {:induction false} NoStepSilent(table: Table, steps: seq<Step>, d: nat)
    requires (forall p | p in table :: table[p].action !in {Count, HashRange}) && SumSteps(Silent(), table, steps, d).Some?
    ensures SumSteps(Silent(), table, steps, d) == Some(0)
    decreases d, 2, |steps|
  {
    if steps != [] {
      NoStepSilent(table, steps[..|steps| - 1], d);
      var last := steps[|steps| - 1];
      if last.Call? { NothingSilent(table, table[Pin(last.operation, last.version)], d); }
    }
  }

  /** A count and a digest are worth one to whoever calls them, and they are silent; without a limit they are worth nothing at all. */
  lemma SilentIsOne(table: Table, op: Operation)
    requires op.action in {Count, HashRange}
    ensures op.limit > 0 ==> Sums(Rows(), table, op, 1) && Sums(Silent(), table, op, 1)
    ensures op.limit <= 0 ==> NeverSums(Rows(), table, op)
  {
    OwnSums(Rows(), table, op);
    OwnSums(Silent(), table, op);
  }
}
