/**
 What running a declared operation comes to, by value: the documents it leaves, what
 it answers, and what it looked at. What the walks over the declarations promise is
 proved here of every run, and that their promises are met exactly, of one.
 */
module Effects {
  import opened Options
  import opened Operations

  type Value = string
  type Doc = map<Name, Value>
  type Values = map<Name, Value>
  type Docs = map<Value, Doc>

  /** What the steps so far left under their names: a key, or that there was none. */
  type Produced = map<Name, Option<Value>>

  /** A row that is a document or part of one, or one made up from totals. */
  datatype Row = OfDocument(fields: Doc) | OfTotals(fields: Doc)

  datatype Answer = Answer(rows: seq<Row>, changed: nat, key: Option<Value>, truncated: bool, count: nat)

  const NOTHING: Answer := Answer([], 0, None, false, 0)

  /**
   What the declarations leave to the arguments and the data: keys, documents,
   conditions, bounds, bindings, and what a collection makes of a document without a
   key and refuses. A step is known by its operation and its place. None is an error.
   */
  datatype Terms = Terms(
    key: (Operation, Values) -> Option<Value>,
    document: (Operation, Values) -> Option<Doc>,
    stepKey: (Operation, nat, Values, Produced) -> Option<Option<Value>>,
    stepDocument: (Operation, nat, Values, Produced) -> Option<Doc>,
    stepPasses: (Operation, nat, Values, Produced, Option<Doc>) -> bool,
    bind: (Operation, nat, Values, Produced) -> Option<Values>,
    stretch: (Operation, Values, Docs) -> Option<seq<Value>>,
    totals: (Operation, Values, Docs) -> Option<seq<Doc>>,
    keyPath: Name -> Name,
    mint: (Name, Doc, Docs) -> Option<Value>,
    accepts: (Name, Doc, Docs) -> bool,
    fits: seq<Row> -> bool)

  /** How a run ends, what it looked at on the way, collections and indexes walked, and whether anything was written. */
  datatype Effect = Effect(ok: bool, docs: map<Name, Docs>, r: Answer, touched: set<Name>, walked: set<Name>, wrote: bool)

  function Fails(docs: map<Name, Docs>, touched: set<Name>, walked: set<Name>): Effect { Effect(false, docs, NOTHING, touched, walked, false) }

  function Finds(docs: map<Name, Docs>, r: Answer, touched: set<Name>, walked: set<Name>): Effect { Effect(true, docs, r, touched, walked, false) }

  /** project: the whole document, or the declared fields of it. */
  function Project(document: Doc, projection: seq<Name>): Doc {
    if projection == [] then document else map f | f in document && f in projection :: document[f]
  }

  /** A declared limit, none when it is not positive. */
  function Cap(limit: int): nat { if limit <= 0 then 0 else limit }

  function Least(a: nat, b: nat): nat { if a < b then a else b }

  /** How many keys of a stretch have a document, up to the first that has none. */
  function Found(keys: seq<Value>, docs: Docs): (n: nat)
    ensures n <= |keys| && (forall i | 0 <= i < n :: keys[i] in docs) && (n < |keys| ==> keys[n] !in docs)
  {
    if keys == [] || keys[0] !in docs then 0 else 1 + Found(keys[1..], docs)
  }

  /** The first `n` documents of a stretch, each projected. */
  function ScanRows(keys: seq<Value>, docs: Docs, projection: seq<Name>, n: nat): (r: seq<Row>)
    requires n <= |keys| && forall i | 0 <= i < n :: keys[i] in docs
    ensures |r| == n
  {
    seq(n, i requires 0 <= i < n => OfDocument(Project(docs[keys[i]], projection)))
  }

  function TotalRows(groups: seq<Doc>, n: nat): (r: seq<Row>)
    requires n <= |groups|
    ensures |r| == n
  {
    seq(n, i requires 0 <= i < n => OfTotals(groups[i]))
  }

  /** The first `n` keys of a stretch. */
  function Taken(keys: seq<Value>, n: nat): set<Value> { set i | 0 <= i < |keys| && i < n :: keys[i] }

  /** The last of a list of keys that is one of these and was not met before. */
  function LastOf(keys: seq<Value>, among: set<Value>): Option<Value> {
    if keys == [] then None
    else
      var before, last := keys[..|keys| - 1], keys[|keys| - 1];
      if last in among && last !in before then Some(last) else LastOf(before, among)
  }

  /** The last key that is one of these and was not met before is found, if there is one. */
  lemma {:induction false} LastIs(keys: seq<Value>, among: set<Value>, i: nat)
    requires i < |keys| && keys[i] in among && keys[i] !in keys[..i]
    requires forall j | i < j < |keys| :: keys[j] !in among || keys[j] in keys[..j]
    ensures LastOf(keys, among) == Some(keys[i])
  {
    var n := |keys| - 1;
    if i < n {
      var before := keys[..n];
      assert before[..i] == keys[..i];
      forall j | i < j < n ensures before[j] !in among || before[j] in before[..j] { assert before[..j] == keys[..j]; }
      LastIs(before, among, i);
    }
  }

  // ---- what one action comes to ----

  /** The key a document goes under and what is stored there, or a refusal. */
  function Placed(terms: Terms, c: Name, document: Doc, here: Docs): Option<(Value, Doc)> {
    var path := terms.keyPath(c);
    var key := if path in document then Some(document[path]) else terms.mint(c, document, here);
    if key.None? || !terms.accepts(c, document[path := key.value], here) then None else Some((key.value, document[path := key.value]))
  }

  function PutOf(terms: Terms, c: Name, action: Action, document: Option<Doc>, docs: map<Name, Docs>): (x: Effect)
    requires c in docs
    ensures x.docs.Keys == docs.Keys && x.r.rows == [] && x.r.changed <= 1 && x.touched <= {c} && x.walked == {}
    ensures !x.ok ==> x.r == NOTHING && x.docs == docs
  {
    if document.None? then Fails(docs, {}, {})
    else
      var path := terms.keyPath(c);
      if action == Insert && path in document.value && document.value[path] in docs[c] then Fails(docs, {c}, {})
      else match Placed(terms, c, document.value, docs[c])
        case None => Fails(docs, {c}, {})
        case Some((key, stored)) => Effect(true, docs[c := docs[c][key := stored]], NOTHING.(key := Some(key), changed := 1), {c}, {}, true)
  }

  /** An update of a document that is there: the changes go over it. */
  function MergeOf(terms: Terms, c: Name, key: Value, document: Doc, changes: Option<Doc>, docs: map<Name, Docs>): (x: Effect)
    requires c in docs
    ensures x.docs.Keys == docs.Keys && x.r.rows == [] && x.r.changed <= 1 && x.touched == {c} && x.walked == {}
    ensures !x.ok ==> x.r == NOTHING && x.docs == docs
  {
    if changes.None? then Fails(docs, {c}, {})
    else match Placed(terms, c, document + changes.value, docs[c])
      case None => Fails(docs, {c}, {})
      case Some((at, stored)) => Effect(true, docs[c := docs[c][at := stored]], NOTHING.(key := Some(key), changed := 1), {c}, {}, true)
  }

  function DropOf(c: Name, key: Value, docs: map<Name, Docs>): (x: Effect)
    requires c in docs
    ensures x.docs.Keys == docs.Keys && x.r.rows == [] && x.r.changed <= 1 && x.touched <= {c} && x.walked == {}
    ensures x.ok
  {
    Effect(true, docs[c := docs[c] - {key}], NOTHING.(key := Some(key), changed := if key in docs[c] then 1 else 0), {c}, {}, key in docs[c])
  }

  function GetOf(terms: Terms, op: Operation, values: Values, docs: map<Name, Docs>): (x: Effect)
    requires op.collection in docs
    ensures x.docs == docs && x.r.changed == 0 && !x.wrote && |x.r.rows| <= 1 && x.touched <= {op.collection} && x.walked <= {}
    ensures !x.ok ==> x.r == NOTHING
  {
    var c := op.collection;
    match terms.key(op, values)
    case None => Fails(docs, {}, {})
    case Some(key) =>
      if key !in docs[c] then Finds(docs, NOTHING, {c}, {})
      else
        var row := OfDocument(Project(docs[c][key], op.projection));
        if terms.fits([row]) then Finds(docs, NOTHING.(rows := [row], count := 1), {c}, {}) else Fails(docs, {c}, {})
  }

  /** A scan: the documents of its stretch in order, up to its limit, or that they do not fit. */
  ghost function ScanOf(terms: Terms, op: Operation, values: Values, docs: map<Name, Docs>): (x: Effect)
    requires op.collection in docs
    ensures x.docs == docs && x.r.changed == 0 && !x.wrote && |x.r.rows| <= Cap(op.limit) && x.touched <= {op.collection} && x.walked <= {IndexName(op.index)}
    ensures !x.ok ==> x.r == NOTHING
  {
    var c, walked := op.collection, {IndexName(op.index)};
    var keys := terms.stretch(op, values, docs[c]);
    if keys.None? then Fails(docs, {c}, {})
    else
      var n := Found(keys.value, docs[c]);
      var m := Least(n, Cap(op.limit));
      if exists j: nat :: 1 <= j <= m && !terms.fits(ScanRows(keys.value, docs[c], op.projection, j)) then Fails(docs, {c}, walked)
      else Finds(docs, NOTHING.(rows := ScanRows(keys.value, docs[c], op.projection, m), count := m, truncated := n > m), {c}, walked)
  }

  /** A count: how many, stopped at a limit if one is declared. */
  function CountOf(terms: Terms, op: Operation, values: Values, docs: map<Name, Docs>): (x: Effect)
    requires op.collection in docs
    ensures x.docs == docs && x.r.changed == 0 && !x.wrote && |x.r.rows| <= 0 && x.touched <= {op.collection} && x.walked <= {IndexName(op.index)}
    ensures !x.ok ==> x.r == NOTHING
  {
    var c := op.collection;
    var keys := terms.stretch(op, values, docs[c]);
    if keys.None? then Fails(docs, {c}, {})
    else
      var n := Found(keys.value, docs[c]);
      var m := if op.limit > 0 then Least(n, op.limit) else n;
      Finds(docs, NOTHING.(count := m, truncated := n > m), {c}, {IndexName(op.index)})
  }

  /** Totals: rows made up from counts and groups, up to the limit. */
  ghost function TotalsOf(terms: Terms, op: Operation, values: Values, docs: map<Name, Docs>): (x: Effect)
    requires op.collection in docs
    ensures x.docs == docs && x.r.changed == 0 && !x.wrote && |x.r.rows| <= Cap(op.limit) && x.touched <= {op.collection} && x.walked <= {}
    ensures !x.ok ==> x.r == NOTHING
  {
    var c := op.collection;
    var groups := terms.totals(op, values, docs[c]);
    if groups.None? then Fails(docs, {c}, {})
    else
      var m := Least(|groups.value|, Cap(op.limit));
      if exists j: nat :: 1 <= j <= m && !terms.fits(TotalRows(groups.value, j)) then Fails(docs, {c}, {})
      else Finds(docs, NOTHING.(rows := TotalRows(groups.value, m), count := m, truncated := |groups.value| > m), {c}, {})
  }

  /** A digest of a stretch; the digest itself is not part of the answer here. */
  function DigestOf(terms: Terms, op: Operation, values: Values, docs: map<Name, Docs>): (x: Effect)
    requires op.collection in docs
    ensures x.docs == docs && x.r.changed == 0 && !x.wrote && |x.r.rows| <= 0 && x.touched <= {op.collection} && x.walked <= {IndexName(op.index)}
    ensures !x.ok ==> x.r == NOTHING
  {
    var c := op.collection;
    if terms.stretch(op, values, docs[c]).None? then Fails(docs, {c}, {}) else Finds(docs, NOTHING, {c}, {IndexName(op.index)})
  }

  /** deleteRange: the first keys of the stretch go, up to the limit. */
  function DeleteRangeOf(terms: Terms, op: Operation, values: Values, docs: map<Name, Docs>): (x: Effect)
    requires op.collection in docs
    ensures x.docs.Keys == docs.Keys && x.r.rows == [] && x.touched <= {op.collection} && x.walked <= {IndexName(op.index)}
    ensures !x.ok ==> x.r == NOTHING
  {
    var c := op.collection;
    var keys := terms.stretch(op, values, docs[c]);
    if keys.None? then Fails(docs, {c}, {})
    else
      var taken := Taken(keys.value, Cap(op.limit));
      Effect(true, docs[c := docs[c] - taken],
             NOTHING.(changed := |taken * docs[c].Keys|, truncated := |keys.value| > Cap(op.limit),
                      key := LastOf(keys.value[..Least(Cap(op.limit), |keys.value|)], docs[c].Keys)),
             {c}, {IndexName(op.index)}, taken * docs[c].Keys != {})
  }

  /** runInline, for a single action. */
  ghost function OwnOf(terms: Terms, op: Operation, values: Values, docs: map<Name, Docs>): Effect
    requires op.action != Batch
  {
    if op.collection !in docs then Fails(docs, {}, {})
    else match op.action
      case Get => GetOf(terms, op, values, docs)
      case Insert => PutOf(terms, op.collection, Insert, terms.document(op, values), docs)
      case Put => PutOf(terms, op.collection, Put, terms.document(op, values), docs)
      case Update =>
        (match terms.key(op, values)
         case None => Fails(docs, {}, {})
         case Some(key) =>
           if key !in docs[op.collection] then Finds(docs, NOTHING, {op.collection}, {})
           else MergeOf(terms, op.collection, key, docs[op.collection][key], terms.document(op, values), docs))
      case Delete =>
        (match terms.key(op, values)
         case None => Fails(docs, {}, {})
         case Some(key) => DropOf(op.collection, key, docs))
      case Scan => ScanOf(terms, op, values, docs)
      case Totals => TotalsOf(terms, op, values, docs)
      case Count => CountOf(terms, op, values, docs)
      case HashRange => DigestOf(terms, op, values, docs)
      case DeleteRange => DeleteRangeOf(terms, op, values, docs)
  }

  /** runStep, for a step that touches a collection. */
  function TouchOf(terms: Terms, op: Operation, i: nat, values: Values, produced: Produced, docs: map<Name, Docs>): Effect
    requires i < |op.steps| && op.steps[i].Touch?
  {
    var c := op.steps[i].collection;
    if c !in docs then Fails(docs, {}, {})
    else match terms.stepKey(op, i, values, produced)
      case None => Fails(docs, {}, {})
      case Some(key) =>
        var document := if key.Some? && key.value in docs[c] then Some(docs[c][key.value]) else None;
        var seen := if key.Some? then {c} else {};
        if !terms.stepPasses(op, i, values, produced, document) then Fails(docs, seen, {})
        else
          var e := StepActs(terms, op, i, key, document, values, produced, docs);
          e.(touched := e.touched + seen)
  }

  function StepActs(terms: Terms, op: Operation, i: nat, key: Option<Value>, document: Option<Doc>, values: Values, produced: Produced,
                    docs: map<Name, Docs>): Effect
    requires i < |op.steps| && op.steps[i].Touch? && op.steps[i].collection in docs
  {
    var c, action := op.steps[i].collection, op.steps[i].action;
    match action
    case Get =>
      if document.None? then Finds(docs, NOTHING.(key := key), {}, {})
      else
        var row := OfDocument(document.value);
        if terms.fits([row]) then Finds(docs, NOTHING.(rows := [row], count := 1, key := key), {}, {}) else Fails(docs, {}, {})
    case Insert => PutOf(terms, c, Insert, terms.stepDocument(op, i, values, produced), docs)
    case Put => PutOf(terms, c, Put, terms.stepDocument(op, i, values, produced), docs)
    case Update =>
      if key.None? || document.None? then Fails(docs, {}, {})
      else MergeOf(terms, c, key.value, document.value, terms.stepDocument(op, i, values, produced), docs)
    case Delete => if key.None? then Fails(docs, {}, {}) else DropOf(c, key.value, docs)
    case _ => Fails(docs, {}, {})
  }

  // ---- what batches come to ----

  datatype Fold = Fold(e: Effect, produced: Produced)

  /** One step's part added to what came before it. */
  function Joined(before: Fold, one: Effect, tag: Name): Fold {
    var touched, walked := before.e.touched + one.touched, before.e.walked + one.walked;
    if !one.ok then Fold(Effect(false, one.docs, NOTHING, touched, walked, before.e.wrote || one.wrote), before.produced)
    else
      var rows := before.e.r.rows + one.r.rows;
      Fold(Effect(true, one.docs,
                  Answer(rows, before.e.r.changed + one.r.changed, one.r.key, before.e.r.truncated || one.r.truncated, |rows|),
                  touched, walked, before.e.wrote || one.wrote),
           if tag == "" then before.produced else before.produced[tag := one.r.key])
  }

  /** An operation, following references at most `depth` deep. */
  ghost function RunOf(table: Table, terms: Terms, op: Operation, values: Values, docs: map<Name, Docs>, depth: nat): Effect
    decreases depth, 1, 0
  {
    if op.action != Batch then OwnOf(terms, op, values, docs)
    else if depth == 0 then Fails(docs, {}, {})
    else StepsOf(table, terms, op, values, docs, |op.steps|, depth - 1).e
  }

  /** The first `n` steps, each on the documents the ones before it left, up to the first that fails. */
  ghost function StepsOf(table: Table, terms: Terms, op: Operation, values: Values, docs: map<Name, Docs>, n: nat, depth: nat): Fold
    requires n <= |op.steps|
    decreases depth, 2, n
  {
    if n == 0 then Fold(Finds(docs, NOTHING, {}, {}), map[])
    else
      var before := StepsOf(table, terms, op, values, docs, n - 1, depth);
      if !before.e.ok then before
      else Joined(before, StepOf(table, terms, op, n - 1, values, before.produced, before.e.docs, depth), op.steps[n - 1].tag)
  }

  ghost function StepOf(table: Table, terms: Terms, op: Operation, i: nat, values: Values, produced: Produced, docs: map<Name, Docs>,
                        depth: nat): Effect
    requires i < |op.steps|
    decreases depth, 1, 1
  {
    match op.steps[i]
    case Touch(_, _, _) => TouchOf(terms, op, i, values, produced, docs)
    case Call(_, name, version) =>
      var pin := Pin(name, version);
      if pin !in table then Fails(docs, {}, {})
      else match terms.bind(op, i, values, produced)
        case None => Fails(docs, {}, {})
        case Some(inner) => RunOf(table, terms, table[pin], inner, docs, depth)
  }

  lemma StepsNext(table: Table, terms: Terms, op: Operation, values: Values, docs: map<Name, Docs>, i: nat, depth: nat)
    ensures i < |op.steps| ==>
      var before := StepsOf(table, terms, op, values, docs, i, depth);
      StepsOf(table, terms, op, values, docs, i + 1, depth) ==
      if !before.e.ok then before
      else Joined(before, StepOf(table, terms, op, i, values, before.produced, before.e.docs, depth), op.steps[i].tag)
    ensures StepsOf(table, terms, op, values, docs, 0, depth) == Fold(Finds(docs, NOTHING, {}, {}), map[])
  {
    hide StepOf;
    hide Joined;
  }

  /** A run that fails answers nothing. */
  lemma FailsBare(table: Table, terms: Terms, op: Operation, values: Values, docs: map<Name, Docs>, depth: nat)
    ensures var x := RunOf(table, terms, op, values, docs, depth); !x.ok ==> x.r == NOTHING
  {
    hide GetOf;
    hide ScanOf;
    hide CountOf;
    hide TotalsOf;
    hide DigestOf;
    hide DeleteRangeOf;
    hide PutOf;
    hide MergeOf;
    hide DropOf;
    if op.action == Batch && depth > 0 { StepsFailBare(table, terms, op, values, docs, |op.steps|, depth - 1); }
    hide StepsOf;
  }

  lemma {:induction false} StepsFailBare(table: Table, terms: Terms, op: Operation, values: Values, docs: map<Name, Docs>, n: nat, depth: nat)
    requires n <= |op.steps|
    ensures var x := StepsOf(table, terms, op, values, docs, n, depth).e; !x.ok ==> x.r == NOTHING
  {
    hide StepOf;
    if n > 0 { StepsFailBare(table, terms, op, values, docs, n - 1, depth); }
  }

  // ---- the actions on one document, said outright ----

  lemma GetExactly(terms: Terms, op: Operation, values: Values, docs: map<Name, Docs>)
    requires op.action == Get && op.collection in docs
    ensures var x := OwnOf(terms, op, values, docs);
      && x.docs == docs
      && (x.ok ==> terms.key(op, values).Some?)
      && (x.ok ==>
            var key := terms.key(op, values).value;
            x.r.rows == if key in docs[op.collection] then [OfDocument(Project(docs[op.collection][key], op.projection))] else [])
  {
    hide Project;
  }

  /** A put or an insert of a document: it is there under its key, or the one made for it, or nothing has changed. */
  lemma PutExactly(terms: Terms, c: Name, action: Action, given: Option<Doc>, docs: map<Name, Docs>)
    requires action in {Insert, Put} && c in docs
    ensures var x := PutOf(terms, c, action, given, docs);
      && (!x.ok ==> x.docs == docs) && (x.ok ==> given.Some?)
      && (given.Some? ==>
            var document, path, here := given.value, terms.keyPath(c), docs[c];
            && (path in document ==> (x.ok <==> terms.accepts(c, document, here) && (action == Insert ==> document[path] !in here)))
            && (path !in document ==> (x.ok <==> Minted(terms, c, document, here)))
            && (x.ok ==>
                  && x.r.changed == 1 && x.r.key.Some? && (path in document ==> x.r.key.value == document[path])
                  && x.docs == docs[c := here[x.r.key.value := document[path := x.r.key.value]]]))
  {
    if given.Some? {
      var document, path := given.value, terms.keyPath(c);
      assert path in document ==> document[path := document[path]] == document;
    }
  }

  /** A collection makes a key for a document without one, and takes the document with it. */
  predicate Minted(terms: Terms, c: Name, document: Doc, here: Docs) {
    && terms.mint(c, document, here).Some?
    && terms.accepts(c, document[terms.keyPath(c) := terms.mint(c, document, here).value], here)
  }

  /** The changes go over what was there, and the whole under the key it then carries. */
  lemma MergeExactly(terms: Terms, c: Name, key: Value, document: Doc, changes: Option<Doc>, docs: map<Name, Docs>)
    requires c in docs
    ensures var x := MergeOf(terms, c, key, document, changes, docs);
      && (!x.ok ==> x.docs == docs)
      && (x.ok ==> x.r.changed == 1 && x.r.key == Some(key) && changes.Some?)
      && (x.ok ==>
            var merged, path := document + changes.value, terms.keyPath(c);
            path in merged ==> x.docs == docs[c := docs[c][merged[path] := merged]])
  {
    if changes.Some? {
      var merged, path := document + changes.value, terms.keyPath(c);
      assert path in merged ==> merged[path := merged[path]] == merged;
    }
  }

  lemma DeleteExactly(terms: Terms, op: Operation, values: Values, docs: map<Name, Docs>)
    requires op.action == Delete && op.collection in docs
    ensures var x := OwnOf(terms, op, values, docs);
      && (x.ok <==> terms.key(op, values).Some?) && (!x.ok ==> x.docs == docs)
      && (x.ok ==>
            var key, here := terms.key(op, values).value, docs[op.collection];
            && x.docs == docs[op.collection := here - {key}] && x.r.key == Some(key) && x.r.changed == if key in here then 1 else 0)
  {
  }

  function FoundBy(here: Docs, key: Option<Value>): Option<Doc> { if key.Some? && key.value in here then Some(here[key.value]) else None }

  /** What a step needs before it does anything, and that it changes nothing when it fails. */
  lemma StepChecks(terms: Terms, op: Operation, i: nat, values: Values, produced: Produced, docs: map<Name, Docs>)
    requires i < |op.steps| && op.steps[i].Touch?
    ensures var x := TouchOf(terms, op, i, values, produced, docs);
      && (!x.ok ==> x.docs == docs)
      && (x.ok ==> op.steps[i].collection in docs && terms.stepKey(op, i, values, produced).Some? && op.steps[i].action in {Get, Insert, Put, Update, Delete})
      && (x.ok ==> terms.stepPasses(op, i, values, produced, FoundBy(docs[op.steps[i].collection], terms.stepKey(op, i, values, produced).value)))
  {
    hide PutOf;
    hide MergeOf;
  }

  lemma StepReads(terms: Terms, op: Operation, i: nat, values: Values, produced: Produced, docs: map<Name, Docs>)
    requires i < |op.steps| && op.steps[i].Touch? && op.steps[i].collection in docs && terms.stepKey(op, i, values, produced).Some?
    ensures
      var x, key, here := TouchOf(terms, op, i, values, produced, docs), terms.stepKey(op, i, values, produced).value, docs[op.steps[i].collection];
      && (x.ok && op.steps[i].action == Get ==>
            x.docs == docs && x.r.key == key && x.r.rows == if FoundBy(here, key).Some? then [OfDocument(FoundBy(here, key).value)] else [])
      && (x.ok && op.steps[i].action == Delete ==>
            && key.Some? && x.r.key == key && x.r.changed == (if FoundBy(here, key).Some? then 1 else 0)
            && x.docs == docs[op.steps[i].collection := here - {key.value}])
  {
    hide PutOf;
    hide MergeOf;
  }

  lemma StepStores(terms: Terms, op: Operation, i: nat, values: Values, produced: Produced, docs: map<Name, Docs>)
    requires i < |op.steps| && op.steps[i].Touch? && op.steps[i].collection in docs && op.steps[i].action in {Insert, Put}
    ensures
      var x, c, here := TouchOf(terms, op, i, values, produced, docs), op.steps[i].collection, docs[op.steps[i].collection];
      && (x.ok ==> x.r.changed == 1 && x.r.key.Some? && terms.stepDocument(op, i, values, produced).Some?)
      && (x.ok ==>
            var document, path := terms.stepDocument(op, i, values, produced).value, terms.keyPath(c);
            && (path in document ==> x.r.key.value == document[path] && (op.steps[i].action == Insert ==> x.r.key.value !in here))
            && x.docs == docs[c := here[x.r.key.value := document[path := x.r.key.value]]])
  {
    PutExactly(terms, op.steps[i].collection, op.steps[i].action, terms.stepDocument(op, i, values, produced), docs);
    hide PutOf;
    hide MergeOf;
    hide DropOf;
    hide Minted;
  }

  lemma StepMerges(terms: Terms, op: Operation, i: nat, values: Values, produced: Produced, docs: map<Name, Docs>)
    requires i < |op.steps| && op.steps[i].Touch? && op.steps[i].collection in docs && op.steps[i].action == Update
    requires terms.stepKey(op, i, values, produced).Some?
    ensures
      var x, c, here := TouchOf(terms, op, i, values, produced, docs), op.steps[i].collection, docs[op.steps[i].collection];
      var key := terms.stepKey(op, i, values, produced).value;
      && (x.ok ==> FoundBy(here, key).Some? && x.r.key == key && x.r.changed == 1 && terms.stepDocument(op, i, values, produced).Some?)
      && (x.ok ==>
            var merged, path := FoundBy(here, key).value + terms.stepDocument(op, i, values, produced).value, terms.keyPath(c);
            path in merged ==> x.docs == docs[c := here[merged[path] := merged]])
  {
    var c, key := op.steps[i].collection, terms.stepKey(op, i, values, produced).value;
    if FoundBy(docs[c], key).Some? { MergeExactly(terms, c, key.value, docs[c][key.value], terms.stepDocument(op, i, values, produced), docs); }
    hide PutOf;
    hide MergeOf;
    hide DropOf;
  }

  /** A single action that fails leaves the documents alone. */
  lemma FailsAlone(terms: Terms, op: Operation, values: Values, docs: map<Name, Docs>)
    requires op.action != Batch
    ensures var x := OwnOf(terms, op, values, docs); !x.ok ==> x.docs == docs
  {
    hide GetOf;
    hide ScanOf;
    hide CountOf;
    hide TotalsOf;
    hide DigestOf;
    hide Placed;
    hide Taken;
    hide LastOf;
  }

  // ---- how deep one looks makes no difference once the references run out ----

  /** Whether the references of an operation run out. */
  function Ends(): Weigh {
    Weigh((op: Operation) => Some(0), (step: Step) => Some(0))
  }

  lemma {:induction false} RunStays(table: Table, terms: Terms, op: Operation, values: Values, docs: map<Name, Docs>, a: nat, b: nat)
    requires a <= b && Sum(Ends(), table, op, a).Some?
    ensures RunOf(table, terms, op, values, docs, b) == RunOf(table, terms, op, values, docs, a)
    decreases a, 1, 0
  {
    if op.action == Batch {
      assert op.steps[..|op.steps|] == op.steps;
      StepsRunStays(table, terms, op, values, docs, |op.steps|, a - 1, b - 1);
    }
  }

  lemma {:induction false} StepsRunStays(table: Table, terms: Terms, op: Operation, values: Values, docs: map<Name, Docs>, n: nat, a: nat, b: nat)
    requires a <= b && n <= |op.steps| && SumSteps(Ends(), table, op.steps[..n], a).Some?
    ensures StepsOf(table, terms, op, values, docs, n, b) == StepsOf(table, terms, op, values, docs, n, a)
    decreases a, 2, n
  {
    if n > 0 {
      SumStepsPush(Ends(), table, op.steps, n - 1, a);
      StepsRunStays(table, terms, op, values, docs, n - 1, a, b);
      var before := StepsOf(table, terms, op, values, docs, n - 1, a);
      var step := op.steps[n - 1];
      if before.e.ok && step.Call? && Pin(step.operation, step.version) in table {
        var inner := terms.bind(op, n - 1, values, before.produced);
        if inner.Some? {
          RunStays(table, terms, table[Pin(step.operation, step.version)], inner.value, before.e.docs, a, b);
        }
      }
    }
  }

  // ---- what the walks promise, of every run ----

  /** What an envelope lets come back. */
  predicate RowWithin(e: Envelope, r: Row) {
    r.OfTotals? || e.whole || r.fields.Keys <= e.projection
  }

  ghost predicate RowsWithin(e: Envelope, rows: seq<Row>) { forall r | r in rows :: RowWithin(e, r) }

  /** A run that may be shared left the documents as they were and stayed out of partitions. */
  ghost predicate OnlyReads(specs: Specs, x: Effect, docs: map<Name, Docs>) {
    x.docs == docs && x.r.changed == 0 && !x.wrote && forall c | c in x.touched :: Whole(specs, c)
  }

  ghost predicate Within(e: Envelope, x: Effect) {
    x.touched <= e.collections && x.walked <= e.indexes && RowsWithin(e, x.r.rows)
  }

  /** No more rows than the ceiling, of a single action. */
  lemma OwnBounded(terms: Terms, op: Operation, values: Values, docs: map<Name, Docs>)
    requires op.action != Batch
    ensures var x := OwnOf(terms, op, values, docs);
      && x.docs.Keys == docs.Keys && (Rows().own(op).Some? ==> |x.r.rows| + x.r.changed <= Rows().own(op).value)
  {
    hide GetOf;
    hide ScanOf;
    hide CountOf;
    hide TotalsOf;
    hide DigestOf;
    hide PutOf;
    hide MergeOf;
    hide DropOf;
    if op.collection in docs && op.action == DeleteRange {
      FewRemoved(terms, op, values, docs);
    }
    hide DeleteRangeOf;
  }

  lemma FewRemoved(terms: Terms, op: Operation, values: Values, docs: map<Name, Docs>)
    requires op.collection in docs
    ensures DeleteRangeOf(terms, op, values, docs).r.changed <= Cap(op.limit)
  {
    hide LastOf;
    hide Taken;
    var keys := terms.stretch(op, values, docs[op.collection]);
    if keys.Some? { TakenSize(keys.value, Cap(op.limit), docs[op.collection].Keys); }
  }

  lemma {:induction false} TakenSize(keys: seq<Value>, n: nat, among: set<Value>)
    ensures |Taken(keys, n)| <= n && |Taken(keys, n) * among| <= n
  {
    if n > 0 {
      TakenSize(keys, n - 1, among);
      if n <= |keys| {
        assert Taken(keys, n) == Taken(keys, n - 1) + {keys[n - 1]};
        assert Taken(keys, n) * among <= Taken(keys, n - 1) * among + {keys[n - 1]};
        Fewer(Taken(keys, n) * among, Taken(keys, n - 1) * among + {keys[n - 1]});
      } else {
        assert Taken(keys, n) == Taken(keys, n - 1);
      }
    }
  }

  lemma {:induction false} Fewer<T>(a: set<T>, b: set<T>)
    requires a <= b
    ensures |a| <= |b|
  {
    assert b == a + (b - a);
  }

  lemma OwnOnlyReads(terms: Terms, specs: Specs, op: Operation, values: Values, docs: map<Name, Docs>)
    requires op.action != Batch && Lock(specs).own(op).Some?
    ensures OnlyReads(specs, OwnOf(terms, op, values, docs), docs)
  {
    hide GetOf;
    hide ScanOf;
    hide CountOf;
    hide TotalsOf;
    hide DigestOf;
  }

  lemma OwnWithin(terms: Terms, e: Envelope, op: Operation, values: Values, docs: map<Name, Docs>)
    requires op.action != Batch && Cover(e).own(op).Some? && "" !in docs
    ensures Within(e, OwnOf(terms, op, values, docs))
  {
    if op.collection in docs { RowsOwn(terms, e, op, values, docs); }
    hide GetOf;
    hide ScanOf;
    hide CountOf;
    hide TotalsOf;
    hide DigestOf;
    hide DeleteRangeOf;
    hide PutOf;
    hide MergeOf;
    hide DropOf;
    hide RowWithin;
  }

  lemma RowsOwn(terms: Terms, e: Envelope, op: Operation, values: Values, docs: map<Name, Docs>)
    requires op.collection in docs && CoversOwn(e, op)
    ensures op.action == Get ==> RowsWithin(e, GetOf(terms, op, values, docs).r.rows)
    ensures op.action == Scan ==> RowsWithin(e, ScanOf(terms, op, values, docs).r.rows)
    ensures RowsWithin(e, TotalsOf(terms, op, values, docs).r.rows)
  {
    hide Found;
    hide Least;
  }

  lemma TouchBounded(terms: Terms, op: Operation, i: nat, values: Values, produced: Produced, docs: map<Name, Docs>)
    requires i < |op.steps| && op.steps[i].Touch?
    ensures var x := TouchOf(terms, op, i, values, produced, docs);
      && x.docs.Keys == docs.Keys && |x.r.rows| + x.r.changed <= 1 && x.walked == {} && x.touched <= {op.steps[i].collection}
  {
    hide PutOf;
    hide MergeOf;
    hide DropOf;
  }

  lemma TouchOnlyReads(terms: Terms, specs: Specs, op: Operation, i: nat, values: Values, produced: Produced, docs: map<Name, Docs>)
    requires i < |op.steps| && op.steps[i].Touch? && Lock(specs).touch(op.steps[i]).Some?
    ensures OnlyReads(specs, TouchOf(terms, op, i, values, produced, docs), docs)
  {
  }

  lemma TouchWithin(terms: Terms, e: Envelope, op: Operation, i: nat, values: Values, produced: Produced, docs: map<Name, Docs>)
    requires i < |op.steps| && op.steps[i].Touch? && Cover(e).touch(op.steps[i]).Some?
    ensures Within(e, TouchOf(terms, op, i, values, produced, docs))
  {
    TouchBounded(terms, op, i, values, produced, docs);
  }

  /** Whatever the arguments and the data, a run returns and changes no more rows than the operation's ceiling. */
  lemma {:induction false} RunBounded(table: Table, terms: Terms, op: Operation, values: Values, docs: map<Name, Docs>, d: nat)
    ensures var x := RunOf(table, terms, op, values, docs, d);
      && x.docs.Keys == docs.Keys && (Sum(Rows(), table, op, d).Some? ==> |x.r.rows| + x.r.changed <= Sum(Rows(), table, op, d).value)
    decreases d, 1, 0
  {
    if op.action != Batch {
      OwnBounded(terms, op, values, docs);
    } else if d > 0 {
      assert op.steps[..|op.steps|] == op.steps;
      StepsBounded(table, terms, op, values, docs, |op.steps|, d - 1);
    }
  }

  lemma {:induction false} StepBounded(table: Table, terms: Terms, op: Operation, i: nat, values: Values, produced: Produced, docs: map<Name, Docs>, d: nat)
    requires i < |op.steps|
    ensures var x := StepOf(table, terms, op, i, values, produced, docs, d);
      && x.docs.Keys == docs.Keys
      && (SumStep(Rows(), table, op.steps[i], d).Some? ==> |x.r.rows| + x.r.changed <= SumStep(Rows(), table, op.steps[i], d).value)
    decreases d, 1, 1
  {
    hide TouchOf;
    hide RunOf;
    hide Sum;
    var step := op.steps[i];
    if step.Touch? {
      TouchBounded(terms, op, i, values, produced, docs);
    } else if Pin(step.operation, step.version) in table {
      var inner := terms.bind(op, i, values, produced);
      if inner.Some? { RunBounded(table, terms, table[Pin(step.operation, step.version)], inner.value, docs, d); }
    }
  }

  lemma {:induction false} StepsBounded(table: Table, terms: Terms, op: Operation, values: Values, docs: map<Name, Docs>, n: nat, d: nat)
    requires n <= |op.steps|
    ensures var x := StepsOf(table, terms, op, values, docs, n, d).e;
      && x.docs.Keys == docs.Keys
      && (SumSteps(Rows(), table, op.steps[..n], d).Some? ==> |x.r.rows| + x.r.changed <= SumSteps(Rows(), table, op.steps[..n], d).value)
    decreases d, 2, n
  {
    hide StepOf;
    hide SumStep;
    hide Rows;
    hide Joined;
    if n > 0 {
      SumStepsPush(Rows(), table, op.steps, n - 1, d);
      StepsBounded(table, terms, op, values, docs, n - 1, d);
      var before := StepsOf(table, terms, op, values, docs, n - 1, d);
      if before.e.ok {
        StepBounded(table, terms, op, n - 1, values, before.produced, before.e.docs, d);
        JoinedAdds(before, StepOf(table, terms, op, n - 1, values, before.produced, before.e.docs, d), op.steps[n - 1].tag);
      }
    }
  }

  lemma JoinedAdds(before: Fold, one: Effect, tag: Name)
    ensures var x := Joined(before, one, tag).e;
      x.docs == one.docs && |x.r.rows| + x.r.changed <= |before.e.r.rows| + before.e.r.changed + |one.r.rows| + one.r.changed
  {
  }

  /** An operation that may share the lock changes nothing and reaches no partition. */
  lemma {:induction false} RunOnlyReads(table: Table, terms: Terms, specs: Specs, op: Operation, values: Values, docs: map<Name, Docs>, d: nat)
    requires Sum(Lock(specs), table, op, d).Some?
    ensures OnlyReads(specs, RunOf(table, terms, op, values, docs, d), docs)
    decreases d, 1, 0
  {
    if op.action != Batch {
      OwnOnlyReads(terms, specs, op, values, docs);
    } else {
      assert op.steps[..|op.steps|] == op.steps;
      StepsOnlyRead(table, terms, specs, op, values, docs, |op.steps|, d - 1);
    }
  }

  lemma {:induction false} StepOnlyReads(table: Table, terms: Terms, specs: Specs, op: Operation, i: nat, values: Values, produced: Produced,
                                         docs: map<Name, Docs>, d: nat)
    requires i < |op.steps| && SumStep(Lock(specs), table, op.steps[i], d).Some?
    ensures OnlyReads(specs, StepOf(table, terms, op, i, values, produced, docs, d), docs)
    decreases d, 1, 1
  {
    hide TouchOf;
    hide RunOf;
    hide Sum;
    hide OnlyReads;
    hide Lock;
    var step := op.steps[i];
    if step.Touch? {
      TouchOnlyReads(terms, specs, op, i, values, produced, docs);
    } else {
      var inner := terms.bind(op, i, values, produced);
      if inner.Some? {
        RunOnlyReads(table, terms, specs, table[Pin(step.operation, step.version)], inner.value, docs, d);
      } else {
        FailsQuietly(specs, docs);
      }
    }
  }

  lemma FailsQuietly(specs: Specs, docs: map<Name, Docs>)
    ensures OnlyReads(specs, Fails(docs, {}, {}), docs)
  {
  }

  lemma {:induction false} StepsOnlyRead(table: Table, terms: Terms, specs: Specs, op: Operation, values: Values, docs: map<Name, Docs>, n: nat, d: nat)
    requires n <= |op.steps| && SumSteps(Lock(specs), table, op.steps[..n], d).Some?
    ensures OnlyReads(specs, StepsOf(table, terms, op, values, docs, n, d).e, docs)
    decreases d, 2, n
  {
    hide StepOf;
    hide SumStep;
    hide Lock;
    hide Whole;
    if n > 0 {
      SumStepsPush(Lock(specs), table, op.steps, n - 1, d);
      StepsOnlyRead(table, terms, specs, op, values, docs, n - 1, d);
      var before := StepsOf(table, terms, op, values, docs, n - 1, d);
      if before.e.ok { StepOnlyReads(table, terms, specs, op, n - 1, values, before.produced, before.e.docs, d); }
    }
  }

  /** What a run touches, walks and returns is what the envelope says. */
  lemma {:induction false} RunWithin(table: Table, terms: Terms, e: Envelope, op: Operation, values: Values, docs: map<Name, Docs>, d: nat)
    requires Sum(Cover(e), table, op, d).Some? && "" !in docs
    ensures Within(e, RunOf(table, terms, op, values, docs, d))
    decreases d, 1, 0
  {
    if op.action != Batch {
      OwnWithin(terms, e, op, values, docs);
    } else {
      assert op.steps[..|op.steps|] == op.steps;
      StepsWithin(table, terms, e, op, values, docs, |op.steps|, d - 1);
    }
  }

  lemma {:induction false} StepWithin(table: Table, terms: Terms, e: Envelope, op: Operation, i: nat, values: Values, produced: Produced,
                                      docs: map<Name, Docs>, d: nat)
    requires i < |op.steps| && SumStep(Cover(e), table, op.steps[i], d).Some? && "" !in docs
    ensures Within(e, StepOf(table, terms, op, i, values, produced, docs, d))
    decreases d, 1, 1
  {
    hide TouchOf;
    hide RunOf;
    hide Sum;
    hide Cover;
    var step := op.steps[i];
    if step.Touch? {
      TouchWithin(terms, e, op, i, values, produced, docs);
    } else {
      var inner := terms.bind(op, i, values, produced);
      if inner.Some? { RunWithin(table, terms, e, table[Pin(step.operation, step.version)], inner.value, docs, d); }
    }
  }

  lemma {:induction false} StepsWithin(table: Table, terms: Terms, e: Envelope, op: Operation, values: Values, docs: map<Name, Docs>, n: nat, d: nat)
    requires n <= |op.steps| && SumSteps(Cover(e), table, op.steps[..n], d).Some? && "" !in docs
    ensures Within(e, StepsOf(table, terms, op, values, docs, n, d).e)
    decreases d, 2, n
  {
    hide StepOf;
    hide SumStep;
    hide Cover;
    hide RowWithin;
    if n > 0 {
      SumStepsPush(Cover(e), table, op.steps, n - 1, d);
      StepsWithin(table, terms, e, op, values, docs, n - 1, d);
      StepsBounded(table, terms, op, values, docs, n - 1, d);
      var before := StepsOf(table, terms, op, values, docs, n - 1, d);
      if before.e.ok { StepWithin(table, terms, e, op, n - 1, values, before.produced, before.e.docs, d); }
    }
  }

  /** All of it, however deep one looks. */
  lemma PromisesKept(table: Table, terms: Terms, specs: Specs, op: Operation, values: Values, docs: map<Name, Docs>, d: nat)
    requires Sum(Ends(), table, op, d).Some? && "" !in docs
    ensures var x := RunOf(table, terms, op, values, docs, d);
      && x.docs.Keys == docs.Keys && (forall limit: nat | Sums(Rows(), table, op, limit) :: |x.r.rows| + x.r.changed <= limit)
      && (Sums(Lock(specs), table, op, 0) ==> OnlyReads(specs, x, docs))
      && (forall e: Envelope | Sums(Cover(e), table, op, 0) :: Within(e, x))
  {
    hide RunOf;
    hide OnlyReads;
    hide Within;
    hide Rows;
    hide Lock;
    hide Cover;
    hide Ends;
    var x := RunOf(table, terms, op, values, docs, d);
    RunBounded(table, terms, op, values, docs, d);
    forall limit: nat | Sums(Rows(), table, op, limit) ensures |x.r.rows| + x.r.changed <= limit {
      var a: nat :| Sum(Rows(), table, op, a) == Some(limit);
      SameRun(table, terms, Rows(), op, values, docs, a, d);
      RunBounded(table, terms, op, values, docs, a);
    }
    if Sums(Lock(specs), table, op, 0) {
      var a: nat :| Sum(Lock(specs), table, op, a) == Some(0);
      SameRun(table, terms, Lock(specs), op, values, docs, a, d);
      RunOnlyReads(table, terms, specs, op, values, docs, a);
    }
    forall e: Envelope | Sums(Cover(e), table, op, 0) ensures Within(e, x) {
      var a: nat :| Sum(Cover(e), table, op, a) == Some(0);
      SameRun(table, terms, Cover(e), op, values, docs, a, d);
      RunWithin(table, terms, e, op, values, docs, a);
    }
  }

  /** A depth at which any walk has an answer is deep enough to run at. */
  lemma SameRun(table: Table, terms: Terms, w: Weigh, op: Operation, values: Values, docs: map<Name, Docs>, a: nat, d: nat)
    requires Sum(w, table, op, a).Some? && Sum(Ends(), table, op, d).Some?
    ensures RunOf(table, terms, op, values, docs, a) == RunOf(table, terms, op, values, docs, d)
  {
    EasierSums(w, Ends(), table, op, a);
    if a <= d {
      RunStays(table, terms, op, values, docs, a, d);
    } else {
      RunStays(table, terms, op, values, docs, d, a);
    }
  }
}
