/**
 Running a declared operation against the documents, loop by loop, and that it comes
 to exactly what the declarations, the arguments and the data make of it.
 */
module Execution {
  import opened Options
  import opened Operations
  import opened Effects

  /** The documents less some of one collection. */
  ghost predicate Lacks(now: map<Name, Docs>, before: map<Name, Docs>, c: Name, taken: set<Value>) {
    c in before && now == before[c := before[c] - taken]
  }

  lemma LacksNothing(docs: map<Name, Docs>, c: Name)
    requires c in docs
    ensures Lacks(docs, docs, c, {})
  {
    assert docs[c] - {} == docs[c];
  }

  lemma LacksOne(now: map<Name, Docs>, before: map<Name, Docs>, c: Name, taken: set<Value>, key: Value)
    requires Lacks(now, before, c, taken)
    ensures c in now && (key in now[c] <==> key in before[c] && key !in taken)
    ensures Lacks(now[c := now[c] - {key}], before, c, taken + {key})
  {
    assert before[c] - taken - {key} == before[c] - (taken + {key});
  }

  lemma OneMore(taken: set<Value>, key: Value, among: set<Value>)
    ensures |(taken + {key}) * among| == |taken * among| + if key in among && key !in taken then 1 else 0
  {
    if key in among && key !in taken {
      assert (taken + {key}) * among == taken * among + {key};
    } else {
      assert (taken + {key}) * among == taken * among;
    }
  }

  lemma TakenFront(keys: seq<Value>, n: nat)
    ensures var front := keys[..Least(n, |keys|)]; Taken(front, |front|) == Taken(keys, n)
  {
  }

  lemma TakenNone(keys: seq<Value>)
    ensures Taken(keys, 0) == {}
  {
  }

  lemma TakenNext(keys: seq<Value>, j: nat)
    requires j < |keys|
    ensures Taken(keys, j + 1) == Taken(keys, j) + {keys[j]} && (keys[j] in keys[..j] <==> keys[j] in Taken(keys, j))
  {
  }

  lemma LastNext(keys: seq<Value>, j: nat, among: set<Value>)
    requires j < |keys|
    ensures LastOf(keys[..j + 1], among) == if keys[j] in among && keys[j] !in keys[..j] then Some(keys[j]) else LastOf(keys[..j], among)
  {
    assert keys[..j + 1][..j] == keys[..j];
  }

  /** What one key more adds to what was removed. */
  lemma RemovedNext(keys: seq<Value>, j: nat, among: set<Value>)
    requires j < |keys|
    ensures
      var taken, hit := Taken(keys, j), keys[j] in among && keys[j] !in Taken(keys, j);
      && Taken(keys, j + 1) == taken + {keys[j]}
      && |Taken(keys, j + 1) * among| == |taken * among| + (if hit then 1 else 0)
      && LastOf(keys[..j + 1], among) == if hit then Some(keys[j]) else LastOf(keys[..j], among)
  {
    hide LastOf;
    TakenNext(keys, j);
    OneMore(Taken(keys, j), keys[j], among);
    LastNext(keys, j, among);
  }

  /** Where a machine stands. */
  datatype Stand = Stand(docs: map<Name, Docs>, committed: map<Name, Docs>, pending: bool, touched: set<Name>, walked: set<Name>)

  ghost function After(s: Stand, x: Effect): Stand {
    Stand(x.docs, s.committed, s.pending || x.wrote, s.touched + x.touched, s.walked + x.walked)
  }

  lemma AfterJoined(s: Stand, before: Fold, one: Effect, tag: Name)
    ensures After(After(s, before.e), one) == After(s, Joined(before, one, tag).e)
  {
  }

  lemma AfterLook(s: Stand, seen: set<Name>, x: Effect)
    ensures After(s.(touched := s.touched + seen), x) == After(s, x.(touched := x.touched + seen))
    ensures forall docs | docs == s.docs :: After(s, Fails(docs, seen, {})) == s.(touched := s.touched + seen)
  {
  }

  lemma AfterNothing(s: Stand)
    ensures forall r :: After(s, Finds(s.docs, r, {}, {})) == s
    ensures After(s, Fails(s.docs, {}, {})) == s
  {
  }

  class Machine {
    const table: Table
    const specs: Specs
    const terms: Terms
    var docs: map<Name, Docs>
    var committed: map<Name, Docs>
    /** Something has been written since the last commit. */
    var pending: bool
    /** The collections whose documents were looked at or changed, and the indexes that were walked. */
    ghost var touched: set<Name>
    ghost var walked: set<Name>

    ghost predicate Valid()
      reads this
    {
      docs.Keys == specs.Keys && (!pending ==> docs == committed) && committed.Keys == specs.Keys && "" !in specs
    }

    constructor (table: Table, specs: Specs, terms: Terms, docs: map<Name, Docs>)
      requires docs.Keys == specs.Keys && "" !in specs
      ensures Valid() && this.table == table && this.specs == specs && this.terms == terms && this.docs == docs && committed == docs
      ensures !pending && touched == {} && walked == {}
    {
      this.table, this.specs, this.terms, this.docs := table, specs, terms, docs;
      committed, pending, touched, walked := docs, false, {}, {};
    }

    ghost function Here(): Stand
      reads this
    {
      Stand(docs, committed, pending, touched, walked)
    }

    /** What happened since is exactly this, and nothing was committed. */
    twostate predicate Does(x: Effect, ok: bool, r: Answer)
      reads this
    {
      ok == x.ok && r == x.r && Here() == After(old(Here()), x)
    }

    /** Collection.Get */
    method Fetch(collection: Name, key: Value) returns (found: Option<Doc>)
      requires Valid() && collection in specs
      modifies this`touched
      ensures Valid() && touched == old(touched) + {collection}
      ensures found == if key in docs[collection] then Some(docs[collection][key]) else None
    {
      touched := touched + {collection};
      return if key in docs[collection] then Some(docs[collection][key]) else None;
    }

    /** Collection.PutBy: the key the document went under, one made for it if it carries none, or a refusal. */
    method Store(collection: Name, document: Doc) returns (key: Option<Value>)
      requires Valid() && collection in specs
      modifies this`docs, this`pending, this`touched
      ensures Valid() && touched == old(touched) + {collection} && committed == old(committed)
      ensures
        var placed := Placed(terms, collection, document, old(docs)[collection]);
        if placed.None? then key.None? && docs == old(docs) && pending == old(pending)
        else key == Some(placed.value.0) && docs == old(docs)[collection := old(docs)[collection][placed.value.0 := placed.value.1]] && pending
    {
      touched := touched + {collection};
      var path := terms.keyPath(collection);
      key := if path in document then Some(document[path]) else terms.mint(collection, document, docs[collection]);
      if key.None? {
        return;
      }
      var complete := document[path := key.value];
      if !terms.accepts(collection, complete, docs[collection]) {
        return None;
      }
      docs := docs[collection := docs[collection][key.value := complete]];
      pending := true;
    }

    /** Collection.DeleteBy */
    method Drop(collection: Name, key: Value) returns (removed: bool)
      requires Valid() && collection in specs
      modifies this`docs, this`pending, this`touched
      ensures Valid() && touched == old(touched) + {collection} && committed == old(committed)
      ensures removed <==> key in old(docs)[collection]
      ensures docs == old(docs)[collection := old(docs)[collection] - {key}] && pending == (old(pending) || removed)
    {
      touched := touched + {collection};
      removed := key in docs[collection];
      if removed {
        docs := docs[collection := docs[collection] - {key}];
        pending := true;
      } else {
        assert docs[collection] - {key} == docs[collection];
      }
    }

    // ---- operations that are not batches ----

    /** A get. */
    method RunGet(op: Operation, values: Values) returns (ok: bool, r: Answer)
      requires Valid() && op.collection in specs
      modifies this`touched
      ensures Valid() && Does(GetOf(terms, op, values, old(docs)), ok, r)
    {
      var key := terms.key(op, values);
      if key.None? {
        return false, NOTHING;
      }
      var document := Fetch(op.collection, key.value);
      if document.None? {
        return true, NOTHING;
      }
      var row := OfDocument(Project(document.value, op.projection));
      if !terms.fits([row]) {
        return false, NOTHING;
      }
      return true, NOTHING.(rows := [row], count := 1);
    }

    /** run, for a scan: the declared stretch, stopped at the declared limit. */
    method RunScan(op: Operation, values: Values) returns (ok: bool, r: Answer)
      requires Valid() && op.collection in specs
      modifies this`touched, this`walked
      ensures Valid() && Does(ScanOf(terms, op, values, old(docs)), ok, r)
      ensures terms.stretch(op, values, docs[op.collection]).None? ==> !ok
      ensures terms.stretch(op, values, docs[op.collection]).Some? && (forall rows :: terms.fits(rows)) ==> ok
      ensures ok ==>
        var keys, here, n := terms.stretch(op, values, docs[op.collection]).value, docs[op.collection], |r.rows|;
        && n <= |keys| && n <= Cap(op.limit) && r.count == n && r.changed == 0
        && (forall i | 0 <= i < n :: keys[i] in here && r.rows[i] == OfDocument(Project(here[keys[i]], op.projection)))
        && (n == |keys| || keys[n] !in here || n == Cap(op.limit))
        && (r.truncated <==> n < |keys| && keys[n] in here)
    {
      hide Project;
      touched := touched + {op.collection};
      r := NOTHING;
      var keys := terms.stretch(op, values, docs[op.collection]);
      if keys.None? {
        return false, r;
      }
      walked := walked + {IndexName(op.index)};
      ghost var here := docs[op.collection];
      ghost var n := Found(keys.value, here);
      var i := 0;
      while i < |keys.value|
        invariant 0 <= i <= n && i <= Cap(op.limit)
        invariant r == NOTHING.(rows := ScanRows(keys.value, here, op.projection, i), count := i)
        invariant forall j: nat | 1 <= j <= i :: terms.fits(ScanRows(keys.value, here, op.projection, j))
      {
        var key := keys.value[i];
        if key !in docs[op.collection] {
          return true, r;
        }
        if |r.rows| >= op.limit {
          return true, r.(truncated := true);
        }
        var row := OfDocument(Project(docs[op.collection][key], op.projection));
        assert r.rows + [row] == ScanRows(keys.value, here, op.projection, i + 1);
        if !terms.fits(r.rows + [row]) {
          return false, NOTHING;
        }
        r := r.(rows := r.rows + [row], count := i + 1);
        i := i + 1;
      }
      return true, r;
    }

    /** run, for a count: without a limit it counts the whole stretch. */
    method RunCount(op: Operation, values: Values) returns (ok: bool, r: Answer)
      requires Valid() && op.collection in specs
      modifies this`touched, this`walked
      ensures Valid() && Does(CountOf(terms, op, values, old(docs)), ok, r)
      ensures ok <==> terms.stretch(op, values, docs[op.collection]).Some?
      ensures ok ==>
        var keys, here, n := terms.stretch(op, values, docs[op.collection]).value, docs[op.collection], r.count;
        && n <= |keys| && (op.limit > 0 ==> n <= op.limit) && (forall i | 0 <= i < n :: keys[i] in here)
        && (n == |keys| || keys[n] !in here || n == op.limit) && r.rows == [] && r.changed == 0
        && (r.truncated <==> n < |keys| && keys[n] in here)
    {
      touched := touched + {op.collection};
      r := NOTHING;
      var keys := terms.stretch(op, values, docs[op.collection]);
      if keys.None? {
        return false, r;
      }
      walked := walked + {IndexName(op.index)};
      ghost var n := Found(keys.value, docs[op.collection]);
      var i := 0;
      while i < |keys.value|
        invariant 0 <= i <= n && (op.limit > 0 ==> i <= op.limit) && r == NOTHING.(count := i)
      {
        if keys.value[i] !in docs[op.collection] {
          return true, r;
        }
        if op.limit > 0 && r.count >= op.limit {
          return true, r.(truncated := true);
        }
        r := r.(count := r.count + 1);
        i := i + 1;
      }
      return true, r;
    }

    /** Totals: rows made up from counts and groups, never a document. */
    method RunTotals(op: Operation, values: Values) returns (ok: bool, r: Answer)
      requires Valid() && op.collection in specs
      modifies this`touched
      ensures Valid() && Does(TotalsOf(terms, op, values, old(docs)), ok, r)
      ensures ok ==>
        && terms.totals(op, values, docs[op.collection]).Some?
        && var groups := terms.totals(op, values, docs[op.collection]).value;
           && r.rows == seq(Least(|groups|, Cap(op.limit)), i requires 0 <= i < |groups| => OfTotals(groups[i]))
           && (r.truncated <==> |groups| > Cap(op.limit)) && r.changed == 0
    {
      touched := touched + {op.collection};
      r := NOTHING;
      var groups := terms.totals(op, values, docs[op.collection]);
      if groups.None? {
        return false, r;
      }
      var i := 0;
      while i < |groups.value|
        invariant 0 <= i <= |groups.value| && i <= Cap(op.limit)
        invariant r == NOTHING.(rows := TotalRows(groups.value, i), count := i)
        invariant forall j: nat | 1 <= j <= i :: terms.fits(TotalRows(groups.value, j))
      {
        if |r.rows| >= op.limit {
          return true, r.(truncated := true);
        }
        var row := OfTotals(groups.value[i]);
        assert r.rows + [row] == TotalRows(groups.value, i + 1);
        if !terms.fits(r.rows + [row]) {
          return false, NOTHING;
        }
        r := r.(rows := r.rows + [row], count := |r.rows| + 1);
        i := i + 1;
      }
      return true, r;
    }

    /** runDeleteRange: the keys are collected first, up to the declared limit, and removed after. */
    method RunDeleteRange(op: Operation, values: Values) returns (ok: bool, r: Answer)
      requires Valid() && op.collection in specs
      modifies this`docs, this`pending, this`touched, this`walked
      ensures Valid() && Does(DeleteRangeOf(terms, op, values, old(docs)), ok, r)
      ensures ok <==> terms.stretch(op, values, old(docs)[op.collection]).Some?
      ensures ok ==>
        var keys := terms.stretch(op, values, old(docs)[op.collection]).value;
        && (r.truncated <==> |keys| > Cap(op.limit))
        && docs == old(docs)[op.collection := old(docs)[op.collection] - Taken(keys, Cap(op.limit))]
        && r.changed == |Taken(keys, Cap(op.limit)) * old(docs)[op.collection].Keys|
        && r.key == LastOf(keys[..Least(Cap(op.limit), |keys|)], old(docs)[op.collection].Keys)
    {
      hide Taken;
      hide LastOf;
      touched := touched + {op.collection};
      r := NOTHING;
      var keys := terms.stretch(op, values, docs[op.collection]);
      if keys.None? {
        return false, r;
      }
      walked := walked + {IndexName(op.index)};
      var removing, more := FirstOf(keys.value, op.limit);
      TakenFront(keys.value, Cap(op.limit));
      var changed, last := RemoveAll(op.collection, removing);
      return true, r.(changed := changed, key := last, truncated := more);
    }

    /** The first half of runDeleteRange: the keys to remove, and whether there are more. */
    method FirstOf(keys: seq<Value>, limit: int) returns (removing: seq<Value>, more: bool)
      ensures removing == keys[..Least(Cap(limit), |keys|)] && (more <==> |keys| > Cap(limit))
    {
      removing, more := [], false;
      var i := 0;
      while i < |keys| && !more
        invariant 0 <= i <= |keys| && i <= Cap(limit) && removing == keys[..i]
        invariant more ==> i == Cap(limit) < |keys|
        decreases |keys| - i, if more then 0 else 1
      {
        if |removing| >= limit {
          more := true;
        } else {
          removing := removing + [keys[i]];
          i := i + 1;
        }
      }
    }

    /** The second half of runDeleteRange: how many were removed, and the last of them. */
    method RemoveAll(collection: Name, removing: seq<Value>) returns (changed: nat, last: Option<Value>)
      requires Valid() && collection in specs && collection in touched
      modifies this`docs, this`pending, this`touched
      ensures Valid() && touched == old(touched) && committed == old(committed)
      ensures Lacks(docs, old(docs), collection, Taken(removing, |removing|))
      ensures changed == |Taken(removing, |removing|) * old(docs)[collection].Keys| <= |removing|
      ensures last == LastOf(removing, old(docs)[collection].Keys) && pending == (old(pending) || changed > 0)
    {
      hide LastOf;
      hide Taken;
      hide Lacks;
      ghost var before, was := docs, pending;
      RemovedNone(collection, removing);
      changed, last := 0, None;
      var j := 0;
      hide Removed;
      while j < |removing|
        invariant 0 <= j <= |removing| && Valid() && committed == old(committed) && touched == old(touched) && collection in before
        invariant Removed(before, was, collection, removing, j, changed, last)
      {
        changed, last := RemoveNext(before, was, collection, removing, j, changed, last);
        j := j + 1;
      }
      RemovedAll(before, was, collection, removing, changed, last);
    }

    /** The first `j` keys are gone, `changed` of them were there, `last` was the last of those. */
    ghost predicate Removed(before: map<Name, Docs>, was: bool, collection: Name, removing: seq<Value>, j: nat, changed: nat, last: Option<Value>)
      requires j <= |removing| && collection in before
      reads this`docs, this`pending
    {
      && Lacks(docs, before, collection, Taken(removing, j)) && changed == |Taken(removing, j) * before[collection].Keys| <= j
      && last == LastOf(removing[..j], before[collection].Keys) && pending == (was || changed > 0)
    }

    lemma RemovedNone(collection: Name, removing: seq<Value>)
      requires Valid() && collection in specs
      ensures Removed(docs, pending, collection, removing, 0, 0, None)
    {
      TakenNone(removing);
      LacksNothing(docs, collection);
      assert removing[..0] == [] && {} * docs[collection].Keys == {};
    }

    lemma RemovedAll(before: map<Name, Docs>, was: bool, collection: Name, removing: seq<Value>, changed: nat, last: Option<Value>)
      requires collection in before && Removed(before, was, collection, removing, |removing|, changed, last)
      ensures Lacks(docs, before, collection, Taken(removing, |removing|))
      ensures changed == |Taken(removing, |removing|) * before[collection].Keys| <= |removing|
      ensures last == LastOf(removing, before[collection].Keys) && pending == (was || changed > 0)
    {
      assert removing[..|removing|] == removing;
    }

    method RemoveNext(ghost before: map<Name, Docs>, ghost was: bool, collection: Name, removing: seq<Value>, j: nat, changed: nat, last: Option<Value>)
      returns (changed1: nat, last1: Option<Value>)
      requires Valid() && collection in specs && collection in touched && j < |removing| && collection in before
      requires Removed(before, was, collection, removing, j, changed, last)
      modifies this`docs, this`pending, this`touched
      ensures Valid() && touched == old(touched) && committed == old(committed)
      ensures Removed(before, was, collection, removing, j + 1, changed1, last1)
    {
      hide LastOf;
      hide Taken;
      hide Lacks;
      RemovedNext(removing, j, before[collection].Keys);
      var removed := DropOneMore(collection, removing[j], before, Taken(removing, j));
      changed1, last1 := if removed then changed + 1 else changed, if removed then Some(removing[j]) else last;
    }

    /** One key more of a collection, of which some have been removed already. */
    method DropOneMore(collection: Name, key: Value, ghost before: map<Name, Docs>, ghost taken: set<Value>) returns (removed: bool)
      requires Valid() && collection in specs && collection in touched && Lacks(docs, before, collection, taken)
      modifies this`docs, this`pending, this`touched
      ensures Valid() && touched == old(touched) && committed == old(committed) && pending == (old(pending) || removed)
      ensures collection in before && (removed <==> key in before[collection] && key !in taken)
      ensures Lacks(docs, before, collection, taken + {key})
    {
      LacksOne(docs, before, collection, taken, key);
      hide Lacks;
      removed := Drop(collection, key);
    }

    /** An insert is refused where its key is taken; a put replaces what was there. */
    method RunPut(c: Name, action: Action, document: Option<Doc>) returns (ok: bool, r: Answer)
      requires Valid() && c in specs && action in {Insert, Put}
      modifies this`docs, this`pending, this`touched
      ensures Valid() && Does(PutOf(terms, c, action, document, old(docs)), ok, r)
    {
      hide Placed;
      r := NOTHING;
      if document.None? {
        return false, r;
      }
      if action == Insert && terms.keyPath(c) in document.value {
        var taken := Fetch(c, document.value[terms.keyPath(c)]);
        if taken.Some? {
          return false, r;
        }
      }
      var key := Store(c, document.value);
      return key.Some?, if key.Some? then r.(key := key, changed := 1) else r;
    }

    /** An update of a document that was found. */
    method RunMerge(c: Name, key: Value, document: Doc, changes: Option<Doc>) returns (ok: bool, r: Answer)
      requires Valid() && c in specs && c in touched
      modifies this`docs, this`pending, this`touched
      ensures Valid() && Does(MergeOf(terms, c, key, document, changes, old(docs)), ok, r)
    {
      hide Placed;
      r := NOTHING;
      if changes.None? {
        return false, r;
      }
      var stored := Store(c, document + changes.value);
      return stored.Some?, if stored.Some? then r.(key := Some(key), changed := 1) else r;
    }

    method RunDrop(c: Name, key: Value) returns (r: Answer)
      requires Valid() && c in specs
      modifies this`docs, this`pending, this`touched
      ensures Valid() && Does(DropOf(c, key, old(docs)), true, r)
    {
      var removed := Drop(c, key);
      return NOTHING.(key := Some(key), changed := if removed then 1 else 0);
    }

    /** An insert, a put, an update or a delete of one document. */
    method RunWrite(op: Operation, values: Values) returns (ok: bool, r: Answer)
      requires Valid() && op.collection in specs && op.action in {Insert, Put, Update, Delete}
      modifies this`docs, this`pending, this`touched
      ensures Valid() && Does(OwnOf(terms, op, values, old(docs)), ok, r)
    {
      hide PutOf;
      hide MergeOf;
      hide DropOf;
      r := NOTHING;
      if op.action == Insert || op.action == Put {
        ok, r := RunPut(op.collection, op.action, terms.document(op, values));
        return;
      }
      var key := terms.key(op, values);
      if key.None? {
        return false, r;
      }
      if op.action == Update {
        var document := Fetch(op.collection, key.value);
        if document.None? {
          return true, r;
        }
        ok, r := RunMerge(op.collection, key.value, document.value, terms.document(op, values));
        return;
      }
      r := RunDrop(op.collection, key.value);
      return true, r;
    }

    /** runInline, for an operation that reads. */
    method RunRead(op: Operation, values: Values) returns (ok: bool, r: Answer)
      requires Valid() && op.collection in specs && !Writes(op.action)
      modifies this`touched, this`walked
      ensures Valid() && Does(OwnOf(terms, op, values, old(docs)), ok, r)
    {
      hide GetOf;
      hide ScanOf;
      hide CountOf;
      hide TotalsOf;
      match op.action {
        case Get => ok, r := RunGet(op, values);
        case Scan => ok, r := RunScan(op, values);
        case Count => ok, r := RunCount(op, values);
        case Totals => ok, r := RunTotals(op, values);
        case HashRange =>
          touched := touched + {op.collection};
          if terms.stretch(op, values, docs[op.collection]).None? {
            return false, NOTHING;
          }
          walked := walked + {IndexName(op.index)};
          return true, NOTHING;
      }
    }

    /** runInline, for a single action. */
    method RunOwn(op: Operation, values: Values) returns (ok: bool, r: Answer)
      requires Valid() && op.action != Batch
      modifies this`docs, this`pending, this`touched, this`walked
      ensures Valid() && Does(OwnOf(terms, op, values, old(docs)), ok, r)
    {
      if op.collection !in specs {
        return false, NOTHING;
      }
      if op.action == DeleteRange {
        hide DeleteRangeOf;
        ok, r := RunDeleteRange(op, values);
      } else if Writes(op.action) {
        hide OwnOf;
        ok, r := RunWrite(op, values);
      } else {
        hide OwnOf;
        ok, r := RunRead(op, values);
      }
    }

    // ---- batches ----

    /** runStep, for a step that touches a collection. */
    method RunTouch(op: Operation, i: nat, values: Values, produced: Produced) returns (ok: bool, r: Answer)
      requires Valid() && i < |op.steps| && op.steps[i].Touch?
      modifies this`docs, this`pending, this`touched
      ensures Valid() && Does(TouchOf(terms, op, i, values, produced, old(docs)), ok, r)
      ensures !ok ==> docs == old(docs)
      ensures ok ==> op.steps[i].collection in old(docs) && terms.stepKey(op, i, values, produced).Some? && op.steps[i].action in {Get, Insert, Put, Update, Delete}
      ensures ok ==> terms.stepPasses(op, i, values, produced,
                       FoundBy(old(docs)[op.steps[i].collection], terms.stepKey(op, i, values, produced).value))
      ensures ok && op.steps[i].action == Get ==>
        var found := FoundBy(old(docs)[op.steps[i].collection], terms.stepKey(op, i, values, produced).value);
        docs == old(docs) && r.key == terms.stepKey(op, i, values, produced).value && r.rows == if found.Some? then [OfDocument(found.value)] else []
      ensures ok && op.steps[i].action == Delete ==>
        var c, key := op.steps[i].collection, terms.stepKey(op, i, values, produced).value;
        && key.Some? && r.key == key && r.changed == (if key.value in old(docs)[c] then 1 else 0)
        && docs == old(docs)[c := old(docs)[c] - {key.value}]
      ensures ok && op.steps[i].action == Update ==>
        var c, key := op.steps[i].collection, terms.stepKey(op, i, values, produced).value;
        && key.Some? && key.value in old(docs)[c] && r.key == key && r.changed == 1 && terms.stepDocument(op, i, values, produced).Some?
        && var merged, path := old(docs)[c][key.value] + terms.stepDocument(op, i, values, produced).value, terms.keyPath(c);
           path in merged ==> docs == old(docs)[c := old(docs)[c][merged[path] := merged]]
      ensures ok && op.steps[i].action in {Insert, Put} ==>
        && r.changed == 1 && r.key.Some? && terms.stepDocument(op, i, values, produced).Some?
        && var c, document := op.steps[i].collection, terms.stepDocument(op, i, values, produced).value;
           var path := terms.keyPath(c);
           && (path in document ==> r.key.value == document[path] && (op.steps[i].action == Insert ==> r.key.value !in old(docs)[c]))
           && docs == old(docs)[c := old(docs)[c][r.key.value := document[path := r.key.value]]]
    {
      StepChecks(terms, op, i, values, produced, docs);
      if op.steps[i].collection in docs && terms.stepKey(op, i, values, produced).Some? {
        if op.steps[i].action == Get || op.steps[i].action == Delete {
          StepReads(terms, op, i, values, produced, docs);
        } else if op.steps[i].action == Insert || op.steps[i].action == Put {
          StepStores(terms, op, i, values, produced, docs);
        } else if op.steps[i].action == Update {
          StepMerges(terms, op, i, values, produced, docs);
        }
      }
      hide TouchOf;
      ok, r := Touch(op, i, values, produced);
    }

    method Touch(op: Operation, i: nat, values: Values, produced: Produced) returns (ok: bool, r: Answer)
      requires Valid() && i < |op.steps| && op.steps[i].Touch?
      modifies this`docs, this`pending, this`touched
      ensures Valid() && Does(TouchOf(terms, op, i, values, produced, old(docs)), ok, r)
    {
      hide StepActs;
      hide After;
      var c := op.steps[i].collection;
      AfterLook(Here(), {}, Fails(docs, {}, {}));
      if c !in specs {
        return false, NOTHING;
      }
      var key := terms.stepKey(op, i, values, produced);
      if key.None? {
        return false, NOTHING;
      }
      var document: Option<Doc> := None;
      ghost var seen := if key.value.Some? then {c} else {};
      if key.value.Some? {
        document := Fetch(c, key.value.value);
      }
      AfterLook(old(Here()), seen, StepActs(terms, op, i, key.value, document, values, produced, docs));
      assert Here() == old(Here()).(touched := old(touched) + seen);
      if !terms.stepPasses(op, i, values, produced, document) {
        return false, NOTHING;
      }
      ok, r := Act(op, i, key.value, document, values, produced);
    }

    method Act(op: Operation, i: nat, key: Option<Value>, document: Option<Doc>, values: Values, produced: Produced) returns (ok: bool, r: Answer)
      requires Valid() && i < |op.steps| && op.steps[i].Touch? && op.steps[i].collection in specs
      requires document.Some? ==> op.steps[i].collection in touched
      modifies this`docs, this`pending, this`touched
      ensures Valid() && Does(StepActs(terms, op, i, key, document, values, produced, old(docs)), ok, r)
    {
      hide PutOf;
      hide MergeOf;
      hide DropOf;
      hide After;
      AfterNothing(Here());
      r := NOTHING;
      var c := op.steps[i].collection;
      match op.steps[i].action {
        case Get =>
          if document.None? {
            return true, r.(key := key);
          }
          var row := OfDocument(Project(document.value, []));
          if !terms.fits([row]) {
            return false, r;
          }
          return true, r.(rows := [row], count := 1, key := key);
        case Insert => ok, r := RunPut(c, Insert, terms.stepDocument(op, i, values, produced));
        case Put => ok, r := RunPut(c, Put, terms.stepDocument(op, i, values, produced));
        case Update =>
          if key.None? || document.None? {
            return false, r;
          }
          ok, r := RunMerge(c, key.value, document.value, terms.stepDocument(op, i, values, produced));
        case Delete =>
          if key.None? {
            return false, r;
          }
          r := RunDrop(c, key.value);
          return true, r;
        case _ => return false, r;
      }
    }

    /** runSteps: every step in order, each on what the ones before it left, stopping at the first that fails. */
    method RunSteps(op: Operation, values: Values, ghost depth: nat) returns (ok: bool, r: Answer)
      requires Valid() && SumSteps(Ends(), table, op.steps, depth).Some?
      modifies this`docs, this`pending, this`touched, this`walked
      ensures Valid() && Does(StepsOf(table, terms, op, values, old(docs), |op.steps|, depth).e, ok, r)
      decreases depth, 3
    {
      hide SumSteps;
      hide SumStep;
      hide Ends;
      hide StepOf;
      hide StepsOf;
      r := NOTHING;
      var produced: Produced := map[];
      var i := 0;
      StepsNext(table, terms, op, values, docs, 0, depth);
      AfterNothing(Here());
      ghost var docs0, start, before := docs, Here(), StepsOf(table, terms, op, values, docs, 0, depth);
      hide After;
      hide Here;
      while i < |op.steps|
        invariant 0 <= i <= |op.steps| && Valid() && before == StepsOf(table, terms, op, values, docs0, i, depth)
        invariant before.e.ok && r == before.e.r && produced == before.produced && Here() == After(start, before.e) && docs == before.e.docs
      {
        StepsNeed(Ends(), table, op.steps, i, depth);
        StepsNext(table, terms, op, values, docs0, i, depth);
        ghost var x := StepOf(table, terms, op, i, values, produced, docs, depth);
        AfterJoined(start, before, x, op.steps[i].tag);
        var one;
        ok, one := RunStep(op, i, values, produced, depth);
        HereDocs(After(start, before.e), x);
        before := Joined(before, x, op.steps[i].tag);
        i := i + 1;
        if !ok {
          StopsAt(op, values, docs0, i, depth);
          return false, NOTHING;
        }
        r := Answer(r.rows + one.rows, r.changed + one.changed, one.key, r.truncated || one.truncated, |r.rows| + |one.rows|);
        if op.steps[i - 1].tag != "" {
          produced := produced[op.steps[i - 1].tag := one.key];
        }
      }
      return true, r;
    }

    lemma HereDocs(s: Stand, x: Effect)
      ensures Here() == After(s, x) ==> docs == x.docs
    {
    }

    /** A fold that failed stays as it is. */
    lemma {:induction false} StopsAt(op: Operation, values: Values, docs: map<Name, Docs>, n: nat, depth: nat)
      requires n <= |op.steps| && !StepsOf(table, terms, op, values, docs, n, depth).e.ok
      ensures StepsOf(table, terms, op, values, docs, |op.steps|, depth) == StepsOf(table, terms, op, values, docs, n, depth)
      decreases |op.steps| - n
    {
      if n < |op.steps| {
        StopsAt(op, values, docs, n + 1, depth);
      }
    }

    /** runStep and runComposedStep. */
    method RunStep(op: Operation, i: nat, values: Values, produced: Produced, ghost depth: nat) returns (ok: bool, r: Answer)
      requires Valid() && i < |op.steps| && SumStep(Ends(), table, op.steps[i], depth).Some?
      modifies this`docs, this`pending, this`touched, this`walked
      ensures Valid() && Does(StepOf(table, terms, op, i, values, produced, old(docs), depth), ok, r)
      decreases depth, 2
    {
      hide TouchOf;
      hide RunOf;
      match op.steps[i] {
        case Touch(_, _, _) =>
          ok, r := RunTouch(op, i, values, produced);
        case Call(_, name, version) =>
          if Pin(name, version) !in table {
            return false, NOTHING;
          }
          var callee := table[Pin(name, version)];
          var inner := terms.bind(op, i, values, produced);
          if inner.None? {
            return false, NOTHING;
          }
          ok, r := RunCalled(callee, inner.value, depth);
      }
    }

    /** runCalled: inside the transaction that is already open. */
    method RunCalled(op: Operation, values: Values, ghost depth: nat) returns (ok: bool, r: Answer)
      requires Valid() && Sum(Ends(), table, op, depth).Some?
      modifies this`docs, this`pending, this`touched, this`walked
      ensures Valid() && Does(RunOf(table, terms, op, values, old(docs), depth), ok, r)
      decreases depth, 1
    {
      hide OwnOf;
      hide StepsOf;
      if op.action == Batch {
        ok, r := RunSteps(op, values, depth - 1);
      } else {
        ok, r := RunOwn(op, values);
      }
    }

    /** runBatch: all of the steps or none of their effect; refused while something is uncommitted. */
    method RunBatch(op: Operation, values: Values, ghost depth: nat) returns (ok: bool, r: Answer)
      requires Valid() && op.action == Batch && Sum(Ends(), table, op, depth).Some?
      modifies this`docs, this`pending, this`touched, this`walked
      ensures Valid() && committed == old(committed)
      ensures old(pending) ==> !ok && r == NOTHING && Here() == old(Here())
      ensures !old(pending) ==>
        var x := RunOf(table, terms, op, values, old(docs), depth);
        && ok == x.ok && r == x.r && touched == old(touched) + x.touched && walked == old(walked) + x.walked
        && if ok then docs == x.docs && pending == x.wrote else docs == old(docs) && !pending
    {
      hide RunOf;
      if pending {
        return false, NOTHING;
      }
      ok, r := RunCalled(op, values, depth);
      if !ok {
        docs, pending, r := committed, false, NOTHING;
        FailsBare(table, terms, op, values, old(docs), depth);
      }
    }


    /** The transaction: the operation, a batch undone if it failed, a commit if anything changed. */
    method Transact(op: Operation, values: Values, ghost depth: nat) returns (ok: bool, r: Answer)
      requires Valid() && Sum(Ends(), table, op, depth).Some?
      modifies this`docs, this`committed, this`pending, this`touched, this`walked
      ensures Valid()
      ensures op.collection !in specs || (op.action == Batch && old(pending)) ==> !ok && r == NOTHING && Here() == old(Here())
      ensures op.collection in specs && !(op.action == Batch && old(pending)) ==>
        var x := RunOf(table, terms, op, values, old(docs), depth);
        && ok == x.ok && r == x.r && touched == old(touched) + x.touched && walked == old(walked) + x.walked
        && docs == (if op.action == Batch && !ok then old(docs) else x.docs)
        && pending == (!(ok && r.changed > 0) && (old(pending) || (x.wrote && !(op.action == Batch && !ok))))
      ensures committed == if ok && r.changed > 0 then docs else old(committed)
    {
      hide RunOf;
      hide Sum;
      if op.collection !in specs {
        return false, NOTHING;
      }
      if op.action == Batch {
        ok, r := RunBatch(op, values, depth);
      } else {
        ok, r := RunCalled(op, values, depth);
      }
      if ok && r.changed > 0 {
        committed, pending := docs, false;
      }
    }

    /**
     perform: one operation is one transaction. It comes to exactly what the operation
     makes of the documents, a batch that fails to nothing, and what it changed is
     committed. For any operation whose references are there and run out: it returns
     and changes no more rows than its ceiling, if it has one; if it may share the lock
     it changes nothing and reaches no partition; and what it touches, walks and returns
     is what its envelope says.
     */
    method Perform(op: Operation, values: Values) returns (ok: bool, r: Answer)
      requires Valid() && Sums(Ends(), table, op, 0)
      modifies this`docs, this`committed, this`pending, this`touched, this`walked
      ensures Valid()
      ensures op.collection !in specs || (op.action == Batch && old(pending)) ==> !ok && r == NOTHING && Here() == old(Here())
      ensures op.collection in specs && !(op.action == Batch && old(pending)) ==> forall d: nat | Sum(Ends(), table, op, d).Some? ::
        var x := RunOf(table, terms, op, values, old(docs), d);
        && ok == x.ok && r == x.r && touched == old(touched) + x.touched && walked == old(walked) + x.walked
        && docs == (if op.action == Batch && !ok then old(docs) else x.docs)
      ensures committed == if ok && r.changed > 0 then docs else old(committed)
      ensures ok && r.changed > 0 ==> !pending
      ensures op.action == Get && ok ==> docs == old(docs) && terms.key(op, values).Some?
      ensures op.action == Get && ok ==>
        var key := terms.key(op, values).value;
        r.rows == if key in old(docs)[op.collection] then [OfDocument(Project(old(docs)[op.collection][key], op.projection))] else []
      ensures op.action in {Insert, Put} && ok ==>
        && r.changed == 1 && r.key.Some? && terms.document(op, values).Some?
        && var document, path, here := terms.document(op, values).value, terms.keyPath(op.collection), old(docs)[op.collection];
           && (path in document ==> r.key.value == document[path])
           && docs == old(docs)[op.collection := here[r.key.value := document[path := r.key.value]]]
           && (op.action == Insert && path in document ==> r.key.value !in here)
      ensures op.action in {Insert, Put} && op.collection in specs && terms.document(op, values).Some? ==>
        var document, path, here := terms.document(op, values).value, terms.keyPath(op.collection), old(docs)[op.collection];
        && (path in document ==> (ok <==> terms.accepts(op.collection, document, here) && (op.action == Insert ==> document[path] !in here)))
        && (path !in document ==> (ok <==> Minted(terms, op.collection, document, here)))
      ensures op.action == Update && ok ==>
        && terms.key(op, values).Some?
        && var key, here, path := terms.key(op, values).value, old(docs)[op.collection], terms.keyPath(op.collection);
           if key !in here then r == NOTHING && docs == old(docs)
           else
             && r.changed == 1 && r.key == Some(key) && terms.document(op, values).Some?
             && var merged := here[key] + terms.document(op, values).value;
                path in merged ==> docs == old(docs)[op.collection := here[merged[path] := merged]]
      ensures op.action == Delete && op.collection in specs ==> (ok <==> terms.key(op, values).Some?)
      ensures op.action == Delete && ok ==>
        var key, here := terms.key(op, values).value, old(docs)[op.collection];
        && docs == old(docs)[op.collection := here - {key}] && r.key == Some(key) && r.changed == if key in here then 1 else 0
      ensures !ok ==> docs == old(docs) && r == NOTHING
      ensures forall limit: nat | Sums(Rows(), table, op, limit) :: |r.rows| + r.changed <= limit
      ensures Sums(Lock(specs), table, op, 0) ==>
        docs == old(docs) && pending == old(pending) && r.changed == 0 && forall c | c in touched && c !in old(touched) :: Whole(specs, c)
      ensures forall e: Envelope | Sums(Cover(e), table, op, 0) ::
        touched <= old(touched) + e.collections && walked <= old(walked) + e.indexes && RowsWithin(e, r.rows)
    {
      hide RunOf;
      hide OwnOf;
      hide Rows;
      hide Lock;
      hide Cover;
      hide Ends;
      hide Sums;
      hide Sum;
      hide Minted;
      ghost var depth := Deep(op);
      PromisesKept(table, terms, specs, op, values, docs, depth);
      FailsBare(table, terms, op, values, docs, depth);
      SameAtAll(op, values, docs, depth);
      if op.action != Batch && op.collection in specs { ActionsAre(op, values, docs, depth); }
      ok, r := Transact(op, values, depth);
    }

    lemma OwnPut(op: Operation, values: Values, docs0: map<Name, Docs>)
      requires op.action in {Insert, Put} && op.collection in docs0
      ensures OwnOf(terms, op, values, docs0) == PutOf(terms, op.collection, op.action, terms.document(op, values), docs0)
    {
    }

    lemma OwnUpdate(op: Operation, values: Values, docs0: map<Name, Docs>)
      requires op.action == Update && op.collection in docs0
      ensures var x := OwnOf(terms, op, values, docs0);
        && (x.ok ==> terms.key(op, values).Some?)
        && (x.ok ==>
              var key, here, path := terms.key(op, values).value, docs0[op.collection], terms.keyPath(op.collection);
              if key !in here then x.r == NOTHING && x.docs == docs0
              else
                && x.r.changed == 1 && x.r.key == Some(key) && terms.document(op, values).Some?
                && var merged := here[key] + terms.document(op, values).value;
                   path in merged ==> x.docs == docs0[op.collection := here[merged[path] := merged]])
    {
      hide MergeOf;
      if terms.key(op, values).Some? && terms.key(op, values).value in docs0[op.collection] {
        var key := terms.key(op, values).value;
        MergeExactly(terms, op.collection, key, docs0[op.collection][key], terms.document(op, values), docs0);
      }
    }

    /** What the actions on one document come to, and that a single action that fails comes to nothing. */
    lemma ActionsAre(op: Operation, values: Values, docs0: map<Name, Docs>, depth: nat)
      requires op.action != Batch && op.collection in docs0
      ensures var x, here, path := RunOf(table, terms, op, values, docs0, depth), docs0[op.collection], terms.keyPath(op.collection);
        && (!x.ok ==> x.docs == docs0)
        && (op.action == Get && x.ok ==> x.docs == docs0 && terms.key(op, values).Some?)
        && (op.action == Get && x.ok ==>
              var key := terms.key(op, values).value;
              x.r.rows == if key in here then [OfDocument(Project(here[key], op.projection))] else [])
        && (op.action in {Insert, Put} && x.ok ==> x.r.changed == 1 && x.r.key.Some? && terms.document(op, values).Some?)
        && (op.action in {Insert, Put} && x.ok ==>
              var document := terms.document(op, values).value;
              && (path in document ==> x.r.key.value == document[path])
              && x.docs == docs0[op.collection := here[x.r.key.value := document[path := x.r.key.value]]]
              && (op.action == Insert && path in document ==> x.r.key.value !in here))
        && (op.action in {Insert, Put} && terms.document(op, values).Some? ==>
              var document := terms.document(op, values).value;
              && (path in document ==> (x.ok <==> terms.accepts(op.collection, document, here) && (op.action == Insert ==> document[path] !in here)))
              && (path !in document ==> (x.ok <==> Minted(terms, op.collection, document, here))))
        && (op.action == Update && x.ok ==> terms.key(op, values).Some?)
        && (op.action == Update && x.ok ==>
              var key := terms.key(op, values).value;
              if key !in here then x.r == NOTHING && x.docs == docs0
              else
                && x.r.changed == 1 && x.r.key == Some(key) && terms.document(op, values).Some?
                && var merged := here[key] + terms.document(op, values).value;
                   path in merged ==> x.docs == docs0[op.collection := here[merged[path] := merged]])
        && (op.action == Delete ==> (x.ok <==> terms.key(op, values).Some?))
        && (op.action == Delete && x.ok ==>
              var key := terms.key(op, values).value;
              && x.docs == docs0[op.collection := here - {key}] && x.r.key == Some(key) && x.r.changed == if key in here then 1 else 0)
    {
      hide RunOf;
      hide OwnOf;
      hide PutOf;
      hide Minted;
      hide Project;
      IsOwn(op, values, docs0, depth);
      FailsAlone(terms, op, values, docs0);
      if op.action == Get {
        GetExactly(terms, op, values, docs0);
      } else if op.action == Insert || op.action == Put {
        PutExactly(terms, op.collection, op.action, terms.document(op, values), docs0);
        OwnPut(op, values, docs0);
      } else if op.action == Update {
        OwnUpdate(op, values, docs0);
      } else if op.action == Delete {
        DeleteExactly(terms, op, values, docs0);
      }
    }

    lemma Deep(op: Operation) returns (depth: nat)
      requires Sums(Ends(), table, op, 0)
      ensures Sum(Ends(), table, op, depth).Some?
    {
      depth :| Sum(Ends(), table, op, depth) == Some(0);
    }

    lemma IsOwn(op: Operation, values: Values, docs0: map<Name, Docs>, depth: nat)
      requires op.action != Batch
      ensures RunOf(table, terms, op, values, docs0, depth) == OwnOf(terms, op, values, docs0)
    {
    }

    lemma SameAtAll(op: Operation, values: Values, docs0: map<Name, Docs>, depth: nat)
      requires Sum(Ends(), table, op, depth).Some?
      ensures forall d: nat | Sum(Ends(), table, op, d).Some? ::
        RunOf(table, terms, op, values, docs0, d) == RunOf(table, terms, op, values, docs0, depth)
    {
      forall d: nat | Sum(Ends(), table, op, d).Some? ensures RunOf(table, terms, op, values, docs0, d) == RunOf(table, terms, op, values, docs0, depth) {
        SameRun(table, terms, Ends(), op, values, docs0, d, depth);
      }
    }

  }

  /** Whatever a walk has an answer for, its references are there and run out. */
  lemma AnsweredEnds(w: Weigh, table: Table, op: Operation, n: nat)
    requires Sums(w, table, op, n)
    ensures Sums(Ends(), table, op, 0)
  {
    var d: nat :| Sum(w, table, op, d) == Some(n);
    assert Easier(w, Ends());
    EasierSums(w, Ends(), table, op, d);
    EndsInNought(table, op, d);
  }

  /** An operation with a ceiling, one that may share the lock, and one an envelope covers can all be run. */
  lemma SummedEnds(table: Table, specs: Specs, e: Envelope, op: Operation)
    requires (exists limit: nat :: Sums(Rows(), table, op, limit)) || Sums(Lock(specs), table, op, 0) || Sums(Cover(e), table, op, 0)
    ensures Sums(Ends(), table, op, 0)
  {
    hide Sums;
    hide Rows;
    hide Lock;
    hide Cover;
    hide Ends;
    if Sums(Lock(specs), table, op, 0) {
      AnsweredEnds(Lock(specs), table, op, 0);
    } else if Sums(Cover(e), table, op, 0) {
      AnsweredEnds(Cover(e), table, op, 0);
    } else {
      var limit: nat :| Sums(Rows(), table, op, limit);
      AnsweredEnds(Rows(), table, op, limit);
    }
  }

  /** One table has everything another has. */
  ghost predicate Extends(was: Table, now: Table) { forall p | p in was :: p in now && now[p] == was[p] }

  lemma {:induction false} SumGrows(w: Weigh, was: Table, now: Table, op: Operation, d: nat)
    requires Extends(was, now) && Sum(w, was, op, d).Some?
    ensures Sum(w, now, op, d) == Sum(w, was, op, d)
    decreases d, 1, 0
  {
    if op.action == Batch { StepsGrow(w, was, now, op.steps, d - 1); }
  }

  lemma {:induction false} StepsGrow(w: Weigh, was: Table, now: Table, steps: seq<Step>, d: nat)
    requires Extends(was, now) && SumSteps(w, was, steps, d).Some?
    ensures SumSteps(w, now, steps, d) == SumSteps(w, was, steps, d)
    decreases d, 2, |steps|
  {
    if steps != [] {
      StepsGrow(w, was, now, steps[..|steps| - 1], d);
      var last := steps[|steps| - 1];
      if last.Call? { SumGrows(w, was, now, was[Pin(last.operation, last.version)], d); }
    }
  }

  /** A batch that calls only what is in a table whose every operation ends, ends. */
  lemma BatchEnds(table: Table, op: Operation)
    requires AsksForAll(table, op) && op.action == Batch && forall p | p in table :: Sums(Ends(), table, table[p], 0)
    ensures Sums(Ends(), table, op, 0)
  {
    var i := 0;
    AddsStart(Ends(), table, op.steps);
    hide Sums;
    hide Adds;
    while i < |op.steps|
      invariant 0 <= i <= |op.steps| && Adds(Ends(), table, op.steps, i, 0)
    {
      if op.steps[i].Call? {
        AddsCall(Ends(), table, op.steps, i, 0, 0);
      } else {
        AddsTouch(Ends(), table, op.steps, i, 0);
      }
      i := i + 1;
    }
    AddsAll(Ends(), table, op, 0);
  }

  /** Over any declarations, one after another: the references of everything in the table are there and run out. */
  lemma {:induction false} DeclaredEnds(tables: seq<Table>, ops: seq<Operation>, k: nat)
    requires Declared(tables, ops) && k < |tables|
    ensures forall p | p in tables[k] :: Sums(Ends(), tables[k], tables[k][p], 0)
  {
    if k > 0 {
      DeclaredEnds(tables, ops, k - 1);
      var was, op, now := tables[k - 1], ops[k - 1], tables[k];
      assert now == was[At(op) := op] && Extends(was, now);
      if op.action == Batch {
        BatchEnds(was, op);
      } else {
        assert Sum(Ends(), was, op, 0) == Some(0);
      }
      forall p | p in now ensures Sums(Ends(), now, now[p], 0) {
        var d: nat :| Sum(Ends(), was, now[p], d) == Some(0);
        SumGrows(Ends(), was, now, now[p], d);
      }
    }
  }

  lemma {:induction false} EndsInNought(table: Table, op: Operation, d: nat)
    requires Sum(Ends(), table, op, d).Some?
    ensures Sum(Ends(), table, op, d) == Some(0)
    decreases d, 1, 0
  {
    if op.action == Batch { StepsEndInNought(table, op.steps, d - 1); }
  }

  lemma {:induction false} StepsEndInNought(table: Table, steps: seq<Step>, d: nat)
    requires SumSteps(Ends(), table, steps, d).Some?
    ensures SumSteps(Ends(), table, steps, d) == Some(0)
    decreases d, 2, |steps|
  {
    if steps != [] {
      StepsEndInNought(table, steps[..|steps| - 1], d);
      var last := steps[|steps| - 1];
      if last.Call? { EndsInNought(table, table[Pin(last.operation, last.version)], d); }
    }
  }
}
