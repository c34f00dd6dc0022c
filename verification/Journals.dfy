/**
 The change log a store keeps beside its documents, and a follower that rebuilds
 both from it.
 */
module Journals {
  import opened Options

  type Name = string
  type Value = string
  type Doc = map<Name, Value>
  type Docs = map<Value, Doc>

  /** The caller, and the write id it gave if it gave one. */
  datatype Attribution = Attribution(actor: Name, writeId: Name)

  /** One entry of the log. A read is recorded and changes nothing. */
  datatype Change =
    | PutDoc(lsn: nat, who: Attribution, collection: Name, key: Value, document: Doc)
    | DropDoc(lsn: nat, who: Attribution, collection: Name, key: Value)
    | Declare(lsn: nat, who: Attribution, operation: Name, version: nat, text: Value)
    | Looked(lsn: nat, who: Attribution)

  /** What a write id did. */
  datatype Wrote = Wrote(lsn: nat, key: Value)

  /** Everything one transaction can change. */
  datatype State = State(
    docs: map<Name, Docs>, operations: map<(Name, nat), Value>,
    log: map<nat, Change>, lsn: nat, writes: map<Name, Wrote>)

  /** The collections there are, where their keys are, which of them make a key for a document without one, and what they refuse. */
  datatype Schema = Schema(keyPath: map<Name, Name>, auto: set<Name>, accepts: (Name, Doc, Docs) -> bool)

  // ---- what a log means ----

  /** Where a put goes: under the key its document carries. */
  function PlaceOf(schema: Schema, c: Change): Value
    requires c.PutDoc?
  {
    if Carries(schema, c) && c.collection in schema.keyPath then c.document[schema.keyPath[c.collection]] else c.key
  }

  /** A put carries a key in its document. */
  predicate Carries(schema: Schema, c: Change) {
    c.PutDoc? && c.collection in schema.keyPath ==> schema.keyPath[c.collection] in c.document
  }

  function Effect(schema: Schema, docs: map<Name, Docs>, c: Change): map<Name, Docs> {
    match c
    case PutDoc(_, _, collection, _, document) =>
      if collection in docs then docs[collection := docs[collection][PlaceOf(schema, c) := document]] else docs
    case DropDoc(_, _, collection, key) => if collection in docs then docs[collection := docs[collection] - {key}] else docs
    case Declare(_, _, _, _, _) => docs
    case Looked(_, _) => docs
  }

  /** The documents a log leaves, from the first entry on. */
  function Replay(schema: Schema, start: map<Name, Docs>, full: seq<Change>): map<Name, Docs> {
    if full == [] then start else Effect(schema, Replay(schema, start, full[..|full| - 1]), full[|full| - 1])
  }

  function Declared(start: map<(Name, nat), Value>, full: seq<Change>): map<(Name, nat), Value> {
    if full == [] then start
    else
      var before, c := Declared(start, full[..|full| - 1]), full[|full| - 1];
      if c.Declare? then before[(c.operation, c.version) := c.text] else before
  }

  function KeyIn(c: Change): Value { if c.PutDoc? || c.DropDoc? then c.key else "" }

  /** What write ids a log remembers: the last entry each was on. */
  function Noted(full: seq<Change>): map<Name, Wrote> {
    if full == [] then map[]
    else
      var before, c := Noted(full[..|full| - 1]), full[|full| - 1];
      if c.who.writeId == "" then before else before[c.who.writeId := Wrote(c.lsn, KeyIn(c))]
  }

  lemma Push(schema: Schema, start: map<Name, Docs>, declared: map<(Name, nat), Value>, full: seq<Change>, c: Change)
    ensures Replay(schema, start, full + [c]) == Effect(schema, Replay(schema, start, full), c)
    ensures Declared(declared, full + [c]) == if c.Declare? then Declared(declared, full)[(c.operation,
        c.version) := c.text] else Declared(declared, full)
    ensures Noted(full + [c]) == if c.who.writeId == "" then Noted(full) else Noted(full)[c.who.writeId := Wrote(c.lsn, KeyIn(c))]
  {
    assert (full + [c])[..|full|] == full;
  }

  /** The entries a log that keeps `retain` of them still has: all of them when it is zero. */
  ghost predicate Kept(log: map<nat, Change>, full: seq<Change>, retain: nat) {
    && (forall k: nat :: k in log <==> 1 <= k <= |full| && (retain == 0 || k + retain > |full|))
    && (forall k | k in log && 1 <= k <= |full| :: log[k] == full[k - 1])
  }

  /** A log keeps as many entries as it is told to, once there are that many. */
  lemma KeptCount(log: map<nat, Change>, full: seq<Change>, retain: nat)
    requires Kept(log, full, retain)
    ensures |log| == if retain == 0 || |full| <= retain then |full| else retain
  {
    var first := if retain == 0 || |full| <= retain then 1 else |full| - retain + 1;
    Stretch(log.Keys, first, |full| + 1);
  }

  lemma {:induction false} Stretch(s: set<nat>, lo: nat, hi: nat)
    requires lo <= hi && forall k: nat :: k in s <==> lo <= k < hi
    ensures |s| == hi - lo
    decreases hi - lo
  {
    if lo < hi {
      Stretch(s - {lo}, lo + 1, hi);
    } else {
      assert s == {};
    }
  }

  ghost predicate Numbered(full: seq<Change>) { forall i | 0 <= i < |full| :: full[i].lsn == i + 1 }

  /** The state is exactly what its log says, entry by entry. */
  ghost predicate Tells(schema: Schema, s: State, start: map<Name, Docs>, full: seq<Change>, retain: nat) {
    && s.lsn == |full| && Numbered(full) && Kept(s.log, full, retain)
    && s.docs == Replay(schema, start, full) && s.operations == Declared(map[], full)
    && (retain == 0 ==> s.writes == Noted(full))
  }

  /** One of the first `n` entries has this number. */
  ghost predicate Lists(cs: seq<Change>, n: nat, k: nat)
    requires n <= |cs|
  {
    exists j :: 0 <= j < n && cs[j].lsn == k
  }

  lemma ListsMore(cs: seq<Change>, c: Change)
    ensures forall k: nat :: Lists(cs, |cs|, k) ==> Lists(cs + [c], |cs| + 1, k)
    ensures Lists(cs + [c], |cs| + 1, c.lsn)
  {
    var all := cs + [c];
    assert all[|cs|] == c;
    forall k: nat | Lists(cs, |cs|, k) ensures Lists(all, |all|, k) {
      var j :| 0 <= j < |cs| && cs[j].lsn == k;
      assert all[j] == cs[j];
    }
  }

  lemma {:induction false} ReplayKeys(schema: Schema, start: map<Name, Docs>, full: seq<Change>)
    ensures Replay(schema, start, full).Keys == start.Keys
  {
    if full != [] { ReplayKeys(schema, start, full[..|full| - 1]); }
  }

  /** What an entry the leader wrote looks like: a put carries a key, and was accepted where it was made. */
  ghost predicate Fair(schema: Schema, docs: map<Name, Docs>, c: Change) {
    match c
    case PutDoc(_, _, collection, key, document) =>
      && collection in schema.keyPath && collection in docs && Carries(schema, c)
      && schema.accepts(collection, document, docs[collection])
    case DropDoc(_, _, collection, _) => collection in schema.keyPath
    case Declare(_, _, _, _, _) => true
    case Looked(_, _) => true
  }

  ghost predicate AllFair(schema: Schema, start: map<Name, Docs>, full: seq<Change>) {
    forall i | 0 <= i < |full| :: Fair(schema, Replay(schema, start, full[..i]), full[i])
  }

  lemma FairPush(schema: Schema, start: map<Name, Docs>, full: seq<Change>, c: Change)
    requires AllFair(schema, start, full) && Fair(schema, Replay(schema, start, full), c)
    ensures AllFair(schema, start, full + [c])
  {
    hide Fair;
    hide Replay;
    var all := full + [c];
    forall i | 0 <= i < |all| ensures Fair(schema, Replay(schema, start, all[..i]), all[i]) {
      if i < |full| { assert all[..i] == full[..i]; } else { assert all[..i] == full; }
    }
  }

  lemma FairPrefix(schema: Schema, start: map<Name, Docs>, full: seq<Change>, k: nat)
    requires AllFair(schema, start, full) && k <= |full|
    ensures AllFair(schema, start, full[..k])
  {
    hide Fair;
    hide Replay;
    var some := full[..k];
    forall i | 0 <= i < |some| ensures Fair(schema, Replay(schema, start, some[..i]), some[i]) { assert some[..i] == full[..i]; }
  }

  /** How many entries go out in one batch. */
  const BATCH: nat := 512

  /** The oldest entry a log that keeps `retain` of them has. */
  function Oldest(full: seq<Change>, retain: nat): nat {
    if full == [] then 0 else if retain == 0 || |full| <= retain then 1 else |full| - retain + 1
  }

  /** A reader at `from` has not been overtaken by trimming. */
  predicate Reaches(full: seq<Change>, retain: nat, from: nat) {
    from > |full| || (from >= 1 && (retain == 0 || from + retain > |full|))
  }

  /** The entries from `from` on, as many as one batch takes. */
  function Batch(full: seq<Change>, from: nat): (b: seq<Change>)
    ensures |b| <= BATCH
  {
    if from == 0 || from > |full| then []
    else if |full| - (from - 1) <= BATCH then full[from - 1..]
    else full[from - 1..from - 1 + BATCH]
  }

  lemma BatchIs(full: seq<Change>, from: nat, batch: seq<Change>)
    requires |batch| <= BATCH && (batch != [] ==> from >= 1 && from - 1 + |batch| <= |full|)
    requires forall j | 0 <= j < |batch| :: batch[j] == full[from - 1 + j]
    requires |batch| == BATCH || from == 0 || from + |batch| > |full|
    ensures batch == Batch(full, from)
  {
  }

  /** One write of a call, and what a call comes to. */
  datatype Todo = DoPut(collection: Name, document: Doc, minted: Value) | DoDrop(collection: Name, key: Value)

  datatype Reply = Repeated(first: Wrote) | Changed(last: Wrote) | Unchanged | Refused

  datatype Asked = Asked(who: Attribution, work: seq<Todo>)

  /** The key a document goes under: its own, or a fresh one. */
  function Keyed(schema: Schema, collection: Name, document: Doc, minted: Value): Doc
    requires collection in schema.keyPath
  {
    if schema.keyPath[collection] in document then document else document[schema.keyPath[collection] := minted]
  }

  /** The document has a key, or its collection makes one. */
  predicate Keyable(schema: Schema, collection: Name, document: Doc)
    requires collection in schema.keyPath
  {
    schema.keyPath[collection] in document || collection in schema.auto
  }

  /** An entry as a follower takes it: a document without a key is given one where its collection makes them. */
  function Completed(schema: Schema, c: Change, minted: Value): Change {
    if Carries(schema, c) || c.collection !in schema.auto then c else c.(document := Keyed(schema, c.collection, c.document, minted))
  }

  /** What one write of a call comes to, on these documents. */
  datatype Course = Refuses | Nothing | Writes(change: Change)

  function CourseOf(schema: Schema, docs: map<Name, Docs>, lsn: nat, who: Attribution, todo: Todo): Course {
    if todo.collection !in schema.keyPath || todo.collection !in docs then Refuses
    else match todo
      case DoPut(collection, document, minted) =>
        var complete := Keyed(schema, collection, document, minted);
        if Keyable(schema, collection, document) && schema.accepts(collection, complete, docs[collection])
        then Writes(PutDoc(lsn, who, collection, complete[schema.keyPath[collection]], complete))
        else Refuses
      case DoDrop(collection, key) =>
        if key in docs[collection] then Writes(DropDoc(lsn, who, collection, key)) else Nothing
  }

  /** These entries and then the rest, if there is a rest. */
  function Then(made: seq<Change>, rest: Option<seq<Change>>): Option<seq<Change>> {
    if rest.None? then None else Some(made + rest.value)
  }

  lemma ThenMore(made: seq<Change>, c: Change, rest: Option<seq<Change>>)
    ensures Then(made + [c], rest) == Then(made, Then([c], rest)) && Then([], rest) == rest
  {
    if rest.Some? { assert (made + [c]) + rest.value == made + ([c] + rest.value) && [] + rest.value == rest.value; }
  }

  /** The entries a call makes, each numbered after the one before it, or nothing at all when any of its writes is refused. */
  function EntriesOf(schema: Schema, docs: map<Name, Docs>, lsn: nat, who: Attribution, work: seq<Todo>): Option<seq<Change>>
    decreases |work|
  {
    if work == [] then Some([])
    else match CourseOf(schema, docs, lsn + 1, who, work[0])
      case Refuses => None
      case Nothing => EntriesOf(schema, docs, lsn, who, work[1..])
      case Writes(c) => Then([c], EntriesOf(schema, Effect(schema, docs, c), lsn + 1, who, work[1..]))
  }

  lemma EntriesStep(schema: Schema, docs: map<Name, Docs>, lsn: nat, who: Attribution, work: seq<Todo>, i: nat)
    requires i <= |work|
    ensures work[0..] == work
    ensures i == |work| ==> EntriesOf(schema, docs, lsn, who, work[i..]) == Some([])
    ensures i < |work| ==>
              var now := EntriesOf(schema, docs, lsn, who, work[i..]);
              match CourseOf(schema, docs, lsn + 1, who, work[i]) {
                case Refuses => now == None
                case Nothing => now == EntriesOf(schema, docs, lsn, who, work[i + 1..])
                case Writes(c) => now == Then([c], EntriesOf(schema, Effect(schema, docs, c), lsn + 1, who, work[i + 1..]))
              }
  {
    if i < |work| { assert work[i..][0] == work[i] && work[i..][1..] == work[i + 1..]; }
  }

  datatype Answer = Answer(reply: Reply, entries: seq<Change>)

  /** What a call is answered, and what it adds to the log, given the documents, the log counter and the write ids on record. */
  function AnswerTo(schema: Schema, docs: map<Name, Docs>, lsn: nat, writes: map<Name, Wrote>, call: Asked): Answer {
    if call.who.writeId != "" && call.who.writeId in writes then Answer(Repeated(writes[call.who.writeId]), [])
    else
      var made := EntriesOf(schema, docs, lsn, call.who, call.work);
      if made.None? then Answer(Refused, [])
      else if made.value == [] then Answer(Unchanged, [])
      else Answer(Changed(Wrote(lsn + |made.value|, KeyIn(made.value[|made.value| - 1]))), made.value)
  }

  /** The same in terms of the log alone, with retention off. */
  ghost function AnswerAt(schema: Schema, start: map<Name, Docs>, full: seq<Change>, call: Asked): Answer {
    AnswerTo(schema, Replay(schema, start, full), |full|, Noted(full), call)
  }

  ghost predicate Answered(schema: Schema, start: map<Name, Docs>, was: seq<Change>, call: Asked, reply: Reply, full: seq<Change>) {
    var a := AnswerAt(schema, start, was, call);
    reply == a.reply && full == was + a.entries
  }

  /** Every entry of a call is under its caller's name. */
  lemma {:induction false} EntriesCarryCaller(schema: Schema, docs: map<Name, Docs>, lsn: nat, who: Attribution, work: seq<Todo>)
    ensures var made := EntriesOf(schema, docs, lsn, who, work);
      made.Some? ==> forall i | 0 <= i < |made.value| :: made.value[i].who == who && made.value[i].lsn == lsn + 1 + i
    decreases |work|
  {
    if work != [] {
      EntriesStep(schema, docs, lsn, who, work, 0);
      match CourseOf(schema, docs, lsn + 1, who, work[0]) {
        case Refuses =>
        case Nothing => EntriesCarryCaller(schema, docs, lsn, who, work[1..]);
        case Writes(c) => EntriesCarryCaller(schema, Effect(schema, docs, c), lsn + 1, who, work[1..]);
      }
    }
  }

  /** Entries of one caller's call touch only that caller's write id, and leave it at the last of them. */
  lemma {:induction false} NotedRun(was: seq<Change>, full: seq<Change>, who: Attribution)
    requires was <= full && forall i | |was| <= i < |full| :: full[i].who == who
    ensures forall id | id != who.writeId :: (id in Noted(full) <==> id in Noted(was)) && (id in Noted(full) ==> Noted(full)[id] == Noted(was)[id])
    ensures |full| > |was| && who.writeId != "" ==>
      who.writeId in Noted(full) && Noted(full)[who.writeId] == Wrote(full[|full| - 1].lsn, KeyIn(full[|full| - 1]))
    decreases |full|
  {
    if |full| == |was| {
      assert full == was;
    } else {
      NotedRun(was, full[..|full| - 1], who);
    }
  }

  // ---- laws of the log ----

  /** The entry is about this key: a put of a document that carries it, or a drop of it. */
  predicate About(schema: Schema, c: Change, n: Name, k: Value) {
    || (c.PutDoc? && c.collection == n && n in schema.keyPath && schema.keyPath[n] in c.document && c.document[schema.keyPath[n]] == k)
    || (c.DropDoc? && c.collection == n && c.key == k)
  }

  ghost predicate LastAbout(schema: Schema, full: seq<Change>, n: Name, k: Value, i: nat) {
    i < |full| && About(schema, full[i], n, k) && forall j | i < j < |full| :: !About(schema, full[j], n, k)
  }

  /** Every put names a collection there is, and its document carries its key. */
  ghost predicate Keyfast(schema: Schema, full: seq<Change>) {
    forall c | c in full && c.PutDoc? :: c.collection in schema.keyPath && schema.keyPath[c.collection] in c.document
  }

  /** A key holds the document of the last put of it, nothing when the last entry about it is a drop, and what it held at the start when there is none. */
  lemma {:induction false} LastDecides(schema: Schema, start: map<Name, Docs>, full: seq<Change>, n: Name, k: Value)
    requires n in start && Keyfast(schema, full)
    ensures n in Replay(schema, start, full)
    ensures var docs := Replay(schema, start, full)[n];
      && (forall i: nat | LastAbout(schema, full, n, k, i) ::
            if full[i].PutDoc? then k in docs && docs[k] == full[i].document else k !in docs)
      && ((forall c | c in full :: !About(schema, c, n, k)) ==> (k in docs <==> k in start[n]) && (k in docs ==> docs[k] == start[n][k]))
  {
    if full != [] {
      var before, c := full[..|full| - 1], full[|full| - 1];
      assert c in full && forall b | b in before :: b in full;
      LastDecides(schema, start, before, n, k);
      forall i: nat | LastAbout(schema, full, n, k, i) ensures if i == |before| then About(schema, c, n, k) else
        !About(schema, c, n, k) && LastAbout(schema, before, n, k, i) {
        assert i < |before| ==> !About(schema, full[|full| - 1], n, k);
      }
    }
  }

  /** A write id is remembered with the number and the key of the last entry it was on. */
  lemma {:induction false} LastNoted(full: seq<Change>, id: Name, i: nat)
    requires id != "" && i < |full| && full[i].who.writeId == id && forall j | i < j < |full| :: full[j].who.writeId != id
    ensures id in Noted(full) && Noted(full)[id].lsn == full[i].lsn
    ensures full[i].PutDoc? || full[i].DropDoc? ==> Noted(full)[id].key == full[i].key
  {
    if i < |full| - 1 { LastNoted(full[..|full| - 1], id, i); }
  }

  /** And one that is on no entry is not. */
  lemma {:induction false} NeverNoted(full: seq<Change>, id: Name)
    requires forall c | c in full :: c.who.writeId != id
    ensures id !in Noted(full)
  {
    if full != [] {
      assert full[|full| - 1] in full;
      NeverNoted(full[..|full| - 1], id);
    }
  }

  /** What taking an entry does to a copy: the document is there under its key, or the key is gone, or a declaration is known, and nothing else has changed. */
  ghost predicate Takes(schema: Schema, before: State, c: Change, minted: Value, after: State) {
    match c
    case PutDoc(_, _, n, _, document) =>
      && n in schema.keyPath && n in before.docs && after.operations == before.operations
      && var path := schema.keyPath[n];
         var stored := if path in document then document else document[path := minted];
         after.docs == before.docs[n := before.docs[n][stored[path] := stored]]
    case DropDoc(_, _, n, key) =>
      n in before.docs && after.operations == before.operations && after.docs == before.docs[n := before.docs[n] - {key}]
    case Declare(_, _, operation, version, text) =>
      after.docs == before.docs && after.operations == before.operations[(operation, version) := text]
    case Looked(_, _) => after.docs == before.docs && after.operations == before.operations
  }

  class Journal {
    const schema: Schema
    const retain: nat
    var now: State
    var committed: State
    /** Every entry there ever was, and every entry that is committed. */
    ghost var full: seq<Change>
    ghost var safe: seq<Change>
    ghost const start: map<Name, Docs>

    ghost predicate Valid()
      reads this
    {
      && Tells(schema, now, start, full, retain) && Tells(schema, committed, start, safe, retain) && safe <= full
      && start.Keys == schema.keyPath.Keys && AllFair(schema, start, full)
    }

    constructor (schema: Schema, retain: nat)
      ensures Valid() && this.schema == schema && this.retain == retain && full == [] && safe == []
      ensures start == map n | n in schema.keyPath :: map[]
    {
      this.schema, this.retain := schema, retain;
      var empty: map<Name, Docs> := map n | n in schema.keyPath :: map[];
      now := State(empty, map[], map[], 0, map[]);
      committed := State(empty, map[], map[], 0, map[]);
      full, safe, start := [], [], empty;
    }

    /** The entries numbered up to `until` that are still there, oldest first. */
    method Doomed(until: nat) returns (doomed: seq<Change>)
      requires forall k | k in now.log :: now.log[k].lsn == k
      ensures forall c | c in doomed :: c.lsn in now.log && c.lsn <= until && now.log[c.lsn] == c
      ensures forall k: nat | k in now.log && 1 <= k <= until :: Lists(doomed, |doomed|, k)
    {
      doomed := [];
      var k := 1;
      while k <= until
        invariant 1 <= k <= until + 1
        invariant forall c | c in doomed :: c.lsn in now.log && c.lsn <= until && now.log[c.lsn] == c
        invariant forall j: nat | j in now.log && 1 <= j < k :: Lists(doomed, |doomed|, j)
      {
        if k in now.log {
          ListsMore(doomed, now.log[k]);
          doomed := doomed + [now.log[k]];
        }
        k := k + 1;
      }
    }

    /** trim: leaves the last `retain` entries, and drops with each earlier one its write id. */
    method Trim()
      requires now.lsn == |full| && Numbered(full) && forall k | k in now.log :: 1 <= k <= |full| && now.log[k] == full[k - 1]
      requires forall k: nat | 1 <= k <= |full| && (retain == 0 || k + retain > |full|) :: k in now.log
      modifies this`now
      ensures now == old(now).(log := now.log, writes := now.writes) && Kept(now.log, full, retain)
      ensures |now.log| == if retain == 0 || |full| <= retain then |full| else retain
      ensures retain == 0 ==> now == old(now)
    {
      if retain == 0 || now.lsn <= retain {
        KeptCount(now.log, full, retain);
        return;
      }
      var until := now.lsn - retain;
      var doomed := Doomed(until);
      Forget(doomed);
      forall k: nat | 1 <= k <= |full| && k + retain > |full| ensures k in now.log {
        forall j | 0 <= j < |doomed| ensures doomed[j].lsn != k { assert doomed[j] in doomed; }
      }
      KeptCount(now.log, full, retain);
    }

    /** The entries go, and the write ids that were on them. */
    method Forget(doomed: seq<Change>)
      modifies this`now
      ensures now == old(now).(log := now.log, writes := now.writes)
      ensures forall k: nat :: k in now.log <==> k in old(now).log && !Lists(doomed, |doomed|, k)
      ensures forall k | k in now.log :: now.log[k] == old(now).log[k]
    {
      var i := 0;
      while i < |doomed|
        invariant 0 <= i <= |doomed| && now == old(now).(log := now.log, writes := now.writes)
        invariant forall k: nat :: k in now.log <==> k in old(now).log && !Lists(doomed, i, k)
        invariant forall k | k in now.log :: now.log[k] == old(now).log[k]
      {
        var c := doomed[i];
        now := now.(log := now.log - {c.lsn});
        if c.who.writeId != "" {
          now := now.(writes := now.writes - {c.who.writeId});
        }
        i := i + 1;
      }
    }

    // ---- writing ----

    /** record: appends an entry, inside the write it describes. */
    method Record(c: Change)
      requires Tells(schema, now.(docs := Replay(schema, start, full), operations := Declared(map[], full)), start, full,
          retain) && c.lsn == now.lsn + 1
      requires now.docs == Effect(schema, Replay(schema, start, full), c)
      requires now.operations == Declared(map[], full + [c])
      modifies this`now, this`full
      ensures full == old(full) + [c] && Tells(schema, now, start, full, retain)
      ensures now.docs == old(now).docs && now.operations == old(now).operations
    {
      hide Replay;
      hide Declared;
      hide Noted;
      hide AllFair;
      Push(schema, start, map[], full, c);
      full := full + [c];
      now := now.(lsn := c.lsn, log := now.log[c.lsn := c]);
      NoteWrite(c);
      Trim();
    }

    /** noteWrite: records under the write id what it changed and where it is in the log. */
    method NoteWrite(c: Change)
      modifies this`now
      ensures now == old(now).(writes := if c.who.writeId == "" then old(now).writes else old(now).writes[c.who.writeId := Wrote(c.lsn, KeyIn(c))])
    {
      if c.who.writeId == "" {
        return;
      }
      now := now.(writes := now.writes[c.who.writeId := Wrote(c.lsn, KeyIn(c))]);
    }

    /** Collection.write: the document and its entry, or a refusal that changes nothing. */
    method Write(who: Attribution, collection: Name, document: Doc, minted: Value) returns (key: Option<Value>)
      requires Valid()
      modifies this`now, this`full
      ensures Valid()
      ensures key.None? ==> now == old(now) && full == old(full)
      ensures key.Some? <==>
        && collection in schema.keyPath && collection in old(now).docs
        && (schema.keyPath[collection] in document || collection in schema.auto)
        && var path := schema.keyPath[collection];
           schema.accepts(collection, if path in document then document else document[path := minted], old(now).docs[collection])
      ensures key.Some? ==>
        var path := schema.keyPath[collection];
        var stored := if path in document then document else document[path := minted];
        && stored[path] == key.value
        && full == old(full) + [PutDoc(|old(full)| + 1, who, collection, key.value, stored)]
        && now.docs == old(now).docs[collection := old(now).docs[collection][key.value := stored]]
        && now.operations == old(now).operations
    {
      hide Replay;
      hide Declared;
      hide Noted;
      hide AllFair;
      if collection !in schema.keyPath {
        return None;
      }
      ReplayKeys(schema, start, full);
      var complete := Keyed(schema, collection, document, minted);
      if !Keyable(schema, collection, document) || !schema.accepts(collection, complete, now.docs[collection]) {
        return None;
      }
      key := Some(complete[schema.keyPath[collection]]);
      var c := PutDoc(now.lsn + 1, who, collection, key.value, complete);
      Push(schema, start, map[], full, c);
      FairPush(schema, start, full, c);
      now := now.(docs := now.docs[collection := now.docs[collection][key.value := complete]]);
      Record(c);
    }

    /** Collection.remove: a key that is not there changes nothing and records nothing. */
    method Remove(who: Attribution, collection: Name, key: Value) returns (removed: Option<bool>)
      requires Valid()
      modifies this`now, this`full
      ensures Valid()
      ensures removed != Some(true) ==> now == old(now) && full == old(full)
      ensures removed.None? <==> collection !in schema.keyPath
      ensures removed == Some(true) <==> collection in schema.keyPath && collection in old(now).docs && key in old(now).docs[collection]
      ensures removed == Some(true) ==>
        && full == old(full) + [DropDoc(|old(full)| + 1, who, collection, key)]
        && now.docs == old(now).docs[collection := old(now).docs[collection] - {key}] && now.operations == old(now).operations
    {
      hide Replay;
      hide Declared;
      hide Noted;
      hide AllFair;
      if collection !in schema.keyPath {
        return None;
      }
      ReplayKeys(schema, start, full);
      if key !in now.docs[collection] {
        return Some(false);
      }
      var c := DropDoc(now.lsn + 1, who, collection, key);
      Push(schema, start, map[], full, c);
      FairPush(schema, start, full, c);
      now := now.(docs := now.docs[collection := now.docs[collection] - {key}]);
      Record(c);
      return Some(true);
    }

    /** At any moment a key holds the document of the last put of it, and nothing when the last entry about it is a drop or there is none at all. */
    lemma Holds(n: Name, k: Value)
      requires Valid() && n in start && start[n] == map[]
      ensures n in now.docs
      ensures forall i: nat | LastAbout(schema, full, n, k, i) ::
        if full[i].PutDoc? then k in now.docs[n] && now.docs[n][k] == full[i].document else k !in now.docs[n]
      ensures (forall c | c in full :: !About(schema, c, n, k)) ==> k !in now.docs[n]
    {
      hide Replay;
      hide Declared;
      hide Noted;
      hide LastAbout;
      forall c | c in full && c.PutDoc? ensures c.collection in schema.keyPath && schema.keyPath[c.collection] in c.document {
        var i :| 0 <= i < |full| && full[i] == c;
        assert Fair(schema, Replay(schema, start, full[..i]), full[i]);
      }
      LastDecides(schema, start, full, n, k);
    }

    /** Nothing is pending. */
    ghost predicate Clean()
      reads this
    {
      now == committed && full == safe
    }

    method Commit()
      requires Valid()
      modifies this`committed, this`safe
      ensures Valid() && committed == now && safe == full
    {
      committed, safe := now, full;
    }

    /** Rollback, or a crash and a restart: back to the last commit. */
    method Rollback()
      requires Valid()
      modifies this`now, this`full
      ensures Valid() && now == committed && full == safe
    {
      hide AllFair;
      hide Replay;
      hide Tells;
      FairPrefix(schema, start, full, |safe|);
      assert full[..|safe|] == safe;
      now, full := committed, safe;
    }

    /** A declaration or a look at the database goes in the log like anything else. */
    method Log(c: Change)
      requires Valid() && (c.Declare? || c.Looked?) && c.lsn == |full| + 1
      modifies this`now, this`full
      ensures Valid() && full == old(full) + [c] && now.docs == old(now).docs
      ensures now.operations == if c.Declare? then old(now).operations[(c.operation, c.version) := c.text] else old(now).operations
    {
      hide Replay;
      hide Declared;
      hide Noted;
      hide AllFair;
      Push(schema, start, map[], full, c);
      FairPush(schema, start, full, c);
      if c.Declare? {
        now := now.(operations := now.operations[(c.operation, c.version) := c.text]);
      }
      Record(c);
    }

    // ---- following ----

    /**
     Apply: an entry from another database, keeping its number. One already here
     changes nothing, one out of order is refused, and the next one is refused only
     if this copy's collections would refuse it. A document without a key, which no
     leader's log has, is refused or given one, as in any other write.
     */
    method Apply(c: Change, minted: Value) returns (ok: bool)
      requires Valid()
      modifies this`now, this`full
      ensures Valid()
      ensures c.lsn <= |old(full)| ==> ok && now == old(now) && full == old(full)
      ensures c.lsn > |old(full)| + 1 ==> !ok && now == old(now) && full == old(full)
      ensures c.lsn == |old(full)| + 1 ==> (ok <==> Fair(schema, Replay(schema, start, old(full)), Completed(schema, c, minted)))
      ensures c.lsn == |old(full)| + 1 && c.PutDoc? ==> (ok <==>
        && c.collection in schema.keyPath && c.collection in old(now).docs
        && var path := schema.keyPath[c.collection];
           && (path in c.document || c.collection in schema.auto)
           && schema.accepts(c.collection, if path in c.document then c.document else c.document[path := minted], old(now).docs[c.collection]))
      ensures c.lsn == |old(full)| + 1 && c.DropDoc? ==> (ok <==> c.collection in schema.keyPath)
      ensures c.lsn == |old(full)| + 1 && (c.Declare? || c.Looked?) ==> ok
      ensures c.lsn == |old(full)| + 1 && ok ==> full == old(full) + [Completed(schema, c, minted)]
      ensures c.lsn == |old(full)| + 1 && ok ==> Takes(schema, old(now), c, minted, now)
      ensures !ok ==> now == old(now) && full == old(full)
    {
      hide Replay;
      hide Declared;
      hide Noted;
      hide AllFair;
      if c.lsn <= now.lsn {
        return true;
      }
      if c.lsn != now.lsn + 1 {
        return false;
      }
      ReplayKeys(schema, start, full);
      match c {
        case PutDoc(_, _, collection, _, document) =>
          if collection !in schema.keyPath || !Keyable(schema, collection, document) {
            return false;
          }
          ok := Take(Completed(schema, c, minted));
          return;
        case DropDoc(_, _, collection, key) =>
          if collection !in schema.keyPath {
            return false;
          }
          Push(schema, start, map[], full, c);
          FairPush(schema, start, full, c);
          now := now.(docs := now.docs[collection := now.docs[collection] - {key}]);
        case Declare(_, _, operation, version, text) =>
          Push(schema, start, map[], full, c);
          FairPush(schema, start, full, c);
          now := now.(operations := now.operations[(operation, version) := text]);
        case Looked(_, _) =>
          Push(schema, start, map[], full, c);
          FairPush(schema, start, full, c);
      }
      Record(c);
      return true;
    }

    /** A put that has its key: the document goes under it, or is refused. */
    method Take(c: Change) returns (ok: bool)
      requires Valid() && c.PutDoc? && c.collection in schema.keyPath && Carries(schema, c) && c.lsn == |full| + 1
      modifies this`now, this`full
      ensures Valid() && (ok <==> Fair(schema, Replay(schema, start, old(full)), c))
      ensures if ok then full == old(full) + [c] else now == old(now) && full == old(full)
      ensures ok ==> Takes(schema, old(now), c, "", now)
    {
      hide Replay;
      hide Declared;
      hide Noted;
      hide AllFair;
      ReplayKeys(schema, start, full);
      if !schema.accepts(c.collection, c.document, now.docs[c.collection]) {
        return false;
      }
      Push(schema, start, map[], full, c);
      FairPush(schema, start, full, c);
      now := now.(docs := now.docs[c.collection := now.docs[c.collection][c.document[schema.keyPath[c.collection]] := c.document]]);
      Record(c);
      return true;
    }

    /** Server.Apply: an entry already held is not applied; a failure rolls back; the change and the position are one commit. */
    method Receive(c: Change, minted: Value) returns (ok: bool)
      requires Valid() && Clean()
      modifies this`now, this`full, this`committed, this`safe
      ensures Valid() && Clean()
      ensures c.lsn <= |old(full)| ==> ok
      ensures c.lsn > |old(full)| + 1 ==> !ok
      ensures c.lsn == |old(full)| + 1 ==> (ok <==> Fair(schema, Replay(schema, start, old(full)), Completed(schema, c, minted)))
      ensures full == if ok && c.lsn == |old(full)| + 1 then old(full) + [Completed(schema, c, minted)] else old(full)
      ensures ok && c.lsn == |old(full)| + 1 ==> Takes(schema, old(now), c, minted, now)
      ensures full == old(full) ==> committed == old(committed)
    {
      hide Replay;
      hide Fair;
      hide AllFair;
      hide Tells;
      if c.lsn <= now.lsn {
        LsnIs(now);
        return true;
      }
      LsnIs(now);
      ok := Apply(c, minted);
      if !ok {
        Rollback();
        return;
      }
      Commit();
    }

    lemma LsnIs(s: State)
      requires Tells(schema, s, start, full, retain)
      ensures s.lsn == |full|
    {
    }

    // ---- reading the log ----

    /** The earliest entry still kept, or zero when none is. */
    method OldestLSN() returns (oldest: nat)
      requires Valid()
      ensures oldest == Oldest(full, retain)
      ensures if now.log == map[] then oldest == 0 else oldest in now.log && forall k | k in now.log :: oldest <= k
    {
      hide AllFair;
      hide Replay;
      hide Declared;
      hide Noted;
      oldest := 1;
      while oldest <= now.lsn && oldest !in now.log
        invariant 1 <= oldest <= now.lsn + 1 && forall k: nat | 1 <= k < oldest :: k !in now.log
      {
        oldest := oldest + 1;
      }
      assert full != [] ==> Oldest(full, retain) in now.log;
      if oldest > now.lsn {
        return 0;
      }
    }

    /** CanFollow: whether every entry from this one on is still there to be read. */
    method CanFollow(from: nat) returns (ok: bool)
      requires Valid()
      ensures ok <==> forall k: nat | from <= k <= |full| :: k in now.log
      ensures ok <==> Reaches(full, retain, from)
    {
      hide AllFair;
      hide Replay;
      hide Declared;
      hide Noted;
      var oldest := OldestLSN();
      assert from <= |full| ==> (from in now.log <==> from >= oldest > 0);
      if oldest == 0 {
        return from > now.lsn;
      }
      assert |full| in now.log;
      return from >= oldest;
    }

    /** The first half of drain: what is there now, up to one batch of it, all in one look at the log. */
    method Collect(from: nat) returns (ok: bool, batch: seq<Change>)
      requires Valid()
      ensures ok <==> Reaches(full, retain, from)
      ensures ok ==> batch == Batch(full, from)
    {
      hide AllFair;
      hide Replay;
      hide Declared;
      hide Noted;
      batch := [];
      ok := CanFollow(from);
      if !ok {
        return;
      }
      var k := from;
      while k in now.log && |batch| < BATCH
        invariant from <= k && |batch| == k - from <= BATCH && (k > from ==> from >= 1 && k <= |full| + 1)
        invariant forall j | 0 <= j < |batch| :: batch[j] == full[from - 1 + j]
        decreases BATCH - |batch|
      {
        batch := batch + [now.log[k]];
        k := k + 1;
      }
      BatchIs(full, from, batch);
    }

    // ---- at most once ----

    /** One write of a call: it is done, it finds nothing to do, or it is refused. */
    method Do(who: Attribution, todo: Todo) returns (ok: bool, changed: bool, key: Value)
      requires Valid()
      modifies this`now, this`full
      ensures Valid() && safe == old(safe) && committed == old(committed)
      ensures !changed ==> now == old(now) && full == old(full)
      ensures match CourseOf(schema, old(now).docs, |old(full)| + 1, who, todo)
        case Refuses => !ok && !changed
        case Nothing => ok && !changed
        case Writes(c) => ok && changed && full == old(full) + [c] && key == KeyIn(c)
    {
      hide AllFair;
      hide Replay;
      hide Declared;
      hide Noted;
      ReplayKeys(schema, start, full);
      match todo {
        case DoPut(collection, document, minted) =>
          var made := Write(who, collection, document, minted);
          return made.Some?, made.Some?, if made.Some? then made.value else "";
        case DoDrop(collection, gone) =>
          var removed := Remove(who, collection, gone);
          return removed.Some?, removed == Some(true), gone;
      }
    }

    /** A longer log says what its last entry did. */
    lemma TellsMore(was: seq<Change>, s: State, c: Change, t: State)
      requires Tells(schema, s, start, was, retain) && Tells(schema, t, start, was + [c], retain)
      ensures t.docs == Effect(schema, s.docs, c) && t.lsn == s.lsn + 1
    {
      Push(schema, start, map[], was, c);
    }

    /** The work of a call, in order, stopping at the first write that is refused. */
    method Carry(who: Attribution, work: seq<Todo>) returns (ok: bool, changed: nat, last: Value)
      requires Valid()
      modifies this`now, this`full
      ensures Valid() && safe == old(safe) && committed == old(committed)
      ensures match EntriesOf(schema, old(now).docs, |old(full)|, who, work) {
        case None => !ok
        case Some(made) =>
          && ok && full == old(full) + made && changed == |made|
          && (changed > 0 ==> last == KeyIn(made[changed - 1])) && (changed == 0 ==> now == old(now))
      }
    {
      hide AllFair;
      hide Tells;
      hide EntriesOf;
      hide CourseOf;
      hide Effect;
      ghost var was, first, made := full, now, [];
      ok, changed, last := true, 0, "";
      ThenMore([], Looked(0, who), EntriesOf(schema, now.docs, |full|, who, work));
      assert work[0..] == work;
      var i := 0;
      while i < |work|
        invariant 0 <= i <= |work| && ok && Valid() && safe == old(safe) && committed == old(committed)
        invariant full == was + made && changed == |made| && (changed == 0 ==> now == old(now))
        invariant changed > 0 ==> last == KeyIn(made[changed - 1])
        invariant EntriesOf(schema, first.docs, |was|, who, work) == Then(made, EntriesOf(schema, now.docs, |full|, who, work[i..]))
      {
        ghost var before, prior := full, now;
        EntriesStep(schema, now.docs, |full|, who, work, i);
        var done, did, key := Do(who, work[i]);
        if !done {
          return false, changed, last;
        }
        if did {
          ghost var c := full[|before|];
          TellsMore(before, prior, c, now);
          ThenMore(made, c, EntriesOf(schema, now.docs, |full|, who, work[i + 1..]));
          made, changed, last := made + [c], changed + 1, key;
        }
        i := i + 1;
      }
      EntriesStep(schema, now.docs, |full|, who, work, i);
    }

    /**
     A call that writes: answered from what its write id already did, or carried out
     whole, or refused and rolled back.
     */
    method Call(who: Attribution, work: seq<Todo>) returns (r: Reply)
      requires Valid() && Clean()
      modifies this`now, this`full, this`committed, this`safe
      ensures Valid() && Clean()
      ensures var a := AnswerTo(schema, old(now).docs, old(now).lsn, old(now).writes, Asked(who, work));
        r == a.reply && full == old(full) + a.entries
      ensures full == old(full) ==> now == old(now)
    {
      hide AllFair;
      hide Tells;
      hide EntriesOf;
      LsnIs(now);
      if who.writeId != "" && who.writeId in now.writes {
        return Repeated(now.writes[who.writeId]);
      }
      var ok, changed, last := Carry(who, work);
      if !ok {
        Rollback();
        return Refused;
      }
      if changed == 0 {
        return Unchanged;
      }
      LsnIs(now);
      Commit();
      return Changed(Wrote(now.lsn, last));
    }
  }

  /** What can happen to a follower: an entry arrives, a crash while one is being applied, a crash between entries. */
  datatype Delivery = Entry(change: Change) | CrashDuring(change: Change) | Crash

  /** The log a follower ends with: what it had, and every entry that came when it was the next one. */
  ghost function Taken(full: seq<Change>, deliveries: seq<Delivery>): seq<Change> {
    if deliveries == [] then full
    else
      var before, d := Taken(full, deliveries[..|deliveries| - 1]), deliveries[|deliveries| - 1];
      if d.Entry? && d.change.lsn == |before| + 1 then before + [d.change] else before
  }

  lemma TakenPush(full: seq<Change>, deliveries: seq<Delivery>, i: nat)
    requires i <= |deliveries|
    ensures Taken(full, deliveries[..0]) == full
    ensures i < |deliveries| ==>
      var before, d := Taken(full, deliveries[..i]), deliveries[i];
      Taken(full, deliveries[..i + 1]) == if d.Entry? && d.change.lsn == |before| + 1 then before + [d.change] else before
  {
    if i < |deliveries| { assert deliveries[..i + 1][..i] == deliveries[..i]; }
  }

  /** Whatever came before, a leader that resumes no later than where the follower is brings it to the end of what it sends. */
  lemma {:induction false} ResumedCatchesUp(full: seq<Change>, before: seq<Delivery>, leader: seq<Change>, from: nat, end: nat)
    requires Numbered(leader) && from <= end <= |leader| && Taken(full, before) <= leader && from <= |Taken(full, before)|
    ensures var at := |Taken(full, before)|;
      Taken(full, before + seq(end - from, k requires 0 <= k < end - from => Entry(leader[from + k]))) == leader[..if end > at then end else at]
    decreases end - from
  {
    hide Taken;
    var sent := seq(end - from, k requires 0 <= k < end - from => Entry(leader[from + k]));
    if from == end {
      assert before + sent == before;
    } else {
      var less := seq(end - 1 - from, k requires 0 <= k < end - 1 - from => Entry(leader[from + k]));
      ResumedCatchesUp(full, before, leader, from, end - 1);
      var all := before + sent;
      assert all[..|all| - 1] == before + less && all[|all| - 1] == Entry(leader[end - 1]);
      assert all[..|all|] == all;
      TakenPush(full, all, |all| - 1);
    }
  }

  /**
   Any deliveries at all, with repeats, gaps and crashes, even while an entry is
   being applied: the follower takes exactly the entries that were next, and is the
   replay of that beginning of the leader's log, numbers, documents and write ids
   alike.
   */
  method Follow(follower: Journal, deliveries: seq<Delivery>, mint: nat -> Value, ghost leader: seq<Change>)
    requires follower.Valid() && follower.Clean() && follower.full <= leader
    requires Numbered(leader) && AllFair(follower.schema, follower.start, leader)
    requires forall d | d in deliveries && !d.Crash? :: d.change in leader
    modifies follower
    ensures follower.Valid() && follower.Clean() && follower.full <= leader
    ensures follower.full == Taken(old(follower.full), deliveries)
    ensures Tells(follower.schema, follower.now, follower.start, leader[..follower.now.lsn], follower.retain)
  {
    hide Replay;
    hide AllFair;
    hide Fair;
    hide Taken;
    hide Tells;
    hide Numbered;
    hide Carries;
    var i := 0;
    ghost var first := follower.full;
    TakenPush(first, deliveries, 0);
    while i < |deliveries|
      invariant 0 <= i <= |deliveries| && follower.Valid() && follower.Clean()
      invariant follower.full == Taken(first, deliveries[..i]) <= leader
    {
      TakenPush(first, deliveries, i);
      assert deliveries[i] in deliveries;
      match deliveries[i] {
        case Crash => follower.Rollback();
        case CrashDuring(c) =>
          ghost var k := PlaceInLog(follower.schema, follower.start, leader, c);
          var ok := follower.Apply(c, mint(i));
          follower.Rollback();
        case Entry(c) =>
          ghost var was := follower.full;
          ghost var k := PlaceInLog(follower.schema, follower.start, leader, c);
          if k == |was| { NextIsFair(follower.schema, follower.start, leader, was); }
          var ok := follower.Receive(c, mint(i));
          assert leader[..|was|] == was;
      }
      i := i + 1;
    }
    assert deliveries[..|deliveries|] == deliveries;
    assert leader[..|follower.full|] == follower.full;
    follower.LsnIs(follower.now);
  }

  lemma PlaceInLog(schema: Schema, start: map<Name, Docs>, leader: seq<Change>, c: Change) returns (k: nat)
    requires AllFair(schema, start, leader) && Numbered(leader) && c in leader
    ensures k < |leader| && leader[k] == c && c.lsn == k + 1 && Carries(schema, c)
  {
    k :| 0 <= k < |leader| && leader[k] == c;
    assert Fair(schema, Replay(schema, start, leader[..k]), leader[k]);
  }

  lemma NextIsFair(schema: Schema, start: map<Name, Docs>, leader: seq<Change>, full: seq<Change>)
    requires AllFair(schema, start, leader) && full <= leader && |full| < |leader|
    ensures Fair(schema, Replay(schema, start, full), leader[|full|])
  {
    hide Fair;
    hide Replay;
    assert leader[..|full|] == full;
  }

  /** What a call adds to the log leaves every other write id alone, and puts its own at what it did. */
  lemma AnswerNotes(schema: Schema, start: map<Name, Docs>, full: seq<Change>, call: Asked)
    ensures var a := AnswerAt(schema, start, full, call);
      && (forall id | id in Noted(full) :: id in Noted(full + a.entries) && Noted(full + a.entries)[id] == Noted(full)[id])
      && (a.reply.Changed? <==> a.entries != [])
      && (a.reply.Changed? && call.who.writeId != "" ==>
            call.who.writeId in Noted(full + a.entries) && Noted(full + a.entries)[call.who.writeId] == a.reply.last)
  {
    var a := AnswerAt(schema, start, full, call);
    EntriesCarryCaller(schema, Replay(schema, start, full), |full|, call.who, call.work);
    hide Replay;
    hide EntriesOf;
    if call.who.writeId == "" {
      NotedNone(full, full + a.entries);
    } else {
      NotedRun(full, full + a.entries, call.who);
    }
    assert full + [] == full;
  }

  /** Entries without a write id leave what is on record alone. */
  lemma {:induction false} NotedNone(was: seq<Change>, full: seq<Change>)
    requires was <= full && forall i | |was| <= i < |full| :: full[i].who.writeId == ""
    ensures Noted(full) == Noted(was)
    decreases |full|
  {
    if |full| == |was| {
      assert full == was;
    } else {
      NotedNone(was, full[..|full| - 1]);
    }
  }

  /**
   Any run of calls with retention off: each is answered, and adds to the log, what
   it must where the log then stood; the store changes exactly when the reply says
   so; of all the calls that carry one write id at most one changes it, and every
   later one is answered with what that one did.
   */
  method Serve(store: Journal, calls: seq<Asked>) returns (replies: seq<Reply>, ghost logs: seq<seq<Change>>)
    requires store.Valid() && store.Clean() && store.retain == 0
    modifies store
    ensures store.Valid() && store.Clean() && |replies| == |calls| && |logs| == |calls| + 1
    ensures logs[0] == old(store.full) && logs[|calls|] == store.full
    ensures forall i: nat | i < |calls| :: Answered(store.schema, store.start, logs[i], calls[i], replies[i], logs[i + 1])
    ensures forall i: nat | i < |calls| :: logs[i + 1] != logs[i] <==> replies[i].Changed?
    ensures forall i, j | 0 <= i < j < |calls| && calls[i].who.writeId == calls[j].who.writeId != "" && replies[i].Changed? ::
              replies[j] == Repeated(replies[i].last)
  {
    hide AllFair;
    hide Replay;
    hide Declared;
    hide Noted;
    hide Kept;
    hide Numbered;
    hide EntriesOf;
    replies, logs := [], [store.full];
    var k := 0;
    while k < |calls|
      invariant 0 <= k <= |calls| && |replies| == k && |logs| == k + 1 && store.Valid() && store.Clean()
      invariant logs[0] == old(store.full) && logs[k] == store.full
      invariant forall i: nat | i < k :: Answered(store.schema, store.start, logs[i], calls[i], replies[i], logs[i + 1])
      invariant forall i: nat | i < k :: logs[i + 1] != logs[i] <==> replies[i].Changed?
      invariant forall i | 0 <= i < k && calls[i].who.writeId != "" && replies[i].Changed? ::
                  calls[i].who.writeId in Noted(store.full) && Noted(store.full)[calls[i].who.writeId] == replies[i].last
      invariant forall i, j | 0 <= i < j < k && calls[i].who.writeId == calls[j].who.writeId != "" && replies[i].Changed? ::
                  replies[j] == Repeated(replies[i].last)
    {
      AnswerNotes(store.schema, store.start, store.full, calls[k]);
      var r := store.Call(calls[k].who, calls[k].work);
      replies, logs := replies + [r], logs + [store.full];
      k := k + 1;
    }
  }

  /** A follower at the leader's log position holds what the leader holds, write ids included, and so would answer any call as the leader does. */
  lemma SamePlaceSameAnswer(leader: Journal, follower: Journal, call: Asked)
    requires leader.Valid() && follower.Valid() && leader.retain == follower.retain == 0
    requires leader.start == follower.start && leader.schema == follower.schema && leader.full == follower.full
    ensures leader.now == follower.now
    ensures AnswerTo(leader.schema, leader.now.docs, leader.now.lsn, leader.now.writes, call)
         == AnswerTo(follower.schema, follower.now.docs, follower.now.lsn, follower.now.writes, call)
         == AnswerAt(leader.schema, leader.start, leader.full, call)
  {
    hide Replay;
    hide Declared;
    hide Noted;
    hide AllFair;
    hide EntriesOf;
    assert leader.now.log.Keys == follower.now.log.Keys;
    assert leader.now.log == follower.now.log;
  }
}
