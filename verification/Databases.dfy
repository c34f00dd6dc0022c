/**
 A store as one thing: its collections with everything derived from their
 documents, and the log of what happened to them, under one transaction that is
 committed or given up whole.
 */
module Databases {
  import opened Bytes
  import opened Options
  import opened Collections

  type Docs = map<Bytes, Document>

  datatype Spec = Spec(indexes: seq<Index>, rollups: seq<Rollup>)

  /** One write: into the collection of this number. */
  datatype Todo = Store(at: nat, key: Bytes, document: Document) | Erase(at: nat, key: Bytes)

  /** A log entry. */
  datatype Note = Stored(lsn: nat, at: nat, key: Bytes, document: Document) | Erased(lsn: nat, at: nat, key: Bytes)

  /** What a collection holds, by value. */
  datatype Image = Image(docs: Docs, entries: set<Bytes>, totals: map<Bytes, Totals>)

  // ---- what a log means ----

  function Effect(docs: seq<Docs>, note: Note): (r: seq<Docs>)
    ensures |r| == |docs|
  {
    if note.at >= |docs| then docs
    else match note
      case Stored(_, at, key, document) => docs[at := docs[at][key := document]]
      case Erased(_, at, key) => docs[at := docs[at] - {key}]
  }

  function Replay(n: nat, log: seq<Note>): (r: seq<Docs>)
    ensures |r| == n
  {
    if log == [] then seq(n, i => map[]) else Effect(Replay(n, log[..|log| - 1]), log[|log| - 1])
  }

  ghost predicate Numbered(log: seq<Note>) { forall i | 0 <= i < |log| :: log[i].lsn == i + 1 }

  /** Entries, uniqueness and totals are what these documents say, recomputed. */
  ghost predicate Derived(spec: Spec, image: Image) {
    && IndexOk(image.entries, image.docs, spec.indexes) && UniqueOk(image.docs, spec.indexes)
    && RollsOk(image.totals, image.docs, spec.rollups)
    && forall p, i | p in image.docs && 0 <= i < |spec.rollups| :: Rolls(spec.rollups[i], image.docs[p])
  }

  ghost predicate AllDerived(specs: seq<Spec>, images: seq<Image>) {
    |images| == |specs| && forall i | 0 <= i < |specs| :: Derived(specs[i], images[i])
  }

  function DocsOf(images: seq<Image>): seq<Docs> { seq(|images|, i requires 0 <= i < |images| => images[i].docs) }

  /** The documents are the replay of the log, and all that is derived is derived from them. */
  ghost predicate Agrees(specs: seq<Spec>, images: seq<Image>, log: seq<Note>) {
    AllDerived(specs, images) && DocsOf(images) == Replay(|specs|, log) && Numbered(log)
  }

  // ---- what a call comes to ----

  /** The entries one write makes, or nothing when an index, a rollup or uniqueness refuses it. */
  ghost function Course(specs: seq<Spec>, docs: seq<Docs>, lsn: nat, todo: Todo): Option<seq<Note>>
    requires |docs| == |specs|
  {
    if todo.at >= |specs| then None
    else match todo
      case Store(at, key, d) =>
        if && DescribesAll(d, specs[at].indexes) && FreshAmong(docs[at], specs[at].indexes, d, key)
           && forall i | 0 <= i < |specs[at].rollups| :: Rolls(specs[at].rollups[i], d)
        then Some([Stored(lsn, at, key, d)]) else None
      case Erase(at, key) => Some(if key in docs[at] then [Erased(lsn, at, key)] else [])
  }

  function EffectOf(docs: seq<Docs>, notes: seq<Note>): (r: seq<Docs>)
    ensures |r| == |docs|
    decreases |notes|
  {
    if notes == [] then docs else EffectOf(Effect(docs, notes[0]), notes[1..])
  }

  /** The entries of all the writes, each made on what the ones before it left, or nothing when any is refused. */
  ghost function Courses(specs: seq<Spec>, docs: seq<Docs>, lsn: nat, work: seq<Todo>): Option<seq<Note>>
    requires |docs| == |specs|
    decreases |work|
  {
    if work == [] then Some([])
    else match Course(specs, docs, lsn + 1, work[0])
      case None => None
      case Some(notes) => Joined(notes, Courses(specs, EffectOf(docs, notes), lsn + |notes|, work[1..]))
  }

  function Joined(notes: seq<Note>, rest: Option<seq<Note>>): Option<seq<Note>> {
    if rest.None? then None else Some(notes + rest.value)
  }

  /** What can happen to a store: a call, or a crash after this many writes of one. */
  datatype Event = Call(work: seq<Todo>) | CrashDuring(work: seq<Todo>, after: nat)

  /** The log that events leave: the entries of every call that was accepted whole, and nothing of any other. */
  ghost function Logged(specs: seq<Spec>, log: seq<Note>, events: seq<Event>): seq<Note> {
    if events == [] then log
    else
      var before, e := Logged(specs, log, events[..|events| - 1]), events[|events| - 1];
      if e.CrashDuring? then before
      else match Courses(specs, Replay(|specs|, before), |before|, e.work)
        case None => before
        case Some(notes) => before + notes
  }

  // ---- lemmas ----

  lemma Push(n: nat, log: seq<Note>, note: Note)
    ensures Replay(n, log + [note]) == Effect(Replay(n, log), note)
  {
    assert (log + [note])[..|log|] == log;
  }

  /** One step of a batch, seen from where it stands. */
  lemma Step(specs: seq<Spec>, docs: seq<Docs>, lsn: nat, work: seq<Todo>, i: nat)
    requires |docs| == |specs| && i < |work|
    ensures Courses(specs, docs, lsn, work[i..]) ==
      match Course(specs, docs, lsn + 1, work[i]) {
        case None => None
        case Some(notes) => Joined(notes, Courses(specs, EffectOf(docs, notes), lsn + |notes|, work[i + 1..]))
      }
  {
    hide Course;
    assert work[i..][0] == work[i] && work[i..][1..] == work[i + 1..];
  }

  /** What some entries do is what replaying them after the others does. */
  lemma {:induction false} ReplayMore(n: nat, log: seq<Note>, notes: seq<Note>)
    ensures Replay(n, log + notes) == EffectOf(Replay(n, log), notes)
    decreases |notes|
  {
    if notes == [] {
      assert log + notes == log;
    } else {
      Push(n, log, notes[0]);
      ReplayMore(n, log + [notes[0]], notes[1..]);
      assert log + [notes[0]] + notes[1..] == log + notes;
    }
  }

  /** A batch of which some steps are made, after the next one: from what it all comes to, the rest is what is left to come. */
  lemma Further(specs: seq<Spec>, was: seq<Note>, made: seq<Note>, work: seq<Todo>, i: nat)
    requires i < |work|
    ensures var now := was + made;
      Joined(made, Courses(specs, Replay(|specs|, now), |now|, work[i..])) ==
      match Course(specs, Replay(|specs|, now), |now| + 1, work[i]) {
        case None => None
        case Some(notes) =>
          Joined(made + notes, Courses(specs, Replay(|specs|, now + notes), |now + notes|, work[i + 1..]))
      }
  {
    hide Course;
    hide Courses;
    hide Replay;
    var now := was + made;
    Step(specs, Replay(|specs|, now), |now|, work, i);
    match Course(specs, Replay(|specs|, now), |now| + 1, work[i])
    case None =>
    case Some(notes) =>
      ReplayMore(|specs|, now, notes);
      JoinedTwice(made, notes, Courses(specs, Replay(|specs|, now + notes), |now + notes|, work[i + 1..]));
  }

  lemma JoinedTwice(a: seq<Note>, b: seq<Note>, rest: Option<seq<Note>>)
    ensures Joined(a + b, rest) == Joined(a, Joined(b, rest))
  {
    if rest.Some? { assert a + b + rest.value == a + (b + rest.value); }
  }

  lemma LoggedPush(specs: seq<Spec>, log: seq<Note>, events: seq<Event>, i: nat)
    requires i <= |events|
    ensures Logged(specs, log, events[..0]) == log
    ensures i < |events| ==>
      var before, e := Logged(specs, log, events[..i]), events[i];
      Logged(specs, log, events[..i + 1]) ==
      if e.CrashDuring? then before
      else match Courses(specs, Replay(|specs|, before), |before|, e.work) {
        case None => before
        case Some(notes) => before + notes
      }
  {
    hide Courses;
    if i < |events| { assert events[..i + 1][..i] == events[..i]; }
  }

  /** Any two stores with one log, a leader and a follower of it say, hold the same. */
  lemma SameLogSameStore(specs: seq<Spec>, a: seq<Image>, b: seq<Image>, log: seq<Note>, at: nat)
    requires Agrees(specs, a, log) && Agrees(specs, b, log) && at < |specs|
    ensures a[at].docs == b[at].docs && a[at].entries == b[at].entries
    ensures forall i: nat, g: Bytes | i < |specs[at].rollups| && RollSpace(specs[at].rollups[i].id) <= g ::
      SameRow(a[at].totals, b[at].totals, specs[at].rollups[i], g)
  {
    hide Derived;
    hide Replay;
    hide SameRow;
    assert DocsOf(a)[at] == a[at].docs && DocsOf(b)[at] == b[at].docs;
    SameDocsSameDerived(specs[at], a[at], b[at]);
  }

  /** The row of a rollup two collections agree on. */
  ghost predicate SameRow(a: map<Bytes, Totals>, b: map<Bytes, Totals>, r: Rollup, g: Bytes) {
    && (g in a <==> g in b)
    && (g in a ==> a[g].count == b[g].count && forall p | p in r.sums :: SumAt(a[g], p) == SumAt(b[g], p))
  }

  /** What is derived leaves no choice: two collections with the same documents have the same entries and the same totals, however they came by them. */
  lemma SameDocsSameDerived(spec: Spec, a: Image, b: Image)
    requires Derived(spec, a) && Derived(spec, b) && a.docs == b.docs
    ensures a.entries == b.entries
    ensures forall i: nat, g: Bytes | i < |spec.rollups| && RollSpace(spec.rollups[i].id) <= g ::
      SameRow(a.totals, b.totals, spec.rollups[i], g)
  {
    hide IsEntry;
    hide DescribesAll;
    hide UniqueOk;
    hide Rolls;
    hide Over;
    forall i: nat, g: Bytes | i < |spec.rollups| && RollSpace(spec.rollups[i].id) <= g
      ensures SameRow(a.totals, b.totals, spec.rollups[i], g)
    {
      var r := spec.rollups[i];
      assert RollOk(a.totals, a.docs, r) && RollOk(b.totals, b.docs, r);
      assert RowOk(a.totals, a.docs, r, g) && RowOk(b.totals, b.docs, r, g);
    }
  }

  class Database {
    const collections: seq<Collection>
    ghost const specs: seq<Spec>
    var log: seq<Note>
    /** The last commit. */
    var saved: seq<Image>
    var savedLog: seq<Note>

    ghost predicate Shape()
      reads this, collections
    {
      && |collections| == |specs|
      && (forall i, j | 0 <= i < j < |collections| :: collections[i] != collections[j])
      && (forall i | 0 <= i < |collections| ::
            && specs[i] == Spec(collections[i].indexes, collections[i].rollups)
            && Apart(specs[i].indexes) && RollupsApart(specs[i].rollups))
      && Agrees(specs, saved, savedLog)
    }

    function ImageAt(i: nat): Image
      requires i < |collections|
      reads collections
    {
      Image(collections[i].docs, collections[i].entries, collections[i].totals)
    }

    function Now(): (r: seq<Image>)
      reads this, collections
      ensures |r| == |collections|
    {
      seq(|collections|, i requires 0 <= i < |collections| reads collections => ImageAt(i))
    }

    ghost predicate Valid()
      reads this, collections
    {
      Shape() && Agrees(specs, Now(), log)
    }

    /** Nothing is waiting to be committed. */
    ghost predicate Clean()
      reads this, collections
    {
      Now() == saved && log == savedLog
    }

    constructor (specs: seq<Spec>)
      requires forall i | 0 <= i < |specs| :: Apart(specs[i].indexes) && RollupsApart(specs[i].rollups)
      ensures Valid() && Clean() && this.specs == specs && log == []
      ensures fresh(collections)
    {
      hide IndexOk;
      hide UniqueOk;
      hide RollsOk;
      hide Rolls;
      hide Apart;
      hide RollupsApart;
      var made: seq<Collection> := [];
      var empty: seq<Image> := [];
      while |made| < |specs|
        invariant |made| <= |specs| && |empty| == |made| && fresh(made)
        invariant forall i, j | 0 <= i < j < |made| :: made[i] != made[j]
        invariant forall i | 0 <= i < |made| ::
          && made[i].Valid() && specs[i] == Spec(made[i].indexes, made[i].rollups) && made[i].docs == map[]
          && empty[i] == Image(made[i].docs, made[i].entries, made[i].totals)
      {
        var c := new Collection(specs[|made|].indexes, specs[|made|].rollups);
        made, empty := made + [c], empty + [Image(c.docs, c.entries, c.totals)];
      }
      collections, this.specs, log := made, specs, [];
      saved, savedLog := empty, [];
      new;
      assert Now() == saved;
      assert DocsOf(saved) == Replay(|specs|, []);
    }

    /** What `Agrees` says of one collection is what its own methods ask for. */
    lemma Ready(at: nat)
      requires Valid() && at < |collections|
      ensures collections[at].Valid() && collections[at].AllRoll() && Replay(|specs|, log)[at] == collections[at].docs
    {
      hide IndexOk;
      hide UniqueOk;
      hide RollsOk;
      hide Rolls;
      hide Apart;
      hide RollupsApart;
      hide Replay;
      assert Derived(specs[at], Now()[at]) && DocsOf(Now())[at] == Now()[at].docs;
    }

    /** A collection that is in order again, with the entry that says so. */
    lemma Told(was: seq<Image>, at: nat, before: seq<Note>, note: Note)
      requires Shape() && Agrees(specs, was, before) && at < |collections|
      requires Now() == was[at := ImageAt(at)] && collections[at].Valid() && collections[at].AllRoll()
      requires log == before + [note] && note.at == at && note.lsn == |before| + 1
      requires collections[at].docs == Effect(DocsOf(was), note)[at]
      ensures Valid()
    {
      hide IndexOk;
      hide UniqueOk;
      hide RollsOk;
      hide Rolls;
      hide Apart;
      hide RollupsApart;
      Push(|specs|, before, note);
      hide Replay;
      assert DocsOf(Now()) == Effect(DocsOf(was), note);
      assert Derived(specs[at], Now()[at]);
    }

    /** One write and its log entry. Where it is refused, only the last commit is left to go back to. */
    method Do(todo: Todo) returns (ok: bool)
      requires Valid()
      modifies this`log, collections
      ensures Shape()
      ensures ok <==> old(Course(specs, Replay(|specs|, log), |log| + 1, todo)).Some?
      ensures ok ==> Valid() && log == old(log) + old(Course(specs, Replay(|specs|, log), |log| + 1, todo)).value
      ensures ok && log == old(log) ==> Now() == old(Now())
    {
      hide Agrees;
      hide DescribesAll;
      hide FreshAmong;
      hide Rolls;
      hide Apart;
      hide RollupsApart;
      hide Collection.Valid;
      hide Collection.AllRoll;
      hide Replay;
      if todo.at >= |collections| {
        return false;
      }
      var c := collections[todo.at];
      ghost var was, before := Now(), log;
      Ready(todo.at);
      match todo {
        case Store(at, key, d) =>
          ok := c.Write(key, d);
          assert ok <==> old(Course(specs, Replay(|specs|, log), |log| + 1, todo)).Some?;
          if ok {
            log := log + [Stored(|log| + 1, at, key, d)];
            Told(was, at, before, log[|before|]);
          }
        case Erase(at, key) =>
          var removed := c.Remove(key);
          ok := true;
          if removed {
            log := log + [Erased(|log| + 1, at, key)];
            Told(was, at, before, log[|before|]);
          } else {
            assert c.docs == was[at].docs;
            assert Now() == was;
          }
      }
    }

    /** Everything since the last commit is thrown away: documents, entries, totals and log. */
    method Rollback()
      requires Shape()
      modifies this`log, collections
      ensures Valid() && Clean()
    {
      hide Agrees;
      hide Apart;
      hide RollupsApart;
      assert |saved| == |collections| by { SavedFits(); }
      var i := 0;
      while i < |collections|
        invariant 0 <= i <= |collections| && Shape()
        invariant forall j | 0 <= j < i :: ImageAt(j) == saved[j]
      {
        var c := collections[i];
        c.docs, c.entries, c.totals := saved[i].docs, saved[i].entries, saved[i].totals;
        i := i + 1;
      }
      log := savedLog;
      assert Now() == saved;
    }

    lemma SavedFits()
      requires Shape()
      ensures |saved| == |collections|
    {
    }

    method Commit()
      requires Valid()
      modifies this`saved, this`savedLog
      ensures Valid() && Clean()
    {
      saved, savedLog := Now(), log;
    }

    /** The writes of a batch in their order, up to the first that is refused. */
    method RunSteps(work: seq<Todo>) returns (ok: bool)
      requires Valid()
      modifies this`log, collections
      ensures Shape()
      ensures ok <==> old(Courses(specs, Replay(|specs|, log), |log|, work)).Some?
      ensures ok ==> Valid() && log == old(log) + old(Courses(specs, Replay(|specs|, log), |log|, work)).value
      ensures ok && log == old(log) ==> Now() == old(Now())
    {
      hide Agrees;
      hide Course;
      hide Courses;
      var i := 0;
      ghost var was, made := log, [];
      ghost var all := Courses(specs, Replay(|specs|, log), |log|, work);
      assert work[0..] == work && (all.Some? ==> [] + all.value == all.value);
      while i < |work|
        invariant 0 <= i <= |work| && Valid() && log == was + made
        invariant all == Joined(made, Courses(specs, Replay(|specs|, log), |log|, work[i..]))
        invariant log == was ==> Now() == old(Now())
      {
        Further(specs, was, made, work, i);
        ghost var notes := Course(specs, Replay(|specs|, log), |log| + 1, work[i]);
        ok := Do(work[i]);
        if !ok {
          return;
        }
        made := made + notes.value;
        assert log == was + made;
        i := i + 1;
      }
      NoMore(specs, Replay(|specs|, log), |log|, work[i..]);
      ok := true;
    }

    lemma NoMore(specs: seq<Spec>, docs: seq<Docs>, lsn: nat, work: seq<Todo>)
      requires |docs| == |specs| && work == []
      ensures Courses(specs, docs, lsn, work) == Some([])
    {
    }

    /** runBatch and the commit after it: every write with its entries in one commit, or nothing of any of them. */
    method RunBatch(work: seq<Todo>) returns (ok: bool)
      requires Valid() && Clean()
      modifies this, collections
      ensures Valid() && Clean()
      ensures var all := old(Courses(specs, Replay(|specs|, log), |log|, work));
        && (ok <==> all.Some?)
        && log == if ok then old(log) + all.value else old(log)
      ensures log == old(log) ==> Now() == old(Now())
    {
      hide Agrees;
      hide Courses;
      ok := RunSteps(work);
      if !ok {
        Rollback();
      } else if |log| > |savedLog| {
        Commit();
      }
    }

    /** A crash: after this many writes, or where one is refused before that. */
    method CrashIn(work: seq<Todo>, after: nat)
      requires Valid() && Clean()
      modifies this, collections
      ensures Valid() && Clean() && log == old(log) && Now() == old(Now())
    {
      hide Agrees;
      hide Courses;
      var ok := RunSteps(work[..if after < |work| then after else |work|]);
      Rollback();
    }

    /**
     Any calls and any crashes in the middle of them: the log is the entries of the
     calls that were accepted whole, the documents of every collection are the replay
     of it, and entries, uniqueness and totals are those of these documents.
     */
    method Serve(events: seq<Event>)
      requires Valid() && Clean()
      modifies this, collections
      ensures Valid() && Clean() && log == Logged(specs, old(log), events)
    {
      hide Agrees;
      hide Courses;
      hide Logged;
      var i := 0;
      LoggedPush(specs, log, events, 0);
      while i < |events|
        invariant 0 <= i <= |events| && Valid() && Clean() && log == Logged(specs, old(log), events[..i])
      {
        LoggedPush(specs, old(log), events, i);
        match events[i] {
          case Call(work) => var _ := RunBatch(work);
          case CrashDuring(work, after) => CrashIn(work, after);
        }
        i := i + 1;
      }
      assert events[..i] == events;
    }
  }
}
