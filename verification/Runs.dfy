/**
 Whole runs of a database: a client that puts, deletes, commits, takes snapshots
 and lets them go, with a crash at any instant.
 */
module Runs {
  import opened Bytes
  import opened Options
  import opened PageFile
  import opened FreeLists
  import opened Pagers
  import opened Nodes
  import opened Sorted
  import opened Trees
  import opened Ledgers
  import opened Surgery
  import opened Reads
  import opened Prunings
  import opened Btrees

  /** The version is one of this map: some tree on its pages denotes it. */
  ghost predicate Denotes(v: Version, es: seq<Pair>) {
    exists tree: Option<Tree>, h: nat :: Preserves(v, tree, h) && es == ContentsOf(tree)
  }

  ghost function ContentsOf(tree: Option<Tree>): seq<Pair> {
    if tree.None? then [] else Entries(tree.value)
  }

  datatype Op = PutOp(key: Bytes, value: Bytes) | DeleteOp(key: Bytes) | CommitOp | SnapshotOp | ReleaseOp(txid: TxId)

  /** What an operation came to: it was done, or it failed and everything since the last commit was rolled back. */
  datatype Event = Did(op: Op) | Undone(op: Op)

  /** What the database holds: in the transaction in progress, and durably. */
  datatype State = State(working: seq<Pair>, committed: seq<Pair>)

  ghost function After(s: State, e: Event): State {
    match e
    case Undone(_) => State(s.committed, s.committed)
    case Did(PutOp(k, v)) => State(Updated(s.working, k, v), s.committed)
    case Did(DeleteOp(k)) => State(Removed(s.working, k), s.committed)
    case Did(CommitOp) => State(s.working, s.working)
    case Did(SnapshotOp) => s
    case Did(ReleaseOp(_)) => s
  }

  ghost function Replay(s: State, log: seq<Event>): State {
    if log == [] then s else After(Replay(s, log[..|log| - 1]), log[|log| - 1])
  }

  lemma ReplayPush(s: State, log: seq<Event>, e: Event)
    ensures Replay(s, log + [e]) == After(Replay(s, log), e)
  {
    assert (log + [e])[..|log|] == log;
  }

  /**
   An instant at which `i` events have been done and the next, if there is one, is
   under way: a crash lands on the map committed after those, and only while that
   next one is a commit, once its meta page is out, on the one it is committing.
   */
  ghost predicate LandsOn(m: Moment, s: State, log: seq<Event>, i: nat) {
    && i <= |log| && m.Safe() && !m.led
    && (|| Denotes(m.stable, Replay(s, log[..i]).committed)
        || (m.flight.None? && Committing(log, i) && Denotes(m.stable, Replay(s, log[..i + 1]).committed)))
    && (m.flight.Some? ==> Committing(log, i) && Denotes(m.flight.value, Replay(s, log[..i + 1]).committed))
  }

  ghost predicate Committing(log: seq<Event>, i: nat) { i < |log| && log[i] == Did(CommitOp) }

  /** A snapshot taken by event `j` of the run reads the map committed then. */
  ghost predicate HeldAt(v: Version, s: State, log: seq<Event>, j: nat) {
    j < |log| && log[j] == Did(SnapshotOp) && Denotes(v, Replay(s, log[..j]).committed)
  }

  /** Where in the history of the file each event ended; the first number is where the run began. */
  ghost predicate Marks(ends: seq<nat>, log: seq<Event>, length: nat) {
    && |ends| == |log| + 1 && ends[|log|] <= length
    && forall i, j | 0 <= i <= j < |ends| :: ends[i] <= ends[j]
  }

  /** The instants of event `i`; those of the one after the last are of an event still under way. */
  ghost predicate Within(ends: seq<nat>, i: nat, k: nat) {
    i < |ends| && ends[i] <= k && (i + 1 < |ends| ==> k < ends[i + 1])
  }

  /** Every instant since the run began lands where its event says, and every snapshot held reads what was committed when it was taken. */
  ghost predicate Faithful(history: seq<Moment>, held: map<TxId, Version>, ends: seq<nat>, pinned: map<TxId, nat>, s: State, log: seq<Event>) {
    && Marks(ends, log, |history|) && held.Keys <= pinned.Keys
    && (forall i: nat, k: nat | Within(ends, i, k) && k < |history| :: LandsOn(history[k], s, log, i))
    && (forall t | t in held :: HeldAt(held[t], s, log, pinned[t]))
  }

  /** The next event ends where the history does now. */
  ghost function UpTo(ends: seq<nat>, history: seq<Moment>): seq<nat> { ends + [|history|] }

  lemma LandsStays(m: Moment, s: State, log: seq<Event>, e: Event, i: nat)
    requires LandsOn(m, s, log, i)
    ensures LandsOn(m, s, log + [e], i)
  {
    hide Moment.Safe;
    hide Denotes;
    hide Replay;
    assert (log + [e])[..i] == log[..i];
    if i < |log| { assert (log + [e])[..i + 1] == log[..i + 1]; }
  }

  lemma SnapshotStays(v: Version, s: State, log: seq<Event>, e: Event, j: nat)
    requires HeldAt(v, s, log, j)
    ensures HeldAt(v, s, log + [e], j)
  {
    hide Denotes;
    hide Replay;
    assert (log + [e])[..j] == log[..j];
  }

  /** An event is over: the instants since the last one were its. */
  lemma FaithfulStays(history: seq<Moment>, held: map<TxId, Version>, ends: seq<nat>, pinned: map<TxId, nat>, s: State, log: seq<Event>, e: Event)
    requires Faithful(history, held, ends, pinned, s, log)
    ensures Faithful(history, held, UpTo(ends, history), pinned, s, log + [e])
  {
    hide LandsOn;
    hide HeldAt;
    var more, after := UpTo(ends, history), log + [e];
    forall i: nat, k: nat | Within(more, i, k) && k < |history| ensures LandsOn(history[k], s, after, i) {
      assert Within(ends, i, k);
      LandsStays(history[k], s, log, e, i);
    }
    forall t | t in held ensures HeldAt(held[t], s, after, pinned[t]) { SnapshotStays(held[t], s, log, e, pinned[t]); }
  }

  lemma LandsNow(m: Moment, s: State, log: seq<Event>)
    requires m.Safe() && !m.led && m.flight.None? && Denotes(m.stable, Replay(s, log).committed)
    ensures LandsOn(m, s, log, |log|)
  {
    assert log[..|log|] == log;
    hide Moment.Safe;
    hide Denotes;
    hide Replay;
  }

  ghost predicate AllSafe(history: seq<Moment>) { forall m | m in history :: !m.led && m.Safe() }

  /** Between commits every instant lands on the version that is stable. */
  lemma FaithfulQuiet(h0: seq<Moment>, h1: seq<Moment>, held: map<TxId, Version>, ends: seq<nat>, pinned: map<TxId, nat>,
                      s: State, log: seq<Event>, v: Version)
    requires Faithful(h0, held, ends, pinned, s, log) && OnlyLeads(h0, h1, v) && AllSafe(h1) && Denotes(v, Replay(s, log).committed)
    ensures Faithful(h1, held, ends, pinned, s, log)
  {
    hide LandsOn;
    hide HeldAt;
    hide Moment.Safe;
    hide Denotes;
    hide Replay;
    forall i: nat, k: nat | Within(ends, i, k) && k < |h1| ensures LandsOn(h1[k], s, log, i) {
      if k < |h0| {
        assert h1[k] == h0[k];
      } else {
        assert h1[k] in h1 && i == |log|;
        LandsNow(h1[k], s, log);
      }
    }
  }

  lemma LandsCommit(m: Moment, s: State, log: seq<Event>, v: Version, w: Version)
    requires m.Safe() && !m.led && Denotes(v, Replay(s, log).committed) && Denotes(w, Replay(s, log).working)
    requires (m.stable == v && (m.flight.None? || m.flight == Some(w))) || (m.stable == w && m.flight.None?)
    ensures LandsOn(m, s, log + [Did(CommitOp)], |log|)
  {
    var after := log + [Did(CommitOp)];
    ReplayPush(s, log, Did(CommitOp));
    assert after[..|log|] == log && after[..|log| + 1] == after;
    hide Moment.Safe;
    hide Denotes;
    hide Replay;
  }

  /** During a commit it lands on the old version or the new one. */
  lemma FaithfulCommit(h0: seq<Moment>, h1: seq<Moment>, held: map<TxId, Version>, ends: seq<nat>, pinned: map<TxId, nat>,
                       s: State, log: seq<Event>, v: Version, w: Version)
    requires Faithful(h0, held, ends, pinned, s, log) && Lands(h0, h1, v, w) && AllSafe(h1)
    requires Denotes(v, Replay(s, log).committed) && Denotes(w, Replay(s, log).working)
    ensures Faithful(h1, held, UpTo(ends, h1), pinned, s, log + [Did(CommitOp)])
  {
    hide LandsOn;
    hide HeldAt;
    hide Moment.Safe;
    hide Denotes;
    hide Replay;
    var more, after := UpTo(ends, h1), log + [Did(CommitOp)];
    forall i: nat, k: nat | Within(more, i, k) && k < |h1| ensures LandsOn(h1[k], s, after, i) {
      assert Within(ends, i, k);
      if k < |h0| {
        assert h1[k] == h0[k];
        LandsStays(h1[k], s, log, Did(CommitOp), i);
      } else {
        assert h1[k] in h1 && i == |log|;
        LandsCommit(h1[k], s, log, v, w);
      }
    }
    forall t | t in held ensures HeldAt(held[t], s, after, pinned[t]) { SnapshotStays(held[t], s, log, Did(CommitOp), pinned[t]); }
  }

  lemma FaithfulSnapshot(history: seq<Moment>, held: map<TxId, Version>, ends: seq<nat>, pinned: map<TxId, nat>,
                         s: State, log: seq<Event>, t: TxId, v: Version)
    requires Faithful(history, held, ends, pinned, s, log) && Denotes(v, Replay(s, log).committed)
    ensures Faithful(history, held[t := v], UpTo(ends, history), pinned[t := |log|], s, log + [Did(SnapshotOp)])
  {
    hide LandsOn;
    hide Denotes;
    hide Replay;
    FaithfulStays(history, held, ends, pinned, s, log, Did(SnapshotOp));
    assert (log + [Did(SnapshotOp)])[..|log|] == log;
    assert HeldAt(v, s, log + [Did(SnapshotOp)], |log|);
  }

  /** Letting go of a snapshot takes nothing from the others. */
  lemma FaithfulFewer(history: seq<Moment>, held: map<TxId, Version>, fewer: map<TxId, Version>, ends: seq<nat>, pinned: map<TxId, nat>,
                      s: State, log: seq<Event>)
    requires Faithful(history, held, ends, pinned, s, log) && forall t | t in fewer :: t in held && fewer[t] == held[t]
    ensures Faithful(history, fewer, ends, pinned, s, log)
  {
    hide LandsOn;
    hide HeldAt;
  }

  // ---- when an operation is done ----

  /** Whether an operation can be done on this tree: a legal key and value, no entry that jams its leaf, no branch that bursts. */
  ghost predicate Goes(tree: Option<Tree>, op: Op) {
    match op
    case PutOp(key, value) =>
      && LegalKey(key) && |value| <= MAX_VALUE
      && !(tree.Some? && |value| <= MAX_INLINE && Jams(tree.value, Item(key, value, [])))
    case DeleteOp(key) => LegalKey(key) && !(tree.Some? && Bursts(tree.value, key))
    case CommitOp => true
    case SnapshotOp => true
    case ReleaseOp(_) => true
  }

  /** What is done can be done, and without a quota what can be done is. */
  ghost predicate Fated(tree: Option<Tree>, op: Op, did: bool, maxPages: nat) {
    (did ==> Goes(tree, op)) && (Goes(tree, op) && maxPages == 0 ==> did)
  }

  /** The tree in hand holds what the events so far leave, and so does the file. */
  ghost predicate Tracks(t: BTree, ends: seq<nat>, pinned: map<TxId, nat>, s: State, log: seq<Event>)
    reads t`tree, t.pages`stable, t.pages`history, t.pages`held
  {
    && t.Contents() == Replay(s, log).working
    && Denotes(t.pages.stable, Replay(s, log).committed)
    && Faithful(t.pages.history, t.pages.held, ends, pinned, s, log)
  }

  lemma HistorySafe(p: Pager)
    requires p.Recoverable() && !p.led
    ensures AllSafe(p.history)
  {
    hide Moment.Safe;
    hide Whole;
    hide Guarded;
    hide Intact;
    hide StillRead;
    hide HeldWithin;
  }

  lemma ReadyHistorySafe(t: BTree)
    requires t.Ready() && !t.pages.led
    ensures AllSafe(t.pages.history) && t.pages.Recoverable() && t.pages.flight.None?
  {
    hide Pager.Booked;
    hide Book.Dirty;
    HistorySafe(t.pages);
    hide Pager.Recoverable;
  }

  /** After a failed operation: back to what the last commit left. It needs that no snapshot is held. */
  method BackOut(t: BTree, ghost ends: seq<nat>, ghost pinned: map<TxId, nat>, ghost s: State, ghost log: seq<Event>, op: Op) returns (u: BTree)
    requires t.pages.Recoverable() && !t.pages.led && t.pages.flight.None? && t.pages.reserved == 2 && t.pages.held == map[]
    requires Denotes(t.pages.stable, Replay(s, log).committed)
    requires Faithful(t.pages.history, t.pages.held, ends, pinned, s, log)
    modifies t.pages
    ensures fresh(u) && u.pages == t.pages && u.Valid()
    ensures Tracks(u, UpTo(ends, u.pages.history), pinned, s, log + [Undone(op)])
    ensures u.pages.held == old(t.pages.held)
  {
    hide Pager.Valid;
    hide Pager.Recoverable;
    hide Faithful;
    hide Preserves;
    hide Replay;
    hide Entries;
    var ok := t.pages.Rollback();
    assert Unlisted(t.pages.stable, t.pages.held);
    ghost var tree: Option<Tree>, h: nat :| Preserves(t.pages.stable, tree, h) && Replay(s, log).committed == ContentsOf(tree);
    u := new BTree.New(t.pages, tree, h);
    ReplayPush(s, log, Undone(op));
    FaithfulStays(t.pages.history, t.pages.held, ends, pinned, s, log, Undone(op));
  }

  lemma SomeHeld(p: Pager)
    requires p.Recoverable() && |p.readers| > 0
    ensures p.held != map[]
  {
    hide Moment.Safe;
    hide Whole;
    hide Guarded;
    hide Intact;
    hide StillRead;
    assert p.readers != map[];
    var k :| k in p.readers;
    assert k in p.held;
  }

  lemma NoneHeld(p: Pager)
    requires p.Recoverable() && |p.readers| == 0
    ensures p.held == map[]
  {
    hide Moment.Safe;
    hide Whole;
    hide Guarded;
    hide Intact;
    hide StillRead;
    assert p.readers == map[];
    assert p.held.Keys == {};
  }

  method DoPut(t: BTree, key: Bytes, value: Bytes, ghost ends: seq<nat>, ghost pinned: map<TxId, nat>, ghost s: State, ghost log: seq<Event>)
    returns (u: BTree, ok: bool, ghost e: Event)
    requires t.Valid() && !t.pages.led && Tracks(t, ends, pinned, s, log)
    modifies t, t.pages
    ensures u.pages == t.pages && (u == t || fresh(u)) && e.op == PutOp(key, value)
    ensures ok ==> u.Valid() && Tracks(u, UpTo(ends, u.pages.history), pinned, s, log + [e])
    ensures Fated(old(t.tree), PutOp(key, value), ok && e.Did?, t.pages.maxPages)
    ensures !ok ==> t.pages.held != map[] && t.pages.Recoverable() && Faithful(t.pages.history, t.pages.held, ends, pinned, s, log)
  {
    hide Pager.Valid;
    hide Pager.Recoverable;
    hide BTree.Sound;
    hide Exact;
    hide Written;
    hide Faithful;
    hide Denotes;
    hide Replay;
    hide Entries;
    hide Updated;
    hide Removed;
    hide OnlyLeads;
    hide AllSafe;
    hide Jams;
    hide Bursts;
    e := Did(PutOp(key, value));
    var out := t.Put(key, value, 0);
    ReadyHistorySafe(t);
    FaithfulQuiet(old(t.pages.history), t.pages.history, t.pages.held, ends, pinned, s, log, t.pages.stable);
    if out.Done? {
      ReplayPush(s, log, e);
      FaithfulStays(t.pages.history, t.pages.held, ends, pinned, s, log, e);
      return t, true, e;
    }
    if |t.pages.readers| > 0 {
      SomeHeld(t.pages);
      return t, false, e;
    }
    NoneHeld(t.pages);
    u := BackOut(t, ends, pinned, s, log, PutOp(key, value));
    return u, true, Undone(PutOp(key, value));
  }

  method DoDelete(t: BTree, key: Bytes, ghost ends: seq<nat>, ghost pinned: map<TxId, nat>, ghost s: State, ghost log: seq<Event>)
    returns (u: BTree, ok: bool, ghost e: Event)
    requires t.Valid() && !t.pages.led && Tracks(t, ends, pinned, s, log)
    modifies t, t.pages
    ensures u.pages == t.pages && (u == t || fresh(u)) && e.op == DeleteOp(key)
    ensures ok ==> u.Valid() && Tracks(u, UpTo(ends, u.pages.history), pinned, s, log + [e])
    ensures Fated(old(t.tree), DeleteOp(key), ok && e.Did?, t.pages.maxPages)
    ensures !ok ==> t.pages.held != map[] && t.pages.Recoverable() && Faithful(t.pages.history, t.pages.held, ends, pinned, s, log)
  {
    hide Pager.Valid;
    hide Pager.Recoverable;
    hide BTree.Sound;
    hide Exact;
    hide Written;
    hide Faithful;
    hide Denotes;
    hide Replay;
    hide Entries;
    hide Updated;
    hide Removed;
    hide OnlyLeads;
    hide AllSafe;
    hide Jams;
    hide Bursts;
    e := Did(DeleteOp(key));
    var out, removed := t.Delete(key, 0);
    ReadyHistorySafe(t);
    FaithfulQuiet(old(t.pages.history), t.pages.history, t.pages.held, ends, pinned, s, log, t.pages.stable);
    if out.Done? {
      ReplayPush(s, log, e);
      FaithfulStays(t.pages.history, t.pages.held, ends, pinned, s, log, e);
      return t, true, e;
    }
    if |t.pages.readers| > 0 {
      SomeHeld(t.pages);
      return t, false, e;
    }
    NoneHeld(t.pages);
    u := BackOut(t, ends, pinned, s, log, DeleteOp(key));
    return u, true, Undone(DeleteOp(key));
  }

  method DoCommit(t: BTree, ghost ends: seq<nat>, ghost pinned: map<TxId, nat>, ghost s: State, ghost log: seq<Event>)
    returns (u: BTree, ok: bool, ghost e: Event)
    requires t.Valid() && !t.pages.led && Tracks(t, ends, pinned, s, log)
    modifies t, t.pages
    ensures u.pages == t.pages && (u == t || fresh(u)) && e.op == CommitOp
    ensures ok ==> u.Valid() && Tracks(u, UpTo(ends, u.pages.history), pinned, s, log + [e])
    ensures Fated(old(t.tree), CommitOp, ok && e.Did?, t.pages.maxPages)
    ensures !ok ==> t.pages.held != map[] && t.pages.Recoverable() && Faithful(t.pages.history, t.pages.held, ends, pinned, s, log)
  {
    hide Pager.Valid;
    hide Pager.Recoverable;
    hide BTree.Sound;
    hide Exact;
    hide Written;
    hide Faithful;
    hide Replay;
    hide Entries;
    hide OnlyLeads;
    hide Lands;
    hide AllSafe;
    hide Preserves;
    e := Did(CommitOp);
    var done := t.Commit();
    HistorySafe(t.pages);
    if done {
      assert t.Contents() == ContentsOf(t.tree);
      assert Denotes(t.pages.stable, t.Contents());
      hide Denotes;
      FaithfulCommit(old(t.pages.history), t.pages.history, t.pages.held, ends, pinned, s, log, old(t.pages.stable), t.pages.stable);
      ReplayPush(s, log, e);
      return t, true, e;
    }
    hide Denotes;
    FaithfulQuiet(old(t.pages.history), t.pages.history, t.pages.held, ends, pinned, s, log, t.pages.stable);
    if |t.pages.readers| > 0 {
      SomeHeld(t.pages);
      return t, false, e;
    }
    NoneHeld(t.pages);
    u := BackOut(t, ends, pinned, s, log, CommitOp);
    return u, true, Undone(CommitOp);
  }

  method DoSnapshot(t: BTree, ghost ends: seq<nat>, ghost pinned: map<TxId, nat>, ghost s: State, ghost log: seq<Event>)
    returns (txid: TxId, root: PageId)
    requires t.Valid() && !t.pages.led && Tracks(t, ends, pinned, s, log)
    modifies t.pages
    ensures t.Valid() && Tracks(t, UpTo(ends, t.pages.history), pinned[txid := |log|], s, log + [Did(SnapshotOp)])
    ensures txid in t.pages.held && t.pages.held[txid] == t.pages.stable && root == t.pages.stable.meta.root
  {
    hide Pager.Valid;
    hide BTree.Sound;
    hide Weight;
    hide Written;
    hide Faithful;
    hide Replay;
    hide Entries;
    hide Denotes;
    txid, root := t.pages.Snapshot();
    FaithfulSnapshot(t.pages.history, old(t.pages.held), ends, pinned, s, log, txid, t.pages.stable);
    ReplayPush(s, log, Did(SnapshotOp));
  }

  method DoRelease(t: BTree, txid: TxId, ghost ends: seq<nat>, ghost pinned: map<TxId, nat>, ghost s: State, ghost log: seq<Event>)
    requires t.Valid() && !t.pages.led && Tracks(t, ends, pinned, s, log)
    modifies t.pages
    ensures t.Valid() && Tracks(t, UpTo(ends, t.pages.history), pinned, s, log + [Did(ReleaseOp(txid))])
  {
    hide Pager.Valid;
    hide BTree.Sound;
    hide Weight;
    hide Written;
    hide Faithful;
    hide Replay;
    hide Entries;
    hide Denotes;
    if txid in t.pages.readers {
      t.pages.Release(txid);
    }
    ReplayPush(s, log, Did(ReleaseOp(txid)));
    FaithfulFewer(t.pages.history, old(t.pages.held), t.pages.held, ends, pinned, s, log);
    FaithfulStays(t.pages.history, t.pages.held, ends, pinned, s, log, Did(ReleaseOp(txid)));
  }

  /** What the tree was before each event, and that each event came to what it had to. */
  ghost predicate Explains(trees: seq<Option<Tree>>, s: State, log: seq<Event>, script: seq<Op>, maxPages: nat) {
    && |trees| == |log| + 1 && |log| <= |script|
    && (forall i: nat | i < |trees| :: ContentsOf(trees[i]) == Replay(s, log[..i]).working)
    && (forall i: nat | i < |log| :: log[i].op == script[i] && Fated(trees[i], script[i], log[i].Did?, maxPages))
  }

  lemma ExplainsPush(trees: seq<Option<Tree>>, s: State, log: seq<Event>, script: seq<Op>, maxPages: nat, e: Event, tree: Option<Tree>)
    requires Explains(trees, s, log, script, maxPages) && |log| < |script| && e.op == script[|log|]
    requires Fated(trees[|log|], e.op, e.Did?, maxPages) && ContentsOf(tree) == Replay(s, log + [e]).working
    ensures Explains(trees + [tree], s, log + [e], script, maxPages)
  {
    hide Replay;
    hide Fated;
    hide ContentsOf;
    var more, after := trees + [tree], log + [e];
    forall i: nat | i < |more| ensures ContentsOf(more[i]) == Replay(s, after[..i]).working {
      if i < |trees| { assert after[..i] == log[..i]; } else { assert after[..i] == after; }
    }
  }

  /**
   Any run: whatever the operations and whichever of them fail, the tree in hand
   holds what the events leave; an operation that can be done is done unless the
   quota stops it; and at every instant of every event a crash lands on what was
   last committed, or on the commit under way. The run stops early only where an
   operation failed while a snapshot was held.
   */
  method Run(start: BTree, script: seq<Op>, ghost s: State)
    returns (t: BTree, ghost log: seq<Event>, ghost ends: seq<nat>, ghost pinned: map<TxId, nat>, ghost trees: seq<Option<Tree>>)
    requires start.Valid() && !start.pages.led && Tracks(start, [|start.pages.history|], map[], s, [])
    modifies start, start.pages
    ensures t.pages == start.pages && Explains(trees, s, log, script, t.pages.maxPages) && trees[0] == old(start.tree)
    ensures |log| == |script| ==> t.Valid() && t.tree == trees[|log|] && Tracks(t, ends, pinned, s, log)
    ensures |log| < |script| ==> t.pages.held != map[] && Fated(trees[|log|], script[|log|], false, t.pages.maxPages)
    ensures Faithful(t.pages.history, t.pages.held, ends, pinned, s, log) && ends[0] == |old(start.pages.history)|
    ensures t.pages.Recoverable()
  {
    hide Pager.Valid;
    hide Pager.Recoverable;
    hide BTree.Sound;
    hide Exact;
    hide Written;
    hide Faithful;
    hide Replay;
    hide Denotes;
    hide Explains;
    hide Fated;
    ends, pinned, trees := [|start.pages.history|], map[], [start.tree];
    t, log := start, [];
    ExplainsStart(start, s, script, t.pages.maxPages);
    var i := 0;
    while i < |script|
      invariant 0 <= i <= |script| && |log| == i && |ends| == i + 1 && ends[0] == |old(start.pages.history)|
      invariant t.pages == start.pages && (t == start || fresh(t)) && !t.pages.led
      invariant |trees| == i + 1 && t.tree == trees[i] && trees[0] == old(start.tree)
      invariant Explains(trees, s, log, script, t.pages.maxPages)
      invariant t.Valid() && Tracks(t, ends, pinned, s, log)
    {
      var ok := true;
      ghost var e;
      match script[i] {
        case PutOp(k, v) => t, ok, e := DoPut(t, k, v, ends, pinned, s, log);
        case DeleteOp(k) => t, ok, e := DoDelete(t, k, ends, pinned, s, log);
        case CommitOp => t, ok, e := DoCommit(t, ends, pinned, s, log);
        case SnapshotOp =>
          e := Did(SnapshotOp);
          AlwaysGoes(t.tree, script[i], t.pages.maxPages);
          var txid, root := DoSnapshot(t, ends, pinned, s, log);
          pinned := pinned[txid := i];
        case ReleaseOp(txid) =>
          e := Did(ReleaseOp(txid));
          AlwaysGoes(t.tree, script[i], t.pages.maxPages);
          DoRelease(t, txid, ends, pinned, s, log);
      }
      if !ok {
        return;
      }
      ExplainsPush(trees, s, log, script, t.pages.maxPages, e, t.tree);
      log, ends, trees := log + [e], UpTo(ends, t.pages.history), trees + [t.tree];
      i := i + 1;
    }
    ReadyHistorySafe(t);
  }

  lemma AlwaysGoes(tree: Option<Tree>, op: Op, maxPages: nat)
    requires op.SnapshotOp? || op.ReleaseOp?
    ensures Fated(tree, op, true, maxPages)
  {
  }

  lemma ExplainsStart(start: BTree, s: State, script: seq<Op>, maxPages: nat)
    requires start.Contents() == Replay(s, []).working
    ensures Explains([start.tree], s, [], script, maxPages)
  {
  }

  // ---- crashes and snapshots ----

  /** Every instant since a run began is an instant of one of its events. */
  lemma {:induction false} EventOf(ends: seq<nat>, k: nat) returns (i: nat)
    requires ends != [] && ends[0] <= k
    ensures Within(ends, i, k)
  {
    i := 0;
    while i + 1 < |ends| && ends[i + 1] <= k
      invariant i < |ends| && ends[i] <= k
    {
      i := i + 1;
    }
  }

  /**
   Whatever a crash leaves at any instant of a run, the file opens at a version all
   of whose pages are still there, and it holds exactly what the events done by then
   had committed, or, when the event under way is a commit, what that commit commits.
   */
  lemma CrashAnywhere(history: seq<Moment>, held: map<TxId, Version>, ends: seq<nat>, pinned: map<TxId, nat>,
                      s: State, log: seq<Event>, k: nat, image: map<PageId, Cell>)
    returns (v: Version, i: nat, newer: bool)
    requires Faithful(history, held, ends, pinned, s, log) && ends[0] <= k < |history| && Crashed(history[k].disk, image)
    ensures LoadMeta(image).Some? && LoadMeta(image).value.meta == v.meta && Held(image, v) && NoPageInSlots(image)
    ensures Whole(v, 2) && v.meta.txid >= 1
    ensures Within(ends, i, k) && i <= |log| && (newer ==> Committing(log, i))
    ensures Denotes(v, Replay(s, log[..if newer then i + 1 else i]).committed)
  {
    hide Replay;
    hide Denotes;
    hide Whole;
    hide Held;
    hide Crashed;
    var m := history[k];
    i := EventOf(ends, k);
    assert LandsOn(m, s, log, i);
    CrashRecovers(m.disk, m.stable, m.slot, m.flight, image);
    var flying := m.flight.Some? && LoadMeta(image).value.meta == m.flight.value.meta && Held(image, m.flight.value);
    v := if flying then m.flight.value else m.stable;
    newer := flying || !Denotes(m.stable, Replay(s, log[..i]).committed);
  }

  /** Opening what a crash left: the tree holds that map, and everything can go on from there. */
  method Reopen(image: map<PageId, Cell>, maxPages: nat, ghost v: Version, ghost es: seq<Pair>) returns (t: BTree)
    requires LoadMeta(image).Some? && LoadMeta(image).value.meta == v.meta && Held(image, v) && NoPageInSlots(image)
    requires Whole(v, 2) && v.meta.txid >= 1 && Denotes(v, es)
    ensures fresh(t) && fresh(t.pages) && t.Valid() && !t.pages.led && t.Contents() == es
    ensures Tracks(t, [|t.pages.history|], map[], State(es, es), [])
  {
    hide Whole;
    hide Held;
    hide LoadMeta;
    hide NoPageInSlots;
    hide Preserves;
    hide Pager.Valid;
    hide Entries;
    var p := new Pager.Open(image, maxPages, v);
    ghost var tree: Option<Tree>, h: nat :| Preserves(v, tree, h) && es == ContentsOf(tree);
    t := new BTree.New(p, tree, h);
    assert Replay(State(es, es), []) == State(es, es);
  }

  /** A held snapshot reads the map it pinned, whatever has been written and committed since. */
  method OpenSnapshot(p: Pager, txid: TxId, root: PageId, ghost es: seq<Pair>) returns (t: BTree)
    requires p.Valid() && txid in p.held && root == p.held[txid].meta.root && Denotes(p.held[txid], es)
    ensures fresh(t) && t.pages == p && t.Seen() && t.Contents() == es
  {
    hide Pager.Recoverable;
    hide Pager.Booked;
    hide Entries;
    hide Ordered;
    hide Full;
    ghost var tree: Option<Tree>, h: nat :| Preserves(p.held[txid], tree, h) && es == ContentsOf(tree);
    t := new BTree.At(p, root, tree, h);
    if tree.Some? { SnapshotIsLegible(p, txid, tree.value, h); }
    hide Legible;
    hide Weight;
    hide Spells;
  }

  lemma SnapshotIsLegible(p: Pager, txid: TxId, t: Tree, h: nat)
    requires p.Valid() && txid in p.held && Preserves(p.held[txid], Some(t), h)
    ensures Legible(p.Pages(), t, p.meta.pageCount)
  {
    hide Book.Sums;
    hide Book.Shields;
    hide Whole;
    hide Guarded;
    hide Intact;
    hide Ordered;
    hide Full;
    hide Moment.Safe;
    hide PagesIn;
    var v := p.held[txid];
    forall q: PageId ensures Occurs(t, q) == Has(v.tree.Keys, q) {
      KidsOccurOne(t, q);
      assert Weight(Subtrees(ForestOf(Some(t))), q) == Has(v.tree.Keys, q);
    }
    hide Weight;
    hide Occurs;
    hide Spells;
    forall q | q in v.tree && Occurs(t, q) > 0 ensures q in p.Pages() && p.Pages()[q] == v.tree[q] {
      assert txid in p.held && q in p.held[txid].tree;
    }
    SpellsFrame(v.tree, p.Pages(), t);
    forall q: PageId | Occurs(t, q) > 0 ensures q < p.meta.pageCount {
      assert q in p.held[txid].tree;
      assert p.reserved <= q < p.stable.meta.pageCount;
    }
  }
}
