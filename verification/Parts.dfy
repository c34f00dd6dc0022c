/**
 One database over several files with one commit: the leader's tree records where
 every partition is, and only the leader has meta pages.
 */
module Parts {
  import opened Bytes
  import opened Words
  import opened Options
  import opened PageFile
  import opened FreeLists
  import opened Pagers
  import opened Nodes
  import opened Sorted
  import opened Trees
  import opened Ledgers
  import opened Surgery
  import opened Reads
  import opened Prunings
  import opened Btrees
  import opened Runs

  type Name = Bytes

  // ---- the record of a partition ----

  function PartKey(name: Name): Bytes { [7] + name }

  function PartValue(at: Position): Bytes { Word(at.root, 8) + Word(at.freelist, 8) + Word(at.pageCount, 8) }

  /** readPart: what a record says, or nothing when it is not 24 bytes. */
  function ReadPosition(value: Bytes): Option<Position> {
    if |value| != 24 then None
    else Some(Position(FromWord(value[..8]), FromWord(value[8..16]), FromWord(value[16..])))
  }

  /** Page numbers fit the record. */
  predicate Recordable(at: Position) { at.root < Power(8) && at.freelist < Power(8) && at.pageCount < Power(8) }

  lemma PositionRoundTrip(at: Position)
    requires Recordable(at)
    ensures ReadPosition(PartValue(at)) == Some(at) && |PartValue(at)| == 24
  {
    hide Power;
    WordRoundTrip(at.root, 8);
    WordRoundTrip(at.freelist, 8);
    WordRoundTrip(at.pageCount, 8);
    hide Word;
    hide FromWord;
    var v := PartValue(at);
    assert v[..8] == Word(at.root, 8) && v[8..16] == Word(at.freelist, 8) && v[16..] == Word(at.pageCount, 8);
  }

  // ---- what the leader says ----

  /** Which version of each partition one leader transaction stands for. */
  type Catalog = map<Name, Version>

  ghost function RecordFor(catalog: Catalog, name: Name): Option<Bytes> {
    if name in catalog then Some(PartValue(PositionOf(catalog[name].meta))) else None
  }

  /** The leader's map holds a record for every partition of the catalog, and for no other. */
  ghost predicate Lists(es: seq<Pair>, catalog: Catalog) {
    forall name: Name :: Lookup(es, PartKey(name)) == RecordFor(catalog, name)
  }

  ghost predicate Speaks(v: Version, catalog: Catalog) { exists es :: Denotes(v, es) && Lists(es, catalog) }

  /** Every partition of the catalog is in its file, whole. */
  ghost predicate AllThere(files: map<Name, Disk>, catalog: Catalog) {
    forall n | n in catalog :: n in files && Intact(files[n], catalog[n]) && Whole(catalog[n], 1)
  }

  /** Whose file moved last. */
  datatype Mover = Leader | Of(name: Name)

  /**
   One instant of a run over several files: what each file holds, and what the
   leader's versions stand for. `lost` are the partitions of its catalog that are no
   longer looked after, because their file is being made anew or has been unlinked.
   */
  datatype Instant = Instant(mover: Mover, leader: Moment, files: map<Name, Disk>, catalog: Catalog, next: Catalog, lost: set<Name>) {
    ghost predicate Sound() {
      && !leader.led && leader.Safe()
      && Speaks(leader.stable, catalog) && AllThere(files, catalog - lost)
      && (leader.flight.Some? ==> Speaks(leader.flight.value, next) && AllThere(files, next))
    }
  }

  /**
   A crash at any instant, taking any subset of the un-synced writes of every
   file: the leader opens at one transaction, and every partition that
   transaction records is found at the position recorded, with its pages intact.
   */
  lemma CrashAcrossFiles(i: Instant, image: map<PageId, Cell>, images: map<Name, map<PageId, Cell>>)
    returns (v: Version, catalog: Catalog, flying: bool)
    requires i.Sound() && Crashed(i.leader.disk, image)
    requires forall n | n in i.files :: n in images && Scrambled(i.files[n], images[n])
    ensures LoadMeta(image).Some? && LoadMeta(image).value.meta == v.meta && Held(image, v) && Whole(v, 2)
    ensures Speaks(v, catalog)
    ensures if flying then Some(v) == i.leader.flight && catalog == i.next else v == i.leader.stable && catalog == i.catalog
    ensures forall n | n in catalog && (flying || n !in i.lost) :: n in images && Held(images[n], catalog[n]) && Whole(catalog[n], 1)
  {
    hide Speaks;
    hide Whole;
    hide Held;
    hide Crashed;
    hide Scrambled;
    hide Intact;
    var m := i.leader;
    CrashRecovers(m.disk, m.stable, m.slot, m.flight, image);
    flying := m.flight.Some? && LoadMeta(image).value.meta == m.flight.value.meta && Held(image, m.flight.value);
    v, catalog := if flying then m.flight.value else m.stable, if flying then i.next else i.catalog;
    forall n | n in catalog && (flying || n !in i.lost) ensures n in images && Held(images[n], catalog[n]) {
      assert !flying ==> n in i.catalog - i.lost;
      LedCrashHolds(i.files[n], catalog[n], images[n]);
    }
  }

  // ---- what a stretch of a run goes through ----

  ghost predicate SameBut(a: map<Name, Disk>, b: map<Name, Disk>, name: Name) { a - {name} == b - {name} }

  /** From here, one file moves. */
  ghost predicate Continues(leader: Moment, files: map<Name, Disk>, i: Instant) {
    match i.mover
    case Leader => i.files == files
    case Of(n) => i.leader.disk == leader.disk && i.leader.stable == leader.stable && SameBut(files, i.files, n)
  }

  ghost predicate Chained(seen: seq<Instant>) {
    forall k | 0 < k < |seen| :: Continues(seen[k - 1].leader, seen[k - 1].files, seen[k])
  }

  /** The moments of the leader's file among these instants. */
  ghost function LeaderMoments(seen: seq<Instant>): seq<Moment> {
    if seen == [] then []
    else
      var last := seen[|seen| - 1];
      LeaderMoments(seen[..|seen| - 1]) + (if last.mover.Leader? then [last.leader] else [])
  }

  /** What one partition's file held at the instants it moved. */
  ghost function PartDisks(seen: seq<Instant>, name: Name): seq<Disk> {
    if seen == [] then []
    else
      var last := seen[|seen| - 1];
      PartDisks(seen[..|seen| - 1], name) + (if last.mover == Of(name) && name in last.files then [last.files[name]] else [])
  }

  lemma {:induction false} SeenConcat(a: seq<Instant>, b: seq<Instant>, name: Name)
    ensures LeaderMoments(a + b) == LeaderMoments(a) + LeaderMoments(b)
    ensures PartDisks(a + b, name) == PartDisks(a, name) + PartDisks(b, name)
  {
    if b == [] {
      assert a + b == a;
    } else {
      SeenConcat(a, b[..|b| - 1], name);
      assert (a + b)[..|a + b| - 1] == a + b[..|b| - 1];
    }
  }

  function DisksOf(h: seq<Moment>): (r: seq<Disk>)
    ensures |r| == |h| && forall k | 0 <= k < |h| :: r[k] == h[k].disk
  {
    seq(|h|, k requires 0 <= k < |h| => h[k].disk)
  }

  lemma DisksConcat(a: seq<Moment>, b: seq<Moment>)
    ensures DisksOf(a + b) == DisksOf(a) + DisksOf(b)
  {
  }

  /** Everything outside a store that can be seen of it: the files, and the history each open file has been through. */
  datatype Scene = Scene(leader: Moment, history: seq<Moment>, files: map<Name, Disk>, logs: map<Name, seq<Moment>>) {
    /** The same with one partition somewhere else. */
    function With(name: Name, disk: Disk, log: seq<Moment>): Scene {
      this.(files := files[name := disk], logs := logs[name := log])
    }
  }

  /** These instants lead from the one scene to the other, file by file, and leave out nothing any file went through. */
  ghost predicate Shows(a: Scene, seen: seq<Instant>, b: Scene) {
    && Chained(seen)
    && (if seen == [] then b.leader.disk == a.leader.disk && b.leader.stable == a.leader.stable && b.files == a.files
        else
          var last := seen[|seen| - 1];
          && Continues(a.leader, a.files, seen[0])
          && last.leader.disk == b.leader.disk && last.leader.stable == b.leader.stable && last.files == b.files)
    && a.history <= b.history && LeaderMoments(seen) == b.history[|a.history|..]
    && (forall n | n in a.logs && n in b.logs :: a.logs[n] <= b.logs[n] && PartDisks(seen, n) == DisksOf(b.logs[n][|a.logs[n]|..]))
  }

  lemma ShowsNothing(a: Scene, b: Scene)
    requires b.leader.disk == a.leader.disk && b.leader.stable == a.leader.stable && b.files == a.files && b.history == a.history
    requires forall n | n in a.logs && n in b.logs :: b.logs[n] == a.logs[n]
    ensures Shows(a, [], b)
  {
  }

  lemma ShowsChain(a: Scene, s: seq<Instant>, b: Scene, t: seq<Instant>, c: Scene)
    requires Shows(a, s, b) && Shows(b, t, c) && forall n | n in a.logs && n in c.logs :: n in b.logs
    ensures Shows(a, s + t, c)
  {
    hide LeaderMoments;
    hide PartDisks;
    var all := s + t;
    ShowsLinked(a, s, b, t, c);
    SeenConcat(s, t, []);
    assert c.history[|a.history|..] == b.history[|a.history|..] + c.history[|b.history|..];
    forall n | n in a.logs && n in c.logs ensures a.logs[n] <= c.logs[n] && PartDisks(all, n) == DisksOf(c.logs[n][|a.logs[n]|..]) {
      SeenConcat(s, t, n);
      var x, y, z := a.logs[n], b.logs[n], c.logs[n];
      assert z[|x|..] == y[|x|..] + z[|y|..];
      DisksConcat(y[|x|..], z[|y|..]);
    }
  }

  lemma ShowsLinked(a: Scene, s: seq<Instant>, b: Scene, t: seq<Instant>, c: Scene)
    requires Shows(a, s, b) && Shows(b, t, c)
    ensures Chained(s + t)
    ensures s + t != [] ==>
      var all := s + t;
      var last := all[|all| - 1];
      && Continues(a.leader, a.files, all[0])
      && last.leader.disk == c.leader.disk && last.leader.stable == c.leader.stable && last.files == c.files
    ensures s + t == [] ==> c.leader.disk == a.leader.disk && c.leader.stable == a.leader.stable && c.files == a.files
  {
    hide LeaderMoments;
    hide PartDisks;
    hide DisksOf;
    var all := s + t;
    forall k | 0 < k < |all| ensures Continues(all[k - 1].leader, all[k - 1].files, all[k]) {
      if k < |s| {
        assert all[k - 1] == s[k - 1] && all[k] == s[k];
      } else if k > |s| {
        assert all[k - 1] == t[k - 1 - |s|] && all[k] == t[k - |s|];
      }
    }
  }

  /** A trail: sound all along, one file moving at a time, and where it ends is what there is now. */
  ghost predicate Recorded(trail: seq<Instant>, leader: Moment, files: map<Name, Disk>) {
    && trail != [] && AllSound(trail) && Chained(trail)
    && var last := trail[|trail| - 1]; last.leader.disk == leader.disk && last.leader.stable == leader.stable && last.files == files
  }

  lemma TrailGrows(trail: seq<Instant>, a: Scene, seen: seq<Instant>, b: Scene)
    requires Recorded(trail, a.leader, a.files) && AllSound(seen) && Shows(a, seen, b)
    ensures Recorded(trail + seen, b.leader, b.files)
  {
    hide Instant.Sound;
    hide LeaderMoments;
    hide PartDisks;
    hide DisksOf;
    AllSoundConcat(trail, seen);
    hide AllSound;
    var all := trail + seen;
    forall k | 0 < k < |all| ensures Continues(all[k - 1].leader, all[k - 1].files, all[k]) {
      if k < |trail| {
        assert all[k - 1] == trail[k - 1] && all[k] == trail[k];
      } else if k > |trail| {
        assert all[k - 1] == seen[k - 1 - |trail|] && all[k] == seen[k - |trail|];
      }
    }
    if seen == [] { assert all == trail; }
  }

  lemma StillRecorded(trail: seq<Instant>, m: Moment, files: map<Name, Disk>, now: Moment)
    requires Recorded(trail, m, files) && now.disk == m.disk && now.stable == m.stable
    ensures Recorded(trail, now, files)
  {
    hide AllSound;
    hide Chained;
  }

  /** Between commits every instant lands on the one leader version, and on the one catalog. */
  ghost predicate Steady(seen: seq<Instant>, kept: Version, catalog: Catalog, lost: set<Name>) {
    forall i | i in seen :: i.leader.stable == kept && i.catalog == catalog && i.leader.flight.None? && i.lost == lost
  }

  lemma SteadyConcat(a: seq<Instant>, b: seq<Instant>, kept: Version, catalog: Catalog, lost: set<Name>)
    requires Steady(a, kept, catalog, lost) && Steady(b, kept, catalog, lost)
    ensures Steady(a + b, kept, catalog, lost)
  {
  }

  /** During a commit: on the old version and catalog until the leader's meta is out, then on either, then on the new ones. */
  ghost predicate Turns(seen: seq<Instant>, kept: Version, landed: Version, catalog: Catalog, next: Catalog, lost: set<Name>) {
    forall i | i in seen ::
      || (i.leader.stable == kept && i.catalog == catalog && i.lost == lost && (i.leader.flight.Some? ==> i.leader.flight.value == landed && i.next == next))
      || (i.leader.stable == landed && i.catalog == next && i.leader.flight.None? && i.lost <= lost)
  }

  lemma SteadyTurns(seen: seq<Instant>, kept: Version, landed: Version, catalog: Catalog, next: Catalog, lost: set<Name>)
    requires Steady(seen, kept, catalog, lost)
    ensures Turns(seen, kept, landed, catalog, next, lost)
  {
  }

  lemma TurnsConcat(a: seq<Instant>, b: seq<Instant>, kept: Version, landed: Version, catalog: Catalog, next: Catalog, lost: set<Name>)
    requires Turns(a, kept, landed, catalog, next, lost) && Turns(b, kept, landed, catalog, next, lost)
    ensures Turns(a + b, kept, landed, catalog, next, lost)
  {
  }

  // ---- the files ----

  /** The same position and the same pages; the transaction number of a led file is not recorded. */
  ghost predicate SameAs(v: Version, w: Version) {
    PositionOf(v.meta) == PositionOf(w.meta) && v.tree == w.tree && v.list == w.list && v.chain == w.chain && v.freed == w.freed
  }

  lemma SameIsThere(disk: Disk, v: Version, w: Version)
    requires SameAs(v, w) && Intact(disk, v) && Whole(v, 1)
    ensures Intact(disk, w) && Whole(w, 1)
  {
    hide Copies;
    hide ListAt;
    hide Closed;
  }

  /** A partition set aside by a drop: nothing is written to it, and it can be put back. */
  ghost predicate SetAside(p: Pager)
    reads p
  {
    p.Recoverable() && p.led && p.reserved == 1 && p.held == map[] && p.meta.txid >= 1
  }

  lemma AsideFacts(p: Pager)
    requires SetAside(p)
    ensures Intact(p.disk, p.stable) && Whole(p.stable, 1)
  {
    hide Intact;
    hide Whole;
    hide StillRead;
  }

  lemma LeaderFacts(p: Pager)
    requires p.Recoverable() && !p.led
    ensures Moment(false, p.disk, p.stable, p.nextMeta, None).Safe()
    ensures forall m | m in p.history :: !m.led && m.Safe()
  {
    hide Whole;
    hide Guarded;
    hide Intact;
    hide StillRead;
  }

  ghost function LeaderNow(p: Pager): Moment
    reads p`disk, p`stable, p`nextMeta
  {
    Moment(false, p.disk, p.stable, p.nextMeta, None)
  }

  ghost predicate AllSound(instants: seq<Instant>) { forall i | i in instants :: i.Sound() }

  lemma AllSoundConcat(a: seq<Instant>, b: seq<Instant>)
    requires AllSound(a) && AllSound(b)
    ensures AllSound(a + b)
  {
    hide Instant.Sound;
  }

  /** The instants of a stretch of the leader's history, the other files standing still. */
  ghost function LeaderInstants(h0: seq<Moment>, h1: seq<Moment>, files: map<Name, Disk>, catalog: Catalog, lost: set<Name>): (r: seq<Instant>)
    requires |h0| <= |h1|
    ensures |r| == |h1| - |h0| && forall k | 0 <= k < |r| :: r[k] == Instant(Leader, h1[|h0| + k], files, catalog, map[], lost)
  {
    seq(|h1| - |h0|, k requires 0 <= k < |h1| - |h0| => Instant(Leader, h1[|h0| + k], files, catalog, map[], lost))
  }

  /** While the leader only leads to its stable version, the instants are sound. */
  lemma LeaderQuietSound(h0: seq<Moment>, h1: seq<Moment>, v: Version, files: map<Name, Disk>, catalog: Catalog, lost: set<Name>)
    requires OnlyLeads(h0, h1, v) && (forall m | m in h1 :: !m.led && m.Safe()) && Speaks(v, catalog) && AllThere(files, catalog - lost)
    ensures AllSound(LeaderInstants(h0, h1, files, catalog, lost)) && Steady(LeaderInstants(h0, h1, files, catalog, lost), v, catalog, lost)
  {
    hide Speaks;
    hide AllThere;
    hide Moment.Safe;
    var all := LeaderInstants(h0, h1, files, catalog, lost);
    forall k | 0 <= k < |all| ensures all[k].Sound() { assert h1[|h0| + k] in h1; }
  }

  /** During its commit: on the version before, with both catalogs there, or on the new one. */
  ghost function CommitInstants(h0: seq<Moment>, h1: seq<Moment>, w: Version, files: map<Name, Disk>, catalog: Catalog,
      next: Catalog, lost: set<Name>): (r: seq<Instant>)
    requires |h0| <= |h1|
    ensures |r| == |h1| - |h0|
    ensures forall k | 0 <= k < |r| :: r[k] == CommitInstant(h1[|h0| + k], w, files, catalog, next, lost)
  {
    seq(|h1| - |h0|, k requires 0 <= k < |h1| - |h0| => CommitInstant(h1[|h0| + k], w, files, catalog, next, lost))
  }

  ghost function CommitInstant(m: Moment, w: Version, files: map<Name, Disk>, catalog: Catalog, next: Catalog, lost: set<Name>): Instant {
    if m.stable == w && m.flight.None? then Instant(Leader, m, files, next, map[], {}) else Instant(Leader, m, files, catalog, next, lost)
  }

  lemma CommitSound(h0: seq<Moment>, h1: seq<Moment>, v: Version, w: Version, files: map<Name, Disk>, catalog: Catalog,
      next: Catalog, lost: set<Name>)
    requires Lands(h0, h1, v, w) && (forall m | m in h1 :: !m.led && m.Safe())
    requires Speaks(v, catalog) && AllThere(files, catalog - lost) && Speaks(w, next) && AllThere(files, next)
    ensures AllSound(CommitInstants(h0, h1, w, files, catalog, next, lost))
    ensures Turns(CommitInstants(h0, h1, w, files, catalog, next, lost), v, w, catalog, next, lost)
  {
    hide Speaks;
    hide AllThere;
    hide Moment.Safe;
    var all := CommitInstants(h0, h1, w, files, catalog, next, lost);
    assert next - {} == next;
    forall k | 0 <= k < |all| ensures all[k].Sound() {
      var m := h1[|h0| + k];
      assert m in h1;
    }
  }

  lemma {:induction false} AllLeader(seen: seq<Instant>, h: seq<Moment>, name: Name)
    requires |h| == |seen| && forall k | 0 <= k < |seen| :: seen[k].mover.Leader? && seen[k].leader == h[k]
    ensures LeaderMoments(seen) == h && PartDisks(seen, name) == []
  {
    if seen != [] {
      AllLeader(seen[..|seen| - 1], h[..|h| - 1], name);
      assert h == h[..|h| - 1] + [h[|h| - 1]];
    }
  }

  /** A stretch in which only the leader's file moved shows it all. */
  lemma LeaderShows(a: Scene, seen: seq<Instant>, b: Scene)
    requires a.history <= b.history && |seen| == |b.history| - |a.history| && b.files == a.files && b.logs == a.logs
    requires forall k | 0 <= k < |seen| :: seen[k].mover.Leader? && seen[k].leader == b.history[|a.history| + k] && seen[k].files == a.files
    requires a.history != [] && a.history[|a.history| - 1].disk == a.leader.disk
    requires b.history[|b.history| - 1].disk == b.leader.disk
    requires if seen == [] then b.leader.stable == a.leader.stable else b.history[|b.history| - 1].stable == b.leader.stable
    ensures Shows(a, seen, b)
  {
    hide LeaderMoments;
    hide PartDisks;
    AllLeader(seen, b.history[|a.history|..], []);
    forall n | n in a.logs && n in b.logs ensures PartDisks(seen, n) == DisksOf(b.logs[n][|a.logs[n]|..]) {
      AllLeader(seen, b.history[|a.history|..], n);
      assert b.logs[n][|a.logs[n]|..] == [];
    }
    if seen == [] {
      assert b.history == a.history;
    } else {
      assert seen[|seen| - 1].leader == b.history[|b.history| - 1];
    }
  }

  lemma CommitShows(a: Scene, seen: seq<Instant>, b: Scene, w: Version, catalog: Catalog, next: Catalog, lost: set<Name>)
    requires a.history <= b.history && |a.history| < |b.history| && b.files == a.files && b.logs == a.logs
    requires seen == CommitInstants(a.history, b.history, w, a.files, catalog, next, lost)
    requires a.history != [] && a.history[|a.history| - 1].disk == a.leader.disk
    requires b.history[|b.history| - 1].disk == b.leader.disk && b.history[|b.history| - 1].stable == b.leader.stable
    ensures Shows(a, seen, b)
  {
    hide Shows;
    LeaderShows(a, seen, b);
  }

  /** The instants of a stretch of one partition's history, everything else standing still. */
  ghost function PartInstants(h0: seq<Moment>, h1: seq<Moment>, leader: Moment, files: map<Name, Disk>, name: Name,
      catalog: Catalog, lost: set<Name>): (r: seq<Instant>)
    requires |h0| <= |h1|
    ensures |r| == |h1| - |h0|
    ensures forall k | 0 <= k < |r| :: r[k] == Instant(Of(name), leader, files[name := h1[|h0| + k].disk], catalog, map[], lost)
  {
    seq(|h1| - |h0|, k requires 0 <= k < |h1| - |h0| => Instant(Of(name), leader, files[name := h1[|h0| + k].disk], catalog, map[], lost))
  }

  lemma PartSound(h0: seq<Moment>, h1: seq<Moment>, v: Version, leader: Moment, files: map<Name, Disk>, name: Name, catalog: Catalog, lost: set<Name>)
    requires |h0| <= |h1| && (forall m | m in h1 :: m.led && m.Safe()) && (forall k | |h0| <= k < |h1| :: h1[k].stable == v)
    requires !leader.led && leader.Safe() && leader.flight.None? && Speaks(leader.stable, catalog) && AllThere(files, catalog - lost)
    requires name in catalog && name !in lost ==> SameAs(v, catalog[name]) && Whole(v, 1)
    ensures AllSound(PartInstants(h0, h1, leader, files, name, catalog, lost)) &&
        Steady(PartInstants(h0, h1, leader, files, name, catalog, lost), leader.stable, catalog, lost)
  {
    hide Speaks;
    hide Whole;
    hide Guarded;
    hide Intact;
    hide SameAs;
    var all := PartInstants(h0, h1, leader, files, name, catalog, lost);
    forall k | 0 <= k < |all| ensures all[k].Sound() {
      var m := h1[|h0| + k];
      assert m in h1;
      assert Intact(m.disk, v);
      if name in catalog && name !in lost { SameIsThere(m.disk, v, catalog[name]); }
      assert AllThere(files[name := m.disk], catalog - lost);
    }
  }

  lemma {:induction false} AllPart(seen: seq<Instant>, disks: seq<Disk>, name: Name, other: Name)
    requires |disks| == |seen| && forall k | 0 <= k < |seen| :: seen[k].mover == Of(name) && name in seen[k].files && seen[k].files[name] == disks[k]
    ensures LeaderMoments(seen) == [] && PartDisks(seen, name) == disks && (other != name ==> PartDisks(seen, other) == [])
  {
    if seen != [] {
      AllPart(seen[..|seen| - 1], disks[..|disks| - 1], name, other);
      assert disks == disks[..|disks| - 1] + [disks[|disks| - 1]];
    }
  }

  /** A stretch in which only one partition's file moved shows it all. */
  lemma PartShows(a: Scene, seen: seq<Instant>, b: Scene, name: Name, h0: seq<Moment>, h1: seq<Moment>)
    requires h0 <= h1 && |seen| == |h1| - |h0| && b.leader == a.leader && b.history == a.history
    requires name in a.logs && a.logs[name] == h0 && b.logs == a.logs[name := h1]
    requires forall k | 0 <= k < |seen| :: seen[k].mover == Of(name) && seen[k].leader == a.leader && seen[k].files == a.files[name := h1[|h0| + k].disk]
    requires h0 != [] && name in a.files && a.files[name] == h0[|h0| - 1].disk && b.files == a.files[name := h1[|h1| - 1].disk]
    ensures Shows(a, seen, b)
  {
    hide LeaderMoments;
    hide PartDisks;
    PartMoves(a, seen, name, h0, h1);
    hide Chained;
    hide Continues;
    PartLogs(a, seen, b, name, h0, h1);
    AllPart(seen, DisksOf(h1[|h0|..]), name, name);
    assert b.history[|a.history|..] == [];
    if seen == [] {
      assert h1 == h0;
      assert b.files == a.files;
    } else {
      assert seen[|seen| - 1].files == b.files;
    }
  }

  lemma PartLogs(a: Scene, seen: seq<Instant>, b: Scene, name: Name, h0: seq<Moment>, h1: seq<Moment>)
    requires h0 <= h1 && |seen| == |h1| - |h0|
    requires name in a.logs && a.logs[name] == h0 && b.logs == a.logs[name := h1]
    requires forall k | 0 <= k < |seen| :: seen[k].mover == Of(name) && seen[k].files == a.files[name := h1[|h0| + k].disk]
    ensures forall n | n in a.logs && n in b.logs :: a.logs[n] <= b.logs[n] && PartDisks(seen, n) == DisksOf(b.logs[n][|a.logs[n]|..])
  {
    hide PartDisks;
    var disks := DisksOf(h1[|h0|..]);
    forall n | n in a.logs && n in b.logs ensures a.logs[n] <= b.logs[n] && PartDisks(seen, n) == DisksOf(b.logs[n][|a.logs[n]|..]) {
      AllPart(seen, disks, name, n);
      if n != name { assert b.logs[n] == a.logs[n] && b.logs[n][|a.logs[n]|..] == []; }
    }
  }

  lemma PartMoves(a: Scene, seen: seq<Instant>, name: Name, h0: seq<Moment>, h1: seq<Moment>)
    requires h0 <= h1 && |seen| == |h1| - |h0|
    requires forall k | 0 <= k < |seen| :: seen[k].mover == Of(name) && seen[k].leader == a.leader && seen[k].files == a.files[name := h1[|h0| + k].disk]
    ensures Chained(seen) && (seen != [] ==> Continues(a.leader, a.files, seen[0]))
  {
    forall k | 0 <= k < |seen| ensures SameBut(a.files, seen[k].files, name) { SameButUpdated(a.files, name, h1[|h0| + k].disk); }
    hide SameBut;
    forall k | 0 < k < |seen| ensures Continues(seen[k - 1].leader, seen[k - 1].files, seen[k]) {
      SameButTwice(a.files, seen[k - 1].files, seen[k].files, name);
    }
  }

  lemma SameButTwice(a: map<Name, Disk>, b: map<Name, Disk>, c: map<Name, Disk>, name: Name)
    requires SameBut(a, b, name) && SameBut(a, c, name)
    ensures SameBut(b, c, name)
  {
  }

  lemma SameButUpdated(files: map<Name, Disk>, name: Name, disk: Disk)
    ensures SameBut(files, files[name := disk], name)
  {
  }

  /** A file that is not open moves: it is labelled, or it is unlinked. */
  lemma FileShows(a: Scene, i: Instant, b: Scene, name: Name)
    requires i.mover == Of(name) && b.leader == a.leader && b.history == a.history && i.leader.disk == a.leader.disk &&
        i.leader.stable == a.leader.stable
    requires SameBut(a.files, i.files, name) && i.files == b.files
    requires forall n | n in a.logs && n in b.logs :: b.logs[n] == a.logs[n] && (n == name ==> name !in i.files)
    ensures Shows(a, [i], b)
  {
    assert [i][..0] == [];
    assert LeaderMoments([i]) == [];
    forall n | n in a.logs && n in b.logs ensures PartDisks([i], n) == [] { }
  }

  /** A new file gets its label, which is then synced. */
  ghost function LabelInstants(a: Scene, name: Name, written: Disk, synced: Disk, catalog: Catalog, lost: set<Name>): seq<Instant> {
    [Instant(Of(name), a.leader, a.files[name := written], catalog, map[], lost),
     Instant(Of(name), a.leader, a.files[name := synced], catalog, map[], lost)]
  }

  lemma LabelShows(a: Scene, name: Name, written: Disk, synced: Disk, catalog: Catalog, lost: set<Name>, b: Scene)
    requires name !in a.logs && b.leader == a.leader && b.history == a.history && b.files == a.files[name := synced]
    requires forall n | n in a.logs && n in b.logs :: b.logs[n] == a.logs[n]
    ensures Shows(a, LabelInstants(a, name, written, synced, catalog, lost), b)
  {
    hide Shows;
    var seen := LabelInstants(a, name, written, synced, catalog, lost);
    var m := a.(files := a.files[name := written]);
    SameButUpdated(a.files, name, written);
    SameButUpdated(a.files, name, synced);
    SameButTwice(a.files, m.files, b.files, name);
    FileShows(a, seen[0], m, name);
    FileShows(m, seen[1], b, name);
    ShowsChain(a, [seen[0]], m, [seen[1]], b);
    assert seen == [seen[0]] + [seen[1]];
  }

  lemma LabelSound(a: Scene, name: Name, written: Disk, synced: Disk, catalog: Catalog, lost: set<Name>)
    requires !a.leader.led && a.leader.Safe() && a.leader.flight.None? && Speaks(a.leader.stable, catalog)
    requires AllThere(a.files, catalog - lost) && name !in catalog - lost
    ensures AllSound(LabelInstants(a, name, written, synced, catalog, lost)) &&
        Steady(LabelInstants(a, name, written, synced, catalog, lost), a.leader.stable, catalog, lost)
  {
    hide Speaks;
    hide Moment.Safe;
    hide Intact;
    hide Whole;
    assert AllThere(a.files[name := written], catalog - lost) && AllThere(a.files[name := synced], catalog - lost);
  }

  // ---- records in the leader's tree ----

  lemma LookupUpdated(es: seq<Pair>, k: Bytes, v: Bytes, x: Bytes)
    ensures Lookup(Updated(es, k, v), x) == (if x == k then Some(v) else Lookup(es, x))
    ensures Lookup(Removed(es, k), x) == (if x == k then None else Lookup(es, x))
  {
    PutIsUpdate(es, k, v);
    hide AsMap;
    hide Updated;
    hide Removed;
  }

  lemma RecordPut(es: seq<Pair>, catalog: Catalog, name: Name, v: Version)
    requires Lists(es, catalog)
    ensures Lists(Updated(es, PartKey(name), PartValue(PositionOf(v.meta))), catalog[name := v])
  {
    hide Updated;
    hide Lookup;
    hide PartValue;
    var now, value := Updated(es, PartKey(name), PartValue(PositionOf(v.meta))), PartValue(PositionOf(v.meta));
    forall n: Name ensures Lookup(now, PartKey(n)) == RecordFor(catalog[name := v], n) {
      LookupUpdated(es, PartKey(name), value, PartKey(n));
      KeysApart(name, n);
    }
  }

  lemma KeysApart(a: Name, b: Name)
    ensures PartKey(a) == PartKey(b) <==> a == b
  {
    assert PartKey(a)[1..] == a && PartKey(b)[1..] == b;
  }

  lemma RecordGone(es: seq<Pair>, catalog: Catalog, name: Name)
    requires Lists(es, catalog)
    ensures Lists(Removed(es, PartKey(name)), catalog - {name})
  {
    hide Removed;
    hide Lookup;
    hide PartValue;
    forall n: Name ensures Lookup(Removed(es, PartKey(name)), PartKey(n)) == RecordFor(catalog - {name}, n) {
      LookupUpdated(es, PartKey(name), [], PartKey(n));
      KeysApart(name, n);
    }
  }

  /** Every other key leaves the records alone. */
  lemma RecordsStay(es: seq<Pair>, catalog: Catalog, k: Bytes, v: Bytes)
    requires Lists(es, catalog) && (k == [] || k[0] != 7)
    ensures Lists(Updated(es, k, v), catalog) && Lists(Removed(es, k), catalog)
  {
    hide Updated;
    hide Removed;
    hide Lookup;
    hide PartValue;
    forall n: Name
      ensures Lookup(Updated(es, k, v), PartKey(n)) == RecordFor(catalog, n) && Lookup(Removed(es, k), PartKey(n)) == RecordFor(catalog, n)
    {
      LookupUpdated(es, k, v, PartKey(n));
      assert PartKey(n)[0] == 7;
    }
  }

  /** What the leader's tree holds beside the records is the same. */
  ghost predicate Beside(a: seq<Pair>, b: seq<Pair>) { forall k: Bytes | k == [] || k[0] != 7 :: Lookup(b, k) == Lookup(a, k) }

  lemma BesideSelf(a: seq<Pair>)
    ensures Beside(a, a)
  {
    hide Lookup;
  }

  lemma BesideOn(a: seq<Pair>, b: seq<Pair>, c: seq<Pair>)
    requires Beside(a, b) && Beside(b, c)
    ensures Beside(a, c)
  {
    hide Lookup;
  }

  lemma RecordsBeside(es: seq<Pair>, name: Name, v: Bytes)
    ensures Beside(es, Updated(es, PartKey(name), v)) && Beside(es, Removed(es, PartKey(name)))
  {
    hide Lookup;
    hide Updated;
    hide Removed;
    forall k: Bytes | k == [] || k[0] != 7
      ensures Lookup(Updated(es, PartKey(name), v), k) == Lookup(es, k) && Lookup(Removed(es, PartKey(name)), k) == Lookup(es, k)
    {
      LookupUpdated(es, PartKey(name), v, k);
      assert PartKey(name)[0] == 7;
    }
  }

  /** No file is open twice. */
  ghost predicate OpenOnce(leader: Pager, parts: map<Name, Pager>, dropping: map<Name, Pager>, shelf: set<Name>) {
    && (forall n | n in parts :: parts[n] != leader) && (forall n | n in dropping :: dropping[n] != leader)
    && parts.Keys !! dropping.Keys && shelf !! parts.Keys && shelf !! dropping.Keys
    && (forall a, b | a in parts && b in parts :: parts[a] == parts[b] ==> a == b)
    && (forall a, b | a in dropping && b in dropping :: dropping[a] == dropping[b] ==> a == b)
    && (forall a, b | a in parts && b in dropping :: parts[a] != dropping[b])
    && (forall n | n in parts :: Usable(n) && parts[n].maxPages == 0) && (forall n | n in dropping :: Usable(n) && dropping[n].maxPages == 0)
  }

  /** Every partition either catalog names has a file. */
  ghost predicate HasFiles(parts: set<Name>, dropping: set<Name>, dropped: set<Name>, shelf: map<Name, Disk>, catalog: Catalog, next: Catalog) {
    && (forall n | n in shelf && n in catalog :: Intact(shelf[n], catalog[n]))
    && (forall n | n in catalog :: n in shelf.Keys + parts + dropping && Whole(catalog[n], 1) && Recordable(PositionOf(catalog[n].meta)))
    && (forall n | n in next :: Whole(next[n], 1) && Recordable(PositionOf(next[n].meta)))
    && (forall n | n in next && n !in parts :: n in shelf && n in catalog && next[n] == catalog[n])
    && parts !! dropped && next.Keys !! dropped
  }

  /** After a commit the files of what was dropped are gone; of what the new catalog names, only a partition that was made anew can be among them. */
  lemma FilesAfterDrop(leader: Pager, parts: map<Name, Pager>, dropping: map<Name, Pager>, gone: set<Name>, remade: set<Name>, shelf: map<Name, Disk>,
                       catalog: Catalog, next: Catalog)
    requires HasFiles(parts.Keys, dropping.Keys, gone, shelf, catalog, next) && OpenOnce(leader, parts, dropping, shelf.Keys) && remade <= parts.Keys
    ensures HasFiles(parts.Keys, (dropping - (gone + remade)).Keys, {}, shelf - (gone + remade), next, next)
    ensures OpenOnce(leader, parts, dropping - (gone + remade), shelf.Keys - (gone + remade)) && next.Keys !! dropping.Keys
  {
    hide Intact;
    hide Whole;
    hide Recordable;
    hide Usable;
  }

  /** `next` has the tree in hand of every partition that was `done`, hanging from its root, and of every other what was recorded before. */
  ghost predicate ComesFrom(next: Catalog, before: Catalog, trees: map<Name, map<PageId, Page>>, roots: map<Name, PageId>, done: set<Name>) {
    && next.Keys == before.Keys + done && done <= trees.Keys && done <= roots.Keys
    && forall n | n in next :: if n in done then next[n].tree == trees[n] && next[n].meta.root == roots[n] else next[n] == before[n]
  }

  /** usablePartName: one to 128 letters, digits, dots, dashes and underscores, and neither of the two directory names. */
  predicate Usable(name: Name) {
    && 1 <= |name| <= 128 && name != [46] && name != [46, 46]
    && forall c | c in name :: 97 <= c <= 122 || 65 <= c <= 90 || 48 <= c <= 57 || c in {45, 46, 95}
  }

  /** A led file counts its transactions from one each time it is opened. */
  ghost function Numbered(v: Version): Version { v.(meta := v.meta.(txid := 1)) }

  lemma NumberedReads(disk: Disk, v: Version)
    requires Intact(disk, v) && Whole(v, 1)
    ensures Intact(disk, Numbered(v)) && Whole(Numbered(v), 1) && SameAs(Numbered(v), v)
  {
    hide Copies;
    hide ListAt;
    hide Closed;
  }

  lemma FilesOpened(leader: Pager, parts: map<Name, Pager>, dropping: map<Name, Pager>, gone: set<Name>, shelf: map<Name, Disk>,
                    catalog: Catalog, name: Name, p: Pager)
    requires OpenOnce(leader, parts, dropping, shelf.Keys) && HasFiles(parts.Keys, dropping.Keys, gone, shelf, catalog, catalog - gone)
    requires name !in parts && name !in dropping && p != leader && (forall n | n in parts :: parts[n] != p) &&
        (forall n | n in dropping :: dropping[n] != p)
    requires Usable(name) && p.maxPages == 0
    ensures OpenOnce(leader, parts[name := p], dropping, (shelf - {name}).Keys)
    ensures name !in gone ==> HasFiles(parts[name := p].Keys, dropping.Keys, gone, shelf - {name}, catalog, catalog - gone)
    ensures name in gone ==> HasFiles(parts[name := p].Keys, dropping.Keys, gone - {name}, shelf - {name}, catalog - {name}, catalog - gone)
  {
    hide HasFiles;
    hide Usable;
    assert parts[name := p].Keys == parts.Keys + {name};
    HasOneMore(parts.Keys, dropping.Keys, gone, shelf, catalog, name);
  }

  lemma HasOneMore(parts: set<Name>, dropping: set<Name>, gone: set<Name>, shelf: map<Name, Disk>, catalog: Catalog, name: Name)
    requires HasFiles(parts, dropping, gone, shelf, catalog, catalog - gone)
    ensures name !in gone ==> HasFiles(parts + {name}, dropping, gone, shelf - {name}, catalog, catalog - gone)
    ensures name in gone ==> HasFiles(parts + {name}, dropping, gone - {name}, shelf - {name}, catalog - {name}, catalog - gone)
  {
    hide Intact;
    hide Whole;
    hide Recordable;
  }

  /** Opens a recorded partition where it is recorded, or makes one: a label, synced, and nothing else that counts. */
  method OpenPart(file: Disk, recorded: bool, at: Position, ghost v: Version) returns (ok: bool, p: Pager)
    requires recorded ==> Intact(file, Numbered(v)) && Whole(Numbered(v), 1) && at == PositionOf(v.meta)
    ensures fresh(p) && p.led && p.reserved == 1 && p.held == map[] && p.maxPages == 0
    ensures ok <==> (recorded ==> NoPageOne(v.freed))
    ensures ok ==> p.Valid() && Filled(p.Pages(), p.owned) && (recorded ==> SameAs(p.stable, v))
    ensures p.disk == if recorded then file else file.WriteAt(0, Label).Sync()
    ensures !recorded ==> Unwritten(p)
    ensures ok ==> Restrict(p.Pages(), p.owned) == if recorded then v.tree else map[]
  {
    hide Whole;
    hide Intact;
    hide Pager.Valid;
    hide Pager.Recoverable;
    hide NoPageOne;
    hide PagesIn;
    hide Restrict;
    if recorded {
      p := new Pager.FindLed(file, at, 0, Numbered(v));
      ok := p.Abandon(at);
      if ok { AbandonedIsFilled(p); }
    } else {
      p := new Pager.CreateLed(file, 0);
      RestrictNone(p.Pages());
      ok := true;
    }
  }

  lemma RestrictNone(pages: map<PageId, Page>)
    ensures Restrict(pages, {}) == map[]
  {
  }

  /** What is read back from the file is all there. */
  lemma AbandonedIsFilled(p: Pager)
    requires p.Recoverable() && p.owned == p.stable.tree.Keys
    ensures Filled(p.Pages(), p.owned) && Restrict(p.Pages(), p.owned) == p.stable.tree
  {
    hide Whole;
    hide Guarded;
    hide StillRead;
    hide HeldWithin;
    hide Moment.Safe;
  }

  lemma FilesStruck(leader: Pager, parts: map<Name, Pager>, dropping: map<Name, Pager>, gone: set<Name>, shelf: map<Name, Disk>,
                    catalog: Catalog, name: Name)
    requires OpenOnce(leader, parts, dropping, shelf.Keys) && HasFiles(parts.Keys, dropping.Keys, gone, shelf, catalog, catalog - gone)
    ensures
      var dropping1 := WithAside(parts, dropping, name);
      && OpenOnce(leader, parts - {name}, dropping1, shelf.Keys)
      && HasFiles((parts - {name}).Keys, dropping1.Keys, gone, shelf, catalog, catalog - gone - {name})
  {
    hide Intact;
    hide Whole;
    hide Recordable;
    hide Usable;
  }

  ghost predicate AllApart(leader: Pager, all: map<Name, Pager>) {
    (forall n | n in all :: all[n] != leader) && (forall a, b | a in all && b in all :: all[a] == all[b] ==> a == b)
  }

  /** Which handles are kept after a rollback, and which files are closed. */
  ghost predicate Sifted(all: map<Name, Pager>, recorded: set<Name>, kept: map<Name, Pager>, closed: set<Name>) {
    && kept.Keys == all.Keys * recorded && closed == all.Keys - recorded && (forall n | n in kept :: kept[n] == all[n])
  }

  /** The same, of the names that have been gone through. */
  ghost predicate Sifting(all: map<Name, Pager>, left: set<Name>, recorded: set<Name>, kept: map<Name, Pager>, closed: set<Name>) {
    && kept.Keys == (all.Keys - left) * recorded && closed == all.Keys - left - recorded && (forall n | n in kept :: kept[n] == all[n])
  }

  lemma SiftingBegins(all: map<Name, Pager>, recorded: set<Name>)
    ensures Sifting(all, all.Keys, recorded, map[], {})
  {
  }

  lemma SiftingBut(all: map<Name, Pager>, left: set<Name>, recorded: set<Name>, kept: map<Name, Pager>, closed: set<Name>, name: Name)
    requires Sifting(all, left, recorded, kept, closed) && name in left && left <= all.Keys
    ensures Sifting(all - {name}, left - {name}, recorded, kept, closed) && left - {name} <= (all - {name}).Keys
  {
  }

  lemma SiftingGoesOn(all: map<Name, Pager>, left: set<Name>, recorded: set<Name>, kept: map<Name, Pager>, closed: set<Name>, name: Name)
    requires Sifting(all - {name}, left - {name}, recorded, kept, closed) && name in left && left <= all.Keys
    ensures name in recorded ==> Sifting(all, left - {name}, recorded, kept[name := all[name]], closed)
    ensures name !in recorded ==> Sifting(all, left - {name}, recorded, kept, closed + {name})
  {
  }

  lemma SiftingEnds(all: map<Name, Pager>, recorded: set<Name>, kept: map<Name, Pager>, closed: set<Name>)
    requires Sifting(all, {}, recorded, kept, closed)
    ensures Sifted(all, recorded, kept, closed) && forall n | n in kept :: n in all && n in recorded && kept[n] == all[n]
  {
  }

  lemma OpenKept(leader: Pager, parts: map<Name, Pager>, dropping: map<Name, Pager>, shelf: set<Name>,
                 catalog: Catalog, kept: map<Name, Pager>, closed: map<Name, Disk>)
    requires OpenOnce(leader, parts, dropping, shelf) && Sifted(parts + dropping, catalog.Keys, kept, closed.Keys)
    ensures OpenOnce(leader, kept, dropping - kept.Keys, shelf + (closed - dropping.Keys).Keys)
    ensures kept.Keys == (parts.Keys + dropping.Keys) * catalog.Keys && (dropping - kept.Keys).Keys !! catalog.Keys
  {
    hide Usable;
  }

  lemma FilesKept(parts: map<Name, Pager>, dropping: map<Name, Pager>, dropped: set<Name>, shelf: map<Name, Disk>,
                  catalog: Catalog, kept: map<Name, Pager>, closed: map<Name, Disk>)
    requires HasFiles(parts.Keys, dropping.Keys, dropped, shelf, catalog, map[]) && Sifted(parts + dropping, catalog.Keys, kept, closed.Keys)
    ensures HasFiles(kept.Keys, (dropping - kept.Keys).Keys, {}, shelf + (closed - dropping.Keys), catalog, catalog)
  {
    hide Intact;
    hide Whole;
    hide Recordable;
    var all := parts + dropping;
    assert kept.Keys == all.Keys * catalog.Keys && closed.Keys == all.Keys - catalog.Keys && all.Keys == parts.Keys + dropping.Keys;
    hide Sifted;
    var after := shelf + (closed - dropping.Keys);
    forall n | n in after && n in catalog ensures n in shelf && after[n] == shelf[n] { assert n !in closed; }
    forall n | n in catalog ensures n in kept || (n in after && n !in closed) { assert n in shelf.Keys + parts.Keys + dropping.Keys; }
  }

  /** A partition back at a commit: where the catalog says, with the tree it had. */
  ghost predicate Restored(p: Pager, n: Name, catalog: Catalog)
    reads p
  {
    Adopted(p, n, catalog) && n in catalog && Restrict(p.Pages(), p.owned) == catalog[n].tree
  }

  lemma RestoredIs(p: Pager, n: Name, catalog: Catalog)
    requires Restored(p, n, catalog)
    ensures Adopted(p, n, catalog) && n in catalog && Carries(p, catalog[n].tree)
  {
    hide Adopted;
  }

  method AbandonOne(p: Pager, n: Name, at: Position, ghost catalog: Catalog) returns (ok: bool)
    requires n in catalog && PartAside(p, n, catalog) && at == PositionOf(catalog[n].meta)
    modifies p
    ensures ok <==> NoPageOne(catalog[n].freed)
    ensures ok ==> Restored(p, n, catalog)
    ensures p.disk == old(p.disk) && p.history == old(p.history)
  {
    hide Pager.Valid;
    hide Pager.Recoverable;
    hide NoPageOne;
    ok := p.Abandon(at);
    if ok { AbandonedIsFilled(p); }
  }

  lemma ComesFromStart(next: Catalog, trees: map<Name, map<PageId, Page>>, roots: map<Name, PageId>)
    ensures ComesFrom(next, next, trees, roots, {})
  {
  }

  lemma ComesFromStep(next: Catalog, next1: Catalog, before: Catalog, trees: map<Name, map<PageId, Page>>, roots: map<Name,
      PageId>, done: set<Name>, name: Name,
                      waits: bool)
    requires ComesFrom(next, before, trees, roots, done) && name in trees && name in roots
    requires
      if waits then name in next1 && next1 == next[name := next1[name]] && next1[name].tree == trees[name] && next1[name].meta.root == roots[name]
      else next1 == next
    ensures ComesFrom(next1, before, trees, roots, if waits then done + {name} else done)
  {
  }

  /** A partition has something a commit must record: pages taken or given back, or another root. */
  predicate Waits(p: Pager, root: PageId)
    reads p`taken, p`free, p`meta
  {
    p.taken != {} || p.free.freeing != [] || p.meta.root != root
  }

  /** A partition that has just been made. */
  ghost predicate Unwritten(p: Pager)
    reads p
  {
    p.owned == {} && p.meta == FRESH_LED.meta && !Waits(p, 0)
  }

  ghost predicate Carries(p: Pager, tree: map<PageId, Page>)
    reads p
  {
    Restrict(p.Pages(), p.owned) == tree
  }

  lemma CarriesNow(p: Pager, tree: map<PageId, Page>)
    requires Restrict(p.Pages(), p.owned) == tree
    ensures Carries(p, tree)
  {
  }

  /** A partition a commit has not come to yet. */
  ghost predicate Unflushed(p: Pager, root: PageId, tree: map<PageId, Page>, waits: bool)
    reads p
  {
    p.flight.None? && Restrict(p.Pages(), p.owned) == tree && Waits(p, root) == waits
  }

  lemma UnflushedIs(p: Pager, root: PageId, tree: map<PageId, Page>, waits: bool)
    requires Unflushed(p, root, tree, waits)
    ensures p.flight.None? && Restrict(p.Pages(), p.owned) == tree && Waits(p, root) == waits
  {
  }

  lemma ValueSize(at: Position)
    ensures |PartValue(at)| == 24
  {
    WordLong(at.root, 8);
    WordLong(at.freelist, 8);
    WordLong(at.pageCount, 8);
    hide Word;
  }

  lemma {:induction false} WordLong(x: nat, width: nat)
    ensures |Word(x, width)| == width
  {
    if width > 0 { WordLong(x / 256, width - 1); }
  }

  lemma FlushedAt(p: Pager)
    requires p.Flushed()
    ensures p.flight.Some? && p.meta == p.flight.value.meta
  {
    hide Pager.Recoverable;
    hide Whole;
    hide Intact;
    hide Book.Balanced;
    hide Book.Shields;
  }

  lemma HistoryEnds(p: Pager)
    requires p.Recoverable()
    ensures p.history != [] && p.history[|p.history| - 1].disk == p.disk
  {
    hide Whole;
    hide Guarded;
    hide Intact;
    hide StillRead;
    hide HeldWithin;
    hide Moment.Safe;
  }

  lemma WriteFills(pages: map<PageId, Page>, owned: set<PageId>, id: PageId, page: Page)
    requires Filled(pages, owned)
    ensures Filled(pages[id := page], owned) && Filled(pages[id := page], owned + {id})
  {
  }

  lemma WriteSpoils(disk: Disk, v: Version, id: PageId, page: Page)
    ensures Intact(disk.WriteAt(id, PageCell(page)), v) <==> Intact(disk, v) && id !in PagesKept(v)
  {
    var now := disk.WriteAt(id, PageCell(page));
    if Intact(disk, v) {
      WriteIntactExactly(disk, v, id, PageCell(page));
    } else if Intact(now, v) {
      assert id in now.unsynced;
      assert Intact(disk, v);
    }
  }

  lemma RestrictGrows(pages: map<PageId, Page>, owned: set<PageId>, id: PageId, page: Page)
    requires id !in owned
    ensures Restrict(pages[id := page], owned + {id}) == Restrict(pages, owned)[id := page]
  {
  }

  lemma UnlinksTurn(seen: seq<Instant>, kept: Version, landed: Version, catalog: Catalog, next: Catalog, lost: set<Name>)
    requires forall i | i in seen :: i.leader.stable == landed && i.catalog == next && i.leader.flight.None? && i.lost <= lost
    ensures Turns(seen, kept, landed, catalog, next, lost)
  {
  }

  /** Unlinking `x` takes away what `next` has among it, which is only what is open and was made anew. */
  lemma UnlinkThere(files: map<Name, Disk>, next: Catalog, x: set<Name>, unlinked: set<Name>)
    requires AllThere(files, next) && next.Keys * x <= unlinked
    ensures AllThere(files - x, next - unlinked)
  {
    hide Intact;
    hide Whole;
    forall n | n in next - unlinked ensures n in files - x { assert n in next.Keys * x ==> n in unlinked; }
  }

  lemma UnlinkSound(i: Instant, files: map<Name, Disk>, x: set<Name>)
    requires AllThere(files, i.catalog) && i.catalog.Keys * x <= i.lost && i.files == files - x
    requires !i.leader.led && i.leader.Safe() && i.leader.flight.None? && Speaks(i.leader.stable, i.catalog)
    ensures AllSound([i])
  {
    hide AllThere;
    hide Speaks;
    hide Moment.Safe;
    UnlinkThere(files, i.catalog, x, i.lost);
  }

  lemma UnlinkedAll(files: map<Name, Disk>, next: Catalog, dropped: set<Name>, remade: set<Name>)
    requires AllThere(files, next) && next.Keys * dropped <= remade <= dropped
    ensures AllThere(files - dropped, next) <==> next.Keys !! remade
  {
    hide Intact;
    hide Whole;
    if next.Keys !! remade {
      forall n | n in next ensures n in files - dropped { assert n in next.Keys * dropped ==> n in remade; }
    } else {
      var n :| n in next.Keys && n in remade;
      assert n in next && n !in files - dropped;
    }
  }

  ghost function Among(names: seq<Name>): set<Name> { set n | n in names }

  lemma AmongNone()
    ensures Among([]) == {}
  {
  }

  lemma AmongMore(names: seq<Name>, name: Name)
    ensures Among(names + [name]) == Among(names) + {name}
  {
  }

  lemma OneGone(gone: set<Name>, left: set<Name>, all: set<Name>, name: Name, open: set<Name>)
    requires gone + left == all && gone !! left && name in left
    ensures (gone + {name}) + (left - {name}) == all && gone + {name} !! left - {name}
    ensures (gone + {name}) * open == if name in open then gone * open + {name} else gone * open
  {
  }

  lemma LessTwice<T>(m: map<Name, T>, x: set<Name>, y: set<Name>)
    ensures m - x - y == m - (x + y)
  {
  }

  /** Files unlinked one after another. */
  ghost function UnlinkInstants(leader: Moment, files: map<Name, Disk>, next: Catalog, names: seq<Name>, open: set<Name>): (r: seq<Instant>)
    ensures |r| == |names|
    ensures forall k | 0 <= k < |r| :: r[k] == UnlinkInstant(leader, files, next, names[..k + 1], open)
  {
    seq(|names|, k requires 0 <= k < |names| => UnlinkInstant(leader, files, next, names[..k + 1], open))
  }

  ghost function UnlinkInstant(leader: Moment, files: map<Name, Disk>, next: Catalog, names: seq<Name>, open: set<Name>): Instant
    requires names != []
  {
    var x := Among(names);
    Instant(Of(names[|names| - 1]), leader, files - x, next, map[], x * open)
  }

  lemma {:induction false} UnlinksShow(a: Scene, next: Catalog, names: seq<Name>, open: set<Name>)
    ensures Shows(a, UnlinkInstants(a.leader, a.files, next, names, open), a.(files := a.files - Among(names)))
  {
    var seen := UnlinkInstants(a.leader, a.files, next, names, open);
    if names == [] {
      assert a.files - Among(names) == a.files;
      ShowsNothing(a, a.(files := a.files - Among(names)));
    } else {
      var fewer, name := names[..|names| - 1], names[|names| - 1];
      UnlinksShow(a, next, fewer, open);
      hide Shows;
      var before, x := UnlinkInstants(a.leader, a.files, next, fewer, open), Among(names);
      var b, c := a.(files := a.files - Among(fewer)), a.(files := a.files - x);
      assert names == fewer + [name];
      assert x == Among(fewer) + {name};
      forall k | 0 <= k < |before| ensures before[k] == seen[k] { assert fewer[..k + 1] == names[..k + 1]; }
      assert names[..|names|] == names;
      assert seen == before + [seen[|names| - 1]];
      SameButLess(a.files, Among(fewer), name);
      FileShows(b, seen[|names| - 1], c, name);
      ShowsChain(a, before, b, [seen[|names| - 1]], c);
    }
  }

  lemma SameButLess(files: map<Name, Disk>, y: set<Name>, name: Name)
    ensures SameBut(files - y, files - (y + {name}), name)
  {
  }

  lemma UnlinksSound(leader: Moment, files: map<Name, Disk>, next: Catalog, names: seq<Name>, open: set<Name>, dropped: set<Name>, remade: set<Name>)
    requires AllThere(files, next) && !leader.led && leader.Safe() && leader.flight.None? && Speaks(leader.stable, next)
    requires Among(names) == dropped && next.Keys * dropped <= remade && dropped * open == remade
    ensures AllSound(UnlinkInstants(leader, files, next, names, open))
    ensures forall i | i in UnlinkInstants(leader, files, next, names, open) ::
      i.leader.stable == leader.stable && i.catalog == next && i.leader.flight.None? && i.lost <= remade
  {
    hide AllThere;
    hide Speaks;
    hide Moment.Safe;
    hide AllSound;
    var seen := UnlinkInstants(leader, files, next, names, open);
    forall k | 0 <= k < |seen| ensures AllSound([seen[k]]) && seen[k].leader.stable == leader.stable && seen[k].catalog == next &&
      seen[k].leader.flight.None? && seen[k].lost <= remade {
      var x := Among(names[..k + 1]);
      forall n | n in x ensures n in dropped { assert n in names; }
      forall n | n in next.Keys * x ensures n in x * open { assert n in next.Keys * dropped; }
      UnlinkSound(seen[k], files, x);
    }
    SoundEach(seen);
  }

  lemma UnlinksAre(a: Scene, next: Catalog, names: seq<Name>, open: set<Name>, remade: set<Name>, trail: seq<Instant>)
    requires AllThere(a.files, next) && !a.leader.led && a.leader.Safe() && a.leader.flight.None? && Speaks(a.leader.stable, next)
    requires next.Keys * Among(names) <= remade && Among(names) * open == remade && Recorded(trail, a.leader, a.files)
    ensures
      var seen, b := UnlinkInstants(a.leader, a.files, next, names, open), a.(files := a.files - Among(names));
      && Shows(a, seen, b) && (forall i | i in seen :: i.leader.stable == a.leader.stable && i.catalog == next && i.leader.flight.None? && i.lost <= remade)
      && Recorded(trail + seen, b.leader, b.files)
  {
    hide AllThere;
    hide Speaks;
    hide Moment.Safe;
    hide AllSound;
    hide Recorded;
    hide Shows;
    hide Among;
    UnlinksShow(a, next, names, open);
    UnlinksSound(a.leader, a.files, next, names, open, Among(names), remade);
    TrailGrows(trail, a, UnlinkInstants(a.leader, a.files, next, names, open), a.(files := a.files - Among(names)));
  }

  lemma SoundEach(seen: seq<Instant>)
    requires forall k | 0 <= k < |seen| :: AllSound([seen[k]])
    ensures AllSound(seen)
  {
    hide Instant.Sound;
    forall i | i in seen ensures i.Sound() {
      var k :| 0 <= k < |seen| && seen[k] == i;
      assert AllSound([seen[k]]) && i in [seen[k]];
    }
  }

  ghost function Disks(open: map<Name, Pager>): map<Name, Disk>
    reads set n | n in open :: open[n]
  {
    map n | n in open :: open[n].disk
  }

  ghost function TreesOf(open: map<Name, Pager>): map<Name, map<PageId, Page>>
    reads set n | n in open :: open[n]
  {
    map n | n in open :: Restrict(open[n].Pages(), open[n].owned)
  }

  ghost function Logs(open: map<Name, Pager>): map<Name, seq<Moment>>
    reads set n | n in open :: open[n]
  {
    map n | n in open :: open[n].history
  }

  /** What lies on the shelf, what is set aside and what is open, but for what is unlinked. */
  ghost function Merge(shelf: map<Name, Disk>, aside: map<Name, Disk>, open: map<Name, Disk>, unlinked: set<Name>): map<Name, Disk> {
    shelf + aside + open - unlinked
  }

  lemma MergeOne(shelf: map<Name, Disk>, aside: map<Name, Disk>, open: map<Name, Disk>, name: Name, disk: Disk)
    requires name !in aside || name in open
    ensures Merge(shelf, aside, open[name := disk], {}) == Merge(shelf, aside, open, {})[name := disk]
    ensures Merge(shelf - {name}, aside, open[name := disk], {}) == Merge(shelf, aside, open, {})[name := disk]
  {
  }

  lemma FewerThere(files: map<Name, Disk>, catalog: Catalog, lost: set<Name>)
    requires AllThere(files, catalog - {})
    ensures AllThere(files, catalog - lost)
  {
    hide Intact;
    hide Whole;
  }

  lemma LabelSpares(file: Disk, v: Version)
    requires Intact(file, v) && Whole(v, 1)
    ensures Intact(file.WriteAt(0, Label).Sync(), v)
  {
    WholeRanges(v, 1);
    hide Copies;
    hide ListAt;
    hide NoDup;
    WriteKeepsIntact(file, v, 0, Label);
    SyncKeepsIntact(file.WriteAt(0, Label), v);
  }

  lemma MergeAside(shelf: map<Name, Disk>, aside: map<Name, Disk>, open: map<Name, Disk>, name: Name)
    requires name in open
    ensures Merge(shelf, aside[name := open[name]], open - {name}, {}) == Merge(shelf, aside, open, {})
  {
  }

  lemma NameGone(parts: set<Name>, dropping: set<Name>, dropped: set<Name>, shelf: map<Name, Disk>, catalog: Catalog, next: Catalog, name: Name)
    requires HasFiles(parts, dropping, dropped - {}, shelf, catalog - {}, next) && name !in parts && name !in next
    ensures HasFiles(parts, dropping, dropped + {name} - {}, shelf, catalog - {}, next)
  {
    hide Intact;
    hide Whole;
    hide Recordable;
  }

  /** A rollback that changes which files are open moves none of them. */
  lemma FilesSettled(shelf: map<Name, Disk>, parts: map<Name, Pager>, dropping: map<Name, Pager>, recorded: set<Name>,
      kept: map<Name, Pager>, closed: map<Name, Disk>)
    requires Sifted(parts + dropping, recorded, kept, closed.Keys) && parts.Keys !! dropping.Keys && shelf.Keys !! parts.Keys &&
        shelf.Keys !! dropping.Keys
    requires forall n | n in closed :: closed[n] == (parts + dropping)[n].disk
    ensures Merge(shelf + (closed - dropping.Keys), Disks(dropping - kept.Keys), Disks(kept), {}) == Merge(shelf, Disks(dropping), Disks(parts), {})
  {
    hide Merge;
    hide Sifted;
    hide Disks;
    SiftedDisks(parts, dropping, recorded, kept, closed);
    FilesOfAll(shelf, parts, dropping);
    DisksKeys(parts + dropping);
    Covers(shelf, closed - dropping.Keys, Disks(dropping - kept.Keys), Disks(kept), Disks(parts + dropping));
  }

  lemma DisksKeys(open: map<Name, Pager>)
    ensures Disks(open).Keys == open.Keys
  {
  }

  lemma SiftedDisks(parts: map<Name, Pager>, dropping: map<Name, Pager>, recorded: set<Name>, kept: map<Name, Pager>, closed: map<Name, Disk>)
    requires Sifted(parts + dropping, recorded, kept, closed.Keys) && parts.Keys !! dropping.Keys
    requires forall n | n in closed :: closed[n] == (parts + dropping)[n].disk
    ensures
      var c, a, k, d := closed - dropping.Keys, Disks(dropping - kept.Keys), Disks(kept), Disks(parts + dropping);
      && c.Keys + a.Keys + k.Keys == d.Keys
      && (forall n | n in c :: c[n] == d[n]) && (forall n | n in a :: a[n] == d[n]) && (forall n | n in k :: k[n] == d[n])
  {
    var all := parts + dropping;
    SiftedKeys(parts.Keys, dropping.Keys, recorded, kept.Keys, closed.Keys);
    forall n | n in kept ensures Disks(kept)[n] == Disks(all)[n] { }
    hide Sifted;
    DisksKeys(kept);
    DisksKeys(all);
    DisksKeys(dropping - kept.Keys);
    assert (closed - dropping.Keys).Keys == closed.Keys - dropping.Keys && (dropping - kept.Keys).Keys == dropping.Keys - kept.Keys;
  }

  lemma SiftedKeys(parts: set<Name>, dropping: set<Name>, recorded: set<Name>, kept: set<Name>, closed: set<Name>)
    requires kept == (parts + dropping) * recorded && closed == (parts + dropping) - recorded
    ensures (closed - dropping) + (dropping - kept) + kept == parts + dropping
  {
  }

  lemma Covers(shelf: map<Name, Disk>, closed: map<Name, Disk>, aside: map<Name, Disk>, open: map<Name, Disk>, all: map<Name, Disk>)
    requires shelf.Keys !! all.Keys && closed.Keys + aside.Keys + open.Keys == all.Keys
    requires (forall n | n in closed :: closed[n] == all[n]) && (forall n | n in aside :: aside[n] == all[n]) &&
        (forall n | n in open :: open[n] == all[n])
    ensures Merge(shelf + closed, aside, open, {}) == shelf + all
  {
    var both := shelf + closed + aside + open;
    assert Merge(shelf + closed, aside, open, {}) == both;
    assert both.Keys == shelf.Keys + all.Keys;
    forall n | n in both ensures both[n] == (shelf + all)[n] { }
  }

  lemma FilesOfAll(shelf: map<Name, Disk>, parts: map<Name, Pager>, dropping: map<Name, Pager>)
    requires parts.Keys !! dropping.Keys
    ensures Merge(shelf, Disks(dropping), Disks(parts), {}) == shelf + Disks(parts + dropping)
  {
  }

  /** What a put refuses, whatever room there is. */
  ghost predicate Unfit(tree: Option<Tree>, key: Bytes, value: Bytes) {
    !LegalKey(key) || |value| > MAX_VALUE || (|value| <= MAX_INLINE && tree.Some? && Jams(tree.value, Item(key, value, [])))
  }

  /** What a delete cannot carry out, whatever room there is. */
  ghost predicate Overflows(tree: Option<Tree>, key: Bytes) { tree.Some? && Bursts(tree.value, key) }

  /** What is set aside once `name` has been dropped. */
  function WithAside(parts: map<Name, Pager>, dropping: map<Name, Pager>, name: Name): map<Name, Pager> {
    if name in parts then dropping[name := parts[name]] else dropping
  }

  lemma AsideKeys(parts: map<Name, Pager>, dropping: map<Name, Pager>, name: Name)
    ensures (parts - {name}).Keys + WithAside(parts, dropping, name).Keys == parts.Keys + dropping.Keys
    ensures dropping.Keys <= WithAside(parts, dropping, name).Keys <= dropping.Keys + {name}
  {
  }

  lemma DenotesNow(w: Version, tree: Option<Tree>, height: nat, es: seq<Pair>, next: Catalog)
    requires Preserves(w, tree, height) && es == ContentsOf(tree) && Lists(es, next)
    ensures Denotes(w, es) && Speaks(w, next)
  {
    hide Preserves;
    hide Lists;
  }

  class Store {
    var leader: BTree
    var parts: map<Name, Pager>
    /** The root each open partition's tree hangs from. */
    var roots: map<Name, PageId>
    /** Partitions set aside by a drop, and the names to unlink once it is committed. */
    var dropping: map<Name, Pager>
    var dropped: set<Name>
    /** Partition files that are not open. */
    var shelf: map<Name, Disk>
    /** What the leader's last commit stands for. */
    ghost var catalog: Catalog
    /** Partitions this transaction dropped and then made anew, on the same file. */
    ghost var remade: set<Name>
    /** Partitions that are open on a file that has been unlinked. */
    ghost var unlinked: set<Name>
    /** Every instant the files have been through since the store was opened. */
    ghost var trail: seq<Instant>

    /** A database found on disk: the leader's tree, and the partition files beside it, none of them open. */
    constructor (leader: BTree, shelf: map<Name, Disk>, ghost catalog: Catalog)
      requires leader.Valid() && !leader.pages.led && leader.pages.held == map[]
      requires Lists(leader.Contents(), catalog) && Speaks(leader.pages.stable, catalog)
      requires AllThere(shelf, catalog) && forall n | n in catalog :: Recordable(PositionOf(catalog[n].meta))
      ensures Valid() && this.leader == leader && this.catalog == catalog && this.shelf == shelf
      ensures parts == map[] && dropping == map[] && dropped == {}
      ensures trail == [Instant(Leader, LeaderNow(leader.pages), shelf, catalog, map[], {})]
    {
      hide Lists;
      hide Speaks;
      hide AllThere;
      hide BTree.Valid;
      hide Calm;
      hide Recordable;
      hide Instant.Sound;
      hide Moment.Safe;
      this.leader, this.shelf, this.catalog := leader, shelf, catalog;
      parts, roots, dropping, dropped := map[], map[], map[], {};
      remade, unlinked := {}, {};
      trail := [Instant(Leader, LeaderNow(leader.pages), shelf, catalog, map[], {})];
      new;
      CalmAtFirst();
      InstantSound(Leader, LeaderNow(leader.pages), shelf);
      ValidAgain();
    }

    lemma CalmAtFirst()
      requires parts == map[] && roots == map[] && dropping == map[] && dropped == {} && remade == {} && unlinked == {}
      requires leader.Valid() && !leader.pages.led && leader.pages.held == map[]
      requires Lists(leader.Contents(), catalog) && Speaks(leader.pages.stable, catalog)
      requires AllThere(shelf, catalog) && forall n | n in catalog :: Recordable(PositionOf(catalog[n].meta))
      ensures Calm() && Files() == shelf && LeaderNow(leader.pages).Safe() && catalog - {} == catalog
    {
      hide Lists;
      hide Speaks;
      hide Intact;
      hide Whole;
      hide BTree.Valid;
      hide Recordable;
      hide Moment.Safe;
      assert catalog - dropped == catalog && catalog - remade == catalog;
      LeaderIsSafe(catalog);
    }

    ghost function Pagers(): set<Pager>
      reads this`parts, this`dropping
    {
      (set n | n in parts :: parts[n]) + (set n | n in dropping :: dropping[n])
    }

    /** What is in each file. */
    ghost function Files(): map<Name, Disk>
      reads this`shelf, this`parts, this`dropping, this`unlinked, Pagers()
    {
      Merge(shelf, Disks(dropping), Disks(parts), unlinked)
    }

    ghost function Histories(): map<Name, seq<Moment>>
      reads this`parts, set n | n in parts :: parts[n]
    {
      Logs(parts)
    }

    ghost function Here(): Scene
      reads this`leader, this`shelf, this`parts, this`dropping, this`unlinked, leader, leader.pages, Pagers()
    {
      Scene(LeaderNow(leader.pages), leader.pages.history, Files(), Histories())
    }

    /** The trail ends where the files are now. */
    ghost predicate Logged()
      reads this`leader, this`shelf, this`parts, this`dropping, this`unlinked, this`trail, leader, leader.pages, Pagers()
    {
      Recorded(trail, LeaderNow(leader.pages), Files())
    }

    /** What the trail says of a call between commits: all that the files went through, a crash still landing on the catalog there was. */
    ghost predicate Went(before: seq<Instant>, a: Scene)
      reads this`leader, this`shelf, this`parts, this`dropping, this`unlinked, this`trail, this`catalog, this`remade, leader, leader.pages, Pagers()
    {
      before <= trail && Steady(trail[|before|..], leader.pages.stable, catalog, remade) && Shows(a, trail[|before|..], Here())
    }

    lemma GoneOn(before: seq<Instant>, a: Scene, seen: seq<Instant>)
      requires trail == before + seen && Steady(seen, leader.pages.stable, catalog, remade) && Shows(a, seen, Here())
      ensures Went(before, a)
    {
      hide Steady;
      hide Shows;
      assert trail[|before|..] == seen;
    }

    lemma GoneNowhere(a: Scene)
      requires a == Here()
      ensures Went(trail, a)
    {
      ShowsNothing(a, a);
      GoneOn(trail, a, []);
    }

    /** What the last commit stands for and this transaction still looks after, and what it has dropped for good. */
    ghost function Base(): Catalog
      reads this`catalog, this`remade
    {
      catalog - remade
    }

    ghost function Gone(): set<Name>
      reads this`dropped, this`remade
    {
      dropped - remade
    }

    ghost predicate Distinct()
      reads this`leader, this`parts, this`dropping, this`shelf
    {
      OpenOnce(leader.pages, parts, dropping, shelf.Keys)
    }

    /** What a drop has set aside has not moved. */
    ghost predicate Aside()
      reads this`dropping, this`catalog, this`remade, set n | n in dropping :: dropping[n]
    {
      forall n | n in dropping :: PartAside(dropping[n], n, Base())
    }

    ghost predicate Claimed(next: Catalog)
      reads this`parts, this`dropping, this`shelf, this`catalog, this`dropped, this`remade
    {
      HasFiles(parts.Keys, dropping.Keys, Gone(), shelf, Base(), next)
    }

    /** Every partition is where it was, or it has been flushed and `next` says where to. */
    ghost predicate States(next: Catalog)
      reads this`parts, this`dropping, this`shelf, this`catalog, this`dropped, this`remade, Pagers()
    {
      (forall n | n in parts :: PartState(parts[n], n, Base(), next)) && Aside() && Claimed(next)
    }

    /** The same, but for one partition. */
    ghost predicate StatesBut(name: Name, next: Catalog)
      reads this`parts, this`dropping, this`shelf, this`catalog, this`dropped, this`remade, Pagers()
    {
      (forall n | n in parts && n != name :: PartState(parts[n], n, Base(), next)) && Aside() && Claimed(next)
    }

    /** The leader's tree in hand lists `now`; a crash lands on `catalog`. */
    ghost predicate LeaderLists(now: Catalog)
      reads this`leader, this`catalog, leader, leader.pages
    {
      && leader.Valid() && !leader.pages.led && leader.pages.held == map[]
      && Lists(leader.Contents(), now) && Speaks(leader.pages.stable, catalog)
    }

    ghost predicate AtRest()
      reads this`parts, set n | n in parts :: parts[n]
    {
      forall n | n in parts :: parts[n].flight.None?
    }

    /** Which partitions are being made anew, and that no open file has been unlinked. */
    ghost predicate Linked()
      reads this`parts, this`dropped, this`remade, this`unlinked
    {
      remade <= dropped && remade <= parts.Keys && unlinked == {}
    }

    /** Between commits, whatever the transaction has dropped and made anew. */
    ghost predicate Calm()
      reads this`leader, this`parts, this`roots, this`dropping, this`dropped, this`shelf, this`catalog, this`remade, this`unlinked
      reads leader, leader.pages, Pagers()
    {
      Distinct() && roots.Keys == parts.Keys && States(catalog - dropped) && AtRest() && LeaderLists(catalog - dropped) && Linked()
    }

    /** The same, with the trail up to date. */
    ghost predicate Loose()
      reads this, leader, leader.pages, Pagers()
    {
      Calm() && Logged()
    }

    /** Between commits, with every recorded partition looked after. */
    ghost predicate Valid()
      reads this, leader, leader.pages, Pagers()
    {
      Loose() && remade == {}
    }

    /** What every step keeps, even one that failed: the leader and every partition can be put back where `catalog` says. */
    ghost predicate Standing()
      reads this`leader, this`parts, this`roots, this`dropping, this`dropped, this`shelf, this`catalog, this`remade, this`unlinked
      reads leader, leader.pages, Pagers()
    {
      && Distinct() && roots.Keys == parts.Keys && Aside() && Claimed(map[])
      && (forall n | n in parts :: PartAside(parts[n], n, Base()))
      && LeaderStands() && Linked()
    }

    ghost predicate Restorable()
      reads this, leader, leader.pages, Pagers()
    {
      Standing() && Logged()
    }

    ghost predicate LeaderStands()
      reads this`leader, this`catalog, leader, leader.pages
    {
      && leader.pages.Recoverable() && !leader.pages.led && leader.pages.reserved == 2 && leader.pages.flight.None?
      && leader.pages.held == map[] && Speaks(leader.pages.stable, catalog)
    }

    lemma LeaderListsStands(now: Catalog)
      requires LeaderLists(now)
      ensures LeaderStands()
    {
      hide Lists;
      hide Speaks;
      hide BTree.Sound;
      hide Pager.Booked;
      hide Book.Dirty;
      hide Pager.RecoverableFrom;
    }

    lemma StatesStanding(next: Catalog)
      requires Distinct() && roots.Keys == parts.Keys && States(next) && LeaderStands() && Linked()
      ensures Standing()
    {
      hide LeaderStands;
      hide OpenOnce;
      hide Intact;
      hide Whole;
      hide Recordable;
      hide SetAside;
      hide PartAside;
      hide SameAs;
      hide PartState;
      forall n | n in parts ensures PartAside(parts[n], n, Base()) { StateAside(parts[n], n, Base(), next); }
    }

    lemma ButStanding(name: Name, next: Catalog)
      requires Distinct() && roots.Keys == parts.Keys && name in parts && StatesBut(name, next) && LeaderStands() && Linked()
      requires PartAside(parts[name], name, Base())
      ensures Standing()
    {
      hide LeaderStands;
      hide OpenOnce;
      hide Intact;
      hide Whole;
      hide Recordable;
      hide SetAside;
      hide PartAside;
      hide SameAs;
      hide PartState;
      forall n | n in parts ensures PartAside(parts[n], n, Base()) {
        if n != name { StateAside(parts[n], n, Base(), next); }
      }
    }

    /** Both catalogs are there: the one a crash before the leader's meta lands on, and the one a crash after it does. */
    lemma StatesThere(next: Catalog)
      requires States(next) && unlinked == {}
      ensures AllThere(Files(), catalog - remade) && AllThere(Files(), next)
    {
      hide Whole;
      hide Intact;
      hide SameAs;
      hide PartState;
      hide SetAside;
      hide PartAside;
      hide Recordable;
      forall n | n in Base() ensures n in Files() && Intact(Files()[n], Base()[n]) {
        if n in parts {
          StateThere(parts[n], n, Base(), next);
        } else if n in dropping {
          AsideIs(dropping[n], n, Base());
          AsideFacts(dropping[n]);
          SameIsThere(dropping[n].disk, dropping[n].stable, Base()[n]);
        }
      }
      forall n | n in next ensures n in Files() && Intact(Files()[n], next[n]) {
        if n in parts { StateThere(parts[n], n, Base(), next); }
      }
    }

    /** One partition has moved on to another state. */
    lemma StatesMove(name: Name, next: Catalog, next1: Catalog)
      requires name in parts && StatesBut(name, next) && PartState(parts[name], name, Base(), next1)
      requires forall n | n != name :: (n in next1 <==> n in next) && (n in next ==> next1[n] == next[n])
      requires name in next1 ==> Whole(next1[name], 1) && Recordable(PositionOf(next1[name].meta))
      ensures States(next1)
    {
      hide Whole;
      hide Intact;
      hide SameAs;
      hide SetAside;
      hide PartAside;
      hide Recordable;
      hide PartState;
      forall n | n in parts ensures PartState(parts[n], n, Base(), next1) {
        if n != name { StateOf(parts[n], n, Base(), next, next1); }
      }
    }

    /** A partition that is still resting where it was. */
    lemma StillResting(name: Name)
      requires name in parts && StatesBut(name, catalog - dropped) && remade <= dropped
      requires parts[name].Valid() && parts[name].led && parts[name].reserved == 1 && parts[name].held == map[]
      requires Filled(parts[name].Pages(), parts[name].owned)
      requires name in Base() ==> SameAs(parts[name].stable, Base()[name])
      ensures States(catalog - dropped) && parts[name].flight.None?
    {
      hide Whole;
      hide Intact;
      hide SameAs;
      hide SetAside;
      hide PartAside;
      hide Recordable;
      hide PartState;
      hide Pager.Valid;
      hide Filled;
      RestsInState(parts[name], name, Base(), catalog - dropped);
      StatesMove(name, catalog - dropped, catalog - dropped);
    }

    lemma PartRests(name: Name)
      requires States(catalog - dropped) && AtRest() && name in parts
      ensures parts[name].Valid() && parts[name].led && parts[name].reserved == 1 && parts[name].held == map[]
      ensures Filled(parts[name].Pages(), parts[name].owned)
      ensures name in Base() ==> SameAs(parts[name].stable, Base()[name])
      ensures StatesBut(name, catalog - dropped)
    {
      hide PartState;
      hide SetAside;
      hide PartAside;
      hide Aside;
      hide HasFiles;
      hide SameAs;
      hide Filled;
      StateRests(parts[name], name, Base(), catalog - dropped);
    }

    lemma LeaderIsSafe(now: Catalog)
      requires LeaderLists(now)
      ensures LeaderNow(leader.pages).Safe() && !LeaderNow(leader.pages).led && Speaks(leader.pages.stable, catalog)
    {
      hide Lists;
      hide Speaks;
      hide Pager.Booked;
      hide Pager.Current;
      hide Moment.Safe;
      hide BTree.Sound;
      LeaderFacts(leader.pages);
    }

    lemma LeaderHolds()
      requires leader.Valid() && !leader.pages.led
      ensures LeaderNow(leader.pages).Safe()
    {
      hide Pager.Booked;
      hide Pager.Current;
      hide Moment.Safe;
      hide BTree.Sound;
      hide Exact;
      hide Written;
      LeaderFacts(leader.pages);
    }

    lemma InstantSound(mover: Mover, m: Moment, files: map<Name, Disk>)
      requires !m.led && m.Safe() && m.flight.None? && Speaks(m.stable, catalog) && AllThere(files, catalog - remade)
      ensures AllSound([Instant(mover, m, files, catalog, map[], remade)])
    {
    }

    lemma PartHistory(p: Pager)
      requires p.Valid()
      ensures p.Recoverable() && p.history != [] && p.history[|p.history| - 1].disk == p.disk && p.flight.None?
    {
      hide Pager.Booked;
      hide Book.Dirty;
      HistoryEnds(p);
      hide Pager.RecoverableFrom;
    }

    /** What is seen while one partition's file goes through a stretch of its history. */
    lemma PartStretch(a: Scene, name: Name, h0: seq<Moment>)
      requires name in parts && name !in unlinked && a.logs.Keys == parts.Keys && name in a.files
      requires Here() == a.(files := a.files[name := parts[name].disk], logs := a.logs[name := parts[name].history])
      requires a.logs[name] == h0 && h0 != [] && h0 <= parts[name].history && a.files[name] == h0[|h0| - 1].disk
      requires parts[name].history[|parts[name].history| - 1].disk == parts[name].disk
      ensures Shows(a, PartInstants(h0, parts[name].history, a.leader, a.files, name, catalog, remade), Here())
    {
      hide Shows;
      PartShows(a, PartInstants(h0, parts[name].history, a.leader, a.files, name, catalog, remade), Here(), name, h0, parts[name].history);
    }

    /** A write of one page of one partition, as the whole store goes through it. */
    lemma PageSeen(a: Scene, name: Name, h0: seq<Moment>)
      requires name in parts && unlinked == {} && a.logs.Keys == parts.Keys && name in a.files && remade <= dropped
      requires Here() == a.(files := a.files[name := parts[name].disk], logs := a.logs[name := parts[name].history])
      requires a.logs[name] == h0 && h0 != [] && h0 <= parts[name].history <= h0 + [Moment(true, parts[name].disk,
          parts[name].stable, parts[name].nextMeta, None)]
      requires a.files[name] == h0[|h0| - 1].disk && parts[name].history[|parts[name].history| - 1].disk == parts[name].disk
      requires Recorded(trail, a.leader, a.files) && LeaderLists(catalog - dropped) && States(catalog - dropped)
      ensures
        var seen := PartInstants(h0, parts[name].history, a.leader, a.files, name, catalog, remade);
        && Shows(a, seen, Here()) && Steady(seen, leader.pages.stable, catalog, remade) && Recorded(trail + seen, Here().leader, Here().files)
    {
      hide LeaderLists;
      hide States;
      hide Shows;
      hide Recorded;
      hide Moment.Safe;
      hide Speaks;
      hide AllThere;
      hide Instant.Sound;
      var seen := PartInstants(h0, parts[name].history, a.leader, a.files, name, catalog, remade);
      PartStretch(a, name, h0);
      StatesThere(catalog - dropped);
      LeaderIsSafe(catalog - dropped);
      forall i | i in seen ensures i.Sound() && i.leader.stable == leader.pages.stable && i.catalog == catalog &&
        i.leader.flight.None? && i.lost == remade {
        var k :| 0 <= k < |seen| && seen[k] == i;
        assert parts[name].history[|h0| + k].disk == parts[name].disk;
        assert i.files == Here().files;
        InstantSound(Of(name), a.leader, Here().files);
        assert i == Instant(Of(name), a.leader, Here().files, catalog, map[], remade);
        assert i in [i];
      }
      TrailGrows(trail, a, seen, Here());
    }

    lemma HereIs()
      requires unlinked == {}
      ensures Here().files.Keys == shelf.Keys + parts.Keys + dropping.Keys && Here().logs.Keys == parts.Keys
      ensures forall n | n in parts :: Here().files[n] == parts[n].disk && Here().logs[n] == parts[n].history
      ensures forall n | n in Here().files :: Here().files[n] == (if n in parts then parts[n].disk else if n in dropping then dropping[n].disk else shelf[n])
      ensures Here().leader == LeaderNow(leader.pages) && Here().history == leader.pages.history
      ensures Here().files == Files() && Here().logs == Histories()
    {
    }

    /** Where all files but one are. */
    ghost function HereBut(name: Name): Scene
      reads this`leader, this`shelf, this`parts, this`dropping, leader, leader.pages
      reads set n | n in parts && n != name :: parts[n], set n | n in dropping :: dropping[n]
    {
      Scene(LeaderNow(leader.pages), leader.pages.history, Merge(shelf, Disks(dropping), Disks(parts - {name}), {}), Logs(parts - {name}))
    }

    lemma HereWith(name: Name)
      requires unlinked == {} && name in parts
      ensures Here() == HereBut(name).With(name, parts[name].disk, parts[name].history)
    {
      assert shelf + Disks(dropping) + Disks(parts) - {} == (shelf + Disks(dropping) + Disks(parts - {name}) - {})[name := parts[name].disk] by {
        assert Disks(parts) == Disks(parts - {name})[name := parts[name].disk];
      }
      assert Logs(parts) == Logs(parts - {name})[name := parts[name].history];
    }

    /** If what is beside a partition has not moved, only it has. */
    lemma OnlyIt(a: Scene, name: Name, b: Scene, disk: Disk, log: seq<Moment>)
      requires unlinked == {} && name in parts && a == b.With(name, disk, log) && HereBut(name) == b
      ensures Here() == a.With(name, parts[name].disk, parts[name].history)
    {
      hide HereBut;
      hide Here;
      HereWith(name);
      assert b.files[name := disk][name := parts[name].disk] == b.files[name := parts[name].disk];
      assert b.logs[name := log][name := parts[name].history] == b.logs[name := parts[name].history];
    }

    /** No pager is two files at once, and none of them is the leader's. */
    ghost predicate Apart()
      reads this`leader, this`parts, this`dropping
    {
      && leader.pages !in Pagers()
      && (forall n | n in parts :: parts[n].maxPages == 0)
      && (forall a, b | a in parts && b in parts && a != b :: parts[a] != parts[b])
      && (forall a, b | a in parts && b in dropping :: parts[a] != dropping[b])
    }

    lemma DistinctApart()
      requires Distinct()
      ensures Apart()
    {
      hide Usable;
    }

    lemma LooseIsCalm()
      requires Loose()
      ensures Calm() && Logged()
    {
      hide Calm;
      hide Recorded;
    }

    lemma ValidIs()
      requires Valid()
      ensures Calm() && Logged() && remade == {}
    {
      hide Calm;
      hide Recorded;
    }

    lemma LoggedHere()
      requires Logged()
      ensures Recorded(trail, Here().leader, Here().files)
    {
      hide Recorded;
      hide Files;
    }

    lemma ValidIsLoose()
      requires Valid()
      ensures Loose() && remade == {} && Trees() == TreesOf(parts)
    {
      hide Calm;
      hide Recorded;
    }

    lemma ValidAgain()
      requires Calm() && Logged() && remade == {}
      ensures Valid()
    {
      hide Calm;
      hide Recorded;
    }

    lemma CalmFacts()
      requires Calm()
      ensures Distinct() && roots.Keys == parts.Keys && States(catalog - dropped) && AtRest() && LeaderLists(catalog - dropped) && Linked()
      ensures unlinked == {} && remade <= dropped && remade <= parts.Keys && Apart()
    {
      hide States;
      hide LeaderLists;
      hide OpenOnce;
      DistinctApart();
    }

    /** The part of a write to a partition that is about the partition alone. */
    method WriteInto(name: Name, p: Pager, id: PageId, page: Page)
      requires Calm() && name in parts && parts[name] == p && p.Dirty(id)
      modifies p
      ensures Calm()
      ensures p.owned == old(p.owned) && p.meta == old(p.meta)
      ensures p.disk == old(p.disk).WriteAt(id, PageCell(page)) && p.Pages() == old(p.Pages())[id := page]
      ensures p.history == old(p.history) + [Moment(true, p.disk, p.stable, p.nextMeta, None)]
    {
      hide LeaderLists;
      hide HasFiles;
      hide PartState;
      hide SetAside;
      hide PartAside;
      hide SameAs;
      hide Pager.Valid;
      hide OnlyLeads;
      hide Filled;
      hide OpenOnce;
      hide PagesIn;
      hide Pager.Spared;
      CalmFacts();
      PartRests(name);
      WriteFills(parts[name].Pages(), parts[name].owned, id, page);
      DirtyPastLabel(name, id);
      var ok := parts[name].Write(id, page);
      StillResting(name);
    }

    /** A page the transaction may write is past the label. */
    lemma DirtyPastLabel(name: Name, id: PageId)
      requires name in parts && parts[name].Valid() && parts[name].Dirty(id)
      ensures id >= parts[name].reserved
    {
      hide Pager.Recoverable;
      hide Book.Sums;
      hide Book.Shields;
    }

    /**
     A page written to a partition: no recorded version has it. On a file that is being made anew, what the last commit recorded there
     stays whole exactly as long as no page of it is written.
     */
    method WritePage(name: Name, id: PageId, page: Page)
      requires Loose() && name in parts && parts[name].Dirty(id)
      modifies parts[name], this`trail
      ensures Loose()
      ensures Went(old(trail), old(Here()))
      ensures parts[name].owned == old(parts[name].owned) && parts[name].meta == old(parts[name].meta)
      ensures parts[name].Pages() == old(parts[name].Pages())[id := page]
      ensures name in catalog ==>
        (Intact(parts[name].disk, catalog[name]) <==> old(Intact(parts[name].disk, catalog[name])) && id !in PagesKept(catalog[name]))
    {
      hide Calm;
      hide Intact;
      hide Recorded;
      hide Shows;
      hide Steady;
      hide Here;
      hide PagesIn;
      hide PagesKept;
      hide States;
      hide LeaderLists;
      hide Distinct;
      hide AtRest;
      hide Linked;
      hide Files;
      hide Histories;
      hide HereBut;
      CalmFacts();
      HereIs();
      HereWith(name);
      PartEnds(name);
      ghost var a, b, h0, disk0 := Here(), HereBut(name), parts[name].history, parts[name].disk;
      WriteInto(name, parts[name], id, page);
      if name in catalog { WriteSpoils(disk0, catalog[name], id, page); }
      PageTold(a, name, b, h0);
      ghost var seen := PartInstants(h0, parts[name].history, a.leader, a.files, name, catalog, remade);
      Tell(a, seen);
    }

    /** The trail goes on. */
    ghost method Tell(a: Scene, seen: seq<Instant>)
      requires Recorded(trail + seen, LeaderNow(leader.pages), Files()) && Steady(seen, leader.pages.stable, catalog, remade) &&
          Shows(a, seen, Here())
      modifies this`trail
      ensures trail == old(trail) + seen && Logged() && Went(old(trail), a)
      ensures (old(Calm()) ==> Calm()) && (old(Standing()) ==> Standing())
    {
      hide Recorded;
      hide Steady;
      hide Shows;
      hide LeaderLists;
      hide LeaderStands;
      hide HasFiles;
      hide PartState;
      hide PartAside;
      hide OpenOnce;
      hide Here;
      hide Merge;
      hide Disks;
      hide Logs;
      HereNow();
      trail := trail + seen;
      HereNow();
      GoneOn(old(trail), a, seen);
    }

    lemma PartEnds(name: Name)
      requires Calm() && name in parts
      ensures parts[name].history != [] && parts[name].history[|parts[name].history| - 1].disk == parts[name].disk
    {
      hide LeaderLists;
      hide PartState;
      hide HasFiles;
      hide OpenOnce;
      hide Pager.Valid;
      PartRests(name);
      PartHistory(parts[name]);
    }

    /** What the store has gone through once a partition's page is written. */
    lemma PageTold(a: Scene, name: Name, b: Scene, h0: seq<Moment>)
      requires Calm() && name in parts && Recorded(trail, a.leader, a.files) && h0 != [] && h0 <= parts[name].history
      requires a == b.With(name, h0[|h0| - 1].disk, h0) && HereBut(name) == b && a.logs.Keys == parts.Keys
      requires parts[name].history <= h0 + [Moment(true, parts[name].disk, parts[name].stable, parts[name].nextMeta, None)]
      ensures
        var seen := PartInstants(h0, parts[name].history, a.leader, a.files, name, catalog, remade);
        && Shows(a, seen, Here()) && Steady(seen, leader.pages.stable, catalog, remade) && Recorded(trail + seen, LeaderNow(leader.pages), Files())
    {
      hide Calm;
      hide Recorded;
      hide Shows;
      hide Steady;
      hide Here;
      hide States;
      hide LeaderLists;
      hide Distinct;
      hide AtRest;
      hide Linked;
      hide Files;
      hide Histories;
      CalmFacts();
      PartEnds(name);
      hide HereBut;
      OnlyIt(a, name, b, h0[|h0| - 1].disk, h0);
      HereIs();
      PageSeen(a, name, h0);
    }

    /** The part of a new page that is about the partition alone. */
    method GrowInto(name: Name, p: Pager, page: Page) returns (id: PageId)
      requires Calm() && name in parts && parts[name] == p
      modifies p
      ensures Calm()
      ensures id !in old(p.owned) && p.owned == old(p.owned) + {id}
      ensures 1 <= id < p.meta.pageCount <= old(p.meta.pageCount) + 1 && id in p.taken
      ensures p.disk == old(p.disk).WriteAt(id, PageCell(page)) && p.Pages() == old(p.Pages())[id := page]
      ensures p.history == old(p.history) + [Moment(true, p.disk, p.stable, p.nextMeta, None)]
    {
      hide LeaderLists;
      hide HasFiles;
      hide PartState;
      hide SetAside;
      hide PartAside;
      hide SameAs;
      hide Pager.Valid;
      hide OnlyLeads;
      hide Filled;
      hide OpenOnce;
      hide PagesIn;
      hide PagesKept;
      hide Pager.Spared;
      CalmFacts();
      PartRests(name);
      ghost var pages0, owned0 := parts[name].Pages(), parts[name].owned;
      var r := parts[name].Allocate();
      id := r.value;
      WriteFills(pages0, owned0, id, page);
      var ok := parts[name].Write(id, page);
      StillResting(name);
    }

    /** A new page of a partition, with what goes on it. */
    method GrowPage(name: Name, page: Page) returns (id: PageId)
      requires Loose() && name in parts
      modifies parts[name], this`trail
      ensures Loose()
      ensures Went(old(trail), old(Here()))
      ensures id !in old(parts[name].owned) && parts[name].owned == old(parts[name].owned) + {id}
      ensures 1 <= id < parts[name].meta.pageCount <= old(parts[name].meta.pageCount) + 1 && id in parts[name].taken
      ensures parts[name].Pages() == old(parts[name].Pages())[id := page]
      ensures name in catalog ==>
        (Intact(parts[name].disk, catalog[name]) <==> old(Intact(parts[name].disk, catalog[name])) && id !in PagesKept(catalog[name]))
    {
      hide Calm;
      hide Intact;
      hide Recorded;
      hide Shows;
      hide Steady;
      hide Here;
      hide PagesIn;
      hide PagesKept;
      hide States;
      hide LeaderLists;
      hide Distinct;
      hide AtRest;
      hide Linked;
      hide Files;
      hide Histories;
      hide HereBut;
      CalmFacts();
      HereIs();
      HereWith(name);
      PartEnds(name);
      ghost var a, b, h0, disk0 := Here(), HereBut(name), parts[name].history, parts[name].disk;
      id := GrowInto(name, parts[name], page);
      if name in catalog { WriteSpoils(disk0, catalog[name], id, page); }
      PageTold(a, name, b, h0);
      ghost var seen := PartInstants(h0, parts[name].history, a.leader, a.files, name, catalog, remade);
      Tell(a, seen);
    }

    /** A page a partition's tree no longer needs. */
    method FreePage(name: Name, id: PageId)
      requires Loose() && name in parts && id in parts[name].owned
      modifies parts[name]
      ensures Loose() && Here() == old(Here())
      ensures parts[name].owned == old(parts[name].owned) - {id} && parts[name].Pages() == old(parts[name].Pages())
    {
      hide States;
      hide LeaderLists;
      hide Distinct;
      hide AtRest;
      hide Linked;
      hide Calm;
      hide Recorded;
      hide Here;
      hide Files;
      hide Histories;
      hide PagesIn;
      hide HereBut;
      CalmFacts();
      HereNow();
      HereWith(name);
      FreeInto(name, parts[name], id);
      HereWith(name);
      HereNow();
    }

    method FreeInto(name: Name, p: Pager, id: PageId)
      requires Calm() && name in parts && parts[name] == p && id in p.owned
      modifies p
      ensures Calm() && p.owned == old(p.owned) - {id} && p.disk == old(p.disk) && p.history == old(p.history)
    {
      hide LeaderLists;
      hide HasFiles;
      hide PartState;
      hide SetAside;
      hide PartAside;
      hide SameAs;
      hide Pager.Valid;
      hide OpenOnce;
      PartRests(name);
      CalmFacts();
      parts[name].Free(id);
      StillResting(name);
    }

    /** The tree of a partition now hangs from another page. */
    method MoveRoot(name: Name, root: PageId)
      requires Loose() && name in parts
      modifies this`roots
      ensures Loose() && Here() == old(Here()) && roots == old(roots)[name := root]
    {
      hide Merge;
      hide Disks;
      hide Logs;
      hide LeaderLists;
      hide HasFiles;
      hide PartState;
      hide SetAside;
      hide PartAside;
      hide SameAs;
      hide Recorded;
      hide OpenOnce;
      CalmFacts();
      roots := roots[name := root];
      assert roots.Keys == parts.Keys;
      assert Files() == old(Files()) && Histories() == old(Histories());
    }

    // ---- the leader's tree ----

    /** A put in the leader's tree, with the instants it goes through; the other files stand still. */
    method PutSeen(key: Bytes, value: Bytes, ghost files: map<Name, Disk>) returns (out: Outcome, ghost seen: seq<Instant>)
      requires leader.Valid() && !leader.pages.led && leader.pages.held == map[]
      requires Speaks(leader.pages.stable, catalog) && AllThere(files, catalog - remade) && leader.pages !in Pagers()
      modifies leader, leader.pages
      ensures Files() == old(Files()) && Histories() == old(Histories())
      ensures out.Done? ==> leader.Valid() && leader.Contents() == Updated(old(leader.Contents()), key, value)
      ensures LeaderStands() && leader.pages.stable == old(leader.pages.stable) && leader.pages.held == map[]
      ensures OnlyLeads(old(leader.pages.history), leader.pages.history, leader.pages.stable) && |old(leader.pages.history)| <= |leader.pages.history|
      ensures AllSound(seen) && Steady(seen, leader.pages.stable, catalog, remade)
      ensures seen == LeaderInstants(old(leader.pages.history), leader.pages.history, files, catalog, remade)
      ensures LegalKey(key) && |key| + |value| < MAX_KEY + MAX_INLINE && |value| <= MAX_INLINE ==> out.Done? || leader.pages.maxPages > 0
      ensures !out.Done? ==> leader.pages.maxPages > 0 || Unfit(old(leader.tree), key, value)
    {
      hide Files;
      hide Histories;
      hide Pager.Valid;
      hide OnlyLeads;
      hide Moment.Safe;
      hide Speaks;
      hide AllThere;
      hide BTree.Valid;
      hide Updated;
      hide Pager.Recoverable;
      hide Jams;
      hide Steady;
      ghost var h0 := leader.pages.history;
      ghost var tree0 := leader.tree;
      out := leader.Put(key, value, 0);
      if tree0.Some? && Jams(tree0.value, Item(key, value, [])) { OnlyLargestJams(tree0.value, Item(key, value, [])); }
      ReadyHistorySafe(leader);
      OnlyLeadsGrows(h0, leader.pages.history, leader.pages.stable);
      LeaderQuietSound(h0, leader.pages.history, leader.pages.stable, files, catalog, remade);
      seen := LeaderInstants(h0, leader.pages.history, files, catalog, remade);
    }

    method DeleteSeen(key: Bytes, ghost files: map<Name, Disk>) returns (out: Outcome, ghost seen: seq<Instant>)
      requires leader.Valid() && !leader.pages.led && leader.pages.held == map[]
      requires Speaks(leader.pages.stable, catalog) && AllThere(files, catalog - remade) && leader.pages !in Pagers()
      modifies leader, leader.pages
      ensures Files() == old(Files()) && Histories() == old(Histories())
      ensures out.Done? ==> leader.Valid() && leader.Contents() == Removed(old(leader.Contents()), key)
      ensures LeaderStands() && leader.pages.stable == old(leader.pages.stable) && leader.pages.held == map[]
      ensures OnlyLeads(old(leader.pages.history), leader.pages.history, leader.pages.stable) && |old(leader.pages.history)| <= |leader.pages.history|
      ensures AllSound(seen) && Steady(seen, leader.pages.stable, catalog, remade)
      ensures seen == LeaderInstants(old(leader.pages.history), leader.pages.history, files, catalog, remade)
      ensures LegalKey(key) && !out.Done? ==> leader.pages.maxPages > 0 || Overflows(old(leader.tree), key)
    {
      hide Files;
      hide Histories;
      hide Pager.Valid;
      hide OnlyLeads;
      hide Moment.Safe;
      hide Speaks;
      hide AllThere;
      hide BTree.Valid;
      hide Removed;
      hide Pager.Recoverable;
      hide Bursts;
      hide Steady;
      ghost var h0 := leader.pages.history;
      var removed;
      out, removed := leader.Delete(key, 0);
      ReadyHistorySafe(leader);
      OnlyLeadsGrows(h0, leader.pages.history, leader.pages.stable);
      LeaderQuietSound(h0, leader.pages.history, leader.pages.stable, files, catalog, remade);
      seen := LeaderInstants(h0, leader.pages.history, files, catalog, remade);
    }

    lemma OnlyLeadsGrows(h0: seq<Moment>, h1: seq<Moment>, v: Version)
      requires OnlyLeads(h0, h1, v)
      ensures |h0| <= |h1| && h0 <= h1 && (|h0| < |h1| ==> h1[|h1| - 1].stable == v)
    {
    }

    lemma LeaderRests(now: Catalog)
      requires LeaderLists(now)
      ensures leader.Valid() && !leader.pages.led && leader.pages.held == map[] && leader.Ready()
      ensures Lists(leader.Contents(), now) && Speaks(leader.pages.stable, catalog)
      ensures leader.pages.Recoverable()
    {
      hide Lists;
      hide Speaks;
      hide BTree.Sound;
      hide Pager.Booked;
      hide Pager.RecoverableFrom;
      hide Exact;
      hide Written;
    }

    lemma LeaderMoved(now: Catalog)
      requires leader.Valid() && !leader.pages.led && leader.pages.held == map[]
      requires Lists(leader.Contents(), now) && Speaks(leader.pages.stable, catalog)
      ensures LeaderLists(now)
    {
      hide BTree.Valid;
      hide Lists;
      hide Speaks;
    }

    /** What is seen while only the leader's file moves, between commits. */
    lemma LeaderStretch(a: Scene)
      requires Here() == a.(leader := LeaderNow(leader.pages), history := leader.pages.history)
      requires a.history != [] && a.history[|a.history| - 1].disk == a.leader.disk && a.leader.stable == leader.pages.stable
      requires OnlyLeads(a.history, leader.pages.history, leader.pages.stable) && |a.history| <= |leader.pages.history| && leader.pages.Recoverable()
      ensures Shows(a, LeaderInstants(a.history, leader.pages.history, a.files, catalog, remade), Here())
    {
      hide Pager.Recoverable;
      hide Here;
      hide Shows;
      HistoryEnds(leader.pages);
      OnlyLeadsGrows(a.history, leader.pages.history, leader.pages.stable);
      hide OnlyLeads;
      LeaderShows(a, LeaderInstants(a.history, leader.pages.history, a.files, catalog, remade), Here());
    }

    /** Only the leader has changed. */
    lemma OnlyLeader(a: Scene)
      requires a.files == Files() && a.logs == Histories()
      ensures Here() == a.(leader := LeaderNow(leader.pages), history := leader.pages.history)
    {
    }

    /** The part of a write to the leader's tree that is about the leader alone. */
    method NoteInto(key: Bytes, value: Bytes, ghost files: map<Name, Disk>) returns (out: Outcome, ghost seen: seq<Instant>)
      requires Calm() && (key == [] || key[0] != 7) && files == Files()
      modifies leader, leader.pages
      ensures out.Done? ==> Calm() && leader.Contents() == Updated(old(leader.Contents()), key, value)
      ensures Standing() && leader.pages.stable == old(leader.pages.stable) && leader.pages.Recoverable()
      ensures OnlyLeads(old(leader.pages.history), leader.pages.history, leader.pages.stable) && |old(leader.pages.history)| <= |leader.pages.history|
      ensures AllSound(seen) && Steady(seen, leader.pages.stable, catalog, remade)
      ensures seen == LeaderInstants(old(leader.pages.history), leader.pages.history, files, catalog, remade)
      ensures !out.Done? ==> leader.pages.maxPages > 0 || Unfit(old(leader.tree), key, value)
      ensures Files() == old(Files()) && Histories() == old(Histories())
    {
      hide Files;
      hide Histories;
      hide Unfit;
      hide LeaderLists;
      hide LeaderStands;
      hide OpenOnce;
      hide Standing;
      hide HasFiles;
      hide PartState;
      hide SetAside;
      hide PartAside;
      hide SameAs;
      hide BTree.Valid;
      hide Lists;
      hide Updated;
      hide Speaks;
      hide AllThere;
      hide AllSound;
      hide Steady;
      hide OnlyLeads;
      hide Pager.Recoverable;
      CalmFacts();
      LeaderRests(catalog - dropped);
      StatesThere(catalog - dropped);
      out, seen := PutSeen(key, value, files);
      RecordsStay(old(leader.Contents()), catalog - dropped, key, value);
      if out.Done? { LeaderMoved(catalog - dropped); }
      StatesStanding(catalog - dropped);
      StandsRecovers();
    }

    /** A write to the leader's own tree, beside the records. */
    method LeaderPut(key: Bytes, value: Bytes) returns (out: Outcome)
      requires Loose() && (key == [] || key[0] != 7)
      modifies leader, leader.pages, this`trail
      ensures out.Done? ==> Loose() && leader.Contents() == Updated(old(leader.Contents()), key, value)
      ensures Restorable() && leader.pages.stable == old(leader.pages.stable)
      ensures Went(old(trail), old(Here()))
      ensures !out.Done? ==> leader.pages.maxPages > 0 || Unfit(old(leader.tree), key, value)
    {
      hide Unfit;
      hide Calm;
      hide Standing;
      hide Updated;
      hide AllSound;
      hide Recorded;
      hide Shows;
      hide Steady;
      hide OnlyLeads;
      hide Here;
      hide Pager.Recoverable;
      hide States;
      hide LeaderLists;
      hide Distinct;
      hide AtRest;
      hide Linked;
      hide Files;
      hide Histories;
      CalmFacts();
      LeaderRests(catalog - dropped);
      HistoryEnds(leader.pages);
      HereIs();
      ghost var a := Here();
      ghost var seen;
      out, seen := NoteInto(key, value, a.files);
      HereIs();
      LeaderTold(a, seen);
      Tell(a, seen);
    }

    /** What the store has gone through once the leader's file has moved, between commits. */
    lemma LeaderTold(a: Scene, seen: seq<Instant>)
      requires unlinked == {} && a.files == Files() && a.logs == Histories() && Recorded(trail, a.leader, a.files)
      requires a.history != [] && a.history[|a.history| - 1].disk == a.leader.disk && a.leader.stable == leader.pages.stable
      requires OnlyLeads(a.history, leader.pages.history, leader.pages.stable) && |a.history| <= |leader.pages.history| && leader.pages.Recoverable()
      requires AllSound(seen) && seen == LeaderInstants(a.history, leader.pages.history, a.files, catalog, remade)
      ensures Shows(a, seen, Here()) && Recorded(trail + seen, LeaderNow(leader.pages), Files())
    {
      hide Recorded;
      hide Shows;
      hide AllSound;
      hide OnlyLeads;
      hide Pager.Recoverable;
      OnlyLeader(a);
      LeaderStretch(a);
      TrailGrows(trail, a, seen, Here());
    }

    lemma StandsRecovers()
      requires LeaderStands()
      ensures leader.pages.Recoverable()
    {
    }

    // ---- commit ----

    /** What a step of a commit promises of the instants it went through. */
    ghost predicate Seen(a: Scene, seen: seq<Instant>)
      reads this`leader, this`shelf, this`parts, this`dropping, this`unlinked, this`catalog, this`remade, leader, leader.pages, Pagers()
    {
      AllSound(seen) && Steady(seen, leader.pages.stable, catalog, remade) && Shows(a, seen, Here())
    }

    /** A commit in progress: the leader's tree in hand lists `next`, and so do the partitions. */
    ghost predicate Flushing(next: Catalog)
      reads this`leader, this`parts, this`roots, this`dropping, this`dropped, this`shelf, this`catalog, this`remade, this`unlinked
      reads leader, leader.pages, Pagers()
    {
      Distinct() && roots.Keys == parts.Keys && States(next) && LeaderLists(next) && Linked()
    }

    /** A partition's pages are made durable. Nothing a crash could land on has changed. */
    method FlushInto(name: Name, p: Pager, root: PageId, ghost next: Catalog, ghost tree: map<PageId, Page>) returns (ok: bool,
        at: Position, ghost v: Version)
      requires Flushing(next) && name in parts && parts[name] == p && p.flight.None? && tree == Restrict(p.Pages(), p.owned)
      modifies p
      ensures Standing() && LeaderLists(next) && p.Recoverable()
      ensures old(p.history) <= p.history && (forall m | m in p.history :: m.led && m.Safe()) && p.stable == old(p.stable)
      ensures forall k | |old(p.history)| <= k < |p.history| :: p.history[k].stable == p.stable
      ensures ok ==> States(next[name := v]) && at == PositionOf(v.meta) && v.tree == tree && v.meta.root == root && Carries(p, tree)
      ensures !ok ==> !Recordable(PositionOf(p.meta))
    {
      hide LeaderLists;
      hide LeaderStands;
      hide Standing;
      hide PartAside;
      hide HasFiles;
      hide PartState;
      hide SetAside;
      hide SameAs;
      hide Pager.Valid;
      hide Pager.Flushed;
      hide Pager.Recoverable;
      hide Filled;
      hide Restrict;
      hide Moment.Safe;
      hide PagesIn;
      hide OpenOnce;
      hide Allotted;
      hide PagesKept;
      LeaderListsStands(next);
      DistinctApart();
      StateRests(p, name, Base(), next);
      assert StatesBut(name, next);
      ok, at := p.Flush(root);
      v := p.stable;
      assert StatesBut(name, next);
      RecoverableLed(p);
      AsideNow(p, name, Base());
      ButStanding(name, next);
      FlushedAt(p);
      if !Recordable(at) {
        return false, at, v;
      }
      v := p.flight.value;
      FlushedInState(p, name, Base(), next[name := v]);
      StatesMove(name, next, next[name := v]);
    }

    method FlushPart(name: Name, p: Pager, root: PageId, ghost next: Catalog, ghost tree: map<PageId, Page>)
      returns (ok: bool, at: Position, ghost v: Version, ghost seen: seq<Instant>)
      requires Flushing(next) && name in parts && parts[name] == p && p.flight.None? && tree == Restrict(p.Pages(), p.owned)
      modifies p
      ensures Seen(old(Here()), seen) && Standing() && LeaderLists(next)
      ensures ok ==> States(next[name := v]) && at == PositionOf(v.meta) && v.tree == tree && v.meta.root == root && Carries(p, tree)
      ensures !ok ==> !Recordable(PositionOf(p.meta))
    {
      hide Carries;
      hide Recordable;
      hide Filled;
      hide Pager.Valid;
      hide LeaderStands;
      hide LeaderLists;
      hide Standing;
      hide Restrict;
      hide PagesIn;
      hide AllSound;
      hide Steady;
      hide Shows;
      hide Here;
      hide Files;
      hide Histories;
      hide Distinct;
      hide States;
      hide Pager.Recoverable;
      hide Moment.Safe;
      hide SameAs;
      hide Whole;
      hide AllThere;
      hide Speaks;
      hide Seen;
      hide HereBut;
      DistinctApart();
      BeforeFlush(name, next);
      HereIs();
      HereWith(name);
      ghost var a, h0, stable, b, disk := Here(), p.history, p.stable, HereBut(name), p.disk;
      ok, at, v := FlushInto(name, p, root, next, tree);
      seen := PartInstants(h0, p.history, a.leader, a.files, name, catalog, remade);
      FlushSeen(a, name, b, disk, h0, stable);
    }

    lemma FlushSeen(a: Scene, name: Name, b: Scene, disk: Disk, h0: seq<Moment>, stable: Version)
      requires name in parts && unlinked == {} && a == b.With(name, disk, h0) && HereBut(name) == b && a.logs.Keys == parts.Keys
      requires parts[name].Recoverable() && h0 != [] && h0 <= parts[name].history && h0[|h0| - 1].disk == disk
      requires (forall m | m in parts[name].history :: m.led && m.Safe()) && parts[name].stable == stable
      requires forall k | |h0| <= k < |parts[name].history| :: parts[name].history[k].stable == stable
      requires !a.leader.led && a.leader.Safe() && a.leader.flight.None? && a.leader.stable == leader.pages.stable
      requires Speaks(a.leader.stable, catalog) && AllThere(a.files, catalog - remade)
      requires name in catalog && name !in remade ==> SameAs(stable, catalog[name]) && Whole(stable, 1)
      ensures Seen(a, PartInstants(h0, parts[name].history, a.leader, a.files, name, catalog, remade))
    {
      hide AllSound;
      hide Steady;
      hide Shows;
      hide Here;
      hide HereBut;
      hide Pager.Recoverable;
      hide Moment.Safe;
      hide SameAs;
      hide Whole;
      hide AllThere;
      hide Speaks;
      HistoryEnds(parts[name]);
      OnlyIt(a, name, b, disk, h0);
      PartStretch(a, name, h0);
      PartSound(h0, parts[name].history, stable, a.leader, a.files, name, catalog, remade);
    }

    lemma BeforeFlush(name: Name, next: Catalog)
      requires name in parts && States(next) && LeaderLists(next) && parts[name].flight.None? && unlinked == {}
      ensures parts[name].history != [] && parts[name].history[|parts[name].history| - 1].disk == parts[name].disk
      ensures LeaderNow(leader.pages).Safe() && Speaks(leader.pages.stable, catalog) && AllThere(Files(), catalog - remade)
      ensures name in catalog && name !in remade ==> SameAs(parts[name].stable, catalog[name]) && Whole(parts[name].stable, 1)
    {
      hide LeaderLists;
      hide PartState;
      hide HasFiles;
      hide Pager.Valid;
      hide SameAs;
      hide Whole;
      hide AllThere;
      hide Speaks;
      hide Moment.Safe;
      hide Filled;
      hide Files;
      StateRests(parts[name], name, Base(), next);
      PartHistory(parts[name]);
      RecoverableLed(parts[name]);
      StatesThere(next);
      LeaderIsSafe(next);
    }

    /**
     One partition of a commit: its pages are made durable, then the leader's tree in
     hand records where they are.
     */
    method FlushOne(name: Name, p: Pager, root: PageId, ghost next: Catalog, ghost tree: map<PageId, Page>, ghost waits: bool)
      returns (ok: bool, ghost next1: Catalog, ghost seen: seq<Instant>)
      requires Flushing(next) && name in parts && parts[name] == p && p.flight.None? && tree == Restrict(p.Pages(), p.owned) &&
          waits == Waits(p, root)
      modifies p, leader, leader.pages
      ensures Seen(old(Here()), seen) && (!ok ==> Standing()) && leader.pages.stable == old(leader.pages.stable)
      ensures ok ==> Flushing(next1) && Beside(old(leader.Contents()), leader.Contents())
      ensures ok && !waits ==> next1 == next
      ensures ok && waits ==> name in next1 && next1 == next[name := next1[name]] && next1[name].tree == tree && next1[name].meta.root == root
      ensures ok ==> Carries(p, tree)
      ensures !ok ==> leader.pages.maxPages > 0 || !Recordable(PositionOf(p.meta))
    {
      hide Files;
      hide Histories;
      hide Moment.Safe;
      hide Pager.Valid;
      hide BTree.Valid;
      hide Pager.Recoverable;
      hide Intact;
      hide Held;
      hide Carries;
      hide AllSound;
      hide Steady;
      hide Shows;
      hide Beside;
      hide LeaderLists;
      hide Standing;
      hide States;
      hide Restrict;
      hide PagesIn;
      hide Distinct;
      hide Linked;
      hide Seen;
      hide Here;
      hide Recordable;
      next1, seen := next, [];
      ghost var a := Here();
      NothingSeen(a);
      BesideSelf(leader.Contents());
      DistinctApart();
      assert p in Pagers() && p != leader.pages;
      if |p.taken| == 0 && |p.free.freeing| == 0 && p.meta.root == root {
        CarriesNow(p, tree);
        return true, next1, seen;
      }
      ok, next1, seen := FlushAndRecord(name, p, root, next, tree);
    }

    method FlushAndRecord(name: Name, p: Pager, root: PageId, ghost next: Catalog, ghost tree: map<PageId, Page>)
      returns (ok: bool, ghost next1: Catalog, ghost seen: seq<Instant>)
      requires Flushing(next) && name in parts && parts[name] == p && p.flight.None? && tree == Restrict(p.Pages(), p.owned)
      modifies p, leader, leader.pages
      ensures Seen(old(Here()), seen) && (!ok ==> Standing()) && leader.pages.stable == old(leader.pages.stable)
      ensures ok ==> Flushing(next1) && Beside(old(leader.Contents()), leader.Contents())
      ensures ok ==> name in next1 && next1 == next[name := next1[name]] && next1[name].tree == tree && next1[name].meta.root == root
      ensures ok ==> Carries(p, tree)
      ensures !ok ==> leader.pages.maxPages > 0 || !Recordable(PositionOf(p.meta))
    {
      hide Carries;
      hide AllSound;
      hide Steady;
      hide Shows;
      hide Beside;
      hide LeaderLists;
      hide Standing;
      hide States;
      hide Restrict;
      hide Distinct;
      hide Linked;
      hide Seen;
      hide Here;
      hide Files;
      hide Histories;
      hide Recordable;
      hide Flushing;
      FlushingIs(next);
      next1 := next;
      ghost var a := Here();
      DistinctApart();
      assert p in Pagers() && p != leader.pages;
      var at;
      ghost var v, more;
      ok, at, v, seen := FlushPart(name, p, root, next, tree);
      if !ok {
        return;
      }
      next1 := next[name := v];
      ghost var b := Here();
      StandingIs();
      SeenIs(a, seen, b);
      ok, more := Record(name, at, v, next);
      SeenOn(a, seen, b, more);
      seen := seen + more;
      if ok { StandingFlushes(next1); }
    }

    lemma FlushingIs(next: Catalog)
      requires Flushing(next)
      ensures Distinct() && roots.Keys == parts.Keys && States(next) && LeaderLists(next) && Linked()
    {
    }

    lemma StandingIs()
      requires Standing()
      ensures Distinct() && roots.Keys == parts.Keys && Linked()
    {
    }

    lemma StandingFlushes(next: Catalog)
      requires Standing() && States(next) && LeaderLists(next)
      ensures Flushing(next)
    {
      hide LeaderLists;
      hide States;
      hide Distinct;
    }

    lemma NothingSeen(a: Scene)
      requires a == Here()
      ensures Seen(a, [])
    {
      ShowsNothing(a, a);
    }

    lemma SeenMore(a: Scene, s: seq<Instant>, b: Scene, t: seq<Instant>)
      requires AllSound(s) && Steady(s, leader.pages.stable, catalog, remade) && Shows(a, s, b) && Seen(b, t) && b.logs.Keys == parts.Keys
      ensures Seen(a, s + t)
    {
      hide AllSound;
      hide Steady;
      hide Shows;
      AllSoundConcat(s, t);
      SteadyConcat(s, t, leader.pages.stable, catalog, remade);
      ShowsChain(a, s, b, t, Here());
    }

    /** The leader's tree in hand records where a partition was flushed to. */
    method Record(name: Name, at: Position, ghost v: Version, ghost next: Catalog) returns (ok: bool, ghost seen: seq<Instant>)
      requires Distinct() && roots.Keys == parts.Keys && name in parts && States(next[name := v]) && LeaderLists(next) &&
          at == PositionOf(v.meta) && Linked()
      modifies leader, leader.pages
      ensures Seen(old(Here()), seen) && Standing() && leader.pages.stable == old(leader.pages.stable)
      ensures ok ==> States(next[name := v]) && LeaderLists(next[name := v]) && Beside(old(leader.Contents()), leader.Contents())
      ensures !ok ==> leader.pages.maxPages > 0
    {
      hide Ordered;
      hide Shaped;
      hide Full;
      hide BTree.Here;
      hide BTree.Ready;
      hide BTree.Contents;
      hide States;
      hide Distinct;
      hide Beside;
      hide LeaderLists;
      hide LeaderStands;
      hide OpenOnce;
      hide Standing;
      hide HasFiles;
      hide PartState;
      hide SetAside;
      hide PartAside;
      hide SameAs;
      hide Pager.Recoverable;
      hide BTree.Valid;
      hide Lists;
      hide Updated;
      hide Speaks;
      hide AllThere;
      hide AllSound;
      hide Steady;
      hide Shows;
      hide OnlyLeads;
      hide Here;
      hide Histories;
      hide Files;
      DistinctApart();
      UsableFits(name);
      LeaderRests(next);
      StatesThere(next[name := v]);
      HistoryEnds(leader.pages);
      HereIs();
      ghost var a := Here();
      var out;
      out, seen := PutSeen(PartKey(name), PartValue(at), a.files);
      RecordPut(old(leader.Contents()), next, name, v);
      RecordsBeside(old(leader.Contents()), name, PartValue(at));
      ok := out.Done?;
      StatesStanding(next[name := v]);
      StandsRecovers();
      if ok { LeaderMoved(next[name := v]); }
      OnlyLeader(a);
      LeaderStretch(a);
    }

    /** A usable name makes a short key, and a record is a short value. */
    lemma UsableFits(name: Name)
      requires Distinct() && name in parts
      ensures LegalKey(PartKey(name)) && |PartKey(name)| <= 129
      ensures forall at :: |PartValue(at)| == 24
    {
      forall at: Position ensures |PartValue(at)| == 24 { ValueSize(at); }
    }

    /** The leader's commit, with the instants it goes through: on the old catalog, on either, on the new one. */
    method CommitLeader(ghost next: Catalog) returns (ok: bool, ghost seen: seq<Instant>)
      requires Distinct() && roots.Keys == parts.Keys && States(next) && LeaderLists(next) && Linked()
      modifies leader.pages
      ensures AllSound(seen) && Shows(old(Here()), seen, Here()) && Turns(seen, old(leader.pages.stable), leader.pages.stable, catalog, next, remade)
      ensures Trees() == old(Trees())
      ensures !ok ==> Standing() && leader.pages.maxPages > 0 && leader.pages.stable == old(leader.pages.stable) && Steady(seen, leader.pages.stable, catalog, remade)
      ensures ok ==> States(next) && leader.Valid() && !leader.pages.led && leader.pages.held == map[] && Lists(leader.Contents(), next)
      ensures ok ==> Speaks(leader.pages.stable, next) && Denotes(leader.pages.stable, leader.Contents())
    {
      hide Entries;
      hide KidsEntries;
      hide BTree.Here;
      hide BTree.Ready;
      hide Denotes;
      hide Speaks;
      hide Trees;
      hide States;
      hide Distinct;
      hide LeaderLists;
      hide OpenOnce;
      hide Standing;
      hide HasFiles;
      hide PartState;
      hide SetAside;
      hide PartAside;
      hide SameAs;
      hide BTree.Valid;
      hide Lists;
      hide AllThere;
      hide AllSound;
      hide Steady;
      hide Turns;
      hide Shows;
      hide Lands;
      hide OnlyLeads;
      hide Preserves;
      hide Moment.Safe;
      hide Pager.Recoverable;
      hide Here;
      hide Histories;
      hide Files;
      DistinctApart();
      LeaderListsStands(next);
      LeaderRests(next);
      StatesThere(next);
      HistoryEnds(leader.pages);
      HereIs();
      ghost var a, v0 := Here(), leader.pages.stable;
      ok := leader.Commit();
      HistorySafe(leader.pages);
      HistoryEnds(leader.pages);
      OnlyLeader(a);
      if ok {
        ghost var w := leader.pages.stable;
        DenotesNow(w, leader.tree, leader.height, leader.Contents(), next);
        LandsGrows(a.history, leader.pages.history, v0, w);
        CommitSound(a.history, leader.pages.history, v0, w, a.files, catalog, next, remade);
        seen := CommitInstants(a.history, leader.pages.history, w, a.files, catalog, next, remade);
        CommitShows(a, seen, Here(), w, catalog, next, remade);
      } else {
        OnlyLeadsGrows(a.history, leader.pages.history, v0);
        LeaderQuietSound(a.history, leader.pages.history, v0, a.files, catalog, remade);
        seen := LeaderInstants(a.history, leader.pages.history, a.files, catalog, remade);
        SteadyTurns(seen, v0, v0, catalog, next, remade);
        LeaderStretch(a);
        StatesStanding(next);
      }
    }

    lemma LandsGrows(h0: seq<Moment>, h1: seq<Moment>, v: Version, w: Version)
      requires Lands(h0, h1, v, w)
      ensures |h0| < |h1| && h0 <= h1 && h1[|h1| - 1].stable == w
    {
    }

    /** What each partition's tree in hand is made of. */
    ghost function Trees(): map<Name, map<PageId, Page>>
      reads this`parts, set n | n in parts :: parts[n]
    {
      TreesOf(parts)
    }

    /** The partitions a commit has something to do for. */
    ghost function Pending(): set<Name>
      reads this`parts, this`roots, set n | n in parts :: parts[n]
    {
      set n | n in parts && n in roots && Waits(parts[n], roots[n])
    }

    /** What a partition's tree is made of when it is opened. */
    ghost function Recalled(name: Name): map<PageId, Page>
      reads this`catalog, this`dropped
    {
      if name in catalog - dropped then catalog[name].tree else map[]
    }

    ghost function RecalledRoot(name: Name): PageId
      reads this`catalog, this`dropped
    {
      if name in catalog - dropped then catalog[name].meta.root else 0
    }

    /** What the leader's tree in hand says of a partition. */
    ghost predicate Says(name: Name, recorded: bool, at: Position)
      reads this`catalog, this`dropped
    {
      && recorded == (name in catalog - dropped)
      && at == if recorded then PositionOf(catalog[name].meta) else Position(0, 0, 0)
    }

    /** A record is refused exactly when page 1 is on its free list. */
    ghost predicate Openable(name: Name)
      reads this`catalog, this`dropped
    {
      name in catalog - dropped ==> NoPageOne(catalog[name].freed)
    }

    /** The partition is open, with the tree its record speaks of, or made anew; what its record speaks of is still in the file. */
    ghost predicate Reached(name: Name, parts0: map<Name, Pager>, roots0: map<Name, PageId>, trees0: map<Name, map<PageId, Page>>)
      reads this`parts, this`roots, this`dropped, this`catalog, set n | n in parts :: parts[n]
    {
      && name in parts && parts == parts0[name := parts[name]]
      && roots == roots0[name := RecalledRoot(name)] && Trees() == trees0[name := Recalled(name)]
      && (name in dropped ==> Unwritten(parts[name])) && (name in catalog ==> Intact(parts[name].disk, catalog[name]))
    }

    lemma OneMoreTree(name: Name, was: map<Name, Pager>, trees: map<Name, map<PageId, Page>>)
      requires name in parts && parts == was[name := parts[name]] && trees == TreesOf(was)
      ensures Trees() == trees[name := Restrict(parts[name].Pages(), parts[name].owned)]
    {
      hide Restrict;
    }

    lemma WorkingTrees()
      ensures Trees().Keys == parts.Keys && forall n | n in parts :: Trees()[n] == Restrict(parts[n].Pages(), parts[n].owned)
    {
    }

    lemma AllUnflushed(trees: map<Name, map<PageId, Page>>, pending: set<Name>)
      requires AtRest() && roots.Keys == parts.Keys && trees == Trees() && pending == Pending()
      ensures forall n | n in parts :: Unflushed(parts[n], roots[n], trees[n], n in pending)
    {
    }

    /** How far commitParts has come: what is `left` is as it was, the rest is flushed and recorded. */
    ghost predicate Midway(left: set<Name>, next: Catalog, trees: map<Name, map<PageId, Page>>, pending: set<Name>)
      reads this`leader, this`parts, this`roots, this`dropping, this`dropped, this`shelf, this`catalog, this`remade, this`unlinked
      reads leader, leader.pages, Pagers()
    {
      && Flushing(next) && trees.Keys == parts.Keys && left <= parts.Keys && pending <= parts.Keys
      && (forall n | n in left :: Unflushed(parts[n], roots[n], trees[n], n in pending))
      && (forall n | n in parts && n !in left :: Carries(parts[n], trees[n]))
      && ComesFrom(next, catalog - dropped, trees, roots, pending - left)
    }

    /** commitParts: every partition that has anything pending is flushed and recorded, the leader untouched on disk. */
    method CommitParts() returns (ok: bool, ghost next: Catalog, ghost seen: seq<Instant>)
      requires Calm()
      modifies leader, leader.pages, set n | n in parts :: parts[n]
      ensures Seen(old(Here()), seen) && (!ok ==> Standing()) && leader.pages.stable == old(leader.pages.stable)
      ensures ok ==> States(next) && LeaderLists(next) && ComesFrom(next, catalog - dropped, old(Trees()), roots,
          old(Pending())) && Trees() == old(Trees())
      ensures ok ==> Beside(old(leader.Contents()), leader.Contents())
      ensures !ok ==> leader.pages.maxPages > 0 || exists n :: n in parts && !Recordable(PositionOf(parts[n].meta))
    {
      hide Beside;
      hide Calm;
      hide Midway;
      hide Standing;
      hide Seen;
      hide Trees;
      hide Pending;
      hide Here;
      hide Recordable;
      hide ComesFrom;
      hide States;
      hide LeaderLists;
      var left := parts.Keys;
      ghost var trees, pending, a := Trees(), Pending(), Here();
      next, seen := catalog - dropped, [];
      MidwayStarts();
      NothingSeen(a);
      BesideSelf(leader.Contents());
      while left != {}
        invariant Beside(old(leader.Contents()), leader.Contents())
        invariant left <= parts.Keys && Midway(left, next, trees, pending) && Seen(a, seen) && leader.pages.stable == old(leader.pages.stable)
        decreases left
      {
        var name :| name in left;
        ghost var more, b, es := [], Here(), leader.Contents();
        SeenIs(a, seen, b);
        ok, next, more := CommitNext(name, left, next, trees, pending);
        if ok { BesideOn(old(leader.Contents()), es, leader.Contents()); }
        SeenOn(a, seen, b, more);
        seen := seen + more;
        if !ok {
          return;
        }
        left := left - {name};
      }
      ok := true;
      MidwayEnds(next, trees, pending);
    }

    lemma MidwayStarts()
      requires Calm()
      ensures Midway(parts.Keys, catalog - dropped, Trees(), Pending())
    {
      hide LeaderLists;
      hide States;
      hide Distinct;
      hide Unflushed;
      CalmFacts();
      WorkingTrees();
      AllUnflushed(Trees(), Pending());
      ComesFromStart(catalog - dropped, Trees(), roots);
      PendingOpen();
      assert Pending() - parts.Keys == {};
      hide Trees;
      hide Pending;
      hide ComesFrom;
    }

    lemma MidwayEnds(next: Catalog, trees: map<Name, map<PageId, Page>>, pending: set<Name>)
      requires Midway({}, next, trees, pending)
      ensures States(next) && LeaderLists(next) && ComesFrom(next, catalog - dropped, trees, roots, pending) && Trees() == trees
    {
      hide LeaderLists;
      hide States;
      hide Distinct;
      hide ComesFrom;
      hide Restrict;
      assert pending - {} == pending;
    }

    method CommitNext(name: Name, ghost left: set<Name>, ghost next: Catalog, ghost trees: map<Name, map<PageId, Page>>, ghost pending: set<Name>)
      returns (ok: bool, ghost next1: Catalog, ghost seen: seq<Instant>)
      requires name in left && Midway(left, next, trees, pending) && name in parts
      modifies leader, leader.pages, parts[name]
      ensures leader.pages.stable == old(leader.pages.stable) && (ok ==> Beside(old(leader.Contents()), leader.Contents()))
      ensures Seen(old(Here()), seen) && (if ok then Midway(left - {name}, next1, trees, pending) else Standing())
      ensures !ok ==> leader.pages.maxPages > 0 || !Recordable(PositionOf(parts[name].meta))
    {
      hide Beside;
      hide LeaderLists;
      hide Standing;
      hide States;
      hide Seen;
      hide Restrict;
      hide PagesIn;
      hide ComesFrom;
      hide Unflushed;
      hide Carries;
      hide OpenOnce;
      hide Here;
      hide Recordable;
      hide Waits;
      DistinctApart();
      UnflushedIs(parts[name], roots[name], trees[name], name in pending);
      ok, next1, seen := FlushOne(name, parts[name], roots[name], next, trees[name], name in pending);
      if ok {
        ComesFromStep(next, next1, catalog - dropped, trees, roots, pending - left, name, name in pending);
        assert pending - (left - {name}) == if name in pending then pending - left + {name} else pending - left;
      }
    }

    lemma PendingOpen()
      ensures Pending() <= parts.Keys
    {
    }

    lemma SeenIs(a: Scene, seen: seq<Instant>, b: Scene)
      requires Seen(a, seen) && b == Here()
      ensures AllSound(seen) && Steady(seen, leader.pages.stable, catalog, remade) && Shows(a, seen, b) && b.logs.Keys == parts.Keys
    {
    }

    lemma SeenOn(a: Scene, s: seq<Instant>, b: Scene, t: seq<Instant>)
      requires AllSound(s) && Steady(s, leader.pages.stable, catalog, remade) && Shows(a, s, b) && Seen(b, t) && b.logs.Keys == parts.Keys
      ensures Seen(a, s + t)
    {
      hide AllSound;
      hide Steady;
      hide Shows;
      SeenMore(a, s, b, t);
    }

    /** The leader has committed: every partition that was flushed is now where it was flushed to. */
    ghost method AdoptAll(next: Catalog)
      requires Distinct() && States(next)
      modifies (set n | n in parts :: parts[n])`stable, (set n | n in parts :: parts[n])`flight
      ensures forall n | n in parts :: Adopted(parts[n], n, next)
      ensures Files() == old(Files()) && Histories() == old(Histories()) && Trees() == old(Trees())
    {
      hide Merge;
      hide Restrict;
      hide PartState;
      hide SetAside;
      hide PartAside;
      hide SameAs;
      hide Pager.Valid;
      hide Pager.Flushed;
      hide HasFiles;
      hide Adopted;
      hide Usable;
      assert Aside();
      var left := parts.Keys;
      while left != {}
        invariant left <= parts.Keys
        invariant forall n | n in left :: PartState(parts[n], n, Base(), next)
        invariant forall n | n in parts && n !in left :: Adopted(parts[n], n, next)
        decreases left
      {
        var name :| name in left;
        AdoptOne(parts[name], name, Base(), next);
        left := left - {name};
      }
      assert Disks(parts) == old(Disks(parts)) && Disks(dropping) == old(Disks(dropping));
      assert Logs(parts) == old(Logs(parts)) && TreesOf(parts) == old(TreesOf(parts));
    }

    /** The durable part of a commit: partitions first and the leader last. */
    method CommitBoth() returns (ok: bool, ghost next: Catalog, ghost seen: seq<Instant>)
      requires Calm()
      modifies leader, leader.pages, set n | n in parts :: parts[n]
      ensures AllSound(seen) && Shows(old(Here()), seen, Here())
      ensures ok ==> Turns(seen, old(leader.pages.stable), leader.pages.stable, catalog, next, remade)
      ensures !ok ==> leader.pages.stable == old(leader.pages.stable) && Steady(seen, leader.pages.stable, catalog, remade) && Standing()
      ensures !ok ==> leader.pages.maxPages > 0 || exists n :: n in parts && !Recordable(PositionOf(parts[n].meta))
      ensures ok ==> States(next) && leader.Valid() && !leader.pages.led && leader.pages.held == map[] && Lists(leader.Contents(), next)
      ensures ok ==> Denotes(leader.pages.stable, leader.Contents())
      ensures ok ==> Speaks(leader.pages.stable, next) && ComesFrom(next, catalog - dropped, old(Trees()), roots,
          old(Pending())) && Trees() == old(Trees())
      ensures ok ==> Beside(old(leader.Contents()), leader.Contents())
    {
      hide Distinct;
      hide Linked;
      hide Beside;
      hide Denotes;
      hide LeaderLists;
      hide Standing;
      hide States;
      hide Seen;
      hide Shows;
      hide Turns;
      hide Steady;
      hide AllSound;
      hide BTree.Valid;
      hide Lists;
      hide Speaks;
      hide OpenOnce;
      hide Trees;
      hide Pending;
      hide ComesFrom;
      hide Here;
      hide Recordable;
      hide AtRest;
      CalmFacts();
      ghost var a, kept := Here(), leader.pages.stable;
      ghost var more;
      ok, next, seen := CommitParts();
      ghost var b := Here();
      SeenIs(a, seen, b);
      if !ok {
        return;
      }
      ok, more := CommitLeader(next);
      HereNow();
      ShowsChain(a, seen, b, more, Here());
      AllSoundConcat(seen, more);
      if !ok {
        SteadyConcat(seen, more, kept, catalog, remade);
      } else {
        SteadyTurns(seen, kept, leader.pages.stable, catalog, next, remade);
        TurnsConcat(seen, more, kept, leader.pages.stable, catalog, next, remade);
      }
      seen := seen + more;
    }

    /**
     Commit: partitions first and the leader last. At every instant a crash finds
     every partition that is looked after where one leader transaction recorded it:
     the last one, or, once the leader's meta is written, this one. Files are unlinked
     only after, and that takes what was made anew under a dropped name with it: what
     the new catalog records is all there exactly when it records no such partition.
     */
    method Commit() returns (ok: bool)
      requires Loose()
      modifies this, leader, leader.pages, set n | n in parts :: parts[n]
      ensures old(trail) <= trail && Shows(old(Here()), trail[|old(trail)|..], Here()) && Logged()
      ensures ok ==> Turns(trail[|old(trail)|..], old(leader.pages.stable), leader.pages.stable, old(catalog), catalog, old(remade))
      ensures !ok ==> leader.pages.stable == old(leader.pages.stable) && Steady(trail[|old(trail)|..], leader.pages.stable, catalog, remade)
      ensures leader == old(leader) && parts == old(parts)
      ensures !ok ==> Restorable() && catalog == old(catalog) && remade == old(remade) && dropping == old(dropping)
      ensures !ok ==> leader.pages.maxPages > 0 || exists n :: n in parts && !Recordable(PositionOf(parts[n].meta))
      ensures ok ==> dropped == {} && remade == {} && unlinked == old(remade)
      ensures ok ==> ComesFrom(catalog, old(catalog - dropped), old(Trees()), roots, old(Pending())) && roots == old(roots)
      ensures ok ==> Beside(old(leader.Contents()), leader.Contents()) && Denotes(leader.pages.stable, leader.Contents())
      ensures ok ==> (AllThere(Files(), catalog) <==> catalog.Keys !! unlinked)
      ensures ok && unlinked == {} ==> Valid()
      ensures ok ==> Trees() == old(Trees()) && dropping == old(dropping) - old(dropped)
      ensures Pagers() <= old(Pagers())
    {
      hide StillRead;
      hide HeldWithin;
      hide PositionOf;
      hide LeaderNow;
      hide Distinct;
      hide Valid;
      hide Pagers;
      hide Loose;
      hide Beside;
      hide Denotes;
      hide Standing;
      hide Calm;
      hide States;
      hide Recorded;
      hide Shows;
      hide Steady;
      hide Turns;
      hide AllSound;
      hide Adopted;
      hide BTree.Valid;
      hide Lists;
      hide Speaks;
      hide OpenOnce;
      hide HasFiles;
      hide Trees;
      hide Pending;
      hide ComesFrom;
      hide Files;
      hide Here;
      hide Histories;
      hide AllThere;
      hide Recordable;
      hide LeaderLists;
      hide AtRest;
      LooseIsCalm();
      CalmFacts();
      ghost var a, t0, lost, kept := Here(), trail, remade, leader.pages.stable;
      ghost var next, seen;
      ok, next, seen := CommitTold();
      HereNow();
      if !ok {
        return;
      }
      ghost var b := Here();
      ghost var last := Land(next);
      UnlinksTurn(last, kept, leader.pages.stable, old(catalog), next, lost);
      TurnsConcat(seen, last, kept, leader.pages.stable, old(catalog), next, lost);
      HereNow();
      ShowsChain(a, seen, b, last, Here());
      assert trail[|t0|..] == seen + last;
    }

    /** The durable part, with the trail up to date. */
    method CommitTold() returns (ok: bool, ghost next: Catalog, ghost seen: seq<Instant>)
      requires Calm() && Logged()
      modifies this`trail, leader, leader.pages, set n | n in parts :: parts[n]
      ensures trail == old(trail) + seen && Shows(old(Here()), seen, Here()) && Logged() && Distinct() && Linked()
      ensures ok ==> Turns(seen, old(leader.pages.stable), leader.pages.stable, catalog, next, remade)
      ensures !ok ==> leader.pages.stable == old(leader.pages.stable) && Steady(seen, leader.pages.stable, catalog, remade) && Standing()
      ensures !ok ==> leader.pages.maxPages > 0 || exists n :: n in parts && !Recordable(PositionOf(parts[n].meta))
      ensures ok ==> States(next) && leader.Valid() && !leader.pages.led && leader.pages.held == map[] && Lists(leader.Contents(), next)
      ensures ok ==> Denotes(leader.pages.stable, leader.Contents())
      ensures ok ==> Speaks(leader.pages.stable, next) && ComesFrom(next, catalog - dropped, old(Trees()), roots,
          old(Pending())) && Trees() == old(Trees())
      ensures ok ==> Beside(old(leader.Contents()), leader.Contents())
    {
      hide StillRead;
      hide HeldWithin;
      hide PositionOf;
      hide LeaderNow;
      hide Distinct;
      hide Valid;
      hide Pagers;
      hide Loose;
      hide Beside;
      hide Denotes;
      hide Standing;
      hide Calm;
      hide States;
      hide Recorded;
      hide Shows;
      hide Steady;
      hide Turns;
      hide AllSound;
      hide Adopted;
      hide BTree.Valid;
      hide Lists;
      hide Speaks;
      hide OpenOnce;
      hide HasFiles;
      hide Trees;
      hide Pending;
      hide ComesFrom;
      hide Files;
      hide Here;
      hide Histories;
      hide AllThere;
      hide Recordable;
      hide LeaderLists;
      hide AtRest;
      CalmFacts();
      LoggedHere();
      ghost var a := Here();
      ok, next, seen := CommitBoth();
      HereNow();
      TrailGrows(trail, a, seen, Here());
      trail := trail + seen;
    }

    /** The leader's meta is down: what was flushed is now what is recorded, and what was dropped is unlinked. */
    method Land(ghost next: Catalog) returns (ghost seen: seq<Instant>)
      requires Distinct() && roots.Keys == parts.Keys && States(next) && Linked() && Logged()
      requires leader.Valid() && !leader.pages.led && leader.pages.held == map[]
      requires Lists(leader.Contents(), next) && Speaks(leader.pages.stable, next)
      modifies this`dropping, this`dropped, this`shelf, this`catalog, this`remade, this`unlinked, this`trail
      modifies (set n | n in parts :: parts[n])`stable, (set n | n in parts :: parts[n])`flight
      ensures trail == old(trail) + seen && Shows(old(Here()), seen, Here()) && Logged() && Histories() == old(Histories()) && Trees() == old(Trees())
      ensures forall i | i in seen :: i.leader.stable == leader.pages.stable && i.catalog == next && i.leader.flight.None? && i.lost <= old(remade)
      ensures catalog == next && dropped == {} && remade == {} && unlinked == old(remade) && dropping == old(dropping) - old(dropped)
      ensures AllThere(Files(), next) <==> next.Keys !! unlinked
      ensures leader.pages.stable == old(leader.pages.stable) && Pagers() <= old(Pagers())
      ensures unlinked == {} ==> Valid()
    {
      hide States;
      hide Recorded;
      hide Shows;
      hide Adopted;
      hide BTree.Valid;
      hide Lists;
      hide Speaks;
      hide OpenOnce;
      hide HasFiles;
      hide PartAside;
      hide Trees;
      hide Files;
      hide Here;
      hide Histories;
      hide AllThere;
      DistinctApart();
      HereNow();
      StatesClaimed(next);
      StatesThere(next);
      ghost var a := Here();
      AdoptAll(next);
      HereNow();
      assert Here() == a;
      seen := DropFiles(next);
    }

    lemma StatesClaimed(next: Catalog)
      requires States(next)
      ensures Claimed(next) && Aside()
    {
    }

    lemma RestsAgain()
      requires Distinct() && roots.Keys == parts.Keys && Aside() && dropped == {} && remade == {} && unlinked == {} && Claimed(catalog)
      requires (forall n | n in parts :: Adopted(parts[n], n, catalog)) && LeaderLists(catalog) && Logged()
      ensures Valid()
    {
      hide LeaderLists;
      hide OpenOnce;
      hide HasFiles;
      hide PartState;
      hide Adopted;
      hide Recorded;
      assert catalog - dropped == catalog && Base() == catalog;
      forall n | n in parts ensures PartState(parts[n], n, catalog, catalog) && parts[n].flight.None? {
        AdoptedInState(parts[n], n, catalog);
      }
    }

    /** dropFiles, and the start of the next transaction. */
    method DropFiles(ghost next: Catalog) returns (ghost seen: seq<Instant>)
      requires Distinct() && roots.Keys == parts.Keys && Claimed(next) && Aside() && (forall n | n in parts :: Adopted(parts[n], n, next)) && Linked()
      requires leader.Valid() && !leader.pages.led && leader.pages.held == map[]
      requires Lists(leader.Contents(), next) && Speaks(leader.pages.stable, next)
      requires AllThere(Files(), next) && Logged()
      modifies this`dropping, this`dropped, this`shelf, this`catalog, this`remade, this`unlinked, this`trail
      ensures trail == old(trail) + seen && Shows(old(Here()), seen, Here()) && Logged()
      ensures forall i | i in seen :: i.leader.stable == leader.pages.stable && i.catalog == next && i.leader.flight.None? && i.lost <= old(remade)
      ensures catalog == next && dropped == {} && remade == {} && unlinked == old(remade)
      ensures AllThere(Files(), next) <==> next.Keys !! unlinked
      ensures unlinked == {} ==> Valid()
      ensures dropping == old(dropping) - old(dropped)
    {
      hide BTree.Valid;
      hide Lists;
      hide Speaks;
      hide Adopted;
      hide PartAside;
      hide OpenOnce;
      hide HasFiles;
      hide Recorded;
      hide Shows;
      hide AllThere;
      hide Here;
      hide Files;
      hide Histories;
      hide Moment.Safe;
      LeaderHolds();
      ClaimedGone(next);
      HereNow();
      ghost var a, gone := Here(), dropped;
      FilesAfterDrop(leader.pages, parts, dropping, Gone(), remade, shelf, Base(), next);
      assert Gone() + remade == gone;
      assert shelf.Keys - gone == (shelf - gone).Keys;
      UnlinkedAll(a.files, next, gone, remade);
      ghost var names := Unlink(a);
      seen := UnlinkInstants(a.leader, a.files, next, names, parts.Keys);
      UnlinksAre(a, next, names, parts.Keys, remade, trail);
      forall n | n in dropping ensures PartAside(dropping[n], n, next) { AsideOf(dropping[n], n, Base(), next); }
      NextBegins(next, trail + seen);
    }

    /** The fields of a transaction that has landed are cleared. */
    method NextBegins(ghost next: Catalog, ghost told: seq<Instant>)
      requires Distinct() && roots.Keys == parts.Keys && (forall n | n in parts :: Adopted(parts[n], n, next))
      requires HasFiles(parts.Keys, dropping.Keys, {}, shelf, next, next) && (forall n | n in dropping :: PartAside(dropping[n], n, next))
      requires leader.Valid() && !leader.pages.led && leader.pages.held == map[]
      requires Lists(leader.Contents(), next) && Speaks(leader.pages.stable, next)
      requires Recorded(told, LeaderNow(leader.pages), Files())
      modifies this`dropped, this`catalog, this`remade, this`trail
      ensures dropped == {} && catalog == next && remade == {} && trail == told
      ensures Here() == old(Here()) && Files() == old(Files()) && Logged()
      ensures unlinked == {} ==> Valid()
    {
      hide Merge;
      hide Disks;
      hide Logs;
      hide BTree.Valid;
      hide Lists;
      hide Speaks;
      hide Adopted;
      hide PartAside;
      hide OpenOnce;
      hide HasFiles;
      hide Recorded;
      hide Valid;
      Begin(next, told);
      assert catalog - remade == catalog && dropped - remade == {};
      assert Files() == old(Files()) && Histories() == old(Histories());
      LeaderMoved(next);
      if unlinked == {} { RestsAgain(); }
    }

    method Begin(ghost next: Catalog, ghost told: seq<Instant>)
      modifies this`dropped, this`catalog, this`remade, this`trail
      ensures dropped == {} && catalog == next && remade == {} && trail == told
    {
      trail, dropped, catalog, remade := told, {}, next, {};
    }

    /** The unlinking, one file after another. A file that is open goes on being written to, and is nowhere. */
    method Unlink(ghost a: Scene) returns (ghost names: seq<Name>)
      requires unlinked == {} && a == Here()
      modifies this`dropping, this`shelf, this`unlinked
      ensures shelf == old(shelf) - dropped && dropping == old(dropping) - dropped && unlinked == dropped * parts.Keys
      ensures Among(names) == dropped && Here() == a.(files := a.files - dropped) && Files() == a.files - dropped
    {
      hide Among;
      hide Here;
      hide Files;
      hide Histories;
      HereIs();
      names := [];
      AmongNone();
      var left := dropped;
      ghost var gone: set<Name> := {};
      while left != {}
        invariant gone + left == dropped && gone !! left
        invariant shelf == old(shelf) - gone && dropping == old(dropping) - gone
        invariant unlinked == gone * parts.Keys && Among(names) == gone
        decreases left
      {
        var name :| name in left;
        LessTwice(old(shelf), gone, {name});
        LessTwice(old(dropping), gone, {name});
        OneGone(gone, left, dropped, name, parts.Keys);
        AmongMore(names, name);
        dropping, shelf := dropping - {name}, shelf - {name};
        left, gone := left - {name}, gone + {name};
        unlinked := if name in parts then unlinked + {name} else unlinked;
        names := names + [name];
      }
      FilesLess(old(shelf), old(dropping), a.files, dropped);
      assert Histories() == old(Histories());
      HereNow();
    }

    lemma ClaimedGone(next: Catalog)
      requires Claimed(next) && Linked()
      ensures parts.Keys * dropped == remade && next.Keys * dropped <= remade
    {
      hide Intact;
      hide Whole;
      hide Recordable;
    }

    lemma HereNow()
      ensures Here() == Scene(LeaderNow(leader.pages), leader.pages.history, Files(), Histories())
    {
    }

    lemma FilesLess(shelf0: map<Name, Disk>, dropping0: map<Name, Pager>, files0: map<Name, Disk>, x: set<Name>)
      requires shelf == shelf0 - x && dropping == dropping0 - x && unlinked == x * parts.Keys
      requires files0.Keys == shelf0.Keys + parts.Keys + dropping0.Keys
      requires forall n | n in files0 :: files0[n] == (if n in parts then parts[n].disk else if n in dropping0 then dropping0[n].disk else shelf0[n])
      ensures Files() == files0 - x
    {
      forall n ensures n in Files() <==> n in files0 - x { }
      forall n | n in Files() ensures Files()[n] == files0[n] { }
    }

    // ---- opening and dropping ----

    /** readPart: where the leader's tree in hand says a partition is. */
    method ReadPart(name: Name, ghost now: Catalog) returns (recorded: bool, at: Position)
      requires LeaderLists(now) && |name| < MAX_KEY && (name in now ==> Recordable(PositionOf(now[name].meta)))
      ensures recorded <==> name in now
      ensures at == if recorded then PositionOf(now[name].meta) else Position(0, 0, 0)
    {
      hide Lists;
      hide BTree.Valid;
      hide Speaks;
      hide BTree.Seen;
      hide Lookup;
      hide PartValue;
      hide ReadPosition;
      hide Recordable;
      leader.ValidIsSeen();
      var out, value := leader.Get(PartKey(name));
      ListsAt(leader.Contents(), now, name);
      if name in now { PositionRoundTrip(PositionOf(now[name].meta)); }
      if value.None? {
        return false, Position(0, 0, 0);
      }
      var read := ReadPosition(value.value);
      return true, read.value;
    }

    lemma ListsAt(es: seq<Pair>, now: Catalog, name: Name)
      requires Lists(es, now)
      ensures Lookup(es, PartKey(name)) == RecordFor(now, name)
    {
    }

    /**
     Part: the partition, opened where the leader says it is or made anew. It is
     refused exactly when its name is unusable, when a drop still holds its file, or
     when page 1 is on its recorded free list. A name this transaction has dropped is
     made anew on the file the last commit still counts on: from then on that
     partition is no longer looked after.
     */
    method Part(name: Name) returns (ok: bool)
      requires Valid()
      modifies this`parts, this`roots, this`shelf, this`remade, this`trail
      ensures Loose() && Went(old(trail), old(Here()))
      ensures ok <==> name in old(parts) || (Usable(name) && name !in dropping && Openable(name))
      ensures if ok && name !in old(parts) then Reached(name, old(parts), old(roots), old(Trees())) && fresh(parts[name])
              else parts == old(parts) && roots == old(roots) && Trees() == old(Trees())
      ensures remade == (if ok && name in dropped then {name} else {}) && (remade != {} ==> name !in old(parts))
      ensures (ok ==> name in parts) && fresh(Pagers() - old(Pagers()))
    {
      hide Reached;
      hide Trees;
      hide Openable;
      hide Loose;
      hide Calm;
      hide Recorded;
      hide States;
      hide LeaderLists;
      hide Distinct;
      hide Linked;
      hide Intact;
      hide Recordable;
      hide Usable;
      hide NoPageOne;
      hide Went;
      hide Here;
      hide Files;
      hide AllThere;
      LooseIsCalm();
      CalmFacts();
      GoneNowhere(Here());
      StatesThere(catalog - dropped);
      PartsKept(catalog - dropped);
      if name in parts {
        OpenThere(name);
        assert parts[name := parts[name]] == parts;
        return true;
      }
      if !Usable(name) {
        return false;
      }
      UsableLength(name);
      var recorded, at := ReadPart(name, catalog - dropped);
      if name in dropping {
        return false;
      }
      ok := Reach(name, recorded, at);
    }

    /** The file of a partition that is not open is opened where it is recorded, or made anew. */
    method Reach(name: Name, recorded: bool, at: Position) returns (ok: bool)
      requires Valid() && name !in parts && name !in dropping && Usable(name) && Says(name, recorded, at)
      modifies this`parts, this`roots, this`shelf, this`remade, this`trail
      ensures Loose() && Went(old(trail), old(Here()))
      ensures ok <==> Openable(name)
      ensures ok ==> name in parts
      ensures if ok then Reached(name, old(parts), old(roots), old(Trees())) && fresh(parts[name])
              else parts == old(parts) && roots == old(roots) && Trees() == old(Trees())
      ensures remade == (if ok && name in dropped then {name} else {}) && fresh(Pagers() - old(Pagers()))
    {
      hide Numbered;
      hide Logged;
      hide AtRest;
      hide Disk.Sync;
      hide Moment.Safe;
      hide Pager.Books;
      hide Pager.Pages;
      hide Unwritten;
      hide Reached;
      hide Valid;
      hide Loose;
      hide Trees;
      hide Waits;
      hide Calm;
      hide Recorded;
      hide States;
      hide LeaderLists;
      hide Distinct;
      hide Linked;
      hide Intact;
      hide Whole;
      hide SameAs;
      hide Recordable;
      hide Usable;
      hide NoPageOne;
      hide Pager.Valid;
      hide Filled;
      hide Went;
      hide Here;
      hide Files;
      hide Restrict;
      hide PagesIn;
      hide TreesOf;
      ValidIs();
      ValidIsLoose();
      CalmFacts();
      GoneNowhere(Here());
      ClosedPart(name);
      var file := if name in shelf then shelf[name] else Disk(map[], map[]);
      var p;
      ok, p := OpenPart(file, recorded, at, if name in catalog then catalog[name] else FRESH_LED);
      if !ok {
        return;
      }
      if !recorded && name in catalog { LabelSpares(file, catalog[name]); }
      Admit(name, p, recorded, at.root, file);
      ReachedNow(name, old(parts), old(roots), TreesOf(old(parts)));
    }

    /** A handle that was opened or made joins what is open. */
    method Admit(name: Name, p: Pager, recorded: bool, root: PageId, ghost file: Disk)
      requires Valid() && name !in parts && name !in dropping && p !in Pagers() && p != leader.pages && Usable(name) && p.maxPages == 0
      requires p.Valid() && p.led && p.reserved == 1 && p.held == map[] && Filled(p.Pages(), p.owned)
      requires recorded == (name in catalog - dropped)
      requires if recorded then name in shelf && SameAs(p.stable, catalog[name]) && p.disk == shelf[name] else p.disk == file.WriteAt(0, Label).Sync()
      modifies this`parts, this`roots, this`shelf, this`remade, this`trail
      ensures Loose() && parts == old(parts)[name := p] && roots == old(roots)[name := if recorded then root else 0]
      ensures Went(old(trail), old(Here())) && remade == if name in dropped then {name} else {}
    {
      hide Valid;
      hide Loose;
      hide Went;
      hide Here;
      hide Usable;
      hide Pager.Valid;
      hide Filled;
      hide SameAs;
      if recorded {
        Open(name, p, root);
        ValidIsLoose();
      } else {
        Make(name, p, file);
      }
    }

    lemma ReachedNow(name: Name, parts0: map<Name, Pager>, roots0: map<Name, PageId>, trees0: map<Name, map<PageId, Page>>)
      requires name in parts && parts == parts0[name := parts[name]] && roots == roots0[name := RecalledRoot(name)]
      requires trees0 == TreesOf(parts0) && Restrict(parts[name].Pages(), parts[name].owned) == Recalled(name)
      requires (name in dropped ==> Unwritten(parts[name])) && (name in catalog ==> Intact(parts[name].disk, catalog[name]))
      ensures Reached(name, parts0, roots0, trees0)
    {
      hide Restrict;
      hide Unwritten;
      hide Intact;
      hide Recalled;
      OneMoreTree(name, parts0, TreesOf(parts0));
    }

    lemma PartsKept(next: Catalog)
      requires States(next) && remade == {}
      ensures parts.Keys !! dropped && (forall n | n in next :: Recordable(PositionOf(next[n].meta)))
    {
      hide PartState;
      hide Intact;
      hide Whole;
      hide Recordable;
      hide PartAside;
      assert Gone() == dropped;
    }

    /** A partition that is open and recorded is in its file. */
    lemma OpenThere(name: Name)
      requires AllThere(Files(), catalog - remade) && remade == {} && name in parts && unlinked == {}
      ensures name in catalog ==> Intact(parts[name].disk, catalog[name])
    {
      hide Intact;
      hide Whole;
      if name in catalog { assert name in catalog - remade && Files()[name] == parts[name].disk; }
    }

    lemma UsableLength(name: Name)
      requires Usable(name)
      ensures |name| < MAX_KEY
    {
    }

    /** A partition that is not open lies on the shelf, if it is recorded. */
    lemma ClosedPart(name: Name)
      requires States(catalog - dropped) && remade == {} && name !in parts
      ensures name in catalog && name !in dropping ==> name in shelf && Intact(shelf[name], catalog[name]) && Whole(catalog[name], 1)
      ensures name in catalog ==> Recordable(PositionOf(catalog[name].meta))
      ensures name in catalog - dropped ==> name in shelf && name in catalog
      ensures name in catalog - dropped ==> Intact(shelf[name], Numbered(catalog[name])) && Whole(Numbered(catalog[name]), 1)
      ensures name in catalog - dropped ==> SameAs(Numbered(catalog[name]), catalog[name])
    {
      hide PartState;
      hide PartAside;
      hide Intact;
      hide Whole;
      hide SameAs;
      hide Recordable;
      if name in catalog {
        assert name in Base();
        if name in catalog - dropped { NumberedReads(shelf[name], catalog[name]); }
      }
    }

    /** A recorded partition is open again; its file has not moved. */
    method Open(name: Name, p: Pager, root: PageId)
      requires Valid() && name !in parts && name !in dropping && p !in Pagers() && p != leader.pages && Usable(name) && p.maxPages == 0
      requires name in shelf && name in catalog && name !in dropped && p.Valid() && p.led && p.reserved == 1 && p.held == map[]
      requires Filled(p.Pages(), p.owned) && SameAs(p.stable, catalog[name]) && p.disk == shelf[name]
      modifies this`parts, this`roots, this`shelf, this`remade
      ensures Valid() && parts == old(parts)[name := p] && roots == old(roots)[name := root] && Went(trail, old(Here()))
    {
      hide Valid;
      hide Loose;
      hide States;
      hide LeaderLists;
      hide Distinct;
      hide AtRest;
      hide Linked;
      hide Calm;
      hide Recorded;
      hide Shows;
      hide Pager.Valid;
      hide Filled;
      hide SameAs;
      hide PartState;
      hide Here;
      hide Histories;
      hide Files;
      ValidIs();
      CalmFacts();
      HereIs();
      HereNow();
      ghost var a := Here();
      assert catalog - {} == catalog;
      RestsInState(p, name, catalog, catalog - dropped);
      Install(name, p, root, {});
      HereNow();
      assert a.files[name := p.disk] == a.files;
      ShowsNothing(a, Here());
      GoneOn(trail, a, []);
      ValidAgain();
    }

    /** A partition is made: a label, synced, and nothing else that counts. */
    method Make(name: Name, p: Pager, ghost file: Disk)
      requires Valid() && name !in parts && name !in dropping && p !in Pagers() && p != leader.pages && Usable(name) && p.maxPages == 0
      requires name !in catalog - dropped && p.Valid() && p.led && p.reserved == 1 && p.held == map[]
      requires Filled(p.Pages(), p.owned) && p.disk == file.WriteAt(0, Label).Sync()
      modifies this`parts, this`roots, this`shelf, this`remade, this`trail
      ensures Loose() && parts == old(parts)[name := p] && roots == old(roots)[name := 0] && Went(old(trail), old(Here())) &&
          remade == if name in dropped then {name} else {}
    {
      hide Usable;
      hide Went;
      hide Distinct;
      hide AtRest;
      hide BTree.Sound;
      hide BTree.Valid;
      hide Book.Apart;
      hide Disk.View;
      hide Disk.WriteAt;
      hide Disk.Sync;
      hide Pager.Pages;
      hide Instant.Sound;
      hide Calm;
      hide Recorded;
      hide Shows;
      hide Steady;
      hide Pager.Valid;
      hide Filled;
      hide SameAs;
      hide PartState;
      hide States;
      hide LeaderLists;
      hide Here;
      hide Histories;
      hide Files;
      hide AllThere;
      hide Speaks;
      hide Moment.Safe;
      hide Valid;
      hide Logged;
      hide AllSound;
      ValidIs();
      LoggedHere();
      CalmFacts();
      HereIs();
      HereNow();
      StatesThere(catalog - dropped);
      LeaderIsSafe(catalog - dropped);
      ghost var a, lost := Here(), if name in dropped then {name} else {};
      ghost var seen := LabelInstants(a, name, file.WriteAt(0, Label), p.disk, catalog, lost);
      FewerThere(a.files, catalog, lost);
      RestsInState(p, name, catalog - lost, catalog - dropped);
      LabelSound(a, name, file.WriteAt(0, Label), p.disk, catalog, lost);
      Install(name, p, 0, lost);
      LabelShows(a, name, file.WriteAt(0, Label), p.disk, catalog, lost, Here());
      TellStruck(a, seen);
    }

    /** A file handle that was not there joins the store. */
    method Install(name: Name, p: Pager, root: PageId, ghost lost: set<Name>)
      requires Calm() && remade == {} && name !in parts && name !in dropping && p !in Pagers() && p != leader.pages && Usable(name) && p.maxPages == 0
      requires lost == if name in dropped then {name} else {}
      requires PartState(p, name, catalog - lost, catalog - dropped) && p.flight.None?
      modifies this`parts, this`roots, this`shelf, this`remade
      ensures Calm() && parts == old(parts)[name := p] && roots == old(roots)[name := root] && remade == lost
      ensures Here() == old(Here()).(files := old(Files())[name := p.disk], logs := old(Histories())[name := p.history])
    {
      hide Calm;
      hide Installs;
      hide PartState;
      hide Here;
      hide Merge;
      hide Disks;
      hide Logs;
      hide Files;
      hide Histories;
      hide LeaderNow;
      hide Usable;
      BeforeInstall(name, p, root, lost);
      FilesWith(name, p);
      HereNow();
      Place(parts[name := p], roots[name := root], shelf - {name}, lost);
      Installed();
    }

    method Place(open: map<Name, Pager>, roots1: map<Name, PageId>, shelf1: map<Name, Disk>, ghost lost: set<Name>)
      modifies this`parts, this`roots, this`shelf, this`remade
      ensures parts == open && roots == roots1 && shelf == shelf1 && remade == lost
    {
      parts, roots, shelf, remade := open, roots1, shelf1, lost;
    }

    /** What is open, on the shelf and made anew from here on is all a store needs in the middle of a transaction. */
    ghost predicate Installs(open: map<Name, Pager>, roots1: map<Name, PageId>, shelf1: map<Name, Disk>, lost: set<Name>)
      reads this`leader, this`dropping, this`dropped, this`catalog, this`unlinked, leader, leader.pages
      reads set n | n in open :: open[n], set n | n in dropping :: dropping[n]
    {
      && OpenOnce(leader.pages, open, dropping, shelf1.Keys) && roots1.Keys == open.Keys
      && HasFiles(open.Keys, dropping.Keys, dropped - lost, shelf1, catalog - lost, catalog - dropped)
      && InStates(open, dropping, catalog - lost, catalog - dropped)
      && LeaderLists(catalog - dropped) && unlinked == {} && lost <= dropped && lost <= open.Keys
    }

    lemma BeforeInstall(name: Name, p: Pager, root: PageId, lost: set<Name>)
      requires Calm() && remade == {} && name !in parts && name !in dropping && p !in Pagers() && p != leader.pages && Usable(name) && p.maxPages == 0
      requires lost == if name in dropped then {name} else {}
      requires PartState(p, name, catalog - lost, catalog - dropped) && p.flight.None?
      ensures Installs(parts[name := p], roots[name := root], shelf - {name}, lost) && unlinked == {}
    {
      hide LeaderLists;
      hide HasFiles;
      hide PartState;
      hide OpenOnce;
      hide PartAside;
      hide Usable;
      var next := catalog - dropped;
      assert Base() == catalog && Gone() == dropped && dropped - {} == dropped && catalog - {} == catalog;
      FilesOpened(leader.pages, parts, dropping, dropped, shelf, catalog, name, p);
      forall n | n in parts ensures PartState(parts[n], n, catalog - lost, next) { StateOfFewer(parts[n], n, catalog, catalog - lost, next); }
      forall n | n in dropping ensures PartAside(dropping[n], n, catalog - lost) { AsideOf(dropping[n], n, catalog, catalog - lost); }
    }

    lemma Installed()
      requires Installs(parts, roots, shelf, remade)
      ensures Calm() && Here() == Scene(LeaderNow(leader.pages), leader.pages.history, Merge(shelf, Disks(dropping), Disks(parts), {}), Logs(parts))
    {
      hide LeaderLists;
      hide HasFiles;
      hide PartState;
      hide OpenOnce;
      hide PartAside;
      hide Merge;
      hide Disks;
      hide Logs;
    }

    lemma FilesWith(name: Name, p: Pager)
      requires unlinked == {} && name !in dropping
      ensures Merge(shelf - {name}, Disks(dropping), Disks(parts[name := p]), {}) == Files()[name := p.disk]
      ensures Logs(parts[name := p]) == Histories()[name := p.history]
    {
      hide Merge;
      MergeOne(shelf, Disks(dropping), Disks(parts), name, p.disk);
      assert Disks(parts[name := p]) == Disks(parts)[name := p.disk];
    }

    /**
     DropPart: an open handle is set aside, the record goes now, and the file only once
     the transaction that dropped it has landed.
     */
    method Drop(name: Name) returns (ok: bool)
      requires Valid()
      modifies this`parts, this`roots, this`dropping, this`dropped, this`trail, leader, leader.pages
      ensures Went(old(trail), old(Here())) && leader.pages.stable == old(leader.pages.stable)
      ensures ok ==> Beside(old(leader.Contents()), leader.Contents())
      ensures !ok ==> Restorable() && dropped == old(dropped)
      ensures !ok ==> parts.Keys + dropping.Keys == old(parts.Keys + dropping.Keys) && dropping.Keys - catalog.Keys == old(dropping.Keys) - catalog.Keys
      ensures Pagers() <= old(Pagers())
      ensures !ok ==> |name| >= MAX_KEY || leader.pages.maxPages > 0 || Overflows(old(leader.tree), PartKey(name))
      ensures ok ==> Valid() && parts == old(parts) - {name} && roots == old(roots) - {name} && name !in catalog - dropped
      ensures ok ==> dropped == if old(name in parts || name in catalog - dropped) then old(dropped) + {name} else old(dropped)
      ensures ok ==> dropping == WithAside(old(parts), old(dropping), name)
    {
      hide Beside;
      hide Calm;
      hide Standing;
      hide States;
      hide LeaderLists;
      hide Distinct;
      hide AtRest;
      hide Linked;
      hide Recordable;
      hide Recorded;
      hide Went;
      hide Here;
      hide Files;
      hide Overflows;
      CalmFacts();
      ghost var now := catalog - dropped;
      GoneNowhere(Here());
      BesideSelf(leader.Contents());
      if |name| >= MAX_KEY {
        CalmStands();
        return false;
      }
      PartsKept(now);
      var recorded, at := ReadPart(name, now);
      if !recorded && name !in parts {
        assert parts - {name} == parts && roots - {name} == roots;
        return true;
      }
      ok := Strike(name, recorded);
    }

    lemma CalmStands()
      requires Calm()
      ensures Standing()
    {
      hide States;
      hide LeaderLists;
      hide OpenOnce;
      LeaderListsStands(catalog - dropped);
      StatesStanding(catalog - dropped);
    }

    method Strike(name: Name, recorded: bool) returns (ok: bool)
      requires Valid() && |name| < MAX_KEY && recorded == (name in catalog - dropped) && (recorded || name in parts)
      modifies this`parts, this`roots, this`dropping, this`dropped, this`trail, leader, leader.pages
      ensures Went(old(trail), old(Here())) && leader.pages.stable == old(leader.pages.stable)
      ensures ok ==> Beside(old(leader.Contents()), leader.Contents())
      ensures !ok ==> Restorable() && dropped == old(dropped)
      ensures !ok ==> parts.Keys + dropping.Keys == old(parts.Keys + dropping.Keys) && dropping.Keys - catalog.Keys == old(dropping.Keys) - catalog.Keys
      ensures Pagers() <= old(Pagers())
      ensures !ok ==> leader.pages.maxPages > 0 || Overflows(old(leader.tree), PartKey(name))
      ensures ok ==> Valid() && parts == old(parts) - {name} && roots == old(roots) - {name} && dropped == old(dropped) + {name}
      ensures ok ==> dropping == WithAside(old(parts), old(dropping), name)
    {
      hide PartKey;
      hide PartValue;
      hide ReadPosition;
      hide LeaderNow;
      hide Logs;
      hide Valid;
      hide Calm;
      hide Standing;
      hide States;
      hide LeaderLists;
      hide Distinct;
      hide AtRest;
      hide Recorded;
      hide Beside;
      hide Shows;
      hide Steady;
      hide AllSound;
      hide Went;
      hide Here;
      hide Files;
      hide Overflows;
      hide WithAside;
      hide Pagers;
      hide Linked;
      hide Logged;
      ValidIs();
      LoggedHere();
      HereNow();
      ghost var a := Here();
      ghost var seen;
      ok, seen := StrikeOut(name, recorded, a);
      if ok {
        NoteStruck(name, a, seen);
      } else {
        OnlyMore(old(dropping.Keys), dropping.Keys, catalog.Keys, name);
        TellStruck(a, seen);
      }
    }

    /** The trail takes what was seen. */
    ghost method TellStruck(a: Scene, seen: seq<Instant>)
      requires Recorded(trail, a.leader, a.files) && AllSound(seen) && Steady(seen, leader.pages.stable, catalog, remade) && Shows(a, seen, Here())
      modifies this`trail
      ensures trail == old(trail) + seen && Logged() && Went(old(trail), a)
      ensures (old(Calm()) ==> Calm()) && (old(Standing()) ==> Standing())
    {
      hide Calm;
      hide Standing;
      hide Recorded;
      hide AllSound;
      hide Shows;
      hide Steady;
      hide Went;
      hide Here;
      hide Files;
      HereNow();
      TrailGrows(trail, a, seen, Here());
      Tell(a, seen);
    }

    /** The same, and the name is remembered. */
    method NoteStruck(name: Name, ghost a: Scene, ghost seen: seq<Instant>)
      requires Distinct() && roots.Keys == parts.Keys && AtRest() && Linked() && remade == {} && name !in parts
      requires LeaderLists(catalog - dropped - {name}) && States(catalog - dropped - {name})
      requires Recorded(trail, a.leader, a.files) && AllSound(seen) && Steady(seen, leader.pages.stable, catalog, {}) && Shows(a, seen, Here())
      modifies this`dropped, this`trail
      ensures Valid() && dropped == old(dropped) + {name} && Went(old(trail), a)
    {
      hide Valid;
      hide Calm;
      hide Standing;
      hide States;
      hide LeaderLists;
      hide Distinct;
      hide AtRest;
      hide Linked;
      hide Recorded;
      hide AllSound;
      hide Shows;
      hide Steady;
      hide Went;
      hide Here;
      Note(name, Here());
      TellStruck(a, seen);
      ValidAgain();
    }

    lemma OnlyMore(old0: set<Name>, now: set<Name>, recorded: set<Name>, name: Name)
      requires old0 <= now <= old0 + {name} && name in recorded
      ensures now - recorded == old0 - recorded
    {
    }

    /** The handle is set aside and the record goes. */
    method StrikeOut(name: Name, recorded: bool, ghost a: Scene) returns (ok: bool, ghost seen: seq<Instant>)
      requires Calm() && remade == {} && |name| < MAX_KEY && recorded == (name in catalog - dropped) && a == Here()
      modifies this`parts, this`roots, this`dropping, leader, leader.pages
      ensures Distinct() && roots.Keys == parts.Keys && AtRest() && Linked() && leader.pages.stable == old(leader.pages.stable)
      ensures AllSound(seen) && Steady(seen, leader.pages.stable, catalog, {}) && Shows(a, seen, Here())
      ensures parts == old(parts) - {name} && roots == old(roots) - {name} && dropping == WithAside(old(parts), old(dropping), name)
      ensures parts.Keys + dropping.Keys == old(parts.Keys + dropping.Keys) && old(dropping.Keys) <= dropping.Keys <= old(dropping.Keys) + {name}
      ensures Pagers() <= old(Pagers())
      ensures ok ==> LeaderLists(catalog - dropped - {name}) && States(catalog - dropped - {name}) && Beside(old(leader.Contents()), leader.Contents())
      ensures !ok ==> recorded && Standing() && (leader.pages.maxPages > 0 || Overflows(old(leader.tree), PartKey(name)))
    {
      hide PartKey;
      hide PartValue;
      hide PairsOf;
      hide Entries;
      hide KidsEntries;
      hide Beside;
      hide Calm;
      hide Standing;
      hide States;
      hide LeaderLists;
      hide Distinct;
      hide AtRest;
      hide Shows;
      hide Steady;
      hide AllSound;
      hide Seen;
      hide Here;
      hide Files;
      hide Histories;
      hide Overflows;
      hide WithAside;
      hide Pagers;
      ghost var now := catalog - dropped;
      AsideKeys(parts, dropping, name);
      PutAside(name, a);
      ghost var b := Here();
      ShowsNothing(a, b);
      ok, seen := true, [];
      NothingSeen(b);
      HereNow();
      if recorded {
        ok, seen := Unrecord(name);
      } else {
        assert now - {name} == now;
        BesideSelf(leader.Contents());
      }
      SeenIs(b, seen, Here());
      HereNow();
      ShowsChain(a, [], b, seen, Here());
      assert [] + seen == seen;
    }

    /** The name is remembered. */
    method Note(name: Name, ghost a: Scene)
      requires Distinct() && roots.Keys == parts.Keys && AtRest() && Linked() && remade == {} && name !in parts && a == Here()
      requires LeaderLists(catalog - dropped - {name}) && States(catalog - dropped - {name})
      modifies this`dropped
      ensures Calm() && dropped == old(dropped) + {name} && Here() == a
    {
      hide LeaderLists;
      hide HasFiles;
      hide PartState;
      hide PartAside;
      hide OpenOnce;
      hide Here;
      hide Merge;
      hide Disks;
      hide Logs;
      HereNow();
      ghost var next := catalog - dropped - {name};
      NameGone(parts.Keys, dropping.Keys, dropped, shelf, catalog, next, name);
      dropped := dropped + {name};
      assert catalog - dropped == next;
      HereNow();
    }

    /** The open handle is set aside. */
    method PutAside(name: Name, ghost a: Scene)
      requires Calm() && remade == {} && a == Here()
      modifies this`parts, this`roots, this`dropping
      ensures Distinct() && roots.Keys == parts.Keys && States(catalog - dropped - {name}) && AtRest() && LeaderLists(catalog - dropped) && Linked()
      ensures parts == old(parts) - {name} && roots == old(roots) - {name} && dropping == WithAside(old(parts), old(dropping), name)
      ensures Here() == a.(logs := a.logs - {name}) && Pagers() <= old(Pagers())
    {
      hide States;
      hide AtRest;
      hide Distinct;
      hide Linked;
      hide Calm;
      hide LeaderLists;
      hide HasFiles;
      hide PartState;
      hide PartAside;
      hide OpenOnce;
      hide Here;
      hide Merge;
      hide Disks;
      hide Logs;
      HereNow();
      BeforeAside(name);
      ghost var was, aside := parts, dropping;
      Hold(parts - {name}, roots - {name}, WithAside(parts, dropping, name));
      AfterAside(name, was);
      FilesAside(a, name, was, aside);
    }

    method Hold(open: map<Name, Pager>, roots1: map<Name, PageId>, aside: map<Name, Pager>)
      modifies this`parts, this`roots, this`dropping
      ensures parts == open && roots == roots1 && dropping == aside
    {
      parts, roots, dropping := open, roots1, aside;
    }

    lemma BeforeAside(name: Name)
      requires Calm() && remade == {}
      ensures
        var dropping1 := WithAside(parts, dropping, name);
        && OpenOnce(leader.pages, parts - {name}, dropping1, shelf.Keys)
        && HasFiles((parts - {name}).Keys, dropping1.Keys, dropped, shelf, catalog, catalog - dropped - {name})
        && forall n | n in dropping1 :: PartAside(dropping1[n], n, catalog)
      ensures forall n | n in parts && n != name :: PartState(parts[n], n, catalog, catalog - dropped - {name}) && parts[n].flight.None?
      ensures LeaderLists(catalog - dropped) && roots.Keys == parts.Keys && unlinked == {}
    {
      hide LeaderLists;
      hide HasFiles;
      hide PartState;
      hide PartAside;
      hide OpenOnce;
      var now := catalog - dropped;
      assert Base() == catalog && Gone() == dropped;
      FilesStruck(leader.pages, parts, dropping, dropped, shelf, catalog, name);
      forall n | n in parts && n != name ensures PartState(parts[n], n, catalog, now - {name}) && parts[n].flight.None? {
        StateOf(parts[n], n, catalog, now, now - {name});
      }
      if name in parts { StateAside(parts[name], name, catalog, now); }
    }

    lemma AfterAside(name: Name, was: map<Name, Pager>)
      requires remade == {} && unlinked == {} && parts == was - {name} && OpenOnce(leader.pages, parts, dropping, shelf.Keys)
      requires HasFiles(parts.Keys, dropping.Keys, dropped, shelf, catalog, catalog - dropped - {name})
      requires forall n | n in dropping :: PartAside(dropping[n], n, catalog)
      requires forall n | n in was && n != name :: PartState(was[n], n, catalog, catalog - dropped - {name}) && was[n].flight.None?
      ensures Distinct() && States(catalog - dropped - {name}) && AtRest() && Linked()
    {
      hide HasFiles;
      hide PartState;
      hide PartAside;
      hide OpenOnce;
      assert Base() == catalog && Gone() == dropped;
    }

    lemma FilesAside(a: Scene, name: Name, was: map<Name, Pager>, aside: map<Name, Pager>)
      requires a == Scene(LeaderNow(leader.pages), leader.pages.history, Merge(shelf, Disks(aside), Disks(was), {}), Logs(was))
      requires unlinked == {} && parts == was - {name} && dropping == if name in was then aside[name := was[name]] else aside
      ensures Here() == a.(logs := a.logs - {name})
    {
      hide Merge;
      assert Logs(parts) == Logs(was) - {name};
      assert Disks(parts) == Disks(was) - {name};
      if name in was {
        assert Disks(dropping) == Disks(aside)[name := was[name].disk];
        MergeAside(shelf, Disks(aside), Disks(was), name);
      } else {
        assert Disks(was) - {name} == Disks(was);
      }
    }

    /** The leader's tree in hand forgets a partition. */
    method Unrecord(name: Name) returns (ok: bool, ghost seen: seq<Instant>)
      requires Distinct() && roots.Keys == parts.Keys && States(catalog - dropped - {name}) && AtRest() && LeaderLists(catalog - dropped) && Linked()
      requires |name| < MAX_KEY
      modifies leader, leader.pages
      ensures Seen(old(Here()), seen) && Standing() && States(catalog - dropped - {name}) && AtRest() && Files() == old(Files())
      ensures ok ==> LeaderLists(catalog - dropped - {name}) && Beside(old(leader.Contents()), leader.Contents())
      ensures leader.pages.stable == old(leader.pages.stable)
      ensures !ok ==> leader.pages.maxPages > 0 || Overflows(old(leader.tree), PartKey(name))
    {
      hide BTree.Ready;
      hide BTree.Contents;
      hide BTree.Sound;
      hide States;
      hide Distinct;
      hide Beside;
      hide LeaderLists;
      hide LeaderStands;
      hide OpenOnce;
      hide Standing;
      hide HasFiles;
      hide PartState;
      hide PartAside;
      hide Pager.Recoverable;
      hide BTree.Valid;
      hide Lists;
      hide Removed;
      hide Speaks;
      hide AllThere;
      hide AllSound;
      hide Steady;
      hide Shows;
      hide OnlyLeads;
      hide Here;
      hide Histories;
      hide Files;
      hide Overflows;
      DistinctApart();
      ghost var now := catalog - dropped;
      LeaderRests(now);
      StatesThere(now - {name});
      HistoryEnds(leader.pages);
      HereIs();
      ghost var a := Here();
      var out;
      out, seen := DeleteSeen(PartKey(name), a.files);
      RecordGone(old(leader.Contents()), now, name);
      RecordsBeside(old(leader.Contents()), name, []);
      ok := out.Done?;
      StatesStanding(now - {name});
      StandsRecovers();
      if ok { LeaderMoved(now - {name}); }
      OnlyLeader(a);
      LeaderStretch(a);
    }

    // ---- rollback ----

    /** The leader goes back to its last commit, and its tree is opened there. */
    method RollbackLeader()
      requires LeaderStands()
      modifies this`leader, leader.pages
      ensures leader.pages == old(leader.pages) && fresh(leader) && LeaderLists(catalog) && Denotes(leader.pages.stable, leader.Contents())
      ensures leader.pages.disk == old(leader.pages.disk) && leader.pages.stable == old(leader.pages.stable) &&
          leader.pages.history == old(leader.pages.history)
    {
      hide Pager.Recoverable;
      hide Pager.Valid;
      hide Lists;
      hide Preserves;
      hide BTree.Valid;
      hide Entries;
      var done := leader.pages.Rollback();
      assert Unlisted(leader.pages.stable, leader.pages.held);
      ghost var es :| Denotes(leader.pages.stable, es) && Lists(es, catalog);
      ghost var tree: Option<Tree>, h: nat :| Preserves(leader.pages.stable, tree, h) && es == ContentsOf(tree);
      leader := new BTree.New(leader.pages, tree, h);
    }

    /** How far abandonParts has come: what is `left` can still be put back, the rest is back, or is closed. */
    ghost predicate Undoing(all: map<Name, Pager>, left: set<Name>, kept: map<Name, Pager>, roots1: map<Name, PageId>, closed: map<Name, Disk>)
      reads this`catalog, set n | n in all :: all[n]
    {
      && left <= all.Keys && roots1.Keys == kept.Keys && Sifting(all, left, catalog.Keys, kept, closed.Keys)
      && (forall n | n in all && n !in left && n in catalog :: Restored(all[n], n, catalog) && NoPageOne(catalog[n].freed))
      && (forall n | n in roots1 :: n in catalog && roots1[n] == catalog[n].meta.root)
      && (forall n | n in closed :: n in all && closed[n] == all[n].disk)
      && (forall n | n in all && (n in left || n !in catalog) :: PartAside(all[n], n, catalog))
    }

    /** abandonParts: each partition goes back where the leader says it is; what the leader does not know is closed. */
    method AbandonAll(all: map<Name, Pager>) returns (ok: bool, kept: map<Name, Pager>, roots1: map<Name, PageId>, closed: map<Name, Disk>)
      requires LeaderLists(catalog) && AllApart(leader.pages, all) && (forall n | n in all :: PartAside(all[n], n, catalog) && |n| < MAX_KEY)
      requires forall n | n in catalog :: Recordable(PositionOf(catalog[n].meta))
      modifies set n | n in all :: all[n]
      ensures LeaderLists(catalog) && Disks(all) == old(Disks(all)) && Logs(all) == old(Logs(all))
      ensures ok <==> forall n | n in all && n in catalog :: NoPageOne(catalog[n].freed)
      ensures ok ==> Undoing(all, {}, kept, roots1, closed)
    {
      hide LeaderLists;
      hide PartAside;
      hide NoPageOne;
      hide Recordable;
      hide Undoing;
      hide Disks;
      hide Logs;
      var left := all.Keys;
      kept, roots1, closed := map[], map[], map[];
      UndoingStarts(all);
      while left != {}
        invariant left <= all.Keys && LeaderLists(catalog) && Undoing(all, left, kept, roots1, closed)
        invariant Disks(all) == old(Disks(all)) && Logs(all) == old(Logs(all))
        decreases left
      {
        var name :| name in left;
        ok, kept, roots1, closed := AbandonNext(all, left, name, kept, roots1, closed);
        if !ok {
          return;
        }
        left := left - {name};
      }
      ok := true;
      UndoingEnds(all, kept, roots1, closed);
    }

    lemma UndoingStarts(all: map<Name, Pager>)
      requires forall n | n in all :: PartAside(all[n], n, catalog)
      ensures Undoing(all, all.Keys, map[], map[], map[])
    {
      hide PartAside;
      hide Sifting;
      SiftingBegins(all, catalog.Keys);
      var none: map<Name, Disk> := map[];
      assert none.Keys == {};
    }

    lemma UndoingEnds(all: map<Name, Pager>, kept: map<Name, Pager>, roots1: map<Name, PageId>, closed: map<Name, Disk>)
      requires Undoing(all, {}, kept, roots1, closed)
      ensures Sifted(all, catalog.Keys, kept, closed.Keys) && roots1.Keys == kept.Keys
      ensures forall n | n in roots1 :: n in catalog && roots1[n] == catalog[n].meta.root
      ensures forall n | n in kept :: n in all && kept[n] == all[n] && Restored(kept[n], n, catalog)
      ensures forall n | n in all && n !in catalog :: PartAside(all[n], n, catalog)
      ensures forall n | n in closed :: n in all && closed[n] == all[n].disk
      ensures forall n | n in all && n in catalog :: NoPageOne(catalog[n].freed)
    {
      hide PartAside;
      hide Restored;
      hide NoPageOne;
      hide Sifting;
      hide Sifted;
      SiftingEnds(all, catalog.Keys, kept, closed.Keys);
    }

    /** Where one partition belongs is asked of the leader, and there it goes. */
    method AbandonNext(all: map<Name, Pager>, ghost left: set<Name>, name: Name, kept0: map<Name, Pager>, roots0: map<Name,
        PageId>, closed0: map<Name, Disk>)
      returns (ok: bool, kept: map<Name, Pager>, roots1: map<Name, PageId>, closed: map<Name, Disk>)
      requires LeaderLists(catalog) && AllApart(leader.pages, all) && Undoing(all, left, kept0, roots0, closed0) && name in left &&
          name in all && |name| < MAX_KEY
      requires name in catalog ==> Recordable(PositionOf(catalog[name].meta))
      modifies all[name]
      ensures LeaderLists(catalog) && Disks(all) == old(Disks(all)) && Logs(all) == old(Logs(all))
      ensures ok <==> (name in catalog ==> NoPageOne(catalog[name].freed))
      ensures ok ==> Undoing(all, left - {name}, kept, roots1, closed)
    {
      hide LeaderLists;
      hide PartAside;
      hide Restored;
      hide NoPageOne;
      hide Recordable;
      hide Sifting;
      hide Disks;
      hide Logs;
      hide Undoing;
      kept, roots1, closed, ok := kept0, roots0, closed0, true;
      var recorded, at := ReadPart(name, catalog);
      UndoingBut(all, left, kept, roots1, closed, name);
      DisksBut(all, name);
      if recorded {
        ok := AbandonOne(all[name], name, at, catalog);
        if ok { UndoingBack(all, left, kept, roots1, closed, name); }
        kept, roots1 := kept[name := all[name]], roots1[name := at.root];
      } else {
        UndoingClosed(all, left, kept, roots1, closed, name);
        closed := closed[name := all[name].disk];
      }
      DisksBut(all, name);
    }

    lemma UndoingBut(all: map<Name, Pager>, left: set<Name>, kept: map<Name, Pager>, roots1: map<Name, PageId>, closed: map<Name, Disk>, name: Name)
      requires Undoing(all, left, kept, roots1, closed) && name in left
      ensures Undoing(all - {name}, left - {name}, kept, roots1, closed) && left <= all.Keys && PartAside(all[name], name, catalog)
    {
      hide PartAside;
      hide Restored;
      hide NoPageOne;
      hide Sifting;
      SiftingBut(all, left, catalog.Keys, kept, closed.Keys, name);
    }

    lemma UndoingBack(all: map<Name, Pager>, left: set<Name>, kept: map<Name, Pager>, roots1: map<Name, PageId>, closed: map<Name, Disk>, name: Name)
      requires Undoing(all - {name}, left - {name}, kept, roots1, closed) && left <= all.Keys
      requires name in left && name in catalog && Restored(all[name], name, catalog) && NoPageOne(catalog[name].freed)
      ensures Undoing(all, left - {name}, kept[name := all[name]], roots1[name := catalog[name].meta.root], closed)
    {
      hide PartAside;
      hide Restored;
      hide NoPageOne;
      hide Sifting;
      SiftingGoesOn(all, left, catalog.Keys, kept, closed.Keys, name);
    }

    lemma UndoingClosed(all: map<Name, Pager>, left: set<Name>, kept: map<Name, Pager>, roots1: map<Name, PageId>, closed: map<Name, Disk>, name: Name)
      requires Undoing(all - {name}, left - {name}, kept, roots1, closed) && left <= all.Keys
      requires name in left && name !in catalog && PartAside(all[name], name, catalog)
      ensures Undoing(all, left - {name}, kept, roots1, closed[name := all[name].disk])
    {
      hide PartAside;
      hide Restored;
      hide NoPageOne;
      hide Sifting;
      SiftingGoesOn(all, left, catalog.Keys, kept, closed.Keys, name);
      assert closed[name := all[name].disk].Keys == closed.Keys + {name};
    }

    lemma DisksBut(all: map<Name, Pager>, name: Name)
      requires name in all
      ensures Disks(all) == Disks(all - {name})[name := all[name].disk]
      ensures Logs(all) == Logs(all - {name})[name := all[name].history]
    {
    }

    /**
     Rollback: the leader first, then every open partition, those set aside by a drop
     included, is where the committed leader's record puts it, and no file moves. Partitions it
     does not know are closed and their files stay, except that one a drop had set
     aside stays set aside. It is refused only where page 1 is on a recorded list.
     */
    method Rollback() returns (ok: bool)
      requires Restorable() && remade == {}
      modifies this, leader.pages, Pagers()
      ensures catalog == old(catalog) && trail == old(trail) && leader.pages == old(leader.pages) && Files() == old(Files())
      ensures leader.pages.disk == old(leader.pages.disk) && leader.pages.history == old(leader.pages.history)
      ensures ok <==> forall n | n in old(parts.Keys + dropping.Keys) && n in catalog :: NoPageOne(catalog[n].freed)
      ensures ok ==> Valid() && Reverted(old(parts.Keys + dropping.Keys), old(dropping)) && Went(trail, old(Here()))
      ensures fresh(leader) && Pagers() <= old(Pagers())
      ensures leader.pages.stable == old(leader.pages.stable) && Denotes(leader.pages.stable, leader.Contents())
    {
      hide Denotes;
      hide Valid;
      hide Standing;
      hide NoPageOne;
      hide Recorded;
      hide OpenOnce;
      hide HasFiles;
      hide Linked;
      hide LeaderLists;
      hide Undoing;
      hide Went;
      hide Here;
      hide Files;
      hide Reverted;
      var all := parts + dropping;
      AllKeys(all);
      HereNow();
      ghost var a := Here();
      var kept, roots1, closed;
      ok, kept, roots1, closed := Restore(all, a);
      HereNow();
      if ok { Reinstall(all, kept, roots1, closed, a); }
    }

    /** Every open partition has the tree it was recorded with. */
    ghost predicate Home()
      reads this`parts, this`catalog, set n | n in parts :: parts[n]
    {
      forall n | n in parts :: n in catalog && Carries(parts[n], catalog[n].tree)
    }

    /** What is recorded is open where it is recorded, with the tree it had; what is not is no longer open. */
    ghost predicate Reverted(open: set<Name>, aside: map<Name, Pager>)
      reads this`parts, this`roots, this`dropping, this`dropped, this`catalog, set n | n in parts :: parts[n]
    {
      && parts.Keys == open * catalog.Keys && roots.Keys == parts.Keys && dropping == aside - catalog.Keys && dropped == {}
      && Home() && forall n | n in parts :: n in catalog && roots[n] == catalog[n].meta.root
    }

    lemma AllKeys(all: map<Name, Pager>)
      requires all == parts + dropping
      ensures all.Keys == parts.Keys + dropping.Keys && (forall n | n in all :: all[n] in Pagers())
    {
    }

    /** Everything is put back, and what is open is still to be sorted out. */
    method Restore(all: map<Name, Pager>, ghost a: Scene)
      returns (ok: bool, kept: map<Name, Pager>, roots1: map<Name, PageId>, closed: map<Name, Disk>)
      requires Standing() && remade == {} && all == parts + dropping && a == Here() && Logged()
      modifies this`leader, leader.pages, set n | n in all :: all[n]
      ensures leader.pages == old(leader.pages) && fresh(leader) && LeaderLists(catalog) && Denotes(leader.pages.stable, leader.Contents())
      ensures Distinct() && Claimed(map[]) && Linked() && Logged()
      ensures Here() == a.(leader := LeaderNow(leader.pages)) && leader.pages.disk == a.leader.disk && leader.pages.stable == a.leader.stable
      ensures ok <==> forall n | n in all && n in catalog :: NoPageOne(catalog[n].freed)
      ensures ok ==> Undoing(all, {}, kept, roots1, closed)
    {
      hide Standing;
      hide Undoing;
      hide Denotes;
      hide NoPageOne;
      hide Recorded;
      hide LeaderLists;
      hide LeaderStands;
      hide PartAside;
      hide OpenOnce;
      hide HasFiles;
      hide Here;
      hide Files;
      hide Histories;
      hide Disks;
      hide Logs;
      hide Recordable;
      StandingFacts(all);
      AllMerged(all);
      HereNow();
      RollbackLeader();
      ok, kept, roots1, closed := AbandonAll(all);
      AllMerged(all);
      HereNow();
      StillRecorded(trail, a.leader, a.files, LeaderNow(leader.pages));
    }

    /** What is in the files by what is in all that is open, and the histories likewise. */
    lemma AllMerged(all: map<Name, Pager>)
      requires unlinked == {} && all == parts + dropping && parts.Keys !! dropping.Keys
      ensures Files() == shelf + Disks(all) && Histories() == Logs(all) - dropping.Keys
    {
      hide Logs;
      assert Disks(all) == Disks(dropping) + Disks(parts);
      assert shelf + Disks(dropping) + Disks(parts) - {} == shelf + (Disks(dropping) + Disks(parts));
      LogsOf(all);
    }

    lemma LogsOf(all: map<Name, Pager>)
      requires all == parts + dropping && parts.Keys !! dropping.Keys
      ensures Histories() == Logs(all) - dropping.Keys
    {
    }

    lemma StandingFacts(all: map<Name, Pager>)
      requires Standing() && all == parts + dropping && remade == {}
      ensures Distinct() && Claimed(map[]) && LeaderStands() && Linked() && unlinked == {}
      ensures AllApart(leader.pages, all) && (forall n | n in all :: PartAside(all[n], n, catalog) && |n| < MAX_KEY)
      ensures all.Keys == parts.Keys + dropping.Keys && parts.Keys !! dropping.Keys && Pagers() == set n | n in all :: all[n]
      ensures forall n | n in catalog :: Recordable(PositionOf(catalog[n].meta))
    {
      hide LeaderStands;
      hide HasFiles;
      hide OpenOnce;
      hide PartAside;
      hide Recordable;
      AllAside(all);
    }

    /** No file moved, and what is open goes on with the history it had. */
    lemma BackThere(a: Scene, was: map<Name, Pager>)
      requires Here() == Scene(LeaderNow(leader.pages), a.history, a.files, Histories())
      requires a.leader.disk == leader.pages.disk && a.leader.stable == leader.pages.stable && a.logs == Logs(was)
      requires forall n | n in parts && n in was :: parts[n] == was[n]
      ensures Went(trail, a)
    {
      ShowsNothing(a, Here());
      GoneOn(trail, a, []);
    }

    /** What was put back is all a store needs, and no file of it has moved. */
    lemma ReadyToStart(all: map<Name, Pager>, kept: map<Name, Pager>, roots1: map<Name, PageId>, closed: map<Name, Disk>)
      requires Distinct() && Claimed(map[]) && LeaderLists(catalog) && Linked() && remade == {} && Logged()
      requires all == parts + dropping && Undoing(all, {}, kept, roots1, closed)
      ensures Starts(kept, roots1, dropping - kept.Keys, shelf + (closed - dropping.Keys))
      ensures unlinked == {} && kept.Keys == (parts.Keys + dropping.Keys) * catalog.Keys && dropping - kept.Keys == dropping - catalog.Keys
      ensures Merge(shelf + (closed - dropping.Keys), Disks(dropping - kept.Keys), Disks(kept), {}) == Files()
      ensures forall n | n in kept :: n in all && kept[n] == all[n]
      ensures forall n | n in parts && n in kept :: parts[n] == kept[n]
      ensures roots1.Keys == kept.Keys && forall n | n in roots1 :: n in catalog && roots1[n] == catalog[n].meta.root
    {
      hide LeaderLists;
      hide HasFiles;
      hide OpenOnce;
      hide PartAside;
      hide Restored;
      hide Recorded;
      hide Sifted;
      hide Undoing;
      hide Merge;
      hide Disks;
      UndoingEnds(all, kept, roots1, closed);
      assert Base() == catalog && Gone() == dropped;
      NoneTwice();
      OpenKept(leader.pages, parts, dropping, shelf.Keys, catalog, kept, closed);
      FilesKept(parts, dropping, dropped, shelf, catalog, kept, closed);
      FilesSettled(shelf, parts, dropping, catalog.Keys, kept, closed);
      assert dropping - kept.Keys == dropping - catalog.Keys;
      assert (shelf + (closed - dropping.Keys)).Keys == shelf.Keys + (closed - dropping.Keys).Keys;
    }

    method Reinstall(ghost all: map<Name, Pager>, kept: map<Name, Pager>, roots1: map<Name, PageId>, closed: map<Name, Disk>, ghost a: Scene)
      requires Distinct() && Claimed(map[]) && LeaderLists(catalog) && Linked() && remade == {} && Logged()
      requires all == parts + dropping && Undoing(all, {}, kept, roots1, closed)
      requires Here() == a.(leader := LeaderNow(leader.pages)) && leader.pages.disk == a.leader.disk && leader.pages.stable == a.leader.stable
      modifies this`parts, this`roots, this`dropping, this`dropped, this`shelf
      ensures Valid() && Reverted(old(parts.Keys + dropping.Keys), old(dropping)) && Went(trail, a)
      ensures Files() == old(Files()) && Pagers() <= old(Pagers())
    {
      hide Valid;
      hide Distinct;
      hide Claimed;
      hide Linked;
      hide Logged;
      hide LeaderLists;
      hide Undoing;
      hide Starts;
      hide Went;
      hide Merge;
      hide Disks;
      hide Logs;
      hide Here;
      hide Home;
      ReadyToStart(all, kept, roots1, closed);
      HereNow();
      ghost var was := parts;
      StartOver(kept, roots1, dropping - kept.Keys, shelf + (closed - dropping.Keys));
      HereNow();
      BackThere(a, was);
    }

    ghost predicate PutBack(kept: map<Name, Pager>, aside: map<Name, Pager>)
      reads this`catalog, set n | n in kept :: kept[n], set n | n in aside :: aside[n]
    {
      (forall n | n in kept :: Restored(kept[n], n, catalog)) && (forall n | n in aside :: PartAside(aside[n], n, catalog))
    }

    /** What is open, set aside and on the shelf from here on is all a store needs at rest. */
    ghost predicate Starts(kept: map<Name, Pager>, roots1: map<Name, PageId>, aside: map<Name, Pager>, shelf1: map<Name, Disk>)
      reads this`leader, this`catalog, this`trail, leader, leader.pages, set n | n in kept :: kept[n], set n | n in aside :: aside[n]
    {
      && OpenOnce(leader.pages, kept, aside, shelf1.Keys) && HasFiles(kept.Keys, aside.Keys, {}, shelf1, catalog, catalog)
      && LeaderLists(catalog) && roots1.Keys == kept.Keys && PutBack(kept, aside)
      && Recorded(trail, LeaderNow(leader.pages), Merge(shelf1, Disks(aside), Disks(kept), {}))
    }

    method StartOver(kept: map<Name, Pager>, roots1: map<Name, PageId>, aside: map<Name, Pager>, shelf1: map<Name, Disk>)
      requires Starts(kept, roots1, aside, shelf1) && remade == {} && unlinked == {}
      modifies this`parts, this`roots, this`dropping, this`dropped, this`shelf
      ensures Valid() && parts == kept && roots == roots1 && dropping == aside && dropped == {} && shelf == shelf1
      ensures Home()
    {
      hide Pagers;
      hide Valid;
      hide Starts;
      hide Home;
      Hold(kept, roots1, aside);
      dropped, shelf := {}, shelf1;
      Started();
    }

    lemma Started()
      requires Starts(parts, roots, dropping, shelf) && remade == {} && unlinked == {} && dropped == {}
      ensures Valid() && Home()
    {
      hide Pagers;
      hide Valid;
      hide LeaderLists;
      hide HasFiles;
      hide OpenOnce;
      hide PartAside;
      hide Carries;
      hide Adopted;
      hide Restored;
      hide Recorded;
      hide Merge;
      hide Disks;
      assert catalog - remade == catalog && dropped - remade == {};
      forall n | n in parts ensures Adopted(parts[n], n, catalog) && n in catalog && Carries(parts[n], catalog[n].tree) {
        RestoredIs(parts[n], n, catalog);
      }
      forall n | n in dropping ensures PartAside(dropping[n], n, Base()) { }
      RestsAgain();
    }

    lemma NoneTwice()
      requires Distinct()
      ensures parts.Keys !! dropping.Keys && shelf.Keys !! parts.Keys && shelf.Keys !! dropping.Keys
    {
      hide Usable;
    }

    lemma AllAside(all: map<Name, Pager>)
      requires Distinct() && Aside() && Claimed(map[]) && all == parts + dropping &&
          (forall n | n in parts :: PartAside(parts[n], n, Base())) && remade == {}
      ensures AllApart(leader.pages, all) && (forall n | n in all :: PartAside(all[n], n, catalog) && |n| < MAX_KEY)
      ensures all.Keys == parts.Keys + dropping.Keys && parts.Keys !! dropping.Keys && Pagers() == set n | n in all :: all[n]
      ensures forall n | n in catalog :: Recordable(PositionOf(catalog[n].meta))
    {
      hide PartAside;
      hide Intact;
      hide Whole;
      hide Recordable;
      assert Base() == catalog;
    }
  }

  /** Where one partition is during a commit. */
  ghost predicate PartState(p: Pager, n: Name, catalog: Catalog, next: Catalog)
    reads p
  {
    && p.led && p.reserved == 1 && p.held == map[]
    && (n in catalog ==> SameAs(p.stable, catalog[n]))
    && (if p.flight.None? then p.Valid() && Filled(p.Pages(), p.owned) && (n in next ==> SameAs(p.stable, next[n]))
        else p.Flushed() && n in next && next[n] == p.flight.value)
  }

  /** Where all of them are between commits, what is set aside included. */
  ghost predicate InStates(open: map<Name, Pager>, aside: map<Name, Pager>, catalog: Catalog, next: Catalog)
    reads set n | n in open :: open[n], set n | n in aside :: aside[n]
  {
    && (forall n | n in open :: PartState(open[n], n, catalog, next) && open[n].flight.None?)
    && (forall n | n in aside :: PartAside(aside[n], n, catalog))
  }

  lemma StateThere(p: Pager, n: Name, catalog: Catalog, next: Catalog)
    requires PartState(p, n, catalog, next)
    ensures n in catalog ==> Intact(p.disk, catalog[n])
    ensures n in next ==> Intact(p.disk, next[n])
  {
    hide SameAs;
    hide Intact;
    hide Whole;
    hide Book.Balanced;
    hide Book.Shields;
    hide StillRead;
    hide HeldWithin;
    hide Moment.Safe;
    if n in catalog { SameIsThere(p.disk, p.stable, catalog[n]); }
    if n in next && p.flight.None? { SameIsThere(p.disk, p.stable, next[n]); }
  }

  lemma StateOf(p: Pager, n: Name, catalog: Catalog, next: Catalog, next1: Catalog)
    requires PartState(p, n, catalog, next)
    requires (n in next1 <==> n in next) && (n in next ==> next1[n] == next[n])
    ensures PartState(p, n, catalog, next1)
  {
    hide SameAs;
    hide Pager.Valid;
    hide Pager.Flushed;
  }

  /** Between commits nothing of a partition is in flight. */
  lemma StateRests(p: Pager, n: Name, catalog: Catalog, next: Catalog)
    requires PartState(p, n, catalog, next) && p.flight.None?
    ensures p.Valid() && p.led && p.reserved == 1 && p.held == map[] && (n in catalog ==> SameAs(p.stable, catalog[n]))
    ensures Filled(p.Pages(), p.owned)
  {
    hide SameAs;
    hide Pager.Valid;
    hide Pager.Flushed;
  }

  /** Looking after fewer partitions asks less. */
  lemma StateOfFewer(p: Pager, n: Name, catalog: Catalog, fewer: Catalog, next: Catalog)
    requires PartState(p, n, catalog, next) && (n in fewer ==> n in catalog && fewer[n] == catalog[n])
    ensures PartState(p, n, fewer, next)
  {
    hide SameAs;
    hide Pager.Valid;
    hide Pager.Flushed;
  }

  lemma RestsInState(p: Pager, n: Name, catalog: Catalog, next: Catalog)
    requires p.Valid() && p.led && p.reserved == 1 && p.held == map[] && Filled(p.Pages(), p.owned)
    requires (n in catalog ==> SameAs(p.stable, catalog[n])) && (n in next ==> SameAs(p.stable, next[n]))
    ensures p.flight.None? && PartState(p, n, catalog, next)
  {
    hide SameAs;
    hide Pager.Recoverable;
    hide Pager.Booked;
    hide Pager.Flushed;
    hide Book.Dirty;
  }

  lemma RecoverableLed(p: Pager)
    requires p.Recoverable() && p.reserved == 1
    ensures Whole(p.stable, 1)
  {
    hide Whole;
    hide Intact;
    hide StillRead;
    hide HeldWithin;
    hide Moment.Safe;
  }

  lemma FlushedInState(p: Pager, n: Name, catalog: Catalog, next: Catalog)
    requires p.Flushed() && p.reserved == 1 && p.held == map[] && n in next && next[n] == p.flight.value
    requires n in catalog ==> SameAs(p.stable, catalog[n])
    ensures PartState(p, n, catalog, next) && Whole(next[n], 1)
  {
    hide SameAs;
    hide Whole;
    hide Pager.Recoverable;
    hide Book.Balanced;
    hide Book.Shields;
    hide Intact;
  }

  /** A partition after a commit. */
  ghost predicate Adopted(p: Pager, n: Name, next: Catalog)
    reads p
  {
    p.Valid() && Filled(p.Pages(), p.owned) && p.led && p.reserved == 1 && p.held == map[] && (n in next ==> SameAs(p.stable, next[n]))
  }

  lemma AdoptedInState(p: Pager, n: Name, next: Catalog)
    requires Adopted(p, n, next)
    ensures PartState(p, n, next, next) && p.flight.None?
  {
    hide Pager.Valid;
    hide SameAs;
    hide PartState;
    RestsInState(p, n, next, next);
  }

  ghost method AdoptOne(p: Pager, n: Name, catalog: Catalog, next: Catalog)
    requires PartState(p, n, catalog, next)
    modifies p`stable, p`flight
    ensures Adopted(p, n, next)
  {
    hide Pager.Valid;
    hide Pager.Flushed;
    if p.flight.Some? {
      FlushedIsFilled(p);
      p.Adopt();
    }
  }

  lemma FlushedIsFilled(p: Pager)
    requires p.Flushed()
    ensures Filled(p.Pages(), p.owned)
  {
    hide Whole;
    hide Book.Balanced;
    hide Book.Shields;
    hide Pager.Recoverable;
  }

  /** A partition that can be put back where the catalog says. */
  ghost predicate PartAside(p: Pager, n: Name, catalog: Catalog)
    reads p
  {
    SetAside(p) && (n in catalog ==> SameAs(p.stable, catalog[n]))
  }

  lemma StateAside(p: Pager, n: Name, catalog: Catalog, next: Catalog)
    requires PartState(p, n, catalog, next)
    ensures PartAside(p, n, catalog)
  {
    hide SameAs;
    hide Pager.RecoverableFrom;
    hide Book.Sums;
    hide Book.Shields;
    hide Whole;
    hide Intact;
  }

  lemma AsideNow(p: Pager, n: Name, catalog: Catalog)
    requires p.Recoverable() && p.led && p.reserved == 1 && p.held == map[] && p.meta.txid >= 1
    requires n in catalog ==> SameAs(p.stable, catalog[n])
    ensures PartAside(p, n, catalog)
  {
  }

  lemma AsideOf(p: Pager, n: Name, catalog: Catalog, next: Catalog)
    requires PartAside(p, n, catalog) && (n in next ==> n in catalog && next[n] == catalog[n])
    ensures PartAside(p, n, next)
  {
    hide SetAside;
    hide SameAs;
  }

  lemma AsideIs(p: Pager, n: Name, catalog: Catalog)
    requires PartAside(p, n, catalog)
    ensures SetAside(p) && (n in catalog ==> SameAs(p.stable, catalog[n]))
  {
  }
}
