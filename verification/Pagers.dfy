/**
 The pager: who may use which page, and which transactions a crash, a reader or a
 rollback may still come back to.
 */
module Pagers {
  import opened Options
  import opened PageFile
  import opened FreeLists

  /** One instant of a run, seen from outside: the file, and the versions a crash may land on. */
  datatype Moment = Moment(led: bool, disk: Disk, stable: Version, slot: PageId, flight: Option<Version>) {
    /** A led file has no meta page: its leader says which version of it counts. */
    ghost predicate Safe() {
      if led then Intact(disk, stable) && (flight.Some? ==> Intact(disk, flight.value))
      else
        && Guarded(disk, stable, slot, flight) && stable.meta.txid >= 1
        && Whole(stable, 2) && (flight.Some? ==> Whole(flight.value, 2))
    }
  }

  /** `owned` holds the root and everything its pages lead to. */
  ghost predicate Closed(pages: map<PageId, Page>, root: PageId, owned: set<PageId>) {
    && (root == 0 || root in owned)
    && forall id | id in owned :: id in pages && Refs(pages[id]) <= owned
  }

  /** Every page the client holds has been written. */
  ghost predicate Filled(pages: map<PageId, Page>, owned: set<PageId>) { forall id | id in owned :: id in pages }

  function Restrict(pages: map<PageId, Page>, ids: set<PageId>): map<PageId, Page> {
    map id | id in pages && id in ids :: pages[id]
  }

  /** A version that can be reopened: its list is all there and accounts for every page the client did not hold. */
  ghost predicate Whole(v: Version, reserved: int) {
    && reserved <= v.meta.pageCount
    && v.meta.freelist == HeadOf(v.chain)
    && v.list.Keys == IdSet(v.chain)
    && ListAt(v.list, v.chain, v.freed)
    && (forall p: PageId {:trigger Copies(v.chain, p)} {:trigger p in v.tree} ::
          (if p in v.tree then 1 else 0) + Copies(v.chain, p) + Copies(PagesOf(v.freed), p)
          == if reserved <= p < v.meta.pageCount then 1 else 0)
  }

  /** The file went through states in which a crash lands on `v` and on nothing else. */
  ghost predicate OnlyLeads(h0: seq<Moment>, h1: seq<Moment>, v: Version) {
    h0 <= h1 && forall k | |h0| <= k < |h1| :: h1[k].stable == v && h1[k].flight.None?
  }

  lemma OnlyLeadsStart(h: seq<Moment>, v: Version)
    ensures OnlyLeads(h, h, v)
  {
  }

  lemma OnlyLeadsChain(h0: seq<Moment>, h1: seq<Moment>, h2: seq<Moment>, v: Version)
    requires OnlyLeads(h0, h1, v) && OnlyLeads(h1, h2, v)
    ensures OnlyLeads(h0, h2, v)
  {
  }

  lemma OnlyLeadsStep(h0: seq<Moment>, h1: seq<Moment>, v: Version, m: Moment)
    requires OnlyLeads(h0, h1, v) && m.stable == v && m.flight.None?
    ensures OnlyLeads(h0, h1 + [m], v)
  {
  }

  /** A commit seen from outside: a crash lands on `v`, then on `v` or `w`, then on `w`. */
  ghost predicate Lands(h0: seq<Moment>, h1: seq<Moment>, v: Version, w: Version) {
    && h0 <= h1
    && (forall k | |h0| <= k < |h1| ::
          || (h1[k].stable == v && h1[k].flight.None?)
          || (h1[k].stable == v && h1[k].flight == Some(w))
          || (h1[k].stable == w && h1[k].flight.None?))
    && |h0| < |h1| && h1[|h1| - 1].stable == w && h1[|h1| - 1].flight.None?
  }

  lemma LandsAfter(h0: seq<Moment>, h1: seq<Moment>, h2: seq<Moment>, v: Version, w: Version)
    requires OnlyLeads(h0, h1, v) && Lands(h1, h2, v, w)
    ensures Lands(h0, h2, v, w)
  {
  }

  lemma GuardedIsIntact(disk: Disk, v: Version, slot: PageId)
    requires Guarded(disk, v, slot, None)
    ensures Intact(disk, v)
  {
  }

  /** What each held snapshot reads is still what its transaction wrote. */
  ghost predicate StillRead(pages: map<PageId, Page>, held: map<TxId, Version>) {
    forall s, id | s in held && id in held[s].tree :: id in pages && pages[id] == held[s].tree[id]
  }

  lemma StillReadAfterWrite(pages: map<PageId, Page>, held: map<TxId, Version>, id: PageId, page: Page)
    requires StillRead(pages, held)
    ensures StillRead(pages[id := page], held) <==> forall s | s in held :: id in held[s].tree ==> held[s].tree[id] == page
  {
    var now := pages[id := page];
    if StillRead(now, held) {
      forall s | s in held && id in held[s].tree ensures held[s].tree[id] == page { assert now[id] == held[s].tree[id]; }
    }
  }

  lemma FilledOutside(before: map<PageId, Page>, now: map<PageId, Page>, owned: set<PageId>, ids: seq<PageId>)
    requires Filled(before, owned) && SameOutside(before, now, ids) && (forall id | id in ids :: id !in owned)
    ensures Filled(now, owned) && Restrict(now, owned) == Restrict(before, owned)
  {
  }

  lemma WholeAvoidsSlots(v: Version, slot: PageId)
    requires Whole(v, 2) && slot < 2
    ensures slot !in v.tree && slot !in v.list
  {
    CopiesIn(v.chain, slot);
  }

  /** The version a commit of `root` makes out of the pages of the file. */
  ghost function Made(pages: map<PageId, Page>, owned: set<PageId>, meta: Meta, ids: seq<PageId>, freed: seq<Freed>): Version {
    Version(meta, Restrict(pages, owned), Restrict(pages, IdSet(ids)), ids, freed)
  }

  lemma MadeIsRead(pages: map<PageId, Page>, owned: set<PageId>, meta: Meta, ids: seq<PageId>, freed: seq<Freed>)
    ensures
      var v := Made(pages, owned, meta, ids, freed);
      && v.meta == meta && v.chain == ids && v.tree == Restrict(pages, owned)
      && (forall id | id in v.tree :: id in pages && v.tree[id] == pages[id])
      && (forall id | id in v.list :: id in pages && v.list[id] == pages[id])
  {
  }

  lemma MadeIsWhole(b: Book, pages: map<PageId, Page>, owned: set<PageId>, meta: Meta, ids: seq<PageId>)
    requires b.Sums(owned + IdSet(ids)) && b.free.freeing == [] && b.reserved <= b.pageCount
    requires NoDup(ids) && (forall id | id in ids :: id !in owned)
    requires Filled(pages, owned)
    requires ListAt(pages, ids, Listing(b.free))
    requires meta.freelist == HeadOf(ids) && meta.pageCount == b.pageCount
    ensures Whole(Made(pages, owned, meta, ids, Listing(b.free)), b.reserved)
    ensures Made(pages, owned, meta, ids, Listing(b.free)).tree.Keys == owned
    ensures PagesKept(Made(pages, owned, meta, ids, Listing(b.free))) == owned + IdSet(ids)
  {
    var freed := Listing(b.free);
    forall p: PageId
      ensures (if p in owned then 1 else 0) + Copies(ids, p) + Copies(PagesOf(freed), p)
           == if b.reserved <= p < b.pageCount then 1 else 0
    {
      MadeAccounts(b, owned, ids, p);
    }
    hide Listing;
    hide Copies;
    hide Book.Sums;
    RestrictFilled(pages, owned);
    ListAtListed(pages, ids, freed);
    hide ListAt;
    hide NoDup;
    hide Filled;
    hide Restrict;
  }

  lemma RestrictFilled(pages: map<PageId, Page>, owned: set<PageId>)
    requires Filled(pages, owned)
    ensures Restrict(pages, owned).Keys == owned
  {
    forall id | id in owned ensures id in Restrict(pages, owned) {
      assert id in pages;
    }
  }

  lemma ClosedIsFilled(pages: map<PageId, Page>, root: PageId, owned: set<PageId>)
    requires Closed(pages, root, owned)
    ensures Filled(pages, owned)
  {
  }

  lemma RestrictClosed(pages: map<PageId, Page>, root: PageId, owned: set<PageId>)
    requires Closed(pages, root, owned)
    ensures Restrict(pages, owned).Keys == owned
    ensures Closed(Restrict(pages, owned), root, owned)
  {
    forall id | id in owned ensures id in Restrict(pages, owned) {
      assert id in pages;
    }
  }

  lemma MadeAccounts(b: Book, owned: set<PageId>, ids: seq<PageId>, p: PageId)
    requires b.Sums(owned + IdSet(ids)) && b.free.freeing == []
    requires NoDup(ids) && (forall id | id in ids :: id !in owned)
    ensures (if p in owned then 1 else 0) + Copies(ids, p) + Copies(PagesOf(Listing(b.free)), p)
         == if b.reserved <= p < b.pageCount then 1 else 0
  {
    ListingPages(b.free, p);
    CopiesIn(ids, p);
    assert Copies(b.free.freeing, p) == 0;
    hide Listing;
    hide Copies;
    hide Waiting;
    assert p in owned + IdSet(ids) <==> p in owned || p in ids;
  }

  lemma ListAtListed(pages: map<PageId, Page>, ids: seq<PageId>, freed: seq<Freed>)
    requires ListAt(pages, ids, freed)
    ensures ListAt(Restrict(pages, IdSet(ids)), ids, freed)
    ensures Restrict(pages, IdSet(ids)).Keys == IdSet(ids)
  {
    forall id | id in ids ensures id in pages {
      var i :| 0 <= i < |ids| && ids[i] == id;
    }
  }

  /** Snapshots are counted, were taken at transactions that happened, and read pages the file still has. */
  ghost predicate HeldWithin(held: map<TxId, Version>, readers: map<TxId, int>, meta: Meta, reserved: int) {
    && held.Keys == readers.Keys
    && (forall s | s in readers :: readers[s] >= 1 && 1 <= s <= meta.txid)
    && (forall s, id | s in held && id in held[s].tree :: reserved <= id < meta.pageCount)
  }

  lemma HeldWithinGrows(held: map<TxId, Version>, readers: map<TxId, int>, meta: Meta, next: Meta, reserved: int)
    requires HeldWithin(held, readers, meta, reserved)
    requires meta.txid <= next.txid && meta.pageCount <= next.pageCount
    ensures HeldWithin(held, readers, next, reserved)
  {
  }

  /** What opening a file at a version, or rolling back to it, leaves in the books. */
  ghost function Reread(v: Version, reserved: int): Book {
    Book(reserved, v.meta.pageCount, v.meta.pageCount, v.meta.txid, {}, EMPTY.(ready := PagesOf(v.freed), chain := v.chain))
  }

  lemma RereadBalances(v: Version, reserved: int)
    requires Whole(v, reserved) && reserved >= 1 && v.meta.txid >= 1
    ensures Reread(v, reserved).Balanced(PagesKept(v))
    ensures forall id | id in v.chain :: id !in v.tree
    ensures PagesKept(v) == v.tree.Keys + IdSet(v.chain)
  {
    var b := Reread(v, reserved);
    forall p: PageId
      ensures p in PagesKept(v) <==> p in v.tree || p in v.chain
      ensures (if p in PagesKept(v) then 1 else 0) + Copies(b.free.ready, p) + Copies(b.free.freeing, p) + Waiting(b.free.pending, p)
           == if reserved <= p < b.pageCount then 1 else 0
      ensures p in v.chain ==> p !in v.tree
    {
      CopiesIn(v.chain, p);
    }
  }

  /** A version read back shields itself; it shields a held snapshot exactly when no page of it is on the list. */
  lemma RereadShields(v: Version, held: map<TxId, Version>, readers: map<TxId, int>, reserved: int)
    requires Whole(v, reserved) && reserved >= 1 && v.meta.txid >= 1 && HeldWithin(held, readers, v.meta, reserved)
    ensures Reread(v, reserved).Shields(PagesKept(v), TreesHeld(held)) <==> Unlisted(v, held)
  {
    var b := Reread(v, reserved);
    forall p | p in PagesKept(v) ensures b.Apart(p, b.txid) {
      CopiesIn(v.chain, p);
      CopiesIn(b.free.ready, p);
      assert Copies(v.chain, p) + Copies(PagesOf(v.freed), p) <= 1;
    }
    hide Copies;
    forall s, id | s in held && id in held[s].tree
      ensures b.Apart(id, s) <==> id !in b.free.ready
    {
    }
    if Unlisted(v, held) {
      forall s, p | s in TreesHeld(held) && p in TreesHeld(held)[s] ensures b.Apart(p, s) { assert s in held; }
    } else {
      var s, id :| s in held && id in held[s].tree && id in PagesOf(v.freed);
      assert s in TreesHeld(held) && id in TreesHeld(held)[s];
    }
  }

  lemma WholeIsReadable(disk: Disk, v: Version, reserved: int)
    requires Whole(v, reserved) && Intact(disk, v) && reserved >= 1
    ensures Readable(PagesIn(disk.View()), v.meta.freelist, v.chain, v.freed, reserved, v.meta.pageCount)
  {
    var pages := PagesIn(disk.View());
    assert forall id | id in v.list :: id in pages && pages[id] == v.list[id];
    ListAtMore(v.list, pages, v.chain, v.freed);
    WholeRanges(v, reserved);
    hide ListAt;
    hide NoDup;
  }

  lemma WholeRanges(v: Version, reserved: int)
    requires Whole(v, reserved)
    ensures NoDup(v.chain)
    ensures forall id | id in v.chain :: reserved <= id < v.meta.pageCount
    ensures forall r | r in v.freed :: reserved <= r.page < v.meta.pageCount
    ensures forall id | id in v.tree :: reserved <= id < v.meta.pageCount
  {
    hide ListAt;
    forall id | id in v.chain ensures reserved <= id < v.meta.pageCount { CopiesIn(v.chain, id); }
    forall r | r in v.freed ensures reserved <= r.page < v.meta.pageCount {
      var i :| 0 <= i < |v.freed| && v.freed[i] == r;
      assert PagesOf(v.freed)[i] == r.page;
      CopiesIn(PagesOf(v.freed), r.page);
      assert Copies(v.chain, r.page) >= 0;
    }
  }

  const FRESH: Version := Version(Meta(1, 0, 0, 2, false), map[], map[], [], [])

  lemma FreshIsWhole()
    ensures Whole(FRESH, 2)
  {
  }

  /** A crash image that still holds the version its meta describes is a file to start from. */
  lemma OpensGuarded(image: map<PageId, Cell>, v: Version)
    requires LoadMeta(image).Some? && LoadMeta(image).value.meta == v.meta && Held(image, v) && NoPageInSlots(image) && Whole(v, 2)
    ensures Intact(Disk(image, map[]), v)
    ensures Guarded(Disk(image, map[]), v, LoadMeta(image).value.nextMeta, None)
  {
    hide Copies;
    hide ListAt;
    var disk, slot := Disk(image, map[]), LoadMeta(image).value.nextMeta;
    forall id | id in v.tree ensures id in image && image[id] == PageCell(v.tree[id]) {
      assert ReadPage(image, id) == Some(v.tree[id]);
    }
    forall id | id in v.list ensures id in image && image[id] == PageCell(v.list[id]) {
      assert ReadPage(image, id) == Some(v.list[id]);
    }
  }

  lemma GuardedLoads(disk: Disk, v: Version, slot: PageId)
    requires Guarded(disk, v, slot, None)
    ensures
      var l := LoadMeta(disk.View());
      l.Some? && l.value.meta == v.meta && Guarded(disk, v, l.value.nextMeta, None)
  {
    assert ReadMeta(disk.View(), 0) == ReadMeta(disk.durable, 0) && ReadMeta(disk.View(), 1) == ReadMeta(disk.durable, 1);
  }

  /** Page 1 is not on the list. */
  ghost predicate NoPageOne(freed: seq<Freed>) { forall r | r in freed :: r.page >= 2 }

  lemma ReadyIsFreed(freed: seq<Freed>)
    requires forall p | p in PagesOf(freed) :: p >= 2
    ensures NoPageOne(freed)
  {
    forall r | r in freed ensures r.page >= 2 {
      var i :| 0 <= i < |freed| && freed[i] == r;
      assert PagesOf(freed)[i] in PagesOf(freed);
    }
  }

  /** In a file with two meta pages it never is. */
  lemma WholeHasNoPageOne(v: Version)
    requires Whole(v, 2)
    ensures NoPageOne(v.freed)
  {
    WholeRanges(v, 2);
    hide Whole;
  }

  /** No page a held snapshot reads is on the free list of `v`. */
  ghost predicate Unlisted(v: Version, held: map<TxId, Version>) {
    forall s, id | s in held && id in held[s].tree :: id !in PagesOf(v.freed)
  }

  ghost function PagesKept(v: Version): set<PageId> { v.tree.Keys + v.list.Keys }

  ghost function TreesHeld(held: map<TxId, Version>): map<TxId, set<PageId>> {
    map s | s in held :: held[s].tree.Keys
  }

  /** Pinning the last committed transaction: its pages are already shielded, so the snapshot is. */
  lemma SnapshotShields(b: Book, v: Version, held: map<TxId, Version>)
    requires b.Shields(PagesKept(v), TreesHeld(held)) && b.txid >= 1
    ensures b.Shields(PagesKept(v), TreesHeld(held[b.txid := v]))
  {
    var more := TreesHeld(held[b.txid := v]);
    forall s | s in more ensures 1 <= s <= b.txid { assert s == b.txid || s in TreesHeld(held); }
    forall s, p | s in more && p in more[s] ensures b.Apart(p, s) {
      if s == b.txid {
        assert p in PagesKept(v);
      } else {
        assert s in TreesHeld(held) && p in TreesHeld(held)[s];
      }
    }
  }

  lemma SnapshotReads(disk: Disk, v: Version, held: map<TxId, Version>, txid: TxId)
    requires Intact(disk, v) && StillRead(PagesIn(disk.View()), held)
    ensures StillRead(PagesIn(disk.View()), held[txid := v])
  {
  }

  lemma SnapshotWithin(held: map<TxId, Version>, readers: map<TxId, int>, v: Version, reserved: int, n: int)
    requires HeldWithin(held, readers, v.meta, reserved) && Whole(v, reserved) && v.meta.txid >= 1
    requires n == (if v.meta.txid in readers then readers[v.meta.txid] else 0) + 1
    ensures HeldWithin(held[v.meta.txid := v], readers[v.meta.txid := n], v.meta, reserved)
  {
    hide Copies;
    hide ListAt;
  }

  /** Letting go only takes obligations away. */
  lemma ReleaseKeeps(b: Book, kept: set<PageId>, pages: map<PageId, Page>, held: map<TxId, Version>,
                     readers: map<TxId, int>, meta: Meta, reserved: int, txid: TxId)
    requires b.Shields(kept, TreesHeld(held)) && StillRead(pages, held) && HeldWithin(held, readers, meta, reserved)
    ensures b.Shields(kept, TreesHeld(held - {txid})) && StillRead(pages, held - {txid})
    ensures HeldWithin(held - {txid}, readers - {txid}, meta, reserved)
  {
    var fewer := TreesHeld(held - {txid});
    forall s | s in fewer ensures 1 <= s <= b.txid { assert s in TreesHeld(held); }
    forall s, p | s in fewer && p in fewer[s] ensures b.Apart(p, s) {
      assert s in TreesHeld(held) && p in TreesHeld(held)[s];
    }
  }

  /** Everything a leader remembers about one led file. */
  datatype Position = Position(root: PageId, freelist: PageId, pageCount: nat)

  function PositionOf(meta: Meta): Position { Position(meta.root, meta.freelist, meta.pageCount) }

  function AtLeastOne(n: nat): nat { if n < 1 then 1 else n }

  const FRESH_LED: Version := Version(Meta(1, 0, 0, 1, false), map[], map[], [], [])

  lemma FreshLedIsWhole()
    ensures Whole(FRESH_LED, 1)
  {
  }

  lemma SyncKeepsIntact(disk: Disk, v: Version)
    requires Intact(disk, v)
    ensures Intact(disk.Sync(), v)
  {
  }

  /** A led file after a crash: whatever its leader recorded is still there. */
  lemma LedCrashHolds(disk: Disk, v: Version, image: map<PageId, Cell>)
    requires Intact(disk, v) && Scrambled(disk, image)
    ensures Held(image, v)
  {
  }

  /** The same place and contents; the number a led file gives its transaction is not recorded anywhere. */
  ghost function Renumbered(v: Version, now: Meta): Version {
    v.(meta := now.(root := v.meta.root, freelist := v.meta.freelist, pageCount := v.meta.pageCount))
  }

  lemma RenumberedReads(disk: Disk, v: Version, now: Meta, reserved: int)
    requires Whole(v, reserved) && Intact(disk, v) && reserved >= 1
    ensures Whole(Renumbered(v, now), reserved) && Intact(disk, Renumbered(v, now))
    ensures Readable(PagesIn(disk.View()), v.meta.freelist, v.chain, v.freed, reserved, v.meta.pageCount)
    ensures reserved <= v.meta.pageCount
  {
    WholeIsReadable(disk, v, reserved);
    hide Copies;
    hide ListAt;
    hide Closed;
    hide Readable;
    hide PagesIn;
  }

  class Pager {
    const maxPages: nat
    const reserved: int
    const led: bool

    var disk: Disk
    var meta: Meta
    var nextMeta: PageId
    var committed: int
    var taken: set<PageId>
    var free: Freelist
    var readers: map<TxId, int>

    /** What the client holds: the pages it was handed and has not freed. */
    ghost var owned: set<PageId>
    /** The last acknowledged transaction. */
    ghost var stable: Version
    /** What each held snapshot reads. */
    ghost var held: map<TxId, Version>
    /** Every state the file has been in. */
    ghost var history: seq<Moment>
    /** What a led file has made durable and its leader has not recorded yet. */
    ghost var flight: Option<Version>

    ghost function Books(): Book
      reads this`meta, this`committed, this`taken, this`free
    {
      Book(reserved, meta.pageCount, committed, meta.txid, taken, free)
    }

    ghost function Pages(): map<PageId, Page>
      reads this`disk
    {
      PagesIn(disk.View())
    }

    ghost function Used(): set<PageId>
      reads this`owned, this`free
    {
      owned + IdSet(free.chain)
    }

    /** The bookkeeping half of the invariant, with `used` the pages somebody has a use for. */
    ghost predicate Booked(used: set<PageId>)
      reads this`meta, this`committed, this`taken, this`free, this`stable, this`held, this`readers
    {
      && Books().Balanced(used)
      && Books().Shields(PagesKept(stable), TreesHeld(held))
      && held.Keys == readers.Keys && (forall s | s in readers :: s >= 1)
    }

    /** The file half: a crash now recovers `stable`. This survives even an operation that failed. */
    ghost predicate Recoverable()
      reads this`disk, this`stable, this`nextMeta, this`held, this`readers, this`history
    {
      RecoverableFrom(nextMeta)
    }

    /** `slot` is where the next commit would write its meta page. */
    ghost predicate RecoverableFrom(slot: PageId)
      reads this`disk, this`stable, this`held, this`readers, this`history
    {
      && Whole(stable, reserved) && reserved >= 1 && stable.meta.txid >= 1
      && HeldWithin(held, readers, stable.meta, reserved)
      && Intact(disk, stable)
      && (!led ==> reserved == 2 && Guarded(disk, stable, slot, None))
      && StillRead(Pages(), held)
      && (forall m | m in history :: m.led == led && m.Safe())
      && history != [] && history[|history| - 1].disk == disk
    }

    /** The transaction in progress started from `stable`. */
    ghost predicate Current()
      reads this`meta, this`committed, this`taken, this`free, this`stable, this`owned, this`flight
    {
      && flight.None?
      && meta == stable.meta.(pageCount := meta.pageCount)
      && committed == stable.meta.pageCount
      && free.chain == stable.chain
      && (forall id | id in free.chain :: id !in owned)
      && (forall t | t in free.pending :: t <= meta.txid)
      && (forall id | id in owned && !Books().Dirty(id) :: id in stable.tree)
      && (forall id | id in free.freeing :: id in stable.tree)
    }

    ghost predicate Valid()
      reads this
    {
      Recoverable() && Booked(Used()) && Current()
    }

    /** A new file: both meta slots say the same empty transaction. */
    constructor Create(maxPages: nat)
      ensures Valid() && !led && owned == {} && held == map[] && stable == FRESH
      ensures history == [Moment(false, disk, FRESH, nextMeta, None)]
      ensures this.maxPages == maxPages && meta == FRESH.meta
    {
      this.maxPages, reserved, led := maxPages, 2, false;
      var first := FRESH.meta;
      disk := Disk(map[0 := MetaCell(first), 1 := MetaCell(first)], map[]);
      meta, nextMeta, committed := first, 0, first.pageCount;
      taken, free, readers := {}, EMPTY, map[];
      owned, stable, held, flight := {}, FRESH, map[], None;
      history := [Moment(false, disk, FRESH, nextMeta, None)];
      new;
      FreshIsWhole();
      RereadBalances(FRESH, 2);
      assert Books() == Reread(FRESH, 2);
      assert Used() == PagesKept(FRESH);
    }

    /** Opens an existing database at the newer of its two meta pages. `v` is the version that meta describes. */
    constructor Open(image: map<PageId, Cell>, maxPages: nat, ghost v: Version)
      requires LoadMeta(image).Some? && LoadMeta(image).value.meta == v.meta
      requires Held(image, v) && NoPageInSlots(image) && Whole(v, 2) && v.meta.txid >= 1
      ensures Valid() && !led && stable == v && owned == v.tree.Keys && held == map[]
      ensures history == [Moment(false, disk, v, nextMeta, None)]
      ensures disk == Disk(image, map[]) && this.maxPages == maxPages
      ensures Books() == Reread(v, 2)
    {
      hide Copies;
      hide ListAt;
      hide Whole;
      hide Guarded;
      hide Intact;
      hide Held;
      hide NoPageInSlots;
      hide Book.Balanced;
      hide Book.Shields;
      hide Readable;
      hide PagesIn;
      this.maxPages, reserved, led := maxPages, 2, false;
      disk := Disk(image, map[]);
      var loaded := LoadMeta(image).value;
      meta, nextMeta, committed := loaded.meta, loaded.nextMeta, loaded.meta.pageCount;
      taken, free, readers := {}, EMPTY, map[];
      owned, stable, held, flight := v.tree.Keys, v, map[], None;
      history := [Moment(false, disk, v, nextMeta, None)];
      new;
      OpensGuarded(image, v);
      RereadBalances(v, 2);
      RereadShields(v, held, readers, 2);
      WholeIsReadable(disk, v, 2);
      WholeHasNoPageOne(v);
      hide LoadMeta;
      hide PagesKept;
      var ok := ReadFreelist(meta.freelist, v.chain, v.freed);
      assert Books() == Reread(v, 2);
      assert Used() == PagesKept(v);
    }

    /** Dirty: this transaction took the page, so no version anyone may read has it. */
    predicate Dirty(id: PageId)
      reads this
    {
      id >= committed || id in taken
    }

    /** Whether the client holds a page: it is counted, and it is nowhere on the free list. */
    predicate Holds(id: PageId)
      reads this
    {
      && reserved <= id < meta.pageCount && id !in free.chain && id !in free.ready && id !in free.freeing
      && forall t | t in free.pending :: id !in free.pending[t]
    }

    lemma HoldsOwned(id: PageId)
      requires Valid()
      ensures Holds(id) <==> id in owned
    {
      hide Recoverable;
      hide Book.Shields;
      CopiesIn(free.ready, id);
      CopiesIn(free.freeing, id);
      WaitingIn(free.pending, id);
      hide Copies;
      hide Waiting;
      assert id in Used() <==> id in owned || id in free.chain;
    }

    method Read(id: PageId) returns (page: Option<Page>)
      ensures page == if id < meta.pageCount && id in Pages() then Some(Pages()[id]) else None
    {
      if id >= meta.pageCount {
        return None;
      }
      page := ReadPage(disk.View(), id);
    }

    /** oldestHeld: the smallest transaction number among the held snapshots, zero without any. */
    method OldestHeld() returns (oldest: TxId)
      requires 0 !in readers
      ensures IsOldest(oldest, readers.Keys)
    {
      oldest := 0;
      var left := readers.Keys;
      while left != {}
        invariant left <= readers.Keys
        invariant oldest == 0 ==> left == readers.Keys
        invariant oldest != 0 ==> oldest in readers
        invariant forall s | s in readers && s !in left :: oldest <= s
        decreases left
      {
        var s :| s in left;
        if oldest == 0 || s < oldest {
          oldest := s;
        }
        left := left - {s};
      }
    }

    /** promote: what transactions older than every reader freed becomes ready, and nothing else moves. */
    method Promote() returns (ghost oldest: TxId)
      requires 0 !in readers
      modifies this`free
      ensures IsOldest(oldest, readers.Keys)
      ensures Books() == PromotedAll(old(Books()), Ascending(old(free.pending).Keys), oldest)
      ensures forall t :: t in free.pending <==> t in old(free.pending) && (t > meta.txid || exists s :: s in readers && s < t)
      ensures forall p :: p in free.ready <==>
        p in old(free.ready) || exists t :: t in old(free.pending) && t !in free.pending && p in old(free.pending)[t]
    {
      hide PromotedAll;
      hide Ascending;
      hide Rising;
      var at := OldestHeld();
      oldest := at;
      ghost var before := Books();
      PromotedExactly(before, oldest, readers.Keys);
      PromotedNone(before, oldest);
      if free.pending == map[] {
        assert free.pending.Keys == {};
        return;
      }
      var transactions := Ascending(free.pending.Keys);
      AscendingSorts(free.pending.Keys);
      ghost var now := before;
      assert transactions[..0] == [];
      var i := 0;
      while i < |transactions|
        invariant 0 <= i <= |transactions|
        invariant now == PromotedAll(before, transactions[..i], oldest)
        invariant now.txid == meta.txid && now.free == free && now.WithFree(before.free) == before
      {
        var t := transactions[i];
        PromotedNext(before, transactions, i, oldest);
        if t <= meta.txid && (at == 0 || at >= t) {
          free := Promoted(free, t);
          now := now.WithFree(free);
        }
        i := i + 1;
      }
      assert transactions[..i] == transactions;
    }

    /** The body of Allocate, which commit also uses. */
    method Take() returns (r: Option<PageId>, ghost oldest: TxId)
      requires 0 !in readers
      modifies this`meta, this`taken, this`free
      ensures IsOldest(oldest, readers.Keys)
      ensures (r, Books()) == Allotted(old(Books()), oldest, maxPages)
      ensures meta == old(meta).(pageCount := meta.pageCount)
    {
      oldest := Promote();
      ghost var p := Books();
      var last := |free.ready| - 1;
      if last >= 0 {
        var id := free.ready[last];
        free := free.(ready := free.ready[..last], seen := free.seen - {id});
        taken := taken + {id};
        assert Books() == TakenReady(p);
        return Some(id), oldest;
      }
      if maxPages > 0 && meta.pageCount >= maxPages {
        return None, oldest;
      }
      var id := meta.pageCount;
      meta := meta.(pageCount := meta.pageCount + 1);
      taken := taken + {id};
      assert Books() == Grown(p);
      return Some(id), oldest;
    }

    /** What every allocation promises, to the client and to commit: the page was in use by nobody. */
    method TakeFor(ghost used: set<PageId>) returns (r: Option<PageId>)
      requires Booked(used)
      modifies this`meta, this`taken, this`free
      ensures meta == old(meta).(pageCount := meta.pageCount)
      ensures free.freeing == old(free).freeing && free.chain == old(free).chain
      ensures forall t | t in free.pending :: t in old(free).pending
      ensures forall t | t in old(free).pending && t > meta.txid :: t in free.pending && free.pending[t] == old(free).pending[t]
      ensures meta.pageCount <= old(meta).pageCount + 1
      ensures Count(old(free)) - 1 <= Count(free) <= Count(old(free))
      ensures r.None? ==> Booked(used) && taken == old(taken) && meta == old(meta)
      ensures r.None? ==> AtQuota()
      ensures r.None? ==> Spent(Books(), used, readers.Keys)
      ensures r.Some? && meta.pageCount > old(meta).pageCount ==> Spent(Books(), used + {r.value}, readers.Keys)
      ensures r.Some? ==>
        && r.value !in used && Booked(used + {r.value})
        && reserved <= r.value < meta.pageCount
        && taken == old(taken) + {r.value}
        && r.value !in PagesKept(stable) && (forall s | s in held :: r.value !in held[s].tree)
    {
      hide Allotted;
      hide Book.Balanced;
      hide Book.Shields;
      hide PagesKept;
      hide Count;
      ghost var before, trees := Books(), TreesHeld(held);
      assert trees.Keys == held.Keys;
      ghost var oldest;
      r, oldest := Take();
      AllottedKeeps(before, used, PagesKept(stable), trees, oldest, maxPages);
      AllottedFrame(before, oldest, maxPages);
      AllottedCount(before, oldest, maxPages);
      AllottedSpends(before, used, oldest, readers.Keys, maxPages);
    }

    /**
     Allocate: a page nobody holds and no version anyone may read has, or none at the quota.
     The file grows only when every page of it is in use, or freed by this transaction,
     or freed by one that is later than some held snapshot.
     */
    method Allocate() returns (r: Option<PageId>)
      requires Valid()
      modifies this`meta, this`taken, this`free, this`owned
      ensures Valid() && meta.pageCount <= old(meta).pageCount + 1
      ensures r.None? ==> owned == old(owned) && taken == old(taken) && meta == old(meta)
      ensures r.None? ==> AtQuota()
      ensures r.None? || meta.pageCount > old(meta).pageCount ==>
        && (forall t | t in free.pending :: t > meta.txid || exists s :: s in readers && s < t)
        && (forall p | reserved <= p < meta.pageCount && p !in Used() ::
              p in free.freeing || exists t :: t in free.pending && p in free.pending[t] && (t > meta.txid || exists s :: s in readers && s < t))
      ensures r.Some? ==>
        && r.value !in old(owned) && owned == old(owned) + {r.value}
        && reserved <= r.value < meta.pageCount
        && taken == old(taken) + {r.value}
        && r.value !in PagesKept(stable) && (forall s | s in held :: r.value !in held[s].tree)
    {
      hide Booked;
      hide Recoverable;
      hide PagesKept;
      hide Count;
      ghost var used := Used();
      r := TakeFor(used);
      if r.Some? {
        owned := owned + {r.value};
        assert Used() == used + {r.value};
      }
      if r.None? || meta.pageCount > old(meta).pageCount {
        assert Spent(Books(), Used(), readers.Keys);
        assert forall t: TxId :: Concerns(t, meta.txid, readers.Keys) <==> t > meta.txid || exists s :: s in readers && s < t;
      }
    }

    /**
     Free: the page leaves the client and waits among the freed. A reserved page, or
     one already freed, it ignores. The source takes any other number as well; the
     books stay in order exactly when the client held the page.
     */
    method Free(id: PageId)
      requires Valid()
      modifies this`free, this`owned
      ensures Valid() <==> id in old(owned) || id < reserved || id in old(free.seen)
      ensures owned == old(owned) - {id}
      ensures Books() == Freeing(old(Books()), id)
    {
      hide Book.Balanced;
      hide Book.Shields;
      hide Recoverable;
      hide PagesKept;
      hide TreesHeld;
      ghost var before, used := Books(), Used();
      if id in owned {
        FreeBalances(Books(), Used(), id);
        FreeShields(Books(), PagesKept(stable), TreesHeld(held), id);
      } else if id < reserved || id in free.seen {
        FreedTwice(id);
      } else {
        FreedUnheld(id);
      }
      Discard(id);
      assert id in owned ==> owned - {id} + IdSet(free.chain) == used - {id};
      assert id !in owned ==> owned - {id} == owned;
      owned := owned - {id};
    }

    lemma FreedUnheld(id: PageId)
      requires Valid() && id !in owned && id >= reserved && id !in free.seen
      ensures !Freeing(Books(), id).Balanced(Used())
    {
      hide Recoverable;
      hide Book.Shields;
      hide Book.Ranges;
      FreeBreaks(Books(), Used(), id);
      hide Freeing;
      hide Book.Sums;
    }

    lemma FreedTwice(id: PageId)
      requires id < reserved || id in free.seen
      ensures Freeing(Books(), id) == Books()
    {
    }

    /** The body of Free, which commit also uses on the pages of the last list. */
    method Discard(id: PageId)
      modifies this`free
      ensures Books() == Freeing(old(Books()), id)
    {
      if id < reserved || id in free.seen {
        return;
      }
      free := free.(seen := free.seen + {id});
      if Dirty(id) {
        free := free.(ready := free.ready + [id]);
        return;
      }
      free := free.(freeing := free.freeing + [id]);
    }

    /** Nothing a crash would fall back to, and nothing a snapshot reads differently, is at this page. */
    ghost predicate Spared(id: PageId, page: Page)
      reads this`stable, this`held
    {
      id !in PagesKept(stable) && forall s | s in held :: id in held[s].tree ==> held[s].tree[id] == page
    }

    /** Puts a cell in the file. A crash still recovers, and the snapshots still read, exactly when the page is spared. */
    method PutPage(id: PageId, page: Page)
      requires Recoverable() && id >= reserved
      modifies this`disk, this`history
      ensures Recoverable() <==> Spared(id, page)
      ensures disk == old(disk).WriteAt(id, PageCell(page))
      ensures Pages() == old(Pages())[id := page]
      ensures history == old(history) + [Moment(led, disk, stable, nextMeta, None)]
    {
      hide Whole;
      hide Intact;
      hide Guarded;
      hide StillRead;
      hide HeldWithin;
      hide PagesIn;
      WriteIntactExactly(disk, stable, id, PageCell(page));
      if !led && id !in PagesKept(stable) { WriteKeepsGuarded(disk, stable, nextMeta, id, PageCell(page)); }
      PagesAfterWrite(disk, id, page);
      StillReadAfterWrite(Pages(), held, id, page);
      disk := disk.WriteAt(id, PageCell(page));
      history := history + [Moment(led, disk, stable, nextMeta, None)];
    }

    /**
     Write: one cell of the file changes and no version does. The source takes any page
     past the reserved ones; that is sound exactly when the page is spared, and a page
     Dirty reports always is.
     */
    method Write(id: PageId, page: Page) returns (ok: bool)
      requires Valid()
      modifies this`disk, this`history
      ensures ok <==> id >= reserved
      ensures !ok ==> disk == old(disk) && history == old(history)
      ensures ok ==> disk == old(disk).WriteAt(id, PageCell(page)) && Pages() == old(Pages())[id := page]
      ensures ok ==> history == old(history) + [Moment(led, disk, stable, nextMeta, None)]
      ensures Valid() <==> !ok || Spared(id, page)
      ensures Dirty(id) ==> Valid() && OnlyLeads(old(history), history, stable)
    {
      hide OnlyLeads;
      hide Book.Balanced;
      hide Book.Shields;
      hide Recoverable;
      hide Spared;
      OnlyLeadsStart(history, stable);
      OnlyLeadsStep(history, history, stable, Moment(led, disk.WriteAt(id, PageCell(page)), stable, nextMeta, None));
      if id < reserved {
        return false;
      }
      if Dirty(id) { DirtySpared(id, page); }
      PutPage(id, page);
      return true;
    }

    lemma DirtySpared(id: PageId, page: Page)
      requires Booked(Used()) && Dirty(id)
      ensures Spared(id, page)
    {
      hide Book.Balanced;
      hide Book.Shields;
      hide PagesKept;
      DirtyIsPrivate(Books(), PagesKept(stable), TreesHeld(held), id);
      forall s | s in held ensures id !in held[s].tree {
        assert s in TreesHeld(held);
      }
    }

    /** The file may not grow and nothing is left to hand out. */
    predicate AtQuota()
      reads this`meta, this`free
    {
      maxPages > 0 && meta.pageCount >= maxPages && free.ready == []
    }

    /** freelist.count */
    method CountFree() returns (total: nat)
      ensures total == Count(free)
    {
      hide Copies;
      total := |free.ready|;
      var left := free.pending;
      while left != map[]
        invariant total + Sizes(left) == Count(free)
        decreases |left|
      {
        var t :| t in left;
        SizesTake(left, t);
        total := total + |left[t]|;
        left := left - {t};
      }
    }

    /** The first half of writeFreelist: ends with as many list pages as the list then needs, all of them new. */
    method TakeListPages(ghost used: set<PageId>) returns (ok: bool, ids: seq<PageId>)
      requires Booked(used)
      modifies this`meta, this`taken, this`free
      ensures meta == old(meta).(pageCount := meta.pageCount)
      ensures free.freeing == old(free).freeing && free.chain == old(free).chain
      ensures forall t | t in free.pending :: t in old(free).pending
      ensures forall id | id in ids :: id in taken && reserved <= id
      ensures forall t | t in old(free).pending && t > meta.txid :: t in free.pending && free.pending[t] == old(free).pending[t]
      ensures !ok ==> AtQuota()
      ensures ok ==> Settles(|ids|, Count(free)) && NoDup(ids)
      ensures ok ==> Booked(used + IdSet(ids)) && (forall id | id in ids :: id !in used)
    {
      hide Booked;
      hide NoDup;
      hide PagesKept;
      hide Count;
      ids := [];
      NoDupEmpty();
      assert used + IdSet(ids) == used;
      while true
        invariant meta == old(meta).(pageCount := meta.pageCount)
        invariant free.freeing == old(free).freeing && free.chain == old(free).chain
        invariant forall t | t in free.pending :: t in old(free).pending
        invariant forall t | t in old(free).pending && t > meta.txid :: t in free.pending && free.pending[t] == old(free).pending[t]
        invariant forall id | id in ids :: id in taken && reserved <= id && id !in used
        invariant NoDup(ids) && Booked(used + IdSet(ids))
        invariant |ids| > 0 ==> (|ids| - 1) * PER_PAGE <= Count(free)
        decreases Needed(Count(free)) - |ids|
      {
        var records := CountFree();
        if Needed(records) <= |ids| {
          return true, ids;
        }
        ghost var now := used + IdSet(ids);
        var r := TakeFor(now);
        if r.None? {
          return false, ids;
        }
        NeedsMore(|ids|, records);
        NeededGrows(Count(free), records);
        NoDupPush(ids, r.value);
        ids := ids + [r.value];
        assert used + IdSet(ids) == now + {r.value};
      }
    }

    /** The second half of writeFreelist: back to front, so every page already knows where the rest continues. */
    method WriteListPages(ids: seq<PageId>, freed: seq<Freed>)
      requires Recoverable() && Settles(|ids|, |freed|) && NoDup(ids)
      requires forall id | id in ids :: id >= reserved && id !in PagesKept(stable)
      requires forall s, id | s in held && id in ids :: id !in held[s].tree
      modifies this`disk, this`history
      ensures Recoverable()
      ensures ListAt(Pages(), ids, freed)
      ensures SameOutside(old(Pages()), Pages(), ids)
      ensures OnlyLeads(old(history), history, stable)
    {
      hide Recoverable;
      hide PagesKept;
      hide NoDup;
      hide PagesIn;
      hide Settles;
      hide ListFrom;
      hide ListAt;
      hide OnlyLeads;
      var next := 0;
      var i := |ids|;
      ListFromStart(Pages(), ids, freed);
      OnlyLeadsStart(history, stable);
      while i > 0
        invariant 0 <= i <= |ids|
        invariant next == if i < |ids| then ids[i] else 0
        invariant Recoverable()
        invariant ListFrom(Pages(), ids, freed, i)
        invariant SameOutside(old(Pages()), Pages(), ids)
        invariant OnlyLeads(old(history), history, stable)
      {
        i := i - 1;
        assert ids[i] in ids;
        ListFromStep(Pages(), ids, freed, i);
        var from := i * PER_PAGE;
        var to := Min(from + PER_PAGE, |freed|);
        ghost var before, h := Pages(), history;
        assert Spared(ids[i], FreeList(next, freed[from..to]));
        PutPage(ids[i], FreeList(next, freed[from..to]));
        OnlyLeadsStep(old(history), h, stable, Moment(led, disk, stable, nextMeta, None));
        next := ids[i];
      }
      ListFromStart(Pages(), ids, freed);
    }

    /** The start of a commit: last time's list pages become garbage, and garbage waits under this transaction. */
    method Retire()
      modifies this`free
      ensures Books() == Rolled(FreedAll(old(Books()), old(free.chain)))
    {
      ghost var before := Books();
      var i := 0;
      while i < |free.chain|
        invariant 0 <= i <= |free.chain|
        invariant free.chain == old(free.chain)
        invariant Books() == FreedAll(before, free.chain[..i])
      {
        assert free.chain[..i + 1][..i] == free.chain[..i];
        Discard(free.chain[i]);
        i := i + 1;
      }
      assert free.chain[..i] == free.chain;
      if |free.freeing| > 0 {
        var next := meta.txid + 1;
        free := free.(
          pending := free.pending[next := (if next in free.pending then free.pending[next] else []) + free.freeing],
          freeing := []);
      }
    }

    method Sync(ghost flight: Option<Version>)
      requires !led && Whole(stable, 2) && Guarded(disk, stable, nextMeta, flight) && stable.meta.txid >= 1
      requires flight.Some? ==> Whole(flight.value, 2)
      modifies this`disk, this`history
      ensures disk == old(disk).Sync() && Pages() == old(Pages())
      ensures flight.None? ==> Guarded(disk, stable, nextMeta, None)
      ensures flight.Some? ==> Guarded(disk, flight.value, Other(nextMeta), None)
      ensures history == old(history) +
        [if flight.None? then Moment(led, disk, stable, nextMeta, None) else Moment(led, disk, flight.value, Other(nextMeta), None)]
      ensures history[|history| - 1].Safe()
    {
      hide Whole;
      PagesAfterSync(disk);
      match flight {
        case None => SyncKeepsGuarded(disk, stable, nextMeta);
        case Some(next) =>
          assert next.meta.txid >= 1;
          MetaLands(disk, stable, nextMeta, next);
      }
      hide Guarded;
      disk := disk.Sync();
      history := history +
        [if flight.None? then Moment(led, disk, stable, nextMeta, None) else Moment(led, disk, flight.value, Other(nextMeta), None)];
    }

    method WriteMeta(next: Meta, ghost flight: Version)
      requires !led && Whole(stable, 2) && Guarded(disk, stable, nextMeta, None) && disk.unsynced == map[] && stable.meta.txid >= 1
      requires Whole(flight, 2) && Intact(disk, flight) && flight.meta == next && next.txid > stable.meta.txid
      modifies this`disk, this`history
      ensures disk == old(disk).WriteAt(nextMeta, MetaCell(next)) && Pages() == old(Pages())
      ensures Guarded(disk, stable, nextMeta, Some(flight))
      ensures history == old(history) + [Moment(led, disk, stable, nextMeta, Some(flight))]
      ensures history[|history| - 1].Safe()
    {
      WholeAvoidsSlots(stable, nextMeta);
      WholeAvoidsSlots(flight, nextMeta);
      hide Whole;
      PagesAfterMeta(disk, stable, nextMeta, next);
      MetaTakesOff(disk, stable, nextMeta, flight);
      hide Guarded;
      disk := disk.WriteAt(nextMeta, MetaCell(next));
      history := history + [Moment(led, disk, stable, nextMeta, Some(flight))];
    }

    /** Everything a commit does before the first sync. */
    method Prepare() returns (ok: bool, ids: seq<PageId>)
      requires Valid()
      modifies this`meta, this`taken, this`free, this`disk, this`history
      ensures Recoverable() && meta.txid == old(meta).txid
      ensures OnlyLeads(old(history), history, stable)
      ensures !ok ==> AtQuota()
      ensures ok ==> Retired(Books(), PagesKept(stable), old(free.chain) != [] || old(free.freeing) != [])
      ensures ok ==>
        && Booked(owned + IdSet(ids)) && free.freeing == [] && NoDup(ids)
        && (forall id | id in ids :: id !in owned && id >= reserved)
        && ListAt(Pages(), ids, Listing(free)) && SameOutside(old(Pages()), Pages(), ids)
        && meta == old(meta).(pageCount := meta.pageCount)
    {
      hide Recoverable;
      hide Book.Balanced;
      hide Book.Shields;
      hide NoDup;
      hide PagesKept;
      hide PagesIn;
      hide OnlyLeads;
      hide SameOutside;
      hide ListAt;
      hide Settles;
      hide FreedAll;
      hide Rolled;
      hide Count;
      hide Listing;
      hide Retired;
      OnlyLeadsStart(history, stable);
      ghost var before, used, kept := Books(), Used(), PagesKept(stable);
      ghost var some := free.chain != [] || free.freeing != [];
      assert NoDup(free.chain) by { RecoverableChain(); }
      FreedAllKeeps(before, used, PagesKept(stable), TreesHeld(held), free.chain);
      FreedAllFrame(before, free.chain);
      ghost var b := FreedAll(before, free.chain);
      assert forall id | id in free.chain :: id !in owned;
      assert used == owned + IdSet(free.chain);
      assert used - IdSet(free.chain) == owned;
      RollBalances(b, owned);
      RollShields(b, PagesKept(stable), TreesHeld(held));
      RollFrame(b);
      ChainUnseen();
      RetiresExactly(before, kept, TreesHeld(held), free.chain);
      Retire();
      ghost var rolled := Books();
      ok, ids := TakeListPages(owned);
      RetiredStays(rolled, kept, some, Books());
      if !ok {
        return;
      }
      TakenArePrivate(ids);
      ListingSize(free);
      WriteListPages(ids, Listing(free));
    }

    lemma ChainUnseen()
      requires Valid()
      ensures forall p | p in free.chain :: p in PagesKept(stable) && p !in free.seen
      ensures forall p | p in free.freeing :: p in PagesKept(stable)
      ensures forall t | t in free.pending :: t <= meta.txid
    {
      hide Copies;
      hide Waiting;
      hide ListAt;
      hide Guarded;
      hide Intact;
      hide StillRead;
      hide HeldWithin;
      hide Book.Shields;
      hide Book.Sums;
    }

    lemma RecoverableChain()
      requires Recoverable()
      ensures NoDup(stable.chain)
    {
    }

    /** A page taken by this transaction is one nobody else can read. */
    lemma TakenArePrivate(ids: seq<PageId>)
      requires Books().Shields(PagesKept(stable), TreesHeld(held))
      requires forall id | id in ids :: id in taken
      ensures forall id | id in ids :: id !in PagesKept(stable)
      ensures forall s, id | s in held && id in ids :: id !in held[s].tree
    {
      hide Book.Shields;
      hide PagesKept;
      forall id | id in ids ensures id !in PagesKept(stable) && forall s | s in held :: id !in held[s].tree {
        DirtyIsPrivate(Books(), PagesKept(stable), TreesHeld(held), id);
        forall s | s in held ensures id !in held[s].tree { assert s in TreesHeld(held); }
      }
    }

    /** The durable half of a commit, and its order: data, sync, meta, sync. */
    method Land(next: Meta, ghost v: Version)
      requires Recoverable() && !led && Whole(v, 2) && v.meta == next && next.txid > stable.meta.txid
      requires forall id | id in v.tree :: id in Pages() && v.tree[id] == Pages()[id]
      requires forall id | id in v.list :: id in Pages() && v.list[id] == Pages()[id]
      modifies this`disk, this`history
      ensures Pages() == old(Pages())
      ensures Guarded(disk, v, Other(nextMeta), None)
      ensures forall m | m in history :: m.led == led && m.Safe()
      ensures Lands(old(history), history, stable, v) && history != [] && history[|history| - 1].disk == disk
    {
      hide Whole;
      hide Intact;
      hide Guarded;
      hide PagesIn;
      Sync(None);
      SyncedIsIntact(disk, v);
      WriteMeta(next, v);
      Sync(Some(v));
    }

    /** The end of a commit: the transaction in progress is over and the next one starts from what it left. */
    method Acknowledge(next: Meta, ids: seq<PageId>, ghost v: Version)
      requires Booked(owned + IdSet(ids)) && free.freeing == [] && (forall id | id in ids :: id !in owned)
      requires !led && reserved == 2 && Whole(v, 2) && Guarded(disk, v, Other(nextMeta), None) && StillRead(Pages(), held)
      requires (forall m | m in history :: m.led == led && m.Safe()) && history != [] && history[|history| - 1].disk == disk
      requires v.meta == next && v.chain == ids && PagesKept(v) == owned + IdSet(ids) && owned == v.tree.Keys
      requires next.txid == meta.txid + 1 && next.pageCount == meta.pageCount && meta.txid == stable.meta.txid >= 1
      requires HeldWithin(held, readers, stable.meta, reserved) && stable.meta.pageCount <= meta.pageCount && flight.None?
      modifies this`meta, this`nextMeta, this`committed, this`free, this`taken, this`stable
      ensures Valid() && taken == {} && free.freeing == [] && stable == v
    {
      hide Whole;
      hide Guarded;
      hide Intact;
      hide StillRead;
      hide Book.Sums;
      hide Book.Shields;
      hide PagesKept;
      hide TreesHeld;
      ghost var b := Books();
      AckKeeps(b, owned + IdSet(ids), PagesKept(stable), TreesHeld(held), ids);
      GuardedIsIntact(disk, v, Other(nextMeta));
      HeldWithinGrows(held, readers, stable.meta, next, reserved);
      hide HeldWithin;
      meta := next;
      nextMeta := Other(nextMeta);
      committed := next.pageCount;
      free := free.(chain := ids, seen := {});
      taken := {};
      stable := v;
      assert Books() == Acked(b, ids);
    }

    /**
     Commit: data, sync, meta, sync. A crash at any instant lands on the version that
     was stable before or on the one this makes, and on the new one once this returns.
     */
    method Commit(root: PageId) returns (ok: bool)
      requires Valid() && !led && Filled(Pages(), owned)
      modifies this
      ensures Recoverable() && owned == old(owned) && held == old(held) && readers == old(readers) && flight.None?
      ensures !ok ==> stable == old(stable) && OnlyLeads(old(history), history, stable) && AtQuota()
      ensures ok ==>
        && Valid() && taken == {} && free.freeing == []
        && Lands(old(history), history, old(stable), stable)
        && stable.meta.txid == old(stable).meta.txid + 1 && stable.meta.root == root && !stable.meta.clean
        && stable.tree == Restrict(old(Pages()), owned)
        && Restrict(Pages(), owned) == Restrict(old(Pages()), owned)
    {
      hide Whole;
      hide Guarded;
      hide Intact;
      hide Book.Sums;
      hide Book.Shields;
      hide NoDup;
      hide PagesKept;
      hide PagesIn;
      hide SameOutside;
      hide ListAt;
      hide Listing;
      hide StillRead;
      hide Filled;
      hide Made;
      hide TreesHeld;
      hide OnlyLeads;
      hide Lands;
      hide Booked;
      hide Recoverable;
      hide Retired;
      ValidFacts();
      var next := meta.(txid := meta.txid + 1, root := root, clean := false);
      var took, ids := Prepare();
      if !took {
        return false;
      }
      CommitFacts(ids);
      next := next.(freelist := HeadOf(ids), pageCount := meta.pageCount);
      ghost var pages := Pages();
      ghost var v, h := Made(pages, owned, next, ids, Listing(free)), history;
      FilledOutside(old(Pages()), pages, owned, ids);
      MadeIsWhole(Books(), pages, owned, next, ids);
      MadeIsRead(pages, owned, next, ids, Listing(free));
      Land(next, v);
      LandsAfter(old(history), h, history, stable, v);
      Acknowledge(next, ids, v);
      return true;
    }

    lemma ValidFacts()
      requires Valid()
      ensures meta.txid == stable.meta.txid >= 1 && committed == stable.meta.pageCount
    {
      hide Whole;
      hide Guarded;
      hide Intact;
      hide StillRead;
      hide Book.Balanced;
      hide Book.Shields;
    }

    lemma CommitFacts(ids: seq<PageId>)
      requires Recoverable() && Booked(owned + IdSet(ids)) && !led
      ensures Whole(stable, 2) && reserved == 2 && stable.meta.txid >= 1
      ensures HeldWithin(held, readers, stable.meta, reserved) && StillRead(Pages(), held)
      ensures Books().Sums(owned + IdSet(ids)) && reserved <= committed <= meta.pageCount
    {
      hide Whole;
      hide Guarded;
      hide Intact;
      hide StillRead;
      hide Book.Sums;
      hide Book.Shields;
      hide HeldWithin;
    }

    /** Snapshot pins the last committed transaction. */
    method Snapshot() returns (txid: TxId, root: PageId)
      requires Valid()
      modifies this`readers, this`held
      ensures Valid()
      ensures txid == stable.meta.txid && root == stable.meta.root
      ensures held == old(held)[txid := stable]
      ensures readers == old(readers)[txid := (if txid in old(readers) then old(readers)[txid] else 0) + 1]
    {
      hide Whole;
      hide Intact;
      hide Guarded;
      hide StillRead;
      hide HeldWithin;
      hide Book.Balanced;
      hide Book.Shields;
      hide PagesKept;
      hide PagesIn;
      txid, root := meta.txid, meta.root;
      SnapshotShields(Books(), stable, held);
      SnapshotReads(disk, stable, held, txid);
      SnapshotWithin(held, readers, stable, reserved, (if txid in readers then readers[txid] else 0) + 1);
      readers := readers[txid := (if txid in readers then readers[txid] else 0) + 1];
      held := held[txid := stable];
    }

    /** Release lets go of one hold. */
    method Release(txid: TxId)
      requires Valid() && txid in readers
      modifies this`readers, this`held
      ensures Valid()
      ensures readers == if old(readers)[txid] <= 1 then old(readers) - {txid} else old(readers)[txid := old(readers)[txid] - 1]
      ensures held == if txid in readers then old(held) else old(held) - {txid}
    {
      hide IdSet;
      hide Copies;
      hide Waiting;
      hide Whole;
      hide Intact;
      hide Guarded;
      hide StillRead;
      hide Book.Balanced;
      hide Book.Shields;
      hide PagesKept;
      hide PagesIn;
      if readers[txid] <= 1 {
        ReleaseKeeps(Books(), PagesKept(stable), Pages(), held, readers, stable.meta, reserved, txid);
        readers := readers - {txid};
        held := held - {txid};
      } else {
        readers := readers[txid := readers[txid] - 1];
      }
    }

    /** The records of one list page; a page the file does not have, or one of its first two, is damage. */
    method ReadRecords(records: seq<Freed>) returns (ok: bool, pages: seq<PageId>)
      ensures ok <==> forall r | r in records :: 2 <= r.page < meta.pageCount
      ensures ok ==> pages == PagesOf(records)
    {
      pages := [];
      var j := 0;
      while j < |records|
        invariant 0 <= j <= |records| && pages == PagesOf(records[..j])
        invariant forall r | r in records[..j] :: 2 <= r.page < meta.pageCount
      {
        var at := records[j].page;
        if at <= 1 || at >= meta.pageCount {
          assert records[j] in records;
          return false, pages;
        }
        assert records[..j + 1] == records[..j] + [records[j]];
        pages := pages + [at];
        j := j + 1;
      }
      assert records[..j] == records;
      return true, pages;
    }

    /**
     readFreelist: the list at `head`, everything on it ready. It ends on any
     contents at all. A list that was written whole is returned as it was, unless
     page 1 is on it, and then it is refused: in a file with one reserved page
     that is a page like any other.
     */
    method ReadFreelist(head: PageId, ghost ids: seq<PageId>, ghost freed: seq<Freed>) returns (ok: bool)
      modifies this`free
      ensures Readable(Pages(), head, ids, freed, reserved, meta.pageCount) ==>
                && (ok <==> NoPageOne(freed))
                && (ok ==> free == EMPTY.(ready := PagesOf(freed), chain := ids))
    {
      ghost var good := Readable(Pages(), head, ids, freed, reserved, meta.pageCount);
      hide PagesIn;
      hide Readable;
      free := EMPTY;
      var id: PageId := head;
      ghost var k: nat := 0;
      assert good ==> ReadTo(ids, freed, 0, id, free.chain, free.ready) by { if good { ReadBegin(Pages(), head, ids, freed, reserved, meta.pageCount); } }
      hide ReadTo;
      while id != 0
        invariant free == EMPTY.(ready := free.ready, chain := free.chain)
        invariant |free.chain| <= (if meta.pageCount < 0 then 0 else meta.pageCount) + 1
        invariant k == |free.chain| && (forall p | p in free.ready :: p >= 2)
        invariant good ==> ReadTo(ids, freed, k, id, free.chain, free.ready)
        decreases (if meta.pageCount < 0 then 0 else meta.pageCount) + 2 - |free.chain|
      {
        if good { ReadStep(Pages(), head, ids, freed, reserved, meta.pageCount, k, id, free.chain, free.ready); }
        if id < reserved || id >= meta.pageCount || |free.chain| > meta.pageCount {
          return false;
        }
        var page := Read(id);
        if page.None? || !page.value.FreeList? || |page.value.freed| > PER_PAGE {
          return false;
        }
        var fine, pages := ReadRecords(page.value.freed);
        if !fine {
          return false;
        }
        free := free.(chain := free.chain + [id], ready := free.ready + pages);
        id := page.value.next;
        k := k + 1;
      }
      if good {
        ReadEnd(Pages(), head, ids, freed, reserved, meta.pageCount, k, free.chain, free.ready);
        ReadyIsFreed(freed);
      }
      return true;
    }

    /**
     Rollback: the stable transaction is in hand again. The whole list is read back as
     ready, so it is sound for the snapshots that are held exactly when none of their
     pages is on that list.
     */
    method Rollback() returns (ok: bool)
      requires Recoverable() && !led && flight.None?
      modifies this`meta, this`nextMeta, this`committed, this`taken, this`free, this`owned
      ensures ok && Recoverable()
      ensures meta == stable.meta && owned == stable.tree.Keys && Books() == Reread(stable, reserved)
      ensures Valid() <==> Unlisted(stable, held)
    {
      hide ReadMeta;
      hide Other;
      hide Intact;
      hide Held;
      hide Guarded;
      hide RecoverableFrom;
      hide PagesOf;
      hide Moment.Safe;
      hide Recoverable;
      hide Booked;
      hide Current;
      hide PagesIn;
      hide Unlisted;
      hide Readable;
      hide NoPageOne;
      RollbackFacts();
      var loaded := LoadMeta(disk.View());
      if loaded.None? {
        return false;
      }
      meta, nextMeta := loaded.value.meta, loaded.value.nextMeta;
      hide LoadMeta;
      committed := meta.pageCount;
      taken := {};
      ok := ReadFreelist(meta.freelist, stable.chain, stable.freed);
      owned := stable.tree.Keys;
      RereadIsCurrent();
    }

    /** What a rollback finds: the version it goes back to, with a list it can read. */
    lemma RollbackFacts()
      requires Recoverable() && !led
      ensures
        var l := LoadMeta(disk.View());
        && l.Some? && l.value.meta == stable.meta && RecoverableFrom(l.value.nextMeta)
      ensures Readable(Pages(), stable.meta.freelist, stable.chain, stable.freed, reserved, stable.meta.pageCount)
      ensures NoPageOne(stable.freed)
    {
      hide Intact;
      hide StillRead;
      hide HeldWithin;
      WholeIsReadable(disk, stable, reserved);
      WholeHasNoPageOne(stable);
      GuardedLoads(disk, stable, nextMeta);
      hide Whole;
      hide Guarded;
    }

    /** The books of a version just read back: a transaction can start, for the snapshots none of whose pages is listed. */
    lemma RereadIsCurrent()
      requires RecoverableFrom(nextMeta) && flight.None? && meta == stable.meta && owned == stable.tree.Keys
      requires Books() == Reread(stable, reserved)
      ensures Recoverable() && (Valid() <==> Unlisted(stable, held))
    {
      hide Intact;
      hide StillRead;
      hide PagesIn;
      hide Book.Balanced;
      hide Book.Shields;
      hide TreesHeld;
      hide Unlisted;
      hide Guarded;
      RereadBalances(stable, reserved);
      RereadShields(stable, held, readers, reserved);
      hide Whole;
      hide PagesKept;
      assert Used() == PagesKept(stable);
    }

    // ---- led files ----

    /** A led file made anew: a label, synced, and nothing else that counts. */
    constructor CreateLed(file: Disk, maxPages: nat)
      ensures Valid() && led && reserved == 1 && owned == {} && held == map[] && stable == FRESH_LED
      ensures disk == file.WriteAt(0, Label).Sync() && history == [Moment(true, disk, FRESH_LED, 0, None)]
      ensures this.maxPages == maxPages && meta == FRESH_LED.meta && taken == {} && free == EMPTY
    {
      this.maxPages, reserved, led := maxPages, 1, true;
      disk := file.WriteAt(0, Label).Sync();
      meta, nextMeta, committed := FRESH_LED.meta, 0, 1;
      taken, free, readers := {}, EMPTY, map[];
      owned, stable, held, flight := {}, FRESH_LED, map[], None;
      history := [Moment(true, disk, FRESH_LED, 0, None)];
      new;
      FreshLedIsWhole();
      RereadBalances(FRESH_LED, 1);
      assert Books() == Reread(FRESH_LED, 1);
      assert Used() == PagesKept(FRESH_LED);
    }

    /** A led file found where its leader says it is; Abandon then reads its list. */
    constructor FindLed(file: Disk, at: Position, maxPages: nat, ghost v: Version)
      requires Intact(file, v) && Whole(v, 1) && at == PositionOf(v.meta) && v.meta.txid >= 1
      ensures Recoverable() && led && reserved == 1 && held == map[] && history == [Moment(true, file, v, 0, None)]
      ensures stable == v && meta.txid == 1 && disk == file && this.maxPages == maxPages
    {
      hide Whole;
      hide Intact;
      this.maxPages, reserved, led := maxPages, 1, true;
      disk := file;
      meta, nextMeta, committed := Meta(1, at.root, at.freelist, AtLeastOne(at.pageCount), false), 0, AtLeastOne(at.pageCount);
      taken, free, readers := {}, EMPTY, map[];
      owned, stable, held, flight := v.tree.Keys, v, map[], None;
      history := [Moment(true, disk, v, 0, None)];
    }

    /**
     The state after Flush: the leader's version is untouched, the flushed one is
     durable beside it, and the books are those of the flushed one.
     */
    ghost predicate Flushed()
      reads this
    {
      && Recoverable() && led && flight.Some? && held == map[] && readers == map[]
      && Whole(flight.value, reserved) && Intact(disk, flight.value) && flight.value.meta.txid >= 1
      && Books().Balanced(Used()) && Books().Shields(PagesKept(flight.value), map[])
      && meta == flight.value.meta && committed == meta.pageCount && free.chain == flight.value.chain && taken == {}
      && (forall t | t in free.pending :: t <= meta.txid)
      && (forall id | id in free.chain :: id !in owned)
      && owned == flight.value.tree.Keys && free.freeing == []
      && stable.meta.pageCount <= meta.pageCount
    }

    /** Flush: the tree and the list are durable at a new position, and the version the leader points at is untouched. */
    method Flush(root: PageId) returns (ok: bool, at: Position)
      requires Valid() && led && held == map[] && Filled(Pages(), owned)
      modifies this
      ensures Recoverable() && stable == old(stable) && held == old(held) && owned == old(owned) && meta.txid >= 1
      ensures old(history) <= history && (forall m | m in history :: m.led && m.Safe())
      ensures forall k | |old(history)| <= k < |history| :: history[k].stable == stable
      ensures ok ==>
        && Flushed() && flight.Some? && at == PositionOf(flight.value.meta) && at.root == root
        && flight.value.tree == Restrict(old(Pages()), owned)
        && Restrict(Pages(), owned) == Restrict(old(Pages()), owned)
      ensures !ok ==> AtQuota()
      ensures ok ==>
        var next := Allotted(Books(), 0, maxPages).0;
        next.Some? && next.value in PagesKept(stable) <==> old(free.chain) != [] || old(free.freeing) != []
      ensures ok ==>
        ((exists acts :: var next := NextOf(Books(), acts, maxPages); next.Some? && next.value in PagesKept(stable)) <==>
         old(free.chain) != [] || old(free.freeing) != [])
    {
      hide Pages;
      hide Used;
      hide Current;
      hide Valid;
      hide NextOf;
      hide Retired;
      hide Allotted;
      hide Acked;
      hide Flushed;
      hide PagesOf;
      hide Whole;
      hide Intact;
      hide Book.Sums;
      hide Book.Shields;
      hide NoDup;
      hide PagesKept;
      hide PagesIn;
      hide SameOutside;
      hide ListAt;
      hide Listing;
      hide StillRead;
      hide Filled;
      hide Made;
      hide TreesHeld;
      hide Booked;
      hide Recoverable;
      ValidFacts();
      var took, ids := Prepare();
      LedFacts();
      at := PositionOf(meta);
      if !took {
        return false, at;
      }
      LedBooks(ids);
      ghost var b := Books();
      var next := meta.(txid := meta.txid + 1, root := root, freelist := HeadOf(ids));
      ghost var pages := Pages();
      ghost var v := Made(pages, owned, next, ids, Listing(free));
      FilledOutside(old(Pages()), pages, owned, ids);
      MadeIsWhole(b, pages, owned, next, ids);
      MadeIsRead(pages, owned, next, ids, Listing(free));
      SyncLed(v);
      LedFacts();
      NextAfterFlush(b, PagesKept(stable), old(free.chain) != [] || old(free.freeing) != [], ids, maxPages);
      LaterAfterFlush(b, PagesKept(stable), old(free.chain) != [] || old(free.freeing) != [], ids, maxPages);
      AcknowledgeLed(next, ids, v);
      at := PositionOf(meta);
      return true, at;
    }

    /** The end of a flush: the books move on to what was flushed. */
    method AcknowledgeLed(next: Meta, ids: seq<PageId>, ghost v: Version)
      requires Recoverable() && led && held == map[] && readers == map[] && flight == Some(v)
      requires Booked(owned + IdSet(ids)) && free.freeing == [] && (forall id | id in ids :: id !in owned)
      requires Whole(v, reserved) && Intact(disk, v)
      requires v.meta == next && v.chain == ids && PagesKept(v) == owned + IdSet(ids) && owned == v.tree.Keys
      requires next.txid == meta.txid + 1 && next.pageCount == meta.pageCount && stable.meta.pageCount <= meta.pageCount
      modifies this`meta, this`committed, this`free, this`taken
      ensures Flushed() && meta == next && Books() == Acked(old(Books()), ids)
    {
      hide Recoverable;
      hide Whole;
      hide Intact;
      hide PagesKept;
      hide Book.Sums;
      hide Book.Shields;
      ghost var b := Books();
      assert TreesHeld(held) == map[];
      AckKeeps(b, owned + IdSet(ids), PagesKept(stable), TreesHeld(held), ids);
      meta := next;
      committed := meta.pageCount;
      free := free.(chain := ids, seen := {});
      taken := {};
      assert Books() == Acked(b, ids);
    }

    lemma LedFacts()
      requires Recoverable() && led
      ensures reserved >= 1 && (forall m | m in history :: m.led && m.Safe())
    {
      hide Whole;
      hide Intact;
      hide StillRead;
      hide HeldWithin;
      hide Moment.Safe;
    }

    lemma LedBooks(ids: seq<PageId>)
      requires Booked(owned + IdSet(ids)) && held == map[]
      ensures Books().Balanced(owned + IdSet(ids)) && Books().Shields(PagesKept(stable), TreesHeld(held))
      ensures Books().Sums(owned + IdSet(ids)) && reserved <= meta.pageCount && committed <= meta.pageCount && meta.txid >= 1
      ensures readers == map[] && TreesHeld(held) == map[]
    {
      hide Book.Sums;
      hide Book.Shields;
      assert readers.Keys == {};
    }

    /** The one sync of a flush: the new pages are durable, and nothing says so yet. */
    method SyncLed(ghost v: Version)
      requires Recoverable() && led
      requires forall id | id in v.tree :: id in Pages() && v.tree[id] == Pages()[id]
      requires forall id | id in v.list :: id in Pages() && v.list[id] == Pages()[id]
      modifies this`disk, this`history, this`flight
      ensures Recoverable() && Pages() == old(Pages()) && Intact(disk, v) && flight == Some(v)
      ensures history == old(history) + [Moment(led, disk, stable, nextMeta, Some(v))]
    {
      hide Whole;
      hide StillRead;
      hide HeldWithin;
      hide PagesIn;
      PagesAfterSync(disk);
      SyncKeepsIntact(disk, stable);
      SyncedIsIntact(disk.Sync(), v);
      hide Intact;
      disk := disk.Sync();
      flight := Some(v);
      history := history + [Moment(led, disk, stable, nextMeta, Some(v))];
    }

    /** The leader has committed: what was flushed is now what it records. Nothing in the file changes. */
    ghost method Adopt()
      requires Flushed()
      modifies this`stable, this`flight
      ensures Valid() && stable == old(flight).value && flight.None?
    {
      hide Whole;
      hide Intact;
      hide StillRead;
      hide Book.Balanced;
      hide PagesKept;
      assert TreesHeld(held) == map[];
      stable, flight := flight.value, None;
    }

    /**
     Abandon: puts a led file back exactly where its leader says it is, whatever was
     written or flushed since. It is refused exactly when page 1 is on that list.
     */
    method Abandon(at: Position) returns (ok: bool)
      requires Recoverable() && led && held == map[] && at == PositionOf(stable.meta) && meta.txid >= 1
      modifies this`meta, this`committed, this`taken, this`free, this`owned, this`flight, this`stable
      ensures Recoverable() && stable == Renumbered(old(stable), old(meta))
      ensures ok <==> NoPageOne(stable.freed)
      ensures ok ==> Valid() && owned == stable.tree.Keys && Books() == Reread(stable, reserved)
    {
      hide PagesOf;
      hide Whole;
      hide Intact;
      hide StillRead;
      hide Booked;
      hide Current;
      hide PagesIn;
      hide Readable;
      hide NoPageOne;
      hide Moment.Safe;
      RenumberedReads(disk, stable, meta, reserved);
      GoBack(meta.(root := at.root, freelist := at.freelist, pageCount := AtLeastOne(at.pageCount)));
      ok := ReadFreelist(meta.freelist, stable.chain, stable.freed);
      owned := stable.tree.Keys;
      if ok { RereadIsCurrent(); }
    }

    method GoBack(to: Meta)
      modifies this`meta, this`committed, this`taken, this`flight, this`stable
      ensures meta == to && committed == to.pageCount && taken == {} && flight == None && stable == Renumbered(old(stable), to)
    {
      meta, committed, taken, flight, stable := to, to.pageCount, {}, None, Renumbered(stable, to);
    }
  }

  // ---- what goes wrong, on files made by the operations themselves ----

  lemma LeafIsClosed(pages: map<PageId, Page>, id: PageId)
    requires id in pages && pages[id] == Leaf([])
    ensures Filled(pages, {id}) && Filled(pages, {}) && Closed(pages, id, {id})
  {
    assert Refs(Leaf([])) == {};
  }

  /** A page of one version is not a list page of another that is in the same file, unless they agree on it. */
  lemma NotAListPage(disk: Disk, v: Version, w: Version, reserved: int, id: PageId)
    requires Intact(disk, v) && Intact(disk, w) && Whole(w, reserved) && id in v.tree && v.tree[id] == Leaf([])
    ensures id !in w.chain
  {
    hide Copies;
    forall i | 0 <= i < |w.chain| ensures w.chain[i] != id {
      assert w.list[w.chain[i]].FreeList? && disk.durable[w.chain[i]] == PageCell(w.list[w.chain[i]]);
    }
  }

  /** A counted page that is neither in the tree nor in the chain is on the list. */
  lemma MustBeFreed(v: Version, reserved: int, id: PageId)
    requires Whole(v, reserved) && reserved <= id < v.meta.pageCount && id !in v.tree && id !in v.chain
    ensures id in PagesOf(v.freed)
  {
    CopiesIn(v.chain, id);
    CopiesIn(PagesOf(v.freed), id);
    hide Copies;
    hide ListAt;
  }

  /** A led file whose leader has recorded one tree page, page 1. */
  method RecordedOnce() returns (led: Pager)
    ensures fresh(led) && led.Valid() && led.led && led.reserved == 1 && led.maxPages == 0 && led.held == map[]
    ensures led.owned == {1} && led.taken == {} && led.committed == led.meta.pageCount
    ensures 1 in led.Pages() && led.Pages()[1] == Leaf([]) && 1 in led.stable.tree && led.stable.tree[1] == Leaf([])
  {
    hide Whole;
    hide Guarded;
    hide Intact;
    hide StillRead;
    hide Book.Balanced;
    hide Pager.Current;
    hide Allotted;
    hide Book.Shields;
    hide PagesKept;
    hide PagesIn;
    hide Pager.Recoverable;
    led := new Pager.CreateLed(Disk(map[], map[]), 0);
    var r := led.Allocate();
    assert r == Some(1) && led.owned == {1};
    var ok := led.Write(1, Leaf([]));
    LeafIsClosed(led.Pages(), 1);
    ghost var pages := led.Pages();
    var at;
    ok, at := led.Flush(1);
    assert 1 in Restrict(pages, {1});
    led.Adopt();
  }

  /** The same with a second transaction that gives page 1 back and has been flushed. */
  method FlushedTwice() returns (led: Pager)
    ensures fresh(led) && led.Flushed() && led.reserved == 1 && led.maxPages == 0
    ensures 1 in led.stable.tree && led.stable.tree[1] == Leaf([]) && led.owned == {}
    ensures
      var next := Allotted(led.Books(), 0, 0).0;
      next.Some? && next.value in PagesKept(led.stable)
  {
    hide Whole;
    hide Guarded;
    hide Intact;
    hide StillRead;
    hide Allotted;
    hide Book.Balanced;
    hide Book.Shields;
    hide PagesKept;
    hide PagesIn;
    hide Pager.Recoverable;
    led := RecordedOnce();
    FreedOnce(led, 1);
    led.Free(1);
    LeafIsClosed(led.Pages(), 1);
    var ok, at := led.Flush(0);
  }

  /** Freeing a page the last commit has puts it among those that wait. */
  lemma FreedOnce(p: Pager, id: PageId)
    requires p.Booked(p.Used()) && id in p.owned && p.taken == {} && p.committed == p.meta.pageCount
    ensures Freeing(p.Books(), id).free.freeing == p.free.freeing + [id]
  {
    hide Copies;
    hide Waiting;
    hide Book.Shields;
    assert id in p.Used();
  }

  /**
   Flush counts its own transaction as over: here the next allocation hands out a
   page the leader still points at. Pager.Flush says exactly when that happens.
   */
  method FlushedPagesComeBack() returns (led: Pager, next: Option<PageId>)
    ensures next.Some? && next.value in PagesKept(led.stable) && led.Recoverable()
  {
    hide Pager.Recoverable;
    hide Allotted;
    hide PagesKept;
    hide Whole;
    hide Intact;
    hide Book.Balanced;
    hide Book.Shields;
    led := FlushedTwice();
    ghost var oldest;
    assert 0 !in led.readers;
    next, oldest := led.Take();
  }

  /**
   A led file hands out page 1 like any other. Once its leader has recorded a list
   that names page 1, Abandon refuses: the file cannot be put back.
   */
  method PageOneIsRefused() returns (led: Pager, ok: bool)
    ensures !ok && led.Recoverable() && !NoPageOne(led.stable.freed)
  {
    hide Pager.Recoverable;
    hide NoPageOne;
    hide Allotted;
    hide PagesKept;
    hide Whole;
    hide Intact;
    hide Book.Balanced;
    hide Book.Shields;
    led := FlushedTwice();
    PageOneIsListed(led);
    led.Adopt();
    ok := led.Abandon(PositionOf(led.meta));
  }

  lemma PageOneIsListed(led: Pager)
    requires led.Flushed() && led.reserved == 1 && 1 in led.stable.tree && led.stable.tree[1] == Leaf([]) && led.owned == {}
    ensures led.flight.Some? && !NoPageOne(led.flight.value.freed)
  {
    hide Copies;
    hide ListAt;
    hide StillRead;
    hide Book.Balanced;
    hide Book.Shields;
    hide Moment.Safe;
    var v := led.flight.value;
    WholeRanges(led.stable, 1);
    NotAListPage(led.disk, led.stable, v, 1, 1);
    MustBeFreed(v, 1, 1);
    var i :| 0 <= i < |v.freed| && PagesOf(v.freed)[i] == 1;
    assert v.freed[i] in v.freed;
  }

  /** A fresh database with one committed page. */
  method CommittedOnce() returns (p: Pager)
    ensures fresh(p) && p.Valid() && !p.led && p.maxPages == 0 && p.held == map[]
    ensures p.owned == {2} && 2 in p.stable.tree && p.stable.tree[2] == Leaf([])
  {
    hide Whole;
    hide Guarded;
    hide Intact;
    hide StillRead;
    hide Allotted;
    hide Book.Balanced;
    hide Book.Shields;
    hide PagesKept;
    hide PagesIn;
    hide Lands;
    hide OnlyLeads;
    hide Pager.Recoverable;
    hide Pager.Current;
    p := new Pager.Create(0);
    FreshPager(p);
    var r := p.Allocate();
    assert r == Some(2) && p.owned == {2};
    var ok := p.Write(2, Leaf([]));
    LeafIsClosed(p.Pages(), 2);
    ghost var pages := p.Pages();
    ok := p.Commit(2);
    assert 2 in Restrict(pages, {2});
  }

  /** A page is committed, a snapshot is taken, and the next commit gives the page back. */
  method SnapshotThenFreed() returns (p: Pager, txid: TxId)
    ensures fresh(p) && p.Valid() && p.flight.None? && !p.led && txid in p.held && 0 !in p.readers
    ensures 2 in p.held[txid].tree && p.held[txid].tree[2] == Leaf([]) && p.stable.tree == map[]
  {
    hide Whole;
    hide Guarded;
    hide Intact;
    hide StillRead;
    hide Allotted;
    hide Book.Balanced;
    hide Book.Shields;
    hide PagesKept;
    hide PagesIn;
    hide Lands;
    hide OnlyLeads;
    hide Pager.Recoverable;
    p := CommittedOnce();
    var root;
    txid, root := p.Snapshot();
    p.Free(2);
    assert Filled(p.Pages(), {});
    ghost var pages := p.Pages();
    var ok := p.Commit(0);
    assert Restrict(pages, {}) == map[];
  }

  lemma FreshPager(p: Pager)
    requires p.Valid() && !p.led
    ensures p.reserved == 2
  {
    hide Whole;
    hide Guarded;
    hide Intact;
    hide StillRead;
  }

  lemma SnapshotIsListed(p: Pager, txid: TxId)
    requires p.Recoverable() && !p.led && txid in p.held && 2 in p.held[txid].tree && p.held[txid].tree[2] == Leaf([]) && p.stable.tree == map[]
    ensures 2 in PagesOf(p.stable.freed)
  {
    hide Copies;
    hide Guarded;
    var v := p.stable;
    forall i | 0 <= i < |v.chain| ensures v.chain[i] != 2 {
      assert v.list[v.chain[i]].FreeList? && p.disk.durable[v.chain[i]] == PageCell(v.list[v.chain[i]]);
      assert p.Pages()[v.chain[i]] == v.list[v.chain[i]];
    }
    MustBeFreed(v, 2, 2);
  }

  /**
   Rollback reads every listed page back as ready. A page freed since a snapshot was
   taken, and listed by a later commit, is then handed out while the snapshot still
   reads it. Pager.Rollback says exactly when a rollback is sound.
   */
  method RollbackForgetsSnapshots() returns (p: Pager, txid: TxId, next: Option<PageId>)
    ensures txid in p.held && next.Some? && next.value in p.held[txid].tree && !Unlisted(p.stable, p.held)
  {
    hide Pager.Recoverable;
    hide Pager.Booked;
    hide Pager.Current;
    p, txid := SnapshotThenFreed();
    SnapshotIsListed(p, txid);
    FreshPager(p);
    var ok := p.Rollback();
    next := None;
    ghost var stable, held, readers := p.stable, p.held, p.readers;
    while next != Some(2)
      invariant p.stable == stable && p.held == held && p.readers == readers
      invariant p.free.pending == map[] && (next != Some(2) ==> 2 in p.free.ready)
      decreases |p.free.ready|, if next == Some(2) then 0 else 1
    {
      PromotedNone(p.Books(), 0);
      assert p.free.pending.Keys == {};
      ghost var b := p.Books();
      ghost var oldest;
      next, oldest := p.Take();
      PromotedNone(b, oldest);
    }
  }
}
