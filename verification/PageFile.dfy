/**
 A page file as the operating system keeps it: what is durable, what has been
 written since the last sync, and what a crash may leave of the two.
 */
module PageFile {
  import opened Bytes
  import opened Options

  /** A page number; the invariants keep it in range. */
  type PageId = nat

  type TxId = nat

  /** A leaf entry as it is stored: the value beside its key, or where its chain starts. */
  datatype Stored =
    | Inline(key: Bytes, value: Bytes)
    | Chained(key: Bytes, head: PageId, length: nat)

  /** One record of the persisted free list: who freed the page (0: anyone may take it). */
  datatype Freed = Freed(txid: TxId, page: PageId)

  datatype Page =
    | Leaf(entries: seq<Stored>)
    | Branch(keys: seq<Bytes>, children: seq<PageId>)
    | Blob(next: PageId, bytes: Bytes)
    | FreeList(next: PageId, freed: seq<Freed>)

  datatype Meta = Meta(txid: TxId, root: PageId, freelist: PageId, pageCount: TxId, clean: bool)

  /** What a page-sized cell of the file holds. A checksum turns a half-written cell into Torn. */
  datatype Cell = MetaCell(meta: Meta) | PageCell(page: Page) | Label | Torn

  datatype Disk = Disk(durable: map<PageId, Cell>, unsynced: map<PageId, Cell>) {
    /** What a read sees: the last write, synced or not. */
    function View(): map<PageId, Cell> { durable + unsynced }

    function WriteAt(id: PageId, cell: Cell): Disk { Disk(durable, unsynced[id := cell]) }

    function Sync(): Disk { Disk(View(), map[]) }
  }

  /** The page a read of `id` returns, or nothing when the cell is torn or is not there. */
  function ReadPage(cells: map<PageId, Cell>, id: PageId): Option<Page> {
    if id in cells && cells[id].PageCell? then Some(cells[id].page) else None
  }

  /** The pages a page leads to. */
  function Refs(page: Page): set<PageId> {
    match page
    case Leaf(entries) => set i | 0 <= i < |entries| && entries[i].Chained? :: entries[i].head
    case Branch(_, children) => set i | 0 <= i < |children| :: children[i]
    case Blob(next, _) => if next == 0 then {} else {next}
    case FreeList(next, _) => if next == 0 then {} else {next}
  }

  /** A cell with no un-synced write keeps what was durable; a cell with one may hold anything. */
  ghost predicate Scrambled(disk: Disk, image: map<PageId, Cell>) {
    && (forall id :: id !in disk.unsynced ==> (id in image <==> id in disk.durable))
    && (forall id :: id in disk.durable && id !in disk.unsynced ==> image[id] == disk.durable[id])
  }

  /**
   What a crash may leave of a file with meta pages. A meta slot is smaller than
   a sector: it is the old one, the new one, or torn. Every other cell with an
   un-synced write may hold anything at all.
   */
  ghost predicate Crashed(disk: Disk, image: map<PageId, Cell>) {
    && Scrambled(disk, image)
    && (forall id | id in disk.unsynced && id < 2 ::
          || (id in image && (image[id] == disk.unsynced[id] || image[id] == Torn))
          || (id in image && id in disk.durable && image[id] == disk.durable[id])
          || (id !in image && id !in disk.durable))
  }

  function ReadMeta(cells: map<PageId, Cell>, id: PageId): Option<Meta> {
    if id in cells && cells[id].MetaCell? then Some(cells[id].meta) else None
  }

  /** The other meta slot. */
  function Other(slot: PageId): PageId { if slot == 0 then 1 else 0 }

  datatype Loaded = Loaded(meta: Meta, nextMeta: PageId)

  /** loadMeta: the newer of the two meta pages, and the slot the next commit writes. */
  function LoadMeta(cells: map<PageId, Cell>): Option<Loaded> {
    match (ReadMeta(cells, 0), ReadMeta(cells, 1))
    case (None, None) => None
    case (Some(first), None) => Some(Loaded(first, 1))
    case (None, Some(second)) => Some(Loaded(second, 0))
    case (Some(first), Some(second)) =>
      if second.txid > first.txid then Some(Loaded(second, 0))
      else if second.txid == first.txid && second.clean && !first.clean then Some(Loaded(second, 0))
      else Some(Loaded(first, 1))
  }

  /**
   What one transaction left: its meta, the pages reachable from its root, and
   the pages of its free list with the chain they form.
   */
  datatype Version = Version(meta: Meta, tree: map<PageId, Page>, list: map<PageId, Page>, chain: seq<PageId>, freed: seq<Freed>)

  /** Every page of the version is durable, and no un-synced write is on top of one. */
  ghost predicate Intact(disk: Disk, v: Version) {
    && (forall id | id in v.tree :: id !in disk.unsynced && id in disk.durable && disk.durable[id] == PageCell(v.tree[id]))
    && (forall id | id in v.list :: id !in disk.unsynced && id in disk.durable && disk.durable[id] == PageCell(v.list[id]))
  }

  /** A crash image still holds every page of the version. */
  ghost predicate Held(image: map<PageId, Cell>, v: Version) {
    && (forall id | id in v.tree :: ReadPage(image, id) == Some(v.tree[id]))
    && (forall id | id in v.list :: ReadPage(image, id) == Some(v.list[id]))
  }

  /**
   The state of the file at any instant of any run: `stable` is the last
   acknowledged transaction, held by the other slot; `flight` is the
   transaction whose meta page has been written to `slot` and not yet synced.
   */
  ghost predicate Guarded(disk: Disk, stable: Version, slot: PageId, flight: Option<Version>) {
    && 0 <= slot < 2
    && Intact(disk, stable)
    && Other(slot) !in disk.unsynced
    && Other(slot) in disk.durable && disk.durable[Other(slot)] == MetaCell(stable.meta)
    && LoadMeta(disk.durable).Some? && LoadMeta(disk.durable).value.meta == stable.meta
    && (slot in disk.durable ==> !disk.durable[slot].PageCell?)
    && match flight
       case None => slot !in disk.unsynced
       case Some(next) =>
         && slot in disk.unsynced && disk.unsynced[slot] == MetaCell(next.meta)
         && next.meta.txid > stable.meta.txid
         && Intact(disk, next)
  }

  /** The meta slots hold metas, or nothing readable. */
  ghost predicate NoPageInSlots(image: map<PageId, Cell>) {
    (0 in image ==> !image[0].PageCell?) && (1 in image ==> !image[1].PageCell?)
  }

  /**
   Crash safety of one instant: whatever subset of the un-synced writes survives,
   `loadMeta` finds the last acknowledged transaction or the one in flight, and
   every page of the one it finds still holds its committed contents.
   */
  lemma CrashRecovers(disk: Disk, stable: Version, slot: PageId, flight: Option<Version>, image: map<PageId, Cell>)
    requires Guarded(disk, stable, slot, flight)
    requires Crashed(disk, image)
    ensures LoadMeta(image).Some? && NoPageInSlots(image)
    ensures
      var found := LoadMeta(image).value;
      || (found.meta == stable.meta && Held(image, stable))
      || (flight.Some? && found.meta == flight.value.meta && Held(image, flight.value))
    ensures flight.None? ==> LoadMeta(image).value.meta == stable.meta
  {
    assert ReadMeta(image, Other(slot)) == ReadMeta(disk.durable, Other(slot)) == Some(stable.meta);
    assert Held(image, stable);
    match flight
    case None =>
      assert ReadMeta(image, slot) == ReadMeta(disk.durable, slot);
    case Some(next) =>
      assert Held(image, next);
      assert ReadMeta(image, slot) in {None, ReadMeta(disk.durable, slot), Some(next.meta)};
  }

  lemma WriteKeepsIntact(disk: Disk, v: Version, id: PageId, cell: Cell)
    requires Intact(disk, v) && id !in v.tree && id !in v.list
    ensures Intact(disk.WriteAt(id, cell), v)
  {
  }

  /** A write on top of a page of the version is the only kind that takes it away. */
  lemma WriteIntactExactly(disk: Disk, v: Version, id: PageId, cell: Cell)
    requires Intact(disk, v)
    ensures Intact(disk.WriteAt(id, cell), v) <==> id !in v.tree && id !in v.list
  {
    var now := disk.WriteAt(id, cell);
    assert id in now.unsynced;
  }

  /** Writing a data page no version holds moves neither version. */
  lemma WriteKeepsGuarded(disk: Disk, stable: Version, slot: PageId, id: PageId, cell: Cell)
    requires Guarded(disk, stable, slot, None) && id >= 2 && id !in stable.tree && id !in stable.list
    ensures Guarded(disk.WriteAt(id, cell), stable, slot, None)
  {
    WriteKeepsIntact(disk, stable, id, cell);
  }

  lemma SyncKeepsGuarded(disk: Disk, stable: Version, slot: PageId)
    requires Guarded(disk, stable, slot, None)
    ensures Guarded(disk.Sync(), stable, slot, None)
    ensures disk.Sync().View() == disk.View()
  {
  }

  /** The meta page goes out only when everything it points at is durable: a transaction is now in flight. */
  lemma MetaTakesOff(disk: Disk, stable: Version, slot: PageId, next: Version)
    requires Guarded(disk, stable, slot, None) && disk.unsynced == map[]
    requires Intact(disk, next) && slot !in next.tree && slot !in next.list
    requires slot !in stable.tree && slot !in stable.list
    requires next.meta.txid > stable.meta.txid
    ensures Guarded(disk.WriteAt(slot, MetaCell(next.meta)), stable, slot, Some(next))
  {
    WriteKeepsIntact(disk, stable, slot, MetaCell(next.meta));
    WriteKeepsIntact(disk, next, slot, MetaCell(next.meta));
  }

  /** The second sync: the transaction in flight is now the stable one, and the slots change roles. */
  lemma MetaLands(disk: Disk, stable: Version, slot: PageId, next: Version)
    requires Guarded(disk, stable, slot, Some(next))
    ensures Guarded(disk.Sync(), next, Other(slot), None)
  {
  }

  /** The pages of a file, by what a read of them returns. */
  function PagesIn(cells: map<PageId, Cell>): map<PageId, Page> {
    map id | id in cells && cells[id].PageCell? :: cells[id].page
  }

  lemma PagesAfterWrite(disk: Disk, id: PageId, page: Page)
    ensures PagesIn(disk.WriteAt(id, PageCell(page)).View()) == PagesIn(disk.View())[id := page]
  {
  }

  lemma PagesAfterMeta(disk: Disk, stable: Version, slot: PageId, meta: Meta)
    requires Guarded(disk, stable, slot, None)
    ensures PagesIn(disk.WriteAt(slot, MetaCell(meta)).View()) == PagesIn(disk.View())
  {
  }

  lemma PagesAfterSync(disk: Disk)
    ensures PagesIn(disk.Sync().View()) == PagesIn(disk.View())
  {
    assert disk.Sync().View() == disk.View();
  }

  /** After a sync every page a read returns is durable. */
  lemma SyncedIsIntact(disk: Disk, v: Version)
    requires disk.unsynced == map[]
    requires forall id | id in v.tree :: id in PagesIn(disk.View()) && v.tree[id] == PagesIn(disk.View())[id]
    requires forall id | id in v.list :: id in PagesIn(disk.View()) && v.list[id] == PagesIn(disk.View())[id]
    ensures Intact(disk, v)
  {
    assert disk.View() == disk.durable;
  }
}
