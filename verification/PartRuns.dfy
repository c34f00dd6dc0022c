/**
 Whole runs over a database of several files: what every deed does, and where a
 crash in the middle of any of them lands.
 */
module PartRuns {
  import opened Bytes
  import opened Words
  import opened Options
  import opened PageFile
  import opened FreeLists
  import opened Pagers
  import opened Sorted
  import opened Trees
  import opened Nodes
  import opened Ledgers
  import opened Surgery
  import opened Prunings
  import opened Btrees
  import opened Runs
  import opened Parts

  /** What a client can ask of the store between two commits, and the commit and the rollback. */
  datatype Deed =
    | Make(name: Name)
    | Drop(name: Name)
    | Grow(name: Name, page: Page)
    | Rewrite(name: Name, id: PageId, page: Page)
    | Discard(name: Name, id: PageId)
    | Hang(name: Name, root: PageId)
    | Note(key: Bytes, value: Bytes)
    | Settle
    | Undo

  /** One open partition: its tree in hand, its books, where its tree hangs from and where it did. */
  datatype Sight = Sight(tree: map<PageId, Page>, book: Book, root: PageId, was: PageId)

  /** A store as a value: what is committed, what is dropped or set aside since, what is open, and the leader's tree in hand. */
  datatype Shot =
    Shot(kept: Version, catalog: Catalog, dropped: set<Name>, aside: set<Name>, open: map<Name, Sight>, tree: Option<Tree>, maxPages: nat)

  ghost function SightOf(p: Pager, root: PageId): Sight
    reads p
  {
    Sight(Restrict(p.Pages(), p.owned), p.Books(), root, p.meta.root)
  }

  ghost function Sights(parts: map<Name, Pager>, roots: map<Name, PageId>): map<Name, Sight>
    reads set n | n in parts :: parts[n]
  {
    map n | n in parts && n in roots :: SightOf(parts[n], roots[n])
  }

  ghost function ShotOf(s: Store): Shot
    reads s, s.leader, s.leader.pages, s.Pagers()
  {
    Shot(s.leader.pages.stable, s.catalog, s.dropped, s.dropping.Keys, Sights(s.parts, s.roots), s.leader.tree, s.leader.pages.maxPages)
  }

  ghost function Now(a: Shot): Catalog { a.catalog - a.dropped }

  // ---- when a deed is done, and what it does ----

  ghost predicate OwnKey(key: Bytes) { key != [] && key[0] == 7 }

  /** Exactly when a deed is done, as far as that can be told before it. */
  ghost predicate Fated(deed: Deed, a: Shot, did: bool) {
    match deed
    case Make(n) => did <==> n in a.open || (Usable(n) && n !in a.aside && (n in Now(a) ==> NoPageOne(a.catalog[n].freed)))
    case Drop(n) => did || |n| >= MAX_KEY || a.maxPages > 0 || Overflows(a.tree, PartKey(n))
    case Grow(n, _) => did <==> n in a.open
    case Rewrite(n, id, _) => did <==> n in a.open && a.open[n].book.Dirty(id)
    case Discard(n, id) => did <==> n in a.open && id in a.open[n].tree
    case Hang(n, _) => did <==> n in a.open
    case Note(k, v) => (did ==> !OwnKey(k)) && (did || OwnKey(k) || a.maxPages > 0 || Unfit(a.tree, k, v))
    case Settle => did || a.maxPages > 0
    case Undo => did
  }

  /** Everything since the last commit is thrown away: what is recorded is open where it is recorded, and the leader's tree is the committed one. */
  ghost predicate Undone(a: Shot, b: Shot) {
    && b.kept == a.kept && Denotes(b.kept, ContentsOf(b.tree)) && b.catalog == a.catalog && b.dropped == {} &&
      b.aside == a.aside - a.catalog.Keys && b.maxPages == a.maxPages
    && b.open.Keys == (a.open.Keys + a.aside) * a.catalog.Keys
    && forall n | n in b.open :: b.open[n].tree == a.catalog[n].tree && b.open[n].root == a.catalog[n].meta.root
  }

  /** A rollback is asked for, or follows because the leader or a commit failed. */
  ghost predicate RollsBack(deed: Deed, did: bool) {
    if did then deed.Undo? else deed.Drop? || deed.Settle? || (deed.Note? && !OwnKey(deed.key))
  }

  /** What a deed that was done, or was not, leaves. */
  ghost predicate Leaves(deed: Deed, did: bool, a: Shot, b: Shot) {
    if !did then (if RollsBack(deed, did) then Undone(a, b) else b == a)
    else
      match deed
      case Make(n) => if n in a.open then b == a else Opened(n, a, b)
      case Drop(n) =>
        && b == a.(open := a.open - {n}, aside := if n in a.open then a.aside + {n} else a.aside,
                   dropped := if n in a.open || n in Now(a) then a.dropped + {n} else a.dropped, tree := b.tree)
        && Beside(ContentsOf(a.tree), ContentsOf(b.tree))
      case Grow(n, page) => Grown(n, page, a, b)
      case Rewrite(n, id, page) =>
        && n in a.open && n in b.open && b == a.(open := a.open[n := b.open[n]]) && b.open[n].root == a.open[n].root
        && b.open[n].tree == if id in a.open[n].tree then a.open[n].tree[id := page] else a.open[n].tree
      case Discard(n, id) =>
        && n in a.open && n in b.open && b == a.(open := a.open[n := b.open[n]]) && b.open[n].root == a.open[n].root
        && b.open[n].tree == a.open[n].tree - {id}
      case Hang(n, root) => n in a.open && b == a.(open := a.open[n := a.open[n].(root := root)])
      case Note(k, v) => b == a.(tree := b.tree) && ContentsOf(b.tree) == Updated(ContentsOf(a.tree), k, v)
      case Settle => Settled(a, b)
      case Undo => Undone(a, b)
  }

  ghost predicate Opened(n: Name, a: Shot, b: Shot) {
    && n in b.open && b == a.(open := a.open[n := b.open[n]])
    && b.open[n].tree == (if n in Now(a) then a.catalog[n].tree else map[])
    && b.open[n].root == if n in Now(a) then a.catalog[n].meta.root else 0
  }

  ghost predicate Grown(n: Name, page: Page, a: Shot, b: Shot) {
    && n in a.open && n in b.open && b == a.(open := a.open[n := b.open[n]]) && b.open[n].root == a.open[n].root
    && exists id :: id !in a.open[n].tree && id in b.open[n].book.taken && b.open[n].tree == a.open[n].tree[id := page]
  }

  /**
   The catalog is what was recorded and kept, and the tree in hand of everything that
   had something to record; the leader's tree in hand is committed with it.
   */
  ghost predicate Settled(a: Shot, b: Shot) {
    && ComesFrom(b.catalog, Now(a), TreesIn(a.open), RootsIn(a.open), PendingIn(a.open))
    && b.dropped == {} && b.aside == a.aside - a.dropped && b.maxPages == a.maxPages
    && Denotes(b.kept, ContentsOf(b.tree)) && Beside(ContentsOf(a.tree), ContentsOf(b.tree))
    && TreesIn(b.open) == TreesIn(a.open) && RootsIn(b.open) == RootsIn(a.open)
  }

  ghost function TreesIn(open: map<Name, Sight>): map<Name, map<PageId, Page>> { map n | n in open :: open[n].tree }

  ghost function RootsIn(open: map<Name, Sight>): map<Name, PageId> { map n | n in open :: open[n].root }

  ghost function PendingIn(open: map<Name, Sight>): set<Name> {
    set n | n in open && (open[n].book.taken != {} || open[n].book.free.freeing != [] || open[n].was != open[n].root)
  }

  /**
   Where the instants of a deed land: on the leader version and the catalog there
   were, and during a commit, once the leader's meta is out, on the new ones.
   */
  ghost predicate Stage(seen: seq<Instant>, deed: Deed, did: bool, a: Shot, b: Shot) {
    if deed.Settle? && did then Turns(seen, a.kept, b.kept, a.catalog, b.catalog, {}) else Steady(seen, a.kept, a.catalog, {})
  }

  /** The instants leave nothing out; a rollback after them, which moves no file, may change what is open. */
  ghost predicate Traced(a: Scene, seen: seq<Instant>, b: Scene) { exists m :: Shows(a, seen, m) && Shows(m, [], b) }

  // ---- one deed ----

  /** The store after a deed: it can go on, and the trail holds all that the files went through meanwhile. */
  ghost predicate Done(s: Store, deed: Deed, did: bool, a: Shot, before: seq<Instant>, scene: Scene)
    reads s, s.leader, s.leader.pages, s.Pagers()
  {
    && s.Valid() && Fated(deed, a, did) && Leaves(deed, did, a, ShotOf(s))
    && before <= s.trail && Traced(scene, s.trail[|before|..], s.Here()) && Stage(s.trail[|before|..], deed, did, a, ShotOf(s))
  }

  /**
   Why a run stops: a dropped name is made anew, a page number outgrows its record in
   a commit, or a rollback, asked for or after a deed that failed as it may, meets
   page 1 on a free list.
   */
  ghost predicate Stopped(s: Store, deed: Deed, did: bool, a: Shot)
    reads s, s.leader, s.leader.pages, s.Pagers()
  {
    || (deed.Make? && did && Fated(deed, a, did) && deed.name in a.dropped && s.Loose() && s.remade == {deed.name} && s.catalog == a.catalog)
    || (deed.Settle? && !did && s.Restorable() && exists n :: n in s.parts && !Recordable(PositionOf(s.parts[n].meta)))
    || (RollsBack(deed, did) && Fated(deed, a, did) && Spoilt(a))
  }

  /** Page 1 is on the recorded free list of a partition that is open or set aside. */
  ghost predicate Spoilt(a: Shot) { exists n :: n in a.open.Keys + a.aside && n in a.catalog && !NoPageOne(a.catalog[n].freed) }

  /** Only the store's own objects have changed, and new ones. */
  twostate predicate Within(s: Store)
    reads s, s.leader
  {
    && s.leader.pages == old(s.leader.pages) && (s.leader == old(s.leader) || fresh(s.leader))
    && fresh(s.Pagers() - old(s.Pagers()))
  }

  /** The call said what the trail gained, and nothing was rolled back. */
  lemma WentIsDone(s: Store, deed: Deed, did: bool, a: Shot, before: seq<Instant>, scene: Scene)
    requires s.Valid() && s.remade == {} && s.Went(before, scene) && a.catalog == s.catalog && a.kept == s.leader.pages.stable && !deed.Settle?
    requires Fated(deed, a, did) && Leaves(deed, did, a, ShotOf(s))
    ensures Done(s, deed, did, a, before, scene)
  {
    hide Store.Valid;
    hide Fated;
    hide Leaves;
    hide Shows;
    hide Steady;
    hide Store.Here;
    ShowsNothing(s.Here(), s.Here());
    assert Traced(scene, s.trail[|before|..], s.Here());
  }

  lemma SightsAre(parts: map<Name, Pager>, roots: map<Name, PageId>)
    requires roots.Keys == parts.Keys
    ensures Sights(parts, roots).Keys == parts.Keys && forall n | n in parts :: Sights(parts, roots)[n] == SightOf(parts[n], roots[n])
  {
    hide SightOf;
  }

  /** Only one partition has changed. */
  lemma OneSight(parts: map<Name, Pager>, roots: map<Name, PageId>, open: map<Name, Sight>, name: Name)
    requires roots.Keys == parts.Keys && name in parts && open.Keys <= parts.Keys
    requires forall n | n in parts && n != name :: n in open && open[n] == SightOf(parts[n], roots[n])
    ensures Sights(parts, roots) == open[name := SightOf(parts[name], roots[name])]
  {
    hide SightOf;
  }

  lemma ValidFacts(s: Store)
    requires s.Valid()
    ensures s.Calm() && s.Loose() && s.roots.Keys == s.parts.Keys && s.Apart() && s.remade == {} && s.unlinked == {}
    ensures forall n | n in s.parts :: s.parts[n].Valid() && Filled(s.parts[n].Pages(), s.parts[n].owned)
  {
    hide Store.States;
    hide Store.LeaderLists;
    hide Store.Distinct;
    hide Recorded;
    hide Store.AtRest;
    hide Filled;
    hide Pager.Valid;
    s.CalmFacts();
    forall n | n in s.parts ensures s.parts[n].Valid() && Filled(s.parts[n].Pages(), s.parts[n].owned) { s.PartRests(n); }
  }

  lemma LooseIsValid(s: Store)
    requires s.Loose() && s.remade == {}
    ensures s.Valid()
  {
    hide Store.Loose;
  }

  lemma LooseIsSound(s: Store)
    requires s.Loose()
    ensures AllSound(s.trail)
  {
    hide Store.Calm;
    hide AllSound;
    hide Recorded;
    LoggedIsSound(s);
  }

  lemma WentOn(s: Store, before: seq<Instant>, scene: Scene)
    requires s.Went(before, scene)
    ensures before <= s.trail
  {
  }

  lemma LoggedIsSound(s: Store)
    requires s.Logged()
    ensures AllSound(s.trail)
  {
    hide AllSound;
    hide Parts.Chained;
  }

  method DoGrow(s: Store, name: Name, page: Page) returns (did: bool)
    requires s.Valid()
    modifies s, s.leader, s.leader.pages, s.Pagers()
    ensures Done(s, Grow(name, page), did, old(ShotOf(s)), old(s.trail), old(s.Here())) && Within(s)
  {
    hide Unfit;
    hide Overflows;
    hide WithAside;
    hide Denotes;
    hide ContentsOf;
    hide Disk.View;
    hide Disk.WriteAt;
    hide Done;
    hide Store.Valid;
    hide Store.Loose;
    hide Store.Calm;
    hide Recorded;
    hide Pager.Valid;
    hide Store.Went;
    hide Store.Here;
    hide SightOf;
    hide Restrict;
    hide PagesIn;
    hide PagesKept;
    hide Intact;
    ValidFacts(s);
    SightsAre(s.parts, s.roots);
    ghost var a := ShotOf(s);
    if name !in s.parts {
      s.GoneNowhere(s.Here());
      WentIsDone(s, Grow(name, page), false, a, s.trail, s.Here());
      return false;
    }
    ghost var p := s.parts[name];
    ghost var pages, owned := p.Pages(), p.owned;
    SightIs(p, s.roots[name]);
    var id := s.GrowPage(name, page);
    LooseIsValid(s);
    SightIs(p, s.roots[name]);
    RestrictGrows(pages, owned, id, page);
    RestrictOwned(pages, owned);
    OneSight(s.parts, s.roots, a.open, name);
    assert Grown(name, page, a, ShotOf(s));
    WentIsDone(s, Grow(name, page), true, a, old(s.trail), old(s.Here()));
    did := true;
  }

  lemma SightIs(p: Pager, root: PageId)
    ensures SightOf(p, root) == Sight(Restrict(p.Pages(), p.owned), p.Books(), root, p.meta.root)
  {
  }

  lemma RestrictOwned(pages: map<PageId, Page>, owned: set<PageId>)
    requires Filled(pages, owned)
    ensures Restrict(pages, owned).Keys == owned
  {
  }

  lemma RestrictWrites(pages: map<PageId, Page>, owned: set<PageId>, id: PageId, page: Page)
    requires Filled(pages, owned)
    ensures Restrict(pages[id := page], owned) == if id in owned then Restrict(pages, owned)[id := page] else Restrict(pages, owned)
  {
  }

  lemma RestrictLess(pages: map<PageId, Page>, owned: set<PageId>, id: PageId)
    ensures Restrict(pages, owned - {id}) == Restrict(pages, owned) - {id}
  {
  }

  /** The store is as `a` says but for one partition. */
  ghost predicate But(s: Store, name: Name, a: Shot)
    reads s, s.leader, s.leader.pages, s.Pagers()
  {
    && name in s.parts && s.roots.Keys == s.parts.Keys == a.open.Keys && a == ShotOf(s).(open := a.open)
    && forall n | n in s.parts && n != name :: a.open[n] == SightOf(s.parts[n], s.roots[n])
  }

  lemma RewriteLeaves(s: Store, name: Name, id: PageId, page: Page, a: Shot, pages: map<PageId, Page>)
    requires But(s, name, a) && s.parts[name].Pages() == pages[id := page] && Filled(pages, s.parts[name].owned)
    requires a.open[name].tree == Restrict(pages, s.parts[name].owned) && a.open[name].root == s.roots[name]
    ensures Leaves(Rewrite(name, id, page), true, a, ShotOf(s))
  {
    hide Restrict;
    hide SightOf;
    hide PagesIn;
    var p := s.parts[name];
    SightIs(p, s.roots[name]);
    RestrictWrites(pages, p.owned, id, page);
    RestrictOwned(pages, p.owned);
    OneSight(s.parts, s.roots, a.open, name);
  }

  lemma DiscardLeaves(s: Store, name: Name, id: PageId, a: Shot, owned: set<PageId>)
    requires But(s, name, a) && s.parts[name].owned == owned - {id}
    requires a.open[name].tree == Restrict(s.parts[name].Pages(), owned) && a.open[name].root == s.roots[name]
    ensures Leaves(Discard(name, id), true, a, ShotOf(s))
  {
    hide Restrict;
    hide SightOf;
    hide PagesIn;
    var p := s.parts[name];
    SightIs(p, s.roots[name]);
    RestrictLess(p.Pages(), owned, id);
    OneSight(s.parts, s.roots, a.open, name);
  }

  method DoRewrite(s: Store, name: Name, id: PageId, page: Page) returns (did: bool)
    requires s.Valid()
    modifies s, s.leader, s.leader.pages, s.Pagers()
    ensures Done(s, Rewrite(name, id, page), did, old(ShotOf(s)), old(s.trail), old(s.Here())) && Within(s)
  {
    hide Done;
    hide ShotOf;
    hide Store.Valid;
    hide Store.Here;
    if name !in s.parts || !s.parts[name].Dirty(id) {
      RewriteIdle(s, name, id, page);
      return false;
    }
    RewriteIn(s, name, id, page);
    did := true;
  }

  lemma RewriteIdle(s: Store, name: Name, id: PageId, page: Page)
    requires s.Valid() && (name !in s.parts || !s.parts[name].Dirty(id))
    ensures Done(s, Rewrite(name, id, page), false, ShotOf(s), s.trail, s.Here())
  {
    hide Done;
    hide Store.Valid;
    hide Store.Loose;
    hide Store.Calm;
    hide Recorded;
    hide Pager.Valid;
    hide Store.Went;
    hide Store.Here;
    hide SightOf;
    hide Restrict;
    hide PagesIn;
    hide PagesKept;
    hide Intact;
    ValidFacts(s);
    SightsAre(s.parts, s.roots);
    if name in s.parts { SightIs(s.parts[name], s.roots[name]); }
    s.GoneNowhere(s.Here());
    WentIsDone(s, Rewrite(name, id, page), false, ShotOf(s), s.trail, s.Here());
  }

  method RewriteIn(s: Store, name: Name, id: PageId, page: Page)
    requires s.Valid() && name in s.parts && s.parts[name].Dirty(id)
    modifies s, s.leader, s.leader.pages, s.Pagers()
    ensures Done(s, Rewrite(name, id, page), true, old(ShotOf(s)), old(s.trail), old(s.Here())) && Within(s)
  {
    hide Done;
    hide Store.Valid;
    hide Store.Loose;
    hide Store.Calm;
    hide Recorded;
    hide Pager.Valid;
    hide Store.Went;
    hide Store.Here;
    hide SightOf;
    hide Restrict;
    hide PagesIn;
    hide PagesKept;
    hide Intact;
    hide Leaves;
    ValidFacts(s);
    SightsAre(s.parts, s.roots);
    ghost var a, pages := ShotOf(s), s.parts[name].Pages();
    SightIs(s.parts[name], s.roots[name]);
    s.WritePage(name, id, page);
    LooseIsValid(s);
    RewriteLeaves(s, name, id, page, a, pages);
    WentIsDone(s, Rewrite(name, id, page), true, a, old(s.trail), old(s.Here()));
  }

  method DoDiscard(s: Store, name: Name, id: PageId) returns (did: bool)
    requires s.Valid()
    modifies s, s.leader, s.leader.pages, s.Pagers()
    ensures Done(s, Discard(name, id), did, old(ShotOf(s)), old(s.trail), old(s.Here())) && Within(s)
  {
    hide Whole;
    hide Sights;
    hide Denotes;
    hide ContentsOf;
    hide Book.WithFree;
    hide Disk.View;
    hide Done;
    hide Pager.Holds;
    hide Store.Valid;
    hide Store.Loose;
    hide Store.Calm;
    hide Recorded;
    hide Pager.Valid;
    hide Store.Went;
    hide Store.Here;
    hide SightOf;
    hide Restrict;
    hide PagesIn;
    ValidFacts(s);
    SightsAre(s.parts, s.roots);
    ghost var a := ShotOf(s);
    s.GoneNowhere(s.Here());
    if name in s.parts {
      SightIs(s.parts[name], s.roots[name]);
      s.parts[name].HoldsOwned(id);
      RestrictOwned(s.parts[name].Pages(), s.parts[name].owned);
    }
    if name !in s.parts || !s.parts[name].Holds(id) {
      WentIsDone(s, Discard(name, id), false, a, s.trail, s.Here());
      return false;
    }
    ghost var p := s.parts[name];
    ghost var pages, owned := p.Pages(), p.owned;
    s.FreePage(name, id);
    LooseIsValid(s);
    s.GoneNowhere(s.Here());
    DiscardLeaves(s, name, id, a, owned);
    hide Leaves;
    WentIsDone(s, Discard(name, id), true, a, old(s.trail), old(s.Here()));
    did := true;
  }

  method DoHang(s: Store, name: Name, root: PageId) returns (did: bool)
    requires s.Valid()
    modifies s, s.leader, s.leader.pages, s.Pagers()
    ensures Done(s, Hang(name, root), did, old(ShotOf(s)), old(s.trail), old(s.Here())) && Within(s)
  {
    hide PagesIn;
    hide Filled;
    hide Whole;
    hide NoPageOne;
    hide Sights;
    hide Store.Valid;
    hide Store.Loose;
    hide Store.Calm;
    hide Recorded;
    hide Pager.Valid;
    hide Store.Went;
    hide Store.Here;
    hide SightOf;
    hide Restrict;
    ValidFacts(s);
    SightsAre(s.parts, s.roots);
    ghost var a := ShotOf(s);
    s.GoneNowhere(s.Here());
    if name !in s.parts {
      WentIsDone(s, Hang(name, root), false, a, s.trail, s.Here());
      return false;
    }
    ghost var p := s.parts[name];
    SightIs(p, s.roots[name]);
    s.MoveRoot(name, root);
    LooseIsValid(s);
    s.GoneNowhere(s.Here());
    SightIs(p, root);
    OneSight(s.parts, s.roots, a.open, name);
    WentIsDone(s, Hang(name, root), true, a, old(s.trail), old(s.Here()));
    did := true;
  }

  /** Part, as a deed of a run: the run ends where a name dropped since the last commit is made anew. */
  method DoMake(s: Store, name: Name) returns (did: bool, go: bool)
    requires s.Valid()
    modifies s, s.leader, s.leader.pages, s.Pagers()
    ensures Within(s) && old(s.trail) <= s.trail && (!go ==> AllSound(s.trail)) && Fated(Make(name), old(ShotOf(s)), did) &&
        (go <==> !did || name !in old(s.dropped))
    ensures go ==> Done(s, Make(name), did, old(ShotOf(s)), old(s.trail), old(s.Here()))
    ensures !go ==> Stopped(s, Make(name), did, old(ShotOf(s)))
  {
    hide Fated;
    hide Store.Pagers;
    hide Store.Trees;
    hide Store.Reached;
    hide Leaves;
    hide Done;
    hide Store.Valid;
    hide Store.Loose;
    hide AllSound;
    hide Store.Calm;
    hide Recorded;
    hide Pager.Valid;
    hide Store.Went;
    hide Store.Here;
    hide SightOf;
    hide Restrict;
    hide PagesIn;
    hide Usable;
    hide NoPageOne;
    hide Intact;
    ValidFacts(s);
    SightsAre(s.parts, s.roots);
    ghost var a, was, roots := ShotOf(s), s.parts, s.roots;
    ShotIs(s);
    MakeFates(a, name);
    hide ShotOf;
    ghost var trees, pagers := s.Trees(), s.Pagers();
    did := s.Part(name);
    go := !did || name !in s.dropped;
    LooseIsSound(s);
    WentOn(s, old(s.trail), old(s.Here()));
    if go {
      LooseIsValid(s);
      MadeLeaves(s, name, did, a, was, roots, trees);
      WentIsDone(s, Make(name), did, a, old(s.trail), old(s.Here()));
    }
  }

  lemma MakeFates(a: Shot, n: Name)
    ensures
      var will := n in a.open || (Usable(n) && n !in a.aside && (n in Now(a) ==> NoPageOne(a.catalog[n].freed)));
      Fated(Make(n), a, will) && forall did: bool :: Fated(Make(n), a, did) ==> did == will
  {
    hide Usable;
    hide NoPageOne;
  }

  lemma MadeLeaves(s: Store, name: Name, did: bool, a: Shot, was: map<Name, Pager>, roots: map<Name, PageId>, trees: map<Name, map<PageId, Page>>)
    requires a.open.Keys == was.Keys == roots.Keys && forall n | n in was :: a.open[n] == SightOf(was[n], roots[n])
    requires if did && name !in was then s.Reached(name, was, roots, trees) else s.parts == was && s.roots == roots
    requires a == Shot(s.leader.pages.stable, s.catalog, s.dropped, s.dropping.Keys, a.open, s.leader.tree, s.leader.pages.maxPages)
    requires did ==> name in s.parts
    ensures Leaves(Make(name), did, a, ShotOf(s))
  {
    hide SightOf;
    hide Store.Trees;
    hide Unwritten;
    hide Intact;
    if did && name !in was {
      NewSight(s, name, was, a.open);
    } else {
      SameSights(s, a.open);
    }
  }

  lemma NewSight(s: Store, name: Name, was: map<Name, Pager>, open: map<Name, Sight>)
    requires name in s.parts && s.parts == was[name := s.parts[name]] && name !in was && s.roots.Keys == s.parts.Keys && open.Keys == was.Keys
    requires forall n | n in was :: open[n] == SightOf(was[n], s.roots[n])
    ensures
      var x := Sight(s.Trees()[name], s.parts[name].Books(), s.roots[name], s.parts[name].meta.root);
      Sights(s.parts, s.roots) == open[name := x]
  {
    hide Restrict;
    OneSight(s.parts, s.roots, open, name);
  }

  /** Rollback, after a deed that failed or as a deed itself. */
  method Back(s: Store, ghost a: Shot, ghost before: seq<Instant>, ghost scene: Scene) returns (go: bool)
    requires s.Restorable() && s.remade == {} && s.catalog == a.catalog && s.leader.pages.stable == a.kept && s.leader.pages.maxPages == a.maxPages
    requires s.parts.Keys + s.dropping.Keys == a.open.Keys + a.aside && s.dropping.Keys - s.catalog.Keys == a.aside - s.catalog.Keys
    requires before <= s.trail && Steady(s.trail[|before|..], a.kept, a.catalog, {}) && Shows(scene, s.trail[|before|..], s.Here())
    modifies s, s.leader.pages, s.Pagers()
    ensures s.leader.pages == old(s.leader.pages) && fresh(s.leader) && s.Pagers() <= old(s.Pagers()) && (go <==> !Spoilt(a)) &&
        s.trail == old(s.trail) && AllSound(s.trail)
    ensures go ==> s.Valid() && Undone(a, ShotOf(s)) && before <= s.trail && Traced(scene, s.trail[|before|..], s.Here())
    ensures go ==> Steady(s.trail[|before|..], a.kept, a.catalog, {})
  {
    hide AllSound;
    hide Store.Standing;
    hide Store.Calm;
    hide Recorded;
    hide Shows;
    hide Steady;
    hide Denotes;
    hide Store.Here;
    hide SightOf;
    hide Restrict;
    hide PagesIn;
    hide NoPageOne;
    ghost var middle, open, aside := s.Here(), s.parts.Keys + s.dropping.Keys, s.dropping;
    LoggedIsSound(s);
    go := s.Rollback();
    if go {
      BackInSight(s, open, aside);
      assert s.trail[|s.trail|..] == [];
      assert Shows(scene, s.trail[|before|..], middle) && Shows(middle, [], s.Here());
    }
  }

  lemma BackInSight(s: Store, open: set<Name>, aside: map<Name, Pager>)
    requires s.Reverted(open, aside)
    ensures Sights(s.parts, s.roots).Keys == s.parts.Keys
    ensures forall n | n in s.parts :: n in s.catalog && n in Sights(s.parts, s.roots)
    ensures forall n | n in s.parts :: Sights(s.parts, s.roots)[n].tree == s.catalog[n].tree && Sights(s.parts, s.roots)[n].root == s.catalog[n].meta.root
  {
    hide Restrict;
  }

  method DoUndo(s: Store) returns (go: bool)
    requires s.Valid()
    modifies s, s.leader, s.leader.pages, s.Pagers()
    ensures Within(s) && (go <==> !Spoilt(old(ShotOf(s)))) && s.trail == old(s.trail) && AllSound(s.trail)
    ensures go ==> Done(s, Undo, true, old(ShotOf(s)), old(s.trail), old(s.Here()))
  {
    hide AllSound;
    hide Store.Calm;
    hide Store.Standing;
    hide Recorded;
    hide Shows;
    hide Steady;
    hide Store.Here;
    hide SightOf;
    ValidFacts(s);
    SightsAre(s.parts, s.roots);
    s.CalmStands();
    s.GoneNowhere(s.Here());
    go := Back(s, ShotOf(s), s.trail, s.Here());
  }

  /** DropPart, and the rollback if it failed. */
  method DoDrop(s: Store, name: Name) returns (did: bool, go: bool)
    requires s.Valid()
    modifies s, s.leader, s.leader.pages, s.Pagers()
    ensures Within(s) && old(s.trail) <= s.trail && (!go ==> AllSound(s.trail)) && Fated(Drop(name), old(ShotOf(s)), did) &&
        (go <==> did || !Spoilt(old(ShotOf(s))))
    ensures go ==> Done(s, Drop(name), did, old(ShotOf(s)), old(s.trail), old(s.Here()))
  {
    hide AllSound;
    hide Store.Loose;
    hide Store.Pagers;
    hide Done;
    hide Fated;
    hide Store.Valid;
    hide Store.Calm;
    hide Store.Standing;
    hide Recorded;
    hide Shows;
    hide Steady;
    hide Traced;
    hide Beside;
    hide Overflows;
    hide Pager.Valid;
    hide Store.Here;
    hide SightOf;
    hide Undone;
    hide Spoilt;
    ValidFacts(s);
    SightsAre(s.parts, s.roots);
    ghost var a, was, roots := ShotOf(s), s.parts, s.roots;
    ghost var pagers := s.Pagers();
    PartsAmong(s);
    did := s.Drop(name);
    go := true;
    DropFates(a, name, did, s.leader.pages.maxPages);
    if did {
      DropLeaves(s, name, a, was, roots);
      hide Leaves;
      WentIsDone(s, Drop(name), true, a, old(s.trail), old(s.Here()));
    } else {
      hide Sights;
      go := Back(s, a, old(s.trail), old(s.Here()));
      if go { UndoneDone(s, Drop(name), a, old(s.trail), old(s.Here())); }
    }
    assert s.Pagers() - pagers == {};
    assert s.leader.pages == old(s.leader.pages);
    assert s.leader == old(s.leader) || fresh(s.leader);
    assert fresh(s.Pagers() - old(s.Pagers()));
  }

  lemma DropFates(a: Shot, name: Name, did: bool, maxPages: nat)
    requires a.maxPages == maxPages && (did || |name| >= MAX_KEY || maxPages > 0 || Overflows(a.tree, PartKey(name)))
    ensures Fated(Drop(name), a, did)
  {
    hide Overflows;
  }

  lemma DropLeaves(s: Store, name: Name, a: Shot, was: map<Name, Pager>, roots: map<Name, PageId>)
    requires s.parts == was - {name} && s.roots == roots - {name} && roots.Keys == was.Keys == a.open.Keys
    requires forall n | n in was :: a.open[n] == SightOf(was[n], roots[n])
    requires a.kept == s.leader.pages.stable && a.catalog == s.catalog && a.maxPages == s.leader.pages.maxPages
    requires Beside(ContentsOf(a.tree), ContentsOf(s.leader.tree))
    requires s.dropped == if name in was || name in Now(a) then a.dropped + {name} else a.dropped
    requires s.dropping.Keys == if name in was then a.aside + {name} else a.aside
    ensures Leaves(Drop(name), true, a, ShotOf(s))
  {
    hide SightOf;
    hide Beside;
    assert Sights(s.parts, s.roots) == a.open - {name};
  }

  /** A write beside the records in the leader's tree, and the rollback if it failed. */
  method DoNote(s: Store, key: Bytes, value: Bytes) returns (did: bool, go: bool)
    requires s.Valid()
    modifies s, s.leader, s.leader.pages, s.Pagers()
    ensures Within(s) && old(s.trail) <= s.trail && (!go ==> AllSound(s.trail)) && Fated(Note(key, value), old(ShotOf(s)), did) &&
        (go <==> did || OwnKey(key) || !Spoilt(old(ShotOf(s))))
    ensures go ==> Done(s, Note(key, value), did, old(ShotOf(s)), old(s.trail), old(s.Here()))
  {
    hide AllSound;
    hide Store.Valid;
    hide Store.Calm;
    hide Store.Standing;
    hide Recorded;
    hide Shows;
    hide Steady;
    hide Traced;
    hide Pager.Valid;
    hide Store.Here;
    hide SightOf;
    hide Undone;
    hide Spoilt;
    hide Unfit;
    hide Updated;
    ValidFacts(s);
    SightsAre(s.parts, s.roots);
    ghost var a := ShotOf(s);
    if key != [] && key[0] == 7 {
      s.GoneNowhere(s.Here());
      WentIsDone(s, Note(key, value), false, a, s.trail, s.Here());
      return false, true;
    }
    var out := s.LeaderPut(key, value);
    did, go := out.Done?, true;
    SameSights(s, a.open);
    if did {
      LooseIsValid(s);
      WentIsDone(s, Note(key, value), true, a, old(s.trail), old(s.Here()));
    } else {
      go := Back(s, a, old(s.trail), old(s.Here()));
    }
  }

  lemma SameSights(s: Store, open: map<Name, Sight>)
    requires s.roots.Keys == s.parts.Keys && open.Keys == s.parts.Keys && forall n | n in s.parts :: open[n] == SightOf(s.parts[n], s.roots[n])
    ensures Sights(s.parts, s.roots) == open
  {
    hide SightOf;
  }

  /** Commit, and the rollback if it failed. */
  method DoSettle(s: Store) returns (did: bool, go: bool)
    requires s.Valid()
    modifies s, s.leader, s.leader.pages, s.Pagers()
    ensures Within(s) && old(s.trail) <= s.trail && (!go ==> AllSound(s.trail))
    ensures go ==> Done(s, Settle, did, old(ShotOf(s)), old(s.trail), old(s.Here()))
    ensures !go ==> Stopped(s, Settle, did, old(ShotOf(s)))
  {
    hide Store.Valid;
    hide Store.Loose;
    hide Store.Calm;
    hide Store.Standing;
    hide Store.Trees;
    hide Store.Pending;
    hide Store.Here;
    hide Store.Pagers;
    hide AllSound;
    hide AllThere;
    hide Recorded;
    hide Shows;
    hide Steady;
    hide Turns;
    hide ShotOf;
    hide Spoilt;
    hide Recordable;
    hide ComesFrom;
    hide Beside;
    hide Denotes;
    hide Done;
    hide Fated;
    hide Stopped;
    hide Undone;
    ValidFacts(s);
    ghost var a, trees, pending, before, scene := ShotOf(s), s.Trees(), s.Pending(), s.trail, s.Here();
    ShotIs(s);
    InSight(s);
    PartsAmong(s);
    ghost var pagers := s.Pagers();
    did := s.Commit();
    go := true;
    assert s.Pagers() <= pagers;
    if did {
      SettleDone(s, a, trees, pending, before, scene);
    } else if exists n :: n in s.parts && !Recordable(PositionOf(s.parts[n].meta)) {
      go := false;
      RestorableIsSound(s);
      StoppedFull(s, a);
    } else {
      go := Back(s, a, before, scene);
      assert s.Pagers() <= pagers;
      StoppedSpoilt(s, a);
      SettleFails(a);
      if go { UndoneDone(s, Settle, a, before, scene); }
    }
    assert s.Pagers() - pagers == {};
    assert s.leader.pages == old(s.leader.pages);
    assert s.leader == old(s.leader) || fresh(s.leader);
    assert fresh(s.Pagers() - old(s.Pagers()));
  }

  lemma ShotIs(s: Store)
    requires s.roots.Keys == s.parts.Keys
    ensures
      var a := ShotOf(s);
      && a.kept == s.leader.pages.stable && a.catalog == s.catalog && a.dropped == s.dropped && a.aside == s.dropping.Keys
      && a.open.Keys == s.parts.Keys && a.tree == s.leader.tree && a.maxPages == s.leader.pages.maxPages
  {
    hide SightOf;
  }

  lemma RestorableIsSound(s: Store)
    requires s.Restorable()
    ensures AllSound(s.trail)
  {
    hide Store.Standing;
    hide AllSound;
    hide Recorded;
    LoggedIsSound(s);
  }

  lemma SettleDone(s: Store, a: Shot, trees: map<Name, map<PageId, Page>>, pending: set<Name>, before: seq<Instant>, scene: Scene)
    requires s.Valid() && trees == TreesIn(a.open) == s.Trees() && pending == PendingIn(a.open) && s.roots == RootsIn(a.open)
    requires ComesFrom(s.catalog, Now(a), trees, s.roots, pending) && s.dropped == {} && s.dropping.Keys == a.aside - a.dropped &&
        s.leader.pages.maxPages == a.maxPages
    requires Denotes(s.leader.pages.stable, ContentsOf(s.leader.tree)) && Beside(ContentsOf(a.tree), ContentsOf(s.leader.tree))
    requires before <= s.trail && Shows(scene, s.trail[|before|..], s.Here()) &&
        Turns(s.trail[|before|..], a.kept, s.leader.pages.stable, a.catalog, s.catalog, {})
    ensures Done(s, Settle, true, a, before, scene)
  {
    hide Fated;
    hide Leaves;
    hide Store.Valid;
    hide Store.Trees;
    hide Store.Pending;
    hide Store.Here;
    hide Shows;
    hide Turns;
    hide ComesFrom;
    hide Beside;
    hide Denotes;
    hide Settled;
    hide TreesIn;
    hide RootsIn;
    hide PendingIn;
    hide Sights;
    ValidFacts(s);
    InSight(s);
    Committed(s, a, trees, pending);
    ShowsNothing(s.Here(), s.Here());
    assert Traced(scene, s.trail[|before|..], s.Here());
    assert Stage(s.trail[|before|..], Settle, true, a, ShotOf(s));
    SettleFates(a, ShotOf(s));
  }

  lemma SettleFates(a: Shot, b: Shot)
    requires Settled(a, b)
    ensures Fated(Settle, a, true) && Leaves(Settle, true, a, b)
  {
    hide Settled;
    hide Undone;
  }

  lemma PartsAmong(s: Store)
    ensures forall n | n in s.parts :: s.parts[n] in s.Pagers()
  {
  }

  lemma SettleFails(a: Shot)
    requires a.maxPages > 0
    ensures Fated(Settle, a, false)
  {
  }

  lemma StoppedFull(s: Store, a: Shot)
    requires s.Restorable() && exists n :: n in s.parts && !Recordable(PositionOf(s.parts[n].meta))
    ensures Stopped(s, Settle, false, a)
  {
    hide Store.Restorable;
    hide Recordable;
  }

  lemma StoppedSpoilt(s: Store, a: Shot)
    requires a.maxPages > 0
    ensures Spoilt(a) ==> Stopped(s, Settle, false, a)
  {
    hide Store.Restorable;
    hide Store.Loose;
    hide Spoilt;
    hide Recordable;
  }

  lemma UndoneDone(s: Store, deed: Deed, a: Shot, before: seq<Instant>, scene: Scene)
    requires s.Valid() && Undone(a, ShotOf(s)) && before <= s.trail && Traced(scene, s.trail[|before|..], s.Here())
    requires Steady(s.trail[|before|..], a.kept, a.catalog, {}) && Fated(deed, a, false) && RollsBack(deed, false)
    ensures Done(s, deed, false, a, before, scene)
  {
    hide Store.Valid;
    hide Store.Here;
    hide Steady;
    hide Traced;
    hide Undone;
    hide Fated;
  }

  lemma InSight(s: Store)
    requires s.roots.Keys == s.parts.Keys
    ensures TreesIn(ShotOf(s).open) == s.Trees() && RootsIn(ShotOf(s).open) == s.roots && PendingIn(ShotOf(s).open) == s.Pending()
  {
    hide Restrict;
  }

  lemma Committed(s: Store, a: Shot, trees: map<Name, map<PageId, Page>>, pending: set<Name>)
    requires s.roots.Keys == s.parts.Keys && trees == TreesIn(a.open) && pending == PendingIn(a.open) && s.roots == RootsIn(a.open)
    requires ComesFrom(s.catalog, Now(a), trees, s.roots, pending) && s.dropped == {} && s.dropping.Keys == a.aside - a.dropped &&
        s.leader.pages.maxPages == a.maxPages
    requires Denotes(s.leader.pages.stable, ContentsOf(s.leader.tree)) && Beside(ContentsOf(a.tree), ContentsOf(s.leader.tree))
    requires TreesIn(ShotOf(s).open) == trees && RootsIn(ShotOf(s).open) == s.roots
    ensures Settled(a, ShotOf(s))
  {
    hide ComesFrom;
    hide Beside;
    hide Denotes;
    hide TreesIn;
    hide RootsIn;
    hide PendingIn;
    hide Sights;
  }

  lemma UndoFates(a: Shot)
    ensures Fated(Undo, a, true)
  {
  }

  method Do(s: Store, deed: Deed) returns (did: bool, go: bool)
    requires s.Valid()
    modifies s, s.leader, s.leader.pages, s.Pagers()
    ensures Within(s) && old(s.trail) <= s.trail && AllSound(s.trail)
    ensures go ==> Done(s, deed, did, old(ShotOf(s)), old(s.trail), old(s.Here()))
    ensures !go ==> Stopped(s, deed, did, old(ShotOf(s)))
  {
    hide Store.Valid;
    hide Store.Here;
    hide Traced;
    hide Fated;
    hide Leaves;
    hide Stage;
    hide Spoilt;
    hide ShotOf;
    did, go := true, true;
    match deed {
      case Make(name) => did, go := DoMake(s, name);
      case Drop(name) => did, go := DoDrop(s, name);
      case Grow(name, page) => did := DoGrow(s, name, page);
      case Rewrite(name, id, page) => did := DoRewrite(s, name, id, page);
      case Discard(name, id) => did := DoDiscard(s, name, id);
      case Hang(name, root) => did := DoHang(s, name, root);
      case Note(key, value) => did, go := DoNote(s, key, value);
      case Settle => did, go := DoSettle(s);
      case Undo =>
        UndoFates(ShotOf(s));
        go := DoUndo(s);
    }
    if go { ValidIsSound(s); }
  }

  lemma ValidIsSound(s: Store)
    requires s.Valid()
    ensures AllSound(s.trail)
  {
    hide Store.Calm;
    hide AllSound;
    hide Recorded;
    LoggedIsSound(s);
  }

  // ---- a run ----

  /** Every deed of the run was done or not as fated, and left what it leaves. */
  ghost predicate Explained(script: seq<Deed>, shots: seq<Shot>, fates: seq<bool>) {
    && |fates| <= |script| && |shots| == |fates| + 1
    && forall k | 0 <= k < |fates| :: Fated(script[k], shots[k], fates[k]) && Leaves(script[k], fates[k], shots[k], shots[k + 1])
  }

  /** Where in the trail each deed ended, where its instants land, and that they leave nothing out. */
  ghost predicate Marked(trail: seq<Instant>, script: seq<Deed>, shots: seq<Shot>, fates: seq<bool>, ends: seq<nat>, scenes: seq<Scene>) {
    && |fates| <= |script| && |shots| == |ends| == |scenes| == |fates| + 1
    && (forall k | 0 <= k < |fates| :: ends[k] <= ends[k + 1]) && (forall k | 0 <= k < |ends| :: ends[k] <= |trail|)
    && (forall k | 0 <= k < |fates| :: Stage(trail[ends[k]..ends[k + 1]], script[k], fates[k], shots[k], shots[k + 1]))
    && (forall k | 0 <= k < |fates| :: Traced(scenes[k], trail[ends[k]..ends[k + 1]], scenes[k + 1]))
  }

  lemma MarkedPush(trail: seq<Instant>, now: seq<Instant>, script: seq<Deed>, shots: seq<Shot>, fates: seq<bool>, ends: seq<nat>, scenes: seq<Scene>,
                   did: bool, b: Shot, after: Scene)
    requires Marked(trail, script, shots, fates, ends, scenes) && ends[|fates|] == |trail| && trail <= now && |fates| < |script|
    requires Stage(now[|trail|..], script[|fates|], did, shots[|fates|], b) && Traced(scenes[|fates|], now[|trail|..], after)
    ensures Marked(now, script, shots + [b], fates + [did], ends + [|now|], scenes + [after])
  {
    hide Stage;
    hide Traced;
    var shots1, fates1, ends1, scenes1 := shots + [b], fates + [did], ends + [|now|], scenes + [after];
    forall k | 0 <= k < |fates1|
      ensures Stage(now[ends1[k]..ends1[k + 1]], script[k], fates1[k], shots1[k], shots1[k + 1])
      ensures Traced(scenes1[k], now[ends1[k]..ends1[k + 1]], scenes1[k + 1])
    {
      if k < |fates| {
        assert now[ends[k]..ends[k + 1]] == trail[ends[k]..ends[k + 1]];
      } else {
        assert now[ends1[k]..ends1[k + 1]] == now[|trail|..];
      }
    }
  }

  lemma ExplainedPush(script: seq<Deed>, shots: seq<Shot>, fates: seq<bool>, did: bool, b: Shot)
    requires Explained(script, shots, fates) && |fates| < |script|
    requires Fated(script[|fates|], shots[|fates|], did) && Leaves(script[|fates|], did, shots[|fates|], b)
    ensures Explained(script, shots + [b], fates + [did])
  {
    hide Fated;
    hide Leaves;
  }

  /**
   Any deeds, one after another. Each is done or not as its fate says and leaves what
   it says; the trail goes through every instant of every file and each lands where
   its deed says. A run ends early only where Stopped says why.
   */
  method Run(s: Store, script: seq<Deed>) returns (ghost shots: seq<Shot>, ghost fates: seq<bool>, ghost ends: seq<nat>, ghost scenes: seq<Scene>)
    requires s.Valid()
    modifies s, s.leader, s.leader.pages, s.Pagers()
    ensures Explained(script, shots, fates) && shots[0] == old(ShotOf(s))
    ensures Marked(s.trail, script, shots, fates, ends, scenes) && ends[0] == |old(s.trail)| && scenes[0] == old(s.Here())
    ensures old(s.trail) <= s.trail && AllSound(s.trail)
    ensures |fates| == |script| ==> s.Valid() && shots[|script|] == ShotOf(s) && ends[|script|] == |s.trail| && scenes[|script|] == s.Here()
    ensures |fates| < |script| ==> exists did :: Stopped(s, script[|fates|], did, shots[|fates|])
  {
    hide Store.Valid;
    hide Store.Here;
    hide Traced;
    hide Fated;
    hide Leaves;
    hide Stage;
    hide Stopped;
    hide AllSound;
    hide ShotOf;
    hide Marked;
    hide Explained;
    shots, fates, ends, scenes := [ShotOf(s)], [], [|s.trail|], [s.Here()];
    RunStarts(s, script);
    var i := 0;
    while i < |script|
      invariant 0 <= i <= |script| && |fates| == i && |shots| == |ends| == |scenes| == i + 1
      invariant s.Valid() && Within(s) && old(s.trail) <= s.trail && AllSound(s.trail)
      invariant Explained(script, shots, fates) && Marked(s.trail, script, shots, fates, ends, scenes)
      invariant shots[0] == old(ShotOf(s)) && ends[0] == |old(s.trail)| && scenes[0] == old(s.Here())
      invariant shots[i] == ShotOf(s) && ends[i] == |s.trail| && scenes[i] == s.Here()
    {
      ghost var before := s.trail;
      var did, go := Do(s, script[i]);
      if !go {
        MarkedStays(before, s.trail, script, shots, fates, ends, scenes);
        return;
      }
      MarkedPush(before, s.trail, script, shots, fates, ends, scenes, did, ShotOf(s), s.Here());
      ExplainedPush(script, shots, fates, did, ShotOf(s));
      shots, fates, ends, scenes := shots + [ShotOf(s)], fates + [did], ends + [|s.trail|], scenes + [s.Here()];
      i := i + 1;
    }
  }

  lemma MarkedStays(trail: seq<Instant>, now: seq<Instant>, script: seq<Deed>, shots: seq<Shot>, fates: seq<bool>, ends: seq<nat>, scenes: seq<Scene>)
    requires Marked(trail, script, shots, fates, ends, scenes) && trail <= now
    ensures Marked(now, script, shots, fates, ends, scenes)
  {
    hide Stage;
    hide Traced;
    forall k | 0 <= k < |fates| ensures now[ends[k]..ends[k + 1]] == trail[ends[k]..ends[k + 1]] { }
  }

  lemma RunStarts(s: Store, script: seq<Deed>)
    requires s.Valid()
    ensures Marked(s.trail, script, [ShotOf(s)], [], [|s.trail|], [s.Here()]) && Explained(script, [ShotOf(s)], []) && AllSound(s.trail)
  {
    hide Store.Valid;
    ValidIsSound(s);
  }

  /**
   A crash at any instant of a run, in the middle of any deed, taking any subset of
   the un-synced writes of every file: the leader opens at the version the last
   commit before that deed left, or, while the deed is itself a commit, at the one it
   is making; and every partition that version records is in its file, whole.
   */
  lemma CrashDuringRun(trail: seq<Instant>, script: seq<Deed>, shots: seq<Shot>, fates: seq<bool>, ends: seq<nat>, scenes: seq<Scene>, k: nat,
                       image: map<PageId, Cell>, images: map<Name, map<PageId, Cell>>)
    returns (v: Version, catalog: Catalog, i: nat, newer: bool)
    requires Marked(trail, script, shots, fates, ends, scenes) && AllSound(trail) && ends[0] <= k < ends[|fates|]
    requires Crashed(trail[k].leader.disk, image) && forall n | n in trail[k].files :: n in images && Scrambled(trail[k].files[n], images[n])
    ensures i < |fates| && ends[i] <= k < ends[i + 1] && (newer ==> script[i].Settle? && fates[i])
    ensures var at := shots[if newer then i + 1 else i]; v == at.kept && catalog == at.catalog
    ensures LoadMeta(image).Some? && LoadMeta(image).value.meta == v.meta && Held(image, v) && Whole(v, 2) && Speaks(v, catalog)
    ensures forall n | n in catalog :: n in images && Held(images[n], catalog[n]) && Whole(catalog[n], 1)
  {
    hide Speaks;
    hide Whole;
    hide Held;
    hide Crashed;
    hide Scrambled;
    hide Traced;
    hide LoadMeta;
    i := DeedAt(ends, k);
    var seen, m := trail[ends[i]..ends[i + 1]], trail[k];
    assert seen[k - ends[i]] == m && m in seen && m in trail;
    var flying;
    v, catalog, flying := CrashAcrossFiles(m, image, images);
    assert Stage(seen, script[i], fates[i], shots[i], shots[i + 1]);
    newer := script[i].Settle? && fates[i] && (flying || m.leader.stable != shots[i].kept || m.catalog != shots[i].catalog);
  }

  lemma {:induction false} DeedAt(ends: seq<nat>, k: nat) returns (i: nat)
    requires |ends| > 1 && ends[0] <= k < ends[|ends| - 1]
    ensures i + 1 < |ends| && ends[i] <= k < ends[i + 1]
  {
    i := 0;
    while k >= ends[i + 1]
      invariant i + 1 < |ends| && ends[i] <= k
      decreases |ends| - i
    {
      i := i + 1;
    }
  }

  // ---- a dropped name made anew ----

  /**
   Part on a recorded name this transaction has dropped, and `count` pages given to
   what it makes. The new partition is on the file the last commit still counts on
   and starts from page 1: what a crash or a rollback would go back to is still all
   there exactly when none of its pages is among the first `count`.
   */
  method MadeAnew(s: Store, name: Name, page: Page, count: nat) returns (ok: bool)
    requires s.Valid() && name in s.catalog && name in s.dropped && name !in s.dropping
    modifies s`parts, s`roots, s`shelf, s`remade, s`trail
    ensures s.Loose() && (ok <==> Usable(name)) && fresh(s.Pagers() - old(s.Pagers()))
    ensures ok ==> s.remade == {name} && name in s.parts && (name in s.Pending() <==> count > 0)
    ensures ok ==> (AllThere(s.Files(), s.catalog) <==> forall id | id in PagesKept(s.catalog[name]) :: id > count)
  {
    hide Store.Valid;
    hide Store.Loose;
    hide Store.Pending;
    hide Store.Calm;
    hide Recorded;
    hide Store.Went;
    hide Intact;
    hide Whole;
    hide PagesKept;
    hide PagesIn;
    hide Usable;
    hide NoPageOne;
    hide AllThere;
    hide Store.Files;
    hide Store.Here;
    hide Store.Trees;
    hide Store.Apart;
    ghost var v := s.catalog[name];
    RecordedWhole(s, name);
    KeptPastLabel(v);
    ok := s.Part(name);
    if !ok {
      return;
    }
    FillAnew(s, name, s.parts[name], v, page, count);
    AllButMade(s, name);
    PendingIs(s, name);
  }

  /** A partition made anew that was given `k` pages, and what is left of the version `v` its file held. */
  ghost predicate Given(p: Pager, v: Version, k: nat)
    reads p
  {
    && (forall id | id in p.owned :: 1 <= id <= k) && (forall id | 1 <= id <= k :: id in p.owned) && p.meta.pageCount <= k + 1
    && (if k == 0 then !Waits(p, 0) else p.taken != {})
    && (Intact(p.disk, v) <==> forall id | id in PagesKept(v) :: id > k)
  }

  method FillAnew(s: Store, name: Name, ghost p: Pager, ghost v: Version, page: Page, count: nat)
    requires s.Loose() && name in s.parts && s.parts[name] == p && name in s.catalog && s.catalog[name] == v && Given(p, v, 0)
    modifies p, s`trail
    ensures s.Loose() && Given(p, v, count)
  {
    hide Store.Loose;
    hide Store.Went;
    hide Store.Here;
    hide Intact;
    hide PagesKept;
    hide Waits;
    var k := 0;
    while k < count
      invariant 0 <= k <= count && s.Loose() && Given(p, v, k)
    {
      var id := s.GrowPage(name, page);
      k := k + 1;
      assert id == k;
    }
  }

  lemma PendingIs(s: Store, name: Name)
    requires name in s.parts && name in s.roots
    ensures name in s.Pending() <==> Waits(s.parts[name], s.roots[name])
  {
    hide Waits;
  }

  /** A partition that is recorded and not open anew is whole in its record. */
  lemma RecordedWhole(s: Store, name: Name)
    requires s.Valid() && name in s.catalog
    ensures Whole(s.catalog[name], 1)
  {
    hide Intact;
    hide Whole;
    hide Recorded;
    hide Store.LeaderLists;
    hide PartState;
    hide PartAside;
    hide OpenOnce;
    assert name in s.Base();
  }

  lemma KeptPastLabel(v: Version)
    requires Whole(v, 1)
    ensures forall id | id in PagesKept(v) :: id > 0
  {
    WholeRanges(v, 1);
    hide ListAt;
    hide Copies;
    hide NoDup;
  }

  /** The rest is looked after; what is made anew is there if its own pages are. */
  lemma AllButMade(s: Store, name: Name)
    requires s.Loose() && s.remade == {name} && name in s.parts && name in s.catalog && Whole(s.catalog[name], 1)
    ensures AllThere(s.Files(), s.catalog) <==> Intact(s.parts[name].disk, s.catalog[name])
  {
    hide Intact;
    hide Whole;
    hide Recorded;
    hide Store.LeaderLists;
    hide Store.States;
    hide Store.Distinct;
    s.CalmFacts();
    s.StatesThere(s.catalog - s.dropped);
    s.HereIs();
    hide Store.Files;
    hide Store.Calm;
    forall n | n in s.catalog && n != name ensures n in s.Files() && Intact(s.Files()[n], s.catalog[n]) && Whole(s.catalog[n], 1) {
      assert n in s.catalog - s.remade;
    }
    assert name in s.Files() && s.Files()[name] == s.parts[name].disk;
  }

  /**
   The same, committed: unlinking the dropped file takes the new partition with it,
   and what the commit recorded is all there exactly when it had nothing to record.
   */
  method MadeAnewCommitted(s: Store, name: Name, page: Page, count: nat) returns (made: bool, ok: bool)
    requires s.Valid() && name in s.catalog && name in s.dropped && name !in s.dropping
    modifies s, s.leader, s.leader.pages, s.Pagers()
    ensures (made <==> Usable(name)) && (ok ==> made)
    ensures ok ==> (name in s.catalog <==> count > 0) && (AllThere(s.Files(), s.catalog) <==> count == 0)
  {
    hide Store.Calm;
    hide Recorded;
    hide AllThere;
    hide Usable;
    hide PagesKept;
    hide Store.Pending;
    hide Store.Files;
    hide Store.Here;
    hide Store.Trees;
    hide Shows;
    hide Steady;
    hide Turns;
    ok := false;
    made := MadeAnew(s, name, page, count);
    if made {
      ghost var now, pending, gone := s.catalog - s.dropped, s.Pending(), s.dropped;
      assert name in gone && name !in now;
      ok := s.Commit();
      if ok { assert s.unlinked == {name} && s.catalog.Keys == now.Keys + pending; }
    }
  }

  // ---- a database on which it happens ----

  const LONE: Name := [97]
  const LONE_PAGE: Page := Leaf([])

  /** A partition of one page, and its file. */
  const LONE_PART: Version := Version(Meta(1, 1, 0, 2, false), map[1 := LONE_PAGE], map[], [], [])
  const LONE_FILE: Disk := Disk(map[0 := Label, 1 := PageCell(LONE_PAGE)], map[])

  lemma LoneIsThere()
    ensures AllThere(map[LONE := LONE_FILE], map[LONE := LONE_PART]) && Recordable(PositionOf(LONE_PART.meta)) && Usable(LONE)
  {
    assert Whole(LONE_PART, 1);
    assert Power(8) >= 256;
  }

  lemma LoneIsListed()
    ensures Lists(Updated([], PartKey(LONE), PartValue(PositionOf(LONE_PART.meta))), map[LONE := LONE_PART])
  {
    assert Lists([], map[]);
    RecordPut([], map[], LONE, LONE_PART);
    hide Lists;
    assert map[][LONE := LONE_PART] == map[LONE := LONE_PART];
  }

  /** Below the root every node has entries, so a tree of one entry is a leaf. */
  lemma {:induction false} FullHasEntries(t: Tree, h: nat, lo: Bytes, hi: Option<Bytes>)
    requires Full(t) && Ordered(t, h, lo, hi)
    ensures |Entries(t)| >= 1 && (t.BranchAt? ==> |Entries(t)| >= 2)
    decreases t
  {
    if t.BranchAt? {
      var n := |t.kids|;
      assert t.kids[n - 1] in t.kids && t.kids[n - 2] in t.kids;
      FullHasEntries(t.kids[n - 1], h - 1, LowerOf(t.keys, n - 1, lo), UpperOf(t.keys, n - 1, hi));
      FullHasEntries(t.kids[n - 2], h - 1, LowerOf(t.keys, n - 2, lo), UpperOf(t.keys, n - 2, hi));
      var front := t.kids[..n - 1];
      assert KidsEntries(t.kids) == KidsEntries(front) + Entries(t.kids[n - 1]);
      assert KidsEntries(front) == KidsEntries(front[..n - 2]) + Entries(t.kids[n - 2]);
    }
  }

  lemma LoneNeverBursts(t: BTree, k: Bytes)
    requires t.Valid() && t.tree.Some? && |t.Contents()| == 1
    ensures !Bursts(t.tree.value, k)
  {
    hide Ordered;
    hide Full;
    hide Entries;
    hide BTree.Ready;
    hide Exact;
    hide Written;
    FullHasEntries(t.tree.value, t.height, [], None);
  }

  /** A leader with one record, committed. */
  method LoneLeader() returns (leader: BTree)
    ensures fresh(leader) && fresh(leader.pages) && leader.Valid() && !leader.pages.led && leader.pages.held == map[] && leader.pages.maxPages == 0
    ensures Lists(leader.Contents(), map[LONE := LONE_PART]) && Speaks(leader.pages.stable, map[LONE := LONE_PART]) && |leader.Contents()| == 1
  {
    hide Pager.Valid;
    hide Pager.Recoverable;
    hide BTree.Valid;
    hide BTree.Ready;
    hide Preserves;
    hide Lists;
    hide Updated;
    hide PartKey;
    hide PartValue;
    hide Quiet;
    hide Closed;
    hide Lands;
    hide OnlyLeads;
    hide Jams;
    LoneFits();
    var p := new Pager.Create(0);
    FreshPager(p);
    leader := new BTree.New(p, None, 0);
    var out := leader.Put(PartKey(LONE), PartValue(PositionOf(LONE_PART.meta)), 0);
    var ok := leader.Commit();
    assert Denotes(leader.pages.stable, leader.Contents());
  }

  lemma LoneFits()
    ensures LegalKey(PartKey(LONE)) && |PartValue(PositionOf(LONE_PART.meta))| == 24 && Preserves(FRESH, None, 0)
    ensures
      var es := Updated([], PartKey(LONE), PartValue(PositionOf(LONE_PART.meta)));
      Lists(es, map[LONE := LONE_PART]) && |es| == 1
  {
    ValueSize(PositionOf(LONE_PART.meta));
    LoneIsListed();
    hide Lists;
    hide PartValue;
  }

  /**
   DropPart and then Part on the same name, in one transaction: with the first page
   of the new partition the one the last commit recorded is gone.
   */
  method DroppedThenMade() returns (s: Store, ok: bool)
    ensures ok && s.Loose() && LONE in s.catalog && !AllThere(s.Files(), s.catalog)
  {
    hide Store.Calm;
    hide Store.Standing;
    hide Recorded;
    hide Store.Went;
    hide Store.Here;
    hide Store.Files;
    hide AllThere;
    hide Lists;
    hide Speaks;
    hide Recordable;
    hide Usable;
    hide BTree.Valid;
    hide Bursts;
    hide Beside;
    LoneIsThere();
    var leader := LoneLeader();
    s := new Store(leader, map[LONE := LONE_FILE], map[LONE := LONE_PART]);
    LoneNeverBursts(leader, PartKey(LONE));
    ok := s.Drop(LONE);
    ok := MadeAnew(s, LONE, LONE_PAGE, 1);
    assert 1 in PagesKept(LONE_PART);
  }

  // ---- a name that stays set aside ----

  /** Set aside, with no record and nothing that would still commit or take back its drop. */
  ghost predicate Stranded(a: Shot, n: Name) { n in a.aside && n !in a.open && n !in a.dropped && n !in a.catalog }

  /** No deed, done or not, takes a stranded name back, and Part on it is refused. */
  lemma StrandedStays(deed: Deed, did: bool, a: Shot, b: Shot, n: Name)
    requires Stranded(a, n) && Fated(deed, a, did) && Leaves(deed, did, a, b)
    ensures Stranded(b, n) && (deed == Make(n) ==> !did)
  {
    hide Usable;
    hide NoPageOne;
    hide Overflows;
    hide Unfit;
    hide Beside;
    hide Denotes;
    hide Updated;
    if deed.Settle? && did {
      hide ComesFrom;
      SettledStrands(a, b, n);
    }
  }

  lemma SettledStrands(a: Shot, b: Shot, n: Name)
    requires Settled(a, b) && Stranded(a, n)
    ensures Stranded(b, n)
  {
    hide Beside;
    hide Denotes;
    assert n !in TreesIn(b.open);
  }

  /** Once stranded, always: over any run, no later Part on the name is done. */
  lemma {:induction false} StrandedForGood(script: seq<Deed>, shots: seq<Shot>, fates: seq<bool>, n: Name, i: nat, j: nat)
    requires Explained(script, shots, fates) && i <= j <= |fates| && Stranded(shots[i], n)
    ensures Stranded(shots[j], n) && (j < |fates| && script[j] == Make(n) ==> !fates[j])
    decreases j - i
  {
    hide Fated;
    hide Leaves;
    if j > i {
      StrandedForGood(script, shots, fates, n, i, j - 1);
      StrandedStays(script[j - 1], fates[j - 1], shots[j - 1], shots[j], n);
    }
    if j < |fates| { StrandedStays(script[j], fates[j], shots[j], shots[j + 1], n); }
  }

  /** A rollback leaves set aside exactly what was and has no record, and all of that is stranded. */
  lemma UndoStrands(a: Shot, b: Shot, n: Name)
    requires Undone(a, b)
    ensures n in b.aside <==> n in a.aside && n !in a.catalog
    ensures n in b.aside ==> Stranded(b, n)
  {
    hide Denotes;
  }

  /** A leader with nothing in it, committed. */
  method EmptyLeader() returns (leader: BTree)
    ensures fresh(leader) && fresh(leader.pages) && leader.Valid() && !leader.pages.led && leader.pages.held == map[] && leader.pages.maxPages == 0
    ensures leader.tree.None? && Lists(leader.Contents(), map[]) && Speaks(leader.pages.stable, map[])
  {
    hide Pager.Valid;
    hide Pager.Recoverable;
    hide BTree.Valid;
    hide BTree.Ready;
    hide Preserves;
    hide Quiet;
    hide Closed;
    hide Lands;
    hide OnlyLeads;
    assert Preserves(FRESH, None, 0) by { LoneFits(); }
    var p := new Pager.Create(0);
    FreshPager(p);
    leader := new BTree.New(p, None, 0);
    var ok := leader.Commit();
    assert Denotes(leader.pages.stable, leader.Contents());
    assert Lists([], map[]);
  }

  /** A new name asked for, dropped, taken back, and asked for again. */
  const STORY: seq<Deed> := [Make(LONE), Drop(LONE), Undo, Make(LONE)]

  /** Whatever stops a run, it is none of this story, and its last Part is refused. */
  lemma StoryIs(s: Store, shots: seq<Shot>, fates: seq<bool>)
    requires Explained(STORY, shots, fates)
    requires shots[0] == Shot(shots[0].kept, map[], {}, {}, map[], None, 0)
    requires |fates| < 4 ==> exists did :: Stopped(s, STORY[|fates|], did, shots[|fates|])
    ensures fates == [true, true, true, false] && Stranded(shots[3], LONE)
  {
    hide Denotes;
    hide NoPageOne;
    hide Sights;
    assert Usable(LONE);
    hide Usable;
    assert |fates| > 0;
    assert Fated(Make(LONE), shots[0], fates[0]) && Leaves(Make(LONE), fates[0], shots[0], shots[1]);
    StoryDrops(s, shots, fates);
    hide Fated;
    hide Leaves;
    assert |fates| == 4 && fates[..3] == [true, true, true];
    StrandedForGood(STORY, shots, fates, LONE, 3, 3);
  }

  lemma StoryDrops(s: Store, shots: seq<Shot>, fates: seq<bool>)
    requires Explained(STORY, shots, fates) && |fates| > 0
    requires var a := shots[1]; LONE in a.open && LONE !in a.aside && a.dropped == {} && a.catalog == map[] && a.tree.None? && a.maxPages == 0
    requires |fates| < 4 ==> exists did :: Stopped(s, STORY[|fates|], did, shots[|fates|])
    ensures |fates| == 4 && fates[1] && fates[2] && Stranded(shots[3], LONE)
  {
    hide Denotes;
    hide NoPageOne;
    hide Usable;
    hide Beside;
    assert |LONE| < MAX_KEY;
    assert |fates| > 1;
    assert Fated(Drop(LONE), shots[1], fates[1]) && Leaves(Drop(LONE), fates[1], shots[1], shots[2]);
    assert |fates| > 2;
    assert Fated(Undo, shots[2], fates[2]) && Leaves(Undo, fates[2], shots[2], shots[3]);
    UndoStrands(shots[2], shots[3], LONE);
    assert |fates| > 3;
  }

  lemma StoryStarts(s: Store)
    requires s.Valid() && s.parts == map[] && s.dropping == map[] && s.dropped == {} && s.catalog == map[]
    requires s.leader.tree.None? && s.leader.pages.maxPages == 0
    ensures ShotOf(s) == Shot(s.leader.pages.stable, map[], {}, {}, map[], None, 0)
  {
    hide Store.Calm;
    hide Store.Loose;
    hide Recorded;
    ValidFacts(s);
    ShotIs(s);
    assert ShotOf(s).open == map[];
  }

  /** A database with nothing in it. */
  method EmptyStore() returns (s: Store)
    ensures fresh(s) && fresh(s.leader) && fresh(s.leader.pages) && fresh(s.Pagers()) && s.Valid()
    ensures ShotOf(s) == Shot(s.leader.pages.stable, map[], {}, {}, map[], None, 0)
  {
    hide Store.Valid;
    hide Store.Loose;
    hide Store.Calm;
    hide Lists;
    hide Speaks;
    hide BTree.Valid;
    hide ShotOf;
    var leader := EmptyLeader();
    s := new Store(leader, map[], map[]);
    StoryStarts(s);
    assert s.Pagers() == {};
  }

  /** On a real store: the last call is refused, and by StrandedForGood so is every later one. */
  method NeverAgain() returns (s: Store, ghost shots: seq<Shot>, ghost fates: seq<bool>)
    ensures s.Valid() && Explained(STORY, shots, fates) && |shots| == 5 && shots[4] == ShotOf(s)
    ensures fates == [true, true, true, false] && Stranded(shots[3], LONE) && Stranded(shots[4], LONE)
  {
    hide Store.Valid;
    hide Store.Loose;
    hide Store.Here;
    hide Store.Pagers;
    hide ShotOf;
    hide Explained;
    hide Stopped;
    hide Marked;
    hide AllSound;
    hide Stranded;
    s := EmptyStore();
    ghost var ends, scenes;
    shots, fates, ends, scenes := Run(s, STORY);
    hide STORY;
    StoryEnds(s, shots, fates);
  }

  lemma StoryEnds(s: Store, shots: seq<Shot>, fates: seq<bool>)
    requires Explained(STORY, shots, fates)
    requires shots[0] == Shot(shots[0].kept, map[], {}, {}, map[], None, 0)
    requires |fates| < |STORY| ==> exists did :: Stopped(s, STORY[|fates|], did, shots[|fates|])
    ensures |shots| == 5 && |STORY| == 4
    ensures fates == [true, true, true, false] && Stranded(shots[3], LONE) && Stranded(shots[4], LONE)
  {
    hide Stopped;
    hide Stranded;
    StoryIs(s, shots, fates);
    StrandedForGood(STORY, shots, fates, LONE, 3, 4);
  }
}
