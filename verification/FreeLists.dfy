/**
 The bookkeeping of page reuse: which pages are free for the taking, which wait
 for a transaction or a snapshot, and how the list is laid out in the file.
 */
module FreeLists {
  import opened Options
  import opened PageFile

  /** How many records one list page holds: (4096 - 48 - 12) / 16. */
  const PER_PAGE: nat := 252

  datatype Freelist = Freelist(
    ready: seq<PageId>, pending: map<TxId, seq<PageId>>, freeing: seq<PageId>, seen: set<PageId>, chain: seq<PageId>)

  const EMPTY: Freelist := Freelist([], map[], [], {}, [])

  function IdSet(ids: seq<PageId>): set<PageId> { set id | id in ids }

  /** How often a page is on a list. */
  ghost function Copies(s: seq<PageId>, p: PageId): nat {
    if s == [] then 0 else Copies(s[..|s| - 1], p) + (if s[|s| - 1] == p then 1 else 0)
  }

  lemma {:induction false} CopiesIn(s: seq<PageId>, p: PageId)
    ensures p in s <==> Copies(s, p) > 0
  {
    if s != [] {
      CopiesIn(s[..|s| - 1], p);
      assert s == s[..|s| - 1] + [s[|s| - 1]];
    }
  }

  lemma {:induction false} CopiesConcat(a: seq<PageId>, b: seq<PageId>, p: PageId)
    ensures Copies(a + b, p) == Copies(a, p) + Copies(b, p)
  {
    if b == [] {
      assert a + b == a;
    } else {
      CopiesConcat(a, b[..|b| - 1], p);
      assert (a + b)[..|a + b| - 1] == a + b[..|b| - 1];
    }
  }

  /** How often a page waits under some transaction. */
  ghost function Waiting(m: map<TxId, seq<PageId>>, p: PageId): nat {
    if m == map[] then 0
    else var t :| t in m; Copies(m[t], p) + Waiting(m - {t}, p)
  }

  lemma {:induction false} WaitingTake(m: map<TxId, seq<PageId>>, t: TxId, p: PageId)
    requires t in m
    ensures Waiting(m, p) == Copies(m[t], p) + Waiting(m - {t}, p)
    decreases |m|
  {
    var u :| u in m && Waiting(m, p) == Copies(m[u], p) + Waiting(m - {u}, p);
    if u != t {
      WaitingTake(m - {u}, t, p);
      WaitingTake(m - {t}, u, p);
      assert (m - {u}) - {t} == (m - {t}) - {u};
    }
  }

  lemma WaitingPut(m: map<TxId, seq<PageId>>, t: TxId, ids: seq<PageId>, p: PageId)
    ensures Waiting(m[t := (if t in m then m[t] else []) + ids], p) == Waiting(m, p) + Copies(ids, p)
  {
    hide Waiting;
    var now := m[t := (if t in m then m[t] else []) + ids];
    WaitingTake(now, t, p);
    assert now - {t} == m - {t};
    if t in m {
      WaitingTake(m, t, p);
      CopiesConcat(m[t], ids, p);
    } else {
      assert m - {t} == m;
      assert now[t] == ids;
    }
  }

  lemma WaitingHolds(m: map<TxId, seq<PageId>>, t: TxId, p: PageId)
    requires t in m && p in m[t]
    ensures Waiting(m, p) > 0
  {
    WaitingTake(m, t, p);
    CopiesIn(m[t], p);
  }

  lemma {:induction false} WaitingIn(m: map<TxId, seq<PageId>>, p: PageId)
    ensures Waiting(m, p) > 0 <==> exists t :: t in m && p in m[t]
    decreases |m|
  {
    if m != map[] {
      var t :| t in m && Waiting(m, p) == Copies(m[t], p) + Waiting(m - {t}, p);
      WaitingIn(m - {t}, p);
      CopiesIn(m[t], p);
      hide Waiting;
      hide Copies;
      if Waiting(m - {t}, p) > 0 {
        var u :| u in m - {t} && p in (m - {t})[u];
        assert u in m && p in m[u];
      }
      if u :| u in m && p in m[u] { assert u == t || (u in m - {t} && p in (m - {t})[u]); }
    }
  }

  /** The part of a pager that decides which page may be handed out next. */
  datatype Book = Book(reserved: int, pageCount: TxId, committed: int, txid: TxId, taken: set<PageId>, free: Freelist) {

    predicate Dirty(id: PageId) { id >= committed || id in taken }

    /** No page is in two places and none is lost; `used` is what the tree and the list chain occupy. */
    ghost predicate Sums(used: set<PageId>) {
      forall p: PageId {:trigger p in used} {:trigger Copies(free.ready, p)} {:trigger Copies(free.freeing, p)} {:trigger Waiting(free.pending, p)} ::
        (if p in used then 1 else 0) + Copies(free.ready, p) + Copies(free.freeing, p) + Waiting(free.pending, p)
        == if reserved <= p < pageCount then 1 else 0
    }

    ghost predicate Ranges(used: set<PageId>) {
      && 1 <= reserved <= committed <= pageCount
      && 1 <= txid
      && (forall p | p in taken :: reserved <= p < pageCount)
      && (forall p | p in free.seen :: p < pageCount && p !in used)
      && (forall p | p in free.freeing :: !Dirty(p))
      && (forall t | t in free.pending :: 1 <= t <= txid + 1)
    }

    ghost predicate Balanced(used: set<PageId>) { Sums(used) && Ranges(used) }

    /** A page somebody may still read is neither writable nor ready to be handed out. */
    ghost predicate Apart(p: PageId, since: TxId) {
      && reserved <= p < committed
      && p !in taken
      && p !in free.ready
      && (forall t | t in free.pending && p in free.pending[t] :: t > since)
    }

    /** `kept` is what a crash would fall back to; `held` is what each held snapshot reads. */
    ghost predicate Shields(kept: set<PageId>, held: map<TxId, set<PageId>>) {
      && (forall p | p in kept :: Apart(p, txid))
      && (forall s | s in held :: 1 <= s <= txid)
      && (forall s, p | s in held && p in held[s] :: Apart(p, s))
    }

    /** Whether what transaction `t` freed is visible to nobody (oldest = 0: no snapshot is held). */
    predicate Settled(t: TxId, oldest: TxId) { t <= txid && (oldest == 0 || oldest >= t) }

    function WithFree(f: Freelist): Book { this.(free := f) }
  }

  /** A page the transaction may write is one nobody else can read. */
  lemma DirtyIsPrivate(b: Book, kept: set<PageId>, held: map<TxId, set<PageId>>, id: PageId)
    requires b.Shields(kept, held) && b.Dirty(id)
    ensures id !in kept && (forall s | s in held :: id !in held[s])
  {
    hide Copies;
    hide Waiting;
    assert id in kept ==> b.Apart(id, b.txid);
    assert forall s | s in held :: id in held[s] ==> b.Apart(id, s);
  }

  /** One turn of promote: what `t` freed becomes ready. */
  function Promoted(f: Freelist, t: TxId): Freelist
    requires t in f.pending
  {
    f.(ready := f.ready + f.pending[t], pending := f.pending - {t})
  }

  lemma PromoteSums(b: Book, used: set<PageId>, t: TxId)
    requires b.Sums(used) && t in b.free.pending
    ensures b.WithFree(Promoted(b.free, t)).Sums(used)
  {
    forall p: PageId
      ensures Copies(b.free.ready + b.free.pending[t], p) + Waiting(b.free.pending - {t}, p)
           == Copies(b.free.ready, p) + Waiting(b.free.pending, p)
    {
      WaitingTake(b.free.pending, t, p);
      CopiesConcat(b.free.ready, b.free.pending[t], p);
    }
    hide Copies;
    hide Waiting;
  }

  lemma PromoteShields(b: Book, kept: set<PageId>, held: map<TxId, set<PageId>>, t: TxId)
    requires b.Shields(kept, held)
    requires t in b.free.pending && t <= b.txid && (forall s | s in held :: t <= s)
    ensures b.WithFree(Promoted(b.free, t)).Shields(kept, held)
  {
    var now := b.WithFree(Promoted(b.free, t));
    forall p: PageId, since: TxId | b.Apart(p, since) && t <= since
      ensures now.Apart(p, since)
    {
    }
  }

  /** promote, over the transactions `ts` in order. */
  function PromotedAll(b: Book, ts: seq<TxId>, oldest: TxId): Book {
    if ts == [] then b
    else
      var before, t := PromotedAll(b, ts[..|ts| - 1], oldest), ts[|ts| - 1];
      if t in before.free.pending && before.Settled(t, oldest) then before.WithFree(Promoted(before.free, t)) else before
  }

  /** Exactly what is visible to nobody is moved, in the order of the transactions. */
  lemma {:induction false} PromotedAllMoves(b: Book, ts: seq<TxId>, oldest: TxId)
    ensures
      var r := PromotedAll(b, ts, oldest);
      && r == b.WithFree(b.free.(ready := r.free.ready, pending := r.free.pending))
      && b.free.ready <= r.free.ready
      && (forall t :: t in r.free.pending <==> t in b.free.pending && !(t in ts && b.Settled(t, oldest)))
      && (forall t | t in r.free.pending :: r.free.pending[t] == b.free.pending[t])
  {
    if ts != [] {
      PromotedAllMoves(b, ts[..|ts| - 1], oldest);
      assert ts == ts[..|ts| - 1] + [ts[|ts| - 1]];
    }
  }

  /** Somebody may still read what transaction `t` freed: it has not committed, or a snapshot older than it is held. */
  ghost predicate Concerns(t: TxId, txid: TxId, held: set<TxId>) { t > txid || exists s :: s in held && s < t }

  lemma {:induction false} PromotedReady(b: Book, ts: seq<TxId>, oldest: TxId, p: PageId)
    ensures p in PromotedAll(b, ts, oldest).free.ready <==>
              p in b.free.ready || exists t :: t in ts && t in b.free.pending && b.Settled(t, oldest) && p in b.free.pending[t]
  {
    if ts != [] {
      PromotedAllMoves(b, ts[..|ts| - 1], oldest);
      PromotedReady(b, ts[..|ts| - 1], oldest, p);
      assert ts == ts[..|ts| - 1] + [ts[|ts| - 1]];
    }
  }

  /** What nobody may still read is ready afterwards, all of it, and what somebody may is not. */
  lemma PromotedExactly(b: Book, oldest: TxId, held: set<TxId>)
    requires IsOldest(oldest, held) && 0 !in held
    ensures
      var r := PromotedAll(b, Ascending(b.free.pending.Keys), oldest);
      && (forall t :: t in r.free.pending <==> t in b.free.pending && Concerns(t, b.txid, held))
      && (forall t | t in r.free.pending :: r.free.pending[t] == b.free.pending[t])
      && (forall p :: p in r.free.ready <==>
            p in b.free.ready || exists t :: t in b.free.pending && !Concerns(t, b.txid, held) && p in b.free.pending[t])
  {
    hide PromotedAll;
    hide Ascending;
    var ts := Ascending(b.free.pending.Keys);
    AscendingSorts(b.free.pending.Keys);
    PromotedAllMoves(b, ts, oldest);
    forall t | t in b.free.pending ensures t in ts && (b.Settled(t, oldest) <==> !Concerns(t, b.txid, held)) { }
    forall p ensures p in PromotedAll(b, ts, oldest).free.ready <==>
      p in b.free.ready || exists t :: t in b.free.pending && !Concerns(t, b.txid, held) && p in b.free.pending[t]
    {
      PromotedReady(b, ts, oldest, p);
    }
  }

  /** Nothing that could be handed out is left: every page of the file that is not in use waits for somebody who may still read it. */
  ghost predicate Spent(b: Book, used: set<PageId>, held: set<TxId>) {
    && b.free.ready == [] && (forall t | t in b.free.pending :: Concerns(t, b.txid, held))
    && (forall p | b.reserved <= p < b.pageCount && p !in used ::
          p in b.free.freeing || exists t :: t in b.free.pending && p in b.free.pending[t] && Concerns(t, b.txid, held))
  }

  /** An allocation grows the file, or is refused, only when nothing could be handed out. */
  lemma AllottedSpends(b: Book, used: set<PageId>, oldest: TxId, held: set<TxId>, maxPages: nat)
    requires b.Balanced(used) && IsOldest(oldest, held) && 0 !in held
    requires var (id, now) := Allotted(b, oldest, maxPages); now.Balanced(if id.Some? then used + {id.value} else used)
    ensures
      var (id, now) := Allotted(b, oldest, maxPages);
      id.None? || now.pageCount > b.pageCount ==> Spent(now, if id.Some? then used + {id.value} else used, held)
  {
    hide PromotedAll;
    hide Ascending;
    var (id, now) := Allotted(b, oldest, maxPages);
    PromotedAllMoves(b, Ascending(b.free.pending.Keys), oldest);
    PromotedExactly(b, oldest, held);
    if id.None? || now.pageCount > b.pageCount {
      var left := if id.Some? then used + {id.value} else used;
      forall p | now.reserved <= p < now.pageCount && p !in left
        ensures p in now.free.freeing || exists t :: t in now.free.pending && p in now.free.pending[t] && Concerns(t, now.txid, held)
      {
        CopiesIn(now.free.ready, p);
        CopiesIn(now.free.freeing, p);
        WaitingIn(now.free.pending, p);
        hide Copies;
        hide Waiting;
        assert now.Sums(left);
      }
    }
  }

  lemma PromotedNone(b: Book, oldest: TxId)
    ensures PromotedAll(b, [], oldest) == b
    ensures Ascending({}) == []
  {
  }

  ghost predicate Rising(ts: seq<TxId>) { forall i, j :: 0 <= i < j < |ts| ==> ts[i] < ts[j] }

  lemma PromotedNext(b: Book, ts: seq<TxId>, i: nat, oldest: TxId)
    requires i < |ts| && ts[i] in b.free.pending
    requires Rising(ts)
    ensures
      var before := PromotedAll(b, ts[..i], oldest);
      && ts[i] in before.free.pending
      && PromotedAll(b, ts[..i + 1], oldest)
      == if before.Settled(ts[i], oldest) then before.WithFree(Promoted(before.free, ts[i])) else before
  {
    PromotedAllMoves(b, ts[..i], oldest);
    assert ts[..i + 1][..i] == ts[..i];
  }

  /** `oldest` is the earliest snapshot held, or zero when none is. */
  ghost predicate IsOldest(oldest: TxId, held: set<TxId>) {
    if held == {} then oldest == 0 else oldest in held && forall s | s in held :: oldest <= s
  }

  lemma {:induction false} PromotedAllKeeps(b: Book, used: set<PageId>, kept: set<PageId>,
                                            held: map<TxId, set<PageId>>, ts: seq<TxId>, oldest: TxId)
    requires b.Balanced(used) && b.Shields(kept, held) && IsOldest(oldest, held.Keys)
    ensures PromotedAll(b, ts, oldest).Balanced(used)
    ensures PromotedAll(b, ts, oldest).Shields(kept, held)
  {
    if ts != [] {
      var before, t := PromotedAll(b, ts[..|ts| - 1], oldest), ts[|ts| - 1];
      PromotedAllMoves(b, ts[..|ts| - 1], oldest);
      PromotedAllKeeps(b, used, kept, held, ts[..|ts| - 1], oldest);
      if t in before.free.pending && b.Settled(t, oldest) {
        PromoteSums(before, used, t);
        PromoteShields(before, kept, held, t);
      }
    }
  }

  /** Handing out the last ready page. */
  function TakenReady(b: Book): Book
    requires b.free.ready != []
  {
    var id := b.free.ready[|b.free.ready| - 1];
    b.(taken := b.taken + {id},
       free := b.free.(ready := b.free.ready[..|b.free.ready| - 1], seen := b.free.seen - {id}))
  }

  lemma TakeReadyKeeps(b: Book, used: set<PageId>, kept: set<PageId>, held: map<TxId, set<PageId>>)
    requires b.Balanced(used) && b.Shields(kept, held) && b.free.ready != []
    ensures
      var id := b.free.ready[|b.free.ready| - 1];
      && id !in used && b.reserved <= id < b.pageCount
      && id !in kept && (forall s | s in held :: id !in held[s])
      && TakenReady(b).Balanced(used + {id})
      && TakenReady(b).Shields(kept, held)
  {
    var last := |b.free.ready| - 1;
    var id := b.free.ready[last];
    var now := TakenReady(b);
    assert Copies(b.free.ready, id) > 0;
    forall p | p in now.free.freeing ensures !now.Dirty(p) {
      CopiesIn(b.free.freeing, p);
      CopiesIn(b.free.ready, p);
    }
    assert now.Sums(used + {id}) by {
      assert forall p: PageId :: Copies(b.free.ready, p) == Copies(now.free.ready, p) + (if p == id then 1 else 0);
    }
    hide Copies;
    hide Waiting;
    assert now.Ranges(used + {id});
    forall p: PageId, since: TxId | b.Apart(p, since)
      ensures now.Apart(p, since)
    {
    }
  }

  /** Growing the file by one page. */
  function Grown(b: Book): Book {
    b.(pageCount := b.pageCount + 1, taken := b.taken + {b.pageCount})
  }

  lemma GrowKeeps(b: Book, used: set<PageId>, kept: set<PageId>, held: map<TxId, set<PageId>>)
    requires b.Balanced(used) && b.Shields(kept, held)
    ensures b.pageCount >= b.reserved && b.pageCount !in used && b.pageCount !in kept
    ensures forall s | s in held :: b.pageCount !in held[s]
    ensures Grown(b).Balanced(used + {b.pageCount})
    ensures Grown(b).Shields(kept, held)
  {
    hide Copies;
    hide Waiting;
    var now := Grown(b);
    forall p: PageId, since: TxId | b.Apart(p, since)
      ensures now.Apart(p, since)
    {
    }
  }

  /** Allocate: a ready page if there is one, otherwise a new one at the end unless the quota refuses. */
  function Allotted(b: Book, oldest: TxId, maxPages: nat): (Option<PageId>, Book) {
    var p := PromotedAll(b, Ascending(b.free.pending.Keys), oldest);
    if p.free.ready != [] then (Some(p.free.ready[|p.free.ready| - 1]), TakenReady(p))
    else if maxPages > 0 && p.pageCount >= maxPages then (None, p)
    else (Some(p.pageCount), Grown(p))
  }

  /**
   What is handed out was in use by nobody: not by the client, not by the state a
   crash would fall back to, not by any snapshot. An allocation fails only when
   nothing is ready and the file is at its quota.
   */
  lemma AllottedKeeps(b: Book, used: set<PageId>, kept: set<PageId>, held: map<TxId, set<PageId>>,
                      oldest: TxId, maxPages: nat)
    requires b.Balanced(used) && b.Shields(kept, held) && IsOldest(oldest, held.Keys)
    ensures
      var (id, now) := Allotted(b, oldest, maxPages);
      && now.Shields(kept, held)
      && (id.None? ==> now.Balanced(used) && maxPages > 0 && now.pageCount >= maxPages && now.free.ready == [])
      && (id.Some? ==>
            && id.value !in used && now.reserved <= id.value < now.pageCount && now.Balanced(used + {id.value})
            && id.value !in kept && (forall s | s in held :: id.value !in held[s]))
  {
    hide Book.Sums; hide Book.Ranges; hide Book.Shields; hide Book.Balanced;
    var ts := Ascending(b.free.pending.Keys);
    PromotedAllKeeps(b, used, kept, held, ts, oldest);
    PromotedAllMoves(b, ts, oldest);
    var p := PromotedAll(b, ts, oldest);
    if p.free.ready != [] {
      TakeReadyKeeps(p, used, kept, held);
    } else if !(maxPages > 0 && p.pageCount >= maxPages) {
      GrowKeeps(p, used, kept, held);
    }
  }

  /** What an allocation leaves alone. */
  lemma AllottedFrame(b: Book, oldest: TxId, maxPages: nat)
    ensures
      var (id, now) := Allotted(b, oldest, maxPages);
      && now.reserved == b.reserved && now.committed == b.committed && now.txid == b.txid
      && now.free.freeing == b.free.freeing && now.free.chain == b.free.chain
      && (forall t | t in now.free.pending :: t in b.free.pending)
      && (forall t | t in b.free.pending && t > b.txid :: t in now.free.pending && now.free.pending[t] == b.free.pending[t])
      && (id.None? ==> now.taken == b.taken && now.pageCount == b.pageCount)
      && (id.Some? ==> now.taken == b.taken + {id.value} && b.pageCount <= now.pageCount <= b.pageCount + 1)
  {
    PromotedAllMoves(b, Ascending(b.free.pending.Keys), oldest);
  }

  /** Free: a page this transaction allocated goes straight back, any other waits for the commit. */
  function Freeing(b: Book, id: PageId): Book {
    if id < b.reserved || id in b.free.seen then b
    else if b.Dirty(id) then b.WithFree(b.free.(seen := b.free.seen + {id}, ready := b.free.ready + [id]))
    else b.WithFree(b.free.(seen := b.free.seen + {id}, freeing := b.free.freeing + [id]))
  }

  lemma CopiesPush(s: seq<PageId>, id: PageId)
    ensures forall p: PageId :: Copies(s + [id], p) == Copies(s, p) + (if p == id then 1 else 0)
  {
    assert (s + [id])[..|s|] == s;
  }

  lemma FreeSums(b: Book, used: set<PageId>, id: PageId)
    requires b.Sums(used) && id in used && id !in b.free.seen && id >= b.reserved
    ensures Freeing(b, id).Sums(used - {id})
  {
    if b.Dirty(id) {
      CopiesPush(b.free.ready, id);
    } else {
      CopiesPush(b.free.freeing, id);
    }
    hide Copies;
    hide Waiting;
    assert Freeing(b, id).Sums(used - {id});
  }

  lemma FreeBalances(b: Book, used: set<PageId>, id: PageId)
    requires b.Balanced(used) && id in used
    ensures Freeing(b, id).Balanced(used - {id})
  {
    hide Copies;
    hide Waiting;
    assert b.reserved <= id < b.pageCount && id !in b.free.seen;
    FreeSums(b, used, id);
    hide Book.Sums;
    assert Freeing(b, id).Ranges(used - {id});
  }

  /** A page that was not there to give back is then on the books once too often. */
  lemma FreeBreaks(b: Book, used: set<PageId>, id: PageId)
    requires b.Sums(used) && id !in b.free.seen && id >= b.reserved
    ensures !Freeing(b, id).Sums(used)
  {
    var now := Freeing(b, id);
    CopiesPush(b.free.ready, id);
    CopiesPush(b.free.freeing, id);
    hide Copies;
    hide Waiting;
    assert Copies(now.free.ready, id) + Copies(now.free.freeing, id) == Copies(b.free.ready, id) + Copies(b.free.freeing, id) + 1;
  }

  lemma FreeShields(b: Book, kept: set<PageId>, held: map<TxId, set<PageId>>, id: PageId)
    requires b.Shields(kept, held)
    ensures Freeing(b, id).Shields(kept, held)
  {
    var now := Freeing(b, id);
    forall p: PageId, since: TxId | b.Apart(p, since)
      ensures now.Apart(p, since)
    {
    }
  }

  /** The roll at the start of a commit: what was replaced waits under the transaction being committed. */
  function Rolled(b: Book): Book {
    if b.free.freeing == [] then b
    else
      var next := b.txid + 1;
      b.WithFree(b.free.(
        pending := b.free.pending[next := (if next in b.free.pending then b.free.pending[next] else []) + b.free.freeing],
        freeing := []))
  }

  lemma RollBalances(b: Book, used: set<PageId>)
    requires b.Balanced(used)
    ensures Rolled(b).Balanced(used)
  {
    forall p: PageId
      ensures Copies(Rolled(b).free.freeing, p) + Waiting(Rolled(b).free.pending, p)
           == Copies(b.free.freeing, p) + Waiting(b.free.pending, p)
    {
      WaitingPut(b.free.pending, b.txid + 1, b.free.freeing, p);
    }
    hide Copies;
    hide Waiting;
    assert Rolled(b).Sums(used);
    assert Rolled(b).Ranges(used);
  }

  lemma RollShields(b: Book, kept: set<PageId>, held: map<TxId, set<PageId>>)
    requires b.Shields(kept, held)
    ensures Rolled(b).Shields(kept, held)
  {
    var now := Rolled(b);
    forall p: PageId, since: TxId | b.Apart(p, since) && since <= b.txid
      ensures now.Apart(p, since)
    {
    }
  }

  lemma RollFrame(b: Book)
    ensures
      var r := Rolled(b);
      && r == b.WithFree(r.free) && r.free.chain == b.free.chain && r.free.freeing == []
      && (forall t | t in r.free.pending :: t in b.free.pending || t == b.txid + 1)
  {
  }

  /** Freeing a whole list of pages, in order. */
  function FreedAll(b: Book, ids: seq<PageId>): Book {
    if ids == [] then b else Freeing(FreedAll(b, ids[..|ids| - 1]), ids[|ids| - 1])
  }

  ghost predicate NoDup(ids: seq<PageId>) { forall p: PageId :: Copies(ids, p) <= 1 }

  lemma NoDupEmpty()
    ensures NoDup([])
  {
  }

  lemma NoDupPush(ids: seq<PageId>, id: PageId)
    requires NoDup(ids) && id !in ids
    ensures NoDup(ids + [id])
  {
    CopiesPush(ids, id);
    CopiesIn(ids, id);
    hide Copies;
  }

  lemma NoDupLast(ids: seq<PageId>)
    requires NoDup(ids) && ids != []
    ensures NoDup(ids[..|ids| - 1]) && ids[|ids| - 1] !in ids[..|ids| - 1]
  {
    var before, id := ids[..|ids| - 1], ids[|ids| - 1];
    assert ids == before + [id];
    CopiesPush(before, id);
    CopiesIn(before, id);
    hide Copies;
    assert forall p: PageId :: Copies(before, p) <= Copies(ids, p);
  }

  lemma {:induction false} NoDupIndex(ids: seq<PageId>, i: nat, j: nat)
    requires NoDup(ids) && i < j < |ids|
    ensures ids[i] != ids[j]
  {
    NoDupLast(ids);
    if j == |ids| - 1 {
      assert ids[i] == ids[..|ids| - 1][i];
    } else {
      NoDupIndex(ids[..|ids| - 1], i, j);
    }
  }

  lemma {:induction false} FreedAllKeeps(b: Book, used: set<PageId>, kept: set<PageId>, held: map<TxId, set<PageId>>,
                                         ids: seq<PageId>)
    requires b.Balanced(used) && b.Shields(kept, held)
    requires NoDup(ids) && forall p | p in ids :: p in used
    ensures FreedAll(b, ids).Balanced(used - IdSet(ids))
    ensures FreedAll(b, ids).Shields(kept, held)
  {
    hide Book.Balanced;
    hide Book.Shields;
    hide NoDup;
    var gone := IdSet(ids);
    if ids == [] {
      assert used - gone == used;
    } else {
      var before, id := ids[..|ids| - 1], ids[|ids| - 1];
      NoDupLast(ids);
      assert ids == before + [id];
      FreedAllKeeps(b, used, kept, held, before);
      var left := used - IdSet(before);
      FreeBalances(FreedAll(b, before), left, id);
      FreeShields(FreedAll(b, before), kept, held, id);
      assert used - gone == left - {id};
    }
  }

  lemma {:induction false} FreedAllFrame(b: Book, ids: seq<PageId>)
    ensures
      var r := FreedAll(b, ids);
      && r == b.WithFree(r.free) && r.free.chain == b.free.chain && r.free.pending == b.free.pending
  {
    if ids != [] { FreedAllFrame(b, ids[..|ids| - 1]); }
  }

  /** The moment a commit is acknowledged: the transaction is over and everything it wrote is committed. */
  function Acked(b: Book, chain: seq<PageId>): Book {
    b.(txid := b.txid + 1, committed := b.pageCount, taken := {}, free := b.free.(chain := chain, seen := {}))
  }

  lemma AckKeeps(b: Book, used: set<PageId>, kept: set<PageId>, held: map<TxId, set<PageId>>, chain: seq<PageId>)
    requires b.Balanced(used) && b.Shields(kept, held) && b.free.freeing == []
    ensures Acked(b, chain).Balanced(used)
    ensures Acked(b, chain).Shields(used, held)
  {
    var now := Acked(b, chain);
    forall p | p in used ensures now.Apart(p, now.txid) {
      CopiesIn(b.free.ready, p);
      forall t | t in b.free.pending && p in b.free.pending[t] ensures false {
        WaitingHolds(b.free.pending, t, p);
      }
    }
  }

  // ---- what a flush leaves ----

  /** Under the transaction being committed wait pages of `kept`, if any were retired at all. */
  ghost predicate Retired(b: Book, kept: set<PageId>, some: bool) {
    && (forall t | t in b.free.pending :: t <= b.txid + 1)
    && (b.txid + 1 in b.free.pending <==> some)
    && (some ==> b.free.pending[b.txid + 1] != [] && forall p | p in b.free.pending[b.txid + 1] :: p in kept)
  }

  /** Pages of the last commit that are given back all wait. */
  lemma {:induction false} FreedAllWaits(b: Book, kept: set<PageId>, held: map<TxId, set<PageId>>, ids: seq<PageId>)
    requires b.Shields(kept, held) && NoDup(ids) && forall p | p in ids :: p in kept && p !in b.free.seen
    ensures FreedAll(b, ids) == b.WithFree(b.free.(freeing := b.free.freeing + ids, seen := b.free.seen + IdSet(ids)))
  {
    hide NoDup;
    if ids == [] {
      assert b.free.freeing + ids == b.free.freeing && b.free.seen + IdSet(ids) == b.free.seen;
    } else {
      var before, id := ids[..|ids| - 1], ids[|ids| - 1];
      NoDupLast(ids);
      assert ids == before + [id];
      FreedAllWaits(b, kept, held, before);
      assert id in kept && b.Apart(id, b.txid);
      assert b.free.seen + IdSet(before) + {id} == b.free.seen + IdSet(ids);
      assert b.free.freeing + before + [id] == b.free.freeing + ids;
    }
  }

  lemma RetiresExactly(b: Book, kept: set<PageId>, held: map<TxId, set<PageId>>, chain: seq<PageId>)
    requires b.Shields(kept, held) && NoDup(chain) && (forall p | p in chain :: p in kept && p !in b.free.seen)
    requires (forall p | p in b.free.freeing :: p in kept) && forall t | t in b.free.pending :: t <= b.txid
    ensures Retired(Rolled(FreedAll(b, chain)), kept, chain != [] || b.free.freeing != [])
  {
    hide Book.Shields;
    hide NoDup;
    FreedAllWaits(b, kept, held, chain);
    hide FreedAll;
    assert b.free.freeing + chain == [] <==> chain == [] && b.free.freeing == [];
  }

  lemma RetiredStays(b: Book, kept: set<PageId>, some: bool, now: Book)
    requires Retired(b, kept, some) && now.txid == b.txid
    requires forall t | t in now.free.pending :: t in b.free.pending
    requires forall t | t in b.free.pending && t > b.txid :: t in now.free.pending && now.free.pending[t] == b.free.pending[t]
    ensures Retired(now, kept, some)
  {
  }

  /** What promotion makes ready was ready or waiting. */
  lemma {:induction false} PromotedAllFrom(b: Book, ts: seq<TxId>, oldest: TxId, p: PageId)
    requires p in PromotedAll(b, ts, oldest).free.ready
    ensures p in b.free.ready || exists t :: t in b.free.pending && p in b.free.pending[t]
  {
    if ts != [] {
      var before, t := PromotedAll(b, ts[..|ts| - 1], oldest), ts[|ts| - 1];
      PromotedAllMoves(b, ts[..|ts| - 1], oldest);
      if p in before.free.ready {
        PromotedAllFrom(b, ts[..|ts| - 1], oldest, p);
      } else {
        assert p in before.free.pending[t] && t in b.free.pending;
      }
    }
  }

  /** The last transaction to wait is the last one promoted. */
  lemma PromotedLast(b: Book, t: TxId, oldest: TxId)
    requires t in b.free.pending && (forall u | u in b.free.pending :: u <= t) && b.free.pending[t] != [] && b.Settled(t, oldest)
    ensures
      var ready := PromotedAll(b, Ascending(b.free.pending.Keys), oldest).free.ready;
      ready != [] && ready[|ready| - 1] in b.free.pending[t]
  {
    var ts := Ascending(b.free.pending.Keys);
    AscendingSorts(b.free.pending.Keys);
    hide Ascending;
    assert t in ts;
    assert ts[|ts| - 1] in b.free.pending.Keys;
    assert ts[|ts| - 1] == t;
    PromotedNext(b, ts, |ts| - 1, oldest);
    assert ts[..|ts|] == ts;
    PromotedAllMoves(b, ts[..|ts| - 1], oldest);
  }

  /**
   After a flush the next allocation hands out a page of the version before it
   exactly when the flush retired one.
   */
  lemma NextAfterFlush(b: Book, kept: set<PageId>, some: bool, chain: seq<PageId>, maxPages: nat)
    requires Retired(b, kept, some) && b.Shields(kept, map[]) && b.committed <= b.pageCount
    ensures
      var next := Allotted(Acked(b, chain), 0, maxPages).0;
      next.Some? && next.value in kept <==> some
  {
    var now := Acked(b, chain);
    var ts := Ascending(now.free.pending.Keys);
    var ready := PromotedAll(now, ts, 0).free.ready;
    PromotedAllMoves(now, ts, 0);
    if some {
      PromotedLast(now, b.txid + 1, 0);
    } else {
      if ready != [] {
        var p := ready[|ready| - 1];
        PromotedAllFrom(now, ts, 0, p);
        assert p in kept ==> b.Apart(p, b.txid);
      }
    }
  }

  /** What may happen to the books between a flush and the leader's commit: allocations, and pages given back. */
  datatype Act = Take | Give(id: PageId)

  function Later(b: Book, acts: seq<Act>, maxPages: nat): Book {
    if acts == [] then b
    else
      var before := Later(b, acts[..|acts| - 1], maxPages);
      match acts[|acts| - 1]
      case Take => Allotted(before, 0, maxPages).1
      case Give(id) => Freeing(before, id)
  }

  lemma AllottedShields(b: Book, kept: set<PageId>, maxPages: nat)
    requires b.Shields(kept, map[]) && b.committed <= b.pageCount
    ensures
      var (id, now) := Allotted(b, 0, maxPages);
      now.Shields(kept, map[]) && now.committed <= now.pageCount && (id.Some? ==> id.value !in kept)
  {
    var ts := Ascending(b.free.pending.Keys);
    var p := PromotedAll(b, ts, 0);
    PromotedAllMoves(b, ts, 0);
    forall x | x in kept ensures p.Apart(x, p.txid) && x != p.pageCount {
      assert b.Apart(x, b.txid);
      if x in p.free.ready { PromotedSettled(b, ts, x); }
    }
    hide PromotedAll;
    hide Ascending;
  }

  /** What promotion adds to the ready pages had settled. */
  lemma {:induction false} PromotedSettled(b: Book, ts: seq<TxId>, p: PageId)
    requires p in PromotedAll(b, ts, 0).free.ready && p !in b.free.ready
    ensures exists t :: t in b.free.pending && p in b.free.pending[t] && t <= b.txid
  {
    if ts != [] {
      var before, t := PromotedAll(b, ts[..|ts| - 1], 0), ts[|ts| - 1];
      PromotedAllMoves(b, ts[..|ts| - 1], 0);
      if p in before.free.ready {
        PromotedSettled(b, ts[..|ts| - 1], p);
      } else {
        assert p in before.free.pending[t] && t in b.free.pending;
      }
    }
  }

  lemma {:induction false} LaterShields(b: Book, kept: set<PageId>, acts: seq<Act>, maxPages: nat)
    requires b.Shields(kept, map[]) && b.committed <= b.pageCount
    ensures var now := Later(b, acts, maxPages); now.Shields(kept, map[]) && now.committed <= now.pageCount
  {
    hide Book.Shields;
    if acts != [] {
      LaterShields(b, kept, acts[..|acts| - 1], maxPages);
      var before := Later(b, acts[..|acts| - 1], maxPages);
      AllottedShields(before, kept, maxPages);
      if acts[|acts| - 1].Give? { FreeShields(before, kept, map[], acts[|acts| - 1].id); }
      hide Allotted;
    }
  }

  /** The page the next allocation hands out, after all that. */
  function NextOf(b: Book, acts: seq<Act>, maxPages: nat): Option<PageId> { Allotted(Later(b, acts, maxPages), 0, maxPages).0 }

  /**
   After a flush that retired nothing, whatever is allocated and given back until the
   leader commits, no page of the version before it is handed out; after any other,
   the very next allocation hands one out.
   */
  lemma LaterAfterFlush(b: Book, kept: set<PageId>, some: bool, chain: seq<PageId>, maxPages: nat)
    requires Retired(b, kept, some) && b.Shields(kept, map[]) && b.committed <= b.pageCount
    ensures
      var now := Acked(b, chain);
      (exists acts :: NextOf(now, acts, maxPages).Some? && NextOf(now, acts, maxPages).value in kept) <==> some
  {
    var now := Acked(b, chain);
    NextAfterFlush(b, kept, some, chain, maxPages);
    if some {
      assert Later(now, [], maxPages) == now;
      assert NextOf(now, [], maxPages).value in kept;
    } else {
      assert now.Shields(kept, map[]) by {
        forall p | p in kept ensures now.Apart(p, now.txid) { assert b.Apart(p, b.txid); }
      }
      hide Retired;
      hide Acked;
      forall acts | NextOf(now, acts, maxPages).Some? ensures NextOf(now, acts, maxPages).value !in kept {
        LaterShields(now, kept, acts, maxPages);
        AllottedShields(Later(now, acts, maxPages), kept, maxPages);
      }
    }
  }

  // ---- the list in the file ----

  function Least(keys: set<TxId>): (r: TxId)
    requires keys != {}
    ensures r in keys && forall k | k in keys :: r <= k
  {
    HasLeast(keys);
    var least :| least in keys && forall k | k in keys :: least <= k;
    least
  }

  /** The transactions of a pending map, oldest first (sort.Slice over its keys). */
  function Ascending(keys: set<TxId>): seq<TxId> {
    if keys == {} then [] else [Least(keys)] + Ascending(keys - {Least(keys)})
  }

  lemma {:induction false} AscendingSorts(keys: set<TxId>)
    ensures forall k :: k in Ascending(keys) <==> k in keys
    ensures Rising(Ascending(keys))
  {
    if keys != {} {
      var least := Least(keys);
      var rest := Ascending(keys - {least});
      AscendingSorts(keys - {least});
      var all := [least] + rest;
      assert Ascending(keys) == all;
      hide Ascending;
      forall i, j | 0 <= i < j < |all| ensures all[i] < all[j] {
        assert all[j] == rest[j - 1] && rest[j - 1] in keys - {least};
      }
      assert forall k :: k in all <==> k == least || k in rest;
    }
  }

  lemma HasLeast(keys: set<TxId>)
    requires keys != {}
    ensures exists least :: least in keys && forall k | k in keys :: least <= k
  {
    var k :| k in keys;
    var rest := keys - {k};
    assert keys == rest + {k};
    if rest != {} {
      HasLeast(rest);
      var least :| least in rest && forall j | j in rest :: least <= j;
      var pick := Min(k, least);
      assert pick in keys && forall j | j in keys :: pick <= j;
    } else {
      assert k in keys && forall j | j in keys :: k <= j;
    }
  }

  function Records(t: TxId, ids: seq<PageId>): seq<Freed> {
    seq(|ids|, i requires 0 <= i < |ids| => Freed(t, ids[i]))
  }

  function RecordsOf(pending: map<TxId, seq<PageId>>, ts: seq<TxId>): seq<Freed>
    requires forall t | t in ts :: t in pending
  {
    if ts == [] then []
    else RecordsOf(pending, ts[..|ts| - 1]) + Records(ts[|ts| - 1], pending[ts[|ts| - 1]])
  }

  /** What writeFreelist records: the ready pages for anyone, then each transaction's pages, oldest first. */
  function Listing(f: Freelist): seq<Freed> {
    AscendingSorts(f.pending.Keys);
    Records(0, f.ready) + RecordsOf(f.pending, Ascending(f.pending.Keys))
  }

  function PagesOf(freed: seq<Freed>): (r: seq<PageId>)
    ensures |r| == |freed| && forall i | 0 <= i < |r| :: r[i] == freed[i].page
  {
    seq(|freed|, i requires 0 <= i < |freed| => freed[i].page)
  }

  lemma PagesOfConcat(a: seq<Freed>, b: seq<Freed>)
    ensures PagesOf(a + b) == PagesOf(a) + PagesOf(b)
  {
  }

  lemma {:induction false} RecordsOfPages(pending: map<TxId, seq<PageId>>, ts: seq<TxId>, p: PageId)
    requires forall t | t in ts :: t in pending
    requires forall t | t in pending :: t in ts
    requires Rising(ts)
    ensures Copies(PagesOf(RecordsOf(pending, ts)), p) == Waiting(pending, p)
  {
    if ts == [] {
      assert pending == map[];
    } else {
      var t, before := ts[|ts| - 1], ts[..|ts| - 1];
      var fewer := pending - {t};
      RecordsOfSame(pending, fewer, before);
      RecordsOfPages(fewer, before, p);
      WaitingTake(pending, t, p);
      PagesOfConcat(RecordsOf(pending, before), Records(t, pending[t]));
      assert PagesOf(Records(t, pending[t])) == pending[t];
      CopiesConcat(PagesOf(RecordsOf(pending, before)), pending[t], p);
    }
  }

  lemma {:induction false} RecordsOfSame(a: map<TxId, seq<PageId>>, b: map<TxId, seq<PageId>>, ts: seq<TxId>)
    requires forall t | t in ts :: t in a && t in b && a[t] == b[t]
    ensures RecordsOf(a, ts) == RecordsOf(b, ts)
  {
    if ts != [] { RecordsOfSame(a, b, ts[..|ts| - 1]); }
  }

  /** Each free page is listed as often as it is free, and nothing else is. */
  lemma ListingPages(f: Freelist, p: PageId)
    ensures Copies(PagesOf(Listing(f)), p) == Copies(f.ready, p) + Waiting(f.pending, p)
  {
    var ts := Ascending(f.pending.Keys);
    AscendingSorts(f.pending.Keys);
    RecordsOfPages(f.pending, ts, p);
    PagesOfConcat(Records(0, f.ready), RecordsOf(f.pending, ts));
    assert PagesOf(Records(0, f.ready)) == f.ready;
    CopiesConcat(f.ready, PagesOf(RecordsOf(f.pending, ts)), p);
  }

  /** How many pages wait under some transaction. */
  ghost function Sizes(m: map<TxId, seq<PageId>>): nat {
    if m == map[] then 0
    else var t :| t in m; |m[t]| + Sizes(m - {t})
  }

  lemma {:induction false} SizesTake(m: map<TxId, seq<PageId>>, t: TxId)
    requires t in m
    ensures Sizes(m) == |m[t]| + Sizes(m - {t})
    decreases |m|
  {
    var u :| u in m && Sizes(m) == |m[u]| + Sizes(m - {u});
    if u != t {
      SizesTake(m - {u}, t);
      SizesTake(m - {t}, u);
      assert (m - {u}) - {t} == (m - {t}) - {u};
    }
  }

  /** freelist.count: how many pages the list records. */
  ghost function Count(f: Freelist): nat { |f.ready| + Sizes(f.pending) }

  lemma {:induction false} RecordsOfSize(pending: map<TxId, seq<PageId>>, ts: seq<TxId>)
    requires forall t | t in ts :: t in pending
    requires forall t | t in pending :: t in ts
    requires Rising(ts)
    ensures |RecordsOf(pending, ts)| == Sizes(pending)
  {
    if ts == [] {
      assert pending == map[];
    } else {
      var t, before := ts[|ts| - 1], ts[..|ts| - 1];
      RecordsOfSame(pending, pending - {t}, before);
      RecordsOfSize(pending - {t}, before);
      SizesTake(pending, t);
    }
  }

  lemma ListingSize(f: Freelist)
    ensures |Listing(f)| == Count(f)
  {
    AscendingSorts(f.pending.Keys);
    RecordsOfSize(f.pending, Ascending(f.pending.Keys));
  }

  /** Promotion moves records without adding or losing one. */
  lemma {:induction false} PromotedAllCount(b: Book, ts: seq<TxId>, oldest: TxId)
    ensures Count(PromotedAll(b, ts, oldest).free) == Count(b.free)
  {
    if ts != [] {
      PromotedAllCount(b, ts[..|ts| - 1], oldest);
      var before, t := PromotedAll(b, ts[..|ts| - 1], oldest), ts[|ts| - 1];
      if t in before.free.pending { SizesTake(before.free.pending, t); }
    }
  }

  /** An allocation that reuses a page takes its record off the list; one that grows the file does not. */
  lemma AllottedCount(b: Book, oldest: TxId, maxPages: nat)
    ensures
      var (id, now) := Allotted(b, oldest, maxPages);
      Count(now.free) == Count(b.free) - (if id.Some? && now.pageCount == b.pageCount then 1 else 0)
  {
    var ts := Ascending(b.free.pending.Keys);
    PromotedAllCount(b, ts, oldest);
    PromotedAllMoves(b, ts, oldest);
  }

  /** How many pages `n` records need. */
  function Needed(n: nat): nat { (n + PER_PAGE - 1) / PER_PAGE }

  function Min(a: int, b: int): int { if a < b then a else b }

  /** The pages of a list fit its records: no slice is out of range and none is left over. */
  ghost predicate Settles(pages: nat, records: nat) {
    && Needed(records) <= pages
    && (pages > 0 ==> (pages - 1) * PER_PAGE <= records)
  }

  lemma SettlesInRange(pages: nat, records: nat)
    requires Settles(pages, records)
    ensures records <= pages * PER_PAGE
    ensures forall i: nat {:trigger i * PER_PAGE} | i < pages :: i * PER_PAGE <= records
  {
    assert records <= Needed(records) * PER_PAGE;
    assert Needed(records) * PER_PAGE <= pages * PER_PAGE;
    forall i: nat | i < pages ensures i * PER_PAGE <= records {
      assert i * PER_PAGE <= (pages - 1) * PER_PAGE;
    }
  }

  /** The loop that settles the size takes one more page only while the records need it. */
  lemma NeedsMore(pages: nat, records: nat)
    requires Needed(records) > pages
    ensures pages * PER_PAGE < records
  {
  }

  lemma NeededGrows(a: nat, b: nat)
    requires a <= b
    ensures Needed(a) <= Needed(b)
  {
  }

  /** Page `i` of the list over `ids`. */
  function ListPage(ids: seq<PageId>, freed: seq<Freed>, i: nat): Page
    requires i < |ids| && i * PER_PAGE <= |freed|
  {
    FreeList(if i + 1 < |ids| then ids[i + 1] else 0, freed[i * PER_PAGE..Min(i * PER_PAGE + PER_PAGE, |freed|)])
  }

  lemma ListAtMore(few: map<PageId, Page>, pages: map<PageId, Page>, ids: seq<PageId>, freed: seq<Freed>)
    requires ListAt(few, ids, freed) && forall id | id in few :: id in pages && pages[id] == few[id]
    ensures ListAt(pages, ids, freed)
  {
  }

  ghost predicate ListAt(pages: map<PageId, Page>, ids: seq<PageId>, freed: seq<Freed>) {
    && Settles(|ids|, |freed|)
    && forall i: nat {:trigger ids[i]} | i < |ids| ::
         i * PER_PAGE <= |freed| && ids[i] in pages && pages[ids[i]] == ListPage(ids, freed, i)
  }

  /** The list from page `from` on is in place. */
  ghost predicate ListFrom(pages: map<PageId, Page>, ids: seq<PageId>, freed: seq<Freed>, from: nat)
    requires Settles(|ids|, |freed|)
  {
    SettlesInRange(|ids|, |freed|);
    forall j: nat {:trigger ids[j]} | from <= j < |ids| :: ids[j] in pages && pages[ids[j]] == ListPage(ids, freed, j)
  }

  lemma ListFromStep(pages: map<PageId, Page>, ids: seq<PageId>, freed: seq<Freed>, at: nat)
    requires Settles(|ids|, |freed|) && NoDup(ids) && at < |ids|
    requires ListFrom(pages, ids, freed, at + 1)
    ensures at * PER_PAGE <= |freed|
    ensures ListFrom(pages[ids[at] := ListPage(ids, freed, at)], ids, freed, at)
  {
    hide NoDup;
    SettlesInRange(|ids|, |freed|);
    forall j: nat | at < j < |ids| ensures ids[j] != ids[at] { NoDupIndex(ids, at, j); }
  }

  lemma ListFromStart(pages: map<PageId, Page>, ids: seq<PageId>, freed: seq<Freed>)
    requires Settles(|ids|, |freed|)
    ensures ListFrom(pages, ids, freed, |ids|)
    ensures ListFrom(pages, ids, freed, 0) ==> ListAt(pages, ids, freed)
  {
    SettlesInRange(|ids|, |freed|);
  }

  /** Two files hold the same pages outside `ids`. */
  ghost predicate SameOutside(a: map<PageId, Page>, b: map<PageId, Page>, ids: seq<PageId>) {
    forall id | id !in ids :: (id in a <==> id in b) && (id in a ==> a[id] == b[id])
  }

  /** A list that was written whole, in a file of `count` pages. */
  ghost predicate Readable(pages: map<PageId, Page>, head: PageId, ids: seq<PageId>, freed: seq<Freed>, reserved: int, count: int) {
    && ListAt(pages, ids, freed) && head == HeadOf(ids) && NoDup(ids)
    && reserved >= 1 && (forall id | id in ids :: reserved <= id < count)
    && (forall r | r in freed :: reserved <= r.page < count)
  }

  /** How far a walk of the list has come after `k` pages. */
  ghost predicate ReadTo(ids: seq<PageId>, freed: seq<Freed>, k: nat, id: PageId, chain: seq<PageId>, ready: seq<PageId>) {
    && k <= |ids| && chain == ids[..k]
    && id == (if k < |ids| then ids[k] else 0)
    && ready == PagesOf(freed[..Min(k * PER_PAGE, |freed|)])
  }

  lemma ReadBegin(pages: map<PageId, Page>, head: PageId, ids: seq<PageId>, freed: seq<Freed>, reserved: int, count: int)
    requires Readable(pages, head, ids, freed, reserved, count)
    ensures ReadTo(ids, freed, 0, head, [], [])
  {
    hide NoDup;
    assert freed[..0] == [] && PagesOf([]) == [];
  }

  /** What the walk finds at its next stop. */
  lemma ReadPageOf(pages: map<PageId, Page>, head: PageId, ids: seq<PageId>, freed: seq<Freed>, reserved: int, count: int, k: nat)
    requires Readable(pages, head, ids, freed, reserved, count) && k < |ids|
    ensures reserved <= ids[k] < count && k <= count
    ensures k * PER_PAGE <= |freed| && ids[k] in pages && pages[ids[k]] == ListPage(ids, freed, k)
  {
    assert ids[k] in ids;
    NoDupPrefix(ids, k);
    assert |ids[..k]| == k;
    hide NoDup;
    assert forall p | p in ids[..k] :: p in ids;
    NoDupBound(ids[..k], count);
  }

  lemma ReadStep(pages: map<PageId, Page>, head: PageId, ids: seq<PageId>, freed: seq<Freed>, reserved: int, count: int,
                 k: nat, id: PageId, chain: seq<PageId>, ready: seq<PageId>)
    requires Readable(pages, head, ids, freed, reserved, count) && ReadTo(ids, freed, k, id, chain, ready) && id != 0
    ensures reserved <= id < count && |chain| <= count
    ensures id in pages && pages[id].FreeList? && |pages[id].freed| <= PER_PAGE
    ensures forall r | r in pages[id].freed :: r in freed && reserved <= r.page < count
    ensures ReadTo(ids, freed, k + 1, pages[id].next, chain + [id], ready + PagesOf(pages[id].freed))
  {
    hide NoDup;
    hide ListAt;
    hide PagesOf;
    assert k < |ids|;
    ReadPageOf(pages, head, ids, freed, reserved, count, k);
    ReadSlice(ids, freed, k, chain, ready);
    assert forall r | r in pages[id].freed :: r in freed;
    hide ReadTo;
  }

  lemma ReadSlice(ids: seq<PageId>, freed: seq<Freed>, k: nat, chain: seq<PageId>, ready: seq<PageId>)
    requires k < |ids| && k * PER_PAGE <= |freed| && ReadTo(ids, freed, k, ids[k], chain, ready)
    ensures
      var page := ListPage(ids, freed, k);
      ReadTo(ids, freed, k + 1, page.next, chain + [ids[k]], ready + PagesOf(page.freed))
  {
    var from, to := k * PER_PAGE, Min(k * PER_PAGE + PER_PAGE, |freed|);
    assert Min((k + 1) * PER_PAGE, |freed|) == to;
    assert freed[..to] == freed[..from] + freed[from..to];
    PagesOfConcat(freed[..from], freed[from..to]);
    assert ids[..k + 1] == ids[..k] + [ids[k]];
  }

  lemma ReadOn(ids: seq<PageId>, k: nat, reserved: int, count: int)
    requires k < |ids| && (forall id | id in ids :: reserved <= id < count) && reserved >= 1
    ensures ids[k] != 0
  {
    assert ids[k] in ids;
  }

  lemma ReadEnd(pages: map<PageId, Page>, head: PageId, ids: seq<PageId>, freed: seq<Freed>, reserved: int, count: int,
                k: nat, chain: seq<PageId>, ready: seq<PageId>)
    requires Readable(pages, head, ids, freed, reserved, count) && ReadTo(ids, freed, k, 0, chain, ready)
    ensures chain == ids && ready == PagesOf(freed)
  {
    hide NoDup;
    if k < |ids| { ReadOn(ids, k, reserved, count); }
    SettlesInRange(|ids|, |freed|);
    assert freed[..|freed|] == freed && ids[..|ids|] == ids;
  }

  lemma {:induction false} NoDupPrefix(ids: seq<PageId>, k: nat)
    requires NoDup(ids) && k <= |ids|
    ensures NoDup(ids[..k])
  {
    if k < |ids| {
      NoDupLast(ids);
      NoDupPrefix(ids[..|ids| - 1], k);
      assert ids[..|ids| - 1][..k] == ids[..k];
    } else {
      assert ids[..k] == ids;
    }
  }

  /** How many of the pages are below `n`. */
  ghost function Under(ids: seq<PageId>, n: nat): nat {
    if ids == [] then 0 else Under(ids[..|ids| - 1], n) + (if ids[|ids| - 1] < n then 1 else 0)
  }

  lemma {:induction false} UnderNext(ids: seq<PageId>, n: nat)
    ensures Under(ids, n + 1) == Under(ids, n) + Copies(ids, n)
  {
    if ids != [] { UnderNext(ids[..|ids| - 1], n); }
  }

  lemma {:induction false} UnderAll(ids: seq<PageId>, n: nat)
    ensures (forall id | id in ids :: id < n) ==> Under(ids, n) == |ids|
    ensures (forall id | id in ids :: id >= n) ==> Under(ids, n) == 0
  {
    if ids != [] {
      var before, last := ids[..|ids| - 1], ids[|ids| - 1];
      UnderAll(before, n);
      assert last in ids && forall id | id in before :: id in ids;
    }
  }

  /** Distinct pages of a file are no more than the file has. */
  lemma {:induction false} NoDupBound(ids: seq<PageId>, count: nat)
    requires NoDup(ids) && forall id | id in ids :: 0 <= id < count
    ensures |ids| <= count
  {
    hide Copies;
    hide Under;
    UnderAll(ids, 0);
    UnderAll(ids, count);
    var n := 0;
    while n < count
      invariant 0 <= n <= count && Under(ids, n) <= n
    {
      UnderNext(ids, n);
      n := n + 1;
    }
  }

  function HeadOf(ids: seq<PageId>): PageId { if ids == [] then 0 else ids[0] }
}
