/**
 A subscription: a streamer that reads the log and waits to be woken, among
 writers that commit, trim and notify whenever they like.
 */
module Feeds {
  import opened Options
  import opened Journals

  /** Where the streamer is. A channel is a generation: it is open until the next notify. */
  datatype Phase =
    | Ready
    | Holding(channel: nat)
    | Sending(channel: nat, batch: seq<Change>, more: bool)
    | Waiting(channel: nat)
    | TooFarBehind
    | Gone

  /**
   `full` is every entry ever committed and `retain` how many of them the log
   keeps; `announced` is the last entry there was when somebody last notified.
   */
  datatype World = World(
    full: seq<Change>, retain: nat, announced: nat, generation: nat,
    from: nat, cursor: nat, sent: seq<Change>, phase: Phase)

  datatype Step = Commit(entries: seq<Change>) | Notify | Take | Drain | Send | Turn | Wake | Leave

  /** What each step may do, in any order. Anybody may commit, notify, or leave at any time. */
  ghost predicate Takes(w: World, s: Step, v: World) {
    match s
    case Commit(entries) =>
      (forall i | 0 <= i < |entries| :: entries[i].lsn == |w.full| + i + 1) && v == w.(full := w.full + entries)
    case Notify => v == w.(generation := w.generation + 1, announced := |w.full|)
    case Take => w.phase.Ready? && v == w.(phase := Holding(w.generation))
    case Drain =>
      && w.phase.Holding?
      && if Reaches(w.full, w.retain, w.cursor)
         then v == w.(phase := Sending(w.phase.channel, Batch(w.full, w.cursor), |Batch(w.full, w.cursor)| == BATCH))
         else v == w.(phase := TooFarBehind)
    case Send =>
      && w.phase.Sending? && w.phase.batch != []
      && v == w.(sent := w.sent + [w.phase.batch[0]], cursor := w.phase.batch[0].lsn + 1, phase := w.phase.(batch := w.phase.batch[1..]))
    case Turn =>
      w.phase.Sending? && w.phase.batch == [] && v == w.(phase := if w.phase.more then Ready else Waiting(w.phase.channel))
    case Wake => w.phase.Waiting? && w.generation > w.phase.channel && v == w.(phase := Ready)
    case Leave => v == w.(phase := Gone)
  }

  ghost predicate Starts(w: World) {
    && Numbered(w.full) && w.announced <= |w.full| && w.from >= 1
    && w.cursor == w.from && w.sent == [] && w.phase.Ready?
  }

  /** Events so far are the entries from the one that was asked for on: consecutive, each once, each as it was committed. */
  ghost predicate InStep(w: World) {
    && Numbered(w.full) && w.announced <= |w.full| && w.from >= 1 && w.cursor == w.from + |w.sent|
    && (w.sent != [] ==> w.from - 1 + |w.sent| <= |w.full|)
    && (forall i | 0 <= i < |w.sent| :: w.sent[i] == w.full[w.from - 1 + i] && w.sent[i].lsn == w.from + i)
  }

  /** A channel that is still open was taken before anything that has not been read was announced. */
  ghost predicate Awake(w: World) {
    match w.phase
    case Holding(c) => c <= w.generation
    case Sending(c, batch, more) =>
      && c <= w.generation && w.cursor >= 1 && (batch != [] ==> w.cursor - 1 + |batch| <= |w.full|)
      && (forall i | 0 <= i < |batch| :: batch[i] == w.full[w.cursor - 1 + i])
      && (!more && c == w.generation ==> w.announced < w.cursor + |batch|)
    case Waiting(c) => c <= w.generation && (c == w.generation ==> w.announced < w.cursor)
    case _ => true
  }

  lemma StepKeeps(w: World, s: Step, v: World)
    requires InStep(w) && Awake(w) && Takes(w, s, v)
    ensures InStep(v) && Awake(v)
  {
    match s
    case Commit(entries) => CommitKeeps(w, entries);
    case Notify =>
    case Take =>
    case Drain => DrainKeeps(w, v);
    case Send => SendKeeps(w, v);
    case Turn =>
    case Wake =>
    case Leave =>
  }

  lemma CommitKeeps(w: World, entries: seq<Change>)
    requires InStep(w) && Awake(w) && forall i | 0 <= i < |entries| :: entries[i].lsn == |w.full| + i + 1
    ensures InStep(w.(full := w.full + entries)) && Awake(w.(full := w.full + entries))
  {
    var v := w.(full := w.full + entries);
    assert forall i | 0 <= i < |w.full| :: v.full[i] == w.full[i];
    assert forall i | |w.full| <= i < |v.full| :: v.full[i] == entries[i - |w.full|];
  }

  lemma DrainKeeps(w: World, v: World)
    requires InStep(w) && Awake(w) && Takes(w, Drain, v)
    ensures InStep(v) && Awake(v)
  {
    var b := Batch(w.full, w.cursor);
    assert forall i | 0 <= i < |b| :: b[i] == w.full[w.cursor - 1 + i];
  }

  lemma SendKeeps(w: World, v: World)
    requires InStep(w) && Awake(w) && Takes(w, Send, v)
    ensures InStep(v) && Awake(v)
  {
    var b := w.phase.batch;
    assert b[0] == w.full[w.cursor - 1] && b[0].lsn == w.cursor;
    assert forall i | 0 <= i < |b| - 1 :: b[1..][i] == b[i + 1];
  }

  /** A run: worlds, and the step that led to each from the one before. */
  ghost predicate IsRun(worlds: seq<World>, steps: seq<Step>) {
    && |worlds| == |steps| + 1 && Starts(worlds[0])
    && forall i | 0 <= i < |steps| :: Takes(worlds[i], steps[i], worlds[i + 1])
  }

  lemma {:induction false} RunKeeps(worlds: seq<World>, steps: seq<Step>, k: nat)
    requires IsRun(worlds, steps) && k < |worlds|
    ensures InStep(worlds[k]) && Awake(worlds[k])
  {
    hide InStep;
    hide Awake;
    hide Takes;
    if k == 0 {
      StartKeeps(worlds[0]);
    } else {
      RunKeeps(worlds, steps, k - 1);
      assert Takes(worlds[k - 1], steps[k - 1], worlds[k - 1 + 1]);
      StepKeeps(worlds[k - 1], steps[k - 1], worlds[k]);
    }
  }

  lemma StartKeeps(w: World)
    requires Starts(w)
    ensures InStep(w) && Awake(w)
  {
  }

  /** The streamer is asleep on a channel that is still open. */
  predicate Blocked(w: World) { w.phase.Waiting? && w.phase.channel == w.generation }

  /**
   Over every interleaving: the events are consecutive entries from the one asked
   for, each once, and a streamer that is blocked has sent everything announced.
   */
  lemma Delivers(worlds: seq<World>, steps: seq<Step>, k: nat)
    requires IsRun(worlds, steps) && k < |worlds|
    ensures
      var w := worlds[k];
      && w.from >= 1 && (w.sent != [] ==> w.from - 1 + |w.sent| <= |w.full|)
      && (forall i | 0 <= i < |w.sent| :: w.sent[i] == w.full[w.from - 1 + i] && w.sent[i].lsn == w.from + i)
      && (Blocked(w) ==> w.announced < w.from + |w.sent|)
  {
    RunKeeps(worlds, steps, k);
  }

  /** The entry the streamer is at has been committed and is no longer kept. */
  predicate Trimmed(w: World) { w.cursor <= |w.full| && w.retain > 0 && w.cursor + w.retain <= |w.full| }

  /** A drain at `j` found its entry trimmed, and the streamer has not left since. */
  ghost predicate FellBehind(worlds: seq<World>, steps: seq<Step>, j: nat, k: nat)
    requires |worlds| == |steps| + 1 && j < k <= |steps|
  {
    steps[j].Drain? && Trimmed(worlds[j]) && forall i | j < i < k :: !steps[i].Leave?
  }

  /**
   Trimming is reported, never skipped and never made up: over every interleaving
   the streamer has given up exactly when some drain of it came to an entry that was
   no longer kept, and the next entry it owes is then gone for good.
   */
  lemma {:induction false} TrimIsReported(worlds: seq<World>, steps: seq<Step>, k: nat)
    requires IsRun(worlds, steps) && k < |worlds|
    ensures worlds[k].phase.TooFarBehind? <==> exists j: nat :: j < k && FellBehind(worlds, steps, j, k)
    ensures worlds[k].phase.TooFarBehind? ==> Trimmed(worlds[k]) && worlds[k].cursor == worlds[k].from + |worlds[k].sent|
  {
    RunKeeps(worlds, steps, k);
    hide Awake;
    if k > 0 {
      var n := k - 1;
      TrimIsReported(worlds, steps, n);
      RunKeeps(worlds, steps, n);
      var w, v := worlds[n], worlds[n + 1];
      assert Takes(w, steps[n], v);
      if j: nat :| j < n && FellBehind(worlds, steps, j, n) {
        assert !steps[n].Leave? ==> FellBehind(worlds, steps, j, k);
      }
      if v.phase.TooFarBehind? && !w.phase.TooFarBehind? {
        assert FellBehind(worlds, steps, n, k);
      }
      if j: nat :| j < k && FellBehind(worlds, steps, j, k) {
        if j < n { assert FellBehind(worlds, steps, j, n); }
      }
    }
  }

  // ---- a streamer left to itself ----

  predicate Own(s: Step) { s.Take? || s.Drain? || s.Send? || s.Turn? || s.Wake? }

  /** Worlds that follow from each other by the streamer's own steps. */
  ghost predicate IsOwn(worlds: seq<World>, steps: seq<Step>) {
    && |worlds| == |steps| + 1
    && forall i | 0 <= i < |steps| :: Own(steps[i]) && Takes(worlds[i], steps[i], worlds[i + 1])
  }

  /** What the streamer does next by itself. */
  function NextStep(w: World): Step {
    match w.phase
    case Ready => Take
    case Holding(_) => Drain
    case Sending(_, batch, _) => if batch != [] then Send else Turn
    case _ => Wake
  }

  function NextWorld(w: World): World {
    match w.phase
    case Ready => w.(phase := Holding(w.generation))
    case Holding(c) =>
      if Reaches(w.full, w.retain, w.cursor)
      then w.(phase := Sending(c, Batch(w.full, w.cursor), |Batch(w.full, w.cursor)| == BATCH))
      else w.(phase := TooFarBehind)
    case Sending(c, batch, more) =>
      if batch != [] then w.(sent := w.sent + [batch[0]], cursor := batch[0].lsn + 1, phase := w.phase.(batch := batch[1..]))
      else w.(phase := if more then Ready else Waiting(c))
    case _ => w.(phase := Ready)
  }

  /** An old channel costs one more round; then what is unsent shrinks; then the phase moves on. */
  function Rounds(w: World): nat { if (w.phase.Holding? || w.phase.Sending? || w.phase.Waiting?) && w.phase.channel < w.generation then 1 else 0 }

  function Unsent(w: World): nat { if w.cursor <= |w.full| then |w.full| - w.cursor + 1 else 0 }

  function Ahead(w: World): nat {
    match w.phase
    case Ready => 4
    case Holding(_) => 3
    case Sending(_, batch, more) => if batch != [] then 2 else if more then 5 else 1
    case _ => 0
  }

  /**
   From anywhere in any run, with nobody else doing anything, finitely many steps
   of the streamer end in one of two ways: it is blocked and has sent everything
   announced, or it reports that the next entry it owes is no longer kept.
   */
  lemma {:induction false} Settles(w: World) returns (worlds: seq<World>, steps: seq<Step>)
    requires InStep(w) && Awake(w) && !w.phase.Gone? && !w.phase.TooFarBehind?
    ensures IsOwn(worlds, steps) && worlds[0] == w
    ensures var v := worlds[|steps|];
      && InStep(v) && v.full == w.full && v.announced == w.announced && v.retain == w.retain && v.from == w.from && w.cursor <= v.cursor
      && if v.phase.TooFarBehind? then Trimmed(v) else Blocked(v) && v.announced < v.from + |v.sent|
    decreases Rounds(w), Unsent(w), Ahead(w)
  {
    hide Takes;
    hide Batch;
    if Blocked(w) {
      worlds, steps := [w], [];
    } else {
      var v := NextWorld(w);
      NextTakes(w);
      StepKeeps(w, NextStep(w), v);
      NextIsNearer(w);
      if v.phase.TooFarBehind? {
        worlds, steps := [w, v], [NextStep(w)];
      } else {
        var rest, after := Settles(v);
        worlds, steps := [w] + rest, [NextStep(w)] + after;
        OwnPrepends(w, NextStep(w), rest, after);
      }
    }
  }

  lemma OwnPrepends(w: World, s: Step, worlds: seq<World>, steps: seq<Step>)
    requires IsOwn(worlds, steps) && Own(s) && Takes(w, s, worlds[0])
    ensures IsOwn([w] + worlds, [s] + steps)
  {
    hide Takes;
    var a, b := [w] + worlds, [s] + steps;
    forall i | 0 <= i < |b| ensures Own(b[i]) && Takes(a[i], b[i], a[i + 1]) {
      if i > 0 { assert a[i] == worlds[i - 1] && b[i] == steps[i - 1] && a[i + 1] == worlds[i - 1 + 1]; }
    }
  }

  lemma NextTakes(w: World)
    requires InStep(w) && Awake(w) && !w.phase.Gone? && !w.phase.TooFarBehind? && !Blocked(w)
    ensures Own(NextStep(w)) && Takes(w, NextStep(w), NextWorld(w))
    ensures NextWorld(w).phase.TooFarBehind? ==> Trimmed(w)
  {
  }

  lemma NextIsNearer(w: World)
    requires InStep(w) && Awake(w) && !w.phase.Gone? && !w.phase.TooFarBehind? && !Blocked(w)
    ensures var v := NextWorld(w);
      && (v.phase.TooFarBehind? || Rounds(v) < Rounds(w) || (Rounds(v) == Rounds(w) &&
            (Unsent(v) < Unsent(w) || (Unsent(v) == Unsent(w) && Ahead(v) < Ahead(w)))))
      && w.cursor <= v.cursor
  {
    if w.phase.Sending? && w.phase.batch != [] {
      var b := w.phase.batch;
      assert b[0] == w.full[w.cursor - 1] && b[0].lsn == w.cursor;
    }
  }

  // ---- why the channel is taken first ----

  predicate Others(s: Step) { s.Commit? || s.Notify? }

  /** What the others do while the streamer is between reading and taking the channel. */
  ghost predicate Meanwhile(worlds: seq<World>, steps: seq<Step>) {
    && |worlds| == |steps| + 1
    && forall i | 0 <= i < |steps| :: Others(steps[i]) && Takes(worlds[i], steps[i], worlds[i + 1])
  }

  lemma {:induction false} MeanwhileGrows(worlds: seq<World>, steps: seq<Step>, k: nat)
    requires Meanwhile(worlds, steps) && k < |worlds|
    ensures var w, v := worlds[0], worlds[k];
      && w.full <= v.full && w.generation <= v.generation && v.cursor == w.cursor && v.sent == w.sent && v.retain == w.retain && v.from == w.from
      && (v.generation == w.generation ==> v.announced == w.announced)
      && (w.announced <= |w.full| ==> v.announced <= |v.full|)
  {
    if k > 0 {
      MeanwhileGrows(worlds, steps, k - 1);
      assert Others(steps[k - 1]) && Takes(worlds[k - 1], steps[k - 1], worlds[k - 1 + 1]);
    }
  }

  /** The streamer asleep on this channel with everything that was there when it read sent. */
  function Asleep(read: World, now: World, channel: nat): World {
    var b := Batch(read.full, read.cursor);
    now.(sent := read.sent + b, cursor := read.cursor + |b|, phase := Waiting(channel))
  }

  /**
   For every reader and whatever the others do between its reading and its taking
   the channel: taken late, the channel is one nobody will close for what was
   announced meanwhile, and exactly the entries announced since the read are lost.
   Taken first, the streamer sleeps only if nothing was announced since.
   */
  lemma OrderMatters(worlds: seq<World>, steps: seq<Step>)
    requires Meanwhile(worlds, steps) && InStep(worlds[0])
    requires var w := worlds[0]; w.cursor <= |w.full| + 1 && Reaches(w.full, w.retain, w.cursor) && |Batch(w.full, w.cursor)| < BATCH
    ensures
      var w, v := worlds[0], worlds[|steps|];
      var late, early := Asleep(w, v, v.generation), Asleep(w, v, w.generation);
      && late.cursor == early.cursor == |w.full| + 1
      && Blocked(late) && (Awake(late) <==> v.announced <= |w.full|)
      && (Blocked(early) <==> v.generation == w.generation) && Awake(early)
  {
    MeanwhileGrows(worlds, steps, |steps|);
  }

  /** So one commit that is announced in between is always lost. */
  lemma WakeUpLost(w: World, c: Change)
    requires InStep(w) && w.cursor <= |w.full| + 1 && Reaches(w.full, w.retain, w.cursor) && |Batch(w.full, w.cursor)| < BATCH
    requires c.lsn == |w.full| + 1
    ensures
      var committed := w.(full := w.full + [c]);
      var announced := committed.(generation := w.generation + 1, announced := |w.full| + 1);
      var late := Asleep(w, announced, announced.generation);
      && Takes(w, Commit([c]), committed) && Takes(committed, Notify, announced)
      && Blocked(late) && !Awake(late) && late.cursor == c.lsn <= late.announced
  {
    var committed := w.(full := w.full + [c]);
    var announced := committed.(generation := w.generation + 1, announced := |w.full| + 1);
    var worlds, steps := [w, committed, announced], [Commit([c]), Notify];
    assert Meanwhile(worlds, steps);
    OrderMatters(worlds, steps);
  }
}
