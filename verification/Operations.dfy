/**
 Declared operations and the graph their steps form, with the walks over it that
 answer before anything runs: how many rows, under which lock, touching what.
 */
module Operations {
  import opened Options

  type Name = string

  datatype Action = Get | Insert | Put | Update | Delete | Scan | Totals | Count | HashRange | DeleteRange | Batch

  /** A step touches one document of a collection, or calls an operation at a pinned version. */
  datatype Step =
    | Touch(tag: Name, action: Action, collection: Name)
    | Call(tag: Name, operation: Name, version: nat)

  datatype Operation = Operation(
    name: Name, version: nat, action: Action, collection: Name, index: Name, limit: int,
    projection: seq<Name>, scopes: seq<Name>, steps: seq<Step>)

  /** name@version */
  datatype Pin = Pin(name: Name, version: nat)

  type Table = map<Pin, Operation>

  datatype Error = NoLimit | Missing | Damaged | BadAction | NoCollection | NoVersion | NoScope

  datatype Result<T> = Ok(value: T) | Fail(error: Error)

  function At(op: Operation): Pin { Pin(op.name, op.version) }

  /** Every stored declaration is under its own name and version; versions start at one. */
  ghost predicate WellKept(table: Table) {
    forall p | p in table :: At(table[p]) == p && p.version >= 1
  }

  /** Writes: whether an action changes the database. */
  predicate Writes(action: Action) { action in {Insert, Put, Update, Delete, Batch, DeleteRange} }

  // ---- the plain sum ----

  /** What ceilingOf counts for a single action. */
  function Own(op: Operation): Result<nat> {
    match op.action
    case Get => Ok(1)
    case Insert => Ok(1)
    case Put => Ok(1)
    case Update => Ok(1)
    case Delete => Ok(1)
    case Scan => if op.limit <= 0 then Fail(NoLimit) else Ok(op.limit)
    case Totals => if op.limit <= 0 then Fail(NoLimit) else Ok(op.limit)
    case DeleteRange => if op.limit <= 0 then Fail(NoLimit) else Ok(op.limit)
    case Count => if op.limit <= 0 then Fail(NoLimit) else Ok(1)
    case HashRange => if op.limit <= 0 then Fail(NoLimit) else Ok(1)
    case Batch => Fail(BadAction)
  }

  /**
   What a walk asks of the declarations: a number for a single action, a number for
   a plain step, or a refusal.
   */
  datatype Weigh = Weigh(own: Operation -> Option<nat>, touch: Step -> Option<nat>)

  /** ceilingOf asks how many rows. */
  function Rows(): Weigh {
    Weigh((op: Operation) => match Own(op) case Ok(n) => Some(n) case Fail(_) => None, (step: Step) => Some(1))
  }

  /** The sum over everything an operation reaches, following references at most `depth` deep. */
  ghost function Sum(w: Weigh, table: Table, op: Operation, depth: nat): Option<nat>
    decreases depth, 1, 0
  {
    if op.action != Batch then w.own(op)
    else if depth == 0 then None
    else SumSteps(w, table, op.steps, depth - 1)
  }

  ghost function SumSteps(w: Weigh, table: Table, steps: seq<Step>, depth: nat): Option<nat>
    decreases depth, 2, |steps|
  {
    if steps == [] then Some(0)
    else
      match (SumSteps(w, table, steps[..|steps| - 1], depth), SumStep(w, table, steps[|steps| - 1], depth))
      case (Some(a), Some(b)) => Some(a + b)
      case _ => None
  }

  ghost function SumStep(w: Weigh, table: Table, step: Step, depth: nat): Option<nat>
    decreases depth, 1, 1
  {
    match step
    case Touch(_, _, _) => w.touch(step)
    case Call(_, name, version) => if Pin(name, version) in table then Sum(w, table, table[Pin(name, version)], depth) else None
  }

  /** Looking deeper never changes an answer that was found. */
  lemma {:induction false} SumStays(w: Weigh, table: Table, op: Operation, a: nat, b: nat)
    requires a <= b && Sum(w, table, op, a).Some?
    ensures Sum(w, table, op, b) == Sum(w, table, op, a)
    decreases a, 1, 0
  {
    if op.action == Batch { StepsStay(w, table, op.steps, a - 1, b - 1); }
  }

  lemma {:induction false} StepsStay(w: Weigh, table: Table, steps: seq<Step>, a: nat, b: nat)
    requires a <= b && SumSteps(w, table, steps, a).Some?
    ensures SumSteps(w, table, steps, b) == SumSteps(w, table, steps, a)
    decreases a, 2, |steps|
  {
    if steps != [] {
      StepsStay(w, table, steps[..|steps| - 1], a, b);
      var last := steps[|steps| - 1];
      if last.Call? { SumStays(w, table, table[Pin(last.operation, last.version)], a, b); }
    }
  }

  /** The plain recursive sum of an operation is `n`: the references run out, and this is what they add up to. */
  ghost predicate Sums(w: Weigh, table: Table, op: Operation, n: nat) { exists depth: nat :: Sum(w, table, op, depth) == Some(n) }

  ghost predicate NeverSums(w: Weigh, table: Table, op: Operation) { forall depth: nat :: Sum(w, table, op, depth).None? }

  lemma SumsOnce(w: Weigh, table: Table, op: Operation, a: nat, b: nat)
    requires Sums(w, table, op, a) && Sums(w, table, op, b)
    ensures a == b
  {
    var d: nat :| Sum(w, table, op, d) == Some(a);
    var e: nat :| Sum(w, table, op, e) == Some(b);
    hide Sum;
    if d <= e { SumStays(w, table, op, d, e); } else { SumStays(w, table, op, e, d); }
  }

  /** `a` is summed only after `b` is, one reference shallower at least. */
  ghost predicate Above(w: Weigh, table: Table, a: Operation, b: Operation) {
    forall d: nat :: Sum(w, table, a, d).Some? ==> d >= 1 && Sum(w, table, b, d - 1).Some?
  }

  lemma AboveNext(w: Weigh, table: Table, a: Operation, b: Operation, c: Operation)
    requires Above(w, table, a, b) && Above(w, table, b, c)
    ensures Above(w, table, a, c)
  {
    forall d: nat | Sum(w, table, a, d).Some? ensures d >= 1 && Sum(w, table, c, d - 1).Some? {
      assert Sum(w, table, b, d - 1).Some?;
      SumStays(w, table, c, d - 2, d - 1);
    }
  }

  lemma {:induction false} StepsNeed(w: Weigh, table: Table, steps: seq<Step>, i: nat, depth: nat)
    requires i < |steps| && SumSteps(w, table, steps, depth).Some?
    ensures SumStep(w, table, steps[i], depth).Some?
    decreases |steps|
  {
    if i < |steps| - 1 { StepsNeed(w, table, steps[..|steps| - 1], i, depth); }
  }

  lemma CallIsAbove(w: Weigh, table: Table, op: Operation, i: nat)
    requires op.action == Batch && i < |op.steps| && op.steps[i].Call?
    requires Pin(op.steps[i].operation, op.steps[i].version) in table
    ensures Above(w, table, op, table[Pin(op.steps[i].operation, op.steps[i].version)])
  {
    var callee := table[Pin(op.steps[i].operation, op.steps[i].version)];
    forall d: nat | Sum(w, table, op, d).Some? ensures d >= 1 && Sum(w, table, callee, d - 1).Some? {
      StepsNeed(w, table, op.steps, i, d - 1);
    }
  }

  /** What is above itself is never summed: a cycle. */
  lemma CycleNeverSums(w: Weigh, table: Table, op: Operation)
    requires Above(w, table, op, op)
    ensures NeverSums(w, table, op)
  {
    forall d: nat ensures Sum(w, table, op, d).None? { Descends(w, table, op, d); }
  }

  lemma {:induction false} Descends(w: Weigh, table: Table, op: Operation, d: nat)
    requires Above(w, table, op, op)
    ensures Sum(w, table, op, d).None?
  {
    hide Sum;
    if d > 0 { Descends(w, table, op, d - 1); }
  }

  /** Following these steps, each a reference to an operation that is there, leads from one operation to another. */
  ghost predicate Leads(table: Table, op: Operation, path: seq<nat>, inner: Operation)
    decreases |path|
  {
    if path == [] then inner == op
    else
      && op.action == Batch && path[0] < |op.steps| && op.steps[path[0]].Call?
      && var pin := Pin(op.steps[path[0]].operation, op.steps[path[0]].version);
      pin in table && Leads(table, table[pin], path[1..], inner)
  }

  lemma {:induction false} LeadsIsAbove(w: Weigh, table: Table, op: Operation, path: seq<nat>, inner: Operation)
    requires path != [] && Leads(table, op, path, inner)
    ensures Above(w, table, op, inner)
    decreases |path|
  {
    hide Above;
    CallIsAbove(w, table, op, path[0]);
    if |path| > 1 {
      var callee := table[Pin(op.steps[path[0]].operation, op.steps[path[0]].version)];
      LeadsIsAbove(w, table, callee, path[1..], inner);
      AboveNext(w, table, op, callee, inner);
    }
  }

  /** An operation whose references lead back to it has no sum, and neither has any that leads to it. */
  lemma CycleHasNoSum(w: Weigh, table: Table, op: Operation, to: seq<nat>, inner: Operation, cycle: seq<nat>)
    requires Leads(table, op, to, inner) && cycle != [] && Leads(table, inner, cycle, inner)
    ensures NeverSums(w, table, op)
  {
    hide Leads;
    LeadsIsAbove(w, table, inner, cycle, inner);
    CycleNeverSums(w, table, inner);
    if to != [] {
      LeadsIsAbove(w, table, op, to, inner);
    } else {
      LeadsNowhere(table, op, inner);
    }
  }

  lemma LeadsNowhere(table: Table, op: Operation, inner: Operation)
    requires Leads(table, op, [], inner)
    ensures op == inner
  {
  }

  lemma SumStepsPush(w: Weigh, table: Table, steps: seq<Step>, i: nat, depth: nat)
    requires i < |steps|
    ensures SumSteps(w, table, steps[..i + 1], depth) ==
      match (SumSteps(w, table, steps[..i], depth), SumStep(w, table, steps[i], depth))
      case (Some(a), Some(b)) => Some(a + b)
      case _ => None
  {
    hide Sum;
    assert steps[..i + 1][..i] == steps[..i];
  }

  /** The first `i` steps add up to `total`. */
  ghost predicate Adds(w: Weigh, table: Table, steps: seq<Step>, i: nat, total: nat)
    requires i <= |steps|
  {
    exists depth: nat :: SumSteps(w, table, steps[..i], depth) == Some(total)
  }

  lemma AddsStart(w: Weigh, table: Table, steps: seq<Step>)
    ensures Adds(w, table, steps, 0, 0)
  {
    assert SumSteps(w, table, steps[..0], 0) == Some(0);
  }

  lemma AddsTouch(w: Weigh, table: Table, steps: seq<Step>, i: nat, total: nat)
    requires i < |steps| && steps[i].Touch? && w.touch(steps[i]).Some? && Adds(w, table, steps, i, total)
    ensures Adds(w, table, steps, i + 1, total + w.touch(steps[i]).value)
  {
    var d: nat :| SumSteps(w, table, steps[..i], d) == Some(total);
    SumStepsPush(w, table, steps, i, d);
    assert SumSteps(w, table, steps[..i + 1], d) == Some(total + w.touch(steps[i]).value);
  }

  lemma AddsCall(w: Weigh, table: Table, steps: seq<Step>, i: nat, total: nat, reach: nat)
    requires i < |steps| && steps[i].Call? && Pin(steps[i].operation, steps[i].version) in table && Adds(w, table, steps, i, total)
    requires Sums(w, table, table[Pin(steps[i].operation, steps[i].version)], reach)
    ensures Adds(w, table, steps, i + 1, total + reach)
  {
    var callee := table[Pin(steps[i].operation, steps[i].version)];
    var d: nat :| SumSteps(w, table, steps[..i], d) == Some(total);
    var e: nat :| Sum(w, table, callee, e) == Some(reach);
    var m := if d < e then e else d;
    StepsStay(w, table, steps[..i], d, m);
    SumStays(w, table, callee, e, m);
    SumStepsPush(w, table, steps, i, m);
    assert SumStep(w, table, steps[i], m) == Some(reach);
    hide Sum;
    hide SumSteps;
    assert SumSteps(w, table, steps[..i + 1], m) == Some(total + reach);
  }

  lemma AddsAll(w: Weigh, table: Table, op: Operation, total: nat)
    requires op.action == Batch && Adds(w, table, op.steps, |op.steps|, total)
    ensures Sums(w, table, op, total)
  {
    assert op.steps[..|op.steps|] == op.steps;
    var d: nat :| SumSteps(w, table, op.steps, d) == Some(total);
    assert Sum(w, table, op, d + 1) == Some(total);
  }

  lemma StepFails(w: Weigh, table: Table, op: Operation, i: nat)
    requires op.action == Batch && i < |op.steps|
    requires
      match op.steps[i]
      case Touch(_, _, _) => w.touch(op.steps[i]).None?
      case Call(_, name, version) => Pin(name, version) !in table || NeverSums(w, table, table[Pin(name, version)])
    ensures NeverSums(w, table, op)
  {
    forall d: nat ensures Sum(w, table, op, d).None? {
      if Sum(w, table, op, d).Some? { StepsNeed(w, table, op.steps, i, d - 1); }
    }
  }

  // ---- ceilingOf ----

  /** A walk from one operation, and what it has settled so far. */
  class Costs {
    const table: Table
    var known: map<Pin, nat>
    var visiting: set<Pin>
    /** The operations whose walk has not returned yet. */
    ghost var open: map<Pin, Operation>

    constructor (table: Table)
      requires WellKept(table)
      ensures this.table == table && Valid() && visiting == {} && known == map[]
    {
      this.table := table;
      known, visiting, open := map[], {}, map[];
    }

    ghost predicate Valid()
      reads this
    {
      && WellKept(table) && open.Keys == visiting
      && (forall p | p in known :: p in table && Sums(Rows(), table, table[p], known[p]))
      && (forall p | p in open :: At(open[p]) == p && (p in table ==> open[p] == table[p]))
    }

    /** Everything that is open refers, through however many others, to `op`. */
    ghost predicate Under(op: Operation)
      reads this
    {
      forall p | p in open :: Above(Rows(), table, open[p], op)
    }

    /**
     ceilingOf, with its memory and its cycle guard. It ends on any table; what it
     answers is the plain recursive sum, and it refuses exactly where there is none.
     */
    method CeilingOf(op: Operation, ghost universe: set<Pin>) returns (r: Result<nat>)
      requires Valid() && Under(op) && visiting <= universe && table.Keys <= universe
      requires At(op) in universe && (op.version > 0 ==> At(op) in table && table[At(op)] == op)
      requires At(op) in open ==> open[At(op)] == op
      modifies this`known, this`visiting, this`open
      ensures Valid() && visiting == old(visiting) && open == old(open)
      ensures r.Ok? ==> Sums(Rows(), table, op, r.value)
      ensures r.Fail? ==> NeverSums(Rows(), table, op)
      decreases universe - visiting, 1
    {
      hide Sum;
      hide Above;
      hide Sums;
      hide NeverSums;
      if op.action != Batch {
        r := Own(op);
        OwnSums(Rows(), table, op);
        return;
      }
      var at := At(op);
      if at in known {
        return Ok(known[at]);
      }
      if at in visiting {
        CycleNeverSums(Rows(), table, op);
        return Fail(Damaged);
      }
      visiting, open := visiting + {at}, open[at := op];
      r := SumTheSteps(op, universe);
      visiting, open := visiting - {at}, open - {at};
      assert open == old(open);
      if r.Ok? && op.version > 0 {
        known := known[at := r.value];
      }
    }

    /** The step loop of ceilingOf. */
    method SumTheSteps(op: Operation, ghost universe: set<Pin>) returns (r: Result<nat>)
      requires Valid() && op.action == Batch && At(op) in open && open[At(op)] == op
      requires forall p | p in open && p != At(op) :: Above(Rows(), table, open[p], op)
      requires visiting <= universe && table.Keys <= universe
      modifies this`known, this`visiting, this`open
      ensures Valid() && visiting == old(visiting) && open == old(open)
      ensures r.Ok? ==> Sums(Rows(), table, op, r.value)
      ensures r.Fail? ==> NeverSums(Rows(), table, op)
      decreases universe - visiting, 2
    {
      hide Sum;
      hide Above;
      hide Sums;
      hide NeverSums;
      hide Adds;
      var total, i := 0, 0;
      AddsStart(Rows(), table, op.steps);
      while i < |op.steps|
        invariant 0 <= i <= |op.steps| && 0 <= total && Adds(Rows(), table, op.steps, i, total)
        invariant Valid() && visiting == old(visiting) && open == old(open)
      {
        match op.steps[i] {
          case Touch(_, _, _) =>
            AddsTouch(Rows(), table, op.steps, i, total);
            total := total + 1;
          case Call(_, name, version) =>
            var pin := Pin(name, version);
            if pin !in table {
              StepFails(Rows(), table, op, i);
              return Fail(Missing);
            }
            var callee := table[pin];
            CallIsAbove(Rows(), table, op, i);
            forall p | p in open ensures Above(Rows(), table, open[p], callee) {
              if p != At(op) { AboveNext(Rows(), table, open[p], op, callee); }
            }
            var reach := CeilingOf(callee, universe);
            if reach.Fail? {
              StepFails(Rows(), table, op, i);
              return reach;
            }
            AddsCall(Rows(), table, op.steps, i, total, reach.value);
            total := total + reach.value;
        }
        i := i + 1;
      }
      AddsAll(Rows(), table, op, total);
      return Ok(total);
    }
  }

  lemma OwnSums(w: Weigh, table: Table, op: Operation)
    requires op.action != Batch
    ensures match w.own(op) case Some(n) => Sums(w, table, op, n) case None => NeverSums(w, table, op)
  {
    if w.own(op).Some? { assert Sum(w, table, op, 0) == w.own(op); }
  }

  // ---- shareable ----

  /** Whether each collection is partitioned. */
  type Specs = map<Name, bool>

  predicate Whole(specs: Specs, collection: Name) { collection in specs && !specs[collection] }

  /** shareable asks whether it only reads, and only collections in one file: nought, or a refusal. */
  function Lock(specs: Specs): Weigh {
    Weigh((op: Operation) => if !Writes(op.action) && Whole(specs, op.collection) then Some(0) else None,
          (step: Step) => if step.Touch? && step.action == Get && Whole(specs, step.collection) then Some(0) else None)
  }

  /** One call's walk for the lock question. */
  class Sharing {
    const table: Table
    const specs: Specs
    var known: map<Pin, bool>
    var visiting: set<Pin>
    ghost var open: map<Pin, Operation>

    constructor (table: Table, specs: Specs)
      requires WellKept(table)
      ensures this.table == table && this.specs == specs && Valid() && visiting == {} && known == map[]
    {
      this.table, this.specs := table, specs;
      known, visiting, open := map[], {}, map[];
    }

    ghost predicate Valid()
      reads this
    {
      && WellKept(table) && open.Keys == visiting
      && (forall p | p in known :: p in table && if known[p] then Sums(Lock(specs), table, table[p], 0) else NeverSums(Lock(specs), table, table[p]))
      && (forall p | p in open :: At(open[p]) == p && (p in table ==> open[p] == table[p]))
    }

    ghost predicate Under(op: Operation)
      reads this
    {
      forall p | p in open :: Above(Lock(specs), table, open[p], op)
    }

    /** shareable says yes exactly when everything the operation reaches only reads, and nothing it reaches is partitioned. */
    method Shareable(op: Operation, ghost universe: set<Pin>) returns (r: Result<bool>)
      requires Valid() && Under(op) && visiting <= universe && table.Keys <= universe
      requires At(op) in universe && (op.version > 0 ==> At(op) in table && table[At(op)] == op)
      requires At(op) in open ==> open[At(op)] == op
      modifies this`known, this`visiting, this`open
      ensures Valid() && visiting == old(visiting) && open == old(open)
      ensures r == Ok(true) ==> Sums(Lock(specs), table, op, 0)
      ensures r != Ok(true) ==> NeverSums(Lock(specs), table, op)
      decreases universe - visiting, 1
    {
      hide Sum;
      hide Above;
      hide Sums;
      hide NeverSums;
      if op.action != Batch {
        r := OneShares(op);
        return;
      }
      var at := At(op);
      if at in known {
        return Ok(known[at]);
      }
      if at in visiting {
        CycleNeverSums(Lock(specs), table, op);
        return Fail(Damaged);
      }
      Enter(op);
      r := StepsShare(op, universe);
      Leave(at);
      assert open == old(open);
      if r.Ok? && op.version > 0 {
        known := known[at := r.value];
      }
    }

    method Enter(op: Operation)
      requires Valid() && (At(op) in table ==> table[At(op)] == op)
      modifies this`visiting, this`open
      ensures Valid() && visiting == old(visiting) + {At(op)} && open == old(open)[At(op) := op]
    {
      hide Sums;
      hide NeverSums;
      visiting, open := visiting + {At(op)}, open[At(op) := op];
    }

    method Leave(at: Pin)
      requires Valid()
      modifies this`visiting, this`open
      ensures Valid() && visiting == old(visiting) - {at} && open == old(open) - {at}
    {
      hide Sums;
      hide NeverSums;
      visiting, open := visiting - {at}, open - {at};
    }

    /** An operation that is no batch reads one collection or writes. */
    method OneShares(op: Operation) returns (r: Result<bool>)
      requires op.action != Batch
      ensures r == Ok(true) ==> Sums(Lock(specs), table, op, 0)
      ensures r != Ok(true) ==> NeverSums(Lock(specs), table, op)
    {
      OwnSums(Lock(specs), table, op);
      if Writes(op.action) {
        return Ok(false);
      }
      if op.collection !in specs {
        return Fail(NoCollection);
      }
      return Ok(!specs[op.collection]);
    }

    method StepsShare(op: Operation, ghost universe: set<Pin>) returns (r: Result<bool>)
      requires Valid() && op.action == Batch && At(op) in open && open[At(op)] == op
      requires forall p | p in open && p != At(op) :: Above(Lock(specs), table, open[p], op)
      requires visiting <= universe && table.Keys <= universe
      modifies this`known, this`visiting, this`open
      ensures Valid() && visiting == old(visiting) && open == old(open)
      ensures r == Ok(true) ==> Sums(Lock(specs), table, op, 0)
      ensures r != Ok(true) ==> NeverSums(Lock(specs), table, op)
      decreases universe - visiting, 2
    {
      hide Sum;
      hide Above;
      hide Sums;
      hide NeverSums;
      hide Adds;
      var i := 0;
      AddsStart(Lock(specs), table, op.steps);
      while i < |op.steps|
        invariant 0 <= i <= |op.steps| && Adds(Lock(specs), table, op.steps, i, 0)
        invariant Valid() && visiting == old(visiting) && open == old(open)
      {
        match op.steps[i] {
          case Touch(_, action, collection) =>
            if action != Get {
              StepFails(Lock(specs), table, op, i);
              return Ok(false);
            }
            if collection !in specs {
              StepFails(Lock(specs), table, op, i);
              return Fail(NoCollection);
            }
            if specs[collection] {
              StepFails(Lock(specs), table, op, i);
              return Ok(false);
            }
            AddsTouch(Lock(specs), table, op.steps, i, 0);
          case Call(_, name, version) =>
            var pin := Pin(name, version);
            if pin !in table {
              StepFails(Lock(specs), table, op, i);
              return Fail(Missing);
            }
            var callee := table[pin];
            CallIsAbove(Lock(specs), table, op, i);
            forall p | p in open ensures Above(Lock(specs), table, open[p], callee) {
              if p != At(op) { AboveNext(Lock(specs), table, open[p], op, callee); }
            }
            var shared := Shareable(callee, universe);
            if shared != Ok(true) {
              StepFails(Lock(specs), table, op, i);
              return if shared.Fail? then shared else Ok(false);
            }
            AddsCall(Lock(specs), table, op.steps, i, 0, 0);
        }
        i := i + 1;
      }
      AddsAll(Lock(specs), table, op, 0);
      return Ok(true);
    }
  }

  // ---- EnvelopeOf ----

  /** What a declaration says, before it runs, about what it touches and what comes back. */
  datatype Envelope = Envelope(
    limit: int, scopes: seq<Name>, collections: set<Name>, indexes: set<Name>, projection: set<Name>, whole: bool)

  const CLUSTERED: Name := "_key"

  /** indexName: an access without an index reads the clustered one. */
  function IndexName(index: Name): Name { if index == "" then CLUSTERED else index }

  /** The actions that walk an index. */
  predicate Walks(action: Action) { action in {Scan, Count, HashRange, DeleteRange} }

  predicate CoversOwn(e: Envelope, op: Operation) {
    && (op.collection == "" || op.collection in e.collections)
    && (Walks(op.action) ==> IndexName(op.index) in e.indexes)
    && (op.action in {Scan, Get} ==> e.whole || (op.projection != [] && forall f | f in op.projection :: f in e.projection))
  }

  predicate CoversTouch(e: Envelope, step: Step)
    requires step.Touch?
  {
    step.collection in e.collections && (step.action == Get ==> e.whole)
  }

  /** The envelope covers everything the operation reaches. */
  function Cover(e: Envelope): Weigh {
    Weigh((op: Operation) => if CoversOwn(e, op) then Some(0) else None,
          (step: Step) => if step.Touch? && CoversTouch(e, step) then Some(0) else None)
  }

  /** One thing an envelope can say. */
  datatype Mark = OfCollection(name: Name) | OfIndex(name: Name) | OfField(name: Name) | OfWhole

  predicate Says(e: Envelope, m: Mark) {
    match m
    case OfCollection(name) => name in e.collections
    case OfIndex(name) => name in e.indexes
    case OfField(name) => name in e.projection
    case OfWhole => e.whole
  }

  /** What an operation gives cause for by itself. */
  predicate Bears(op: Operation, m: Mark) {
    match m
    case OfCollection(name) => name != "" && op.collection == name
    case OfIndex(name) => Walks(op.action) && IndexName(op.index) == name
    case OfField(name) => op.action in {Scan, Get} && name in op.projection
    case OfWhole => op.action in {Scan, Get} && op.projection == []
  }

  predicate StepBears(step: Step, m: Mark)
    requires step.Touch?
  {
    (m.OfCollection? && step.collection == m.name) || (m.OfWhole? && step.action == Get)
  }

  /** A walk that refuses wherever something is reached that gives cause for this mark: nought, or never. */
  function Shun(m: Mark): Weigh {
    Weigh((op: Operation) => if Bears(op, m) then None else Some(0),
          (step: Step) => if step.Touch? && StepBears(step, m) then None else Some(0))
  }

  class Survey {
    const table: Table
    var collections: set<Name>
    var indexes: set<Name>
    var projection: set<Name>
    var whole: bool
    var visited: set<Pin>

    constructor (table: Table)
      requires WellKept(table)
      ensures this.table == table && collections == {} && indexes == {} && projection == {} && !whole && visited == {}
    {
      this.table := table;
      collections, indexes, projection, whole, visited := {}, {}, {}, false, {};
    }

    ghost function Seen(): Envelope
      reads this
    {
      Envelope(0, [], collections, indexes, projection, whole)
    }

    ghost predicate Grown(before: Envelope, was: set<Pin>)
      reads this
    {
      before.collections <= collections && before.indexes <= indexes && before.projection <= projection && (before.whole ==> whole) && was <= visited <= table.Keys
    }

    /** What an operation says about itself is in, and what it calls has been visited. */
    ghost predicate Noted(op: Operation)
      reads this
    {
      if op.action != Batch then CoversOwn(Seen(), op) else forall i | 0 <= i < |op.steps| :: StepNoted(op.steps[i])
    }

    ghost predicate StepNoted(step: Step)
      reads this
    {
      match step
      case Touch(_, _, _) => CoversTouch(Seen(), step)
      case Call(_, name, version) => Pin(name, version) in table && Pin(name, version) in visited
    }

    ghost predicate Valid(pending: set<Pin>)
      reads this
    {
      WellKept(table) && visited <= table.Keys && forall p | p in visited && p !in pending :: Noted(table[p])
    }

    /** Every mark that is new since `before` is one the operation gives cause for. */
    ghost predicate Fits(before: Envelope, op: Operation)
      reads this
    {
      forall m: Mark | Says(Seen(), m) && !Says(before, m) :: NeverSums(Shun(m), table, op)
    }

    lemma StepFits(before: Envelope, op: Operation, i: nat)
      requires op.action == Batch && i < |op.steps|
      requires forall m: Mark | Says(Seen(), m) && !Says(before, m) ::
        match op.steps[i]
        case Touch(_, _, _) => StepBears(op.steps[i], m)
        case Call(_, name, version) => Pin(name, version) in table && NeverSums(Shun(m), table, table[Pin(name, version)])
      ensures Fits(before, op)
    {
      hide NeverSums;
      forall m: Mark | Says(Seen(), m) && !Says(before, m) ensures NeverSums(Shun(m), table, op) {
        StepFails(Shun(m), table, op, i);
      }
    }

    lemma OwnFits(before: Envelope, op: Operation)
      requires op.action != Batch && forall m: Mark | Says(Seen(), m) && !Says(before, m) :: Bears(op, m)
      ensures Fits(before, op)
    {
      hide NeverSums;
      hide Sums;
      forall m: Mark | Says(Seen(), m) && !Says(before, m) ensures NeverSums(Shun(m), table, op) {
        OwnSums(Shun(m), table, op);
      }
    }

    /** What an operation that is not a batch says about itself. */
    method NoteOwn(op: Operation)
      requires op.action != Batch && visited <= table.Keys
      modifies this`collections, this`indexes, this`projection, this`whole
      ensures Grown(old(Seen()), visited)
      ensures CoversOwn(Seen(), op) && Fits(old(Seen()), op)
    {
      hide NeverSums;
      ghost var before := Seen();
      if op.collection != "" {
        collections := collections + {op.collection};
      }
      if op.action == Scan || op.action == Get {
        if op.projection == [] {
          whole := true;
        } else {
          projection := projection + (set f | f in op.projection);
        }
      }
      if op.action == Scan || op.action == Count || op.action == HashRange || op.action == DeleteRange {
        indexes := indexes + {IndexName(op.index)};
      }
      OwnFits(before, op);
    }

    /** The walk of EnvelopeOf; `pending` are the operations it is in the middle of. */
    method Walk(op: Operation, ghost pending: set<Pin>) returns (r: Result<bool>)
      requires Valid(pending) && (op.version > 0 ==> At(op) in table && table[At(op)] == op)
      modifies this`collections, this`indexes, this`projection, this`whole, this`visited
      ensures Grown(old(Seen()), old(visited)) && WellKept(table)
      ensures r.Ok? ==> Valid(pending) && (if op.version > 0 then At(op) in visited else Noted(op))
      ensures r.Ok? ==> Fits(old(Seen()), op)
      ensures r.Fail? ==> op.action == Batch && NeverSums(Rows(), table, op)
      decreases table.Keys - visited, if op.version > 0 then 0 else 2
    {
      hide NeverSums;
      ghost var mine := pending;
      ghost var before := Seen();
      if op.version > 0 {
        if At(op) in visited {
          return Ok(true);
        }
        visited := visited + {At(op)};
        mine := pending + {At(op)};
      }
      if op.action == Batch {
        r := WalkSteps(op, mine);
        return;
      }
      NoteOwn(op);
      return Ok(true);
    }

    method WalkSteps(op: Operation, ghost pending: set<Pin>) returns (r: Result<bool>)
      requires Valid(pending) && op.action == Batch && (op.version > 0 ==> At(op) in visited)
      modifies this`collections, this`indexes, this`projection, this`whole, this`visited
      ensures Grown(old(Seen()), old(visited)) && WellKept(table)
      ensures r.Ok? ==> Valid(pending) && Noted(op) && Fits(old(Seen()), op)
      ensures r.Fail? ==> NeverSums(Rows(), table, op)
      decreases table.Keys - visited, 1
    {
      hide NeverSums;
      var i := 0;
      while i < |op.steps|
        invariant 0 <= i <= |op.steps|
        invariant Grown(old(Seen()), old(visited)) && Valid(pending)
        invariant (forall j | 0 <= j < i :: StepNoted(op.steps[j])) && Fits(old(Seen()), op)
      {
        ghost var before := Seen();
        match op.steps[i] {
          case Call(_, name, version) =>
            var pin := Pin(name, version);
            if pin !in table {
              StepFails(Rows(), table, op, i);
              return Fail(Missing);
            }
            r := Walk(table[pin], pending);
            if r.Fail? {
              StepFails(Rows(), table, op, i);
              return;
            }
          case Touch(_, action, collection) =>
            collections := collections + {collection};
            if action == Get {
              whole := true;
            }
        }
        StepFits(before, op, i);
        i := i + 1;
      }
      return Ok(true);
    }
  }

  /**
   EnvelopeOf answers unless there is no ceiling; what it answers covers everything
   the operation reaches, and says nothing that something reached does not give cause
   for: a collection, an index, a field while the whole document does not escape.
   */
  method EnvelopeOf(op: Operation, table: Table) returns (r: Result<Envelope>)
    requires WellKept(table) && (op.version > 0 ==> At(op) in table && table[At(op)] == op)
    ensures r.Fail? <==> op.action !in {Count, HashRange} && NeverSums(Rows(), table, op)
    ensures r.Ok? ==> Sums(Cover(r.value), table, op, 0) && r.value.scopes == op.scopes
    ensures r.Ok? ==> forall m: Mark | m.OfField? ==> !r.value.whole :: Says(r.value, m) <==> NeverSums(Shun(m), table, op)
    ensures r.Ok? && op.action !in {Count, HashRange} ==> r.value.limit >= 0 && Sums(Rows(), table, op, r.value.limit)
    ensures r.Ok? && op.action in {Count, HashRange} ==> r.value.limit == op.limit
  {
    hide Sum;
    hide Sums;
    hide NeverSums;
    hide Above;
    hide Shun;
    hide Cover;
    var limit := op.limit;
    ghost var universe := table.Keys + {At(op)};
    if op.action != Count && op.action != HashRange {
      var costs := new Costs(table);
      var c := costs.CeilingOf(op, universe);
      if c.Fail? {
        return Fail(c.error);
      }
      limit := c.value;
    }
    var survey := new Survey(table);
    var walked := survey.Walk(op, {});
    if walked.Fail? {
      return Fail(walked.error);
    }
    var e := Envelope(limit, op.scopes, survey.collections, survey.indexes, if survey.whole then {} else survey.projection, survey.whole);
    if op.action != Count && op.action != HashRange { SummedIsNotNever(Rows(), table, op, limit); }
    if op.action == Batch {
      SurveyCovers(survey, e, op, limit);
    } else {
      OwnCovered(survey, e, op);
    }
    forall m: Mark | m.OfField? ==> !e.whole ensures Says(e, m) <==> NeverSums(Shun(m), table, op) {
      assert Says(e, m) <==> Says(survey.Seen(), m);
      if !Says(e, m) { CoveredShuns(e, m, table, op); }
    }
    return Ok(e);
  }

  /** Where one walk's questions are all answered by another's, what the first can sum the second can. */
  ghost predicate Easier(v: Weigh, w: Weigh) {
    && (forall op: Operation | v.own(op).Some? :: w.own(op).Some?)
    && (forall step: Step | step.Touch? && v.touch(step).Some? :: w.touch(step).Some?)
  }

  lemma {:induction false} EasierSums(v: Weigh, w: Weigh, table: Table, op: Operation, d: nat)
    requires Easier(v, w) && Sum(v, table, op, d).Some?
    ensures Sum(w, table, op, d).Some?
    decreases d, 1, 0
  {
    if op.action == Batch { EasierSteps(v, w, table, op.steps, d - 1); }
  }

  lemma {:induction false} EasierSteps(v: Weigh, w: Weigh, table: Table, steps: seq<Step>, d: nat)
    requires Easier(v, w) && SumSteps(v, table, steps, d).Some?
    ensures SumSteps(w, table, steps, d).Some?
    decreases d, 2, |steps|
  {
    if steps != [] {
      EasierSteps(v, w, table, steps[..|steps| - 1], d);
      var last := steps[|steps| - 1];
      if last.Call? { EasierSums(v, w, table, table[Pin(last.operation, last.version)], d); }
    }
  }

  lemma CoveredShuns(e: Envelope, m: Mark, table: Table, op: Operation)
    requires Sums(Cover(e), table, op, 0) && !Says(e, m) && (m.OfField? ==> !e.whole)
    ensures !NeverSums(Shun(m), table, op)
  {
    var d: nat :| Sum(Cover(e), table, op, d) == Some(0);
    assert Easier(Cover(e), Shun(m));
    EasierSums(Cover(e), Shun(m), table, op, d);
  }

  lemma SummedIsNotNever(w: Weigh, table: Table, op: Operation, n: nat)
    requires Sums(w, table, op, n)
    ensures !NeverSums(w, table, op)
  {
    hide Sum;
    var d: nat :| Sum(w, table, op, d) == Some(n);
  }

  lemma OwnCovered(survey: Survey, e: Envelope, op: Operation)
    requires op.action != Batch && CoversOwn(e, op)
    ensures Sums(Cover(e), survey.table, op, 0)
  {
    OwnSums(Cover(e), survey.table, op);
  }

  lemma SurveyCovers(survey: Survey, e: Envelope, op: Operation, limit: nat)
    requires survey.Valid({}) && e == survey.Seen().(limit := e.limit, scopes := e.scopes,
        projection := if survey.whole then {} else survey.projection)
    requires op.action == Batch && Sums(Rows(), survey.table, op, limit)
    requires if op.version > 0 then At(op) in survey.visited && survey.table[At(op)] == op else survey.Noted(op)
    ensures Sums(Cover(e), survey.table, op, 0)
  {
    var d: nat :| Sum(Rows(), survey.table, op, d) == Some(limit);
    CoverDown(survey, e, op, d);
  }

  /** Where the references run out, what has been noted adds up. */
  lemma {:induction false} CoverDown(survey: Survey, e: Envelope, op: Operation, d: nat)
    requires survey.Valid({}) && e == survey.Seen().(limit := e.limit, scopes := e.scopes,
        projection := if survey.whole then {} else survey.projection)
    requires survey.Noted(op) && Sum(Rows(), survey.table, op, d).Some?
    ensures Sum(Cover(e), survey.table, op, d) == Some(0)
    decreases d, 1, 0
  {
    if op.action == Batch {
      assert op.steps[..|op.steps|] == op.steps;
      CoverSteps(survey, e, op, |op.steps|, d - 1);
    }
  }

  lemma {:induction false} CoverSteps(survey: Survey, e: Envelope, op: Operation, i: nat, d: nat)
    requires survey.Valid({}) && e == survey.Seen().(limit := e.limit, scopes := e.scopes,
        projection := if survey.whole then {} else survey.projection)
    requires op.action == Batch && survey.Noted(op) && i <= |op.steps| && SumSteps(Rows(), survey.table, op.steps[..i], d).Some?
    ensures SumSteps(Cover(e), survey.table, op.steps[..i], d) == Some(0)
    decreases d, 2, i
  {
    if i > 0 {
      SumStepsPush(Rows(), survey.table, op.steps, i - 1, d);
      SumStepsPush(Cover(e), survey.table, op.steps, i - 1, d);
      CoverSteps(survey, e, op, i - 1, d);
      var step := op.steps[i - 1];
      assert survey.StepNoted(step);
      if step.Call? { CoverDown(survey, e, survey.table[Pin(step.operation, step.version)], d); }
    }
  }

  // ---- scopes ----

  ghost predicate AsksFor(parent: seq<Name>, child: seq<Name>) { forall s | s in child :: s in parent }

  /** What declaring a composed operation checks: it asks for every scope its callees ask for. */
  ghost predicate AsksForAll(table: Table, op: Operation) {
    op.action == Batch ==> forall i | 0 <= i < |op.steps| && op.steps[i].Call? ::
      var pin := Pin(op.steps[i].operation, op.steps[i].version); pin in table && AsksFor(op.scopes, table[pin].scopes)
  }

  /** The scope rule of validateComposedStep, over the steps of an operation: accepted exactly when it asks for all. */
  method CheckScopes(table: Table, op: Operation) returns (r: Result<bool>)
    requires WellKept(table) && op.action == Batch
    ensures r.Ok? <==> AsksForAll(table, op)
  {
    var i := 0;
    while i < |op.steps|
      invariant 0 <= i <= |op.steps|
      invariant forall j | 0 <= j < i && op.steps[j].Call? ::
        var pin := Pin(op.steps[j].operation, op.steps[j].version); pin in table && AsksFor(op.scopes, table[pin].scopes)
    {
      if op.steps[i].Call? {
        if op.steps[i].version == 0 {
          return Fail(NoVersion);
        }
        var pin := Pin(op.steps[i].operation, op.steps[i].version);
        if pin !in table {
          return Fail(Missing);
        }
        var callee: Operation := table[pin];
        var held: set<Name>, j := {}, 0;
        while j < |op.scopes|
          invariant 0 <= j <= |op.scopes| && held == set k | 0 <= k < j :: op.scopes[k]
        {
          held := held + {op.scopes[j]};
          j := j + 1;
        }
        j := 0;
        while j < |callee.scopes|
          invariant 0 <= j <= |callee.scopes| && forall k | 0 <= k < j :: callee.scopes[k] in op.scopes
        {
          if callee.scopes[j] !in held {
            assert callee.scopes[j] in callee.scopes && !AsksFor(op.scopes, callee.scopes);
            return Fail(NoScope);
          }
          j := j + 1;
        }
      }
      i := i + 1;
    }
    return Ok(true);
  }

  /** Declarations one after another: each passes the rule and goes under a pin of its own that was free. */
  ghost predicate Declared(tables: seq<Table>, ops: seq<Operation>) {
    && |tables| == |ops| + 1 && tables[0] == map[]
    && forall i | 0 <= i < |ops| :: At(ops[i]) !in tables[i] && AsksForAll(tables[i], ops[i]) && tables[i + 1] == tables[i][At(ops[i]) := ops[i]]
  }

  /** However a table came to be, everything in it asks for what it calls. */
  lemma {:induction false} DeclaredAsk(tables: seq<Table>, ops: seq<Operation>, k: nat)
    requires Declared(tables, ops) && k < |tables|
    ensures forall p | p in tables[k] :: AsksForAll(tables[k], tables[k][p])
  {
    if k > 0 {
      DeclaredAsk(tables, ops, k - 1);
      var was, op, now := tables[k - 1], ops[k - 1], tables[k];
      assert now == was[At(op) := op];
      forall p | p in now ensures AsksForAll(now, now[p]) {
        assert AsksForAll(was, now[p]);
      }
    }
  }

  /** Some operation runs another, at most `depth` references down. */
  ghost predicate Runs(table: Table, op: Operation, inner: Operation, depth: nat)
    decreases depth, 0
  {
    inner == op || (depth > 0 && op.action == Batch && exists i: nat :: i < |op.steps| && StepRuns(table, op.steps[i], inner, depth - 1))
  }

  ghost predicate StepRuns(table: Table, step: Step, inner: Operation, depth: nat)
    decreases depth, 1
  {
    step.Call? && Pin(step.operation, step.version) in table && Runs(table, table[Pin(step.operation, step.version)], inner, depth)
  }

  /** allowed: every scope the operation names is one the caller presents. */
  predicate Allowed(held: set<Name>, op: Operation) { forall s | s in op.scopes :: s in held }

  lemma {:induction false} ScopesGoDown(table: Table, op: Operation, inner: Operation, depth: nat, held: set<Name>)
    requires (forall p | p in table :: AsksForAll(table, table[p])) && AsksForAll(table, op)
    requires Runs(table, op, inner, depth) && Allowed(held, op)
    ensures Allowed(held, inner)
    decreases depth
  {
    if inner != op {
      var i: nat :| i < |op.steps| && StepRuns(table, op.steps[i], inner, depth - 1);
      ScopesGoDown(table, table[Pin(op.steps[i].operation, op.steps[i].version)], inner, depth - 1, held);
    }
  }

  /** After any declarations: a caller who may run an operation may run everything it runs, however deep. */
  lemma ScopesCarry(tables: seq<Table>, ops: seq<Operation>, p: Pin, inner: Operation, depth: nat, held: set<Name>)
    requires Declared(tables, ops)
    requires var table := tables[|ops|]; p in table && Runs(table, table[p], inner, depth) && Allowed(held, table[p])
    ensures Allowed(held, inner)
  {
    hide Runs;
    hide AsksForAll;
    DeclaredAsk(tables, ops, |ops|);
    ScopesGoDown(tables[|ops|], tables[|ops|][p], inner, depth, held);
  }
}
