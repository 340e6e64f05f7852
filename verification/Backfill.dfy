/**
 Recomputing the mentions of every row of a table in batches (backend/cmd/backfill-mentions/
 backfill.go). A table is its rows in id order; nobody else writes while the tool runs. Which
 names a body resolves to is a parameter, and so is whether resolving it fails.
 */
module Backfill {

  datatype Row = Row(id: int, body: string, mentioned: seq<string>)

  datatype Resolved = Names(names: seq<string>) | Failed

  type Resolver = string -> Resolved

  predicate InIdOrder(rows: seq<Row>) {
    forall i, j :: 0 <= i < j < |rows| ==> rows[i].id < rows[j].id
  }

  predicate Wanted(row: Row, after: int) {
    row.id > after && '@' in row.body
  }

  /** SELECT ... WHERE id > after AND body LIKE '%@%' ORDER BY id, before the limit. */
  function Selected(rows: seq<Row>, after: int): seq<Row> {
    if rows == [] then []
    else (if Wanted(rows[0], after) then [rows[0]] else []) + Selected(rows[1..], after)
  }

  datatype Fetched = Batch(rows: seq<Row>) | BadLimit

  /** The query refuses a negative limit, and a limit of zero returns no row. */
  function FetchBatch(rows: seq<Row>, after: int, limit: int): Fetched {
    if limit < 0 then BadLimit
    else
      var all := Selected(rows, after);
      Batch(if |all| <= limit then all else all[..limit])
  }

  function SetMentioned(rows: seq<Row>, id: int, names: seq<string>): seq<Row> {
    if rows == [] then []
    else [if rows[0].id == id then rows[0].(mentioned := names) else rows[0]] + SetMentioned(rows[1..], id, names)
  }

  function Refreshed(row: Row, f: Resolver): Row {
    match f(row.body)
    case Names(names) => row.(mentioned := names)
    case Failed => row
  }

  /** The table once every wanted row up to an id has been dealt with. */
  function Done(rows: seq<Row>, f: Resolver, last: int): seq<Row> {
    if rows == [] then []
    else
      [if Wanted(rows[0], 0) && rows[0].id <= last then Refreshed(rows[0], f) else rows[0]]
      + Done(rows[1..], f, last)
  }

  predicate Differs(row: Row, f: Resolver) {
    Refreshed(row, f) != row
  }

  /** How many of the first k rows a refresh would change. */
  function Differing(rows: seq<Row>, f: Resolver, k: nat): nat
    requires k <= |rows|
  {
    if k == 0 then 0 else Differing(rows, f, k - 1) + if Differs(rows[k - 1], f) then 1 else 0
  }

  /** The first row that fails to resolve; the number of rows if none does. */
  function FirstFailure(rows: seq<Row>, f: Resolver): (j: nat)
    ensures j <= |rows| && (j < |rows| ==> f(rows[j].body).Failed?)
    ensures forall i :: 0 <= i < j ==> f(rows[i].body).Names?
  {
    if rows == [] || f(rows[0].body).Failed? then 0 else 1 + FirstFailure(rows[1..], f)
  }

  method StringSlicesEqual(a: seq<string>, b: seq<string>) returns (same: bool)
    ensures same <==> a == b
  {
    if |a| != |b| {
      return false;
    }
    for i := 0 to |a|
      invariant a[..i] == b[..i]
    {
      if a[i] != b[i] {
        return false;
      }
    }
    assert a == a[..|a|] && b == b[..|a|];
    return true;
  }

  // ---- the keyset walk -----------------------------------------------------------------------

  lemma OrderTail(rows: seq<Row>)
    requires InIdOrder(rows) && rows != []
    ensures InIdOrder(rows[1..]) && forall r :: r in rows[1..] ==> rows[0].id < r.id
  {
  }

  lemma OrderCons(x: Row, rest: seq<Row>)
    requires InIdOrder(rest) && forall r :: r in rest ==> x.id < r.id
    ensures InIdOrder([x] + rest)
  {
  }

  lemma {:induction false} SelectedMembers(rows: seq<Row>, after: int)
    ensures forall r :: r in Selected(rows, after) <==> r in rows && Wanted(r, after)
  {
    if rows != [] {
      SelectedMembers(rows[1..], after);
      assert rows == [rows[0]] + rows[1..];
    }
  }

  lemma {:induction false} SelectedTail(rows: seq<Row>, after: int)
    requires InIdOrder(rows)
    ensures InIdOrder(Selected(rows, after))
    ensures forall r :: r in Selected(rows, after) <==> r in rows && Wanted(r, after)
  {
    SelectedMembers(rows, after);
    if rows != [] {
      OrderTail(rows);
      SelectedTail(rows[1..], after);
      OrderCons(rows[0], Selected(rows[1..], after));
    }
  }

  /** Asking for what comes after the first row of an answer gives the rest of that answer. */
  lemma {:induction false} NextPage(rows: seq<Row>, after: int)
    requires InIdOrder(rows) && Selected(rows, after) != []
    ensures Selected(rows, Selected(rows, after)[0].id) == Selected(rows, after)[1..]
    ensures Selected(rows, after)[0].id > after
  {
    var first := Selected(rows, after)[0];
    SelectedTail(rows, after);
    if Wanted(rows[0], after) {
      SameSelection(rows[1..], after, rows[0].id);
    } else {
      NextPage(rows[1..], after);
      SelectedTail(rows[1..], after);
      assert first in rows[1..];
    }
  }

  lemma {:induction false} SameSelection(rows: seq<Row>, a: int, b: int)
    requires forall r :: r in rows ==> r.id > a && r.id > b
    ensures Selected(rows, a) == Selected(rows, b)
  {
    if rows != [] {
      SameSelection(rows[1..], a, b);
    }
  }

  function LastOf(all: seq<Row>, k: nat): int
    requires k <= |all|
  {
    if k == 0 then 0 else all[k - 1].id
  }

  /** Wherever a page ends, the query finds the remaining rows. */
  lemma {:induction false} RestAfter(rows: seq<Row>, k: nat)
    requires InIdOrder(rows) && k <= |Selected(rows, 0)|
    ensures Selected(rows, LastOf(Selected(rows, 0), k)) == Selected(rows, 0)[k..]
  {
    if k > 0 {
      RestAfter(rows, k - 1);
      NextPage(rows, LastOf(Selected(rows, 0), k - 1));
    }
  }

  /** Refreshing rows does not change what the query finds after them. */
  lemma {:induction false} DoneSelected(rows: seq<Row>, f: Resolver, last: int)
    ensures Selected(Done(rows, f, last), last) == Selected(rows, last) || last < 0
    ensures |Done(rows, f, last)| == |rows|
  {
    if rows != [] {
      DoneSelected(rows[1..], f, last);
      var d := Done(rows, f, last);
      assert d[1..] == Done(rows[1..], f, last);
    }
  }

  lemma {:induction false} DoneNothing(rows: seq<Row>, f: Resolver)
    ensures Done(rows, f, 0) == rows
  {
    if rows != [] {
      DoneNothing(rows[1..], f);
    }
  }

  lemma {:induction false} DoneUntouched(rows: seq<Row>, f: Resolver, last: int)
    requires forall r :: r in rows ==> r.id > last
    ensures Done(rows, f, last) == rows
  {
    if rows != [] {
      DoneUntouched(rows[1..], f, last);
    }
  }

  lemma {:induction false} SetAbsent(rows: seq<Row>, id: int, names: seq<string>)
    requires forall r :: r in rows ==> r.id != id
    ensures SetMentioned(rows, id, names) == rows
  {
    if rows != [] {
      SetAbsent(rows[1..], id, names);
    }
  }

  lemma HeadDone(rows: seq<Row>, f: Resolver, last: int, x: Row)
    requires InIdOrder(rows) && rows != [] && last >= 0 && x == rows[0] && Wanted(x, last) && f(x.body).Names?
    ensures Done(rows, f, x.id) == SetMentioned(Done(rows, f, last), x.id, f(x.body).names)
    ensures !Differs(x, f) ==> Done(rows, f, x.id) == Done(rows, f, last)
  {
    var rest := rows[1..];
    assert forall r :: r in rest ==> r.id > x.id;
    DoneUntouched(rest, f, x.id);
    DoneUntouched(rest, f, last);
    SetAbsent(rest, x.id, f(x.body).names);
    assert Done(rows, f, last)[1..] == rest;
  }

  /** Dealing with the next wanted row is one narrow update, or none if it is up to date. */
  lemma {:induction false} DoneStep(rows: seq<Row>, f: Resolver, last: int)
    requires InIdOrder(rows) && last >= 0 && Selected(rows, last) != [] && f(Selected(rows, last)[0].body).Names?
    ensures var x := Selected(rows, last)[0];
      && Done(rows, f, x.id) == SetMentioned(Done(rows, f, last), x.id, f(x.body).names)
      && (!Differs(x, f) ==> Done(rows, f, x.id) == Done(rows, f, last))
  {
    var x, rest := Selected(rows, last)[0], rows[1..];
    if Wanted(rows[0], last) {
      HeadDone(rows, f, last, x);
    } else {
      DoneStep(rest, f, last);
      SelectedTail(rest, last);
      assert x in rest;
      assert rows[0].id < x.id && last < x.id;
      assert Done(rows, f, last)[1..] == Done(rest, f, last);
    }
  }

  datatype Update = Update(id: int, names: seq<string>)

  /** The updates the first i rows of a batch call for. */
  function UpdatesFor(batch: seq<Row>, f: Resolver, i: nat): seq<Update>
    requires i <= |batch|
  {
    if i == 0 then [] else UpdatesFor(batch, f, i - 1) + UpdateOf(batch[i - 1], f)
  }

  function UpdateOf(row: Row, f: Resolver): seq<Update> {
    match f(row.body)
    case Names(names) => if row.mentioned != names then [Update(row.id, names)] else []
    case Failed => []
  }

  function ApplyAll(rows: seq<Row>, updates: seq<Update>): seq<Row> {
    if updates == [] then rows
    else
      var u := updates[|updates| - 1];
      SetMentioned(ApplyAll(rows, updates[..|updates| - 1]), u.id, u.names)
  }

  lemma ApplyUpdateOf(rows: seq<Row>, us: seq<Update>, x: Row, f: Resolver)
    requires f(x.body).Names?
    ensures ApplyAll(rows, us + UpdateOf(x, f)) ==
      if Differs(x, f) then SetMentioned(ApplyAll(rows, us), x.id, f(x.body).names) else ApplyAll(rows, us)
  {
    if Differs(x, f) {
      assert (us + UpdateOf(x, f))[..|us|] == us;
    } else {
      assert us + UpdateOf(x, f) == us;
    }
  }

  function RefreshedTo(rows: seq<Row>, f: Resolver, k: nat): seq<Row>
    requires k <= |Selected(rows, 0)|
  {
    Done(rows, f, LastOf(Selected(rows, 0), k))
  }

  lemma LastIsPositive(rows: seq<Row>, k: nat)
    requires InIdOrder(rows) && k <= |Selected(rows, 0)|
    ensures LastOf(Selected(rows, 0), k) >= 0
  {
    SelectedTail(rows, 0);
    if k > 0 {
      assert Selected(rows, 0)[k - 1] in Selected(rows, 0);
    }
  }

  lemma OneRowOn(rows: seq<Row>, f: Resolver, k: nat)
    requires InIdOrder(rows) && k < |Selected(rows, 0)| && f(Selected(rows, 0)[k].body).Names?
    ensures var x := Selected(rows, 0)[k];
      && RefreshedTo(rows, f, k + 1) == SetMentioned(RefreshedTo(rows, f, k), x.id, f(x.body).names)
      && (!Differs(x, f) ==> RefreshedTo(rows, f, k + 1) == RefreshedTo(rows, f, k))
  {
    LastIsPositive(rows, k);
    RestAfter(rows, k);
    DoneStep(rows, f, LastOf(Selected(rows, 0), k));
  }

  /** A batch is the stretch of the wanted rows from the k-th on. */
  ghost predicate IsPage(all: seq<Row>, k: nat, batch: seq<Row>) {
    k + |batch| <= |all| && forall i :: 0 <= i < |batch| ==> batch[i] == all[k + i]
  }

  /** The table after each number of wanted rows dealt with. */
  type Stages = seq<seq<Row>>

  /** From one stage to the next is one narrow update, or none for a row that is up to date. */
  ghost predicate OneUpdate(all: seq<Row>, f: Resolver, stages: Stages, n: nat)
    requires n < |all| && |stages| == |all| + 1
  {
    f(all[n].body).Names? ==>
      stages[n + 1] ==
        if Differs(all[n], f) then SetMentioned(stages[n], all[n].id, f(all[n].body).names) else stages[n]
  }

  ghost predicate Walk(all: seq<Row>, f: Resolver, stages: Stages) {
    |stages| == |all| + 1 && forall n: nat :: n < |all| ==> OneUpdate(all, f, stages, n)
  }

  function StagesOf(rows: seq<Row>, f: Resolver): Stages {
    seq(|Selected(rows, 0)| + 1, k requires 0 <= k <= |Selected(rows, 0)| => RefreshedTo(rows, f, k))
  }

  lemma StagesWalk(rows: seq<Row>, f: Resolver)
    requires InIdOrder(rows)
    ensures Walk(Selected(rows, 0), f, StagesOf(rows, f))
  {
    var all := Selected(rows, 0);
    forall n: nat | n < |all| ensures OneUpdate(all, f, StagesOf(rows, f), n) {
      if f(all[n].body).Names? {
        OneRowOn(rows, f, n);
      }
    }
  }

  /** A batch's updates, applied together, deal with exactly the batch. */
  lemma {:induction false} BatchApplied(
    all: seq<Row>, f: Resolver, stages: Stages, k: nat, batch: seq<Row>, i: nat)
    requires Walk(all, f, stages) && IsPage(all, k, batch) && i <= |batch| && k + i <= FirstFailure(all, f)
    ensures ApplyAll(stages[k], UpdatesFor(batch, f, i)) == stages[k + i]
  {
    if i > 0 {
      BatchApplied(all, f, stages, k, batch, i - 1);
      var n := k + i - 1;
      assert batch[i - 1] == all[n] && OneUpdate(all, f, stages, n);
      OneMoreApplied(all, f, stages, n, stages[k], UpdatesFor(batch, f, i - 1));
    }
  }

  lemma OneMoreApplied(all: seq<Row>, f: Resolver, stages: Stages, n: nat, rows: seq<Row>, us: seq<Update>)
    requires n < FirstFailure(all, f) && |stages| == |all| + 1 && OneUpdate(all, f, stages, n) && ApplyAll(rows, us) == stages[n]
    ensures ApplyAll(rows, us + UpdateOf(all[n], f)) == stages[n + 1]
  {
    ApplyUpdateOf(rows, us, all[n], f);
  }

  // ---- the loop --------------------------------------------------------------------------------

  datatype Error = NoError | LimitRefused | ResolveFailed(id: int)

  datatype Outcome = Outcome(scanned: nat, changed: nat, error: Error)

  /** Where the page holding the j-th row starts. */
  function PageStart(j: nat, size: nat): (k: nat)
    requires size > 0
    ensures k <= j < k + size
  {
    if j < size then 0 else size + PageStart(j - size, size)
  }

  function Min(a: nat, b: nat): nat {
    if a <= b then a else b
  }

  lemma FailureIs(rows: seq<Row>, f: Resolver, j: nat)
    requires j <= |rows| && (j < |rows| ==> f(rows[j].body).Failed?)
    requires forall i :: 0 <= i < j ==> f(rows[i].body).Names?
    ensures FirstFailure(rows, f) == j
  {
  }

  lemma PageIsSlice(all: seq<Row>, k: nat, batch: seq<Row>)
    requires IsPage(all, k, batch)
    ensures batch == all[k..][..|batch|]
  {
  }

  lemma SuffixFailure(all: seq<Row>, f: Resolver, k: nat)
    requires k <= FirstFailure(all, f)
    ensures FirstFailure(all[k..], f) == FirstFailure(all, f) - k
  {
    FailureIs(all[k..], f, FirstFailure(all, f) - k);
  }

  lemma PrefixFailure(all: seq<Row>, f: Resolver, n: nat)
    requires n <= |all|
    ensures FirstFailure(all[..n], f) == Min(FirstFailure(all, f), n)
  {
    FailureIs(all[..n], f, Min(FirstFailure(all, f), n));
  }

  lemma FailureInPage(all: seq<Row>, f: Resolver, k: nat, batch: seq<Row>)
    requires IsPage(all, k, batch) && k <= FirstFailure(all, f)
    ensures FirstFailure(batch, f) == Min(FirstFailure(all, f) - k, |batch|)
  {
    SuffixFailure(all, f, k);
    PrefixFailure(all[k..], f, |batch|);
    PageIsSlice(all, k, batch);
  }

  lemma {:induction false} DifferingInPage(all: seq<Row>, f: Resolver, k: nat, batch: seq<Row>, i: nat)
    requires IsPage(all, k, batch) && i <= |batch|
    ensures Differing(all, f, k + i) == Differing(all, f, k) + Differing(batch, f, i)
  {
    if i > 0 {
      DifferingInPage(all, f, k, batch, i - 1);
    }
  }

  lemma {:induction false} UpdatesCount(batch: seq<Row>, f: Resolver, i: nat)
    requires i <= |batch|
    ensures |UpdatesFor(batch, f, i)| == Differing(batch, f, i)
  {
    if i > 0 {
      UpdatesCount(batch, f, i - 1);
    }
  }

  /** The loop's variables: rows seen, rows changed, and the last id. */
  datatype Progress = Progress(scanned: nat, changed: nat, lastID: int)

  ghost predicate OnTrack(all: seq<Row>, f: Resolver, size: nat, p: Progress)
    requires size > 0
  {
    var j := FirstFailure(all, f);
    && p.scanned <= j && p.lastID == LastOf(all, p.scanned) && p.changed == Differing(all, f, p.scanned)
    && PageStart(j, size) == p.scanned + PageStart(j - p.scanned, size)
  }

  ghost predicate NextPageOf(all: seq<Row>, f: Resolver, size: nat, p: Progress, batch: seq<Row>)
    requires size > 0
  {
    OnTrack(all, f, size, p) && IsPage(all, p.scanned, batch) && |batch| == Min(|all| - p.scanned, size)
  }

  lemma FullPage(all: seq<Row>, f: Resolver, size: nat, p: Progress, batch: seq<Row>, counted: nat)
    requires size > 0 && NextPageOf(all, f, size, p, batch) && |batch| == size
    requires p.scanned + size <= FirstFailure(all, f) && p.changed + counted == Differing(all, f, p.scanned + size)
    ensures OnTrack(all, f, size, Progress(p.scanned + size, p.changed + counted, batch[size - 1].id))
  {
  }

  lemma LastPage(all: seq<Row>, f: Resolver, dryRun: bool, size: nat, p: Progress, batch: seq<Row>, counted: nat)
    requires size > 0 && NextPageOf(all, f, size, p, batch) && |batch| < size
    requires p.scanned + |batch| <= FirstFailure(all, f) && p.changed + counted == Differing(all, f, p.scanned + |batch|)
    ensures Reached(all, f, size) == p.scanned + |batch|
    ensures Report(all, f, dryRun, size) == Outcome(p.scanned + |batch|, p.changed + counted, NoError)
  {
  }

  lemma FailingPage(all: seq<Row>, f: Resolver, dryRun: bool, size: nat, p: Progress, batch: seq<Row>, counted: nat)
    requires size > 0 && NextPageOf(all, f, size, p, batch) && FirstFailure(all, f) < p.scanned + |batch|
    requires p.changed + counted == Differing(all, f, if dryRun then FirstFailure(all, f) else p.scanned)
    ensures Reached(all, f, size) == p.scanned
    ensures Report(all, f, dryRun, size) ==
      Outcome(p.scanned + |batch|, p.changed + counted, ResolveFailed(batch[FirstFailure(all, f) - p.scanned].id))
  {
  }

  class Table {
    var rows: seq<Row>

    constructor (rows: seq<Row>)
      ensures this.rows == rows
    {
      this.rows := rows;
    }

    /** One transaction of narrow updates. */
    method Write(updates: seq<Update>)
      modifies this
      ensures rows == ApplyAll(old(rows), updates)
    {
      for i := 0 to |updates|
        invariant rows == ApplyAll(old(rows), updates[..i])
      {
        assert updates[..i + 1][..i] == updates[..i];
        rows := SetMentioned(rows, updates[i].id, updates[i].names);
      }
      assert updates[..|updates|] == updates;
    }

    /** Resolves a batch up to the first row that fails. A dry run counts at once; otherwise the
        changes are only collected. */
    static method ResolveBatch(batch: seq<Row>, f: Resolver, dryRun: bool)
      returns (updates: seq<Update>, counted: nat, resolved: nat)
      ensures resolved == FirstFailure(batch, f)
      ensures dryRun ==> updates == [] && counted == Differing(batch, f, resolved)
      ensures !dryRun ==> updates == UpdatesFor(batch, f, resolved) && counted == 0
    {
      updates, counted := [], 0;
      for i := 0 to |batch|
        invariant i <= FirstFailure(batch, f)
        invariant dryRun ==> updates == [] && counted == Differing(batch, f, i)
        invariant !dryRun ==> updates == UpdatesFor(batch, f, i) && counted == 0
      {
        var names := f(batch[i].body);
        if names.Failed? {
          return updates, counted, i;
        }
        var same := StringSlicesEqual(batch[i].mentioned, names.names);
        if dryRun {
          if !same {
            counted := counted + 1;
          }
          continue;
        }
        if !same {
          updates := updates + [Update(batch[i].id, names.names)];
        }
      }
      return updates, counted, |batch|;
    }

    /** Resolves and, unless this is a dry run, writes one batch; a batch that fails is not written. */
    method OnePage(
      ghost all: seq<Row>, ghost stages: Stages, ghost k: nat, batch: seq<Row>, f: Resolver, dryRun: bool)
      returns (resolved: nat, counted: nat)
      requires Walk(all, f, stages) && IsPage(all, k, batch) && k <= FirstFailure(all, f)
      requires dryRun || rows == stages[k]
      modifies this
      ensures resolved == Min(FirstFailure(all, f) - k, |batch|)
      ensures rows == if dryRun || resolved < |batch| then old(rows) else stages[k + |batch|]
      ensures Differing(all, f, k) + counted ==
        Differing(all, f, if dryRun || resolved == |batch| then k + resolved else k)
    {
      var updates;
      updates, counted, resolved := ResolveBatch(batch, f, dryRun);
      FailureInPage(all, f, k, batch);
      DifferingInPage(all, f, k, batch, resolved);
      if resolved == |batch| && !dryRun {
        BatchApplied(all, f, stages, k, batch, |batch|);
        UpdatesCount(batch, f, |batch|);
        Write(updates);
        counted := |updates|;
      }
    }

    method AfterFetch(
      ghost all: seq<Row>, ghost stages: Stages, p: Progress, batch: seq<Row>, f: Resolver, dryRun: bool, batchSize: nat)
      returns (more: bool, q: Progress, r: Outcome)
      requires batchSize > 0 && Walk(all, f, stages) && NextPageOf(all, f, batchSize, p, batch) && batch != []
      requires dryRun || rows == stages[p.scanned]
      modifies this
      ensures more ==> p.scanned < q.scanned && OnTrack(all, f, batchSize, q)
      ensures more ==> rows == if dryRun then old(rows) else stages[q.scanned]
      ensures !more ==> r == Report(all, f, dryRun, batchSize)
      ensures !more ==> rows == if dryRun then old(rows) else stages[Reached(all, f, batchSize)]
    {
      var resolved, counted := OnePage(all, stages, p.scanned, batch, f, dryRun);
      q := Progress(p.scanned + |batch|, p.changed + counted, batch[|batch| - 1].id);
      if resolved < |batch| {
        FailingPage(all, f, dryRun, batchSize, p, batch, counted);
        return false, q, Outcome(q.scanned, q.changed, ResolveFailed(batch[resolved].id));
      }
      if |batch| < batchSize {
        LastPage(all, f, dryRun, batchSize, p, batch, counted);
        return false, q, Outcome(q.scanned, q.changed, NoError);
      }
      FullPage(all, f, batchSize, p, batch, counted);
      return true, q, Outcome(q.scanned, q.changed, NoError);
    }

    /** One turn of the loop: a query, and what becomes of the batch it returns. The run goes on
        after a full batch, and otherwise ends, with what it reports. */
    method Turn(ghost all: seq<Row>, ghost stages: Stages, p: Progress, f: Resolver, dryRun: bool, batchSize: nat)
      returns (more: bool, q: Progress, r: Outcome)
      requires batchSize > 0 && Walk(all, f, stages) && OnTrack(all, f, batchSize, p)
      requires dryRun || rows == stages[p.scanned]
      requires Ahead(rows, p.lastID, all, p.scanned)
      modifies this
      ensures more ==> p.scanned < q.scanned && OnTrack(all, f, batchSize, q)
      ensures more ==> rows == if dryRun then old(rows) else stages[q.scanned]
      ensures !more ==> r == Report(all, f, dryRun, batchSize)
      ensures !more ==> rows == if dryRun then old(rows) else stages[Reached(all, f, batchSize)]
    {
      FetchedPage(rows, p.lastID, all, p.scanned, batchSize);
      var batch := FetchBatch(rows, p.lastID, batchSize).rows;
      if |batch| == 0 {
        LastPage(all, f, dryRun, batchSize, p, batch, 0);
        return false, p, Outcome(p.scanned, p.changed, NoError);
      }
      more, q, r := AfterFetch(all, stages, p, batch, f, dryRun, batchSize);
    }

    /** The paging loop, over whatever rows the query finds ahead. */
    method Pages(ghost all: seq<Row>, ghost stages: Stages, f: Resolver, dryRun: bool, batchSize: nat)
      returns (r: Outcome)
      requires batchSize > 0 && Walk(all, f, stages) && rows == stages[0]
      requires forall k: nat :: k <= |all| ==> AheadOf(rows, dryRun, stages, all, k)
      modifies this
      ensures r == Report(all, f, dryRun, batchSize)
      ensures rows == if dryRun then old(rows) else stages[Reached(all, f, batchSize)]
    {
      ghost var before := rows;
      var more, p := true, Progress(0, 0, 0);
      r := Outcome(0, 0, NoError);
      while more
        invariant more ==> OnTrack(all, f, batchSize, p)
        invariant more ==> rows == if dryRun then before else stages[p.scanned]
        invariant !more ==> r == Report(all, f, dryRun, batchSize)
        invariant !more ==> rows == if dryRun then before else stages[Reached(all, f, batchSize)]
        decreases if more then 1 + |all| - p.scanned else 0
      {
        assert AheadOf(before, dryRun, stages, all, p.scanned);
        more, p, r := Turn(all, stages, p, f, dryRun, batchSize);
      }
    }

    /** backfillTable. When every body resolves, all wanted rows are refreshed whatever the batch
        size; when one does not, the batches before its own are, and nothing of its own. A dry run
        writes nothing and counts the same. */
    method BackfillTable(f: Resolver, dryRun: bool, batchSize: int) returns (r: Outcome)
      requires InIdOrder(rows)
      modifies this
      ensures batchSize < 0 ==> rows == old(rows) && r == Outcome(0, 0, LimitRefused)
      ensures batchSize == 0 ==> rows == old(rows) && r == Outcome(0, 0, NoError)
      ensures batchSize > 0 ==> r == Report(Selected(old(rows), 0), f, dryRun, batchSize)
      ensures batchSize > 0 ==>
        rows == if dryRun then old(rows) else RefreshedTo(old(rows), f, Reached(Selected(old(rows), 0), f, batchSize))
    {
      if FetchBatch(rows, 0, batchSize).BadLimit? {
        return Outcome(0, 0, LimitRefused);
      }
      if batchSize == 0 {
        return Outcome(0, 0, NoError); // the first batch is empty
      }
      ghost var before := rows;
      DoneNothing(rows, f);
      StagesWalk(rows, f);
      forall k: nat | k <= |Selected(before, 0)|
        ensures AheadOf(before, dryRun, StagesOf(before, f), Selected(before, 0), k)
      {
        AheadAt(before, f, k);
      }
      r := Pages(Selected(before, 0), StagesOf(before, f), f, dryRun, batchSize);
    }
  }

  /** How many wanted rows a run deals with: all of them, or those in batches before the first that
      holds a body that does not resolve. */
  function Reached(all: seq<Row>, f: Resolver, batchSize: nat): (k: nat)
    requires batchSize > 0
    ensures k <= |all|
  {
    var j := FirstFailure(all, f);
    if j == |all| then |all| else PageStart(j, batchSize)
  }

  /** What a run reports; up to a failure a dry run counts row by row, a real one batch by batch. */
  function Report(all: seq<Row>, f: Resolver, dryRun: bool, batchSize: nat): Outcome
    requires batchSize > 0
  {
    var j, k := FirstFailure(all, f), Reached(all, f, batchSize);
    if j == |all| then Outcome(|all|, Differing(all, f, |all|), NoError)
    else
      Outcome(Min(k + batchSize, |all|), Differing(all, f, if dryRun then j else k), ResolveFailed(all[j].id))
  }

  /** After the k-th wanted row the query finds the rest of them. */
  ghost predicate Ahead(rows: seq<Row>, after: int, all: seq<Row>, k: nat) {
    k <= |all| && Selected(rows, after) == all[k..]
  }

  ghost predicate AheadOf(before: seq<Row>, dryRun: bool, stages: Stages, all: seq<Row>, k: nat) {
    k <= |all| < |stages| && Ahead(if dryRun then before else stages[k], LastOf(all, k), all, k)
  }

  lemma FetchedPage(rows: seq<Row>, after: int, all: seq<Row>, k: nat, size: nat)
    requires Ahead(rows, after, all, k)
    ensures var fetched := FetchBatch(rows, after, size);
      fetched.Batch? && IsPage(all, k, fetched.rows) && |fetched.rows| == Min(|all| - k, size)
  {
  }

  /** What has been written does not change what the query finds ahead. */
  lemma AheadAt(before: seq<Row>, f: Resolver, k: nat)
    requires InIdOrder(before) && k <= |Selected(before, 0)|
    ensures var all := Selected(before, 0);
      Ahead(before, LastOf(all, k), all, k) && Ahead(StagesOf(before, f)[k], LastOf(all, k), all, k)
  {
    LastIsPositive(before, k);
    RestAfter(before, k);
    DoneSelected(before, f, LastOf(Selected(before, 0), k));
  }

  // ---- what a run amounts to -------------------------------------------------------------------

  function All(rows: seq<Row>, f: Resolver): seq<Row> {
    RefreshedTo(rows, f, |Selected(rows, 0)|)
  }

  /** A finished run is a map over the table: every row with an id above zero and an @ in its body
      holds the names its body resolves to, and no other row or column is touched. */
  lemma {:induction false} FinishedIsAMap(rows: seq<Row>, f: Resolver)
    requires InIdOrder(rows)
    ensures |All(rows, f)| == |rows|
    ensures forall i :: 0 <= i < |rows| ==>
      All(rows, f)[i] == if Wanted(rows[i], 0) then Refreshed(rows[i], f) else rows[i]
  {
    var all := Selected(rows, 0);
    var last := LastOf(all, |all|);
    SelectedTail(rows, 0);
    forall r | r in rows && Wanted(r, 0) ensures r.id <= last {
      assert r in all;
    }
    DoneIsAMap(rows, f, last);
  }

  lemma {:induction false} DoneIsAMap(rows: seq<Row>, f: Resolver, last: int)
    ensures |Done(rows, f, last)| == |rows|
    ensures forall i :: 0 <= i < |rows| ==>
      Done(rows, f, last)[i] == if Wanted(rows[i], 0) && rows[i].id <= last then Refreshed(rows[i], f) else rows[i]
  {
    if rows != [] {
      DoneIsAMap(rows[1..], f, last);
    }
  }

  lemma {:induction false} NoneDiffer(rows: seq<Row>, f: Resolver, k: nat)
    requires k <= |rows| && forall r :: r in rows ==> !Differs(r, f)
    ensures Differing(rows, f, k) == 0
  {
    if k > 0 {
      NoneDiffer(rows, f, k - 1);
      assert rows[k - 1] in rows;
    }
  }

  /** A second run finds the same rows and nothing left to change. */
  lemma SecondRunChangesNothing(rows: seq<Row>, f: Resolver)
    requires InIdOrder(rows)
    ensures var after := All(rows, f);
      && InIdOrder(after) && All(after, f) == after
      && Differing(Selected(after, 0), f, |Selected(after, 0)|) == 0
  {
    var after := All(rows, f);
    FinishedIsAMap(rows, f);
    SelectedTail(after, 0);
    forall r | r in Selected(after, 0) ensures !Differs(r, f) {
      var i :| 0 <= i < |after| && after[i] == r;
      if Wanted(rows[i], 0) {
        assert after[i] == Refreshed(rows[i], f);
      }
    }
    NoneDiffer(Selected(after, 0), f, |Selected(after, 0)|);
    FinishedIsAMap(after, f);
    assert All(after, f) == after;
  }

  /** The rows found are the wanted ones, each once, whatever else the table holds. */
  lemma EachWantedRowOnce(rows: seq<Row>)
    requires InIdOrder(rows)
    ensures InIdOrder(Selected(rows, 0))
    ensures forall r :: r in Selected(rows, 0) <==> r in rows && r.id > 0 && '@' in r.body
  {
    SelectedTail(rows, 0);
  }

  // ---- the same in figures ---------------------------------------------------------------------------

  /** After a finished run a row has the names its body resolves to if its id is above zero and its
      body has an @, and otherwise, as everything else of it, what it had. */
  lemma FinishedRowByRow(rows: seq<Row>, f: Resolver, i: nat)
    requires InIdOrder(rows) && i < |rows|
    ensures |All(rows, f)| == |rows|
    ensures var was, now := rows[i], All(rows, f)[i];
      && now.id == was.id && now.body == was.body
      && now.mentioned ==
         if was.id > 0 && '@' in was.body && f(was.body).Names? then f(was.body).names else was.mentioned
  {
    FinishedIsAMap(rows, f);
  }

  /** A run that ended after k of the wanted rows has dealt with the first k of them, in the order of
      their ids, and left every other row as it was. */
  lemma StoppedRowByRow(rows: seq<Row>, f: Resolver, k: nat, i: nat)
    requires InIdOrder(rows) && k <= |Selected(rows, 0)| && i < |rows|
    ensures |RefreshedTo(rows, f, k)| == |rows|
    ensures var was, now := rows[i], RefreshedTo(rows, f, k)[i];
      && now.id == was.id && now.body == was.body
      && now.mentioned ==
         if was in Selected(rows, 0)[..k] && f(was.body).Names? then f(was.body).names else was.mentioned
  {
    var all := Selected(rows, 0);
    SelectedTail(rows, 0);
    DoneIsAMap(rows, f, LastOf(all, k));
    assert rows[i] in rows;
    AmongTheFirst(all, k, rows[i]);
  }

  lemma AmongTheFirst(all: seq<Row>, k: nat, x: Row)
    requires InIdOrder(all) && k <= |all| && (x.id > 0 && '@' in x.body <==> x in all)
    ensures x in all[..k] <==> x.id > 0 && '@' in x.body && x.id <= LastOf(all, k)
  {
    if x in all {
      var j :| 0 <= j < |all| && all[j] == x;
      if j < k {
        assert x == all[..k][j];
      }
    }
  }

  /** The places among the first k at which the names stored are not those the body resolves to. */
  function Stale(rows: seq<Row>, f: Resolver, k: nat): set<int>
    requires k <= |rows|
  {
    set i | 0 <= i < k && f(rows[i].body).Names? && f(rows[i].body).names != rows[i].mentioned
  }

  lemma {:induction false} DifferingAreStale(rows: seq<Row>, f: Resolver, k: nat)
    requires k <= |rows|
    ensures Differing(rows, f, k) == |Stale(rows, f, k)|
  {
    if k > 0 {
      DifferingAreStale(rows, f, k - 1);
      StaleStep(rows, f, k - 1);
    }
  }

  lemma StaleStep(rows: seq<Row>, f: Resolver, k: nat)
    requires k < |rows|
    ensures Differs(rows[k], f) <==> f(rows[k].body).Names? && f(rows[k].body).names != rows[k].mentioned
    ensures |Stale(rows, f, k + 1)| == |Stale(rows, f, k)| + if Differs(rows[k], f) then 1 else 0
  {
    assert Stale(rows, f, k + 1) == Stale(rows, f, k) + if Differs(rows[k], f) then {k as int} else {};
  }

  /** A run in which every wanted body resolves scans all wanted rows and counts those whose names were
      stale; the first body that does not resolve is named, after the batch it is in was scanned, and
      with the stale rows counted of the batches before it, or in a dry run of the rows before it. */
  lemma ReportInFigures(all: seq<Row>, f: Resolver, dryRun: bool, batchSize: nat) returns (batches: nat)
    requires batchSize > 0
    ensures var j := FirstFailure(all, f);
      var k := batches * batchSize;
      k <= j < k + batchSize &&
      Report(all, f, dryRun, batchSize) ==
        if j == |all| then Outcome(|all|, |Stale(all, f, |all|)|, NoError)
        else
          Outcome(if k + batchSize <= |all| then k + batchSize else |all|,
                  |Stale(all, f, if dryRun then j else k)|, ResolveFailed(all[j].id))
  {
    var j := FirstFailure(all, f);
    batches := StartOfPage(j, batchSize);
    DifferingAreStale(all, f, |all|);
    DifferingAreStale(all, f, j);
    DifferingAreStale(all, f, batches * batchSize);
  }

  lemma {:induction false} StartOfPage(j: nat, size: nat) returns (pages: nat)
    requires size > 0
    ensures PageStart(j, size) == pages * size
  {
    if j < size {
      pages := 0;
    } else {
      var rest := StartOfPage(j - size, size);
      pages := rest + 1;
      assert (rest + 1) * size == rest * size + size;
    }
  }
}
