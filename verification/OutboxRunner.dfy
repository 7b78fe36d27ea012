/** The outbox repository and the worker loop over it as they run. The loop ends for
    any table and any pattern of failures, and when it reports to be idle nothing was
    left to claim. */
module OutboxRunner {
  import opened Outbox
  import opened OutboxSafety
  import P = Publisher

  /** Times are in seconds. */
  datatype RunnerConfig = RunnerConfig(batchSize: int, staleClaimAfter: int, retryBackoff: int, deadThreshold: int)
  {
    predicate Usable() { batchSize > 0 && staleClaimAfter > 0 && retryBackoff > 0 && deadThreshold > 0 }
  }

  /** normalizeOutboxDispatcherConfig. */
  function Normalized(c: RunnerConfig): (r: RunnerConfig)
    ensures r.Usable() && (c.Usable() ==> r == c)
  {
    RunnerConfig(if c.batchSize <= 0 then 50 else c.batchSize,
                 if c.staleClaimAfter <= 0 then 300 else c.staleClaimAfter,
                 if c.retryBackoff <= 0 then 60 else c.retryBackoff,
                 if c.deadThreshold <= 0 then 5 else c.deadThreshold)
  }

  /** The condition of the claim query. */
  predicate Due(row: Row, now: int, staleBefore: int) {
    || ((row.status == Pending || row.status == Failed) && row.retryAt <= now)
    || (row.status == Claiming && row.claimedAt < staleBefore)
  }

  /** Which of the first `n` rows the query picks: those due, in order of id, up to the
      limit. */
  function Picked(rows: seq<Row>, n: nat, limit: nat, now: int, staleBefore: int): (ids: seq<RowId>)
    requires n <= |rows|
    ensures |ids| <= limit
    ensures forall k :: 0 <= k < |ids| ==> ids[k] < n && Due(rows[ids[k]], now, staleBefore)
    ensures forall j, k :: 0 <= j < k < |ids| ==> ids[j] < ids[k]
  {
    if n == 0 then []
    else
      var ids := Picked(rows, n - 1, limit, now, staleBefore);
      if |ids| < limit && Due(rows[n - 1], now, staleBefore) then ids + [n - 1] else ids
  }

  lemma {:induction false} PickedWhenFull(rows: seq<Row>, n: nat, m: nat, limit: nat, now: int, staleBefore: int)
    requires n <= m <= |rows| && |Picked(rows, n, limit, now, staleBefore)| == limit
    ensures Picked(rows, m, limit, now, staleBefore) == Picked(rows, n, limit, now, staleBefore)
  {
    if n < m {
      PickedWhenFull(rows, n, m - 1, limit, now, staleBefore);
    }
  }

  predicate AllOpen(rows: seq<Row>, ids: seq<RowId>) {
    forall k :: 0 <= k < |ids| ==> ids[k] < |rows| && Open(rows[ids[k]])
  }

  predicate Increasing(ids: seq<RowId>) {
    forall j, k :: 0 <= j < k < |ids| ==> ids[j] < ids[k]
  }

  predicate AllBelow(ids: seq<RowId>, i: RowId) {
    forall k :: 0 <= k < |ids| ==> ids[k] < i
  }

  predicate NoneDue(rows: seq<Row>, now: int, staleBefore: int) {
    forall i :: 0 <= i < |rows| ==> !Due(rows[i], now, staleBefore)
  }

  /** The query comes back empty exactly when no row is due. */
  lemma {:induction false} NonePicked(rows: seq<Row>, n: nat, limit: nat, now: int, staleBefore: int)
    requires n <= |rows| && limit > 0
    ensures Picked(rows, n, limit, now, staleBefore) == [] <==> NoneDue(rows[..n], now, staleBefore)
  {
    if n > 0 {
      NonePicked(rows, n - 1, limit, now, staleBefore);
      assert rows[..n] == rows[..n - 1] + [rows[n - 1]];
    }
  }

  // ----------------------------------------------------------------- the work left

  function Weight(row: Row, threshold: nat): nat {
    if !Open(row) then 0 else if row.attempts < threshold then threshold - row.attempts else 1
  }

  /** The attempts still to be made at most. */
  function Work(rows: seq<Row>, threshold: nat): nat
    decreases |rows|
  {
    if rows == [] then 0 else Work(rows[..|rows| - 1], threshold) + Weight(rows[|rows| - 1], threshold)
  }

  lemma {:induction false} WorkUpdate(rows: seq<Row>, i: RowId, row: Row, threshold: nat)
    requires i < |rows|
    ensures Work(rows[i := row], threshold)
         == Work(rows, threshold) - Weight(rows[i], threshold) + Weight(row, threshold)
    decreases |rows|
  {
    var n := |rows| - 1;
    if i == n {
      assert rows[i := row][..n] == rows[..n];
    } else {
      assert rows[i := row][..n] == rows[..n][i := row];
      WorkUpdate(rows[..n], i, row, threshold);
    }
  }

  /** A claimed row, with the attempts it had. */
  datatype Task = Task(row: RowId, attempts: nat)

  function Rows(batch: seq<Task>): seq<RowId> {
    seq(|batch|, k requires 0 <= k < |batch| => batch[k].row)
  }

  datatype RunResult = Idle(now: int) | Stopped

  datatype RoundResult = NothingDue(now: int) | Worked | Interrupted

  /** The task is still claimed by the process, with the attempts noted. */
  predicate HoldsTask(rows: seq<Row>, jobs: map<Job, Entry>, proc: ProcId, id: DispatcherId, t: Task) {
    && t.row < |rows| && rows[t.row].status == Claiming && rows[t.row].claimedBy == id
    && rows[t.row].attempts == t.attempts
    && Job(proc, t.row) in jobs && jobs[Job(proc, t.row)] == Entry(t.attempts, Claimed)
  }

  predicate Ascending(batch: seq<Task>) {
    forall j, k :: 0 <= j < k < |batch| ==> batch[j].row < batch[k].row
  }

  predicate Has(batch: seq<Task>, row: RowId) {
    exists k :: 0 <= k < |batch| && batch[k].row == row
  }

  /** The rows the process has claimed and not yet marked are those of `batch`. */
  predicate Holding(rows: seq<Row>, jobs: map<Job, Entry>, proc: ProcId, id: DispatcherId, batch: seq<Task>) {
    && (forall k :: 0 <= k < |batch| ==> HoldsTask(rows, jobs, proc, id, batch[k]))
    && Ascending(batch)
    && (forall job :: job in jobs && job.proc == proc ==> Has(batch, job.row))
  }

  lemma ClaimedBelow(batch: seq<Task>, i: RowId)
    requires AllBelow(Rows(batch), i)
    ensures !Has(batch, i) && forall k :: 0 <= k < |batch| ==> batch[k].row < i
  {
    forall k | 0 <= k < |batch| ensures batch[k].row < i {
      assert Rows(batch)[k] < i;
    }
  }

  lemma HoldingOneMore(
    rows: seq<Row>, jobs: map<Job, Entry>, proc: ProcId, id: DispatcherId, batch: seq<Task>, i: RowId, row: Row)
    requires Holding(rows, jobs, proc, id, batch) && i < |rows| && forall k :: 0 <= k < |batch| ==> batch[k].row < i
    requires row.status == Claiming && row.claimedBy == id
    ensures Holding(rows[i := row], jobs[Job(proc, i) := Entry(row.attempts, Claimed)], proc, id,
                    batch + [Task(i, row.attempts)])
  {
    var jobs', batch' := jobs[Job(proc, i) := Entry(row.attempts, Claimed)], batch + [Task(i, row.attempts)];
    forall k | 0 <= k < |batch'| ensures HoldsTask(rows[i := row], jobs', proc, id, batch'[k]) {
      assert k < |batch| ==> HoldsTask(rows, jobs, proc, id, batch[k]);
    }
    forall job | job in jobs' && job.proc == proc ensures Has(batch', job.row) {
      if job.row == i {
        assert batch'[|batch|].row == job.row;
      } else {
        assert Has(batch, job.row);
        var k :| 0 <= k < |batch| && batch[k].row == job.row;
        assert batch'[k].row == job.row;
      }
    }
  }

  /** Claiming row `i`, above those of the batch, adds it to the batch and leaves the
      work to do as it was. */
  lemma RowJoinsBatch(
    rows: seq<Row>, jobs: map<Job, Entry>, proc: ProcId, id: DispatcherId, batch: seq<Task>, i: RowId, now: int,
    threshold: nat)
    requires Holding(rows, jobs, proc, id, batch) && i < |rows| && Open(rows[i])
    requires AllBelow(Rows(batch), i)
    ensures var claimed := rows[i].(status := Claiming, claimedBy := id, claimedAt := now);
            && Job(proc, i) !in jobs
            && Holding(rows[i := claimed], jobs[Job(proc, i) := Entry(rows[i].attempts, Claimed)], proc, id,
                       batch + [Task(i, rows[i].attempts)])
            && Rows(batch + [Task(i, rows[i].attempts)]) == Rows(batch) + [i]
            && Work(rows[i := claimed], threshold) == Work(rows, threshold)
  {
    var claimed := rows[i].(status := Claiming, claimedBy := id, claimedAt := now);
    ClaimedBelow(batch, i);
    HoldingOneMore(rows, jobs, proc, id, batch, i, claimed);
    WorkUpdate(rows, i, claimed, threshold);
  }

  lemma HoldingOneLess(
    rows: seq<Row>, jobs: map<Job, Entry>, proc: ProcId, id: DispatcherId, batch: seq<Task>, row: Row)
    requires batch != [] && Holding(rows, jobs, proc, id, batch)
    ensures HoldsTask(rows, jobs, proc, id, batch[0])
    ensures Holding(rows[batch[0].row := row], jobs - {Job(proc, batch[0].row)}, proc, id, batch[1..])
  {
    var i, rest := batch[0].row, batch[1..];
    forall k | 0 <= k < |rest| ensures HoldsTask(rows[i := row], jobs - {Job(proc, i)}, proc, id, rest[k]) {
      assert rest[k] == batch[k + 1] && HoldsTask(rows, jobs, proc, id, batch[k + 1]);
    }
    forall job | job in jobs - {Job(proc, i)} && job.proc == proc ensures Has(rest, job.row) {
      assert Has(batch, job.row);
      var k :| 0 <= k < |batch| && batch[k].row == job.row;
      assert rest[k - 1].row == job.row;
    }
  }

  /** How a row looks after its mark: published, or failed with one attempt more and the
      time of its next one, or given up when the attempts have run out. */
  predicate Marked(row: Row, attempts: nat, ok: bool, retryAt: int, threshold: int) {
    row == if ok then Row(Published, 0, attempts, 0, 0)
           else if attempts + 1 >= threshold then Row(Dead, 0, attempts + 1, 0, 0)
           else Row(Failed, 0, attempts + 1, retryAt, 0)
  }

  /** Exactly the rows of `ids` are claimed, now, by the dispatcher; the others are as
      before. */
  predicate Taken(before: seq<Row>, after: seq<Row>, ids: seq<RowId>, id: DispatcherId, now: int) {
    && |after| == |before|
    && forall i :: 0 <= i < |after| ==>
         after[i] == if i in ids then Row(Claiming, id, before[i].attempts, before[i].retryAt, now) else before[i]
  }

  lemma PrefixBelow(ids: seq<RowId>, k: nat)
    requires Increasing(ids) && k < |ids|
    ensures AllBelow(ids[..k], ids[k]) && ids[..k + 1] == ids[..k] + [ids[k]]
  {
  }

  lemma StillOpen(before: seq<Row>, after: seq<Row>, ids: seq<RowId>, i: RowId)
    requires AllOpen(before, ids) && i < |before| == |after| && after == before[i := after[i]] && Open(after[i])
    ensures AllOpen(after, ids)
  {
  }

  lemma TakenOneMore(before: seq<Row>, after: seq<Row>, ids: seq<RowId>, i: RowId, id: DispatcherId, now: int)
    requires Taken(before, after, ids, id, now) && i < |after| && i !in ids
    ensures Taken(before, after[i := after[i].(status := Claiming, claimedBy := id, claimedAt := now)], ids + [i], id, now)
  {
  }

  class Dispatcher {
    const proc: ProcId
    const dispatcherId: DispatcherId
    const settings: RunnerConfig
    const publisher: P.TopicPublisher
    ghost const cfg: Config
    var rows: seq<Row>
    var clock: int
    ghost var jobs: map<Job, Entry>
    ghost var acked: set<RowId>
    ghost var conns: map<ProcId, P.Conn>
    ghost var trace: seq<Step>

    ghost function Table(): State
      reads this
    {
      State(rows, jobs, acked, conns)
    }

    ghost predicate Valid()
      reads this, publisher
    {
      && Table() == Run(cfg, trace)
      && settings.Usable() && cfg.threshold == settings.deadThreshold && cfg.name(proc) == dispatcherId
      && publisher.Valid() && ConnOf(Table(), proc) == publisher.Value()
    }

    /** A process starts, or starts again, over whatever table earlier steps have left:
        its own former jobs and channel are gone. */
    constructor (proc: ProcId, settings: RunnerConfig, name: ProcId -> DispatcherId, rows: seq<Row>,
                 ghost table: State, ghost past: seq<Step>)
      requires table == Run(Config(name, Normalized(settings).deadThreshold), past) && table.rows == rows
      requires proc !in table.conns && forall job :: job in table.jobs ==> job.proc != proc
      ensures Valid() && Holds([]) && Table() == table && trace == past && fresh(publisher)
      ensures this.proc == proc && this.settings == Normalized(settings)
    {
      this.proc, this.dispatcherId := proc, name(proc);
      this.settings := Normalized(settings);
      this.publisher := new P.TopicPublisher();
      this.cfg := Config(name, Normalized(settings).deadThreshold);
      this.rows, clock := rows, 0;
      jobs, acked, conns, trace := table.jobs, table.acked, table.conns, past;
    }

    /** An event is appended by some business transaction. */
    method InsertEvent()
      requires Valid() && Holds([])
      modifies `rows, `trace
      ensures Valid() && Holds([]) && trace == old(trace) + [Insert] && rows == old(rows) + [NewRow]
    {
      Extends(Insert);
      trace, rows := trace + [Insert], rows + [NewRow];
    }

    lemma Extends(step: Step)
      requires Valid()
      ensures Run(cfg, trace + [step]) == Apply(cfg, Table(), step)
    {
      assert (trace + [step])[..|trace|] == trace;
    }

    method Now() returns (now: int)
      modifies `clock
      ensures now == clock >= old(clock)
    {
      var passed: int :| passed >= 0;
      clock := clock + passed;
      now := clock;
    }

    // ------------------------------------------------------- statements of the repository

    method ClaimOne(i: RowId, now: int) returns (c: Task)
      requires Valid() && i < |rows| && Open(rows[i]) && Job(proc, i) !in jobs
      modifies `rows, `jobs, `trace
      ensures Valid() && trace == old(trace) + [Claim(proc, i, now)]
      ensures c == Task(i, old(rows)[i].attempts)
      ensures rows == old(rows)[i := old(rows)[i].(status := Claiming, claimedBy := dispatcherId, claimedAt := now)]
      ensures jobs == old(jobs)[Job(proc, i) := Entry(c.attempts, Claimed)]
    {
      Extends(Claim(proc, i, now));
      trace := trace + [Claim(proc, i, now)];
      c := Task(i, rows[i].attempts);
      rows := rows[i := rows[i].(status := Claiming, claimedBy := dispatcherId, claimedAt := now)];
      jobs := jobs[Job(proc, i) := Entry(c.attempts, Claimed)];
    }

    ghost predicate Holds(batch: seq<Task>)
      reads this
    {
      Holding(rows, jobs, proc, dispatcherId, batch)
    }

    /** The selecting half of the claim query. */
    method PickDue(now: int) returns (ids: seq<RowId>)
      requires Valid()
      ensures ids == Picked(rows, |rows|, settings.batchSize, now, now - settings.staleClaimAfter)
    {
      ids := [];
      var i := 0;
      while i < |rows| && |ids| < settings.batchSize
        invariant 0 <= i <= |rows|
        invariant ids == Picked(rows, i, settings.batchSize, now, now - settings.staleClaimAfter)
      {
        if Due(rows[i], now, now - settings.staleClaimAfter) {
          ids := ids + [i];
        }
        i := i + 1;
      }
      if i < |rows| {
        PickedWhenFull(rows, i, |rows|, settings.batchSize, now, now - settings.staleClaimAfter);
      }
    }

    /** The updating half. */
    method ClaimRows(ids: seq<RowId>, now: int) returns (batch: seq<Task>)
      requires Valid() && Holds([])
      requires AllOpen(rows, ids) && Increasing(ids)
      modifies `rows, `jobs, `trace
      ensures Valid() && old(trace) <= trace && Holds(batch) && Rows(batch) == ids
      ensures |rows| == |old(rows)| && Work(rows, cfg.threshold) == Work(old(rows), cfg.threshold)
      ensures Taken(old(rows), rows, ids, dispatcherId, now)
      ensures ids == [] ==> rows == old(rows)
    {
      batch := [];
      assert HasClaimed(batch, ids, 0, now, old(rows));
      for k := 0 to |ids|
        invariant Valid() && old(trace) <= trace
        invariant HasClaimed(batch, ids, k, now, old(rows))
      {
        batch := ClaimNext(batch, ids, k, now, old(rows));
      }
      assert ids[..|ids|] == ids;
    }

    /** The first `k` of the rows `ids` are claimed, and make up the batch. */
    ghost predicate HasClaimed(batch: seq<Task>, ids: seq<RowId>, k: nat, now: int, before: seq<Row>)
      reads this
    {
      && k <= |ids| && Holds(batch) && Rows(batch) == ids[..k]
      && AllOpen(rows, ids)
      && Taken(before, rows, Rows(batch), dispatcherId, now)
      && Work(rows, cfg.threshold) == Work(before, cfg.threshold)
      && (k == 0 ==> rows == before)
    }

    method ClaimNext(batch: seq<Task>, ids: seq<RowId>, k: nat, now: int, ghost before: seq<Row>)
      returns (longer: seq<Task>)
      requires Valid() && k < |ids| && Increasing(ids) && HasClaimed(batch, ids, k, now, before)
      modifies `rows, `jobs, `trace
      ensures Valid() && old(trace) <= trace && HasClaimed(longer, ids, k + 1, now, before)
    {
      var i := ids[k];
      ghost var was := rows;
      PrefixBelow(ids, k);
      longer := ClaimInto(batch, i, now, before);
      StillOpen(was, rows, ids, i);
    }

    /** ClaimPending: the first rows that are due, in order of id, up to the batch size. */
    method ClaimPending(now: int) returns (batch: seq<Task>)
      requires Valid() && Holds([])
      modifies `rows, `jobs, `trace
      ensures Valid() && old(trace) <= trace && Holds(batch)
      ensures Rows(batch) == Picked(old(rows), |old(rows)|, settings.batchSize, now, now - settings.staleClaimAfter)
      ensures |rows| == |old(rows)| && Work(rows, cfg.threshold) == Work(old(rows), cfg.threshold)
      ensures Taken(old(rows), rows, Rows(batch), dispatcherId, now)
      ensures |batch| == 0 ==> rows == old(rows) && NoneDue(rows, now, now - settings.staleClaimAfter)
    {
      var ids := PickDue(now);
      assert ids == [] ==> NoneDue(rows, now, now - settings.staleClaimAfter) by {
        NonePicked(rows, |rows|, settings.batchSize, now, now - settings.staleClaimAfter);
        assert rows[..|rows|] == rows;
      }
      batch := ClaimRows(ids, now);
    }

    method ClaimInto(batch: seq<Task>, i: RowId, now: int, ghost before: seq<Row>) returns (longer: seq<Task>)
      requires Valid() && i < |rows| && Open(rows[i]) && Holds(batch)
      requires Taken(before, rows, Rows(batch), dispatcherId, now)
      requires AllBelow(Rows(batch), i)
      modifies `rows, `jobs, `trace
      ensures Valid() && old(trace) <= trace && Holds(longer) && longer != []
      ensures |rows| == |old(rows)| && rows == old(rows)[i := rows[i]] && Open(rows[i])
      ensures Taken(before, rows, Rows(longer), dispatcherId, now)
      ensures Work(rows, cfg.threshold) == Work(old(rows), cfg.threshold)
      ensures Rows(longer) == Rows(batch) + [i]
    {
      RowJoinsBatch(rows, jobs, proc, dispatcherId, batch, i, now, cfg.threshold);
      TakenOneMore(before, rows, Rows(batch), i, dispatcherId, now);
      var c := ClaimOne(i, now);
      longer := batch + [c];
    }

    /** The handler: the publisher sends the message and waits for its confirmation. */
    method PublishEvent(c: Task) returns (ok: bool)
      requires Valid() && Job(proc, c.row) in jobs && jobs[Job(proc, c.row)] == Entry(c.attempts, Claimed)
      modifies `jobs, `acked, `conns, `trace, publisher
      ensures Valid() && old(trace) <= trace
      ensures jobs == old(jobs)[Job(proc, c.row) := Entry(c.attempts, if ok then Acked else Errored)]
      ensures old(publisher.frames) <= publisher.frames
      ensures ok <==> P.Confirmed(publisher.frames, |old(publisher.frames)|, c.row)
    {
      ghost var was := Table();
      ghost var answers;
      ok, answers := publisher.PublishJSON(c.row);
      ghost var next := PublishStep(was, proc, c.row, answers);
      assert Run(cfg, trace + [Publish(proc, c.row, answers)]) == next by {
        assert (trace + [Publish(proc, c.row, answers)])[..|trace|] == trace;
      }
      trace := trace + [Publish(proc, c.row, answers)];
      jobs, acked, conns := next.jobs, next.acked, next.conns;
    }

    /** MarkPublished or MarkFailed for a claim this process still owns. */
    method MarkOwned(c: Task, ok: bool, retryAt: int)
      requires Valid() && c.row < |rows|
      requires Job(proc, c.row) in jobs && jobs[Job(proc, c.row)] == Entry(c.attempts, if ok then Acked else Errored)
      requires rows[c.row].status == Claiming && rows[c.row].claimedBy == dispatcherId
      requires rows[c.row].attempts == c.attempts
      modifies `rows, `jobs, `trace
      ensures Valid() && old(trace) <= trace
      ensures jobs == old(jobs) - {Job(proc, c.row)}
      ensures |rows| == |old(rows)| && rows == old(rows)[c.row := rows[c.row]]
      ensures Marked(rows[c.row], c.attempts, ok, retryAt, settings.deadThreshold)
      ensures Weight(rows[c.row], cfg.threshold) < Weight(old(rows)[c.row], cfg.threshold)
    {
      Extends(Mark(proc, c.row, retryAt));
      trace := trace + [Mark(proc, c.row, retryAt)];
      jobs := jobs - {Job(proc, c.row)};
      if ok {
        rows := rows[c.row := AfterSuccess(rows[c.row])];
      } else {
        rows := rows[c.row := AfterFailure(rows[c.row], c.attempts, settings.deadThreshold, retryAt)];
      }
    }

    /** Leaving a batch unfinished: the claims stay in the table until they are stale. */
    ghost method LeaveBatch()
      requires Valid()
      modifies `jobs, `trace
      ensures Valid() && old(trace) <= trace && Holds([])
    {
      Extends(Abandon(proc));
      trace := trace + [Abandon(proc)];
      jobs := map job | job in jobs && job.proc != proc :: jobs[job];
    }

    // -------------------------------------------------------------------------- the loop

    /** The mark after the handler. An error of the mark, whether it took effect or not,
        ends the run and leaves the rest of the batch; `calm` says that there is none. */
    method MarkTask(c: Task, ok: bool, retryAt: int, calm: bool) returns (marked: bool)
      requires Valid() && c.row < |rows|
      requires Job(proc, c.row) in jobs && jobs[Job(proc, c.row)] == Entry(c.attempts, if ok then Acked else Errored)
      requires rows[c.row].status == Claiming && rows[c.row].claimedBy == dispatcherId
      requires rows[c.row].attempts == c.attempts
      modifies `rows, `jobs, `trace
      ensures Valid() && old(trace) <= trace && |rows| == |old(rows)|
      ensures !marked ==> Holds([]) && Work(rows, cfg.threshold) <= Work(old(rows), cfg.threshold)
      ensures marked ==> jobs == old(jobs) - {Job(proc, c.row)} && rows == old(rows)[c.row := rows[c.row]]
      ensures marked ==> Work(rows, cfg.threshold) < Work(old(rows), cfg.threshold)
      ensures marked ==> Marked(rows[c.row], c.attempts, ok, retryAt, settings.deadThreshold)
      ensures calm ==> marked
    {
      var unreachable: bool := *;
      if unreachable && !calm {
        LeaveBatch();
        return false;
      }
      ghost var before := rows;
      MarkOwned(c, ok, retryAt);
      assert Work(rows, cfg.threshold) < Work(before, cfg.threshold) by {
        WorkUpdate(before, c.row, rows[c.row], cfg.threshold);
      }
      marked := *;
      if calm {
        marked := true;
      }
      if !marked {
        LeaveBatch();
      }
    }

    /** One task of the batch: handle it and mark it, published exactly when its message
        was confirmed, and otherwise due again after the backoff. */
    method ProcessOne(batch: seq<Task>, k: nat, calm: bool) returns (marked: bool)
      requires Valid() && k < |batch| && Holds(batch[k..])
      modifies this, publisher
      ensures Valid() && old(trace) <= trace && Holds(if marked then batch[k + 1..] else [])
      ensures |rows| == |old(rows)| && Work(rows, cfg.threshold) <= Work(old(rows), cfg.threshold)
      ensures marked ==> Work(rows, cfg.threshold) < Work(old(rows), cfg.threshold)
      ensures old(publisher.frames) <= publisher.frames
      ensures marked ==>
                && batch[k].row < |rows|
                && rows == old(rows)[batch[k].row := rows[batch[k].row]]
                && Marked(rows[batch[k].row], batch[k].attempts,
                          P.Confirmed(publisher.frames, |old(publisher.frames)|, batch[k].row),
                          clock + settings.retryBackoff, settings.deadThreshold)
      ensures calm ==> marked
    {
      var c := batch[k];
      assert c == batch[k..][0] && batch[k..][1..] == batch[k + 1..];
      ghost var before, held := rows, jobs;
      assert HoldsTask(rows, jobs, proc, dispatcherId, batch[k..][0]);
      var ok := PublishEvent(c);
      var now := Now();
      marked := MarkTask(c, ok, now + settings.retryBackoff, calm);
      if marked {
        assert jobs == held - {Job(proc, c.row)};
        HoldingOneLess(before, held, proc, dispatcherId, batch[k..], rows[c.row]);
      }
    }

    /** RunUntilIdle: claim, process and mark, round by round. It ends whatever the
        broker does. Only a cancelled context or an error of the store may stop it early;
        when `calm` says that there is neither, it goes on until nothing is due. */
    method RunUntilIdle(calm: bool) returns (r: RunResult)
      requires Valid() && Holds([])
      modifies this, publisher
      ensures Valid() && old(trace) <= trace && Holds([]) && |rows| == |old(rows)|
      ensures Work(rows, cfg.threshold) <= Work(old(rows), cfg.threshold)
      ensures r.Idle? ==> r.now == clock && NoneDue(rows, r.now, r.now - settings.staleClaimAfter)
      ensures calm ==> r.Idle?
    {
      while true
        invariant Valid() && old(trace) <= trace && Holds([]) && |rows| == |old(rows)|
        invariant Work(rows, cfg.threshold) <= Work(old(rows), cfg.threshold)
        decreases Work(rows, cfg.threshold)
      {
        var cancelled: bool := *;
        if cancelled && !calm {
          return Stopped;
        }
        var round := Round(calm);
        if !round.Worked? {
          return if round.NothingDue? then Idle(round.now) else Stopped;
        }
      }
    }

    method Round(calm: bool) returns (r: RoundResult)
      requires Valid() && Holds([])
      modifies this, publisher
      ensures Valid() && old(trace) <= trace && Holds([]) && |rows| == |old(rows)|
      ensures r.Worked? ==> Work(rows, cfg.threshold) < Work(old(rows), cfg.threshold)
      ensures !r.Worked? ==> Work(rows, cfg.threshold) <= Work(old(rows), cfg.threshold)
      ensures r.NothingDue? ==> r.now == clock && NoneDue(rows, r.now, r.now - settings.staleClaimAfter)
      ensures calm ==> !r.Interrupted?
    {
      var now := Now();
      var batch := ClaimPending(now);
      if |batch| == 0 {
        return NothingDue(now);
      }
      var finished := ProcessBatch(batch, calm);
      r := if finished then Worked else Interrupted;
    }

    method ProcessBatch(batch: seq<Task>, calm: bool) returns (finished: bool)
      requires Valid() && Holds(batch) && batch != []
      modifies this, publisher
      ensures Valid() && old(trace) <= trace && Holds([]) && |rows| == |old(rows)|
      ensures Work(rows, cfg.threshold) <= Work(old(rows), cfg.threshold)
      ensures finished ==> Work(rows, cfg.threshold) < Work(old(rows), cfg.threshold)
      ensures calm ==> finished
    {
      var k := 0;
      assert batch[0..] == batch;
      while k < |batch|
        invariant 0 <= k <= |batch| && Valid() && old(trace) <= trace && Holds(batch[k..])
        invariant |rows| == |old(rows)|
        invariant Work(rows, cfg.threshold) + k <= Work(old(rows), cfg.threshold)
      {
        var marked := ProcessOne(batch, k, calm);
        if !marked {
          return false;
        }
        k := k + 1;
        var cancelled: bool := *;
        if cancelled && !calm {
          LeaveBatch();
          return false;
        }
      }
      finished := true;
    }
  }
}
