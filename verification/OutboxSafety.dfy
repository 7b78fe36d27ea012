/** What the acknowledgement protocol of the outbox guarantees over all runs, and what
    it needs the dispatcher ids for. */
module OutboxSafety {
  import opened Outbox
  import P = Publisher

  /** No two processes run under one dispatcher id. */
  ghost predicate DistinctNames(cfg: Config) {
    forall p, q :: cfg.name(p) == cfg.name(q) ==> p == q
  }

  // --------------------------------------------------------------------- acknowledged

  ghost predicate AcksSound(s: State) {
    && (forall row :: 0 <= row < |s.rows| && s.rows[row].status == Published ==> row in s.acked)
    && (forall job :: job in s.jobs && s.jobs[job].phase == Acked ==> job.row in s.acked)
  }

  lemma StepKeepsAcks(cfg: Config, s: State, step: Step)
    requires AcksSound(s)
    ensures AcksSound(Apply(cfg, s, step)) && s.acked <= Apply(cfg, s, step).acked
  {
  }

  lemma {:induction false} RunKeepsAcks(cfg: Config, steps: seq<Step>)
    ensures AcksSound(Run(cfg, steps))
    decreases |steps|
  {
    if steps != [] {
      RunKeepsAcks(cfg, steps[..|steps| - 1]);
      StepKeepsAcks(cfg, Run(cfg, steps[..|steps| - 1]), steps[|steps| - 1]);
    }
  }

  /** Every process's flag is true to its channel, and no two messages of a channel
      share a tag. */
  ghost predicate ConnsSound(s: State) {
    forall proc :: proc in s.conns ==> P.InStep(s.conns[proc]) && P.TagsDiffer(s.conns[proc].frames)
  }

  lemma StepKeepsConns(cfg: Config, s: State, step: Step)
    requires ConnsSound(s)
    ensures ConnsSound(Apply(cfg, s, step))
  {
    if step.Publish? {
      P.SuccessIffConfirmed(ConnOf(s, step.proc), step.row, step.answers);
      P.PublishKeepsTagsDiffer(ConnOf(s, step.proc), step.row, step.answers);
    }
  }

  lemma {:induction false} RunKeepsConns(cfg: Config, steps: seq<Step>)
    ensures ConnsSound(Run(cfg, steps))
    decreases |steps|
  {
    if steps != [] {
      RunKeepsConns(cfg, steps[..|steps| - 1]);
      StepKeepsConns(cfg, Run(cfg, steps[..|steps| - 1]), steps[|steps| - 1]);
    }
  }

  /** During the step a process that had claimed the row sent its message in confirm
      mode, and the broker acknowledged it under a tag that is no other message's. */
  ghost predicate Acknowledges(cfg: Config, s: State, step: Step, row: RowId) {
    && step.Publish? && step.row == row
    && Job(step.proc, row) in s.jobs && s.jobs[Job(step.proc, row)].phase == Claimed
    && var before := ConnOf(s, step.proc).frames;
       var after := ConnOf(Apply(cfg, s, step), step.proc).frames;
       before <= after && P.Confirmed(after, |before|, row) && P.TagsDiffer(after)
  }

  lemma NewlyAcked(cfg: Config, s: State, step: Step, row: RowId)
    requires ConnsSound(s) && row !in s.acked && row in Apply(cfg, s, step).acked
    ensures Acknowledges(cfg, s, step, row)
  {
    P.SuccessIffConfirmed(ConnOf(s, step.proc), step.row, step.answers);
    P.PublishKeepsTagsDiffer(ConnOf(s, step.proc), step.row, step.answers);
  }

  ghost predicate AckAt(cfg: Config, steps: seq<Step>, i: nat, row: RowId)
    requires i < |steps|
  {
    Acknowledges(cfg, Run(cfg, steps[..i]), steps[i], row)
  }

  lemma {:induction false} AckedMeansAnAck(cfg: Config, steps: seq<Step>, row: RowId)
    requires row in Run(cfg, steps).acked
    ensures exists i :: 0 <= i < |steps| && AckAt(cfg, steps, i, row)
    decreases |steps|
  {
    var n := |steps| - 1;
    var before := steps[..n];
    if row in Run(cfg, before).acked {
      AckedMeansAnAck(cfg, before, row);
      var i :| 0 <= i < n && AckAt(cfg, before, i, row);
      assert before[..i] == steps[..i];
      assert AckAt(cfg, steps, i, row);
    } else {
      RunKeepsConns(cfg, before);
      NewlyAcked(cfg, Run(cfg, before), steps[n], row);
      assert AckAt(cfg, steps, n, row);
    }
  }

  /** Whatever the dispatcher ids, reclaims, crashes and answers of the broker: a row is
      marked published only if at some earlier step its message was sent in confirm
      mode and its own confirmation was an acknowledgement. */
  lemma PublishedMeansAcknowledged(cfg: Config, steps: seq<Step>, row: RowId)
    requires row < |Run(cfg, steps).rows| && Run(cfg, steps).rows[row].status == Published
    ensures exists i :: 0 <= i < |steps| && AckAt(cfg, steps, i, row)
  {
    RunKeepsAcks(cfg, steps);
    AckedMeansAnAck(cfg, steps, row);
  }

  // ------------------------------------------------------------------------- attempts

  /** A process that still owns its claim remembers the attempts the row has. */
  ghost predicate Fresh(cfg: Config, s: State) {
    forall job :: job in s.jobs ==>
      job.row < |s.rows| && (Owns(cfg, s, job.proc, job.row) ==> s.jobs[job].attempts == s.rows[job.row].attempts)
  }

  lemma StepKeepsFresh(cfg: Config, s: State, step: Step)
    requires DistinctNames(cfg) && Fresh(cfg, s)
    ensures Fresh(cfg, Apply(cfg, s, step))
  {
    var s' := Apply(cfg, s, step);
    forall job | job in s'.jobs
      ensures job.row < |s'.rows|
      ensures Owns(cfg, s', job.proc, job.row) ==> s'.jobs[job].attempts == s'.rows[job.row].attempts
    {
      assert job in s.jobs || step.Claim?;
    }
  }

  lemma {:induction false} RunIsFresh(cfg: Config, steps: seq<Step>)
    requires DistinctNames(cfg)
    ensures Fresh(cfg, Run(cfg, steps))
    decreases |steps|
  {
    if steps != [] {
      RunIsFresh(cfg, steps[..|steps| - 1]);
      StepKeepsFresh(cfg, Run(cfg, steps[..|steps| - 1]), steps[|steps| - 1]);
    }
  }

  /** The step marks the row failed, and the mark is accepted. */
  predicate Fails(cfg: Config, s: State, step: Step, row: RowId) {
    && step.Mark? && step.row == row
    && Job(step.proc, row) in s.jobs && s.jobs[Job(step.proc, row)].phase == Errored
    && Owns(cfg, s, step.proc, row)
  }

  function Failures(cfg: Config, steps: seq<Step>, row: RowId): nat
    decreases |steps|
  {
    if steps == [] then 0
    else
      var before := steps[..|steps| - 1];
      Failures(cfg, before, row) + if Fails(cfg, Run(cfg, before), steps[|steps| - 1], row) then 1 else 0
  }

  function AttemptsOf(s: State, row: RowId): nat {
    if row < |s.rows| then s.rows[row].attempts else 0
  }

  lemma OtherStepsKeepAttempts(cfg: Config, s: State, step: Step, row: RowId)
    requires !Fails(cfg, s, step, row)
    ensures AttemptsOf(Apply(cfg, s, step), row) == AttemptsOf(s, row)
  {
  }

  lemma FailureAddsOne(cfg: Config, s: State, step: Step, row: RowId)
    requires Fresh(cfg, s) && Fails(cfg, s, step, row)
    ensures AttemptsOf(Apply(cfg, s, step), row) == AttemptsOf(s, row) + 1
    ensures Apply(cfg, s, step).rows[row].status == if AttemptsOf(s, row) + 1 >= cfg.threshold then Dead else Failed
  {
    assert s.jobs[Job(step.proc, row)].attempts == s.rows[row].attempts;
  }

  /** Under distinct dispatcher ids the recorded attempts of a row are exactly the
      failures accepted for it: none is lost, none counted twice, whatever is
      reclaimed, retried or acknowledged in between. */
  lemma {:induction false} AttemptsCountFailures(cfg: Config, steps: seq<Step>, row: RowId)
    requires DistinctNames(cfg)
    ensures AttemptsOf(Run(cfg, steps), row) == Failures(cfg, steps, row)
    decreases |steps|
  {
    if steps != [] {
      var before := steps[..|steps| - 1];
      var s, step := Run(cfg, before), steps[|steps| - 1];
      AttemptsCountFailures(cfg, before, row);
      RunIsFresh(cfg, before);
      if Fails(cfg, s, step, row) {
        FailureAddsOne(cfg, s, step, row);
      } else {
        OtherStepsKeepAttempts(cfg, s, step, row);
      }
    }
  }

  // --------------------------------------------------------------------- dead or alive

  predicate FateSound(row: Row, threshold: nat) {
    && (row.status == Dead ==> row.attempts >= threshold)
    && (row.status == Failed ==> row.attempts < threshold)
  }

  predicate FatesSound(rows: seq<Row>, threshold: nat) {
    forall row :: 0 <= row < |rows| ==> FateSound(rows[row], threshold)
  }

  lemma StepKeepsFate(cfg: Config, s: State, step: Step)
    requires FatesSound(s.rows, cfg.threshold)
    ensures FatesSound(Apply(cfg, s, step).rows, cfg.threshold)
  {
  }

  lemma {:induction false} RunKeepsFate(cfg: Config, steps: seq<Step>)
    ensures FatesSound(Run(cfg, steps).rows, cfg.threshold)
    decreases |steps|
  {
    if steps != [] {
      RunKeepsFate(cfg, steps[..|steps| - 1]);
      StepKeepsFate(cfg, Run(cfg, steps[..|steps| - 1]), steps[|steps| - 1]);
    }
  }

  /** A row that has failed is given up exactly when the failures accepted for it have
      reached the threshold. */
  lemma DeadAtTheThreshold(cfg: Config, steps: seq<Step>, row: RowId)
    requires DistinctNames(cfg)
    requires row < |Run(cfg, steps).rows| && Run(cfg, steps).rows[row].status in {Failed, Dead}
    ensures Run(cfg, steps).rows[row].status == Dead <==> Failures(cfg, steps, row) >= cfg.threshold
  {
    RunKeepsFate(cfg, steps);
    AttemptsCountFailures(cfg, steps, row);
    assert FateSound(Run(cfg, steps).rows[row], cfg.threshold);
  }

  // ----------------------------------------------------------------- shared ids lose one

  lemma Next(cfg: Config, steps: seq<Step>, s: State, step: Step, s': State)
    requires Run(cfg, steps) == s && Apply(cfg, s, step) == s'
    ensures Run(cfg, steps + [step]) == s'
  {
    assert (steps + [step])[..|steps|] == steps;
  }

  lemma NextFailures(cfg: Config, steps: seq<Step>, step: Step, row: RowId)
    ensures Failures(cfg, steps + [step], row)
         == Failures(cfg, steps, row) + if Fails(cfg, Run(cfg, steps), step, row) then 1 else 0
  {
    assert (steps + [step])[..|steps|] == steps;
  }

  /** The broker refuses confirm mode, and with it the publication. */
  const REFUSED := P.Answers(false, P.SendError)

  const SILENT := P.Conn(false, [P.ConfirmRefused])

  lemma RefusedOnOpening(row: RowId)
    ensures P.Publish(P.Opened, row, REFUSED) == P.Published(SILENT, false)
  {
    assert P.Opened.frames + [P.ConfirmRefused] == SILENT.frames;
  }

  /** The process `p` claims the row and stalls. */
  function TwoClaims(p: ProcId, q: ProcId): seq<Step> {
    [Insert] + [Claim(p, 0, 0)] + [Claim(q, 0, 9)]
  }

  /** Another process takes the row over and fails, and an administrator has it tried
      again. */
  function TakenOver(p: ProcId, q: ProcId): seq<Step> {
    TwoClaims(p, q) + [Publish(q, 0, REFUSED)] + [Mark(q, 0, 20)] + [AdminRetry(0, 30)]
  }

  function BothClaim(cfg: Config, p: ProcId, q: ProcId): State {
    State([Row(Claiming, cfg.name(q), 0, 0, 9)], map[Job(p, 0) := Entry(0, Claimed), Job(q, 0) := Entry(0, Claimed)], {},
          map[])
  }

  function Stalled(p: ProcId, q: ProcId): State {
    State([Row(Pending, 0, 1, 30, 0)], map[Job(p, 0) := Entry(0, Claimed)], {}, map[q := SILENT])
  }

  lemma BothClaimRuns(cfg: Config, p: ProcId, q: ProcId)
    requires p != q
    ensures Run(cfg, TwoClaims(p, q)) == BothClaim(cfg, p, q) && Failures(cfg, TwoClaims(p, q), 0) == 0
  {
    var s1 := State([NewRow], map[], {}, map[]);
    var s2 := State([Row(Claiming, cfg.name(p), 0, 0, 0)], map[Job(p, 0) := Entry(0, Claimed)], {}, map[]);
    Next(cfg, [], Init, Insert, s1);
    assert [] + [Insert] == [Insert];
    Next(cfg, [Insert], s1, Claim(p, 0, 0), s2);
    Next(cfg, [Insert] + [Claim(p, 0, 0)], s2, Claim(q, 0, 9), BothClaim(cfg, p, q));
    NextFailures(cfg, [], Insert, 0);
    NextFailures(cfg, [Insert], Claim(p, 0, 0), 0);
    NextFailures(cfg, [Insert] + [Claim(p, 0, 0)], Claim(q, 0, 9), 0);
  }

  lemma TakenOverRuns(cfg: Config, p: ProcId, q: ProcId)
    requires p != q
    ensures Run(cfg, TakenOver(p, q)) == Stalled(p, q) && Failures(cfg, TakenOver(p, q), 0) == 1
  {
    BothClaimRuns(cfg, p, q);
    var t3 := TwoClaims(p, q);
    var t4 := t3 + [Publish(q, 0, REFUSED)];
    var t5 := t4 + [Mark(q, 0, 20)];
    var s3 := BothClaim(cfg, p, q);
    var s4 := s3.(jobs := map[Job(p, 0) := Entry(0, Claimed), Job(q, 0) := Entry(0, Errored)], conns := map[q := SILENT]);
    var s5 := State([AfterFailure(s3.rows[0], 0, cfg.threshold, 20)], map[Job(p, 0) := Entry(0, Claimed)], {},
                    map[q := SILENT]);
    RefusedOnOpening(0);
    assert PublishStep(s3, q, 0, REFUSED) == s4;
    Next(cfg, t3, s3, Publish(q, 0, REFUSED), s4);
    Next(cfg, t4, s4, Mark(q, 0, 20), s5);
    Next(cfg, t5, s5, AdminRetry(0, 30), Stalled(p, q));
    NextFailures(cfg, t3, Publish(q, 0, REFUSED), 0);
    NextFailures(cfg, t4, Mark(q, 0, 20), 0);
    NextFailures(cfg, t5, AdminRetry(0, 30), 0);
  }

  function LostFailure(p: ProcId, q: ProcId): seq<Step> {
    TakenOver(p, q) + [Claim(q, 0, 40)] + [Publish(p, 0, REFUSED)] + [Mark(p, 0, 50)]
  }

  /** The stalled process under the common id, while the row is claimed again. */
  function Overtaken(cfg: Config, p: ProcId, q: ProcId, phase: Phase): State {
    State([Row(Claiming, cfg.name(q), 1, 30, 40)], map[Job(p, 0) := Entry(0, phase), Job(q, 0) := Entry(1, Claimed)], {},
          if phase == Claimed then map[q := SILENT] else map[p := SILENT, q := SILENT])
  }

  lemma OvertakenRuns(cfg: Config, p: ProcId, q: ProcId)
    requires p != q
    ensures Run(cfg, TakenOver(p, q) + [Claim(q, 0, 40)] + [Publish(p, 0, REFUSED)]) == Overtaken(cfg, p, q, Errored)
    ensures Failures(cfg, TakenOver(p, q) + [Claim(q, 0, 40)] + [Publish(p, 0, REFUSED)], 0) == 1
  {
    TakenOverRuns(cfg, p, q);
    RefusedOnOpening(0);
    var s7 := Overtaken(cfg, p, q, Claimed);
    var t6 := TakenOver(p, q);
    var t7 := t6 + [Claim(q, 0, 40)];
    assert ClaimStep(cfg, Stalled(p, q), q, 0, 40) == s7;
    assert PublishStep(s7, p, 0, REFUSED) == Overtaken(cfg, p, q, Errored);
    Next(cfg, t6, Stalled(p, q), Claim(q, 0, 40), s7);
    Next(cfg, t7, s7, Publish(p, 0, REFUSED), Overtaken(cfg, p, q, Errored));
    NextFailures(cfg, t6, Claim(q, 0, 40), 0);
    NextFailures(cfg, t7, Publish(p, 0, REFUSED), 0);
  }

  /** Under a common id the row is claimed again, and the stalled process's failure
      overwrites the count it never read: two failures are accepted and one recorded. */
  lemma SharedIdLosesAFailure(cfg: Config, p: ProcId, q: ProcId)
    requires p != q && cfg.name(p) == cfg.name(q)
    ensures Failures(cfg, LostFailure(p, q), 0) == 2 && AttemptsOf(Run(cfg, LostFailure(p, q)), 0) == 1
  {
    OvertakenRuns(cfg, p, q);
    var t8 := TakenOver(p, q) + [Claim(q, 0, 40)] + [Publish(p, 0, REFUSED)];
    var s8 := Overtaken(cfg, p, q, Errored);
    Next(cfg, t8, s8, Mark(p, 0, 50), MarkStep(cfg, s8, p, 0, 50));
    NextFailures(cfg, t8, Mark(p, 0, 50), 0);
  }

  ghost predicate AlwaysCounts(cfg: Config) {
    forall steps, row :: AttemptsOf(Run(cfg, steps), row) == Failures(cfg, steps, row)
  }

  /** So the recorded attempts are the accepted failures in every run if and only if no
      two processes share a dispatcher id; a default id must not be used twice. */
  lemma CountsIffIdsAreDistinct(cfg: Config)
    ensures AlwaysCounts(cfg) <==> DistinctNames(cfg)
  {
    if DistinctNames(cfg) {
      forall steps, row ensures AttemptsOf(Run(cfg, steps), row) == Failures(cfg, steps, row) {
        AttemptsCountFailures(cfg, steps, row);
      }
    } else {
      var p, q :| cfg.name(p) == cfg.name(q) && p != q;
      SharedIdLosesAFailure(cfg, p, q);
      assert AttemptsOf(Run(cfg, LostFailure(p, q)), 0) != Failures(cfg, LostFailure(p, q), 0);
    }
  }
}
