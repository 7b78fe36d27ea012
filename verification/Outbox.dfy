/** A claim-based outbox table with any number of dispatcher processes, the broker's
    acknowledgements, stale reclaims at any time, crashes, and retries ordered by an
    administrator. */
module Outbox {
  import P = Publisher

  type RowId = nat
  type ProcId = nat
  type DispatcherId = nat

  datatype Status = Pending | Claiming | Published | Failed | Dead

  /** `claimedBy` 0 stands for SQL NULL; the two times are those of the next retry and
      of the current claim. */
  datatype Row = Row(status: Status, claimedBy: DispatcherId, attempts: nat, retryAt: int, claimedAt: int)

  const NewRow := Row(Pending, 0, 0, 0, 0)

  datatype Job = Job(proc: ProcId, row: RowId)

  datatype Phase = Claimed | Acked | Errored

  /** What a process remembers of a row it claimed: the attempts it read. */
  datatype Entry = Entry(attempts: nat, phase: Phase)

  /** Under which dispatcher id each process runs, and after how many attempts a row is
      given up. */
  datatype Config = Config(name: ProcId -> DispatcherId, threshold: nat)

  /** The id of a row is its index, and that of its message. `conns` holds the channel
      of each process, `acked` the rows a process was told were acknowledged. */
  datatype State = State(rows: seq<Row>, jobs: map<Job, Entry>, acked: set<RowId>, conns: map<ProcId, P.Conn>)

  const Init := State([], map[], {}, map[])

  datatype Step =
    | Insert
    | Claim(proc: ProcId, row: RowId, now: int)
    | Publish(proc: ProcId, row: RowId, answers: P.Answers)
    | Mark(proc: ProcId, row: RowId, retryAt: int)
    | Abandon(proc: ProcId)
    | Crash(proc: ProcId)
    | AdminRetry(row: RowId, now: int)

  predicate Open(row: Row) { row.status != Published && row.status != Dead }

  /** ClaimPending, one row of the batch. A process claims afresh only rows it is not
      already working on. */
  function ClaimStep(cfg: Config, s: State, proc: ProcId, row: RowId, now: int): State {
    if row >= |s.rows| || !Open(s.rows[row]) || Job(proc, row) in s.jobs then s
    else
      var claimed := s.rows[row].(status := Claiming, claimedBy := cfg.name(proc), claimedAt := now);
      s.(rows := s.rows[row := claimed], jobs := s.jobs[Job(proc, row) := Entry(s.rows[row].attempts, Claimed)])
  }

  function ConnOf(s: State, proc: ProcId): P.Conn {
    if proc in s.conns then s.conns[proc] else P.Opened
  }

  /** The handler: whether it succeeds is for the publisher to say. */
  function PublishStep(s: State, proc: ProcId, row: RowId, answers: P.Answers): State {
    var job := Job(proc, row);
    if job !in s.jobs || s.jobs[job].phase != Claimed then s
    else
      var p := P.Publish(ConnOf(s, proc), row, answers);
      s.(jobs := s.jobs[job := s.jobs[job].(phase := if p.ok then Acked else Errored)],
         acked := if p.ok then s.acked + {row} else s.acked,
         conns := s.conns[proc := p.conn])
  }

  predicate Owns(cfg: Config, s: State, proc: ProcId, row: RowId) {
    row < |s.rows| && s.rows[row].status == Claiming && s.rows[row].claimedBy == cfg.name(proc)
  }

  /** The row after a failure reported by a process that had read `attempts`. */
  function AfterFailure(row: Row, attempts: nat, threshold: nat, retryAt: int): Row {
    var dead := attempts + 1 >= threshold;
    Row(if dead then Dead else Failed, 0, attempts + 1, if dead then 0 else retryAt, 0)
  }

  function AfterSuccess(row: Row): Row {
    row.(status := Published, claimedBy := 0, retryAt := 0, claimedAt := 0)
  }

  /** MarkPublished or MarkFailed: only the claim's owner changes the row. */
  function MarkStep(cfg: Config, s: State, proc: ProcId, row: RowId, retryAt: int): State {
    var job := Job(proc, row);
    if job !in s.jobs || s.jobs[job].phase == Claimed then s
    else
      var done := s.(jobs := s.jobs - {job});
      if !Owns(cfg, s, proc, row) then done
      else done.(rows := s.rows[row := if s.jobs[job].phase == Acked then AfterSuccess(s.rows[row])
                                       else AfterFailure(s.rows[row], s.jobs[job].attempts, cfg.threshold, retryAt)])
  }

  /** A process leaves the rest of its batch: the claims stay until they are stale. */
  function AbandonStep(s: State, proc: ProcId): State {
    s.(jobs := map job | job in s.jobs && job.proc != proc :: s.jobs[job])
  }

  /** A process dies and its channel with it; started again, it opens another. */
  function CrashStep(s: State, proc: ProcId): State {
    AbandonStep(s, proc).(conns := s.conns - {proc})
  }

  function RetryStep(s: State, row: RowId, now: int): State {
    if row >= |s.rows| || (s.rows[row].status != Failed && s.rows[row].status != Dead) then s
    else s.(rows := s.rows[row := Row(Pending, 0, s.rows[row].attempts, now, 0)])
  }

  function Apply(cfg: Config, s: State, step: Step): State {
    match step
    case Insert => s.(rows := s.rows + [NewRow])
    case Claim(proc, row, now) => ClaimStep(cfg, s, proc, row, now)
    case Publish(proc, row, answers) => PublishStep(s, proc, row, answers)
    case Mark(proc, row, retryAt) => MarkStep(cfg, s, proc, row, retryAt)
    case Abandon(proc) => AbandonStep(s, proc)
    case Crash(proc) => CrashStep(s, proc)
    case AdminRetry(row, now) => RetryStep(s, row, now)
  }

  function Run(cfg: Config, steps: seq<Step>): State
    decreases |steps|
  {
    if steps == [] then Init else Apply(cfg, Run(cfg, steps[..|steps| - 1]), steps[|steps| - 1])
  }
}
