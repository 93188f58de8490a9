/** Many workers, one configuration row: what `get_vault_service` returns, and how old it can be.

    In each worker a lock admits one operation at a time. A sync stamps the time first and then reads
    the row; configuring and disabling write the row first, then apply it, then stamp the time. */
module VaultSync {
  import opened Common
  import opened DiffWrite
  import opened VaultConfig

  const SYNC_INTERVAL := 30

  /** What the holder of a worker's lock is at. `at` is when it read or wrote the row. */
  datatype Phase = Free | Stamped | HasRead(at: int, row: Option<Row>) | HasWritten(at: int, written: Row)

  /** `asOf` remembers for the proofs when the row was last read or written for what is in force. */
  datatype Worker = Worker(svc: Option<Service>, lastSync: int, phase: Phase, asOf: Option<int>)

  datatype State = State(now: int, env: Option<Config>, row: Option<Row>, workers: map<nat, Worker>, nextId: nat)

  datatype Step =
    | Tick(to: int)
    | StartWorker(w: nat)                 // the forced sync at startup has stamped
    | SyncStart(w: nat)
    | ReadRow(w: nat)
    | ReadFails(w: nat)
    | ApplyRow(w: nat)
    | WriteRow(w: nat, row: Row)          // configure or disable: the row is committed
    | ApplyOwn(w: nat)                    // and applied, and the time stamped
    | Serve(w: nat)                       // `get_vault_service` without a sync

  predicate Enabled(s: State, step: Step) {
    match step
    case Tick(to) => s.now <= to
    case StartWorker(w) => w !in s.workers
    case SyncStart(w) => w in s.workers && s.workers[w].phase.Free? && s.now - s.workers[w].lastSync >= SYNC_INTERVAL
    case ReadRow(w) => w in s.workers && s.workers[w].phase.Stamped?
    case ReadFails(w) => w in s.workers && s.workers[w].phase.Stamped?
    case ApplyRow(w) => w in s.workers && s.workers[w].phase.HasRead?
    case WriteRow(w, _) => w in s.workers && s.workers[w].phase.Free?
    case ApplyOwn(w) => w in s.workers && s.workers[w].phase.HasWritten?
    case Serve(w) => w in s.workers && s.workers[w].phase.Free? && s.now - s.workers[w].lastSync < SYNC_INTERVAL
  }

  function With(s: State, w: nat, worker: Worker): State {
    s.(workers := s.workers[w := worker])
  }

  function Apply(s: State, step: Step): State
    requires Enabled(s, step)
  {
    match step
    case Tick(to) => s.(now := to)
    case StartWorker(w) => With(s, w, Worker(None, s.now, Stamped, None))
    case SyncStart(w) => With(s, w, s.workers[w].(lastSync := s.now, phase := Stamped))
    case ReadRow(w) => With(s, w, s.workers[w].(phase := HasRead(s.now, s.row)))
    case ReadFails(w) =>
      var svc := s.workers[w].svc;
      With(s, w, s.workers[w].(svc := if svc.None? then Applied(None, Usable(s.env), s.nextId) else svc, phase := Free))
        .(nextId := s.nextId + 1)
    case ApplyRow(w) =>
      var worker := s.workers[w];
      With(s, w, worker.(svc := Applied(worker.svc, Effective(worker.phase.row, s.env), s.nextId), phase := Free,
                         asOf := Some(worker.phase.at))).(nextId := s.nextId + 1)
    case WriteRow(w, row) => With(s, w, s.workers[w].(phase := HasWritten(s.now, row))).(row := Some(row))
    case ApplyOwn(w) =>
      var worker := s.workers[w];
      With(s, w, worker.(svc := Applied(worker.svc, Effective(Some(worker.phase.written), s.env), s.nextId),
                         phase := Free,
                         lastSync := s.now, asOf := Some(worker.phase.at))).(nextId := s.nextId + 1)
    case Serve(_) => s
  }

  datatype Run = Run(states: seq<State>, steps: seq<Step>)

  predicate StepAt(r: Run, n: nat) {
    && n < |r.steps| && n + 1 < |r.states|
    && Enabled(r.states[n], r.steps[n]) && r.states[n + 1] == Apply(r.states[n], r.steps[n])
  }

  predicate IsRun(r: Run) {
    && |r.states| == |r.steps| + 1 && r.states[0].workers == map[]
    && forall n: nat | n < |r.steps| :: StepAt(r, n)
  }

  ghost predicate ReadsSucceed(r: Run) {
    forall n: nat | n < |r.steps| :: !r.steps[n].ReadFails?
  }

  predicate Prompt(r: Run, n: nat, d: int)
    requires StepAt(r, n)
  {
    r.steps[n].ApplyOwn? ==> r.states[n].now - r.states[n].workers[r.steps[n].w].phase.at <= d
  }

  /** No worker takes longer than `d` from committing its own change to stamping the time. */
  ghost predicate WritesPrompt(r: Run, d: int) {
    forall n: nat | n < |r.steps| && StepAt(r, n) :: Prompt(r, n, d)
  }

  // ── What every worker's service goes back to ──────────────────────────────────────────

  predicate InForceAt(r: Run, j: nat, at: int, effective: Option<Config>) {
    j < |r.states| && r.states[j].now == at && Effective(r.states[j].row, r.states[j].env) == effective
  }

  /** What a worker has read or written, and what it has in force, was in effect at those times. */
  lemma {:induction false} ServiceOrigin(r: Run, n: nat, w: nat) returns (j: nat, k: nat)
    requires IsRun(r) && ReadsSucceed(r) && n < |r.states|
    ensures j <= n && k <= n && r.states[n].env == r.states[0].env
    ensures w in r.states[n].workers ==>
              var worker := r.states[n].workers[w];
              && (worker.asOf.Some? ==> InForceAt(r, j, worker.asOf.value, ConfigOf(worker.svc)))
              && (worker.asOf.None? ==> worker.svc.None? && !worker.phase.Free?)
              && match worker.phase
                 case HasRead(at, row) => InForceAt(r, k, at, Effective(row, r.states[n].env))
                 case HasWritten(at, row) => InForceAt(r, k, at, Effective(Some(row), r.states[n].env))
                 case _ => true
  {
    hide Effective, Applied, ConfigOf, Usable;
    j, k := 0, 0;
    if n > 0 {
      assert StepAt(r, n - 1);
      j, k := ServiceOrigin(r, n - 1, w);
      match r.steps[n - 1]
      case ReadRow(v) => if v == w { k := n - 1; }
      case WriteRow(v, _) => if v == w { k := n; }
      case ApplyRow(v) => if v == w { j := k; }
      case ApplyOwn(v) => if v == w { j := k; }
      case _ =>
    }
  }

  /** A worker's stamp is at most `d` after the moment its service goes back to. */
  ghost predicate Stamps(s: State, d: int) {
    forall w <- s.workers ::
      var worker := s.workers[w];
      && worker.lastSync <= s.now
      && (worker.phase.Free? && worker.asOf.Some? ==> worker.lastSync <= worker.asOf.value + d)
      && (worker.phase.HasRead? ==> worker.lastSync <= worker.phase.at <= s.now)
      && (worker.phase.HasWritten? ==> worker.phase.at <= s.now)
  }

  lemma StepKeepsStamps(s: State, step: Step, s': State, d: int)
    requires Stamps(s, d) && d >= 0 && Enabled(s, step) && s' == Apply(s, step) && !step.ReadFails?
    requires step.ApplyOwn? ==> s.now - s.workers[step.w].phase.at <= d
    ensures Stamps(s', d)
  {
  }

  lemma {:induction false} StampsOverRun(r: Run, d: int, n: nat)
    requires IsRun(r) && ReadsSucceed(r) && WritesPrompt(r, d) && d >= 0 && n < |r.states|
    ensures Stamps(r.states[n], d)
  {
    if n > 0 {
      StampsOverRun(r, d, n - 1);
      assert StepAt(r, n - 1);
      StepKeepsStamps(r.states[n - 1], r.steps[n - 1], r.states[n], d);
    }
  }

  /** While reads succeed, every service handed out is for the config in effect less than 30 seconds
      ago, plus the time a worker takes between committing a change and stamping it. */
  lemma ServedIsFresh(r: Run, n: nat, w: nat, d: int) returns (j: nat)
    requires IsRun(r) && ReadsSucceed(r) && WritesPrompt(r, d) && d >= 0
    requires n < |r.states| && Enabled(r.states[n], Serve(w))
    ensures j <= n && Effective(r.states[j].row, r.states[j].env) == ConfigOf(r.states[n].workers[w].svc)
    ensures r.states[n].now - r.states[j].now < 30 + d
  {
    StampsOverRun(r, d, n);
    var k, _ := ServiceOrigin(r, n, w);
    j := k;
  }

  /** A sync of worker `w` that began at step `b` holds the worker's lock up to moment `n`. */
  ghost predicate SyncUnderWay(r: Run, b: nat, n: nat, w: nat) {
    && b < n < |r.states| && b < |r.steps| && (r.steps[b] == SyncStart(w) || r.steps[b] == StartWorker(w))
    && forall q | b < q <= n ::
         w in r.states[q].workers && (r.states[q].workers[w].phase.Stamped? || r.states[q].workers[w].phase.HasRead?)
  }

  /** The sync under way began at step `b`, and what it has read it read at a step `k` after that. */
  lemma {:induction false} SyncOrigin(r: Run, n: nat, w: nat) returns (b: nat, k: nat)
    requires IsRun(r) && n < |r.states| && w in r.states[n].workers
    requires r.states[n].workers[w].phase.Stamped? || r.states[n].workers[w].phase.HasRead?
    ensures SyncUnderWay(r, b, n, w)
    ensures var phase := r.states[n].workers[w].phase;
            phase.HasRead? ==>
              && b < k < n && r.steps[k] == ReadRow(w) && r.states[k].now == phase.at && r.states[k].row == phase.row
              && r.states[k].env == r.states[n].env
  {
    hide Effective, Applied, Usable;
    assert StepAt(r, n - 1);
    if r.steps[n - 1] == SyncStart(w) || r.steps[n - 1] == StartWorker(w) {
      b, k := n - 1, 0;
    } else {
      b, k := SyncOrigin(r, n - 1, w);
      if r.steps[n - 1] == ReadRow(w) {
        k := n - 1;
      }
    }
  }

  /** A caller that waits for a sync gets what was in effect at a step of this very sync, whatever
      reads of other syncs have failed. */
  lemma SyncedIsCurrent(r: Run, n: nat, w: nat) returns (b: nat, j: nat)
    requires IsRun(r) && n < |r.steps| && StepAt(r, n) && r.steps[n] == ApplyRow(w)
    ensures SyncUnderWay(r, b, n, w) && b < j < n && r.steps[j] == ReadRow(w)
    ensures r.states[j].now == r.states[n].workers[w].phase.at
    ensures ConfigOf(r.states[n + 1].workers[w].svc) == Effective(r.states[j].row, r.states[j].env)
  {
    b, j := SyncOrigin(r, n, w);
  }

  predicate OfWorker(step: Step, w: nat) {
    !step.Tick? && step.w == w
  }

  /** While a sync of a worker is under way the worker does nothing but read the row. */
  lemma OneAtATime(r: Run, b: nat, n: nat, w: nat, q: nat)
    requires IsRun(r) && SyncUnderWay(r, b, n, w) && b < q < n && OfWorker(r.steps[q], w)
    ensures r.steps[q] == ReadRow(w)
  {
    assert StepAt(r, q);
  }

  /** And while it changes the row, nothing else. */
  lemma ChangeAlone(r: Run, b: nat, q: nat, w: nat)
    requires IsRun(r) && b < q < |r.steps| && r.steps[b].WriteRow? && r.steps[b].w == w && OfWorker(r.steps[q], w)
    requires forall k | b < k < q :: !OfWorker(r.steps[k], w)
    ensures r.steps[q] == ApplyOwn(w)
  {
    assert StepAt(r, b);
    Idle(r, b + 1, q, w);
    assert StepAt(r, q);
  }

  lemma {:induction false} Idle(r: Run, i: nat, n: nat, w: nat)
    requires IsRun(r) && i <= n < |r.states| && w in r.states[i].workers
    requires forall k | i <= k < n :: !OfWorker(r.steps[k], w)
    ensures w in r.states[n].workers && r.states[n].workers[w] == r.states[i].workers[w]
    decreases n
  {
    if i < n {
      Idle(r, i, n - 1, w);
      assert StepAt(r, n - 1);
    }
  }

  lemma {:induction false} StampGoesOn(r: Run, i: nat, n: nat, w: nat)
    requires IsRun(r) && i <= n < |r.states| && w in r.states[i].workers
    requires r.states[i].workers[w].lastSync <= r.states[i].now
    ensures w in r.states[n].workers && r.states[i].workers[w].lastSync <= r.states[n].workers[w].lastSync
    ensures r.states[n].workers[w].lastSync <= r.states[n].now
    decreases n
  {
    if i < n {
      StampGoesOn(r, i, n - 1, w);
      assert StepAt(r, n - 1);
    }
  }

  /** A worker syncs of itself at most once in 30 seconds. */
  lemma SyncsApart(r: Run, i: nat, j: nat, w: nat)
    requires IsRun(r) && i < j < |r.steps| && r.steps[i] == SyncStart(w) && r.steps[j] == SyncStart(w)
    ensures r.states[j].now >= r.states[i].now + 30
  {
    assert StepAt(r, i) && StepAt(r, j);
    StampGoesOn(r, i + 1, j, w);
  }

  // ── The environment and the row ───────────────────────────────────────────────────────

  /** Once a row has been written there always is one; and the clock goes on. */
  lemma {:induction false} RowStays(r: Run, i: nat, n: nat)
    requires IsRun(r) && i <= n < |r.states|
    ensures r.states[i].row.Some? ==> r.states[n].row.Some?
    ensures r.states[i].now <= r.states[n].now
  {
    if i < n {
      RowStays(r, i, n - 1);
      assert StepAt(r, n - 1);
    }
  }

  /** So while reads succeed the environment does not come back: some 30 seconds after the first
      change at run time, what any worker serves is a row's config. */
  lemma EnvironmentStaysOut(r: Run, i: nat, n: nat, w: nat, d: int) returns (j: nat)
    requires IsRun(r) && ReadsSucceed(r) && WritesPrompt(r, d) && d >= 0
    requires i <= n < |r.states| && r.states[i].row.Some? && Enabled(r.states[n], Serve(w))
    requires r.states[n].now >= r.states[i].now + 30 + d
    ensures i < j <= n && r.states[j].row.Some?
    ensures ConfigOf(r.states[n].workers[w].svc) == Effective(r.states[j].row, None)
  {
    j := ServedIsFresh(r, n, w, d);
    if j <= i {
      RowStays(r, j, i);
      assert false;
    }
    RowStays(r, i, j);
  }

  /** What this worker has read, written or in force is the disabled row. */
  predicate Off(s: State, w: nat) {
    && s.row == Some(Disabled) && w in s.workers
    && match s.workers[w].phase
       case Free => s.workers[w].svc.None?
       case Stamped => s.workers[w].svc.None?
       case HasRead(_, row) => row == Some(Disabled)
       case HasWritten(_, written) => written == Disabled
  }

  /** Disabling takes hold at once in the worker that does it and is not undone there, by the
      environment or otherwise, for as long as nobody configures anything and reads succeed. */
  lemma {:induction false} DisabledStaysOff(r: Run, w: nat, i: nat, n: nat)
    requires IsRun(r) && ReadsSucceed(r) && i < n < |r.states|
    requires StepAt(r, i) && r.steps[i] == WriteRow(w, Disabled)
    requires forall k | i < k <= n :: r.states[k].row == Some(Disabled)
    ensures Off(r.states[n], w)
    ensures Enabled(r.states[n], Serve(w)) ==> r.states[n].workers[w].svc.None?
  {
    if n > i + 1 {
      DisabledStaysOff(r, w, i, n - 1);
      assert StepAt(r, n - 1);
      assert r.states[n - 1].row == Some(Disabled) == r.states[n].row;
    }
  }

  /** A failed read changes what is in force exactly when nothing is and the environment has a
      usable config: so it can undo a disable. */
  lemma FailedReadUndoesIff(s: State, w: nat)
    requires Enabled(s, ReadFails(w))
    ensures Apply(s, ReadFails(w)).workers[w].svc != s.workers[w].svc <==> s.workers[w].svc.None? && Usable(s.env).Some?
    ensures s.workers[w].svc.None? ==> ConfigOf(Apply(s, ReadFails(w)).workers[w].svc) == Usable(s.env)
  {
  }

  // ── Whole calls ───────────────────────────────────────────────────────────────────────

  function Last(r: Run): State
    requires |r.states| == |r.steps| + 1
  {
    r.states[|r.steps|]
  }

  function Extend(r: Run, step: Step): (r': Run)
    requires IsRun(r) && Enabled(Last(r), step)
    ensures IsRun(r') && Last(r') == Apply(Last(r), step)
    ensures r'.steps == r.steps + [step] && r.states <= r'.states
  {
    var r' := Run(r.states + [Apply(Last(r), step)], r.steps + [step]);
    assert forall n: nat | n < |r.steps| :: StepAt(r, n) ==> StepAt(r', n);
    r'
  }

  /** A worker after an undisturbed sync at time `now`. */
  function Synced(worker: Worker, row: Option<Row>, env: Option<Config>, now: int, id: nat): Worker {
    Worker(Applied(worker.svc, Effective(row, env), id), now, Free, Some(now))
  }

  /** After a sync that could not read the row. */
  function SyncFailed(worker: Worker, env: Option<Config>, now: int, id: nat): Worker {
    worker.(svc := if worker.svc.None? then Applied(None, Usable(env), id) else worker.svc, lastSync := now,
            phase := Free)
  }

  /** After it has written `row` at time `at` and stamped the time at `stamp`. */
  function Changed(worker: Worker, row: Row, env: Option<Config>, at: int, stamp: int, id: nat): Worker {
    Worker(Applied(worker.svc, Effective(Some(row), env), id), stamp, Free, Some(at))
  }

  predicate Due(s: State, w: nat) {
    Enabled(s, SyncStart(w))
  }

  /** `e` goes on from `r` with these steps. */
  predicate Extends(r: Run, e: Run, steps: seq<Step>) {
    IsRun(r) && IsRun(e) && e.steps == r.steps + steps && r.states <= e.states
  }

  /** What the theorems ask of a run carries over if the added steps meet it. */
  lemma TermsCarryOver(r: Run, e: Run, steps: seq<Step>)
    requires Extends(r, e, steps)
    ensures ReadsSucceed(r) && (forall step <- steps :: !step.ReadFails?) ==> ReadsSucceed(e)
    ensures forall d | WritesPrompt(r, d)
              && (forall n: nat | |r.steps| <= n < |e.steps| && StepAt(e, n) :: Prompt(e, n, d)) :: WritesPrompt(e, d)
  {
    assert forall n: nat | n < |r.steps| :: StepAt(r, n) && e.steps[n] == r.steps[n] && e.states[n] == r.states[n];
    forall d | WritesPrompt(r, d)
        && (forall n: nat | |r.steps| <= n < |e.steps| && StepAt(e, n) :: Prompt(e, n, d))
      ensures WritesPrompt(e, d)
    {
      forall n: nat | n < |e.steps| && StepAt(e, n) ensures Prompt(e, n, d) {
        if n < |r.steps| { assert Prompt(r, n, d); }
      }
    }
  }

  /** A sync makes of any run a longer one, by the steps start, read, apply, to which all that holds
      of runs applies. */
  lemma SyncIsARun(r: Run, w: nat) returns (e: Run)
    requires IsRun(r) && Due(Last(r), w)
    ensures Extends(r, e, [SyncStart(w), ReadRow(w), ApplyRow(w)])
    ensures var s := Last(r);
            Last(e) == With(s, w, Synced(s.workers[w], s.row, s.env, s.now, s.nextId)).(nextId := s.nextId + 1)
    ensures ReadsSucceed(r) ==> ReadsSucceed(e)
    ensures forall d | WritesPrompt(r, d) :: WritesPrompt(e, d)
  {
    hide Effective, Applied, Usable;
    e := Extend(Extend(Extend(r, SyncStart(w)), ReadRow(w)), ApplyRow(w));
    TermsCarryOver(r, e, [SyncStart(w), ReadRow(w), ApplyRow(w)]);
  }

  lemma FailedSyncIsARun(r: Run, w: nat) returns (e: Run)
    requires IsRun(r) && Due(Last(r), w)
    ensures Extends(r, e, [SyncStart(w), ReadFails(w)])
    ensures var s := Last(r);
            Last(e) == With(s, w, SyncFailed(s.workers[w], s.env, s.now, s.nextId)).(nextId := s.nextId + 1)
    ensures forall d | WritesPrompt(r, d) :: WritesPrompt(e, d)
  {
    hide Effective, Applied, Usable;
    e := Extend(Extend(r, SyncStart(w)), ReadFails(w));
    TermsCarryOver(r, e, [SyncStart(w), ReadFails(w)]);
  }

  /** Configuring or disabling likewise, by write, apply and stamp, with any time in between. */
  lemma ChangeIsARun(r: Run, w: nat, row: Row, stamp: int) returns (e: Run)
    requires IsRun(r) && Enabled(Last(r), WriteRow(w, row)) && Last(r).now <= stamp
    ensures Extends(r, e, [WriteRow(w, row), Tick(stamp), ApplyOwn(w)])
    ensures var s := Last(r);
            Last(e) == With(s, w, Changed(s.workers[w], row, s.env, s.now, stamp, s.nextId))
                       .(row := Some(row), now := stamp, nextId := s.nextId + 1)
    ensures ReadsSucceed(r) ==> ReadsSucceed(e)
    ensures forall d | WritesPrompt(r, d) && stamp - Last(r).now <= d :: WritesPrompt(e, d)
  {
    hide Effective, Applied, Usable;
    e := Extend(Extend(Extend(r, WriteRow(w, row)), Tick(stamp)), ApplyOwn(w));
    TermsCarryOver(r, e, [WriteRow(w, row), Tick(stamp), ApplyOwn(w)]);
  }

  // ── Runs that show the limits ─────────────────────────────────────────────────────────

  /** One worker, with the integration disabled at run time and a sync under way. */
  lemma DisabledWorker(env: Option<Config>) returns (r: Run)
    ensures IsRun(r) && ReadsSucceed(r)
    ensures var s := Last(r);
            s.env == env && s.row == Some(Disabled) && 0 in s.workers && s.workers[0].svc.None?
                && s.workers[0].phase.Stamped?
            && s.now - s.workers[0].lastSync < SYNC_INTERVAL
  {
    r := Extend(Run([State(0, env, Some(Disabled), map[], 0)], []), StartWorker(0));
  }

  /** The run ends with the integration disabled in the table and worker 0 serving `cfg`. */
  predicate ServesThoughDisabled(r: Run, cfg: Option<Config>) {
    && IsRun(r) && Last(r).row == Some(Disabled)
    && Enabled(Last(r), Serve(0)) && ConfigOf(Last(r).workers[0].svc) == cfg
  }

  /** With the integration disabled and a usable config in the environment, one failed read brings
      the service back, for the next 30 seconds. */
  lemma FailedReadUndoesDisable(env: Option<Config>) returns (r: Run)
    requires Usable(env).Some?
    ensures ServesThoughDisabled(r, Usable(env))
  {
    hide Usable;
    r := DisabledWorker(env);
    r := Extend(r, ReadFails(0));
  }

  /** A run without failed reads, with stamps at most `d` after the commit, in which the integration
      is disabled in the table after time 0. */
  ghost predicate DisabledAfter0(r: Run, d: int) {
    && IsRun(r) && ReadsSucceed(r) && WritesPrompt(r, d)
    && forall n: nat | n < |r.states| && r.states[n].now > 0 :: r.states[n].row == Some(Disabled)
  }

  lemma ExtendDisabled(r: Run, d: int, step: Step) returns (e: Run)
    requires DisabledAfter0(r, d) && Enabled(Last(r), step) && !step.ReadFails?
    requires step.ApplyOwn? ==> Last(r).now - Last(r).workers[step.w].phase.at <= d
    requires Apply(Last(r), step).now > 0 ==> Apply(Last(r), step).row == Some(Disabled)
    ensures DisabledAfter0(e, d) && Last(e) == Apply(Last(r), step)
  {
    e := Extend(r, step);
    TermsCarryOver(r, e, [step]);
  }

  lemma FreshWorker(r: Run, d: int, w: nat) returns (e: Run)
    requires DisabledAfter0(r, d) && Last(r).row == Some(Disabled) && w !in Last(r).workers
    ensures DisabledAfter0(e, d)
    ensures var s := Last(r); Last(e) == With(s, w, Worker(None, s.now, Free, Some(s.now))).(nextId := s.nextId + 1)
  {
    e := ExtendDisabled(r, d, StartWorker(w));
    e := ExtendDisabled(e, d, ReadRow(w));
    e := ExtendDisabled(e, d, ApplyRow(w));
  }

  /** Two workers have written at time 0, first one that enables and then one that disables. */
  lemma TwoWriters(cfg: Config, d: nat) returns (r: Run)
    ensures DisabledAfter0(r, d)
    ensures Last(r) == State(0, None, Some(Disabled), map[
      0 := Worker(None, 0, HasWritten(0, Row.Enabled(cfg)), Some(0)),
      1 := Worker(None, 0, HasWritten(0, Disabled), Some(0))], 2)
  {
    r := Run([State(0, None, Some(Disabled), map[], 0)], []);
    r := FreshWorker(r, d, 0);
    r := FreshWorker(r, d, 1);
    r := ExtendDisabled(r, d, WriteRow(0, Row.Enabled(cfg)));
    r := ExtendDisabled(r, d, WriteRow(1, Disabled));
  }

  /** Another worker disables the integration between this worker's write and its stamp: the service
      stays in force for the whole interval after the stamp, however late that comes. */
  lemma LateStampKeepsOld(cfg: Config, d: nat) returns (r: Run)
    requires Usable(Some(cfg)).Some?
    ensures ServesThoughDisabled(r, Usable(Some(cfg))) && DisabledAfter0(r, d) && Last(r).now == d + 29
  {
    hide Usable;
    r := TwoWriters(cfg, d);
    r := ExtendDisabled(r, d, Tick(d));
    r := ExtendDisabled(r, d, ApplyOwn(0));
    r := ExtendDisabled(r, d, Tick(d + SYNC_INTERVAL - 1));
  }
}
