/** The sliding-window limiter of login attempts, first with concurrent checks, then alone.

    Every check is a transaction of its own: it prunes the expired attempts of its IP, counts what
    is left, and if there is room inserts an attempt stamped with the clock it read at the start.
    Nothing is locked, so other checks may run between the count and the commit. */
module LoginLimiter {
  import opened Common

  const LIMIT := 10
  const WINDOW := 300

  type Id = nat

  datatype Attempt = Attempt(ip: string, at: int)

  /** `pruned` are the rows this transaction has deleted, which others see until it commits. */
  datatype Call = Call(ip: string, now: int, pruned: set<Id>, counted: bool, admitted: bool)

  /** `log` remembers every accepted attempt for the proofs, and `clocks` for each IP the latest clock
      reading of a check that has counted. */
  datatype State = State(rows: map<Id, Attempt>, calls: map<Id, Call>, log: map<Id, Attempt>, clocks: map<string, int>)

  datatype Step = Prune(id: Id, ip: string, now: int) | Count(id: Id) | Commit(id: Id) | Crash(id: Id)

  function Expired(rows: map<Id, Attempt>, ip: string, now: int): set<Id> {
    set id | id in rows && rows[id].ip == ip && rows[id].at < now - WINDOW
  }

  function Of(rows: map<Id, Attempt>, ip: string): set<Id> {
    set id | id in rows && rows[id].ip == ip
  }

  /** The attempts of `ip` in the closed interval of length `span` that starts at `from`. */
  function Within(log: map<Id, Attempt>, ip: string, from: int, span: int): set<Id> {
    set id | id in log && log[id].ip == ip && from <= log[id].at <= from + span
  }

  /** The clock of `ip` after a check that read `now` has counted. */
  function Latest(clocks: map<string, int>, ip: string, now: int): int {
    if ip in clocks && clocks[ip] > now then clocks[ip] else now
  }

  predicate Enabled(s: State, step: Step) {
    match step
    case Prune(id, _, _) => id !in s.calls && id !in s.log
    case Count(id) => id in s.calls && !s.calls[id].counted
    case Commit(id) => id in s.calls && s.calls[id].counted
    case Crash(id) => id in s.calls
  }

  function Apply(s: State, step: Step): State
    requires Enabled(s, step)
  {
    match step
    case Prune(id, ip, now) => s.(calls := s.calls[id := Call(ip, now, Expired(s.rows, ip, now), false, false)])
    case Count(id) =>
      var c := s.calls[id];
      s.(calls := s.calls[id := c.(counted := true, admitted := |Of(s.rows, c.ip) - c.pruned| < LIMIT)],
         clocks := s.clocks[c.ip := Latest(s.clocks, c.ip, c.now)])
    case Commit(id) =>
      var c := s.calls[id];
      var kept := s.rows - c.pruned;
      if c.admitted then
        s.(rows := kept[id := Attempt(c.ip, c.now)], calls := s.calls - {id}, log := s.log[id := Attempt(c.ip, c.now)])
      else s.(rows := kept, calls := s.calls - {id})
    case Crash(id) => s.(calls := s.calls - {id})
  }

  datatype Run = Run(states: seq<State>, steps: seq<Step>)

  predicate StepAt(r: Run, n: nat) {
    && n < |r.steps| && n + 1 < |r.states|
    && Enabled(r.states[n], r.steps[n]) && r.states[n + 1] == Apply(r.states[n], r.steps[n])
  }

  predicate IsRun(r: Run) {
    && |r.states| == |r.steps| + 1
    && r.states[0] == State(map[], map[], map[], map[])
    && forall n: nat | n < |r.steps| :: StepAt(r, n)
  }

  /** Checks of `ip` that have counted and found room, but not committed. */
  function Pending(s: State, ip: string): set<Id> {
    set id | id in s.calls && s.calls[id].ip == ip && s.calls[id].counted && s.calls[id].admitted
  }

  /** If this check is one of `ip`, its count comes at most `d` late in clock order. */
  predicate OnTime(s: State, step: Step, ip: string, d: nat)
    requires Enabled(s, step)
  {
    step.Count? && s.calls[step.id].ip == ip && ip in s.clocks ==> s.clocks[ip] - d <= s.calls[step.id].now
  }

  /** The counts of `ip` are out of clock order by at most `d`, and at most `k` admitted checks of
      `ip` are between count and commit at a time. Other IPs are free. */
  ghost predicate InOrder(r: Run, ip: string, d: nat, k: nat) {
    && (forall n: nat | n < |r.steps| && StepAt(r, n) :: OnTime(r.states[n], r.steps[n], ip, d))
    && (forall n: nat | n < |r.states| :: |Pending(r.states[n], ip)| <= k)
  }

  // ── The bound ─────────────────────────────────────────────────────────────────────────

  function PendingWithin(s: State, ip: string, from: int, span: int): set<Id> {
    set id | id in Pending(s, ip) && from <= s.calls[id].now <= from + span
  }

  /** What the counts can still see: nothing accepted within the window before the latest count of
      its IP has been pruned, nor is about to be by a check that has counted. */
  ghost predicate Visible(s: State) {
    && (forall id <- s.rows :: id in s.log && s.rows[id] == s.log[id])
    && (forall id <- s.log :: s.log[id].ip in s.clocks)
    && (forall id <- s.log :: id in s.rows || s.log[id].at < s.clocks[s.log[id].ip] - WINDOW)
    && (forall id <- s.calls :: id !in s.log)
    && (forall id <- s.calls, p <- s.calls[id].pruned ::
          p in s.log && s.log[p].ip == s.calls[id].ip && s.log[p].at < s.calls[id].now - WINDOW)
    && (forall id <- s.calls | s.calls[id].counted ::
          s.calls[id].ip in s.clocks && s.calls[id].now <= s.clocks[s.calls[id].ip])
  }

  ghost predicate Bounded(s: State, ip: string, span: int, k: nat) {
    forall from :: |Within(s.log, ip, from, span) + PendingWithin(s, ip, from, span)| <= LIMIT - 1 + k
  }

  lemma StepKeepsVisible(s: State, step: Step, s': State)
    requires Visible(s) && Enabled(s, step) && s' == Apply(s, step)
    ensures Visible(s')
  {
    match step
    case Prune(id, ip, now) => PruneKeepsVisible(s, id, ip, now, s');
    case Commit(id) => CommitKeepsVisible(s, id, s');
    case _ => OtherKeepsVisible(s, step, s');
  }

  lemma PruneKeepsVisible(s: State, id: Id, ip: string, now: int, s': State)
    requires Visible(s) && Enabled(s, Prune(id, ip, now)) && s' == Apply(s, Prune(id, ip, now))
    ensures Visible(s')
  {
  }

  lemma CommitKeepsVisible(s: State, id: Id, s': State)
    requires Visible(s) && Enabled(s, Commit(id)) && s' == Apply(s, Commit(id))
    ensures Visible(s')
  {
  }

  lemma OtherKeepsVisible(s: State, step: Step, s': State)
    requires Visible(s) && Enabled(s, step) && s' == Apply(s, step) && (step.Count? || step.Crash?)
    ensures Visible(s')
  {
  }

  /** A check that counts at most `d` late has seen every other one that has committed in any
      interval of the window less `d` that it falls in. */
  lemma CommittedAreSeen(s: State, id: Id, ip: string, d: nat, from: int)
    requires Visible(s) && id in s.calls && s.calls[id].ip == ip && s.calls[id].now <= from + WINDOW - d
    requires ip in s.clocks ==> s.clocks[ip] - d <= s.calls[id].now
    ensures Within(s.log, ip, from, WINDOW - d) <= Of(s.rows, ip) - s.calls[id].pruned
  {
    forall a <- Within(s.log, ip, from, WINDOW - d) ensures a in Of(s.rows, ip) - s.calls[id].pruned {
      assert s.log[a].at >= s.calls[id].now - WINDOW + d;
    }
  }

  lemma UnionSmaller<T>(a: set<T>, b: set<T>, m: nat, n: nat)
    requires |a| <= m && |b| <= n
    ensures |a + b| <= m + n
  {
    assert |a + b| == |a| + |b - a|;
    SubsetSmaller(b - a, b);
  }

  lemma CountBounded(s: State, id: Id, s': State, ip: string, d: nat, k: nat, from: int)
    requires Visible(s) && Enabled(s, Count(id)) && s' == Apply(s, Count(id)) && OnTime(s, Count(id), ip, d)
    requires |Within(s.log, ip, from, WINDOW - d) + PendingWithin(s, ip, from, WINDOW - d)| <= LIMIT - 1 + k
    requires |Pending(s', ip)| <= k
    ensures |Within(s'.log, ip, from, WINDOW - d) + PendingWithin(s', ip, from, WINDOW - d)| <= LIMIT - 1 + k
  {
    hide Visible, Within, Of;
    if id in PendingWithin(s', ip, from, WINDOW - d) {
      CommittedAreSeen(s, id, ip, d, from);
      SubsetSmaller(Within(s.log, ip, from, WINDOW - d), Of(s.rows, ip) - s.calls[id].pruned);
      SubsetSmaller(PendingWithin(s', ip, from, WINDOW - d), Pending(s', ip));
      UnionSmaller(Within(s.log, ip, from, WINDOW - d), PendingWithin(s', ip, from, WINDOW - d), LIMIT - 1, k);
    } else {
      assert PendingWithin(s', ip, from, WINDOW - d) == PendingWithin(s, ip, from, WINDOW - d);
    }
  }

  lemma OthersAddNothing(s: State, step: Step, s': State, ip: string, from: int, span: int)
    requires Enabled(s, step) && !step.Count? && s' == Apply(s, step)
    ensures Within(s'.log, ip, from, span) + PendingWithin(s', ip, from, span)
            <= Within(s.log, ip, from, span) + PendingWithin(s, ip, from, span)
  {
  }

  lemma StepKeepsBounded(s: State, step: Step, s': State, ip: string, d: nat, k: nat)
    requires Visible(s) && Bounded(s, ip, WINDOW - d, k) && Enabled(s, step) && s' == Apply(s, step)
    requires OnTime(s, step, ip, d) && |Pending(s', ip)| <= k
    ensures Bounded(s', ip, WINDOW - d, k)
  {
    hide Visible, Within, PendingWithin, Pending;
    var span := WINDOW - d;
    forall from ensures |Within(s'.log, ip, from, span) + PendingWithin(s', ip, from, span)| <= LIMIT - 1 + k {
      if step.Count? {
        CountBounded(s, step.id, s', ip, d, k, from);
      } else {
        OthersAddNothing(s, step, s', ip, from, span);
        SubsetSmaller(Within(s'.log, ip, from, span) + PendingWithin(s', ip, from, span),
                      Within(s.log, ip, from, span) + PendingWithin(s, ip, from, span));
      }
    }
  }

  lemma {:induction false} RunBounded(r: Run, ip: string, d: nat, k: nat, n: nat)
    requires IsRun(r) && InOrder(r, ip, d, k) && n < |r.states|
    ensures Visible(r.states[n]) && Bounded(r.states[n], ip, WINDOW - d, k)
  {
    if n == 0 {
      var span := WINDOW - d;
      forall from ensures Within(r.states[0].log, ip, from, span) + PendingWithin(r.states[0], ip, from, span) == {} {}
    } else {
      RunBounded(r, ip, d, k, n - 1);
      assert StepAt(r, n - 1);
      StepKeepsVisible(r.states[n - 1], r.steps[n - 1], r.states[n]);
      StepKeepsBounded(r.states[n - 1], r.steps[n - 1], r.states[n], ip, d, k);
    }
  }

  /** With at most `k` checks of an IP in flight and their counts out of clock order by at most `d`,
      whatever crashes, whatever other IPs do and in whatever order all commit, no closed interval of
      five minutes less `d` holds more than 10 + (k - 1) accepted attempts. */
  lemma ConcurrentLimit(r: Run, ip: string, d: nat, k: nat, n: nat, from: int, some: set<Id>)
    requires IsRun(r) && InOrder(r, ip, d, k) && n < |r.states|
    requires var log := r.states[n].log;
             forall a <- some :: a in log && log[a].ip == ip && from <= log[a].at <= from + 300 - d
    ensures |some| <= 10 + (k - 1)
  {
    RunBounded(r, ip, d, k, n);
    SubsetSmaller(some,
                  Within(r.states[n].log, ip, from, WINDOW - d) + PendingWithin(r.states[n], ip, from, WINDOW - d));
  }

  // ── The bound is reached ──────────────────────────────────────────────────────────────

  function Ids(lo: nat, hi: nat): (ids: set<Id>)
    requires lo <= hi
    ensures |ids| == hi - lo && forall id: Id :: id in ids <==> lo <= id < hi
  {
    if lo == hi then {} else Ids(lo, hi - 1) + {hi - 1}
  }

  function Attempts(ip: string, n: nat): (log: map<Id, Attempt>)
    ensures log.Keys == Ids(0, n) && forall id <- log :: log[id] == Attempt(ip, 0)
  {
    if n == 0 then map[] else Attempts(ip, n - 1)[n - 1 := Attempt(ip, 0)]
  }

  function Admitted(ip: string, lo: nat, hi: nat): (calls: map<Id, Call>)
    requires lo <= hi
    ensures calls.Keys == Ids(lo, hi) && forall id <- calls :: calls[id] == Call(ip, 0, {}, true, true)
  {
    if lo == hi then map[] else Admitted(ip, lo, hi - 1)[hi - 1 := Call(ip, 0, {}, true, true)]
  }

  /** `done` attempts are in, those up to `counted` have counted and found room. */
  function Burst(ip: string, done: nat, counted: nat): State
    requires done <= counted
  {
    State(Attempts(ip, done), Admitted(ip, done, counted), Attempts(ip, done),
          if counted == 0 then map[] else map[ip := 0])
  }

  lemma BurstSizes(ip: string, done: nat, counted: nat)
    requires done <= counted
    ensures |Of(Attempts(ip, done), ip)| == |Within(Attempts(ip, done), ip, 0, 0)| == done
    ensures |Pending(Burst(ip, done, counted), ip)| == counted - done
  {
    assert Of(Attempts(ip, done), ip) == Within(Attempts(ip, done), ip, 0, 0) == Ids(0, done);
    assert Pending(Burst(ip, done, counted), ip) == Ids(done, counted);
  }

  lemma BurstAccepts(ip: string, done: nat, counted: nat)
    requires done <= counted
    ensures |Within(Burst(ip, done, counted).log, ip, 0, 0)| == done
  {
    BurstSizes(ip, done, counted);
  }

  /** A run within the terms of the bound that ends in `s`. */
  ghost predicate Reaches(r: Run, ip: string, d: nat, k: nat, s: State) {
    IsRun(r) && InOrder(r, ip, d, k) && r.states[|r.steps|] == s
  }

  lemma Extend(r: Run, ip: string, d: nat, k: nat, s: State, step: Step, s': State) returns (e: Run)
    requires Reaches(r, ip, d, k, s) && Enabled(s, step) && s' == Apply(s, step) && |Pending(s', ip)| <= k
    requires OnTime(s, step, ip, d)
    ensures Reaches(e, ip, d, k, s') && e.steps == r.steps + [step] && r.states <= e.states
  {
    e := Run(r.states + [s'], r.steps + [step]);
    forall n: nat | n < |e.steps| ensures StepAt(e, n) && OnTime(e.states[n], e.steps[n], ip, d) {
      if n < |r.steps| { assert StepAt(r, n); }
    }
  }

  /** The burst after one more check has pruned and counted. */
  lemma BurstCounts(ip: string, d: nat, done: nat, counted: nat) returns (pruned: State)
    requires done < LIMIT && done <= counted
    ensures var s := Burst(ip, done, counted);
            && Enabled(s, Prune(counted, ip, 0)) && pruned == Apply(s, Prune(counted, ip, 0))
            && Pending(pruned, ip) == Pending(s, ip)
            && Enabled(pruned, Count(counted)) && OnTime(pruned, Count(counted), ip, d)
            && Apply(pruned, Count(counted)) == Burst(ip, done, counted + 1)
  {
    hide Ids, Attempts;
    var s := Burst(ip, done, counted);
    assert Expired(s.rows, ip, 0) == {};
    pruned := Apply(s, Prune(counted, ip, 0));
    BurstSizes(ip, done, counted);
    assert Of(s.rows, ip) - {} == Of(s.rows, ip);
    assert Admitted(ip, done, counted + 1) == s.calls[counted := Call(ip, 0, {}, true, true)];
    assert s.clocks[ip := Latest(s.clocks, ip, 0)] == map[ip := 0];
  }

  lemma AdmittedTail(ip: string, lo: nat, hi: nat)
    requires lo < hi
    ensures Admitted(ip, lo, hi) - {lo} == Admitted(ip, lo + 1, hi)
  {
    hide Ids, Admitted;
    var a, b := Admitted(ip, lo, hi) - {lo}, Admitted(ip, lo + 1, hi);
    assert a.Keys == b.Keys;
  }

  lemma BurstCommits(ip: string, done: nat, counted: nat)
    requires done < counted
    ensures Enabled(Burst(ip, done, counted), Commit(done))
    ensures Apply(Burst(ip, done, counted), Commit(done)) == Burst(ip, done + 1, counted)
  {
    hide Ids, Admitted;
    var s := Burst(ip, done, counted);
    AdmittedTail(ip, done, counted);
    assert s.rows - {} == s.rows;
    assert Attempts(ip, done + 1) == Attempts(ip, done)[done := Attempt(ip, 0)];
  }

  lemma OneCounts(r: Run, ip: string, d: nat, k: nat, done: nat, counted: nat) returns (e: Run)
    requires done < LIMIT && done <= counted < done + k && Reaches(r, ip, d, k, Burst(ip, done, counted))
    ensures Reaches(e, ip, d, k, Burst(ip, done, counted + 1))
  {
    hide Reaches, Burst, Apply, Enabled, Pending;
    BurstSizes(ip, done, counted);
    BurstSizes(ip, done, counted + 1);
    var pruned := BurstCounts(ip, d, done, counted);
    e := Extend(r, ip, d, k, Burst(ip, done, counted), Prune(counted, ip, 0), pruned);
    e := Extend(e, ip, d, k, pruned, Count(counted), Burst(ip, done, counted + 1));
  }

  lemma OneCommits(r: Run, ip: string, d: nat, k: nat, done: nat, counted: nat) returns (e: Run)
    requires done < counted && counted - done <= k && Reaches(r, ip, d, k, Burst(ip, done, counted))
    ensures Reaches(e, ip, d, k, Burst(ip, done + 1, counted))
  {
    hide Reaches, Burst, Apply, Enabled, Pending;
    BurstSizes(ip, done + 1, counted);
    BurstCommits(ip, done, counted);
    e := Extend(r, ip, d, k, Burst(ip, done, counted), Commit(done), Burst(ip, done + 1, counted));
  }

  lemma EmptyReaches(ip: string, d: nat, k: nat) returns (r: Run)
    ensures Reaches(r, ip, d, k, Burst(ip, 0, 0))
  {
    r := Run([Burst(ip, 0, 0)], []);
    assert Pending(Burst(ip, 0, 0), ip) == {};
  }

  /** Ten attempts less one, each counted and committed before the next. */
  lemma {:induction false} OneByOne(ip: string, d: nat, k: nat, n: nat) returns (r: Run)
    requires n <= LIMIT - 1 && k >= 1
    ensures Reaches(r, ip, d, k, Burst(ip, n, n))
  {
    hide Reaches, Burst;
    if n == 0 {
      r := EmptyReaches(ip, d, k);
    } else {
      r := OneByOne(ip, d, k, n - 1);
      r := OneCounts(r, ip, d, k, n - 1, n - 1);
      r := OneCommits(r, ip, d, k, n - 1, n);
    }
  }

  /** Then `n` checks count before any of them commits. */
  lemma {:induction false} AllCount(ip: string, d: nat, k: nat, n: nat) returns (r: Run)
    requires n <= k && k >= 1
    ensures Reaches(r, ip, d, k, Burst(ip, LIMIT - 1, LIMIT - 1 + n))
  {
    hide Reaches, Burst;
    if n == 0 {
      r := OneByOne(ip, d, k, LIMIT - 1);
    } else {
      r := AllCount(ip, d, k, n - 1);
      r := OneCounts(r, ip, d, k, LIMIT - 1, LIMIT - 1 + n - 1);
    }
  }

  /** And `n` of them commit. */
  lemma {:induction false} AllCommit(ip: string, d: nat, k: nat, n: nat) returns (r: Run)
    requires n <= k && k >= 1
    ensures Reaches(r, ip, d, k, Burst(ip, LIMIT - 1 + n, LIMIT - 1 + k))
  {
    hide Reaches, Burst;
    if n == 0 {
      r := AllCount(ip, d, k, k);
    } else {
      r := AllCommit(ip, d, k, n - 1);
      r := OneCommits(r, ip, d, k, LIMIT - 1 + n - 1, LIMIT - 1 + k);
    }
  }

  /** The concurrent bound is exact: for every `k` some run with at most `k` checks in flight
      accepts 10 + (k - 1) attempts of one IP at one instant. */
  lemma LimitIsReached(ip: string, k: nat) returns (r: Run)
    requires k >= 1
    ensures Reaches(r, ip, 0, k, Burst(ip, LIMIT - 1 + k, LIMIT - 1 + k))
    ensures |Within(Burst(ip, LIMIT - 1 + k, LIMIT - 1 + k).log, ip, 0, 0)| == LIMIT + (k - 1)
  {
    hide Reaches, Burst, Within;
    BurstAccepts(ip, LIMIT - 1 + k, LIMIT - 1 + k);
    r := AllCommit(ip, 0, k, k);
  }

  // ── One check at a time ───────────────────────────────────────────────────────────────

  /** The state after one whole check when no other is in flight. */
  function Checked(s: State, id: Id, ip: string, now: int): State {
    var kept := s.rows - Expired(s.rows, ip, now);
    var clocks := s.clocks[ip := Latest(s.clocks, ip, now)];
    if |Of(kept, ip)| < LIMIT
    then State(kept[id := Attempt(ip, now)], map[], s.log[id := Attempt(ip, now)], clocks)
    else State(kept, map[], s.log, clocks)
  }

  /** Field by field: the IP's attempts older than 300 seconds go, and with fewer than ten left the new
      one is stored, and accepted. */
  lemma CheckedByFields(s: State, id: Id, ip: string, now: int)
    requires id !in s.rows
    ensures var s' := Checked(s, id, ip, now);
            var left := set a | a in s.rows && s.rows[a].ip == ip && now - 300 <= s.rows[a].at;
            && (forall a ::
                  a in s'.rows <==> || (a == id && |left| < 10)
                                    || (a in s.rows && (s.rows[a].ip != ip || now - 300 <= s.rows[a].at)))
            && (forall a <- s'.rows :: s'.rows[a] == if a == id then Attempt(ip, now) else s.rows[a])
            && s'.log == if |left| < 10 then s.log[id := Attempt(ip, now)] else s.log
  {
    var left := set a | a in s.rows && s.rows[a].ip == ip && now - 300 <= s.rows[a].at;
    assert Of(s.rows - Expired(s.rows, ip, now), ip) == left;
  }

  lemma CheckSteps(s: State, id: Id, ip: string, now: int) returns (pruned: State, counted: State)
    requires s.calls == map[] && id !in s.log
    ensures Enabled(s, Prune(id, ip, now)) && pruned == Apply(s, Prune(id, ip, now))
    ensures Enabled(pruned, Count(id)) && counted == Apply(pruned, Count(id))
    ensures Enabled(counted, Commit(id)) && Apply(counted, Commit(id)) == Checked(s, id, ip, now)
    ensures pruned.clocks == s.clocks && pruned.calls.Keys == {id} && pruned.calls[id].ip == ip
    ensures pruned.calls[id].now == now && !pruned.calls[id].counted && counted.calls.Keys == {id}
  {
    hide Expired;
    pruned := Apply(s, Prune(id, ip, now));
    counted := Apply(pruned, Count(id));
    assert Of(s.rows, ip) - Expired(s.rows, ip, now) == Of(s.rows - Expired(s.rows, ip, now), ip);
    assert counted.calls - {id} == map[];
  }

  lemma NonePending(s: State, ip: string)
    requires forall id <- s.calls :: !s.calls[id].counted
    ensures Pending(s, ip) == {}
  {
  }

  lemma FewPending(s: State, ip: string, ids: set<Id>)
    requires s.calls.Keys <= ids
    ensures |Pending(s, ip)| <= |ids|
  {
    SubsetSmaller(Pending(s, ip), ids);
  }

  /** Such a check makes of a run within the terms of the bound for some IP, its own or another, a
      longer one, by the steps prune, count, commit, within the same terms. */
  lemma CheckIsARun(r: Run, watched: string, d: nat, k: nat, s: State, id: Id, ip: string, now: int) returns (e: Run)
    requires Reaches(r, watched, d, k, s) && k >= 1 && s.calls == map[] && id !in s.log
    requires watched == ip && ip in s.clocks ==> s.clocks[ip] - d <= now
    ensures Reaches(e, watched, d, k, Checked(s, id, ip, now))
    ensures e.steps == r.steps + [Prune(id, ip, now), Count(id), Commit(id)] && r.states <= e.states
  {
    var pruned, counted := CheckSteps(s, id, ip, now);
    NonePending(pruned, watched);
    NonePending(Checked(s, id, ip, now), watched);
    FewPending(counted, watched, {id});
    hide Reaches, Checked, Pending, Apply;
    var one := Extend(r, watched, d, k, s, Prune(id, ip, now), pruned);
    var two := Extend(one, watched, d, k, pruned, Count(id), counted);
    e := Extend(two, watched, d, k, counted, Commit(id), Checked(s, id, ip, now));
    assert r.states <= two.states;
    assert r.steps + [Prune(id, ip, now)] + [Count(id)] + [Commit(id)]
        == r.steps + [Prune(id, ip, now), Count(id), Commit(id)];
  }

  /** `n` attempts of time 0, all pruned by one that comes right after the window. */
  function Renewed(ip: string, n: nat): State {
    var one := Attempt(ip, WINDOW + 1);
    State(map[n := one], map[], Attempts(ip, n)[n := one], map[ip := WINDOW + 1])
  }

  lemma FirstCheck(ip: string, n: nat)
    requires n > 0
    ensures var s := Burst(ip, n, n);
            && s.calls == map[] && n !in s.log && s.clocks == map[ip := 0]
            && Checked(s, n, ip, WINDOW + 1) == Renewed(ip, n)
  {
    var s := Burst(ip, n, n);
    assert s.rows - Expired(s.rows, ip, WINDOW + 1) == map[];
    assert Of(map[], ip) == {};
  }

  lemma LateCheck(ip: string, d: nat, n: nat)
    requires d <= WINDOW + 1
    ensures n + 1 !in Renewed(ip, n).log
    ensures |Within(Checked(Renewed(ip, n), n + 1, ip, WINDOW + 1 - d).log, ip, 0, WINDOW + 1 - d)| > n
  {
    var s := Renewed(ip, n);
    assert Expired(s.rows, ip, WINDOW + 1 - d) == {} && s.rows - {} == s.rows && Of(s.rows, ip) == {n};
    hide Attempts, Expired, Of, Ids;
    SubsetSmaller(Ids(0, n) + {n + 1}, Within(Checked(s, n + 1, ip, WINDOW + 1 - d).log, ip, 0, WINDOW + 1 - d));
  }

  /** The disorder does count against the window: for every `d`, a run of checks one at a time with
      counts out of order by `d` accepts more than ten in five minutes less `d` and one second. */
  lemma DisorderCounts(ip: string, d: nat) returns (r: Run, s: State)
    requires d <= WINDOW + 1
    ensures Reaches(r, ip, d, 1, s) && |Within(s.log, ip, 0, WINDOW + 1 - d)| > LIMIT
  {
    hide Reaches, Burst, Checked, Within, Attempts;
    r := AllCommit(ip, d, 1, 1);
    FirstCheck(ip, LIMIT);
    r := CheckIsARun(r, ip, d, 1, Burst(ip, LIMIT, LIMIT), LIMIT, ip, WINDOW + 1);
    LateCheck(ip, d, LIMIT);
    r := CheckIsARun(r, ip, d, 1, Renewed(ip, LIMIT), LIMIT + 1, ip, WINDOW + 1 - d);
    s := Checked(Renewed(ip, LIMIT), LIMIT + 1, ip, WINDOW + 1 - d);
  }

  /** What a limiter that never prunes would count. */
  function Recent(accepted: map<Id, Attempt>, ip: string, now: int): set<Id> {
    set id | id in accepted && accepted[id].ip == ip && now - WINDOW <= accepted[id].at <= now
  }

  /** Whatever was accepted and is not in the table any more is too old to matter, and no IP has
      more than ten rows. */
  ghost predicate Consistent(rows: map<Id, Attempt>, accepted: map<Id, Attempt>, clocks: map<string, int>) {
    && (forall id <- rows :: id in accepted && rows[id] == accepted[id])
    && (forall id <- accepted :: accepted[id].ip in clocks && accepted[id].at <= clocks[accepted[id].ip])
    && (forall id <- accepted :: id in rows || accepted[id].at < clocks[accepted[id].ip] - WINDOW)
    && (forall ip :: |Of(rows, ip)| <= LIMIT)
  }

  class Limiter {
    var rows: map<Id, Attempt>
    ghost var accepted: map<Id, Attempt>
    ghost var clocks: map<string, int>

    constructor ()
      ensures Valid() && World() == State(map[], map[], map[], map[])
    {
      rows := map[];
      accepted := map[];
      clocks := map[];
    }

    /** The limiter as it stands between checks. */
    ghost function World(): State
      reads this
    {
      State(rows, map[], accepted, clocks)
    }

    ghost predicate Valid()
      reads this
    {
      Consistent(rows, accepted, clocks)
    }

    /** Decides as a count of all attempts ever accepted would, keeping ten rows an IP at most. */
    method Check(ip: string, now: int, id: Id) returns (admitted: bool)
      requires Valid() && (ip in clocks ==> clocks[ip] <= now) && id !in accepted
      modifies this
      ensures Valid() && World() == Checked(old(World()), id, ip, now)
      ensures admitted <==> |Recent(old(accepted), ip, now)| < 10
      ensures accepted == if admitted then old(accepted)[id := Attempt(ip, now)] else old(accepted)
      ensures forall other | other != ip :: Of(rows, other) == Of(old(rows), other)
    {
      hide Consistent, Of, Recent, Expired;
      PruneKeeps(rows, accepted, clocks, ip, now);
      clocks := clocks[ip := now];
      rows := rows - Expired(rows, ip, now);
      admitted := |Of(rows, ip)| < LIMIT;
      if admitted {
        AddKeeps(rows, accepted, clocks, id, Attempt(ip, now));
        rows := rows[id := Attempt(ip, now)];
        accepted := accepted[id := Attempt(ip, now)];
      }
    }
  }

  lemma PruneKeeps(rows: map<Id, Attempt>, accepted: map<Id, Attempt>, clocks: map<string, int>, ip: string, now: int)
    requires Consistent(rows, accepted, clocks) && (ip in clocks ==> clocks[ip] <= now)
    ensures var pruned := rows - Expired(rows, ip, now);
            && Consistent(pruned, accepted, clocks[ip := now])
            && Of(pruned, ip) == Recent(accepted, ip, now)
            && forall other | other != ip :: Of(pruned, other) == Of(rows, other)
  {
    PrunedOf(rows, ip, now);
    var pruned := rows - Expired(rows, ip, now);
    forall a ensures a in Of(pruned, ip) <==> a in Recent(accepted, ip, now) {}
    forall other ensures |Of(pruned, other)| <= LIMIT { assert |Of(rows, other)| <= LIMIT; }
  }

  lemma AddKeeps(rows: map<Id, Attempt>, accepted: map<Id, Attempt>, clocks: map<string, int>, id: Id, a: Attempt)
    requires Consistent(rows, accepted, clocks) && id !in accepted && |Of(rows, a.ip)| < LIMIT
    requires a.ip in clocks && a.at <= clocks[a.ip]
    ensures Consistent(rows[id := a], accepted[id := a], clocks)
    ensures forall other | other != a.ip :: Of(rows[id := a], other) == Of(rows, other)
  {
    AddedOf(rows, id, a);
    var added := rows[id := a];
    forall other ensures |Of(added, other)| <= LIMIT {
      assert |Of(rows, other)| <= LIMIT;
    }
  }

  lemma PrunedOf(rows: map<Id, Attempt>, ip: string, now: int)
    ensures var pruned := rows - Expired(rows, ip, now);
            forall other :: |Of(pruned, other)| <= |Of(rows, other)|
                && (other != ip ==> Of(pruned, other) == Of(rows, other))
  {
    var pruned := rows - Expired(rows, ip, now);
    forall other ensures |Of(pruned, other)| <= |Of(rows, other)|
        && (other != ip ==> Of(pruned, other) == Of(rows, other)) {
      SubsetSmaller(Of(pruned, other), Of(rows, other));
    }
  }

  lemma AddedOf(rows: map<Id, Attempt>, id: Id, a: Attempt)
    requires id !in rows
    ensures Of(rows[id := a], a.ip) == Of(rows, a.ip) + {id}
    ensures forall other | other != a.ip :: Of(rows[id := a], other) == Of(rows, other)
  {
  }

  /** The accepted attempts of `ip` at `from` or later. */
  function Since(accepted: map<Id, Attempt>, ip: string, from: int): set<Id> {
    set id | id in accepted && accepted[id].ip == ip && from <= accepted[id].at
  }

  lemma RecentAre(accepted: map<Id, Attempt>, ip: string, now: int)
    ensures forall a ::
              a in Recent(accepted, ip, now) <==>
              a in accepted && accepted[a].ip == ip && now - 300 <= accepted[a].at <= now
  {
  }

  /** Let `t` be the time of the tenth last accepted attempt, whatever the history: the caller is
      admitted again if and only if strictly more than five minutes have passed since. */
  lemma AdmittedAgainIff(accepted: map<Id, Attempt>, ip: string, t: int, now: int)
    requires |Since(accepted, ip, t)| >= LIMIT > |Since(accepted, ip, t + 1)|
    requires forall id <- accepted | accepted[id].ip == ip :: accepted[id].at <= now
    ensures |Recent(accepted, ip, now)| < 10 <==> now > t + 300
  {
    if now > t + WINDOW {
      SubsetSmaller(Recent(accepted, ip, now), Since(accepted, ip, t + 1));
    } else {
      SubsetSmaller(Since(accepted, ip, t), Recent(accepted, ip, now));
    }
  }

  /** With fewer than ten attempts accepted in all, a caller is always admitted; and so after five
      minutes, both ends included, in which nothing was accepted. */
  lemma AdmittedWhenIdle(accepted: map<Id, Attempt>, ip: string, now: int)
    requires |Of(accepted, ip)| < LIMIT || Since(accepted, ip, now - WINDOW) == {}
    ensures |Recent(accepted, ip, now)| < LIMIT
  {
    if |Of(accepted, ip)| < LIMIT {
      SubsetSmaller(Recent(accepted, ip, now), Of(accepted, ip));
    } else {
      SubsetSmaller(Recent(accepted, ip, now), Since(accepted, ip, now - WINDOW));
    }
  }

  /** There is such a tenth last attempt as soon as ten have been accepted: the two cases above are all. */
  lemma {:induction false} TenthLast(accepted: map<Id, Attempt>, ip: string, low: int, high: int) returns (t: int)
    requires low < high && |Since(accepted, ip, low)| >= LIMIT > |Since(accepted, ip, high)|
    ensures low <= t < high && |Since(accepted, ip, t)| >= LIMIT > |Since(accepted, ip, t + 1)|
    decreases high - low
  {
    if |Since(accepted, ip, low + 1)| < LIMIT {
      t := low;
    } else {
      t := TenthLast(accepted, ip, low + 1, high);
    }
  }
}
