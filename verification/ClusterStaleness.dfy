/** How old the config behind a client can be when a caller gets it. */
module ClusterStaleness {
  import opened Common
  import opened DiffWrite
  import opened ClusterCache

  /** One call of `get_api_client` for `name` holds the lock from its step `b` up to moment `n`. */
  ghost predicate CallUnderWay(r: Run, b: nat, n: nat, name: string) {
    && b < n < |r.states| && b < |r.steps| && r.steps[b] == Begin(name)
    && forall q | b < q <= n :: r.states[q].lock.Some? && r.states[q].lock.value.0 == name
  }

  /** The call under way began at step `b`, and what it has read it read at a step `k` after that. */
  lemma {:induction false} CallOrigin(r: Run, n: nat) returns (b: nat, k: nat)
    requires IsRun(r) && n < |r.states| && r.states[n].lock.Some?
    ensures CallUnderWay(r, b, n, r.states[n].lock.value.0)
    ensures var (name, phase) := r.states[n].lock.value;
            !phase.Begun? ==> b < k < n && r.steps[k] == ReadTable && StoredAt(r, k, name, phase.at, phase.found)
  {
    assert StepAt(r, n - 1);
    if r.steps[n - 1].Begin? {
      b, k := n - 1, 0;
    } else {
      b, k := CallOrigin(r, n - 1);
      if r.steps[n - 1].ReadTable? {
        k := n - 1;
      }
    }
  }

  /** A caller that goes through to the table gets a client for what the table held at a step of this
      very call, or nothing: in particular nothing for a name that was not registered then. */
  lemma FinishIsCurrent(r: Run, i: nat) returns (b: nat, j: nat)
    requires IsRun(r) && i < |r.steps| && StepAt(r, i) && r.steps[i].Finish?
    ensures CallUnderWay(r, b, i, r.states[i].lock.value.0) && b < j < i && r.steps[j] == ReadTable
    ensures var (name, phase) := r.states[i].lock.value;
            && StoredAt(r, j, name, phase.at, phase.found)
            && (phase.found.None? ==> Given(r.states[i], r.steps[i]).None? && name !in r.states[i + 1].cache.clients)
            && (phase.found.Some? && phase.found.value.caData.Base64? ==> Given(r.states[i], r.steps[i]).Some?)
            && (Given(r.states[i], r.steps[i]).Some? ==> phase.found == Some(Given(r.states[i], r.steps[i]).value.cfg))
  {
    b, j := CallOrigin(r, i);
    ReadingsOverRun(r, i);
  }

  /** The shared timestamp is that of some name's last re-read. */
  lemma {:induction false} LastStamped(r: Run, n: nat) returns (name: string)
    requires IsRun(r) && n < |r.states| && r.states[n].readings != map[]
    ensures name in r.states[n].readings && r.states[n].readings[name].stamp == r.states[n].cache.lastReload
  {
    assert StepAt(r, n - 1);
    if r.steps[n - 1].Stamp? {
      name := r.states[n - 1].lock.value.0;
    } else {
      name := LastStamped(r, n - 1);
    }
  }

  /** A caller served from the cache gets a client for what the table held when the name was last
      re-read, whenever that was: what is less than the interval ago is the re-read of some name. */
  lemma ServedIsLastRead(r: Run, i: nat, name: string) returns (j: nat, other: string)
    requires IsRun(r) && i < |r.steps| && StepAt(r, i) && r.steps[i] == Serve(name)
    ensures j <= i
    ensures var s := r.states[i];
            && Given(s, r.steps[i]).Some? && name in s.readings
            && StoredAt(r, j, name, s.readings[name].at, Some(Given(s, r.steps[i]).value.cfg))
            && other in s.readings && s.now - s.readings[other].stamp < 30
            && s.readings[name].stamp <= s.readings[other].stamp
  {
    var k, _ := ReadingOrigin(r, i, name);
    ReadingsOverRun(r, i);
    other := LastStamped(r, i);
    j := k;
  }

  predicate InTurn(r: Run, n: nat, name: string, d: int)
    requires StepAt(r, n)
  {
    && (r.steps[n].Begin? ==> r.steps[n].name == name)
    && (r.steps[n].Stamp? ==> r.states[n].now - r.states[n].lock.value.1.at <= d)
  }

  /** Callers ask this worker for one cluster only, and a read of the table takes at most `d`. */
  ghost predicate OneInUse(r: Run, name: string, d: int) {
    forall n: nat | n < |r.steps| && StepAt(r, n) :: InTurn(r, n, name, d)
  }

  lemma {:induction false} OneStamped(r: Run, name: string, d: int, n: nat)
    requires IsRun(r) && OneInUse(r, name, d) && n < |r.states|
    ensures var s := r.states[n];
            && (s.lock.Some? ==> s.lock.value.0 == name)
            && (name in s.readings ==>
                  s.readings[name].stamp == s.cache.lastReload && s.readings[name].stamp - s.readings[name].at <= d)
  {
    if n > 0 {
      OneStamped(r, name, d, n - 1);
      assert StepAt(r, n - 1);
    }
  }

  /** With one cluster in use, every client handed out is for a config that was stored less than
      the reload interval before, plus the time one read of the table takes. */
  lemma OneClusterIsFresh(r: Run, i: nat, name: string, d: int) returns (j: nat)
    requires IsRun(r) && OneInUse(r, name, d) && i < |r.steps| && StepAt(r, i) && r.steps[i] == Serve(name)
    ensures j <= i && Given(r.states[i], r.steps[i]).Some?
    ensures Get(r.states[j].rows, name) == Some(Given(r.states[i], r.steps[i]).value.cfg)
    ensures r.states[i].now - r.states[j].now < 30 + d
  {
    var k, _ := ServedIsLastRead(r, i, name);
    OneStamped(r, name, d, i);
    j := k;
  }

  lemma {:induction false} StampGoesOn(r: Run, i: nat, n: nat)
    requires IsRun(r) && i <= n < |r.states|
    ensures r.states[i].cache.lastReload <= r.states[n].cache.lastReload
    decreases n
  {
    if i < n {
      StampGoesOn(r, i, n - 1);
      ReadingsOverRun(r, n - 1);
      assert StepAt(r, n - 1);
    }
  }

  /** A name that has a client is not looked up again within 30 seconds of any re-read. */
  lemma LookupsApart(r: Run, i: nat, j: nat, name: string)
    requires IsRun(r) && i < j < |r.steps| && r.steps[i] == Stamp && r.steps[j] == Begin(name)
    requires name in r.states[j].cache.clients
    ensures r.states[j].now >= r.states[i].now + 30
  {
    assert StepAt(r, i) && StepAt(r, j);
    StampGoesOn(r, i + 1, j);
  }

  // ── Whole calls ───────────────────────────────────────────────────────────────────────

  /** Extends a run by one enabled step. */
  function Extend(r: Run, step: Step): (r': Run)
    requires IsRun(r) && Enabled(Last(r), step)
    ensures IsRun(r') && Last(r') == Apply(Last(r), step)
    ensures r'.steps == r.steps + [step] && r.states <= r'.states
  {
    var r' := Run(r.states + [Apply(Last(r), step)], r.steps + [step]);
    assert forall n: nat | n < |r.steps| :: StepAt(r, n) ==> StepAt(r', n);
    r'
  }

  function Last(r: Run): State
    requires |r.states| == |r.steps| + 1
  {
    r.states[|r.steps|]
  }

  function Start(rows: map<string, Config>): (r: Run)
    ensures IsRun(r)
  {
    Run([State(0, rows, Cache(map[], map[], map[], 0, {}), None, multiset{}, map[])], [])
  }

  /** `e` goes on from `r` with these steps. */
  predicate Extends(r: Run, e: Run, steps: seq<Step>) {
    IsRun(r) && IsRun(e) && e.steps == r.steps + steps && r.states <= e.states
  }

  /** What the theorems ask of a run carries over if the added steps meet it. */
  lemma TermsCarryOver(r: Run, e: Run, steps: seq<Step>)
    requires Extends(r, e, steps)
    ensures DisciplinedRun(r) ==>
              (forall n: nat | |r.steps| <= n < |e.steps| :: Disciplined(e.states[n], e.steps[n])) ==>
                DisciplinedRun(e)
    ensures forall name, d | OneInUse(r, name, d)
              && (forall n: nat | |r.steps| <= n < |e.steps| && StepAt(e, n) :: InTurn(e, n, name, d)) ::
              OneInUse(e, name, d)
  {
    assert forall n: nat | n < |r.steps| :: StepAt(r, n) && e.steps[n] == r.steps[n] && e.states[n] == r.states[n];
    forall name, d | OneInUse(r, name, d)
        && (forall n: nat | |r.steps| <= n < |e.steps| && StepAt(e, n) :: InTurn(e, n, name, d))
      ensures OneInUse(e, name, d)
    {
      forall n: nat | n < |e.steps| && StepAt(e, n) ensures InTurn(e, n, name, d) {
        if n < |r.steps| { assert InTurn(r, n, name, d); }
      }
    }
  }

  lemma FetchReads(r: Run, name: string, stamp: int) returns (e: Run)
    requires IsRun(r) && Last(r).lock.None? && !Trusted(Last(r).cache, name, Last(r).now) && Last(r).now <= stamp
    ensures Extends(r, e, [Begin(name), ReadTable, Tick(stamp)])
    ensures Last(e) == Last(r).(now := stamp, lock := Some((name, Read(Last(r).now, Get(Last(r).rows, name)))))
    ensures DisciplinedRun(r) ==> DisciplinedRun(e)
    ensures forall d | OneInUse(r, name, d) :: OneInUse(e, name, d)
  {
    hide Trusted, Get;
    e := Extend(Extend(Extend(r, Begin(name)), ReadTable), Tick(stamp));
    TermsCarryOver(r, e, [Begin(name), ReadTable, Tick(stamp)]);
  }

  lemma FetchSettles(r: Run, name: string, phase: Phase, file: nat) returns (e: Run)
    requires IsRun(r) && Last(r).lock == Some((name, phase)) && phase.Read? && file !in Last(r).cache.disk
    ensures Extends(r, e, [Stamp, Finish(file)])
    ensures var s := Last(r);
            Last(e) == s.(cache := Settle(s.cache.(lastReload := s.now), name, phase.found, file), lock := None,
                          readings := s.readings[name := Reading(phase.at, s.now, phase.found)])
    ensures DisciplinedRun(r) ==> DisciplinedRun(e)
    ensures forall d | OneInUse(r, name, d) && Last(r).now - phase.at <= d :: OneInUse(e, name, d)
  {
    hide Settle;
    e := Extend(Extend(r, Stamp), Finish(file));
    TermsCarryOver(r, e, [Stamp, Finish(file)]);
  }

  /** An uninterrupted call of `get_api_client` that goes to the table, which it reads now, and stamps
      the time at `stamp`, as a longer run to which all that holds of runs applies. */
  lemma Fetch(r: Run, name: string, stamp: int, file: nat) returns (e: Run)
    requires IsRun(r) && Last(r).lock.None? && !Trusted(Last(r).cache, name, Last(r).now) && file !in Last(r).cache.disk
    requires Last(r).now <= stamp
    ensures Extends(r, e, [Begin(name), ReadTable, Tick(stamp), Stamp, Finish(file)])
    ensures var s := Last(r);
            Last(e) == s.(now := stamp,
                          cache := Settle(s.cache.(lastReload := stamp), name, Get(s.rows, name), file),
                          readings := s.readings[name := Reading(s.now, stamp, Get(s.rows, name))])
    ensures DisciplinedRun(r) ==> DisciplinedRun(e)
    ensures forall d | OneInUse(r, name, d) && stamp - Last(r).now <= d :: OneInUse(e, name, d)
  {
    hide Settle, Trusted, Get, OneInUse, DisciplinedRun;
    var read := FetchReads(r, name, stamp);
    e := FetchSettles(read, name, Read(Last(r).now, Get(Last(r).rows, name)), file);
    assert [Begin(name), ReadTable, Tick(stamp)] + [Stamp, Finish(file)]
        == [Begin(name), ReadTable, Tick(stamp), Stamp, Finish(file)];
  }

  /** A whole probe, and the removal of a cluster, likewise. */
  lemma ProbeIsARun(r: Run, name: string, cfg: Config, file: nat) returns (e: Run)
    requires IsRun(r) && Last(r).lock.None? && cfg.caData.Base64? && file !in Last(r).cache.disk
    ensures Extends(r, e, [StartProbe(name, cfg, file), EndProbe(name)])
    ensures Last(e) == Last(r).(cache := EndOfProbe(Build(Last(r).cache, ProbeKey(name), file), name))
    ensures DisciplinedRun(r) && name !in Last(r).probes ==> DisciplinedRun(e)
    ensures forall bad: Config | bad.caData.Malformed? :: !Enabled(Last(r), StartProbe(name, bad, file))
  {
    var started := Extend(r, StartProbe(name, cfg, file));
    e := Extend(started, EndProbe(name));
    assert Last(r).probes + multiset{name} - multiset{name} == Last(r).probes;
    TermsCarryOver(r, e, [StartProbe(name, cfg, file), EndProbe(name)]);
  }

  lemma RemovalIsARun(r: Run, name: string) returns (e: Run)
    requires IsRun(r) && Last(r).lock.None?
    ensures Extends(r, e, [Write(Last(r).rows - {name}), DropRemoved(name)])
    ensures Last(e) == Last(r).(rows := Last(r).rows - {name}, cache := Drop(Last(r).cache, name))
    ensures DisciplinedRun(r) ==> DisciplinedRun(e)
  {
    var written := Extend(r, Write(Last(r).rows - {name}));
    e := Extend(written, DropRemoved(name));
    if DisciplinedRun(r) { FilesConserved(r, |r.steps|); }
    TermsCarryOver(r, e, [Write(Last(r).rows - {name}), DropRemoved(name)]);
  }

  // ── Runs that show the limits ─────────────────────────────────────────────────────────

  const OLD := Config("https://a", Base64("old"), "t")
  const NEW := Config("https://a", Base64("new"), "t")
  const OTHER := Config("https://b", Base64("b"), "t")

  /** A worker that has a client for the old config of `a`, replaced in the table at time 0, and
      that last looked at the table, for `b`, just now. */
  ghost predicate StaleSince0(s: State) {
    && s.lock.None? && s.rows == map["a" := NEW, "b" := OTHER] && s.cache.lastReload == s.now
    && s.cache == Cache(map["a" := Client(OLD, 1), "b" := Client(OTHER, 2)], map["a" := OLD, "b" := OTHER],
                        map["a" := 1, "b" := 2], s.now, {1, 2})
  }

  lemma StaleAtStart() returns (r: Run)
    ensures IsRun(r) && StaleSince0(Last(r)) && Last(r).now == 0
  {
    r := Fetch(Start(map["a" := OLD, "b" := OTHER]), "a", 0, 1);
    assert Last(r).cache == Cache(map["a" := Client(OLD, 1)], map["a" := OLD], map["a" := 1], 0, {1});
    r := Fetch(r, "b", 0, 2);
    r := Extend(r, Write(map["a" := NEW, "b" := OTHER]));
    assert Last(r).cache.disk == {1, 2};
  }

  lemma StaleAgain(r: Run) returns (e: Run)
    requires IsRun(r) && StaleSince0(Last(r))
    ensures IsRun(e) && StaleSince0(Last(e)) && Last(e).now == Last(r).now + RELOAD_INTERVAL
  {
    e := Extend(r, Tick(Last(r).now + RELOAD_INTERVAL));
    e := Fetch(e, "b", Last(e).now, 3);
  }

  /** With two clusters in use there is no bound: the timestamp is shared, so looking up `b` every
      30 seconds keeps an outdated client for `a` trusted for as long as one likes. */
  lemma {:induction false} TwoClustersGoStale(n: nat) returns (r: Run)
    ensures IsRun(r) && StaleSince0(Last(r)) && Last(r).now == n * 30
    ensures Enabled(Last(r), Serve("a")) && Given(Last(r), Serve("a")) == Some(Client(OLD, 1))
    ensures Get(Last(r).rows, "a") == Some(NEW)
  {
    if n == 0 {
      r := StaleAtStart();
    } else {
      var shorter := TwoClustersGoStale(n - 1);
      r := StaleAgain(shorter);
    }
  }

  /** A run that uses `a` only, with reads that take at most `d`, and in which the old config of `a`
      is out of the table from time 1 on. */
  ghost predicate ChangedAt0(r: Run, d: int) {
    && IsRun(r) && OneInUse(r, "a", d)
    && forall n: nat | n < |r.states| && r.states[n].now > 0 :: Get(r.states[n].rows, "a") == Some(NEW)
  }

  lemma ExtendChanged(r: Run, d: int, step: Step) returns (e: Run)
    requires ChangedAt0(r, d) && Enabled(Last(r), step)
    requires step.Begin? ==> step.name == "a"
    requires step.Stamp? ==> Last(r).now - Last(r).lock.value.1.at <= d
    requires Apply(Last(r), step).now > 0 ==> Get(Apply(Last(r), step).rows, "a") == Some(NEW)
    ensures |e.states| == |e.steps| + 1 && ChangedAt0(e, d) && Last(e) == Apply(Last(r), step)
  {
    e := Extend(r, step);
    TermsCarryOver(r, e, [step]);
  }

  /** The time one read takes does count: a client can be that much older than the interval. */
  lemma ReadTimeCounts(d: nat) returns (r: Run)
    ensures ChangedAt0(r, d) && Last(r).now == d + 29
    ensures Enabled(Last(r), Serve("a")) && Given(Last(r), Serve("a")) == Some(Client(OLD, 1))
  {
    r := Start(map["a" := OLD]);
    assert ChangedAt0(r, d);
    hide ChangedAt0;
    r := ExtendChanged(r, d, Begin("a"));
    r := ExtendChanged(r, d, ReadTable);
    r := ExtendChanged(r, d, Write(map["a" := NEW]));
    r := ExtendChanged(r, d, Tick(d));
    r := ExtendChanged(r, d, Stamp);
    r := ExtendChanged(r, d, Finish(1));
    r := ExtendChanged(r, d, Tick(d + RELOAD_INTERVAL - 1));
  }

  lemma TwoProbes(cfg: Config) returns (r: Run)
    requires cfg.caData.Base64?
    ensures IsRun(r) && Last(r).lock.None? && Last(r).probes == multiset{"a", "a"}
    ensures Last(r).cache.caFiles == map[ProbeKey("a") := 2] && Last(r).cache.disk == {1, 2}
  {
    r := Extend(Start(map[]), StartProbe("a", cfg, 1));
    r := Extend(r, StartProbe("a", cfg, 2));
    assert Last(r).cache.caFiles == map[ProbeKey("a") := 2];
  }

  /** Two probes of one name at once: the second file is deleted under the first probe's end while
      the second still needs it, and the first file stays on disk for good. */
  lemma ProbesOfOneNameLeak(cfg: Config) returns (r: Run)
    requires cfg.caData.Base64?
    ensures IsRun(r) && Last(r).probes == multiset{} && Last(r).cache.caFiles == map[] && Last(r).cache.disk == {1}
  {
    r := TwoProbes(cfg);
    r := Extend(r, EndProbe("a"));
    assert Last(r).cache.disk == {1} && Last(r).cache.caFiles == map[] && Last(r).probes == multiset{"a"};
    r := Extend(r, EndProbe("a"));
  }

  // ── Removal ───────────────────────────────────────────────────────────────────────────

  /** Nothing of `name` is left in this worker, in the table, or in a call under way. */
  predicate Gone(s: State, name: string) {
    && name !in s.rows && name !in s.cache.clients
    && (s.lock.Some? && s.lock.value.0 == name && !s.lock.value.1.Begun? ==> s.lock.value.1.found.None?)
  }

  /** Once `remove_cluster` has returned, and until somebody registers the name again, no caller
      gets a client for it from this worker. */
  lemma {:induction false} RemovedUntilAddedAgain(r: Run, name: string, i: nat, n: nat)
    requires IsRun(r) && i < n <= |r.steps| && StepAt(r, i) && r.steps[i] == DropRemoved(name)
    requires forall k | i <= k <= n :: name !in r.states[k].rows
    ensures Gone(r.states[n], name)
    ensures n < |r.steps| && StepAt(r, n) ==>
              && r.steps[n] != Serve(name)
              && (r.steps[n].Finish? && r.states[n].lock.value.0 == name ==> Given(r.states[n], r.steps[n]).None?)
  {
    if n > i + 1 {
      RemovedUntilAddedAgain(r, name, i, n - 1);
      assert StepAt(r, n - 1);
    }
  }
}
