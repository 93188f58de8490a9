/** The API clients one worker keeps for the registered clusters, and how stale they can be.

    A worker trusts a client it has built for `RELOAD_INTERVAL` after its last look at the table.
    The table is shared: other workers write it at any moment. Inside a worker a lock admits one
    cache operation at a time, but not between a read of the table and its commit elsewhere. */
module ClusterCache {
  import opened Common
  import opened DiffWrite

  const RELOAD_INTERVAL := 30
  const PROBE := "__verify__"

  /** `Malformed` is what base64 or UTF-8 decoding rejects. */
  datatype CaData = Base64(pem: string) | Malformed(text: string)
  datatype Config = Config(apiUrl: string, caData: CaData, token: string)

  /** A client reads its CA certificate from a temporary file. */
  datatype Client = Client(cfg: Config, caFile: nat)

  datatype Cache = Cache(
    clients: map<string, Client>, cfgs: map<string, Config>, caFiles: map<string, nat>,
    lastReload: int,
    disk: set<nat>)                    // the temporary files that exist

  function ProbeKey(name: string): string {
    PROBE + name
  }

  predicate IsProbeKey(name: string) {
    PROBE <= name
  }

  // ── The cache operations ──────────────────────────────────────────────────────────────

  function Drop(c: Cache, name: string): Cache {
    c.(clients := c.clients - {name}, cfgs := c.cfgs - {name}, caFiles := c.caFiles - {name},
       disk := if name in c.caFiles then c.disk - {c.caFiles[name]} else c.disk)
  }

  /** `_build_client` writes the file and records it, whatever the map held before. */
  function Build(c: Cache, name: string, file: nat): Cache {
    c.(caFiles := c.caFiles[name := file], disk := c.disk + {file})
  }

  predicate Trusted(c: Cache, name: string, now: int) {
    name in c.clients && now - c.lastReload < RELOAD_INTERVAL
  }

  /** The end of `get_api_client` once the table has shown `found` under `name`. */
  function Settle(c: Cache, name: string, found: Option<Config>, file: nat): Cache {
    if found.None? then Drop(c, name)
    else if name in c.clients && Get(c.cfgs, name) == found then c
    else
      var dropped := if name in c.clients then Drop(c, name) else c;
      if found.value.caData.Malformed? then dropped
      else Build(dropped, name, file).(clients := dropped.clients[name := Client(found.value, file)],
                                       cfgs := dropped.cfgs[name := found.value])
  }

  function EndOfProbe(c: Cache, name: string): Cache {
    var key := ProbeKey(name);
    c.(caFiles := c.caFiles - {key}, disk := if key in c.caFiles then c.disk - {c.caFiles[key]} else c.disk)
  }

  // ── Conservation of the temporary files ───────────────────────────────────────────────

  /** The files that exist are those the map names, one each. */
  predicate Conserved(c: Cache) {
    && c.disk == c.caFiles.Values
    && (forall a, b | a in c.caFiles && b in c.caFiles && c.caFiles[a] == c.caFiles[b] :: a == b)
  }

  /** Both client maps have the same keys, and each client was built from the recorded config
      and has its file. */
  predicate Coherent(c: Cache) {
    && c.clients.Keys == c.cfgs.Keys && c.clients.Keys <= c.caFiles.Keys
    && forall n <- c.clients :: c.clients[n] == Client(c.cfgs[n], c.caFiles[n])
  }

  lemma DropConserves(c: Cache, name: string)
    requires Conserved(c)
    ensures Conserved(Drop(c, name)) && (Coherent(c) ==> Coherent(Drop(c, name)))
  {
    var c' := Drop(c, name);
    if name in c.caFiles {
      forall f ensures f in c'.disk <==> f in c'.caFiles.Values {
        if f in c'.disk {
          var n :| n in c.caFiles && c.caFiles[n] == f;
          assert n in c'.caFiles && c'.caFiles[n] == f;
        }
      }
    } else {
      assert c'.caFiles == c.caFiles;
    }
  }

  /** Recording a new file conserves exactly when nothing was recorded under that name: otherwise
      the file that was there stays on disk and no map leads to it any more. */
  lemma BuildConservesIff(c: Cache, name: string, file: nat)
    requires Conserved(c) && file !in c.disk
    ensures Conserved(Build(c, name, file)) <==> name !in c.caFiles
    ensures name in c.caFiles ==> c.caFiles[name] in Build(c, name, file).disk - Build(c, name, file).caFiles.Values
  {
    var c' := Build(c, name, file);
    if name in c.caFiles {
      var lost := c.caFiles[name];
      forall n <- c'.caFiles ensures c'.caFiles[n] != lost {
      }
      assert lost in c'.disk && lost !in c'.caFiles.Values;
    } else {
      forall f ensures f in c'.disk <==> f in c'.caFiles.Values {
        if f in c.caFiles.Values {
          var n :| n in c.caFiles && c.caFiles[n] == f;
          assert c'.caFiles[n] == f;
        } else if f == file {
          assert c'.caFiles[name] == f;
        }
      }
    }
  }

  lemma EndOfProbeConserves(c: Cache, name: string)
    requires Conserved(c) && Coherent(c) && ProbeKey(name) !in c.clients
    ensures Conserved(EndOfProbe(c, name)) && Coherent(EndOfProbe(c, name))
  {
    DropConserves(c, ProbeKey(name));
    assert c.clients - {ProbeKey(name)} == c.clients && c.cfgs - {ProbeKey(name)} == c.cfgs;
    assert EndOfProbe(c, name) == Drop(c, ProbeKey(name));
  }

  lemma SettleConserves(c: Cache, name: string, found: Option<Config>, file: nat)
    requires Conserved(c) && Coherent(c) && file !in c.disk
    requires name in c.caFiles && found.Some? ==> name in c.clients
    ensures Conserved(Settle(c, name, found, file)) && Coherent(Settle(c, name, found, file))
    ensures found.Some? && (name in Settle(c, name, found, file).clients) ==>
              Settle(c, name, found, file).clients[name].cfg == found.value
  {
    DropConserves(c, name);
    if found.Some? && !(name in c.clients && Get(c.cfgs, name) == found) {
      var dropped := if name in c.clients then Drop(c, name) else c;
      BuildConservesIff(dropped, name, file);
    }
  }

  /** A re-read touches the one name only. */
  lemma SettleSparesOthers(c: Cache, name: string, found: Option<Config>, file: nat)
    ensures var c' := Settle(c, name, found, file);
            && c'.clients - {name} == c.clients - {name} && c'.cfgs - {name} == c.cfgs - {name}
            && c'.caFiles - {name} == c.caFiles - {name} && c'.lastReload == c.lastReload
  {
    var dropped := Drop(c, name);
    assert dropped.clients - {name} == c.clients - {name} && dropped.cfgs - {name} == c.cfgs - {name};
    assert dropped.caFiles - {name} == c.caFiles - {name};
  }

  // ── One worker among others, step by step ─────────────────────────────────────────────

  /** `get_api_client` past its first test, holding the lock: it reads the table, then stamps, then
      settles. */
  datatype Phase = Begun | Read(at: int, found: Option<Config>) | Stamped(at: int, found: Option<Config>)

  /** The last re-read of a name: when the table was read, when the worker stamped it, what was there. */
  datatype Reading = Reading(at: int, stamp: int, found: Option<Config>)

  datatype State = State(
    now: int, rows: map<string, Config>, cache: Cache,
    lock: Option<(string, Phase)>,
    probes: multiset<string>,
    readings: map<string, Reading>)    // kept for the proofs, never consulted

  datatype Step =
    | Tick(to: int)
    | Write(rows: map<string, Config>)        // any commit to the table, by any worker
    | Serve(name: string)                     // the cached client, without a look at the table
    | Begin(name: string)
    | ReadTable
    | Stamp
    | Finish(file: nat)
    | StartProbe(name: string, cfg: Config, file: nat)
    | EndProbe(name: string)
    | DropRemoved(name: string)               // the second half of `remove_cluster`

  predicate Enabled(s: State, step: Step) {
    match step
    case Tick(to) => s.now <= to
    case Write(_) => true
    case Serve(name) => s.lock.None? && Trusted(s.cache, name, s.now)
    case Begin(name) => s.lock.None? && !Trusted(s.cache, name, s.now)
    case ReadTable => s.lock.Some? && s.lock.value.1.Begun?
    case Stamp => s.lock.Some? && s.lock.value.1.Read?
    case Finish(file) => s.lock.Some? && s.lock.value.1.Stamped? && file !in s.cache.disk
    case StartProbe(_, cfg, file) => s.lock.None? && cfg.caData.Base64? && file !in s.cache.disk
    case EndProbe(name) => s.lock.None? && name in s.probes
    case DropRemoved(_) => s.lock.None?
  }

  function Apply(s: State, step: Step): State
    requires Enabled(s, step)
  {
    match step
    case Tick(to) => s.(now := to)
    case Write(rows) => s.(rows := rows)
    case Serve(_) => s
    case Begin(name) => s.(lock := Some((name, Begun)))
    case ReadTable => var name := s.lock.value.0; s.(lock := Some((name, Read(s.now, Get(s.rows, name)))))
    case Stamp =>
      var (name, phase) := s.lock.value;
      s.(lock := Some((name, Stamped(phase.at, phase.found))), cache := s.cache.(lastReload := s.now),
         readings := s.readings[name := Reading(phase.at, s.now, phase.found)])
    case Finish(file) =>
      var (name, phase) := s.lock.value;
      s.(lock := None, cache := Settle(s.cache, name, phase.found, file))
    case StartProbe(name, _, file) =>
      s.(cache := Build(s.cache, ProbeKey(name), file), probes := s.probes + multiset{name})
    case EndProbe(name) => s.(cache := EndOfProbe(s.cache, name), probes := s.probes - multiset{name})
    case DropRemoved(name) => s.(cache := Drop(s.cache, name))
  }

  predicate Initial(s: State) {
    && s.cache == Cache(map[], map[], map[], 0, {})
    && s.lock.None? && s.probes == multiset{} && s.readings == map[] && 0 <= s.now
  }

  datatype Run = Run(states: seq<State>, steps: seq<Step>)

  predicate StepAt(r: Run, n: nat) {
    && n < |r.steps| && n + 1 < |r.states|
    && Enabled(r.states[n], r.steps[n]) && r.states[n + 1] == Apply(r.states[n], r.steps[n])
  }

  predicate IsRun(r: Run) {
    && |r.states| == |r.steps| + 1 && Initial(r.states[0])
    && forall n: nat | n < |r.steps| :: StepAt(r, n)
  }

  /** The client a caller of `get_api_client` gets at this step, or nothing: the call failed or goes on. */
  function Given(s: State, step: Step): Option<Client>
    requires Enabled(s, step)
  {
    match step
    case Serve(name) => Get(s.cache.clients, name)
    case Finish(_) => if s.lock.value.1.found.None? then None else Get(Apply(s, step).cache.clients, s.lock.value.0)
    case _ => None
  }

  // ── Conservation over whole runs ──────────────────────────────────────────────────────

  /** No cluster is registered under a probe's key, and a probe starts only when none of that name runs. */
  predicate Disciplined(s: State, step: Step) {
    match step
    case Write(rows) => forall n <- rows :: !IsProbeKey(n)
    case StartProbe(name, _, _) => name !in s.probes
    case _ => true
  }

  ghost predicate Files(s: State) {
    && Conserved(s.cache) && Coherent(s.cache)
    && (forall n <- s.cache.clients :: !IsProbeKey(n))
    && (forall n <- s.cache.caFiles :: n in s.cache.clients || exists p <- s.probes :: n == ProbeKey(p))
    && (forall p <- s.probes :: s.probes[p] == 1)
    && (forall n <- s.rows :: !IsProbeKey(n))
    && (s.lock.Some? && !s.lock.value.1.Begun? && s.lock.value.1.found.Some? ==> !IsProbeKey(s.lock.value.0))
  }

  lemma StepKeepsFiles(s: State, step: Step, s': State)
    requires Files(s) && Enabled(s, step) && Disciplined(s, step) && s' == Apply(s, step)
    ensures Files(s')
  {
    match step
    case Finish(file) => FinishKeepsFiles(s, file, s');
    case StartProbe(name, _, file) => StartKeepsFiles(s, name, file, s');
    case EndProbe(name) => EndKeepsFiles(s, name, s');
    case DropRemoved(name) => DropConserves(s.cache, name);
    case _ =>
  }

  lemma FinishKeepsFiles(s: State, file: nat, s': State)
    requires Files(s) && Enabled(s, Finish(file)) && s' == Apply(s, Finish(file))
    ensures Files(s')
  {
    var (name, phase) := s.lock.value;
    SettleConserves(s.cache, name, phase.found, file);
    SettleKeys(s.cache, name, phase.found, file);
    hide Conserved, Coherent, Settle;
  }

  lemma SettleKeys(c: Cache, name: string, found: Option<Config>, file: nat)
    requires Coherent(c)
    ensures var c' := Settle(c, name, found, file);
            && c'.clients.Keys <= c.clients.Keys + (if found.Some? then {name} else {})
            && forall n <- c'.caFiles :: n in c'.clients || (n in c.caFiles && n !in c.clients)
  {
  }

  lemma StartKeepsFiles(s: State, name: string, file: nat, s': State)
    requires Files(s) && s.cache.disk !! {file} && name !in s.probes
    requires s' == s.(cache := Build(s.cache, ProbeKey(name), file), probes := s.probes + multiset{name})
    ensures Files(s')
  {
    var key := ProbeKey(name);
    if key in s.cache.caFiles {
      var p :| p in s.probes && key == ProbeKey(p);
      SameKey(p, name);
    }
    BuildConservesIff(s.cache, key, file);
    forall n <- s'.cache.caFiles ensures n in s'.cache.clients || exists p <- s'.probes :: n == ProbeKey(p) {
      if n == key { assert name in s'.probes; }
      else if n !in s.cache.clients {
        var p :| p in s.probes && n == ProbeKey(p);
        assert p in s'.probes;
      }
    }
  }

  lemma EndKeepsFiles(s: State, name: string, s': State)
    requires Files(s) && name in s.probes
    requires s' == s.(cache := EndOfProbe(s.cache, name), probes := s.probes - multiset{name})
    ensures Files(s')
  {
    EndOfProbeConserves(s.cache, name);
    forall n <- s'.cache.caFiles ensures n in s'.cache.clients || exists p <- s'.probes :: n == ProbeKey(p) {
      if n !in s'.cache.clients {
        var p :| p in s.probes && n == ProbeKey(p);
        assert p in s'.probes;
      }
    }
  }

  lemma SameKey(a: string, b: string)
    requires ProbeKey(a) == ProbeKey(b)
    ensures a == b
  {
    assert a == ProbeKey(a)[|PROBE|..] && b == ProbeKey(b)[|PROBE|..];
  }

  ghost predicate DisciplinedRun(r: Run) {
    && (forall n: nat | n < |r.steps| && StepAt(r, n) :: Disciplined(r.states[n], r.steps[n]))
    && (r.states != [] ==> forall n <- r.states[0].rows :: !IsProbeKey(n))
  }

  /** In every disciplined run, at every moment: the client and config maps have the same keys,
      every cached client's CA file exists, and the files on disk are exactly those recorded. */
  lemma {:induction false} FilesConserved(r: Run, n: nat)
    requires IsRun(r) && DisciplinedRun(r) && n < |r.states|
    ensures Files(r.states[n])
  {
    if n > 0 {
      FilesConserved(r, n - 1);
      assert StepAt(r, n - 1);
      StepKeepsFiles(r.states[n - 1], r.steps[n - 1], r.states[n]);
    }
  }

  // ── Where a cached client comes from ──────────────────────────────────────────────────

  /** A client in the cache is the one for what the last re-read of its name found. */
  ghost predicate FromReadings(s: State) {
    && (forall n <- s.readings :: s.readings[n].at <= s.readings[n].stamp <= s.cache.lastReload <= s.now)
    && (forall n <- s.cache.clients :: n in s.cache.cfgs && s.cache.clients[n].cfg == s.cache.cfgs[n])
    && (forall n <- s.cache.clients | !(s.lock.Some? && s.lock.value.0 == n && s.lock.value.1.Stamped?) ::
          n in s.readings && s.readings[n].found == Some(s.cache.cfgs[n]))
    && (s.lock.Some? && !s.lock.value.1.Begun? ==> s.lock.value.1.at <= s.now)
    && (s.lock.Some? && s.lock.value.1.Stamped? ==>
          && s.lock.value.0 in s.readings && s.readings[s.lock.value.0].found == s.lock.value.1.found
          && s.readings[s.lock.value.0].at == s.lock.value.1.at)
    && s.cache.lastReload <= s.now
  }

  lemma StepKeepsReadings(s: State, step: Step, s': State)
    requires FromReadings(s) && Enabled(s, step) && s' == Apply(s, step)
    ensures FromReadings(s')
  {
    match step
    case Stamp => StampKeepsReadings(s, s');
    case Finish(file) => FinishKeepsReadings(s, file, s');
    case DropRemoved(name) => DropKeepsReadings(s, name, s');
    case _ => OtherKeepsReadings(s, step, s');
  }

  lemma StampKeepsReadings(s: State, s': State)
    requires FromReadings(s) && Enabled(s, Stamp) && s' == Apply(s, Stamp)
    ensures FromReadings(s')
  {
  }

  lemma FinishKeepsReadings(s: State, file: nat, s': State)
    requires FromReadings(s) && Enabled(s, Finish(file)) && s' == Apply(s, Finish(file))
    ensures FromReadings(s')
  {
  }

  lemma DropKeepsReadings(s: State, name: string, s': State)
    requires FromReadings(s) && Enabled(s, DropRemoved(name)) && s' == Apply(s, DropRemoved(name))
    ensures FromReadings(s')
  {
  }

  lemma OtherKeepsReadings(s: State, step: Step, s': State)
    requires FromReadings(s) && Enabled(s, step) && s' == Apply(s, step)
    requires !step.Stamp? && !step.Finish? && !step.DropRemoved?
    ensures FromReadings(s')
  {
  }

  lemma {:induction false} ReadingsOverRun(r: Run, n: nat)
    requires IsRun(r) && n < |r.states|
    ensures FromReadings(r.states[n])
  {
    if n > 0 {
      ReadingsOverRun(r, n - 1);
      assert StepAt(r, n - 1);
      StepKeepsReadings(r.states[n - 1], r.steps[n - 1], r.states[n]);
    }
  }

  /** At moment `j` the clock showed `at` and the table held `found` under `name`. */
  predicate StoredAt(r: Run, j: nat, name: string, at: int, found: Option<Config>) {
    j < |r.states| && r.states[j].now == at && Get(r.states[j].rows, name) == found
  }

  /** Every reading, finished or under way, is of the table at some earlier moment of the run. */
  lemma {:induction false} ReadingOrigin(r: Run, n: nat, name: string) returns (j: nat, k: nat)
    requires IsRun(r) && n < |r.states|
    ensures j <= n && k <= n
    ensures name in r.states[n].readings ==>
              StoredAt(r, j, name, r.states[n].readings[name].at, r.states[n].readings[name].found)
    ensures var lock := r.states[n].lock;
            lock.Some? && lock.value.0 == name && !lock.value.1.Begun? ==>
              StoredAt(r, k, name, lock.value.1.at, lock.value.1.found)
  {
    j, k := 0, 0;
    if n > 0 {
      assert StepAt(r, n - 1);
      j, k := ReadingOrigin(r, n - 1, name);
      match r.steps[n - 1]
      case ReadTable => if r.states[n].lock.value.0 == name { k := n - 1; }
      case Stamp => if r.states[n].lock.value.0 == name { j := k; }
      case _ =>
    }
  }
}
