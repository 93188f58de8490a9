/** What every step of the grant protocol keeps, in every interleaving. */
module JitInvariant {
  import opened Common
  import opened JitProtocol

  /** The states of a request that some approval has committed. */
  predicate Granted(status: Status) {
    status.Approved? || status.Revoked? || status.Expired?
  }

  predicate RecordOk(id: string, r: Request, clock: int) {
    && MIN_TTL_MINUTES <= r.ttl <= MAX_TTL_MINUTES
    && (r.roleKind.Role? ==> r.namespace != "")
    && (r.status.Pending? <==> r.reviewedBy.None?)
    && (r.reviewedAt.Some? <==> r.reviewedBy.Some?)
    && (r.reviewedAt.Some? ==> r.reviewedAt.value <= clock)
    && (r.expiresAt.Some? <==> Granted(r.status))
    && (r.bindingName == if Granted(r.status) then Some(BindingName(id)) else None)
    && (Granted(r.status) ==>
          r.reviewedBy.value != r.requester && r.expiresAt.value <= r.reviewedAt.value + r.ttl * MINUTE)
    && (r.status.Approved? ==> r.expiresAt.value == r.reviewedAt.value + r.ttl * MINUTE)
    && (r.status.Expired? ==> r.expiresAt.value <= clock)
  }

  /** A labelled binding is the grant of a stored request: its site, subject and role, and an
      expiry no later than the latest approval of that request allows. */
  predicate GrantOk(s: State, site: Site, b: Binding) {
    && b.request.Some? && b.request.value in s.requests && b.expiry.At?
    && var id := b.request.value; var r := s.requests[id];
    && site == SiteOf(site.cluster, id, r)
    && b.subject == r.subject && b.roleName == r.roleName && b.roleKind == r.roleKind
    && b.expiry.time <= s.clock + r.ttl * MINUTE
    && (Granted(r.status) ==> r.expiresAt.Some? && b.expiry.time <= r.expiresAt.value)
    && (id in s.holds && s.holds[id].Approving? ==> b.expiry.time <= s.holds[id].at + r.ttl * MINUTE)
  }

  /** A live grant of request `id`, in whatever cluster. */
  predicate GrantAt(s: State, id: string, site: Site) {
    site in s.bindings && s.bindings[site].jit && s.bindings[site].request == Some(id)
  }

  predicate HoldOk(s: State, id: string, hold: Hold) {
    && id in s.requests
    && var r := s.requests[id];
    match hold
    case Approving(reviewer, _, at, _) => r.status == Pending && reviewer != r.requester && at <= s.clock
    case Denying(_) => r.status == Pending
    case Revoking(cluster, unbound) =>
      && r.status == Approved
      && (unbound ==> forall site <- s.bindings :: site.cluster == cluster ==> !GrantAt(s, id, site))
    case Marking(job) => job in s.jobs && id in s.jobs[job].selected
  }

  predicate JobOk(s: State, job: Job) {
    && job.at <= s.clock
    && forall id <- job.selected ::
         && id in s.requests && Granted(s.requests[id].status)
         && s.requests[id].expiresAt.Some? && s.requests[id].expiresAt.value <= job.at
  }

  /** A binding the pass must remove: there when it started, and overdue by its clock reading. */
  predicate Due(p: Pass, site: Site, b: Binding) {
    site.cluster == p.cluster && b.uid < p.born && Overdue(b, p.now)
  }

  predicate PassOk(s: State, p: Pass) {
    && p.now <= s.clock && p.born <= s.nextUid
    && (forall site <- p.todo :: site.cluster == p.cluster && p.todo[site] < s.nextUid)
    && (forall site <- p.todo | site in s.bindings ::
          && p.todo[site] <= s.bindings[site].uid
          && (p.todo[site] == s.bindings[site].uid ==> Overdue(s.bindings[site], p.now)))
    && (p.phase == ClusterWide ==> forall site <- s.bindings | site.namespace == "" && Due(p, site, s.bindings[site]) ::
          site in p.todo)
    && (p.phase == Namespaced ==> forall site <- s.bindings | Due(p, site, s.bindings[site]) :: site in p.todo)
    && (p.phase == Done ==> forall site <- s.bindings :: !Due(p, site, s.bindings[site]))
  }

  predicate RecordsOk(s: State) {
    && (forall k <- s.policies :: s.policies[k].maxTtl.Some? ==> s.policies[k].maxTtl.value <= MAX_TTL_MINUTES)
    && (forall id <- s.requests :: RecordOk(id, s.requests[id], s.clock))
  }

  predicate GrantsOk(s: State) {
    && (forall site <- s.bindings :: s.bindings[site].uid < s.nextUid)
    && (forall site <- s.bindings | s.bindings[site].jit :: GrantOk(s, site, s.bindings[site]))
  }

  predicate HoldsOk(s: State) {
    forall id <- s.holds :: HoldOk(s, id, s.holds[id])
  }

  predicate JobsOk(s: State) {
    forall job <- s.jobs :: JobOk(s, s.jobs[job])
  }

  predicate PassesOk(s: State) {
    forall pass <- s.passes :: PassOk(s, s.passes[pass])
  }

  predicate Inv(s: State) {
    RecordsOk(s) && GrantsOk(s) && HoldsOk(s) && JobsOk(s) && PassesOk(s)
  }

  lemma InitialInv(s: State)
    requires Initial(s)
    ensures Inv(s)
  {
  }

  // ── What every step does, whatever its kind ────────────────────────────────────────────

  /** Bindings only vanish or appear with a new identity: no step rewrites one. */
  predicate BindingsAge(s: State, s': State) {
    && s.nextUid <= s'.nextUid && s.clock <= s'.clock
    && (forall site <- s'.bindings | site in s.bindings :: s'.bindings[site] == s.bindings[site])
    && (forall site <- s'.bindings | site !in s.bindings :: s'.bindings[site].uid == s.nextUid < s'.nextUid)
  }

  /** The fields the requester chose. */
  predicate SameAsk(r: Request, r': Request) {
    && r'.requester == r.requester && r'.subject == r.subject && r'.roleKind == r.roleKind
    && r'.roleName == r.roleName && r'.namespace == r.namespace && r'.ttl == r.ttl
  }

  /** A stored request keeps what it asks for and, once granted, its expiry; a grant is
      committed only by the approval that holds the lock. */
  predicate RequestFollows(s: State, s': State, id: string)
    requires id in s.requests && id in s'.requests
  {
    var r, r' := s.requests[id], s'.requests[id];
    && SameAsk(r, r')
    && (Granted(r.status) ==> Granted(r'.status) && r'.expiresAt == r.expiresAt)
    && (Granted(r'.status) && !Granted(r.status) ==>
          id in s.holds && s.holds[id].Approving? && r'.expiresAt == Some(s.holds[id].at + r.ttl * MINUTE))
  }

  predicate Evolves(s: State, s': State) {
    && BindingsAge(s, s')
    && (forall id <- s.requests :: id in s'.requests && RequestFollows(s, s', id))
    && (forall id <- s'.holds | s'.holds[id].Approving? ::
          || s'.holds[id].at == s.clock
          || (id in s.holds && s.holds[id].Approving? && s'.holds[id].at == s.holds[id].at))
  }

  /** Steps that touch neither the database nor a lock, and grant nothing. */
  predicate Quiet(s: State, s': State) {
    && s'.requests == s.requests && s'.policies == s.policies && s'.holds == s.holds && s'.jobs == s.jobs
    && BindingsAge(s, s')
    && (forall site <- s'.bindings | site !in s.bindings :: !s'.bindings[site].jit)
  }

  lemma ReapIsQuiet(s: State, pass: nat, reap: PassStep, s': State)
    requires ReapEnabled(s, pass, reap) && s' == ApplyReap(s, pass, reap)
    ensures Quiet(s, s') && s'.clock == s.clock && s'.nextUid == s.nextUid
    ensures s.passes.Keys <= s'.passes.Keys
    ensures forall other <- s'.passes | other != pass :: other in s.passes && s'.passes[other] == s.passes[other]
  {
  }

  lemma ServiceAges(s: State, call: ServiceStep, s': State)
    requires ServiceEnabled(s, call) && s' == ApplyService(s, call)
    ensures BindingsAge(s, s') && s'.jobs == s.jobs && s'.passes == s.passes && s'.clock == s.clock
    ensures forall site <- s'.bindings | site !in s.bindings && s'.bindings[site].jit :: call.ApproveBind?
  {
  }

  lemma ServiceRequestFate(s: State, call: ServiceStep, s': State, id: string)
    requires ServiceEnabled(s, call) && s' == ApplyService(s, call) && id in s.requests
    requires id in s.holds ==> HoldOk(s, id, s.holds[id])
    ensures id in s'.requests && RequestFollows(s, s', id)
    ensures Granted(s'.requests[id].status) && !Granted(s.requests[id].status) ==> call == ApproveCommit(id)
  {
  }

  lemma ServiceApprovals(s: State, call: ServiceStep, s': State, id: string)
    requires ServiceEnabled(s, call) && s' == ApplyService(s, call) && id in s'.holds && s'.holds[id].Approving?
    ensures s'.holds[id].at == s.clock || (id in s.holds && s.holds[id].Approving? && s'.holds[id].at == s.holds[id].at)
  {
  }

  lemma MarkFrame(s: State, job: nat, mark: MarkStep, s': State)
    requires MarkEnabled(s, job, mark) && s' == ApplyMark(s, job, mark)
    ensures s'.bindings == s.bindings && s'.passes == s.passes && s'.clock == s.clock && s'.nextUid == s.nextUid
    ensures s'.policies == s.policies && s'.requests.Keys == s.requests.Keys
    ensures forall other <- s'.jobs | other != job :: other in s.jobs && s'.jobs[other] == s.jobs[other]
    ensures forall id <- s'.holds | !s'.holds[id].Marking? :: id in s.holds && s'.holds[id] == s.holds[id]
  {
  }

  lemma MarkRequestFate(s: State, job: nat, mark: MarkStep, s': State, id: string)
    requires JobsOk(s) && MarkEnabled(s, job, mark) && s' == ApplyMark(s, job, mark) && id in s.requests
    ensures id in s'.requests && RequestFollows(s, s', id)
    ensures s'.requests[id] != s.requests[id] ==>
              mark.Commit? && id in s.jobs[job].selected && s'.requests[id] == s.requests[id].(status := Expired)
  {
    assert job in s.jobs ==> JobOk(s, s.jobs[job]);
  }

  lemma StepEvolves(s: State, step: Step, s': State)
    requires Inv(s) && Enabled(s, step) && s' == Apply(s, step)
    ensures Evolves(s, s')
  {
    match step
    case Service(call) =>
      ServiceAges(s, call, s');
      forall id <- s.requests ensures id in s'.requests && RequestFollows(s, s', id) {
        ServiceRequestFate(s, call, s', id);
      }
      forall id <- s'.holds | s'.holds[id].Approving?
        ensures s'.holds[id].at == s.clock || (id in s.holds && s.holds[id].Approving?
                                               && s'.holds[id].at == s.holds[id].at)
      {
        ServiceApprovals(s, call, s', id);
      }
    case Mark(job, mark) =>
      MarkFrame(s, job, mark, s');
      forall id <- s.requests ensures id in s'.requests && RequestFollows(s, s', id) {
        MarkRequestFate(s, job, mark, s', id);
      }
    case Reap(pass, reap) => ReapIsQuiet(s, pass, reap, s');
    case _ =>
  }

  // ── Each part of the invariant ────────────────────────────────────────────────────────

  /** Only these calls write the row of a request. */
  lemma ServiceWrites(s: State, call: ServiceStep, s': State, id: string)
    requires ServiceEnabled(s, call) && s' == ApplyService(s, call) && id in s'.requests
    ensures s'.clock == s.clock
    ensures || (id in s.requests && s'.requests[id] == s.requests[id])
            || (call.Create? && call.id == id)
            || call == ApproveCommit(id) || call == DenyCommit(id) || call == RevokeCommit(id)
  {
  }

  lemma CreationKeepsRecord(s: State, call: ServiceStep, s': State)
    requires RecordsOk(s) && call.Create? && ServiceEnabled(s, call) && s' == ApplyService(s, call)
    ensures RecordOk(call.id, s'.requests[call.id], s'.clock)
  {
  }

  lemma CommitKeepsRecord(s: State, id: string, call: ServiceStep, s': State)
    requires call == ApproveCommit(id) || call == DenyCommit(id) || call == RevokeCommit(id)
    requires ServiceEnabled(s, call) && s' == ApplyService(s, call)
    requires RecordOk(id, s.requests[id], s.clock) && HoldOk(s, id, s.holds[id])
    ensures RecordOk(id, s'.requests[id], s'.clock)
  {
  }

  lemma ServiceKeepsRecord(s: State, call: ServiceStep, s': State, id: string)
    requires Inv(s) && ServiceEnabled(s, call) && s' == ApplyService(s, call) && id in s'.requests
    ensures RecordOk(id, s'.requests[id], s'.clock)
  {
    ServiceWrites(s, call, s', id);
    hide RecordOk, HoldOk, ApplyService;
    if id in s.requests && s'.requests[id] == s.requests[id] {
      assert RecordOk(id, s.requests[id], s.clock);
    } else if call.Create? {
      CreationKeepsRecord(s, call, s');
    } else {
      CommitKeepsRecord(s, id, call, s');
    }
  }

  lemma MarkKeepsRecord(s: State, job: nat, mark: MarkStep, s': State, id: string)
    requires Inv(s) && MarkEnabled(s, job, mark) && s' == ApplyMark(s, job, mark) && id in s.requests
    ensures id in s'.requests && RecordOk(id, s'.requests[id], s'.clock)
  {
    MarkRequestFate(s, job, mark, s', id);
    assert RecordOk(id, s.requests[id], s.clock);
    assert job in s.jobs ==> JobOk(s, s.jobs[job]);
  }

  lemma ServiceKeepsPolicies(s: State, call: ServiceStep, s': State)
    requires RecordsOk(s) && ServiceEnabled(s, call) && s' == ApplyService(s, call)
    ensures forall k <- s'.policies :: s'.policies[k].maxTtl.Some? ==> s'.policies[k].maxTtl.value <= MAX_TTL_MINUTES
  {
  }

  lemma OlderRecordsOk(s: State, s': State)
    requires RecordsOk(s) && s'.requests == s.requests && s'.policies == s.policies && s.clock <= s'.clock
    ensures RecordsOk(s')
  {
    forall id <- s'.requests ensures RecordOk(id, s'.requests[id], s'.clock) {
      assert RecordOk(id, s.requests[id], s.clock);
    }
  }

  lemma RecordsKept(s: State, step: Step, s': State)
    requires Inv(s) && Enabled(s, step) && s' == Apply(s, step)
    ensures RecordsOk(s')
  {
    match step
    case Service(call) =>
      ServiceKeepsPolicies(s, call, s');
      forall id <- s'.requests ensures RecordOk(id, s'.requests[id], s'.clock) { ServiceKeepsRecord(s, call, s', id); }
    case Mark(job, mark) =>
      MarkFrame(s, job, mark, s');
      forall id <- s'.requests ensures RecordOk(id, s'.requests[id], s'.clock) {
        MarkKeepsRecord(s, job, mark, s', id);
      }
    case Reap(pass, reap) =>
      ReapIsQuiet(s, pass, reap, s');
      OlderRecordsOk(s, s');
    case _ =>
      OlderRecordsOk(s, s');
  }

  lemma OldGrantKept(s: State, s': State, site: Site)
    requires Inv(s) && Evolves(s, s')
    requires site in s.bindings && site in s'.bindings && s'.bindings[site].jit
    ensures GrantOk(s', site, s'.bindings[site])
  {
    assert GrantOk(s, site, s.bindings[site]);
    var id := s.bindings[site].request.value;
    assert RequestFollows(s, s', id);
  }

  lemma NewGrantOk(s: State, id: string, s': State, site: Site)
    requires Inv(s) && ServiceEnabled(s, ApproveBind(id)) && s' == ApplyService(s, ApproveBind(id))
    requires site !in s.bindings && site in s'.bindings
    ensures GrantOk(s', site, s'.bindings[site])
  {
    assert HoldOk(s, id, s.holds[id]);
    assert RecordOk(id, s.requests[id], s.clock);
  }

  lemma GrantsKept(s: State, step: Step, s': State)
    requires Inv(s) && Enabled(s, step) && s' == Apply(s, step)
    ensures GrantsOk(s')
  {
    StepEvolves(s, step, s');
    forall site <- s'.bindings | s'.bindings[site].jit ensures GrantOk(s', site, s'.bindings[site]) {
      if site in s.bindings {
        OldGrantKept(s, s', site);
      } else {
        match step
        case Service(call) =>
          ServiceAges(s, call, s');
          NewGrantOk(s, call.id, s', site);
        case Mark(job, mark) => MarkFrame(s, job, mark, s');
        case Reap(pass, reap) => ReapIsQuiet(s, pass, reap, s');
        case _ =>
      }
    }
  }

  /** A hold that no step of its own changes stays justified, as only its holder may touch its row. */
  lemma IdleHoldKept(s: State, call: ServiceStep, s': State, id: string)
    requires ServiceEnabled(s, call) && s' == ApplyService(s, call)
    requires id in s.holds && id in s'.holds && s'.holds[id] == s.holds[id] && HoldOk(s, id, s.holds[id])
    ensures HoldOk(s', id, s'.holds[id])
  {
    IdleRowKept(s, call, s', id);
    if s.holds[id].Revoking? && s.holds[id].unbound {
      forall site <- s'.bindings | site.cluster == s.holds[id].cluster ensures !GrantAt(s', id, site) {
        NotGrantedMeanwhile(s, call, s', id, site);
      }
    }
    hide ServiceEnabled, ApplyService;
  }

  /** The request is the holder's to change. */
  lemma IdleRowKept(s: State, call: ServiceStep, s': State, id: string)
    requires ServiceEnabled(s, call) && s' == ApplyService(s, call) && id in s.requests
    requires id in s.holds && id in s'.holds && s'.holds[id] == s.holds[id]
    ensures id in s'.requests && s'.requests[id] == s.requests[id] && s'.clock == s.clock && s'.jobs == s.jobs
  {
  }

  /** And nobody else grants it. */
  lemma NotGrantedMeanwhile(s: State, call: ServiceStep, s': State, id: string, site: Site)
    requires ServiceEnabled(s, call) && s' == ApplyService(s, call) && id in s.holds && s.holds[id].Revoking?
    requires !GrantAt(s, id, site)
    ensures !GrantAt(s', id, site)
  {
  }

  lemma OwnHoldKept(s: State, call: ServiceStep, s': State, id: string)
    requires Inv(s) && ServiceEnabled(s, call) && s' == ApplyService(s, call)
    requires id in s'.holds && (id in s.holds ==> s'.holds[id] != s.holds[id])
    ensures HoldOk(s', id, s'.holds[id])
  {
    assert id in s.requests ==> RecordOk(id, s.requests[id], s.clock);
    assert id in s.holds ==> HoldOk(s, id, s.holds[id]);
    if call.RevokeUnbind? {
      forall site <- s'.bindings | site.cluster == s.holds[id].cluster ensures !GrantAt(s', id, site) {
        assert s.bindings[site].jit ==> GrantOk(s, site, s.bindings[site]);
      }
    }
  }

  lemma MarkKeepsHold(s: State, job: nat, mark: MarkStep, s': State, id: string)
    requires Inv(s) && MarkEnabled(s, job, mark) && s' == ApplyMark(s, job, mark) && id in s'.holds
    ensures HoldOk(s', id, s'.holds[id])
  {
    assert id in s.holds ==> HoldOk(s, id, s.holds[id]);
    assert job in s.jobs ==> JobOk(s, s.jobs[job]);
  }

  lemma QuietKeepsHolds(s: State, s': State)
    requires Inv(s) && Quiet(s, s')
    ensures HoldsOk(s')
  {
    forall id <- s'.holds ensures HoldOk(s', id, s'.holds[id]) {
      assert HoldOk(s, id, s.holds[id]);
    }
  }

  lemma HoldsKept(s: State, step: Step, s': State)
    requires Inv(s) && Enabled(s, step) && s' == Apply(s, step)
    ensures HoldsOk(s')
  {
    match step
    case Service(call) =>
      forall id <- s'.holds ensures HoldOk(s', id, s'.holds[id]) {
        if id in s.holds && s'.holds[id] == s.holds[id] {
          IdleHoldKept(s, call, s', id);
        } else {
          OwnHoldKept(s, call, s', id);
        }
      }
    case Mark(job, mark) =>
      forall id <- s'.holds ensures HoldOk(s', id, s'.holds[id]) { MarkKeepsHold(s, job, mark, s', id); }
    case Reap(pass, reap) =>
      ReapIsQuiet(s, pass, reap, s');
      QuietKeepsHolds(s, s');
    case _ =>
      QuietKeepsHolds(s, s');
  }

  lemma IdleJobKept(s: State, s': State, job: Job)
    requires JobOk(s, job) && Evolves(s, s')
    ensures JobOk(s', job)
  {
    forall id <- job.selected
      ensures id in s'.requests && Granted(s'.requests[id].status)
              && s'.requests[id].expiresAt == s.requests[id].expiresAt
    {
      assert RequestFollows(s, s', id);
    }
  }

  lemma NewJobOk(s: State, job: nat, s': State)
    requires Inv(s) && MarkEnabled(s, job, Select) && s' == ApplyMark(s, job, Select)
    ensures JobOk(s', s'.jobs[job])
  {
  }

  lemma IdleJobsKept(s: State, s': State)
    requires JobsOk(s) && Evolves(s, s') && s'.jobs == s.jobs
    ensures JobsOk(s')
  {
    forall job <- s'.jobs ensures JobOk(s', s'.jobs[job]) { IdleJobKept(s, s', s.jobs[job]); }
  }

  lemma MarkKeepsJobs(s: State, job: nat, mark: MarkStep, s': State)
    requires Inv(s) && MarkEnabled(s, job, mark) && s' == ApplyMark(s, job, mark) && Evolves(s, s')
    ensures JobsOk(s')
  {
    MarkFrame(s, job, mark, s');
    if mark.Select? { NewJobOk(s, job, s'); }
    forall other <- s'.jobs ensures JobOk(s', s'.jobs[other]) {
      if !(mark.Select? && other == job) { IdleJobKept(s, s', s.jobs[other]); }
    }
  }

  lemma JobsKept(s: State, step: Step, s': State)
    requires Inv(s) && Enabled(s, step) && s' == Apply(s, step)
    ensures JobsOk(s')
  {
    StepEvolves(s, step, s');
    match step
    case Mark(job, mark) => MarkKeepsJobs(s, job, mark, s');
    case Service(call) =>
      ServiceAges(s, call, s');
      IdleJobsKept(s, s');
    case Reap(pass, reap) =>
      ReapIsQuiet(s, pass, reap, s');
      IdleJobsKept(s, s');
    case _ =>
      IdleJobsKept(s, s');
  }

  /** What a pass owns survives every step that is not its own. */
  lemma IdlePassKept(s: State, s': State, p: Pass)
    requires PassOk(s, p) && BindingsAge(s, s')
    ensures PassOk(s', p)
  {
  }

  lemma ListingOk(s: State, p: Pass, clusterWide: bool, p': Pass)
    requires PassOk(s, p) && (forall site <- s.bindings :: s.bindings[site].uid < s.nextUid)
    requires if clusterWide then p.phase == Begun else p.phase == ClusterWide && p.todo == map[]
    requires p' == p.(phase := if clusterWide then ClusterWide else Namespaced,
                      todo := Listing(s, p.cluster, clusterWide, p.now))
    ensures PassOk(s, p')
  {
  }

  lemma DeletionOk(s: State, p: Pass, site: Site, s': State, p': Pass)
    requires PassOk(s, p) && site in p.todo && p' == p.(todo := p.todo - {site})
    requires s'.bindings == s.bindings - {site} && s'.clock == s.clock && s'.nextUid == s.nextUid
    ensures PassOk(s', p')
  {
  }

  lemma ReapKeepsPass(s: State, pass: nat, reap: PassStep, s': State)
    requires Inv(s) && ReapEnabled(s, pass, reap) && s' == ApplyReap(s, pass, reap)
    ensures PassOk(s', s'.passes[pass])
  {
    match reap
    case Start(_) =>
    case ListClusterWide =>
      ListingOk(s, s.passes[pass], true, s'.passes[pass]);
      IdlePassKept(s, s', s'.passes[pass]);
    case ListNamespaced =>
      ListingOk(s, s.passes[pass], false, s'.passes[pass]);
      IdlePassKept(s, s', s'.passes[pass]);
    case Delete(site) =>
      DeletionOk(s, s.passes[pass], site, s', s'.passes[pass]);
    case Finish => assert PassOk(s, s.passes[pass]);
    case Abort => assert PassOk(s, s.passes[pass]);
  }

  lemma IdlePassesKept(s: State, s': State)
    requires PassesOk(s) && BindingsAge(s, s') && s'.passes == s.passes
    ensures PassesOk(s')
  {
    forall pass <- s'.passes ensures PassOk(s', s'.passes[pass]) { IdlePassKept(s, s', s.passes[pass]); }
  }

  lemma PassesKept(s: State, step: Step, s': State)
    requires Inv(s) && Enabled(s, step) && s' == Apply(s, step)
    ensures PassesOk(s')
  {
    match step
    case Reap(pass, reap) =>
      ReapKeepsPass(s, pass, reap, s');
      ReapIsQuiet(s, pass, reap, s');
      forall other <- s'.passes | other != pass ensures PassOk(s', s'.passes[other]) {
        IdlePassKept(s, s', s.passes[other]);
      }
    case Service(call) =>
      ServiceAges(s, call, s');
      IdlePassesKept(s, s');
    case Mark(job, mark) =>
      MarkFrame(s, job, mark, s');
      IdlePassesKept(s, s');
    case _ =>
      IdlePassesKept(s, s');
  }

  /** The protocol's invariant is inductive. */
  lemma StepKeepsInv(s: State, step: Step)
    requires Inv(s) && Enabled(s, step)
    ensures Inv(Apply(s, step))
  {
    var s' := Apply(s, step);
    RecordsKept(s, step, s');
    GrantsKept(s, step, s');
    HoldsKept(s, step, s');
    JobsKept(s, step, s');
    PassesKept(s, step, s');
  }
}
