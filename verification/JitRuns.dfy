/** Safety of the grant protocol over whole runs. */
module JitRuns {
  import opened Common
  import opened JitProtocol
  import opened JitInvariant

  datatype Run = Run(states: seq<State>, steps: seq<Step>)

  predicate StepAt(r: Run, n: nat) {
    n < |r.steps| && n + 1 < |r.states| && Enabled(r.states[n], r.steps[n])
    && r.states[n + 1] == Apply(r.states[n], r.steps[n])
  }

  predicate IsRun(r: Run) {
    && |r.states| == |r.steps| + 1
    && Initial(r.states[0])
    && forall n: nat | n < |r.steps| :: StepAt(r, n)
  }

  /** Every reachable state satisfies the invariant. */
  lemma {:induction false} RunInv(r: Run, n: nat)
    requires IsRun(r) && n < |r.states|
    ensures Inv(r.states[n])
  {
    if n == 0 {
      InitialInv(r.states[0]);
    } else {
      RunInv(r, n - 1);
      assert StepAt(r, n - 1);
      StepKeepsInv(r.states[n - 1], r.steps[n - 1]);
    }
  }

  /** Steps taken on from the end of a run make a longer run that begins with it, so whatever holds of
      all runs holds of what the program's own calls add to any run. */
  lemma {:induction false} RunOn(r: Run, steps: seq<Step>, s': State) returns (e: Run)
    requires IsRun(r) && Follows(r.states[|r.steps|], steps, s')
    ensures IsRun(e) && e.steps == r.steps + steps && r.states <= e.states && e.states[|e.steps|] == s'
    decreases |steps|
  {
    if steps == [] {
      assert r.steps + steps == r.steps;
      e := r;
    } else {
      var s1 := Apply(r.states[|r.steps|], steps[0]);
      var r1 := Run(r.states + [s1], r.steps + [steps[0]]);
      forall n: nat | n < |r1.steps| ensures StepAt(r1, n) {
        assert n < |r.steps| ==> StepAt(r, n);
      }
      e := RunOn(r1, steps[1..], s');
      assert r1.steps + steps[1..] == r.steps + steps;
    }
  }

  lemma RunEvolves(r: Run, n: nat)
    requires IsRun(r) && n < |r.steps|
    ensures Evolves(r.states[n], r.states[n + 1])
  {
    RunInv(r, n);
    assert StepAt(r, n);
    StepEvolves(r.states[n], r.steps[n], r.states[n + 1]);
  }

  // ── The life of a request ─────────────────────────────────────────────────────────────

  /** The only status changes there are, each with the step that makes it. */
  predicate LawfulChange(s: State, step: Step, id: string, was: Status, now: Status) {
    || now == was
    || (was == Pending && now == Approved && step == Service(ApproveCommit(id)))
    || (was == Pending && now == Denied && step == Service(DenyCommit(id)))
    || (was == Approved && now == Revoked && step == Service(RevokeCommit(id)))
    || ((was == Approved || was == Revoked) && now == Expired && step.Mark? && step.mark.Commit?
        && step.job in s.jobs && id in s.jobs[step.job].selected)
  }

  lemma ServiceStatus(s: State, call: ServiceStep, s': State, id: string)
    requires Inv(s) && ServiceEnabled(s, call) && s' == ApplyService(s, call) && id in s.requests
    ensures id in s'.requests && LawfulChange(s, Service(call), id, s.requests[id].status, s'.requests[id].status)
  {
    assert id in s.holds ==> HoldOk(s, id, s.holds[id]);
    hide Inv;
  }

  /** Every status change in every interleaving is lawful, and no request disappears. */
  lemma StatusChanges(r: Run, n: nat, id: string)
    requires IsRun(r) && n < |r.steps| && id in r.states[n].requests
    ensures id in r.states[n + 1].requests
    ensures LawfulChange(r.states[n], r.steps[n], id, r.states[n].requests[id].status,
                         r.states[n + 1].requests[id].status)
  {
    var s, s' := r.states[n], r.states[n + 1];
    RunInv(r, n);
    assert StepAt(r, n);
    match r.steps[n]
    case Service(call) => ServiceStatus(s, call, s', id);
    case Mark(job, mark) =>
      assert job in s.jobs ==> JobOk(s, s.jobs[job]);
      MarkRequestFate(s, job, mark, s', id);
    case Reap(pass, reap) => ReapIsQuiet(s, pass, reap, s');
    case _ =>
  }

  /** A request that has left `pending` never returns to it. */
  lemma {:induction false} NeverPendingAgain(r: Run, i: nat, k: nat, id: string)
    requires IsRun(r) && i <= k < |r.states| && id in r.states[i].requests && r.states[i].requests[id].status != Pending
    ensures id in r.states[k].requests && r.states[k].requests[id].status != Pending
    decreases k
  {
    if i < k {
      NeverPendingAgain(r, i, k - 1, id);
      StatusChanges(r, k - 1, id);
    }
  }

  /** A request is approved at most once. */
  lemma ApprovedAtMostOnce(r: Run, i: nat, k: nat, id: string)
    requires IsRun(r) && i < |r.steps| && k < |r.steps|
    requires r.steps[i] == Service(ApproveCommit(id)) && r.steps[k] == Service(ApproveCommit(id))
    ensures i == k
  {
    if i != k {
      var first, second := if i < k then i else k, if i < k then k else i;
      RunInv(r, first);
      assert StepAt(r, first);
      assert StepAt(r, second);
      RunInv(r, second);
      NeverPendingAgain(r, first + 1, second, id);
    }
  }

  lemma StepSelection(s: State, step: Step, s': State, job: nat)
    requires Enabled(s, step) && s' == Apply(s, step) && job in s'.jobs
    ensures || (step == Mark(job, Select) && s'.jobs[job].selected == Selection(s.requests, s.clock))
            || (job in s.jobs && s'.jobs[job] == s.jobs[job])
  {
    match step
    case Mark(j, mark) => MarkFrame(s, j, mark, s');
    case Service(call) => ServiceAges(s, call, s');
    case Reap(pass, reap) => ReapIsQuiet(s, pass, reap, s');
    case _ =>
  }

  /** A job's selection was made by its SELECT, when every selected row was approved and due. */
  lemma {:induction false} SelectionOrigin(r: Run, n: nat, job: nat, id: string) returns (i: nat)
    requires IsRun(r) && n < |r.states| && job in r.states[n].jobs && id in r.states[n].jobs[job].selected
    ensures i < n && r.steps[i] == Mark(job, Select) && RequestHas(r.states[i], id, Approved)
  {
    assert StepAt(r, n - 1);
    StepSelection(r.states[n - 1], r.steps[n - 1], r.states[n], job);
    if r.steps[n - 1] == Mark(job, Select) {
      i := n - 1;
    } else {
      i := SelectionOrigin(r, n - 1, job, id);
    }
  }

  lemma {:induction false} RevocationOrigin(r: Run, i: nat, n: nat, id: string) returns (j: nat)
    requires IsRun(r) && i <= n < |r.states| && RequestHas(r.states[i], id, Approved)
             && RequestHas(r.states[n], id, Revoked)
    ensures i <= j < n && r.steps[j] == Service(RevokeCommit(id))
    decreases n
  {
    RequestsPersist(r, i, n - 1, id);
    StatusChanges(r, n - 1, id);
    if r.steps[n - 1] == Service(RevokeCommit(id)) {
      j := n - 1;
    } else {
      j := RevocationOrigin(r, i, n - 1, id);
    }
  }

  lemma {:induction false} RequestsPersist(r: Run, i: nat, k: nat, id: string)
    requires IsRun(r) && i <= k < |r.states| && id in r.states[i].requests
    ensures id in r.states[k].requests && SameAsk(r.states[i].requests[id], r.states[k].requests[id])
    decreases k
  {
    if i < k {
      RequestsPersist(r, i, k - 1, id);
      RunEvolves(r, k - 1);
      assert RequestFollows(r.states[k - 1], r.states[k], id);
    }
  }

  /** `mark_expired` overwrites a revocation only when its SELECT came before the revoke's commit. */
  lemma RevokedOverwrittenOnlyByStaleSelect(r: Run, n: nat, id: string) returns (i: nat, j: nat)
    requires IsRun(r) && n < |r.steps| && RequestHas(r.states[n], id, Revoked)
             && RequestHas(r.states[n + 1], id, Expired)
    ensures i <= j < n && r.steps[n].Mark? && r.steps[n].mark.Commit?
    ensures r.steps[i] == Mark(r.steps[n].job, Select) && RequestHas(r.states[i], id, Approved)
    ensures r.steps[j] == Service(RevokeCommit(id))
  {
    StatusChanges(r, n, id);
    i := SelectionOrigin(r, n, r.steps[n].job, id);
    j := RevocationOrigin(r, i, n, id);
  }

  // ── Bindings and the request they stand for ───────────────────────────────────────────

  /** A binding found at the end of an interval was there at its start, or an identity born in between. */
  lemma {:induction false} BindingsAgeOverRun(r: Run, i: nat, k: nat)
    requires IsRun(r) && i <= k < |r.states|
    ensures var s, s' := r.states[i], r.states[k];
            && s.nextUid <= s'.nextUid && s.clock <= s'.clock
            && forall site <- s'.bindings ::
                 s'.bindings[site].uid >= s.nextUid || (site in s.bindings && s'.bindings[site] == s.bindings[site])
    decreases k
  {
    if i < k {
      BindingsAgeOverRun(r, i, k - 1);
      RunEvolves(r, k - 1);
    }
  }

  lemma StepGrant(s: State, step: Step, s': State, id: string, site: Site)
    requires Enabled(s, step) && s' == Apply(s, step) && GrantAt(s', id, site) && site !in s.bindings
    ensures step == Service(ApproveBind(id)) && id in s.requests && id in s.holds && s.holds[id].Approving?
    ensures s.holds[id].cluster == site.cluster
    ensures s'.bindings[site].expiry == At(s.holds[id].at + s.requests[id].ttl * MINUTE)
    ensures id in s'.holds && s'.holds[id] == s.holds[id].(bound := true)
  {
    match step
    case Service(call) => ServiceAges(s, call, s');
    case Mark(job, mark) => MarkFrame(s, job, mark, s');
    case Reap(pass, reap) => ReapIsQuiet(s, pass, reap, s');
    case _ =>
  }

  lemma {:induction false} GrantOrigin(r: Run, n: nat, id: string, site: Site) returns (i: nat)
    requires IsRun(r) && n < |r.states| && GrantAt(r.states[n], id, site)
    ensures i < n && r.steps[i] == Service(ApproveBind(id)) && site !in r.states[i].bindings
    ensures site in r.states[i + 1].bindings && r.states[i + 1].bindings[site] == r.states[n].bindings[site]
    ensures id in r.states[i].requests && id in r.states[i].holds && r.states[i].holds[id].Approving?
    ensures r.states[i].holds[id].cluster == site.cluster
    ensures r.states[n].bindings[site].expiry == At(r.states[i].holds[id].at + r.states[i].requests[id].ttl * MINUTE)
    ensures id in r.states[i + 1].holds && r.states[i + 1].holds[id] == r.states[i].holds[id].(bound := true)
  {
    if site in r.states[n - 1].bindings {
      RunEvolves(r, n - 1);
      i := GrantOrigin(r, n - 1, id, site);
    } else {
      i := n - 1;
      assert StepAt(r, i);
      StepGrant(r.states[i], r.steps[i], r.states[n], id, site);
    }
  }

  lemma ServiceApproval(s: State, call: ServiceStep, s': State, id: string)
    requires ServiceEnabled(s, call) && s' == ApplyService(s, call) && id in s'.holds && s'.holds[id].Approving?
    ensures var hold := s'.holds[id];
            || (call == ApproveCheck(id, hold.reviewer, hold.cluster) && hold.at == s.clock)
            || (id in s.holds && s.holds[id].Approving? && hold == s.holds[id].(bound := hold.bound))
  {
  }

  lemma StepApproval(s: State, step: Step, s': State, id: string)
    requires Enabled(s, step) && s' == Apply(s, step) && id in s'.holds && s'.holds[id].Approving?
    ensures var hold := s'.holds[id];
            || (step == Service(ApproveCheck(id, hold.reviewer, hold.cluster)) && hold.at == s.clock)
            || (id in s.holds && s.holds[id].Approving? && hold == s.holds[id].(bound := hold.bound))
  {
    match step
    case Service(call) => ServiceApproval(s, call, s', id);
    case Mark(job, mark) => MarkFrame(s, job, mark, s');
    case Reap(pass, reap) => ReapIsQuiet(s, pass, reap, s');
    case _ =>
  }

  /** The check that started an approval in progress. */
  lemma {:induction false} ApprovalOrigin(r: Run, n: nat, id: string) returns (h: nat)
    requires IsRun(r) && n < |r.states| && id in r.states[n].holds && r.states[n].holds[id].Approving?
    ensures var hold := r.states[n].holds[id];
            && h < n && r.steps[h] == Service(ApproveCheck(id, hold.reviewer, hold.cluster))
            && r.states[h].clock == hold.at && Enabled(r.states[h], r.steps[h])
  {
    var hold := r.states[n].holds[id];
    assert StepAt(r, n - 1);
    StepApproval(r.states[n - 1], r.steps[n - 1], r.states[n], id);
    if r.steps[n - 1] == Service(ApproveCheck(id, hold.reviewer, hold.cluster)) && hold.at == r.states[n - 1].clock {
      h := n - 1;
    } else {
      h := ApprovalOrigin(r, n - 1, id);
    }
  }

  /** The stored request asks for what the create call was given. */
  predicate AskedBy(step: Step, id: string, r: Request) {
    && step.Service? && step.call.Create? && step.call.id == id
    && r.requester == step.call.requester && r.subject == step.call.subject && r.namespace == step.call.namespace
    && r.roleKind == step.call.roleKind && r.roleName == step.call.roleName && r.ttl == step.call.ttl
  }

  lemma ServiceAsk(s: State, call: ServiceStep, s': State, id: string)
    requires ServiceEnabled(s, call) && s' == ApplyService(s, call) && id in s'.requests && id !in s.requests
    ensures AskedBy(Service(call), id, s'.requests[id])
  {
  }

  /** Every stored request was created by a call that asked for just that. */
  lemma {:induction false} AskOrigin(r: Run, n: nat, id: string) returns (c: nat)
    requires IsRun(r) && n < |r.states| && id in r.states[n].requests
    ensures c < n && AskedBy(r.steps[c], id, r.states[n].requests[id])
  {
    var s, s' := r.states[n - 1], r.states[n];
    if id in s.requests {
      c := AskOrigin(r, n - 1, id);
      RequestsPersist(r, n - 1, n, id);
    } else {
      c := n - 1;
      assert StepAt(r, c);
      match r.steps[c]
      case Service(call) => ServiceAsk(s, call, s', id);
      case Mark(job, mark) => MarkFrame(s, job, mark, s');
      case Reap(pass, reap) => ReapIsQuiet(s, pass, reap, s');
      case _ =>
    }
  }

  /** Every labelled binding of every cluster is what the create call of its request asked for, and
      stems from an approval on that cluster by someone other than the requester, allowed by the
      policy of that instant; it expires that instant plus the TTL asked for. */
  lemma GrantProvenance(r: Run, n: nat, site: Site) returns (c: nat, h: nat, id: string, reviewer: string)
    requires IsRun(r) && n < |r.states| && site in r.states[n].bindings && r.states[n].bindings[site].jit
    ensures c < h < n && r.steps[h] == Service(ApproveCheck(id, reviewer, site.cluster))
    ensures r.steps[c].Service? && r.steps[c].call.Create? && r.steps[c].call.id == id
    ensures var ask, b := r.steps[c].call, r.states[n].bindings[site];
            && site == Site(site.cluster, ask.namespace, "clustervision-jit-" + id) && b.request == Some(id)
            && b.subject == ask.subject && b.roleKind == ask.roleKind && b.roleName == ask.roleName
            && b.expiry == At(r.states[h].clock + ask.ttl * 60_000_000) && 5 <= ask.ttl <= 1440
            && reviewer != ask.requester
    ensures var ask, policies := r.steps[c].call, r.states[h].policies;
            (ask.roleKind, ask.roleName) in policies ==>
              && policies[(ask.roleKind, ask.roleName)].eligible
              && (policies[(ask.roleKind, ask.roleName)].maxTtl.Some? ==>
                    ask.ttl <= policies[(ask.roleKind, ask.roleName)].maxTtl.value)
  {
    RunInv(r, n);
    assert GrantOk(r.states[n], site, r.states[n].bindings[site]);
    id := r.states[n].bindings[site].request.value;
    var i := GrantOrigin(r, n, id, site);
    h := ApprovalOrigin(r, i, id);
    reviewer := r.states[i].holds[id].reviewer;
    RunInv(r, h);
    assert RecordOk(id, r.states[h].requests[id], r.states[h].clock);
    c := AskOrigin(r, h, id);
    RequestsPersist(r, h, i, id);
    RequestsPersist(r, h, n, id);
  }

  /** Once a request has left `pending`, no binding for it ever appears again, on any cluster. */
  lemma {:induction false} NoGrantAfterDecision(r: Run, i: nat, k: nat, id: string, site: Site)
    requires IsRun(r) && i <= k < |r.states| && id in r.states[i].requests && r.states[i].requests[id].status != Pending
    requires GrantAt(r.states[k], id, site)
    ensures GrantAt(r.states[i], id, site) && r.states[i].bindings[site] == r.states[k].bindings[site]
  {
    var j := GrantOrigin(r, k, id, site);
    if i <= j {
      NeverPendingAgain(r, i, j, id);
      RunInv(r, j);
    } else {
      BindingsAgeOverRun(r, i, k);
      RunInv(r, k);
      GrantAlreadyThere(r, j + 1, i, k, site);
    }
  }

  lemma GrantAlreadyThere(r: Run, j: nat, i: nat, k: nat, site: Site)
    requires IsRun(r) && j <= i <= k < |r.states|
    requires site in r.states[j].bindings && site in r.states[k].bindings
             && r.states[j].bindings[site] == r.states[k].bindings[site]
    ensures site in r.states[i].bindings && r.states[i].bindings[site] == r.states[k].bindings[site]
  {
    RunInv(r, j);
    BindingsAgeOverRun(r, j, i);
    BindingsAgeOverRun(r, i, k);
  }
}
