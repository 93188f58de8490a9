/** Revocation, orphaned bindings and the cleanup job, over whole runs. */
module JitSafety {
  import opened Common
  import opened JitProtocol
  import opened JitInvariant
  import opened JitRuns

  // ── Revocation ────────────────────────────────────────────────────────────────────────

  /** The cluster a service call names for request `id`, if it names one. */
  predicate CallsCluster(step: Step, id: string, cluster: string) {
    || (step.Service? && step.call.ApproveCheck? && step.call.id == id && step.call.cluster == cluster)
    || (step.Service? && step.call.RevokeCheck? && step.call.id == id && step.call.cluster == cluster)
  }

  /** Every approve and revoke of request `id` in the run is sent to cluster `home`. */
  ghost predicate HomeRun(r: Run, id: string, home: string) {
    forall n: nat, c | n < |r.steps| && CallsCluster(r.steps[n], id, c) :: c == home
  }

  predicate HomeOk(s: State, id: string, home: string) {
    && (forall site <- s.bindings :: GrantAt(s, id, site) ==> site.cluster == home)
    && (id in s.holds && s.holds[id].Approving? ==> s.holds[id].cluster == home)
    && (id in s.holds && s.holds[id].Revoking? ==> s.holds[id].cluster == home)
    && (RequestHas(s, id, Revoked) ==> forall site <- s.bindings :: !GrantAt(s, id, site))
  }

  lemma ServiceCluster(s: State, call: ServiceStep, s': State, id: string)
    requires ServiceEnabled(s, call) && s' == ApplyService(s, call) && id in s'.holds
    requires s'.holds[id].Approving? || s'.holds[id].Revoking?
    ensures || CallsCluster(Service(call), id, s'.holds[id].cluster)
            || (id in s.holds && (s.holds[id].Approving? || s.holds[id].Revoking?)
                && s'.holds[id].cluster == s.holds[id].cluster)
  {
  }

  lemma StepCluster(s: State, step: Step, s': State, id: string)
    requires Enabled(s, step) && s' == Apply(s, step) && id in s'.holds
    requires s'.holds[id].Approving? || s'.holds[id].Revoking?
    ensures || CallsCluster(step, id, s'.holds[id].cluster)
            || (id in s.holds && (s.holds[id].Approving? || s.holds[id].Revoking?)
                && s'.holds[id].cluster == s.holds[id].cluster)
  {
    match step
    case Service(call) => ServiceCluster(s, call, s', id);
    case Mark(job, mark) => MarkFrame(s, job, mark, s');
    case Reap(pass, reap) => ReapIsQuiet(s, pass, reap, s');
    case _ =>
  }

  /** A request turns `revoked` only when its binding on the revoking cluster is gone. */
  lemma RevokeCommits(s: State, id: string, s': State)
    requires Inv(s) && ServiceEnabled(s, RevokeCommit(id)) && s' == ApplyService(s, RevokeCommit(id))
    ensures s'.bindings == s.bindings && id in s.holds && s.holds[id].Revoking?
    ensures forall site <- s.bindings :: site.cluster == s.holds[id].cluster ==> !GrantAt(s, id, site)
  {
    assert HoldOk(s, id, s.holds[id]);
  }

  lemma HomeKept(r: Run, n: nat, id: string, home: string)
    requires IsRun(r) && HomeRun(r, id, home) && n < |r.steps| && HomeOk(r.states[n], id, home)
    ensures HomeOk(r.states[n + 1], id, home)
  {
    var s, step, s' := r.states[n], r.steps[n], r.states[n + 1];
    assert StepAt(r, n);
    if id in s'.holds && (s'.holds[id].Approving? || s'.holds[id].Revoking?) {
      StepCluster(s, step, s', id);
    }
    forall site <- s'.bindings | GrantAt(s', id, site)
      ensures site.cluster == home && !RequestHas(s', id, Revoked)
    {
      GrantStaysHome(r, n, id, home, site);
    }
  }

  lemma GrantStaysHome(r: Run, n: nat, id: string, home: string, site: Site)
    requires IsRun(r) && n < |r.steps| && HomeOk(r.states[n], id, home) && GrantAt(r.states[n + 1], id, site)
    ensures site.cluster == home && !RequestHas(r.states[n + 1], id, Revoked)
  {
    var s, step, s' := r.states[n], r.steps[n], r.states[n + 1];
    assert StepAt(r, n);
    RunInv(r, n);
    StepEvolves(s, step, s');
    if site !in s.bindings {
      StepGrant(s, step, s', id, site);
      assert HoldOk(s, id, s.holds[id]);
      StatusChanges(r, n, id);
    } else {
      assert GrantAt(s, id, site);
      if RequestHas(s', id, Revoked) {
        assert GrantOk(s, site, s.bindings[site]);
        StatusChanges(r, n, id);
        RevokeCommits(s, id, s');
      }
    }
  }

  lemma {:induction false} RunHome(r: Run, n: nat, id: string, home: string)
    requires IsRun(r) && HomeRun(r, id, home) && n < |r.states|
    ensures HomeOk(r.states[n], id, home)
  {
    if n > 0 {
      RunHome(r, n - 1, id, home);
      HomeKept(r, n - 1, id, home);
    }
  }

  /** When approvals and revocations of a request are all sent to one cluster, then from the
      moment it is revoked it has no binding anywhere and never gets one again, whatever
      crashes, retries and cleanup passes come before or after. */
  lemma RevokedStaysRevoked(r: Run, i: nat, k: nat, id: string, home: string, site: Site)
    requires IsRun(r) && HomeRun(r, id, home) && i <= k < |r.states| && RequestHas(r.states[i], id, Revoked)
    ensures !GrantAt(r.states[k], id, site)
  {
    RunHome(r, i, id, home);
    if GrantAt(r.states[k], id, site) {
      NoGrantAfterDecision(r, i, k, id, site);
    }
  }

  /** One undisturbed `revoke_request` sent to cluster `cluster`. */
  function RevokeOn(s: State, id: string, cluster: string): State
    requires Inv(s) && RequestHas(s, id, Approved) && id !in s.holds
  {
    var s1 := ApplyService(s, RevokeCheck(id, cluster));
    assert RecordOk(id, s.requests[id], s.clock);
    ApplyService(ApplyService(s1, RevokeUnbind(id)), RevokeCommit(id))
  }

  /** It always ends in `revoked`, and leaves no binding exactly when every binding of the
      request was on the cluster it was sent to: a 404 from the wrong cluster is swallowed. */
  lemma RevokeClearsExactly(s: State, id: string, cluster: string)
    requires Inv(s) && RequestHas(s, id, Approved) && id !in s.holds
    ensures RequestHas(RevokeOn(s, id, cluster), id, Revoked)
    ensures (forall site :: !GrantAt(RevokeOn(s, id, cluster), id, site))
            <==> (forall site <- s.bindings :: GrantAt(s, id, site) ==> site.cluster == cluster)
  {
    var r := s.requests[id];
    assert RecordOk(id, r, s.clock);
    var s' := RevokeOn(s, id, cluster);
    assert s'.bindings == s.bindings - {SiteOf(cluster, id, r)};
    forall site <- s.bindings | GrantAt(s, id, site) ensures site == SiteOf(site.cluster, id, r) {
      assert GrantOk(s, site, s.bindings[site]);
    }
    forall site <- s.bindings | GrantAt(s, id, site) && site.cluster != cluster ensures GrantAt(s', id, site) {
    }
  }

  // ── Orphans ───────────────────────────────────────────────────────────────────────────

  predicate BoundHold(s: State, id: string) {
    id in s.holds && s.holds[id].Approving? && s.holds[id].bound
  }

  lemma ServiceOnBoundHold(s: State, call: ServiceStep, s': State, id: string)
    requires ServiceEnabled(s, call) && s' == ApplyService(s, call) && BoundHold(s, id)
    ensures BoundHold(s', id) ==> s'.holds[id] == s.holds[id]
    ensures !BoundHold(s', id) ==> call == Crash(id) || (call == ApproveCommit(id) && RequestHas(s', id, Approved))
  {
  }

  lemma MarkKeepsBoundHold(s: State, job: nat, mark: MarkStep, s': State, id: string)
    requires MarkEnabled(s, job, mark) && s' == ApplyMark(s, job, mark) && BoundHold(s, id)
    ensures BoundHold(s', id) && s'.holds[id] == s.holds[id]
  {
  }

  /** Once an approval has created its binding, it holds the row until it commits or dies. */
  lemma StepOnBoundHold(s: State, step: Step, s': State, id: string)
    requires Enabled(s, step) && s' == Apply(s, step) && BoundHold(s, id)
    ensures BoundHold(s', id) ==> s'.holds[id] == s.holds[id]
    ensures !BoundHold(s', id) ==>
              step == Service(Crash(id)) || (step == Service(ApproveCommit(id)) && RequestHas(s', id, Approved))
  {
    match step
    case Service(call) => ServiceOnBoundHold(s, call, s', id);
    case Mark(job, mark) => MarkKeepsBoundHold(s, job, mark, s', id);
    case Reap(pass, reap) => ReapIsQuiet(s, pass, reap, s');
    case _ =>
  }

  lemma {:induction false} GrantedForGood(r: Run, i: nat, k: nat, id: string)
    requires IsRun(r) && i <= k < |r.states| && id in r.states[i].requests && Granted(r.states[i].requests[id].status)
    ensures id in r.states[k].requests && Granted(r.states[k].requests[id].status)
    decreases k
  {
    if i < k {
      GrantedForGood(r, i, k - 1, id);
      StatusChanges(r, k - 1, id);
    }
  }

  /** From a created binding forward to the end of that approval, if it did not commit. */
  lemma {:induction false} BoundHoldEnd(r: Run, i: nat, n: nat, id: string) returns (j: nat)
    requires IsRun(r) && i <= n < |r.states| && BoundHold(r.states[i], id) && !BoundHold(r.states[n], id)
    requires RequestHas(r.states[n], id, Pending) || RequestHas(r.states[n], id, Denied)
    ensures i <= j < n && r.steps[j] == Service(Crash(id))
    ensures forall q | i <= q <= j :: BoundHold(r.states[q], id) && r.states[q].holds[id] == r.states[i].holds[id]
    decreases n - i
  {
    assert StepAt(r, i);
    StepOnBoundHold(r.states[i], r.steps[i], r.states[i + 1], id);
    if BoundHold(r.states[i + 1], id) {
      j := BoundHoldEnd(r, i + 1, n, id);
    } else {
      if r.steps[i] == Service(ApproveCommit(id)) {
        GrantedForGood(r, i + 1, n, id);
      }
      j := i;
    }
  }

  /** A binding whose request is pending or denied, with no approval about to commit, was created by
      an approval that held the row from then on, unchanged, until it died before its commit. */
  lemma OrphanComesFromCrash(r: Run, n: nat, id: string, site: Site) returns (i: nat, j: nat)
    requires IsRun(r) && n < |r.states| && GrantAt(r.states[n], id, site) && !BoundHold(r.states[n], id)
    requires RequestHas(r.states[n], id, Pending) || RequestHas(r.states[n], id, Denied)
    ensures i < j < n && r.steps[i] == Service(ApproveBind(id)) && r.steps[j] == Service(Crash(id))
    ensures site !in r.states[i].bindings && GrantAt(r.states[i + 1], id, site)
    ensures r.states[i + 1].bindings[site] == r.states[n].bindings[site]
    ensures BoundHold(r.states[i + 1], id) && r.states[i + 1].holds[id].cluster == site.cluster
    ensures forall q | i < q <= j :: BoundHold(r.states[q], id) && r.states[q].holds[id] == r.states[i + 1].holds[id]
  {
    i := GrantOrigin(r, n, id, site);
    j := BoundHoldEnd(r, i + 1, n, id);
  }

  lemma ServiceBinds(s: State, call: ServiceStep, s': State, id: string)
    requires ServiceEnabled(s, call) && s' == ApplyService(s, call) && !BoundHold(s, id) && BoundHold(s', id)
    ensures call == ApproveBind(id) && id in s.requests
    ensures var site := SiteOf(s'.holds[id].cluster, id, s.requests[id]);
            && site !in s.bindings && GrantAt(s', id, site)
            && s'.bindings[site].expiry == At(s'.holds[id].at + s.requests[id].ttl * MINUTE)
  {
  }

  lemma StepBinds(s: State, step: Step, s': State, id: string)
    requires Enabled(s, step) && s' == Apply(s, step) && !BoundHold(s, id) && BoundHold(s', id)
    ensures step.Service?
  {
    match step
    case Service(call) =>
    case Mark(job, mark) => MarkFrame(s, job, mark, s');
    case Reap(pass, reap) => ReapIsQuiet(s, pass, reap, s');
    case _ =>
  }

  /** An approval that has come so far has created its binding, and has held the row since. */
  lemma {:induction false} BindOrigin(r: Run, n: nat, id: string) returns (i: nat)
    requires IsRun(r) && n < |r.states| && BoundHold(r.states[n], id)
    ensures i < n && r.steps[i] == Service(ApproveBind(id)) && id in r.states[i].requests
    ensures forall q | i < q <= n :: BoundHold(r.states[q], id) && r.states[q].holds[id] == r.states[n].holds[id]
    ensures var hold := r.states[n].holds[id];
            var site := SiteOf(hold.cluster, id, r.states[i].requests[id]);
            && site !in r.states[i].bindings && GrantAt(r.states[i + 1], id, site)
            && r.states[i + 1].bindings[site].expiry == At(hold.at + r.states[i].requests[id].ttl * MINUTE)
  {
    assert StepAt(r, n - 1);
    if BoundHold(r.states[n - 1], id) {
      StepOnBoundHold(r.states[n - 1], r.steps[n - 1], r.states[n], id);
      i := BindOrigin(r, n - 1, id);
    } else {
      StepBinds(r.states[n - 1], r.steps[n - 1], r.states[n], id);
      ServiceBinds(r.states[n - 1], r.steps[n - 1].call, r.states[n], id);
      i := n - 1;
    }
  }

  /** No request is approved without its binding: the approval created it before its commit, on the
      cluster it was sent to, in the namespace asked for and with the expiry that the record gets. */
  lemma CommitFollowsBind(r: Run, n: nat, id: string) returns (i: nat, site: Site)
    requires IsRun(r) && n < |r.steps| && r.steps[n] == Service(ApproveCommit(id))
    ensures i < n && r.steps[i] == Service(ApproveBind(id)) && site !in r.states[i].bindings
    ensures GrantAt(r.states[i + 1], id, site) && RequestHas(r.states[n + 1], id, Approved)
    ensures site.name == "clustervision-jit-" + id && site.namespace == r.states[n + 1].requests[id].namespace
    ensures r.states[n + 1].requests[id].expiresAt.Some?
    ensures r.states[i + 1].bindings[site].expiry == At(r.states[n + 1].requests[id].expiresAt.value)
  {
    assert StepAt(r, n);
    i := BindOrigin(r, n, id);
    RequestsPersist(r, i, n, id);
    site := SiteOf(r.states[n].holds[id].cluster, id, r.states[i].requests[id]);
  }

  // ── The cleanup job ───────────────────────────────────────────────────────────────────

  /** No grant outlives the longest TTL from now, and `expired` means every remaining binding
      of the request is already overdue, so that the next pass over its cluster removes it. */
  lemma GrantHorizon(r: Run, n: nat, id: string, site: Site)
    requires IsRun(r) && n < |r.states| && GrantAt(r.states[n], id, site)
    ensures var s := r.states[n];
            && Overdue(s.bindings[site], s.clock + 1440 * 60_000_000)
            && (RequestHas(s, id, Expired) ==> Overdue(s.bindings[site], s.clock))
  {
    RunInv(r, n);
    var s := r.states[n];
    assert GrantOk(s, site, s.bindings[site]);
    assert RecordOk(id, s.requests[id], s.clock);
  }

  lemma ReapFields(s: State, pass: nat, reap: PassStep, s': State)
    requires ReapEnabled(s, pass, reap) && s' == ApplyReap(s, pass, reap) && pass in s.passes
    ensures pass in s'.passes
    ensures var p, p' := s.passes[pass], s'.passes[pass];
            p'.cluster == p.cluster && p'.now == p.now && p'.born == p.born
  {
  }

  lemma StepPassFields(s: State, step: Step, s': State, pass: nat)
    requires Enabled(s, step) && s' == Apply(s, step) && pass in s.passes
    ensures pass in s'.passes
    ensures var p, p' := s.passes[pass], s'.passes[pass];
            p'.cluster == p.cluster && p'.now == p.now && p'.born == p.born
  {
    match step
    case Service(call) => ServiceAges(s, call, s');
    case Mark(job, mark) => MarkFrame(s, job, mark, s');
    case Reap(other, reap) =>
      if other == pass { ReapFields(s, pass, reap, s'); } else { ReapIsQuiet(s, other, reap, s'); }
    case _ =>
  }

  lemma {:induction false} PassFields(r: Run, i: nat, k: nat, pass: nat)
    requires IsRun(r) && i < k < |r.states| && r.steps[i].Reap? && r.steps[i].pass == pass && r.steps[i].reap.Start?
    ensures pass in r.states[k].passes
    ensures var p := r.states[k].passes[pass];
            p.cluster == r.steps[i].reap.cluster && p.now == r.states[i].clock && p.born == r.states[i].nextUid
    decreases k
  {
    assert StepAt(r, k - 1);
    if i + 1 < k {
      PassFields(r, i, k - 1, pass);
      StepPassFields(r.states[k - 1], r.steps[k - 1], r.states[k], pass);
    }
  }

  /** A pass over a cluster that runs to completion leaves none of the bindings that were
      overdue when it started, now or ever after, whatever else happens meanwhile. */
  lemma CompletedPassReaps(r: Run, i: nat, j: nat, k: nat, pass: nat, site: Site)
    requires IsRun(r) && i < j < k < |r.states|
    requires r.steps[i] == Reap(pass, Start(site.cluster)) && r.steps[j] == Reap(pass, Finish)
    requires site in r.states[i].bindings && Overdue(r.states[i].bindings[site], r.states[i].clock)
    ensures !(site in r.states[k].bindings && r.states[k].bindings[site] == r.states[i].bindings[site])
  {
    var b := r.states[i].bindings[site];
    if site in r.states[k].bindings && r.states[k].bindings[site] == b {
      PassFields(r, i, j + 1, pass);
      RunInv(r, i);
      GrantAlreadyThere(r, i, j + 1, k, site);
      FinishedPassIsDone(r, j, pass);
    }
  }

  lemma FinishedPassIsDone(r: Run, j: nat, pass: nat)
    requires IsRun(r) && j < |r.steps| && r.steps[j] == Reap(pass, Finish)
    ensures PassIn(r.states[j + 1], pass, Done) && PassOk(r.states[j + 1], r.states[j + 1].passes[pass])
  {
    assert StepAt(r, j);
    RunInv(r, j + 1);
  }

  lemma ReapListing(s: State, pass: nat, reap: PassStep, s': State, site: Site)
    requires ReapEnabled(s, pass, reap) && s' == ApplyReap(s, pass, reap) && site in s'.passes[pass].todo
    ensures || (pass in s.passes && site in s.passes[pass].todo
                && s.passes[pass].todo[site] == s'.passes[pass].todo[site])
            || ((reap.ListClusterWide? || reap.ListNamespaced?) && site in s.bindings
                && s.bindings[site].uid == s'.passes[pass].todo[site] && Overdue(s.bindings[site], s'.passes[pass].now))
  {
  }

  /** The list call that put a site on a pass's list. */
  lemma {:induction false} ListingOrigin(r: Run, n: nat, pass: nat, site: Site) returns (m: nat)
    requires IsRun(r) && n < |r.states| && pass in r.states[n].passes && site in r.states[n].passes[pass].todo
    ensures m < n && r.steps[m].Reap? && r.steps[m].pass == pass
    ensures r.steps[m].reap.ListClusterWide? || r.steps[m].reap.ListNamespaced?
    ensures site in r.states[m].bindings && r.states[m].bindings[site].uid == r.states[n].passes[pass].todo[site]
    ensures Overdue(r.states[m].bindings[site], r.states[n].passes[pass].now)
  {
    var s, step, s' := r.states[n - 1], r.steps[n - 1], r.states[n];
    assert StepAt(r, n - 1);
    if step.Reap? && step.pass == pass {
      ReapListing(s, pass, step.reap, s', site);
      if pass in s.passes && site in s.passes[pass].todo && s.passes[pass].todo[site] == s'.passes[pass].todo[site] {
        ReapFields(s, pass, step.reap, s');
        m := ListingOrigin(r, n - 1, pass, site);
      } else {
        m := n - 1;
      }
    } else {
      PassUntouched(s, step, s', pass);
      m := ListingOrigin(r, n - 1, pass, site);
    }
  }

  lemma PassUntouched(s: State, step: Step, s': State, pass: nat)
    requires Enabled(s, step) && s' == Apply(s, step) && pass in s'.passes && !(step.Reap? && step.pass == pass)
    ensures pass in s.passes && s'.passes[pass] == s.passes[pass]
  {
    match step
    case Service(call) => ServiceAges(s, call, s');
    case Mark(job, mark) => MarkFrame(s, job, mark, s');
    case Reap(other, reap) => ReapIsQuiet(s, other, reap, s');
    case _ =>
  }

  lemma {:induction false} BindingSits(r: Run, m: nat, n: nat, site: Site)
    requires IsRun(r) && m <= n < |r.states| && forall q | m <= q <= n :: site in r.states[q].bindings
    ensures r.states[n].bindings[site] == r.states[m].bindings[site]
    decreases n
  {
    if m < n {
      BindingSits(r, m, n - 1, site);
      RunEvolves(r, n - 1);
    }
  }

  /** The binding at a site is still the same at a later moment exactly if the site has been occupied
      at every moment between. */
  lemma SameBindingIff(r: Run, m: nat, n: nat, site: Site)
    requires IsRun(r) && m <= n < |r.states| && site in r.states[m].bindings && site in r.states[n].bindings
    ensures r.states[n].bindings[site] == r.states[m].bindings[site]
            <==> forall q | m <= q <= n :: site in r.states[q].bindings
  {
    if forall q | m <= q <= n :: site in r.states[q].bindings {
      BindingSits(r, m, n, site);
    }
    if r.states[n].bindings[site] == r.states[m].bindings[site] {
      forall q | m <= q <= n ensures site in r.states[q].bindings {
        RunInv(r, m);
        BindingsAgeOverRun(r, m, q);
        BindingsAgeOverRun(r, q, n);
      }
    }
  }

  /** What a pass deletes is the overdue binding it listed if and only if nobody has removed that one
      in between. In that case it is still overdue, so labelled; a live or unlabelled one is
      deleted only where another binding has taken the name. */
  lemma PassSparesOthers(r: Run, n: nat, pass: nat, site: Site) returns (m: nat)
    requires IsRun(r) && n < |r.steps| && r.steps[n] == Reap(pass, Delete(site)) && site in r.states[n].bindings
    ensures pass in r.states[n].passes && m < n && r.steps[m].Reap? && r.steps[m].pass == pass
    ensures r.steps[m].reap.ListClusterWide? || r.steps[m].reap.ListNamespaced?
    ensures site in r.states[m].bindings
    ensures var listed := r.states[m].bindings[site];
            listed.jit && listed.expiry.At? && listed.expiry.time <= r.states[n].passes[pass].now
    ensures r.states[n].bindings[site] == r.states[m].bindings[site]
            <==> forall q | m <= q <= n :: site in r.states[q].bindings
    ensures var found := r.states[n].bindings[site];
            !(found.jit && found.expiry.At? && found.expiry.time <= r.states[n].passes[pass].now) ==>
              exists gap :: m < gap < n && site !in r.states[gap].bindings
  {
    assert StepAt(r, n);
    m := ListingOrigin(r, n, pass, site);
    SameBindingIff(r, m, n, site);
    if !Overdue(r.states[n].bindings[site], r.states[n].passes[pass].now) {
      var gap :| m <= gap <= n && site !in r.states[gap].bindings;
      assert m < gap < n;
    }
  }

  // ── Marking after the passes ──────────────────────────────────────────────────────────

  /** Some pass over the cluster started at step `since` or later, at `time` or later, and was complete
      by step `until`. */
  ghost predicate PassedOver(r: Run, cluster: string, time: int, since: nat, until: nat) {
    exists pass, i: nat, j: nat :: PassBetween(r, pass, i, j, cluster) && since <= i && j < until
        && time <= r.states[i].clock
  }

  predicate PassBetween(r: Run, pass: nat, i: nat, j: nat, cluster: string) {
    i < j < |r.steps| && j < |r.states| && r.steps[i] == Reap(pass, Start(cluster)) && r.steps[j] == Reap(pass, Finish)
  }

  /** A request, once granted, has no binding left as soon as every cluster that held one has been
      passed over, each by a completed pass that started at or after the request's expiry. So a
      request marked expired after such passes has none, then and ever after. */
  lemma NoneLeftAfterPasses(r: Run, g: nat, k: nat, id: string, site: Site)
    requires IsRun(r) && g <= k < |r.states| && id in r.states[g].requests && Granted(r.states[g].requests[id].status)
    requires r.states[g].requests[id].expiresAt.Some?
    requires forall at <- r.states[g].bindings | GrantAt(r.states[g], id, at) ::
               PassedOver(r, at.cluster, r.states[g].requests[id].expiresAt.value, g, k)
    ensures !GrantAt(r.states[k], id, site)
  {
    if GrantAt(r.states[k], id, site) {
      NoGrantAfterDecision(r, g, k, id, site);
      var pass, i: nat, j: nat :| PassBetween(r, pass, i, j, site.cluster) && g <= i && j < k
                        && r.states[g].requests[id].expiresAt.value <= r.states[i].clock;
      RunInv(r, g);
      assert GrantOk(r.states[g], site, r.states[g].bindings[site]);
      GrantAlreadyThere(r, g, i, k, site);
      CompletedPassReaps(r, i, j, k, pass, site);
    }
  }
}
