/** Concrete runs of the grant protocol that show where its guarantees stop. */
module JitCounterexamples {
  import opened Common
  import opened JitProtocol
  import opened JitInvariant
  import opened JitRuns
  import opened JitSafety

  const START := State(0, map[], map[], map[], 0, map[], map[], map[])
  const ALICE := Subject("User", "alice", "")

  const ASK := Request("bob", ALICE, ClusterRole, "edit", "", 5, Pending, None, None, None, None)
  const NAME := BindingName("r1")

  /** Extends a run by one enabled step. */
  function Extend(r: Run, step: Step): (r': Run)
    requires IsRun(r) && Enabled(r.states[|r.steps|], step)
    ensures IsRun(r') && r'.steps == r.steps + [step] && r.states <= r'.states
    ensures r'.states[|r'.steps|] == Apply(r.states[|r.steps|], step)
  {
    var r' := Run(r.states + [Apply(r.states[|r.steps|], step)], r.steps + [step]);
    assert forall n: nat | n < |r.steps| :: StepAt(r, n) ==> StepAt(r', n);
    r'
  }

  function Last(r: Run): State
    requires |r.states| == |r.steps| + 1
  {
    r.states[|r.steps|]
  }

  /** The run ends in `s`. */
  predicate Ends(r: Run, s: State) {
    IsRun(r) && Last(r) == s
  }

  /** One more step, from a known state to a known state. */
  lemma Grow(r: Run, s: State, step: Step, s': State) returns (e: Run)
    requires Ends(r, s) && Enabled(s, step) && s' == Apply(s, step)
    ensures Ends(e, s') && Longer(r, e) && e.steps == r.steps + [step]
  {
    e := Extend(r, step);
  }

  predicate Longer(r: Run, e: Run) {
    r.steps <= e.steps && r.states <= e.states
  }

  /** The state in which `r1`, a five minute grant, has been approved at time 0 on `cluster`. */
  function AfterApproval(cluster: string): State {
    START.(requests := map["r1" := ApprovedRecord(ASK, "r1", "carol", 0)],
           bindings := map[Site(cluster, "", NAME) :=
                             Binding(0, true, At(5 * MINUTE), Some("r1"), ALICE, ClusterRole, "edit")],
           nextUid := 1)
  }

  lemma BoundRun(cluster: string) returns (r: Run)
    ensures IsRun(r)
    ensures Last(r) == AfterApproval(cluster).(requests := map["r1" := ASK],
                                               holds := map["r1" := Approving("carol", cluster, 0, true)])
  {
    r := Run([START], []);
    r := Extend(r, Service(Create("r1", "bob", ALICE, ClusterRole, "edit", "", 5)));
    assert Last(r) == START.(requests := map["r1" := ASK]);
    r := Extend(r, Service(ApproveCheck("r1", "carol", cluster)));
    assert Last(r) == START.(requests := map["r1" := ASK], holds := map["r1" := Approving("carol", cluster, 0, false)]);
    r := Extend(r, Service(ApproveBind("r1")));
  }

  lemma ApprovedRun(cluster: string) returns (r: Run)
    ensures IsRun(r) && Last(r) == AfterApproval(cluster)
  {
    r := BoundRun(cluster);
    r := Extend(r, Service(ApproveCommit("r1")));
    assert Last(r).requests == map["r1" := ApprovedRecord(ASK, "r1", "carol", 0)];
  }

  /** Approved on one cluster, revoked through another: `revoked`, and the binding lives on. */
  lemma RevokeOnOtherClusterKeepsBinding() returns (r: Run)
    ensures IsRun(r) && RequestHas(Last(r), "r1", Revoked) && GrantAt(Last(r), "r1", PROD)
  {
    r := ApprovedRun("prod");
    r := RevokeR1(r, AfterApproval("prod"), "local");
  }

  const LOCAL := Site("local", "", NAME)

  /** A run in the cleanup job's own order: its pass over the local cluster has deleted a binding, at
      step `i`, and finished, at step `j`, before `mark_expired` selects, at step `k`. */
  predicate MarksAfterReaping(r: Run, i: nat, j: nat, k: nat) {
    && i < j < k < |r.steps| && k < |r.states|
    && r.steps[i] == Reap(0, Delete(LOCAL)) && LOCAL in r.states[i].bindings
    && r.steps[j] == Reap(0, Finish) && r.steps[k] == Mark(0, Select)
  }

  /** `s` with a pass over the local cluster at `phase`, and with the bindings given. */
  function Passing(s: State, bindings: map<Site, Binding>, phase: Phase, todo: map<Site, nat>): State {
    s.(bindings := bindings, passes := map[0 := Pass("local", s.clock, s.nextUid, phase, todo)])
  }

  /** All that is overdue on the local cluster is the binding of `r1`. */
  predicate OneOverdue(s: State) {
    && s.passes == map[] && LOCAL in s.bindings && s.bindings[LOCAL].uid == 0 && Overdue(s.bindings[LOCAL], s.clock)
    && forall site <- s.bindings :: site.cluster == "local" ==> site == LOCAL
  }

  lemma PassUpToDelete(s: State)
    requires OneOverdue(s)
    ensures var b := s.bindings;
            && Enabled(s, Reap(0, Start("local"))) && Apply(s, Reap(0, Start("local"))) == Passing(s, b, Begun, map[])
            && var todo := map[LOCAL := 0];
            && Enabled(Passing(s, b, Begun, map[]), Reap(0, ListClusterWide))
            && Apply(Passing(s, b, Begun, map[]), Reap(0, ListClusterWide)) == Passing(s, b, ClusterWide, todo)
  {
    assert Listing(Passing(s, s.bindings, Begun, map[]), "local", true, s.clock) == map[LOCAL := 0];
  }

  lemma PassDeletes(s: State)
    requires OneOverdue(s)
    ensures var b, todo := s.bindings - {LOCAL}, map[LOCAL := 0];
            && Enabled(Passing(s, s.bindings, ClusterWide, todo), Reap(0, Delete(LOCAL)))
            && Apply(Passing(s, s.bindings, ClusterWide, todo), Reap(0, Delete(LOCAL)))
               == Passing(s, b, ClusterWide, map[])
  {
    assert map[LOCAL := 0] - {LOCAL} == map[];
  }

  lemma PassEnds(s: State)
    requires OneOverdue(s)
    ensures var b := s.bindings - {LOCAL};
            && Enabled(Passing(s, b, ClusterWide, map[]), Reap(0, ListNamespaced))
            && Apply(Passing(s, b, ClusterWide, map[]), Reap(0, ListNamespaced)) == Passing(s, b, Namespaced, map[])
            && Enabled(Passing(s, b, Namespaced, map[]), Reap(0, Finish))
            && Apply(Passing(s, b, Namespaced, map[]), Reap(0, Finish)) == Passing(s, b, Done, map[])
  {
    var b := s.bindings - {LOCAL};
    assert Listing(Passing(s, b, ClusterWide, map[]), "local", false, s.clock) == map[];
  }

  /** The job's pass over the local cluster, from start to finish. */
  lemma LocalPass(r: Run, s: State) returns (e: Run)
    requires Ends(r, s) && OneOverdue(s)
    ensures Ends(e, Passing(s, s.bindings - {LOCAL}, Done, map[])) && |e.steps| == |r.steps| + 5
    ensures e.steps[|r.steps| + 2] == Reap(0, Delete(LOCAL)) && LOCAL in e.states[|r.steps| + 2].bindings
    ensures e.steps[|r.steps| + 4] == Reap(0, Finish)
  {
    PassUpToDelete(s);
    PassDeletes(s);
    PassEnds(s);
    var b, todo := s.bindings - {LOCAL}, map[LOCAL := 0];
    assert LOCAL in s.bindings;
    hide Apply, Enabled, OneOverdue;
    e := Grow(r, s, Reap(0, Start("local")), Passing(s, s.bindings, Begun, map[]));
    e := Grow(e, Passing(s, s.bindings, Begun, map[]), Reap(0, ListClusterWide),
              Passing(s, s.bindings, ClusterWide, todo));
    assert e.states[|e.steps|] == Passing(s, s.bindings, ClusterWide, todo);
    e := Grow(e, Passing(s, s.bindings, ClusterWide, todo), Reap(0, Delete(LOCAL)), Passing(s, b, ClusterWide, map[]));
    e := Grow(e, Passing(s, b, ClusterWide, map[]), Reap(0, ListNamespaced), Passing(s, b, Namespaced, map[]));
    e := Grow(e, Passing(s, b, Namespaced, map[]), Reap(0, Finish), Passing(s, b, Done, map[]));
  }

  // ── The marking runs ──────────────────────────────────────────────────────────────────

  const DUE := Job(5 * MINUTE, {"r1"})

  /** The request of `r1`, approved at time 0, with five minutes gone. */
  predicate JustDue(s: State, cluster: string) {
    s.clock == 5 * MINUTE && s.requests == AfterApproval(cluster).requests && s.holds == map[] && s.jobs == map[]
  }

  lemma SelectR1(r: Run, s: State, cluster: string) returns (e: Run)
    requires Ends(r, s) && JustDue(s, cluster)
    ensures Ends(e, s.(jobs := map[0 := DUE])) && Longer(r, e) && e.steps == r.steps + [Mark(0, Select)]
  {
    assert Selection(s.requests, s.clock) == {"r1"};
    e := Grow(r, s, Mark(0, Select), s.(jobs := map[0 := DUE]));
  }

  lemma MarkR1(r: Run, s: State) returns (e: Run)
    requires Ends(r, s) && s.jobs == map[0 := DUE] && s.holds == map[] && "r1" in s.requests
    ensures IsRun(e) && RequestHas(Last(e), "r1", Expired) && Last(e).bindings == s.bindings && Longer(r, e)
  {
    var s1 := s.(holds := map["r1" := Marking(0)]);
    e := Grow(r, s, Mark(0, Row("r1")), s1);
    e := Grow(e, s1, Mark(0, Commit), Apply(s1, Mark(0, Commit)));
  }

  /** A whole revoke of `r1`, sent to `cluster`. */
  lemma RevokeR1(r: Run, s: State, cluster: string) returns (e: Run)
    requires Ends(r, s) && RequestHas(s, "r1", Approved) && s.requests["r1"].bindingName.Some? && s.holds == map[]
    ensures IsRun(e) && Longer(r, e) && RequestHas(Last(e), "r1", Revoked)
    ensures Last(e).holds == map[] && Last(e).jobs == s.jobs
    ensures var record := s.requests["r1"];
            Last(e).bindings == s.bindings - {Site(cluster, record.namespace, record.bindingName.value)}
  {
    var record := s.requests["r1"];
    var s1 := s.(holds := map["r1" := Revoking(cluster, false)]);
    var s2 := s1.(holds := map["r1" := Revoking(cluster, true)],
                  bindings := s.bindings - {Site(cluster, record.namespace, record.bindingName.value)});
    e := Grow(r, s, Service(RevokeCheck("r1", cluster)), s1);
    e := Grow(e, s1, Service(RevokeUnbind("r1")), s2);
    e := Grow(e, s2, Service(RevokeCommit("r1")), Apply(s2, Service(RevokeCommit("r1"))));
  }

  /** The job's `mark_expired` selected its rows before a revoke committed and turns it into
      `expired`; the job has reaped the grant and counted it before. */
  lemma StaleSelectOverwritesRevoke() returns (r: Run, n: nat, i: nat, j: nat, k: nat)
    ensures IsRun(r) && MarksAfterReaping(r, i, j, k)
    ensures k < n < |r.steps| && RequestHas(r.states[n], "r1", Revoked) && RequestHas(Last(r), "r1", Expired)
  {
    r, i, j, k := SelectedRun();
    var e := RevokeR1(r, Last(r), "local");
    n := |e.steps|;
    r := MarkR1(e, Last(e));
  }

  lemma SelectedRun() returns (r: Run, i: nat, j: nat, k: nat)
    ensures IsRun(r) && MarksAfterReaping(r, i, j, k) && RequestHas(Last(r), "r1", Approved)
    ensures Last(r).requests["r1"].bindingName.Some? && Last(r).holds == map[] && Last(r).jobs == map[0 := DUE]
  {
    r := ApprovedRun("local");
    var s := AfterApproval("local").(clock := 5 * MINUTE);
    r := Grow(r, AfterApproval("local"), Tick(5 * MINUTE), s);
    i, j, k := |r.steps| + 2, |r.steps| + 4, |r.steps| + 5;
    r := LocalPass(r, s);
    r := SelectR1(r, Passing(s, s.bindings - {LOCAL}, Done, map[]), "local");
  }

  const PROD := Site("prod", "", NAME)

  /** After an approval on the local cluster died before its commit and the next one, on `prod`,
      committed, both at time 0. */
  function OrphanAndGrant(): State {
    AfterApproval("prod").(
      clock := 5 * MINUTE, nextUid := 2,
      bindings := map[LOCAL := Binding(0, true, At(5 * MINUTE), Some("r1"), ALICE, ClusterRole, "edit"),
                      PROD := Binding(1, true, At(5 * MINUTE), Some("r1"), ALICE, ClusterRole, "edit")])
  }

  lemma OrphanRun() returns (r: Run)
    ensures Ends(r, AfterApproval("local").(requests := map["r1" := ASK]))
  {
    r := BoundRun("local");
    r := Grow(r, Last(r), Service(Crash("r1")), AfterApproval("local").(requests := map["r1" := ASK]));
  }

  lemma OrphanAndGrantRun() returns (r: Run)
    ensures Ends(r, OrphanAndGrant())
  {
    r := OrphanRun();
    var s := AfterApproval("local").(requests := map["r1" := ASK]);
    var s1 := s.(holds := map["r1" := Approving("carol", "prod", 0, false)]);
    r := Grow(r, s, Service(ApproveCheck("r1", "carol", "prod")), s1);
    var s2 := OrphanAndGrant().(clock := 0, requests := map["r1" := ASK],
                                holds := map["r1" := Approving("carol", "prod", 0, true)]);
    r := Grow(r, s1, Service(ApproveBind("r1")), s2);
    r := Grow(r, s2, Service(ApproveCommit("r1")), OrphanAndGrant().(clock := 0));
    r := Grow(r, OrphanAndGrant().(clock := 0), Tick(5 * MINUTE), OrphanAndGrant());
  }

  /** `expired` does not mean the binding is gone: the job has deleted and counted an orphan on the
      local cluster, its pass over `prod` fails, and `mark_expired` looks only at the database. */
  lemma ExpiredWhileBindingRemains() returns (r: Run, i: nat, j: nat, k: nat)
    ensures IsRun(r) && MarksAfterReaping(r, i, j, k)
    ensures RequestHas(Last(r), "r1", Expired) && GrantAt(Last(r), "r1", PROD)
  {
    r := OrphanAndGrantRun();
    var s := OrphanAndGrant();
    i, j, k := |r.steps| + 2, |r.steps| + 4, |r.steps| + 7;
    r := LocalPass(r, s);
    var passed := Passing(s, s.bindings - {LOCAL}, Done, map[]);
    var failed := passed.(passes := passed.passes[1 := Pass("prod", s.clock, s.nextUid, Aborted, map[])]);
    r := FailedPass(r, passed, failed);
    r := SelectR1(r, failed, "prod");
    r := MarkR1(r, failed.(jobs := map[0 := DUE]));
  }

  lemma FailedPass(r: Run, s: State, s': State) returns (e: Run)
    requires Ends(r, s) && 1 !in s.passes
    requires s' == s.(passes := s.passes[1 := Pass("prod", s.clock, s.nextUid, Aborted, map[])])
    ensures Ends(e, s') && Longer(r, e) && |e.steps| == |r.steps| + 2
  {
    var begun := s.(passes := s.passes[1 := Pass("prod", s.clock, s.nextUid, Begun, map[])]);
    e := Grow(r, s, Reap(1, Start("prod")), begun);
    e := Grow(e, begun, Reap(1, Abort), s');
  }

  // ── A stale delete ────────────────────────────────────────────────────────────────────

  /** A pass lists an overdue orphan; before its delete an administrator removes the orphan and
      the pending request is approved again under the same name. The pass deletes a live grant. */
  lemma StaleDeleteRemovesLiveGrant() returns (r: Run, n: nat)
    ensures IsRun(r) && n < |r.steps| && r.steps[n] == Reap(0, Delete(LOCAL))
    ensures RequestHas(Last(r), "r1", Approved) && GrantAt(r.states[n], "r1", LOCAL)
    ensures !Overdue(r.states[n].bindings[LOCAL], r.states[n].clock)
    ensures Last(r).bindings == map[]
  {
    r := ListedThenReplaced();
    n := |r.steps|;
    r := Extend(r, Reap(0, Delete(LOCAL)));
  }

  lemma ListedOrphan() returns (r: Run)
    ensures IsRun(r)
    ensures var s := Last(r);
            && s.clock == 5 * MINUTE && s.requests == map["r1" := ASK] && s.policies == map[] && s.holds == map[]
            && s.jobs == map[] && s.nextUid == 1
            && s.bindings.Keys == {LOCAL}
            && s.passes == map[0 := Pass("local", 5 * MINUTE, 1, ClusterWide, map[LOCAL := 0])]
  {
    r := OrphanRun();
    var s := AfterApproval("local").(requests := map["r1" := ASK]);
    var due := s.(clock := 5 * MINUTE);
    r := Grow(r, s, Tick(5 * MINUTE), due);
    PassUpToDelete(due);
    var begun := Passing(due, due.bindings, Begun, map[]);
    r := Grow(r, due, Reap(0, Start("local")), begun);
    r := Grow(r, begun, Reap(0, ListClusterWide), Passing(due, due.bindings, ClusterWide, map[LOCAL := 0]));
  }

  lemma ListedThenReplaced() returns (r: Run)
    ensures IsRun(r)
    ensures var s := Last(r);
            && s.clock == 5 * MINUTE && RequestHas(s, "r1", Approved)
            && s.bindings == map[LOCAL :=
                                   Binding(1, true, At(10 * MINUTE), Some("r1"), ALICE, ClusterRole, "edit")]
            && s.passes == map[0 := Pass("local", 5 * MINUTE, 1, ClusterWide, map[LOCAL := 0])]
  {
    r := ListedOrphan();
    var s := Last(r);
    r := Extend(r, ForeignUnbind(LOCAL));
    assert Last(r) == s.(bindings := map[]);
    r := Extend(r, Service(ApproveCheck("r1", "carol", "local")));
    assert Last(r) == s.(bindings := map[], holds := map["r1" := Approving("carol", "local", 5 * MINUTE, false)]);
    r := Extend(r, Service(ApproveBind("r1")));
    r := Extend(r, Service(ApproveCommit("r1")));
  }
}
