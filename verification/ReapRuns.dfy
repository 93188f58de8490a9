/** What one pass of the cleanup job does, as an undisturbed run of the grant protocol's steps. */
module ReapRuns {
  import opened JitProtocol
  import opened AccessRequests

  // ── Steps of a pass ───────────────────────────────────────────────────────────────────

  predicate OfPass(steps: seq<Step>, pass: nat) {
    forall step <- steps :: step.Reap? && step.pass == pass
  }

  /** The sites that the delete steps among `steps` name. */
  function Deleted(steps: seq<Step>): set<Site>
    decreases |steps|
  {
    if steps == [] then {}
    else
      var rest := Deleted(steps[1..]);
      if steps[0].Reap? && steps[0].reap.Delete? then {steps[0].reap.site} + rest else rest
  }

  /** The steps lead from `s` to `s'`, are all of this pass, and delete exactly `gone`. */
  predicate ByPass(s: State, steps: seq<Step>, s': State, pass: nat, gone: set<Site>) {
    Follows(s, steps, s') && OfPass(steps, pass) && Deleted(steps) == gone
  }

  lemma {:induction false} FollowsThen(s: State, first: seq<Step>, mid: State, rest: seq<Step>, s': State)
    requires Follows(s, first, mid) && Follows(mid, rest, s')
    ensures Follows(s, first + rest, s')
    decreases |first|
  {
    if first == [] {
      assert [] + rest == rest;
    } else {
      FollowsThen(Apply(s, first[0]), first[1..], mid, rest, s');
      assert (first + rest)[1..] == first[1..] + rest;
    }
  }

  lemma {:induction false} DeletedThen(first: seq<Step>, rest: seq<Step>)
    ensures Deleted(first + rest) == Deleted(first) + Deleted(rest)
    decreases |first|
  {
    if first == [] {
      assert [] + rest == rest;
    } else {
      DeletedThen(first[1..], rest);
      assert (first + rest)[1..] == first[1..] + rest;
    }
  }

  lemma OneStep(s: State, step: Step, s': State)
    requires Enabled(s, step) && s' == Apply(s, step)
    ensures Follows(s, [step], s')
  {
    assert [step][1..] == [];
  }

  lemma ByPassThen(s: State, first: seq<Step>, mid: State, rest: seq<Step>, s': State, pass: nat,
                   gone: set<Site>, more: set<Site>)
    requires ByPass(s, first, mid, pass, gone) && ByPass(mid, rest, s', pass, more)
    ensures ByPass(s, first + rest, s', pass, gone + more)
  {
    FollowsThen(s, first, mid, rest, s');
    DeletedThen(first, rest);
    hide Follows;
  }

  lemma ByReap(s: State, pass: nat, reap: PassStep, s': State)
    requires ReapEnabled(s, pass, reap) && s' == ApplyReap(s, pass, reap)
    ensures ByPass(s, [Reap(pass, reap)], s', pass, if reap.Delete? then {reap.site} else {})
  {
    hide ReapEnabled, ApplyReap, Follows;
    var step := Reap(pass, reap);
    OneStep(s, step, s');
    assert [step][1..] == [];
    assert Deleted([step]) == (if reap.Delete? then {reap.site} else {}) + Deleted([]);
  }

  // ── The effect of a pass ──────────────────────────────────────────────────────────────

  function OverdueSites(bindings: map<Site, Binding>, cluster: string, now: int): set<Site> {
    set site | site in bindings && site.cluster == cluster && bindings[site].jit && bindings[site].expiry.At?
               && bindings[site].expiry.time <= now
  }

  /** The overdue bindings of one kind. */
  function OverdueOf(bindings: map<Site, Binding>, cluster: string, clusterWide: bool, now: int): set<Site> {
    set site | site in OverdueSites(bindings, cluster, now) && (site.namespace == "") == clusterWide
  }

  /** What a pass over `cluster` can have deleted: all that is overdue if it completes, and otherwise
      some of it, ClusterRoleBindings before RoleBindings. */
  predicate Reaped(bindings: map<Site, Binding>, cluster: string, now: int, gone: set<Site>, completed: bool) {
    var wide := OverdueOf(bindings, cluster, true, now);
    && gone <= OverdueSites(bindings, cluster, now)
    && (completed ==> gone == OverdueSites(bindings, cluster, now))
    && (gone <= wide || wide <= gone)
  }

  /** `s` with the pass at `phase` after the deletion of `gone`. */
  function During(s: State, pass: nat, cluster: string, gone: set<Site>, phase: Phase, todo: map<Site, nat>): State {
    s.(bindings := s.bindings - gone, passes := s.passes[pass := Pass(cluster, s.clock, s.nextUid, phase, todo)])
  }

  function Todo(bindings: map<Site, Binding>, sites: set<Site>): map<Site, nat>
    requires sites <= bindings.Keys
  {
    map site | site in sites :: bindings[site].uid
  }

  lemma Begins(s: State, pass: nat, cluster: string)
    requires pass !in s.passes
    ensures ByPass(s, [Reap(pass, Start(cluster))], During(s, pass, cluster, {}, Begun, map[]), pass, {})
  {
    assert s.bindings - {} == s.bindings;
    var begun := During(s, pass, cluster, {}, Begun, map[]);
    assert ReapEnabled(s, pass, Start(cluster)) && begun == ApplyReap(s, pass, Start(cluster));
    hide ReapEnabled, ApplyReap, During;
    ByReap(s, pass, Start(cluster), begun);
  }

  lemma ListingIs(s: State, pass: nat, cluster: string, gone: set<Site>, phase: Phase, clusterWide: bool)
    requires gone !! OverdueOf(s.bindings, cluster, clusterWide, s.clock)
    ensures Listing(During(s, pass, cluster, gone, phase, map[]), cluster, clusterWide, s.clock)
            == Todo(s.bindings, OverdueOf(s.bindings, cluster, clusterWide, s.clock))
  {
  }

  lemma ListsClusterWide(s: State, pass: nat, cluster: string)
    ensures var wide := OverdueOf(s.bindings, cluster, true, s.clock);
            ByPass(During(s, pass, cluster, {}, Begun, map[]), [Reap(pass, ListClusterWide)],
                   During(s, pass, cluster, {}, ClusterWide, Todo(s.bindings, wide)), pass, {})
  {
    ListingIs(s, pass, cluster, {}, Begun, true);
    hide Listing, OverdueOf, ByPass;
    var wide := OverdueOf(s.bindings, cluster, true, s.clock);
    ByReap(During(s, pass, cluster, {}, Begun, map[]), pass, ListClusterWide,
           During(s, pass, cluster, {}, ClusterWide, Todo(s.bindings, wide)));
  }

  lemma ListsNamespaced(s: State, pass: nat, cluster: string)
    ensures var wide := OverdueOf(s.bindings, cluster, true, s.clock);
            var narrow := OverdueOf(s.bindings, cluster, false, s.clock);
            ByPass(During(s, pass, cluster, wide, ClusterWide, map[]), [Reap(pass, ListNamespaced)],
                   During(s, pass, cluster, wide, Namespaced, Todo(s.bindings, narrow)), pass, {})
  {
    var wide, narrow := OverdueOf(s.bindings, cluster, true, s.clock), OverdueOf(s.bindings, cluster, false, s.clock);
    ListingIs(s, pass, cluster, wide, ClusterWide, false);
    hide Listing, OverdueOf, ByPass;
    ByReap(During(s, pass, cluster, wide, ClusterWide, map[]), pass, ListNamespaced,
           During(s, pass, cluster, wide, Namespaced, Todo(s.bindings, narrow)));
  }

  lemma DeletesOne(s: State, pass: nat, cluster: string, gone: set<Site>, phase: Phase, listed: set<Site>, site: Site)
    requires site in listed && listed <= s.bindings.Keys
    ensures ByPass(During(s, pass, cluster, gone, phase, Todo(s.bindings, listed)), [Reap(pass, Delete(site))],
                   During(s, pass, cluster, gone + {site}, phase, Todo(s.bindings, listed - {site})), pass, {site})
  {
    hide ByPass;
    assert s.bindings - gone - {site} == s.bindings - (gone + {site});
    assert Todo(s.bindings, listed) - {site} == Todo(s.bindings, listed - {site});
    ByReap(During(s, pass, cluster, gone, phase, Todo(s.bindings, listed)), pass, Delete(site),
           During(s, pass, cluster, gone + {site}, phase, Todo(s.bindings, listed - {site})));
  }

  /** Deleting listed bindings one by one, in some order. */
  lemma {:induction false} Deletes(s: State, pass: nat, cluster: string, gone: set<Site>, phase: Phase,
                                   listed: set<Site>, some: set<Site>)
    returns (steps: seq<Step>)
    requires some <= listed <= s.bindings.Keys
    ensures ByPass(During(s, pass, cluster, gone, phase, Todo(s.bindings, listed)), steps,
                   During(s, pass, cluster, gone + some, phase, Todo(s.bindings, listed - some)), pass, some)
    decreases some
  {
    var start := During(s, pass, cluster, gone, phase, Todo(s.bindings, listed));
    if some == {} {
      assert gone + some == gone && listed - some == listed;
      steps := [];
    } else {
      var site :| site in some;
      DeletesOne(s, pass, cluster, gone, phase, listed, site);
      var rest := Deletes(s, pass, cluster, gone + {site}, phase, listed - {site}, some - {site});
      assert gone + {site} + (some - {site}) == gone + some && listed - {site} - (some - {site}) == listed - some;
      assert {site} + (some - {site}) == some;
      hide ByPass, During;
      ByPassThen(start, [Reap(pass, Delete(site))],
                 During(s, pass, cluster, gone + {site}, phase, Todo(s.bindings, listed - {site})), rest,
                 During(s, pass, cluster, gone + some, phase, Todo(s.bindings, listed - some)),
                 pass, {site}, some - {site});
      steps := [Reap(pass, Delete(site))] + rest;
    }
  }

  lemma Aborts(s: State, pass: nat, cluster: string, gone: set<Site>, phase: Phase, todo: map<Site, nat>)
    requires phase != Done
    ensures ByPass(During(s, pass, cluster, gone, phase, todo), [Reap(pass, PassStep.Abort)],
                   During(s, pass, cluster, gone, Aborted, map[]), pass, {})
  {
    hide ByPass;
    ByReap(During(s, pass, cluster, gone, phase, todo), pass, PassStep.Abort,
           During(s, pass, cluster, gone, Aborted, map[]));
  }

  lemma Finishes(s: State, pass: nat, cluster: string, gone: set<Site>)
    ensures ByPass(During(s, pass, cluster, gone, Namespaced, map[]), [Reap(pass, PassStep.Finish)],
                   During(s, pass, cluster, gone, Done, map[]), pass, {})
  {
    hide ByPass;
    ByReap(During(s, pass, cluster, gone, Namespaced, map[]), pass, PassStep.Finish,
           During(s, pass, cluster, gone, Done, map[]));
  }

  // ── A whole pass ──────────────────────────────────────────────────────────────────────

  /** Up to the first list call, with some of what it lists deleted. */
  lemma EarlyPart(s: State, pass: nat, cluster: string, gone: set<Site>) returns (steps: seq<Step>)
    requires pass !in s.passes && gone <= OverdueOf(s.bindings, cluster, true, s.clock)
    ensures var wide := OverdueOf(s.bindings, cluster, true, s.clock);
            ByPass(s, steps, During(s, pass, cluster, gone, ClusterWide, Todo(s.bindings, wide - gone)), pass, gone)
    ensures steps != [] && steps[0] == Reap(pass, Start(cluster))
  {
    var wide := OverdueOf(s.bindings, cluster, true, s.clock);
    var begun := During(s, pass, cluster, {}, Begun, map[]);
    var listed := During(s, pass, cluster, {}, ClusterWide, Todo(s.bindings, wide));
    Begins(s, pass, cluster);
    ListsClusterWide(s, pass, cluster);
    var deletes := Deletes(s, pass, cluster, {}, ClusterWide, wide, gone);
    assert {} + gone == gone;
    hide ByPass, During, OverdueOf;
    ByPassThen(s, [Reap(pass, Start(cluster))], begun, [Reap(pass, ListClusterWide)], listed, pass, {}, {});
    steps := [Reap(pass, Start(cluster))] + [Reap(pass, ListClusterWide)];
    assert {} + {} + gone == gone;
    ByPassThen(s, steps, listed, deletes,
               During(s, pass, cluster, gone, ClusterWide, Todo(s.bindings, wide - gone)), pass, {} + {}, gone);
    steps := steps + deletes;
  }

  /** From there, with all of the first listing deleted, to some deletions of the second. */
  lemma LatePart(s: State, pass: nat, cluster: string, some: set<Site>) returns (steps: seq<Step>)
    requires some <= OverdueOf(s.bindings, cluster, false, s.clock)
    ensures var wide := OverdueOf(s.bindings, cluster, true, s.clock);
            var narrow := OverdueOf(s.bindings, cluster, false, s.clock);
            ByPass(During(s, pass, cluster, wide, ClusterWide, map[]), steps,
                   During(s, pass, cluster, wide + some, Namespaced, Todo(s.bindings, narrow - some)), pass, some)
  {
    var wide, narrow := OverdueOf(s.bindings, cluster, true, s.clock), OverdueOf(s.bindings, cluster, false, s.clock);
    ListsNamespaced(s, pass, cluster);
    var deletes := Deletes(s, pass, cluster, wide, Namespaced, narrow, some);
    hide ByPass, During, OverdueOf;
    assert {} + some == some;
    ByPassThen(During(s, pass, cluster, wide, ClusterWide, map[]), [Reap(pass, ListNamespaced)],
               During(s, pass, cluster, wide, Namespaced, Todo(s.bindings, narrow)), deletes,
               During(s, pass, cluster, wide + some, Namespaced, Todo(s.bindings, narrow - some)), pass, {}, some);
    steps := [Reap(pass, ListNamespaced)] + deletes;
  }

  /** The steps of one whole pass: its first starts it over `cluster`, its last finishes or aborts it. */
  predicate WholePass(steps: seq<Step>, pass: nat, cluster: string, completed: bool) {
    && OfPass(steps, pass) && |steps| >= 2 && steps[0] == Reap(pass, Start(cluster))
    && steps[|steps| - 1] == Reap(pass, if completed then PassStep.Finish else PassStep.Abort)
  }

  /** Every effect a pass can have is that of a run of its own steps, which deletes exactly the
      bindings that are gone: start, list, delete, list, delete, and finish, or abort where a call
      fails. */
  lemma PassIsARun(s: State, pass: nat, cluster: string, gone: set<Site>, completed: bool) returns (steps: seq<Step>)
    requires pass !in s.passes && Reaped(s.bindings, cluster, s.clock, gone, completed)
    ensures Follows(s, steps, During(s, pass, cluster, gone, if completed then Done else Aborted, map[]))
    ensures WholePass(steps, pass, cluster, completed) && Deleted(steps) == gone
  {
    var wide, narrow := OverdueOf(s.bindings, cluster, true, s.clock), OverdueOf(s.bindings, cluster, false, s.clock);
    var end := During(s, pass, cluster, gone, if completed then Done else Aborted, map[]);
    if !completed && gone <= wide {
      var early := EarlyPart(s, pass, cluster, gone);
      var todo := Todo(s.bindings, wide - gone);
      Aborts(s, pass, cluster, gone, ClusterWide, todo);
      ByPassThen(s, early, During(s, pass, cluster, gone, ClusterWide, todo), [Reap(pass, PassStep.Abort)], end, pass,
                 gone, {});
      steps := early + [Reap(pass, PassStep.Abort)];
    } else {
      var late := gone - wide;
      assert gone == wide + late && wide - wide == {} && Todo(s.bindings, {}) == map[];
      var early := EarlyPart(s, pass, cluster, wide);
      var rest := LatePart(s, pass, cluster, late);
      var mid := During(s, pass, cluster, wide, ClusterWide, map[]);
      var todo := Todo(s.bindings, narrow - late);
      var last := During(s, pass, cluster, gone, Namespaced, todo);
      ByPassThen(s, early, mid, rest, last, pass, wide, late);
      LastStep(s, pass, cluster, gone, narrow - late, completed);
      var step := Reap(pass, if completed then PassStep.Finish else PassStep.Abort);
      ByPassThen(s, early + rest, last, [step], end, pass, gone, {});
      steps := early + rest + [step];
    }
  }

  lemma LastStep(s: State, pass: nat, cluster: string, gone: set<Site>, left: set<Site>, completed: bool)
    requires left <= s.bindings.Keys && (completed ==> left == {})
    ensures ByPass(During(s, pass, cluster, gone, Namespaced, Todo(s.bindings, left)),
                   [Reap(pass, if completed then PassStep.Finish else PassStep.Abort)],
                   During(s, pass, cluster, gone, if completed then Done else Aborted, map[]), pass, {})
  {
    hide ByPass, During;
    if completed {
      assert Todo(s.bindings, left) == map[];
      Finishes(s, pass, cluster, gone);
    } else {
      Aborts(s, pass, cluster, gone, Namespaced, Todo(s.bindings, left));
    }
  }

  // ── A pass, or the marking, at a later time ───────────────────────────────────────────

  /** `s` after a pass that began at `now` and left these bindings. */
  function AfterPass(s: State, pass: nat, cluster: string, now: int, bindings: map<Site, Binding>, completed: bool)
      : (s': State)
    ensures s'.bindings == bindings && s'.passes.Keys == s.passes.Keys + {pass}
    ensures s' == s.(clock := now, bindings := bindings, passes := s'.passes)
  {
    s.(clock := now, bindings := bindings,
       passes := s.passes[pass := Pass(cluster, now, s.nextUid, if completed then Done else Aborted, map[])])
  }

  lemma LaterPass(s: State, pass: nat, cluster: string, now: int, bindings: map<Site, Binding>, completed: bool)
    returns (steps: seq<Step>)
    requires s.clock <= now && pass !in s.passes
    requires var gone := s.bindings.Keys - bindings.Keys;
             bindings == s.bindings - gone && Reaped(s.bindings, cluster, now, gone, completed)
    ensures Follows(s, [Tick(now - s.clock)] + steps, AfterPass(s, pass, cluster, now, bindings, completed))
    ensures WholePass(steps, pass, cluster, completed) && Deleted(steps) == s.bindings.Keys - bindings.Keys
  {
    var later := s.(clock := now);
    OneStep(s, Tick(now - s.clock), later);
    steps := PassIsARun(later, pass, cluster, s.bindings.Keys - bindings.Keys, completed);
    FollowsThen(s, [Tick(now - s.clock)], later, steps, AfterPass(s, pass, cluster, now, bindings, completed));
  }

  /** A later `mark_expired` that nobody disturbs. */
  lemma LaterMarking(s: State, job: nat, now: int) returns (steps: seq<Step>)
    requires s.clock <= now && s.holds == map[] && job !in s.jobs
    ensures Follows(s, [Tick(now - s.clock)] + steps, s.(clock := now, requests := Marked(s.requests, now)))
    ensures WholeMarking(steps, job)
  {
    var later := s.(clock := now);
    OneStep(s, Tick(now - s.clock), later);
    steps := MarkingIsARun(later, job);
    FollowsThen(s, [Tick(now - s.clock)], later, steps, later.(requests := Marked(s.requests, now)));
  }
}
