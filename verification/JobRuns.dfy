/** The cleanup job as a run of the grant protocol: its passes one after the other, then the marking. */
module JobRuns {
  import opened Common
  import opened JitProtocol
  import opened JitInvariant
  import opened JitRuns
  import opened JitSafety
  import opened AccessRequests
  import opened ReapRuns

  /** The effect of one pass. Completed, it has removed exactly the overdue bindings of its cluster and
      returns their number; failed, some of them, ClusterRoleBindings before RoleBindings. */
  predicate OnePass(was: map<Site, Binding>, now: map<Site, Binding>, cluster: string, time: int,
                    revoked: Option<nat>) {
    var gone := was.Keys - now.Keys;
    && now == was - gone && Reaped(was, cluster, time, gone, revoked.Some?)
    && (revoked.Some? ==> revoked.value == |gone|)
  }

  /** One pass of the job: its cluster, what it left, and its count unless it failed. */
  datatype Visit = Visit(cluster: string, after: map<Site, Binding>, revoked: Option<nat>)

  function End(was: map<Site, Binding>, visits: seq<Visit>): map<Site, Binding> {
    if visits == [] then was else visits[|visits| - 1].after
  }

  /** Each visit has the effect of one pass on what the one before left, and only faulty clusters fail. */
  predicate Lawful(was: map<Site, Binding>, visits: seq<Visit>, at: string -> int, faults: set<string>)
    decreases |visits|
  {
    visits == [] ||
    var front, v := visits[..|visits| - 1], visits[|visits| - 1];
    && Lawful(was, front, at, faults) && OnePass(End(was, front), v.after, v.cluster, at(v.cluster), v.revoked)
    && (v.revoked.None? ==> v.cluster in faults)
  }

  function LastReading(start: int, visits: seq<Visit>, at: string -> int): int {
    if visits == [] then start else at(visits[|visits| - 1].cluster)
  }

  /** Each clock reading is at or after the one before, the first at or after `start`. */
  predicate InOrder(start: int, visits: seq<Visit>, at: string -> int)
    decreases |visits|
  {
    visits == [] ||
    var front := visits[..|visits| - 1];
    LastReading(start, front, at) <= at(visits[|visits| - 1].cluster) && InOrder(start, front, at)
  }

  /** The pass of a visit, as the protocol has it in the end. */
  predicate PassedAs(passes: map<nat, Pass>, pass: nat, v: Visit, at: string -> int) {
    && pass in passes && passes[pass].cluster == v.cluster && passes[pass].now == at(v.cluster)
    && passes[pass].phase == (if v.revoked.Some? then Done else Aborted)
  }

  // ── The steps of a job ────────────────────────────────────────────────────────────────

  /** The steps of one visit: a reading of the clock, then one whole pass over its cluster, finished
      or aborted, which deletes exactly what is missing after it. */
  predicate Part(part: seq<Step>, pass: nat, was: map<Site, Binding>, v: Visit) {
    && part != [] && part[0].Tick? && WholePass(part[1..], pass, v.cluster, v.revoked.Some?)
    && Deleted(part[1..]) == was.Keys - v.after.Keys
  }

  /** One part for each visit; the passes are numbered from `base`. */
  predicate Parts(parts: seq<seq<Step>>, base: nat, was: map<Site, Binding>, visits: seq<Visit>) {
    |parts| == |visits| && forall i | 0 <= i < |parts| :: Part(parts[i], base + i, End(was, visits[..i]), visits[i])
  }

  function Joined(parts: seq<seq<Step>>): seq<Step>
    decreases |parts|
  {
    if parts == [] then [] else Joined(parts[..|parts| - 1]) + parts[|parts| - 1]
  }

  predicate MarkingPart(part: seq<Step>, job: nat) {
    part != [] && part[0].Tick? && WholeMarking(part[1..], job)
  }

  // ── The job as a run ──────────────────────────────────────────────────────────────────

  /** The passes of a job are a run of the protocol, and its steps are those of the passes, one pass
      after the other and nothing else, if the clock was read in order. */
  lemma {:induction false} PassesAreARun(start: State, visits: seq<Visit>, at: string -> int, faults: set<string>,
                                         base: nat)
    returns (parts: seq<seq<Step>>, to: State)
    requires (forall p <- start.passes :: p < base) && InOrder(start.clock, visits, at)
    requires Lawful(start.bindings, visits, at, faults)
    ensures Follows(start, Joined(parts), to) && Parts(parts, base, start.bindings, visits)
    ensures to == start.(clock := LastReading(start.clock, visits, at), bindings := End(start.bindings, visits),
                         passes := to.passes)
    ensures forall p <- to.passes :: p < base + |visits|
    ensures forall i | 0 <= i < |visits| :: PassedAs(to.passes, base + i, visits[i], at)
    decreases |visits|
  {
    if visits == [] {
      parts, to := [], start;
    } else {
      var front, v := visits[..|visits| - 1], visits[|visits| - 1];
      assert visits == front + [v] && End(start.bindings, visits) == v.after;
      assert LastReading(start.clock, front, at) <= at(v.cluster) == LastReading(start.clock, visits, at);
      assert OnePass(End(start.bindings, front), v.after, v.cluster, at(v.cluster), v.revoked);
      var early, mid := PassesAreARun(start, front, at, faults, base);
      hide PassedAs, Part, OnePass, Lawful, InOrder, LastReading, End, Parts, Joined, Follows;
      var part;
      part, to := NextPass(mid, base, front, v, at);
      parts := early + [part];
      OneMorePart(early, base, start.bindings, front, part, v);
      FollowsThen(start, Joined(early), mid, part, to);
    }
  }

  lemma OneMorePart(parts: seq<seq<Step>>, base: nat, was: map<Site, Binding>, visits: seq<Visit>, part: seq<Step>,
                    v: Visit)
    requires Parts(parts, base, was, visits) && Part(part, base + |visits|, End(was, visits), v)
    ensures Parts(parts + [part], base, was, visits + [v]) && Joined(parts + [part]) == Joined(parts) + part
  {
    hide Part;
    var all := visits + [v];
    assert (parts + [part])[..|parts|] == parts;
    forall i | 0 <= i < |parts + [part]| ensures Part((parts + [part])[i], base + i, End(was, all[..i]), all[i]) {
      assert all[..i] == visits[..i];
    }
  }

  /** A reading of the clock at `now` and one pass with the effect of visit `v`. */
  lemma OnePart(s: State, pass: nat, v: Visit, now: int) returns (part: seq<Step>, to: State)
    requires s.clock <= now && pass !in s.passes && OnePass(s.bindings, v.after, v.cluster, now, v.revoked)
    ensures Follows(s, part, to) && Part(part, pass, s.bindings, v)
    ensures to == AfterPass(s, pass, v.cluster, now, v.after, v.revoked.Some?)
  {
    hide Follows, Reaped;
    var steps := LaterPass(s, pass, v.cluster, now, v.after, v.revoked.Some?);
    part := [Tick(now - s.clock)] + steps;
    to := AfterPass(s, pass, v.cluster, now, v.after, v.revoked.Some?);
    assert part[1..] == steps;
  }

  lemma NextPass(mid: State, base: nat, front: seq<Visit>, v: Visit, at: string -> int)
    returns (part: seq<Step>, to: State)
    requires mid.clock <= at(v.cluster) && forall p <- mid.passes :: p < base + |front|
    requires OnePass(mid.bindings, v.after, v.cluster, at(v.cluster), v.revoked)
    requires forall i | 0 <= i < |front| :: PassedAs(mid.passes, base + i, front[i], at)
    ensures Follows(mid, part, to) && Part(part, base + |front|, mid.bindings, v)
    ensures to == mid.(clock := at(v.cluster), bindings := v.after, passes := to.passes)
    ensures forall p <- to.passes :: p <= base + |front|
    ensures forall i | 0 <= i < |front + [v]| :: PassedAs(to.passes, base + i, (front + [v])[i], at)
  {
    hide Follows, Part, OnePass;
    part, to := OnePart(mid, base + |front|, v, at(v.cluster));
    PassedOn(mid.passes, base, front, v, to.passes, at);
  }

  lemma PassedOn(passes: map<nat, Pass>, base: nat, visits: seq<Visit>, v: Visit, passes': map<nat, Pass>,
                 at: string -> int)
    requires forall i | 0 <= i < |visits| :: PassedAs(passes, base + i, visits[i], at)
    requires PassedAs(passes', base + |visits|, v, at)
    requires forall p <- passes | p != base + |visits| :: p in passes' && passes'[p] == passes[p]
    ensures forall i | 0 <= i < |visits + [v]| :: PassedAs(passes', base + i, (visits + [v])[i], at)
  {
    forall i | 0 <= i < |visits + [v]| ensures PassedAs(passes', base + i, (visits + [v])[i], at) {
      if i < |visits| { assert PassedAs(passes, base + i, visits[i], at); }
    }
  }

  /** With the marking, which follows if something was counted. */
  lemma JobIsARun(start: State, visits: seq<Visit>, at: string -> int, faults: set<string>, base: nat, job: nat,
                  markAt: int)
    returns (parts: seq<seq<Step>>, marking: seq<Step>, to: State)
    requires (forall p <- start.passes :: p < base) && start.holds == map[] && job !in start.jobs
    requires Lawful(start.bindings, visits, at, faults) && InOrder(start.clock, visits, at)
    requires LastReading(start.clock, visits, at) <= markAt
    ensures Follows(start, Joined(parts) + marking, to)
    ensures Parts(parts, base, start.bindings, visits) && MarkingPart(marking, job)
    ensures forall i | 0 <= i < |visits| :: PassedAs(to.passes, base + i, visits[i], at)
    ensures to == start.(clock := markAt, bindings := End(start.bindings, visits),
                         requests := Marked(start.requests, markAt), passes := to.passes)
  {
    var reaped;
    parts, reaped := PassesAreARun(start, visits, at, faults, base);
    hide Follows, Lawful, InOrder, Marked, Parts, PassedAs;
    var steps := LaterMarking(reaped, job, markAt);
    marking := [Tick(markAt - reaped.clock)] + steps;
    assert marking[1..] == steps;
    to := reaped.(clock := markAt, requests := Marked(start.requests, markAt));
    FollowsThen(start, Joined(parts), reaped, marking, to);
  }

  /** `parts` and `marking` are the steps of a job with these visits, with a marking at the end or
      without, and lead from `start` to `to`. */
  predicate RunOfJob(start: State, visits: seq<Visit>, marked: bool, parts: seq<seq<Step>>, marking: seq<Step>,
                     to: State) {
    && Follows(start, Joined(parts) + marking, to) && Parts(parts, 0, start.bindings, visits)
    && if marked then MarkingPart(marking, 0) else marking == []
  }

  lemma JobRunsTo(start: State, visits: seq<Visit>, at: string -> int, faults: set<string>, marked: bool, markAt: int)
    returns (parts: seq<seq<Step>>, marking: seq<Step>, to: State)
    requires start.passes == map[] && start.holds == map[] && start.jobs == map[]
    requires Lawful(start.bindings, visits, at, faults) && InOrder(start.clock, visits, at)
    requires LastReading(start.clock, visits, at) <= markAt
    ensures RunOfJob(start, visits, marked, parts, marking, to) && to.bindings == End(start.bindings, visits)
    ensures to.requests == if marked then Marked(start.requests, markAt) else start.requests
  {
    hide Follows, Lawful, InOrder, Marked, Parts;
    if marked {
      parts, marking, to := JobIsARun(start, visits, at, faults, 0, 0, markAt);
    } else {
      parts, to := PassesAreARun(start, visits, at, faults, 0);
      marking := [];
      assert Joined(parts) + [] == Joined(parts);
    }
  }

  /** A job with these visits leads from `start` to these bindings and requests. */
  ghost predicate IsJob(start: State, visits: seq<Visit>, marked: bool, bindings: map<Site, Binding>,
                        requests: map<string, Request>) {
    exists parts, marking, to :: RunOfJob(start, visits, marked, parts, marking, to)
      && to.bindings == bindings && to.requests == requests
  }

  lemma JobIsSomeRun(start: State, visits: seq<Visit>, at: string -> int, faults: set<string>, marked: bool,
                     markAt: int, bindings: map<Site, Binding>, requests: map<string, Request>)
    requires start.passes == map[] && start.holds == map[] && start.jobs == map[]
    requires Lawful(start.bindings, visits, at, faults) && bindings == End(start.bindings, visits)
    requires requests == if marked then Marked(start.requests, markAt) else start.requests
    ensures InOrder(start.clock, visits, at) && LastReading(start.clock, visits, at) <= markAt ==>
              IsJob(start, visits, marked, bindings, requests)
  {
    hide Lawful, InOrder, Marked, RunOfJob;
    if InOrder(start.clock, visits, at) && LastReading(start.clock, visits, at) <= markAt {
      var parts, marking, to := JobRunsTo(start, visits, at, faults, marked, markAt);
    }
  }

  // ── What a job's steps do in any run ──────────────────────────────────────────────────

  /** Where in the steps of the job the pass of a visit starts and ends. */
  lemma {:induction false} PassInJob(parts: seq<seq<Step>>, i: nat) returns (a: nat)
    requires i < |parts|
    ensures a + |parts[i]| <= |Joined(parts)| && Joined(parts)[a..a + |parts[i]|] == parts[i]
    decreases |parts|
  {
    var front := parts[..|parts| - 1];
    if i == |parts| - 1 {
      a := |Joined(front)|;
    } else {
      a := PassInJob(front, i);
      assert Joined(parts)[a..a + |parts[i]|] == Joined(front)[a..a + |parts[i]|];
    }
  }

  lemma PassStands(r: Run, n: nat, parts: seq<seq<Step>>, base: nat, was: map<Site, Binding>, visits: seq<Visit>,
                   i: nat)
    returns (first: nat, last: nat)
    requires n + |Joined(parts)| <= |r.steps| && r.steps[n..n + |Joined(parts)|] == Joined(parts)
    requires Parts(parts, base, was, visits) && i < |visits| && visits[i].revoked.Some?
    ensures n <= first < last < n + |Joined(parts)|
    ensures r.steps[first] == Reap(base + i, Start(visits[i].cluster))
    ensures r.steps[last] == Reap(base + i, PassStep.Finish)
  {
    var part := parts[i];
    var a := PassInJob(parts, i);
    var pass := part[1..];
    assert WholePass(pass, base + i, visits[i].cluster, true) by {
      assert Part(part, base + i, End(was, visits[..i]), visits[i]);
    }
    hide Joined, Parts;
    first, last := n + a + 1, n + a + |part| - 1;
    var steps := Joined(parts);
    assert r.steps[first] == steps[a + 1] == part[1] == pass[0];
    assert r.steps[last] == steps[a + |part| - 1] == part[|part| - 1] == pass[|pass| - 1];
  }

  /** Wherever a job's steps stand in a run, and whatever comes after them: a binding that was overdue
      when the job began, on a cluster whose pass it completed, is gone from its end on. */
  lemma JobReaps(r: Run, n: nat, parts: seq<seq<Step>>, base: nat, visits: seq<Visit>, i: nat, k: nat, site: Site)
    requires IsRun(r) && n + |Joined(parts)| <= k < |r.states| && r.steps[n..n + |Joined(parts)|] == Joined(parts)
    requires Parts(parts, base, r.states[n].bindings, visits)
    requires i < |visits| && visits[i].revoked.Some? && visits[i].cluster == site.cluster
    requires site in r.states[n].bindings && Overdue(r.states[n].bindings[site], r.states[n].clock)
    ensures !(site in r.states[k].bindings && r.states[k].bindings[site] == r.states[n].bindings[site])
  {
    var first, last := PassStands(r, n, parts, base, r.states[n].bindings, visits, i);
    hide Parts, Joined;
    if site in r.states[k].bindings && r.states[k].bindings[site] == r.states[n].bindings[site] {
      RunInv(r, n);
      hide Inv, IsRun;
      GrantAlreadyThere(r, n, first, k, site);
      BindingsAgeOverRun(r, n, first);
      CompletedPassReaps(r, first, last, k, base + i, site);
    }
  }
}
