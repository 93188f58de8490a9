/** The cleanup job: delete overdue JIT bindings on every cluster, then mark expired requests. */
module ExpireJob {
  import opened Common
  import opened JitProtocol
  import opened AccessRequests
  import opened ReapRuns
  import opened JobRuns

  /** What a list call with the JIT label selector returns, of one kind of binding. */
  function Labelled(bindings: map<Site, Binding>, cluster: string, clusterWide: bool): set<Site> {
    set site | site in bindings && site.cluster == cluster && (site.namespace == "") == clusterWide
        && bindings[site].jit
  }

  /** Of `bindings`, only overdue ones of the given clusters are missing from `after`. */
  predicate OnlyOverdueGone(bindings: map<Site, Binding>, after: map<Site, Binding>, clusters: set<string>,
                            at: string -> int) {
    && (forall site <- after :: site in bindings && after[site] == bindings[site])
    && (forall site <- bindings | site !in after ::
          site.cluster in clusters && Overdue(bindings[site], at(site.cluster)))
  }

  /** Nothing overdue is left on the given clusters, those that failed apart. */
  predicate Cleared(bindings: map<Site, Binding>, clusters: set<string>, faults: set<string>, at: string -> int) {
    forall site <- bindings | site.cluster in clusters && site.cluster !in faults ::
      !Overdue(bindings[site], at(site.cluster))
  }

  /** The bindings of the given clusters that are missing from `after`. */
  function GoneFrom(bindings: map<Site, Binding>, after: map<Site, Binding>, clusters: set<string>): set<Site> {
    set site | site in bindings && site !in after && site.cluster in clusters
  }

  /** `total` counts what is gone from all the clusters, except perhaps from those that failed. */
  predicate Counted(bindings: map<Site, Binding>, after: map<Site, Binding>, clusters: set<string>,
                    faults: set<string>, total: nat) {
    |GoneFrom(bindings, after, clusters - faults)| <= total <= |GoneFrom(bindings, after, clusters)|
  }

  /** Counts of passes over some clusters and then over others add up. */
  lemma CountedThen(was: map<Site, Binding>, mid: map<Site, Binding>, now: map<Site, Binding>,
                    first: set<string>, second: set<string>, faults: set<string>, total: nat, more: nat,
                    at: string -> int)
    requires OnlyOverdueGone(was, mid, first, at) && Counted(was, mid, first, faults, total)
    requires OnlyOverdueGone(mid, now, second, at) && Counted(mid, now, second, faults, more)
    ensures Counted(was, now, first + second, faults, total + more)
  {
    var a, b := GoneFrom(was, mid, first), GoneFrom(mid, now, second);
    assert GoneFrom(was, now, first + second) == a + b && a !! b;
    var sureA, sureB := GoneFrom(was, mid, first - faults), GoneFrom(mid, now, second - faults);
    assert sureA !! sureB;
    SubsetSmaller(GoneFrom(was, now, first + second - faults), sureA + sureB);
  }

  lemma OneCounted(was: map<Site, Binding>, now: map<Site, Binding>, cluster: string, faults: set<string>,
                   due: set<Site>, revoked: Option<nat>)
    requires revoked.Some? ==> revoked.value == |due| && due <= was.Keys && now == was - due
    requires revoked.Some? ==> forall site <- due :: site.cluster == cluster
    requires revoked.None? ==> cluster in faults
    ensures Counted(was, now, {cluster}, faults, revoked.GetOr(0))
  {
    if revoked.Some? {
      assert GoneFrom(was, now, {cluster}) == due;
      SubsetSmaller(GoneFrom(was, now, {cluster} - faults), due);
    } else {
      assert GoneFrom(was, now, {cluster} - faults) == {};
    }
  }

  /** The overdue ones of the listed bindings. */
  function Due(bindings: map<Site, Binding>, listed: set<Site>, now: int): set<Site>
    requires listed <= bindings.Keys
  {
    set site | site in listed && Overdue(bindings[site], now)
  }

  lemma OneMoreDue(bindings: map<Site, Binding>, listed: set<Site>, left: set<Site>, site: Site, now: int)
    requires left <= listed <= bindings.Keys && site in listed && site !in left
    ensures var before := Due(bindings, listed - left - {site}, now);
            && Due(bindings, listed - left, now) == (if Overdue(bindings[site], now) then before + {site} else before)
            && site !in before && (Overdue(bindings[site], now) ==> |before| < |Due(bindings, listed, now)|)
            && before <= Due(bindings, listed, now)
  {
    var before := Due(bindings, listed - left - {site}, now);
    if Overdue(bindings[site], now) {
      SubsetSmaller(before + {site}, Due(bindings, listed, now));
    }
  }

  predicate LabelledOk(bindings: map<Site, Binding>, cluster: string, clusterWide: bool) {
    && Labelled(bindings, cluster, clusterWide) <= bindings.Keys
    && forall site <- Labelled(bindings, cluster, clusterWide) :: bindings[site].jit
  }

  /** The two list calls of a pass between them find every overdue binding once. */
  lemma TwoListings(bindings: map<Site, Binding>, cluster: string, now: int)
    ensures var wide, narrow := OverdueOf(bindings, cluster, true, now), OverdueOf(bindings, cluster, false, now);
            && Due(bindings, Labelled(bindings, cluster, true), now) == wide
            && LabelledOk(bindings, cluster, true) && LabelledOk(bindings - wide, cluster, false)
            && Due(bindings - wide, Labelled(bindings - wide, cluster, false), now) == narrow
            && OverdueSites(bindings, cluster, now) == wide + narrow
            && |OverdueSites(bindings, cluster, now)| == |wide| + |narrow|
  {
    var wide, narrow := OverdueOf(bindings, cluster, true, now), OverdueOf(bindings, cluster, false, now);
    assert wide !! narrow;
    assert OverdueSites(bindings, cluster, now) == wide + narrow;
  }

  lemma FailedEarly(was: map<Site, Binding>, now: map<Site, Binding>, cluster: string, time: int, gone: set<Site>)
    requires gone <= OverdueOf(was, cluster, true, time) && now == was - gone
    ensures OnePass(was, now, cluster, time, None)
  {
    KeysGone(was, gone);
  }

  lemma FailedLate(was: map<Site, Binding>, now: map<Site, Binding>, cluster: string, time: int, wide: set<Site>,
                   some: set<Site>)
    requires wide == OverdueOf(was, cluster, true, time) && now == was - wide - some
    requires some <= OverdueOf(was, cluster, false, time)
    ensures OnePass(was, now, cluster, time, None)
  {
    MinusTwice(was, wide, some);
    KeysGone(was, wide + some);
  }

  lemma Completed(was: map<Site, Binding>, now: map<Site, Binding>, cluster: string, time: int, wide: set<Site>,
                  narrow: set<Site>)
    requires wide == OverdueOf(was, cluster, true, time) && narrow == OverdueOf(was, cluster, false, time)
    requires now == was - wide - narrow
    ensures OnePass(was, now, cluster, time, Some(|wide| + |narrow|))
  {
    TwoListings(was, cluster, time);
    MinusTwice(was, wide, narrow);
    KeysGone(was, OverdueSites(was, cluster, time));
    hide OverdueOf, OverdueSites, Due, Labelled, LabelledOk;
  }

  /** What is left of a budget of calls after `used` more. */
  function Left(budget: Option<nat>, used: nat): Option<nat> {
    if budget.None? then None else Some(if budget.value >= used then budget.value - used else 0)
  }

  /** What one pass takes away, and leaves, by the fields of the bindings. */
  lemma PassIsDue(was: map<Site, Binding>, now: map<Site, Binding>, cluster: string, time: int, revoked: Option<nat>)
    requires OnePass(was, now, cluster, time, revoked)
    ensures forall site <- now :: site in was && now[site] == was[site]
    ensures forall site <- was | site !in now ::
              var b := was[site];
              site.cluster == cluster && b.jit && b.expiry.At? && b.expiry.time <= time
    ensures revoked.Some? ==>
              && revoked.value == |was.Keys - now.Keys|
              && forall site <- now ::
                   var b := now[site];
                   !(site.cluster == cluster && b.jit && b.expiry.At? && b.expiry.time <= time)
  {
  }

  function Names(remotes: seq<string>): set<string> {
    set c | c in remotes
  }

  lemma OneMoreName(remotes: seq<string>, c: string)
    ensures Names(remotes + [c]) == Names(remotes) + {c}
  {
  }

  /** Passes over different clusters compose. */
  lemma GoneThenGone(was: map<Site, Binding>, mid: map<Site, Binding>, now: map<Site, Binding>,
                     first: set<string>, second: set<string>, at: string -> int)
    requires OnlyOverdueGone(was, mid, first, at) && OnlyOverdueGone(mid, now, second, at)
    ensures OnlyOverdueGone(was, now, first + second, at)
  {
  }

  lemma ClearedStays(mid: map<Site, Binding>, now: map<Site, Binding>, cleared: set<string>, more: set<string>,
                     faults: set<string>, at: string -> int)
    requires Cleared(mid, cleared, faults, at) && OnlyOverdueGone(mid, now, more, at)
    ensures Cleared(now, cleared, faults, at)
  {
  }

  // ── The passes of one job ─────────────────────────────────────────────────────────────

  function Total(visits: seq<Visit>): nat
    decreases |visits|
  {
    if visits == [] then 0 else Total(visits[..|visits| - 1]) + visits[|visits| - 1].revoked.GetOr(0)
  }

  function Visited(visits: seq<Visit>): set<string>
    decreases |visits|
  {
    if visits == [] then {} else Visited(visits[..|visits| - 1]) + {visits[|visits| - 1].cluster}
  }

  lemma LawfulOn(was: map<Site, Binding>, visits: seq<Visit>, at: string -> int, faults: set<string>, v: Visit)
    requires Lawful(was, visits, at, faults) && (v.revoked.None? ==> v.cluster in faults)
    requires OnePass(End(was, visits), v.after, v.cluster, at(v.cluster), v.revoked)
    ensures Lawful(was, visits + [v], at, faults) && Total(visits + [v]) == Total(visits) + v.revoked.GetOr(0)
    ensures End(was, visits + [v]) == v.after && Visited(visits + [v]) == Visited(visits) + {v.cluster}
  {
    assert (visits + [v])[..|visits|] == visits;
  }

  /** The effect of passes over `clusters`: only overdue bindings are gone, none is left on a cluster
      that did not fail, and `total` counts what is gone, failed clusters perhaps apart. */
  predicate Effect(was: map<Site, Binding>, now: map<Site, Binding>, clusters: set<string>, faults: set<string>,
                   at: string -> int, total: nat) {
    && OnlyOverdueGone(was, now, clusters, at) && Cleared(now, clusters, faults, at)
    && Counted(was, now, clusters, faults, total)
  }

  lemma OneEffect(was: map<Site, Binding>, v: Visit, faults: set<string>, at: string -> int)
    requires OnePass(was, v.after, v.cluster, at(v.cluster), v.revoked) && (v.revoked.None? ==> v.cluster in faults)
    ensures Effect(was, v.after, {v.cluster}, faults, at, v.revoked.GetOr(0))
  {
    OneGone(was, v, faults, at);
    OneCounted(was, v.after, v.cluster, faults, was.Keys - v.after.Keys, v.revoked);
    hide Counted, OnlyOverdueGone, Cleared;
  }

  lemma OneGone(was: map<Site, Binding>, v: Visit, faults: set<string>, at: string -> int)
    requires OnePass(was, v.after, v.cluster, at(v.cluster), v.revoked) && (v.revoked.None? ==> v.cluster in faults)
    ensures OnlyOverdueGone(was, v.after, {v.cluster}, at) && Cleared(v.after, {v.cluster}, faults, at)
  {
  }

  lemma {:induction false} LawfulEffect(was: map<Site, Binding>, visits: seq<Visit>, at: string -> int,
                                        faults: set<string>)
    requires Lawful(was, visits, at, faults)
    ensures Effect(was, End(was, visits), Visited(visits), faults, at, Total(visits))
    decreases |visits|
  {
    if visits == [] {
      assert GoneFrom(was, was, {} - faults) == {};
    } else {
      var front, v := visits[..|visits| - 1], visits[|visits| - 1];
      var mid := End(was, front);
      LawfulEffect(was, front, at, faults);
      OneEffect(mid, v, faults, at);
      EffectThen(was, mid, v.after, Visited(front), {v.cluster}, faults, at, Total(front), v.revoked.GetOr(0));
    }
  }

  lemma EffectThen(was: map<Site, Binding>, mid: map<Site, Binding>, now: map<Site, Binding>, first: set<string>,
                   second: set<string>, faults: set<string>, at: string -> int, total: nat, more: nat)
    requires Effect(was, mid, first, faults, at, total) && Effect(mid, now, second, faults, at, more)
    ensures Effect(was, now, first + second, faults, at, total + more)
  {
    GoneThenGone(was, mid, now, first, second, at);
    ClearedStays(mid, now, first, second, faults, at);
    CountedThen(was, mid, now, first, second, faults, total, more, at);
    hide Counted;
  }

  /** No binding is left of the request. */
  predicate NoneOf(bindings: map<Site, Binding>, id: string) {
    forall site <- bindings :: !(bindings[site].jit && bindings[site].request == Some(id))
  }

  /** Every binding the request had was on one of the clusters and past its expiry when the pass over
      that cluster read the clock. */
  predicate AllDue(bindings: map<Site, Binding>, id: string, clusters: set<string>, at: string -> int) {
    forall site <- bindings | bindings[site].jit && bindings[site].request == Some(id) ::
      site.cluster in clusters && PastExpiry(bindings[site].expiry, at(site.cluster))
  }

  /** The job leaves no binding of a request if all it had were due on clusters that did not fail, and
      only if all it had were due on the clusters of the job. */
  lemma NoneLeftBounds(was: map<Site, Binding>, now: map<Site, Binding>, clusters: set<string>, faults: set<string>,
                       at: string -> int, total: nat, id: string)
    requires Effect(was, now, clusters, faults, at, total)
    ensures AllDue(was, id, clusters - faults, at) ==> NoneOf(now, id)
    ensures NoneOf(now, id) ==> AllDue(was, id, clusters, at)
  {
    hide Counted;
    if NoneOf(now, id) {
      forall site <- was | was[site].jit && was[site].request == Some(id)
        ensures site.cluster in clusters && PastExpiry(was[site].expiry, at(site.cluster))
      {
        assert site !in now;
      }
    }
  }

  /** So, when no cluster fails, exactly if all it had were due. */
  lemma NoneLeftIff(was: map<Site, Binding>, now: map<Site, Binding>, clusters: set<string>, at: string -> int,
                    total: nat, id: string)
    requires Effect(was, now, clusters, {}, at, total)
    ensures NoneOf(now, id) <==> AllDue(was, id, clusters, at)
  {
    NoneLeftBounds(was, now, clusters, {}, at, total, id);
    assert clusters - {} == clusters;
  }

  class Cleanup {
    const service: AccessRequestService

    constructor (service: AccessRequestService)
      ensures this.service == service
    {
      this.service := service;
    }

    /** Deletes the overdue ones of the listed bindings one by one. If `budget` is given, the API
        server answers that many calls more and fails the next one. */
    method ReapListed(listed: set<Site>, now: int, budget: Option<nat>)
      returns (gone: set<Site>, completed: bool)
      requires listed <= service.bindings.Keys && forall site <- listed :: service.bindings[site].jit
      modifies service`bindings
      ensures service.bindings == old(service.bindings) - gone
      ensures gone <= Due(old(service.bindings), listed, now)
      ensures completed ==> gone == Due(old(service.bindings), listed, now)
      ensures completed <==> budget.None? || budget.value >= |Due(old(service.bindings), listed, now)|
    {
      var was := service.bindings;
      var left := listed;
      gone, completed := {}, true;
      assert Due(was, listed - left, now) == {};
      hide Due;
      while left != {}
        invariant left <= listed && service.bindings == was - gone && completed
        invariant gone == Due(was, listed - left, now)
        invariant budget.Some? ==> |gone| <= budget.value
        decreases left
      {
        var site :| site in left;
        assert listed - (left - {site}) - {site} == listed - left;
        left := left - {site};
        OneMoreDue(was, listed, left, site, now);
        if PastExpiry(service.bindings[site].expiry, now) {
          if budget == Some(|gone|) {
            return gone, false;
          }
          service.bindings := service.bindings - {site};
          gone := gone + {site};
        }
      }
      assert listed - left == listed;
    }

    /** ClusterRoleBindings first, then RoleBindings; `failAfter` is the number of calls, list calls
        and deletions, after which the API server stops answering. Returns nothing when it fails
        midway, which it does exactly if that is fewer than the calls it has to make. */
    method Reconcile(cluster: string, at: string -> int, failAfter: Option<nat>) returns (revoked: Option<nat>)
      modifies service`bindings
      ensures OnePass(old(service.bindings), service.bindings, cluster, at(cluster), revoked)
      ensures revoked.Some? <==>
                failAfter.None? || failAfter.value >= 2 + |OverdueSites(old(service.bindings), cluster, at(cluster))|
    {
      hide OnePass, Labelled, Due, OverdueSites, OverdueOf;
      var now := at(cluster);
      ghost var was := service.bindings;
      TwoListings(was, cluster, now);
      if failAfter == Some(0) {
        assert was - {} == was;
        FailedEarly(was, was, cluster, now, {});
        return None;
      }
      var budget := Left(failAfter, 1);
      var wide, completed := ReapListed(Labelled(service.bindings, cluster, true), now, budget);
      if !completed {
        FailedEarly(was, service.bindings, cluster, now, wide);
        return None;
      }
      if Left(budget, |wide|) == Some(0) {
        assert was - wide - {} == was - wide;
        FailedLate(was, service.bindings, cluster, now, wide, {});
        return None;
      }
      var narrow: set<Site>;
      narrow, completed := ReapListed(Labelled(service.bindings, cluster, false), now, Left(budget, |wide| + 1));
      if !completed {
        FailedLate(was, service.bindings, cluster, now, wide, narrow);
        return None;
      }
      Completed(was, service.bindings, cluster, now, wide, narrow);
      return Some(|wide| + |narrow|);
    }

    /** The remote clusters one after the other; a failing one is logged and its deletions are
        not counted. Adds a visit for each to those in `done`. */
    method ReconcileRemotes(remotes: seq<string>, at: string -> int, faults: map<string, nat>,
                            ghost was: map<Site, Binding>, ghost done: seq<Visit>)
      returns (total: nat, ghost visits: seq<Visit>)
      requires Lawful(was, done, at, faults.Keys) && End(was, done) == service.bindings
      modifies service`bindings
      ensures Lawful(was, visits, at, faults.Keys) && End(was, visits) == service.bindings
      ensures Visited(visits) == Visited(done) + Names(remotes) && Total(visits) == Total(done) + total
      ensures |visits| == |done| + |remotes| && done <= visits
      ensures forall i | |done| <= i < |visits| :: visits[i].cluster == remotes[i - |done|]
    {
      hide OnePass, Lawful, Visited, Total;
      total, visits := 0, done;
      assert Visited(done) + Names(remotes[..0]) == Visited(done);
      for i := 0 to |remotes|
        invariant Lawful(was, visits, at, faults.Keys) && End(was, visits) == service.bindings
        invariant Visited(visits) == Visited(done) + Names(remotes[..i]) && Total(visits) == Total(done) + total
        invariant |visits| == |done| + i && done <= visits
        invariant forall k | |done| <= k < |visits| :: visits[k].cluster == remotes[k - |done|]
      {
        var failAfter := if remotes[i] in faults then Some(faults[remotes[i]]) else None;
        var revoked := Reconcile(remotes[i], at, failAfter);
        LawfulOn(was, visits, at, faults.Keys, Visit(remotes[i], service.bindings, revoked));
        visits := visits + [Visit(remotes[i], service.bindings, revoked)];
        OneMoreName(remotes[..i], remotes[i]);
        assert remotes[..i + 1] == remotes[..i] + [remotes[i]];
        if revoked.Some? {
          total := total + revoked.value;
        }
      }
      assert remotes[..|remotes|] == remotes;
    }

    /** The local cluster's failure ends the job. `at` gives the clock reading of each pass, `markAt`
        the later one of `mark_expired`, which runs only if something was counted. If the clock
        readings are in order the whole is a run of the protocol. */
    method RunOnce(remotes: seq<string>, at: string -> int, markAt: int, faults: map<string, nat>)
      returns (total: Option<nat>, ghost visits: seq<Visit>)
      requires service.Valid()
      modifies service`bindings, service`requests
      ensures service.Valid()
      ensures Lawful(old(service.bindings), visits, at, faults.Keys)
              && End(old(service.bindings), visits) == service.bindings
      ensures visits != [] && visits[0].cluster == "local"
      ensures total.None? ==> |visits| == 1 && "local" in faults && service.requests == old(service.requests)
      ensures total.Some? ==>
                && |visits| == 1 + |remotes| && (forall i | 1 <= i < |visits| :: visits[i].cluster == remotes[i - 1])
                && Effect(old(service.bindings), service.bindings, {"local"} + Names(remotes), faults.Keys, at,
                          total.value)
                && service.requests == if total.value > 0 then Marked(old(service.requests), markAt)
                   else old(service.requests)
      ensures total.Some? ==>
                forall id ::
                  && (AllDue(old(service.bindings), id, {"local"} + Names(remotes) - faults.Keys, at)
                      ==> NoneOf(service.bindings, id))
                  && (NoneOf(service.bindings, id)
                      ==> AllDue(old(service.bindings), id, {"local"} + Names(remotes), at))
      ensures total.Some? <==>
                || "local" !in faults
                || faults["local"] >= 2 + |OverdueSites(old(service.bindings), "local", at("local"))|
      ensures InOrder(at("local"), visits, at) && LastReading(at("local"), visits, at) <= markAt ==>
                IsJob(old(service.World(at("local"))), visits, total.GetOr(0) > 0, service.bindings, service.requests)
    {
      hide OnePass, Lawful, Visited, Total, OnlyOverdueGone, Cleared, Counted, NoneOf, AllDue, Marked, InOrder,
          LastReading, IsJob, OverdueSites;
      ghost var was := service.bindings;
      ghost var start := service.World(at("local"));
      var failAfter := if "local" in faults then Some(faults["local"]) else None;
      var revoked := Reconcile("local", at, failAfter);
      visits := OneVisit(was, at, faults.Keys, Visit("local", service.bindings, revoked));
      if revoked.None? {
        JobIsSomeRun(start, visits, at, faults.Keys, false, markAt, service.bindings, service.requests);
        return None, visits;
      }
      var more;
      more, visits := ReconcileRemotes(remotes, at, faults, was, visits);
      LawfulEffect(was, visits, at, faults.Keys);
      NoneLeft(was, service.bindings, {"local"} + Names(remotes), faults.Keys, at, Total(visits));
      if revoked.value + more > 0 {
        service.MarkExpired(markAt);
      }
      JobIsSomeRun(start, visits, at, faults.Keys, revoked.value + more > 0, markAt, service.bindings,
                   service.requests);
      return Some(revoked.value + more), visits;
    }
  }

  lemma OneVisit(was: map<Site, Binding>, at: string -> int, faults: set<string>, v: Visit) returns (visits: seq<Visit>)
    requires OnePass(was, v.after, v.cluster, at(v.cluster), v.revoked) && (v.revoked.None? ==> v.cluster in faults)
    ensures visits == [v] && Lawful(was, visits, at, faults) && End(was, visits) == v.after
    ensures Visited(visits) == {v.cluster} && Total(visits) == v.revoked.GetOr(0)
  {
    LawfulOn(was, [], at, faults, v);
    assert [] + [v] == [v];
    visits := [v];
  }

  lemma NoneLeft(was: map<Site, Binding>, now: map<Site, Binding>, clusters: set<string>, faults: set<string>,
                 at: string -> int, total: nat)
    requires Effect(was, now, clusters, faults, at, total)
    ensures forall id :: (AllDue(was, id, clusters - faults, at) ==> NoneOf(now, id))
                      && (NoneOf(now, id) ==> AllDue(was, id, clusters, at))
  {
    forall id
      ensures (AllDue(was, id, clusters - faults, at) ==> NoneOf(now, id))
              && (NoneOf(now, id) ==> AllDue(was, id, clusters, at))
    {
      NoneLeftBounds(was, now, clusters, faults, at, total, id);
    }
  }
}
