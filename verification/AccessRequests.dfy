/** The service as the single calls the program makes, each proved to be an undisturbed run of the
    grant protocol's steps. */
module AccessRequests {
  import opened Common
  import opened JitProtocol

  datatype AccessError =
    | NotFound
    | WrongStatus(status: Status)
    | OwnRequest
    | NotEligible
    | TtlTooLong(limit: int)
    | NamespaceRequired
    | ApiFailure(code: int)

  /** Folds three steps of `Follows`, whose recursion the verifier opens only twice by itself. */
  lemma FollowsThree(s: State, a: Step, b: Step, c: Step)
    requires Enabled(s, a) && Enabled(Apply(s, a), b) && Enabled(Apply(Apply(s, a), b), c)
    ensures Follows(s, [a, b, c], Apply(Apply(Apply(s, a), b), c))
  {
    var s1 := Apply(s, a);
    var s2 := Apply(s1, b);
    assert [a, b, c][1..] == [b, c] && [b, c][1..] == [c] && [c][1..] == [];
    assert Follows(s2, [c], Apply(s2, c));
    assert Follows(s1, [b, c], Apply(s2, c));
  }

  lemma FollowsTwo(s: State, a: Step, b: Step)
    requires Enabled(s, a) && Enabled(Apply(s, a), b)
    ensures Follows(s, [a, b], Apply(Apply(s, a), b))
  {
    assert [a, b][1..] == [b] && [b][1..] == [];
    assert Follows(Apply(s, a), [b], Apply(Apply(s, a), b));
  }

  /** Locking the rows in `left` one by one, in some order. */
  lemma {:induction false} LockRows(s: State, job: nat, left: set<string>, s': State) returns (steps: seq<Step>)
    requires job in s.jobs && left <= s.jobs[job].selected && left !! s.holds.Keys
    requires s' == s.(holds := s.holds + map id | id in left :: Marking(job))
    ensures Follows(s, steps, s') && forall step <- steps :: step.Mark? && step.job == job && step.mark.Row?
    decreases left
  {
    if left == {} {
      assert s.holds + map[] == s.holds;
      steps := [];
    } else {
      var id :| id in left;
      var s1 := ApplyMark(s, job, Row(id));
      assert s1.holds + (map other | other in left - {id} :: Marking(job)) == s'.holds;
      var rest := LockRows(s1, job, left - {id}, s');
      steps := [Mark(job, Row(id))] + rest;
      assert steps[1..] == rest;
    }
  }

  lemma {:induction false} FollowsOneMore(s: State, steps: seq<Step>, mid: State, last: Step)
    requires Follows(s, steps, mid) && Enabled(mid, last)
    ensures Follows(s, steps + [last], Apply(mid, last))
    decreases |steps|
  {
    if steps == [] {
      assert [last][1..] == [];
    } else {
      FollowsOneMore(Apply(s, steps[0]), steps[1..], mid, last);
      assert (steps + [last])[1..] == steps[1..] + [last];
    }
  }

  lemma CommitLocked(s: State, job: nat, locked: State)
    requires s.holds == map[] && job !in s.jobs
    requires var selected := Selection(s.requests, s.clock);
             locked == s.(jobs := s.jobs[job := Job(s.clock, selected)],
                          holds := map id | id in selected :: Marking(job))
    ensures MarkEnabled(locked, job, Commit)
    ensures ApplyMark(locked, job, Commit) == s.(requests := Marked(s.requests, s.clock))
  {
    var end := ApplyMark(locked, job, Commit);
    assert end.holds == map[] && end.jobs == s.jobs && end.requests == Marked(s.requests, s.clock);
  }

  /** The steps of one marking: select, one row lock after the other, commit. */
  predicate WholeMarking(steps: seq<Step>, job: nat) {
    && |steps| >= 2 && steps[0] == Mark(job, Select) && steps[|steps| - 1] == Mark(job, Commit)
    && forall step <- steps[1..|steps| - 1] :: step.Mark? && step.job == job && step.mark.Row?
  }

  /** What `MarkExpired` does is an undisturbed select, lock and commit of the protocol. */
  lemma MarkingIsARun(s: State, job: nat) returns (steps: seq<Step>)
    requires s.holds == map[] && job !in s.jobs
    ensures Follows(s, steps, s.(requests := Marked(s.requests, s.clock))) && WholeMarking(steps, job)
  {
    var selected := Selection(s.requests, s.clock);
    var s1 := s.(jobs := s.jobs[job := Job(s.clock, selected)]);
    var s2 := s1.(holds := map id | id in selected :: Marking(job));
    assert s1.holds + (map id | id in selected :: Marking(job)) == s2.holds;
    var locks := LockRows(s1, job, selected, s2);
    CommitLocked(s, job, s2);
    FollowsOneMore(s1, locks, s2, Mark(job, Commit));
    steps := [Mark(job, Select)] + (locks + [Mark(job, Commit)]);
    assert steps[1..] == locks + [Mark(job, Commit)] && steps[1..|steps| - 1] == locks;
  }

  /** Which of the two policy tests fails first for a request that is not allowed. */
  function PolicyError(policies: map<(RoleKind, string), Policy>, kind: RoleKind, name: string): AccessError {
    if (kind, name) in policies && !policies[(kind, name)].eligible then NotEligible
    else TtlTooLong(TtlCap(policies, kind, name))
  }

  class AccessRequestService {
    const cluster: string  // the cluster the request's API client talks to
    var requests: map<string, Request>
    var policies: map<(RoleKind, string), Policy>
    var bindings: map<Site, Binding>  // the API servers' side
    var nextUid: nat

    constructor (cluster: string)
      ensures Valid() && this.cluster == cluster && World(0) == State(0, map[], map[], map[], 0, map[], map[], map[])
    {
      this.cluster := cluster;
      requests, policies, bindings, nextUid := map[], map[], map[], 0;
    }

    /** The protocol state this service sees at time `now`, with nothing in flight. */
    function World(now: int): State
      reads this
    {
      State(now, requests, policies, bindings, nextUid, map[], map[], map[])
    }

    /** Approved records carry the name of their binding; every method keeps this. */
    ghost predicate Valid()
      reads this
    {
      forall id <- requests | requests[id].status.Approved? :: requests[id].bindingName == Some(BindingName(id))
    }

    method CheckPolicy(roleKind: RoleKind, roleName: string, ttl: int) returns (error: Option<AccessError>)
      ensures error.None? <==> PolicyAllows(policies, roleKind, roleName, ttl)
      ensures error.Some? ==> error.value == PolicyError(policies, roleKind, roleName)
      ensures var key := (roleKind, roleName);
              var own := key in policies && policies[key].maxTtl.Some?;
              error == if key in policies && !policies[key].eligible then Some(NotEligible)
                       else if own && ttl > policies[key].maxTtl.value then Some(TtlTooLong(policies[key].maxTtl.value))
                       else if !own && ttl > 1440 then Some(TtlTooLong(1440)) else None
    {
      var key := (roleKind, roleName);
      if key in policies && !policies[key].eligible {
        return Some(NotEligible);
      }
      var maxTtl := if key in policies && policies[key].maxTtl.Some? then policies[key].maxTtl.value
          else MAX_TTL_MINUTES;
      if ttl > maxTtl {
        return Some(TtlTooLong(maxTtl));
      }
      return None;
    }

    method SetPolicy(roleKind: RoleKind, roleName: string, policy: Policy, ghost now: int)
      requires policy.maxTtl.Some? ==> MIN_TTL_MINUTES <= policy.maxTtl.value <= MAX_TTL_MINUTES
      modifies this`policies
      ensures policies == old(policies)[(roleKind, roleName) := policy]
      ensures World(now) == Apply(old(World(now)), Service(ServiceStep.SetPolicy(roleKind, roleName, policy)))
    {
      policies := policies[(roleKind, roleName) := policy];
    }

    method DeletePolicy(roleKind: RoleKind, roleName: string, ghost now: int)
      modifies this`policies
      ensures policies == old(policies) - {(roleKind, roleName)}
      ensures World(now) == Apply(old(World(now)), Service(DropPolicy(roleKind, roleName)))
    {
      if (roleKind, roleName) in policies {
        policies := policies - {(roleKind, roleName)};
      }
    }

    /** `id` is the UUID drawn for the record, fresh by assumption. */
    method CreateRequest(id: string, requester: string, subject: Subject, roleKind: RoleKind, roleName: string,
                         namespace: string, ttl: int, ghost now: int)
      returns (result: Result<Request, AccessError>)
      requires Valid() && id !in requests && MIN_TTL_MINUTES <= ttl
      modifies this`requests
      ensures Valid()
      ensures result.Ok? <==> (roleKind.Role? ==> namespace != "") && PolicyAllows(policies, roleKind, roleName, ttl)
      ensures result.Ok? ==>
                && var step := Service(Create(id, requester, subject, roleKind, roleName, namespace, ttl));
                && Enabled(old(World(now)), step) && World(now) == Apply(old(World(now)), step)
      ensures result.Ok? ==>
                && requests == old(requests)[id := result.value] && result.value.status == Pending
                && result.value.requester == requester && result.value.subject == subject
                && result.value.roleKind == roleKind && result.value.roleName == roleName
                && result.value.namespace == namespace && result.value.ttl == ttl
                && result.value.reviewedBy.None? && result.value.reviewedAt.None?
                && result.value.expiresAt.None? && result.value.bindingName.None?
      ensures result.Err? ==> requests == old(requests)
      ensures result.Err? ==>
                result.error == if roleKind.Role? && namespace == "" then NamespaceRequired
                                else PolicyError(policies, roleKind, roleName)
    {
      if roleKind.Role? && namespace == "" {
        return Err(NamespaceRequired);
      }
      var denied := CheckPolicy(roleKind, roleName, ttl);
      if denied.Some? {
        return Err(denied.value);
      }
      var record := Request(requester, subject, roleKind, roleName, namespace, ttl, Pending, None, None, None, None);
      requests := requests[id := record];
      return Ok(record);
    }

    /** The API server's create call: HTTP 409 when the name is taken. */
    method CreateBinding(site: Site, expiry: int, id: string, subject: Subject, roleKind: RoleKind, roleName: string)
      returns (created: bool)
      modifies this`bindings, this`nextUid
      ensures created <==> site !in old(bindings)
      ensures !created ==> bindings == old(bindings) && nextUid == old(nextUid)
      ensures created ==>
                && bindings == old(bindings)[site := Binding(old(nextUid), true, At(expiry), Some(id), subject,
                                                             roleKind, roleName)]
                && nextUid == old(nextUid) + 1
    {
      if site in bindings {
        return false;
      }
      bindings := bindings[site := Binding(nextUid, true, At(expiry), Some(id), subject, roleKind, roleName)];
      nextUid := nextUid + 1;
      return true;
    }

    /** `outage` is the status of a Kubernetes error other than a name conflict, if one is raised. */
    method ApproveRequest(id: string, reviewer: string, now: int, outage: Option<int>)
      returns (result: Result<Request, AccessError>)
      requires Valid()
      modifies this
      ensures Valid()
      ensures result.Ok? <==>
                && id in old(requests) && old(requests)[id].status == Pending && old(requests)[id].requester != reviewer
                && var r := old(requests)[id];
                && PolicyAllows(policies, r.roleKind, r.roleName, r.ttl)
                && outage.None? && Site(cluster, r.namespace, "clustervision-jit-" + id) !in old(bindings)
      ensures result.Ok? ==>
                && var r, expiry := old(requests)[id], now + old(requests)[id].ttl * 60_000_000;
                && result.value == r.(status := Approved, reviewedBy := Some(reviewer), reviewedAt := Some(now),
                                      expiresAt := Some(expiry), bindingName := Some("clustervision-jit-" + id))
                && requests == old(requests)[id := result.value] && nextUid == old(nextUid) + 1
                && bindings == old(bindings)[Site(cluster, r.namespace, "clustervision-jit-" + id) :=
                     Binding(old(nextUid), true, At(expiry), Some(id), r.subject,
                             if r.namespace == "" then ClusterRole else r.roleKind, r.roleName)]
      ensures result.Ok? ==>
                && Follows(old(World(now)), [Service(ApproveCheck(id, reviewer, cluster)), Service(ApproveBind(id)),
                                             Service(ApproveCommit(id))], World(now))
      ensures result.Err? ==> World(now) == old(World(now))
      ensures result.Err? && id !in requests ==> result.error == NotFound
      ensures result.Err? && id in requests ==>
                var r := requests[id];
                result.error == if r.status != Pending then WrongStatus(r.status)
                                else if r.requester == reviewer then OwnRequest
                                else if !PolicyAllows(policies, r.roleKind, r.roleName, r.ttl)
                                then PolicyError(policies, r.roleKind, r.roleName)
                                else ApiFailure(outage.GetOr(409))
    {
      if id !in requests {
        return Err(NotFound);
      }
      var record := requests[id];
      if record.status != Pending {
        return Err(WrongStatus(record.status));
      }
      if record.requester == reviewer {
        return Err(OwnRequest);
      }
      var denied := CheckPolicy(record.roleKind, record.roleName, record.ttl);
      if denied.Some? {
        return Err(denied.value);
      }
      if outage.Some? {
        return Err(ApiFailure(outage.value));
      }
      ghost var was := World(now);
      var expiresAt := now + record.ttl * MINUTE;
      var name := BindingName(id);
      var roleKind := if record.namespace == "" then ClusterRole else record.roleKind;
      var created := CreateBinding(Site(cluster, record.namespace, name), expiresAt, id, record.subject, roleKind,
                                   record.roleName);
      if !created {
        return Err(ApiFailure(409));
      }
      record := record.(status := Approved, reviewedBy := Some(reviewer), reviewedAt := Some(now),
                        expiresAt := Some(expiresAt), bindingName := Some(name));
      requests := requests[id := record];
      ApprovalSteps(was, id, reviewer, cluster, World(now));
      return Ok(record);
    }

    method DenyRequest(id: string, reviewer: string, now: int) returns (result: Result<Request, AccessError>)
      requires Valid()
      modifies this`requests
      ensures Valid()
      ensures result.Ok? <==> id in old(requests) && old(requests)[id].status == Pending
      ensures result.Ok? ==>
                && result.value == old(requests)[id].(status := Denied, reviewedBy := Some(reviewer),
                                                      reviewedAt := Some(now))
                && requests == old(requests)[id := result.value]
                && Follows(old(World(now)), [Service(DenyCheck(id, reviewer)), Service(DenyCommit(id))], World(now))
      ensures result.Err? ==>
                && requests == old(requests)
                && result.error == if id in requests then WrongStatus(requests[id].status) else NotFound
    {
      if id !in requests {
        return Err(NotFound);
      }
      var record := requests[id];
      if record.status != Pending {
        return Err(WrongStatus(record.status));
      }
      ghost var was := World(now);
      record := record.(status := Denied, reviewedBy := Some(reviewer), reviewedAt := Some(now));
      requests := requests[id := record];
      FollowsTwo(was, Service(DenyCheck(id, reviewer)), Service(DenyCommit(id)));
      return Ok(record);
    }

    /** The API server's delete call: HTTP 404 when there is nothing at the site, and `outage`,
        when given, instead of any answer of its own. */
    method DeleteBinding(site: Site, outage: Option<int>) returns (status: int)
      modifies this`bindings
      ensures outage.None? ==>
                bindings == old(bindings) - {site} && status == if site in old(bindings) then 200 else 404
      ensures outage.Some? ==> bindings == old(bindings) && status == outage.value
    {
      if outage.Some? {
        return outage.value;
      }
      status := if site in bindings then 200 else 404;
      bindings := bindings - {site};
    }

    /** A 404 from the delete call is swallowed; any other error leaves all as it was. */
    method RevokeRequest(id: string, now: int, outage: Option<int>) returns (result: Result<Request, AccessError>)
      requires Valid() && (outage.Some? ==> outage.value >= 400)
      modifies this`requests, this`bindings
      ensures Valid()
      ensures result.Ok? <==>
                id in old(requests) && old(requests)[id].status == Approved && (outage.None? || outage.value == 404)
      ensures result.Ok? ==>
                && var r := old(requests)[id];
                && result.value == r.(status := Revoked, reviewedAt := Some(now))
                && requests == old(requests)[id := result.value] && r.bindingName.Some?
                && bindings == if outage.Some? then old(bindings)
                               else old(bindings) - {Site(cluster, r.namespace, r.bindingName.value)}
      ensures result.Ok? && outage.None? ==>
                Follows(old(World(now)), [Service(RevokeCheck(id, cluster)), Service(RevokeUnbind(id)),
                                          Service(RevokeCommit(id))], World(now))
      ensures result.Err? ==> World(now) == old(World(now))
      ensures result.Err? && !RequestHas(World(now), id, Approved) ==>
                result.error == if id in requests then WrongStatus(requests[id].status) else NotFound
      ensures result.Err? && RequestHas(World(now), id, Approved) ==>
                outage.Some? && result.error == ApiFailure(outage.value)
    {
      if id !in requests {
        return Err(NotFound);
      }
      var record := requests[id];
      if record.status != Approved {
        return Err(WrongStatus(record.status));
      }
      ghost var was := World(now);
      var status := DeleteBinding(Site(cluster, record.namespace, record.bindingName.value), outage);
      if status >= 400 && status != 404 {
        return Err(ApiFailure(status));
      }
      record := record.(status := Revoked, reviewedAt := Some(now));
      requests := requests[id := record];
      if outage.None? {
        RevocationSteps(was, id, cluster, World(now));
      }
      return Ok(record);
    }

    /** Loops over the rows the SELECT returned. */
    method MarkExpired(now: int)
      requires Valid()
      modifies this`requests
      ensures Valid()
      ensures requests == Marked(old(requests), now) && requests.Keys == old(requests).Keys
      ensures forall id <- old(requests) ::
                var r := old(requests)[id];
                requests[id] == if r.status == Approved && r.expiresAt.Some? && r.expiresAt.value <= now
                                then r.(status := Expired) else r
    {
      var was := requests;
      var selected := Selection(requests, now);
      var left := selected;
      while left != {}
        invariant left <= selected && requests.Keys == was.Keys
        invariant forall id <- was :: requests[id] == if id in selected - left then was[id].(status := Expired)
                  else was[id]
        decreases left
      {
        var id :| id in left;
        requests := requests[id := requests[id].(status := Expired)];
        left := left - {id};
      }
    }
  }

  lemma ApprovalSteps(s: State, id: string, reviewer: string, cluster: string, s': State)
    requires s.holds == map[] && ServiceEnabled(s, ApproveCheck(id, reviewer, cluster))
    requires SiteOf(cluster, id, s.requests[id]) !in s.bindings
    requires s' == s.(requests := s.requests[id := ApprovedRecord(s.requests[id], id, reviewer, s.clock)],
                      bindings := s.bindings[SiteOf(cluster, id, s.requests[id]) := GrantedBinding(s, id, s.clock)],
                      nextUid := s.nextUid + 1)
    ensures Follows(s, [Service(ApproveCheck(id, reviewer, cluster)), Service(ApproveBind(id)),
                        Service(ApproveCommit(id))], s')
  {
    var s1 := ApplyService(s, ApproveCheck(id, reviewer, cluster));
    var s2 := ApplyService(s1, ApproveBind(id));
    assert ApplyService(s2, ApproveCommit(id)) == s';
    FollowsThree(s, Service(ApproveCheck(id, reviewer, cluster)), Service(ApproveBind(id)), Service(ApproveCommit(id)));
  }

  lemma RevocationSteps(s: State, id: string, cluster: string, s': State)
    requires s.holds == map[] && RequestHas(s, id, Approved) && s.requests[id].bindingName.Some?
    requires var r := s.requests[id];
             s' == s.(requests := s.requests[id := r.(status := Revoked, reviewedAt := Some(s.clock))],
                      bindings := s.bindings - {Site(cluster, r.namespace, r.bindingName.value)})
    ensures Follows(s, [Service(RevokeCheck(id, cluster)), Service(RevokeUnbind(id)), Service(RevokeCommit(id))], s')
  {
    var s1 := ApplyService(s, RevokeCheck(id, cluster));
    var s2 := ApplyService(s1, RevokeUnbind(id));
    assert ApplyService(s2, RevokeCommit(id)) == s';
    FollowsThree(s, Service(RevokeCheck(id, cluster)), Service(RevokeUnbind(id)), Service(RevokeCommit(id)));
  }
}
