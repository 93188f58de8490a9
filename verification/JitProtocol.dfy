/** The just-in-time grant protocol as a state machine.

    A grant lives in two places, a row of `access_requests` and a Kubernetes binding, and
    separate calls change them. Each database transaction, each Kubernetes call and each crash
    is one step, so a sequence of steps is one interleaving of any number of requests, expiry
    passes and administrators over any number of clusters. */
module JitProtocol {
  import opened Common

  /** The clock counts microseconds, the resolution of the source's timestamps. */
  const MINUTE: int := 60_000_000
  const MIN_TTL_MINUTES: int := 5
  const MAX_TTL_MINUTES: int := 24 * 60

  datatype RoleKind = ClusterRole | Role
  datatype Subject = Subject(kind: string, name: string, namespace: string)
  datatype Status = Pending | Approved | Denied | Revoked | Expired

  /** A row of `access_requests`. An empty `namespace` stands for an absent one: the source
      only tests whether it is set. */
  datatype Request = Request(
    requester: string, subject: Subject, roleKind: RoleKind, roleName: string, namespace: string, ttl: int,
    status: Status, reviewedBy: Option<string>, reviewedAt: Option<int>, expiresAt: Option<int>,
    bindingName: Option<string>)

  datatype Policy = Policy(eligible: bool, maxTtl: Option<int>)

  /** The expiry annotation of a binding, as the cleanup job reads it. */
  datatype Annotation = Absent | Unreadable | At(time: int)

  /** A binding lives at a site: a cluster, a namespace ("" for a ClusterRoleBinding), a name. */
  datatype Site = Site(cluster: string, namespace: string, name: string)

  /** `uid` is the object identity the API server assigns; `jit` is the JIT label. */
  datatype Binding = Binding(
    uid: nat, jit: bool, expiry: Annotation, request: Option<string>,
    subject: Subject, roleKind: RoleKind, roleName: string)

  /** Who holds the row lock of a request, and how far that transaction has come. */
  datatype Hold =
    | Approving(reviewer: string, cluster: string, at: int, bound: bool)
    | Denying(reviewer: string)
    | Revoking(cluster: string, unbound: bool)
    | Marking(job: nat)

  datatype Phase = Begun | ClusterWide | Namespaced | Done | Aborted

  /** One call of the cleanup job's `_reconcile`: `todo` maps the sites still to delete to the
      binding listed there. `born` bounds the bindings that existed when the pass started. */
  datatype Pass = Pass(cluster: string, now: int, born: nat, phase: Phase, todo: map<Site, nat>)

  /** One call of `mark_expired`: its clock reading and the rows its SELECT returned. */
  datatype Job = Job(at: int, selected: set<string>)

  datatype State = State(
    clock: int, requests: map<string, Request>, policies: map<(RoleKind, string), Policy>,
    bindings: map<Site, Binding>, nextUid: nat,
    holds: map<string, Hold>, passes: map<nat, Pass>, jobs: map<nat, Job>)

  /** The service calls: the transactions of `AccessRequestService`, cut at every commit and
      at every Kubernetes call. `Crash` loses the session: nothing is committed, the lock goes. */
  datatype ServiceStep =
    | Create(id: string, requester: string, subject: Subject, roleKind: RoleKind, roleName: string,
             namespace: string, ttl: int)
    | SetPolicy(roleKind: RoleKind, roleName: string, policy: Policy)
    | DropPolicy(roleKind: RoleKind, roleName: string)
    | ApproveCheck(id: string, reviewer: string, cluster: string)
    | ApproveBind(id: string)
    | ApproveCommit(id: string)
    | DenyCheck(id: string, reviewer: string)
    | DenyCommit(id: string)
    | RevokeCheck(id: string, cluster: string)
    | RevokeUnbind(id: string)
    | RevokeCommit(id: string)
    | Crash(id: string)

  /** One `_reconcile` of the cleanup job. */
  datatype PassStep =
    | Start(cluster: string)
    | ListClusterWide
    | ListNamespaced
    | Delete(site: Site)
    | Finish
    | Abort

  /** One `mark_expired`: the SELECT takes no lock, each UPDATE waits for the row lock. */
  datatype MarkStep =
    | Select
    | Row(id: string)
    | Commit
    | Lost

  datatype Step =
    | Tick(elapsed: nat)
    | Service(call: ServiceStep)
    | Reap(pass: nat, reap: PassStep)
    | Mark(job: nat, mark: MarkStep)
    | ForeignBind(site: Site, expiry: Annotation, subject: Subject, roleKind: RoleKind, roleName: string)
    | ForeignUnbind(site: Site)

  function BindingName(id: string): string {
    "clustervision-jit-" + id
  }

  function TtlCap(policies: map<(RoleKind, string), Policy>, kind: RoleKind, name: string): int {
    if (kind, name) in policies && policies[(kind, name)].maxTtl.Some?
    then policies[(kind, name)].maxTtl.value
    else MAX_TTL_MINUTES
  }

  /** What `_check_policy` lets through. */
  predicate PolicyAllows(policies: map<(RoleKind, string), Policy>, kind: RoleKind, name: string, ttl: int) {
    && ((kind, name) in policies ==> policies[(kind, name)].eligible)
    && ttl <= TtlCap(policies, kind, name)
  }

  /** `_is_expired`: an absent or unreadable annotation never expires. */
  predicate PastExpiry(annotation: Annotation, now: int) {
    match annotation
    case Absent => false
    case Unreadable => false
    case At(time) => time <= now
  }

  /** What the cleanup job deletes: the label selector and the expiry test together. */
  predicate Overdue(b: Binding, now: int) {
    b.jit && PastExpiry(b.expiry, now)
  }

  function SiteOf(cluster: string, id: string, r: Request): Site {
    Site(cluster, r.namespace, BindingName(id))
  }

  function Release(s: State, id: string): State {
    s.(holds := s.holds - {id})
  }

  /** The bindings a list call of the cleanup job returns, with their identities. */
  function Listing(s: State, cluster: string, clusterWide: bool, now: int): map<Site, nat> {
    map site | site in s.bindings && site.cluster == cluster && (site.namespace == "") == clusterWide
               && Overdue(s.bindings[site], now) :: s.bindings[site].uid
  }

  predicate RequestHas(s: State, id: string, status: Status) {
    id in s.requests && s.requests[id].status == status
  }

  predicate PassIn(s: State, pass: nat, phase: Phase) {
    pass in s.passes && s.passes[pass].phase == phase
  }

  predicate ServiceEnabled(s: State, call: ServiceStep) {
    match call
    case Create(id, _, _, roleKind, roleName, namespace, ttl) =>
      && id !in s.requests
      && MIN_TTL_MINUTES <= ttl
      && (roleKind.Role? ==> namespace != "")
      && PolicyAllows(s.policies, roleKind, roleName, ttl)
    case SetPolicy(_, _, policy) =>
      policy.maxTtl.Some? ==> MIN_TTL_MINUTES <= policy.maxTtl.value <= MAX_TTL_MINUTES
    case DropPolicy(_, _) => true
    case ApproveCheck(id, reviewer, _) =>
      && RequestHas(s, id, Pending)
      && id !in s.holds
      && s.requests[id].requester != reviewer
      && PolicyAllows(s.policies, s.requests[id].roleKind, s.requests[id].roleName, s.requests[id].ttl)
    case ApproveBind(id) =>
      id in s.requests && id in s.holds && s.holds[id].Approving? && !s.holds[id].bound
    case ApproveCommit(id) =>
      id in s.requests && id in s.holds && s.holds[id].Approving? && s.holds[id].bound
    case DenyCheck(id, _) => RequestHas(s, id, Pending) && id !in s.holds
    case DenyCommit(id) => id in s.requests && id in s.holds && s.holds[id].Denying?
    case RevokeCheck(id, _) => RequestHas(s, id, Approved) && id !in s.holds
    case RevokeUnbind(id) =>
      && id in s.requests && id in s.holds && s.holds[id].Revoking? && !s.holds[id].unbound
      && s.requests[id].bindingName.Some?
    case RevokeCommit(id) =>
      id in s.requests && id in s.holds && s.holds[id].Revoking? && s.holds[id].unbound
    case Crash(id) => id in s.holds && !s.holds[id].Marking?
  }

  predicate ReapEnabled(s: State, pass: nat, reap: PassStep) {
    match reap
    case Start(_) => pass !in s.passes
    case ListClusterWide => PassIn(s, pass, Begun)
    case ListNamespaced => PassIn(s, pass, ClusterWide) && s.passes[pass].todo == map[]
    case Delete(site) => pass in s.passes && site in s.passes[pass].todo
    case Finish => PassIn(s, pass, Namespaced) && s.passes[pass].todo == map[]
    case Abort => pass in s.passes && s.passes[pass].phase != Done
  }

  predicate MarkEnabled(s: State, job: nat, mark: MarkStep) {
    match mark
    case Select => job !in s.jobs
    case Row(id) => job in s.jobs && id in s.jobs[job].selected && id !in s.holds
    case Commit =>
      && job in s.jobs
      && forall id <- s.jobs[job].selected :: id in s.requests && id in s.holds && s.holds[id] == Marking(job)
    case Lost => job in s.jobs
  }

  predicate Enabled(s: State, step: Step) {
    match step
    case Tick(_) => true
    case Service(call) => ServiceEnabled(s, call)
    case Reap(pass, reap) => ReapEnabled(s, pass, reap)
    case Mark(job, mark) => MarkEnabled(s, job, mark)
    case ForeignBind(site, _, _, _, _) => site !in s.bindings
    case ForeignUnbind(site) => site in s.bindings
  }

  /** The record `approve_request` commits: `at` is the clock reading the expiry was computed from. */
  function ApprovedRecord(r: Request, id: string, reviewer: string, at: int): Request {
    r.(status := Approved, reviewedBy := Some(reviewer), reviewedAt := Some(at),
       expiresAt := Some(at + r.ttl * MINUTE), bindingName := Some(BindingName(id)))
  }

  function GrantedBinding(s: State, id: string, at: int): Binding
    requires id in s.requests
  {
    var r := s.requests[id];
    Binding(s.nextUid, true, At(at + r.ttl * MINUTE), Some(id), r.subject,
            if r.namespace == "" then ClusterRole else r.roleKind, r.roleName)
  }

  /** Rows `mark_expired` selects at time `now`. */
  function Selection(requests: map<string, Request>, now: int): set<string> {
    set id | id in requests && requests[id].status == Approved
             && requests[id].expiresAt.Some? && requests[id].expiresAt.value <= now
  }

  function ApplyService(s: State, call: ServiceStep): State
    requires ServiceEnabled(s, call)
  {
    match call
    case Create(id, requester, subject, roleKind, roleName, namespace, ttl) =>
      s.(requests := s.requests[id := Request(requester, subject, roleKind, roleName, namespace, ttl,
                                              Pending, None, None, None, None)])
    case SetPolicy(roleKind, roleName, policy) =>
      s.(policies := s.policies[(roleKind, roleName) := policy])
    case DropPolicy(roleKind, roleName) =>
      s.(policies := s.policies - {(roleKind, roleName)})
    case ApproveCheck(id, reviewer, cluster) =>
      s.(holds := s.holds[id := Approving(reviewer, cluster, s.clock, false)])
    case ApproveBind(id) =>
      var hold := s.holds[id];
      var site := SiteOf(hold.cluster, id, s.requests[id]);
      if site in s.bindings then
        Release(s, id)  // HTTP 409: the exception rolls the transaction back
      else
        s.(bindings := s.bindings[site := GrantedBinding(s, id, hold.at)],
           nextUid := s.nextUid + 1,
           holds := s.holds[id := hold.(bound := true)])
    case ApproveCommit(id) =>
      var hold := s.holds[id];
      Release(s.(requests := s.requests[id := ApprovedRecord(s.requests[id], id, hold.reviewer, hold.at)]), id)
    case DenyCheck(id, reviewer) =>
      s.(holds := s.holds[id := Denying(reviewer)])
    case DenyCommit(id) =>
      var r := s.requests[id];
      Release(s.(requests := s.requests[id := r.(status := Denied, reviewedBy := Some(s.holds[id].reviewer),
                                                 reviewedAt := Some(s.clock))]), id)
    case RevokeCheck(id, cluster) =>
      s.(holds := s.holds[id := Revoking(cluster, false)])
    case RevokeUnbind(id) =>
      var hold := s.holds[id];
      var r := s.requests[id];
      s.(bindings := s.bindings - {Site(hold.cluster, r.namespace, r.bindingName.value)},
         holds := s.holds[id := hold.(unbound := true)])
    case RevokeCommit(id) =>
      Release(s.(requests := s.requests[id := s.requests[id].(status := Revoked, reviewedAt := Some(s.clock))]), id)
    case Crash(id) => Release(s, id)
  }

  function ApplyReap(s: State, pass: nat, reap: PassStep): State
    requires ReapEnabled(s, pass, reap)
  {
    if reap.Start? then
      s.(passes := s.passes[pass := Pass(reap.cluster, s.clock, s.nextUid, Begun, map[])])
    else
      var p := s.passes[pass];
      match reap
      case ListClusterWide =>
        s.(passes := s.passes[pass := p.(phase := ClusterWide, todo := Listing(s, p.cluster, true, p.now))])
      case ListNamespaced =>
        s.(passes := s.passes[pass := p.(phase := Namespaced, todo := Listing(s, p.cluster, false, p.now))])
      case Delete(site) =>
        s.(bindings := s.bindings - {site}, passes := s.passes[pass := p.(todo := p.todo - {site})])
      case Finish => s.(passes := s.passes[pass := p.(phase := Done)])
      case Abort => s.(passes := s.passes[pass := p.(phase := Aborted, todo := map[])])
  }

  function ApplyMark(s: State, job: nat, mark: MarkStep): State
    requires MarkEnabled(s, job, mark)
  {
    match mark
    case Select => s.(jobs := s.jobs[job := Job(s.clock, Selection(s.requests, s.clock))])
    case Row(id) => s.(holds := s.holds[id := Marking(job)])
    case Commit =>
      var done := s.jobs[job].selected;
      s.(requests := map id | id in s.requests ::
                       if id in done then s.requests[id].(status := Expired) else s.requests[id],
         holds := s.holds - done, jobs := s.jobs - {job})
    case Lost =>
      s.(holds := map id | id in s.holds && s.holds[id] != Marking(job) :: s.holds[id], jobs := s.jobs - {job})
  }

  function Apply(s: State, step: Step): State
    requires Enabled(s, step)
  {
    match step
    case Tick(elapsed) => s.(clock := s.clock + elapsed)
    case Service(call) => ApplyService(s, call)
    case Reap(pass, reap) => ApplyReap(s, pass, reap)
    case Mark(job, mark) => ApplyMark(s, job, mark)
    case ForeignBind(site, expiry, subject, roleKind, roleName) =>
      s.(bindings := s.bindings[site := Binding(s.nextUid, false, expiry, None, subject, roleKind, roleName)],
         nextUid := s.nextUid + 1)
    case ForeignUnbind(site) => s.(bindings := s.bindings - {site})
  }

  /** `s'` is what the steps, taken one after the other, make of `s`. */
  predicate Follows(s: State, steps: seq<Step>, s': State)
    decreases |steps|
  {
    if steps == [] then s' == s else Enabled(s, steps[0]) && Follows(Apply(s, steps[0]), steps[1..], s')
  }

  /** What an undisturbed `mark_expired` at time `now` makes of the request table. */
  function Marked(requests: map<string, Request>, now: int): map<string, Request> {
    map id | id in requests ::
      if id in Selection(requests, now) then requests[id].(status := Expired) else requests[id]
  }

  predicate Initial(s: State) {
    && s.requests == map[] && s.holds == map[] && s.passes == map[] && s.jobs == map[]
    && (forall k <- s.policies :: s.policies[k].maxTtl.Some? ==> s.policies[k].maxTtl.value <= MAX_TTL_MINUTES)
    && (forall site <- s.bindings :: !s.bindings[site].jit && s.bindings[site].uid < s.nextUid)
  }
}
