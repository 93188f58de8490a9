/** The browser's API client: one token refresh at a time, with the other requests waiting for it.

    The event loop runs one handler at a time: each step is one handler, from start to end. */
module RefreshQueue {
  import opened Common
  import opened DiffWrite

  type Id = nat

  datatype Status = InFlight | Parked | Leading | Resolved | Rejected

  /** `sent` counts how often it went out, `token` is the one it was re-sent with. `waitsOn` is the
      refresh it was parked for, `settledBy` lists the refreshes that called its callback. */
  datatype Request = Request(status: Status, retried: bool, sent: nat, token: Option<string>,
                             waitsOn: Option<nat>, settledBy: seq<nat>)

  datatype State = State(
    isRefreshing: bool, pendingQueue: seq<Id>,
    requests: map<Id, Request>,
    refreshes: map<nat, Id>,           // refresh calls that wait for an answer, each with the request that began it
    started: nat)                      // how many refreshes have been begun

  datatype Answer = Ok | Unauthorized | OtherError

  datatype Step =
    | Send(id: Id)
    | Receive(id: Id, answer: Answer)
    | RefreshDone(refresh: nat, token: string)
    | RefreshFails(refresh: nat)

  predicate Enabled(s: State, step: Step) {
    match step
    case Send(id) => id !in s.requests
    case Receive(id, _) => id in s.requests && s.requests[id].status.InFlight?
    case RefreshDone(refresh, _) => refresh in s.refreshes && s.refreshes[refresh] in s.requests
    case RefreshFails(refresh) => refresh in s.refreshes && s.refreshes[refresh] in s.requests
  }

  function Resent(q: Request, token: string): Request {
    q.(status := InFlight, sent := q.sent + 1, token := Some(token))
  }

  /** The callback of a parked request; an empty token counts as none. */
  function Called(q: Request, refresh: nat, token: Option<string>): Request {
    var settled := q.(settledBy := q.settledBy + [refresh]);
    if token.GetOr("") == "" then settled.(status := Rejected) else Resent(settled, token.value)
  }

  /** `drainQueue` */
  function Drained(requests: map<Id, Request>, queue: seq<Id>, refresh: nat, token: Option<string>): map<Id, Request>
    decreases |queue|
  {
    if queue == [] then requests
    else
      var last := queue[|queue| - 1];
      var before := Drained(requests, queue[..|queue| - 1], refresh, token);
      if last in before then before[last := Called(before[last], refresh, token)] else before
  }

  /** The response handler for a request that failed. */
  function Failed(s: State, id: Id, answer: Answer): State
    requires id in s.requests
  {
    var q := s.requests[id];
    if answer.Unauthorized? && !q.retried then
      if s.isRefreshing then
        s.(requests := s.requests[id := q.(retried := true, status := Parked, waitsOn := Some(s.started))],
           pendingQueue := s.pendingQueue + [id])
      else
        s.(requests := s.requests[id := q.(retried := true, status := Leading)],
           isRefreshing := true, refreshes := s.refreshes[s.started + 1 := id], started := s.started + 1)
    else s.(requests := s.requests[id := q.(status := Rejected)])
  }

  /** What follows the answer to a refresh: the queue is drained, the leader goes on, the flag falls. */
  function Refreshed(s: State, refresh: nat, token: Option<string>): State
    requires refresh in s.refreshes && s.refreshes[refresh] in s.requests
  {
    var leader := s.refreshes[refresh];
    var drained := Drained(s.requests, s.pendingQueue, refresh, token);
    var q := if leader in drained then drained[leader] else s.requests[leader];
    State(false, [], drained[leader := if token.Some? then Resent(q, token.value) else q.(status := Rejected)],
          s.refreshes - {refresh}, s.started)
  }

  function Apply(s: State, step: Step): State
    requires Enabled(s, step)
  {
    match step
    case Send(id) => s.(requests := s.requests[id := Request(InFlight, false, 1, None, None, [])])
    case Receive(id, answer) =>
      if answer.Ok? then s.(requests := s.requests[id := s.requests[id].(status := Resolved)])
          else Failed(s, id, answer)
    case RefreshDone(refresh, token) => Refreshed(s, refresh, Some(token))
    case RefreshFails(refresh) => Refreshed(s, refresh, None)
  }

  predicate Initial(s: State) {
    s == State(false, [], map[], map[], 0)
  }

  datatype Run = Run(states: seq<State>, steps: seq<Step>)

  predicate StepAt(r: Run, n: nat) {
    && n < |r.steps| && n + 1 < |r.states|
    && Enabled(r.states[n], r.steps[n]) && r.states[n + 1] == Apply(r.states[n], r.steps[n])
  }

  predicate IsRun(r: Run) {
    && |r.states| == |r.steps| + 1 && Initial(r.states[0])
    && forall n: nat | n < |r.steps| :: StepAt(r, n)
  }

  // ── The invariant ─────────────────────────────────────────────────────────────────────

  /** What a request's fields say about its past: it is re-sent once at most, and if it was parked
      then the refresh it waited on, and no other, has called it, or none has yet. */
  predicate RequestOk(q: Request) {
    && q.sent <= 2
    && (!q.retried ==>
          && q.sent == 1 && q.token.None? && q.waitsOn.None?
          && (q.status.InFlight? || q.status.Resolved? || q.status.Rejected?))
    && (q.sent == 2 <==> q.token.Some?)
    && (q.status.Parked? ==> q.sent == 1 && q.waitsOn.Some? && q.settledBy == [])
    && (q.status.Leading? ==> q.sent == 1 && q.waitsOn.None?)
    && (q.waitsOn.None? ==> q.settledBy == [])
    && (q.waitsOn.Some? && !q.status.Parked? ==> q.settledBy == [q.waitsOn.value])
  }

  /** One refresh at most is outstanding, begun by the one leading request; those parked are the
      queue, each in it once, and wait on that refresh. */
  ghost predicate Inv(s: State) {
    && (forall id <- s.requests :: RequestOk(s.requests[id]))
    && (if s.isRefreshing then s.refreshes.Keys == {s.started} else s.refreshes == map[] && s.pendingQueue == [])
    && (forall g <- s.refreshes :: s.refreshes[g] in s.requests && s.requests[s.refreshes[g]].status.Leading?)
    && (forall id <- s.requests | s.requests[id].status.Leading? :: exists g <- s.refreshes :: s.refreshes[g] == id)
    && (forall i | 0 <= i < |s.pendingQueue| ::
          s.pendingQueue[i] in s.requests && s.requests[s.pendingQueue[i]].status.Parked?
          && s.requests[s.pendingQueue[i]].waitsOn == Some(s.started))
    && (forall i, j | 0 <= i < j < |s.pendingQueue| :: s.pendingQueue[i] != s.pendingQueue[j])
    && (forall id <- s.requests | s.requests[id].status.Parked? :: id in s.pendingQueue)
  }

  lemma {:induction false} DrainedAt(requests: map<Id, Request>, queue: seq<Id>, refresh: nat, token: Option<string>,
                                     id: Id)
    requires forall i, j | 0 <= i < j < |queue| :: queue[i] != queue[j]
    ensures Get(Drained(requests, queue, refresh, token), id)
            == if id in requests && id in queue then Some(Called(requests[id], refresh, token)) else Get(requests, id)
    decreases |queue|
  {
    if queue != [] {
      var n := |queue| - 1;
      DrainedAt(requests, queue[..n], refresh, token, id);
      DrainedAt(requests, queue[..n], refresh, token, queue[n]);
      assert queue == queue[..n] + [queue[n]];
      assert queue[n] !in queue[..n];
    }
  }

  /** Once the refresh is answered every request that was parked has been called once. */
  lemma RefreshedKeepsInv(s: State, refresh: nat, token: Option<string>, s': State)
    requires Inv(s) && refresh in s.refreshes && s.refreshes[refresh] in s.requests
    requires s' == Refreshed(s, refresh, token)
    ensures Inv(s')
  {
    assert s'.refreshes == map[] && s'.pendingQueue == [] && !s'.isRefreshing;
    forall id <- s'.requests
      ensures RequestOk(s'.requests[id]) && !s'.requests[id].status.Parked? && !s'.requests[id].status.Leading?
    {
      RefreshedAt(s, refresh, token, id);
      assert Get(s'.requests, id) == RequestAfter(s, refresh, token, id);
      AfterIsOk(s, refresh, token, id);
    }
    hide Refreshed;
  }

  lemma AfterIsOk(s: State, refresh: nat, token: Option<string>, id: Id)
    requires Inv(s) && refresh in s.refreshes && s.refreshes[refresh] in s.requests && id in s.requests
    ensures var q := RequestAfter(s, refresh, token, id);
            q.Some? && RequestOk(q.value) && !q.value.status.Parked? && !q.value.status.Leading?
  {
  }

  /** A request after the answer to the refresh. */
  function RequestAfter(s: State, refresh: nat, token: Option<string>, id: Id): Option<Request>
    requires refresh in s.refreshes
  {
    if id !in s.requests then None
    else if id == s.refreshes[refresh] then
      Some(if token.Some? then Resent(s.requests[id], token.value) else s.requests[id].(status := Rejected))
    else if s.requests[id].status.Parked? then Some(Called(s.requests[id], refresh, token))
    else Some(s.requests[id])
  }

  lemma RefreshedAt(s: State, refresh: nat, token: Option<string>, id: Id)
    requires Inv(s) && refresh in s.refreshes && s.refreshes[refresh] in s.requests
    ensures Get(Refreshed(s, refresh, token).requests, id) == RequestAfter(s, refresh, token, id)
  {
    hide Called, Resent, RequestOk, Drained;
    DrainedAt(s.requests, s.pendingQueue, refresh, token, id);
    DrainedAt(s.requests, s.pendingQueue, refresh, token, s.refreshes[refresh]);
  }

  lemma StepKeepsInv(s: State, step: Step, s': State)
    requires Inv(s) && Enabled(s, step) && s' == Apply(s, step)
    ensures Inv(s')
  {
    match step
    case Send(id) => SendKeepsInv(s, id, s');
    case Receive(id, answer) => ReceiveKeepsInv(s, id, answer, s');
    case RefreshDone(refresh, token) => RefreshedKeepsInv(s, refresh, Some(token), s');
    case RefreshFails(refresh) => RefreshedKeepsInv(s, refresh, None, s');
  }

  lemma SendKeepsInv(s: State, id: Id, s': State)
    requires Inv(s) && Enabled(s, Send(id)) && s' == Apply(s, Send(id))
    ensures Inv(s')
  {
  }

  lemma ReceiveKeepsInv(s: State, id: Id, answer: Answer, s': State)
    requires Inv(s) && Enabled(s, Receive(id, answer)) && s' == Apply(s, Receive(id, answer))
    ensures Inv(s')
  {
    assert RequestOk(s.requests[id]);
    assert id !in s.pendingQueue;
    if s'.isRefreshing && !s.isRefreshing {
      BeginKeepsInv(s, id, s');
    } else if s'.pendingQueue != s.pendingQueue {
      ParkKeepsInv(s, id, s');
    } else {
      FinishKeepsInv(s, id, s'.requests[id], s');
    }
  }

  lemma BeginKeepsInv(s: State, id: Id, s': State)
    requires Inv(s) && id in s.requests && s.requests[id].status.InFlight? && !s.requests[id].retried && !s.isRefreshing
    requires s' == Failed(s, id, Unauthorized)
    ensures Inv(s')
  {
    assert s'.refreshes[s'.started] == id;
  }

  lemma ParkKeepsInv(s: State, id: Id, s': State)
    requires Inv(s) && id in s.requests && s.requests[id].status.InFlight? && !s.requests[id].retried && s.isRefreshing
    requires s' == Failed(s, id, Unauthorized) && id !in s.pendingQueue
    ensures Inv(s')
  {
  }

  lemma FinishKeepsInv(s: State, id: Id, q: Request, s': State)
    requires Inv(s) && id in s.requests && s.requests[id].status.InFlight? && RequestOk(q)
    requires q.status.Resolved? || q.status.Rejected?
    requires s' == s.(requests := s.requests[id := q])
    ensures Inv(s')
  {
  }

  lemma {:induction false} InvEver(r: Run, n: nat)
    requires IsRun(r) && n < |r.states|
    ensures Inv(r.states[n])
  {
    if n > 0 {
      InvEver(r, n - 1);
      assert StepAt(r, n - 1);
      StepKeepsInv(r.states[n - 1], r.steps[n - 1], r.states[n]);
    }
  }

  // ── Main results ──────────────────────────────────────────────────────────────────────

  /** However events interleave: one refresh at most is outstanding, nothing is queued while none
      is, no request goes out more than twice, and nobody waits for an answer that will not come. */
  lemma SingleFlight(r: Run, n: nat)
    requires IsRun(r) && n < |r.states|
    ensures var s := r.states[n];
            && |s.refreshes| <= 1 && (s.isRefreshing <==> s.refreshes != map[])
            && (s.pendingQueue != [] ==> s.isRefreshing)
            && (forall id <- s.requests :: s.requests[id].sent <= 2)
            && (forall id <- s.requests ::
                  s.requests[id].status.Parked? || s.requests[id].status.Leading? ==> s.isRefreshing)
  {
    InvEver(r, n);
    assert r.states[n].refreshes.Keys == {r.states[n].started} ==> |r.states[n].refreshes.Keys| == 1;
  }

  /** The request was parked for this refresh: it still is until the refresh is answered, and has
      been called by it, once, from then on. */
  predicate CalledByIts(s: State, id: Id, refresh: nat) {
    && id in s.requests && s.requests[id].waitsOn == Some(refresh) && refresh <= s.started
    && if refresh in s.refreshes then s.requests[id].status.Parked? && s.requests[id].settledBy == []
       else !s.requests[id].status.Parked? && s.requests[id].settledBy == [refresh]
  }

  lemma AnswerKeepsCalled(s: State, g: nat, token: Option<string>, s': State, id: Id, refresh: nat)
    requires Inv(s) && g in s.refreshes && s.refreshes[g] in s.requests && s' == Refreshed(s, g, token)
             && CalledByIts(s, id, refresh)
    ensures CalledByIts(s', id, refresh)
  {
    RefreshedAt(s, g, token, id);
    assert RequestOk(s.requests[s.refreshes[g]]) && RequestOk(s.requests[id]);
    assert g == s.started && s'.refreshes == map[] && s'.started == s.started;
    assert id != s.refreshes[g];
    hide Inv, Refreshed;
  }

  lemma EventKeepsCalled(s: State, step: Step, s': State, id: Id, refresh: nat)
    requires Inv(s) && Enabled(s, step) && (step.Send? || step.Receive?) && s' == Apply(s, step)
             && CalledByIts(s, id, refresh)
    ensures CalledByIts(s', id, refresh)
  {
    assert RequestOk(s.requests[id]);
    hide Inv;
  }

  lemma StepKeepsCalled(s: State, step: Step, s': State, id: Id, refresh: nat)
    requires Inv(s) && Enabled(s, step) && s' == Apply(s, step) && CalledByIts(s, id, refresh)
    ensures CalledByIts(s', id, refresh)
  {
    hide Inv, CalledByIts, Refreshed;
    match step
    case RefreshDone(g, token) => AnswerKeepsCalled(s, g, Some(token), s', id, refresh);
    case RefreshFails(g) => AnswerKeepsCalled(s, g, None, s', id, refresh);
    case _ => EventKeepsCalled(s, step, s', id, refresh);
  }

  /** A parked request stays parked exactly until the refresh it waits on is answered, and that
      refresh calls it once: nothing calls it before, nothing ever calls it again. */
  lemma {:induction false} SettledOnceByItsRefresh(r: Run, m: nat, n: nat, id: Id)
    requires IsRun(r) && m <= n < |r.states| && id in r.states[m].requests && r.states[m].requests[id].status.Parked?
    ensures r.states[m].requests[id].waitsOn.Some?
    ensures CalledByIts(r.states[n], id, r.states[m].requests[id].waitsOn.value)
  {
    InvEver(r, n);
    InvEver(r, m);
    if m < n {
      SettledOnceByItsRefresh(r, m, n - 1, id);
      InvEver(r, n - 1);
      assert StepAt(r, n - 1);
      hide Inv, Apply, Enabled, CalledByIts;
      StepKeepsCalled(r.states[n - 1], r.steps[n - 1], r.states[n], id, r.states[m].requests[id].waitsOn.value);
    }
  }

  /** When a refresh is answered every parked request is re-sent with the new token, or rejected if
      there is none; the request that began it likewise; all others are left alone. */
  lemma AnswerSettlesAll(r: Run, n: nat, refresh: nat, token: Option<string>)
    requires IsRun(r) && n < |r.steps| && StepAt(r, n)
    requires r.steps[n] == if token.Some? then RefreshDone(refresh, token.value) else RefreshFails(refresh)
    ensures var s, s' := r.states[n], r.states[n + 1];
            && s'.pendingQueue == [] && !s'.isRefreshing && s'.refreshes == map[] && s'.requests.Keys == s.requests.Keys
            && forall id <- s.requests :: Answered(s.requests[id], id == s.refreshes[refresh], refresh, token,
                                                   s'.requests[id])
  {
    InvEver(r, n);
    RefreshedByFields(r.states[n], refresh, token);
  }

  /** The handling of the answer to a refresh, field by field: `q` before and `q'` after it, where `q`
      may be the request that began the refresh. */
  predicate Answered(q: Request, began: bool, refresh: nat, token: Option<string>, q': Request) {
    && q'.retried == q.retried && q'.waitsOn == q.waitsOn
    && q'.settledBy == (if q.status.Parked? then [refresh] else q.settledBy)
    && (!began && !q.status.Parked? ==> q' == q)
    && (began || q.status.Parked? ==>
          if token.Some? && (began || token.value != "")
          then q'.status == InFlight && q'.sent == q.sent + 1 && q'.token == token
          else q'.status == Rejected && q'.sent == q.sent && q'.token == q.token)
  }

  /** What a callback makes of a parked request, field by field. */
  predicate CalledBack(q: Request, refresh: nat, token: Option<string>, q': Request) {
    q' == if !q.status.Parked? then q
          else if token.GetOr("") == "" then q.(status := Rejected, settledBy := [refresh])
          else q.(status := InFlight, sent := q.sent + 1, token := token, settledBy := [refresh])
  }

  lemma DrainedOne(s: State, refresh: nat, token: Option<string>, id: Id)
    requires Inv(s)
    ensures var drained := Drained(s.requests, s.pendingQueue, refresh, token);
            && (id in drained <==> id in s.requests)
            && (id in drained ==> CalledBack(s.requests[id], refresh, token, drained[id]))
  {
    hide Drained;
    DrainedAt(s.requests, s.pendingQueue, refresh, token, id);
    assert id in s.requests ==> RequestOk(s.requests[id]) && (s.requests[id].status.Parked? <==> id in s.pendingQueue);
    hide Inv;
  }

  lemma RefreshedByFields(s: State, refresh: nat, token: Option<string>)
    requires Inv(s) && refresh in s.refreshes && s.refreshes[refresh] in s.requests
    ensures var s' := Refreshed(s, refresh, token);
            && s'.requests.Keys == s.requests.Keys && s'.refreshes == map[]
            && forall id <- s.requests :: Answered(s.requests[id], id == s.refreshes[refresh], refresh, token,
                                                   s'.requests[id])
  {
    var s' := Refreshed(s, refresh, token);
    RefreshedKeepsInv(s, refresh, token, s');
    forall id ensures id in s'.requests <==> id in s.requests
      ensures id in s.requests ==> Answered(s.requests[id], id == s.refreshes[refresh], refresh, token, s'.requests[id])
    {
      RefreshedAt(s, refresh, token, id);
      assert id in s.requests ==> RequestOk(s.requests[id]);
    }
  }

  // ── The module's variables ────────────────────────────────────────────────────────────

  class Client {
    var isRefreshing: bool
    var pendingQueue: seq<Id>
    var requests: map<Id, Request>
    var refreshes: map<nat, Id>
    var started: nat

    constructor ()
      ensures Initial(Now())
    {
      isRefreshing, pendingQueue, requests, refreshes, started := false, [], map[], map[], 0;
    }

    function Now(): State
      reads this
    {
      State(isRefreshing, pendingQueue, requests, refreshes, started)
    }

    /** Calls every callback in turn, then empties the queue. */
    method DrainQueue(refresh: nat, token: Option<string>)
      requires Inv(Now())
      modifies this`requests, this`pendingQueue
      ensures pendingQueue == [] && requests == Drained(old(requests), old(pendingQueue), refresh, token)
    {
      for i := 0 to |pendingQueue|
        invariant pendingQueue == old(pendingQueue)
        invariant requests == Drained(old(requests), pendingQueue[..i], refresh, token)
        invariant requests.Keys == old(requests).Keys
      {
        var id := pendingQueue[i];
        assert pendingQueue[..i + 1][..i] == pendingQueue[..i];
        requests := requests[id := Called(requests[id], refresh, token)];
      }
      assert pendingQueue[..|pendingQueue|] == pendingQueue;
      pendingQueue := [];
    }

    method Send(id: Id)
      requires Inv(Now()) && id !in requests
      modifies this`requests
      ensures Inv(Now()) && Now() == Apply(old(Now()), Step.Send(id))
      ensures requests == old(requests)[id := Request(InFlight, false, 1, None, None, [])]
    {
      ghost var before := Now();
      requests := requests[id := Request(InFlight, false, 1, None, None, [])];
      StepKeepsInv(before, Step.Send(id), Now());
    }

    /** A good answer goes to the caller. */
    method OnResponse(id: Id)
      requires Inv(Now()) && id in requests && requests[id].status.InFlight?
      modifies this`requests
      ensures Inv(Now()) && Now() == Apply(old(Now()), Receive(id, Answer.Ok))
      ensures requests == old(requests)[id := old(requests)[id].(status := Resolved)]
    {
      ghost var before := Now();
      requests := requests[id := requests[id].(status := Resolved)];
      StepKeepsInv(before, Receive(id, Answer.Ok), Now());
    }

    method OnError(id: Id, answer: Answer)
      requires Inv(Now()) && id in requests && requests[id].status.InFlight? && !answer.Ok?
      modifies this
      ensures Inv(Now()) && Now() == Apply(old(Now()), Receive(id, answer))
      ensures var q := old(requests)[id];
              if !answer.Unauthorized? || q.retried
              then requests == old(requests)[id := q.(status := Rejected)] && pendingQueue == old(pendingQueue)
                   && isRefreshing == old(isRefreshing) && refreshes == old(refreshes) && started == old(started)
              else if old(isRefreshing)
              then requests == old(requests)[id := q.(retried := true, status := Parked, waitsOn := Some(started))]
                   && pendingQueue == old(pendingQueue) + [id] && isRefreshing && refreshes == old(refreshes)
                   && started == old(started)
              else requests == old(requests)[id := q.(retried := true, status := Leading)]
                   && pendingQueue == old(pendingQueue) && isRefreshing && started == old(started) + 1
                   && refreshes == old(refreshes)[started := id]
    {
      ghost var before := Now();
      var q := requests[id];
      if answer.Unauthorized? && !q.retried {
        q := q.(retried := true);
        if isRefreshing {
          pendingQueue := pendingQueue + [id];
          requests := requests[id := q.(status := Parked, waitsOn := Some(started))];
        } else {
          isRefreshing := true;
          started := started + 1;
          refreshes := refreshes[started := id];
          requests := requests[id := q.(status := Leading)];
        }
      } else {
        requests := requests[id := q.(status := Rejected)];
      }
      StepKeepsInv(before, Receive(id, answer), Now());
    }

    /** The rest of the handler that began the refresh, once it has its answer. */
    method OnRefreshAnswer(refresh: nat, token: Option<string>)
      requires Inv(Now()) && refresh in refreshes && refreshes[refresh] in requests
      modifies this
      ensures Inv(Now())
      ensures Now() == Apply(old(Now()), if token.Some? then RefreshDone(refresh, token.value)
                                         else RefreshFails(refresh))
      ensures !isRefreshing && pendingQueue == [] && refreshes == map[] && started == old(started)
      ensures requests.Keys == old(requests).Keys
      ensures forall id <- requests ::
                Answered(old(requests)[id], id == old(refreshes)[refresh], refresh, token, requests[id])
    {
      hide Inv, Answered, CalledBack, Drained, Called;
      ghost var before := Now();
      var leader := refreshes[refresh];
      RefreshedByFields(before, refresh, token);
      DrainedOne(before, refresh, token, leader);
      RefreshedKeepsInv(before, refresh, token, Refreshed(before, refresh, token));
      DrainQueue(refresh, token);
      refreshes := refreshes - {refresh};
      requests := requests[leader := if token.Some? then Resent(requests[leader], token.value)
                                     else requests[leader].(status := Rejected)];
      isRefreshing := false;
    }
  }
}
