/** Access and refresh tokens: what a token that is accepted now says about the account store.

    Times are in microseconds. A token is an unforgeable record: only what was issued is presented. */
module Sessions {
  import opened Common
  import opened DiffWrite

  const SECOND := 1000000
  const ACCESS_LIFE := 15 * 60 * SECOND
  const REFRESH_LIFE := 7 * 86400 * SECOND

  datatype Kind = Access | Refresh
  type Roles = map<string, string>

  /** `exp` is in whole seconds (section 4.1.4 of RFC 7519). */
  datatype Token = Token(kind: Kind, sub: string, roles: Roles, exp: int)

  datatype AuthError = NoToken | Expired | WrongType | UserGone

  function Life(kind: Kind): int {
    match kind case Access => ACCESS_LIFE case Refresh => REFRESH_LIFE
  }

  function Issue(kind: Kind, sub: string, roles: Roles, now: int): Token {
    Token(kind, sub, roles, (now + Life(kind)) / SECOND)
  }

  /** `decode_token`, for a token that was issued; the expiry is looked at before the type. */
  function Decode(token: Token, expected: Kind, now: int): Result<Token, AuthError> {
    if token.exp * SECOND <= now then Err(Expired)
    else if token.kind != expected then Err(WrongType)
    else Ok(token)
  }

  /** A token is accepted for its own kind only, for at most its life (15 minutes, or 7 days for a
      refresh token) and at least a second less; an expired one is refused as such whatever its kind. */
  lemma AcceptedFor(kind: Kind, expected: Kind, sub: string, roles: Roles, issued: int, now: int)
    ensures var r, life := Decode(Issue(kind, sub, roles, issued), expected, now),
                           if kind.Access? then 900_000_000 else 604_800_000_000;
            && (r.Ok? ==> expected == kind && r.value.sub == sub && r.value.roles == roles && now < issued + life)
            && (expected == kind && now <= issued + life - 1_000_000 ==> r.Ok?)
            && (now >= issued + life ==> r == Err(Expired))
            && (expected != kind && now <= issued + life - 1_000_000 ==> r == Err(WrongType))
  {
  }

  // ── Requests under way ────────────────────────────────────────────────────────────────

  /** A request that will issue tokens. `since` is when its credentials were found good, `login` when
      the login it goes back to succeeded. */
  datatype Request =
    | Decoded(sub: string, since: int, login: int)
    | Found(sub: string, since: int, login: int, found: int, isLogin: bool)
    | Read(sub: string, since: int, login: int, found: int, roles: Roles, at: int, isLogin: bool)

  /** What a finished request has issued, and why. */
  datatype Grant = Grant(access: Token, refresh: Option<Token>, since: int, login: int, found: int, read: int,
                         issued: int)

  datatype State = State(now: int, store: map<string, Roles>, requests: map<nat, Request>, grants: map<nat, Grant>)

  datatype Step =
    | Tick(to: int)
    | Change(store: map<string, Roles>)       // anything an account operation does to accounts and roles
    | Login(id: nat, sub: string)             // the credentials are good
    | Present(id: nat, from: nat)             // a refresh token is decoded
    | Find(id: nat)                           // `refresh` finds the account
    | ReadRoles(id: nat)                      // a separate query
    | Finish(id: nat)                         // the tokens are issued
    | Abort(id: nat)

  /** What the query for an account's roles returns; without an account there are no roles. */
  function Held(store: map<string, Roles>, sub: string): Roles {
    Get(store, sub).GetOr(map[])
  }

  predicate Fresh(s: State, id: nat) {
    id !in s.requests && id !in s.grants
  }

  predicate Enabled(s: State, step: Step) {
    match step
    case Tick(to) => s.now <= to
    case Change(_) => true
    case Login(id, sub) => Fresh(s, id) && sub in s.store
    case Present(id, from) =>
      Fresh(s, id) && from in s.grants && s.grants[from].refresh.Some?
          && Decode(s.grants[from].refresh.value, Refresh, s.now).Ok?
    case Find(id) => id in s.requests && s.requests[id].Decoded? && s.requests[id].sub in s.store
    case ReadRoles(id) => id in s.requests && s.requests[id].Found?
    case Finish(id) => id in s.requests && s.requests[id].Read?
    case Abort(id) => id in s.requests        // a crash, or the account is gone
  }

  function Issued(q: Request, now: int): Grant
    requires q.Read?
  {
    Grant(Issue(Access, q.sub, q.roles, now), if q.isLogin then Some(Issue(Refresh, q.sub, q.roles, now)) else None,
          q.since, q.login, q.found, q.at, now)
  }

  function Apply(s: State, step: Step): State
    requires Enabled(s, step)
  {
    match step
    case Tick(to) => s.(now := to)
    case Change(store) => s.(store := store)
    case Login(id, sub) => s.(requests := s.requests[id := Found(sub, s.now, s.now, s.now, true)])
    case Present(id, from) =>
      s.(requests := s.requests[id := Decoded(s.grants[from].refresh.value.sub, s.now, s.grants[from].login)])
    case Find(id) =>
      var q := s.requests[id];
      s.(requests := s.requests[id := Found(q.sub, q.since, q.login, s.now, false)])
    case ReadRoles(id) =>
      var q := s.requests[id];
      s.(requests := s.requests[id := Read(q.sub, q.since, q.login, q.found, Held(s.store, q.sub), s.now, q.isLogin)])
    case Finish(id) => s.(requests := s.requests - {id}, grants := s.grants[id := Issued(s.requests[id], s.now)])
    case Abort(id) => s.(requests := s.requests - {id})
  }

  datatype Run = Run(states: seq<State>, steps: seq<Step>)

  predicate StepAt(r: Run, n: nat) {
    && n < |r.steps| && n + 1 < |r.states|
    && Enabled(r.states[n], r.steps[n]) && r.states[n + 1] == Apply(r.states[n], r.steps[n])
  }

  predicate IsRun(r: Run) {
    && |r.states| == |r.steps| + 1 && r.states[0].requests == map[] && r.states[0].grants == map[]
    && forall n: nat | n < |r.steps| :: StepAt(r, n)
  }

  /** No request takes longer than `d` from good credentials to issued tokens. */
  ghost predicate Prompt(r: Run, d: int) {
    forall n: nat | n < |r.steps| && StepAt(r, n) && r.steps[n].Finish? ::
      r.states[n].now - r.states[n].requests[r.steps[n].id].since <= d
  }

  // ── What every request and grant goes back to ─────────────────────────────────────────

  ghost predicate GrantTimely(g: Grant, now: int, d: int) {
    && g.since <= g.found <= g.read <= g.issued <= now && g.issued - g.since <= d
    && g.access == Issue(Access, g.access.sub, g.access.roles, g.issued)
    && (g.refresh.Some? ==> g.since == g.login && g.refresh.value.sub == g.access.sub
                            && g.refresh.value == Issue(Refresh, g.access.sub, g.refresh.value.roles, g.issued))
    && g.since < g.login + d + REFRESH_LIFE
  }

  ghost predicate Timely(s: State, d: int) {
    && (forall id <- s.requests ::
          && s.requests[id].since <= s.now && s.requests[id].since < s.requests[id].login + d + REFRESH_LIFE
          && (!s.requests[id].Decoded? ==> s.requests[id].since <= s.requests[id].found <= s.now
                                           && (s.requests[id].isLogin ==> s.requests[id].since == s.requests[id].login))
          && (s.requests[id].Read? ==> s.requests[id].found <= s.requests[id].at <= s.now))
    && forall id <- s.grants :: GrantTimely(s.grants[id], s.now, d)
  }

  lemma StepKeepsTimely(s: State, step: Step, s': State, d: int)
    requires Timely(s, d) && Enabled(s, step) && s' == Apply(s, step) && d >= 0
    requires step.Finish? ==> s.now - s.requests[step.id].since <= d
    ensures Timely(s', d)
  {
  }

  lemma {:induction false} TimelyOverRun(r: Run, d: int, n: nat)
    requires IsRun(r) && Prompt(r, d) && d >= 0 && n < |r.states|
    ensures Timely(r.states[n], d)
  {
    if n > 0 {
      TimelyOverRun(r, d, n - 1);
      assert StepAt(r, n - 1);
      StepKeepsTimely(r.states[n - 1], r.steps[n - 1], r.states[n], d);
    }
  }

  predicate HeldAt(r: Run, j: nat, sub: string, roles: Roles, at: int) {
    j < |r.states| && r.states[j].now == at && Held(r.states[j].store, sub) == roles
  }

  predicate LoginAt(r: Run, i: nat, sub: string, at: int) {
    i < |r.steps| && i < |r.states| && r.states[i].now == at && r.steps[i].Login? && r.steps[i].sub == sub
  }

  /** The roles of every request and grant were held in the store at some moment. */
  lemma {:induction false} RolesOrigin(r: Run, n: nat, id: nat) returns (j: nat)
    requires IsRun(r) && n < |r.states|
    ensures j <= n
    ensures var s := r.states[n];
            && !(id in s.requests && id in s.grants)
            && (id in s.requests && s.requests[id].Read?
                ==> HeldAt(r, j, s.requests[id].sub, s.requests[id].roles, s.requests[id].at))
            && (id in s.grants ==> HeldAt(r, j, s.grants[id].access.sub, s.grants[id].access.roles, s.grants[id].read))
  {
    j := 0;
    if n > 0 {
      assert StepAt(r, n - 1);
      j := RolesOrigin(r, n - 1, id);
      match r.steps[n - 1]
      case ReadRoles(i) => if i == id { j := n - 1; }
      case _ =>
    }
  }

  predicate ThereAt(r: Run, k: nat, sub: string, at: int) {
    k < |r.states| && r.states[k].now == at && sub in r.states[k].store
  }

  /** The account of every grant was there at some moment of its request. */
  lemma {:induction false} AccountOrigin(r: Run, n: nat, id: nat) returns (k: nat)
    requires IsRun(r) && n < |r.states|
    ensures k <= n
    ensures var s := r.states[n];
            && !(id in s.requests && id in s.grants)
            && (id in s.requests && !s.requests[id].Decoded?
                ==> ThereAt(r, k, s.requests[id].sub, s.requests[id].found))
            && (id in s.grants ==> ThereAt(r, k, s.grants[id].access.sub, s.grants[id].found))
  {
    k := 0;
    if n > 0 {
      assert StepAt(r, n - 1);
      k := AccountOrigin(r, n - 1, id);
      match r.steps[n - 1]
      case Login(i, _) => if i == id { k := n - 1; }
      case Find(i) => if i == id { k := n - 1; }
      case _ =>
    }
  }

  /** Every request and grant goes back to a login of the same account. */
  lemma {:induction false} LoginOrigin(r: Run, n: nat, id: nat) returns (i: nat)
    requires IsRun(r) && n < |r.states|
    ensures i <= n
    ensures var s := r.states[n];
            && (id in s.requests ==> LoginAt(r, i, s.requests[id].sub, s.requests[id].login))
            && (id in s.grants ==> LoginAt(r, i, s.grants[id].access.sub, s.grants[id].login))
            && (id in s.grants && s.grants[id].refresh.Some?
                ==> s.grants[id].refresh.value.sub == s.grants[id].access.sub)
    decreases n
  {
    i := 0;
    if n > 0 {
      assert StepAt(r, n - 1);
      i := LoginOrigin(r, n - 1, id);
      match r.steps[n - 1]
      case Login(k, _) => if k == id { i := n - 1; }
      case Present(k, from) => if k == id { i := LoginOrigin(r, n - 1, from); }
      case _ =>
    }
  }

  // ── Main results ──────────────────────────────────────────────────────────────────────

  /** An access token accepted now carries roles the store held for its account less than 15 minutes
      ago, plus the time one request takes, and goes back to a login less than 7 days and 15 minutes
      ago, plus twice that time. */
  lemma AcceptedTokenLineage(r: Run, n: nat, id: nat, d: int) returns (j: nat, i: nat)
    requires IsRun(r) && Prompt(r, d) && d >= 0 && n < |r.states|
    requires id in r.states[n].grants && Decode(r.states[n].grants[id].access, Access, r.states[n].now).Ok?
    ensures var token, now := r.states[n].grants[id].access, r.states[n].now;
            && j <= n && i <= n && i < |r.steps|
            && token.roles == (if token.sub in r.states[j].store then r.states[j].store[token.sub] else map[])
            && now - r.states[j].now < 900_000_000 + d
            && r.steps[i].Login? && r.steps[i].sub == token.sub
            && now - r.states[i].now < 604_800_000_000 + 900_000_000 + 2 * d
  {
    TimelyOverRun(r, d, n);
    j := RolesOrigin(r, n, id);
    i := LoginOrigin(r, n, id);
    var g := r.states[n].grants[id];
    AcceptedFor(Access, Access, g.access.sub, g.access.roles, g.issued, r.states[n].now);
  }

  lemma {:induction false} ClockGoesOn(r: Run, i: nat, j: nat)
    requires IsRun(r) && i <= j < |r.states|
    ensures r.states[i].now <= r.states[j].now
  {
    if i < j {
      ClockGoesOn(r, i, j - 1);
      assert StepAt(r, j - 1);
    }
  }

  /** A change of roles takes effect within 15 minutes and the time of one request: no token that
      carries other roles than those held since is accepted after that. */
  lemma LostRolesEnd(r: Run, gone: nat, n: nat, id: nat, d: int)
    requires IsRun(r) && Prompt(r, d) && d >= 0 && gone <= n < |r.states| && id in r.states[n].grants
    requires var token := r.states[n].grants[id].access;
             forall k | gone <= k <= n ::
               token.roles != if token.sub in r.states[k].store then r.states[k].store[token.sub] else map[]
    requires r.states[n].now >= r.states[gone].now + 900_000_000 + d
    ensures Decode(r.states[n].grants[id].access, Access, r.states[n].now).Err?
  {
    if Decode(r.states[n].grants[id].access, Access, r.states[n].now).Ok? {
      var j, _ := AcceptedTokenLineage(r, n, id, d);
      if j < gone {
        ClockGoesOn(r, j, gone);
      }
      assert false;
    }
  }

  /** So does deleting an account: no token of its is accepted any more, unless it is made again. */
  lemma DeletedAccountEnds(r: Run, gone: nat, n: nat, id: nat, d: int)
    requires IsRun(r) && Prompt(r, d) && d >= 0 && gone <= n < |r.states| && id in r.states[n].grants
    requires forall k | gone <= k <= n :: r.states[n].grants[id].access.sub !in r.states[k].store
    requires r.states[n].now >= r.states[gone].now + 900_000_000 + d
    ensures Decode(r.states[n].grants[id].access, Access, r.states[n].now).Err?
  {
    var g := r.states[n].grants[id];
    TimelyOverRun(r, d, n);
    var k := AccountOrigin(r, n, id);
    ClockGoesOn(r, k, gone);
    AcceptedFor(Access, Access, g.access.sub, g.access.roles, g.issued, r.states[n].now);
  }

  /** A refresh issues no refresh token: every one there is was issued by the login it names, so no
      chain of refreshes outlives 7 days from its login. */
  lemma RefreshTokensComeFromLogins(r: Run, n: nat, id: nat, d: int) returns (i: nat)
    requires IsRun(r) && Prompt(r, d) && d >= 0 && n < |r.states|
    requires id in r.states[n].grants && r.states[n].grants[id].refresh.Some?
    ensures i < |r.steps| && r.steps[i].Login? && r.steps[i].sub == r.states[n].grants[id].access.sub
    ensures r.states[n].grants[id].since == r.states[i].now
    ensures r.states[n].now >= r.states[i].now + d + 604_800_000_000 ==>
              Decode(r.states[n].grants[id].refresh.value, Refresh, r.states[n].now).Err?
  {
    TimelyOverRun(r, d, n);
    i := LoginOrigin(r, n, id);
    var g := r.states[n].grants[id];
    AcceptedFor(Refresh, Refresh, g.access.sub, g.refresh.value.roles, g.issued, r.states[n].now);
  }

  // ── A login and a refresh that nobody disturbs ────────────────────────────────────────

  function Extend(r: Run, step: Step): (r': Run)
    requires IsRun(r) && Enabled(r.states[|r.steps|], step)
    ensures IsRun(r') && r'.steps == r.steps + [step] && r.states <= r'.states
    ensures r'.states[|r'.steps|] == Apply(r.states[|r.steps|], step)
  {
    var r' := Run(r.states + [Apply(r.states[|r.steps|], step)], r.steps + [step]);
    assert forall n: nat | n < |r.steps| :: StepAt(r, n) ==> StepAt(r', n);
    r'
  }

  /** An account that logs in gets an access and a refresh token, both with all its roles. */
  lemma LoginIssuesBoth(r: Run, s: State, id: nat, sub: string) returns (e: Run)
    requires IsRun(r) && r.states[|r.steps|] == s && Fresh(s, id) && sub in s.store
    ensures IsRun(e) && e.steps == r.steps + [Login(id, sub), ReadRoles(id), Finish(id)] && r.states <= e.states
    ensures var s' := e.states[|e.steps|];
            && s'.now == s.now && s'.store == s.store && s'.requests == s.requests && id in s'.grants
            && s'.grants.Keys == s.grants.Keys + {id} && (forall g <- s.grants :: s'.grants[g] == s.grants[g])
            && s'.grants[id].access == Token(Access, sub, s.store[sub], (s.now + 900_000_000) / 1_000_000)
            && s'.grants[id].refresh == Some(Token(Refresh, sub, s.store[sub], (s.now + 604_800_000_000) / 1_000_000))
  {
    e := Extend(Extend(Extend(r, Login(id, sub)), ReadRoles(id)), Finish(id));
    assert e.states[|e.steps|].requests == s.requests;
  }

  /** A refresh token less than 7 days and a second old gets its account, if that is there, a new access
      token with the roles it has now, and no other token. */
  lemma RefreshIssuesAccess(r: Run, s: State, id: nat, from: nat, issued: int) returns (e: Run)
    requires IsRun(r) && r.states[|r.steps|] == s && Fresh(s, id) && from in s.grants && s.grants[from].refresh.Some?
    requires var token := s.grants[from].refresh.value;
             token == Issue(Refresh, token.sub, token.roles, issued) && token.sub in s.store
    requires s.now <= issued + 604_800_000_000 - 1_000_000
    ensures IsRun(e) && e.steps == r.steps + [Present(id, from), Find(id), ReadRoles(id), Finish(id)]
    ensures var s', sub := e.states[|e.steps|], s.grants[from].refresh.value.sub;
            && s'.now == s.now && s'.store == s.store && s'.requests == s.requests && id in s'.grants
            && s'.grants[id].access == Token(Access, sub, s.store[sub], (s.now + 900_000_000) / 1_000_000)
            && s'.grants[id].refresh.None?
  {
    var token := s.grants[from].refresh.value;
    AcceptedFor(Refresh, Refresh, token.sub, token.roles, issued, s.now);
    e := Extend(Extend(Extend(Extend(r, Present(id, from)), Find(id)), ReadRoles(id)), Finish(id));
    assert e.states[|e.steps|].requests == s.requests;
  }
}
