/** Login accounts and the role each holds on each scope, with LDAP logins that rewrite roles.

    A transaction that looks at an account first and writes later is two steps here: an LDAP login
    waits for the directory in between, and other transactions may commit meanwhile. The primary
    keys of both tables and the foreign key from roles to accounts hold at every commit. */
module AccountStore {
  import opened Common
  import opened DiffWrite

  const INSTANCE_SCOPE := "_instance"
  const LOCAL_SCOPE := "local"

  datatype Source = Local | Ldap
  /** A bcrypt hash matches one password; the dummy hash matches none. */
  datatype Hash = Bcrypt(password: string) | Dummy
  datatype Account = Account(source: Source, passwordHash: Option<Hash>, lastLogin: Option<int>)

  /** The key of a role assignment. */
  datatype Holding = Holding(username: string, scope: string)

  datatype Store = Store(accounts: map<string, Account>, roles: map<Holding, string>, clusters: set<string>)

  datatype StoreError = NotFound | Exists | LdapManaged | NoRole | IntegrityError | StaleRow

  predicate Matches(password: string, hash: Option<Hash>) {
    hash.GetOr(Dummy) == Bcrypt(password)
  }

  function HeldScopes(roles: map<Holding, string>, username: string): set<string> {
    set h | h in roles && h.username == username :: h.scope
  }

  /** `_roles_for` */
  function RolesFor(roles: map<Holding, string>, username: string): map<string, string> {
    map scope | scope in HeldScopes(roles, username) :: roles[Holding(username, scope)]
  }

  function AllScopes(clusters: set<string>): set<string> {
    {INSTANCE_SCOPE, LOCAL_SCOPE} + clusters
  }

  function OnEach(scopes: set<string>, role: string): map<string, string> {
    map scope | scope in scopes :: role
  }

  /** A cluster under one of the two reserved names makes the scopes of a resync collide. */
  predicate ScopesCollide(clusters: set<string>) {
    INSTANCE_SCOPE in clusters || LOCAL_SCOPE in clusters
  }

  function HoldingsOf(roles: map<Holding, string>, username: string): set<Holding> {
    set h | h in roles && h.username == username
  }

  function Grants(username: string, scopes: set<string>): set<Holding> {
    set scope | scope in scopes :: Holding(username, scope)
  }

  /** `_resync_ldap_roles` */
  function Resynced(roles: map<Holding, string>, username: string, scopes: set<string>,
                    role: string): map<Holding, string> {
    roles - HoldingsOf(roles, username) + map h | h in Grants(username, scopes) :: role
  }

  // ── The second halves of the transactions ─────────────────────────────────────────────

  /** The end of an LDAP login; `known` tells whether the account was there, as an LDAP account,
      before the directory was asked. */
  function Provision(st: Store, username: string, known: bool, role: string, now: int): Result<Store, StoreError> {
    if known && username !in st.accounts then Err(StaleRow)
    else if !known && username in st.accounts then Err(IntegrityError)
    else if ScopesCollide(st.clusters) then Err(IntegrityError)
    else
      var account := if known then st.accounts[username].(lastLogin := Some(now)) else Account(Ldap, None, Some(now));
      Ok(st.(accounts := st.accounts[username := account],
             roles := Resynced(st.roles, username, AllScopes(st.clusters), role)))
  }

  /** `existed`: the row was there when it was looked up. */
  function PutRole(st: Store, h: Holding, existed: bool, role: string): Result<Store, StoreError> {
    if h.username !in st.accounts || (!existed && h in st.roles) then Err(IntegrityError)
    else if existed && h !in st.roles then Err(StaleRow)
    else Ok(st.(roles := st.roles[h := role]))
  }

  function DropRole(st: Store, h: Holding): Result<Store, StoreError> {
    if h in st.roles then Ok(st.(roles := st.roles - {h})) else Err(StaleRow)
  }

  // ── Transactions, step by step ────────────────────────────────────────────────────────

  datatype Txn =
    | Login(username: string, known: bool, role: string)
    | Put(h: Holding, existed: bool, role: string)
    | Remove(h: Holding)

  datatype State = State(store: Store, open: map<nat, Txn>)

  datatype Step =
    | LocalLogin(username: string, password: string, now: int)
    | LdapRead(id: nat, username: string, role: string)      // the directory will answer with `role`
    | PutRead(id: nat, h: Holding, role: string)
    | RemoveRead(id: nat, h: Holding)
    | Commit(id: nat, now: int)
    | Abort(id: nat)
    | Create(username: string, password: string)
    | Delete(username: string)
    | SetPassword(username: string, password: string)
    | DefaultAdmin(password: string)
    | SetClusters(clusters: set<string>)

  /** The account may be written as this transaction means to. */
  predicate IsLocal(st: Store, username: string) {
    username in st.accounts && st.accounts[username].source.Local?
  }

  predicate Enabled(s: State, step: Step) {
    var st := s.store;
    match step
    case LocalLogin(username, password, _) => IsLocal(st, username)
        && Matches(password, st.accounts[username].passwordHash)
    case LdapRead(id, username, _) => id !in s.open && !IsLocal(st, username)
    case PutRead(id, h, _) => id !in s.open && IsLocal(st, h.username)
    case RemoveRead(id, h) => id !in s.open && IsLocal(st, h.username) && h in st.roles
    case Commit(id, _) => id in s.open
    case Abort(id) => id in s.open
    case Create(username, _) => username !in st.accounts
    case Delete(username) => username in st.accounts
    case SetPassword(username, _) => IsLocal(st, username)
    case DefaultAdmin(password) => password != "" && st.accounts == map[]
    case SetClusters(clusters) => LOCAL_SCOPE !in clusters     // `add_cluster` refuses the name
  }

  function Outcome(st: Store, txn: Txn, now: int): Result<Store, StoreError> {
    match txn
    case Login(username, known, role) => Provision(st, username, known, role, now)
    case Put(h, existed, role) => PutRole(st, h, existed, role)
    case Remove(h) => DropRole(st, h)
  }

  function WithDefaultAdmin(st: Store, password: string): Store {
    st.(accounts := st.accounts["admin" := Account(Local, Some(Bcrypt(password)), None)],
        roles := st.roles[Holding("admin", INSTANCE_SCOPE) := "admin"][Holding("admin", LOCAL_SCOPE) := "admin"])
  }

  function Apply(s: State, step: Step): State
    requires Enabled(s, step)
  {
    var st := s.store;
    match step
    case LocalLogin(username, _, now) =>
      s.(store := st.(accounts := st.accounts[username := st.accounts[username].(lastLogin := Some(now))]))
    case LdapRead(id, username, role) => s.(open := s.open[id := Login(username, username in st.accounts, role)])
    case PutRead(id, h, role) => s.(open := s.open[id := Put(h, h in st.roles, role)])
    case RemoveRead(id, h) => s.(open := s.open[id := Remove(h)])
    case Commit(id, now) =>
      var outcome := Outcome(st, s.open[id], now);
      State(if outcome.Ok? then outcome.value else st, s.open - {id})
    case Abort(id) => s.(open := s.open - {id})
    case Create(username, password) =>
      s.(store := st.(accounts := st.accounts[username := Account(Local, Some(Bcrypt(password)), None)]))
    case Delete(username) =>
      s.(store := st.(accounts := st.accounts - {username}, roles := st.roles - HoldingsOf(st.roles, username)))
    case SetPassword(username, password) =>
      var account := st.accounts[username].(passwordHash := Some(Bcrypt(password)));
      s.(store := st.(accounts := st.accounts[username := account]))
    case DefaultAdmin(password) => s.(store := WithDefaultAdmin(st, password))
    case SetClusters(clusters) => s.(store := st.(clusters := clusters))
  }

  datatype Run = Run(states: seq<State>, steps: seq<Step>)

  predicate StepAt(r: Run, n: nat) {
    && n < |r.steps| && n + 1 < |r.states|
    && Enabled(r.states[n], r.steps[n]) && r.states[n + 1] == Apply(r.states[n], r.steps[n])
  }

  predicate IsRun(r: Run) {
    && |r.states| == |r.steps| + 1
    && LOCAL_SCOPE !in r.states[0].store.clusters
    && r.states[0].open == map[] && r.states[0].store.accounts == map[] && r.states[0].store.roles == map[]
    && forall n: nat | n < |r.steps| :: StepAt(r, n)
  }

  /** The step, or the two steps, lead from `s` to `s'`. */
  predicate Takes(s: State, step: Step, s': State) {
    Enabled(s, step) && s' == Apply(s, step)
  }

  predicate TakesTwo(s: State, read: Step, commit: Step, s': State) {
    Enabled(s, read) && Takes(Apply(s, read), commit, s')
  }

  /** What a transaction under way found when it looked at the tables. */
  predicate Found(st: Store, txn: Txn) {
    match txn
    case Login(username, known, _) => !IsLocal(st, username) && (known <==> username in st.accounts)
    case Put(h, existed, _) =>
      h.username in st.accounts && st.accounts[h.username].source.Local? && (existed <==> h in st.roles)
    case Remove(h) => h.username in st.accounts && st.accounts[h.username].source.Local? && h in st.roles
  }

  /** Every transaction under way began with such a look: roles are given and taken of accounts that
      were local then, and only accounts that were not were left to the directory. */
  lemma {:induction false} TxnOrigin(r: Run, n: nat, id: nat) returns (i: nat)
    requires IsRun(r) && n < |r.states| && id in r.states[n].open
    ensures i < n && Found(r.states[i].store, r.states[n].open[id])
    ensures r.steps[i].LdapRead? || r.steps[i].PutRead? || r.steps[i].RemoveRead?
  {
    assert StepAt(r, n - 1);
    if id in r.states[n - 1].open && r.states[n - 1].open[id] == r.states[n].open[id] {
      i := TxnOrigin(r, n - 1, id);
    } else {
      i := n - 1;
    }
  }

  // ── What holds in every run ───────────────────────────────────────────────────────────

  predicate NoOrphans(st: Store) {
    forall h <- st.roles :: h.username in st.accounts
  }

  predicate Uniform(st: Store, username: string) {
    forall a, b | a in st.roles && b in st.roles && a.username == username && b.username == username ::
      st.roles[a] == st.roles[b]
  }

  ghost predicate LdapUniform(st: Store) {
    forall u <- st.accounts | st.accounts[u].source.Ldap? :: Uniform(st, u)
  }

  /** This commit finds the account replaced since its transaction looked at it. */
  predicate Overtaken(s: State, step: Step)
    requires Enabled(s, step)
  {
    step.Commit? &&
    match s.open[step.id]
    case Login(username, known, _) => known && IsLocal(s.store, username)
    case Put(h, _, _) => h.username in s.store.accounts && !IsLocal(s.store, h.username)
    case Remove(_) => false
  }

  lemma ResyncedAt(roles: map<Holding, string>, username: string, scopes: set<string>, role: string, h: Holding)
    ensures Get(Resynced(roles, username, scopes, role), h)
            == if h.username != username then Get(roles, h) else if h.scope in scopes then Some(role) else None
  {
    assert h in Grants(username, scopes) <==> h.username == username && h.scope in scopes by {
      if h.username == username && h.scope in scopes { assert Holding(username, h.scope) == h; }
    }
  }

  /** Right after an LDAP login the account holds its role on exactly the current scopes, nobody
      else's roles have changed, and nobody else's account. */
  lemma LoginResyncs(st: Store, username: string, known: bool, role: string, now: int)
    requires Provision(st, username, known, role, now).Ok?
    ensures var st' := Provision(st, username, known, role, now).value;
            && RolesFor(st'.roles, username) == OnEach(AllScopes(st.clusters), role)
            && (forall other | other != username :: RolesFor(st'.roles, other) == RolesFor(st.roles, other))
            && (forall other | other != username :: Get(st'.accounts, other) == Get(st.accounts, other))
            && Uniform(st', username)
  {
    var st' := Provision(st, username, known, role, now).value;
    forall h ensures Get(st'.roles, h) == if h.username != username then Get(st.roles, h)
                                          else if h.scope in AllScopes(st.clusters) then Some(role) else None {
      ResyncedAt(st.roles, username, AllScopes(st.clusters), role, h);
    }
    forall other ensures RolesFor(st'.roles, other) == if other == username then OnEach(AllScopes(st.clusters), role)
                                                       else RolesFor(st.roles, other) {
      RolesForAt(st.roles, st'.roles, username, AllScopes(st.clusters), role, other);
    }
  }

  lemma RolesForAt(roles: map<Holding, string>, roles': map<Holding, string>, username: string, scopes: set<string>,
                   role: string, other: string)
    requires forall h :: Get(roles', h) == if h.username != username then Get(roles, h)
                                           else if h.scope in scopes then Some(role) else None
    ensures RolesFor(roles', other) == if other == username then OnEach(scopes, role) else RolesFor(roles, other)
  {
    forall scope ensures scope in HeldScopes(roles', other)
        <==> if other == username then scope in scopes else scope in HeldScopes(roles, other)
      ensures scope in HeldScopes(roles', other)
              ==> roles'[Holding(other, scope)] == if other == username then role else roles[Holding(other, scope)]
    {
      assert Get(roles', Holding(other, scope)) == if other != username then Get(roles, Holding(other, scope))
                                                   else if scope in scopes then Some(role) else None;
      assert scope in HeldScopes(roles', other) <==> Holding(other, scope) in roles';
      assert scope in HeldScopes(roles, other) <==> Holding(other, scope) in roles;
    }
  }

  lemma StepKeepsOwners(s: State, step: Step, s': State)
    requires NoOrphans(s.store) && LOCAL_SCOPE !in s.store.clusters && Enabled(s, step) && s' == Apply(s, step)
    ensures NoOrphans(s'.store) && LOCAL_SCOPE !in s'.store.clusters
  {
    if step.Commit? && s.open[step.id].Login? && Outcome(s.store, s.open[step.id], step.now).Ok? {
      var txn := s.open[step.id];
      forall h <- s'.store.roles ensures h.username in s'.store.accounts {
        ResyncedAt(s.store.roles, txn.username, AllScopes(s.store.clusters), txn.role, h);
      }
    }
  }

  /** In every run, however transactions interleave, each role belongs to an account that exists. */
  lemma {:induction false} NoOrphansEver(r: Run, n: nat)
    requires IsRun(r) && n < |r.states|
    ensures NoOrphans(r.states[n].store) && LOCAL_SCOPE !in r.states[n].store.clusters
  {
    if n > 0 {
      NoOrphansEver(r, n - 1);
      assert StepAt(r, n - 1);
      StepKeepsOwners(r.states[n - 1], r.steps[n - 1], r.states[n]);
    }
  }

  /** An LDAP login ends well exactly when no cluster is called `_instance` and the account has
      neither come nor gone since it was looked up. */
  lemma LdapLoginWorksIff(r: Run, n: nat)
    requires IsRun(r) && n < |r.steps| && StepAt(r, n) && r.steps[n].Commit?
    requires r.states[n].open[r.steps[n].id].Login?
    ensures var s, txn := r.states[n], r.states[n].open[r.steps[n].id];
            Outcome(s.store, txn, r.steps[n].now).Ok?
            <==> INSTANCE_SCOPE !in s.store.clusters && (txn.known <==> txn.username in s.store.accounts)
  {
    NoOrphansEver(r, n);
  }

  /** A role assignment or removal ends well exactly when the account is there and the row has neither
      come nor gone since it was looked up; then that one role is written, or gone. */
  lemma AssignmentWorksIff(st: Store, h: Holding, existed: bool, role: string, now: int)
    ensures var put := Outcome(st, Put(h, existed, role), now);
            && (put.Ok? <==> h.username in st.accounts && (existed <==> h in st.roles))
            && (put.Ok? ==> put.value == Store(st.accounts, st.roles[h := role], st.clusters))
    ensures var removed := Outcome(st, Remove(h), now);
            && (removed.Ok? <==> h in st.roles)
            && (removed.Ok? ==> removed.value == Store(st.accounts, st.roles - {h}, st.clusters))
  {
  }

  /** What an account's roles are, row by row. */
  lemma RolesAre(roles: map<Holding, string>, username: string, scope: string)
    ensures Get(RolesFor(roles, username), scope) == Get(roles, Holding(username, scope))
  {
    assert scope in HeldScopes(roles, username) <==> Holding(username, scope) in roles by {
      if Holding(username, scope) in roles { assert Holding(username, scope).scope == scope; }
    }
  }

  lemma StepKeepsUniform(s: State, step: Step, s': State)
    requires NoOrphans(s.store) && LdapUniform(s.store) && Enabled(s, step) && s' == Apply(s, step)
    requires step.Commit? && s.open[step.id].Put? ==> !Overtaken(s, step)
    ensures LdapUniform(s'.store)
  {
    if step.Commit? && s.open[step.id].Login? && Outcome(s.store, s.open[step.id], step.now).Ok? {
      var txn := s.open[step.id];
      forall u <- s'.store.accounts | s'.store.accounts[u].source.Ldap? ensures Uniform(s'.store, u) {
        forall a, b | a in s'.store.roles && b in s'.store.roles && a.username == u && b.username == u
          ensures s'.store.roles[a] == s'.store.roles[b]
        {
          ResyncedAt(s.store.roles, txn.username, AllScopes(s.store.clusters), txn.role, a);
          ResyncedAt(s.store.roles, txn.username, AllScopes(s.store.clusters), txn.role, b);
        }
      }
    }
  }

  /** This commit writes a role to an account that has become an LDAP account since it was looked up. */
  predicate PutsOnLdap(s: State, step: Step)
    requires Enabled(s, step)
  {
    step.Commit? && s.open[step.id].Put? && Overtaken(s, step) && Outcome(s.store, s.open[step.id], step.now).Ok?
  }

  /** Every other scope of the account holds `role`. */
  predicate OthersHold(roles: map<Holding, string>, h: Holding, role: string) {
    forall other <- roles | other.username == h.username && other != h :: roles[other] == role
  }

  /** Such a commit leaves the LDAP roles uniform exactly when it writes the role the account already
      holds on its other scopes. */
  lemma PutOnLdapIff(s: State, step: Step, s': State)
    requires NoOrphans(s.store) && LdapUniform(s.store) && Enabled(s, step) && s' == Apply(s, step)
             && PutsOnLdap(s, step)
    ensures LdapUniform(s'.store) <==> OthersHold(s.store.roles, s.open[step.id].h, s.open[step.id].role)
  {
    var txn := s.open[step.id];
    var h, u := txn.h, txn.h.username;
    assert s'.store.roles == s.store.roles[h := txn.role] && s'.store.accounts == s.store.accounts;
    if LdapUniform(s'.store) {
      assert Uniform(s'.store, u);
      forall other <- s.store.roles | other.username == u && other != h ensures s.store.roles[other] == txn.role {
        assert s'.store.roles[other] == s'.store.roles[h];
      }
    }
  }

  /** Every overtaken assignment in the run writes the role its account holds anyway. */
  ghost predicate OvertakenPutsAgree(r: Run) {
    forall n: nat | n < |r.steps| && StepAt(r, n) && PutsOnLdap(r.states[n], r.steps[n]) ::
      var txn := r.states[n].open[r.steps[n].id];
      OthersHold(r.states[n].store.roles, txn.h, txn.role)
  }

  lemma {:induction false} UniformIfPutsAgree(r: Run, n: nat)
    requires IsRun(r) && OvertakenPutsAgree(r) && n < |r.states|
    ensures LdapUniform(r.states[n].store)
  {
    if n > 0 {
      UniformIfPutsAgree(r, n - 1);
      NoOrphansEver(r, n - 1);
      assert StepAt(r, n - 1);
      StepUniformIff(r.states[n - 1], r.steps[n - 1], r.states[n]);
    }
  }

  lemma StepUniformIff(s: State, step: Step, s': State)
    requires NoOrphans(s.store) && LdapUniform(s.store) && Enabled(s, step) && s' == Apply(s, step)
    ensures LdapUniform(s'.store) <==>
            (PutsOnLdap(s, step) ==> OthersHold(s.store.roles, s.open[step.id].h, s.open[step.id].role))
  {
    if PutsOnLdap(s, step) {
      PutOnLdapIff(s, step, s');
    } else if step.Commit? && s.open[step.id].Put? && Outcome(s.store, s.open[step.id], step.now).Err? {
      assert s'.store == s.store;
    } else {
      StepKeepsUniform(s, step, s');
    }
  }

  /** In every run, every LDAP account holds one and the same role on all its scopes at all times if
      and only if each role assignment overtaken by its account's becoming an LDAP account writes
      the role the account holds on its other scopes. */
  lemma LdapRolesAreUniform(r: Run)
    requires IsRun(r)
    ensures (forall n: nat | n < |r.states| :: LdapUniform(r.states[n].store)) <==> OvertakenPutsAgree(r)
  {
    if OvertakenPutsAgree(r) {
      forall n: nat | n < |r.states| ensures LdapUniform(r.states[n].store) { UniformIfPutsAgree(r, n); }
    }
    if forall n: nat | n < |r.states| :: LdapUniform(r.states[n].store) {
      forall n: nat | n < |r.steps| && StepAt(r, n) && PutsOnLdap(r.states[n], r.steps[n])
        ensures var txn := r.states[n].open[r.steps[n].id]; OthersHold(r.states[n].store.roles, txn.h, txn.role)
      {
        NoOrphansEver(r, n);
        StepUniformIff(r.states[n], r.steps[n], r.states[n + 1]);
      }
    }
  }

  /** An LDAP login changes no local account, neither its row nor its roles, unless it is overtaken;
      then it takes the local account over: all its roles are replaced by the directory's. */
  lemma LoginSparesLocals(s: State, id: nat, now: int, u: string)
    requires Enabled(s, Commit(id, now)) && s.open[id].Login? && IsLocal(s.store, u)
    ensures var s' := Apply(s, Commit(id, now));
            if Overtaken(s, Commit(id, now)) && u == s.open[id].username && !ScopesCollide(s.store.clusters)
            then RolesFor(s'.store.roles, u) == OnEach(AllScopes(s.store.clusters), s.open[id].role)
            else
              s'.store.accounts[u] == s.store.accounts[u] && RolesFor(s'.store.roles, u) == RolesFor(s.store.roles, u)
  {
    var txn := s.open[id];
    if Outcome(s.store, txn, now).Ok? {
      LoginResyncs(s.store, txn.username, txn.known, txn.role, now);
      assert Get(Provision(s.store, txn.username, txn.known, txn.role, now).value.accounts, u)
          == Get(s.store.accounts, u)
             || u == txn.username;
    }
  }

  // ── Overtaken transactions ────────────────────────────────────────────────────────────

  function Last(r: Run): State
    requires |r.states| == |r.steps| + 1
  {
    r.states[|r.steps|]
  }

  /** A step taken at the end of a run, by a call for example, makes a longer run of it. */
  function Extend(r: Run, step: Step): (r': Run)
    requires IsRun(r) && Enabled(Last(r), step)
    ensures IsRun(r') && r'.steps == r.steps + [step] && r.states <= r'.states
    ensures Takes(Last(r), step, Last(r'))
  {
    var r' := Run(r.states + [Apply(Last(r), step)], r.steps + [step]);
    assert forall n: nat | n < |r.steps| :: StepAt(r, n) ==> StepAt(r', n);
    r'
  }

  lemma FirstLogin() returns (r: Run)
    ensures IsRun(r) && r.steps == [LdapRead(0, "eve", "admin"), Commit(0, 0)]
    ensures Last(r).open == map[] && Last(r).store.clusters == {}
    ensures Last(r).store.accounts == map["eve" := Account(Ldap, None, Some(0))]
  {
    hide Resynced;
    r := Extend(Run([State(Store(map[], map[], {}), map[])], []), LdapRead(0, "eve", "admin"));
    r := Extend(r, Commit(0, 0));
  }

  /** A second LDAP login of `eve` waits for the directory while her account is deleted and created
      again as a local one. */
  lemma RecreatedLocally() returns (r: Run)
    ensures IsRun(r) && r.steps == [LdapRead(0, "eve", "admin"), Commit(0, 0), LdapRead(1, "eve", "admin"),
                                    Delete("eve"), Create("eve", "secret")]
    ensures Last(r).open == map[1 := Login("eve", true, "admin")] && IsLocal(Last(r).store, "eve")
    ensures Last(r).store.clusters == {}
  {
    hide HoldingsOf;
    r := FirstLogin();
    r := Extend(r, LdapRead(1, "eve", "admin"));
    r := Extend(r, Delete("eve"));
    r := Extend(r, Create("eve", "secret"));
  }

  /** Then the local account, to which nobody has given a role, ends up an administrator. */
  lemma LoginTakesOverLocal() returns (r: Run)
    ensures IsRun(r) && forall step <- r.steps :: !step.PutRead? && !step.DefaultAdmin?
    ensures IsLocal(Last(r).store, "eve") && RolesFor(Last(r).store.roles, "eve")
            == OnEach({INSTANCE_SCOPE, LOCAL_SCOPE}, "admin")
  {
    hide Resynced, RolesFor;
    var before := RecreatedLocally();
    LoginSparesLocals(Last(before), 1, 5, "eve");
    r := Extend(before, Commit(1, 5));
    assert AllScopes({}) == {INSTANCE_SCOPE, LOCAL_SCOPE};
  }

  const WEST := Holding("bob", "west")

  /** `bob` becomes an LDAP account while a role assignment is under way. */
  lemma RecreatedInLdap() returns (r: Run)
    ensures IsRun(r)
    ensures var open := map[0 := Put(WEST, false, "admin"), 1 := Login("bob", false, "viewer")];
            Last(r) == State(Store(map[], map[], {}), open)
  {
    var none: map<Holding, string> := map[];
    assert none - HoldingsOf(none, "bob") == none;
    hide HoldingsOf;
    r := Extend(Run([State(Store(map[], none, {}), map[])], []), Create("bob", "secret"));
    r := Extend(r, PutRead(0, WEST, "admin"));
    r := Extend(r, Delete("bob"));
    assert Last(r) == State(Store(map[], none, {}), map[0 := Put(WEST, false, "admin")]);
    r := Extend(r, LdapRead(1, "bob", "viewer"));
  }

  /** A role assignment checked while the account was local is written after it has become an LDAP
      account: its roles are not uniform any more. */
  lemma RoleGivenToLdapAccount() returns (r: Run)
    ensures IsRun(r) && !LdapUniform(Last(r).store)
  {
    r := RecreatedInLdap();
    var instance := Holding("bob", INSTANCE_SCOPE);
    ResyncedAt(map[], "bob", AllScopes({}), "viewer", WEST);
    ResyncedAt(map[], "bob", AllScopes({}), "viewer", instance);
    hide Resynced;
    r := Extend(r, Commit(1, 0));
    assert Last(r).open == map[0 := Put(WEST, false, "admin")];
    assert Last(r).store.accounts["bob"].source.Ldap?;
    r := Extend(r, Commit(0, 1));
    assert Last(r).store.roles[WEST] == "admin" && Last(r).store.roles[instance] == "viewer";
    assert !Uniform(Last(r).store, "bob");
  }
}
