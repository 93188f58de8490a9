/** The account functions called one at a time, on the two tables. */
module AccountService {
  import opened Common
  import opened DiffWrite
  import opened AccountStore

  class AccountTables {
    var accounts: map<string, Account>
    var roles: map<Holding, string>
    var clusters: set<string>

    constructor ()
      ensures Now() == Store(map[], map[], {}) && Valid()
    {
      accounts, roles, clusters := map[], map[], {};
    }

    function Now(): Store
      reads this
    {
      Store(accounts, roles, clusters)
    }

    /** The tables as the transactions see them, with none open. */
    function World(): State
      reads this
    {
      State(Now(), map[])
    }

    ghost predicate Valid()
      reads this
    {
      NoOrphans(Now()) && LdapUniform(Now())
    }

    /** Replaces the roles of an account, row by row; a duplicate key fails at the commit, and
        nothing is written. */
    method ResyncLdapRoles(username: string, role: string) returns (ok: bool)
      modifies this`roles
      ensures ok <==> INSTANCE_SCOPE !in clusters && LOCAL_SCOPE !in clusters
      ensures roles == if ok then Resynced(old(roles), username, {INSTANCE_SCOPE, LOCAL_SCOPE} + clusters, role)
                       else old(roles)
    {
      var rows := roles - HoldingsOf(roles, username);
      ghost var kept := rows;
      rows := rows[Holding(username, INSTANCE_SCOPE) := role][Holding(username, LOCAL_SCOPE) := role];
      ok := true;
      var left := clusters;
      while left != {}
        invariant left <= clusters
        invariant ok <==> !ScopesCollide(clusters - left)
        invariant rows.Keys == kept.Keys + Grants(username, AllScopes(clusters - left))
        invariant forall h <- rows :: rows[h] == if h in kept then kept[h] else role
        decreases left
      {
        var scope :| scope in left;
        left := left - {scope};
        if Holding(username, scope) in rows {
          ok := ok && scope != INSTANCE_SCOPE && scope != LOCAL_SCOPE;
        }
        rows := rows[Holding(username, scope) := role];
      }
      if ok {
        assert clusters - left == clusters;
        roles := rows;
      }
    }

    /** The end of a login for which the directory has answered `role`. */
    method TakeDirectoryRole(username: string, role: string, now: int)
      returns (result: Result<Option<map<string, string>>, StoreError>)
      requires Valid() && !(username in accounts && accounts[username].source.Local?)
      modifies this`accounts, this`roles
      ensures Valid()
      ensures TakesTwo(old(World()), LdapRead(0, username, role), Commit(0, now), World())
      ensures INSTANCE_SCOPE in clusters || LOCAL_SCOPE in clusters ==>
                result == Err(IntegrityError) && Now() == old(Now())
      ensures !(INSTANCE_SCOPE in clusters || LOCAL_SCOPE in clusters) ==>
                && result == Ok(Some(RolesFor(roles, username)))
                && Ok(Now()) == Provision(old(Now()), username, username in old(accounts), role, now)
                && roles == Resynced(old(roles), username, {INSTANCE_SCOPE, LOCAL_SCOPE} + clusters, role)
                && accounts == old(accounts)[username :=
                     if username in old(accounts) then old(accounts)[username].(lastLogin := Some(now))
                     else Account(Ldap, None, Some(now))]
    {
      hide Resynced, RolesFor, TakesTwo, Provision, NoOrphans, LdapUniform;
      ghost var before := Now();
      var entry := if username in accounts then accounts[username].(lastLogin := Some(now))
          else Account(Ldap, None, Some(now));
      var ok := ResyncLdapRoles(username, role);
      if !ok {
        LoginFails(before, username, role, now);
        return Err(IntegrityError);
      }
      accounts := accounts[username := entry];
      LoginTakes(before, username, role, now, entry);
      return Ok(Some(RolesFor(roles, username)));
    }

    /** `directory` is what LDAP answers: a role, or nothing. The result is the caller's roles. */
    method Authenticate(username: string, password: string, directory: Option<string>, now: int)
      returns (result: Result<Option<map<string, string>>, StoreError>)
      requires Valid()
      modifies this`accounts, this`roles
      ensures Valid()
      ensures username in old(accounts) && old(accounts)[username].source.Local? ==>
                if old(accounts)[username].passwordHash == Some(Bcrypt(password))
                then result == Ok(Some(RolesFor(old(roles), username))) && roles == old(roles)
                     && accounts == old(accounts)[username := old(accounts)[username].(lastLogin := Some(now))]
                     && Takes(old(World()), LocalLogin(username, password, now), World())
                else result == Ok(None) && Now() == old(Now())
      ensures Enabled(old(World()), LocalLogin(username, password, now)) <==>
                && username in old(accounts) && old(accounts)[username].source.Local?
                && old(accounts)[username].passwordHash == Some(Bcrypt(password))
      ensures !(username in old(accounts) && old(accounts)[username].source.Local?) ==>
                match directory
                case None => result == Ok(None) && Now() == old(Now())
                case Some(role) =>
                  && TakesTwo(old(World()), LdapRead(0, username, role), Commit(0, now), World())
                  && if INSTANCE_SCOPE in clusters || LOCAL_SCOPE in clusters
                  then result == Err(IntegrityError) && Now() == old(Now())
                  else
                    && result == Ok(Some(RolesFor(roles, username)))
                    && Ok(Now()) == Provision(old(Now()), username, username in old(accounts), role, now)
                    && roles == Resynced(old(roles), username, {INSTANCE_SCOPE, LOCAL_SCOPE} + clusters, role)
                    && accounts == old(accounts)[username :=
                         if username in old(accounts) then old(accounts)[username].(lastLogin := Some(now))
                         else Account(Ldap, None, Some(now))]
    {
      if username in accounts && accounts[username].source.Local? {
        if !Matches(password, accounts[username].passwordHash) {
          return Ok(None);
        }
        accounts := accounts[username := accounts[username].(lastLogin := Some(now))];
        return Ok(Some(RolesFor(roles, username)));
      }
      if directory.None? {
        return Ok(None);
      }
      result := TakeDirectoryRole(username, directory.value, now);
    }

    method CreateUser(username: string, password: string) returns (error: Option<StoreError>)
      requires Valid()
      modifies this`accounts
      ensures Valid()
      ensures error == if username in old(accounts) then Some(Exists) else None
      ensures accounts == if error.Some? then old(accounts)
                          else old(accounts)[username := Account(Local, Some(Bcrypt(password)), None)]
      ensures Enabled(old(World()), Create(username, password)) <==> error.None?
      ensures error.None? ==> Takes(old(World()), Create(username, password), World())
    {
      if username in accounts {
        return Some(Exists);
      }
      accounts := accounts[username := Account(Local, Some(Bcrypt(password)), None)];
      return None;
    }

    /** The account goes with all its roles, and nothing else does. */
    method DeleteUser(username: string) returns (error: Option<StoreError>)
      requires Valid()
      modifies this`accounts, this`roles
      ensures Valid()
      ensures error == if username in old(accounts) then None else Some(NotFound)
      ensures error.Some? ==> Now() == old(Now())
      ensures error.None? ==>
                && accounts == old(accounts) - {username} && HeldScopes(roles, username) == {}
                && forall h :: Get(roles, h) == if h.username == username then None else Get(old(roles), h)
      ensures Enabled(old(World()), Delete(username)) <==> error.None?
      ensures error.None? ==> Takes(old(World()), Delete(username), World())
      ensures forall other | other != username :: RolesFor(roles, other) == RolesFor(old(roles), other)
    {
      if username !in accounts {
        return Some(NotFound);
      }
      ghost var before := roles;
      roles := roles - HoldingsOf(roles, username);
      accounts := accounts - {username};
      forall h ensures Get(roles, h) == if h.username != username then Get(before, h) else None {}
      forall other | other != username ensures RolesFor(roles, other) == RolesFor(before, other) {
        RolesForAt(before, roles, username, {}, "", other);
      }
      return None;
    }

    method ChangePassword(username: string, password: string) returns (error: Option<StoreError>)
      requires Valid()
      modifies this`accounts
      ensures Valid()
      ensures error == if username !in old(accounts) then Some(NotFound)
                       else if old(accounts)[username].source.Ldap? then Some(LdapManaged) else None
      ensures error.Some? ==> accounts == old(accounts)
      ensures Enabled(old(World()), SetPassword(username, password)) <==> error.None?
      ensures error.None? ==>
                && username in accounts
                && var hash := accounts[username].passwordHash;
                && accounts == old(accounts)[username := old(accounts)[username].(passwordHash := hash)]
                && (forall guess :: Matches(guess, accounts[username].passwordHash) <==> guess == password)
                && Takes(old(World()), SetPassword(username, password), World())
    {
      if username !in accounts {
        return Some(NotFound);
      }
      if accounts[username].source.Ldap? {
        return Some(LdapManaged);
      }
      accounts := accounts[username := accounts[username].(passwordHash := Some(Bcrypt(password)))];
      return None;
    }

    method SetScopeRole(username: string, scope: string, role: string) returns (error: Option<StoreError>)
      requires Valid()
      modifies this`roles
      ensures Valid()
      ensures error == if username !in accounts then Some(NotFound)
                       else if accounts[username].source.Ldap? then Some(LdapManaged) else None
      ensures roles == if error.None? then old(roles)[Holding(username, scope) := role] else old(roles)
      ensures Enabled(old(World()), PutRead(0, Holding(username, scope), role)) <==> error.None?
      ensures error.None? ==>
                TakesTwo(old(World()), PutRead(0, Holding(username, scope), role), Commit(0, 0), World())
    {
      if username !in accounts {
        return Some(NotFound);
      }
      if accounts[username].source.Ldap? {
        return Some(LdapManaged);
      }
      roles := roles[Holding(username, scope) := role];
      return None;
    }

    method DeleteScopeRole(username: string, scope: string) returns (error: Option<StoreError>)
      requires Valid()
      modifies this`roles
      ensures Valid()
      ensures error == if username !in accounts then Some(NotFound)
                       else if accounts[username].source.Ldap? then Some(LdapManaged)
                       else if Holding(username, scope) !in old(roles) then Some(NoRole) else None
      ensures roles == if error.None? then old(roles) - {Holding(username, scope)} else old(roles)
      ensures Enabled(old(World()), RemoveRead(0, Holding(username, scope))) <==> error.None?
      ensures error.None? ==>
                TakesTwo(old(World()), RemoveRead(0, Holding(username, scope)), Commit(0, 0), World())
    {
      if username !in accounts {
        return Some(NotFound);
      }
      if accounts[username].source.Ldap? {
        return Some(LdapManaged);
      }
      if Holding(username, scope) !in roles {
        return Some(NoRole);
      }
      roles := roles - {Holding(username, scope)};
      return None;
    }

    method EnsureDefaultAdmin(password: Option<string>)
      requires Valid()
      modifies this`accounts, this`roles
      ensures Valid()
      ensures Now() == if password.GetOr("") == "" || old(accounts) != map[] then old(Now())
                       else WithDefaultAdmin(old(Now()), password.value)
      ensures password.GetOr("") != "" && old(accounts) == map[] ==>
                && accounts == map["admin" := Account(Local, Some(Bcrypt(password.value)), None)]
                && roles == old(roles)[Holding("admin", "_instance") := "admin"][Holding("admin", "local") := "admin"]
      ensures password.GetOr("") != "" && old(accounts) == map[] ==>
                Takes(old(World()), DefaultAdmin(password.value), World())
      ensures password.Some? ==>
                (Enabled(old(World()), DefaultAdmin(password.value))
                 <==> password.value != "" && old(accounts) == map[])
    {
      if password.None? || password.value == "" || accounts != map[] {
        return;
      }
      accounts := accounts["admin" := Account(Local, Some(Bcrypt(password.value)), None)];
      roles := roles[Holding("admin", INSTANCE_SCOPE) := "admin"];
      roles := roles[Holding("admin", LOCAL_SCOPE) := "admin"];
    }
  }

  lemma LoginFails(st: Store, username: string, role: string, now: int)
    requires !IsLocal(st, username) && (INSTANCE_SCOPE in st.clusters || LOCAL_SCOPE in st.clusters)
    ensures TakesTwo(State(st, map[]), LdapRead(0, username, role), Commit(0, now), State(st, map[]))
  {
    hide Resynced;
    assert map[0 := Login(username, username in st.accounts, role)] - {0} == map[];
  }

  lemma LoginTakes(st: Store, username: string, role: string, now: int, entry: Account)
    requires NoOrphans(st) && LdapUniform(st) && !IsLocal(st, username) && !ScopesCollide(st.clusters)
    requires entry == if username in st.accounts then st.accounts[username].(lastLogin := Some(now))
                      else Account(Ldap, None, Some(now))
    ensures var st' := Store(st.accounts[username := entry],
                             Resynced(st.roles, username, AllScopes(st.clusters), role), st.clusters);
            && Provision(st, username, username in st.accounts, role, now) == Ok(st')
            && TakesTwo(State(st, map[]), LdapRead(0, username, role), Commit(0, now), State(st', map[]))
            && NoOrphans(st') && LdapUniform(st')
  {
    LoginKeepsValid(st, username, username in st.accounts, role, now);
    hide Resynced, NoOrphans, LdapUniform, AllScopes;
    assert map[0 := Login(username, username in st.accounts, role)] - {0} == map[];
  }

  lemma LoginKeepsValid(st: Store, username: string, known: bool, role: string, now: int)
    requires NoOrphans(st) && LdapUniform(st) && Provision(st, username, known, role, now).Ok?
    ensures NoOrphans(Provision(st, username, known, role, now).value)
    ensures LdapUniform(Provision(st, username, known, role, now).value)
  {
    var s := State(st, map[0 := Login(username, known, role)]);
    var s' := Apply(s, Commit(0, now));
    StepKeepsUniform(s, Commit(0, now), s');
    StepKeepsOwners(s, Commit(0, now), s');
  }
}
