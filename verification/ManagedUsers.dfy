/** Creating, importing and deleting managed users, and the login accounts linked to them. */
module ManagedUsers {
  import opened Common
  import opened DiffWrite
  import opened Registry

  const CERTIFICATE := "certificate"
  const SERVICE_ACCOUNT := "service_account"

  // ── The registry mutations ────────────────────────────────────────────────────────────

  predicate AnyNamed(current: seq<Entry>, name: string) {
    exists i | 0 <= i < |current| :: current[i].name == name
  }

  predicate AnyAt(current: seq<Entry>, name: string, namespace: string) {
    exists i | 0 <= i < |current| :: current[i].name == name && current[i].namespace == Some(namespace)
  }

  predicate AnyServiceAccount(current: seq<Entry>, name: string) {
    exists i | 0 <= i < |current| :: current[i].name == name && current[i].kind == SERVICE_ACCOUNT
  }

  function Append(current: seq<Entry>, taken: bool, record: Entry): Result<seq<Entry>, RegistryError> {
    if taken then Err(AlreadyExists) else Ok(current + [record])
  }

  function Keep(current: seq<Entry>, keep: Entry -> bool): seq<Entry> {
    if current == [] then []
    else Keep(current[..|current| - 1], keep)
         + (if keep(current[|current| - 1]) then [current[|current| - 1]] else [])
  }

  function NewCertificate(name: string, groups: seq<string>, now: int, csrName: Option<string>, expiry: Option<int>,
                          imported: Option<bool>): Entry {
    Entry(name, Some("default"), CERTIFICATE, Some(groups), Some(now), csrName, expiry, imported)
  }

  function NewServiceAccount(name: string, namespace: string, now: int, imported: Option<bool>): Entry {
    Entry(name, Some(namespace), SERVICE_ACCOUNT, Some([]), Some(now), None, None, imported)
  }

  // ── What the mutations mean for the registry as a map ─────────────────────────────────

  lemma NormalisedAfterSet(users: map<Key, Entry>, k: Key, record: Entry, now: int)
    requires AllLoaded(users, now)
    ensures NormalisedAll(users[k := record], now) == users[k := Normalised(record, now)]
  {
    var normal := Normalised(record, now);
  }

  lemma NormalisedOfLoaded(users: map<Key, Entry>, part: map<Key, Entry>, now: int)
    requires AllLoaded(users, now) && forall k <- part :: k in users && part[k] == users[k]
    ensures NormalisedAll(part, now) == part
  {
  }

  lemma AppendSets(current: seq<Entry>, users: map<Key, Entry>, record: Entry, now: int)
    requires Lists(current, users) && AllLoaded(users, now)
    ensures NormalisedAll(LastWins(current + [record], KeyOf), now) == users[KeyOf(record) := Normalised(record, now)]
  {
    hide Lists, AllLoaded, Normalised, NormalisedAll;
    ListedIsLastWins(current, users);
    assert (current + [record])[..|current|] == current;
    assert LastWins(current + [record], KeyOf) == users[KeyOf(record) := record];
    NormalisedAfterSet(users, KeyOf(record), record, now);
  }

  lemma {:induction false} KeepAt(current: seq<Entry>, keep: Entry -> bool, k: Key)
    requires forall i, j | 0 <= i < j < |current| :: KeyOf(current[i]) != KeyOf(current[j])
    ensures var all := LastWins(current, KeyOf);
            Get(LastWins(Keep(current, keep), KeyOf), k) == if k in all && keep(all[k]) then Some(all[k]) else None
  {
    if current != [] {
      var n := |current| - 1;
      KeepAt(current[..n], keep, k);
      var kept := Keep(current[..n], keep);
      assert (kept + [current[n]])[..|kept|] == kept;
      assert kept + [] == kept;
      if KeyOf(current[n]) == k {
        LastWinsAt(current[..n], k);
        assert !Names(current[..n], k);
        assert k !in LastWins(kept, KeyOf);
      }
    }
  }

  function Filtered(users: map<Key, Entry>, keep: Entry -> bool): map<Key, Entry> {
    map k | k in users && keep(users[k]) :: users[k]
  }

  lemma KeepFilters(current: seq<Entry>, users: map<Key, Entry>, keep: Entry -> bool, now: int)
    requires Lists(current, users) && AllLoaded(users, now)
    ensures NormalisedAll(LastWins(Keep(current, keep), KeyOf), now) == Filtered(users, keep)
  {
    ListedIsLastWins(current, users);
    var wanted := LastWins(Keep(current, keep), KeyOf);
    forall k ensures Get(wanted, k) == Get(Filtered(users, keep), k) { KeepAt(current, keep, k); }
    MapsEqual(wanted, Filtered(users, keep));
    NormalisedOfLoaded(users, wanted, now);
  }

  function ServiceAccountsNamed(users: map<Key, Entry>, name: string): set<Key> {
    set k | k in users && k.0 == name && users[k].kind == SERVICE_ACCOUNT
  }

  lemma ListedNames(current: seq<Entry>, users: map<Key, Entry>, name: string, namespace: string, now: int)
    requires Lists(current, users) && AllLoaded(users, now)
    ensures AnyNamed(current, name) <==> exists k <- users :: k.0 == name
    ensures AnyAt(current, name, namespace) <==> (name, namespace) in users
    ensures AnyServiceAccount(current, name) <==> ServiceAccountsNamed(users, name) != {}
  {
    hide Normalised;
    forall k <- users ensures exists i :: 0 <= i < |current| && current[i] == users[k] && current[i].name == k.0 {
      assert Names(current, k);
    }
    if AnyAt(current, name, namespace) {
      var i :| 0 <= i < |current| && current[i].name == name && current[i].namespace == Some(namespace);
      assert KeyOf(current[i]) == (name, namespace);
    }
    if (name, namespace) in users {
      assert users[(name, namespace)].namespace == Some(namespace);
    }
    if ServiceAccountsNamed(users, name) != {} {
      var k :| k in ServiceAccountsNamed(users, name);
      assert Names(current, k);
    }
    if AnyServiceAccount(current, name) {
      var i :| 0 <= i < |current| && current[i].name == name && current[i].kind == SERVICE_ACCOUNT;
      assert KeyOf(current[i]) in ServiceAccountsNamed(users, name);
    }
  }

  /** Everything but the entry of this name, kind and namespace; `None` stands for any namespace. */
  function AllBut(name: string, kind: string, namespace: Option<string>): Entry -> bool {
    (u: Entry) => !(u.name == name && u.kind == kind && namespace.GetOr(KeyOf(u).1) == KeyOf(u).1)
  }

  lemma OneRemoved(users: map<Key, Entry>, k: Key, namespace: Option<string>, now: int)
    requires AllLoaded(users, now) && k in users
    requires match namespace
             case Some(ns) => ns == k.1
             case None => forall other <- users | other.0 == k.0 && users[other].kind == users[k].kind :: other == k
    ensures Filtered(users, AllBut(k.0, users[k].kind, namespace)) == users - {k}
  {
    hide Normalised;
    assert KeyOf(users[k]) == k;
    var kept := Filtered(users, AllBut(k.0, users[k].kind, namespace));
    forall other <- users ensures other in kept <==> other != k { assert KeyOf(users[other]) == other; }
  }

  // ── The services ──────────────────────────────────────────────────────────────────────

  datatype UserError = Taken | Missing | NoSuchServiceAccount

  /** The entry `ServiceAccountService.delete_user` picks: the one in the given namespace, else
      the only one of that name. */
  predicate Picks(users: map<Key, Entry>, name: string, namespace: string, picked: Key) {
    && picked in ServiceAccountsNamed(users, name)
    && (picked == (name, namespace) || ServiceAccountsNamed(users, name) == {picked})
  }

  class UserAdmin {
    const registry: RegistryTable
    var serviceAccounts: set<Key>           // Kubernetes ServiceAccounts
    var tokenSecrets: set<Key>              // their token Secrets, by ServiceAccount
    var requests: set<string>               // CertificateSigningRequests
    var links: map<string, Option<Key>>     // login account -> linked managed user

    constructor (registry: RegistryTable)
      requires registry.rows == map[]
      ensures this.registry == registry && Valid() && NoneDangling()
    {
      this.registry := registry;
      serviceAccounts, tokenSecrets, requests, links := {}, {}, {}, map[];
    }

    function Users(): map<Key, Entry>
      reads this, registry
    {
      registry.Users()
    }

    /** Certificate users live in namespace "default": so there is at most one per name. */
    ghost predicate Valid()
      reads this, registry
    {
      forall k <- Users() | Users()[k].kind == CERTIFICATE :: k.1 == "default"
    }

    predicate NoneDangling()
      reads this, registry
    {
      forall account <- links | links[account].Some? :: links[account].value in Users()
    }

    method AppendRecord(record: Entry, taken: seq<Entry> -> bool, ghost duplicate: bool, now: int)
        returns (error: Option<UserError>)
      requires Valid() && (record.kind == CERTIFICATE ==> KeyOf(record).1 == "default")
      requires forall current | Lists(current, Users()) :: taken(current) == duplicate
      modifies registry
      ensures Valid()
      ensures error == if duplicate then Some(Taken) else None
      ensures Users() == if duplicate then old(Users()) else old(Users())[KeyOf(record) := Normalised(record, now)]
    {
      hide Lists, AllLoaded, NormalisedAll, Loaded;
      ghost var users := Users();
      var current, result := registry.UpdateRegistry(current => Append(current, taken(current), record), now);
      if result.Err? {
        return Some(Taken);
      }
      AppendSets(current, users, record, now);
      return None;
    }

    /** `create_user` and `import_user` of certificate users differ in the record only: `csrName`
        and `expiry` for a signed certificate, the imported flag for a registered one. */
    method AddCertificateUser(username: string, groups: seq<string>, csrName: Option<string>, expiry: Option<int>,
                              now: int)
      returns (error: Option<UserError>)
      requires Valid()
      modifies this`requests, registry
      ensures Valid() && (old(NoneDangling()) ==> NoneDangling())
      ensures error.Some? <==> exists k <- old(Users()) :: k.0 == username
      ensures error.Some? ==> error == Some(Taken) && Users() == old(Users()) && requests == old(requests)
      ensures error.None? ==>
                && (username, "default") !in old(Users())
                && requests == old(requests) + (if csrName.Some? then {csrName.value} else {})
                && var record := NewCertificate(username, groups, now, csrName, expiry,
                                                if csrName.None? then Some(true) else None);
                   Users() == old(Users())[(username, "default") := Normalised(record, now)]
      ensures error.None? ==>
                && (username, "default") in Users() && Users() - {(username, "default")} == old(Users())
                && var u := Users()[(username, "default")];
                && u.name == username && u.namespace == Some("default") && u.kind == "certificate"
                && u.groups == Some(GroupCodec.Decode(GroupCodec.Encode(groups))) && u.createdAt == Some(now)
                && u.csrName == (if csrName == Some("") then None else csrName) && u.certExpiry == expiry
                && u.imported == if csrName.None? then Some(true) else None
    {
      NormalisedByFields(NewCertificate(username, groups, now, csrName, expiry,
                                        if csrName.None? then Some(true) else None), now);
      hide Normalised, Lists, Loaded, AnyNamed;
      var record := NewCertificate(username, groups, now, csrName, expiry, if csrName.None? then Some(true) else None);
      ghost var users := Users();
      LoadedTable(registry.rows, now);
      forall current | Lists(current, users) ensures AnyNamed(current, username)
          <==> exists k <- users :: k.0 == username {
        ListedNames(current, users, username, "default", now);
      }
      ghost var duplicate := exists k <- users :: k.0 == username;
      error := AppendRecord(record, current => AnyNamed(current, username), duplicate, now);
      if error.None? {
        requests := requests + SetOf(csrName);
      }
    }

    method DeleteCertificateUser(username: string, now: int) returns (error: Option<UserError>)
      requires Valid()
      modifies this`requests, registry
      ensures Valid()
      ensures error.Some? <==> !((username, "default") in old(Users())
                                 && old(Users())[(username, "default")].kind == CERTIFICATE)
      ensures error.Some? ==> Users() == old(Users()) && requests == old(requests)
      ensures error.None? ==>
                && Users() == old(Users()) - {(username, "default")}
                && var csrName := old(Users())[(username, "default")].csrName;
                requests == old(requests) - if csrName.Some? then {csrName.value} else {}
    {
      hide Lists, AllLoaded, NormalisedAll, Loaded, KeyOf, Filtered, AllBut, Keep, LastWins;
      ghost var users := Users();
      var key := (username, "default");
      if !(key in Users() && Users()[key].kind == CERTIFICATE) {
        return Some(Missing);
      }
      requests := requests - SetOf(Users()[key].csrName);
      var keep := AllBut(username, CERTIFICATE, None);
      var current, _ := registry.UpdateRegistry(current => Ok(Keep(current, keep)), now);
      KeepFilters(current, users, keep, now);
      OneRemoved(users, key, None, now);
      return None;
    }

    method CreateServiceAccount(name: string, namespace: string, now: int) returns (error: Option<UserError>)
      requires Valid()
      modifies this`serviceAccounts, this`tokenSecrets, registry
      ensures Valid() && (old(NoneDangling()) ==> NoneDangling())
      ensures error.Some? <==> (name, namespace) in old(Users())
      ensures error.Some? ==>
                && error == Some(Taken) && Users() == old(Users())
                && serviceAccounts == old(serviceAccounts) && tokenSecrets == old(tokenSecrets)
      ensures error.None? ==>
                && serviceAccounts == old(serviceAccounts) + {(name, namespace)}
                && tokenSecrets == old(tokenSecrets) + {(name, namespace)}
                && var record := NewServiceAccount(name, namespace, now, None);
                   Users() == old(Users())[(name, namespace) := Normalised(record, now)]
      ensures error.None? ==>
                && (name, namespace) in Users() && Users() - {(name, namespace)} == old(Users())
                && Users()[(name, namespace)] == Entry(name, Some(namespace), "service_account", Some([]), Some(now),
                                                       None, None, None)
    {
      NormalisedByFields(NewServiceAccount(name, namespace, now, None), now);
      hide Normalised, Lists;
      LoadedTable(registry.rows, now);
      ghost var users := Users();
      if (name, namespace) in Users() {
        return Some(Taken);
      }
      serviceAccounts := serviceAccounts + {(name, namespace)};
      tokenSecrets := tokenSecrets + {(name, namespace)};
      forall current | Lists(current, users) ensures AnyAt(current, name, namespace) <==> (name, namespace) in users {
        ListedNames(current, users, name, namespace, now);
      }
      error := AppendRecord(NewServiceAccount(name, namespace, now, None), current => AnyAt(current, name, namespace),
                            false, now);
    }

    /** The duplicate check looks at ServiceAccounts of that name only: an entry of another kind
        under the same key, a certificate user of namespace "default", is overwritten. */
    method ImportServiceAccount(name: string, namespace: string, now: int) returns (error: Option<UserError>)
      requires Valid()
      modifies registry
      ensures Valid() && (old(NoneDangling()) ==> NoneDangling())
      ensures error.None? <==>
                && (name, namespace) in serviceAccounts
                && forall k <- old(Users()) :: !(k.0 == name && old(Users())[k].kind == "service_account")
      ensures error.Some? ==>
                && Users() == old(Users())
                && error == Some(if (name, namespace) in serviceAccounts then Taken else NoSuchServiceAccount)
      ensures error.None? ==>
                var record := NewServiceAccount(name, namespace, now, Some(true));
                Users() == old(Users())[(name, namespace) := Normalised(record, now)]
      ensures error.None? ==>
                Users() == old(Users())[(name, namespace) :=
                  Entry(name, Some(namespace), "service_account", Some([]), Some(now), None, None, Some(true))]
    {
      NormalisedByFields(NewServiceAccount(name, namespace, now, Some(true)), now);
      NoneNamed(Users(), name);
      hide Normalised, Lists, AllLoaded, ServiceAccountsNamed;
      if (name, namespace) !in serviceAccounts {
        return Some(NoSuchServiceAccount);
      }
      LoadedTable(registry.rows, now);
      ghost var users := Users();
      forall current | Lists(current, users)
        ensures AnyServiceAccount(current, name) <==> ServiceAccountsNamed(users, name) != {}
      {
        ListedNames(current, users, name, namespace, now);
      }
      ghost var duplicate := ServiceAccountsNamed(users, name) != {};
      error := AppendRecord(NewServiceAccount(name, namespace, now, Some(true)),
                            current => AnyServiceAccount(current, name), duplicate, now);
    }

    method DeleteServiceAccount(name: string, namespace: string, now: int) returns (picked: Option<Key>)
      requires Valid()
      modifies this`serviceAccounts, this`tokenSecrets, registry
      ensures Valid()
      ensures picked.Some? <==> exists k :: Picks(old(Users()), name, namespace, k)
      ensures picked.Some? ==>
                && Picks(old(Users()), name, namespace, picked.value) && Users() == old(Users()) - {picked.value}
                && serviceAccounts == old(serviceAccounts) - {picked.value}
                   && tokenSecrets == old(tokenSecrets) - {picked.value}
      ensures picked.None? ==>
                Users() == old(Users()) && serviceAccounts == old(serviceAccounts) && tokenSecrets == old(tokenSecrets)
    {
      hide Lists, AllLoaded, NormalisedAll, Loaded, KeyOf, Filtered, AllBut, Keep, LastWins;
      ghost var users := Users();
      var matches := ServiceAccountsNamed(Users(), name);
      if matches == {} {
        return None;
      }
      var key := (name, namespace);
      if key !in matches {
        var only :| only in matches;
        if matches != {only} {
          return None;
        }
        key := only;
      }
      serviceAccounts := serviceAccounts - {key};
      tokenSecrets := tokenSecrets - {key};
      var keep := AllBut(name, SERVICE_ACCOUNT, Some(key.1));
      var current, _ := registry.UpdateRegistry(current => Ok(Keep(current, keep)), now);
      KeepFilters(current, users, keep, now);
      OneRemoved(users, key, Some(key.1), now);
      assert Picks(users, name, namespace, key);
      return Some(key);
    }

    method SetLink(account: string, target: Key) returns (ok: bool)
      modifies this`links
      ensures ok <==> account in old(links) && target in Users()
      ensures links == if ok then old(links)[account := Some(target)] else old(links)
      ensures old(NoneDangling()) ==> NoneDangling()
    {
      ok := account in links && target in Users();
      if ok {
        links := links[account := Some(target)];
      }
    }

    /** Afterwards no account is linked to `target`: those that were have no link, every other link
        is as it was. Once `target` is deleted this leaves no link dangling that did not dangle. */
    method ClearLinksTo(target: Key)
      modifies this`links
      ensures LinksCleared(old(links), target, links)
      ensures old(NoneDangling()) ==> NoneDangling()
      ensures (forall a <- old(links) | old(links)[a].Some? ::
                 old(links)[a].value == target || old(links)[a].value in Users())
              ==> NoneDangling()
    {
      links := map a | a in links :: if links[a] == Some(target) then None else links[a];
    }

    /** The `DELETE /users` route. Links to the deleted user are cleared for the namespace the
        caller named, which for a ServiceAccount need not be the one it was found in: a link is
        left dangling exactly when the fallback picked another namespace and some account is
        linked to the entry it picked. */
    method DeleteUser(name: string, kind: string, namespace: string, now: int) returns (ok: bool)
      requires Valid() && NoneDangling()
      modifies this, registry
      ensures Valid()
      ensures !ok ==>
                && Users() == old(Users()) && links == old(links) && NoneDangling() && requests == old(requests)
                && serviceAccounts == old(serviceAccounts) && tokenSecrets == old(tokenSecrets)
      ensures ok <==> if kind == CERTIFICATE
                      then (name, "default") in old(Users()) && old(Users())[(name, "default")].kind == CERTIFICATE
                      else exists k :: Picks(old(Users()), name, namespace, k)
      ensures ok ==> LinksCleared(old(links), (name, if kind == CERTIFICATE then "default" else namespace), links)
      ensures ok && kind == CERTIFICATE ==>
                && Users() == old(Users()) - {(name, "default")} && NoneDangling()
                && serviceAccounts == old(serviceAccounts) && tokenSecrets == old(tokenSecrets)
      ensures ok && kind != CERTIFICATE ==>
                requests == old(requests) &&
                exists picked :: Picks(old(Users()), name, namespace, picked) && Users() == old(Users()) - {picked}
                                 && serviceAccounts == old(serviceAccounts) - {picked}
                                 && tokenSecrets == old(tokenSecrets) - {picked}
                                 && (NoneDangling() <==>
                                       picked == (name, namespace)
                                       || forall a <- old(links) :: old(links)[a] != Some(picked))
    {
      hide Picks, ServiceAccountsNamed, LinksCleared, SetOf, Loaded;
      if kind == CERTIFICATE {
        var error := DeleteCertificateUser(name, now);
        if error.Some? {
          return false;
        }
        ClearLinksTo((name, "default"));
      } else {
        var picked := DeleteServiceAccount(name, namespace, now);
        if picked.None? {
          return false;
        }
        ghost var links0 := links;
        ClearLinksTo((name, namespace));
        DanglingAfter(links0, old(Users()), picked.value, (name, namespace), links, Users());
      }
      return true;
    }
  }

  /** `links'` is `links` with every link to `target`, and no other, taken away. */
  predicate LinksCleared(links: map<string, Option<Key>>, target: Key, links': map<string, Option<Key>>) {
    && links'.Keys == links.Keys
    && (forall a <- links' :: links'[a] != Some(target))
    && (forall a <- links | links[a] == Some(target) :: links'[a] == None)
    && (forall a <- links | links[a] != Some(target) :: links'[a] == links[a])
  }

  lemma NoneNamed(users: map<Key, Entry>, name: string)
    ensures ServiceAccountsNamed(users, name) == {}
            <==> forall k <- users :: !(k.0 == name && users[k].kind == "service_account")
  {
    if ServiceAccountsNamed(users, name) == {} {
      forall k <- users ensures !(k.0 == name && users[k].kind == "service_account") {
        assert k !in ServiceAccountsNamed(users, name);
      }
    }
  }

  /** What is picked, and when nothing is, by the fields of the entries. */
  lemma PickedByFields(users: map<Key, Entry>, name: string, namespace: string)
    ensures forall k | Picks(users, name, namespace, k) ::
              && k in users && k.0 == name && users[k].kind == "service_account"
              && (k.1 == namespace
                  || forall other <- users | other.0 == name && users[other].kind == "service_account" :: other == k)
    ensures (forall k :: !Picks(users, name, namespace, k)) ==>
              forall k <- users | k.0 == name && users[k].kind == "service_account" ::
                k.1 != namespace
                && exists other <- users :: other.0 == name && users[other].kind == "service_account" && other != k
  {
    var matches := ServiceAccountsNamed(users, name);
    forall k | Picks(users, name, namespace, k)
      ensures k.1 == namespace
              || forall other <- users | other.0 == name && users[other].kind == "service_account" :: other == k
    {
      forall other <- users | other.0 == name && users[other].kind == "service_account"
        ensures k.1 == namespace || other == k
      {
        assert other in matches;
      }
    }
    if forall k :: !Picks(users, name, namespace, k) {
      forall k <- users | k.0 == name && users[k].kind == "service_account"
        ensures k.1 != namespace
        ensures exists other <- users :: other.0 == name && users[other].kind == "service_account" && other != k
      {
        assert !Picks(users, name, namespace, k) && k in matches;
        AnotherOne(matches, k, k);
      }
    }
  }

  lemma AnotherOne(keys: set<Key>, k: Key, only: Key)
    requires k in keys && only in keys && keys != {only}
    ensures exists other :: other in keys && other != k
  {
    if k == only {
      assert keys - {only} != {};
      var other :| other in keys - {only};
    }
  }

  function SetOf(name: Option<string>): set<string> {
    if name.Some? then {name.value} else {}
  }

  lemma DanglingAfter(links: map<string, Option<Key>>, users: map<Key, Entry>, picked: Key, cleared: Key,
                      links': map<string, Option<Key>>, users': map<Key, Entry>)
    requires forall a <- links | links[a].Some? :: links[a].value in users
    requires users' == users - {picked}
    requires LinksCleared(links, cleared, links')
    ensures (forall a <- links' | links'[a].Some? :: links'[a].value in users')
            <==> picked == cleared || forall a <- links :: links[a] != Some(picked)
  {
    if picked != cleared && exists a <- links :: links[a] == Some(picked) {
      var a :| a in links && links[a] == Some(picked);
      assert links'[a] == Some(picked);
    }
  }
}
