/** The cluster service of one worker as an object: the registry operations and the client cache. */
module ClusterService {
  import opened Common
  import opened DiffWrite
  import opened ClusterCache

  datatype ClusterError = Reserved | AlreadyExists | NotFound | InvalidCaData | Unreachable

  /** `registered_clusters`, shared by all workers. */
  class ClusterTable {
    var rows: map<string, Config>

    constructor ()
      ensures rows == map[]
    {
      rows := map[];
    }

    /** Replaces the table by `mutate` of its present contents, writing only the differences. */
    method Update(mutate: map<string, Config> -> Result<map<string, Config>, ClusterError>)
      returns (error: Option<ClusterError>)
      modifies this
      ensures match mutate(old(rows))
              case Ok(wanted) => error.None? && rows == wanted
              case Err(e) => error == Some(e) && rows == old(rows)
    {
      var before := rows;
      var result := mutate(before);
      if result.Err? {
        return Some(result.error);
      }
      rows := ApplyDiff(before, result.value, rows, (cfg: Config) => cfg);
      return None;
    }
  }

  class Service {
    const table: ClusterTable
    var clients: map<string, Client>
    var clientCfgs: map<string, Config>
    var caFiles: map<string, nat>
    var lastReload: int
    var disk: set<nat>

    constructor (table: ClusterTable)
      ensures this.table == table && Valid() && Now() == Cache(map[], map[], map[], 0, {})
    {
      this.table := table;
      clients, clientCfgs, caFiles, lastReload, disk := map[], map[], map[], 0, {};
    }

    function Now(): Cache
      reads this
    {
      Cache(clients, clientCfgs, caFiles, lastReload, disk)
    }

    /** Between calls: no file on disk but those of the cached clients, each of which has its own. */
    ghost predicate Valid()
      reads this
    {
      Conserved(Now()) && Coherent(Now()) && caFiles.Keys == clients.Keys
    }

    method DropClient(name: string)
      modifies this
      ensures Now() == Drop(old(Now()), name)
      ensures clients == old(clients) - {name} && clientCfgs == old(clientCfgs) - {name}
      ensures caFiles == old(caFiles) - {name} && lastReload == old(lastReload)
      ensures disk == old(disk) - if name in old(caFiles) then {old(caFiles)[name]} else {}
      ensures old(Valid()) ==> Valid()
    {
      ghost var was := Now();
      clients := clients - {name};
      clientCfgs := clientCfgs - {name};
      if name in caFiles {
        disk := disk - {caFiles[name]};
        caFiles := caFiles - {name};
      }
      assert was.caFiles - {name} == caFiles;
      if Conserved(was) { DropConserves(was, name); }
    }

    /** `file` is the name the operating system gives out for the new temporary file. */
    method BuildClient(name: string, cfg: Config, file: nat) returns (result: Result<Client, ClusterError>)
      requires file !in disk
      modifies this`caFiles, this`disk
      ensures cfg.caData.Malformed? ==> result == Err(InvalidCaData) && Now() == old(Now())
      ensures cfg.caData.Base64? ==>
                && result == Ok(Client(cfg, file)) && Now() == Build(old(Now()), name, file)
                && caFiles == old(caFiles)[name := file] && disk == old(disk) + {file}
    {
      if cfg.caData.Malformed? {
        return Err(InvalidCaData);
      }
      disk := disk + {file};
      caFiles := caFiles[name := file];
      return Ok(Client(cfg, file));
    }

    /** `now` is the clock at the first test and `stamp` after the table has been read. */
    method GetApiClient(name: string, now: int, stamp: int, file: nat) returns (result: Result<Client, ClusterError>)
      requires Valid() && file !in disk
      modifies this
      ensures Valid()
      ensures Trusted(old(Now()), name, now) <==> name in old(clients) && now - old(lastReload) < 30
      ensures Trusted(old(Now()), name, now) ==> Now() == old(Now()) && result == Ok(clients[name])
      ensures !Trusted(old(Now()), name, now) ==>
                && Now() == Settle(old(Now()).(lastReload := stamp), name, Get(table.rows, name), file)
                && lastReload == stamp && clients - {name} == old(clients) - {name}
                && clientCfgs - {name} == old(clientCfgs) - {name} && caFiles - {name} == old(caFiles) - {name}
                && var kept := name in table.rows && name in old(clients) && old(clientCfgs)[name] == table.rows[name];
                if name !in table.rows then result == Err(NotFound) && name !in clients
                else if kept then result == Ok(old(clients)[name]) && Get(clients, name) == Some(old(clients)[name])
                else if table.rows[name].caData.Malformed? then result == Err(InvalidCaData) && name !in clients
                else result == Ok(Client(table.rows[name], file)) && Get(clients, name) == Some(result.value)
      ensures result.Ok? ==> name in clients && result.value == clients[name]
    {
      if name in clients && now - lastReload < RELOAD_INTERVAL {
        return Ok(clients[name]);
      }
      SettleConserves(Now().(lastReload := stamp), name, Get(table.rows, name), file);
      assert clientCfgs.Keys == clients.Keys && (name in clients ==> clients[name].cfg == clientCfgs[name]);
      SettleSparesOthers(Now().(lastReload := stamp), name, Get(table.rows, name), file);
      hide Conserved, Coherent;
      lastReload := stamp;
      if name !in table.rows {
        DropClient(name);
        return Err(NotFound);
      }
      var wanted := table.rows[name];
      if name in clients {
        if clientCfgs[name] == wanted {
          return Ok(clients[name]);
        }
        DropClient(name);
      }
      result := BuildClient(name, wanted, file);
      if result.Ok? {
        clients := clients[name := result.value];
        clientCfgs := clientCfgs[name := wanted];
      }
    }

    /** Leaves the cache as it was, unless a client is cached under the probe's own key: then that
        client's file is left behind and the one it needs is gone. */
    method VerifyConnectivity(name: string, cfg: Config, reachable: bool, file: nat)
        returns (error: Option<ClusterError>)
      requires Valid() && file !in disk
      modifies this`caFiles, this`disk
      ensures error == if cfg.caData.Malformed? then Some(InvalidCaData) else if reachable then None
              else Some(Unreachable)
      ensures Valid() <==> ProbeKey(name) !in clients || cfg.caData.Malformed?
      ensures ProbeKey(name) !in clients || cfg.caData.Malformed? ==> Now() == old(Now())
      ensures cfg.caData.Base64? ==>
                && Now() == EndOfProbe(Build(old(Now()), ProbeKey(name), file), name)
                && caFiles == old(caFiles) - {"__verify__" + name} && disk == old(disk)
    {
      var key := ProbeKey(name);
      ghost var was := Now();
      var built := BuildClient(key, cfg, file);
      if built.Err? {
        return Some(InvalidCaData);
      }
      disk := disk - {caFiles[key]};
      caFiles := caFiles - {key};
      if key !in was.caFiles {
        assert caFiles == was.caFiles && disk == was.disk;
      }
      return if reachable then None else Some(Unreachable);
    }

    method AddCluster(name: string, cfg: Config, reachable: bool, file: nat) returns (error: Option<ClusterError>)
      requires Valid() && file !in disk
      modifies this, table
      ensures ProbeKey(name) !in old(clients) ==> Valid() && Now() == old(Now())
      ensures error == if name == "local" then Some(Reserved)
                       else if cfg.caData.Malformed? then Some(InvalidCaData)
                       else if !reachable then Some(Unreachable)
                       else if name in old(table.rows) then Some(AlreadyExists) else None
      ensures table.rows == if error.None? then old(table.rows)[name := cfg] else old(table.rows)
    {
      if name == "local" {
        return Some(Reserved);
      }
      error := VerifyConnectivity(name, cfg, reachable, file);
      if error.None? {
        error := table.Update((configs: map<string, Config>) => if name in configs then Err(AlreadyExists)
                              else Ok(configs[name := cfg]));
      }
    }

    /** Afterwards neither the table nor the cache knows the name, and its file is gone. */
    method RemoveCluster(name: string) returns (error: Option<ClusterError>)
      requires Valid()
      modifies this, table
      ensures Valid()
      ensures error == if name in old(table.rows) then None else Some(NotFound)
      ensures error.Some? ==> table.rows == old(table.rows) && Now() == old(Now())
      ensures error.None? ==>
                && table.rows == old(table.rows) - {name} && Now() == Drop(old(Now()), name)
                && clients == old(clients) - {name} && clientCfgs == old(clientCfgs) - {name}
                && caFiles == old(caFiles) - {name} && lastReload == old(lastReload)
                && disk == old(disk) - if name in old(caFiles) then {old(caFiles)[name]} else {}
    {
      error := table.Update((configs: map<string, Config>) => if name in configs then Ok(configs - {name})
                            else Err(NotFound));
      if error.None? {
        DropClient(name);
      }
    }
  }
}
