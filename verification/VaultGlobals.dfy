/** The Vault integration of one worker as it stands between calls. */
module VaultGlobals {
  import opened Common
  import opened VaultConfig
  import opened VaultSync

  /** The shared `vault_config` table. */
  class VaultTable {
    var row: Option<Row>

    constructor ()
      ensures row == None
    {
      row := None;
    }

    /** Creates the row if need be and overwrites it; it is never deleted. */
    method WriteConfigRow(wanted: Row)
      modifies this
      ensures row == Some(wanted)
    {
      row := Some(wanted);
    }
  }

  class VaultWorker {
    const table: VaultTable
    const env: Option<Config>
    var svc: Option<Service>
    var lastSync: int
    var nextId: nat                    // stands for object identity

    constructor (table: VaultTable, env: Option<Config>)
      ensures this.table == table && this.env == env && svc == None && lastSync == 0 && Valid()
    {
      this.table, this.env := table, env;
      svc, lastSync, nextId := None, 0, 0;
    }

    /** So an instance built later is never taken for one that was there before. */
    predicate Valid()
      reads this
    {
      svc.Some? ==> svc.value.id < nextId
    }

    /** This worker between calls, as one of many; `asOf` is when what is in force was read or written. */
    function AsWorker(asOf: Option<int>): Worker
      reads this
    {
      Worker(svc, lastSync, Free, asOf)
    }

    method ApplyConfig(cfg: Option<Config>)
      requires Valid()
      modifies this`svc, this`nextId
      ensures Valid() && nextId >= old(nextId)
      ensures svc == Applied(old(svc), Usable(cfg), old(nextId)) && ConfigOf(svc) == Usable(cfg)
      ensures ConfigOf(old(svc)) == Usable(cfg) ==> svc == old(svc)
      ensures svc.Some? && svc != old(svc) ==> svc.value.id == old(nextId) < nextId
    {
      hide RStrip, Strip;
      if cfg.None? {
        svc := None;
        return;
      }
      var candidate := Service(nextId, Normal(cfg.value));
      if candidate.cfg.addr == "" || candidate.cfg.token == "" {
        svc := None;
        return;
      }
      if svc.None? || svc.value.cfg != candidate.cfg {
        svc := Some(candidate);
        nextId := nextId + 1;
      }
    }

    /** `readable`: the database answers. */
    method Sync(force: bool, now: int, readable: bool)
      requires Valid()
      modifies this`svc, this`nextId, this`lastSync
      ensures Valid() && nextId >= old(nextId)
      ensures !force && now - old(lastSync) < 30 ==> svc == old(svc) && lastSync == old(lastSync)
      ensures force || now - old(lastSync) >= 30 ==>
                && lastSync == now
                && (!readable && old(svc).Some? ==> svc == old(svc))
                && (!readable && old(svc).None? ==> ConfigOf(svc) == Usable(env))
                && (readable ==>
                      ConfigOf(svc) == match table.row
                                       case None => Usable(env)
                                       case Some(Disabled) => None
                                       case Some(Enabled(cfg)) => Usable(Some(cfg)))
                && (readable ==> svc == Applied(old(svc), Effective(table.row, env), old(nextId)))
                && (!readable ==> svc == if old(svc).None? then Applied(None, Usable(env), old(nextId)) else old(svc))
                && (readable ==> AsWorker(Some(now)) == Synced(old(AsWorker(None)), table.row, env, now, old(nextId)))
                && (!readable ==> AsWorker(None) == SyncFailed(old(AsWorker(None)), env, now, old(nextId)))
      ensures ConfigOf(svc) == ConfigOf(old(svc)) ==> svc == old(svc)
    {
      if !force && now - lastSync < SYNC_INTERVAL {
        return;
      }
      lastSync := now;
      if !readable {
        if svc.None? {
          ApplyConfig(env);
        }
        return;
      }
      match table.row
      case None => ApplyConfig(env);
      case Some(Disabled) => ApplyConfig(None);
      case Some(Enabled(cfg)) => ApplyConfig(Some(cfg));
    }

    method GetVaultService(now: int, readable: bool) returns (result: Option<Service>)
      requires Valid()
      modifies this`svc, this`nextId, this`lastSync
      ensures Valid() && result == svc && (ConfigOf(svc) == ConfigOf(old(svc)) ==> svc == old(svc))
      ensures now - old(lastSync) >= 30 && readable ==>
                && ConfigOf(result) == Effective(table.row, env)
                && ConfigOf(result) == match table.row
                                       case None => Usable(env)
                                       case Some(Disabled) => None
                                       case Some(Enabled(cfg)) => Usable(Some(cfg))
      ensures now - old(lastSync) < 30 ==> result == old(svc)
      ensures now - lastSync < 30
    {
      Sync(false, now, readable);
      result := svc;
    }

    /** Afterwards the row, and what this worker has in force, are the config given. */
    method ConfigureVault(cfg: Config, stamp: int) returns (result: Option<Service>)
      requires Valid()
      modifies this`svc, this`nextId, this`lastSync, table
      ensures Valid() && table.row == Some(Row.Enabled(cfg)) && lastSync == stamp
      ensures result == svc == Applied(old(svc), Effective(table.row, env), old(nextId))
      ensures ConfigOf(result) == Usable(Some(cfg))
      ensures forall at :: AsWorker(Some(at)) == Changed(old(AsWorker(None)), Row.Enabled(cfg), env, at, stamp,
                                                         old(nextId))
    {
      hide RStrip, Strip;
      table.WriteConfigRow(Row.Enabled(cfg));
      ApplyConfig(Some(cfg));
      lastSync := stamp;
      result := svc;
    }

    method DisableVault(stamp: int)
      requires Valid()
      modifies this`svc, this`lastSync, table
      ensures Valid() && table.row == Some(Disabled) && lastSync == stamp
      ensures svc == None && Effective(table.row, env) == None
      ensures forall at, id :: AsWorker(Some(at)) == Changed(old(AsWorker(None)), Disabled, env, at, stamp, id)
    {
      table.WriteConfigRow(Disabled);
      svc := None;
      lastSync := stamp;
    }
  }
}
