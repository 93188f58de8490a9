/** The configuration of the Vault integration, its normal form, and when it is in effect. */
module VaultConfig {
  import opened Common

  datatype Config = Config(addr: string, token: string, mount: string, basePath: string, namespace: string,
                           tlsSkipVerify: bool)

  /** The only row of `vault_config`. */
  datatype Row = Enabled(cfg: Config) | Disabled

  /** A service object; `id` tells instances apart. */
  datatype Service = Service(id: nat, cfg: Config)

  function RStrip(s: string): string {
    if s != "" && s[|s| - 1] == '/' then RStrip(s[..|s| - 1]) else s
  }

  function LStrip(s: string): string {
    if s != "" && s[0] == '/' then LStrip(s[1..]) else s
  }

  /** What is left is a prefix of the string that does not end in a slash; only slashes are gone. */
  lemma {:induction false} RStripped(s: string)
    ensures RStrip(s) <= s && (RStrip(s) == "" || RStrip(s)[|RStrip(s)| - 1] != '/')
    ensures forall i | |RStrip(s)| <= i < |s| :: s[i] == '/'
  {
    if s != "" && s[|s| - 1] == '/' {
      RStripped(s[..|s| - 1]);
    }
  }

  /** And a suffix that does not begin with one. */
  lemma {:induction false} LStripped(s: string)
    ensures |LStrip(s)| <= |s| && LStrip(s) == s[|s| - |LStrip(s)|..]
    ensures LStrip(s) == "" || LStrip(s)[0] != '/'
    ensures forall i | 0 <= i < |s| - |LStrip(s)| :: s[i] == '/'
  {
    if s != "" && s[0] == '/' {
      var rest, t := s[1..], LStrip(s[1..]);
      LStripped(rest);
      assert LStrip(s) == t;
      hide LStrip;
      assert s[|s| - |t|..] == rest[|rest| - |t|..];
      forall i | 0 <= i < |s| - |t| ensures s[i] == '/' {
        if i > 0 { assert rest[i - 1] == '/'; }
      }
    }
  }

  function Strip(s: string): string {
    LStrip(RStrip(s))
  }

  /** What the constructor of the service keeps. */
  function Normal(cfg: Config): Config {
    cfg.(addr := RStrip(cfg.addr), mount := Strip(cfg.mount), basePath := Strip(cfg.basePath))
  }

  lemma NothingToStrip(s: string)
    ensures s == "" || s[|s| - 1] != '/' ==> RStrip(s) == s
    ensures s == "" || s[0] != '/' ==> LStrip(s) == s
  {
  }

  lemma StripTwice(s: string)
    ensures Strip(Strip(s)) == Strip(s)
  {
    hide RStrip, LStrip;
    var r := RStrip(s);
    var t := LStrip(r);
    RStripped(s);
    LStripped(r);
    if t != "" {
      assert t[|t| - 1] == r[|r| - 1];
    }
    NothingToStrip(t);
  }

  lemma NormalTwice(cfg: Config)
    ensures Normal(Normal(cfg)) == Normal(cfg)
  {
    hide RStrip, Strip;
    RStripped(cfg.addr);
    NothingToStrip(RStrip(cfg.addr));
    StripTwice(cfg.mount);
    StripTwice(cfg.basePath);
  }

  /** The config a service is built from, if there is enough of one. */
  function Usable(cfg: Option<Config>): Option<Config> {
    if cfg.None? || Normal(cfg.value).addr == "" || cfg.value.token == "" then None else Some(Normal(cfg.value))
  }

  /** `t` is `s` from position `from` on, without the slashes around it. */
  predicate Trims(s: string, from: nat, t: string) {
    && from + |t| <= |s| && t == s[from..from + |t|]
    && (forall i | 0 <= i < from :: s[i] == '/') && (forall i | from + |t| <= i < |s| :: s[i] == '/')
    && (t != "" ==> t[0] != '/' && t[|t| - 1] != '/')
  }

  lemma StripTrims(s: string) returns (from: nat)
    ensures Trims(s, from, Strip(s))
  {
    hide RStrip, LStrip;
    RStripped(s);
    LStripped(RStrip(s));
    from := |RStrip(s)| - |Strip(s)|;
    assert forall i | 0 <= i < |RStrip(s)| :: s[i] == RStrip(s)[i];
  }

  /** Field by field: the address loses the slashes at its end, the two paths those around them, and
      nothing else changes. */
  lemma NormalByFields(cfg: Config) returns (mountAt: nat, baseAt: nat)
    ensures var n := Normal(cfg);
            && n.token == cfg.token && n.namespace == cfg.namespace && n.tlsSkipVerify == cfg.tlsSkipVerify
            && n.addr <= cfg.addr && (n.addr != "" ==> n.addr[|n.addr| - 1] != '/')
            && (forall i | |n.addr| <= i < |cfg.addr| :: cfg.addr[i] == '/')
            && Trims(cfg.mount, mountAt, n.mount) && Trims(cfg.basePath, baseAt, n.basePath)
  {
    hide RStrip, Strip;
    RStripped(cfg.addr);
    mountAt := StripTrims(cfg.mount);
    baseAt := StripTrims(cfg.basePath);
  }

  /** A config will do exactly if it has a token and an address of more than slashes. */
  lemma UsableIff(cfg: Config)
    ensures Usable(Some(cfg)) == if cfg.token != "" && exists i :: 0 <= i < |cfg.addr| && cfg.addr[i] != '/'
                                 then Some(Normal(cfg)) else None
    ensures Usable(None) == None
  {
    hide RStrip, Strip;
    RStripped(cfg.addr);
    if RStrip(cfg.addr) != "" {
      assert cfg.addr[|RStrip(cfg.addr)| - 1] != '/';
    }
  }

  /** The shared truth: the row if there is one, the environment only if none was ever written. */
  function Effective(row: Option<Row>, env: Option<Config>): Option<Config> {
    match row
    case None => Usable(env)
    case Some(Disabled) => None
    case Some(Enabled(cfg)) => Usable(Some(cfg))
  }

  /** `_apply_config`: an instance with the wanted config stays. */
  function Applied(svc: Option<Service>, wanted: Option<Config>, id: nat): (applied: Option<Service>)
    ensures ConfigOf(applied) == wanted
  {
    if wanted.None? then None
    else if svc.Some? && svc.value.cfg == wanted.value then svc
    else Some(Service(id, wanted.value))
  }

  function ConfigOf(svc: Option<Service>): Option<Config> {
    if svc.None? then None else Some(svc.value.cfg)
  }

  /** Applying what is already applied keeps the instance, whether the config is given again as it
      was or in its normal form. */
  lemma SameConfigKeepsInstance(svc: Option<Service>, cfg: Config, id: nat, id': nat)
    ensures var once := Applied(svc, Usable(Some(cfg)), id);
            && Applied(once, Usable(Some(cfg)), id') == once
            && Applied(once, Usable(Some(Normal(cfg))), id') == once
  {
    NormalTwice(cfg);
  }
}
