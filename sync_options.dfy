/**
 * Sync settings: a stored option can be overridden by the `Sync` section of
 * the config file, and the sync server host additionally by the
 * `TRILIUM_SYNC_SERVER_HOST` environment variable. The config section, the
 * environment variable and the option store are parameters.
 */
module SyncOptions {
  import opened Common

  const SYNC_SERVER_HOST := "syncServerHost"
  const SYNC_SERVER_TIMEOUT := "syncServerTimeout"
  const SYNC_PROXY := "syncProxy"
  const DISABLED := "disabled"
  const DEFAULT_SYNC_TIMEOUT := 120000

  /** `config['Sync'][name]`: nothing when the section or the key is absent. */
  function ConfigValue(syncSection: Option<map<string, string>>, name: string): Option<string>
  {
    if syncSection.Some? && name in syncSection.value then Some(syncSection.value[name]) else None
  }

  /**
   * `get(name)`: a non-empty value in the config `Sync` section wins over
   * the stored option, which is consulted only when there is none.
   */
  function Get(syncSection: Option<map<string, string>>, getOption: string -> string, name: string): (r: string)
    ensures Truthy(ConfigValue(syncSection, name)) ==> r == syncSection.value[name]
    ensures !Truthy(ConfigValue(syncSection, name)) ==> r == getOption(name)
    ensures r == "" ==> getOption(name) == ""
  {
    var configured := ConfigValue(syncSection, name);
    if Truthy(configured) then configured.value else getOption(name)
  }

  /** `getSyncServerHost`: a non-empty environment variable wins over `get('syncServerHost')`. */
  function GetSyncServerHost(envHost: Option<string>, syncSection: Option<map<string, string>>,
                             getOption: string -> string): (r: string)
    ensures Truthy(envHost) ==> r == envHost.value
    ensures !Truthy(envHost) ==> r == Get(syncSection, getOption, SYNC_SERVER_HOST)
  {
    if Truthy(envHost) then envHost.value else Get(syncSection, getOption, SYNC_SERVER_HOST)
  }

  /** `isSyncSetup`: the configured host is neither empty nor the literal `disabled`. */
  function IsSyncSetup(syncSection: Option<map<string, string>>, getOption: string -> string): (r: bool)
    ensures r <==> Get(syncSection, getOption, SYNC_SERVER_HOST) !in {"", DISABLED}
  {
    var syncServerHost := Get(syncSection, getOption, SYNC_SERVER_HOST);
    syncServerHost != "" && syncServerHost != DISABLED
  }

  /** `getSyncTimeout`: the parsed integer, or 120000 when parsing gives NaN or 0. */
  function GetSyncTimeout(syncSection: Option<map<string, string>>, getOption: string -> string): (r: int)
    ensures r != 0
    ensures var parsed := ParseInt(Get(syncSection, getOption, SYNC_SERVER_TIMEOUT));
            (parsed.Some? && parsed.value != 0 ==> r == parsed.value)
            && (parsed.None? || parsed.value == 0 ==> r == DEFAULT_SYNC_TIMEOUT)
  {
    match ParseInt(Get(syncSection, getOption, SYNC_SERVER_TIMEOUT))
    case Some(timeout) => if timeout != 0 then timeout else DEFAULT_SYNC_TIMEOUT
    case None => DEFAULT_SYNC_TIMEOUT
  }

  /** `getSyncProxy`: `get('syncProxy')`. */
  function GetSyncProxy(syncSection: Option<map<string, string>>, getOption: string -> string): (r: string)
    ensures Truthy(ConfigValue(syncSection, SYNC_PROXY)) ==> r == syncSection.value[SYNC_PROXY]
    ensures !Truthy(ConfigValue(syncSection, SYNC_PROXY)) ==> r == getOption(SYNC_PROXY)
  {
    Get(syncSection, getOption, SYNC_PROXY)
  }

  /**
   * The point of the `disabled` value: a config file saying `disabled`
   * turns sync off whatever host the document has stored.
   */
  lemma DisabledOverridesStoredHost(syncSection: map<string, string>, getOption: string -> string)
    requires SYNC_SERVER_HOST in syncSection && syncSection[SYNC_SERVER_HOST] == DISABLED
    ensures !IsSyncSetup(Some(syncSection), getOption)
    ensures GetSyncServerHost(None, Some(syncSection), getOption) == DISABLED
  {
  }

  /**
   * Without any override, sync is set up exactly when the stored host is
   * neither empty nor `disabled`.
   */
  lemma StoredHostDecides(syncSection: Option<map<string, string>>, getOption: string -> string)
    requires !Truthy(ConfigValue(syncSection, SYNC_SERVER_HOST))
    ensures IsSyncSetup(syncSection, getOption) <==> getOption(SYNC_SERVER_HOST) != "" && getOption(SYNC_SERVER_HOST) != DISABLED
  {
  }

  /**
   * `isSyncSetup` does not look at `TRILIUM_SYNC_SERVER_HOST`: with no
   * stored or configured host, the environment variable alone gives a
   * host but sync still counts as not set up.
   */
  lemma EnvironmentHostDoesNotSetUpSync(envHost: string, syncSection: Option<map<string, string>>, getOption: string -> string)
    requires envHost != ""
    requires !Truthy(ConfigValue(syncSection, SYNC_SERVER_HOST)) && getOption(SYNC_SERVER_HOST) == ""
    ensures GetSyncServerHost(Some(envHost), syncSection, getOption) == envHost
    ensures !IsSyncSetup(syncSection, getOption)
  {
  }

  /** A timeout written in decimal, other than 0, is used as it is. */
  lemma DecimalTimeoutUsed(syncSection: Option<map<string, string>>, getOption: string -> string, timeout: nat)
    requires timeout != 0 && Get(syncSection, getOption, SYNC_SERVER_TIMEOUT) == NatToString(timeout)
    ensures GetSyncTimeout(syncSection, getOption) == timeout
  {
    ParseIntOfNatToString(timeout);
  }
}
