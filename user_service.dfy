/** The user service: creating a user with a fresh secret path, the share
    link of a stored user, and regenerating the configuration files before
    restarting the tunnel daemon. The random source, the UUID generator and
    the clock are arguments, and so is the outcome of the restart script. */
module UserService {
  import opened Py
  import ConfigService
  import Db
  import UrlEncoding

  /** What the restart script did: it exited with a status and its standard
      error, or it ran past the 30-second limit. */
  datatype RestartOutcome = Exited(returnCode: int, stderr: string) | TimedOut

  /** The `message` of a reload, one variant per f-string the code formats. */
  datatype ReloadMessage =
    | Restarted(users: nat)
    | RestartFailed(stderr: string)
    | RestartTimedOut
    | ReloadFailed(error: Exception)

  /** The dictionary `reload_configs` returns. */
  datatype ReloadResult = ReloadResult(success: bool, message: ReloadMessage, userCount: nat)

  /** The arguments of a `sync_all_configs` call: it writes the daemon's
      configuration generated for the users, the secret path and the port,
      and the Caddyfile generated for the domain, the path and the port. */
  datatype SyncCall = SyncCall(domain: string, users: seq<Db.UserRow>, secretPath: string, port: int)

  /** `int(get_setting('v2ray_port') or 10000)`: an absent or empty setting
      falls back to 10000; anything `int()` refuses raises ValueError. */
  function PortSetting(setting: Option<string>): (r: Result<int, Exception>)
    ensures setting.None? || setting == Some("") ==> r == Ok(10000)
    ensures setting.Some? && setting.value != "" ==>
              (r.Ok? <==> ParseInt(setting.value).Some?)
    ensures r.Err? ==> r.error == ValueError
  {
    if setting.None? || setting.value == "" then Ok(10000)
    else if ParseInt(setting.value).None? then Err(ValueError)
    else Ok(ParseInt(setting.value).value)
  }

  /** A port stored as its decimal text is read back unchanged. */
  lemma PortSettingRoundTrip(port: int)
    ensures PortSetting(Some(Decimal(port))) == Ok(port)
  {
    IntOfStr(port);
  }

  /** The registry rows as the dictionaries handed to the generator. */
  function Records(rows: seq<Db.UserRow>): (rs: seq<ConfigService.Record>)
    ensures |rs| == |rows|
    ensures forall i :: 0 <= i < |rows| ==> rs[i] == Db.AsRecord(rows[i])
  {
    seq(|rows|, i requires 0 <= i < |rows| => Db.AsRecord(rows[i]))
  }

  /** Rows whose `enabled` is 1 all pass the generator's `enabled` filter. */
  lemma {:induction false} EnabledRecords(rows: seq<Db.UserRow>)
    requires forall i :: 0 <= i < |rows| ==> rows[i].enabled == Int(1)
    ensures ConfigService.Enabled(Records(rows)) == Records(rows)
  {
    if rows != [] {
      assert Records(rows)[1..] == Records(rows[1..]);
      EnabledRecords(rows[1..]);
    }
  }

  /** Every row as a dictionary carries the keys a client entry needs. */
  lemma RecordsHaveClientKeys(rows: seq<Db.UserRow>)
    ensures forall u :: u in ConfigService.Enabled(Records(rows)) ==> ConfigService.HasClientKeys(u)
  {
    forall u | u in ConfigService.Enabled(Records(rows))
      ensures ConfigService.HasClientKeys(u)
    {
      var k :| 0 <= k < |Records(rows)| && Records(rows)[k] == u;
      assert u == Db.AsRecord(rows[k]);
    }
  }

  /** The daemon's configuration for rows that are all enabled has one
      client per row, in row order, made of the row's uuid, level and email. */
  lemma ConfigOfRows(rows: seq<Db.UserRow>, secretPath: string, port: int)
    requires forall i :: 0 <= i < |rows| ==> rows[i].enabled == Int(1)
    ensures ConfigService.GenerateV2RayConfig(Records(rows), secretPath, port).Ok?
    ensures var ib := ConfigService.GenerateV2RayConfig(Records(rows), secretPath, port).value.inbounds[0];
      |ib.clients| == |rows|
      && forall i :: 0 <= i < |rows| ==>
           ib.clients[i] == ConfigService.Client(Text(rows[i].uuid), rows[i].level, rows[i].email)
  {
    EnabledRecords(rows);
    RecordsHaveClientKeys(rows);
    var ib := ConfigService.GenerateV2RayConfig(Records(rows), secretPath, port).value.inbounds[0];
    forall i | 0 <= i < |rows|
      ensures ib.clients[i] == ConfigService.Client(Text(rows[i].uuid), rows[i].level, rows[i].email)
    {
      assert ConfigService.Enabled(Records(rows))[i] == Db.AsRecord(rows[i]);
    }
  }

  class UserService {
    const db: Db.Database

    constructor(db: Db.Database)
      ensures this.db == db
    {
      this.db := db;
    }

    /** `create_user(email, notes)`: draws a 32-character secret path and
        hands it to the registry with a generated uuid and level 0; the
        registry's row, or its refusal, is the result. */
    method CreateUser(email: string, notes: string, draw: nat -> ConfigService.AlphabetIndex,
                      generatedUuid: string, now: int, auditOk: bool)
      returns (r: Result<Db.UserRow, Exception>)
      requires db.Valid()
      modifies db
      ensures db.Valid()
      ensures var secretPath := ConfigService.GenerateSecretPath(32, draw);
        var row := Db.UserRow(old(db.lastUserId) + 1, generatedUuid, Text(email), Text(secretPath),
                              Int(0), db.defaults.enabled, Text(notes), now);
        if Db.ClashesWithAny(row, old(db.users)) then
          r == Err(ValueError) && db.users == old(db.users) && db.lastUserId == old(db.lastUserId)
          && db.audit == old(db.audit)
        else
          r == Ok(row) && db.users == old(db.users) + [row] && db.lastUserId == old(db.lastUserId) + 1
          && db.audit == old(db.audit) + (if auditOk then
               [Db.AuditEntry("create_user", "user:" + Decimal(row.id),
                              Db.Message("Created user " + email + " with UUID " + generatedUuid
                                         + ", path: /" + secretPath), now)] else [])
      ensures r.Ok? ==> r.value.secretPath.Text? && |r.value.secretPath.s| == 32
      ensures r.Ok? ==> forall i :: 0 <= i < |r.value.secretPath.s| ==>
                          ConfigService.IsAsciiAlnum(r.value.secretPath.s[i])
      ensures r.Ok? ==> db.GetUserByUuid(r.value.uuid) == Some(r.value)
      ensures db.devices == old(db.devices) && db.lastDeviceId == old(db.lastDeviceId)
      ensures db.settings == old(db.settings)
    {
      var secretPath := ConfigService.GenerateSecretPath(32, draw);
      r := db.CreateUser(email, secretPath, None, 0, notes, generatedUuid, now, auditOk);
    }

    /** `get_user_vless_link(user_uuid, domain)`: nothing for an unknown
        uuid or an empty secret path; otherwise the user's own link. The
        path is formatted with `str()`; `quote` accepts only a string email
        and raises TypeError for any other stored value. */
    function GetUserVlessLink(userUuid: string, domain: string): (r: Result<Option<string>, Exception>)
      reads db
      ensures r == Ok(None) <==>
                db.GetUserByUuid(userUuid).None? || !Truthy(db.GetUserByUuid(userUuid).value.secretPath)
      ensures r.Err? <==>
                db.GetUserByUuid(userUuid).Some? && Truthy(db.GetUserByUuid(userUuid).value.secretPath)
                && !db.GetUserByUuid(userUuid).value.email.Text?
      ensures r.Err? ==> r.error == TypeError
    {
      var user := db.GetUserByUuid(userUuid);
      if user.None? || !Truthy(user.value.secretPath) then Ok(None)
      else if !user.value.email.Text? then Err(TypeError)
      else Ok(Some(ConfigService.VlessLink(user.value.uuid, domain, Str(user.value.secretPath),
                                           user.value.email.s)))
    }

    /** The link of the i-th stored user is made from that same row: a
        client reading it back finds the row's uuid, the row's secret path
        in the query and the row's email as the remark. */
    lemma VlessLinkOfUser(i: nat, domain: string)
      requires db.Valid() && i < |db.users|
      requires Truthy(db.users[i].secretPath) && db.users[i].email.Text?
      requires '@' !in db.users[i].uuid && '?' !in domain
      ensures GetUserVlessLink(db.users[i].uuid, domain).Ok?
      ensures var link := GetUserVlessLink(db.users[i].uuid, domain).value;
        link.Some? && ConfigService.ParseVlessLink(link.value)
          == Some(ConfigService.VlessParts(db.users[i].uuid, domain + ":443",
               UrlEncoding.Utf8Pairs(ConfigService.LinkParams(domain, Str(db.users[i].secretPath))),
               UrlEncoding.Utf8(db.users[i].email.s)))
    {
      var row := db.users[i];
      StoredUserLink(i, domain);
      ConfigService.VlessLinkRoundTrip(row.uuid, domain, Str(row.secretPath), row.email.s);
    }

    /** The link of the i-th stored user is the share link of that row. */
    lemma StoredUserLink(i: nat, domain: string)
      requires db.Valid() && i < |db.users|
      requires Truthy(db.users[i].secretPath) && db.users[i].email.Text?
      ensures GetUserVlessLink(db.users[i].uuid, domain)
                == Ok(Some(ConfigService.VlessLink(db.users[i].uuid, domain, Str(db.users[i].secretPath),
                                                   db.users[i].email.s)))
    {
      Db.LookupUnique(db.users, db.lastUserId, Db.UuidColumn, i);
    }

    /** The `sync_all_configs` call a reload makes with a secret path: the
        enabled users and the port setting, or the exception reading the
        setting raised. */
    function SyncCallOf(domain: string, secretPath: string): (r: Result<SyncCall, Exception>)
      reads db
      ensures r.Ok? <==> PortSetting(db.GetSetting("v2ray_port")).Ok?
      ensures r.Err? ==> r.error == ValueError
      ensures r.Ok? ==> r.value.domain == domain && r.value.secretPath == secretPath
                        && r.value.users == db.GetAllUsers(true)
                        && r.value.port == PortSetting(db.GetSetting("v2ray_port")).value
    {
      var users := db.GetAllUsers(true);
      var port := PortSetting(db.GetSetting("v2ray_port"));
      if port.Err? then Err(port.error) else Ok(SyncCall(domain, users, secretPath, port.value))
    }

    /** The daemon's configuration a reload writes admits exactly the
        enabled users, in creation order, each by its own uuid, level and
        email, on the WebSocket path of the given secret and the configured
        port. */
    lemma SyncedClients(domain: string, secretPath: string)
      requires SyncCallOf(domain, secretPath).Ok?
      ensures var call := SyncCallOf(domain, secretPath).value;
        var rows := db.GetAllUsers(true);
        var cfg := ConfigService.GenerateV2RayConfig(Records(call.users), call.secretPath, call.port);
        cfg.Ok? && |cfg.value.inbounds| == 1
        && cfg.value.inbounds[0].port == PortSetting(db.GetSetting("v2ray_port")).value
        && cfg.value.inbounds[0].wsPath == "/" + secretPath
        && |cfg.value.inbounds[0].clients| == |rows|
        && forall i :: 0 <= i < |rows| ==>
             cfg.value.inbounds[0].clients[i] == ConfigService.Client(Text(rows[i].uuid), rows[i].level, rows[i].email)
             && rows[i] in db.users && rows[i].enabled == Int(1)
    {
      var rows := db.GetAllUsers(true);
      forall i | 0 <= i < |rows| ensures rows[i].enabled == Int(1) && rows[i] in db.users {
        assert rows[i] in rows;
      }
      ConfigOfRows(rows, secretPath, PortSetting(db.GetSetting("v2ray_port")).value);
    }

    /** `reload_configs(domain)` with the secret path supplied: the files
        are regenerated, the restart script runs, and its exit status
        decides success. A malformed port setting is caught and reported
        with no user count; a restart that fails or times out still reports
        how many users were read. Nothing raises. */
    function ReloadConfigs(domain: string, secretPath: string, restart: RestartOutcome): (r: ReloadResult)
      reads db
      ensures r.success <==> PortSetting(db.GetSetting("v2ray_port")).Ok?
                             && restart.Exited? && restart.returnCode == 0
      ensures PortSetting(db.GetSetting("v2ray_port")).Err? ==>
                r == ReloadResult(false, ReloadFailed(ValueError), 0)
      ensures PortSetting(db.GetSetting("v2ray_port")).Ok? ==>
                r.userCount == |db.GetAllUsers(true)|
                && (restart.TimedOut? ==> r.message == RestartTimedOut)
                && (restart.Exited? && restart.returnCode != 0 ==> r.message == RestartFailed(restart.stderr))
                && (r.success ==> r.message == Restarted(r.userCount))
    {
      var users := db.GetAllUsers(true);
      var synced := SyncCallOf(domain, secretPath);
      if synced.Err? then ReloadResult(false, ReloadFailed(synced.error), 0)
      else if restart.TimedOut? then ReloadResult(false, RestartTimedOut, |users|)
      else if restart.returnCode == 0 then ReloadResult(true, Restarted(|users|), |users|)
      else ReloadResult(false, RestartFailed(restart.stderr), |users|)
    }

    /** `reload_configs(domain)` as written: the call to `sync_all_configs`
        leaves out its required `secret_path`, so after the registry read
        and the port conversion the call raises TypeError, the generic
        handler catches it, and the restart script never runs. */
    function ReloadConfigsAsWritten(domain: string): (r: ReloadResult)
      reads db
      ensures !r.success && r.userCount == 0
      ensures r.message == ReloadFailed(
                if PortSetting(db.GetSetting("v2ray_port")).Err? then ValueError else TypeError)
    {
      var users := db.GetAllUsers(true);
      var port := PortSetting(db.GetSetting("v2ray_port"));
      if port.Err? then ReloadResult(false, ReloadFailed(port.error), 0)
      else ReloadResult(false, ReloadFailed(TypeError), 0)
    }

    /** With a readable port setting and a restart that exits 0, the reload
        as written still reports failure and no users, where the corrected
        reload reports success and the number of enabled users. */
    lemma ReloadAsWrittenNeverSucceeds(domain: string, secretPath: string, stderr: string)
      requires PortSetting(db.GetSetting("v2ray_port")).Ok?
      ensures ReloadConfigs(domain, secretPath, Exited(0, stderr))
                == ReloadResult(true, Restarted(|db.GetAllUsers(true)|), |db.GetAllUsers(true)|)
      ensures ReloadConfigsAsWritten(domain) == ReloadResult(false, ReloadFailed(TypeError), 0)
    {
    }
  }
}
