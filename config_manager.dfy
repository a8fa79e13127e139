/** The operator's configuration manager: reads the `.env` file with
    environment overrides, lists the clients of a tunnel configuration,
    builds their share links, rewrites the WebSocket path of a configuration
    and validates the pair. The file system is replaced by its contents:
    the `.env` lines (absent when the file is missing) and the outcome of
    loading `config.json` (a document, or the exception loading raised). */
module ConfigManager {
  import opened Py
  import opened Json
  import opened UrlEncoding
  import ConfigService

  // --------------------------------------------------------------- load_env

  /** The key and value one `.env` line contributes: the stripped line,
      unless empty or a `#` comment, split at its first `=`, both halves
      stripped. */
  function EnvEntry(line: string): (r: Option<(string, string)>)
    ensures r.None? <==> var t := Strip(line); t == [] || t[0] == '#' || '=' !in t
  {
    var t := Strip(line);
    if t == [] || t[0] == '#' then None
    else match IndexOf(t, '=')
      case None => None
      case Some(i) => Some((Strip(t[..i]), Strip(t[i + 1..])))
  }

  /** A line that yields an entry is cut at its first `=`. */
  lemma EnvEntrySplit(line: string)
    requires EnvEntry(line).Some?
    ensures var t := Strip(line);
      exists i :: 0 <= i < |t| && t[i] == '=' && '=' !in t[..i]
                  && EnvEntry(line).value == (Strip(t[..i]), Strip(t[i + 1..]))
  {
    var t := Strip(line);
    var i := IndexOf(t, '=').value;
    assert t[i] == '=' && '=' !in t[..i];
  }

  /** The entries in file order; a later entry overwrites an earlier one. */
  function EnvOf(entries: seq<Option<(string, string)>>): map<string, string> {
    if entries == [] then map[]
    else
      var m := EnvOf(entries[..|entries| - 1]);
      var e := entries[|entries| - 1];
      if e.Some? then m[e.value.0 := e.value.1] else m
  }

  /** What each line of the file contributes. */
  function Entries(lines: seq<string>): (r: seq<Option<(string, string)>>)
    ensures |r| == |lines| && forall i :: 0 <= i < |lines| ==> r[i] == EnvEntry(lines[i])
  {
    seq(|lines|, i requires 0 <= i < |lines| => EnvEntry(lines[i]))
  }

  /** The variables the `.env` file defines. */
  function EnvFromLines(lines: seq<string>): map<string, string> {
    EnvOf(Entries(lines))
  }

  /** The only variables the process environment may override. */
  function OverriddenKeys(): seq<string> { ["DOMAIN", "SECRET_PATH"] }

  function Overrides(m: map<string, string>, environ: map<string, string>, keys: seq<string>)
    : map<string, string>
  {
    if keys == [] then m
    else
      var m' := Overrides(m, environ, keys[..|keys| - 1]);
      var k := keys[|keys| - 1];
      if k in environ then m'[k := environ[k]] else m'
  }

  /** `dict.setdefault` for both required keys. */
  function WithDefaults(m: map<string, string>): map<string, string> {
    var m1 := if "DOMAIN" in m then m else m["DOMAIN" := "your-domain.com"];
    if "SECRET_PATH" in m1 then m1 else m1["SECRET_PATH" := "avalon-secret-path"]
  }

  /** What `load_env` returns for a `.env` file (None: no file) and a
      process environment. */
  function Env(envFile: Option<seq<string>>, environ: map<string, string>): (r: map<string, string>)
    ensures "DOMAIN" in r && "SECRET_PATH" in r
  {
    WithDefaults(Overrides(EnvFromLines(if envFile.Some? then envFile.value else []), environ, OverriddenKeys()))
  }

  /** The parsing loop of `load_env` over the lines of `.env`. */
  method ReadEnvLines(lines: seq<string>) returns (env: map<string, string>)
    ensures env == EnvFromLines(lines)
  {
    ghost var entries := Entries(lines);
    env := map[];
    var i := 0;
    while i < |lines|
      invariant 0 <= i <= |lines|
      invariant env == EnvOf(entries[..i])
    {
      var entry := EnvEntry(lines[i]);
      EnvOfStep(entries, i);
      if entry.Some? {
        env := env[entry.value.0 := entry.value.1];
      }
      i := i + 1;
    }
    assert entries[..i] == entries;
  }

  /** One more entry: it sets its variable, or changes nothing. */
  lemma EnvOfStep(entries: seq<Option<(string, string)>>, i: nat)
    requires i < |entries|
    ensures var e := entries[i];
      EnvOf(entries[..i + 1]) == if e.Some? then EnvOf(entries[..i])[e.value.0 := e.value.1] else EnvOf(entries[..i])
  {
    assert entries[..i + 1][..i] == entries[..i];
  }

  /** `load_env`. */
  method LoadEnv(envFile: Option<seq<string>>, environ: map<string, string>) returns (env: map<string, string>)
    ensures env == Env(envFile, environ)
  {
    env := map[];
    if envFile.Some? {
      env := ReadEnvLines(envFile.value);
    }
    var keys := OverriddenKeys();
    var base := env;
    var k := 0;
    while k < |keys|
      invariant 0 <= k <= |keys|
      invariant env == Overrides(base, environ, keys[..k])
    {
      assert keys[..k + 1][..k] == keys[..k];
      if keys[k] in environ {
        env := env[keys[k] := environ[keys[k]]];
      }
      k := k + 1;
    }
    assert keys[..k] == keys;
    if "DOMAIN" !in env {
      env := env["DOMAIN" := "your-domain.com"];
    }
    if "SECRET_PATH" !in env {
      env := env["SECRET_PATH" := "avalon-secret-path"];
    }
  }

  /** The entry defines variable `k`. */
  predicate Defines(entry: Option<(string, string)>, k: string) {
    entry.Some? && entry.value.0 == k
  }

  /** A variable is in the file's entries exactly when some line defines it. */
  lemma {:induction false} EnvDefined(entries: seq<Option<(string, string)>>, k: string)
    ensures k in EnvOf(entries) <==> exists i :: 0 <= i < |entries| && Defines(entries[i], k)
  {
    if entries != [] {
      var n := |entries| - 1;
      var init := entries[..n];
      EnvDefined(init, k);
      assert forall i :: 0 <= i < n ==> init[i] == entries[i];
      if Defines(entries[n], k) {
        assert k in EnvOf(entries);
      } else if k in EnvOf(entries) {
        var i :| 0 <= i < n && Defines(init[i], k);
        assert Defines(entries[i], k);
      }
    }
  }

  /** The value of a variable is the one given by the last entry defining it. */
  lemma {:induction false} EnvLastDefinitionWins(entries: seq<Option<(string, string)>>, i: nat, k: string)
    requires i < |entries| && Defines(entries[i], k)
    requires forall j :: i < j < |entries| ==> !Defines(entries[j], k)
    ensures k in EnvOf(entries) && EnvOf(entries)[k] == entries[i].value.1
  {
    var n := |entries| - 1;
    if i < n {
      var init := entries[..n];
      assert forall j :: 0 <= j < n ==> init[j] == entries[j];
      EnvLastDefinitionWins(init, i, k);
      assert !Defines(entries[n], k);
    }
  }

  /** In terms of the file: a variable is defined exactly when some line
      defines it. */
  lemma EnvFileDefined(lines: seq<string>, k: string)
    ensures k in EnvFromLines(lines) <==> exists i :: 0 <= i < |lines| && Defines(EnvEntry(lines[i]), k)
  {
    var entries := Entries(lines);
    EnvDefined(entries, k);
    assert forall i :: 0 <= i < |lines| ==> entries[i] == EnvEntry(lines[i]);
  }

  /** In terms of the file: the value of a variable is the one the last
      line defining it gives. */
  lemma EnvFileLastWins(lines: seq<string>, i: nat, k: string)
    requires i < |lines| && Defines(EnvEntry(lines[i]), k)
    requires forall j :: i < j < |lines| ==> !Defines(EnvEntry(lines[j]), k)
    ensures k in EnvFromLines(lines) && EnvFromLines(lines)[k] == EnvEntry(lines[i]).value.1
  {
    EnvLastDefinitionWins(Entries(lines), i, k);
  }

  /** The environment decides DOMAIN and SECRET_PATH when it sets them; the
      file decides them otherwise, and the defaults apply when neither
      does. */
  lemma EnvRequiredKeys(envFile: Option<seq<string>>, environ: map<string, string>)
    ensures var file := EnvFromLines(if envFile.Some? then envFile.value else []);
      var r := Env(envFile, environ);
      r["DOMAIN"] == (if "DOMAIN" in environ then environ["DOMAIN"]
                      else if "DOMAIN" in file then file["DOMAIN"] else "your-domain.com")
      && r["SECRET_PATH"] == (if "SECRET_PATH" in environ then environ["SECRET_PATH"]
                              else if "SECRET_PATH" in file then file["SECRET_PATH"] else "avalon-secret-path")
  {
    OverridesOfKeys(EnvFromLines(if envFile.Some? then envFile.value else []), environ);
  }

  /** Every other variable comes from the file alone: the environment does
      not add, change or remove it. */
  lemma EnvOtherKeys(envFile: Option<seq<string>>, environ: map<string, string>, k: string)
    requires k != "DOMAIN" && k != "SECRET_PATH"
    ensures var file := EnvFromLines(if envFile.Some? then envFile.value else []);
      var r := Env(envFile, environ);
      (k in r <==> k in file) && (k in r ==> r[k] == file[k])
  {
    OverridesOfKeys(EnvFromLines(if envFile.Some? then envFile.value else []), environ);
  }

  lemma OverridesOfKeys(m: map<string, string>, environ: map<string, string>)
    ensures var m1 := if "DOMAIN" in environ then m["DOMAIN" := environ["DOMAIN"]] else m;
      Overrides(m, environ, OverriddenKeys())
        == if "SECRET_PATH" in environ then m1["SECRET_PATH" := environ["SECRET_PATH"]] else m1
  {
    var keys := OverriddenKeys();
    assert keys[..1] == ["DOMAIN"] && keys[..1][..0] == [];
    assert Overrides(m, environ, keys[..1][..0]) == m;
  }

  // -------------------------------------------------------------- get_users

  /** One row `get_users` lists: the client's id, email and level as the
      document holds them, and the inbound's protocol. */
  datatype UserEntry = UserEntry(uuid: Json, email: Json, level: Json, protocol: Json)

  /** `d.get(key, default)` on a dict. */
  function DictGet(m: map<string, Json>, key: string, default: Json): Json {
    if key in m then m[key] else default
  }

  /** The protocols whose clients are users. */
  predicate IsUserProtocol(p: Json) {
    p == JStr("vless") || p == JStr("vmess")
  }

  /** The entry for one element of `clients`; `client.get` needs a dict. */
  function ClientEntry(client: Json, protocol: Json): (r: Result<UserEntry, Exception>)
    ensures r.Ok? <==> client.JObj?
    ensures r.Err? ==> r.error == AttributeError
    ensures r.Ok? ==> r.value.protocol == protocol
  {
    match client
    case JObj(m) => Ok(UserEntry(DictGet(m, "id", JNull), DictGet(m, "email", JStr("user")),
                                 DictGet(m, "level", JInt(0)), protocol))
    case _ => Err(AttributeError)
  }

  /** The entries of a `clients` list, in order; the first element that is
      not a dict raises. */
  function ClientEntries(clients: seq<Json>, protocol: Json): (r: Result<seq<UserEntry>, Exception>)
    ensures r.Ok? <==> forall i :: 0 <= i < |clients| ==> clients[i].JObj?
    ensures r.Ok? ==> |r.value| == |clients|
                      && forall i :: 0 <= i < |clients| ==> Ok(r.value[i]) == ClientEntry(clients[i], protocol)
  {
    if clients == [] then Ok([])
    else
      var init := ClientEntries(clients[..|clients| - 1], protocol);
      var last := ClientEntry(clients[|clients| - 1], protocol);
      if init.Err? then init
      else if last.Err? then Err(last.error)
      else Ok(init.value + [last.value])
  }

  /** The entries one inbound contributes: its clients when its protocol is
      VLESS or VMess, nothing otherwise. */
  function InboundEntries(inbound: Json): Result<seq<UserEntry>, Exception> {
    match Get(inbound, "protocol", JNull)
    case Err(e) => Err(e)
    case Ok(p) =>
      if !IsUserProtocol(p) then Ok([])
      else
        match Get(DictGet(inbound.fields, "settings", JObj(map[])), "clients", JArr([]))
        case Err(e) => Err(e)
        case Ok(clients) =>
          match ElementsForGet(clients)
          case Err(e) => Err(e)
          case Ok(cs) => ClientEntries(cs, p)
  }

  /** The entries of the inbounds, in order; the first failure raises. */
  function InboundsEntries(inbounds: seq<Json>): Result<seq<UserEntry>, Exception> {
    if inbounds == [] then Ok([])
    else
      var init := InboundsEntries(inbounds[..|inbounds| - 1]);
      var last := InboundEntries(inbounds[|inbounds| - 1]);
      if init.Err? then init
      else if last.Err? then Err(last.error)
      else Ok(init.value + last.value)
  }

  /** What `get_users` returns or raises, given what loading `config.json`
      produced. */
  function UsersOf(loaded: Result<Json, Exception>): Result<seq<UserEntry>, Exception> {
    if loaded.Err? then Err(loaded.error)
    else
      match Get(loaded.value, "inbounds", JArr([]))
      case Err(e) => Err(e)
      case Ok(v) =>
        match ElementsForGet(v)
        case Err(e) => Err(e)
        case Ok(inbounds) => InboundsEntries(inbounds)
  }

  /** `get_users`. */
  method GetUsers(loaded: Result<Json, Exception>) returns (r: Result<seq<UserEntry>, Exception>)
    ensures r == UsersOf(loaded)
  {
    if loaded.Err? {
      return Err(loaded.error);
    }
    var config := loaded.value;
    var got := Get(config, "inbounds", JArr([]));
    if got.Err? {
      return Err(got.error);
    }
    var elements := ElementsForGet(got.value);
    if elements.Err? {
      return Err(elements.error);
    }
    var inbounds := elements.value;
    var users: seq<UserEntry> := [];
    var i := 0;
    while i < |inbounds|
      invariant 0 <= i <= |inbounds|
      invariant InboundsEntries(inbounds[..i]) == Ok(users)
    {
      assert inbounds[..i + 1][..i] == inbounds[..i];
      var inbound := inbounds[i];
      assert inbounds[..i + 1][i] == inbound;
      ghost var previous := users;
      var protocol := Get(inbound, "protocol", JNull);
      if protocol.Err? {
        InboundsErrorPersists(inbounds, i + 1);
        return Err(protocol.error);
      }
      var p := protocol.value;
      if IsUserProtocol(p) {
        var clientList := Get(DictGet(inbound.fields, "settings", JObj(map[])), "clients", JArr([]));
        if clientList.Err? {
          InboundsErrorPersists(inbounds, i + 1);
          return Err(clientList.error);
        }
        var clients := ElementsForGet(clientList.value);
        if clients.Err? {
          InboundsErrorPersists(inbounds, i + 1);
          return Err(clients.error);
        }
        var cs := clients.value;
        var entries := ReadClients(cs, p);
        assert InboundEntries(inbound) == entries;
        if entries.Err? {
          InboundsErrorPersists(inbounds, i + 1);
          return Err(entries.error);
        }
        users := users + entries.value;
      } else {
        assert InboundEntries(inbound) == Ok([]);
      }
      assert users == previous + InboundEntries(inbound).value;
      i := i + 1;
    }
    assert inbounds[..i] == inbounds;
    r := Ok(users);
  }

  /** The inner loop of `get_users` over the `clients` of one inbound. */
  method ReadClients(cs: seq<Json>, p: Json) returns (r: Result<seq<UserEntry>, Exception>)
    ensures r == ClientEntries(cs, p)
  {
    var users: seq<UserEntry> := [];
    var j := 0;
    while j < |cs|
      invariant 0 <= j <= |cs|
      invariant ClientEntries(cs[..j], p) == Ok(users)
    {
      var client := ClientEntry(cs[j], p);
      ClientsStep(cs, p, j);
      if client.Err? {
        ClientsErrorPersists(cs, p, j + 1);
        return Err(client.error);
      }
      users := users + [client.value];
      j := j + 1;
    }
    assert cs[..j] == cs;
    r := Ok(users);
  }

  /** One more client: its entry extends the list, or its failure raises. */
  lemma ClientsStep(cs: seq<Json>, p: Json, j: nat)
    requires j < |cs| && ClientEntries(cs[..j], p).Ok?
    ensures ClientEntry(cs[j], p).Err? ==> ClientEntries(cs[..j + 1], p) == Err(ClientEntry(cs[j], p).error)
    ensures ClientEntry(cs[j], p).Ok? ==>
              ClientEntries(cs[..j + 1], p) == Ok(ClientEntries(cs[..j], p).value + [ClientEntry(cs[j], p).value])
  {
    assert cs[..j + 1][..j] == cs[..j];
    assert cs[..j + 1][j] == cs[j];
  }

  /** Once a prefix of the clients raises, the whole list raises the same. */
  lemma {:induction false} ClientsErrorPersists(clients: seq<Json>, protocol: Json, i: nat)
    requires i <= |clients| && ClientEntries(clients[..i], protocol).Err?
    ensures ClientEntries(clients, protocol) == ClientEntries(clients[..i], protocol)
    decreases |clients| - i
  {
    if i < |clients| {
      assert clients[..i + 1][..i] == clients[..i];
      ClientsErrorPersists(clients, protocol, i + 1);
    } else {
      assert clients[..i] == clients;
    }
  }

  /** Once a prefix of the inbounds raises, the whole list raises the same. */
  lemma {:induction false} InboundsErrorPersists(inbounds: seq<Json>, i: nat)
    requires i <= |inbounds| && InboundsEntries(inbounds[..i]).Err?
    ensures InboundsEntries(inbounds) == InboundsEntries(inbounds[..i])
    decreases |inbounds| - i
  {
    if i < |inbounds| {
      assert inbounds[..i + 1][..i] == inbounds[..i];
      InboundsErrorPersists(inbounds, i + 1);
    } else {
      assert inbounds[..i] == inbounds;
    }
  }

  /** Every listed user comes from a VLESS or VMess inbound. */
  lemma {:induction false} EntriesHaveUserProtocol(inbounds: seq<Json>)
    ensures InboundsEntries(inbounds).Ok? ==>
              forall e :: e in InboundsEntries(inbounds).value ==> IsUserProtocol(e.protocol)
  {
    if inbounds != [] {
      EntriesHaveUserProtocol(inbounds[..|inbounds| - 1]);
    }
  }

  /** A rendered client list reads back as the clients it was made of. */
  lemma ClientsJsonEntries(cs: seq<ConfigService.Client>, protocol: Json)
    ensures var r := ClientEntries(ConfigService.ClientsJson(cs), protocol);
      r.Ok? && |r.value| == |cs|
      && forall i :: 0 <= i < |cs| ==>
           r.value[i] == UserEntry(FromValue(cs[i].id), FromValue(cs[i].email), FromValue(cs[i].level), protocol)
  {
    var js := ConfigService.ClientsJson(cs);
    forall i | 0 <= i < |cs|
      ensures ClientEntry(js[i], protocol)
              == Ok(UserEntry(FromValue(cs[i].id), FromValue(cs[i].email), FromValue(cs[i].level), protocol))
    {
      assert js[i] == ConfigService.ClientJson(cs[i]);
    }
  }

  /** A rendered VLESS inbound lists its clients. */
  lemma InboundJsonEntries(ib: ConfigService.Inbound)
    requires ib.protocol == "vless"
    ensures InboundEntries(ConfigService.InboundJson(ib))
              == ClientEntries(ConfigService.ClientsJson(ib.clients), JStr("vless"))
  {
  }

  lemma SingleInboundEntries(inbound: Json)
    ensures InboundsEntries([inbound]) == InboundEntries(inbound)
  {
    assert [inbound][..0] == [];
    var last := InboundEntries(inbound);
    assert last.Ok? ==> [] + last.value == last.value;
  }

  /** A rendered configuration with one VLESS inbound lists that inbound's
      clients. */
  lemma ConfigJsonEntries(cfg: ConfigService.V2RayConfig)
    requires |cfg.inbounds| == 1 && cfg.inbounds[0].protocol == "vless"
    ensures UsersOf(Ok(ConfigService.ToJson(cfg)))
              == ClientEntries(ConfigService.ClientsJson(cfg.inbounds[0].clients), JStr("vless"))
  {
    var ib := cfg.inbounds[0];
    var inbounds := ConfigService.InboundsJson(cfg.inbounds);
    assert inbounds == [ConfigService.InboundJson(ib)];
    InboundJsonEntries(ib);
    SingleInboundEntries(ConfigService.InboundJson(ib));
    var doc := ConfigService.ToJson(cfg);
    assert Get(doc, "inbounds", JArr([])) == Ok(JArr(inbounds));
  }

  /** The users read back from a configuration the service generated are
      its enabled users, in order, each under VLESS. */
  lemma GeneratedConfigUsers(users: seq<ConfigService.Record>, secretPath: string, port: int)
    requires ConfigService.GenerateV2RayConfig(users, secretPath, port).Ok?
    ensures var cfg := ConfigService.GenerateV2RayConfig(users, secretPath, port).value;
      var r := UsersOf(Ok(ConfigService.ToJson(cfg)));
      var en := ConfigService.Enabled(users);
      r.Ok? && |r.value| == |en|
      && forall i :: 0 <= i < |en| ==>
           r.value[i] == UserEntry(FromValue(en[i]["uuid"]), FromValue(en[i]["email"]),
                                   FromValue(ConfigService.LevelOf(en[i])), JStr("vless"))
  {
    var cfg := ConfigService.GenerateV2RayConfig(users, secretPath, port).value;
    var cs := cfg.inbounds[0].clients;
    ConfigJsonEntries(cfg);
    ClientsJsonEntries(cs, JStr("vless"));
    var en := ConfigService.Enabled(users);
    forall i | 0 <= i < |en|
      ensures cs[i] == ConfigService.Client(en[i]["uuid"], ConfigService.LevelOf(en[i]), en[i]["email"])
    {
    }
  }

  // ----------------------------------------------------- generate_all_links

  /** One entry `generate_all_links` returns. */
  datatype LinkEntry = LinkEntry(email: Json, uuid: Json, link: string)

  /** The id is a scalar and the email a string. */
  predicate Linkable(user: UserEntry) {
    !user.uuid.JArr? && !user.uuid.JObj? && user.email.JStr?
  }

  /** The share link of one listed user: the id formatted into the link,
      the email passed to `quote` as the remark, which needs a string. */
  function LinkOf(user: UserEntry, domain: string, secretPath: string): (r: Result<string, Exception>)
    ensures r.Ok? <==> Linkable(user)
    ensures r.Err? ==> r.error == TypeError
    ensures r.Ok? ==> r.value == ConfigService.VlessLink(ScalarStr(user.uuid).value, domain, secretPath, user.email.s)
  {
    var id := ScalarStr(user.uuid);
    if id.Some? && user.email.JStr? then Ok(ConfigService.VlessLink(id.value, domain, secretPath, user.email.s))
    else Err(TypeError)
  }

  /** The entries for the listed users, each link made by `link`, in
      order; the first failure raises. */
  function LinksWith(users: seq<UserEntry>, link: UserEntry -> Result<string, Exception>)
    : (r: Result<seq<LinkEntry>, Exception>)
    ensures r.Ok? <==> forall i :: 0 <= i < |users| ==> link(users[i]).Ok?
    ensures r.Ok? ==> |r.value| == |users| && forall i :: 0 <= i < |users| ==>
              r.value[i] == LinkEntry(users[i].email, users[i].uuid, link(users[i]).value)
  {
    if users == [] then Ok([])
    else
      var n := |users| - 1;
      var init := LinksWith(users[..n], link);
      var last := link(users[n]);
      assert forall i :: 0 <= i < n ==> users[..n][i] == users[i];
      if init.Err? then init
      else if last.Err? then Err(last.error)
      else Ok(init.value + [LinkEntry(users[n].email, users[n].uuid, last.value)])
  }

  /** The links of the listed users for a domain and path. */
  function LinksOf(users: seq<UserEntry>, domain: string, secretPath: string)
    : Result<seq<LinkEntry>, Exception>
  {
    LinksWith(users, u => LinkOf(u, domain, secretPath))
  }

  /** What `generate_all_links` returns or raises. */
  function AllLinks(envFile: Option<seq<string>>, environ: map<string, string>, loaded: Result<Json, Exception>)
    : Result<seq<LinkEntry>, Exception>
  {
    var env := Env(envFile, environ);
    var users := UsersOf(loaded);
    if users.Err? then Err(users.error)
    else LinksOf(users.value, env["DOMAIN"], env["SECRET_PATH"])
  }

  /** `generate_all_links`. */
  method GenerateAllLinks(envFile: Option<seq<string>>, environ: map<string, string>, loaded: Result<Json, Exception>)
    returns (r: Result<seq<LinkEntry>, Exception>)
    ensures r == AllLinks(envFile, environ, loaded)
  {
    var env := LoadEnv(envFile, environ);
    var got := GetUsers(loaded);
    if got.Err? {
      return Err(got.error);
    }
    r := BuildLinks(got.value, env["DOMAIN"], env["SECRET_PATH"]);
  }

  /** The loop of `generate_all_links` over the listed users. */
  method BuildLinks(users: seq<UserEntry>, domain: string, secretPath: string)
    returns (r: Result<seq<LinkEntry>, Exception>)
    ensures r == LinksOf(users, domain, secretPath)
  {
    var links: seq<LinkEntry> := [];
    var i := 0;
    ghost var linkOf := u => LinkOf(u, domain, secretPath);
    while i < |users|
      invariant 0 <= i <= |users|
      invariant LinksWith(users[..i], linkOf) == Ok(links)
    {
      var link := LinkOf(users[i], domain, secretPath);
      LinksStep(users, linkOf, i);
      if link.Err? {
        LinksErrorPersists(users, linkOf, i + 1);
        return Err(link.error);
      }
      links := links + [LinkEntry(users[i].email, users[i].uuid, link.value)];
      i := i + 1;
    }
    assert users[..i] == users;
    r := Ok(links);
  }

  /** One more user: its link extends the entries, or its failure becomes
      the error. */
  lemma LinksStep(users: seq<UserEntry>, link: UserEntry -> Result<string, Exception>, i: nat)
    requires i < |users| && LinksWith(users[..i], link).Ok?
    ensures link(users[i]).Err? ==> LinksWith(users[..i + 1], link) == Err(link(users[i]).error)
    ensures link(users[i]).Ok? ==>
              LinksWith(users[..i + 1], link) == Ok(LinksWith(users[..i], link).value
                + [LinkEntry(users[i].email, users[i].uuid, link(users[i]).value)])
  {
    assert users[..i + 1][..i] == users[..i];
    assert users[..i + 1][i] == users[i];
  }

  lemma {:induction false} LinksErrorPersists(users: seq<UserEntry>, link: UserEntry -> Result<string, Exception>, i: nat)
    requires i <= |users| && LinksWith(users[..i], link).Err?
    ensures LinksWith(users, link) == LinksWith(users[..i], link)
    decreases |users| - i
  {
    if i < |users| {
      assert users[..i + 1][..i] == users[..i];
      LinksErrorPersists(users, link, i + 1);
    } else {
      assert users[..i] == users;
    }
  }

  /** Every link reads back as its user's id, the configured domain on port
      443, the WebSocket path of the configured secret, and the user's email
      as the remark. */
  lemma AllLinksRoundTrip(envFile: Option<seq<string>>, environ: map<string, string>,
                          loaded: Result<Json, Exception>, i: nat)
    requires AllLinks(envFile, environ, loaded).Ok? && i < |AllLinks(envFile, environ, loaded).value|
    ensures var env := Env(envFile, environ);
      var users := UsersOf(loaded).value;
      var e := AllLinks(envFile, environ, loaded).value[i];
      var id := ScalarStr(users[i].uuid).value;
      i < |users| && e.uuid == users[i].uuid && e.email == users[i].email && e.email.JStr?
      && ('@' !in id && '?' !in env["DOMAIN"] ==>
            ConfigService.ParseVlessLink(e.link)
              == Some(ConfigService.VlessParts(id, env["DOMAIN"] + ":443",
                        Utf8Pairs(ConfigService.LinkParams(env["DOMAIN"], env["SECRET_PATH"])), Utf8(e.email.s))))
  {
    var env := Env(envFile, environ);
    var users := UsersOf(loaded).value;
    var id := ScalarStr(users[i].uuid).value;
    if '@' !in id && '?' !in env["DOMAIN"] {
      ConfigService.VlessLinkRoundTrip(id, env["DOMAIN"], env["SECRET_PATH"], users[i].email.s);
    }
  }

  // ---------------------------------------------------- update_v2ray_config

  /** The WebSocket path an inbound with `streamSettings` carries, as
      `inbound['streamSettings'].get('wsSettings', {}).get('path', '')` reads
      it; None when that raises. */
  function WsPath(inbound: Json): Option<Json> {
    if !inbound.JObj? || "streamSettings" !in inbound.fields then None
    else
      var ws := Get(inbound.fields["streamSettings"], "wsSettings", JObj(map[]));
      if ws.Err? then None
      else
        var path := Get(ws.value, "path", JStr(""));
        if path.Err? then None else Some(path.value)
  }

  /** One inbound after the loop body of `update_v2ray_config`, and whether
      it changed. `'streamSettings' in inbound` is a key test on a dict, a
      substring test on a string and a membership test on a list, and
      raises on anything else; indexing a string or a list by a string
      raises. */
  function UpdatedInbound(inbound: Json, newPath: string): (r: Result<(Json, bool), Exception>)
    ensures inbound.JObj? && "streamSettings" in inbound.fields ==> (r.Ok? <==> WsPath(inbound).Some?)
    ensures inbound.JStr? ==> (r.Ok? <==> !IsSubstring("streamSettings", inbound.s))
    ensures inbound.JArr? ==> (r.Ok? <==> JStr("streamSettings") !in inbound.items)
    ensures inbound.JNull? || inbound.JBool? || inbound.JInt? ==> r == Err(TypeError)
    ensures r.Ok? ==> (r.value.1 <==> WsPath(inbound).Some? && WsPath(inbound) != Some(JStr(newPath)))
    ensures r.Ok? && !r.value.1 ==> r.value.0 == inbound
    ensures r.Ok? && WsPath(inbound).Some? ==> WsPath(r.value.0) == Some(JStr(newPath))
    ensures r.Ok? && r.value.1 ==>
              (r.value.0.JObj? && r.value.0.fields.Keys == inbound.fields.Keys
               && forall k :: k in inbound.fields && k != "streamSettings" ==> r.value.0.fields[k] == inbound.fields[k])
  {
    match inbound
    case JObj(m) =>
      if "streamSettings" !in m then Ok((inbound, false))
      else
        var stream := m["streamSettings"];
        var ws := Get(stream, "wsSettings", JObj(map[]));
        if ws.Err? then Err(ws.error)
        else
          var current := Get(ws.value, "path", JStr(""));
          if current.Err? then Err(current.error)
          else if current.value == JStr(newPath) then Ok((inbound, false))
          else
            var ws' := JObj(ws.value.fields["path" := JStr(newPath)]);
            Ok((JObj(m["streamSettings" := JObj(stream.fields["wsSettings" := ws'])]), true))
    case JStr(s) => if IsSubstring("streamSettings", s) then Err(TypeError) else Ok((inbound, false))
    case JArr(xs) => if JStr("streamSettings") in xs then Err(TypeError) else Ok((inbound, false))
    case _ => Err(TypeError)
  }

  /** The inbounds after the loop, in order, and whether any changed; the
      first failure raises. */
  function UpdatedInbounds(inbounds: seq<Json>, newPath: string): (r: Result<(seq<Json>, bool), Exception>)
    ensures r.Ok? <==> forall i :: 0 <= i < |inbounds| ==> UpdatedInbound(inbounds[i], newPath).Ok?
    ensures r.Ok? ==> |r.value.0| == |inbounds|
    ensures r.Ok? ==> forall i :: 0 <= i < |inbounds| ==> r.value.0[i] == UpdatedInbound(inbounds[i], newPath).value.0
    ensures r.Ok? ==> (r.value.1 <==> exists i :: 0 <= i < |inbounds| && UpdatedInbound(inbounds[i], newPath).value.1)
  {
    if inbounds == [] then Ok(([], false))
    else
      var n := |inbounds| - 1;
      var init := UpdatedInbounds(inbounds[..n], newPath);
      var last := UpdatedInbound(inbounds[n], newPath);
      assert forall i :: 0 <= i < n ==> inbounds[..n][i] == inbounds[i];
      if init.Err? then init
      else if last.Err? then Err(last.error)
      else Ok((init.value.0 + [last.value.0], init.value.1 || last.value.1))
  }

  /** The document after the loop and whether anything changed. Iterating a
      string yields one-character strings, which never contain the key;
      iterating a dict yields its keys, which raise when they contain it. */
  function UpdatedConfig(config: Json, newPath: string): Result<(Json, bool), Exception> {
    var got := Get(config, "inbounds", JArr([]));
    if got.Err? then Err(got.error)
    else match got.value
      case JArr(xs) =>
        (var r := UpdatedInbounds(xs, newPath);
         if r.Err? then Err(r.error)
         else if "inbounds" in config.fields then Ok((JObj(config.fields["inbounds" := JArr(r.value.0)]), r.value.1))
         else Ok((config, false)))
      case JStr(_) => Ok((config, false))
      case JObj(m) =>
        if exists k :: k in m && IsSubstring("streamSettings", k) then Err(TypeError) else Ok((config, false))
      case _ => Err(TypeError)
  }

  /** What `update_v2ray_config(secret_path)` writes: the new document when
      a path changed, nothing when all were current; or what it raises. */
  function ConfigUpdate(loaded: Result<Json, Exception>, secretPath: string): Result<Option<Json>, Exception> {
    if loaded.Err? then Err(loaded.error)
    else
      var r := UpdatedConfig(loaded.value, "/" + secretPath);
      if r.Err? then Err(r.error) else Ok(if r.value.1 then Some(r.value.0) else None)
  }

  /** The loop of `update_v2ray_config` over a list of inbounds. */
  method UpdateInbounds(xs: seq<Json>, newPath: string) returns (r: Result<(seq<Json>, bool), Exception>)
    ensures r == UpdatedInbounds(xs, newPath)
  {
    var items := xs;
    var updated := false;
    var i := 0;
    while i < |xs|
      invariant 0 <= i <= |xs| && |items| == |xs|
      invariant UpdatedInbounds(xs[..i], newPath) == Ok((items[..i], updated))
      invariant items[i..] == xs[i..]
    {
      var step := UpdatedInbound(xs[i], newPath);
      UpdatedInboundsStep(xs, i, newPath);
      if step.Err? {
        UpdateErrorPersists(xs, newPath, i + 1);
        return Err(step.error);
      }
      ReplaceStep(items, xs, i, step.value.0);
      items := items[i := step.value.0];
      updated := updated || step.value.1;
      i := i + 1;
    }
    assert xs[..i] == xs && items[..i] == items;
    r := Ok((items, updated));
  }

  /** Writing position `i` of a list whose suffix from `i` is still the
      original extends the rewritten prefix and shortens that suffix. */
  lemma ReplaceStep(items: seq<Json>, xs: seq<Json>, i: nat, v: Json)
    requires |items| == |xs| && i < |xs| && items[i..] == xs[i..]
    ensures items[i := v][..i + 1] == items[..i] + [v]
    ensures items[i := v][i + 1..] == xs[i + 1..]
  {
    assert items[i + 1..] == items[i..][1..];
    assert xs[i + 1..] == xs[i..][1..];
  }

  lemma UpdatedInboundsStep(xs: seq<Json>, i: nat, newPath: string)
    requires i < |xs|
    ensures var prev := UpdatedInbounds(xs[..i], newPath);
      var step := UpdatedInbound(xs[i], newPath);
      UpdatedInbounds(xs[..i + 1], newPath)
        == if prev.Err? then prev else if step.Err? then Err(step.error)
           else Ok((prev.value.0 + [step.value.0], prev.value.1 || step.value.1))
  {
    assert xs[..i + 1][..i] == xs[..i];
  }

  /** `update_v2ray_config`, the document taken as loaded and the write
      returned. */
  method UpdateV2RayConfig(loaded: Result<Json, Exception>, secretPath: string)
    returns (r: Result<Option<Json>, Exception>)
    ensures r == ConfigUpdate(loaded, secretPath)
  {
    if loaded.Err? {
      return Err(loaded.error);
    }
    var config := loaded.value;
    var newPath := "/" + secretPath;
    var got := Get(config, "inbounds", JArr([]));
    if got.Err? {
      return Err(got.error);
    }
    match got.value {
      case JArr(xs) =>
        var result := UpdateInbounds(xs, newPath);
        if result.Err? {
          return Err(result.error);
        }
        var (items, updated) := result.value;
        if "inbounds" in config.fields {
          config := JObj(config.fields["inbounds" := JArr(items)]);
        } else {
          updated := false;
        }
        r := Ok(if updated then Some(config) else None);
      case JStr(_) =>
        r := Ok(None);
      case JObj(m) =>
        if exists k :: k in m && IsSubstring("streamSettings", k) {
          return Err(TypeError);
        }
        r := Ok(None);
      case _ =>
        r := Err(TypeError);
    }
  }

  lemma {:induction false} UpdateErrorPersists(inbounds: seq<Json>, newPath: string, i: nat)
    requires i <= |inbounds| && UpdatedInbounds(inbounds[..i], newPath).Err?
    ensures UpdatedInbounds(inbounds, newPath) == UpdatedInbounds(inbounds[..i], newPath)
    decreases |inbounds| - i
  {
    if i < |inbounds| {
      assert inbounds[..i + 1][..i] == inbounds[..i];
      UpdateErrorPersists(inbounds, newPath, i + 1);
    } else {
      assert inbounds[..i] == inbounds;
    }
  }

  /** An updated inbound is left alone by a second update. */
  lemma InboundUpdateIdempotent(inbound: Json, newPath: string)
    requires UpdatedInbound(inbound, newPath).Ok?
    ensures var after := UpdatedInbound(inbound, newPath).value.0;
      UpdatedInbound(after, newPath) == Ok((after, false))
  {
  }

  /** Updating twice writes nothing the second time: every path is current. */
  lemma UpdateIdempotent(config: Json, newPath: string)
    requires UpdatedConfig(config, newPath).Ok?
    ensures var after := UpdatedConfig(config, newPath).value.0;
      UpdatedConfig(after, newPath) == Ok((after, false))
  {
    var after := UpdatedConfig(config, newPath).value.0;
    var got := Get(config, "inbounds", JArr([]));
    if got.value.JArr? && "inbounds" in config.fields {
      var xs := got.value.items;
      var ys := UpdatedInbounds(xs, newPath).value.0;
      forall i | 0 <= i < |ys|
        ensures UpdatedInbound(ys[i], newPath) == Ok((ys[i], false))
      {
        InboundUpdateIdempotent(xs[i], newPath);
      }
      var again := UpdatedInbounds(ys, newPath);
      assert again.Ok?;
      assert again.value.0 == ys;
      assert after == JObj(config.fields["inbounds" := JArr(ys)]);
      assert after.fields["inbounds" := JArr(ys)] == after.fields;
    }
  }

  /** A rendered inbound gets exactly its WebSocket path replaced. */
  lemma InboundJsonUpdate(ib: ConfigService.Inbound, newPath: string)
    ensures UpdatedInbound(ConfigService.InboundJson(ib), newPath)
              == Ok((ConfigService.InboundJson(ib.(wsPath := newPath)), ib.wsPath != newPath))
  {
    var j := ConfigService.InboundJson(ib);
    var stream := j.fields["streamSettings"];
    var ws := stream.fields["wsSettings"];
    assert WsPath(j) == Some(JStr(ib.wsPath));
    if ib.wsPath != newPath {
      var ws' := JObj(ws.fields["path" := JStr(newPath)]);
      assert ws'.fields == map["path" := JStr(newPath)];
      assert stream.fields["wsSettings" := ws'] == ConfigService.InboundJson(ib.(wsPath := newPath)).fields["streamSettings"].fields;
      assert j.fields["streamSettings" := JObj(stream.fields["wsSettings" := ws'])]
             == ConfigService.InboundJson(ib.(wsPath := newPath)).fields;
    } else {
      assert ib.(wsPath := newPath) == ib;
    }
  }

  lemma SingleInboundUpdate(x: Json, newPath: string)
    requires UpdatedInbound(x, newPath).Ok?
    ensures var step := UpdatedInbound(x, newPath).value;
      UpdatedInbounds([x], newPath) == Ok(([step.0], step.1))
  {
    var step := UpdatedInbound(x, newPath).value;
    assert [x][..|[x]| - 1] == [] && [x][|[x]| - 1] == x;
    assert UpdatedInbounds([], newPath) == Ok(([], false));
    assert [] + [step.0] == [step.0];
  }

  /** A rendered configuration with one inbound gets that inbound's path
      replaced and nothing else. */
  lemma ConfigJsonUpdate(cfg: ConfigService.V2RayConfig, newPath: string)
    requires |cfg.inbounds| == 1
    ensures var ib := cfg.inbounds[0];
      UpdatedConfig(ConfigService.ToJson(cfg), newPath)
        == Ok((ConfigService.ToJson(cfg.(inbounds := [ib.(wsPath := newPath)])), ib.wsPath != newPath))
  {
    var ib := cfg.inbounds[0];
    var cfg' := cfg.(inbounds := [ib.(wsPath := newPath)]);
    InboundJsonUpdate(ib, newPath);
    var xs := ConfigService.InboundsJson(cfg.inbounds);
    assert xs == [ConfigService.InboundJson(ib)];
    SingleInboundUpdate(ConfigService.InboundJson(ib), newPath);
    assert ConfigService.InboundsJson(cfg'.inbounds) == [ConfigService.InboundJson(ib.(wsPath := newPath))];
    ToJsonInbounds(cfg, cfg'.inbounds);
  }

  /** Rendering a configuration with other inbounds changes only the
      rendered `inbounds` entry. */
  lemma ToJsonInbounds(cfg: ConfigService.V2RayConfig, ibs: seq<ConfigService.Inbound>)
    ensures var doc := ConfigService.ToJson(cfg);
      doc.JObj? && "inbounds" in doc.fields
      && doc.fields["inbounds"] == JArr(ConfigService.InboundsJson(cfg.inbounds))
      && ConfigService.ToJson(cfg.(inbounds := ibs))
           == JObj(doc.fields["inbounds" := JArr(ConfigService.InboundsJson(ibs))])
  {
    var sections := ConfigService.SectionsJson(cfg);
    assert ConfigService.SectionsJson(cfg.(inbounds := ibs)) == sections;
    var a := JArr(ConfigService.InboundsJson(cfg.inbounds));
    var b := JArr(ConfigService.InboundsJson(ibs));
    assert sections["inbounds" := a]["inbounds" := b] == sections["inbounds" := b];
  }

  /** A configuration the service generated for one secret path, updated to
      another, is the configuration it generates for the other; updated to
      its own path, nothing is written. */
  lemma UpdateGeneratedConfig(users: seq<ConfigService.Record>, secretPath: string, newSecret: string, port: int)
    requires ConfigService.GenerateV2RayConfig(users, secretPath, port).Ok?
    ensures var doc := ConfigService.ToJson(ConfigService.GenerateV2RayConfig(users, secretPath, port).value);
      ConfigService.GenerateV2RayConfig(users, newSecret, port).Ok?
      && UpdatedConfig(doc, "/" + newSecret)
           == Ok((ConfigService.ToJson(ConfigService.GenerateV2RayConfig(users, newSecret, port).value),
                  secretPath != newSecret))
  {
    var cfg := ConfigService.GenerateV2RayConfig(users, secretPath, port).value;
    var cfg' := ConfigService.GenerateV2RayConfig(users, newSecret, port).value;
    var ib := cfg.inbounds[0];
    assert cfg' == cfg.(inbounds := [ib.(wsPath := "/" + newSecret)]);
    assert ("/" + secretPath != "/" + newSecret) == (secretPath != newSecret) by {
      if secretPath != newSecret {
        assert ("/" + secretPath)[1..] == secretPath && ("/" + newSecret)[1..] == newSecret;
      }
    }
    ConfigJsonUpdate(cfg, "/" + newSecret);
  }

  // -------------------------------------------------------- validate_config

  /** A finding `validate_config` prints without failing. */
  datatype Warning = DefaultDomain | PathMismatch(found: Json, expected: string)

  /** A finding that makes `validate_config` fail. */
  datatype Problem = NoUsers | ConfigError(error: Exception)

  datatype Report = Report(errors: seq<Problem>, warnings: seq<Warning>)

  /** The warning one inbound gives: a VLESS inbound whose WebSocket path,
      read with defaults at every level, is not the expected one. */
  function InboundWarning(inbound: Json, expected: string): (r: Result<seq<Warning>, Exception>)
    ensures r.Ok? ==> |r.value| <= 1
    ensures r.Ok? && r.value != [] ==> r.value[0].PathMismatch? && r.value[0].expected == expected
                                        && r.value[0].found != JStr(expected)
  {
    var protocol := Get(inbound, "protocol", JNull);
    if protocol.Err? then Err(protocol.error)
    else if protocol.value != JStr("vless") then Ok([])
    else
      var stream := DictGet(inbound.fields, "streamSettings", JObj(map[]));
      var ws := Get(stream, "wsSettings", JObj(map[]));
      if ws.Err? then Err(ws.error)
      else
        var path := Get(ws.value, "path", JStr(""));
        if path.Err? then Err(path.error)
        else if path.value != JStr(expected) then Ok([PathMismatch(path.value, expected)])
        else Ok([])
  }

  /** The warnings of the inbounds in order, and the exception that cut the
      loop short, if any: warnings found before it are kept. */
  function PathWarnings(inbounds: seq<Json>, expected: string): (seq<Warning>, Option<Exception>) {
    if inbounds == [] then ([], None)
    else
      var n := |inbounds| - 1;
      var init := PathWarnings(inbounds[..n], expected);
      if init.1.Some? then init
      else
        var last := InboundWarning(inbounds[n], expected);
        if last.Err? then (init.0, Some(last.error)) else (init.0 + last.value, None)
  }

  /** `config.get('inbounds', [])` as a list, for a document `get_users`
      accepted, which has already iterated it the same way. */
  function InboundsOf(loaded: Result<Json, Exception>): seq<Json>
    requires UsersOf(loaded).Ok?
  {
    ElementsForGet(Get(loaded.value, "inbounds", JArr([])).value).value
  }

  /** The `try` block of `validate_config`: errors and warnings it adds. */
  function ConfigFindings(loaded: Result<Json, Exception>, expected: string): Report {
    if loaded.Err? then Report([ConfigError(loaded.error)], [])
    else
      var users := UsersOf(loaded);
      if users.Err? then Report([ConfigError(users.error)], [])
      else
        var noUsers := if users.value == [] then [NoUsers] else [];
        var (warnings, raised) := PathWarnings(InboundsOf(loaded), expected);
        Report(noUsers + (if raised.Some? then [ConfigError(raised.value)] else []), warnings)
  }

  /** What `validate_config` reports and returns. */
  function Validation(envFile: Option<seq<string>>, environ: map<string, string>, loaded: Result<Json, Exception>)
    : (bool, Report)
  {
    ValidationWith(Env(envFile, environ), loaded)
  }

  /** The same for the variables once loaded. */
  function ValidationWith(env: map<string, string>, loaded: Result<Json, Exception>): (bool, Report)
    requires "DOMAIN" in env && "SECRET_PATH" in env
  {
    var domain := if env["DOMAIN"] == "your-domain.com" then [DefaultDomain] else [];
    var findings := ConfigFindings(loaded, "/" + env["SECRET_PATH"]);
    (findings.errors == [], Report(findings.errors, domain + findings.warnings))
  }

  /** The path-checking loop of `validate_config`. */
  method CheckPaths(inbounds: seq<Json>, expected: string) returns (warnings: seq<Warning>, raised: Option<Exception>)
    ensures (warnings, raised) == PathWarnings(inbounds, expected)
  {
    warnings := [];
    var i := 0;
    while i < |inbounds|
      invariant 0 <= i <= |inbounds|
      invariant PathWarnings(inbounds[..i], expected) == (warnings, None)
    {
      assert inbounds[..i + 1][..i] == inbounds[..i];
      var found := InboundWarning(inbounds[i], expected);
      if found.Err? {
        PathWarningsStop(inbounds, expected, i + 1);
        return warnings, Some(found.error);
      }
      warnings := warnings + found.value;
      i := i + 1;
    }
    assert inbounds[..i] == inbounds;
    raised := None;
  }

  lemma {:induction false} PathWarningsStop(inbounds: seq<Json>, expected: string, i: nat)
    requires i <= |inbounds| && PathWarnings(inbounds[..i], expected).1.Some?
    ensures PathWarnings(inbounds, expected) == PathWarnings(inbounds[..i], expected)
    decreases |inbounds| - i
  {
    if i < |inbounds| {
      assert inbounds[..i + 1][..i] == inbounds[..i];
      PathWarningsStop(inbounds, expected, i + 1);
    } else {
      assert inbounds[..i] == inbounds;
    }
  }

  /** The `try` block of `validate_config`: the errors and warnings it adds. */
  method CheckDocument(loaded: Result<Json, Exception>, expected: string)
    returns (errors: seq<Problem>, warnings: seq<Warning>)
    ensures Report(errors, warnings) == ConfigFindings(loaded, expected)
  {
    if loaded.Err? {
      return [ConfigError(loaded.error)], [];
    }
    var users := GetUsers(loaded);
    if users.Err? {
      return [ConfigError(users.error)], [];
    }
    errors := if users.value == [] then [NoUsers] else [];
    var inbounds := ElementsForGet(Get(loaded.value, "inbounds", JArr([])).value).value;
    var raised;
    warnings, raised := CheckPaths(inbounds, expected);
    if raised.Some? {
      errors := errors + [ConfigError(raised.value)];
    }
  }

  /** `validate_config`: the verdict and what it prints. */
  method ValidateConfig(envFile: Option<seq<string>>, environ: map<string, string>, loaded: Result<Json, Exception>)
    returns (ok: bool, report: Report)
    ensures (ok, report) == Validation(envFile, environ, loaded)
  {
    var warnings: seq<Warning> := [];
    var env := LoadEnv(envFile, environ);
    if env["DOMAIN"] == "your-domain.com" {
      warnings := warnings + [DefaultDomain];
    }
    var expected := "/" + env["SECRET_PATH"];
    var errors, found := CheckDocument(loaded, expected);
    warnings := warnings + found;
    ok := |errors| == 0;
    report := Report(errors, warnings);
    ghost var domain := if env["DOMAIN"] == "your-domain.com" then [DefaultDomain] else [];
    assert warnings == domain + found;
    assert Validation(envFile, environ, loaded) == (errors == [], Report(errors, domain + found));
  }

  /** Whether the path loop raises does not depend on the expected path. */
  lemma {:induction false} PathRaiseIgnoresExpected(inbounds: seq<Json>, e1: string, e2: string)
    ensures PathWarnings(inbounds, e1).1 == PathWarnings(inbounds, e2).1
  {
    if inbounds != [] {
      PathRaiseIgnoresExpected(inbounds[..|inbounds| - 1], e1, e2);
    }
  }

  /** Warnings never fail validation: the verdict is the same whatever the
      `.env` file and the environment say. */
  lemma VerdictIgnoresEnv(f1: Option<seq<string>>, env1: map<string, string>,
                          f2: Option<seq<string>>, env2: map<string, string>, loaded: Result<Json, Exception>)
    ensures Validation(f1, env1, loaded).0 == Validation(f2, env2, loaded).0
  {
    if UsersOf(loaded).Ok? {
      PathRaiseIgnoresExpected(InboundsOf(loaded), "/" + Env(f1, env1)["SECRET_PATH"], "/" + Env(f2, env2)["SECRET_PATH"]);
    }
  }

  /** Validation passes exactly when the document loads, lists at least one
      user, and every VLESS inbound's path can be read. */
  lemma VerdictMeaning(envFile: Option<seq<string>>, environ: map<string, string>, loaded: Result<Json, Exception>)
    ensures var passes := UsersOf(loaded).Ok? && UsersOf(loaded).value != []
                          && PathWarnings(InboundsOf(loaded), "/" + Env(envFile, environ)["SECRET_PATH"]).1.None?;
      Validation(envFile, environ, loaded).0 <==> passes
  {
  }

  lemma SinglePathWarning(x: Json, expected: string)
    requires InboundWarning(x, expected).Ok?
    ensures PathWarnings([x], expected) == (InboundWarning(x, expected).value, None)
  {
    assert [x][..|[x]| - 1] == [] && [x][|[x]| - 1] == x;
    assert [] + InboundWarning(x, expected).value == InboundWarning(x, expected).value;
  }

  lemma InboundJsonWarning(ib: ConfigService.Inbound, expected: string)
    requires ib.protocol == "vless"
    ensures InboundWarning(ConfigService.InboundJson(ib), expected)
              == Ok(if ib.wsPath != expected then [PathMismatch(JStr(ib.wsPath), expected)] else [])
  {
  }

  /** The findings on a rendered configuration with one VLESS inbound. */
  lemma ConfigJsonFindings(cfg: ConfigService.V2RayConfig, expected: string)
    requires |cfg.inbounds| == 1 && cfg.inbounds[0].protocol == "vless"
    requires UsersOf(Ok(ConfigService.ToJson(cfg))).Ok?
    ensures var ib := cfg.inbounds[0];
      ConfigFindings(Ok(ConfigService.ToJson(cfg)), expected)
        == Report(if UsersOf(Ok(ConfigService.ToJson(cfg))).value == [] then [NoUsers] else [],
                  if ib.wsPath != expected then [PathMismatch(JStr(ib.wsPath), expected)] else [])
  {
    var ib := cfg.inbounds[0];
    var x := ConfigService.InboundJson(ib);
    assert ConfigService.InboundsJson(cfg.inbounds) == [x];
    assert InboundsOf(Ok(ConfigService.ToJson(cfg))) == [x];
    InboundJsonWarning(ib, expected);
    SinglePathWarning(x, expected);
  }

  /** A configuration the service generated passes validation when it has
      an enabled user, warning about its path only when the `.env` file
      names another secret, and about the domain only when it is the
      default. Without enabled users it fails with exactly that error. */
  lemma ValidateGeneratedConfig(users: seq<ConfigService.Record>, secretPath: string, port: int,
                                env: map<string, string>)
    requires ConfigService.GenerateV2RayConfig(users, secretPath, port).Ok?
    requires "DOMAIN" in env && "SECRET_PATH" in env
    ensures var doc := ConfigService.ToJson(ConfigService.GenerateV2RayConfig(users, secretPath, port).value);
      var v := ValidationWith(env, Ok(doc));
      (v.0 <==> ConfigService.Enabled(users) != [])
      && v.1.errors == (if ConfigService.Enabled(users) == [] then [NoUsers] else [])
      && v.1.warnings == (if env["DOMAIN"] == "your-domain.com" then [DefaultDomain] else [])
                         + (if env["SECRET_PATH"] == secretPath then []
                            else [PathMismatch(JStr("/" + secretPath), "/" + env["SECRET_PATH"])])
  {
    var cfg := ConfigService.GenerateV2RayConfig(users, secretPath, port).value;
    var expected := "/" + env["SECRET_PATH"];
    GeneratedConfigUsers(users, secretPath, port);
    ValidateConfigJson(cfg, env);
    assert ("/" + secretPath == expected) == (secretPath == env["SECRET_PATH"]) by {
      if secretPath != env["SECRET_PATH"] {
        assert ("/" + secretPath)[1..] == secretPath && expected[1..] == env["SECRET_PATH"];
      }
    }
  }

  /** The verdict and report on a rendered configuration with one VLESS
      inbound whose users can be read. */
  lemma ValidateConfigJson(cfg: ConfigService.V2RayConfig, env: map<string, string>)
    requires |cfg.inbounds| == 1 && cfg.inbounds[0].protocol == "vless"
    requires UsersOf(Ok(ConfigService.ToJson(cfg))).Ok?
    requires "DOMAIN" in env && "SECRET_PATH" in env
    ensures var none := UsersOf(Ok(ConfigService.ToJson(cfg))).value == [];
      var v := ValidationWith(env, Ok(ConfigService.ToJson(cfg)));
      (v.0 <==> !none)
      && v.1.errors == (if none then [NoUsers] else [])
      && v.1.warnings == (if env["DOMAIN"] == "your-domain.com" then [DefaultDomain] else [])
                         + (if cfg.inbounds[0].wsPath == "/" + env["SECRET_PATH"] then []
                            else [PathMismatch(JStr(cfg.inbounds[0].wsPath), "/" + env["SECRET_PATH"])])
  {
    ConfigJsonFindings(cfg, "/" + env["SECRET_PATH"]);
  }
}
