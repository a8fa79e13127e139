/** The configuration synthesiser: a random secret WebSocket path, the
    tunnel daemon's (V2Ray) configuration record for a set of users, the
    reverse proxy's (Caddy) configuration text, and the `vless://` share link
    a client imports. All four are pure; the random source is a parameter. */
module ConfigService {
  import opened Py
  import opened Json
  import opened UrlEncoding

  // ------------------------------------------------------------ secret path

  function Lower(): seq<char> { seq(26, i requires 0 <= i < 26 => ('a' as int + i) as char) }
  function Upper(): seq<char> { seq(26, i requires 0 <= i < 26 => ('A' as int + i) as char) }
  function Digits(): seq<char> { seq(10, i requires 0 <= i < 10 => ('0' as int + i) as char) }

  /** `string.ascii_letters + string.digits`. */
  function Alphabet(): (a: seq<char>)
    ensures |a| == 62
  {
    Lower() + Upper() + Digits()
  }

  type AlphabetIndex = i: nat | i < 62

  predicate IsAsciiAlnum(c: char) {
    'a' <= c <= 'z' || 'A' <= c <= 'Z' || '0' <= c <= '9'
  }

  /** The position of an ASCII letter or digit in the alphabet. */
  function AlphabetPosition(c: char): (i: AlphabetIndex)
    requires IsAsciiAlnum(c)
    ensures Alphabet()[i] == c
  {
    if 'a' <= c <= 'z' then
      var k := c as int - 'a' as int;
      assert Alphabet()[k] == Lower()[k];
      k
    else if 'A' <= c <= 'Z' then
      var k := c as int - 'A' as int;
      assert Alphabet()[26 + k] == Upper()[k];
      26 + k
    else
      var k := c as int - '0' as int;
      assert Alphabet()[52 + k] == Digits()[k];
      52 + k
  }

  /** The alphabet holds exactly the ASCII letters and digits, each once. */
  lemma AlphabetIsAlnum()
    ensures forall i :: 0 <= i < 62 ==> IsAsciiAlnum(Alphabet()[i])
    ensures forall i, j :: 0 <= i < j < 62 ==> Alphabet()[i] != Alphabet()[j]
  {
    forall i | 0 <= i < 62 ensures IsAsciiAlnum(Alphabet()[i]) {
      if i < 26 { assert Alphabet()[i] == Lower()[i]; }
      else if i < 52 { assert Alphabet()[i] == Upper()[i - 26]; }
      else { assert Alphabet()[i] == Digits()[i - 52]; }
    }
    forall i, j | 0 <= i < j < 62 ensures Alphabet()[i] != Alphabet()[j] {
      assert AlphabetPosition(Alphabet()[i]) == i by {
        if i < 26 { assert Alphabet()[i] == Lower()[i]; }
        else if i < 52 { assert Alphabet()[i] == Upper()[i - 26]; }
        else { assert Alphabet()[i] == Digits()[i - 52]; }
      }
      assert AlphabetPosition(Alphabet()[j]) == j by {
        if j < 26 { assert Alphabet()[j] == Lower()[j]; }
        else if j < 52 { assert Alphabet()[j] == Upper()[j - 26]; }
        else { assert Alphabet()[j] == Digits()[j - 52]; }
      }
    }
  }

  /** `generate_secret_path(length)`: `draw(k)` is the alphabet position the
      random source picks for the k-th character (`secrets.choice`); a
      negative length gives the empty string, as `range` does. */
  function GenerateSecretPath(length: int, draw: nat -> AlphabetIndex): (r: string)
    ensures |r| == if length < 0 then 0 else length
    ensures forall i :: 0 <= i < |r| ==> IsAsciiAlnum(r[i])
  {
    AlphabetIsAlnum();
    seq(if length < 0 then 0 else length, k requires 0 <= k => Alphabet()[draw(k)])
  }

  /** Every alphanumeric string of a given length is a possible secret path:
      the generator is onto its advertised range. */
  lemma SecretPathReachable(s: string)
    requires forall i :: 0 <= i < |s| ==> IsAsciiAlnum(s[i])
    ensures exists draw: nat -> AlphabetIndex :: GenerateSecretPath(|s|, draw) == s
  {
    var draw: nat -> AlphabetIndex := (k: nat) => if k < |s| then AlphabetPosition(s[k]) else 0;
    assert GenerateSecretPath(|s|, draw) == s;
  }

  // ------------------------------------------------------------ V2Ray users

  /** A user as a dictionary: a registry row, or a record a caller builds. */
  type Record = map<string, Value>

  /** `user.get('enabled', 1)` taken as a condition. */
  predicate IsEnabled(u: Record) {
    Truthy(if "enabled" in u then u["enabled"] else Int(1))
  }

  /** The users the comprehension keeps, in input order. */
  function Enabled(users: seq<Record>): (r: seq<Record>)
    ensures |r| <= |users|
    ensures forall u :: u in r <==> u in users && IsEnabled(u)
  {
    if users == [] then []
    else (if IsEnabled(users[0]) then [users[0]] else []) + Enabled(users[1..])
  }

  lemma {:induction false} EnabledAppend(a: seq<Record>, b: seq<Record>)
    ensures Enabled(a + b) == Enabled(a) + Enabled(b)
  {
    if a != [] {
      assert (a + b)[1..] == a[1..] + b;
      EnabledAppend(a[1..], b);
    } else {
      assert a + b == b;
    }
  }

  /** One entry of the inbound's `clients` list. */
  datatype Client = Client(id: Value, level: Value, email: Value)

  predicate HasClientKeys(u: Record) { "uuid" in u && "email" in u }

  /** The level a user gets: `user.get('level', 0)`. */
  function LevelOf(u: Record): Value {
    if "level" in u then u["level"] else Int(0)
  }

  /** One client entry; the dict literal reads `uuid` before `email`, so a
      record missing both fails on `uuid`. */
  function ClientOf(u: Record): (r: Result<Client, Exception>)
    ensures r.Ok? <==> HasClientKeys(u)
    ensures r.Ok? ==> r.value == Client(u["uuid"], LevelOf(u), u["email"])
    ensures "uuid" !in u ==> r == Err(KeyError("uuid"))
    ensures "uuid" in u && "email" !in u ==> r == Err(KeyError("email"))
  {
    if "uuid" !in u then Err(KeyError("uuid"))
    else if "email" !in u then Err(KeyError("email"))
    else Ok(Client(u["uuid"], LevelOf(u), u["email"]))
  }

  /** The `clients` comprehension: the enabled users, each built into an
      entry in turn, so the first enabled user lacking a key raises. */
  function Clients(users: seq<Record>): (r: Result<seq<Client>, Exception>)
    ensures r.Ok? <==> forall u :: u in Enabled(users) ==> HasClientKeys(u)
    ensures r.Ok? ==> |r.value| == |Enabled(users)|
    ensures r.Ok? ==> forall i :: 0 <= i < |r.value| ==>
              r.value[i] == ClientOf(Enabled(users)[i]).value
  {
    ClientsOf(Enabled(users))
  }

  /** The entries of `rs`, in order; on failure, the error of the first
      record that lacks a key. */
  function ClientsOf(rs: seq<Record>): (r: Result<seq<Client>, Exception>)
    ensures r.Ok? <==> forall u :: u in rs ==> HasClientKeys(u)
    ensures r.Ok? ==> |r.value| == |rs| && forall i :: 0 <= i < |rs| ==> r.value[i] == ClientOf(rs[i]).value
    ensures r.Err? ==> exists i :: 0 <= i < |rs| && !HasClientKeys(rs[i])
                                   && r.error == ClientOf(rs[i]).error
                                   && forall j :: 0 <= j < i ==> HasClientKeys(rs[j])
  {
    if rs == [] then Ok([])
    else match ClientOf(rs[0])
      case Err(e) => Err(e)
      case Ok(c) =>
        match ClientsOf(rs[1..])
        case Err(e) =>
          FirstErrorStep(rs, e);
          Err(e)
        case Ok(cs) =>
          assert forall u :: u in rs ==> u == rs[0] || u in rs[1..];
          Ok([c] + cs)
  }

  /** A record with both keys before the first failing one leaves it the first. */
  lemma FirstErrorStep(rs: seq<Record>, e: Exception)
    requires rs != [] && HasClientKeys(rs[0])
    requires exists i :: 0 <= i < |rs[1..]| && !HasClientKeys(rs[1..][i]) && e == ClientOf(rs[1..][i]).error
                         && forall j :: 0 <= j < i ==> HasClientKeys(rs[1..][j])
    ensures exists i :: 0 <= i < |rs| && !HasClientKeys(rs[i]) && e == ClientOf(rs[i]).error
                        && forall j :: 0 <= j < i ==> HasClientKeys(rs[j])
  {
    var i :| 0 <= i < |rs[1..]| && !HasClientKeys(rs[1..][i]) && e == ClientOf(rs[1..][i]).error
             && forall j :: 0 <= j < i ==> HasClientKeys(rs[1..][j]);
    assert rs[i + 1] == rs[1..][i];
    forall j | 0 <= j < i + 1 ensures HasClientKeys(rs[j]) {
      if j > 0 {
        assert rs[j] == rs[1..][j - 1];
      }
    }
  }

  /** The clients depend on the enabled users alone: adding or removing a
      disabled user anywhere changes nothing. */
  lemma ClientsIgnoreDisabled(a: seq<Record>, u: Record, b: seq<Record>)
    requires !IsEnabled(u)
    ensures Clients(a + [u] + b) == Clients(a + b)
  {
    EnabledSkip(a, u, b);
  }

  lemma EnabledSkip(a: seq<Record>, u: Record, b: seq<Record>)
    requires !IsEnabled(u)
    ensures Enabled(a + [u] + b) == Enabled(a + b)
  {
    EnabledAppend(a + [u], b);
    EnabledAppend(a, [u]);
    EnabledAppend(a, b);
    assert Enabled([u]) == [];
  }

  // --------------------------------------------------------- V2Ray config

  datatype LogSettings = LogSettings(loglevel: string, access: string, error: string)

  /** A listener: its clients, and the WebSocket transport with its path. */
  datatype Inbound = Inbound(port: int, protocol: string, clients: seq<Client>,
                             decryption: string, network: string, wsPath: string)

  datatype Outbound = Outbound(protocol: string, tag: Option<string>)

  datatype RoutingRule = RoutingRule(ruleType: string, ip: seq<string>, outboundTag: string)

  datatype V2RayConfig = V2RayConfig(log: LogSettings, inbounds: seq<Inbound>,
                                     outbounds: seq<Outbound>, rules: seq<RoutingRule>)

  /** Destinations the daemon refuses to forward to: this-network, the
      private ranges of RFC 1918 section 3, shared address space,
      loopback, link-local, IETF protocol assignments, the documentation
      ranges of RFC 5737 section 3, benchmarking, and the IPv6 loopback,
      unique-local and link-local ranges. */
  const BlockedRanges: seq<string> :=
    ["0.0.0.0/8", "10.0.0.0/8", "100.64.0.0/10", "127.0.0.0/8", "169.254.0.0/16",
     "172.16.0.0/12", "192.0.0.0/24", "192.0.2.0/24", "192.168.0.0/16", "198.18.0.0/15",
     "198.51.100.0/24", "203.0.113.0/24", "::1/128", "fc00::/7", "fe80::/10"]

  /** The log level and the access and error log files of the daemon. */
  const DefaultLog := LogSettings("warning", "/var/log/v2ray/access.log", "/var/log/v2ray/error.log")

  /** `generate_v2ray_config(users, secret_path, v2ray_port)`. */
  function GenerateV2RayConfig(users: seq<Record>, secretPath: string, port: int)
    : (r: Result<V2RayConfig, Exception>)
    ensures r.Ok? <==> forall u :: u in Enabled(users) ==> HasClientKeys(u)
    ensures r.Err? ==> r.error == Clients(users).error
    ensures r.Ok? ==> |r.value.inbounds| == 1
    ensures r.Ok? ==> var ib := r.value.inbounds[0];
              ib.port == port && ib.protocol == "vless" && ib.network == "ws"
              && ib.wsPath == "/" + secretPath && ib.decryption == "none"
              && |ib.clients| == |Enabled(users)|
              && forall i :: 0 <= i < |ib.clients| ==>
                   var u := Enabled(users)[i];
                   HasClientKeys(u) && ib.clients[i] == Client(u["uuid"], LevelOf(u), u["email"])
    ensures r.Ok? ==> r.value.rules == [RoutingRule("field", BlockedRanges, "blocked")]
    ensures r.Ok? ==> forall rule :: rule in r.value.rules ==>
              exists o :: o in r.value.outbounds && o.tag == Some(rule.outboundTag)
                          && o.protocol == "blackhole"
  {
    match Clients(users)
    case Err(e) => Err(e)
    case Ok(cs) =>
      var cfg := V2RayConfig(
        DefaultLog,
        [Inbound(port, "vless", cs, "none", "ws", "/" + secretPath)],
        [Outbound("freedom", None), Outbound("blackhole", Some("blocked"))],
        [RoutingRule("field", BlockedRanges, "blocked")]);
      assert cfg.outbounds[1] in cfg.outbounds;
      Ok(cfg)
  }

  /** The configuration is a function of the enabled users, the path and the
      port only: users that are switched off leave no trace. */
  lemma ConfigDependsOnlyOnEnabled(xs: seq<Record>, ys: seq<Record>, secretPath: string, port: int)
    requires Enabled(xs) == Enabled(ys)
    ensures GenerateV2RayConfig(xs, secretPath, port) == GenerateV2RayConfig(ys, secretPath, port)
  {
    assert Clients(xs) == Clients(ys);
  }

  /** The blocked list covers every RFC 1918 private range and every RFC 5737
      documentation range, and has 15 distinct entries. */
  lemma BlockedRangesCoverPrivate()
    ensures "10.0.0.0/8" in BlockedRanges && "172.16.0.0/12" in BlockedRanges
            && "192.168.0.0/16" in BlockedRanges
    ensures "192.0.2.0/24" in BlockedRanges && "198.51.100.0/24" in BlockedRanges
            && "203.0.113.0/24" in BlockedRanges
    ensures |BlockedRanges| == 15
  {
  }

  /** The configuration as the JSON document `json.dump` writes. */
  function ClientJson(c: Client): Json {
    JObj(map["id" := FromValue(c.id), "level" := FromValue(c.level), "email" := FromValue(c.email)])
  }

  function ClientsJson(cs: seq<Client>): (r: seq<Json>)
    ensures |r| == |cs| && forall i :: 0 <= i < |cs| ==> r[i] == ClientJson(cs[i])
  {
    if cs == [] then [] else [ClientJson(cs[0])] + ClientsJson(cs[1..])
  }

  function StringsJson(ss: seq<string>): (r: seq<Json>)
    ensures |r| == |ss| && forall i :: 0 <= i < |ss| ==> r[i] == JStr(ss[i])
  {
    if ss == [] then [] else [JStr(ss[0])] + StringsJson(ss[1..])
  }

  function InboundJson(ib: Inbound): Json {
    JObj(map[
      "port" := JInt(ib.port),
      "protocol" := JStr(ib.protocol),
      "settings" := JObj(map["clients" := JArr(ClientsJson(ib.clients)),
                             "decryption" := JStr(ib.decryption)]),
      "streamSettings" := JObj(map["network" := JStr(ib.network),
                                   "wsSettings" := JObj(map["path" := JStr(ib.wsPath)])])])
  }

  function InboundsJson(ibs: seq<Inbound>): (r: seq<Json>)
    ensures |r| == |ibs| && forall i :: 0 <= i < |ibs| ==> r[i] == InboundJson(ibs[i])
  {
    if ibs == [] then [] else [InboundJson(ibs[0])] + InboundsJson(ibs[1..])
  }

  function OutboundJson(o: Outbound): Json {
    match o.tag
    case None => JObj(map["protocol" := JStr(o.protocol), "settings" := JObj(map[])])
    case Some(t) => JObj(map["protocol" := JStr(o.protocol), "settings" := JObj(map[]), "tag" := JStr(t)])
  }

  function OutboundsJson(os: seq<Outbound>): (r: seq<Json>)
    ensures |r| == |os| && forall i :: 0 <= i < |os| ==> r[i] == OutboundJson(os[i])
  {
    if os == [] then [] else [OutboundJson(os[0])] + OutboundsJson(os[1..])
  }

  function RuleJson(rule: RoutingRule): Json {
    JObj(map["type" := JStr(rule.ruleType), "ip" := JArr(StringsJson(rule.ip)),
             "outboundTag" := JStr(rule.outboundTag)])
  }

  function RulesJson(rs: seq<RoutingRule>): (r: seq<Json>)
    ensures |r| == |rs| && forall i :: 0 <= i < |rs| ==> r[i] == RuleJson(rs[i])
  {
    if rs == [] then [] else [RuleJson(rs[0])] + RulesJson(rs[1..])
  }

  function ToJson(cfg: V2RayConfig): Json {
    JObj(SectionsJson(cfg)["inbounds" := JArr(InboundsJson(cfg.inbounds))])
  }

  /** The sections of the document other than `inbounds`. */
  function SectionsJson(cfg: V2RayConfig): map<string, Json> {
    map[
      "log" := JObj(map["loglevel" := JStr(cfg.log.loglevel), "access" := JStr(cfg.log.access),
                        "error" := JStr(cfg.log.error)]),
      "outbounds" := JArr(OutboundsJson(cfg.outbounds)),
      "routing" := JObj(map["rules" := JArr(RulesJson(cfg.rules))])]
  }

  // -------------------------------------------------------------- Caddyfile

  /** A response header directive: `-Name` removes it, `Name "value"` sets it. */
  datatype Header = Remove(name: string) | Set(name: string, value: string)

  /** What a `handle` block does with the requests it matches. */
  datatype Route =
    | FileServer(root: string, headers: seq<Header>)
    | ReverseProxy(upstream: string, headerUp: seq<(string, string)>)

  datatype Handle = Handle(comments: seq<string>, path: string, route: Route)

  /** A commented run of directives inside the site-wide `header` block. */
  datatype HeaderGroup = HeaderGroup(comment: string, headers: seq<Header>)

  datatype CaddySite = CaddySite(address: string, handles: seq<Handle>,
                                 headerGroups: seq<HeaderGroup>, logOutput: string, logFormat: string)

  const NoCache := "no-cache, no-store, must-revalidate"

  /** The site `generate_caddyfile` describes: a decoy file server at `/`,
      the WebSocket proxy at the secret path, and site-wide headers that
      disguise the server. The user set plays no part. */
  function CaddySiteFor(domain: string, secretPath: string, port: int): CaddySite {
    CaddySite(
      domain,
      [Handle(DecoyComments, "/", FileServer("/srv", DecoyHeaders)),
       Handle(ProxyComments, "/" + secretPath, ReverseProxy("127.0.0.1:" + Decimal(port), ProxyHeaders))],
      SiteHeaderGroups,
      "file /var/log/caddy/access.log", "json")
  }

  /** The comment above the decoy `handle /` block. */
  const DecoyComments := ["根路径 - 伪装网站"]

  /** The decoy file server's headers: nothing it serves is cached. */
  const DecoyHeaders := [Set("Cache-Control", NoCache), Set("Pragma", "no-cache"), Set("Expires", "0")]

  /** The comments above the proxied `handle` block. */
  const ProxyComments := ["秘密路径 - V2Ray WebSocket 代理", "使用 127.0.0.1 因为在 host 网络模式下"]

  /** The headers passed upstream: the original host and client address,
      and the WebSocket upgrade. */
  const ProxyHeaders := [("Host", "{host}"), ("X-Real-IP", "{remote}"),
                         ("Upgrade", "{http.request.header.Upgrade}"),
                         ("Connection", "{http.request.header.Connection}")]

  /** The site-wide header block: a decoy server name, hardening headers,
      and no caching. */
  const SiteHeaderGroups :=
    [HeaderGroup("隐藏服务器信息", [Remove("Server"), Set("Server", "nginx/1.18.0")]),
     HeaderGroup("安全头", [Set("X-Content-Type-Options", "nosniff"), Set("X-Frame-Options", "DENY"),
                           Set("X-XSS-Protection", "1; mode=block"),
                           Set("Strict-Transport-Security", "max-age=31536000; includeSubDomains")]),
     HeaderGroup("防止缓存敏感路径", [Set("Cache-Control", NoCache)])]

  function Quoted(v: string): string { "\"" + v + "\"" }

  function HeaderLine(indent: string, h: Header): string {
    match h
    case Remove(n) => indent + "-" + n
    case Set(n, v) => indent + n + " " + Quoted(v)
  }

  function HeaderLines(indent: string, hs: seq<Header>): (r: seq<string>)
    ensures |r| == |hs|
  {
    if hs == [] then [] else [HeaderLine(indent, hs[0])] + HeaderLines(indent, hs[1..])
  }

  function HeaderUpLines(hs: seq<(string, string)>): (r: seq<string>)
    ensures |r| == |hs|
  {
    if hs == [] then [] else ["            header_up " + hs[0].0 + " " + hs[0].1] + HeaderUpLines(hs[1..])
  }

  function CommentLines(indent: string, cs: seq<string>): (r: seq<string>)
    ensures |r| == |cs|
  {
    if cs == [] then [] else [indent + "# " + cs[0]] + CommentLines(indent, cs[1..])
  }

  function RouteLines(route: Route): seq<string> {
    match route
    case FileServer(root, hs) =>
      ["        root * " + root, "        file_server"] + HeaderLines("        header ", hs)
    case ReverseProxy(up, hu) =>
      ["        reverse_proxy " + up + " {"] + HeaderUpLines(hu) + ["        }"]
  }

  /** One `handle` block followed by a blank line. */
  function HandleLines(h: Handle): seq<string> {
    CommentLines("    ", h.comments) + ["    handle " + h.path + " {"] + RouteLines(h.route) + ["    }", ""]
  }

  function HandlesLines(hs: seq<Handle>): seq<string> {
    if hs == [] then [] else HandleLines(hs[0]) + HandlesLines(hs[1..])
  }

  /** The groups of the site-wide header block, an indented blank line
      between consecutive groups. */
  function GroupsLines(gs: seq<HeaderGroup>, first: bool): seq<string> {
    if gs == [] then []
    else (if first then [] else ["        "])
         + CommentLines("        ", [gs[0].comment]) + HeaderLines("        ", gs[0].headers)
         + GroupsLines(gs[1..], false)
  }

  function SiteLines(site: CaddySite): seq<string> {
    Preamble(site.address) + HandlesLines(site.handles) + HeaderBlock(site.headerGroups)
    + LogBlock(site.logOutput, site.logFormat) + ["}"]
  }

  /** The banner comments and the line opening the site block. */
  function Preamble(address: string): (r: seq<string>)
    ensures |r| == 4 && r[3] == address + " {"
  {
    ["# Avalon Tunnel - Caddy Configuration", "# 自动 TLS 证书申请和反向代理配置", "", address + " {"]
  }

  /** The site-wide `header` block followed by a blank line. */
  function HeaderBlock(gs: seq<HeaderGroup>): (r: seq<string>)
    ensures |r| == |GroupsLines(gs, true)| + 4
  {
    ["    # 安全头设置", "    header {"] + GroupsLines(gs, true) + ["    }", ""]
  }

  /** The `log` block. */
  function LogBlock(output: string, format: string): (r: seq<string>)
    ensures |r| == 5
  {
    ["    # 日志配置", "    log {", "        output " + output, "        format " + format, "    }"]
  }

  /** The rendered text: every line ends with a newline. */
  function RenderCaddyfile(site: CaddySite): string {
    JoinWith(SiteLines(site) + [""], '\n')
  }

  /** `generate_caddyfile(domain, secret_path, v2ray_port)`. */
  function GenerateCaddyfile(domain: string, secretPath: string, port: int): string {
    RenderCaddyfile(CaddySiteFor(domain, secretPath, port))
  }

  function ProxiedPaths(hs: seq<Handle>): (r: seq<(string, string)>)
    ensures |r| <= |hs|
  {
    if hs == [] then []
    else match hs[0].route
      case ReverseProxy(up, _) => [(hs[0].path, up)] + ProxiedPaths(hs[1..])
      case FileServer(_, _) => ProxiedPaths(hs[1..])
  }

  function SiteHeaders(gs: seq<HeaderGroup>): seq<Header> {
    if gs == [] then [] else gs[0].headers + SiteHeaders(gs[1..])
  }

  /** The site serves its address; exactly one path is proxied, the secret
      one, to the daemon's loopback port, with the WebSocket upgrade headers
      passed on; `/` is a static file server; and the site-wide headers hide
      the real server behind a decoy, forbid MIME sniffing and demand HSTS. */
  lemma CaddySiteRoutes(domain: string, secretPath: string, port: int)
    ensures var site := CaddySiteFor(domain, secretPath, port);
      site.address == domain
      && ProxiedPaths(site.handles) == [("/" + secretPath, "127.0.0.1:" + Decimal(port))]
      && (forall h :: h in site.handles && h.path == "/" && secretPath != "" ==> h.route.FileServer?)
      && (forall h :: h in site.handles && h.route.ReverseProxy? ==>
            ("Upgrade", "{http.request.header.Upgrade}") in h.route.headerUp
            && ("Connection", "{http.request.header.Connection}") in h.route.headerUp)
      && Remove("Server") in SiteHeaders(site.headerGroups)
      && Set("Server", "nginx/1.18.0") in SiteHeaders(site.headerGroups)
      && Set("X-Content-Type-Options", "nosniff") in SiteHeaders(site.headerGroups)
      && Set("Strict-Transport-Security", "max-age=31536000; includeSubDomains") in SiteHeaders(site.headerGroups)
  {
    var site := CaddySiteFor(domain, secretPath, port);
    assert ProxiedPaths(site.handles[1..]) == [("/" + secretPath, "127.0.0.1:" + Decimal(port))];
    var gs := site.headerGroups;
    assert SiteHeaders(gs[2..]) == gs[2].headers by { assert gs[2..][1..] == []; }
    assert SiteHeaders(gs[1..]) == gs[1].headers + gs[2].headers by { assert gs[1..][1..] == gs[2..]; }
    assert SiteHeaders(gs) == gs[0].headers + gs[1].headers + gs[2].headers;
  }

  /** The two handle blocks, a decoy file server and then the proxy,
      render to 20 lines with the secret `handle` line and its
      `reverse_proxy` line at fixed places. */
  lemma {:induction false} HandlesLayout(hs: seq<Handle>)
    requires |hs| == 2
    requires |hs[0].comments| == 1 && hs[0].path == "/" && hs[0].route.FileServer?
             && |hs[0].route.headers| == 3
    requires |hs[1].comments| == 2 && hs[1].route.ReverseProxy? && |hs[1].route.headerUp| == 4
    ensures var hl := HandlesLines(hs);
      |hl| == 20 && hl[1] == "    handle / {" && hl[11] == "    handle " + hs[1].path + " {"
      && hl[12] == "        reverse_proxy " + hs[1].route.upstream + " {"
  {
    var h0 := HandleLines(hs[0]);
    var h1 := HandleLines(hs[1]);
    FileHandleLayout(hs[0]);
    ProxyHandleLayout(hs[1]);
    assert hs[1..][1..] == [];
    assert HandlesLines(hs[1..]) == h1 + [];
    assert HandlesLines(hs) == h0 + h1;
  }

  lemma FileHandleLayout(h: Handle)
    requires |h.comments| == 1 && h.path == "/" && h.route.FileServer? && |h.route.headers| == 3
    ensures var lines := HandleLines(h); |lines| == 9 && lines[1] == "    handle / {"
  {
    assert |RouteLines(h.route)| == 5;
  }

  lemma ProxyHandleLayout(h: Handle)
    requires |h.comments| == 2 && h.route.ReverseProxy? && |h.route.headerUp| == 4
    ensures var lines := HandleLines(h);
      |lines| == 11 && lines[2] == "    handle " + h.path + " {"
      && lines[3] == "        reverse_proxy " + h.route.upstream + " {"
  {
    var r := RouteLines(h.route);
    assert |r| == 6 && r[0] == "        reverse_proxy " + h.route.upstream + " {";
  }

  /** Three header groups of two, four and one directives render to 12
      lines: a comment and the directives each, blank lines between. */
  lemma {:induction false} GroupsLayout(gs: seq<HeaderGroup>)
    requires |gs| == 3 && |gs[0].headers| == 2 && |gs[1].headers| == 4 && |gs[2].headers| == 1
    ensures |GroupsLines(gs, true)| == 12
  {
    assert gs[1..][1..] == gs[2..];
    assert gs[2..][1..] == [];
    assert |GroupsLines(gs[2..], false)| == 3;
    assert |GroupsLines(gs[1..], false)| == 9;
  }

  /** The shape of the generated site: a decoy file server at `/` with
      one comment and three headers, then a proxy with two comments and
      four upstream headers, and header groups of two, four and one
      directives. */
  predicate CaddyShaped(site: CaddySite) {
    |site.handles| == 2
    && |site.handles[0].comments| == 1 && site.handles[0].path == "/"
    && site.handles[0].route.FileServer? && |site.handles[0].route.headers| == 3
    && |site.handles[1].comments| == 2 && site.handles[1].route.ReverseProxy?
    && |site.handles[1].route.headerUp| == 4
    && |site.headerGroups| == 3 && |site.headerGroups[0].headers| == 2
    && |site.headerGroups[1].headers| == 4 && |site.headerGroups[2].headers| == 1
  }

  /** A site of that shape renders to 46 lines with its address, the
      `handle` lines and the `reverse_proxy` line at fixed places. */
  lemma SiteLayout(site: CaddySite)
    requires CaddyShaped(site)
    ensures var lines := SiteLines(site);
      |lines| == 46
      && lines[3] == site.address + " {"
      && lines[5] == "    handle / {"
      && lines[15] == "    handle " + site.handles[1].path + " {"
      && lines[16] == "        reverse_proxy " + site.handles[1].route.upstream + " {"
      && lines[45] == "}"
  {
    HandlesLayout(site.handles);
    GroupsLayout(site.headerGroups);
    var pre := Preamble(site.address);
    var hl := HandlesLines(site.handles);
    var x := pre + hl;
    assert x[3] == pre[3] && x[5] == hl[1] && x[15] == hl[11] && x[16] == hl[12];
    var y := x + HeaderBlock(site.headerGroups) + LogBlock(site.logOutput, site.logFormat);
    assert |y| == 45;
    assert forall k :: 0 <= k < |x| ==> y[k] == x[k];
  }

  /** The site `generate_caddyfile` renders has that shape, serves the
      domain, proxies `/` + the secret path to the daemon's loopback port. */
  lemma CaddySiteShape(domain: string, secretPath: string, port: int)
    ensures var site := CaddySiteFor(domain, secretPath, port);
      CaddyShaped(site) && site.address == domain
      && site.handles[1].path == "/" + secretPath
      && site.handles[1].route.upstream == "127.0.0.1:" + Decimal(port)
  {
  }

  // ------------------------------------------------------------- share link

  /** The query of a share link, in the order the dict literal lists it. */
  function LinkParams(domain: string, secretPath: string): seq<(string, string)> {
    [("type", "ws"), ("security", "tls"), ("path", "/" + secretPath), ("host", domain), ("sni", domain)]
  }

  /** `generate_vless_link(uuid, domain, secret_path, email)`: the fragment
      is `quote(email)` with its default safe character `/`. */
  function VlessLink(uuid: string, domain: string, secretPath: string, email: string): string {
    "vless://" + uuid + "@" + (domain + ":443?" + (UrlEncode(LinkParams(domain, secretPath))
    + "#" + Quote(email, {'/'})))
  }

  /** A share link taken apart: the user before `@`, the authority up to
      `?`, the decoded query up to `#`, and the decoded fragment. */
  datatype VlessParts = VlessParts(user: string, authority: string,
                                   query: seq<(seq<Byte>, seq<Byte>)>, remark: seq<Byte>)

  function ParseVlessLink(link: string): Option<VlessParts> {
    if |link| < 8 || link[..8] != "vless://" then None
    else
      var rest := link[8..];
      match IndexOf(rest, '@')
      case None => None
      case Some(a) =>
        match ParseAddress(rest[a + 1..])
        case None => None
        case Some((authority, query, remark)) => Some(VlessParts(rest[..a], authority, query, remark))
  }

  /** The part after `@`: authority up to the first `?`, then the query. */
  function ParseAddress(after: string): Option<(string, seq<(seq<Byte>, seq<Byte>)>, seq<Byte>)> {
    match IndexOf(after, '?')
    case None => None
    case Some(q) =>
      match ParseQueryFragment(after[q + 1..])
      case None => None
      case Some((query, remark)) => Some((after[..q], query, remark))
  }

  /** The part after `?`: the query up to the first `#`, then the fragment. */
  function ParseQueryFragment(tail: string): Option<(seq<(seq<Byte>, seq<Byte>)>, seq<Byte>)> {
    match IndexOf(tail, '#')
    case None => None
    case Some(h) =>
      match (ParseQuery(tail[..h]), Unquote(tail[h + 1..], false))
      case (Some(ps), Some(remark)) => Some((ps, remark))
      case _ => None
  }

  lemma QueryFragmentRoundTrip(params: seq<(string, string)>, email: string)
    ensures ParseQueryFragment(UrlEncode(params) + "#" + Quote(email, {'/'}))
              == Some((Utf8Pairs(params), Utf8(email)))
  {
    var q := UrlEncode(params);
    var f := Quote(email, {'/'});
    var tail := q + "#" + f;
    UrlEncodeDelimiters(params);
    IndexOfAfter(q, '#', f);
    assert tail == q + ['#'] + f;
    assert tail[..|q|] == q && tail[|q| + 1..] == f;
    ParseUrlEncode(params);
    QuoteRoundTrip(email, {'/'});
  }

  lemma AddressRoundTrip(domain: string, tail: string)
    requires '?' !in domain
    ensures ParseAddress(domain + ":443?" + tail) == match ParseQueryFragment(tail)
              case None => None
              case Some((query, remark)) => Some((domain + ":443", query, remark))
  {
    var authority := domain + ":443";
    assert '?' !in authority;
    IndexOfAfter(authority, '?', tail);
    assert domain + ":443?" + tail == authority + ['?'] + tail;
    assert (authority + ['?'] + tail)[..|authority|] == authority;
    assert (authority + ['?'] + tail)[|authority| + 1..] == tail;
  }

  lemma UserRoundTrip(uuid: string, after: string)
    requires '@' !in uuid
    ensures ParseVlessLink("vless://" + uuid + "@" + after) == match ParseAddress(after)
              case None => None
              case Some((authority, query, remark)) => Some(VlessParts(uuid, authority, query, remark))
  {
    var rest := uuid + ['@'] + after;
    assert "vless://" + uuid + "@" + after == "vless://" + rest;
    assert ("vless://" + rest)[8..] == rest;
    IndexOfAfter(uuid, '@', after);
    assert rest[..|uuid|] == uuid;
    assert rest[|uuid| + 1..] == after;
  }

  /** A client reading the link recovers the user id, connects to the
      domain on port 443, finds the WebSocket path, TLS and server name in
      the query, and the email as the remark. */
  lemma VlessLinkRoundTrip(uuid: string, domain: string, secretPath: string, email: string)
    requires '@' !in uuid && '?' !in domain
    ensures ParseVlessLink(VlessLink(uuid, domain, secretPath, email))
              == Some(VlessParts(uuid, domain + ":443", Utf8Pairs(LinkParams(domain, secretPath)), Utf8(email)))
  {
    var params := LinkParams(domain, secretPath);
    var tail := UrlEncode(params) + "#" + Quote(email, {'/'});
    var after := domain + ":443?" + tail;
    var link := VlessLink(uuid, domain, secretPath, email);
    assert link == "vless://" + uuid + "@" + after;
    QueryFragmentRoundTrip(params, email);
    AddressRoundTrip(domain, tail);
    assert ParseAddress(after) == Some((domain + ":443", Utf8Pairs(params), Utf8(email)));
    UserRoundTrip(uuid, after);
    assert ParseVlessLink("vless://" + uuid + "@" + after)
      == Some(VlessParts(uuid, domain + ":443", Utf8Pairs(params), Utf8(email)));
  }
}
