/** The two front ends for VLESS nodes: a Clash entry and a share URI, and when both describe the
    same node to the rest of the program (internal/subscription/parse.go). */
module VlessFrontEnds {
  import opened Options
  import opened Ordering
  import opened RegistryModel
  import opened Merge

  /** A decoded value, as far as these functions look at one. */
  datatype Any = Str(s: string) | Int(n: int) | Bool(b: bool) | Obj(fields: Fields)

  type Fields = map<string, Any>

  // ----- string helpers -----

  /** White space as strings.TrimSpace sees it. */
  predicate IsSpace(c: char) {
    var n := c as int;
    9 <= n <= 13 || n == 0x20 || n == 0x85 || n == 0xA0 || n == 0x1680 || 0x2000 <= n <= 0x200A
    || n == 0x2028 || n == 0x2029 || n == 0x202F || n == 0x205F || n == 0x3000
  }

  function TrimLeft(s: string): string {
    if s != [] && IsSpace(s[0]) then TrimLeft(s[1..]) else s
  }

  function TrimRight(s: string): string {
    if s != [] && IsSpace(s[|s| - 1]) then TrimRight(s[..|s| - 1]) else s
  }

  function Trim(s: string): string {
    TrimRight(TrimLeft(s))
  }

  /** strings.ToLower as far as it yields ASCII, which is all that its results are compared with: the
      capital I with a dot and the Kelvin sign are the only other characters with an ASCII lower case. */
  function LowerChar(c: char): char {
    if 'A' <= c <= 'Z' then (c as int + 32) as char
    else if c as int == 0x130 then 'i'
    else if c as int == 0x212A then 'k'
    else c
  }

  function Lower(s: string): (lower: string)
    ensures |lower| == |s|
  {
    seq(|s|, i requires 0 <= i < |s| => LowerChar(s[i]))
  }

  function Raw(input: Fields, key: string): string {
    if key in input && input[key].Str? then input[key].s else ""
  }

  function StringValue(input: Fields, key: string): string {
    Trim(Raw(input, key))
  }

  predicate BoolValue(input: Fields, key: string) {
    key in input && match input[key]
      case Bool(b) => b
      case Str(s) => Lower(s) == "true" || s == "1"
      case _ => false
  }

  function FirstNonEmpty(values: seq<string>): string {
    if values == [] then ""
    else if Trim(values[0]) != "" then Trim(values[0])
    else FirstNonEmpty(values[1..])
  }

  function Digit(c: char): Option<nat> {
    if '0' <= c <= '9' then var n: nat := c as int - 48; Some(n) else None
  }

  function Digits(s: string): Option<nat> {
    if s == [] then Some(0)
    else
      var before, last := Digits(s[..|s| - 1]), Digit(s[|s| - 1]);
      if before.Some? && last.Some? then var n: nat := before.value * 10 + last.value; Some(n) else None
  }

  /** strconv.Atoi, without its range check. */
  function Atoi(s: string): Option<int> {
    var digits := if s != [] && (s[0] == '-' || s[0] == '+') then s[1..] else s;
    if digits == [] || Digits(digits).None? then None
    else
      var n: int := Digits(digits).value;
      Some(if s[0] == '-' then -n else n)
  }

  function IntValue(input: Fields, key: string): Option<int> {
    if key !in input then None
    else match input[key]
      case Int(n) => Some(n)
      case Str(s) => Atoi(s)
      case _ => None
  }

  predicate PortOk(port: Option<int>) {
    port.Some? && 1 <= port.value <= 65535
  }

  function With(m: Fields, key: string, present: bool, value: Any): Fields {
    if present then m[key := value] else m
  }

  function WithString(m: Fields, key: string, value: string): Fields {
    With(m, key, value != "", Str(value))
  }

  function SubMap(input: Fields, key: string): Option<Fields> {
    if key in input && input[key].Obj? then Some(input[key].fields) else None
  }

  // ----- the Clash front end -----

  /** normalizeClashNode for an entry of type vless. */
  function NormalizeClash(input: Fields): Option<Fields>
    requires Lower(StringValue(input, "type")) == "vless"
  {
    var server, port, uuid := StringValue(input, "server"), IntValue(input, "port"), StringValue(input, "uuid");
    if server == "" || !PortOk(port) then None
    else if uuid == "" then None
    else
      var base: Fields := map["type" := Str("vless"), "tag" := Str(StringValue(input, "name")), "server" := Str(server),
                              "server_port" := Int(port.value), "uuid" := Str(uuid)];
      var flowed := WithString(base, "flow", StringValue(input, "flow"));
      var secured := With(flowed, "tls", WantsTls(input), Obj(ClashTls(input)));
      var transport := ClashTransport(input);
      Some(if transport.Some? then secured["transport" := Obj(transport.value)] else secured)
  }

  predicate WantsTls(input: Fields) {
    BoolValue(input, "tls") || Lower(StringValue(input, "security")) in {"tls", "reality"}
    || SubMap(input, "reality-opts").Some?
  }

  function ClashTls(input: Fields): Fields {
    var base: Fields := map["enabled" := Bool(true)];
    var named := WithString(base, "server_name",
                            FirstNonEmpty([StringValue(input, "servername"), StringValue(input, "sni")]));
    var lax := With(named, "insecure", BoolValue(input, "skip-cert-verify"), Bool(true));
    var fingerprint := StringValue(input, "client-fingerprint");
    var printed := With(lax, "utls", fingerprint != "", Utls(fingerprint));
    var reality := SubMap(input, "reality-opts");
    if reality.None? then printed
    else
      var options := WithString(map["enabled" := Bool(true)], "public_key", StringValue(reality.value, "public-key"));
      printed["reality" := Obj(WithString(options, "short_id", StringValue(reality.value, "short-id")))]
  }

  function Utls(fingerprint: string): Any {
    Obj(map["enabled" := Bool(true), "fingerprint" := Str(fingerprint)])
  }

  function ClashTransport(input: Fields): Option<Fields> {
    var network := Lower(StringValue(input, "network"));
    if network == "ws" || network == "websocket" then
      var base: Fields := map["type" := Str("ws")];
      var options := SubMap(input, "ws-opts");
      if options.None? then Some(base)
      else
        var pathed := WithString(base, "path", StringValue(options.value, "path"));
        var headers := SubMap(options.value, "headers");
        Some(if headers.Some? then pathed["headers" := Obj(headers.value)] else pathed)
    else if network == "grpc" then
      var options := SubMap(input, "grpc-opts");
      Some(WithString(map["type" := Str("grpc")], "service_name",
        if options.None? then ""
        else FirstNonEmpty([StringValue(options.value, "grpc-service-name"), StringValue(options.value, "service-name")])))
    else if network == "http" || network == "h2" then Some(map["type" := Str("http")])
    else None
  }

  // ----- the URI front end -----

  /** A parsed share URI; the port is still text, empty when there is none. */
  datatype Uri = Uri(scheme: string, user: Option<string>, host: string, port: string, fragment: string,
                     query: map<string, string>)

  function Get(query: map<string, string>, key: string): string {
    if key in query then query[key] else ""
  }

  predicate Truthy(query: map<string, string>, key: string) {
    Get(query, key) == "1" || Lower(Get(query, key)) == "true"
  }

  /** normalizeURINode for scheme vless. */
  function NormalizeUri(u: Uri): Option<Fields>
    requires Lower(u.scheme) == "vless"
  {
    if !PortOk(Atoi(u.port)) || u.host == "" then None
    else if u.user.None? || u.user.value == "" then None
    else
      var base: Fields := map["type" := Str("vless"), "tag" := Str(u.fragment), "server" := Str(u.host),
                              "server_port" := Int(Atoi(u.port).value), "uuid" := Str(u.user.value)];
      var flowed := WithString(base, "flow", Get(u.query, "flow"));
      var security := Lower(Get(u.query, "security"));
      var secured := With(flowed, "tls", security == "tls" || security == "reality",
                          Obj(UriTls(u.query, security == "reality")));
      var transport := UriTransport(u.query);
      Some(if transport.Some? then secured["transport" := Obj(transport.value)] else secured)
  }

  function UriTls(query: map<string, string>, reality: bool): Fields {
    var base: Fields := map["enabled" := Bool(true)];
    var named := WithString(base, "server_name",
                            FirstNonEmpty([Get(query, "sni"), Get(query, "servername"), Get(query, "peer")]));
    var lax := With(named, "insecure", Truthy(query, "allowInsecure") || Truthy(query, "insecure"), Bool(true));
    var fingerprint := FirstNonEmpty([Get(query, "fp"), Get(query, "fingerprint")]);
    var printed := With(lax, "utls", fingerprint != "", Utls(fingerprint));
    With(printed, "reality", reality, Obj(map["enabled" := Bool(true), "public_key" := Str(Get(query, "pbk")),
                                              "short_id" := Str(Get(query, "sid"))]))
  }

  function UriTransport(query: map<string, string>): Option<Fields> {
    var network := Lower(Get(query, "type"));
    if network == "ws" || network == "websocket" then
      var pathed := WithString(map["type" := Str("ws")], "path", Get(query, "path"));
      Some(With(pathed, "headers", Get(query, "host") != "", Obj(map["Host" := Str(Get(query, "host"))])))
    else if network == "grpc" then
      Some(WithString(map["type" := Str("grpc")], "service_name",
                      FirstNonEmpty([Get(query, "serviceName"), Get(query, "service_name")])))
    else if network == "http" || network == "h2" then Some(map["type" := Str("http")])
    else None
  }

  // ----- one node, written both ways -----

  datatype Security = Plain | Tls | Reality

  datatype Network = Tcp | Ws | Grpc | Http

  datatype Node = Node(
    name: string, server: string, port: int, uuid: string, flow: string,
    security: Security, serverName: string, insecure: bool, fingerprint: string, publicKey: string, shortId: string,
    network: Network, path: string, host: string, serviceName: string)

  function NetworkName(network: Network): string {
    match network
    case Tcp => "tcp"
    case Ws => "ws"
    case Grpc => "grpc"
    case Http => "http"
  }

  function SecurityName(security: Security): string {
    match security
    case Plain => "none"
    case Tls => "tls"
    case Reality => "reality"
  }

  function ToClash(v: Node): Fields {
    var base: Fields := map[
      "type" := Str("vless"), "name" := Str(v.name), "server" := Str(v.server), "port" := Int(v.port),
      "uuid" := Str(v.uuid), "flow" := Str(v.flow), "tls" := Bool(!v.security.Plain?), "servername" := Str(v.serverName),
      "skip-cert-verify" := Bool(v.insecure), "client-fingerprint" := Str(v.fingerprint),
      "network" := Str(NetworkName(v.network)),
      "ws-opts" := Obj(With(map["path" := Str(v.path)], "headers", v.host != "", Obj(map["Host" := Str(v.host)]))),
      "grpc-opts" := Obj(map["grpc-service-name" := Str(v.serviceName)])];
    With(base, "reality-opts", v.security.Reality?,
         Obj(map["public-key" := Str(v.publicKey), "short-id" := Str(v.shortId)]))
  }

  /** The decimal form of a number. */
  function Decimal(n: int): (s: string)
    ensures Atoi(s) == Some(n)
  {
    if n < 0 then ['-'] + DecimalDigits(-n) else DecimalDigits(n)
  }

  function DecimalDigits(n: nat): (s: string)
    ensures s != [] && s[0] != '-' && s[0] != '+' && Digits(s) == Some(n)
  {
    var last := (n % 10 + 48) as char;
    if n < 10 then [last]
    else
      var before := DecimalDigits(n / 10);
      assert (before + [last])[..|before|] == before;
      before + [last]
  }

  function ToUri(v: Node): Uri {
    Uri("vless", Some(v.uuid), v.server, Decimal(v.port), v.name, map[
      "flow" := v.flow, "security" := SecurityName(v.security), "sni" := v.serverName,
      "allowInsecure" := if v.insecure then "1" else "", "fp" := v.fingerprint, "pbk" := v.publicKey, "sid" := v.shortId,
      "type" := NetworkName(v.network), "path" := v.path, "host" := v.host, "serviceName" := v.serviceName])
  }

  // ----- every spelling of a node -----

  function NetworkOf(word: string): Network {
    if word == "ws" || word == "websocket" then Ws
    else if word == "grpc" then Grpc
    else if word == "http" || word == "h2" then Http
    else Tcp
  }

  function SecurityOf(word: string): Security {
    if word == "tls" then Tls else if word == "reality" then Reality else Plain
  }

  /** The Clash entry describes the node, under any of the names and in any of the forms that the
      front end understands. */
  ghost predicate ClashSpells(input: Fields, v: Node) {
    && Lower(StringValue(input, "type")) == "vless"
    && Raw(input, "name") == v.name && Raw(input, "server") == v.server && IntValue(input, "port") == Some(v.port)
    && Raw(input, "uuid") == v.uuid && Raw(input, "flow") == v.flow
    && (|| BoolValue(input, "tls") || Lower(StringValue(input, "security")) == "tls"
        || Lower(StringValue(input, "security")) == "reality" || SubMap(input, "reality-opts").Some?
        <==> !v.security.Plain?)
    && (!v.security.Plain? ==> ClashSpellsTls(input, v))
    && ClashSpellsTransport(input, v)
  }

  ghost predicate ClashSpellsTls(input: Fields, v: Node) {
    var reality := SubMap(input, "reality-opts");
    && FirstNonEmpty([StringValue(input, "servername"), StringValue(input, "sni")]) == Trim(v.serverName)
    && (BoolValue(input, "skip-cert-verify") <==> v.insecure)
    && StringValue(input, "client-fingerprint") == Trim(v.fingerprint)
    && (reality.Some? <==> v.security.Reality?)
    && (reality.Some? ==> Raw(reality.value, "public-key") == v.publicKey && Raw(reality.value, "short-id") == v.shortId)
  }

  ghost predicate ClashSpellsTransport(input: Fields, v: Node) {
    var ws, grpc := SubMap(input, "ws-opts"), SubMap(input, "grpc-opts");
    && NetworkOf(Lower(StringValue(input, "network"))) == v.network
    && (v.network.Ws? ==>
          if ws.None? then v.path == "" && v.host == ""
          else Raw(ws.value, "path") == v.path
               && SubMap(ws.value, "headers") == if v.host == "" then None else Some(map["Host" := Str(v.host)]))
    && (v.network.Grpc? ==>
          Trim(v.serviceName) ==
          if grpc.None? then ""
          else FirstNonEmpty([StringValue(grpc.value, "grpc-service-name"), StringValue(grpc.value, "service-name")]))
  }

  /** The share URI describes the node. */
  ghost predicate UriSpells(u: Uri, v: Node) {
    && Lower(u.scheme) == "vless"
    && u.fragment == v.name && u.host == v.server && Atoi(u.port) == Some(v.port)
    && (if u.user.Some? then u.user.value else "") == v.uuid && Get(u.query, "flow") == v.flow
    && SecurityOf(Lower(Get(u.query, "security"))) == v.security
    && (!v.security.Plain? ==> UriSpellsTls(u.query, v))
    && UriSpellsTransport(u.query, v)
  }

  ghost predicate UriSpellsTls(query: map<string, string>, v: Node) {
    && FirstNonEmpty([Get(query, "sni"), Get(query, "servername"), Get(query, "peer")]) == Trim(v.serverName)
    && (Truthy(query, "allowInsecure") || Truthy(query, "insecure") <==> v.insecure)
    && FirstNonEmpty([Get(query, "fp"), Get(query, "fingerprint")]) == Trim(v.fingerprint)
    && (v.security.Reality? ==> Get(query, "pbk") == v.publicKey && Get(query, "sid") == v.shortId)
  }

  ghost predicate UriSpellsTransport(query: map<string, string>, v: Node) {
    && NetworkOf(Lower(Get(query, "type"))) == v.network
    && (v.network.Ws? ==> Get(query, "path") == v.path && Get(query, "host") == v.host)
    && (v.network.Grpc? ==>
          FirstNonEmpty([Get(query, "serviceName"), Get(query, "service_name")]) == Trim(v.serviceName))
  }

  predicate Tidy(s: string) {
    Trim(s) == s
  }

  /** The condition under which both spellings mean the same node. */
  predicate Clean(v: Node) {
    && Tidy(v.server) && v.server != "" && 1 <= v.port <= 65535
    && Tidy(v.uuid) && v.uuid != "" && Tidy(v.flow)
    && (v.security.Reality? ==> Tidy(v.publicKey) && v.publicKey != "" && Tidy(v.shortId) && v.shortId != "")
    && (v.network.Ws? ==> Tidy(v.path))
  }

  /** stableMapID's canonical form: without display names, and with one name for the port. */
  function Canonical(m: Fields): Fields {
    var anonymous := m - {"tag", "name"};
    if "port" in anonymous then anonymous["server_port" := anonymous["port"]] - {"port"} else anonymous
  }

  // ----- trimming and lower case -----

  lemma {:induction false} TrimLeftStarts(s: string)
    ensures TrimLeft(s) == "" || !IsSpace(TrimLeft(s)[0])
    decreases |s|
  {
    if s != [] && IsSpace(s[0]) { TrimLeftStarts(s[1..]); }
  }

  lemma {:induction false} TrimRightEnds(s: string)
    ensures TrimRight(s) <= s && (TrimRight(s) == "" || !IsSpace(TrimRight(s)[|TrimRight(s)| - 1]))
    decreases |s|
  {
    if s != [] && IsSpace(s[|s| - 1]) { TrimRightEnds(s[..|s| - 1]); }
  }

  lemma TrimTwice(s: string)
    ensures Trim(Trim(s)) == Trim(s)
  {
    TrimLeftStarts(s);
    TrimRightEnds(TrimLeft(s));
  }

  lemma LowerKeeps(s: string)
    requires forall i :: 0 <= i < |s| ==> s[i] < 'A' || 'Z' < s[i] <= 'z'
    ensures Lower(s) == s
  {
  }

  lemma TidyWord(s: string)
    requires s != "" && !IsSpace(s[0]) && !IsSpace(s[|s| - 1])
    ensures Trim(s) == s
  {
  }

  /** A lower-case word is read as it is. */
  lemma Keyword(s: string)
    requires s != "" && forall i :: 0 <= i < |s| ==> 'a' <= s[i] <= 'z'
    ensures Lower(s) == s && Trim(s) == s
  {
    LowerKeeps(s);
    TidyWord(s);
  }

  lemma NetworkNames(network: Network)
    ensures NetworkOf(Lower(NetworkName(network))) == network && Trim(NetworkName(network)) == NetworkName(network)
  {
    Keyword(NetworkName(network));
  }

  lemma SecurityNames(security: Security)
    ensures SecurityOf(Lower(SecurityName(security))) == security
  {
    Keyword(SecurityName(security));
  }

  /** Trim cuts the white space off both ends and nothing else. */
  lemma TrimStrips(s: string) returns (a: nat, b: nat)
    ensures a <= b <= |s| && Trim(s) == s[a..b]
    ensures (forall i :: 0 <= i < a ==> IsSpace(s[i])) && (forall i :: b <= i < |s| ==> IsSpace(s[i]))
    ensures a < b ==> !IsSpace(s[a]) && !IsSpace(s[b - 1])
  {
    a := TrimLeftStrips(s);
    b := TrimRightStrips(s[a..]);
    var l := s[a..];
    forall i | a + b <= i < |s| ensures IsSpace(s[i]) {
      assert s[i] == l[i - a];
    }
    b := a + b;
  }

  lemma {:induction false} TrimLeftStrips(s: string) returns (a: nat)
    ensures a <= |s| && TrimLeft(s) == s[a..] && (forall i :: 0 <= i < a ==> IsSpace(s[i]))
    ensures a < |s| ==> !IsSpace(s[a])
    decreases |s|
  {
    a := 0;
    if s != [] && IsSpace(s[0]) {
      var rest := TrimLeftStrips(s[1..]);
      assert forall i :: 1 <= i <= rest ==> s[i] == s[1..][i - 1];
      a := rest + 1;
    }
  }

  lemma {:induction false} TrimRightStrips(s: string) returns (b: nat)
    ensures b <= |s| && TrimRight(s) == s[..b] && (forall i :: b <= i < |s| ==> IsSpace(s[i]))
    ensures 0 < b ==> !IsSpace(s[b - 1])
    decreases |s|
  {
    b := |s|;
    if s != [] && IsSpace(s[|s| - 1]) {
      b := TrimRightStrips(s[..|s| - 1]);
      assert s[..|s| - 1][..b] == s[..b];
    }
  }

  /** A word is recognized in any letter case. */
  lemma WordInAnyCase(s: string, word: string)
    requires forall i :: 0 <= i < |word| ==> 'a' <= word[i] <= 'z'
    ensures Lower(s) == word <==>
      && |s| == |word|
      && forall i :: 0 <= i < |s| ==>
           || s[i] == word[i] || s[i] as int == word[i] as int - 32
           || (word[i] == 'i' && s[i] as int == 0x130) || (word[i] == 'k' && s[i] as int == 0x212A)
  {
    if |s| == |word| {
      forall i | 0 <= i < |s| ensures Lower(s)[i] == word[i] <==>
                                        || s[i] == word[i] || s[i] as int == word[i] as int - 32
                                        || (word[i] == 'i' && s[i] as int == 0x130)
                                        || (word[i] == 'k' && s[i] as int == 0x212A)
      {
        LetterInAnyCase(s[i], word[i]);
      }
    }
  }

  lemma LetterInAnyCase(c: char, letter: char)
    requires 'a' <= letter <= 'z'
    ensures LowerChar(c) == letter <==>
      || c == letter || c as int == letter as int - 32
      || (letter == 'i' && c as int == 0x130) || (letter == 'k' && c as int == 0x212A)
  {
  }

  /** A number is an optional sign and at least one decimal digit. */
  lemma NumberIff(s: string)
    ensures Atoi(s).Some? <==>
      var digits := if s != "" && (s[0] == '-' || s[0] == '+') then s[1..] else s;
      digits != "" && forall i :: 0 <= i < |digits| ==> '0' <= digits[i] <= '9'
  {
    DigitsIff(if s != "" && (s[0] == '-' || s[0] == '+') then s[1..] else s);
  }

  lemma {:induction false} DigitsIff(s: string)
    ensures Digits(s).Some? <==> forall i :: 0 <= i < |s| ==> '0' <= s[i] <= '9'
    decreases |s|
  {
    if s != "" {
      DigitsIff(s[..|s| - 1]);
      assert forall i :: 0 <= i < |s| - 1 ==> s[..|s| - 1][i] == s[i];
    }
  }

  /** Flags are set by true, by "true" in any letter case, and by "1". */
  lemma FlagIff(input: Fields, query: map<string, string>, key: string)
    ensures BoolValue(input, key) <==>
      key in input && (input[key] == Bool(true)
                       || (input[key].Str? && (input[key].s == "1" || Lower(input[key].s) == "true")))
    ensures Truthy(query, key) <==> key in query && (query[key] == "1" || Lower(query[key]) == "true")
  {
  }

  /** The words for transports and security. */
  lemma Words(word: string)
    ensures NetworkOf(word) == if word in {"ws", "websocket"} then Ws else if word == "grpc" then Grpc
                               else if word in {"http", "h2"} then Http else Tcp
    ensures SecurityOf(word) == if word == "tls" then Tls else if word == "reality" then Reality else Plain
  {
  }

  lemma FirstOfTwo(a: string, b: string)
    ensures FirstNonEmpty([a, b]) == if Trim(a) != "" then Trim(a) else Trim(b)
  {
    assert [a, b][1..] == [b] && [b][1..] == [];
    assert FirstNonEmpty([b]) == Trim(b);
  }

  lemma FirstOfThree(a: string, b: string, c: string)
    ensures FirstNonEmpty([a, b, c]) == if Trim(a) != "" then Trim(a) else FirstNonEmpty([b, c])
  {
    assert [a, b, c][1..] == [b, c];
  }

  // ----- both front ends in one normal form -----

  ghost function Normal(name: string, server: string, port: int, uuid: string, flow: string,
                        tls: Option<Fields>, transport: Option<Fields>): Fields
  {
    var base: Fields := map["type" := Str("vless"), "tag" := Str(name), "server" := Str(server),
                            "server_port" := Int(port), "uuid" := Str(uuid)];
    var flowed := WithString(base, "flow", flow);
    var secured := if tls.Some? then flowed["tls" := Obj(tls.value)] else flowed;
    if transport.Some? then secured["transport" := Obj(transport.value)] else secured
  }

  ghost function NormalTls(serverName: string, insecure: bool, fingerprint: string, reality: Option<Fields>): Fields {
    var base: Fields := map["enabled" := Bool(true)];
    var named := WithString(base, "server_name", serverName);
    var lax := With(named, "insecure", insecure, Bool(true));
    var printed := With(lax, "utls", fingerprint != "", Utls(fingerprint));
    if reality.Some? then printed["reality" := Obj(reality.value)] else printed
  }

  ghost function ClashReality(v: Node): Fields {
    WithString(WithString(map["enabled" := Bool(true)], "public_key", Trim(v.publicKey)), "short_id", Trim(v.shortId))
  }

  ghost function UriReality(v: Node): Fields {
    map["enabled" := Bool(true), "public_key" := Str(v.publicKey), "short_id" := Str(v.shortId)]
  }

  ghost function NormalTlsOf(v: Node, reality: Fields): Option<Fields> {
    if v.security.Plain? then None
    else Some(NormalTls(Trim(v.serverName), v.insecure, Trim(v.fingerprint), if v.security.Reality? then Some(reality) else None))
  }

  ghost function NormalTransport(v: Node, path: string): Option<Fields> {
    match v.network
    case Tcp => None
    case Ws => Some(With(WithString(map["type" := Str("ws")], "path", path), "headers", v.host != "",
                         Obj(map["Host" := Str(v.host)])))
    case Grpc => Some(WithString(map["type" := Str("grpc")], "service_name", Trim(v.serviceName)))
    case Http => Some(map["type" := Str("http")])
  }

  ghost function ClashNormal(v: Node): Fields {
    Normal(Trim(v.name), Trim(v.server), v.port, Trim(v.uuid), Trim(v.flow),
           NormalTlsOf(v, ClashReality(v)), NormalTransport(v, Trim(v.path)))
  }

  ghost function UriNormal(v: Node): Fields {
    Normal(v.name, v.server, v.port, v.uuid, v.flow, NormalTlsOf(v, UriReality(v)), NormalTransport(v, v.path))
  }

  lemma ClashTlsForm(input: Fields, v: Node)
    requires !v.security.Plain? && ClashSpellsTls(input, v)
    ensures NormalTlsOf(v, ClashReality(v)) == Some(ClashTls(input))
  {
  }

  lemma ClashTransportForm(input: Fields, v: Node)
    requires ClashSpellsTransport(input, v)
    ensures ClashTransport(input) == NormalTransport(v, Trim(v.path))
  {
    assert Trim("") == "";
  }

  lemma ClashForm(input: Fields, v: Node)
    requires ClashSpells(input, v)
    ensures NormalizeClash(input)
            == if Trim(v.server) == "" || !(1 <= v.port <= 65535) || Trim(v.uuid) == "" then None else Some(ClashNormal(v))
  {
    if !v.security.Plain? { ClashTlsForm(input, v); }
    ClashTransportForm(input, v);
  }

  lemma UriTlsForm(query: map<string, string>, v: Node)
    requires !v.security.Plain? && UriSpellsTls(query, v)
    ensures NormalTlsOf(v, UriReality(v)) == Some(UriTls(query, v.security.Reality?))
  {
  }

  lemma UriTransportForm(query: map<string, string>, v: Node)
    requires UriSpellsTransport(query, v)
    ensures UriTransport(query) == NormalTransport(v, v.path)
  {
  }

  lemma UriForm(u: Uri, v: Node)
    requires UriSpells(u, v)
    ensures NormalizeUri(u)
            == if v.server == "" || !(1 <= v.port <= 65535) || v.uuid == "" then None else Some(UriNormal(v))
  {
    if !v.security.Plain? { UriTlsForm(u.query, v); }
    UriTransportForm(u.query, v);
  }

  // ----- what a normal form says -----

  lemma FormReads(name: string, server: string, port: int, uuid: string, flow: string,
                  tls: Option<Fields>, transport: Option<Fields>)
    ensures var m := Normal(name, server, port, uuid, flow, tls, transport);
      && m.Keys == {"type", "tag", "server", "server_port", "uuid"} + (if flow != "" then {"flow"} else {})
                   + (if tls.Some? then {"tls"} else {}) + (if transport.Some? then {"transport"} else {})
      && m["type"] == Str("vless") && m["tag"] == Str(name) && m["server"] == Str(server)
      && m["server_port"] == Int(port) && m["uuid"] == Str(uuid) && (flow != "" ==> m["flow"] == Str(flow))
      && (tls.Some? ==> m["tls"] == Obj(tls.value)) && (transport.Some? ==> m["transport"] == Obj(transport.value))
  {
  }

  lemma TlsReads(serverName: string, insecure: bool, fingerprint: string, reality: Option<Fields>)
    ensures var t := NormalTls(serverName, insecure, fingerprint, reality);
      && t.Keys == {"enabled"} + (if serverName != "" then {"server_name"} else {})
                   + (if insecure then {"insecure"} else {}) + (if fingerprint != "" then {"utls"} else {})
                   + (if reality.Some? then {"reality"} else {})
      && t["enabled"] == Bool(true) && (serverName != "" ==> t["server_name"] == Str(serverName))
      && (insecure ==> t["insecure"] == Bool(true))
      && (fingerprint != "" ==> t["utls"] == Obj(map["enabled" := Bool(true), "fingerprint" := Str(fingerprint)]))
      && (reality.Some? ==> t["reality"] == Obj(reality.value))
  {
  }

  /** What a Clash entry normalizes to, key by key. */
  lemma ClashMeans(input: Fields, v: Node)
    requires ClashSpells(input, v)
    ensures NormalizeClash(input).Some? <==> Trim(v.server) != "" && 1 <= v.port <= 65535 && Trim(v.uuid) != ""
    ensures NormalizeClash(input).Some? ==>
      var m := NormalizeClash(input).value;
      && m.Keys == {"type", "tag", "server", "server_port", "uuid"} + (if Trim(v.flow) != "" then {"flow"} else {})
                   + (if !v.security.Plain? then {"tls"} else {}) + (if !v.network.Tcp? then {"transport"} else {})
      && m["type"] == Str("vless") && m["tag"] == Str(Trim(v.name)) && m["server"] == Str(Trim(v.server))
      && m["server_port"] == Int(v.port) && m["uuid"] == Str(Trim(v.uuid))
      && (Trim(v.flow) != "" ==> m["flow"] == Str(Trim(v.flow)))
      && (!v.security.Plain? ==> m["tls"] == Obj(ClashTls(input)))
      && (!v.network.Tcp? ==> ClashTransport(input).Some? && m["transport"] == Obj(ClashTransport(input).value))
  {
    if !v.security.Plain? { ClashTlsForm(input, v); }
    ClashTransportForm(input, v);
    ClashForm(input, v);
    FormReads(Trim(v.name), Trim(v.server), v.port, Trim(v.uuid), Trim(v.flow),
              NormalTlsOf(v, ClashReality(v)), NormalTransport(v, Trim(v.path)));
  }

  lemma RealityReads(v: Node)
    ensures var r, key, id := ClashReality(v), Trim(v.publicKey), Trim(v.shortId);
      && r.Keys == {"enabled"} + (if key != "" then {"public_key"} else {}) + (if id != "" then {"short_id"} else {})
      && r["enabled"] == Bool(true) && (key != "" ==> r["public_key"] == Str(key)) && (id != "" ==> r["short_id"] == Str(id))
  {
  }

  /** What its security settings normalize to. */
  lemma ClashTlsMeans(input: Fields, v: Node)
    requires !v.security.Plain? && ClashSpellsTls(input, v)
    ensures var t, name, fingerprint := ClashTls(input), Trim(v.serverName), Trim(v.fingerprint);
      && t.Keys == {"enabled"} + (if name != "" then {"server_name"} else {}) + (if v.insecure then {"insecure"} else {})
                   + (if fingerprint != "" then {"utls"} else {}) + (if v.security.Reality? then {"reality"} else {})
      && t["enabled"] == Bool(true) && (name != "" ==> t["server_name"] == Str(name))
      && (v.insecure ==> t["insecure"] == Bool(true))
      && (fingerprint != "" ==> t["utls"] == Obj(map["enabled" := Bool(true), "fingerprint" := Str(fingerprint)]))
      && (v.security.Reality? ==>
            && t["reality"].Obj?
            && var r, key, id := t["reality"].fields, Trim(v.publicKey), Trim(v.shortId);
               && r.Keys == {"enabled"} + (if key != "" then {"public_key"} else {}) + (if id != "" then {"short_id"} else {})
               && r["enabled"] == Bool(true) && (key != "" ==> r["public_key"] == Str(key))
               && (id != "" ==> r["short_id"] == Str(id)))
  {
    ClashTlsForm(input, v);
    RealityReads(v);
    TlsReads(Trim(v.serverName), v.insecure, Trim(v.fingerprint), if v.security.Reality? then Some(ClashReality(v)) else None);
  }

  /** What a URI normalizes to, key by key. */
  lemma UriMeans(u: Uri, v: Node)
    requires UriSpells(u, v)
    ensures NormalizeUri(u).Some? <==> v.server != "" && 1 <= v.port <= 65535 && v.uuid != ""
    ensures NormalizeUri(u).Some? ==>
      var m := NormalizeUri(u).value;
      && m.Keys == {"type", "tag", "server", "server_port", "uuid"} + (if v.flow != "" then {"flow"} else {})
                   + (if !v.security.Plain? then {"tls"} else {}) + (if !v.network.Tcp? then {"transport"} else {})
      && m["type"] == Str("vless") && m["tag"] == Str(v.name) && m["server"] == Str(v.server)
      && m["server_port"] == Int(v.port) && m["uuid"] == Str(v.uuid) && (v.flow != "" ==> m["flow"] == Str(v.flow))
      && (!v.security.Plain? ==> m["tls"] == Obj(UriTls(u.query, v.security.Reality?)))
      && (!v.network.Tcp? ==> UriTransport(u.query).Some? && m["transport"] == Obj(UriTransport(u.query).value))
  {
    if !v.security.Plain? { UriTlsForm(u.query, v); }
    UriTransportForm(u.query, v);
    UriForm(u, v);
    FormReads(v.name, v.server, v.port, v.uuid, v.flow, NormalTlsOf(v, UriReality(v)), NormalTransport(v, v.path));
  }

  lemma UriTlsMeans(query: map<string, string>, v: Node)
    requires !v.security.Plain? && UriSpellsTls(query, v)
    ensures var t, name, fingerprint := UriTls(query, v.security.Reality?), Trim(v.serverName), Trim(v.fingerprint);
      && t.Keys == {"enabled"} + (if name != "" then {"server_name"} else {}) + (if v.insecure then {"insecure"} else {})
                   + (if fingerprint != "" then {"utls"} else {}) + (if v.security.Reality? then {"reality"} else {})
      && t["enabled"] == Bool(true) && (name != "" ==> t["server_name"] == Str(name))
      && (v.insecure ==> t["insecure"] == Bool(true))
      && (fingerprint != "" ==> t["utls"] == Obj(map["enabled" := Bool(true), "fingerprint" := Str(fingerprint)]))
      && (v.security.Reality? ==>
            t["reality"] == Obj(map["enabled" := Bool(true), "public_key" := Str(v.publicKey), "short_id" := Str(v.shortId)]))
  {
    UriTlsForm(query, v);
    TlsReads(Trim(v.serverName), v.insecure, Trim(v.fingerprint), if v.security.Reality? then Some(UriReality(v)) else None);
  }

  /** What either transport normalizes to; the Clash side trims the path. */
  lemma TransportsMean(input: Fields, query: map<string, string>, v: Node)
    requires ClashSpellsTransport(input, v) && UriSpellsTransport(query, v)
    ensures v.network.Tcp? <==> ClashTransport(input).None?
    ensures v.network.Tcp? <==> UriTransport(query).None?
    ensures v.network.Ws? ==>
      var c, u, host := ClashTransport(input).value, UriTransport(query).value, if v.host != "" then {"headers"} else {};
      && c.Keys == {"type"} + (if Trim(v.path) != "" then {"path"} else {}) + host
      && u.Keys == {"type"} + (if v.path != "" then {"path"} else {}) + host
      && c["type"] == u["type"] == Str("ws")
      && (Trim(v.path) != "" ==> c["path"] == Str(Trim(v.path))) && (v.path != "" ==> u["path"] == Str(v.path))
      && (v.host != "" ==> c["headers"] == u["headers"] == Obj(map["Host" := Str(v.host)]))
    ensures v.network.Grpc? ==>
      ClashTransport(input) == UriTransport(query) == Some(
        if Trim(v.serviceName) == "" then map["type" := Str("grpc")]
        else map["type" := Str("grpc"), "service_name" := Str(Trim(v.serviceName))])
    ensures v.network.Http? ==> ClashTransport(input) == UriTransport(query) == Some(map["type" := Str("http")])
  {
    ClashTransportForm(input, v);
    UriTransportForm(query, v);
  }

  /** The canonical form is the map without display names, with the port under one name. */
  lemma CanonicalReads(m: Fields, key: string)
    ensures key in Canonical(m) <==>
              key !in {"tag", "name", "port"} && (key in m || (key == "server_port" && "port" in m))
    ensures key in Canonical(m) ==> Canonical(m)[key] == if key == "server_port" && "port" in m then m["port"] else m[key]
  {
  }

  // ----- when the forms agree -----

  ghost predicate SameButTag(a: Fields, b: Fields) {
    a - {"tag"} == b - {"tag"}
  }

  lemma NormalReads(name: string, server: string, port: int, uuid: string, flow: string,
                    tls: Option<Fields>, transport: Option<Fields>)
    ensures var m := Normal(name, server, port, uuid, flow, tls, transport) - {"tag"};
      && "server" in m && m["server"] == Str(server) && "uuid" in m && m["uuid"] == Str(uuid)
      && ("flow" in m <==> flow != "") && (flow != "" ==> m["flow"] == Str(flow))
      && ("tls" in m <==> tls.Some?) && (tls.Some? ==> m["tls"] == Obj(tls.value))
      && ("transport" in m <==> transport.Some?) && (transport.Some? ==> m["transport"] == Obj(transport.value))
  {
  }

  lemma NormalIgnoresName(n1: string, n2: string, server: string, port: int, uuid: string, flow: string,
                          tls: Option<Fields>, transport: Option<Fields>)
    ensures SameButTag(Normal(n1, server, port, uuid, flow, tls, transport),
                       Normal(n2, server, port, uuid, flow, tls, transport))
  {
  }

  lemma NormalIsInjective(n1: string, s1: string, port: int, u1: string, f1: string, t1: Option<Fields>, w1: Option<Fields>,
                          n2: string, s2: string, u2: string, f2: string, t2: Option<Fields>, w2: Option<Fields>)
    ensures SameButTag(Normal(n1, s1, port, u1, f1, t1, w1), Normal(n2, s2, port, u2, f2, t2, w2))
            <==> s1 == s2 && u1 == u2 && f1 == f2 && t1 == t2 && w1 == w2
  {
    NormalReads(n1, s1, port, u1, f1, t1, w1);
    NormalReads(n2, s2, port, u2, f2, t2, w2);
    NormalIgnoresName(n1, n2, s1, port, u1, f1, t1, w1);
  }

  lemma RealityAgreesIff(v: Node)
    ensures ClashReality(v) == UriReality(v)
            <==> Tidy(v.publicKey) && v.publicKey != "" && Tidy(v.shortId) && v.shortId != ""
  {
    var c, u := ClashReality(v), UriReality(v);
    if c == u {
      assert "public_key" in c && "short_id" in c;
      assert c["public_key"] == u["public_key"] && c["short_id"] == u["short_id"];
    }
  }

  lemma TlsAgreesIff(v: Node)
    ensures NormalTlsOf(v, ClashReality(v)) == NormalTlsOf(v, UriReality(v))
            <==> (v.security.Reality? ==> ClashReality(v) == UriReality(v))
  {
    if v.security.Reality? && NormalTlsOf(v, ClashReality(v)) == NormalTlsOf(v, UriReality(v)) {
      assert NormalTlsOf(v, ClashReality(v)).value["reality"] == Obj(ClashReality(v));
      assert NormalTlsOf(v, UriReality(v)).value["reality"] == Obj(UriReality(v));
    }
  }

  lemma TransportAgreesIff(v: Node)
    ensures NormalTransport(v, Trim(v.path)) == NormalTransport(v, v.path) <==> (v.network.Ws? ==> Tidy(v.path))
  {
    if v.network.Ws? && NormalTransport(v, Trim(v.path)) == NormalTransport(v, v.path) {
      var a, b := NormalTransport(v, Trim(v.path)).value, NormalTransport(v, v.path).value;
      assert ("path" in a <==> Trim(v.path) != "") && ("path" in b <==> v.path != "");
      assert Trim(v.path) != "" ==> a["path"] == Str(Trim(v.path));
      assert v.path != "" ==> b["path"] == Str(v.path);
    }
  }

  /** Both front ends accept, and what they accept differs at most in the tag. */
  ghost predicate FrontEndsAgree(input: Fields, u: Uri)
    requires Lower(StringValue(input, "type")) == "vless" && Lower(u.scheme) == "vless"
  {
    var c, n := NormalizeClash(input), NormalizeUri(u);
    c.Some? && n.Some? && SameButTag(c.value, n.value)
  }

  /** A VLESS node, spelled in any way as a Clash entry and in any way as a URI, is accepted by both
      front ends and normalizes to maps that differ at most in the tag, if and only if its fields
      carry no surrounding white space where only one side trims, its required fields are there, and
      a Reality node has a non-empty short ID. */
  lemma FrontEndsAgreeIff(input: Fields, u: Uri, v: Node)
    requires ClashSpells(input, v) && UriSpells(u, v)
    ensures FrontEndsAgree(input, u) <==> Clean(v)
  {
    ClashForm(input, v);
    UriForm(u, v);
    NormalsAgreeIff(v);
  }

  lemma NormalsAgreeIff(v: Node)
    ensures SameButTag(ClashNormal(v), UriNormal(v)) <==>
      && Tidy(v.server) && Tidy(v.uuid) && Tidy(v.flow)
      && (v.security.Reality? ==> Tidy(v.publicKey) && v.publicKey != "" && Tidy(v.shortId) && v.shortId != "")
      && (v.network.Ws? ==> Tidy(v.path))
  {
    NormalIsInjective(
      Trim(v.name), Trim(v.server), v.port, Trim(v.uuid), Trim(v.flow),
      NormalTlsOf(v, ClashReality(v)), NormalTransport(v, Trim(v.path)),
      v.name, v.server, v.uuid, v.flow, NormalTlsOf(v, UriReality(v)), NormalTransport(v, v.path));
    TlsAgreesIff(v);
    RealityAgreesIff(v);
    TransportAgreesIff(v);
  }

  /** Then both spellings have the same stable ID, whatever the digest. */
  lemma CleanNodesShareTheirId(input: Fields, u: Uri, v: Node, digest: Fields -> string)
    requires ClashSpells(input, v) && UriSpells(u, v) && Clean(v)
    ensures NormalizeClash(input).Some? && NormalizeUri(u).Some?
    ensures digest(Canonical(NormalizeClash(input).value)) == digest(Canonical(NormalizeUri(u).value))
  {
    ClashForm(input, v);
    UriForm(u, v);
    NormalsAgreeIff(v);
    CanonicalForms(v);
  }

  lemma CanonicalForms(v: Node)
    ensures Canonical(ClashNormal(v)) == ClashNormal(v) - {"tag"} && Canonical(UriNormal(v)) == UriNormal(v) - {"tag"}
  {
    NormalIsCanonicalButTag(Trim(v.name), Trim(v.server), v.port, Trim(v.uuid), Trim(v.flow),
                            NormalTlsOf(v, ClashReality(v)), NormalTransport(v, Trim(v.path)));
    NormalIsCanonicalButTag(v.name, v.server, v.port, v.uuid, v.flow,
                            NormalTlsOf(v, UriReality(v)), NormalTransport(v, v.path));
  }

  lemma NormalIsCanonicalButTag(name: string, server: string, port: int, uuid: string, flow: string,
                                tls: Option<Fields>, transport: Option<Fields>)
    ensures var m := Normal(name, server, port, uuid, flow, tls, transport); Canonical(m) == m - {"tag"}
  {
    var m := Normal(name, server, port, uuid, flow, tls, transport);
    assert "name" !in m && "port" !in m;
    assert m - {"tag", "name"} == m - {"tag"};
  }

  /** A Reality node without a short ID is the case a user can meet: both front ends accept the
      otherwise clean node, but the URI side writes an empty short ID where the Clash side writes
      none, so the two spellings stay two nodes. */
  lemma EmptyShortIdSplitsTheNode(input: Fields, u: Uri, v: Node)
    requires ClashSpells(input, v) && UriSpells(u, v)
    requires v.security.Reality? && v.shortId == "" && Clean(v.(shortId := "0"))
    ensures NormalizeClash(input).Some? && NormalizeUri(u).Some?
    ensures Canonical(NormalizeClash(input).value) != Canonical(NormalizeUri(u).value)
  {
    ClashForm(input, v);
    UriForm(u, v);
    NormalsAgreeIff(v);
    CanonicalForms(v);
  }

  /** Two sources that list the same clean node in different formats contribute one merged node
      that names both. */
  lemma CrossFormatDuplicatesMerge(input: Fields, u: Uri, v: Node, digest: Fields -> string, bySource: Sources,
                                   merged: seq<NodeSpec>, clash: string, uri: string)
    requires ClashSpells(input, v) && UriSpells(u, v) && Clean(v)
    requires IsMerge(bySource, merged) && clash in bySource && uri in bySource
    requires NormalizeClash(input).Some? ==> Lists(bySource[clash], digest(Canonical(NormalizeClash(input).value)))
    requires NormalizeUri(u).Some? ==> Lists(bySource[uri], digest(Canonical(NormalizeUri(u).value)))
    ensures NormalizeClash(input).Some?
    ensures exists i :: 0 <= i < |merged|
              && merged[i].id == digest(Canonical(NormalizeClash(input).value))
              && clash in merged[i].sourceIDs && uri in merged[i].sourceIDs
  {
    CleanNodesShareTheirId(input, u, v, digest);
    var id := digest(Canonical(NormalizeClash(input).value));
    assert clash in SourcesOf(bySource, id) && uri in SourcesOf(bySource, id);
    assert Lists(merged, id);
    var i :| 0 <= i < |merged| && merged[i].id == id;
    assert clash in Elements(merged[i].sourceIDs) && uri in Elements(merged[i].sourceIDs);
  }

  // ----- the usual spellings -----

  lemma ClashReads(v: Node)
    ensures var input := ToClash(v);
      && Raw(input, "name") == v.name && Raw(input, "server") == v.server && IntValue(input, "port") == Some(v.port)
      && Raw(input, "uuid") == v.uuid && Raw(input, "flow") == v.flow
  {
  }

  lemma ClashReadsWords(v: Node)
    ensures var input := ToClash(v);
      && Raw(input, "type") == "vless" && Raw(input, "network") == NetworkName(v.network) && Raw(input, "security") == ""
      && (BoolValue(input, "tls") <==> !v.security.Plain?)
  {
  }

  lemma ClashReadsTls(v: Node)
    ensures var input := ToClash(v);
      && Raw(input, "servername") == v.serverName && Raw(input, "sni") == ""
      && Raw(input, "client-fingerprint") == v.fingerprint
      && (BoolValue(input, "skip-cert-verify") <==> v.insecure)
      && SubMap(input, "reality-opts")
         == if v.security.Reality? then Some(map["public-key" := Str(v.publicKey), "short-id" := Str(v.shortId)]) else None
  {
  }

  lemma ClashReadsTransport(v: Node)
    ensures var input := ToClash(v);
      && SubMap(input, "ws-opts")
         == Some(With(map["path" := Str(v.path)], "headers", v.host != "", Obj(map["Host" := Str(v.host)])))
      && SubMap(input, "grpc-opts") == Some(map["grpc-service-name" := Str(v.serviceName)])
  {
  }

  lemma UsualClashTls(input: Fields, v: Node)
    requires Raw(input, "servername") == v.serverName && Raw(input, "sni") == ""
    requires Raw(input, "client-fingerprint") == v.fingerprint && (BoolValue(input, "skip-cert-verify") <==> v.insecure)
    requires SubMap(input, "reality-opts")
             == if v.security.Reality? then Some(map["public-key" := Str(v.publicKey), "short-id" := Str(v.shortId)]) else None
    ensures ClashSpellsTls(input, v)
  {
    TrimTwice(v.serverName);
    FirstOfTwo(Trim(v.serverName), "");
  }

  lemma UsualClashTransport(input: Fields, v: Node)
    requires Raw(input, "network") == NetworkName(v.network)
    requires SubMap(input, "ws-opts")
             == Some(With(map["path" := Str(v.path)], "headers", v.host != "", Obj(map["Host" := Str(v.host)])))
    requires SubMap(input, "grpc-opts") == Some(map["grpc-service-name" := Str(v.serviceName)])
    ensures ClashSpellsTransport(input, v)
  {
    NetworkNames(v.network);
    TrimTwice(v.serviceName);
    FirstOfTwo(Trim(v.serviceName), "");
  }

  lemma UriReads(v: Node)
    ensures var query := ToUri(v).query;
      && Get(query, "flow") == v.flow && Get(query, "security") == SecurityName(v.security)
      && Get(query, "type") == NetworkName(v.network) && Get(query, "path") == v.path && Get(query, "host") == v.host
      && Get(query, "serviceName") == v.serviceName && Get(query, "service_name") == ""
  {
  }

  lemma UriReadsNames(v: Node)
    ensures var query := ToUri(v).query;
      && Get(query, "sni") == v.serverName && Get(query, "servername") == "" && Get(query, "peer") == ""
      && Get(query, "fp") == v.fingerprint && Get(query, "fingerprint") == ""
  {
  }

  lemma UriReadsFlags(v: Node)
    ensures var query := ToUri(v).query;
      && Get(query, "allowInsecure") == (if v.insecure then "1" else "") && Get(query, "insecure") == ""
      && Get(query, "pbk") == v.publicKey && Get(query, "sid") == v.shortId
  {
  }

  lemma UsualUriTls(query: map<string, string>, v: Node)
    requires Get(query, "sni") == v.serverName && Get(query, "servername") == "" && Get(query, "peer") == ""
    requires Get(query, "allowInsecure") == (if v.insecure then "1" else "") && Get(query, "insecure") == ""
    requires Get(query, "fp") == v.fingerprint && Get(query, "fingerprint") == ""
    requires Get(query, "pbk") == v.publicKey && Get(query, "sid") == v.shortId
    ensures UriSpellsTls(query, v)
  {
    FirstOfThree(v.serverName, "", "");
    FirstOfTwo("", "");
    FirstOfTwo(v.fingerprint, "");
  }

  lemma UsualUriTransport(query: map<string, string>, v: Node)
    requires Get(query, "type") == NetworkName(v.network) && Get(query, "path") == v.path && Get(query, "host") == v.host
    requires Get(query, "serviceName") == v.serviceName && Get(query, "service_name") == ""
    ensures UriSpellsTransport(query, v)
  {
    NetworkNames(v.network);
    FirstOfTwo(v.serviceName, "");
  }

  /** Every node has a spelling in both formats. */
  lemma UsualSpellings(v: Node)
    ensures ClashSpells(ToClash(v), v) && UriSpells(ToUri(v), v)
  {
    UsualClash(v);
    UsualUri(v);
  }

  lemma UsualClash(v: Node)
    ensures ClashSpells(ToClash(v), v)
  {
    ClashReads(v);
    ClashReadsWords(v);
    ClashReadsTls(v);
    ClashReadsTransport(v);
    UsualClashTls(ToClash(v), v);
    UsualClashTransport(ToClash(v), v);
    UsualClashOf(ToClash(v), v);
  }

  lemma UsualClashOf(input: Fields, v: Node)
    requires Raw(input, "name") == v.name && Raw(input, "server") == v.server && IntValue(input, "port") == Some(v.port)
    requires Raw(input, "uuid") == v.uuid && Raw(input, "flow") == v.flow
    requires Raw(input, "type") == "vless" && Raw(input, "security") == "" && (BoolValue(input, "tls") <==> !v.security.Plain?)
    requires ClashSpellsTls(input, v) && ClashSpellsTransport(input, v)
    ensures ClashSpells(input, v)
  {
    Keyword("vless");
    LowerKeeps("");
  }

  lemma UsualUri(v: Node)
    ensures UriSpells(ToUri(v), v)
  {
    UriReads(v);
    UriReadsNames(v);
    UriReadsFlags(v);
    UsualUriTls(ToUri(v).query, v);
    UsualUriTransport(ToUri(v).query, v);
    UsualUriOf(ToUri(v), v);
  }

  lemma UsualUriOf(u: Uri, v: Node)
    requires u.scheme == "vless" && u.user == Some(v.uuid) && u.host == v.server && Atoi(u.port) == Some(v.port)
    requires u.fragment == v.name && Get(u.query, "flow") == v.flow && Get(u.query, "security") == SecurityName(v.security)
    requires UriSpellsTls(u.query, v) && UriSpellsTransport(u.query, v)
    ensures UriSpells(u, v)
  {
    Keyword("vless");
    SecurityNames(v.security);
  }
}
