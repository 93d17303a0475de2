/**
 * MCP server configuration (`load_mcp_server_config`, `normalize_mcp_config`):
 * choosing the entry for one server from the parsed configuration file, and
 * turning that entry into the connection settings the MCP client takes.
 */
module McpConfig {
  import opened Wrappers

  /** A parsed JSON value, as `json.loads` returns it (numbers restricted to integers). */
  datatype Json =
    | JNull
    | JBool(b: bool)
    | JNum(n: int)
    | JStr(s: string)
    | JArr(items: seq<Json>)
    | JObj(fields: map<string, Json>)

  /** Python truthiness of the value `json.loads` gives for the JSON value. */
  predicate Truthy(j: Json)
  {
    match j
    case JNull => false
    case JBool(b) => b
    case JNum(n) => n != 0
    case JStr(s) => s != ""
    case JArr(items) => |items| > 0
    case JObj(fields) => |fields| > 0
  }

  /** The exceptions the two functions can raise on a parsed configuration. */
  datatype ConfigError =
    | NotAMapping(value: Json)           // AttributeError: `.get` on a value that is not a dict
    | UnhashableServerType(t: Json)      // TypeError: a list or dict tested for membership in a set
    | UnsupportedServerType(t: Json)     // ValueError: Unsupported MCP server type
    | MissingUrl                         // KeyError: 'url'

  /** `d.get(key, default)`. */
  function Get(fields: map<string, Json>, key: string, default: Json): Json
  {
    if key in fields then fields[key] else default
  }

  /** The entry used when the file, the server list or the named entry is missing or empty. */
  const DefaultServer: Json :=
    JObj(map[
      "type" := JStr("stdio"),
      "command" := JStr("npx"),
      "args" := JArr([JStr("playwright"), JStr("run-test-mcp-server")])])

  /**
   * `data["servers"][name]` of a parsed configuration, when the file exists,
   * is an object, has a "servers" object and that object has the name.
   */
  function NamedEntry(config: Option<Json>, serverName: string): Option<Json>
  {
    if config.Some? && config.value.JObj? && "servers" in config.value.fields then
      var servers := config.value.fields["servers"];
      if servers.JObj? && serverName in servers.fields then Some(servers.fields[serverName]) else None
    else None
  }

  /** The parsed configuration makes `.get` fail: it, or its "servers" value, is not an object. */
  predicate Malformed(config: Option<Json>)
  {
    config.Some? &&
    (!config.value.JObj? ||
     ("servers" in config.value.fields && !config.value.fields["servers"].JObj?))
  }

  /**
   * The entry-selection part of `load_mcp_server_config`, over the already
   * parsed file: `None` when the file does not exist.
   */
  function SelectServer(config: Option<Json>, serverName: string): (r: Result<Json, ConfigError>)
    ensures r.Err? <==> Malformed(config)
    ensures var e := NamedEntry(config, serverName);
      !Malformed(config) && e.Some? && Truthy(e.value) ==> r == Ok(e.value)
    ensures var e := NamedEntry(config, serverName);
      !Malformed(config) && (e.None? || !Truthy(e.value)) ==> r == Ok(DefaultServer)
    ensures r.Ok? ==> Truthy(r.value)
  {
    match config
    case None => Ok(DefaultServer)
    case Some(JObj(data)) =>
      var servers := Get(data, "servers", JObj(map[]));
      if !servers.JObj? then Err(NotAMapping(servers))
      else
        var server := Get(servers.fields, serverName, JNull);
        if Truthy(server) then Ok(server) else Ok(DefaultServer)
    case Some(other) => Err(NotAMapping(other))
  }

  /** A missing file, a file without "servers", a missing entry and an empty entry all give the default. */
  lemma SelectServerFallbacks(data: map<string, Json>, serverName: string)
    ensures SelectServer(None, serverName) == Ok(DefaultServer)
    ensures "servers" !in data ==> SelectServer(Some(JObj(data)), serverName) == Ok(DefaultServer)
    ensures SelectServer(Some(JObj(map["servers" := JObj(map[serverName := JObj(map[])])])), serverName)
              == Ok(DefaultServer)
    ensures SelectServer(Some(JObj(map["servers" := JObj(map[])])), serverName) == Ok(DefaultServer)
  {
  }

  /** The server types `normalize_mcp_config` accepts, with what each needs. */
  predicate Supported(server: Json)
  {
    && server.JObj?
    && var serverType := Get(server.fields, "type", JStr("stdio"));
       || serverType == JStr("stdio")
       || ((serverType == JStr("http") || serverType == JStr("streamable_http")) && "url" in server.fields)
  }

  /** `normalize_mcp_config`: the keyword arguments for one MCP client connection. */
  function Normalize(server: Json): (r: Result<map<string, Json>, ConfigError>)
    ensures r.Ok? <==> Supported(server)
    ensures r.Ok? ==> "transport" in r.value
    ensures r.Ok? ==> r.value["transport"] in {JStr("stdio"), JStr("streamable_http")}
  {
    if !server.JObj? then Err(NotAMapping(server))
    else
      var fields := server.fields;
      var serverType := Get(fields, "type", JStr("stdio"));
      if serverType == JStr("stdio") then
        Ok(map[
          "command" := Get(fields, "command", JStr("npx")),
          "args" := Get(fields, "args", JArr([])),
          "transport" := JStr("stdio")])
      else if serverType.JArr? || serverType.JObj? then
        Err(UnhashableServerType(serverType))
      else if serverType == JStr("streamable_http") || serverType == JStr("http") then
        if "url" in fields then
          Ok(map["url" := fields["url"], "transport" := JStr("streamable_http")])
        else Err(MissingUrl)
      else Err(UnsupportedServerType(serverType))
  }

  /** A missing or "stdio" type gives the command (default "npx"), the arguments (default []) and the stdio transport. */
  lemma NormalizeStdio(fields: map<string, Json>)
    requires Get(fields, "type", JStr("stdio")) == JStr("stdio")
    ensures Normalize(JObj(fields)).Ok?
    ensures var m := Normalize(JObj(fields)).value;
      && m.Keys == {"command", "args", "transport"}
      && m["transport"] == JStr("stdio")
      && m["command"] == (if "command" in fields then fields["command"] else JStr("npx"))
      && m["args"] == (if "args" in fields then fields["args"] else JArr([]))
  {
  }

  /** "http" and "streamable_http" give the URL and the streamable HTTP transport, and fail without a URL. */
  lemma NormalizeHttp(fields: map<string, Json>)
    requires Get(fields, "type", JStr("stdio")) in {JStr("http"), JStr("streamable_http")}
    ensures "url" !in fields ==> Normalize(JObj(fields)) == Err(MissingUrl)
    ensures "url" in fields ==>
      && Normalize(JObj(fields)).Ok?
      && var m := Normalize(JObj(fields)).value;
      && m.Keys == {"url", "transport"}
      && m["url"] == fields["url"]
      && m["transport"] == JStr("streamable_http")
  {
  }

  /** Any other type is an error, and so is an entry that is not an object. */
  lemma NormalizeRejects(server: Json)
    requires !server.JObj? ||
      Get(server.fields, "type", JStr("stdio")) !in {JStr("stdio"), JStr("http"), JStr("streamable_http")}
    ensures Normalize(server).Err?
    ensures server.JObj? && Get(server.fields, "type", JStr("stdio")).JStr? ==>
      Normalize(server) == Err(UnsupportedServerType(server.fields["type"]))
  {
  }

  /** Only the "type", "command", "args" and "url" keys of an entry matter. */
  lemma NormalizeReadsFourKeys(fields: map<string, Json>)
    ensures var keys := {"type", "command", "args", "url"};
      Normalize(JObj(fields)) == Normalize(JObj(map k | k in fields && k in keys :: fields[k]))
  {
  }

  /** The connection settings of the built-in default entry. */
  const DefaultConnection: map<string, Json> :=
    map[
      "command" := JStr("npx"),
      "args" := JArr([JStr("playwright"), JStr("run-test-mcp-server")]),
      "transport" := JStr("stdio")]

  /** The built-in default runs the Playwright test MCP server over stdio through npx. */
  lemma DefaultServerConnection()
    ensures Normalize(DefaultServer) == Ok(DefaultConnection)
  {
  }
}
