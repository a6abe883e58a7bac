/**
 * Config selection and path resolution of client/x2webrtc/config.py.
 *
 * A configuration names the ICE servers of the peer connection and,
 * optionally, a signaling plugin file. It is read from the file named by the
 * environment variable `X2WEBRTC_CONFIG` when that is set, otherwise from the
 * first existing candidate of `CONFIG_PATHS`, otherwise it is the default. A
 * relative plugin path is anchored at the directory of the file it was read
 * from.
 *
 * Paths are modelled lexically, as `pathlib` treats them: a flag for a leading
 * `/` and the list of components. The filesystem (`is_file`), the working and
 * home directories and YAML parsing are parameters.
 */
module Config {
  import opened Wrappers
  import opened Json

  const CONFIG_ENVKEY: string := "X2WEBRTC_CONFIG"
  const CONFIG_PATHS: seq<string> := [".x2webrtc", "~/.x2webrtc"]
  const DEFAULT_STUN_URL: string := "stun:stun.l.google.com:19302"

  // ---------------------------------------------------------------- paths

  /** A `pathlib` path: absolute or not, and its components. */
  datatype Path = Path(absolute: bool, parts: seq<string>)

  /** A component `pathlib` keeps: not empty, not `.`, no separator. */
  predicate GoodPart(c: string) {
    c != "" && c != "." && '/' !in c
  }

  predicate WellFormed(p: Path) {
    forall i :: 0 <= i < |p.parts| ==> GoodPart(p.parts[i])
  }

  function FirstSlash(s: string): (i: nat)
    requires '/' in s
    ensures i < |s| && s[i] == '/' && '/' !in s[..i]
  {
    if s[0] == '/' then 0
    else
      var j := FirstSlash(s[1..]);
      assert s[..j + 1] == [s[0]] + s[1..][..j];
      j + 1
  }

  /** `str.split("/")`: the pieces between separators, at least one. */
  function Split(s: string): (r: seq<string>)
    ensures |r| >= 1
    ensures forall i :: 0 <= i < |r| ==> '/' !in r[i]
    decreases |s|
  {
    if '/' !in s then [s]
    else
      var i := FirstSlash(s);
      [s[..i]] + Split(s[i + 1..])
  }

  /** `"/".join(ps)`. */
  function JoinSlash(ps: seq<string>): string
    requires |ps| >= 1
    decreases |ps|
  {
    if |ps| == 1 then ps[0] else ps[0] + "/" + JoinSlash(ps[1..])
  }

  /** The pieces `pathlib` keeps: empty pieces and `.` are dropped. */
  function Components(ps: seq<string>): (r: seq<string>)
    ensures forall i :: 0 <= i < |r| ==> r[i] != "" && r[i] != "." && r[i] in ps
    decreases |ps|
  {
    if ps == [] then []
    else if ps[0] == "" || ps[0] == "." then Components(ps[1..])
    else [ps[0]] + Components(ps[1..])
  }

  /** `pathlib.Path(s)`. */
  function ParsePath(s: string): (p: Path)
    ensures p.absolute <==> (|s| > 0 && s[0] == '/')
    ensures WellFormed(p)
  {
    var ps := Split(s);
    var r := Components(ps);
    assert forall i :: 0 <= i < |r| ==> '/' !in r[i] by {
      forall i | 0 <= i < |r| ensures '/' !in r[i] {
        var k :| 0 <= k < |ps| && ps[k] == r[i];
      }
    }
    Path(|s| > 0 && s[0] == '/', r)
  }

  /** `str(path)`. */
  function Render(p: Path): string {
    if p.parts == [] then (if p.absolute then "/" else ".")
    else (if p.absolute then "/" else "") + JoinSlash(p.parts)
  }

  /** The first separator of `c + "/" + t` is the one after `c`. */
  lemma {:induction false} FirstSlashAfter(c: string, t: string)
    requires '/' !in c
    ensures FirstSlash(c + "/" + t) == |c|
    decreases |c|
  {
    if c != [] {
      assert c[0] in c;
      assert '/' !in c[1..] by {
        forall k | 0 <= k < |c[1..]| ensures c[1..][k] != '/' {
          assert c[1..][k] == c[k + 1];
        }
      }
      assert (c + "/" + t)[1..] == c[1..] + "/" + t;
      FirstSlashAfter(c[1..], t);
    }
  }

  /** Splitting at the first separator: a piece without `/`, then the rest. */
  lemma SplitCons(c: string, t: string)
    requires '/' !in c
    ensures Split(c + "/" + t) == [c] + Split(t)
  {
    var s := c + "/" + t;
    assert s[|c|] == '/';
    FirstSlashAfter(c, t);
    assert s[..|c|] == c && s[|c| + 1..] == t;
  }

  lemma {:induction false} SplitJoinSlash(ps: seq<string>)
    requires |ps| >= 1
    requires forall i :: 0 <= i < |ps| ==> '/' !in ps[i]
    ensures Split(JoinSlash(ps)) == ps
    decreases |ps|
  {
    if |ps| > 1 {
      var c, rest := ps[0], ps[1..];
      var t := JoinSlash(rest);
      assert '/' !in c;
      SplitJoinSlash(rest);
      SplitCons(c, t);
      assert JoinSlash(ps) == c + "/" + t;
      assert ps == [c] + rest;
    }
  }

  lemma {:induction false} ComponentsKeepsGoodParts(ps: seq<string>)
    requires forall i :: 0 <= i < |ps| ==> GoodPart(ps[i])
    ensures Components(ps) == ps
    decreases |ps|
  {
    if ps != [] {
      ComponentsKeepsGoodParts(ps[1..]);
    }
  }

  lemma RenderEmptyRoundTrip(absolute: bool)
    ensures ParsePath(Render(Path(absolute, []))) == Path(absolute, [])
  {
    if absolute {
      assert Split("/") == ["", ""] by {
        assert "/"[..0] == "" && "/"[1..] == "";
      }
    } else {
      assert Split(".") == ["."];
    }
  }

  lemma SplitAbsolute(j: string)
    ensures Split("/" + j) == [""] + Split(j)
  {
    var s := "/" + j;
    assert s[0] == '/';
    assert FirstSlash(s) == 0;
    assert s[..0] == "" && s[1..] == j;
  }

  /** Writing a well-formed path out and reading it back gives the same path. */
  lemma ParseRender(p: Path)
    requires WellFormed(p)
    ensures ParsePath(Render(p)) == p
  {
    if p.parts == [] {
      RenderEmptyRoundTrip(p.absolute);
    } else {
      var j := JoinSlash(p.parts);
      SplitJoinSlash(p.parts);
      ComponentsKeepsGoodParts(p.parts);
      if p.absolute {
        SplitAbsolute(j);
        assert Components([""] + p.parts) == Components(p.parts);
      } else {
        assert j[0] == p.parts[0][0] && j[0] != '/' by {
          assert p.parts[0][0] in p.parts[0];
        }
        assert Render(p) == j;
      }
    }
  }

  /** `base / p`: an absolute `p` replaces the base, a relative one extends it. */
  function Join(base: Path, p: Path): Path {
    if p.absolute then p else Path(base.absolute, base.parts + p.parts)
  }

  /** `path.parent`: the last component dropped; `.` and `/` are their own parent. */
  function Parent(p: Path): (r: Path)
    ensures r.absolute == p.absolute
    ensures p.parts != [] ==> r.parts + [p.parts[|p.parts| - 1]] == p.parts
    ensures p.parts == [] ==> r == p
  {
    if p.parts == [] then p else Path(p.absolute, p.parts[..|p.parts| - 1])
  }

  /** Applies the components left to right: `..` climbs one level and stops at the root. */
  function Collapse(acc: seq<string>, parts: seq<string>): (r: seq<string>)
    ensures ".." !in acc && ".." !in parts ==> r == acc + parts
    ensures ".." !in acc ==> ".." !in r
    decreases |parts|
  {
    if parts == [] then acc
    else if parts[0] == ".." then Collapse(if acc == [] then [] else acc[..|acc| - 1], parts[1..])
    else
      var r := Collapse(acc + [parts[0]], parts[1..]);
      assert ".." !in acc && ".." !in parts ==> r == acc + parts by {
        if ".." !in acc && ".." !in parts {
          assert parts == [parts[0]] + parts[1..];
          assert ".." !in parts[1..];
        }
      }
      r
  }

  /**
   * `path.resolve()` with symbolic links left out: anchored at `cwd` when
   * relative, then every `..` applied.
   */
  function Resolve(p: Path, cwd: Path): (r: Path)
    ensures r.absolute && ".." !in r.parts
    ensures ".." !in cwd.parts && ".." !in p.parts ==>
      r == if p.absolute then p else Path(true, cwd.parts + p.parts)
  {
    var full := if p.absolute then p.parts else cwd.parts + p.parts;
    Path(true, Collapse([], full))
  }

  /** Resolving a resolved path changes nothing. */
  lemma ResolveIdempotent(p: Path, cwd: Path, cwd': Path)
    ensures Resolve(Resolve(p, cwd), cwd') == Resolve(p, cwd)
  {
  }

  /** `path.expanduser()` for a leading `~`. */
  function ExpandUser(p: Path, home: Path): (r: Path)
    ensures !p.absolute && p.parts != [] && p.parts[0] == "~" ==>
      r.absolute == home.absolute && r.parts == home.parts + p.parts[1..]
    ensures p.absolute || p.parts == [] || p.parts[0] != "~" ==> r == p
  {
    if !p.absolute && p.parts != [] && p.parts[0] == "~" then Path(home.absolute, home.parts + p.parts[1..])
    else p
  }

  /** The file a `CONFIG_PATHS` entry names as written: no `~` expansion. */
  function CandidateAsWritten(entry: string): Path {
    ParsePath(entry)
  }

  /** The file a `CONFIG_PATHS` entry is meant to name: `~` is the home directory. */
  function Candidate(entry: string, home: Path): Path {
    ExpandUser(ParsePath(entry), home)
  }

  lemma HomeEntryParts()
    ensures ParsePath(CONFIG_PATHS[1]) == Path(false, ["~", ".x2webrtc"])
  {
    var ps := ["~", ".x2webrtc"];
    assert JoinSlash(ps) == CONFIG_PATHS[1];
    SplitJoinSlash(ps);
    ComponentsKeepsGoodParts(ps);
  }

  /**
   * As written, the second candidate is a directory literally named `~`
   * under the working directory, not the home directory.
   */
  lemma HomeCandidateAsWrittenIsRelative(cwd: Path)
    requires ".." !in cwd.parts
    ensures !CandidateAsWritten(CONFIG_PATHS[1]).absolute
    ensures Resolve(CandidateAsWritten(CONFIG_PATHS[1]), cwd) == Path(true, cwd.parts + ["~", ".x2webrtc"])
  {
    HomeEntryParts();
  }

  /** With expansion, the second candidate is `.x2webrtc` in the home directory. */
  lemma HomeCandidateIsInHome(home: Path)
    requires home.absolute
    ensures Candidate(CONFIG_PATHS[1], home) == Path(true, home.parts + [".x2webrtc"])
  {
    HomeEntryParts();
  }

  /** The first candidate has no `~` and is unaffected by expansion. */
  lemma LocalCandidateUnchanged(home: Path)
    ensures Candidate(CONFIG_PATHS[0], home) == Path(false, [".x2webrtc"])
  {
    var ps := [".x2webrtc"];
    assert JoinSlash(ps) == CONFIG_PATHS[0];
    SplitJoinSlash(ps);
    ComponentsKeepsGoodParts(ps);
  }

  // ---------------------------------------------------------------- records

  datatype IceServer = IceServer(url: string, username: Option<string>, credential: Option<string>)
  datatype PeerConnectionConfig = PeerConnectionConfig(iceServers: seq<IceServer>)
  datatype Config = Config(peerConnection: Option<PeerConnectionConfig>, signalingPlugin: Option<Path>)

  /** `PeerConnectionConfig.get_default`: one public STUN server, no credentials. */
  function DefaultPeerConnectionConfig(): (c: PeerConnectionConfig)
    ensures c.iceServers == [IceServer(DEFAULT_STUN_URL, None, None)]
  {
    PeerConnectionConfig([IceServer(DEFAULT_STUN_URL, None, None)])
  }

  /** `Config.get_default`: neither field set. */
  function DefaultConfig(): (c: Config)
    ensures c.peerConnection.None? && c.signalingPlugin.None?
  {
    Config(None, None)
  }

  /** `get_peer_connection_config`: the configured value, or the public STUN default. */
  function GetPeerConnectionConfig(c: Config): (r: PeerConnectionConfig)
    ensures c.peerConnection.Some? ==> r == c.peerConnection.value
    ensures c.peerConnection.None? ==> r.iceServers == [IceServer(DEFAULT_STUN_URL, None, None)]
  {
    match c.peerConnection
    case Some(pc) => pc
    case None => DefaultPeerConnectionConfig()
  }

  /** The default configuration uses exactly the public STUN server. */
  lemma DefaultUsesPublicStun()
    ensures GetPeerConnectionConfig(DefaultConfig()).iceServers == [IceServer(DEFAULT_STUN_URL, None, None)]
  {
  }

  // ---------------------------------------------------------------- decoding

  datatype ConfigError =
    | NotAMapping
    | UnexpectedData(keys: set<string>)
    | MissingValue(field: string)
    | WrongType(field: string)
    | InvalidPath
    | InvalidEnvConfig
    | Unreadable

  /** What the `parse_path` hook may be handed. */
  datatype PathArg = PathValue(path: Path) | StrValue(s: string) | OtherValue

  /**
   * `parse_path`, closed over the resolved base directory: a path is kept, a
   * string is joined to the base, anything else is an invalid path.
   */
  function ParsePathArg(arg: PathArg, base: Path): (r: Result<Path, ConfigError>)
    ensures arg.PathValue? ==> r == Ok(arg.path)
    ensures arg.StrValue? && ParsePath(arg.s).absolute ==> r == Ok(ParsePath(arg.s))
    ensures arg.StrValue? && !ParsePath(arg.s).absolute ==>
      r.Ok? && r.value.absolute == base.absolute && r.value.parts == base.parts + ParsePath(arg.s).parts
    ensures arg.OtherValue? ==> r == Err(InvalidPath)
  {
    match arg
    case PathValue(p) => Ok(p)
    case StrValue(s) => Ok(Join(base, ParsePath(s)))
    case OtherValue => Err(InvalidPath)
  }

  /** A YAML value as the hook sees it: YAML has no path values. */
  function AsPathArg(v: Value): PathArg {
    if v.JString? then StrValue(v.s) else OtherValue
  }

  const ICE_SERVER_FIELDS: set<string> := {"url", "username", "credential"}
  const PEER_CONNECTION_FIELDS: set<string> := {"ice_servers"}
  const CONFIG_FIELDS: set<string> := {"peer_connection", "signaling_plugin"}

  /** An `Optional[str]` field: absent or null is `None`, a string is kept, anything else is refused. */
  function OptString(fields: map<string, Value>, key: string): (r: Result<Option<string>, ConfigError>)
    ensures r.Ok? <==> key !in fields || fields[key].JNull? || fields[key].JString?
    ensures r.Ok? && r.value.Some? ==> key in fields && fields[key] == JString(r.value.value)
  {
    if key !in fields then Ok(None)
    else match fields[key]
      case JNull => Ok(None)
      case JString(s) => Ok(Some(s))
      case _ => Err(WrongType(key))
  }

  /** One `IceServer` mapping: only known keys, a string `url`, optional string credentials. */
  function DecodeIceServer(v: Value): (r: Result<IceServer, ConfigError>)
    ensures r.Ok? <==>
      && v.JObject? && v.fields.Keys <= ICE_SERVER_FIELDS
      && "url" in v.fields && v.fields["url"].JString?
      && OptString(v.fields, "username").Ok? && OptString(v.fields, "credential").Ok?
    ensures r.Ok? ==> v.JObject? && v.fields.Keys <= ICE_SERVER_FIELDS
    ensures r.Ok? ==> "url" in v.fields && v.fields["url"] == JString(r.value.url)
  {
    match v
    case JObject(f) =>
      if f.Keys - ICE_SERVER_FIELDS != {} then Err(UnexpectedData(f.Keys - ICE_SERVER_FIELDS))
      else if "url" !in f then Err(MissingValue("url"))
      else if !f["url"].JString? then Err(WrongType("url"))
      else
        var username :- OptString(f, "username");
        var credential :- OptString(f, "credential");
        Ok(IceServer(f["url"].s, username, credential))
    case _ => Err(WrongType("ice_servers"))
  }

  function DecodeIceServers(items: seq<Value>): (r: Result<seq<IceServer>, ConfigError>)
    ensures r.Ok? ==> |r.value| == |items| && forall i :: 0 <= i < |items| ==> DecodeIceServer(items[i]) == Ok(r.value[i])
    ensures r.Err? ==> exists i :: 0 <= i < |items| && DecodeIceServer(items[i]).Err?
    decreases |items|
  {
    if items == [] then Ok([])
    else
      var first :- DecodeIceServer(items[0]);
      var rest :- DecodeIceServers(items[1..]);
      assert forall i :: 1 <= i < |items| ==> items[i] == items[1..][i - 1];
      Ok([first] + rest)
  }

  /** The `peer_connection` field: `Optional[PeerConnectionConfig]`. */
  function DecodePeerConnection(v: Value): (r: Result<Option<PeerConnectionConfig>, ConfigError>)
    ensures v.JNull? ==> r == Ok(None)
    ensures r.Ok? <==>
      (v.JNull? ||
       (v.JObject? && v.fields.Keys == PEER_CONNECTION_FIELDS && v.fields["ice_servers"].JArray? &&
        forall i :: 0 <= i < |v.fields["ice_servers"].items| ==> DecodeIceServer(v.fields["ice_servers"].items[i]).Ok?))
    ensures r.Ok? && r.value.Some? ==> v.JObject? && v.fields.Keys == PEER_CONNECTION_FIELDS
  {
    match v
    case JNull => Ok(None)
    case JObject(f) =>
      if f.Keys - PEER_CONNECTION_FIELDS != {} then Err(UnexpectedData(f.Keys - PEER_CONNECTION_FIELDS))
      else if "ice_servers" !in f then Err(MissingValue("ice_servers"))
      else if !f["ice_servers"].JArray? then Err(WrongType("ice_servers"))
      else
        var servers :- DecodeIceServers(f["ice_servers"].items);
        Ok(Some(PeerConnectionConfig(servers)))
    case _ => Err(WrongType("peer_connection"))
  }

  /** The `signaling_plugin` field: `Optional[Path]` through the `parse_path` hook. */
  function DecodePlugin(v: Value, base: Path): (r: Result<Option<Path>, ConfigError>)
    ensures v.JNull? ==> r == Ok(None)
    ensures v.JString? ==> r == Ok(Some(ParsePathArg(StrValue(v.s), base).value))
    ensures !v.JNull? && !v.JString? ==> r == Err(InvalidPath)
  {
    if v.JNull? then Ok(None)
    else
      var p :- ParsePathArg(AsPathArg(v), base);
      Ok(Some(p))
  }

  /** The string given for `signaling_plugin`, if the document is a mapping that gives one. */
  function PluginString(data: Value): Option<string> {
    if data.JObject? && "signaling_plugin" in data.fields && data.fields["signaling_plugin"].JString?
    then Some(data.fields["signaling_plugin"].s)
    else None
  }

  /** The value of a field, `null` when absent: both fields default to `None`. */
  function FieldOrNull(f: map<string, Value>, key: string): Value {
    if key in f then f[key] else JNull
  }

  /**
   * The strict `dacite.from_dict(Config, data)` with the path hook: keys
   * outside the declared fields are refused first, then the fields are
   * decoded in declaration order.
   */
  function DecodeConfig(v: Value, base: Path): (r: Result<Config, ConfigError>)
    ensures r.Ok? ==> v.JObject? && v.fields.Keys <= CONFIG_FIELDS
    ensures !v.JObject? ==> r == Err(NotAMapping)
    ensures v.JObject? && v.fields.Keys - CONFIG_FIELDS != {} ==> r == Err(UnexpectedData(v.fields.Keys - CONFIG_FIELDS))
    ensures r.Ok? ==> DecodePeerConnection(FieldOrNull(v.fields, "peer_connection")) == Ok(r.value.peerConnection)
    ensures r.Ok? ==> DecodePlugin(FieldOrNull(v.fields, "signaling_plugin"), base) == Ok(r.value.signalingPlugin)
  {
    match v
    case JObject(f) =>
      if f.Keys - CONFIG_FIELDS != {} then Err(UnexpectedData(f.Keys - CONFIG_FIELDS))
      else
        var pc :- DecodePeerConnection(FieldOrNull(f, "peer_connection"));
        var plugin :- DecodePlugin(FieldOrNull(f, "signaling_plugin"), base);
        Ok(Config(pc, plugin))
    case _ => Err(NotAMapping)
  }

  /**
   * `load_config_from_dict`: strict decoding, with a relative plugin path
   * anchored at the resolved `baseDir` and an absolute one kept as written.
   */
  function LoadConfigFromDict(data: Value, baseDir: Path, cwd: Path): (r: Result<Config, ConfigError>)
    ensures r.Ok? ==> data.JObject? && data.fields.Keys <= CONFIG_FIELDS
    ensures r.Ok? && PluginString(data).Some? && ParsePath(PluginString(data).value).absolute ==>
      r.value.signalingPlugin == Some(ParsePath(PluginString(data).value))
    ensures r.Ok? && PluginString(data).Some? && !ParsePath(PluginString(data).value).absolute ==>
      r.value.signalingPlugin == Some(Path(true, Resolve(baseDir, cwd).parts + ParsePath(PluginString(data).value).parts))
  {
    DecodeConfig(data, Resolve(baseDir, cwd))
  }

  /**
   * `load_config_from_file`: the YAML document at `path`, with relative
   * paths anchored at the file's own directory. `readYaml` answers `None`
   * when the file cannot be opened or parsed.
   */
  function LoadConfigFromFile(path: Path, readYaml: Path -> Option<Value>, cwd: Path): (r: Result<Config, ConfigError>)
    ensures readYaml(path).None? ==> r == Err(Unreadable)
    ensures readYaml(path).Some? ==> r == DecodeConfig(readYaml(path).value, Resolve(Parent(path), cwd))
  {
    match readYaml(path)
    case None => Err(Unreadable)
    case Some(data) => LoadConfigFromDict(data, Parent(path), cwd)
  }

  /** An ICE server entry with only a URL has neither username nor credential. */
  lemma UrlOnlyServer(url: string)
    ensures DecodeIceServer(JObject(map["url" := JString(url)])) == Ok(IceServer(url, None, None))
  {
    var f := map["url" := JString(url)];
    assert f.Keys - ICE_SERVER_FIELDS == {};
  }

  /** An empty mapping is the default configuration. */
  lemma EmptyDocumentIsDefault(base: Path)
    ensures DecodeConfig(JObject(map[]), base) == Ok(DefaultConfig())
  {
    var f: map<string, Value> := map[];
    assert f.Keys - CONFIG_FIELDS == {};
  }

  /** An empty file is read as `null`, which is not a mapping, so loading it fails. */
  lemma EmptyFileFails(file: Path, readYaml: Path -> Option<Value>, cwd: Path)
    requires readYaml(file) == Some(JNull)
    ensures LoadConfigFromFile(file, readYaml, cwd) == Err(NotAMapping)
  {
  }

  /**
   * A plugin path read from a file: relative to the file's own resolved
   * directory when relative, taken as written when absolute.
   */
  lemma PluginAnchoredAtConfigDir(file: Path, s: string, readYaml: Path -> Option<Value>, cwd: Path)
    requires readYaml(file) == Some(JObject(map["signaling_plugin" := JString(s)]))
    ensures |s| > 0 && s[0] == '/' ==> LoadConfigFromFile(file, readYaml, cwd) == Ok(Config(None, Some(ParsePath(s))))
    ensures !(|s| > 0 && s[0] == '/') ==>
      LoadConfigFromFile(file, readYaml, cwd) ==
      Ok(Config(None, Some(Path(true, Resolve(Parent(file), cwd).parts + ParsePath(s).parts))))
  {
    var f := map["signaling_plugin" := JString(s)];
    assert f.Keys - CONFIG_FIELDS == {};
    assert FieldOrNull(f, "peer_connection") == JNull;
  }

  // ---------------------------------------------------------------- encoding

  function EncodeOpt(o: Option<string>): Value {
    if o.Some? then JString(o.value) else JNull
  }

  function EncodeIceServer(s: IceServer): Value {
    JObject(map["url" := JString(s.url), "username" := EncodeOpt(s.username), "credential" := EncodeOpt(s.credential)])
  }

  function EncodeIceServers(xs: seq<IceServer>): (r: seq<Value>)
    ensures |r| == |xs|
    decreases |xs|
  {
    if xs == [] then [] else [EncodeIceServer(xs[0])] + EncodeIceServers(xs[1..])
  }

  /** A document that describes `c`, with the plugin path written out as a string. */
  function EncodeConfig(c: Config): Value {
    JObject(map[
      "peer_connection" := (if c.peerConnection.Some? then JObject(map["ice_servers" := JArray(EncodeIceServers(c.peerConnection.value.iceServers))]) else JNull),
      "signaling_plugin" := (if c.signalingPlugin.Some? then JString(Render(c.signalingPlugin.value)) else JNull)])
  }

  lemma IceServerRoundTrip(s: IceServer)
    ensures DecodeIceServer(EncodeIceServer(s)) == Ok(s)
  {
    var f := map["url" := JString(s.url), "username" := EncodeOpt(s.username), "credential" := EncodeOpt(s.credential)];
    assert f.Keys == ICE_SERVER_FIELDS;
  }

  lemma {:induction false} IceServersRoundTrip(xs: seq<IceServer>)
    ensures DecodeIceServers(EncodeIceServers(xs)) == Ok(xs)
    decreases |xs|
  {
    if xs != [] {
      var enc := EncodeIceServers(xs);
      IceServerRoundTrip(xs[0]);
      IceServersRoundTrip(xs[1..]);
      assert enc[1..] == EncodeIceServers(xs[1..]);
      assert xs == [xs[0]] + xs[1..];
    }
  }

  /**
   * Writing a configuration out and reading it back gives it again, except
   * that a relative plugin path comes back anchored at the base directory.
   */
  lemma ConfigRoundTrip(c: Config, base: Path)
    requires c.signalingPlugin.Some? ==> WellFormed(c.signalingPlugin.value)
    ensures DecodeConfig(EncodeConfig(c), base) ==
      Ok(Config(c.peerConnection, if c.signalingPlugin.Some? then Some(Join(base, c.signalingPlugin.value)) else None))
    ensures c.signalingPlugin.Some? && c.signalingPlugin.value.absolute ==> DecodeConfig(EncodeConfig(c), base) == Ok(c)
  {
    var v := EncodeConfig(c);
    assert v.fields.Keys == CONFIG_FIELDS;
    if c.peerConnection.Some? {
      var pf := map["ice_servers" := JArray(EncodeIceServers(c.peerConnection.value.iceServers))];
      assert pf.Keys == PEER_CONNECTION_FIELDS;
      IceServersRoundTrip(c.peerConnection.value.iceServers);
    }
    if c.signalingPlugin.Some? {
      ParseRender(c.signalingPlugin.value);
    }
  }

  // ---------------------------------------------------------------- selection

  /**
   * The file a `CONFIG_PATHS` entry names: as written (`expandHome` false) or
   * with `~` taken as the home directory (`expandHome` true).
   */
  function CandidateFor(entry: string, home: Path, expandHome: bool): Path {
    if expandHome then Candidate(entry, home) else CandidateAsWritten(entry)
  }

  /**
   * `load_config`: the file named by the environment variable when it is set
   * (and it must be a regular file), otherwise the first candidate that is a
   * regular file, otherwise the default. `env` is the value of the variable
   * named `CONFIG_ENVKEY`, `isFile` the filesystem's answer to
   * `exists() and is_file()`. Both `isFile` and `readYaml` get the path as
   * written, so a relative one is to be read from `cwd`. With `expandHome` false the candidates are read
   * as the source writes them; with it true, `~` names the home directory.
   */
  method LoadConfig(env: Option<string>, configPaths: seq<string>, home: Path, cwd: Path, expandHome: bool,
                    isFile: Path -> bool, readYaml: Path -> Option<Value>) returns (r: Result<Config, ConfigError>)
    ensures env.Some? && !isFile(ParsePath(env.value)) ==> r == Err(InvalidEnvConfig)
    ensures env.Some? && isFile(ParsePath(env.value)) ==> r == LoadConfigFromFile(ParsePath(env.value), readYaml, cwd)
    ensures env.None? && (forall j :: 0 <= j < |configPaths| ==> !isFile(CandidateFor(configPaths[j], home, expandHome))) ==>
      r == Ok(DefaultConfig())
    ensures env.None? ==> forall i ::
      (0 <= i < |configPaths| && isFile(CandidateFor(configPaths[i], home, expandHome)) &&
       forall j :: 0 <= j < i ==> !isFile(CandidateFor(configPaths[j], home, expandHome))) ==>
        r == LoadConfigFromFile(CandidateFor(configPaths[i], home, expandHome), readYaml, cwd)
  {
    if env.Some? {
      var path := ParsePath(env.value);
      if !isFile(path) {
        return Err(InvalidEnvConfig);
      }
      return LoadConfigFromFile(path, readYaml, cwd);
    }
    var i := 0;
    while i < |configPaths|
      invariant 0 <= i <= |configPaths|
      invariant forall j :: 0 <= j < i ==> !isFile(CandidateFor(configPaths[j], home, expandHome))
    {
      var path := CandidateFor(configPaths[i], home, expandHome);
      if isFile(path) {
        forall k | 0 <= k < |configPaths| && isFile(CandidateFor(configPaths[k], home, expandHome)) &&
                   (forall j :: 0 <= j < k ==> !isFile(CandidateFor(configPaths[j], home, expandHome)))
          ensures k == i
        {
        }
        return LoadConfigFromFile(path, readYaml, cwd);
      }
      i := i + 1;
    }
    return Ok(DefaultConfig());
  }

  /**
   * Where the two candidates, read as written, land when looked up from `cwd`:
   * on `<home>/.x2webrtc` only from the home directory, or from its parent
   * when the home directory is literally named `~`.
   */
  lemma CandidatesSeenFrom(home: Path, cwd: Path)
    requires home.absolute && ".." !in home.parts && ".." !in cwd.parts
    ensures Resolve(Path(false, [".x2webrtc"]), cwd) == Path(true, home.parts + [".x2webrtc"]) <==>
      cwd.parts == home.parts
    ensures Resolve(Path(false, ["~", ".x2webrtc"]), cwd) == Path(true, home.parts + [".x2webrtc"]) <==>
      cwd.parts + ["~"] == home.parts
    ensures Resolve(Path(true, home.parts + [".x2webrtc"]), cwd) == Path(true, home.parts + [".x2webrtc"])
  {
    var hs := home.parts + [".x2webrtc"];
    var ls := cwd.parts + [".x2webrtc"];
    var ts := (cwd.parts + ["~"]) + [".x2webrtc"];
    assert cwd.parts + ["~", ".x2webrtc"] == ts;
    if ls == hs {
      assert cwd.parts == ls[..|ls| - 1] == hs[..|hs| - 1] == home.parts;
    }
    if ts == hs {
      assert cwd.parts + ["~"] == ts[..|ts| - 1] == hs[..|hs| - 1] == home.parts;
    }
  }

  /** `p`, looked up from the working directory `cwd`, names `file`. */
  predicate FoundFrom(p: Path, cwd: Path, file: Path) {
    Resolve(p, cwd) == file
  }

  /** The two candidates, as written and with `~` expanded. */
  lemma CandidatesOf(home: Path)
    requires home.absolute
    ensures |CONFIG_PATHS| == 2
    ensures CandidateFor(CONFIG_PATHS[0], home, false) == Path(false, [".x2webrtc"])
    ensures CandidateFor(CONFIG_PATHS[1], home, false) == Path(false, ["~", ".x2webrtc"])
    ensures CandidateFor(CONFIG_PATHS[0], home, true) == Path(false, [".x2webrtc"])
    ensures CandidateFor(CONFIG_PATHS[1], home, true) == Path(true, home.parts + [".x2webrtc"])
  {
    HomeEntryParts();
    LocalCandidateUnchanged(home);
    HomeCandidateIsInHome(home);
  }

  /**
   * The home-directory finding seen from a client. The disk holds only
   * `<home>/.x2webrtc`, and a relative path is looked up under the working
   * directory. From a working directory other than the home directory (and
   * other than its parent, when the home directory is literally named `~`),
   * the code as written falls back to the default; from the home directory
   * itself it finds the file through the first candidate.
   */
  method HomeConfigMissedAsWritten(home: Path, cwd: Path, readYaml: Path -> Option<Value>)
    returns (r: Result<Config, ConfigError>)
    requires home.absolute && ".." !in home.parts && ".." !in cwd.parts
    ensures cwd.parts != home.parts && cwd.parts + ["~"] != home.parts ==> r == Ok(DefaultConfig())
    ensures cwd.parts == home.parts ==> r == LoadConfigFromFile(Path(false, [".x2webrtc"]), readYaml, cwd)
    ensures cwd.parts + ["~"] == home.parts ==>
      r == LoadConfigFromFile(Path(false, ["~", ".x2webrtc"]), readYaml, cwd)
  {
    var homeFile := Path(true, home.parts + [".x2webrtc"]);
    var isFile := (p: Path) => FoundFrom(p, cwd, homeFile);
    CandidatesSeenFrom(home, cwd);
    CandidatesOf(home);
    r := LoadConfig(None, CONFIG_PATHS, home, cwd, false, isFile, readYaml);
    if cwd.parts != home.parts && cwd.parts + ["~"] != home.parts {
      forall j | 0 <= j < |CONFIG_PATHS| ensures !isFile(CandidateFor(CONFIG_PATHS[j], home, false)) {
        assert j == 0 || j == 1;
      }
    } else if cwd.parts != home.parts {
      assert !isFile(CandidateFor(CONFIG_PATHS[0], home, false));
      assert isFile(CandidateFor(CONFIG_PATHS[1], home, false));
    } else {
      assert isFile(CandidateFor(CONFIG_PATHS[0], home, false));
    }
  }

  /**
   * The same disk with `~` expanded: from any working directory other than
   * the home directory, `<home>/.x2webrtc` is loaded through the second
   * candidate.
   */
  method HomeConfigFoundExpanded(home: Path, cwd: Path, readYaml: Path -> Option<Value>)
    returns (r: Result<Config, ConfigError>)
    requires home.absolute && ".." !in home.parts && ".." !in cwd.parts
    ensures cwd.parts != home.parts ==> r == LoadConfigFromFile(Path(true, home.parts + [".x2webrtc"]), readYaml, cwd)
    ensures cwd.parts == home.parts ==> r == LoadConfigFromFile(Path(false, [".x2webrtc"]), readYaml, cwd)
  {
    var homeFile := Path(true, home.parts + [".x2webrtc"]);
    var isFile := (p: Path) => FoundFrom(p, cwd, homeFile);
    CandidatesSeenFrom(home, cwd);
    CandidatesOf(home);
    r := LoadConfig(None, CONFIG_PATHS, home, cwd, true, isFile, readYaml);
  }
}
