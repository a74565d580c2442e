/** The provisioning decisions of the setup script: where the agent platform is installed,
    how its `openclaw.json` gets webhooks enabled with a token, how `.env` is made from its
    template, how the public address is found and what callback URL is printed.

    The file system is a map from file paths to contents plus a set of directory paths; a
    path exists when it is either. The network, the random token and the JSON text format lie
    outside the model and are parameters. */
module Setup {
  import opened Common
  import opened JsonValue
  import Config

  // ------------------------------------------------------------------
  // Public address detection
  // ------------------------------------------------------------------

  /** A public-address echo service, queried over HTTPS with a three-second timeout. */
  datatype Service = Service(host: string, path: string)

  const Services: seq<Service> := [
    Service("api4.ipify.org", "/"),
    Service("ipv4.icanhazip.com", "/"),
    Service("checkip.amazonaws.com", "/")
  ]

  /** `s.split(c)`: the pieces between the separators, empty pieces included. */
  function SplitOn(s: string, c: char): (r: seq<string>)
    ensures |r| >= 1
  {
    if s == [] then [[]]
    else
      var rest := SplitOn(s[1..], c);
      if s[0] == c then [[]] + rest else [[s[0]] + rest[0]] + rest[1..]
  }

  /** The pieces put back together, one separator between neighbours. */
  function JoinOn(gs: seq<string>, c: char): string
    requires gs != []
  {
    if |gs| == 1 then gs[0] else gs[0] + [c] + JoinOn(gs[1..], c)
  }

  /** `\d{1,3}`: one to three ASCII digits. */
  predicate IsOctetGroup(g: string) {
    1 <= |g| <= 3 && forall i :: 0 <= i < |g| ==> IsDigit(g[i])
  }

  /** `/^\d{1,3}(\.\d{1,3}){3}$/.test(s)`. */
  predicate IsDottedQuad(s: string) {
    var gs := SplitOn(s, '.');
    |gs| == 4 && forall i :: 0 <= i < 4 ==> IsOctetGroup(gs[i])
  }

  lemma {:induction false} SplitPlain(g: string, c: char)
    requires c !in g
    ensures SplitOn(g, c) == [g]
  {
    if g != [] {
      SplitPlain(g[1..], c);
      assert [g[0]] + g[1..] == g;
    }
  }

  lemma {:induction false} SplitAtSeparator(g: string, c: char, t: string)
    requires c !in g
    ensures SplitOn(g + [c] + t, c) == [g] + SplitOn(t, c)
  {
    if g == [] {
      assert g + [c] + t == [c] + t;
      assert ([c] + t)[1..] == t;
    } else {
      var s := g + [c] + t;
      assert s[1..] == g[1..] + [c] + t;
      SplitAtSeparator(g[1..], c, t);
      assert [g[0]] + g[1..] == g;
    }
  }

  /** Splitting undoes joining, when no piece holds the separator. */
  lemma {:induction false} SplitJoin(gs: seq<string>, c: char)
    requires gs != [] && forall i :: 0 <= i < |gs| ==> c !in gs[i]
    ensures SplitOn(JoinOn(gs, c), c) == gs
  {
    if |gs| == 1 {
      SplitPlain(gs[0], c);
    } else {
      SplitJoin(gs[1..], c);
      SplitAtSeparator(gs[0], c, JoinOn(gs[1..], c));
      assert gs == [gs[0]] + gs[1..];
    }
  }

  /** Joining undoes splitting. */
  lemma {:induction false} JoinSplit(s: string, c: char)
    ensures JoinOn(SplitOn(s, c), c) == s
  {
    if s != [] {
      JoinSplit(s[1..], c);
      var rest := SplitOn(s[1..], c);
      if s[0] == c {
        assert [[]] + rest != [] && ([[]] + rest)[1..] == rest;
        assert s == [c] + s[1..];
      } else {
        var r := [[s[0]] + rest[0]] + rest[1..];
        if |rest| == 1 {
          assert JoinOn(r, c) == [s[0]] + rest[0];
        } else {
          assert r[1..] == rest[1..];
          assert JoinOn(rest, c) == rest[0] + [c] + JoinOn(rest[1..], c);
        }
        assert s == [s[0]] + s[1..];
      }
    }
  }

  lemma JoinFour(a: string, b: string, c: string, d: string)
    ensures JoinOn([a, b, c, d], '.') == a + "." + b + "." + c + "." + d
  {
    var gs := [a, b, c, d];
    assert gs[1..] == [b, c, d] && gs[1..][1..] == [c, d] && gs[1..][1..][1..] == [d];
    assert JoinOn([c, d], '.') == c + "." + d;
    assert JoinOn([b, c, d], '.') == b + "." + (c + "." + d);
  }

  /** The address test in plain terms: four groups of one to three digits separated by
      three dots, nothing before or after. */
  lemma DottedQuadIff(s: string)
    ensures IsDottedQuad(s) <==> exists a, b, c, d ::
      && IsOctetGroup(a) && IsOctetGroup(b) && IsOctetGroup(c) && IsOctetGroup(d)
      && s == a + "." + b + "." + c + "." + d
  {
    if IsDottedQuad(s) {
      QuadGroups(s);
    }
    forall a, b, c, d | IsOctetGroup(a) && IsOctetGroup(b) && IsOctetGroup(c) && IsOctetGroup(d)
                        && s == a + "." + b + "." + c + "." + d
      ensures IsDottedQuad(s)
    {
      GroupsQuad(a, b, c, d);
    }
  }

  /** An accepted address is its four groups joined by dots. */
  lemma QuadGroups(s: string)
    requires IsDottedQuad(s)
    ensures var gs := SplitOn(s, '.');
      && IsOctetGroup(gs[0]) && IsOctetGroup(gs[1]) && IsOctetGroup(gs[2]) && IsOctetGroup(gs[3])
      && s == gs[0] + "." + gs[1] + "." + gs[2] + "." + gs[3]
  {
    var gs := SplitOn(s, '.');
    JoinSplit(s, '.');
    assert gs == [gs[0], gs[1], gs[2], gs[3]];
    JoinFour(gs[0], gs[1], gs[2], gs[3]);
  }

  /** Any four groups of one to three digits, joined by dots, are accepted. */
  lemma GroupsQuad(a: string, b: string, c: string, d: string)
    requires IsOctetGroup(a) && IsOctetGroup(b) && IsOctetGroup(c) && IsOctetGroup(d)
    ensures IsDottedQuad(a + "." + b + "." + c + "." + d)
  {
    var gs := [a, b, c, d];
    forall i | 0 <= i < 4 ensures '.' !in gs[i] {
      assert IsOctetGroup(gs[i]);
    }
    JoinFour(a, b, c, d);
    SplitJoin(gs, '.');
  }

  /** Octet values are not range-checked: 999.999.999.999 is accepted. */
  lemma OctetRangeUnchecked()
    ensures IsDottedQuad("999.999.999.999")
  {
    var g := "999";
    assert IsOctetGroup(g);
    GroupsQuad(g, g, g, g);
    assert g + "." + g + "." + g + "." + g == "999.999.999.999";
  }

  /** An accepted address is made of digits and dots only. */
  lemma DottedQuadChars(s: string)
    requires IsDottedQuad(s)
    ensures s != []
    ensures forall i :: 0 <= i < |s| ==> IsDigit(s[i]) || s[i] == '.'
  {
    DottedQuadIff(s);
    var a, b, c, d :| && IsOctetGroup(a) && IsOctetGroup(b) && IsOctetGroup(c) && IsOctetGroup(d)
                      && s == a + "." + b + "." + c + "." + d;
  }

  /** A service answer is accepted when its trimmed body passes the check; `None` is an
      error or a timeout. */
  predicate Accepted(body: Option<string>) {
    body.Some? && IsDottedQuad(Trim(body.value))
  }

  /** `getPublicIp`: the services are tried in order, `tried` counting the ones asked;
      `fetch(svc)` is the body the service answers with, `None` when the request fails or
      times out. */
  method GetPublicIp(fetch: Service -> Option<string>) returns (ip: Option<string>, tried: nat)
    ensures 1 <= tried <= |Services| || (tried == 0 && |Services| == 0)
    ensures ip.Some? ==>
      && Accepted(fetch(Services[tried - 1]))
      && ip.value == Trim(fetch(Services[tried - 1]).value)
      && forall j :: 0 <= j < tried - 1 ==> !Accepted(fetch(Services[j]))
    ensures ip.None? <==> forall j :: 0 <= j < |Services| ==> !Accepted(fetch(Services[j]))
    ensures ip.None? ==> tried == |Services|
  {
    tried := 0;
    while tried < |Services|
      invariant 0 <= tried <= |Services|
      invariant forall j :: 0 <= j < tried ==> !Accepted(fetch(Services[j]))
    {
      var svc := Services[tried];
      tried := tried + 1;
      var body := fetch(svc);
      if body.Some? {
        var candidate := Trim(body.value);
        if IsDottedQuad(candidate) {
          ip := Some(candidate);
          return;
        }
      }
    }
    ip := None;
  }

  // ------------------------------------------------------------------
  // Callback URL
  // ------------------------------------------------------------------

  const Placeholder: string := "YOUR_SERVER_IP"

  /** The URL printed for the administration console: the detected address, or a placeholder
      when none was found, and the listen port, 3000 unless `BRIDGE_PORT` is set. */
  function CallbackUrl(ip: Option<string>, env: map<string, string>): string {
    var port := Config.EnvOr(env, "BRIDGE_PORT", "3000");
    var host := if ip.Some? && ip.value != "" then ip.value else Placeholder;
    "http://" + host + ":" + port + "/wecom"
  }

  /** Reading a callback URL back into host and port: the text between the scheme and the
      first colon, then up to the `/wecom` path. */
  function UrlParts(url: string): Option<(string, string)> {
    if !StartsWith(url, "http://") || !EndsWith(url, "/wecom") || |url| < 13 then None
    else
      var middle := url[7..|url| - 6];
      match IndexOf(middle, ":", 0)
      case None => None
      case Some(i) => Some((middle[..i], middle[i + 1..]))
  }

  /** The first colon of `host:port` is the one after the host. */
  lemma FirstColon(host: string, port: string)
    requires forall i :: 0 <= i < |host| ==> host[i] != ':'
    ensures IndexOf(host + ":" + port, ":", 0) == Some(|host|)
  {
    var m := host + ":" + port;
    assert OccursAt(m, ":", |host|) by {
      assert m[|host|..|host| + 1] == [m[|host|]];
    }
    forall j: nat | j < |host| ensures !OccursAt(m, ":", j) {
      assert m[j..j + 1] == [m[j]];
      assert m[j] == host[j];
    }
  }

  /** The URL names the address that was found (or the placeholder) and the configured port,
      and both can be read back from it. */
  lemma CallbackUrlParts(ip: Option<string>, env: map<string, string>)
    requires ip.Some? ==> IsDottedQuad(ip.value)
    ensures var port := if Config.Present(env, "BRIDGE_PORT") then env["BRIDGE_PORT"] else "3000";
      UrlParts(CallbackUrl(ip, env)) == Some((if ip.Some? then ip.value else Placeholder, port))
  {
    var port := Config.EnvOr(env, "BRIDGE_PORT", "3000");
    var host := if ip.Some? then ip.value else Placeholder;
    if ip.Some? {
      DottedQuadChars(ip.value);
      assert forall i :: 0 <= i < |host| ==> host[i] != ':';
    } else {
      assert forall i :: 0 <= i < |host| ==> host[i] != ':';
    }
    assert CallbackUrl(ip, env) == "http://" + host + ":" + port + "/wecom";
    UrlPartsOf(host, port);
  }

  /** Host and port are read back from any URL written in the callback form, provided the
      host holds no colon. */
  lemma UrlPartsOf(host: string, port: string)
    requires forall i :: 0 <= i < |host| ==> host[i] != ':'
    ensures UrlParts("http://" + host + ":" + port + "/wecom") == Some((host, port))
  {
    var middle := host + ":" + port;
    var url := "http://" + host + ":" + port + "/wecom";
    UrlFrame(middle);
    assert url == "http://" + middle + "/wecom";
    FirstColon(host, port);
    assert middle[..|host|] == host && middle[|host| + 1..] == port;
  }

  /** The scheme and the path frame the middle of a URL. */
  lemma UrlFrame(middle: string)
    ensures var url := "http://" + middle + "/wecom";
      StartsWith(url, "http://") && EndsWith(url, "/wecom") && |url| >= 13 && url[7..|url| - 6] == middle
  {
    var url := "http://" + middle + "/wecom";
    assert url[..7] == "http://";
    assert url[|url| - 6..] == "/wecom";
    assert url[7..|url| - 6] == middle;
  }

  // ------------------------------------------------------------------
  // The file system and the provisioning steps
  // ------------------------------------------------------------------

  predicate PathExists(files: map<string, string>, dirs: set<string>, p: string) {
    p in files || p in dirs
  }

  /** The places looked at for the agent platform, in order. */
  function HomeCandidates(home: string): seq<string> {
    [JoinPath(home, ".openclaw"), "/root/.openclaw", "/home/ubuntu/.openclaw"]
  }

  /** The first of the paths `cs` that exists. */
  function FirstExisting(files: map<string, string>, dirs: set<string>, cs: seq<string>): (r: Option<string>)
    ensures r.Some? ==> r.value in cs && PathExists(files, dirs, r.value)
  {
    if cs == [] then None
    else if PathExists(files, dirs, cs[0]) then Some(cs[0])
    else FirstExisting(files, dirs, cs[1..])
  }

  /** The path found is the first of the list that exists; none is found when none exists. */
  lemma {:induction false} FirstExistingIsFirst(files: map<string, string>, dirs: set<string>, cs: seq<string>)
    ensures var r := FirstExisting(files, dirs, cs);
      && (r.Some? ==> exists i :: 0 <= i < |cs| && cs[i] == r.value
                        && forall j :: 0 <= j < i ==> !PathExists(files, dirs, cs[j]))
      && (r.None? <==> forall i :: 0 <= i < |cs| ==> !PathExists(files, dirs, cs[i]))
  {
    if cs != [] && !PathExists(files, dirs, cs[0]) {
      var rest := cs[1..];
      FirstExistingIsFirst(files, dirs, rest);
      assert forall i :: 1 <= i < |cs| ==> cs[i] == rest[i - 1];
      var r := FirstExisting(files, dirs, rest);
      if r.Some? {
        var i :| 0 <= i < |rest| && rest[i] == r.value
                 && forall j :: 0 <= j < i ==> !PathExists(files, dirs, rest[j]);
        assert cs[i + 1] == r.value;
      }
    }
  }

  function ConfigPath(openclawHome: string): string {
    JoinPath(openclawHome, "openclaw.json")
  }

  /** How `configureOpenClawJson` ends: `ParseFailed` returns `null`, `Crashed` throws out of
      the script, the other two return a token. */
  datatype Configured = ParseFailed | Crashed | AlreadyConfigured(existing: Json) | Generated(token: string)

  /** The configuration as loaded: `{}` when the file does not exist, `None` when reading or
      parsing throws (reading a directory throws). */
  function Loaded(files: map<string, string>, dirs: set<string>, path: string, parse: string -> Option<Json>): Option<Json> {
    if path in dirs then None
    else if path in files then parse(files[path])
    else Some(Obj([]))
  }

  /** `config.hooks && config.hooks.enabled && config.hooks.token`. */
  predicate HooksConfigured(config: Json) {
    var hooks := Prop(Some(config), "hooks");
    Truthy(hooks) && Truthy(Prop(hooks, "enabled")) && Truthy(Prop(hooks, "token"))
  }

  /** The new `hooks` value: the old one spread, then `enabled` and `token` set. */
  function NewHooks(previous: Option<Json>, token: string): Json {
    Obj(Put(Put(Spread(previous), "enabled", Bool(true)), "token", Str(token)))
  }

  /** `config.hooks = { ...(config.hooks || {}), enabled: true, token }`. Assigning a property
      of a string, number or boolean does nothing, and one of an array is not written out by
      `JSON.stringify`, so only an object changes. */
  function WithHooks(config: Json, token: string): Json {
    if config.Obj? then Obj(Put(config.members, "hooks", NewHooks(Prop(Some(config), "hooks"), token)))
    else config
  }

  /** The decision of `configureOpenClawJson` for a loaded configuration. */
  function ConfigureOutcome(loaded: Option<Json>, freshToken: string): Configured {
    match loaded
    case None => ParseFailed
    case Some(Null) => Crashed
    case Some(config) =>
      if HooksConfigured(config) then AlreadyConfigured(Prop(Prop(Some(config), "hooks"), "token").value)
      else Generated(freshToken)
  }

  /** The merged object's `hooks` is the new hooks value. */
  lemma {:induction false} MergedHooks(config: Json, token: string)
    requires config.Obj?
    ensures WithHooks(config, token).Obj?
    ensures Prop(Some(WithHooks(config, token)), "hooks") == Some(NewHooks(Prop(Some(config), "hooks"), token))
  {
    PutSets(config.members, "hooks", NewHooks(Prop(Some(config), "hooks"), token));
  }

  /** The new configuration keeps every top-level key other than `hooks` with its value, and
      keeps the key order (a missing `hooks` goes last). */
  lemma MergeKeepsTopLevel(config: Json, token: string, k: string)
    requires config.Obj? && k != "hooks"
    ensures var w := WithHooks(config, token);
      && w.Obj?
      && Keys(w.members) == (if "hooks" in Keys(config.members) then Keys(config.members) else Keys(config.members) + ["hooks"])
      && Prop(Some(w), k) == Prop(Some(config), k)
  {
    var hooks := NewHooks(Prop(Some(config), "hooks"), token);
    PutKeys(config.members, "hooks", hooks);
    PutKeepsOthers(config.members, "hooks", hooks, k);
  }

  /** The new `hooks` has `enabled: true` and the fresh token. */
  lemma {:induction false} MergeSetsHooks(config: Json, token: string)
    requires config.Obj?
    ensures var h := Prop(Some(WithHooks(config, token)), "hooks");
      Prop(h, "enabled") == Some(Bool(true)) && Prop(h, "token") == Some(Str(token))
  {
    MergedHooks(config, token);
    var spread := Spread(Prop(Some(config), "hooks"));
    var withEnabled := Put(spread, "enabled", Bool(true));
    PutSets(spread, "enabled", Bool(true));
    PutKeepsOthers(withEnabled, "token", Str(token), "enabled");
    PutSets(withEnabled, "token", Str(token));
  }

  /** Every other field of the old `hooks` survives: each key of its spread keeps its value;
      for an object that is each of its fields. */
  lemma {:induction false} MergeKeepsHookFields(config: Json, token: string, k: string)
    requires config.Obj? && k != "enabled" && k != "token"
    ensures Prop(Prop(Some(WithHooks(config, token)), "hooks"), k) == Lookup(Spread(Prop(Some(config), "hooks")), k)
    ensures Prop(Some(config), "hooks").Some? && Prop(Some(config), "hooks").value.Obj? ==>
      Prop(Prop(Some(WithHooks(config, token)), "hooks"), k) == Prop(Prop(Some(config), "hooks"), k)
  {
    MergedHooks(config, token);
    var spread := Spread(Prop(Some(config), "hooks"));
    PutKeepsOthers(spread, "enabled", Bool(true), k);
    PutKeepsOthers(Put(spread, "enabled", Bool(true)), "token", Str(token), k);
  }

  /** A configuration that is not an object is written back unchanged although a new token is
      reported: `openclaw.json` then holds no token at all. */
  lemma NonObjectConfigNotUpdated(config: Json, token: string)
    requires !config.Obj? && !config.Null?
    ensures ConfigureOutcome(Some(config), token) == Generated(token)
    ensures WithHooks(config, token) == config && !HooksConfigured(WithHooks(config, token))
  {
  }

  /** Running the step again finds the token it wrote (given that the written text parses back
      to the value it was written from) and keeps it. */
  lemma SecondRunKeepsToken(files: map<string, string>, dirs: set<string>, home: string,
                            parse: string -> Option<Json>, stringify: Json -> string,
                            token: string, laterToken: string)
    requires forall j :: parse(stringify(j) + "\n") == Some(j)
    requires token != ""
    requires ConfigureOutcome(Loaded(files, dirs, ConfigPath(home), parse), token) == Generated(token)
    requires Loaded(files, dirs, ConfigPath(home), parse).value.Obj?
    ensures var written := WithHooks(Loaded(files, dirs, ConfigPath(home), parse).value, token);
      var files' := files[ConfigPath(home) := stringify(written) + "\n"];
      ConfigureOutcome(Loaded(files', dirs, ConfigPath(home), parse), laterToken) == AlreadyConfigured(Str(token))
  {
    var path := ConfigPath(home);
    var config := Loaded(files, dirs, path, parse).value;
    var written := WithHooks(config, token);
    WrittenIsConfigured(config, token);
    ReloadFindsWritten(files, dirs, path, parse, stringify, written);
  }

  /** The merged configuration passes the `hooks` test, with the fresh token in it. */
  lemma WrittenIsConfigured(config: Json, token: string)
    requires config.Obj? && token != ""
    ensures HooksConfigured(WithHooks(config, token))
    ensures Prop(Prop(Some(WithHooks(config, token)), "hooks"), "token") == Some(Str(token))
  {
    MergedHooks(config, token);
    MergeSetsHooks(config, token);
  }

  /** Reading back a file just written with a value's text gives the value. */
  lemma ReloadFindsWritten(files: map<string, string>, dirs: set<string>, path: string,
                           parse: string -> Option<Json>, stringify: Json -> string, w: Json)
    requires forall j :: parse(stringify(j) + "\n") == Some(j)
    requires path !in dirs
    ensures Loaded(files[path := stringify(w) + "\n"], dirs, path, parse) == Some(w)
  {
    assert parse(stringify(w) + "\n") == Some(w);
  }

  /** How `createEnvFile` ends: skipped because `.env` exists, skipped because the template is
      missing, thrown out of the script because the template cannot be read, or written. */
  datatype EnvResult = EnvExists | NoTemplate | TemplateUnreadable | EnvWritten

  function EnvPath(scriptDir: string): string {
    JoinPath(scriptDir, ".env")
  }

  function TemplatePath(scriptDir: string): string {
    JoinPath(scriptDir, ".env.example")
  }

  function EnvOutcome(files: map<string, string>, dirs: set<string>, scriptDir: string): (r: EnvResult)
    ensures r.EnvWritten? ==> TemplatePath(scriptDir) in files && !PathExists(files, dirs, EnvPath(scriptDir))
  {
    if PathExists(files, dirs, EnvPath(scriptDir)) then EnvExists
    else if !PathExists(files, dirs, TemplatePath(scriptDir)) then NoTemplate
    else if TemplatePath(scriptDir) in dirs then TemplateUnreadable
    else EnvWritten
  }

  const TokenKey: string := "OPENCLAW_TOKEN="

  /** `^OPENCLAW_TOKEN=` matches at `i` under the `m` flag: `i` starts a line. */
  predicate TokenLineAt(s: string, i: nat) {
    (i == 0 || (i <= |s| && IsLineTerminator(s[i - 1]))) && OccursAt(s, TokenKey, i)
  }

  /** Where the first match of `/^OPENCLAW_TOKEN=.*$/m` at or after `from` starts. */
  function FirstTokenLine(s: string, from: nat): (r: Option<nat>)
    decreases |s| - from
    ensures r.Some? ==> from <= r.value && TokenLineAt(s, r.value)
    ensures r.Some? ==> forall j: nat :: from <= j < r.value ==> !TokenLineAt(s, j)
    ensures r.None? ==> forall j: nat :: from <= j ==> !TokenLineAt(s, j)
  {
    if from + |TokenKey| > |s| then None
    else if TokenLineAt(s, from) then Some(from)
    else FirstTokenLine(s, from + 1)
  }

  /** Where the line starting at or before `i` ends: the next line terminator, or the end
      (what the greedy `.*$` reaches). */
  function LineEnd(s: string, i: nat): (e: nat)
    requires i <= |s|
    decreases |s| - i
    ensures i <= e <= |s|
    ensures forall j :: i <= j < e ==> !IsLineTerminator(s[j])
    ensures e == |s| || IsLineTerminator(s[e])
  {
    if i == |s| || IsLineTerminator(s[i]) then i else LineEnd(s, i + 1)
  }

  /** The replacement text of `String.prototype.replace` with the `$` patterns expanded: `$$`,
      `$&` (the match), `` $` `` (the text before it) and `$'` (the text after it); a pattern
      without capture groups leaves every other `$` as it is. */
  function Expand(r: string, matched: string, before: string, after: string): string {
    if r == [] then []
    else if r[0] == '$' && |r| >= 2 && r[1] in "$&`'" then
      (match r[1]
       case '$' => "$"
       case '&' => matched
       case '`' => before
       case _ => after)
      + Expand(r[2..], matched, before, after)
    else [r[0]] + Expand(r[1..], matched, before, after)
  }

  /** Text without `$` is inserted as it is. */
  lemma {:induction false} ExpandPlain(r: string, matched: string, before: string, after: string)
    requires '$' !in r
    ensures Expand(r, matched, before, after) == r
  {
    if r != [] {
      ExpandPlain(r[1..], matched, before, after);
      assert r == [r[0]] + r[1..];
    }
  }

  /** `content.replace(/^OPENCLAW_TOKEN=.*$/m, replacement)`: the first such line, and only
      it, is replaced. */
  function RewriteTokenLine(s: string, replacement: string): string {
    match FirstTokenLine(s, 0)
    case None => s
    case Some(i) =>
      var e := LineEnd(s, i);
      s[..i] + Expand(replacement, s[i..e], s[..i], s[e..]) + s[e..]
  }

  /** The written `.env`: the template with its token line filled in when a token is given. */
  function EnvContent(template: string, token: Json): string {
    if Truthy(Some(token)) then RewriteTokenLine(template, TokenKey + ToText(token)) else template
  }

  /** Without a token, or without a token line, the template is copied verbatim. */
  lemma TemplateVerbatim(template: string, token: Json)
    requires !Truthy(Some(token)) || FirstTokenLine(template, 0).None?
    ensures EnvContent(template, token) == template
  {
  }

  /** With a token free of `$`, the first `OPENCLAW_TOKEN=` line becomes `OPENCLAW_TOKEN=` and
      the token, and the text before that line and from its end on is unchanged. */
  lemma TokenLineFilled(template: string, token: string)
    requires token != "" && '$' !in token
    requires FirstTokenLine(template, 0).Some?
    ensures var i := FirstTokenLine(template, 0).value;
      var e := LineEnd(template, i);
      EnvContent(template, Str(token)) == template[..i] + (TokenKey + token) + template[e..]
  {
    var i := FirstTokenLine(template, 0).value;
    var e := LineEnd(template, i);
    var matched, before, after := template[i..e], template[..i], template[e..];
    TokenKeyPlain();
    ExpandPrefix(TokenKey, token, matched, before, after);
    ExpandPlain(token, matched, before, after);
    var mid := Expand(TokenKey + token, matched, before, after);
    assert mid == TokenKey + token;
    assert EnvContent(template, Str(token)) == before + mid + after;
  }

  lemma TokenKeyPlain()
    ensures '$' !in TokenKey
  {
  }

  /** A template that is one token line, without a line break, is replaced as a whole. */
  lemma SingleLineTemplate(x: string, replacement: string)
    requires forall i :: 0 <= i < |x| ==> !IsLineTerminator(x[i])
    ensures RewriteTokenLine(TokenKey + x, replacement) == Expand(replacement, TokenKey + x, "", "")
  {
    var s := TokenKey + x;
    assert s[..|TokenKey|] == TokenKey;
    assert TokenLineAt(s, 0);
    assert FirstTokenLine(s, 0) == Some(0);
    forall j | 0 <= j < |s| ensures !IsLineTerminator(s[j]) {
      if j >= |TokenKey| {
        assert s[j] == x[j - |TokenKey|];
      }
    }
    assert LineEnd(s, 0) == |s|;
    assert s[..0] == "" && s[0..|s|] == s && s[|s|..] == "";
  }

  /** `$` patterns in a token are expanded: a token `$&` copies the old line into the new
      one, so `OPENCLAW_TOKEN=x` becomes `OPENCLAW_TOKEN=OPENCLAW_TOKEN=x`. */
  lemma DollarPatternExpanded(x: string)
    requires forall i :: 0 <= i < |x| ==> !IsLineTerminator(x[i])
    ensures EnvContent(TokenKey + x, Str("$&")) == TokenKey + (TokenKey + x)
  {
    var s := TokenKey + x;
    var r := TokenKey + "$&";
    assert EnvContent(s, Str("$&")) == RewriteTokenLine(s, r);
    SingleLineTemplate(x, r);
    TokenKeyPlain();
    ExpandPrefix(TokenKey, "$&", s, "", "");
    ExpandMatch(s);
  }

  lemma ExpandMatch(matched: string)
    ensures Expand("$&", matched, "", "") == matched
  {
    var r := "$&";
    assert r[0] == '$' && r[1] == '&' && r[2..] == [];
    assert Expand(r, matched, "", "") == matched + Expand([], matched, "", "");
  }

  lemma {:induction false} ExpandPrefix(p: string, q: string, matched: string, before: string, after: string)
    requires '$' !in p
    ensures Expand(p + q, matched, before, after) == p + Expand(q, matched, before, after)
  {
    if p != [] {
      assert (p + q)[1..] == p[1..] + q;
      ExpandPrefix(p[1..], q, matched, before, after);
      assert p == [p[0]] + p[1..];
    } else {
      assert p + q == q;
    }
  }

  /** The token passed on to `createEnvFile`: `null` after a parse failure. */
  function TokenForEnv(c: Configured): Json
    requires !c.Crashed?
  {
    match c
    case ParseFailed => Null
    case AlreadyConfigured(existing) => existing
    case Generated(token) => Str(token)
  }

  /** The filled-in line holds `OPENCLAW_TOKEN=` and the token where the old line began. */
  lemma TokenLineHolds(template: string, token: string)
    requires token != "" && '$' !in token
    requires FirstTokenLine(template, 0).Some?
    ensures OccursAt(EnvContent(template, Str(token)), TokenKey + token, FirstTokenLine(template, 0).value)
  {
    TokenLineFilled(template, token);
    var i := FirstTokenLine(template, 0).value;
    var e := LineEnd(template, i);
    var before, after := template[..i], template[e..];
    OccursInMiddle(before, TokenKey + token, after);
  }

  /** The `.env` line agrees with `openclaw.json`: a freshly written configuration and the
      `.env` made right after carry the same token. */
  lemma EnvMatchesConfig(config: Json, template: string, token: string)
    requires config.Obj? && token != "" && '$' !in token
    requires FirstTokenLine(template, 0).Some?
    ensures Prop(Prop(Some(WithHooks(config, token)), "hooks"), "token") == Some(Str(token))
    ensures OccursAt(EnvContent(template, TokenForEnv(Generated(token))), TokenKey + token, FirstTokenLine(template, 0).value)
  {
    MergeSetsHooks(config, token);
    assert TokenForEnv(Generated(token)) == Str(token);
    TokenLineHolds(template, token);
  }

  lemma OccursInMiddle(a: string, m: string, b: string)
    ensures OccursAt(a + m + b, m, |a|)
  {
    assert (a + m + b)[|a|..|a| + |m|] == m;
  }

  /** The file system the setup script works on. */
  class FileSystem {
    var files: map<string, string>
    var dirs: set<string>

    constructor (files: map<string, string>, dirs: set<string>)
      ensures this.files == files && this.dirs == dirs
    {
      this.files := files;
      this.dirs := dirs;
    }

    /** `detectOpenClawHome`: the first candidate that exists, or `None`. */
    method DetectOpenClawHome(home: string) returns (found: Option<string>)
      ensures found == FirstExisting(files, dirs, HomeCandidates(home))
    {
      var candidates := HomeCandidates(home);
      var k := 0;
      while k < |candidates|
        invariant 0 <= k <= |candidates|
        invariant FirstExisting(files, dirs, candidates[k..]) == FirstExisting(files, dirs, candidates)
      {
        assert candidates[k..][0] == candidates[k] && candidates[k..][1..] == candidates[k + 1..];
        if candidates[k] in files || candidates[k] in dirs {
          return Some(candidates[k]);
        }
        k := k + 1;
      }
      return None;
    }

    /** `configureOpenClawJson`: load, decide, and when needed merge the hooks settings and
        write the file back as indented JSON with a final newline. */
    method ConfigureOpenClawJson(openclawHome: string, parse: string -> Option<Json>,
                                 stringify: Json -> string, freshToken: string)
      returns (r: Configured)
      modifies this
      ensures dirs == old(dirs)
      ensures r == ConfigureOutcome(Loaded(old(files), old(dirs), ConfigPath(openclawHome), parse), freshToken)
      ensures r.Generated? ==>
        files == old(files)[ConfigPath(openclawHome) :=
          stringify(WithHooks(Loaded(old(files), old(dirs), ConfigPath(openclawHome), parse).value, freshToken)) + "\n"]
      ensures !r.Generated? ==> files == old(files)
    {
      var path := ConfigPath(openclawHome);
      ghost var loaded := Loaded(files, dirs, path, parse);
      var config := Obj([]);
      if path in files || path in dirs {
        if path in dirs {
          return ParseFailed;
        }
        var parsed := parse(files[path]);
        if parsed.None? {
          return ParseFailed;
        }
        config := parsed.value;
      }
      assert loaded == Some(config);
      if config.Null? {
        return Crashed;
      }
      var hooks := Prop(Some(config), "hooks");
      if Truthy(hooks) && Truthy(Prop(hooks, "enabled")) && Truthy(Prop(hooks, "token")) {
        return AlreadyConfigured(Prop(hooks, "token").value);
      }
      assert ConfigureOutcome(loaded, freshToken) == Generated(freshToken);
      config := WithHooks(config, freshToken);
      files := files[path := stringify(config) + "\n"];
      return Generated(freshToken);
    }

    /** `createEnvFile`: copy the template to `.env`, filling in the token line. */
    method CreateEnvFile(scriptDir: string, token: Json) returns (r: EnvResult)
      modifies this
      ensures dirs == old(dirs)
      ensures r == EnvOutcome(old(files), old(dirs), scriptDir)
      ensures r.EnvWritten? ==>
        files == old(files)[EnvPath(scriptDir) := EnvContent(old(files)[TemplatePath(scriptDir)], token)]
      ensures !r.EnvWritten? ==> files == old(files)
    {
      var envFile := EnvPath(scriptDir);
      var envExample := TemplatePath(scriptDir);
      if envFile in files || envFile in dirs {
        return EnvExists;
      }
      if !(envExample in files || envExample in dirs) {
        return NoTemplate;
      }
      if envExample in dirs {
        return TemplateUnreadable;
      }
      var content := files[envExample];
      if Truthy(Some(token)) {
        content := RewriteTokenLine(content, TokenKey + ToText(token));
      }
      assert content == EnvContent(old(files)[envExample], token);
      files := files[envFile := content];
      return EnvWritten;
    }
  }
}
