/** The bridge's startup configuration (`CONFIG` and the `REQUIRED` check): values come from
    the process environment, a few have defaults, and the bridge refuses to start when a
    required value is missing or empty. */
module Config {
  import opened Common

  /** The length of the run of decimal digits at the front of `s`. */
  function DigitRun(s: string): (n: nat)
    ensures n <= |s|
    ensures forall i :: 0 <= i < n ==> IsDigit(s[i])
    ensures n == |s| || !IsDigit(s[n])
  {
    if s == [] || !IsDigit(s[0]) then 0 else 1 + DigitRun(s[1..])
  }

  /** `parseInt(s, 10)`: skip leading white space, take an optional sign, then the longest run
      of decimal digits; `None` (NaN) when there are no digits. */
  function ParseInt(s: string): Option<int> {
    var t := s[LeadingSpace(s)..];
    var negative := t != [] && t[0] == '-';
    var u := if t != [] && (t[0] == '-' || t[0] == '+') then t[1..] else t;
    var n := DigitRun(u);
    if n == 0 then None
    else
      var v: int := DecimalValue(u[..n]);
      Some(if negative then -v else v)
  }

  lemma {:induction false} DigitRunOfDecimal(n: nat, rest: string)
    requires rest == [] || !IsDigit(rest[0])
    ensures DigitRun(Decimal(n) + rest) == |Decimal(n)|
    decreases |Decimal(n)|
  {
    var d := Decimal(n);
    DigitRunOfDigits(d, rest);
  }

  lemma {:induction false} DigitRunOfDigits(d: string, rest: string)
    requires forall i :: 0 <= i < |d| ==> IsDigit(d[i])
    requires rest == [] || !IsDigit(rest[0])
    ensures DigitRun(d + rest) == |d|
    decreases |d|
  {
    if d == [] {
      assert d + rest == rest;
    } else {
      assert (d + rest)[1..] == d[1..] + rest;
      DigitRunOfDigits(d[1..], rest);
    }
  }

  /** Signs and white space never start a numeral. */
  lemma NumeralStart(s: string)
    requires s != [] && IsDigit(s[0])
    ensures s[LeadingSpace(s)..] == s
  {
    assert !IsSpace(s[0]);
  }

  /** A numeral followed by anything that is not a digit reads back as its number:
      `parseInt` stops at the first non-digit. */
  lemma ParseIntReadsNumeral(n: nat, rest: string)
    requires rest == [] || !IsDigit(rest[0])
    ensures ParseInt(Decimal(n) + rest) == Some(n)
  {
    var d := Decimal(n);
    var s := d + rest;
    DigitRunOfDecimal(n, rest);
    DecimalRoundTrip(n);
    assert s[..|d|] == d;
    NumeralStart(s);
  }

  /** A minus sign in front of a numeral negates what it reads as. */
  lemma MinusNegates(u: string, v: int)
    requires u != [] && IsDigit(u[0]) && ParseInt(u) == Some(v)
    ensures ParseInt("-" + u) == Some(-v)
  {
    var m := "-" + u;
    NumeralStart(u);
    assert !IsSpace(m[0]);
    assert LeadingSpace(m) == 0;
    assert m[0..] == m;
    assert m[1..] == u;
  }

  /** With a minus sign in front, the same numeral reads back negated. */
  lemma ParseIntReadsNegative(n: nat, rest: string)
    requires rest == [] || !IsDigit(rest[0])
    ensures ParseInt("-" + (Decimal(n) + rest)) == Some(-(n as int))
  {
    var u := Decimal(n) + rest;
    assert u[0] == Decimal(n)[0];
    ParseIntReadsNumeral(n, rest);
    MinusNegates(u, n);
  }

  /** Text without any digit is not a number. */
  lemma ParseIntNaN(s: string)
    requires forall i :: 0 <= i < |s| ==> !IsDigit(s[i])
    ensures ParseInt(s) == None
  {
  }

  const RequiredKeys: seq<string> := ["WECOM_TOKEN", "WECOM_AES_KEY", "CORP_ID", "CORP_SECRET", "OPENCLAW_TOKEN"]

  const DefaultAgentId: string := "1000000"
  const DefaultOpenClawPort: string := "18789"
  const DefaultBridgePort: string := "3000"
  const DefaultSessionsDir: string := "/home/ubuntu/.openclaw/agents/main/sessions"

  /** `process.env[k]` is set to a non-empty string (the truthiness test `!CONFIG[k]` fails). */
  predicate Present(env: map<string, string>, k: string) {
    k in env && env[k] != ""
  }

  /** `process.env[k] || fallback`. */
  function EnvOr(env: map<string, string>, k: string, fallback: string): (r: string)
    ensures Present(env, k) ==> r == env[k]
    ensures !Present(env, k) ==> r == fallback
  {
    if Present(env, k) then env[k] else fallback
  }

  /** `REQUIRED.filter((k) => !CONFIG[k])`. */
  function MissingKeys(keys: seq<string>, env: map<string, string>): (r: seq<string>)
    ensures |r| <= |keys|
  {
    if keys == [] then []
    else (if Present(env, keys[0]) then [] else [keys[0]]) + MissingKeys(keys[1..], env)
  }

  /** A key is reported exactly when it is required and not present. */
  lemma {:induction false} MissingKeysMembers(keys: seq<string>, env: map<string, string>)
    ensures forall k :: k in MissingKeys(keys, env) <==> k in keys && !Present(env, k)
  {
    if keys != [] {
      MissingKeysMembers(keys[1..], env);
      assert keys == [keys[0]] + keys[1..];
    }
  }

  /** The filter keeps the order of `REQUIRED`: filtering a concatenation is concatenating
      the filtered parts. */
  lemma {:induction false} MissingKeysAppend(a: seq<string>, b: seq<string>, env: map<string, string>)
    ensures MissingKeys(a + b, env) == MissingKeys(a, env) + MissingKeys(b, env)
  {
    if a == [] {
      assert a + b == b;
    } else {
      var head := if Present(env, a[0]) then [] else [a[0]];
      assert (a + b)[0] == a[0];
      assert (a + b)[1..] == a[1..] + b;
      assert MissingKeys(a + b, env) == head + MissingKeys(a[1..] + b, env);
      MissingKeysAppend(a[1..], b, env);
      assert MissingKeys(a, env) == head + MissingKeys(a[1..], env);
    }
  }

  /** Two missing keys are reported in the order `REQUIRED` lists them. */
  lemma MissingKeysInOrder(keys: seq<string>, env: map<string, string>, i: nat, j: nat)
    requires i < j < |keys| && !Present(env, keys[i]) && !Present(env, keys[j])
    ensures var r := MissingKeys(keys, env);
      exists a, b :: 0 <= a < b < |r| && r[a] == keys[i] && r[b] == keys[j]
  {
    var front, back := keys[..j], keys[j..];
    assert keys == front + back;
    MissingKeysAppend(front, back, env);
    var mf := MissingKeys(front, env);
    MissingKeysMembers(front, env);
    assert keys[i] == front[i];
    assert keys[i] in mf;
    var a :| 0 <= a < |mf| && mf[a] == keys[i];
    assert back == [keys[j]] + back[1..];
    var r := MissingKeys(keys, env);
    assert r == mf + ([keys[j]] + MissingKeys(back[1..], env));
    assert r[a] == keys[i] && r[|mf|] == keys[j];
  }

  /** The configuration, with the numeric options read by `parseInt` (`None` for NaN). */
  datatype Settings = Settings(
    wecomToken: string,
    wecomAesKey: string,
    corpId: string,
    corpSecret: string,
    agentId: Option<int>,
    openclawToken: string,
    openclawPort: Option<int>,
    bridgePort: Option<int>,
    sessionsDir: string)

  /** The startup step: the settings, or the list of missing required variables (after which
      the process exits). */
  function LoadSettings(env: map<string, string>): (r: Result<Settings, seq<string>>)
    ensures r.Err? <==> exists k :: k in RequiredKeys && !Present(env, k)
    ensures r.Err? ==> r.error != [] && forall k :: k in r.error <==> k in RequiredKeys && !Present(env, k)
    ensures r.Ok? ==>
      && Present(env, "WECOM_TOKEN") && Present(env, "WECOM_AES_KEY") && Present(env, "CORP_ID")
      && Present(env, "CORP_SECRET") && Present(env, "OPENCLAW_TOKEN")
      && r.value.wecomToken == env["WECOM_TOKEN"] && r.value.wecomAesKey == env["WECOM_AES_KEY"]
      && r.value.corpId == env["CORP_ID"] && r.value.corpSecret == env["CORP_SECRET"]
      && r.value.openclawToken == env["OPENCLAW_TOKEN"]
      && r.value.wecomToken != "" && r.value.openclawToken != ""
    ensures r.Ok? ==>
      && r.value.agentId == ParseInt(EnvOr(env, "AGENT_ID", DefaultAgentId))
      && r.value.openclawPort == ParseInt(EnvOr(env, "OPENCLAW_PORT", DefaultOpenClawPort))
      && r.value.bridgePort == ParseInt(EnvOr(env, "BRIDGE_PORT", DefaultBridgePort))
      && r.value.sessionsDir == EnvOr(env, "SESSIONS_DIR", DefaultSessionsDir)
  {
    var missing := MissingKeys(RequiredKeys, env);
    MissingKeysMembers(RequiredKeys, env);
    if missing != [] then
      assert missing[0] in missing;
      Err(missing)
    else
      RequiredPresent(env);
      Ok(Settings(
        env["WECOM_TOKEN"], env["WECOM_AES_KEY"], env["CORP_ID"], env["CORP_SECRET"],
        ParseInt(EnvOr(env, "AGENT_ID", DefaultAgentId)),
        env["OPENCLAW_TOKEN"],
        ParseInt(EnvOr(env, "OPENCLAW_PORT", DefaultOpenClawPort)),
        ParseInt(EnvOr(env, "BRIDGE_PORT", DefaultBridgePort)),
        EnvOr(env, "SESSIONS_DIR", DefaultSessionsDir)))
  }

  /** Every required key present means each of the five is. */
  lemma RequiredPresent(env: map<string, string>)
    requires forall k :: k in RequiredKeys ==> Present(env, k)
    ensures Present(env, "WECOM_TOKEN") && Present(env, "WECOM_AES_KEY") && Present(env, "CORP_ID")
    ensures Present(env, "CORP_SECRET") && Present(env, "OPENCLAW_TOKEN")
  {
    assert RequiredKeys[0] in RequiredKeys && RequiredKeys[1] in RequiredKeys && RequiredKeys[2] in RequiredKeys;
    assert RequiredKeys[3] in RequiredKeys && RequiredKeys[4] in RequiredKeys;
  }

  /** Unset (or empty) optional variables take their defaults: agent 1000000, backend port
      18789, listen port 3000 and the default sessions directory. */
  lemma DefaultsApply(env: map<string, string>)
    requires LoadSettings(env).Ok?
    requires !Present(env, "AGENT_ID") && !Present(env, "OPENCLAW_PORT")
    requires !Present(env, "BRIDGE_PORT") && !Present(env, "SESSIONS_DIR")
    ensures LoadSettings(env).value.agentId == Some(1000000)
    ensures LoadSettings(env).value.openclawPort == Some(18789)
    ensures LoadSettings(env).value.bridgePort == Some(3000)
    ensures LoadSettings(env).value.sessionsDir == DefaultSessionsDir
  {
    DefaultNumerals();
    NumeralIs(1000000, DefaultAgentId);
    NumeralIs(18789, DefaultOpenClawPort);
    NumeralIs(3000, DefaultBridgePort);
  }

  /** The default numerals are the ones `String` writes for the default numbers. */
  lemma DefaultNumerals()
    ensures Decimal(1000000) == DefaultAgentId
    ensures Decimal(18789) == DefaultOpenClawPort
    ensures Decimal(3000) == DefaultBridgePort
  {
    assert Decimal(1) == "1" && Decimal(3) == "3";
    assert Decimal(10) == "10";
    assert Decimal(100) == "100";
    assert Decimal(1000) == "1000";
    assert Decimal(10000) == "10000";
    assert Decimal(100000) == "100000";
    assert Decimal(30) == "30";
    assert Decimal(300) == "300";
    assert Decimal(18) == "18";
    assert Decimal(187) == "187";
    assert Decimal(1878) == "1878";
  }

  lemma NumeralIs(n: nat, s: string)
    requires s == Decimal(n)
    ensures ParseInt(s) == Some(n)
  {
    ParseIntReadsNumeral(n, []);
    assert Decimal(n) + [] == s;
  }
}
