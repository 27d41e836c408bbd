/** The settings read from the environment and their validation: each
    failed check adds one error, in a fixed order, and the configuration is
    valid exactly when there is none. */
module ConfigCheck {
  import opened Common

  /** The settings `validate_config` looks at. */
  datatype Config = Config(
    token: string, applicationId: string, keepAlivePort: int,
    dailyReward: int, miningMin: int, miningMax: int, defaultVolume: int)

  /** The checks, in the order they are made. */
  datatype ConfigError =
    | NoToken
    | NoApplicationId
    | PortOutOfRange
    | NegativeDaily
    | BadMiningRange
    | VolumeOutOfRange

  const AllChecks: seq<ConfigError> :=
    [NoToken, NoApplicationId, PortOutOfRange, NegativeDaily, BadMiningRange, VolumeOutOfRange]

  /** Does `c` fail check `e`? */
  predicate Fails(c: Config, e: ConfigError) {
    match e
    case NoToken => c.token == ""
    case NoApplicationId => c.applicationId == ""
    case PortOutOfRange => c.keepAlivePort < 1 || c.keepAlivePort > 65535
    case NegativeDaily => c.dailyReward < 0
    case BadMiningRange => c.miningMin < 0 || c.miningMax < c.miningMin
    case VolumeOutOfRange => c.defaultVolume < 0 || c.defaultVolume > 100
  }

  function Rank(e: ConfigError): nat {
    match e
    case NoToken => 0
    case NoApplicationId => 1
    case PortOutOfRange => 2
    case NegativeDaily => 3
    case BadMiningRange => 4
    case VolumeOutOfRange => 5
  }

  /** The errors the checks `checks` report, in their order. */
  function Collect(c: Config, checks: seq<ConfigError>): seq<ConfigError> {
    if checks == [] then []
    else if Fails(c, checks[0]) then [checks[0]] + Collect(c, checks[1..])
    else Collect(c, checks[1..])
  }

  lemma {:induction false} CollectMembers(c: Config, checks: seq<ConfigError>)
    ensures forall e :: e in Collect(c, checks) <==> e in checks && Fails(c, e)
  {
    if checks != [] {
      CollectMembers(c, checks[1..]);
    }
  }

  predicate Ascending(s: seq<ConfigError>) {
    forall i, j :: 0 <= i < j < |s| ==> Rank(s[i]) < Rank(s[j])
  }

  /** Collecting keeps the order of the checks. */
  lemma {:induction false} CollectAscending(c: Config, checks: seq<ConfigError>)
    requires Ascending(checks)
    ensures Ascending(Collect(c, checks))
  {
    if checks != [] {
      var rest := Collect(c, checks[1..]);
      CollectAscending(c, checks[1..]);
      CollectMembers(c, checks[1..]);
      if Fails(c, checks[0]) {
        forall k | 0 <= k < |rest| ensures Rank(checks[0]) < Rank(rest[k]) {
          assert rest[k] in checks[1..];
        }
      }
    }
  }

  /** The error list `validate_config` builds: every failed check is
      reported, whatever else fails, and in check order. */
  function Errors(c: Config): (errs: seq<ConfigError>)
    ensures forall e :: e in errs <==> Fails(c, e)
    ensures Ascending(errs)
  {
    assert forall e: ConfigError :: e in AllChecks by {
      forall e: ConfigError ensures e in AllChecks {
        assert AllChecks[Rank(e)] == e;
      }
    }
    CollectAscending(c, AllChecks);
    CollectMembers(c, AllChecks);
    Collect(c, AllChecks)
  }

  /** `validate_config` */
  function ValidateConfig(c: Config): (ok: bool)
    ensures ok <==> forall e :: !Fails(c, e)
  {
    var errs := Errors(c);
    assert errs != [] ==> Fails(c, errs[0]);
    errs == []
  }

  /** The edge values of every range are accepted. */
  lemma BoundariesAccepted(token: string, appId: string, port: int, volume: int)
    requires token != "" && appId != ""
    requires port == 1 || port == 65535
    requires volume == 0 || volume == 100
    ensures ValidateConfig(Config(token, appId, port, 0, 7, 7, volume))
    ensures ValidateConfig(Config(token, appId, port, 0, 0, 0, volume))
  {
  }

  lemma CollectStep(c: Config, e: ConfigError, rest: seq<ConfigError>)
    ensures Collect(c, [e] + rest) == (if Fails(c, e) then [e] else []) + Collect(c, rest)
  {
    assert ([e] + rest)[1..] == rest;
  }

  /** When every range check fails, all four range errors are reported,
      in check order. */
  lemma RangeErrorsInOrder(c: Config)
    requires c.token != "" && c.applicationId != ""
    requires Fails(c, PortOutOfRange) && Fails(c, NegativeDaily)
    requires Fails(c, BadMiningRange) && Fails(c, VolumeOutOfRange)
    ensures Errors(c) == [PortOutOfRange, NegativeDaily, BadMiningRange, VolumeOutOfRange]
  {
    var t5: seq<ConfigError> := [];
    var t4 := [VolumeOutOfRange] + t5;
    var t3 := [BadMiningRange] + t4;
    var t2 := [NegativeDaily] + t3;
    var t1 := [PortOutOfRange] + t2;
    var t0 := [NoApplicationId] + t1;
    assert AllChecks == [NoToken] + t0;
    CollectStep(c, VolumeOutOfRange, t5);
    CollectStep(c, BadMiningRange, t4);
    CollectStep(c, NegativeDaily, t3);
    CollectStep(c, PortOutOfRange, t2);
    CollectStep(c, NoApplicationId, t1);
    CollectStep(c, NoToken, t0);
  }

  /** The defaults: the text `os.getenv` falls back to, and its number. */
  const DefaultPortText: string := "8080"
  const DefaultPort: int := 8080
  const DefaultDailyText: string := "1000"
  const DefaultDaily: int := 1000
  const DefaultMiningMinText: string := "50"
  const DefaultMiningMin: int := 50
  const DefaultMiningMaxText: string := "500"
  const DefaultMiningMax: int := 500
  const DefaultVolumeText: string := "50"
  const DefaultVolume: int := 50

  /** `int(os.getenv(name, default))`: None when the text is not an integer,
      which stops the bot while it loads its settings. */
  function IntSetting(env: map<string, string>, name: string, default: string): Option<int> {
    ParseInt(if name in env then env[name] else default)
  }

  function StrSetting(env: map<string, string>, name: string): string {
    if name in env then env[name] else ""
  }

  /** Each default text reads back as its number. */
  lemma DefaultsParse()
    ensures ParseInt(DefaultPortText) == Some(DefaultPort)
    ensures ParseInt(DefaultDailyText) == Some(DefaultDaily)
    ensures ParseInt(DefaultMiningMinText) == Some(DefaultMiningMin)
    ensures ParseInt(DefaultMiningMaxText) == Some(DefaultMiningMax)
    ensures ParseInt(DefaultVolumeText) == Some(DefaultVolume)
  {
    DefaultPortParses();
    DefaultDailyParses();
    DefaultMiningMinParses();
    DefaultMiningMaxParses();
    DefaultVolumeParses();
  }

  lemma DefaultPortParses()
    ensures ParseInt(DefaultPortText) == Some(DefaultPort)
  {
    DigitsSnoc("", '8');
    assert "" + ['8'] == "8";
    DigitsSnoc("8", '0');
    assert "8" + ['0'] == "80";
    DigitsSnoc("80", '8');
    assert "80" + ['8'] == "808";
    DigitsSnoc("808", '0');
    assert "808" + ['0'] == "8080";
    TextParses(DefaultPort, DefaultPortText);
  }

  lemma DefaultDailyParses()
    ensures ParseInt(DefaultDailyText) == Some(DefaultDaily)
  {
    DigitsSnoc("", '1');
    assert "" + ['1'] == "1";
    DigitsSnoc("1", '0');
    assert "1" + ['0'] == "10";
    DigitsSnoc("10", '0');
    assert "10" + ['0'] == "100";
    DigitsSnoc("100", '0');
    assert "100" + ['0'] == "1000";
    TextParses(DefaultDaily, DefaultDailyText);
  }

  lemma DefaultMiningMinParses()
    ensures ParseInt(DefaultMiningMinText) == Some(DefaultMiningMin)
  {
    DigitsSnoc("", '5');
    assert "" + ['5'] == "5";
    DigitsSnoc("5", '0');
    assert "5" + ['0'] == "50";
    TextParses(DefaultMiningMin, DefaultMiningMinText);
  }

  lemma DefaultMiningMaxParses()
    ensures ParseInt(DefaultMiningMaxText) == Some(DefaultMiningMax)
  {
    DigitsSnoc("", '5');
    assert "" + ['5'] == "5";
    DigitsSnoc("5", '0');
    assert "5" + ['0'] == "50";
    DigitsSnoc("50", '0');
    assert "50" + ['0'] == "500";
    TextParses(DefaultMiningMax, DefaultMiningMaxText);
  }

  lemma DefaultVolumeParses()
    ensures ParseInt(DefaultVolumeText) == Some(DefaultVolume)
  {
    DigitsSnoc("", '5');
    assert "" + ['5'] == "5";
    DigitsSnoc("5", '0');
    assert "5" + ['0'] == "50";
    TextParses(DefaultVolume, DefaultVolumeText);
  }

  /** One more digit shifts the value up a place. */
  lemma DigitsSnoc(s: string, c: char)
    requires AllDigits(s) && IsDigit(c)
    ensures AllDigits(s + [c])
    ensures DigitsValue(s + [c]) == DigitsValue(s) * 10 + DigitValue(c)
  {
    assert (s + [c])[..|s|] == s;
  }

  /** A run of digits reads as its decimal value. */
  lemma TextParses(n: int, text: string)
    requires |text| >= 1 && AllDigits(text) && DigitsValue(text) == n
    ensures ParseInt(text) == Some(n)
  {
    ParseIntOfDigits(text);
  }

  /** `v` is what `int(os.getenv(name, default))` gives: the set value
      read as an integer, or the default when the name is unset. */
  predicate ReadAs(env: map<string, string>, name: string, default: int, v: int) {
    && (name in env ==> ParseInt(env[name]) == Some(v))
    && (name !in env ==> v == default)
  }

  /** The setting is unset, or set to the text of an integer. */
  predicate Readable(env: map<string, string>, name: string) {
    name !in env || ParseInt(env[name]).Some?
  }

  /** The settings module loading from the environment. */
  function LoadConfig(env: map<string, string>): (r: Option<Config>)
    ensures r.Some? ==> r.value.token == StrSetting(env, "DISCORD_TOKEN")
    ensures r.Some? ==> r.value.applicationId == StrSetting(env, "APPLICATION_ID")
    ensures r.Some? ==> ReadAs(env, "KEEP_ALIVE_PORT", DefaultPort, r.value.keepAlivePort)
    ensures r.Some? ==> ReadAs(env, "DAILY_REWARD", DefaultDaily, r.value.dailyReward)
    ensures r.Some? ==> ReadAs(env, "MINING_REWARD_MIN", DefaultMiningMin, r.value.miningMin)
    ensures r.Some? ==> ReadAs(env, "MINING_REWARD_MAX", DefaultMiningMax, r.value.miningMax)
    ensures r.Some? ==> ReadAs(env, "DEFAULT_VOLUME", DefaultVolume, r.value.defaultVolume)
    ensures r.Some? <==>
      && Readable(env, "KEEP_ALIVE_PORT") && Readable(env, "DAILY_REWARD")
      && Readable(env, "MINING_REWARD_MIN") && Readable(env, "MINING_REWARD_MAX")
      && Readable(env, "DEFAULT_VOLUME")
  {
    DefaultsParse();
    var port := IntSetting(env, "KEEP_ALIVE_PORT", DefaultPortText);
    var daily := IntSetting(env, "DAILY_REWARD", DefaultDailyText);
    var lo := IntSetting(env, "MINING_REWARD_MIN", DefaultMiningMinText);
    var hi := IntSetting(env, "MINING_REWARD_MAX", DefaultMiningMaxText);
    var vol := IntSetting(env, "DEFAULT_VOLUME", DefaultVolumeText);
    if port.None? || daily.None? || lo.None? || hi.None? || vol.None? then None
    else Some(Config(StrSetting(env, "DISCORD_TOKEN"), StrSetting(env, "APPLICATION_ID"),
                     port.value, daily.value, lo.value, hi.value, vol.value))
  }

  /** Every numeric setting left unset takes its default. */
  lemma DefaultsLoad(env: map<string, string>)
    requires "KEEP_ALIVE_PORT" !in env && "DAILY_REWARD" !in env && "DEFAULT_VOLUME" !in env
    requires "MINING_REWARD_MIN" !in env && "MINING_REWARD_MAX" !in env
    ensures LoadConfig(env) == Some(Config(StrSetting(env, "DISCORD_TOKEN"), StrSetting(env, "APPLICATION_ID"),
      DefaultPort, DefaultDaily, DefaultMiningMin, DefaultMiningMax, DefaultVolume))
  {
    DefaultsParse();
  }

  /** With both identifiers set and no numeric setting, the defaults pass
      every range check. */
  lemma DefaultsValid(env: map<string, string>)
    requires "KEEP_ALIVE_PORT" !in env && "DAILY_REWARD" !in env && "DEFAULT_VOLUME" !in env
    requires "MINING_REWARD_MIN" !in env && "MINING_REWARD_MAX" !in env
    requires StrSetting(env, "DISCORD_TOKEN") != "" && StrSetting(env, "APPLICATION_ID") != ""
    ensures LoadConfig(env).Some? && ValidateConfig(LoadConfig(env).value)
  {
    DefaultsLoad(env);
  }
}
