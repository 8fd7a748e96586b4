/** cmd/healarr/main.go: probe an *arr instance's readiness, authenticating
    with a token given on the command line or read from its config file.

    Flag values are what cobra's getters return; each subcommand's query key
    is a constant of the domain package that is not part of this model, so the
    key of each application is a parameter.
 */
module Healarr {
  import opened Domain
  import ConfigFile
  import Health

  /** The persistent flags, as their getters return them. */
  datatype Flags = Flags(apiToken: Result<string>, config: Result<string>, insecure: Result<bool>, timeout: Result<int>)

  /** What runE returns, and the probe it ran (in the state Run saw), if any. */
  datatype Check = Check(err: Outcome, probed: Option<Health.ProbeState>)

  /** NewReadinessProbe(url).QueryAdd(key, token).Insecure(insecure).Run(ctx) */
  function Probe(url: string, key: string, token: string, insecure: bool,
                 request: Result<Health.Query>, response: Result<int>): (c: Check)
    ensures c.probed == Some(Health.ProbeState(map[key := [token]], insecure, url))
    ensures c.err == Pass <==> url != "" && request.Ok? && response == Ok(200)
    ensures c.err != Pass ==> c.err == Health.ProbeRun(c.probed.value, request, response).err
  {
    var created := Health.NewProbe(url);
    var added := created.(additionalQueryValues := Health.QueryAdded(created.additionalQueryValues, key, token));
    var probe := added.(insecure := insecure);
    Check(Health.ProbeRun(probe, request, response).err, Some(probe))
  }

  /** runE(cmd, args, queryKey): `url` is the single positional argument,
      `file` what opening the --config file gives, `request` and `response`
      the outcomes of the probe's request. */
  function RunE(flags: Flags, url: string, queryKey: string, file: Result<string>, codecs: ConfigFile.Codecs,
                request: Result<Health.Query>, response: Result<int>): (c: Check)
    ensures c.probed.Some? ==>
      && flags.apiToken.Ok? && flags.insecure.Ok?
      && c.probed.value.url == url
      && c.probed.value.insecure == flags.insecure.value
      && c.probed.value.additionalQueryValues.Keys == {queryKey}
    ensures c.err == Pass ==> c.probed.Some? && |url| > 0 && request.Ok? && response == Ok(200)
  {
    if flags.apiToken.Err? then Check(Fail(flags.apiToken.error), None)
    else if flags.config.Err? then Check(Fail(flags.config.error), None)
    else if flags.insecure.Err? then Check(Fail(flags.insecure.error), None)
    else if flags.timeout.Err? then Check(Fail(flags.timeout.error), None)
    else
      var apiToken, configPath, insecure := flags.apiToken.value, flags.config.value, flags.insecure.value;
      if |apiToken| == 0 && |configPath| == 0 then Check(Fail(NoCredentialSource), None)
      else if |apiToken| > 0 && |configPath| == 0 then Probe(url, queryKey, apiToken, insecure, request, response)
      else if |apiToken| == 0 && |configPath| > 0 then
        match ConfigFile.ReadConfig(configPath, file, codecs)
        case Err(e) => Check(Fail(e), None)
        case Ok(config) => Probe(url, queryKey, config.api.token, insecure, request, response)
      else Check(Fail(ConflictingCredentialSources), None)
  }

  /** The builder chain on a ReadinessProbe object: create it, add the token
      under the key, set the TLS flag and run it. Returns Run's error and the
      probe's state when it ran. */
  method RunProbe(url: string, key: string, token: string, insecure: bool,
                  request: Result<Health.Query>, response: Result<int>) returns (err: Outcome, probed: Health.ProbeState)
    ensures Check(err, Some(probed)) == Probe(url, key, token, insecure, request, response)
  {
    var rp := new Health.ReadinessProbe(url);
    rp := rp.QueryAdd(key, token);
    rp := rp.Insecure(insecure);
    probed := rp.State();
    var sent;
    sent, err := rp.Run(request, response);
  }

  predicate FlagsRead(flags: Flags)
  {
    flags.apiToken.Ok? && flags.config.Ok? && flags.insecure.Ok? && flags.timeout.Ok?
  }

  /** The probe that runs carries exactly one query value, the token under
      the subcommand's key, and the --insecure setting; Run's error is returned
      unchanged and success is nil. */
  lemma ProbeSendsToken(url: string, key: string, token: string, insecure: bool,
                        request: Result<Health.Query>, response: Result<int>)
    ensures var c := Probe(url, key, token, insecure, request, response);
      && c.probed == Some(Health.ProbeState(map[key := [token]], insecure, url))
      && c.err == Health.ProbeRun(c.probed.value, request, response).err
      && (c.err == Pass <==> url != "" && request.Ok? && response == Ok(200))
  {
  }

  /** A flag that cannot be read is returned before any decision is taken. */
  lemma FlagErrorsFirst(flags: Flags, url: string, queryKey: string, file: Result<string>, codecs: ConfigFile.Codecs,
                        request: Result<Health.Query>, response: Result<int>)
    requires !FlagsRead(flags)
    ensures var c := RunE(flags, url, queryKey, file, codecs, request, response);
      && c.probed == None
      && (flags.apiToken.Err? ==> c.err == Fail(flags.apiToken.error))
      && (flags.apiToken.Ok? && flags.config.Err? ==> c.err == Fail(flags.config.error))
      && (flags.apiToken.Ok? && flags.config.Ok? && flags.insecure.Err? ==> c.err == Fail(flags.insecure.error))
      && (flags.apiToken.Ok? && flags.config.Ok? && flags.insecure.Ok? && flags.timeout.Err? ==> c.err == Fail(flags.timeout.error))
  {
  }

  /** The four-way table over (--api-token set, --config set). */
  lemma DecisionTable(flags: Flags, url: string, queryKey: string, file: Result<string>, codecs: ConfigFile.Codecs,
                      request: Result<Health.Query>, response: Result<int>)
    requires FlagsRead(flags)
    ensures var c := RunE(flags, url, queryKey, file, codecs, request, response);
      var token, path, insecure := flags.apiToken.value, flags.config.value, flags.insecure.value;
      && (token == "" && path == "" ==> c == Check(Fail(NoCredentialSource), None))
      && (token != "" && path != "" ==> c == Check(Fail(ConflictingCredentialSources), None))
      && (token != "" && path == "" ==> c == Probe(url, queryKey, token, insecure, request, response))
      && (token == "" && path != "" ==>
            var read := ConfigFile.ReadConfig(path, file, codecs);
            && (read.Err? ==> c == Check(Fail(read.error), None))
            && (read.Ok? ==> c == Probe(url, queryKey, read.value.api.token, insecure, request, response)))
  {
  }

  /** A probe runs exactly when one credential source was given and, for the
      config file, it could be read; runE succeeds only if the probe got 200. */
  lemma ProbeRunsOnlyWithOneSource(flags: Flags, url: string, queryKey: string, file: Result<string>, codecs: ConfigFile.Codecs,
                                   request: Result<Health.Query>, response: Result<int>)
    ensures var c := RunE(flags, url, queryKey, file, codecs, request, response);
      && (c.probed.Some? <==>
            FlagsRead(flags) && (flags.apiToken.value == "" <==> flags.config.value != "")
            && (flags.apiToken.value == "" ==> ConfigFile.ReadConfig(flags.config.value, file, codecs).Ok?))
      && (c.err == Pass ==> c.probed.Some? && response == Ok(200))
  {
    var c := RunE(flags, url, queryKey, file, codecs, request, response);
    if FlagsRead(flags) {
      var token, path := flags.apiToken.value, flags.config.value;
      if token != "" && path == "" {
        ProbeSendsToken(url, queryKey, token, flags.insecure.value, request, response);
      } else if token == "" && path != "" {
        var read := ConfigFile.ReadConfig(path, file, codecs);
        if read.Ok? {
          ProbeSendsToken(url, queryKey, read.value.api.token, flags.insecure.value, request, response);
        }
      }
    }
  }

  /** The subcommands. */
  datatype App = Bazarr | Lidarr | Prowlarr | Radarr | Readarr | SabNZBd | Sonarr

  /** run<App>E: runE with the application's own query key. */
  function RunApp(app: App, queryKeyOf: App -> string, flags: Flags, url: string, file: Result<string>,
                  codecs: ConfigFile.Codecs, request: Result<Health.Query>, response: Result<int>): (c: Check)
    ensures c.probed.Some? ==> c.probed.value.additionalQueryValues.Keys == {queryKeyOf(app)}
    ensures c.err == Pass ==> c.probed.Some? && response == Ok(200)
  {
    RunE(flags, url, queryKeyOf(app), file, codecs, request, response)
  }

  /** The token goes out under the subcommand's own key and no other; with
      distinct keys, no two subcommands send it under the same key. */
  lemma AppSendsUnderOwnKey(app: App, other: App, queryKeyOf: App -> string, flags: Flags, url: string, file: Result<string>,
                            codecs: ConfigFile.Codecs, request: Result<Health.Query>, response: Result<int>)
    requires forall a, b :: a != b ==> queryKeyOf(a) != queryKeyOf(b)
    requires other != app
    ensures var c := RunApp(app, queryKeyOf, flags, url, file, codecs, request, response);
      c.probed.Some? ==>
        && c.probed.value.additionalQueryValues.Keys == {queryKeyOf(app)}
        && queryKeyOf(other) !in c.probed.value.additionalQueryValues
  {
    var c := RunApp(app, queryKeyOf, flags, url, file, codecs, request, response);
    if c.probed.Some? {
      var path := flags.config.value;
      if flags.apiToken.value != "" {
        ProbeSendsToken(url, queryKeyOf(app), flags.apiToken.value, flags.insecure.value, request, response);
      } else {
        var read := ConfigFile.ReadConfig(path, file, codecs);
        ProbeSendsToken(url, queryKeyOf(app), read.value.api.token, flags.insecure.value, request, response);
      }
    }
  }
}
