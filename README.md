# tarr: credential extraction, change watching and readiness probing, in Dafny

This project models the core of `tarr`, two small command-line tools for the
*arr media applications:

- **autharr** reads an application's configuration file (XML or YAML, chosen
  by the file name's suffix) and writes its API token to stdout or to a file.
  In `--watch` mode it keeps that output in step with the file: a watcher
  re-reads the file once a burst of writes has settled (inner debounce). A
  consumer then commits the last record it received once its own timer
  fires (outer debounce).
- **healarr** checks that an instance is ready. It sends a GET request with
  the token as a query value, taken from `--api-token` or from the file named
  by `--config`, and accepts only HTTP status 200.

Modules, one per source file:

| file | module | source |
|---|---|---|
| `domain.dfy` | `Domain` | `pkg/domain/domain.go`, and the error values of the other files |
| `config.dfy` | `ConfigFile` | `pkg/config/config.go` |
| `health.dfy` | `Health` | `pkg/health/health.go` |
| `autharr.dfy` | `Autharr` | `cmd/autharr/main.go` |
| `healarr.dfy` | `Healarr` | `cmd/healarr/main.go` |

How the model treats the program's side effects and its two loops:

- **Collaborators are inputs.** Anything the program asks of the outside
  world is a parameter of the model:
  - the outcome of `os.Open` and `os.Create`;
  - whether each output step succeeds (`IoResults`);
  - what `http.NewRequest` and the round trip return;
  - the XML and YAML codecs, as the function-valued fields of `ConfigFile.Codecs`.
- **Suffix dispatch and field mapping.** `ReadConfig`, `WriteConfig` and the
  struct↔record mappings are functions. The round trips are proved under the
  codecs' own struct-level round trip (`ConfigFile.CodecsRoundTrip`).
- **The two `for`/`select` loops are methods.** `ConfigFile.WatchConfig` and
  `Autharr.RunWatch` each run over a finite sequence of the events their
  `select` can receive. Each timer is an armed flag. Each method is proved
  equal to a fold of a step function (`WatchRun`, `SyncRun`). The debounce
  properties are lemmas about those folds.
- **What the loops output.** Channel sends go into a list of emissions.
  Writes go into a trace of attempted effects. Log lines go into a list of
  errors.
- **Panics are a state.** Closing a closed channel, sending on a closed
  channel and dereferencing a nil config each end in a `Panicked` state.
  So the quirks of the code as written can be stated and proved.
- **The probe is a class.** `Health.ReadinessProbe` has the three fields of
  the Go struct and mutating `QueryAdd` and `Insecure` methods. `Run` merges
  the query values with the two nested loops of the source. The method picks
  an arbitrary pending key on each turn, as Go's map iteration does.
  Healarr's `RunE` is a function, so it uses the probe's specification
  functions (`Health.ProbeState`, `Health.QueryAdded`, `Health.ProbeRun`).
  The class methods are proved against those same functions.

## Model

| member | source | states |
|---|---|---|
| `ConfigFile.HasSuffixIsEndsWith` | pkg/config/config.go:56-58 | the extension test is a bare suffix test: a name passes exactly when it is some string followed by the suffix |
| `ConfigFile.FormatOf` | pkg/config/config.go:55-62 | a name is XML exactly when it ends in `xml`, and YAML exactly when it does not but ends in `yml` or `yaml` |
| `ConfigFile.FormatBySuffix` | pkg/config/config.go:55-62 | any name ending in `xml` is XML and any ending in `yml` or `yaml` is YAML, whatever precedes the suffix (`fooxml` is XML) |
| `ConfigFile.ReadOpensBeforeDispatch` | pkg/config/config.go:48-52 | an open failure is returned as it is, even for a name with an unsupported extension |
| `ConfigFile.ReadRejectsUnsupported` | pkg/config/config.go:55-62 | an opened file whose name has none of the three suffixes fails with "Unsupported file extension" |
| `ConfigFile.ReadXmlCarriesTokenOnly` | pkg/config/config.go:65-79 | an XML read returns the decoder's error, or a record whose token is the `ApiKey` element and whose username, password and URL are empty |
| `ConfigFile.ReadYamlCarriesAuth` | pkg/config/config.go:81-97 | a YAML read returns the decoder's error, or a record with token, username and password from `auth.apikey`, `auth.username` and `auth.password`, and an empty URL |
| `ConfigFile.ReadXMLConfig` | pkg/config/config.go:65-79 | the read succeeds exactly when the decoder does, returns the decoder's error unchanged, and gives a record holding the `ApiKey` element as token and nothing else |
| `ConfigFile.ReadYAMLConfig` | pkg/config/config.go:81-97 | the read succeeds exactly when the decoder does, returns the decoder's error unchanged, and gives the `auth` token, username and password with an empty URL |
| `ConfigFile.FromXML` | pkg/config/config.go:74-78 | a record read from XML carries the `ApiKey` element as its token and nothing an XML file cannot hold |
| `ConfigFile.FromYAML` | pkg/config/config.go:90-96 | a record read from YAML carries `auth.apikey`, `auth.username` and `auth.password`, and an empty URL |
| `ConfigFile.ToXML` | pkg/config/config.go:168-170 | the struct written to XML sets only `ApiKey`, to the token, and leaves the other thirteen elements empty; it reads back as the record's token alone |
| `ConfigFile.ToYAML` | pkg/config/config.go:185-191 | the struct written to YAML reads back as the record without its URL, and its `auth.type` is empty |
| `ConfigFile.ReadConfig` | pkg/config/config.go:48-63 | an open error is returned as it is; an unsupported name fails with "Unsupported file extension"; a record is returned only for a supported name and holds only what its format can hold |
| `ConfigFile.WriteConfig` | pkg/config/config.go:147-198 | no file exists exactly when the create failed, whose error is returned; an encoder error is returned and leaves a truncated file; the write succeeds exactly when the create and the matching encoder succeed for a supported name, and the file then holds exactly that encoder's output |
| `ConfigFile.XmlStructTokenOnly` | pkg/config/config.go:164-170 | the struct handed to the XML encoder depends on the token alone and carries it as `ApiKey` |
| `ConfigFile.StructRoundTrip` | pkg/config/config.go:164-191 | mapping a record to either format struct and back gives its representable part: the token for XML, everything but the URL for YAML |
| `ConfigFile.WriteCreatesBeforeDispatch` | pkg/config/config.go:147-161 | a create failure is returned and no file exists; for an unsupported extension, the file is created (truncated) and "Unsupported file extension" is returned |
| `ConfigFile.WriteThenRead` | pkg/config/config.go:147-191 | given codecs that round-trip their structs, a successful write leaves a file that reads back as the record's representable part |
| `ConfigFile.ReadWriteRead` | pkg/config/config_test.go:19-71 | a record read from a file is reproduced exactly by writing it to another file of the same format and reading that back |
| `ConfigFile.WatchStart` | pkg/config/config.go:103-112 | the loop starts with the timer drained and the channels open; a watcher that could not be created reports its error once and the goroutine returns |
| `ConfigFile.WatchStep` | pkg/config/config.go:115-139 | one `select` turn as written: a stopped goroutine stays as it was; at most one value is sent; a panic happens only once the channels are closed; only cancellation closes them |
| `ConfigFile.WatchConfig` | pkg/config/config.go:99-143 | the watcher goroutine's loop, run over any sequence of events, ends in the state the fold `WatchRun` gives |
| `ConfigFile.SetupFailureReportsOnce` | pkg/config/config.go:108-112 | when the watcher cannot be created, exactly that one error is sent and no later event changes anything |
| `ConfigFile.WriteRearmsTimer` | pkg/config/config.go:127-130 | a plain `Write` event arms the timer; any other op, including a write combined with another bit, changes nothing |
| `ConfigFile.FireReadsOnce` | pkg/config/config.go:131-137 | a timer fire reads the file once and sends one value, the record or the error, and the loop continues with the timer stopped |
| `ConfigFile.CancelClosesChannels` | pkg/config/config.go:117-119 | cancellation closes both output channels and sends nothing |
| `ConfigFile.FsEventsOnlyArm` | pkg/config/config.go:121-130 | filesystem events never send anything; they arm the timer exactly when one of them is a plain write |
| `ConfigFile.BurstYieldsOneRead` | pkg/config/config.go:104-137 | a burst of filesystem events with a write in it, followed by the timer firing, gives exactly one read, of the file as it is at the fire, and one emission |
| `ConfigFile.CancelTwicePanics` | pkg/config/config.go:115-120 | as written, a second selection of the cancellation case closes the closed channels again, which panics |
| `ConfigFile.FireAfterCancelPanics` | pkg/config/config.go:115-137 | as written, a timer armed before cancellation fires afterwards and sends on a closed channel, which panics |
| `ConfigFile.EventsClosedKeepsLooping` | pkg/config/config.go:121-125 | as written, the `break` after reporting that the event channel closed keeps the loop running, so the same error is reported again |
| `ConfigFile.IntendedStopsAtClose` | pkg/config/config.go:117-125 | with a return in place, the first cancellation or event-channel report ends the goroutine and nothing after it changes the state |
| `ConfigFile.IntendedClosesOnce` | pkg/config/config.go:117-124 | with a return after closing the channels, the session never panics, closes its channels at most once and sends nothing once they are closed |
| `Health.ReadinessProbe.constructor` | pkg/health/health.go:73-78 | a new probe holds the given URL, an empty query map and `insecure` false |
| `Health.ReadinessProbe.QueryAdd` | pkg/health/health.go:21-28 | an absent key gets `[value]`, a present key gets `value` appended, other keys are unchanged, and the same probe is returned |
| `Health.ReadinessProbe.Insecure` | pkg/health/health.go:30-33 | only the `insecure` field changes, to the argument, and the same probe is returned |
| `Health.ReadinessProbe.Run` | pkg/health/health.go:35-71 | an empty URL gives `ErrNoURL` before a request is built; otherwise the query sent is the URL's values merged with the added ones, and the result is nil exactly for status 200 |
| `Health.QueryAddedIsAdd` | pkg/health/health.go:21-28 | the Has/Set branch of `QueryAdd` gives the same map as `url.Values.Add` alone |
| `Health.QueryAddedAppends` | pkg/health/health.go:21-28 | after `QueryAdd` the keys are the old ones plus the key, whose list is its old list (empty if absent) followed by the value |
| `Health.Merge` | pkg/health/health.go:53-58 | the request's keys are the URL's keys plus some added keys |
| `Health.MergeSplits` | pkg/health/health.go:53-58 | a key is in the request exactly when the URL has it or values were added under it; its list is the URL's values followed by the added ones |
| `Health.ProbeRun` | pkg/health/health.go:35-71 | an empty URL gives `ErrNoURL` and no request; a request is sent exactly when the URL is set and the request could be built, with the merged query; errors of building and sending the request are returned unchanged; another status than 200 gives an error carrying that code; the result is nil exactly for status 200 |
| `Health.MergeKeepsAddOrder` | pkg/health/health.go:53-58 | in the request, a value added to the probe comes after the URL's own values and the earlier added ones under its key; no other key changes |
| `Autharr.Dir` | cmd/autharr/main.go:115 | a path without a slash gives "."; otherwise the result is everything before the last slash, or "/" when that slash is the first character |
| `Autharr.Destination` | cmd/autharr/main.go:75-78 | the destination is `args[1]` when there are exactly two arguments and empty (stdout) otherwise |
| `Autharr.Sequenced` | cmd/autharr/main.go:107-137 | a reference for fallible steps run in order: the first failing step ends the run with that step's error and the trace up to it; with no failure every step runs and the result is nil |
| `Autharr.WriteConfig` | cmd/autharr/main.go:107-137 | a nil record panics exactly when the token is needed: at once for stdout, after MkdirAll and Create succeed for a file; a file destination always starts with MkdirAll of its directory |
| `Autharr.WriteConfigIsSequenced` | cmd/autharr/main.go:107-137 | with a record present, the writer writes exactly the token to stdout, or ensures `Dir(dest)` exists, creates `dest` and writes the token; it stops at and returns the first failing step's error |
| `Autharr.RunSingle` | cmd/autharr/main.go:51-63 | runSingle always returns; nothing is attempted exactly when the read fails |
| `Autharr.RunSingleOutcomes` | cmd/autharr/main.go:51-63 | a read error is returned with nothing written; otherwise the token is written to `args[1]` when there are exactly two arguments, and to stdout otherwise |
| `Autharr.SyncStart` | cmd/autharr/main.go:66-84 | the loop runs exactly when the initial runSingle returned nil, and otherwise ends with its outcome; the cache starts nil, the timer drained and the log empty |
| `Autharr.SyncStep` | cmd/autharr/main.go:86-104 | one `select` turn: a stopped loop stays as it was; the trace and the log only grow, the log by at most one line; only a timer fire writes; only cancellation and a closed error channel return; a panic happens only on a fire with the timer running and nil cached |
| `Autharr.RunWatch` | cmd/autharr/main.go:65-105 | the consumer loop, run over any sequence of events after the initial runSingle, ends in the state the fold `SyncRun` gives |
| `Autharr.RunE` | cmd/autharr/main.go:35-49 | a flag error is returned first; otherwise the outcome is runWatch's when `watch` is true and runSingle's when it is false |
| `Autharr.InitialErrorIsReturned` | cmd/autharr/main.go:66-70 | an error from the initial runSingle is returned and no event is looked at |
| `Autharr.OnlyFiresCommit` | cmd/autharr/main.go:86-104 | no event but a timer fire writes anything |
| `Autharr.EventOutcomes` | cmd/autharr/main.go:87-103 | cancellation returns nil; a closed error channel returns "error channel has been closed"; a received error is logged and the loop continues; a received record replaces the cache and re-arms the timer |
| `Autharr.FireCommitsCache` | cmd/autharr/main.go:95-99 | a timer fire with a cached record commits it once; a failed write is logged and the loop continues |
| `Autharr.NoCommitBeforeFirstConfig` | cmd/autharr/main.go:80-102 | the timer starts drained and only a received record re-arms it, so nothing is written before the first record arrives |
| `Autharr.ReceivesOnlyCache` | cmd/autharr/main.go:100-102 | receiving records and errors writes nothing and leaves the last record received in the cache, with the timer armed |
| `Autharr.LastConfigWins` | cmd/autharr/main.go:95-102 | the records received between two timer fires produce exactly one commit, of the last record received |
| `Autharr.NilCacheCrashes` | cmd/autharr/main.go:84-102 | as written, a receive from the closed config channel caches nil, and the next timer fire dereferences it and panics: at once for stdout, after MkdirAll and Create for a file |
| `Autharr.StartHasNoNilCommit` | cmd/autharr/main.go:66-84 | the loop starts with the timer drained, so the writer cannot be called without a record |
| `Autharr.NoPanicWithoutConfigClosed` | cmd/autharr/main.go:84-102 | unless a receive from the closed config channel happens, a running timer always has a record cached and the loop never panics |
| `Healarr.RunProbe` | cmd/healarr/main.go:161-164 | the builder chain on a `ReadinessProbe` object returns exactly the error and probe that the decision table's probe describes |
| `Healarr.Probe` | cmd/healarr/main.go:161-164 | the probe carries exactly `{key: [token]}`, the `--insecure` value and the URL; runE's probe succeeds exactly for a non-empty URL, a built request and status 200, and otherwise returns Run's error |
| `Healarr.ProbeSendsToken` | cmd/healarr/main.go:160-167 | the probe that runs carries the token under the query key and the `--insecure` setting; Run's error is returned unchanged and success is nil |
| `Healarr.FlagErrorsFirst` | cmd/healarr/main.go:134-152 | the first flag that cannot be read, in the order `--api-token`, `--config`, `--insecure`, `--timeout`, has its error returned, and no probe runs |
| `Healarr.DecisionTable` | cmd/healarr/main.go:157-183 | neither flag set fails and both set fails, with no probe; token only probes with the token; config only returns the read error, or probes with the config's token |
| `Healarr.ProbeRunsOnlyWithOneSource` | cmd/healarr/main.go:157-185 | a probe runs exactly when one credential source is given (and the config could be read); runE succeeds only if the probe got status 200 |
| `Healarr.RunE` | cmd/healarr/main.go:133-186 | a probe that runs targets the positional URL with the `--insecure` value and carries only the query key; success needs a built request and status 200 |
| `Healarr.RunApp` | cmd/healarr/main.go:105-131 | a subcommand's probe carries only that application's query key; success needs status 200 |
| `Healarr.AppSendsUnderOwnKey` | cmd/healarr/main.go:105-131 | each subcommand sends the token under its own key and no other; distinct keys keep subcommands apart |

## Findings

| source | as written | input that shows it | evidently intended | confidence | as-written member | corrected member |
|---|---|---|---|---|---|---|
| pkg/config/config.go:117-124 | after closing both channels on cancellation, `break` leaves only the `select`. The loop goes on, and the cancellation case stays ready. The same `break` follows the report that fsnotify's event channel closed. | events `Cancel, Cancel`: the second closes closed channels. Events `Write, Cancel, TimerFire`: the fire sends on a closed channel. Events `EventsClosed, EventsClosed`: the error is reported twice and the loop is still running. | return from the goroutine after closing the channels, and after reporting the closed event channel | high; not executed | `ConfigFile.CancelTwicePanics`, `ConfigFile.FireAfterCancelPanics` and `ConfigFile.EventsClosedKeepsLooping` | `ConfigFile.IntendedClosesOnce` and `ConfigFile.IntendedStopsAtClose`, about `ConfigFile.WatchStepIntended` |

`ConfigFile.WatchConfig` and `ConfigFile.WatchStep` model the loop as
written. No other part of the model builds on the watcher's state, because
the two tasks are modelled separately.

## Left out

- Goroutines, channels, their rendezvous and the interleaving of the two
  tasks are not modelled. Each loop runs on its own over a sequence of
  received events, and a send counts as done at once.
  - So the model does not show this race: on cancellation, runWatch may pick
    the watcher's closed error channel before the context. It then returns
    "error channel has been closed" instead of nil.
- Timer durations (3 s in the watcher, 100 ms in the consumer) are left out.
  Each timer is an armed flag. A fire of a stopped timer is a no-op.
- The watcher's initial 3-second wait is left out. The loop starts with the
  timer drained.
- fsnotify is replaced by abstract `FsEvent` inputs. `watcher.Add`'s error
  is dropped by the source, so the model has no input for it.
- The byte layout of `encoding/xml` and `yaml.v3` is not modelled, nor are
  their escaping and indentation. The package's tests compare bytes. The
  model compares records, under the codecs' struct-level round trip.
- `ConfigFile.WriteConfig` does not model the content an encoder leaves when
  it fails partway. The file is only known to exist (`Truncated`).
- The error of the deferred `Close` calls is ignored by the source and is
  not modelled.
- `filepath.Dir` is modelled as everything before the last slash. Go's
  final `Clean` is not applied, so `a//b` gives `a/` rather than `a`.
- `os.Open`, `os.Create`, `os.MkdirAll` and stdout writes are inputs and
  recorded effects. No filesystem state is kept between calls.
- `Health.ReadinessProbe.Run` leaves out the HTTP client and TLS setup.
  `http.NewRequest` is an input: the URL's query values, or an error. The
  round trip is an input: a status code, or an error. `url.Values.Encode`
  is not modelled, so the model compares query maps, not encoded strings.
- The `--timeout` flag is read, and a context with that deadline is built
  (cmd/healarr/main.go:149-155). But `Run` never uses its context
  (pkg/health/health.go:35-71): the request is built without it, and the
  client has no timeout. So the source ignores `--timeout`, and the model
  only checks that the flag can be read.
- `health.ErrNoURL`'s message text ("No API token defined") is not modelled.
  The model keeps the error's identity only.
- Cobra command construction, argument counting and flag parsing are not
  modelled. Flag values are inputs. Healarr's single positional argument
  is passed as `url`. Autharr's arguments must number at least one
  (`cobra.RangeArgs(1, 2)`).
- The log output of logrus is modelled as a list of logged errors.
- The seven query-key constants of the `domain` package are not in the
  source shown. They are the parameter `queryKeyOf` of `Healarr.RunApp`.
