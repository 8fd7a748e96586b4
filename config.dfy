/** pkg/config/config.go: reading and writing the *arr configuration file, and
    the watcher that re-reads it after every settled burst of writes.

    The XML and YAML encoders and decoders are collaborators: they are the
    function-valued fields of `Codecs`, so nothing here depends on their byte
    layout. What is modelled is the suffix dispatch, the mapping between the
    format structs and `Domain.Config`, and the watcher's event loop.
 */
module ConfigFile {
  import opened Domain

  // ---------------------------------------------------------------------------
  // Format structs
  // ---------------------------------------------------------------------------

  /** The elements of an *arr `config.xml` that the program knows about. */
  datatype XMLConfig = XMLConfig(
    apiToken: string,
    authenticationMethod: string,
    bindAddress: string,
    branch: string,
    enableSSL: string,
    instanceName: string,
    launchBrowser: string,
    logLevel: string,
    port: string,
    sslCertPassword: string,
    sslCertPath: string,
    sslPort: string,
    updateMechanism: string,
    urlBase: string)

  datatype YAMLConfigAuth = YAMLConfigAuth(apiToken: string, password: string, authType: string, username: string)

  datatype YAMLConfig = YAMLConfig(auth: YAMLConfigAuth)

  /** encoding/xml and yaml.v3, each direction possibly failing. */
  datatype Codecs = Codecs(
    decodeXML: string -> Result<XMLConfig>,
    encodeXML: XMLConfig -> Result<string>,
    decodeYAML: string -> Result<YAMLConfig>,
    encodeYAML: YAMLConfig -> Result<string>)

  /** The codecs give back on decoding exactly the struct they encoded. */
  ghost predicate CodecsRoundTrip(codecs: Codecs)
  {
    && (forall x :: codecs.encodeXML(x).Ok? ==> codecs.decodeXML(codecs.encodeXML(x).value) == Ok(x))
    && (forall y :: codecs.encodeYAML(y).Ok? ==> codecs.decodeYAML(codecs.encodeYAML(y).value) == Ok(y))
  }

  // ---------------------------------------------------------------------------
  // Suffix dispatch
  // ---------------------------------------------------------------------------

  /** strings.HasSuffix */
  predicate HasSuffix(s: string, suffix: string)
  {
    |suffix| <= |s| && s[|s| - |suffix|..] == suffix
  }

  lemma {:induction false} HasSuffixIsEndsWith(s: string, suffix: string)
    ensures HasSuffix(s, suffix) <==> exists p :: s == p + suffix
  {
    if HasSuffix(s, suffix) {
      var p := s[..|s| - |suffix|];
      assert s == p + suffix;
    }
    if exists p :: s == p + suffix {
      var p :| s == p + suffix;
      assert s[|s| - |suffix|..] == suffix;
    }
  }

  datatype Format = Xml | Yaml | Unsupported

  /** The `switch` shared by ReadConfig and WriteConfig: a bare suffix test, with no dot. */
  function FormatOf(name: string): (f: Format)
    ensures f == Xml <==> exists p :: name == p + "xml"
    ensures f == Yaml <==> !(exists p :: name == p + "xml") && ((exists p :: name == p + "yml") || (exists p :: name == p + "yaml"))
  {
    HasSuffixIsEndsWith(name, "xml");
    HasSuffixIsEndsWith(name, "yml");
    HasSuffixIsEndsWith(name, "yaml");
    if HasSuffix(name, "xml") then Xml
    else if HasSuffix(name, "yml") || HasSuffix(name, "yaml") then Yaml
    else Unsupported
  }

  /** Any name ending in the three letters is dispatched on them, whatever
      precedes them: `config.xml` and `fooxml` are both XML. */
  lemma {:induction false} FormatBySuffix(p: string)
    ensures FormatOf(p + "xml") == Xml
    ensures FormatOf(p + "yml") == Yaml
    ensures FormatOf(p + "yaml") == Yaml
  {
    HasSuffixIsEndsWith(p + "xml", "xml");
    HasSuffixIsEndsWith(p + "yml", "yml");
    HasSuffixIsEndsWith(p + "yaml", "yaml");
    assert (p + "yml")[|p| + 3 - 3..] == "yml";
    assert (p + "yaml")[|p| + 4 - 3..] == "aml";
    assert (p + "yml")[|p| + 3 - 3..] != "xml";
    assert (p + "yaml")[|p| + 4 - 3..] != "xml";
  }

  // ---------------------------------------------------------------------------
  // Struct <-> record mapping
  // ---------------------------------------------------------------------------

  /** readXMLConfig's mapping: only the token is carried. */
  function FromXML(x: XMLConfig): (c: Config)
    ensures c.api.token == x.apiToken
    ensures c == Representable(Xml, c)
  {
    Config(API(password := "", token := x.apiToken, url := "", username := ""))
  }

  /** readYAMLConfig's mapping. */
  function FromYAML(y: YAMLConfig): (c: Config)
    ensures c.api == API(y.auth.password, y.auth.apiToken, "", y.auth.username)
    ensures c == Representable(Yaml, c)
  {
    Config(API(password := y.auth.password, token := y.auth.apiToken, url := "", username := y.auth.username))
  }

  /** writeXMLConfig's struct: the token, every other element left empty. */
  function ToXML(c: Config): (x: XMLConfig)
    ensures FromXML(x) == Representable(Xml, c)
    ensures x.(apiToken := "") == XMLConfig("", "", "", "", "", "", "", "", "", "", "", "", "", "")
  {
    XMLConfig(c.api.token, "", "", "", "", "", "", "", "", "", "", "", "", "")
  }

  /** writeYAMLConfig's struct. */
  function ToYAML(c: Config): (y: YAMLConfig)
    ensures FromYAML(y) == Representable(Yaml, c)
    ensures y.auth.authType == ""
  {
    YAMLConfig(YAMLConfigAuth(apiToken := c.api.token, password := c.api.password, authType := "", username := c.api.username))
  }

  /** The part of a record that a file of the given format can hold. */
  function Representable(f: Format, c: Config): Config
  {
    match f
    case Xml => Config(API(password := "", token := c.api.token, url := "", username := ""))
    case _ => Config(c.api.(url := ""))
  }

  lemma XmlStructTokenOnly(c: Config, c': Config)
    requires c.api.token == c'.api.token
    ensures ToXML(c) == ToXML(c')
    ensures ToXML(c).apiToken == c.api.token
    ensures ToXML(c) == ToXML(Representable(Xml, c))
  {
  }

  lemma StructRoundTrip(c: Config)
    ensures FromXML(ToXML(c)) == Representable(Xml, c)
    ensures FromYAML(ToYAML(c)) == Representable(Yaml, c)
  {
  }

  // ---------------------------------------------------------------------------
  // ReadConfig / WriteConfig
  // ---------------------------------------------------------------------------

  function ReadXMLConfig(content: string, codecs: Codecs): (r: Result<Config>)
    ensures r.Ok? <==> codecs.decodeXML(content).Ok?
    ensures r.Err? ==> r.error == codecs.decodeXML(content).error
    ensures r.Ok? ==> r.value.api.token == codecs.decodeXML(content).value.apiToken && r.value == Representable(Xml, r.value)
  {
    match codecs.decodeXML(content)
    case Err(e) => Err(e)
    case Ok(x) => Ok(FromXML(x))
  }

  function ReadYAMLConfig(content: string, codecs: Codecs): (r: Result<Config>)
    ensures r.Ok? <==> codecs.decodeYAML(content).Ok?
    ensures r.Err? ==> r.error == codecs.decodeYAML(content).error
    ensures r.Ok? ==>
      var auth := codecs.decodeYAML(content).value.auth;
      r.value.api == API(auth.password, auth.apiToken, "", auth.username)
  {
    match codecs.decodeYAML(content)
    case Err(e) => Err(e)
    case Ok(y) => Ok(FromYAML(y))
  }

  /** ReadConfig(name): `file` is what os.Open gave (the file's content, or
      its error). The open comes first, so its error wins over an unsupported
      extension. */
  function ReadConfig(name: string, file: Result<string>, codecs: Codecs): (r: Result<Config>)
    ensures file.Err? ==> r == Err(file.error)
    ensures file.Ok? && FormatOf(name) == Unsupported ==> r == Err(UnsupportedFileExtension)
    ensures r.Ok? ==> FormatOf(name) != Unsupported && r.value == Representable(FormatOf(name), r.value)
  {
    match file
    case Err(e) => Err(e)
    case Ok(content) =>
      match FormatOf(name)
      case Xml => ReadXMLConfig(content, codecs)
      case Yaml => ReadYAMLConfig(content, codecs)
      case Unsupported => Err(UnsupportedFileExtension)
  }

  lemma ReadOpensBeforeDispatch(name: string, e: Error, codecs: Codecs)
    ensures ReadConfig(name, Err(e), codecs) == Err(e)
  {
  }

  lemma ReadRejectsUnsupported(name: string, content: string, codecs: Codecs)
    requires !HasSuffix(name, "xml") && !HasSuffix(name, "yml") && !HasSuffix(name, "yaml")
    ensures ReadConfig(name, Ok(content), codecs) == Err(UnsupportedFileExtension)
  {
  }

  lemma {:induction false} ReadXmlCarriesTokenOnly(p: string, content: string, codecs: Codecs)
    ensures codecs.decodeXML(content).Err? ==> ReadConfig(p + "xml", Ok(content), codecs) == Err(codecs.decodeXML(content).error)
    ensures codecs.decodeXML(content).Ok? ==>
      ReadConfig(p + "xml", Ok(content), codecs) == Ok(Config(API(password := "", token := codecs.decodeXML(content).value.apiToken, url := "", username := "")))
  {
    FormatBySuffix(p);
  }

  lemma {:induction false} ReadYamlCarriesAuth(p: string, suffix: string, content: string, codecs: Codecs)
    requires suffix == "yml" || suffix == "yaml"
    ensures codecs.decodeYAML(content).Err? ==> ReadConfig(p + suffix, Ok(content), codecs) == Err(codecs.decodeYAML(content).error)
    ensures codecs.decodeYAML(content).Ok? ==>
      var auth := codecs.decodeYAML(content).value.auth;
      ReadConfig(p + suffix, Ok(content), codecs) == Ok(Config(API(password := auth.password, token := auth.apiToken, url := "", username := auth.username)))
  {
    FormatBySuffix(p);
  }

  /** What os.Create leaves at the destination path. */
  datatype FileState = NotCreated | Truncated | Holds(content: string)

  datatype WriteOutcome = WriteOutcome(err: Outcome, file: FileState)

  /** WriteConfig(name, config): `created` is os.Create's result. The file is
      created (or truncated) before the extension is looked at. An encoder
      failure leaves whatever the encoder had written; that content is not
      modelled, the file is only known to exist. */
  function WriteConfig(name: string, config: Config, created: Outcome, codecs: Codecs): (w: WriteOutcome)
    ensures w.file == NotCreated <==> created.Fail?
    ensures created.Fail? ==> w.err == created
    ensures w.err.Pass? <==> w.file.Holds?
    ensures w.err.Pass? ==> FormatOf(name) != Unsupported
    ensures w.err.Pass? && FormatOf(name) == Xml ==> codecs.encodeXML(ToXML(config)) == Ok(w.file.content)
    ensures w.err.Pass? && FormatOf(name) == Yaml ==> codecs.encodeYAML(ToYAML(config)) == Ok(w.file.content)
    ensures created.Pass? && FormatOf(name) == Xml && codecs.encodeXML(ToXML(config)).Ok? ==>
      w == WriteOutcome(Pass, Holds(codecs.encodeXML(ToXML(config)).value))
    ensures created.Pass? && FormatOf(name) == Yaml && codecs.encodeYAML(ToYAML(config)).Ok? ==>
      w == WriteOutcome(Pass, Holds(codecs.encodeYAML(ToYAML(config)).value))
    ensures created.Pass? && FormatOf(name) == Xml && codecs.encodeXML(ToXML(config)).Err? ==>
      w == WriteOutcome(Fail(codecs.encodeXML(ToXML(config)).error), Truncated)
    ensures created.Pass? && FormatOf(name) == Yaml && codecs.encodeYAML(ToYAML(config)).Err? ==>
      w == WriteOutcome(Fail(codecs.encodeYAML(ToYAML(config)).error), Truncated)
  {
    if created.Fail? then WriteOutcome(created, NotCreated)
    else
      match FormatOf(name)
      case Xml =>
        (match codecs.encodeXML(ToXML(config))
         case Err(e) => WriteOutcome(Fail(e), Truncated)
         case Ok(b) => WriteOutcome(Pass, Holds(b)))
      case Yaml =>
        (match codecs.encodeYAML(ToYAML(config))
         case Err(e) => WriteOutcome(Fail(e), Truncated)
         case Ok(b) => WriteOutcome(Pass, Holds(b)))
      case Unsupported => WriteOutcome(Fail(UnsupportedFileExtension), Truncated)
  }

  lemma WriteCreatesBeforeDispatch(name: string, config: Config, e: Error, codecs: Codecs)
    ensures WriteConfig(name, config, Fail(e), codecs) == WriteOutcome(Fail(e), NotCreated)
    ensures !HasSuffix(name, "xml") && !HasSuffix(name, "yml") && !HasSuffix(name, "yaml") ==>
      WriteConfig(name, config, Pass, codecs) == WriteOutcome(Fail(UnsupportedFileExtension), Truncated)
  {
  }

  /** A successful write leaves a file that reads back as the representable
      part of the record: the token for XML, everything but the URL for YAML. */
  lemma WriteThenRead(name: string, config: Config, codecs: Codecs)
    requires CodecsRoundTrip(codecs)
    ensures WriteConfig(name, config, Pass, codecs).err.Pass? ==>
      var file := WriteConfig(name, config, Pass, codecs).file;
      file.Holds? && ReadConfig(name, Ok(file.content), codecs) == Ok(Representable(FormatOf(name), config))
  {
    match FormatOf(name)
    case Xml =>
      if codecs.encodeXML(ToXML(config)).Ok? {
        assert codecs.decodeXML(codecs.encodeXML(ToXML(config)).value) == Ok(ToXML(config));
      }
    case Yaml =>
      if codecs.encodeYAML(ToYAML(config)).Ok? {
        assert codecs.decodeYAML(codecs.encodeYAML(ToYAML(config)).value) == Ok(ToYAML(config));
      }
    case Unsupported =>
  }

  /** The read-write-read cycle of the package's tests: a record that came from
      reading a file is reproduced exactly after writing it to a file of the
      same format and reading that back. */
  lemma ReadWriteRead(name: string, name': string, content: string, codecs: Codecs)
    requires CodecsRoundTrip(codecs)
    requires ReadConfig(name, Ok(content), codecs).Ok?
    requires FormatOf(name') == FormatOf(name)
    ensures var config := ReadConfig(name, Ok(content), codecs).value;
      var w := WriteConfig(name', config, Pass, codecs);
      w.err.Pass? ==> ReadConfig(name', Ok(w.file.content), codecs) == Ok(config)
  {
    var config := ReadConfig(name, Ok(content), codecs).value;
    WriteThenRead(name', config, codecs);
  }

  // ---------------------------------------------------------------------------
  // WatchConfig
  // ---------------------------------------------------------------------------

  /** The bits of an fsnotify.Op; one event may carry several. */
  datatype Op = Create | Write | Remove | Rename | Chmod

  /** What the watcher goroutine's `select` can receive. A timer fire carries
      what os.Open would give at that moment. */
  datatype WatchEvent =
    | Cancel                            // <-ctx.Done()
    | FsEvent(op: set<Op>)              // an event on watcher.Events
    | EventsClosed                      // watcher.Events was closed
    | TimerFire(file: Result<string>) // <-timer.C

  /** A value sent on configChannel or on errorChannel. */
  datatype Emission = Sent(config: Config) | Reported(err: Error)

  /** Running in the loop, returned from the goroutine, or crashed by a panic. */
  datatype Phase = Watching | Returned | Panicked

  datatype WatchState = WatchState(phase: Phase, armed: bool, closed: bool, out: seq<Emission>)

  function EmissionOf(r: Result<Config>): Emission
  {
    match r
    case Ok(c) => Sent(c)
    case Err(e) => Reported(e)
  }

  /** The goroutine's state when its loop starts. It first waits out the
      initial 3-second timer, which leaves the timer drained; `setup` is what
      fsnotify.NewWatcher gave. The error of watcher.Add is dropped by the
      source and so has no input here. */
  function WatchStart(setup: Outcome): (s: WatchState)
    ensures !s.armed && !s.closed
    ensures s.phase == Watching <==> setup.Pass?
    ensures s.phase != Panicked
    ensures setup.Pass? ==> s.out == []
    ensures setup.Fail? ==> s.out == [Reported(setup.error)]
  {
    if setup.Fail? then WatchState(Returned, false, false, [Reported(setup.error)])
    else WatchState(Watching, false, false, [])
  }

  /** One iteration of the `for { select { ... } }` loop as written. `break`
      leaves only the `select`, so cancelling does not end the loop. Closing a
      closed channel or sending on one panics. */
  function WatchStep(name: string, codecs: Codecs, s: WatchState, ev: WatchEvent): (t: WatchState)
    ensures s.phase != Watching ==> t == s
    ensures |s.out| <= |t.out| <= |s.out| + 1 && t.out[..|s.out|] == s.out
    ensures t.phase == Panicked && s.phase == Watching ==> s.closed && t.out == s.out
    ensures s.closed ==> t.closed
    ensures t.closed && !s.closed ==> ev.Cancel? && t.out == s.out
  {
    if s.phase != Watching then s
    else
      match ev
      case Cancel =>
        if s.closed then s.(phase := Panicked) else s.(closed := true)
      case FsEvent(op) =>
        if op == {Write} then s.(armed := true) else s
      case EventsClosed =>
        if s.closed then s.(phase := Panicked) else s.(out := s.out + [Reported(WatcherEventsClosed)])
      case TimerFire(file) =>
        if !s.armed then s
        else if s.closed then s.(armed := false, phase := Panicked)
        else s.(armed := false, out := s.out + [EmissionOf(ReadConfig(name, file, codecs))])
  }

  function WatchRun(name: string, codecs: Codecs, s: WatchState, events: seq<WatchEvent>): WatchState
    decreases |events|
  {
    if events == [] then s
    else WatchStep(name, codecs, WatchRun(name, codecs, s, events[..|events| - 1]), events[|events| - 1])
  }

  lemma {:induction false} WatchRunAppend(name: string, codecs: Codecs, s: WatchState, a: seq<WatchEvent>, b: seq<WatchEvent>)
    ensures WatchRun(name, codecs, s, a + b) == WatchRun(name, codecs, WatchRun(name, codecs, s, a), b)
    decreases |b|
  {
    if b == [] {
      assert a + b == a;
    } else {
      assert (a + b)[..|a + b| - 1] == a + b[..|b| - 1];
      WatchRunAppend(name, codecs, s, a, b[..|b| - 1]);
    }
  }

  /** Once the goroutine has returned or panicked, no event changes anything. */
  lemma {:induction false} WatchStoppedIsFinal(name: string, codecs: Codecs, s: WatchState, events: seq<WatchEvent>)
    requires s.phase != Watching
    ensures WatchRun(name, codecs, s, events) == s
    decreases |events|
  {
    if events != [] {
      WatchStoppedIsFinal(name, codecs, s, events[..|events| - 1]);
    }
  }

  /** Failing to create the watcher reports that one error and ends the task. */
  lemma SetupFailureReportsOnce(name: string, codecs: Codecs, e: Error, events: seq<WatchEvent>)
    ensures WatchRun(name, codecs, WatchStart(Fail(e)), events) == WatchState(Returned, false, false, [Reported(e)])
  {
    WatchStoppedIsFinal(name, codecs, WatchStart(Fail(e)), events);
  }

  /** A Write event re-arms the timer; any other op, including a write
      combined with another bit, leaves the state as it was. Nothing is emitted. */
  lemma WriteRearmsTimer(name: string, codecs: Codecs, s: WatchState, op: set<Op>)
    requires s.phase == Watching
    ensures op == {Write} ==> WatchStep(name, codecs, s, FsEvent(op)) == s.(armed := true)
    ensures op != {Write} ==> WatchStep(name, codecs, s, FsEvent(op)) == s
  {
  }

  /** A timer fire on an open session performs one read and emits its result
      on the matching channel; the loop goes on with the timer stopped. */
  lemma FireReadsOnce(name: string, codecs: Codecs, s: WatchState, file: Result<string>)
    requires s.phase == Watching && s.armed && !s.closed
    ensures var t := WatchStep(name, codecs, s, TimerFire(file));
      && t.phase == Watching && !t.armed && !t.closed
      && |t.out| == |s.out| + 1 && t.out[..|s.out|] == s.out
      && (ReadConfig(name, file, codecs).Ok? ==> t.out[|s.out|] == Sent(ReadConfig(name, file, codecs).value))
      && (ReadConfig(name, file, codecs).Err? ==> t.out[|s.out|] == Reported(ReadConfig(name, file, codecs).error))
  {
  }

  /** Cancelling an open session closes both channels and sends nothing. */
  lemma CancelClosesChannels(name: string, codecs: Codecs, s: WatchState)
    requires s.phase == Watching && !s.closed
    ensures WatchStep(name, codecs, s, Cancel) == s.(closed := true)
  {
  }

  /** Filesystem events alone never emit: they only arm the timer, and they
      arm it exactly when one of them is a plain Write. */
  lemma {:induction false} FsEventsOnlyArm(name: string, codecs: Codecs, s: WatchState, events: seq<WatchEvent>)
    requires s.phase == Watching
    requires forall i :: 0 <= i < |events| ==> events[i].FsEvent?
    ensures WatchRun(name, codecs, s, events)
         == s.(armed := s.armed || exists i :: 0 <= i < |events| && events[i].op == {Write})
    decreases |events|
  {
    if events != [] {
      var init := events[..|events| - 1];
      FsEventsOnlyArm(name, codecs, s, init);
      assert forall i :: 0 <= i < |init| ==> init[i] == events[i];
    }
  }

  /** The debounce: any burst of filesystem events containing a write,
      followed by the timer firing, yields exactly one read, of the file as it
      is when the timer fires, and one emission. */
  lemma BurstYieldsOneRead(name: string, codecs: Codecs, s: WatchState, burst: seq<WatchEvent>, file: Result<string>)
    requires s.phase == Watching && !s.closed
    requires forall i :: 0 <= i < |burst| ==> burst[i].FsEvent?
    requires exists i :: 0 <= i < |burst| && burst[i].op == {Write}
    ensures WatchRun(name, codecs, s, burst + [TimerFire(file)])
         == s.(armed := false, out := s.out + [EmissionOf(ReadConfig(name, file, codecs))])
  {
    FsEventsOnlyArm(name, codecs, s, burst);
    var armed := WatchRun(name, codecs, s, burst);
    assert armed == s.(armed := true);
    assert (burst + [TimerFire(file)])[..|burst|] == burst;
    assert WatchRun(name, codecs, s, burst + [TimerFire(file)]) == WatchStep(name, codecs, armed, TimerFire(file));
  }

  /** The goroutine's loop, over a finite prefix of what its `select` receives. */
  method WatchConfig(name: string, codecs: Codecs, setup: Outcome, events: seq<WatchEvent>) returns (s: WatchState)
    ensures s == WatchRun(name, codecs, WatchStart(setup), events)
  {
    if setup.Fail? {
      s := WatchState(Returned, false, false, [Reported(setup.error)]);
      WatchStoppedIsFinal(name, codecs, s, events);
      return;
    }
    var phase, armed, closed, out := Watching, false, false, [];
    var i := 0;
    while i < |events| && phase == Watching
      invariant 0 <= i <= |events|
      invariant WatchState(phase, armed, closed, out) == WatchRun(name, codecs, WatchStart(setup), events[..i])
      decreases |events| - i
    {
      match events[i] {
      case Cancel =>
        if closed {
          phase := Panicked;  // close of closed channel
        } else {
          closed := true;
        }
      case FsEvent(op) =>
        if op == {Write} {
          armed := true;
        }
      case EventsClosed =>
        if closed {
          phase := Panicked;  // send on closed channel
        } else {
          out := out + [Reported(WatcherEventsClosed)];
        }
      case TimerFire(file) =>
        if armed {
          armed := false;
          var config := ReadConfig(name, file, codecs);
          if closed {
            phase := Panicked;  // send on closed channel
          } else if config.Err? {
            out := out + [Reported(config.error)];
          } else {
            out := out + [Sent(config.value)];
          }
        }
      }
      assert events[..i + 1][..i] == events[..i];
      i := i + 1;
    }
    s := WatchState(phase, armed, closed, out);
    if i < |events| {
      WatchStoppedIsFinal(name, codecs, s, events[i..]);
      WatchRunAppend(name, codecs, WatchStart(setup), events[..i], events[i..]);
      assert events[..i] + events[i..] == events;
    } else {
      assert events[..i] == events;
    }
  }

  // ---------------------------------------------------------------------------
  // The cancellation `break`
  // ---------------------------------------------------------------------------

  /** As written: the cancellation case stays ready after it closed the
      channels, and the loop selects it again and closes them again. */
  lemma CancelTwicePanics(name: string, codecs: Codecs)
    ensures WatchRun(name, codecs, WatchStart(Pass), [Cancel, Cancel]).phase == Panicked
  {
    assert [Cancel, Cancel][..1] == [Cancel];
  }

  /** As written: a timer armed before cancellation still fires afterwards,
      and its result is sent on a closed channel. */
  lemma FireAfterCancelPanics(name: string, codecs: Codecs, file: Result<string>)
    ensures WatchRun(name, codecs, WatchStart(Pass), [FsEvent({Write}), Cancel, TimerFire(file)]).phase == Panicked
  {
    var evs := [FsEvent({Write}), Cancel, TimerFire(file)];
    var s0 := WatchStart(Pass);
    assert evs[..2] == [FsEvent({Write}), Cancel];
    assert evs[..2][..1] == [FsEvent({Write})];
    assert [FsEvent({Write})][..0] == [];
    assert WatchRun(name, codecs, s0, [FsEvent({Write})]) == s0.(armed := true);
    assert WatchRun(name, codecs, s0, evs[..2]) == s0.(armed := true, closed := true);
  }

  /** As written: the `break` after reporting that fsnotify's event channel
      closed leaves the loop running, so the closed channel is selected again
      and the same error is reported again. */
  lemma EventsClosedKeepsLooping(name: string, codecs: Codecs)
    ensures WatchRun(name, codecs, WatchStart(Pass), [EventsClosed, EventsClosed])
         == WatchState(Watching, false, false, [Reported(WatcherEventsClosed), Reported(WatcherEventsClosed)])
  {
    assert [EventsClosed, EventsClosed][..1] == [EventsClosed];
  }

  /** As intended: after closing the channels, and after reporting that the
      watcher's event channel closed, the goroutine returns. */
  function WatchStepIntended(name: string, codecs: Codecs, s: WatchState, ev: WatchEvent): WatchState
  {
    if s.phase != Watching then s
    else
      match ev
      case Cancel => s.(closed := true, phase := Returned)
      case FsEvent(op) => if op == {Write} then s.(armed := true) else s
      case EventsClosed => s.(out := s.out + [Reported(WatcherEventsClosed)], phase := Returned)
      case TimerFire(file) =>
        if !s.armed then s
        else s.(armed := false, out := s.out + [EmissionOf(ReadConfig(name, file, codecs))])
  }

  function WatchRunIntended(name: string, codecs: Codecs, s: WatchState, events: seq<WatchEvent>): WatchState
    decreases |events|
  {
    if events == [] then s
    else WatchStepIntended(name, codecs, WatchRunIntended(name, codecs, s, events[..|events| - 1]), events[|events| - 1])
  }

  /** With the return in place the session never panics, its channels are
      closed at most once and, once closed, nothing more is sent. */
  lemma {:induction false} IntendedClosesOnce(name: string, codecs: Codecs, setup: Outcome, events: seq<WatchEvent>)
    ensures var t := WatchRunIntended(name, codecs, WatchStart(setup), events);
      && t.phase != Panicked
      && (t.closed ==> t.phase == Returned)
    ensures forall k :: 0 <= k <= |events| && WatchRunIntended(name, codecs, WatchStart(setup), events[..k]).closed ==>
      WatchRunIntended(name, codecs, WatchStart(setup), events) == WatchRunIntended(name, codecs, WatchStart(setup), events[..k])
    decreases |events|
  {
    if events != [] {
      var init := events[..|events| - 1];
      IntendedClosesOnce(name, codecs, setup, init);
      forall k | 0 <= k <= |events| && WatchRunIntended(name, codecs, WatchStart(setup), events[..k]).closed
        ensures WatchRunIntended(name, codecs, WatchStart(setup), events) == WatchRunIntended(name, codecs, WatchStart(setup), events[..k])
      {
        if k < |events| {
          assert init[..k] == events[..k];
        } else {
          assert events[..k] == events;
        }
      }
    }
  }

  lemma {:induction false} WatchRunIntendedAppend(name: string, codecs: Codecs, s: WatchState, a: seq<WatchEvent>, b: seq<WatchEvent>)
    ensures WatchRunIntended(name, codecs, s, a + b) == WatchRunIntended(name, codecs, WatchRunIntended(name, codecs, s, a), b)
    decreases |b|
  {
    if b == [] {
      assert a + b == a;
    } else {
      assert (a + b)[..|a + b| - 1] == a + b[..|b| - 1];
      WatchRunIntendedAppend(name, codecs, s, a, b[..|b| - 1]);
    }
  }

  lemma {:induction false} IntendedStoppedIsFinal(name: string, codecs: Codecs, s: WatchState, events: seq<WatchEvent>)
    requires s.phase != Watching
    ensures WatchRunIntended(name, codecs, s, events) == s
    decreases |events|
  {
    if events != [] {
      IntendedStoppedIsFinal(name, codecs, s, events[..|events| - 1]);
    }
  }

  /** As intended, the first cancellation or the first report that the event
      channel closed ends the goroutine: whatever follows changes nothing. */
  lemma IntendedStopsAtClose(name: string, codecs: Codecs, rest: seq<WatchEvent>)
    ensures WatchRunIntended(name, codecs, WatchStart(Pass), [Cancel] + rest)
         == WatchState(Returned, false, true, [])
    ensures WatchRunIntended(name, codecs, WatchStart(Pass), [EventsClosed] + rest)
         == WatchState(Returned, false, false, [Reported(WatcherEventsClosed)])
  {
    var s0 := WatchStart(Pass);
    assert [Cancel][..0] == [] && [EventsClosed][..0] == [];
    WatchRunIntendedAppend(name, codecs, s0, [Cancel], rest);
    IntendedStoppedIsFinal(name, codecs, WatchRunIntended(name, codecs, s0, [Cancel]), rest);
    WatchRunIntendedAppend(name, codecs, s0, [EventsClosed], rest);
    IntendedStoppedIsFinal(name, codecs, WatchRunIntended(name, codecs, s0, [EventsClosed]), rest);
  }
}
