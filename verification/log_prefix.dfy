/** The logging helpers: the prefix table that picks a level for a legacy
    print-style message, the level-method fallback, and the guard that
    keeps a named logger from collecting duplicate handlers. */
module LogPrefix {

  import opened Opt
  import opened Text

  /** `LOG_LEVEL_MAP`, in its declaration order, which is the order the
      prefixes are tried in. */
  const LevelMap: seq<(string, string)> := [
    ("[OK]", "INFO"), ("[SUCCESS]", "INFO"), ("[COMPLETE]", "INFO"), ("[START]", "INFO"),
    ("[PHASE1]", "INFO"), ("[PHASE2]", "INFO"), ("[PATH]", "DEBUG"), ("[NOTIFICATION]", "INFO"),
    ("[IMMEDIATE]", "INFO"), ("[INTERVAL]", "INFO"), ("[TASK]", "INFO"), ("[BROWSER]", "INFO"),
    ("[SCHEDULER]", "INFO"), ("[WARN]", "WARNING"), ("[WARNING]", "WARNING"), ("[ERROR]", "ERROR"),
    ("[TRACE]", "ERROR"), ("[STOP]", "INFO"),
    ("\U{2705}", "INFO"), ("\U{1F389}", "INFO"), ("\U{1F680}", "INFO"), ("\U{1F4CA}", "INFO"),
    ("\U{1F4B0}", "INFO"), ("\U{1F310}", "INFO"), ("\U{26A0}\U{FE0F}", "WARNING"), ("\U{274C}", "ERROR"),
    ("\U{1F50D}", "DEBUG"), ("\U{1F4F1}", "INFO"), ("\U{1F4BE}", "INFO")
  ]

  /** A tag such as `[OK]`, as opposed to an emoji. */
  predicate Bracketed(p: string) {
    |p| > 0 && p[0] == '[' && p[|p| - 1] == ']'
  }

  predicate PrefixOf(message: string, entry: (string, string)) {
    StartsWith(message, entry.0)
  }

  /** The position of the first table entry whose prefix starts the message. */
  function MatchIndex(message: string): (r: Option<nat>)
    ensures r.Some? ==> r.value < |LevelMap| && StartsWith(message, LevelMap[r.value].0)
    ensures r.Some? ==> forall j :: 0 <= j < r.value ==> !StartsWith(message, LevelMap[j].0)
    ensures r.None? <==> forall j :: 0 <= j < |LevelMap| ==> !StartsWith(message, LevelMap[j].0)
  {
    FirstWhere(LevelMap, e => PrefixOf(message, e))
  }

  /** The level a message is logged at and the text logged. */
  datatype Routed = Routed(level: string, text: string)

  /** The first table prefix the message starts with sets the level; a tag
      is cut off and the rest stripped, an emoji stays. With no match the
      message and the caller's level pass through unchanged. */
  function RouteMessage(message: string, level: string): (r: Routed)
    ensures MatchIndex(message).None? ==> r == Routed(level, message)
    ensures MatchIndex(message).Some? ==>
              var (prefix, mapped) := LevelMap[MatchIndex(message).value];
              && r.level == mapped
              && (Bracketed(prefix) ==> r.text == Strip(message[|prefix|..]))
              && (!Bracketed(prefix) ==> r.text == message)
    ensures r.text == message || |r.text| < |message|
  {
    match MatchIndex(message)
    case None => Routed(level, message)
    case Some(k) =>
      var (prefix, mapped) := LevelMap[k];
      Routed(mapped, if Bracketed(prefix) then Strip(message[|prefix|..]) else message)
  }

  /** The logger methods `getattr(logger, level.lower())` can find. */
  const LevelMethods: set<string> :=
    {"debug", "info", "warning", "warn", "error", "exception", "critical", "fatal"}

  /** The method a level name selects; unknown names fall back to `info`. */
  function LevelMethod(level: string): (m: string)
    ensures m in LevelMethods
    ensures Lower(level) in LevelMethods ==> m == Lower(level)
    ensures Lower(level) !in LevelMethods ==> m == "info"
  {
    if Lower(level) in LevelMethods then Lower(level) else "info"
  }

  /** Every level the table yields names a real method, so a routed message
      never falls back unless its caller's level was unknown. */
  lemma TableLevelsAreMethods()
    ensures forall k :: 0 <= k < |LevelMap| ==> Lower(LevelMap[k].1) in LevelMethods
  {
    assert Lower("INFO") == "info";
    assert Lower("DEBUG") == "debug";
    assert Lower("WARNING") == "warning";
    assert Lower("ERROR") == "error";
    forall k | 0 <= k < |LevelMap|
      ensures LevelMap[k].1 in {"INFO", "DEBUG", "WARNING", "ERROR"}
    {
    }
  }

  /** The match is at `k` when entry `k` fits and no earlier one does. */
  lemma MatchAt(m: string, k: nat)
    requires k < |LevelMap| && StartsWith(m, LevelMap[k].0)
    requires forall j :: 0 <= j < k ==> !StartsWith(m, LevelMap[j].0)
    ensures MatchIndex(m) == Some(k)
  {
    var r := MatchIndex(m);
    assert r.Some?;
    assert !(r.value < k);
    assert !(r.value > k);
  }

  /** A message that differs from a prefix inside the prefix does not
      start with it. */
  lemma DiffersAt(m: string, p: string, i: nat)
    requires i < |p| && i < |m| && m[i] != p[i]
    ensures !StartsWith(m, p)
  {
  }

  // ---------------------------------------------------------------------
  // setup_logger
  // ---------------------------------------------------------------------

  /** `getattr(logging, log_level.upper(), logging.INFO)`: the numeric level
      for a level name. */
  function NumericLevel(name: string): (n: int)
    ensures Upper(name) == "DEBUG" ==> n == 10
    ensures Upper(name) == "INFO" ==> n == 20
    ensures Upper(name) == "WARNING" || Upper(name) == "WARN" ==> n == 30
    ensures Upper(name) == "ERROR" ==> n == 40
    ensures Upper(name) == "CRITICAL" || Upper(name) == "FATAL" ==> n == 50
    ensures Upper(name) == "NOTSET" ==> n == 0
    ensures Upper(name) !in {"DEBUG", "INFO", "WARNING", "WARN", "ERROR", "CRITICAL", "FATAL", "NOTSET"} ==> n == 20
    ensures n in {0, 10, 20, 30, 40, 50}
  {
    var u := Upper(name);
    if u == "DEBUG" then 10
    else if u == "WARNING" || u == "WARN" then 30
    else if u == "ERROR" then 40
    else if u == "CRITICAL" || u == "FATAL" then 50
    else if u == "NOTSET" then 0
    else 20
  }

  /** A named logger: its level and how many handlers it has. */
  datatype LoggerState = LoggerState(level: int, handlers: nat)

  /** Loggers by name, as `logging.getLogger` keeps them. */
  type Registry = map<string, LoggerState>

  /** A logger with handlers comes back untouched; otherwise it gets the
      level and its two handlers (console and daily file). */
  function SetupLogger(reg: Registry, name: string, levelName: string): (r: Registry)
    ensures name in r && r[name].handlers > 0
    ensures name in reg && reg[name].handlers > 0 ==> r == reg
    ensures !(name in reg && reg[name].handlers > 0) ==>
      r[name] == LoggerState(NumericLevel(levelName), 2)
    ensures forall other :: other != name ==> (other in r <==> other in reg)
    ensures forall other :: other != name && other in reg ==> r[other] == reg[other]
  {
    if name in reg && reg[name].handlers > 0 then reg
    else reg[name := LoggerState(NumericLevel(levelName), 2)]
  }

  /** `get_logger`: `setup_logger` with the default level name. */
  function GetLogger(reg: Registry, name: string): (r: Registry)
    ensures name in r && r[name].handlers > 0
    ensures forall other :: other != name && other in reg ==> other in r && r[other] == reg[other]
  {
    SetupLogger(reg, name, "INFO")
  }

  /** Asking for the same logger again, with any level, changes nothing:
      handlers are never duplicated and the first level sticks. */
  lemma SetupIdempotent(reg: Registry, name: string, first: string, second: string)
    ensures SetupLogger(SetupLogger(reg, name, first), name, second) == SetupLogger(reg, name, first)
  {
  }

  /** A registry where no logger has more than the two handlers the setup
      adds keeps that property. */
  lemma {:induction false} SetupBoundsHandlers(reg: Registry, names: seq<string>)
    requires forall n :: n in reg ==> reg[n].handlers <= 2
    ensures forall n :: n in SetupAll(reg, names) ==> SetupAll(reg, names)[n].handlers <= 2
    decreases |names|
  {
    if names != [] {
      SetupBoundsHandlers(SetupLogger(reg, names[0], "INFO"), names[1..]);
    }
  }

  /** Setting up several loggers in turn. */
  function SetupAll(reg: Registry, names: seq<string>): Registry
    decreases |names|
  {
    if names == [] then reg else SetupAll(SetupLogger(reg, names[0], "INFO"), names[1..])
  }

  const ModuleNames: seq<string> := ["scheduler", "redeem_usdt", "dual_buy", "complete_flow", "load_env"]

  /** `create_module_loggers`: every listed module ends up with a configured
      logger. */
  lemma {:induction false} SetupAllCovers(reg: Registry, names: seq<string>)
    ensures forall k :: 0 <= k < |names| ==>
              names[k] in SetupAll(reg, names) && SetupAll(reg, names)[names[k]].handlers > 0
    decreases |names|
  {
    if names != [] {
      var next := SetupLogger(reg, names[0], "INFO");
      SetupAllCovers(next, names[1..]);
      KeepsConfigured(next, names[1..], names[0]);
      forall k | 0 < k < |names|
        ensures names[k] == names[1..][k - 1]
      {
      }
    }
  }

  /** A logger that already has handlers keeps its state through later setups. */
  lemma {:induction false} KeepsConfigured(reg: Registry, names: seq<string>, name: string)
    requires name in reg && reg[name].handlers > 0
    ensures name in SetupAll(reg, names) && SetupAll(reg, names)[name] == reg[name]
    decreases |names|
  {
    if names != [] {
      KeepsConfigured(SetupLogger(reg, names[0], "INFO"), names[1..], name);
    }
  }

  lemma ModuleLoggersCreated(reg: Registry)
    ensures forall k :: 0 <= k < |ModuleNames| ==> ModuleNames[k] in SetupAll(reg, ModuleNames)
  {
    SetupAllCovers(reg, ModuleNames);
  }
}

/** Worked examples of message routing. They live in their own module so the
    solver sees the routing functions only through their contracts. */
module LogPrefixExamples {

  import opened Opt
  import opened Text
  import opened LogPrefix

  /** The table lists its 18 tags first, then its emoji; every tag opens with
      a bracket, and no emoji entry is bracketed, so emoji are never cut off. */
  lemma TableShape()
    ensures forall j :: 0 <= j < 18 ==> Bracketed(LevelMap[j].0) && LevelMap[j].0[0] == '['
    ensures forall j :: 18 <= j < |LevelMap| ==>
              |LevelMap[j].0| > 0 && LevelMap[j].0[0] >= '\U{2000}' && !Bracketed(LevelMap[j].0)
  {
  }

  /** A message opening with neither a bracket nor an emoji keeps its text
      and its caller's level. */
  lemma UnmatchedPassesThrough(message: string, level: string)
    requires message != [] && message[0] != '[' && message[0] < '\U{2000}'
    ensures RouteMessage(message, level) == Routed(level, message)
  {
    TableShape();
    forall j | 0 <= j < |LevelMap|
      ensures !StartsWith(message, LevelMap[j].0)
    {
      DiffersAt(message, LevelMap[j].0, 0);
    }
  }

  lemma OkTagMatch(m: string)
    requires m == "[OK]  done"
    ensures MatchIndex(m) == Some(0) && m[|LevelMap[0].0|..] == "  done"
  {
    assert m[..4] == LevelMap[0].0;
    MatchAt(m, 0);
  }

  lemma StripDone()
    ensures Strip("  done") == "done"
  {
    assert "  done"[1..] == " done";
    assert " done"[1..] == "done";
    StripUnchanged("done");
  }

  /** A tag is removed together with the whitespace after it. */
  lemma TagStripped(m: string)
    requires m == "[OK]  done"
    ensures RouteMessage(m, "DEBUG") == Routed("INFO", "done")
  {
    OkTagMatch(m);
    StripDone();
    assert Bracketed(LevelMap[0].0) && LevelMap[0].1 == "INFO";
  }

  /** An emoji sets the level but stays in the text. */
  lemma EmojiKept(m: string)
    requires m == "\U{2705} saved"
    ensures RouteMessage(m, "DEBUG") == Routed("INFO", m)
  {
    TableShape();
    forall j | 0 <= j < 18
      ensures !StartsWith(m, LevelMap[j].0)
    {
      DiffersAt(m, LevelMap[j].0, 0);
    }
    assert m[..1] == LevelMap[18].0;
    MatchAt(m, 18);
  }
}
