/** The configuration loader: each line of the env file is stripped, blank
    lines and comments are skipped, and `key=value` lines set the process
    environment, with one layer of matching quotes removed from the value. */
module EnvFile {

  import opened Opt
  import opened Text

  /** The process environment. */
  type Env = map<string, string>

  /** What one line of the file is. */
  datatype LineKind =
    | Skipped
    | Assignment(key: string, value: string)
    | Malformed

  /** Removes one pair of matching double or single quotes. A value that is
      a single quote character starts and ends with it, so it becomes empty. */
  function Unquote(v: string): (r: string)
    ensures |v| >= 2 && v[0] == v[|v| - 1] && (v[0] == '"' || v[0] == '\'') ==> r == v[1..|v| - 1]
    ensures v == "\"" || v == "'" ==> r == ""
    ensures |v| == 0 || (v[0] != '"' && v[0] != '\'') || v[0] != v[|v| - 1] ==> r == v
  {
    if |v| > 0 && v[0] == '"' && v[|v| - 1] == '"' then (if |v| >= 2 then v[1..|v| - 1] else "")
    else if |v| > 0 && v[0] == '\'' && v[|v| - 1] == '\'' then (if |v| >= 2 then v[1..|v| - 1] else "")
    else v
  }

  /** Quoting a value and unquoting it gives the value back. */
  lemma UnquoteRoundTrip(x: string)
    ensures Unquote("\"" + x + "\"") == x
    ensures Unquote("'" + x + "'") == x
  {
    assert ("\"" + x + "\"")[1..|x| + 1] == x;
    assert ("'" + x + "'")[1..|x| + 1] == x;
  }

  /** Classifies one raw line: stripped, empty or `#`-led lines are skipped,
      a line with `=` is split at its first `=` and both sides stripped,
      anything else is malformed. */
  function ClassifyLine(raw: string): (k: LineKind)
    ensures k.Skipped? <==> Strip(raw) == "" || Strip(raw)[0] == '#'
    ensures k.Malformed? <==> Strip(raw) != "" && Strip(raw)[0] != '#' && '=' !in Strip(raw)
    ensures k.Assignment? ==>
      var line := Strip(raw);
      var i := IndexOf(line, '=');
      && '=' !in line[..i]
      && k.key == Strip(line[..i])
      && k.value == Unquote(Strip(line[i + 1..]))
  {
    var line := Strip(raw);
    if line == "" || line[0] == '#' then Skipped
    else if '=' in line then
      var i := IndexOf(line, '=');
      Assignment(Strip(line[..i]), Unquote(Strip(line[i + 1..])))
    else Malformed
  }

  /** Writing `key=value` out as a line and classifying it gives the pair
      back, for keys and values the format can carry. */
  lemma {:induction false} AssignmentRoundTrip(key: string, value: string)
    requires key != [] && !IsSpace(key[0]) && !IsSpace(key[|key| - 1])
    requires key[0] != '#' && '=' !in key
    requires value != [] ==> !IsSpace(value[0]) && !IsSpace(value[|value| - 1])
    requires value != [] ==> value[0] != '"' && value[0] != '\''
    ensures ClassifyLine(key + "=" + value) == Assignment(key, value)
  {
    var line := key + "=" + value;
    assert line[0] == key[0];
    assert line[|line| - 1] == if value == [] then '=' else value[|value| - 1];
    StripUnchanged(line);
    assert line[|key|] == '=';
    assert '=' in line;
    var i := IndexOf(line, '=');
    assert line[..|key|] == key;
    assert i == |key|;
    assert line[..i] == key;
    assert line[i + 1..] == value;
    StripUnchanged(key);
    StripUnchanged(value);
  }

  /** `os.environ[key] = value` raises for an empty name and for a NUL
      character in the name or the value. */
  predicate Settable(key: string, value: string) {
    key != "" && '\0' !in key && '\0' !in value
  }

  /** The environment after a load, and whether an exception stopped it
      before the last line (lines already applied stay applied). */
  datatype Loaded = Loaded(env: Env, aborted: bool)

  /** Applies the lines in order; the last assignment to a key wins. */
  function LoadLines(env: Env, lines: seq<string>): (r: Loaded)
    ensures forall key :: key in env ==> key in r.env
    ensures forall key :: key !in env && key in r.env ==>
      exists i :: 0 <= i < |lines| && ClassifyLine(lines[i]).Assignment? && ClassifyLine(lines[i]).key == key
    ensures !r.aborted ==> forall i :: 0 <= i < |lines| && ClassifyLine(lines[i]).Assignment? ==>
      Settable(ClassifyLine(lines[i]).key, ClassifyLine(lines[i]).value)
    decreases |lines|
  {
    if lines == [] then Loaded(env, false)
    else
      match ClassifyLine(lines[0])
      case Skipped => LoadLines(env, lines[1..])
      case Malformed => LoadLines(env, lines[1..])
      case Assignment(key, value) =>
        if Settable(key, value) then LoadLines(env[key := value], lines[1..])
        else Loaded(env, true)
  }

  /** `load_env()`: a missing file leaves the environment as it is. */
  function LoadEnv(env: Env, file: Option<seq<string>>): (r: Env)
    ensures file.None? ==> r == env
    ensures file.Some? ==> r == LoadLines(env, file.value).env
  {
    match file
    case None => env
    case Some(lines) => LoadLines(env, lines).env
  }

  /** `get_config(key, default)`: the environment's value, else the default. */
  function GetConfig(env: Env, key: string, default: string): (r: string)
    ensures key in env ==> r == env[key]
    ensures key !in env ==> r == default
  {
    if key in env then env[key] else default
  }

  /** A key the file never assigns keeps its value. */
  lemma {:induction false} UntouchedKeysKept(env: Env, lines: seq<string>, key: string)
    requires forall i :: 0 <= i < |lines| && ClassifyLine(lines[i]).Assignment? ==> ClassifyLine(lines[i]).key != key
    ensures key in LoadLines(env, lines).env <==> key in env
    ensures key in env ==> LoadLines(env, lines).env[key] == env[key]
    decreases |lines|
  {
    if lines != [] {
      match ClassifyLine(lines[0])
      case Skipped => UntouchedKeysKept(env, lines[1..], key);
      case Malformed => UntouchedKeysKept(env, lines[1..], key);
      case Assignment(k, v) =>
        if Settable(k, v) {
          UntouchedKeysKept(env[k := v], lines[1..], key);
        }
    }
  }

  /** When the load runs to the end, a key takes the value of its last
      assignment in the file. */
  lemma {:induction false} LastAssignmentWins(env: Env, lines: seq<string>, i: nat)
    requires i < |lines| && ClassifyLine(lines[i]).Assignment?
    requires forall j :: i < j < |lines| && ClassifyLine(lines[j]).Assignment? ==>
      ClassifyLine(lines[j]).key != ClassifyLine(lines[i]).key
    requires !LoadLines(env, lines).aborted
    ensures var a := ClassifyLine(lines[i]);
      a.key in LoadLines(env, lines).env && LoadLines(env, lines).env[a.key] == a.value
    decreases |lines|
  {
    var a := ClassifyLine(lines[i]);
    if i == 0 {
      assert Settable(a.key, a.value);
      var rest := lines[1..];
      forall j | 0 <= j < |rest| && ClassifyLine(rest[j]).Assignment?
        ensures ClassifyLine(rest[j]).key != a.key
      {
        assert rest[j] == lines[j + 1];
      }
      UntouchedKeysKept(env[a.key := a.value], rest, a.key);
    } else {
      var rest := lines[1..];
      assert rest[i - 1] == lines[i];
      forall j | i - 1 < j < |rest| && ClassifyLine(rest[j]).Assignment?
        ensures ClassifyLine(rest[j]).key != a.key
      {
        assert rest[j] == lines[j + 1];
      }
      match ClassifyLine(lines[0])
      case Skipped => LastAssignmentWins(env, rest, i - 1);
      case Malformed => LastAssignmentWins(env, rest, i - 1);
      case Assignment(k, v) => LastAssignmentWins(env[k := v], rest, i - 1);
    }
  }

  /** The assignments a load applies, up to the first one the environment
      refuses; a later assignment to a key overrides an earlier one. */
  function Assigned(lines: seq<string>): map<string, string>
    decreases |lines|
  {
    if lines == [] then map[]
    else
      match ClassifyLine(lines[0])
      case Assignment(key, value) =>
        if Settable(key, value) then map[key := value] + Assigned(lines[1..]) else map[]
      case _ => Assigned(lines[1..])
  }

  /** A load overrides the environment with what the file assigns, whatever
      the environment held before. */
  lemma {:induction false} LoadOverrides(env: Env, lines: seq<string>)
    ensures LoadLines(env, lines).env == env + Assigned(lines)
    decreases |lines|
  {
    if lines == [] {
      assert env + map[] == env;
    } else {
      match ClassifyLine(lines[0])
      case Skipped => LoadOverrides(env, lines[1..]);
      case Malformed => LoadOverrides(env, lines[1..]);
      case Assignment(k, v) =>
        if Settable(k, v) {
          LoadOverrides(env[k := v], lines[1..]);
          OverrideShift(env, k, v, Assigned(lines[1..]));
        } else {
          assert env + map[] == env;
        }
    }
  }

  lemma OverrideShift(env: Env, k: string, v: string, m: map<string, string>)
    ensures env[k := v] + m == env + (map[k := v] + m)
  {
  }

  /** Each script loads the env file when it is imported, so one process
      loads it several times; loading it again changes nothing. */
  lemma LoadEnvIdempotent(env: Env, file: Option<seq<string>>)
    ensures LoadEnv(LoadEnv(env, file), file) == LoadEnv(env, file)
  {
    if file.Some? {
      var a := Assigned(file.value);
      LoadOverrides(env, file.value);
      LoadOverrides(env + a, file.value);
      assert env + a + a == env + a;
    }
  }

  /** Malformed lines, blank lines and comments change nothing. */
  lemma NonAssignmentsIgnored(env: Env, lines: seq<string>, raw: string)
    requires !ClassifyLine(raw).Assignment?
    ensures LoadLines(env, [raw] + lines) == LoadLines(env, lines)
  {
    assert ([raw] + lines)[1..] == lines;
  }

  // One small lemma per worked example keeps each evaluation cheap.

  lemma CommentSkipped()
    ensures ClassifyLine("# note") == Skipped
  {
    VisibleNotSpace('#');
    VisibleNotSpace('e');
    StripUnchanged("# note");
  }

  lemma BlankSkipped()
    ensures ClassifyLine("   ") == Skipped
  {
    assert "   "[1..] == "  " && "  "[1..] == " " && " "[1..] == "";
  }

  lemma MissingEqualsMalformed()
    ensures ClassifyLine("NO_EQUALS") == Malformed
  {
    VisibleNotSpace('N');
    VisibleNotSpace('S');
    StripUnchanged("NO_EQUALS");
    assert '=' !in "NO_EQUALS";
  }

  lemma QuotedLineStrips()
    ensures Strip(" A = \"x=y\" ") == "A = \"x=y\""
  {
    var line := "A = \"x=y\"";
    assert " A = \"x=y\" "[1..] == line + " ";
    assert (line + " ")[..|line|] == line;
    StripUnchanged(line);
  }

  lemma QuotedValueStrips()
    ensures Unquote(Strip(" \"x=y\"")) == "x=y"
  {
    assert " \"x=y\""[1..] == "\"x=y\"";
    StripUnchanged("\"x=y\"");
    assert "\"x=y\""[1..4] == "x=y";
  }

  /** Only the first `=` splits; the quotes around the value go. */
  lemma QuotedValueWithEquals()
    ensures ClassifyLine(" A = \"x=y\" ") == Assignment("A", "x=y")
  {
    var line := "A = \"x=y\"";
    QuotedLineStrips();
    assert line[2] == '=' && '=' !in line[..2];
    assert IndexOf(line, '=') == 2;
    assert line[..2] == "A ";
    assert Strip("A ") == "A" by {
      assert "A "[..1] == "A";
      StripUnchanged("A");
    }
    assert line[3..] == " \"x=y\"";
    QuotedValueStrips();
  }

  /** The worked examples of the line format together. */
  lemma LineExamples()
    ensures ClassifyLine("# note") == Skipped
    ensures ClassifyLine("   ") == Skipped
    ensures ClassifyLine("NO_EQUALS") == Malformed
    ensures ClassifyLine(" A = \"x=y\" ") == Assignment("A", "x=y")
  {
    CommentSkipped();
    BlankSkipped();
    MissingEqualsMalformed();
    QuotedValueWithEquals();
  }
}
