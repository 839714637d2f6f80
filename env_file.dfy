/**
 * The `KEY=value` settings file read by the Bluesky dashboard and the
 * auto-poster (bluesky/bsky-dashboard.py and bluesky/bsky-autoposter.py carry
 * the same `load_env`). The file's lines are a parameter; the calendar
 * checker reads the same file with its own line rule (module CalCheck) and
 * the same loop.
 */
module EnvFile {
  import opened Wrappers
  import opened PyStr

  type Env = map<string, string>

  /**
   * One line: after stripping it, a line with no '=' or starting with '#' is
   * skipped; otherwise it is split at the first '=', the key is stripped and
   * the value is stripped of white space, then of '"', then of '\''.
   */
  function ParseLine(line: string): (r: Option<(string, string)>)
    ensures r.None? <==> '=' !in Strip(line) || StartsWith(Strip(line), "#")
    ensures r.Some? ==> '=' !in r.value.0 && Strip(r.value.0) == r.value.0
  {
    var l := Strip(line);
    if '=' in l && !StartsWith(l, "#") then
      var kv := PartitionAt(l, '=');
      StripIdempotent(kv.0);
      StripSubset(kv.0);
      Some((Strip(kv.0), StripChar(StripChar(Strip(kv.1), '"'), '\'')))
    else
      None
  }

  /** How a value may be quoted in the file. */
  datatype Quote = Bare | Double | Single

  /** The value as it stands in the rendered line, quotes included. */
  function Quoted(value: string, q: Quote): string {
    match q
    case Bare => value
    case Double => "\"" + value + "\""
    case Single => "'" + value + "'"
  }

  /** The line `key=value`, with the value bare or in quotes. */
  function Render(key: string, value: string, q: Quote): string {
    key + "=" + Quoted(value, q)
  }

  /** A key the file can hold: already stripped, with no '=' and not starting like a comment. */
  predicate CleanKey(key: string) {
    Strip(key) == key && '=' !in key && !StartsWith(key, "#")
  }

  /** A value that survives the stripping: its ends are neither white space nor a quote. */
  predicate CleanValue(value: string) {
    value == [] || (value[0] !in "\"'" && value[|value| - 1] !in "\"'"
                    && !IsSpace(value[0]) && !IsSpace(value[|value| - 1]))
  }

  /** Stripping the quoted value of white space and then of each quote gives the value back. */
  lemma UnquoteQuoted(value: string, q: Quote)
    requires CleanValue(value)
    ensures var v := Quoted(value, q); StripChar(StripChar(Strip(v), '"'), '\'') == value
  {
    var v := Quoted(value, q);
    TrimFixed(v, IsSpace);
    match q
    case Bare =>
      TrimFixed(value, IsChar('"'));
      TrimFixed(value, IsChar('\''));
    case Double =>
      assert v == ['"'] + value + ['"'];
      TrimWrapped(value, '"', IsChar('"'));
      TrimFixed(value, IsChar('\''));
    case Single =>
      assert v == ['\''] + value + ['\''];
      TrimFixed(v, IsChar('"'));
      TrimWrapped(value, '\'', IsChar('\''));
  }

  /** A rendered entry reads back as the same key and value, whichever quoting was used. */
  lemma ParseRender(key: string, value: string, q: Quote)
    requires CleanKey(key) && CleanValue(value)
    ensures ParseLine(Render(key, value, q)) == Some((key, value))
  {
    var line := Render(key, value, q);
    var v := Quoted(value, q);
    assert line == key + ['='] + v;
    TrimShape(key, IsSpace);
    assert key == [] || !IsSpace(key[0]);
    assert line[0] == if key == [] then '=' else key[0];
    assert line[|line| - 1] == if v == [] then '=' else v[|v| - 1];
    TrimFixed(line, IsSpace);
    assert !StartsWith(line, "#") by {
      if key != [] { assert line[..1] == key[..1]; }
    }
    BeforeFirstOf(key, '=', v);
    assert PartitionAt(line, '=') == (key, v);
    UnquoteQuoted(value, q);
  }

  /** The settings after reading `lines` from the first to the last with the line rule `parse`. */
  function EnvOf(parse: string -> Option<(string, string)>, lines: seq<string>): Env
    decreases |lines|
  {
    if lines == [] then map[]
    else
      var env := EnvOf(parse, lines[..|lines| - 1]);
      match parse(lines[|lines| - 1])
      case None => env
      case Some(kv) => env[kv.0 := kv.1]
  }

  /** `line` sets `key` under the rule `parse`. */
  predicate Sets(parse: string -> Option<(string, string)>, line: string, key: string) {
    parse(line).Some? && parse(line).value.0 == key
  }

  /** `load_env`: fill the dictionary line by line. */
  method Load(parse: string -> Option<(string, string)>, lines: seq<string>) returns (env: Env)
    ensures env == EnvOf(parse, lines)
  {
    env := map[];
    for i := 0 to |lines|
      invariant env == EnvOf(parse, lines[..i])
    {
      assert lines[..i + 1][..i] == lines[..i];
      match parse(lines[i])
      case None =>
      case Some(kv) =>
        env := env[kv.0 := kv.1];
    }
    assert lines[..|lines|] == lines;
  }

  /** A key is set exactly when some line sets it. */
  lemma {:induction false} KeySetByALine(parse: string -> Option<(string, string)>, lines: seq<string>, key: string)
    ensures key in EnvOf(parse, lines) <==> exists i :: 0 <= i < |lines| && Sets(parse, lines[i], key)
    decreases |lines|
  {
    if lines != [] {
      var init := lines[..|lines| - 1];
      KeySetByALine(parse, init, key);
      if !Sets(parse, lines[|lines| - 1], key) && exists i :: 0 <= i < |lines| && Sets(parse, lines[i], key) {
        var i :| 0 <= i < |lines| && Sets(parse, lines[i], key);
        assert init[i] == lines[i];
      }
      if exists i :: 0 <= i < |init| && Sets(parse, init[i], key) {
        var i :| 0 <= i < |init| && Sets(parse, init[i], key);
        assert init[i] == lines[i];
      }
    }
  }

  /** A key that is set holds the value of the last line that sets it. */
  lemma {:induction false} LastLineWins(parse: string -> Option<(string, string)>, lines: seq<string>, key: string)
    requires key in EnvOf(parse, lines)
    ensures exists i :: 0 <= i < |lines| && parse(lines[i]) == Some((key, EnvOf(parse, lines)[key]))
                        && forall j :: i < j < |lines| ==> !Sets(parse, lines[j], key)
    decreases |lines|
  {
    var init := lines[..|lines| - 1];
    var last := |lines| - 1;
    if Sets(parse, lines[last], key) {
      assert parse(lines[last]) == Some((key, EnvOf(parse, lines)[key]));
    } else {
      LastLineWins(parse, init, key);
      var i :| 0 <= i < |init| && parse(init[i]) == Some((key, EnvOf(parse, init)[key]))
        && forall j :: i < j < |init| ==> !Sets(parse, init[j], key);
      assert parse(lines[i]) == Some((key, EnvOf(parse, lines)[key]));
      assert forall j :: i < j < |lines| ==> !Sets(parse, lines[j], key) by {
        forall j | i < j < |lines| ensures !Sets(parse, lines[j], key) {
          if j < last { assert init[j] == lines[j]; }
        }
      }
    }
  }

  /** The settings the dashboard and the auto-poster read. */
  function LoadEnv(lines: seq<string>): Env {
    EnvOf(ParseLine, lines)
  }
}
