/**
 * The PM2 ecosystem file's environment handling: `loadEnvFile` reads
 * `KEY=VALUE` lines of a `.env` file into a dictionary, `getEnvConfig`
 * layers `.env.<name>` over `.env` and fixes `NODE_ENV`, and each of the
 * three environment blocks adds its `SERVICE_PORT` default. A file is given
 * by its content, `None` when it does not exist.
 */
module EcosystemConfig {
  import opened Wrappers
  import opened Text
  import opened Entries

  /** `v.slice(1, -1)` when `v` starts and ends with the same quote, `"` or `'`. */
  function Unquote(v: string): (r: string)
    ensures |v| >= 2 && v[0] == v[|v| - 1] && (v[0] == '"' || v[0] == '\'') ==> r == v[1..|v| - 1]
    ensures |v| == 1 && (v[0] == '"' || v[0] == '\'') ==> r == ""
    ensures !(|v| > 0 && (v[0] == '"' || v[0] == '\'') && v[0] == v[|v| - 1]) ==> r == v
  {
    if |v| > 0 && ((v[0] == '"' && v[|v| - 1] == '"') || (v[0] == '\'' && v[|v| - 1] == '\'')) then
      if |v| == 1 then "" else v[1..|v| - 1]
    else v
  }

  /** The trimmed line matches `/^([^=]+)=(.*)$/`: text before the first `=`,
      and after it nothing that `.` refuses to match (a line terminator). */
  predicate IsAssignment(t: string)
  {
    '=' in t && IndexOf(t, '=') >= 1 &&
    forall k :: IndexOf(t, '=') < k < |t| ==> !IsLineTerminator(t[k])
  }

  /** The line, once trimmed, is neither blank nor a `#` comment, and is an assignment. */
  predicate IsEntryLine(line: string)
  {
    var t := Trim(line);
    t != "" && t[0] != '#' && IsAssignment(t)
  }

  /** The trimmed text before the first `=`. */
  function EnvKey(line: string): string
    requires IsEntryLine(line)
  {
    var t := Trim(line);
    Trim(t[..IndexOf(t, '=')])
  }

  /** The trimmed, unquoted text after the first `=`. */
  function EnvValue(line: string): string
    requires IsEntryLine(line)
  {
    var t := Trim(line);
    Unquote(Trim(t[IndexOf(t, '=') + 1..]))
  }

  /** One line of a `.env` file: skipped when blank or a `#` comment,
      otherwise its key and value. */
  function EnvLine(line: string): (r: Option<(string, string)>)
  {
    if IsEntryLine(line) then Some((EnvKey(line), EnvValue(line))) else None
  }

  /** What `loadEnvFile` returns for a file with the given content, or for a
      missing file. */
  function EnvEntries(file: Option<string>): map<string, string>
  {
    match file
    case None => map[]
    case Some(content) => Collect(Split(content, "\n"), EnvLine)
  }

  /** `loadEnvFile(envFile)`. */
  method LoadEnvFile(file: Option<string>) returns (env: map<string, string>)
    ensures env == EnvEntries(file)
  {
    env := map[];
    if file.None? {
      return;
    }
    var lines := Split(file.value, "\n");
    assert EnvEntries(file) == Collect(lines, EnvLine);
    var i := 0;
    while i < |lines|
      invariant 0 <= i <= |lines|
      invariant env == Collect(lines[..i], EnvLine)
    {
      EnvSnoc(lines, i);
      var entry := ParseLine(lines[i]);
      if entry.Some? {
        env := env[entry.value.0 := entry.value.1];
      }
      i := i + 1;
    }
    assert lines[..|lines|] == lines;
  }

  /** The body of `loadEnvFile`'s loop for one line: `None` for a line it
      skips, else the key and value it writes. */
  method ParseLine(line: string) returns (entry: Option<(string, string)>)
    ensures entry == EnvLine(line)
  {
    var t := Trim(line);
    if t == "" || t[0] == '#' {
      EnvLineSkipped(line);
      return None;
    }
    if IsAssignment(t) {
      var eq := IndexOf(t, '=');
      var key := Trim(t[..eq]);
      var value := Trim(t[eq + 1..]);
      value := Unquote(value);
      EnvLineAssignment(line, t, eq);
      return Some((key, value));
    }
    EnvLineSkipped(line);
    return None;
  }

  /** A line `loadEnvFile` skips. */
  lemma EnvLineSkipped(line: string)
    requires var t := Trim(line); t == "" || t[0] == '#' || !IsAssignment(t)
    ensures EnvLine(line) == None
  {
  }

  /** A line `loadEnvFile` writes, in the terms of its loop body. */
  lemma EnvLineAssignment(line: string, t: string, eq: nat)
    requires t == Trim(line) && t != "" && t[0] != '#' && IsAssignment(t) && eq == IndexOf(t, '=')
    ensures EnvLine(line) == Some((Trim(t[..eq]), Unquote(Trim(t[eq + 1..]))))
  {
    assert IsEntryLine(line);
    assert EnvKey(line) == Trim(t[..eq]);
    assert EnvValue(line) == Unquote(Trim(t[eq + 1..]));
  }

  /** One more line of the file, in the terms of `loadEnvFile`'s loop. */
  lemma EnvSnoc(lines: seq<string>, i: int)
    requires 0 <= i < |lines|
    ensures Collect(lines[..i + 1], EnvLine) ==
      if IsEntryLine(lines[i]) then Collect(lines[..i], EnvLine)[EnvKey(lines[i]) := EnvValue(lines[i])]
      else Collect(lines[..i], EnvLine)
  {
    var prefix := lines[..i];
    assert lines[..i + 1] == prefix + [lines[i]];
    CollectSnoc(prefix, EnvLine, lines[i]);
    if IsEntryLine(lines[i]) {
      assert EnvLine(lines[i]) == Some((EnvKey(lines[i]), EnvValue(lines[i])));
    } else {
      assert EnvLine(lines[i]) == None;
    }
  }

  const NodeEnv := "NODE_ENV"

  /** `getEnvConfig(envName)` given the contents of `.env` and `.env.<envName>`:
      the specific file's keys win over the default file's, and `NODE_ENV`
      is the environment name whatever the files say. */
  method GetEnvConfig(envName: string, defaultFile: Option<string>, envFile: Option<string>)
    returns (env: map<string, string>)
    ensures env.Keys == EnvEntries(defaultFile).Keys + EnvEntries(envFile).Keys + {NodeEnv}
    ensures env[NodeEnv] == envName
    ensures forall k :: k in EnvEntries(envFile) && k != NodeEnv ==> env[k] == EnvEntries(envFile)[k]
    ensures forall k :: k in EnvEntries(defaultFile) && k !in EnvEntries(envFile) && k != NodeEnv ==>
      env[k] == EnvEntries(defaultFile)[k]
  {
    env := map[];
    if defaultFile.Some? {
      var loaded := LoadEnvFile(defaultFile);
      env := env + loaded;
    }
    assert env == EnvEntries(defaultFile);
    if envFile.Some? {
      var loaded := LoadEnvFile(envFile);
      env := env + loaded;
    }
    assert env == EnvEntries(defaultFile) + EnvEntries(envFile);
    env := env[NodeEnv := envName];
    Layered(EnvEntries(defaultFile), EnvEntries(envFile), envName);
  }

  /** `{...base, ...specific}` with `NODE_ENV` set afterwards. */
  lemma Layered(base: map<string, string>, specific: map<string, string>, name: string)
    ensures var env := (base + specific)[NodeEnv := name];
      env.Keys == base.Keys + specific.Keys + {NodeEnv} && env[NodeEnv] == name &&
      (forall k :: k in specific && k != NodeEnv ==> env[k] == specific[k]) &&
      (forall k :: k in base && k !in specific && k != NodeEnv ==> env[k] == base[k])
  {
  }

  /** The three PM2 environments. */
  datatype Stage = Development | Test | Production

  function StageName(stage: Stage): string
  {
    match stage
    case Development => "development"
    case Test => "test"
    case Production => "production"
  }

  function DefaultServicePort(stage: Stage): string
  {
    match stage
    case Development => "3000"
    case Test => "3001"
    case Production => "3000"
  }

  /** `env`, `env_test` or `env_production`: the loaded variables, then
      `NODE_ENV`, `SERVICE_PORT` (the loaded one when non-empty, else the
      stage's default) and, for production, `instances` and `exec_mode`. */
  function EnvBlock(stage: Stage, loaded: map<string, string>): (block: map<string, string>)
    ensures block.Keys == loaded.Keys + {NodeEnv, "SERVICE_PORT"} +
      (if stage == Production then {"instances", "exec_mode"} else {})
    ensures NodeEnv in block && block[NodeEnv] == StageName(stage)
    ensures "SERVICE_PORT" in block && block["SERVICE_PORT"] ==
      if "SERVICE_PORT" in loaded && loaded["SERVICE_PORT"] != "" then loaded["SERVICE_PORT"] else DefaultServicePort(stage)
    ensures stage == Production ==>
      "instances" in block && block["instances"] == "max" && "exec_mode" in block && block["exec_mode"] == "cluster"
    ensures forall k :: (k in loaded && k != NodeEnv && k != "SERVICE_PORT" &&
      (stage == Production ==> k != "instances" && k != "exec_mode")) ==> block[k] == loaded[k]
  {
    var port := if "SERVICE_PORT" in loaded && loaded["SERVICE_PORT"] != "" then loaded["SERVICE_PORT"]
                else DefaultServicePort(stage);
    var common := loaded[NodeEnv := StageName(stage)]["SERVICE_PORT" := port];
    if stage == Production then common["instances" := "max"]["exec_mode" := "cluster"] else common
  }

  // Properties.

  /** A line yields an entry exactly when, once trimmed, it is not blank, not a
      comment, and has a non-empty text before its first `=` with no line
      terminator after it. The key is never empty and holds no `=`; the value
      may hold further `=`. */
  lemma EnvLineShape(line: string)
    ensures EnvLine(line).Some? <==> IsEntryLine(line)
    ensures IsEntryLine(line) ==> EnvKey(line) != "" && '=' !in EnvKey(line)
  {
    if IsEntryLine(line) {
      var t := Trim(line);
      var i := IndexOf(t, '=');
      TrimIsSlice(line);
      assert t[..i][0] == t[0];
      TrimKeepsFirst(t[..i]);
      TrimKeepsAbsence(t[..i], '=');
    }
  }

  /** A quoted value loses exactly its outer pair of matching quotes. */
  lemma UnquoteRemovesOnePair(x: string)
    ensures Unquote("\"" + x + "\"") == x && Unquote("'" + x + "'") == x
    ensures Unquote("\"\"" + x + "\"\"") == "\"" + x + "\""
  {
    assert ("\"" + x + "\"")[1..|x| + 1] == x;
    assert ("'" + x + "'")[1..|x| + 1] == x;
    assert ("\"\"" + x + "\"\"")[1..|x| + 3] == "\"" + x + "\"";
  }

  /** Mismatched or one-sided quotes are kept. */
  lemma UnquoteKeepsMismatched(x: string)
    ensures Unquote("\"" + x + "'") == "\"" + x + "'"
    ensures Unquote("'" + x + "\"") == "'" + x + "\""
  {
    assert ("\"" + x + "'")[|x| + 1] == '\'';
    assert ("'" + x + "\"")[|x| + 1] == '"';
  }

  /** Line `i` is an entry for `key`. */
  predicate AssignsKey(lines: seq<string>, i: int, key: string)
  {
    0 <= i < |lines| && IsEntryLine(lines[i]) && EnvKey(lines[i]) == key
  }

  /** A key is loaded exactly when some line is an entry for it. No key is empty. */
  lemma EnvKeys(lines: seq<string>, key: string)
    ensures key in Collect(lines, EnvLine) <==> exists i :: AssignsKey(lines, i, key)
    ensures "" !in Collect(lines, EnvLine)
  {
    CollectKeys(lines, EnvLine, key);
    if key in Collect(lines, EnvLine) {
      var i :| Defines(lines, EnvLine, i, key);
      assert AssignsKey(lines, i, key);
    }
    if exists i :: AssignsKey(lines, i, key) {
      var i :| AssignsKey(lines, i, key);
      assert Defines(lines, EnvLine, i, key);
    }
    CollectKeys(lines, EnvLine, "");
    if "" in Collect(lines, EnvLine) {
      var i :| Defines(lines, EnvLine, i, "");
      EnvLineShape(lines[i]);
    }
  }

  /** The value loaded for a key is the one on the last line that is an entry for it. */
  lemma EnvLastWins(lines: seq<string>, i: int)
    requires 0 <= i < |lines| && IsEntryLine(lines[i])
    requires forall j :: i < j < |lines| ==> !AssignsKey(lines, j, EnvKey(lines[i]))
    ensures EnvKey(lines[i]) in Collect(lines, EnvLine)
    ensures Collect(lines, EnvLine)[EnvKey(lines[i])] == EnvValue(lines[i])
  {
    var key := EnvKey(lines[i]);
    assert EnvLine(lines[i]).value.0 == key;
    forall j | i < j < |lines|
      ensures !Defines(lines, EnvLine, j, key)
    {
      assert !AssignsKey(lines, j, key);
    }
    CollectLastWins(lines, EnvLine, i);
  }

  /** A missing file and an empty one both load as nothing. */
  lemma MissingOrEmptyFile()
    ensures EnvEntries(None) == map[] && EnvEntries(Some("")) == map[]
  {
    assert Trim("") == "";
  }

  /** The three blocks of the file: each names its stage and falls back to
      its own port, 3000, 3001 and 3000. */
  lemma StageDefaults(loaded: map<string, string>)
    requires "SERVICE_PORT" !in loaded
    ensures EnvBlock(Development, loaded)["SERVICE_PORT"] == "3000"
    ensures EnvBlock(Test, loaded)["SERVICE_PORT"] == "3001"
    ensures EnvBlock(Production, loaded)["SERVICE_PORT"] == "3000"
    ensures EnvBlock(Test, loaded[NodeEnv := "production"])[NodeEnv] == "test"
  {
  }
}
