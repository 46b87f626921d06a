/**
 * The `.env.local` loader: one `KEY=VALUE` line parser (src/lib/env.ts
 * lines 21-29, repeated verbatim as `loadEnv` in the four AI route files),
 * and its two wrappers: `ensureEnvLoaded`, which skips loading in
 * production, when `DATABASE_URL` is set or when `ANTHROPIC_API_KEY` is
 * already set, and the routes' `loadEnv`, which always loads. The file's
 * contents are an input: absent when the file does not exist.
 */
module Env {
  import opened Wrappers
  import opened Strings
  import opened Http

  /** One assignment a line of the file makes. */
  datatype EnvEntry = EnvEntry(key: string, value: string)

  /** The loop body for one line: trim it; skip it when blank or a `#`
      comment; otherwise split it at `=`, and assign when the first piece
      (the key) is not empty and at least one `=` was present, the value
      being the remaining pieces joined again with `=`. */
  function ParseLine(line: string): Option<EnvEntry>
  {
    var trimmed := Trim(line);
    if trimmed == "" || StartsWith(trimmed, "#") then None
    else
      var parts := SplitWhere(trimmed, IsEqualsSign);
      if parts[0] != "" && |parts| > 1 then Some(EnvEntry(parts[0], Join(parts[1..], "="))) else None
  }

  /** The same line described with `indexOf`: the key is the trimmed text
      before the first `=`, the value everything after it. */
  function ParseLineByIndex(line: string): Option<EnvEntry>
  {
    var t := Trim(line);
    if t == "" || t[0] == '#' then None
    else
      match Find(t, "=", 0)
      case None => None
      case Some(i) => if i == 0 then None else Some(EnvEntry(t[..i], t[i + 1..]))
  }

  lemma OccursEquals(t: string, k: nat)
    ensures OccursAt(t, "=", k) <==> k < |t| && t[k] == '='
  {
    if k < |t| {
      assert t[k..k + 1] == [t[k]];
    }
  }

  /** The split-and-join parse is the `indexOf` parse. */
  lemma ParseLineIsByIndex(line: string)
    ensures ParseLine(line) == ParseLineByIndex(line)
  {
    var t := Trim(line);
    if t != "" {
      assert StartsWith(t, "#") <==> t[0] == '#' by {
        assert t[..1] == [t[0]];
      }
      if t[0] != '#' {
        match Find(t, "=", 0)
        case None =>
          forall i | 0 <= i < |t| ensures !IsEqualsSign(t[i]) {
            OccursEquals(t, i);
          }
          SplitNoSeparator(t, IsEqualsSign);
        case Some(i) =>
          OccursEquals(t, i);
          forall k | 0 <= k < i ensures !IsEqualsSign(t[k]) {
            OccursEquals(t, k);
          }
          SplitAtFirst(t, IsEqualsSign, i);
          var rest := SplitWhere(t[i + 1..], IsEqualsSign);
          assert SplitWhere(t, IsEqualsSign)[1..] == rest;
          JoinSplit(t[i + 1..], '=', IsEqualsSign);
      }
    }
  }

  /** Blank lines and lines that start with `#` once trimmed assign nothing. */
  lemma CommentsAndBlanksIgnored(line: string)
    requires Trim(line) == "" || Trim(line)[0] == '#'
    ensures ParseLine(line) == None
  {
    ParseLineIsByIndex(line);
  }

  /** A line without `=`, or whose trimmed text starts with `=`, assigns nothing. */
  lemma NoKeyIgnored(line: string)
    requires (forall i :: 0 <= i < |Trim(line)| ==> Trim(line)[i] != '=') || (Trim(line) != "" && Trim(line)[0] == '=')
    ensures ParseLine(line) == None
  {
    ParseLineIsByIndex(line);
    var t := Trim(line);
    if Find(t, "=", 0).Some? {
      OccursEquals(t, Find(t, "=", 0).value);
    }
  }

  /** A trimmed line `K=REST`, `K` free of `=` and not starting with `#`,
      assigns exactly `REST` to `K`: later `=` signs stay in the value, an
      empty `REST` assigns `""`, and nothing in `K` is trimmed. */
  lemma KeyValueLine(line: string, key: string, rest: string)
    requires Trim(line) == key + "=" + rest
    requires key != "" && key[0] != '#'
    requires forall i :: 0 <= i < |key| ==> key[i] != '='
    ensures ParseLine(line) == Some(EnvEntry(key, rest))
  {
    var t := Trim(line);
    ParseLineIsByIndex(line);
    OccursEquals(t, |key|);
    forall k | 0 <= k < |key| ensures !OccursAt(t, "=", k) {
      OccursEquals(t, k);
    }
    FindFirst(t, "=", 0, |key|);
    assert t[..|key|] == key;
    assert t[|key| + 1..] == rest;
  }

  /** Example: in `A = b` the key keeps its trailing space and the value its leading one. */
  lemma SpacedKeyExample()
    ensures ParseLine("A = b") == Some(EnvEntry("A ", " b"))
  {
    assert "A = b" == "A " + "=" + " b";
    TrimOfTrimmed("A = b");
    KeyValueLine("A = b", "A ", " b");
  }

  /** One line's effect on the variables. */
  function ApplyLine(vars: map<string, string>, line: string): map<string, string> {
    match ParseLine(line)
    case None => vars
    case Some(e) => vars[e.key := e.value]
  }

  /** The variables after the loop has visited `lines` in order. */
  function ApplyLines(vars: map<string, string>, lines: seq<string>): map<string, string> {
    if lines == [] then vars
    else ApplyLine(ApplyLines(vars, lines[..|lines| - 1]), lines[|lines| - 1])
  }

  /** `content.split("\n")`. */
  function FileLines(content: string): seq<string> {
    SplitWhere(content, IsNewline)
  }

  /** The value the last line assigning `key` gives it, if any line does. */
  function LastAssigned(lines: seq<string>, key: string): Option<string> {
    if lines == [] then None
    else
      var e := ParseLine(lines[|lines| - 1]);
      if e.Some? && e.value.key == key then Some(e.value.value) else LastAssigned(lines[..|lines| - 1], key)
  }

  /** Later lines override earlier ones, and a variable that no line assigns
      keeps its value (or stays absent). */
  lemma {:induction false} ApplyLinesLookup(vars: map<string, string>, lines: seq<string>, key: string)
    ensures key in ApplyLines(vars, lines) <==> LastAssigned(lines, key).Some? || key in vars
    ensures LastAssigned(lines, key).Some? ==> ApplyLines(vars, lines)[key] == LastAssigned(lines, key).value
    ensures LastAssigned(lines, key).None? && key in vars ==> ApplyLines(vars, lines)[key] == vars[key]
  {
    if lines != [] {
      ApplyLinesLookup(vars, lines[..|lines| - 1], key);
    }
  }

  /** Only the keys some line assigns can change. */
  lemma {:induction false} ApplyLinesKeys(vars: map<string, string>, lines: seq<string>)
    ensures vars.Keys <= ApplyLines(vars, lines).Keys
    ensures forall k :: k in ApplyLines(vars, lines) && LastAssigned(lines, k).None? ==> k in vars && ApplyLines(vars, lines)[k] == vars[k]
  {
    forall k | k in ApplyLines(vars, lines) && LastAssigned(lines, k).None?
      ensures k in vars && ApplyLines(vars, lines)[k] == vars[k]
    {
      ApplyLinesLookup(vars, lines, k);
    }
    forall k | k in vars ensures k in ApplyLines(vars, lines) {
      ApplyLinesLookup(vars, lines, k);
    }
  }

  /** Lines that each assign nothing leave the variables as they were. */
  lemma {:induction false} IgnoredLines(vars: map<string, string>, lines: seq<string>)
    requires forall i :: 0 <= i < |lines| ==> ParseLine(lines[i]) == None
    ensures ApplyLines(vars, lines) == vars
  {
    if lines != [] {
      IgnoredLines(vars, lines[..|lines| - 1]);
    }
  }

  /** Loading the same file again changes nothing: each of the four route
      modules loads it once, in whatever order they are imported. */
  lemma ApplyLinesTwice(vars: map<string, string>, lines: seq<string>)
    ensures ApplyLines(ApplyLines(vars, lines), lines) == ApplyLines(vars, lines)
  {
    var once := ApplyLines(vars, lines);
    var twice := ApplyLines(once, lines);
    forall k | k in twice || k in once
      ensures k in twice && k in once && twice[k] == once[k]
    {
      ApplyLinesLookup(vars, lines, k);
      ApplyLinesLookup(once, lines, k);
    }
  }

  /** The variables that make `ensureEnvLoaded` return before reading the file. */
  predicate SkipsLoading(vars: map<string, string>) {
    || ("NODE_ENV" in vars && vars["NODE_ENV"] == "production")
    || EnvSet(vars, "DATABASE_URL")
    || EnvSet(vars, "ANTHROPIC_API_KEY")
  }

  /** `process.env`, as the loaders change it. */
  class Environment {
    var vars: map<string, string>

    constructor(vars: map<string, string>)
      ensures this.vars == vars
    {
      this.vars := vars;
    }

    /** The `for (const line of ...)` loop. */
    method LoadLines(lines: seq<string>)
      modifies this
      ensures vars == ApplyLines(old(vars), lines)
    {
      var i := 0;
      while i < |lines|
        invariant 0 <= i <= |lines|
        invariant vars == ApplyLines(old(vars), lines[..i])
      {
        var entry := ParseLine(lines[i]);
        assert lines[..i + 1][..i] == lines[..i];
        if entry.Some? {
          vars := vars[entry.value.key := entry.value.value];
        }
        i := i + 1;
      }
      assert lines[..i] == lines;
    }

    /** The routes' `loadEnv`: load the file whenever it exists. */
    method LoadEnv(file: Option<string>)
      modifies this
      ensures file.None? ==> vars == old(vars)
      ensures file.Some? ==> vars == ApplyLines(old(vars), FileLines(file.value))
    {
      if file.Some? {
        LoadLines(FileLines(file.value));
      }
    }

    /** `ensureEnvLoaded`: nothing changes in production, when `DATABASE_URL`
        is set or when `ANTHROPIC_API_KEY` is already set; otherwise the
        file is loaded exactly as `loadEnv` loads it. */
    method EnsureEnvLoaded(file: Option<string>)
      modifies this
      ensures SkipsLoading(old(vars)) || file.None? ==> vars == old(vars)
      ensures !SkipsLoading(old(vars)) && file.Some? ==> vars == ApplyLines(old(vars), FileLines(file.value))
    {
      if ("NODE_ENV" in vars && vars["NODE_ENV"] == "production") || EnvSet(vars, "DATABASE_URL") {
        return;
      }
      if EnvSet(vars, "ANTHROPIC_API_KEY") {
        return;
      }
      LoadEnv(file);
    }
  }
}
