/**
 * Configuration (config.py:6-29, and the older copy in grabEmails.py:25-47).
 * The secrets file holds `KEY=value` lines; the environment supplies the IMAP
 * server, the subject keywords, the folder switch and, in the older copy, the
 * output folder. Both sources are inputs: the secrets file as its text (or
 * `None` when it cannot be opened), the environment as a map.
 */
module Config {
  import opened Optional
  import opened Text

  const DefaultImapServer: string := "imap.gmail.com"
  const DefaultOutputFolder: string := "/downloads"

  datatype Config = Config(
    email: string,
    appPassword: string,
    imapServer: string,
    senderFilter: string,
    subjectKeywords: seq<string>,
    outputFolder: string,
    autoMakeFolders: bool)

  // ---------------------------------------------------------------------
  // The secrets file

  /** The line is used when it holds `=` anywhere. */
  predicate IsAssignment(line: string)
  {
    '=' in line
  }

  /** `key, val = line.strip().split("=", 1)`: the key part. */
  function KeyOf(line: string): string
  {
    BeforeFirst(Strip(line), '=')
  }

  /** The value part: everything after the first `=` of the stripped line. */
  function ValueOf(line: string): string
    requires IsAssignment(line)
  {
    var t := Strip(line);
    StripKeepsChar(line, '=');
    t[|KeyOf(line)| + 1..]
  }

  /** A character that is not whitespace survives stripping. */
  lemma StripKeepsChar(s: string, c: char)
    requires c in s && !IsSpace(c)
    ensures c in Strip(s)
    ensures |BeforeFirst(Strip(s), c)| < |Strip(s)|
  {
    var i :| 0 <= i < |s| && s[i] == c;
    StripIsFactor(s);
    var a, b :| 0 <= a <= b <= |s| && Strip(s) == s[a..b] && AllSpace(s[..a]) && AllSpace(s[b..]);
    assert forall j :: 0 <= j < a ==> s[..a][j] == s[j];
    assert forall j :: b <= j < |s| ==> s[b..][j - b] == s[j];
    assert a <= i < b;
    assert Strip(s)[i - a] == c;
  }

  /** One step of the loop: an assignment line sets its key. */
  function Assign(m: map<string, string>, line: string): map<string, string>
  {
    if IsAssignment(line) then m[KeyOf(line) := ValueOf(line)] else m
  }

  /** The dictionary the loop builds: later lines overwrite earlier ones. */
  function SecretsOf(lines: seq<string>): map<string, string>
  {
    if lines == [] then map[]
    else Assign(SecretsOf(lines[..|lines| - 1]), lines[|lines| - 1])
  }

  /** `load_env_secrets()`: the secrets of the file, none when it cannot be opened. */
  method LoadEnvSecrets(file: Option<string>) returns (result: map<string, string>)
    ensures file.None? ==> result == map[]
    ensures file.Some? ==> result == SecretsOf(Lines(file.value))
  {
    result := map[];
    if file.None? {
      return;
    }
    var lines := Lines(file.value);
    var i := 0;
    while i < |lines|
      invariant 0 <= i <= |lines|
      invariant result == SecretsOf(lines[..i])
    {
      var line := lines[i];
      assert lines[..i + 1][..i] == lines[..i];
      if '=' in line {
        result := result[KeyOf(line) := ValueOf(line)];
      }
      assert result == Assign(SecretsOf(lines[..i]), line);
      i := i + 1;
    }
    assert lines[..i] == lines;
  }

  lemma SecretsSnoc(lines: seq<string>, line: string)
    ensures SecretsOf(lines + [line]) == Assign(SecretsOf(lines), line)
  {
    assert (lines + [line])[..|lines|] == lines;
  }

  /** A key is defined exactly when some assignment line has it. */
  lemma {:induction false} SecretsDomain(lines: seq<string>, k: string)
    ensures k in SecretsOf(lines) <==> exists i :: 0 <= i < |lines| && IsAssignment(lines[i]) && KeyOf(lines[i]) == k
    decreases |lines|
  {
    if lines != [] {
      var init := lines[..|lines| - 1];
      assert forall i :: 0 <= i < |init| ==> init[i] == lines[i];
      SecretsDomain(init, k);
    }
  }

  /** The value of a key is the one on the last assignment line that has the key: later lines overwrite earlier ones. */
  lemma {:induction false} SecretsLastWins(lines: seq<string>, k: string, i: nat)
    requires i < |lines| && IsAssignment(lines[i]) && KeyOf(lines[i]) == k
    requires forall j :: i < j < |lines| && IsAssignment(lines[j]) ==> KeyOf(lines[j]) != k
    ensures k in SecretsOf(lines) && SecretsOf(lines)[k] == ValueOf(lines[i])
    decreases |lines|
  {
    var init := lines[..|lines| - 1];
    if i < |lines| - 1 {
      assert forall j :: 0 <= j < |init| ==> init[j] == lines[j];
      SecretsLastWins(init, k, i);
    }
  }

  /** The stripped form of `key=value` when the key has no whitespace. */
  lemma StripAssignment(key: string, value: string)
    requires key != "" && NoSpace(key)
    ensures Strip(key + "=" + value) == key + "=" + TrimEnd(value)
  {
    assert key + "=" + value == key + ("=" + value);
    StripLeadingWord(key, "=" + value);
    TrimEndAfterWord("=", value);
  }

  /** The line `key=value` assigns the value, trimmed at the end, to the key. */
  lemma ReadAssignment(key: string, value: string)
    requires key != "" && NoSpace(key) && '=' !in key
    ensures IsAssignment(key + "=" + value)
    ensures KeyOf(key + "=" + value) == key && ValueOf(key + "=" + value) == TrimEnd(value)
  {
    var line := key + "=" + value;
    assert line[|key|] == '=';
    StripAssignment(key, value);
    var t := key + "=" + TrimEnd(value);
    assert t == key + ("=" + TrimEnd(value));
    BeforeFirstAfterPrefix(key, "=" + TrimEnd(value), '=');
    assert CharEnd("=" + TrimEnd(value), '=', 0) == 0;
  }

  lemma AssignmentNoBreaks(key: string, value: string)
    requires NoSpace(key) && NoBreaks(value)
    ensures NoBreaks(key + "=" + value)
  {
    var line := key + "=" + value;
    forall i | 0 <= i < |line| ensures !IsBreak(line[i]) {
      if i < |key| {
        assert line[i] == key[i];
      } else if i > |key| {
        assert line[i] == value[i - |key| - 1];
      }
    }
  }

  /** Appending a `key=value` line to well-terminated text sets that key, to the value trimmed at the end, and leaves every other key alone. */
  lemma AppendSecret(text: string, key: string, value: string)
    requires WellTerminated(text)
    requires key != "" && NoSpace(key) && '=' !in key && NoBreaks(value)
    ensures SecretsOf(Lines(text + (key + "=" + value + "\n"))) == SecretsOf(Lines(text))[key := TrimEnd(value)]
  {
    var line := key + "=" + value;
    AssignmentNoBreaks(key, value);
    LinesAppend(text, line);
    SecretsSnoc(Lines(text), line);
    ReadAssignment(key, value);
  }

  // ---------------------------------------------------------------------
  // The environment

  /** `os.environ.get(key, default)`. */
  function EnvGet(env: map<string, string>, key: string, default: string): string
  {
    if key in env then env[key] else default
  }

  /** `os.environ.get(key, "false").lower() == "true"`. */
  function EnvFlag(env: map<string, string>, key: string): (b: bool)
    ensures key !in env ==> !b
    ensures key in env ==> (b <==> Lower(env[key]) == "true")
  {
    Lower(EnvGet(env, key, "false")) == "true"
  }

  /** The keyword list: comma-separated pieces, stripped, lowercased, blanks dropped. */
  function KeywordsOf(pieces: seq<string>): seq<string>
  {
    if pieces == [] then []
    else (if Strip(pieces[0]) != "" then [Lower(Strip(pieces[0]))] else []) + KeywordsOf(pieces[1..])
  }

  function Keywords(raw: string): seq<string>
  {
    KeywordsOf(Split(raw, ','))
  }

  /** What a normalised keyword looks like. */
  predicate IsKeyword(k: string)
  {
    k != "" && IsLower(k) && ',' !in k && Strip(k) == k
  }

  /** Lowercasing keeps every character's whitespace status. */
  lemma LowerKeepsSpace(s: string)
    ensures forall i :: 0 <= i < |s| ==> (IsSpace(Lower(s)[i]) <==> IsSpace(s[i]))
  {
  }

  /** A non-blank comma-free piece gives a normalised keyword. */
  lemma PieceKeyword(p: string)
    requires ',' !in p && Strip(p) != ""
    ensures IsKeyword(Lower(Strip(p)))
  {
    var t := Strip(p);
    StripBounds(p);
    assert ',' !in t by {
      var a := SkipSpace(p, 0);
      assert forall i :: 0 <= i < |t| ==> t[i] == p[a + i];
    }
    LowerNormal(t);
  }

  /** Lowercasing one character keeps it out of `A`-`Z`, keeps commas and non-commas apart, and keeps whitespace. */
  lemma LowerCharFacts(c: char)
    ensures !('A' <= LowerChar(c) <= 'Z')
    ensures LowerChar(c) == ',' <==> c == ','
    ensures IsSpace(LowerChar(c)) <==> IsSpace(c)
  {
  }

  /** Lowercasing a stripped, comma-free word gives a normalised keyword. */
  lemma LowerNormal(t: string)
    requires t != "" && !IsSpace(t[0]) && !IsSpace(t[|t| - 1]) && ',' !in t
    ensures IsKeyword(Lower(t))
  {
    var k := Lower(t);
    forall i | 0 <= i < |k|
      ensures !('A' <= k[i] <= 'Z') && k[i] != ',' && (IsSpace(k[i]) <==> IsSpace(t[i]))
    {
      assert t[i] != ',';
      LowerCharFacts(t[i]);
    }
    assert IsLower(k) && ',' !in k;
    StripTight(k);
  }

  /** Every piece that survives is a normalised keyword. */
  lemma {:induction false} KeywordsNormalised(pieces: seq<string>)
    requires forall i :: 0 <= i < |pieces| ==> ',' !in pieces[i]
    ensures forall k :: k in KeywordsOf(pieces) ==> IsKeyword(k)
    decreases |pieces|
  {
    if pieces != [] {
      if Strip(pieces[0]) != "" {
        PieceKeyword(pieces[0]);
      }
      assert forall i :: 0 <= i < |pieces| - 1 ==> pieces[1..][i] == pieces[i + 1];
      KeywordsNormalised(pieces[1..]);
    }
  }

  /** The keywords are normalised: non-empty, lowercase, comma-free and stripped. */
  lemma KeywordsWellFormed(raw: string)
    ensures forall k :: k in Keywords(raw) ==> IsKeyword(k)
  {
    KeywordsNormalised(Split(raw, ','));
  }

  /** Lowercasing lowercase text changes nothing. */
  lemma LowerOfLower(s: string)
    requires IsLower(s)
    ensures Lower(s) == s
  {
  }

  /** Normalised keywords written out comma-separated read back as the same list. */
  lemma {:induction false} KeywordsRoundTrip(ks: seq<string>)
    requires forall i :: 0 <= i < |ks| ==> IsKeyword(ks[i])
    ensures ks != [] ==> Keywords(Join(ks, ',')) == ks
  {
    if ks != [] {
      SplitJoin(ks, ',');
      KeywordsOfNormal(ks);
    }
  }

  lemma {:induction false} KeywordsOfNormal(ks: seq<string>)
    requires forall i :: 0 <= i < |ks| ==> IsKeyword(ks[i])
    ensures KeywordsOf(ks) == ks
    decreases |ks|
  {
    if ks != [] {
      LowerOfLower(ks[0]);
      assert forall i :: 0 <= i < |ks| - 1 ==> ks[1..][i] == ks[i + 1];
      KeywordsOfNormal(ks[1..]);
    }
  }

  /** Without the variable there are no keywords. */
  lemma KeywordsOfNothing()
    ensures Keywords("") == []
  {
    assert CharEnd("", ',', 0) == 0;
    assert Split("", ',') == [""];
    assert Strip("") == "";
    assert [""][1..] == [];
  }

  /** `subject_keywords`: from `SUBJECT_KEYWORDS`, none when it is unset. */
  function SubjectKeywords(env: map<string, string>): (ks: seq<string>)
    ensures "SUBJECT_KEYWORDS" !in env ==> ks == []
  {
    KeywordsOfNothing();
    Keywords(EnvGet(env, "SUBJECT_KEYWORDS", ""))
  }

  /** `get_config()` of config.py. */
  function GetConfig(secrets: map<string, string>, env: map<string, string>): (c: Config)
    ensures "EMAIL" in secrets ==> c.email == secrets["EMAIL"]
    ensures "EMAIL" !in secrets ==> c.email == ""
    ensures "APP_PASSWORD" in secrets ==> c.appPassword == secrets["APP_PASSWORD"]
    ensures "APP_PASSWORD" !in secrets ==> c.appPassword == ""
    ensures "SENDER_FILTER" in secrets ==> c.senderFilter == secrets["SENDER_FILTER"]
    ensures "SENDER_FILTER" !in secrets ==> c.senderFilter == ""
    ensures "IMAP_SERVER" in env ==> c.imapServer == env["IMAP_SERVER"]
    ensures "IMAP_SERVER" !in env ==> c.imapServer == DefaultImapServer
    ensures "SUBJECT_KEYWORDS" in env ==> c.subjectKeywords == Keywords(env["SUBJECT_KEYWORDS"])
    ensures "SUBJECT_KEYWORDS" !in env ==> c.subjectKeywords == []
    ensures forall k :: k in c.subjectKeywords ==> IsKeyword(k)
    ensures c.outputFolder == DefaultOutputFolder
    ensures "AUTO_MAKE_FOLDERS" in env ==> (c.autoMakeFolders <==> Lower(env["AUTO_MAKE_FOLDERS"]) == "true")
    ensures "AUTO_MAKE_FOLDERS" !in env ==> !c.autoMakeFolders
  {
    KeywordsWellFormed(EnvGet(env, "SUBJECT_KEYWORDS", ""));
    Config(
      EnvGet(secrets, "EMAIL", ""),
      EnvGet(secrets, "APP_PASSWORD", ""),
      EnvGet(env, "IMAP_SERVER", DefaultImapServer),
      EnvGet(secrets, "SENDER_FILTER", ""),
      SubjectKeywords(env),
      DefaultOutputFolder,
      EnvFlag(env, "AUTO_MAKE_FOLDERS"))
  }

  /** `get_config()` of grabEmails.py: the output folder comes from the environment and there are no per-sender folders. */
  function LegacyGetConfig(secrets: map<string, string>, env: map<string, string>): (c: Config)
    ensures !c.autoMakeFolders
    ensures "OUTPUT_FOLDER" in env ==> c.outputFolder == env["OUTPUT_FOLDER"]
    ensures "OUTPUT_FOLDER" !in env ==> c.outputFolder == DefaultOutputFolder
    ensures c.(outputFolder := DefaultOutputFolder, autoMakeFolders := false)
            == GetConfig(secrets, env).(autoMakeFolders := false)
  {
    GetConfig(secrets, env).(outputFolder := EnvGet(env, "OUTPUT_FOLDER", DefaultOutputFolder), autoMakeFolders := false)
  }
}
