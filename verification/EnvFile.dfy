/**
 The per-project env file: which secrets the writer accepts, the text it
 renders, and what three readers get back from that text.
 */
module EnvFile {
  import opened Common
  import opened Names
  import opened SqlText

  datatype Secret = Secret(name: string, database: string, user: string, password: string)

  // ---------------------------------------------------------------- acceptance

  predicate ValidateIdentifier(s: string) {
    1 <= |s| <= 64 && forall i :: 0 <= i < |s| ==> Letter(s[i]) || Digit(s[i]) || s[i] == '-' || s[i] == '_' || s[i] == '.'
  }

  predicate Accepts(s: Secret) {
    && s.name != "" && s.database != "" && s.user != "" && s.password != ""
    && ValidateIdentifier(s.name) && ValidateIdentifier(s.database) && ValidateIdentifier(s.user)
  }

  /** A file name of at most 64 characters, all from the portable set of POSIX, by their ASCII codes. */
  predicate PortableName(s: string) {
    1 <= |s| <= 64 && forall i :: 0 <= i < |s| ==>
      || 48 <= s[i] as int <= 57 || 65 <= s[i] as int <= 90 || 97 <= s[i] as int <= 122
      || s[i] as int == 45 || s[i] as int == 46 || s[i] as int == 95
  }

  /** The writer takes a secret exactly if it has a password and its three names are portable. */
  lemma AcceptedSecrets(s: Secret)
    ensures Accepts(s) <==>
      s.password != "" && PortableName(s.name) && PortableName(s.database) && PortableName(s.user)
  {
  }

  /** The writer takes the secret of a valid project exactly if it has a password and the name at most 59 characters. */
  lemma AcceptsUpTo59(name: string, password: string)
    requires ValidName(name)
    ensures ValidateIdentifier(name)
    ensures Accepts(Secret(name, DatabaseName(name), UserName(name), password)) <==> |name| <= 59 && password != ""
  {
    assert forall i :: 0 <= i < |name| ==> Allowed(name[i]);
    assert forall i :: 0 <= i < |name| ==> Leading(SafeName(name)[i]) || SafeName(name)[i] == '_';
  }

  // ---------------------------------------------------------------- rendering

  const SCHEME := "mysql://"
  const HOST := "127.0.0.1"
  const PORT := "3306"

  function DatabaseUrl(s: Secret): string {
    SCHEME + s.user + ":" + s.password + "@" + HOST + ":" + PORT + "/" + s.database
  }

  /** The assignments of the file, in order. */
  function Settings(s: Secret): seq<(string, string)> {
    [ ("DATABASE_URL", DatabaseUrl(s)),
      ("DB_HOST", HOST),
      ("DB_PORT", PORT),
      ("DB_NAME", s.database),
      ("DB_USER", s.user),
      ("DB_PASSWORD", s.password) ]
  }

  function Assignments(settings: seq<(string, string)>): (r: seq<string>)
    ensures |r| == |settings|
  {
    if settings == [] then [] else [settings[0].0 + "=" + settings[0].1] + Assignments(settings[1..])
  }

  // In pieces, because the verifier does not look into longer literals.
  const COMMENT0 := "# Auto-generated by " + "db-isolation. " + "Do not edit by hand."
  const COMMENT1 := "# Permissions: 0600. " + "Mode of access: " + "server-local only."

  function JoinLines(lines: seq<string>): string {
    if lines == [] then "" else lines[0] + "\n" + JoinLines(lines[1..])
  }

  function RenderEnv(s: Secret): string {
    COMMENT0 + "\n" + (COMMENT1 + "\n" + JoinLines(Assignments(Settings(s))))
  }

  // ---------------------------------------------------------------- a line reader

  /** The part before the first `c` and the part after it, or `None`. */
  function SplitFirst(s: string, c: char): (r: Option<(string, string)>)
    ensures r.None? <==> c !in s
    ensures r.Some? ==> c !in r.value.0 && s == r.value.0 + [c] + r.value.1
  {
    if s == "" then None
    else if s[0] == c then Some(("", s[1..]))
    else match SplitFirst(s[1..], c)
      case None => None
      case Some(p) => Some(([s[0]] + p.0, p.1))
  }

  lemma {:induction false} SplitFirstUnique(a: string, c: char, b: string)
    requires c !in a
    ensures SplitFirst(a + [c] + b, c) == Some((a, b))
  {
    var s := a + [c] + b;
    if a == "" {
      assert s[1..] == b;
    } else {
      assert s[1..] == a[1..] + [c] + b;
      SplitFirstUnique(a[1..], c, b);
      assert [a[0]] + a[1..] == a;
    }
  }

  /** The part before the last `c` and the part after it, or `None`. */
  function SplitLast(s: string, c: char): (r: Option<(string, string)>)
    ensures r.None? <==> c !in s
    ensures r.Some? ==> c !in r.value.1 && s == r.value.0 + [c] + r.value.1
  {
    if s == "" then None
    else if s[|s| - 1] == c then Some((s[..|s| - 1], ""))
    else match SplitLast(s[..|s| - 1], c)
      case None => None
      case Some(p) => Some((p.0, p.1 + [s[|s| - 1]]))
  }

  lemma {:induction false} SplitLastUnique(a: string, c: char, b: string)
    requires c !in b
    ensures SplitLast(a + [c] + b, c) == Some((a, b))
  {
    var s := a + [c] + b;
    if b == "" {
      assert s[..|s| - 1] == a;
    } else {
      assert s[..|s| - 1] == a + [c] + b[..|b| - 1];
      SplitLastUnique(a, c, b[..|b| - 1]);
      assert b[..|b| - 1] + [b[|b| - 1]] == b;
    }
  }

  /** Cuts a text into its newline-terminated lines; an unterminated rest is dropped. */
  function Lines(text: string): seq<string>
    decreases |text|
  {
    match SplitFirst(text, '\n')
    case None => []
    case Some(p) => [p.0] + Lines(p.1)
  }

  predicate Comment(line: string) {
    line != "" && line[0] == '#'
  }

  /** The value of the first line `key=value` that is not a comment. */
  function LookupKey(lines: seq<string>, key: string): Option<string> {
    if lines == [] then None
    else if Comment(lines[0]) then LookupKey(lines[1..], key)
    else match SplitFirst(lines[0], '=')
      case Some(p) => if p.0 == key then Some(p.1) else LookupKey(lines[1..], key)
      case None => LookupKey(lines[1..], key)
  }

  function ReadKey(text: string, key: string): Option<string> {
    LookupKey(Lines(text), key)
  }

  /** Text a secret may hold: nothing that ends a line. */
  predicate SingleLine(s: Secret) {
    '\n' !in s.database && '\n' !in s.user && '\n' !in s.password
  }

  /** The value of the first setting with that key. */
  function Find(settings: seq<(string, string)>, key: string): Option<string> {
    if settings == [] then None
    else if settings[0].0 == key then Some(settings[0].1)
    else Find(settings[1..], key)
  }

  predicate PlainSetting(p: (string, string)) {
    p.0 != "" && p.0[0] != '#' && '=' !in p.0 && '\n' !in p.0 && '\n' !in p.1
  }

  lemma {:induction false} AssignmentsRoundTrip(settings: seq<(string, string)>, key: string)
    requires forall i :: 0 <= i < |settings| ==> PlainSetting(settings[i])
    ensures LookupKey(Lines(JoinLines(Assignments(settings))), key) == Find(settings, key)
  {
    var lines := Assignments(settings);
    if settings != [] {
      var p := settings[0];
      assert PlainSetting(p);
      AssignmentsRoundTrip(settings[1..], key);
      var rest := JoinLines(Assignments(settings[1..]));
      assert lines[0] == p.0 + ['='] + p.1 && lines[1..] == Assignments(settings[1..]);
      SplitFirstUnique(p.0, '=', p.1);
      assert '\n' !in lines[0] && !Comment(lines[0]);
      assert JoinLines(lines) == lines[0] + ['\n'] + rest;
      SplitFirstUnique(lines[0], '\n', rest);
      assert Lines(JoinLines(lines)) == [lines[0]] + Lines(rest);
      assert ([lines[0]] + Lines(rest))[1..] == Lines(rest);
    }
  }

  lemma CommentIsSkipped(c: string, text: string, key: string)
    requires Comment(c) && '\n' !in c
    ensures ReadKey(c + "\n" + text, key) == ReadKey(text, key)
  {
    SplitFirstUnique(c, '\n', text);
    assert ([c] + Lines(text))[1..] == Lines(text);
  }

  lemma HeaderIsComments()
    ensures Comment(COMMENT0) && '\n' !in COMMENT0
    ensures Comment(COMMENT1) && '\n' !in COMMENT1
  {
  }

  lemma SettingsArePlain(s: Secret)
    requires SingleLine(s)
    ensures forall i :: 0 <= i < |Settings(s)| ==> PlainSetting(Settings(s)[i])
  {
    assert '\n' !in DatabaseUrl(s);
  }

  lemma ReaderSeesSettings(c0: string, c1: string, settings: seq<(string, string)>, key: string)
    requires Comment(c0) && '\n' !in c0 && Comment(c1) && '\n' !in c1
    requires forall i :: 0 <= i < |settings| ==> PlainSetting(settings[i])
    ensures ReadKey(c0 + "\n" + (c1 + "\n" + JoinLines(Assignments(settings))), key) == Find(settings, key)
  {
    var body := JoinLines(Assignments(settings));
    AssignmentsRoundTrip(settings, key);
    CommentIsSkipped(c1, body, key);
    CommentIsSkipped(c0, c1 + "\n" + body, key);
  }

  /** A line reader recovers, for every key, exactly the rendered setting. */
  lemma EnvRoundTrip(s: Secret, key: string)
    requires SingleLine(s)
    ensures ReadKey(RenderEnv(s), key) == Find(Settings(s), key)
  {
    HeaderIsComments();
    SettingsArePlain(s);
    ReaderSeesSettings(COMMENT0, COMMENT1, Settings(s), key);
  }

  /** In particular the six values an application needs, and nothing under any other key. */
  lemma EnvFileRecoversSecret(s: Secret)
    requires SingleLine(s)
    ensures ReadKey(RenderEnv(s), "DATABASE_URL") == Some(DatabaseUrl(s))
    ensures ReadKey(RenderEnv(s), "DB_HOST") == Some("127.0.0.1")
    ensures ReadKey(RenderEnv(s), "DB_PORT") == Some("3306")
    ensures ReadKey(RenderEnv(s), "DB_NAME") == Some(s.database)
    ensures ReadKey(RenderEnv(s), "DB_USER") == Some(s.user)
    ensures ReadKey(RenderEnv(s), "DB_PASSWORD") == Some(s.password)
    ensures forall key :: key !in ["DATABASE_URL", "DB_HOST", "DB_PORT", "DB_NAME", "DB_USER", "DB_PASSWORD"] ==>
      ReadKey(RenderEnv(s), key).None?
  {
    forall key ensures ReadKey(RenderEnv(s), key) == Find(Settings(s), key) {
      EnvRoundTrip(s, key);
    }
    FindEach(Settings(s));
    forall key | key !in ["DATABASE_URL", "DB_HOST", "DB_PORT", "DB_NAME", "DB_USER", "DB_PASSWORD"]
      ensures Find(Settings(s), key).None?
    {
      FindNone(Settings(s), key);
    }
  }

  lemma FindEach(p: seq<(string, string)>)
    requires |p| == 6
    requires p[0].0 == "DATABASE_URL" && p[1].0 == "DB_HOST" && p[2].0 == "DB_PORT"
    requires p[3].0 == "DB_NAME" && p[4].0 == "DB_USER" && p[5].0 == "DB_PASSWORD"
    ensures Find(p, "DATABASE_URL") == Some(p[0].1) && Find(p, "DB_HOST") == Some(p[1].1)
    ensures Find(p, "DB_PORT") == Some(p[2].1) && Find(p, "DB_NAME") == Some(p[3].1)
    ensures Find(p, "DB_USER") == Some(p[4].1) && Find(p, "DB_PASSWORD") == Some(p[5].1)
  {
    DifferentKeys();
    FindAt(p, 0);
    FindAt(p, 1);
    FindAt(p, 2);
    FindAt(p, 3);
    FindAt(p, 4);
    FindAt(p, 5);
  }

  lemma DifferentKeys()
    ensures "DB_HOST" != "DATABASE_URL" && "DB_PORT" !in {"DATABASE_URL", "DB_HOST"}
    ensures "DB_NAME" !in {"DATABASE_URL", "DB_HOST", "DB_PORT"}
    ensures "DB_USER" !in {"DATABASE_URL", "DB_HOST", "DB_PORT", "DB_NAME"}
    ensures "DB_PASSWORD" !in {"DATABASE_URL", "DB_HOST", "DB_PORT", "DB_NAME", "DB_USER"}
  {
    var name, user := "DB_NAME", "DB_USER";
    assert name[3] == 'N' && "DB_HOST"[3] == 'H' && "DB_PORT"[3] == 'P' && user[3] == 'U';
  }

  lemma {:induction false} FindAt(p: seq<(string, string)>, k: nat)
    requires k < |p| && forall i :: 0 <= i < k ==> p[i].0 != p[k].0
    ensures Find(p, p[k].0) == Some(p[k].1)
  {
    if k > 0 {
      FindAt(p[1..], k - 1);
    }
  }

  lemma {:induction false} FindNone(p: seq<(string, string)>, key: string)
    requires forall i :: 0 <= i < |p| ==> p[i].0 != key
    ensures Find(p, key).None?
  {
    if p != [] {
      FindNone(p[1..], key);
    }
  }

  lemma LinesCons(line: string, rest: string)
    requires '\n' !in line
    ensures Lines(line + "\n" + rest) == [line] + Lines(rest)
  {
    SplitFirstUnique(line, '\n', rest);
  }

  lemma {:induction false} LinesOfJoined(lines: seq<string>)
    requires forall i :: 0 <= i < |lines| ==> '\n' !in lines[i]
    ensures Lines(JoinLines(lines)) == lines
  {
    if lines != [] {
      LinesOfJoined(lines[1..]);
      LinesCons(lines[0], JoinLines(lines[1..]));
      assert [lines[0]] + lines[1..] == lines;
    }
  }

  lemma LinesOfFile(c0: string, c1: string, lines: seq<string>)
    requires '\n' !in c0 && '\n' !in c1 && forall i :: 0 <= i < |lines| ==> '\n' !in lines[i]
    ensures Lines(c0 + "\n" + (c1 + "\n" + JoinLines(lines))) == [c0, c1] + lines
  {
    LinesOfJoined(lines);
    LinesCons(c1, JoinLines(lines));
    LinesCons(c0, c1 + "\n" + JoinLines(lines));
  }

  /** The settings as text. */
  lemma AssignmentTexts(s: Secret)
    ensures Assignments(Settings(s)) == [
      "DATABASE_URL=" + ("mysql://" + s.user + ":" + s.password + "@127.0.0.1:3306/" + s.database),
      "DB_HOST=127.0.0.1",
      "DB_PORT=3306",
      "DB_NAME=" + s.database,
      "DB_USER=" + s.user,
      "DB_PASSWORD=" + s.password]
  {
    AssignmentsOfSix(Settings(s));
    UrlText(s);
    assert "DATABASE_URL" + "=" == "DATABASE_URL=";
    assert "DB_HOST" + "=" + HOST == "DB_HOST=127.0.0.1";
    assert "DB_PORT" + "=" + PORT == "DB_PORT=3306";
    assert "DB_NAME" + "=" == "DB_NAME=" && "DB_USER" + "=" == "DB_USER=" && "DB_PASSWORD" + "=" == "DB_PASSWORD=";
  }

  lemma AssignmentsArePlain(settings: seq<(string, string)>, k: nat)
    requires k < |settings| && PlainSetting(settings[k])
    ensures '\n' !in Assignments(settings)[k]
  {
    AssignmentAt(settings, k);
  }

  /** The file is two comment lines and these six lines, in this order. */
  lemma RenderedLines(s: Secret)
    requires SingleLine(s)
    ensures Lines(RenderEnv(s)) ==
      [ "# Auto-generated by " + "db-isolation. " + "Do not edit by hand.",
        "# Permissions: 0600. " + "Mode of access: " + "server-local only." ] +
      [ "DATABASE_URL=" + ("mysql://" + s.user + ":" + s.password + "@127.0.0.1:3306/" + s.database),
        "DB_HOST=127.0.0.1",
        "DB_PORT=3306",
        "DB_NAME=" + s.database,
        "DB_USER=" + s.user,
        "DB_PASSWORD=" + s.password ]
  {
    HeaderIsComments();
    SettingsArePlain(s);
    var lines := Assignments(Settings(s));
    forall i | 0 <= i < |lines| ensures '\n' !in lines[i] {
      AssignmentsArePlain(Settings(s), i);
    }
    LinesOfFile(COMMENT0, COMMENT1, lines);
    AssignmentTexts(s);
  }

  lemma AssignmentsOfSix(p: seq<(string, string)>)
    requires |p| == 6
    ensures Assignments(p) == [p[0].0 + "=" + p[0].1, p[1].0 + "=" + p[1].1, p[2].0 + "=" + p[2].1,
                               p[3].0 + "=" + p[3].1, p[4].0 + "=" + p[4].1, p[5].0 + "=" + p[5].1]
  {
    AssignmentAt(p, 0);
    AssignmentAt(p, 1);
    AssignmentAt(p, 2);
    AssignmentAt(p, 3);
    AssignmentAt(p, 4);
    AssignmentAt(p, 5);
  }

  lemma {:induction false} AssignmentAt(p: seq<(string, string)>, k: nat)
    requires k < |p|
    ensures Assignments(p)[k] == p[k].0 + "=" + p[k].1
  {
    if k > 0 {
      AssignmentAt(p[1..], k - 1);
    }
  }

  lemma UrlText(s: Secret)
    ensures DatabaseUrl(s) == "mysql://" + s.user + ":" + s.password + "@127.0.0.1:3306/" + s.database
  {
    var front := SCHEME + s.user + ":" + s.password;
    assert "@" + HOST + ":" + PORT + "/" == "@127.0.0.1:3306/";
    assert DatabaseUrl(s) == front + ("@" + HOST + ":" + PORT + "/") + s.database;
  }
}
