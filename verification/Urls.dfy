/**
 Two readers of the rendered DATABASE_URL: one that splits at the first `:` and
 the last `@`, and a strict reader of the authority of section 3.2 of RFC 3986.
 */
module Urls {
  import opened Common
  import opened SqlText
  import opened EnvFile
  import opened Passwords

  /** What every secret of the service holds. */
  predicate WellFormed(s: Secret) {
    AssertIdentifier(s.database) && AssertIdentifier(s.user) && IsSafePasswordLiteral(s.password)
  }

  function AfterScheme(url: string): Option<string> {
    if "mysql://" <= url then Some(url[8..]) else None
  }

  datatype Parsed = Parsed(user: string, password: string, hostPort: string, database: string)

  /** Splits at the first `:`, the last `@` and the first `/` after it. */
  function ParseLastAt(url: string): Option<Parsed> {
    match AfterScheme(url)
    case None => None
    case Some(rest) => ParseRest(rest)
  }

  function ParseRest(rest: string): Option<Parsed> {
    match SplitFirst(rest, ':')
    case None => None
    case Some(u) =>
      match SplitLast(u.1, '@')
      case None => None
      case Some(p) =>
        match SplitFirst(p.1, '/')
        case None => None
        case Some(h) => Some(Parsed(u.0, p.0, h.0, h.1))
  }

  lemma ParseRestReads(user: string, password: string, hostPort: string, database: string)
    requires ':' !in user && '@' !in hostPort && '@' !in database && '/' !in hostPort
    ensures ParseRest(user + [':'] + (password + ['@'] + (hostPort + ['/'] + database)))
      == Some(Parsed(user, password, hostPort, database))
  {
    var location := hostPort + ['/'] + database;
    SplitFirstUnique(user, ':', password + ['@'] + location);
    SplitLastUnique(password, '@', location);
    SplitFirstUnique(hostPort, '/', database);
  }

  const HOST_PORT := "127.0.0.1:3306"

  /** The URL after its scheme, cut where the two readers cut it. */
  lemma UrlShape(s: Secret)
    requires WellFormed(s)
    ensures AfterScheme(DatabaseUrl(s)) == Some(s.user + ":" + (s.password + "@" + (HOST_PORT + "/" + s.database)))
  {
    UrlText(s);
    var rest := s.user + ":" + (s.password + "@" + (HOST_PORT + "/" + s.database));
    assert "@127.0.0.1:3306/" == "@" + HOST_PORT + "/";
    assert DatabaseUrl(s) == "mysql://" + rest;
  }

  lemma PlainParts(s: Secret)
    requires WellFormed(s)
    ensures forall c :: c in s.user || c in s.database ==> Letter(c) || Digit(c) || c == '_'
    ensures forall c :: c in s.password ==> SafeChar(c)
    ensures SingleLine(s)
  {
  }

  /** The reader that takes the last `@` recovers every secret, for every safe password. */
  lemma LastAtRoundTrip(s: Secret)
    requires WellFormed(s)
    ensures ParseLastAt(DatabaseUrl(s)) == Some(Parsed(s.user, s.password, "127.0.0.1:3306", s.database))
  {
    UrlShape(s);
    PlainParts(s);
    ParseRestReads(s.user, s.password, HOST_PORT, s.database);
  }

  // ---------------------------------------------------------------- RFC 3986

  predicate Unreserved(c: char) {
    Letter(c) || Digit(c) || c == '-' || c == '.' || c == '_' || c == '~'
  }

  predicate SubDelim(c: char) {
    c == '!' || c == '$' || c == '&' || c == '\'' || c == '(' || c == ')' || c == '*' || c == '+' || c == ',' || c == ';' || c == '='
  }

  function HexValue(c: char): Option<int> {
    if '0' <= c <= '9' then Some(c as int - '0' as int)
    else if 'a' <= c <= 'f' then Some(c as int - 'a' as int + 10)
    else if 'A' <= c <= 'F' then Some(c as int - 'A' as int + 10)
    else None
  }

  /** A userinfo component, percent-decoded; `None` when the grammar does not allow it. */
  function DecodeUserinfo(s: string): (r: Option<string>)
    ensures r.Some? ==> |r.value| <= |s|
    ensures r.Some? && |r.value| == |s| ==>
      r.value == s && forall c :: c in s ==> Unreserved(c) || SubDelim(c) || c == ':'
  {
    if s == "" then Some("")
    else if s[0] == '%' then
      if |s| < 3 || HexValue(s[1]).None? || HexValue(s[2]).None? then None
      else match DecodeUserinfo(s[3..])
        case None => None
        case Some(t) => Some([(HexValue(s[1]).value * 16 + HexValue(s[2]).value) as char] + t)
    else if Unreserved(s[0]) || SubDelim(s[0]) || s[0] == ':' then
      match DecodeUserinfo(s[1..])
      case None => None
      case Some(t) => Some([s[0]] + t)
    else None
  }

  predicate EndsAuthority(c: char) {
    c == '/' || c == '?' || c == '#'
  }

  /** The authority is terminated by the next `/`, `?` or `#`, or by the end. */
  function Authority(s: string): (r: string)
    ensures r <= s
    ensures forall c :: c in r ==> !EndsAuthority(c)
  {
    if s == "" || EndsAuthority(s[0]) then "" else [s[0]] + Authority(s[1..])
  }

  /** User, password and location of the authority, or `None` when it is not well formed. */
  function StrictAuthority(url: string): Option<(string, string, string)> {
    match AfterScheme(url)
    case None => None
    case Some(rest) => SplitAuthority(Authority(rest))
  }

  function SplitAuthority(authority: string): Option<(string, string, string)> {
    match SplitFirst(authority, '@')
    case None => None
    case Some(p) =>
      if '@' in p.1 then None else
      match SplitFirst(p.0, ':')
      case None => None
      case Some(q) =>
        var user, password := DecodeUserinfo(q.0), DecodeUserinfo(q.1);
        if user.Some? && password.Some? then Some((user.value, password.value, p.1)) else None
  }

  predicate Unescaped(password: string) {
    '#' !in password && '@' !in password && '%' !in password && '^' !in password
  }

  lemma {:induction false} AuthorityStops(a: string, b: string)
    requires forall c :: c in a ==> !EndsAuthority(c)
    requires b != "" && EndsAuthority(b[0])
    ensures Authority(a + b) == a
  {
    if a == "" {
      assert a + b == b;
    } else {
      assert (a + b)[1..] == a[1..] + b;
      AuthorityStops(a[1..], b);
      assert [a[0]] + a[1..] == a;
    }
  }

  lemma {:induction false} DecodePlain(s: string)
    requires forall c :: c in s ==> c != '%' && (Unreserved(c) || SubDelim(c) || c == ':')
    ensures DecodeUserinfo(s) == Some(s)
  {
    if s != "" {
      assert s[0] in s;
      assert forall c :: c in s[1..] ==> c in s;
      DecodePlain(s[1..]);
      assert [s[0]] + s[1..] == s;
    }
  }

  lemma AuthorityReadsUnescaped(user: string, password: string, location: string)
    requires forall c :: c in user ==> Letter(c) || Digit(c) || c == '_'
    requires (forall c :: c in password ==> SafeChar(c)) && Unescaped(password)
    requires '@' !in location
    ensures SplitAuthority(user + ":" + password + "@" + location) == Some((user, password, location))
  {
    SplitFirstUnique(user + ":" + password, '@', location);
    SplitFirstUnique(user, ':', password);
    DecodePlain(user);
    DecodePlain(password);
  }

  lemma AuthorityOfUrl(user: string, password: string, location: string, path: string)
    requires forall c :: c in user || c in password || c in location ==> !EndsAuthority(c)
    ensures Authority(user + ":" + (password + "@" + (location + "/" + path))) == user + ":" + password + "@" + location
  {
    var a := user + ":" + password + "@" + location;
    assert user + ":" + (password + "@" + (location + "/" + path)) == a + ("/" + path);
    AuthorityStops(a, "/" + path);
  }

  lemma StrictReadsUnescaped(s: Secret)
    requires WellFormed(s) && Unescaped(s.password)
    ensures StrictAuthority(DatabaseUrl(s)) == Some((s.user, s.password, HOST_PORT))
  {
    UrlShape(s);
    PlainParts(s);
    assert forall c :: c in HOST_PORT ==> !EndsAuthority(c) && c != '@';
    AuthorityOfUrl(s.user, s.password, HOST_PORT, s.database);
    AuthorityReadsUnescaped(s.user, s.password, HOST_PORT);
  }

  lemma {:induction false} FirstColonIsAfterUser(user: string, tail: string, q0: string, q1: string)
    requires ':' !in user && ':' !in q0
    requires q0 + [':'] + q1 <= user + [':'] + tail
    ensures q1 <= tail
  {
    var short, long := q0 + [':'] + q1, user + [':'] + tail;
    assert short[0] == long[0];
    if user == "" || q0 == "" {
      assert user == "" && q0 == "";
      assert short[1..] == q1 && long[1..] == tail;
    } else {
      assert short[1..] == q0[1..] + [':'] + q1 && long[1..] == user[1..] + [':'] + tail;
      FirstColonIsAfterUser(user[1..], tail, q0[1..], q1);
    }
  }

  /** What stands before the first `@` is a prefix of the password. */
  lemma ReadIsPrefix(password: string, location: string, q1: string, p1: string)
    requires '@' !in q1 && q1 + ['@'] + p1 <= password + ['@'] + location
    ensures q1 <= password
  {
    var short, long := q1 + ['@'] + p1, password + ['@'] + location;
    assert q1 == short[..|q1|] == long[..|q1|];
    assert long[|password|] == '@';
    assert |q1| <= |password|;
    assert long[..|password|] == password;
  }

  /** A prefix of the password decodes to the password only if it is the whole of it and needs no escape. */
  lemma DecodedPrefixIsWhole(read: string, password: string)
    requires read <= password && DecodeUserinfo(read) == Some(password) && '@' !in read
    ensures Unescaped(password)
  {
    assert |password| <= |read|;
    assert read == password;
  }

  lemma CutAuthority(user: string, password: string, location: string, authority: string, q0: string, q1: string, p1: string)
    requires ':' !in user && ':' !in q0 && '@' !in q1
    requires authority <= user + [':'] + (password + ['@'] + location)
    requires authority == (q0 + [':'] + q1) + ['@'] + p1
    ensures q1 <= password
  {
    assert authority == q0 + [':'] + (q1 + ['@'] + p1);
    FirstColonIsAfterUser(user, password + ['@'] + location, q0, q1 + ['@'] + p1);
    ReadIsPrefix(password, location, q1, p1);
  }

  lemma AuthorityOnlyReadsUnescaped(user: string, password: string, location: string, authority: string)
    requires ':' !in user
    requires authority <= user + [':'] + (password + ['@'] + location)
    requires var r := SplitAuthority(authority); r.Some? && r.value.1 == password
    ensures Unescaped(password)
  {
    var p := SplitFirst(authority, '@').value;
    var q := SplitFirst(p.0, ':').value;
    assert '@' !in p.0 && q.1 <= p.0[|q.0| + 1..];
    assert '@' !in q.1;
    CutAuthority(user, password, location, authority, q.0, q.1, p.1);
    DecodedPrefixIsWhole(q.1, password);
  }

  lemma StrictOnlyReadsUnescaped(s: Secret)
    requires WellFormed(s)
    requires StrictAuthority(DatabaseUrl(s)).Some? && StrictAuthority(DatabaseUrl(s)).value.1 == s.password
    ensures Unescaped(s.password)
  {
    UrlShape(s);
    PlainParts(s);
    var rest := s.user + ":" + (s.password + "@" + (HOST_PORT + "/" + s.database));
    AuthorityOnlyReadsUnescaped(s.user, s.password, HOST_PORT + "/" + s.database, Authority(rest));
  }

  /** The strict reader returns the rendered triple exactly when the password holds none of `#`, `@`, `%`, `^`. */
  lemma StrictRoundTripCharacterised(s: Secret)
    requires WellFormed(s)
    ensures StrictAuthority(DatabaseUrl(s)) == Some((s.user, s.password, "127.0.0.1:3306")) <==> Unescaped(s.password)
  {
    if Unescaped(s.password) {
      StrictReadsUnescaped(s);
    } else if StrictAuthority(DatabaseUrl(s)) == Some((s.user, s.password, HOST_PORT)) {
      StrictOnlyReadsUnescaped(s);
    }
  }

  // ---------------------------------------------------------------- generated passwords

  /** The specials the strict reader can live with: `!`, `$`, `&` and `*`. */
  predicate HarmlessSpecial(k: int) {
    k == 0 || k == 3 || k == 6 || k == 7
  }

  lemma OnlySpecialDecides(pw: string, enc: string, pos: seq<int>, idx: seq<Byte>)
    requires |enc| == 32 && |idx| == 4 && |pos| == 4 && forall i :: 0 <= i < 4 ==> 0 <= pos[i] < 32
    requires Overwrites(pw, enc, pos, idx) && Distinct(pos)
    requires forall i :: 0 <= i < 32 ==> SafeChar(enc[i]) && !Special(enc[i])
    ensures Unescaped(pw) <==> HarmlessSpecial(idx[3] % 8)
  {
    var c := pw[pos[3]];
    assert c == SPECIALS[idx[3] % 8];
    forall i | 0 <= i < 32 && i != pos[3] ensures !Special(pw[i]) {
      if i in pos {
        assert i == pos[0] || i == pos[1] || i == pos[2];
      }
    }
    assert c in pw;
    assert Unescaped(pw) <==> c != '#' && c != '@' && c != '%' && c != '^';
  }

  lemma GeneratedUnescaped(pw: string, buf: seq<Byte>, idx: seq<Byte>)
    requires |buf| == 24 && |idx| == 4 && IsGenerated(pw, buf, idx)
    ensures Unescaped(pw) <==> HarmlessSpecial(idx[3] % 8)
  {
    OnlySpecialDecides(pw, Encode(buf), FinalPositions(idx), idx);
  }

  lemma GeneratedSecretIsWellFormed(s: Secret, buf: seq<Byte>, idx: seq<Byte>)
    requires AssertIdentifier(s.database) && AssertIdentifier(s.user)
    requires |buf| == 24 && |idx| == 4 && IsGenerated(s.password, buf, idx)
    ensures WellFormed(s)
  {
    GeneratedIsStrong(s.password, buf, idx);
  }

  /**
   For every draw: the strict reader returns what was rendered exactly if the
   drawn special character is one of four of the eight. The reader that takes
   the last `@` always does.
   */
  lemma StrictReaderLosesHalf(s: Secret, buf: seq<Byte>, idx: seq<Byte>)
    requires AssertIdentifier(s.database) && AssertIdentifier(s.user)
    requires |buf| == 24 && |idx| == 4 && IsGenerated(s.password, buf, idx)
    ensures StrictAuthority(DatabaseUrl(s)) == Some((s.user, s.password, "127.0.0.1:3306")) <==> HarmlessSpecial(idx[3] % 8)
    ensures ParseLastAt(DatabaseUrl(s)) == Some(Parsed(s.user, s.password, "127.0.0.1:3306", s.database))
  {
    GeneratedSecretIsWellFormed(s, buf, idx);
    GeneratedUnescaped(s.password, buf, idx);
    StrictRoundTripCharacterised(s);
    LastAtRoundTrip(s);
  }
}
