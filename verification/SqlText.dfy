/**
 The text the provisioner puts into SQL: which identifiers and passwords it
 accepts, how it quotes a password, how the MySQL lexer reads the quoted text
 back, and which databases a granted name covers.
 */
module SqlText {
  import opened Common
  import opened Names

  predicate Letter(c: char) {
    'a' <= c <= 'z' || 'A' <= c <= 'Z'
  }

  predicate Digit(c: char) {
    '0' <= c <= '9'
  }

  /** The characters the provisioner embeds between backticks. */
  predicate AssertIdentifier(s: string) {
    s != "" && forall i :: 0 <= i < |s| ==> Letter(s[i]) || Digit(s[i]) || s[i] == '_'
  }

  const SPECIALS := "!@#$%^&*"

  predicate Special(c: char) {
    c == '!' || c == '@' || c == '#' || c == '$' || c == '%' || c == '^' || c == '&' || c == '*'
  }

  predicate SafeChar(c: char) {
    Letter(c) || Digit(c) || c == '-' || c == '_' || Special(c)
  }

  predicate IsSafePasswordLiteral(s: string) {
    1 <= |s| <= 128 && forall i :: 0 <= i < |s| ==> SafeChar(s[i])
  }

  /** An identifier is ASCII letters, digits and underscores, by their codes. */
  lemma IdentifierLanguage(s: string)
    ensures AssertIdentifier(s) <==> s != "" && forall i :: 0 <= i < |s| ==>
      48 <= s[i] as int <= 57 || 65 <= s[i] as int <= 90 || s[i] as int == 95 || 97 <= s[i] as int <= 122
  {
  }

  /** A safe password is up to 128 letters, digits, `-`, `_` and the eight specials, by their ASCII codes. */
  lemma PasswordLanguage(s: string)
    ensures IsSafePasswordLiteral(s) <==> 1 <= |s| <= 128 && forall i :: 0 <= i < |s| ==>
      || 48 <= s[i] as int <= 57 || 65 <= s[i] as int <= 90 || 97 <= s[i] as int <= 122
      || s[i] as int in {33, 35, 36, 37, 38, 42, 45, 64, 94, 95}
  {
  }

  /** `None` stands for the panic on an unsafe literal. */
  function QuoteMySQLString(s: string): Option<string> {
    if IsSafePasswordLiteral(s) then Some("'" + s + "'") else None
  }

  lemma ProjectIdentifiersAreAccepted(name: string)
    requires ValidName(name)
    ensures AssertIdentifier(DatabaseName(name)) && AssertIdentifier(UserName(name))
  {
    forall i | 0 <= i < |name| ensures Leading(SafeName(name)[i]) || SafeName(name)[i] == '_' {
      assert Allowed(name[i]);
    }
  }

  // ---------------------------------------------------------------- the lexer

  /** The character a backslash escape stands for. */
  function Unescape(c: char): char {
    match c
    case '0' => '\0'
    case 'b' => '\U{08}'
    case 'n' => '\n'
    case 'r' => '\r'
    case 't' => '\t'
    case 'Z' => '\U{1A}'
    case _ => c
  }

  /**
   MySQL's scan of quoted text after the opening quote `q`: a doubled quote is
   one quote, a backslash escapes when `escapes` holds, a single quote ends the
   token. Returns the token's value and the text after it.
   */
  function Scan(q: char, escapes: bool, text: string): Option<(string, string)> {
    if text == "" then None
    else if text[0] == q then
      if |text| > 1 && text[1] == q then Prepend(q, Scan(q, escapes, text[2..]))
      else Some(("", text[1..]))
    else if escapes && text[0] == '\\' then
      if |text| == 1 then None else Prepend(Unescape(text[1]), Scan(q, escapes, text[2..]))
    else Prepend(text[0], Scan(q, escapes, text[1..]))
  }

  function Prepend(c: char, r: Option<(string, string)>): Option<(string, string)> {
    match r
    case None => None
    case Some(p) => Some(([c] + p.0, p.1))
  }

  lemma {:induction false} ScanPlainText(q: char, escapes: bool, s: string, rest: string)
    requires forall i :: 0 <= i < |s| ==> s[i] != q && s[i] != '\\'
    requires rest == "" || rest[0] != q
    ensures Scan(q, escapes, s + [q] + rest) == Some((s, rest))
  {
    var text := s + [q] + rest;
    if s == "" {
      assert text[1..] == rest;
    } else {
      ScanPlainText(q, escapes, s[1..], rest);
      assert text[1..] == s[1..] + [q] + rest;
      assert [s[0]] + s[1..] == s;
    }
  }

  /**
   A quoted password is read back as exactly that password, whatever SQL
   follows it, and every unsafe password is refused.
   */
  lemma QuotedPasswordRoundTrip(s: string, rest: string)
    requires rest == "" || rest[0] != '\''
    ensures QuoteMySQLString(s).Some? <==> IsSafePasswordLiteral(s)
    ensures QuoteMySQLString(s).Some? ==>
      var text := QuoteMySQLString(s).value + rest;
      text[0] == '\'' && Scan('\'', true, text[1..]) == Some((s, rest))
  {
    if IsSafePasswordLiteral(s) {
      ScanPlainText('\'', true, s, rest);
      assert ("'" + s + "'" + rest)[1..] == s + ['\''] + rest;
    }
  }

  /** The same for an identifier between backticks, where backslash has no meaning. */
  lemma QuotedIdentifierRoundTrip(s: string, rest: string)
    requires AssertIdentifier(s) && (rest == "" || rest[0] != '`')
    ensures Scan('`', false, s + "`" + rest) == Some((s, rest))
  {
    ScanPlainText('`', false, s, rest);
  }

  // ---------------------------------------------------------------- wildcards in GRANT

  /**
   How MySQL matches the database name of a GRANT against a database: `%`
   matches any run, `_` any one character, a backslash makes the next
   character literal (`partial_revokes` off).
   */
  predicate WildMatch(pattern: string, s: string)
    decreases |pattern| + |s|
  {
    if pattern == "" then s == ""
    else if pattern[0] == '%' then
      WildMatch(pattern[1..], s) || (s != "" && WildMatch(pattern, s[1..]))
    else if pattern[0] == '\\' && |pattern| > 1 then
      s != "" && s[0] == pattern[1] && WildMatch(pattern[2..], s[1..])
    else
      s != "" && (pattern[0] == '_' || pattern[0] == s[0]) && WildMatch(pattern[1..], s[1..])
  }

  lemma {:induction false} WildMatchIsPositional(pattern: string, s: string)
    requires forall i :: 0 <= i < |pattern| ==> pattern[i] != '%' && pattern[i] != '\\'
    ensures WildMatch(pattern, s) <==>
      |pattern| == |s| && forall i :: 0 <= i < |s| ==> pattern[i] == '_' || pattern[i] == s[i]
  {
    if pattern != "" && s != "" {
      WildMatchIsPositional(pattern[1..], s[1..]);
      assert forall i :: 1 <= i < |s| ==> s[i] == s[1..][i - 1];
      assert forall i :: 1 <= i < |pattern| ==> pattern[i] == pattern[1..][i - 1];
    }
  }

  /** `m` has the length of `n` and agrees with it wherever `n` has no separator. */
  predicate Shadows(n: string, m: string) {
    |n| == |m| && forall i :: 0 <= i < |n| && !Separator(n[i]) ==> n[i] == m[i]
  }

  /** A project's grant reaches another project's database exactly when the other name shadows it. */
  lemma GrantReachesExactlyShadows(n: string, m: string)
    requires ValidName(n) && ValidName(m)
    ensures WildMatch(DatabaseName(n), DatabaseName(m)) <==> Shadows(n, m)
  {
    ProjectIdentifiersAreAccepted(n);
    var p, s := DatabaseName(n), DatabaseName(m);
    WildMatchIsPositional(p, s);
    if Shadows(n, m) {
      forall i | 0 <= i < |s| ensures p[i] == '_' || p[i] == s[i] {
        if i < |n| && !Separator(n[i]) {
          assert n[i] == m[i];
        }
      }
    }
    if WildMatch(p, s) {
      forall i | 0 <= i < |n| && !Separator(n[i]) ensures n[i] == m[i] {
        assert p[i] == n[i] && p[i] == s[i];
        assert Leading(n[i]);
      }
    }
  }
}
