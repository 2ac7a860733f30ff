/**
 Project names: the validator, the normaliser and the derivation of MySQL
 identifiers. Names are sequences of characters; a valid name is ASCII, so its
 byte length is its length here.
 */
module Names {
  import opened Common

  const MAX_PROJECT_NAME_LEN := 63

  datatype NameError = NameRequired | NameTooLong | NameMalformed

  predicate Separator(c: char) {
    c == '_' || c == '-'
  }

  predicate Leading(c: char) {
    'a' <= c <= 'z' || '0' <= c <= '9'
  }

  predicate Allowed(c: char) {
    Leading(c) || Separator(c)
  }

  /** The language of the name pattern: one leading character, then up to 62 allowed ones. */
  predicate MatchesPattern(name: string) {
    1 <= |name| <= 63 && Leading(name[0]) && forall i :: 1 <= i < |name| ==> Allowed(name[i])
  }

  /** Accepts one lower-case letter or digit followed by up to 62 of these, hyphens and underscores. */
  function ValidateProjectName(name: string): (r: Result<(), NameError>)
    ensures r.Success? <==> MatchesPattern(name)
    ensures r.Success? <==>
      && 1 <= |name| <= 63 && name[0] != '_' && name[0] != '-'
      && forall i :: 0 <= i < |name| ==>
           'a' <= name[i] <= 'z' || '0' <= name[i] <= '9' || name[i] == '_' || name[i] == '-'
    ensures r == Failure(NameRequired) <==> name == ""
    ensures r == Failure(NameTooLong) <==> |name| > 63
  {
    if name == "" then Failure(NameRequired)
    else if |name| > MAX_PROJECT_NAME_LEN then Failure(NameTooLong)
    else if !MatchesPattern(name) then Failure(NameMalformed)
    else Success(())
  }

  predicate ValidName(name: string) {
    ValidateProjectName(name).Success?
  }

  // ---------------------------------------------------------------- normalisation

  /** The platform's case mapping and white-space test, as far as a caller can know them. */
  datatype CharTables = CharTables(lower: char -> char, space: char -> bool)
  {
    /** On the characters a normalised name can hold, the tables do nothing. */
    ghost predicate FaithfulOnNames() {
      forall c: char :: Allowed(c) ==> lower(c) == c && !space(c)
    }
  }

  /** The first position from `i` on whose character stays. */
  function TrimmedLeft(s: string, cut: char -> bool, i: nat): (r: nat)
    requires i <= |s|
    ensures i <= r <= |s| && (r < |s| ==> !cut(s[r]))
    ensures forall k :: i <= k < r ==> cut(s[k])
    decreases |s| - i
  {
    if i < |s| && cut(s[i]) then TrimmedLeft(s, cut, i + 1) else i
  }

  /** The end of what stays of the text between `i` and `j`. */
  function TrimmedRight(s: string, cut: char -> bool, i: nat, j: nat): (r: nat)
    requires i <= j <= |s|
    ensures i <= r <= j && (i < r ==> !cut(s[r - 1]))
    ensures forall k :: r <= k < j ==> cut(s[k])
  {
    if i < j && cut(s[j - 1]) then TrimmedRight(s, cut, i, j - 1) else j
  }

  function TrimRight(s: string, cut: char -> bool): string {
    s[..TrimmedRight(s, cut, 0, |s|)]
  }

  function Trim(s: string, cut: char -> bool): string {
    var from := TrimmedLeft(s, cut, 0);
    s[from..TrimmedRight(s, cut, from, |s|)]
  }

  function Lowercase(s: string, tables: CharTables): (r: string)
    ensures |r| == |s|
  {
    seq(|s|, i requires 0 <= i < |s| => tables.lower(s[i]))
  }

  /** Replaces every character outside the allowed class by an underscore. */
  function ReplaceDisallowed(s: string): (r: string)
    ensures forall c :: c in r ==> Allowed(c)
    ensures (forall c :: c in s ==> Allowed(c)) ==> r == s
  {
    seq(|s|, i requires 0 <= i < |s| => if Allowed(s[i]) then s[i] else '_')
  }

  function NormalizeProjectName(name: string, tables: CharTables): (r: string)
  {
    var lowered := Lowercase(Trim(name, tables.space), tables);
    Truncate(Trim(ReplaceDisallowed(lowered), Separator))
  }

  function Truncate(s: string): (r: string) {
    if |s| > MAX_PROJECT_NAME_LEN then s[..MAX_PROJECT_NAME_LEN] else s
  }

  /** Trimming keeps what lies between two positions, and cuts nothing but what it may. */
  ghost predicate Cuts(s: string, cut: char -> bool, from: nat, to: nat) {
    && from <= to <= |s|
    && (forall k :: 0 <= k < from || to <= k < |s| ==> cut(s[k]))
    && (from < to ==> !cut(s[from]) && !cut(s[to - 1]))
  }

  lemma TrimIsMiddle(s: string, cut: char -> bool) returns (from: nat, to: nat)
    ensures Cuts(s, cut, from, to) && Trim(s, cut) == s[from..to]
  {
    from := TrimmedLeft(s, cut, 0);
    to := TrimmedRight(s, cut, from, |s|);
  }

  /**
   Whatever the input, the result is empty or accepted by the validator; a
   trailing separator only comes from truncation.
   */
  lemma NormalizedIsEmptyOrValid(name: string, tables: CharTables)
    ensures var r := NormalizeProjectName(name, tables);
      r == "" || (ValidName(r) && (Separator(r[|r| - 1]) ==> |r| == MAX_PROJECT_NAME_LEN))
  {
    var q := ReplaceDisallowed(Lowercase(Trim(name, tables.space), tables));
    var s := Trim(q, Separator);
    var from, to := TrimIsMiddle(q, Separator);
    forall i | 0 <= i < |s| ensures Allowed(s[i]) {
      assert s[i] == q[from + i] && q[from + i] in q;
    }
    TrimmedIsWellFormed(s);
  }

  lemma TrimmedIsWellFormed(s: string)
    requires forall i :: 0 <= i < |s| ==> Allowed(s[i])
    requires s != "" ==> Leading(s[0]) && Leading(s[|s| - 1])
    ensures var r := Truncate(s);
      r == "" || (ValidName(r) && (Separator(r[|r| - 1]) ==> |r| == MAX_PROJECT_NAME_LEN))
  {
  }

  // ------------------------------------------------ what the normaliser keeps

  /** What becomes of a character that is kept. */
  function Image(c: char, tables: CharTables): char {
    var l := tables.lower(c);
    if 'a' <= l <= 'z' || '0' <= l <= '9' || l == '_' || l == '-' then l else '_'
  }

  /**
   `from` and `to` delimit what is left of the text without the white space and
   then without the characters that become separators at either end.
   */
  ghost predicate Middle(name: string, tables: CharTables, left: nat, from: nat, to: nat, right: nat) {
    && left <= from <= to <= right <= |name|
    && (forall k :: 0 <= k < left || right <= k < |name| ==> tables.space(name[k]))
    && (left < right ==> !tables.space(name[left]) && !tables.space(name[right - 1]))
    && (forall k :: left <= k < from || to <= k < right ==> Separator(Image(name[k], tables)))
    && (from < to ==> !Separator(Image(name[from], tables)) && !Separator(Image(name[to - 1], tables)))
  }

  /** There is only one such text. */
  lemma MiddleIsUnique(name: string, tables: CharTables, left: nat, from: nat, to: nat, right: nat,
                       left': nat, from': nat, to': nat, right': nat)
    requires Middle(name, tables, left, from, to, right) && Middle(name, tables, left', from', to', right')
    ensures name[from..to] == name[from'..to']
  {
    if left < right {
      assert left' == left && right' == right by {
        assert !tables.space(name[left]) && !tables.space(name[right - 1]);
      }
      if from < to {
        assert from' == from && to' == to;
      } else {
        assert forall k :: left <= k < right ==> Separator(Image(name[k], tables));
        assert from' == to';
      }
    } else {
      assert left' == right';
    }
  }

  lemma ImageOfText(name: string, tables: CharTables, left: nat, right: nat)
    requires left <= right <= |name|
    ensures var q := ReplaceDisallowed(Lowercase(name[left..right], tables));
      |q| == right - left && forall k :: left <= k < right ==> q[k - left] == Image(name[k], tables)
  {
    var text := name[left..right];
    var q := ReplaceDisallowed(Lowercase(text, tables));
    forall k | left <= k < right ensures q[k - left] == Image(name[k], tables) {
      assert name[k] == text[k - left];
    }
  }

  /** The text, character by character, up to 63 of them. */
  ghost predicate IsImage(r: string, text: string, tables: CharTables) {
    |r| == (if |text| > 63 then 63 else |text|) && forall i :: 0 <= i < |r| ==> r[i] == Image(text[i], tables)
  }

  lemma MiddleOfMiddle(name: string, tables: CharTables, left: nat, from: nat, to: nat, right: nat, q: string)
    requires left <= from <= to <= right <= |name| && |q| == right - left
    requires Cuts(name, tables.space, left, right) && Cuts(q, Separator, from - left, to - left)
    requires forall k :: left <= k < right ==> q[k - left] == Image(name[k], tables)
    ensures Middle(name, tables, left, from, to, right)
  {
    forall k | left <= k < from || to <= k < right ensures Separator(Image(name[k], tables)) {
      assert Separator(q[k - left]);
    }
  }

  lemma ImageOfMiddle(name: string, tables: CharTables, left: nat, from: nat, to: nat, right: nat, q: string)
    requires left <= from <= to <= right <= |name| && |q| == right - left
    requires forall k :: left <= k < right ==> q[k - left] == Image(name[k], tables)
    ensures IsImage(Truncate(q[from - left..to - left]), name[from..to], tables)
  {
    forall i | 0 <= i < to - from ensures q[from - left..to - left][i] == Image(name[from..to][i], tables) {
      assert q[(from + i) - left] == Image(name[from + i], tables);
    }
  }

  lemma NormalizedIsTruncated(name: string, tables: CharTables, text: string, q: string, r: string)
    requires text == Trim(name, tables.space) && q == ReplaceDisallowed(Lowercase(text, tables)) && r == Trim(q, Separator)
    ensures NormalizeProjectName(name, tables) == Truncate(r)
  {
  }

  /** The two trimmed stretches: of the input, and of what becomes of it. */
  lemma NormalizedParts(name: string, tables: CharTables) returns (left: nat, right: nat, q: string, a: nat, b: nat)
    ensures Cuts(name, tables.space, left, right) && Cuts(q, Separator, a, b)
    ensures |q| == right - left && forall k :: left <= k < right ==> q[k - left] == Image(name[k], tables)
    ensures NormalizeProjectName(name, tables) == Truncate(q[a..b])
  {
    left, right := TrimIsMiddle(name, tables.space);
    q := ReplaceDisallowed(Lowercase(name[left..right], tables));
    a, b := TrimIsMiddle(q, Separator);
    ImageOfText(name, tables, left, right);
    NormalizedIsTruncated(name, tables, name[left..right], q, q[a..b]);
  }

  /**
   For any input and any tables: the normalised name is the image of the middle
   of the input, cut to 63 characters.
   */
  lemma NormalizedIsImageOfMiddle(name: string, tables: CharTables) returns (left: nat, from: nat, to: nat, right: nat)
    ensures Middle(name, tables, left, from, to, right)
    ensures IsImage(NormalizeProjectName(name, tables), name[from..to], tables)
  {
    var q, a, b;
    left, right, q, a, b := NormalizedParts(name, tables);
    from, to := left + a, left + b;
    MiddleOfMiddle(name, tables, left, from, to, right, q);
    ImageOfMiddle(name, tables, left, from, to, right, q);
  }

  /** On a valid name the normaliser only strips trailing separators. */
  lemma NormalizeValidName(r: string, tables: CharTables)
    requires tables.FaithfulOnNames() && ValidName(r)
    ensures NormalizeProjectName(r, tables) == TrimRight(r, Separator)
  {
    ValidNameChars(r);
    TrimKeeps(r, tables.space);
    LowercaseKeepsNames(r, tables);
    assert ReplaceDisallowed(r) == r;
  }

  lemma ValidNameChars(r: string)
    requires ValidName(r)
    ensures forall c :: c in r ==> Allowed(c)
    ensures Allowed(r[0]) && Allowed(r[|r| - 1]) && !Separator(r[0])
  {
  }

  lemma TrimKeeps(r: string, cut: char -> bool)
    requires r != "" && !cut(r[0]) && !cut(r[|r| - 1])
    ensures Trim(r, cut) == r
  {
  }

  lemma LowercaseKeepsNames(r: string, tables: CharTables)
    requires tables.FaithfulOnNames() && forall c :: c in r ==> Allowed(c)
    ensures Lowercase(r, tables) == r
  {
    assert forall i :: 0 <= i < |r| ==> Allowed(r[i]);
  }

  /**
   Two applications always reach a fixed point, and one is enough exactly when
   the first result does not end in a separator.
   */
  lemma NormalizeReachesFixedPoint(name: string, tables: CharTables)
    requires tables.FaithfulOnNames()
    ensures var r := NormalizeProjectName(name, tables);
      var r2 := NormalizeProjectName(r, tables);
      && (r2 == r <==> r == "" || !Separator(r[|r| - 1]))
      && NormalizeProjectName(r2, tables) == r2
  {
    NormalizedIsEmptyOrValid(name, tables);
    NormalizeAgain(NormalizeProjectName(name, tables), tables);
  }

  lemma NormalizeEmpty(tables: CharTables)
    ensures NormalizeProjectName("", tables) == ""
  {
  }

  lemma TrimRightKeeps(r: string)
    requires r != ""
    ensures TrimRight(r, Separator) == r <==> !Separator(r[|r| - 1])
  {
    var to := TrimmedRight(r, Separator, 0, |r|);
    assert to < |r| ==> Separator(r[|r| - 1]);
  }

  lemma NormalizeAgain(r: string, tables: CharTables)
    requires tables.FaithfulOnNames()
    requires r == "" || ValidName(r)
    ensures var r2 := NormalizeProjectName(r, tables);
      && (r2 == r <==> r == "" || !Separator(r[|r| - 1]))
      && NormalizeProjectName(r2, tables) == r2
  {
    if r == "" {
      NormalizeEmpty(tables);
    } else {
      var r2 := TrimRight(r, Separator);
      NormalizeValidName(r, tables);
      TrimRightKeeps(r);
      TrimRightKeepsValid(r);
      NormalizeValidName(r2, tables);
      TrimRightIsTrimmed(r);
    }
  }

  lemma TrimRightIsTrimmed(r: string)
    ensures var r2 := TrimRight(r, Separator);
      TrimRight(r2, Separator) == r2
  {
    var r2 := TrimRight(r, Separator);
    if r2 != "" {
      TrimRightKeeps(r2);
    }
  }

  lemma TrimRightKeepsValid(s: string)
    requires ValidName(s)
    ensures ValidName(TrimRight(s, Separator))
  {
    var to := TrimmedRight(s, Separator, 0, |s|);
    assert !Separator(s[0]);
  }

  // ---------------------------------------------------------------- identifiers

  /** Every hyphen becomes an underscore; nothing else changes. */
  function SafeName(name: string): (r: string)
    ensures |r| == |name|
  {
    seq(|name|, i requires 0 <= i < |name| => if name[i] == '-' then '_' else name[i])
  }

  /** The database ends in `_db`, the user in `_user`; before that both are the name with underscores for hyphens. */
  function ProjectIdentifiers(name: string): (r: (string, string))
    ensures |r.0| == |name| + 3 && r.0[|name|..] == "_db"
    ensures |r.1| == |name| + 5 && r.1[|name|..] == "_user"
    ensures forall i :: 0 <= i < |name| ==> r.0[i] == r.1[i] == if name[i] == '-' then '_' else name[i]
  {
    (SafeName(name) + "_db", SafeName(name) + "_user")
  }

  function DatabaseName(name: string): string {
    ProjectIdentifiers(name).0
  }

  function UserName(name: string): string {
    ProjectIdentifiers(name).1
  }

  /** Two names differ at most in which separator they use at a position. */
  predicate Collide(x: string, y: string) {
    |x| == |y| && forall i :: 0 <= i < |x| ==> x[i] == y[i] || (Separator(x[i]) && Separator(y[i]))
  }

  /** Names share a database, and equally a user, exactly when they collide. */
  lemma CollisionsCharacterised(x: string, y: string)
    ensures DatabaseName(x) == DatabaseName(y) <==> Collide(x, y)
    ensures UserName(x) == UserName(y) <==> Collide(x, y)
  {
    SuffixCancels(SafeName(x), SafeName(y), "_db");
    SuffixCancels(SafeName(x), SafeName(y), "_user");
    if SafeName(x) == SafeName(y) {
      forall i | 0 <= i < |x| ensures x[i] == y[i] || (Separator(x[i]) && Separator(y[i])) {
        assert SafeName(x)[i] == SafeName(y)[i];
      }
    }
  }

  lemma SuffixCancels(a: string, b: string, suffix: string)
    ensures a + suffix == b + suffix <==> a == b
  {
    if a + suffix == b + suffix {
      assert |a| == |b|;
      assert a == (a + suffix)[..|a|];
      assert b == (b + suffix)[..|b|];
    }
  }
}
