/**
 The password generator: base64url text of 24 random bytes with one character
 of each class written over it at four distinct positions.
 */
module Passwords {
  import opened Common
  import opened SqlText

  type Byte = b: int | 0 <= b < 256

  datatype RandError = RandFailed | TooShort

  // ---------------------------------------------------------------- base64url

  /** The `k`th character of a run of consecutive characters. */
  function Nth(first: char, k: int): (c: char)
    requires 0 <= k < 26 && first as int < 128
    ensures c as int == first as int + k
  {
    (first as int + k) as char
  }

  /** The URL-safe alphabet of section 5 of RFC 4648. */
  function Base64Char(v: int): (c: char)
    requires 0 <= v < 64
    ensures SafeChar(c) && !Special(c)
    ensures Base64Value(c) == v
  {
    if v < 26 then Nth('A', v)
    else if v < 52 then Nth('a', v - 26)
    else if v < 62 then Nth('0', v - 52)
    else if v == 62 then '-' else '_'
  }

  /** The value of an alphabet character. */
  function Base64Value(c: char): (v: int) {
    if 'A' <= c <= 'Z' then c as int - 'A' as int
    else if 'a' <= c <= 'z' then c as int - 'a' as int + 26
    else if '0' <= c <= '9' then c as int - '0' as int + 52
    else if c == '-' then 62 else 63
  }

  /** The `k`th of the characters `!@#$%^&*`. */
  function NthSpecial(k: int): (c: char)
    requires 0 <= k < 8
    ensures Special(c)
  {
    SPECIALS[k]
  }

  /** One group of three bytes as four characters, six bits each. */
  function EncodeGroup(a: Byte, b: Byte, c: Byte): (r: string)
    ensures |r| == 4
  {
    [Base64Char(a / 4), Base64Char(a % 4 * 16 + b / 16), Base64Char(b % 16 * 4 + c / 64), Base64Char(c % 64)]
  }

  /** Encoding without padding, for whole groups. */
  function Encode(buf: seq<Byte>): (r: string)
    requires |buf| % 3 == 0
    ensures |r| == |buf| / 3 * 4
    ensures forall i :: 0 <= i < |r| ==> SafeChar(r[i]) && !Special(r[i])
  {
    if buf == [] then "" else EncodeGroup(buf[0], buf[1], buf[2]) + Encode(buf[3..])
  }

  function DecodeGroup(p: int, q: int, r: int, s: int): seq<int> {
    [p * 4 + q / 16, q % 16 * 16 + r / 4, r % 4 * 64 + s]
  }

  function Decode(text: string): seq<int>
    requires |text| % 4 == 0
  {
    if text == "" then [] else
      DecodeGroup(Base64Value(text[0]), Base64Value(text[1]), Base64Value(text[2]), Base64Value(text[3]))
      + Decode(text[4..])
  }

  lemma GroupArithmetic(a: Byte, b: Byte, c: Byte)
    ensures DecodeGroup(a / 4, a % 4 * 16 + b / 16, b % 16 * 4 + c / 64, c % 64) == [a, b, c]
  {
    assert (a % 4 * 16 + b / 16) / 16 == a % 4;
    assert (a % 4 * 16 + b / 16) % 16 == b / 16;
    assert (b % 16 * 4 + c / 64) / 4 == b % 16;
    assert (b % 16 * 4 + c / 64) % 4 == c / 64;
  }

  lemma DecodeOneGroup(p: int, q: int, r: int, s: int, rest: string)
    requires 0 <= p < 64 && 0 <= q < 64 && 0 <= r < 64 && 0 <= s < 64
    requires |rest| % 4 == 0
    ensures Decode([Base64Char(p), Base64Char(q), Base64Char(r), Base64Char(s)] + rest) == DecodeGroup(p, q, r, s) + Decode(rest)
  {
    var text := [Base64Char(p), Base64Char(q), Base64Char(r), Base64Char(s)] + rest;
    assert text[4..] == rest;
  }

  lemma DecodeEncodedGroup(a: Byte, b: Byte, c: Byte, rest: string)
    requires |rest| % 4 == 0
    ensures Decode(EncodeGroup(a, b, c) + rest) == [a, b, c] + Decode(rest)
  {
    var p, q, r, s := a / 4, a % 4 * 16 + b / 16, b % 16 * 4 + c / 64, c % 64;
    DecodeOneGroup(p, q, r, s, rest);
    GroupArithmetic(a, b, c);
  }

  lemma FirstGroup(buf: seq<Byte>)
    requires |buf| % 3 == 0 && buf != []
    ensures Encode(buf) == EncodeGroup(buf[0], buf[1], buf[2]) + Encode(buf[3..])
  {
  }

  lemma FirstBytes(buf: seq<Byte>)
    requires |buf| >= 3
    ensures buf == [buf[0], buf[1], buf[2]] + buf[3..]
  {
  }

  lemma DecodeCons(a: Byte, b: Byte, c: Byte, tail: string, rest: seq<Byte>)
    requires |tail| % 4 == 0 && Decode(tail) == rest
    ensures Decode(EncodeGroup(a, b, c) + tail) == [a, b, c] + rest
  {
    DecodeEncodedGroup(a, b, c, tail);
  }

  /** The encoding loses nothing: the bytes can be read back from the text. */
  lemma {:induction false} EncodeRoundTrip(buf: seq<Byte>)
    requires |buf| % 3 == 0
    ensures Decode(Encode(buf)) == buf
  {
    if buf != [] {
      var rest := buf[3..];
      EncodeRoundTrip(rest);
      FirstGroup(buf);
      FirstBytes(buf);
      DecodeCons(buf[0], buf[1], buf[2], Encode(rest), rest);
    }
  }

  /** The ASCII code of the alphabet's `v`th character: upper case, lower case, digits, `-`, `_`. */
  function AlphabetCode(v: int): int {
    if v < 26 then 65 + v else if v < 52 then 71 + v else if v < 62 then v - 4 else if v == 62 then 45 else 95
  }

  lemma AlphabetCodes(v: int)
    requires 0 <= v < 64
    ensures Base64Char(v) as int == AlphabetCode(v)
  {
  }

  /** Three bytes as one number, most significant first. */
  function Word(a: Byte, b: Byte, c: Byte): int {
    (a * 256 + b) * 256 + c
  }

  /** The number's digits in base 64, most significant first. */
  function Sextets(w: int): seq<int> {
    [w / 64 / 64 / 64, w / 64 / 64 % 64, w / 64 % 64, w % 64]
  }

  lemma LastDigit(x: int, d: int)
    requires 0 <= d < 64
    ensures (x * 64 + d) / 64 == x && (x * 64 + d) % 64 == d
  {
  }

  lemma WordDigits(a: Byte, b: Byte, c: Byte)
    ensures Sextets(Word(a, b, c)) == [a / 4, a % 4 * 16 + b / 16, b % 16 * 4 + c / 64, c % 64]
  {
    var p, q, r, s := a / 4, a % 4 * 16 + b / 16, b % 16 * 4 + c / 64, c % 64;
    assert Word(a, b, c) == ((p * 64 + q) * 64 + r) * 64 + s;
    LastDigit((p * 64 + q) * 64 + r, s);
    LastDigit(p * 64 + q, r);
    LastDigit(p, q);
  }

  /** The encoded group holds the digits of its word. */
  predicate Spells(text: string, w: int) {
    |text| == 4 && forall j :: 0 <= j < 4 ==> text[j] as int == AlphabetCode(Sextets(w)[j])
  }

  lemma GroupSpellsWord(a: Byte, b: Byte, c: Byte)
    ensures Spells(EncodeGroup(a, b, c), Word(a, b, c))
  {
    WordDigits(a, b, c);
    AlphabetCodes(a / 4);
    AlphabetCodes(a % 4 * 16 + b / 16);
    AlphabetCodes(b % 16 * 4 + c / 64);
    AlphabetCodes(c % 64);
  }

  /** Every four characters of the encoding are the alphabet's characters for the bits of their three bytes. */
  lemma {:induction false} EncodedAt(buf: seq<Byte>, k: nat)
    requires |buf| % 3 == 0 && 3 * k < |buf|
    ensures Spells(Encode(buf)[4 * k..4 * k + 4], Word(buf[3 * k], buf[3 * k + 1], buf[3 * k + 2]))
  {
    var group, rest := EncodeGroup(buf[0], buf[1], buf[2]), buf[3..];
    FirstGroup(buf);
    if k == 0 {
      GroupSpellsWord(buf[0], buf[1], buf[2]);
      assert (group + Encode(rest))[..4] == group;
    } else {
      EncodedAt(rest, k - 1);
      var j := k - 1;
      assert rest[3 * j] == buf[3 * k] && rest[3 * j + 1] == buf[3 * k + 1] && rest[3 * j + 2] == buf[3 * k + 2];
      assert (group + Encode(rest))[4 * k..4 * k + 4] == Encode(rest)[4 * j..4 * j + 4];
    }
  }

  // ---------------------------------------------------------------- positions

  /** The smallest slot in `[from, n)` that is not taken. */
  function FirstFree(taken: set<int>, from: nat, n: nat): (j: nat)
    requires exists j :: from <= j < n && j !in taken
    ensures from <= j < n && j !in taken
    ensures forall k :: from <= k < j ==> k in taken
    decreases n - from
  {
    if from !in taken then from else FirstFree(taken, from + 1, n)
  }

  function Range(n: nat): (r: set<int>)
    ensures |r| == n && forall j :: j in r <==> 0 <= j < n
  {
    if n == 0 then {} else Range(n - 1) + {n - 1}
  }

  lemma SomeSlotIsFree(taken: set<int>, n: nat)
    requires |taken| < n
    ensures exists j :: 0 <= j < n && j !in taken
  {
    assert |Range(n) - taken| >= n - |taken|;
    var j :| j in Range(n) - taken;
  }

  function Elements(p: seq<int>): set<int> {
    set i | 0 <= i < |p| :: p[i]
  }

  lemma {:induction false} ElementsSize(p: seq<int>)
    ensures |Elements(p)| <= |p|
  {
    if p != [] {
      var q := p[..|p| - 1];
      ElementsSize(q);
      assert p == q + [p[|p| - 1]];
      ElementsSnoc(q, p[|p| - 1]);
    }
  }

  lemma ElementsSnoc(p: seq<int>, x: int)
    ensures Elements(p + [x]) == Elements(p) + {x}
  {
    var q := p + [x];
    assert forall i :: 0 <= i < |p| ==> q[i] == p[i];
    assert q[|p|] == x;
  }

  predicate Distinct(p: seq<int>) {
    forall i, j :: 0 <= i < j < |p| ==> p[i] != p[j]
  }

  /** Entry `p` if it is new, else the smallest unused slot. */
  ghost function Settle(done: seq<int>, p: int, n: nat): (r: int)
    requires |done| < n && 0 <= p < n
    ensures 0 <= r < n && r !in Elements(done)
    ensures p !in Elements(done) ==> r == p
    ensures p in Elements(done) ==> forall k :: 0 <= k < r ==> k in Elements(done)
  {
    if p !in Elements(done) then p
    else
      assert exists j :: 0 <= j < n && j !in Elements(done) by {
        ElementsSize(done);
        SomeSlotIsFree(Elements(done), n);
      }
      FirstFree(Elements(done), 0, n)
  }

  /** The positions after deduplication, settled from the left. */
  ghost function Deduplicated(p: seq<int>, n: nat): (r: seq<int>)
    requires |p| <= n && forall i :: 0 <= i < |p| ==> 0 <= p[i] < n
    ensures |r| == |p| && Distinct(r) && forall i :: 0 <= i < |r| ==> 0 <= r[i] < n
  {
    if p == [] then [] else
      var done := Deduplicated(p[..|p| - 1], n);
      done + [Settle(done, p[|p| - 1], n)]
  }

  /** Where an entry drawn as `p` ends up behind the positions before it: unmoved, or in the smallest slot they leave. */
  ghost predicate SettledBehind(before: seq<int>, p: int, r: int) {
    && r !in before
    && (p !in before ==> r == p)
    && (p in before ==> r >= 0 && forall k :: 0 <= k < r ==> k in before)
  }

  lemma {:induction false} DeduplicatedAt(p: seq<int>, n: nat, i: nat)
    requires i < |p| <= n && forall j :: 0 <= j < |p| ==> 0 <= p[j] < n
    ensures SettledBehind(Deduplicated(p, n)[..i], p[i], Deduplicated(p, n)[i])
  {
    var done := Deduplicated(p[..|p| - 1], n);
    if i < |p| - 1 {
      DeduplicatedAt(p[..|p| - 1], n, i);
      assert Deduplicated(p, n)[..i] == done[..i];
    } else {
      assert Deduplicated(p, n)[..i] == done;
      assert forall k :: k in Elements(done) <==> k in done;
    }
  }

  lemma AllSettled(p: seq<int>, n: nat)
    requires |p| <= n && forall j :: 0 <= j < |p| ==> 0 <= p[j] < n
    ensures forall i :: 0 <= i < |p| ==> SettledBehind(Deduplicated(p, n)[..i], p[i], Deduplicated(p, n)[i])
  {
    forall i | 0 <= i < |p| ensures SettledBehind(Deduplicated(p, n)[..i], p[i], Deduplicated(p, n)[i]) {
      DeduplicatedAt(p, n, i);
    }
  }

  // ---------------------------------------------------------------- the generator

  ghost function FinalPositions(idx: seq<Byte>): (r: seq<int>)
    requires |idx| == 4
    ensures |r| == 4 && Distinct(r) && forall i :: 0 <= i < 4 ==> 0 <= r[i] < 32
  {
    Deduplicated([idx[0] % 32, idx[1] % 32, idx[2] % 32, idx[3] % 32], 32)
  }

  /** `pw` is `enc` with one character of each class at the four positions. */
  ghost predicate Overwrites(pw: string, enc: string, pos: seq<int>, idx: seq<Byte>)
    requires |enc| == 32 && |pos| == 4 && |idx| == 4 && forall i :: 0 <= i < 4 ==> 0 <= pos[i] < 32
  {
    && |pw| == 32
    && pw[pos[0]] == Nth('a', idx[0] % 26)
    && pw[pos[1]] == Nth('A', idx[1] % 26)
    && pw[pos[2]] == Nth('0', idx[2] % 10)
    && pw[pos[3]] == NthSpecial(idx[3] % 8)
    && forall i :: 0 <= i < 32 && i !in pos ==> pw[i] == enc[i]
  }

  /** What the generator returns for the given random bytes. */
  ghost predicate IsGenerated(pw: string, buf: seq<Byte>, idx: seq<Byte>)
    requires |buf| == 24 && |idx| == 4
  {
    Overwrites(pw, Encode(buf), FinalPositions(idx), idx)
  }

  predicate HasAllClasses(pw: string) {
    && (exists i :: 0 <= i < |pw| && 'a' <= pw[i] <= 'z')
    && (exists i :: 0 <= i < |pw| && 'A' <= pw[i] <= 'Z')
    && (exists i :: 0 <= i < |pw| && Digit(pw[i]))
    && (exists i :: 0 <= i < |pw| && Special(pw[i]))
  }

  lemma OverwritingGivesAllClasses(pw: string, enc: string, pos: seq<int>, idx: seq<Byte>)
    requires |enc| == 32 && |pos| == 4 && |idx| == 4 && forall i :: 0 <= i < 4 ==> 0 <= pos[i] < 32
    requires Overwrites(pw, enc, pos, idx)
    requires forall i :: 0 <= i < 32 ==> SafeChar(enc[i])
    ensures HasAllClasses(pw) && IsSafePasswordLiteral(pw)
  {
    forall i | 0 <= i < 32 ensures SafeChar(pw[i]) {
      if i in pos {
        assert i == pos[0] || i == pos[1] || i == pos[2] || i == pos[3];
      } else {
        assert pw[i] == enc[i];
      }
    }
  }

  /** Whatever the random bytes, the password meets the policy, is safe to embed, and so never makes quoting panic. */
  lemma GeneratedIsStrong(pw: string, buf: seq<Byte>, idx: seq<Byte>)
    requires |buf| == 24 && |idx| == 4 && IsGenerated(pw, buf, idx)
    ensures |pw| == 32 && HasAllClasses(pw) && IsSafePasswordLiteral(pw)
    ensures QuoteMySQLString(pw).Some?
  {
    OverwritingGivesAllClasses(pw, Encode(buf), FinalPositions(idx), idx);
  }

  /** The positions a draw settles on, without reference to how they are found. */
  ghost predicate DrawnPositions(pos: seq<int>, idx: seq<Byte>)
    requires |idx| == 4
  {
    |pos| == 4 && forall i :: 0 <= i < 4 ==> 0 <= pos[i] < 32 && SettledBehind(pos[..i], idx[i] % 32, pos[i])
  }

  lemma FinalPositionsAreDrawn(idx: seq<Byte>)
    requires |idx| == 4
    ensures DrawnPositions(FinalPositions(idx), idx)
  {
    var pos := FinalPositions(idx);
    forall i | 0 <= i < 4 ensures SettledBehind(pos[..i], idx[i] % 32, pos[i]) {
      DeduplicatedAt([idx[0] % 32, idx[1] % 32, idx[2] % 32, idx[3] % 32], 32, i);
    }
  }

  /** The `i`th character of the base64url text of the bytes. */
  function EncodedCode(buf: seq<Byte>, i: nat): int
    requires |buf| == 24 && i < 32
  {
    var k := i / 4;
    AlphabetCode(Sextets(Word(buf[3 * k], buf[3 * k + 1], buf[3 * k + 2]))[i % 4])
  }

  lemma EncodedCharacter(buf: seq<Byte>, i: nat)
    requires |buf| == 24 && i < 32
    ensures Encode(buf)[i] as int == EncodedCode(buf, i)
  {
    var k, j := i / 4, i % 4;
    EncodedAt(buf, k);
    assert Encode(buf)[4 * k..4 * k + 4][j] == Encode(buf)[i];
  }

  /**
   The password, character by character: at the drawn positions the drawn
   lower-case letter, upper-case letter, digit and special, everywhere else the
   base64url text of the 24 bytes.
   */
  lemma GeneratedText(pw: string, buf: seq<Byte>, idx: seq<Byte>) returns (pos: seq<int>)
    requires |buf| == 24 && |idx| == 4 && IsGenerated(pw, buf, idx)
    ensures DrawnPositions(pos, idx) && |pw| == 32
    ensures pw[pos[0]] as int == 97 + idx[0] % 26 && pw[pos[1]] as int == 65 + idx[1] % 26
    ensures pw[pos[2]] as int == 48 + idx[2] % 10 && pw[pos[3]] == "!@#$%^&*"[idx[3] % 8]
    ensures forall i :: 0 <= i < 32 && i !in pos ==> pw[i] as int == EncodedCode(buf, i)
  {
    pos := FinalPositions(idx);
    FinalPositionsAreDrawn(idx);
    forall i | 0 <= i < 32 && i !in pos ensures pw[i] as int == EncodedCode(buf, i) {
      EncodedCharacter(buf, i);
    }
  }

  /** The search of the inner loop: a position already seen moves to the smallest slot not seen yet. */
  method SettleEntry(ghost done: seq<int>, seen: set<int>, p: int, n: nat) returns (r: int)
    requires |done| < n && 0 <= p < n && seen == Elements(done)
    ensures r == Settle(done, p, n)
    ensures p !in seen ==> r == p
    ensures p in seen ==> r !in seen && forall k :: 0 <= k < r ==> k in seen
  {
    r := p;
    if p in seen {
      r := 0;
      while r in seen
        invariant 0 <= r <= Settle(done, p, n)
        invariant forall k :: 0 <= k < r ==> k in seen
        decreases n - r
      {
        r := r + 1;
      }
    }
  }

  /** Deduplicates the positions in place, settling them from the left. */
  method Deduplicate(pos: array<int>, n: nat)
    requires pos.Length <= n && forall i :: 0 <= i < pos.Length ==> 0 <= pos[i] < n
    modifies pos
    ensures pos[..] == Deduplicated(old(pos[..]), n)
    ensures forall i :: 0 <= i < pos.Length ==> SettledBehind(pos[..][..i], old(pos[..])[i], pos[..][i])
  {
    ghost var start := pos[..];
    var seen: set<int> := {};
    for i := 0 to pos.Length
      invariant pos[..i] == Deduplicated(start[..i], n)
      invariant pos[i..] == start[i..]
      invariant seen == Elements(pos[..i])
    {
      ghost var done, rest := pos[..i], pos[i..];
      assert pos[i] == rest[0] == start[i];
      assert start[..i + 1][..i] == start[..i];
      pos[i] := SettleEntry(done, seen, pos[i], n);
      seen := seen + {pos[i]};
      assert pos[..i + 1] == done + [pos[i]];
      ElementsSnoc(done, pos[i]);
      assert pos[i + 1..] == rest[1..] == start[i + 1..];
    }
    assert start[..pos.Length] == start && pos[..pos.Length] == pos[..];
    AllSettled(start, n);
  }

  /** Writes one character of each class over the buffer. */
  method Overwrite(pw: array<char>, pos: seq<int>, idx: seq<Byte>)
    requires pw.Length == 32 && |idx| == 4 && |pos| == 4 && Distinct(pos) && forall i :: 0 <= i < 4 ==> 0 <= pos[i] < 32
    modifies pw
    ensures Overwrites(pw[..], old(pw[..]), pos, idx)
  {
    assert pos[0] != pos[1] && pos[0] != pos[2] && pos[0] != pos[3] && pos[1] != pos[2] && pos[1] != pos[3] && pos[2] != pos[3];
    pw[pos[0]] := Nth('a', idx[0] % 26);
    pw[pos[1]] := Nth('A', idx[1] % 26);
    pw[pos[2]] := Nth('0', idx[2] % 10);
    pw[pos[3]] := NthSpecial(idx[3] % 8);
  }

  /** The generator. A draw is `None` when the random source fails. */
  method RandomPassword(draw0: Option<seq<Byte>>, draw1: Option<seq<Byte>>) returns (r: Result<string, RandError>)
    requires draw0.Some? ==> |draw0.value| == 24
    requires draw1.Some? ==> |draw1.value| == 4
    ensures r.Success? <==> draw0.Some? && draw1.Some?
    ensures r.Success? ==> IsGenerated(r.value, draw0.value, draw1.value)
    ensures r.Failure? ==> r.error == RandFailed
  {
    if draw0.None? {
      return Failure(RandFailed);
    }
    var enc := Encode(draw0.value);
    var n := |enc|;
    assert n == 32;
    var pw := new char[n](i requires 0 <= i < n => enc[i]);
    if n < 8 {
      return Failure(TooShort);
    }
    if draw1.None? {
      return Failure(RandFailed);
    }
    var idx := draw1.value;
    assert pw[..] == enc;
    var pos := new int[4][idx[0] % n, idx[1] % n, idx[2] % n, idx[3] % n];
    assert pos[..] == [idx[0] % 32, idx[1] % 32, idx[2] % 32, idx[3] % 32];
    Deduplicate(pos, n);
    ghost var final := pos[..];
    assert final == FinalPositions(idx) && pw[..] == enc;
    Overwrite(pw, pos[..], idx);
    return Success(pw[..]);
  }
}
