/** NUL-terminated text, and the parts of the C library the clients lean on:
    strlen, the decimal reading done by atoi, and its inverse. */
module CStrings {

  const NUL: char := '\0'

  /** What a `char *` argument denotes: the characters before the terminator. */
  type CString = s: string | NUL !in s

  /** The block `p` holds the text `s` followed by its terminator. */
  ghost predicate Holds(p: array<char>, s: string)
    reads p
  {
    |s| < p.Length && p[..|s|] == s && p[|s|] == NUL && NUL !in s
  }

  /** The library's strlen. */
  method Strlen(p: array<char>, ghost s: string) returns (n: nat)
    requires Holds(p, s)
    ensures n == |s|
  {
    n := 0;
    while p[n] != NUL
      invariant n <= |s|
      invariant forall k :: 0 <= k < |s| ==> p[k] == p[..|s|][k]
      decreases |s| - n
    {
      n := n + 1;
    }
  }

  /** The library's strchr, as a test: does `c` occur before the terminator? */
  method Contains(p: array<char>, c: char, ghost s: string) returns (found: bool)
    requires Holds(p, s)
    requires c != NUL
    ensures found <==> c in s
  {
    var n := 0;
    while p[n] != NUL
      invariant n <= |s|
      invariant c !in s[..n]
      invariant forall k :: 0 <= k < |s| ==> p[k] == p[..|s|][k]
      decreases |s| - n
    {
      if p[n] == c { return true; }
      n := n + 1;
    }
    assert s[..n] == s;
    return false;
  }

  // ---------- atoi ----------

  predicate IsDigit(c: char) { '0' <= c <= '9' }

  predicate IsSpace(c: char) { c == ' ' || '\t' <= c <= '\r' }

  function SkipSpace(s: string): string {
    if s != [] && IsSpace(s[0]) then SkipSpace(s[1..]) else s
  }

  /** Reads digits onto `acc`, stopping at the first other character. */
  function ReadDigits(s: string, acc: nat): nat {
    if s == [] || !IsDigit(s[0]) then acc
    else ReadDigits(s[1..], 10 * acc + (s[0] as int - '0' as int))
  }

  /** The library's atoi over unbounded integers. */
  function Atoi(s: string): int {
    var t := SkipSpace(s);
    if t != [] && t[0] == '-' then 0 - ReadDigits(t[1..], 0)
    else if t != [] && t[0] == '+' then ReadDigits(t[1..], 0)
    else ReadDigits(t, 0)
  }

  /** Decimal text of a number: what printf("%d") writes. */
  function Decimal(n: nat): (s: string)
    ensures s != [] && forall k :: 0 <= k < |s| ==> IsDigit(s[k])
  {
    var d := ['0' as int as char + (n % 10) as char];
    if n < 10 then d else Decimal(n / 10) + d
  }

  lemma {:induction false} ReadDecimal(n: nat, rest: string)
    ensures ReadDigits(Decimal(n) + rest, 0) == ReadDigits(rest, n)
  {
    var d := ['0' as int as char + (n % 10) as char];
    assert (d + rest)[1..] == rest;
    if n >= 10 {
      ReadDecimal(n / 10, d + rest);
      assert Decimal(n) + rest == Decimal(n / 10) + (d + rest);
    }
  }

  /** Text that a number ends at. */
  predicate EndsNumber(s: string) { s == [] || !IsDigit(s[0]) }

  predicate Zeros(s: string) { forall k :: 0 <= k < |s| ==> s[k] == '0' }

  predicate Spaces(s: string) { forall k :: 0 <= k < |s| ==> IsSpace(s[k]) }

  lemma {:induction false} ReadZeros(zeros: string, rest: string)
    requires Zeros(zeros)
    ensures ReadDigits(zeros + rest, 0) == ReadDigits(rest, 0)
  {
    if zeros == [] {
      assert zeros + rest == rest;
    } else {
      assert (zeros + rest)[1..] == zeros[1..] + rest;
      ReadZeros(zeros[1..], rest);
    }
  }

  /** Digits are read up to the first other character, and zeros in front of them
      change nothing. */
  lemma ReadNumber(zeros: string, n: nat, rest: string)
    requires Zeros(zeros) && EndsNumber(rest)
    ensures ReadDigits(zeros + Decimal(n) + rest, 0) == n
  {
    ReadZeros(zeros, Decimal(n) + rest);
    ReadDecimal(n, rest);
    assert zeros + Decimal(n) + rest == zeros + (Decimal(n) + rest);
  }

  lemma {:induction false} SkipSpaces(spaces: string, s: string)
    requires Spaces(spaces) && (s == [] || !IsSpace(s[0]))
    ensures SkipSpace(spaces + s) == s
  {
    if spaces == [] {
      assert spaces + s == s;
    } else {
      assert (spaces + s)[1..] == spaces[1..] + s;
      SkipSpaces(spaces[1..], s);
    }
  }

  /** What the library reads: white space, a sign, and digits up to the first other
      character.  Whatever follows them does not matter. */
  lemma AtoiReads(spaces: string, zeros: string, n: nat, rest: string)
    requires Spaces(spaces) && Zeros(zeros) && EndsNumber(rest)
    ensures Atoi(spaces + (zeros + Decimal(n) + rest)) == n
    ensures Atoi(spaces + (['+'] + (zeros + Decimal(n) + rest))) == n
    ensures Atoi(spaces + (['-'] + (zeros + Decimal(n) + rest))) == 0 - (n as int)
  {
    var digits := zeros + Decimal(n) + rest;
    ReadNumber(zeros, n, rest);
    assert IsDigit(digits[0]) by { assert digits[0] == if zeros == [] then Decimal(n)[0] else zeros[0]; }
    SkipSpaces(spaces, digits);
    SkipSpaces(spaces, ['+'] + digits);
    SkipSpaces(spaces, ['-'] + digits);
    assert (['+'] + digits)[1..] == digits && (['-'] + digits)[1..] == digits;
  }

  /** Without a digit in that place it reads 0. */
  lemma AtoiReadsNothing(spaces: string, rest: string)
    requires Spaces(spaces) && EndsNumber(rest)
    ensures rest == [] || !(IsSpace(rest[0]) || rest[0] == '+' || rest[0] == '-') ==> Atoi(spaces + rest) == 0
    ensures Atoi(spaces + (['+'] + rest)) == 0 && Atoi(spaces + (['-'] + rest)) == 0
  {
    if rest == [] || !IsSpace(rest[0]) { SkipSpaces(spaces, rest); }
    SkipSpaces(spaces, ['+'] + rest);
    SkipSpaces(spaces, ['-'] + rest);
    assert (['+'] + rest)[1..] == rest && (['-'] + rest)[1..] == rest;
  }

  /** atoi undoes the decimal printer. */
  lemma AtoiDecimal(n: nat)
    ensures Atoi(Decimal(n)) == n
  {
    AtoiReads([], [], n, []);
    assert [] + ([] + Decimal(n) + []) == Decimal(n);
  }
}
