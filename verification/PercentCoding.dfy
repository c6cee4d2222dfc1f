/** The percent decoder of the proxy URL (client_shared.c, mosquitto__urldecode).

    It edits its buffer in place, closing each gap by shifting the tail left,
    while its own bound shrinks.  The reference is a decoder that reads text from
    left to right and never looks back. */
module PercentCoding {
  import opened CStrings

  /** One of `%25`, `%3A`, `%3a`, `%40` starts at position `k`. */
  predicate IsEscape(s: string, k: nat) {
    k + 2 < |s| && s[k] == '%' &&
    (|| (s[k + 1] == '2' && s[k + 2] == '5')
     || (s[k + 1] == '3' && (s[k + 2] == 'A' || s[k + 2] == 'a'))
     || (s[k + 1] == '4' && s[k + 2] == '0'))
  }

  /** `%40` starts at position `k`. */
  predicate IsAtEscape(s: string, k: nat) {
    IsEscape(s, k) && s[k + 1] == '4'
  }

  /** The character the escape at the front of `s` stands for, with `at` for `%40`. */
  function Unescaped(s: string, at: char): char
    requires IsEscape(s, 0)
  {
    if s[1] == '2' then '%' else if s[1] == '3' then ':' else at
  }

  /** Text decoded so far, and what is left from the first `%` that starts no escape. */
  datatype Decoded = Decoded(done: string, stuck: string)

  /** Left-to-right decoding, with `at` written for `%40`. */
  function DecodeWith(s: string, at: char): Decoded {
    if s == [] then Decoded([], [])
    else if s[0] != '%' then
      var d := DecodeWith(s[1..], at);
      d.(done := [s[0]] + d.done)
    else if IsEscape(s, 0) then
      var d := DecodeWith(s[3..], at);
      d.(done := [Unescaped(s, at)] + d.done)
    else Decoded([], s)
  }

  /** The decoder as written: line 810 stores ':' for `%40`. */
  function Decode(s: string): Decoded { DecodeWith(s, ':') }

  /** The decoder as its own comment (line 780) describes it. */
  function DocumentedDecode(s: string): Decoded { DecodeWith(s, '@') }

  // ---------- the in-place decoder ----------

  /** Removes the two characters after position `i` from text ending at `len`. */
  method CloseGap(str: array<char>, i: nat, len: nat)
    requires i + 2 < len < str.Length
    requires str[len] == NUL
    modifies str
    ensures str[..i + 1] == old(str[..i + 1])
    ensures str[i + 1..len - 2] == old(str[i + 3..len])
    ensures str[len - 2] == NUL
  {
    var j := i + 1;
    while j < len - 2
      invariant i + 1 <= j <= len - 2
      invariant str[..i + 1] == old(str[..i + 1])
      invariant forall k :: i + 1 <= k < j ==> str[k] == old(str[k + 2])
      invariant forall k :: j <= k <= len ==> str[k] == old(str[k])
    {
      str[j] := str[j + 2];
      j := j + 1;
    }
    str[j] := NUL;
  }

  /** The `%` branch at position `i`: writes the decoded character and closes the
      gap, or reports that no escape starts here and leaves the buffer alone. */
  method ReplaceEscape(str: array<char>, i: nat, len: nat) returns (ok: bool)
    requires i < len < str.Length && str[i] == '%' && str[len] == NUL
    modifies str
    ensures ok <==> IsEscape(old(str[i..len]), 0)
    ensures !ok ==> str[..] == old(str[..])
    ensures ok ==> str[..i] == old(str[..i]) && str[i] == Unescaped(old(str[i..len]), ':')
    ensures ok ==> str[i + 1..len - 2] == old(str[i + 3..len]) && str[len - 2] == NUL
  {
    ghost var todo := str[i..len];
    if i + 2 >= len { return false; }
    assert todo[1] == str[i + 1] && todo[2] == str[i + 2];
    if str[i + 1] == '2' && str[i + 2] == '5' {
      str[i] := '%';
    } else if str[i + 1] == '3' && (str[i + 2] == 'A' || str[i + 2] == 'a') {
      str[i] := ':';
    } else if str[i + 1] == '4' && str[i + 2] == '0' {
      str[i] := ':';
    } else {
      return false;
    }
    assert str[..i + 1][i] == Unescaped(todo, ':');
    assert str[..i + 1][..i] == old(str[..i]);
    CloseGap(str, i, len);
    assert str[..i + 1][..i] == str[..i] && str[..i + 1][i] == str[i];
    return true;
  }

  /** The text is cut into what is decoded and what is still to be read. */
  ghost predicate Progress(text: string, out: string, todo: string) {
    NUL !in out && NUL !in todo &&
    Decode(text).done == out + Decode(todo).done && Decode(text).stuck == Decode(todo).stuck
  }

  lemma ProgressStep(text: string, out: string, todo: string)
    requires Progress(text, out, todo) && todo != []
    ensures todo[0] != '%' ==> Progress(text, out + [todo[0]], todo[1..])
    ensures todo[0] == '%' && IsEscape(todo, 0) ==> Progress(text, out + [Unescaped(todo, ':')], todo[3..])
  {
    if todo[0] != '%' {
      var d := Decode(todo[1..]).done;
      assert out + ([todo[0]] + d) == (out + [todo[0]]) + d;
    } else if IsEscape(todo, 0) {
      var c, d := Unescaped(todo, ':'), Decode(todo[3..]).done;
      assert out + ([c] + d) == (out + [c]) + d;
    }
  }

  /** One turn of the outer loop: the character at `i` is decoded, and the text
      behind it moves up.  False is the failing return. */
  method DecodeAt(str: array<char>, i: nat, len: nat, ghost text: string) returns (ok: bool, rest: nat)
    requires i < len < str.Length && str[len] == NUL
    requires Progress(text, str[..i], str[i..len])
    modifies str
    ensures ok ==> i < rest <= len && str[rest] == NUL && Progress(text, str[..i + 1], str[i + 1..rest])
    ensures !ok ==> str[..] == old(str[..]) && Decode(text).stuck == str[i..len] && Decode(text).done == str[..i]
  {
    ghost var out, todo := str[..i], str[i..len];
    ok, rest := true, len;
    ProgressStep(text, out, todo);
    if str[i] == '%' {
      ok := ReplaceEscape(str, i, len);
      if !ok {
        assert str[..i] == str[..][..i] && str[i..len] == str[..][i..len];
        assert out + [] == out;
        return;
      }
      rest := len - 2;
      assert str[i + 1..rest] == todo[3..];
    } else {
      assert str[i + 1..rest] == todo[1..];
    }
    assert str[..i + 1] == out + [str[i]];
  }

  /** Decodes the text in `str` in place: 0 on success, 1 at the first `%` that
      starts no escape.  Either way the buffer then holds what was decoded
      followed by what was not looked at, so nothing is ever decoded twice. */
  method UrlDecode(str: array?<char>, ghost text: string) returns (rc: int)
    requires str != null ==> Holds(str, text)
    modifies str
    ensures str == null ==> rc == 0
    ensures str != null ==> Holds(str, Decode(text).done + Decode(text).stuck)
    ensures str != null ==> rc == if Decode(text).stuck == [] then 0 else 1
  {
    if str == null { return 0; }
    var found := Contains(str, '%', text);
    if !found {
      NothingToDecode(text, ':');
      assert text + [] == text;
      return 0;
    }
    var len := Strlen(str, text);
    var i := 0;
    while i < len
      invariant i <= len < str.Length && str[len] == NUL
      invariant Progress(text, str[..i], str[i..len])
      decreases len - i
    {
      var ok, rest := DecodeAt(str, i, len, text);
      if !ok {
        assert str[..i] + str[i..len] == str[..len];
        return 1;
      }
      i, len := i + 1, rest;
    }
    assert str[..len] + [] + [] == str[..len];
    return 0;
  }

  // ---------- what the reference decoder means ----------

  lemma {:induction false} NothingToDecode(s: string, at: char)
    requires '%' !in s
    ensures DecodeWith(s, at) == Decoded(s, [])
  {
    if s != [] { NothingToDecode(s[1..], at); }
  }

  function Count(s: string, c: char): nat {
    if s == [] then 0 else (if s[0] == c then 1 else 0) + Count(s[1..], c)
  }

  /** Decoding succeeds exactly when every `%` starts an escape, and then each
      escape makes the text two characters shorter. */
  lemma {:induction false} DecodeSucceeds(s: string)
    ensures Decode(s).stuck == [] <==> forall k :: 0 <= k < |s| && s[k] == '%' ==> IsEscape(s, k)
    ensures Decode(s).stuck == [] ==> |Decode(s).done| == |s| - 2 * Count(s, '%')
  {
    if s == [] {
    } else if s[0] != '%' {
      DecodeSucceeds(s[1..]);
      ShiftEscapes(s, 1);
    } else if IsEscape(s, 0) {
      DecodeSucceeds(s[3..]);
      ShiftEscapes(s, 3);
      assert Count(s, '%') == 1 + Count(s[3..], '%') by {
        assert s[1..][1..] == s[2..] && s[2..][1..] == s[3..];
        assert Count(s[1..], '%') == Count(s[2..], '%');
        assert Count(s[2..], '%') == Count(s[3..], '%');
      }
    } else {
      assert s[0] == '%' && !IsEscape(s, 0);
    }
  }

  /** Escapes keep their place when a prefix is cut off. */
  lemma ShiftEscapes(s: string, n: nat)
    requires n <= |s|
    ensures forall k {:trigger IsEscape(s[n..], k)} ::
              0 <= k < |s| - n ==> (IsEscape(s[n..], k) <==> IsEscape(s, n + k))
    ensures forall k {:trigger IsEscape(s, k)} :: n <= k < |s| ==> (IsEscape(s[n..], k - n) <==> IsEscape(s, k))
  {
    forall k | 0 <= k < |s| - n
      ensures IsEscape(s[n..], k) <==> IsEscape(s, n + k)
    {
      if n + k + 2 < |s| {
        assert s[n..][k] == s[n + k] && s[n..][k + 1] == s[n + k + 1] && s[n..][k + 2] == s[n + k + 2];
      }
    }
    forall k | n <= k < |s|
      ensures IsEscape(s[n..], k - n) <==> IsEscape(s, k)
    {
      if k + 2 < |s| {
        assert s[n..][k - n] == s[k] && s[n..][k - n + 1] == s[k + 1] && s[n..][k - n + 2] == s[k + 2];
      }
    }
  }

  /** Where decoding succeeds, the code agrees with its comment exactly on text
      without `%40`. */
  lemma {:induction false} AgreesWithComment(s: string)
    requires Decode(s).stuck == []
    ensures Decode(s) == DocumentedDecode(s) <==> forall k :: 0 <= k < |s| ==> !IsAtEscape(s, k)
  {
    if s == [] {
    } else {
      var n := if s[0] == '%' then 3 else 1;
      AgreesWithComment(s[n..]);
      ShiftEscapes(s, n);
      SameOutcome(s[n..]);
      var a, b := Decode(s), DocumentedDecode(s);
      assert a.done[1..] == Decode(s[n..]).done && b.done[1..] == DocumentedDecode(s[n..]).done;
      assert forall k :: 0 <= k < |s| - n ==> (IsAtEscape(s[n..], k) <==> IsAtEscape(s, n + k));
      if IsAtEscape(s, 0) {
        assert a.done[0] != b.done[0];
      } else {
        assert a.done[0] == b.done[0];
        if n == 3 { assert !IsAtEscape(s, 1) && !IsAtEscape(s, 2); }
        forall k | 0 <= k < |s| && IsAtEscape(s, k)
          ensures n <= k && IsAtEscape(s[n..], k - n)
        {
        }
      }
    }
  }

  lemma {:induction false} SameOutcome(s: string)
    ensures Decode(s).stuck == DocumentedDecode(s).stuck
  {
    if s != [] {
      if s[0] != '%' { SameOutcome(s[1..]); } else if IsEscape(s, 0) { SameOutcome(s[3..]); }
    }
  }

  // ---------- the texts that decode to a given one ----------

  /** One character and a way to write it: itself unless it is '%', or its escape, in
      either case of the letter; `%40` is a way to write `at`. */
  predicate Spells(piece: string, c: char, at: char) {
    || (piece == [c] && c != '%')
    || (piece == "%25" && c == '%')
    || ((piece == "%3A" || piece == "%3a") && c == ':')
    || (piece == "%40" && c == at)
  }

  function Flatten(pieces: seq<string>): string {
    if pieces == [] then [] else pieces[0] + Flatten(pieces[1..])
  }

  /** `pieces` write the characters of `t`, one each. */
  predicate Spelling(pieces: seq<string>, t: string, at: char) {
    |pieces| == |t| && forall k :: 0 <= k < |t| ==> Spells(pieces[k], t[k], at)
  }

  lemma {:induction false} SpellingDecodes(pieces: seq<string>, t: string, at: char)
    requires Spelling(pieces, t, at)
    ensures DecodeWith(Flatten(pieces), at) == Decoded(t, [])
    decreases |t|
  {
    if t != [] {
      var p, rest := pieces[0], Flatten(pieces[1..]);
      assert Spells(p, t[0], at);
      SpellingDecodes(pieces[1..], t[1..], at);
      assert (p + rest)[|p|..] == rest;
      assert [t[0]] + t[1..] == t;
    }
  }

  lemma {:induction false} DecodedIsSpelled(s: string, at: char) returns (pieces: seq<string>)
    requires DecodeWith(s, at).stuck == []
    ensures Flatten(pieces) == s && Spelling(pieces, DecodeWith(s, at).done, at)
  {
    if s == [] {
      pieces := [];
    } else {
      var n := if s[0] == '%' then 3 else 1;
      var more := DecodedIsSpelled(s[n..], at);
      pieces := [s[..n]] + more;
      assert pieces[1..] == more && s == s[..n] + s[n..];
      var t := DecodeWith(s, at).done;
      assert t[1..] == DecodeWith(s[n..], at).done;
      assert Spells(s[..n], t[0], at);
      forall k | 0 <= k < |t| ensures Spells(pieces[k], t[k], at) {
        if k > 0 { assert pieces[k] == more[k - 1] && t[k] == t[1..][k - 1]; }
      }
    }
  }

  /** A text decodes to `t` exactly when it is a spelling of `t`, with `%40` for ':'. */
  lemma DecodesExactly(s: string, t: string)
    ensures Decode(s) == Decoded(t, []) <==> exists pieces :: Flatten(pieces) == s && Spelling(pieces, t, ':')
  {
    if Decode(s) == Decoded(t, []) {
      var pieces := DecodedIsSpelled(s, ':');
    }
    forall pieces | Flatten(pieces) == s && Spelling(pieces, t, ':') ensures Decode(s) == Decoded(t, []) {
      SpellingDecodes(pieces, t, ':');
    }
  }

  // ---------- the encoder it should undo ----------

  /** Percent-encoding (RFC 3986, section 2.1) of the three characters at stake. */
  function EncodeChar(c: char): string {
    if c == '%' then "%25" else if c == ':' then "%3A" else if c == '@' then "%40" else [c]
  }

  function Encode(s: string): string {
    if s == [] then [] else EncodeChar(s[0]) + Encode(s[1..])
  }

  /** `s` with every '@' replaced by `at`. */
  function ReplaceAt(s: string, at: char): string {
    seq(|s|, i requires 0 <= i < |s| => if s[i] == '@' then at else s[i])
  }

  lemma {:induction false} DecodeEncode(s: string, at: char)
    ensures DecodeWith(Encode(s), at) == Decoded(ReplaceAt(s, at), [])
  {
    if s == [] {
    } else {
      DecodeEncode(s[1..], at);
      var e := EncodeChar(s[0]);
      assert Encode(s)[|e|..] == Encode(s[1..]);
      assert ReplaceAt(s, at) == [if s[0] == '@' then at else s[0]] + ReplaceAt(s[1..], at);
    }
  }

  /** The decoder undoes the encoder exactly on text without '@'; with line 810
      corrected it would undo it on all text. */
  lemma RoundTrip(s: string)
    ensures Decode(Encode(s)) == Decoded(s, []) <==> '@' !in s
    ensures DocumentedDecode(Encode(s)) == Decoded(s, [])
  {
    DecodeEncode(s, ':');
    DecodeEncode(s, '@');
    assert ReplaceAt(s, '@') == s;
    if '@' in s {
      var k :| 0 <= k < |s| && s[k] == '@';
      assert ReplaceAt(s, ':')[k] != s[k];
    } else {
      assert ReplaceAt(s, ':') == s;
    }
  }

  /** Encoded text is non-empty when its source is, and free of separators and NULs. */
  lemma {:induction false} EncodedIsPlain(s: string)
    ensures ':' !in Encode(s) && '@' !in Encode(s)
    ensures NUL !in s ==> NUL !in Encode(s)
    ensures s != [] ==> Encode(s) != []
  {
    if s != [] { EncodedIsPlain(s[1..]); }
  }

  /** Decoding never produces a terminator. */
  lemma {:induction false} DecodedHasNoNul(s: string)
    requires NUL !in s
    ensures NUL !in Decode(s).done && NUL !in Decode(s).stuck
  {
    if s != [] {
      if s[0] != '%' { DecodedHasNoNul(s[1..]); } else if IsEscape(s, 0) { DecodedHasNoNul(s[3..]); }
    }
  }
}
