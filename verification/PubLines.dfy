/** Line reassembly in the publisher's main loop (pub_client.c, lines 388-415).

    fgets fills a buffer that grows while a line does not fit, and `pos` says where
    the next piece goes.  It moves by 1023 each time, whatever the previous read
    filled, so what is published depends on how long the buffer already was. */
module PubLines {
  import opened CStrings

  const NEWLINE: char := '\n'
  const STEP := 1023  // line 403

  // ---------- standard input ----------

  /** What fgets takes: up to `max` characters, ending after the first newline. */
  function Chunk(s: string, max: nat): (c: string)
    ensures c <= s && |c| <= max
    ensures NEWLINE in c <==> c != [] && c[|c| - 1] == NEWLINE
    ensures NEWLINE in c ==> NEWLINE !in c[..|c| - 1]
    ensures NEWLINE !in c ==> |c| == max || c == s
    ensures s != [] && max > 0 ==> c != []
  {
    if s == [] || max == 0 then []
    else if s[0] == NEWLINE then [NEWLINE]
    else
      var c := Chunk(s[1..], max - 1);
      assert [s[0]] + c <= s by { assert s == [s[0]] + s[1..]; }
      assert NEWLINE in c ==> ([s[0]] + c)[..|c|] == [s[0]] + c[..|c| - 1];
      [s[0]] + c
  }

  /** A chunk and what is left of the input hold no terminator. */
  lemma ChunkOf(s: CString, max: nat)
    ensures NUL !in Chunk(s, max) && NUL !in s[|Chunk(s, max)|..]
    ensures s == Chunk(s, max) + s[|Chunk(s, max)|..]
  {
  }

  /** Stores `piece` and a terminator from position `pos` on. */
  method Store(buf: array<char>, pos: nat, piece: string)
    requires pos + |piece| < buf.Length
    modifies buf
    ensures buf[..pos] == old(buf[..pos]) && buf[pos..pos + |piece|] == piece && buf[pos + |piece|] == NUL
  {
    forall k | pos <= k < pos + |piece| { buf[k] := piece[k - pos]; }
    buf[pos + |piece|] := NUL;
  }

  class Input {
    var rest: CString
    var eof: bool

    /** The library's fgets into buf[pos..], with room for `n` characters. */
    method Fgets(buf: array<char>, pos: nat, n: nat) returns (ok: bool, ghost c: string)
      requires 2 <= n && pos + n <= buf.Length
      modifies this, buf
      ensures ok <==> old(rest) != []
      ensures c == Chunk(old(rest), n - 1) && rest == old(rest)[|c|..]
      ensures buf[..pos] == old(buf[..pos])
      ensures ok ==> buf[pos..pos + |c|] == c && buf[pos + |c|] == NUL
      ensures eof == (old(eof) || (NEWLINE !in c && |c| < n - 1))
    {
      var piece := Chunk(rest, n - 1);
      ChunkOf(rest, n - 1);
      c := piece;
      ok := rest != [];
      if ok { Store(buf, pos, piece); }
      if NEWLINE !in piece && |piece| < n - 1 { eof := true; }
      rest := rest[|piece|..];
    }
  }

  // ---------- what is published ----------

  /** The length of the first line, when there is a whole one. */
  function LineEnd(s: string): (k: nat)
    requires NEWLINE in s
    ensures k < |s| && s[k] == NEWLINE && NEWLINE !in s[..k]
  {
    if s[0] == NEWLINE then 0 else 1 + LineEnd(s[1..])
  }

  /** A line of length `n` and its newline fit a buffer of length `b`. */
  predicate Fits(n: nat, b: nat) { n + 1 < b }

  /** What is published for a line read into a buffer of length `b`: whatever lies
      between the first 1023 characters and the end of the first read is lost. */
  function Message(line: string, b: nat): string
    requires b >= 1024
  {
    if Fits(|line|, b) then line else line[..STEP] + line[b - 1..]
  }

  /** The buffer's length after a line of length `n`: 1024 more for each further read. */
  function Grown(n: nat, b: nat): (r: nat)
    requires b >= 1024
    ensures r >= b
  {
    if Fits(n, b) then b else b + 1024 * ((n + 1 - (b - 1) + STEP - 1) / STEP)
  }

  /** The messages for a whole input, read with a buffer of length `b` at first. */
  function Messages(s: string, b: nat): seq<string>
    requires b >= 1024
    decreases |s|
  {
    if NEWLINE !in s then []
    else
      var n := LineEnd(s);
      [Message(s[..n], b)] + Messages(s[n + 1..], Grown(n, b))
  }

  /** The newline-terminated lines of an input, in order, without their newlines. */
  function Lines(s: string): seq<string>
    decreases |s|
  {
    if NEWLINE !in s then [] else [s[..LineEnd(s)]] + Lines(s[LineEnd(s) + 1..])
  }

  /** Every line fits the buffer it meets, or meets it at its first length. */
  predicate Meets(s: string, b: nat)
    requires b >= 1024
    decreases |s|
  {
    NEWLINE in s ==>
      var n := LineEnd(s);
      (Fits(n, b) || b == 1024) && Meets(s[n + 1..], Grown(n, b))
  }

  /** A line is published as it is exactly when it fits or the buffer is new. */
  lemma MessageIsLine(line: string, b: nat)
    requires b >= 1024
    ensures Message(line, b) == line <==> Fits(|line|, b) || b == 1024
  {
    if !Fits(|line|, b) {
      assert |Message(line, b)| == STEP + |line| - (b - 1);
      if b == 1024 { assert line[..STEP] + line[STEP..] == line; }
    }
  }

  /** Reassembly is exact exactly on the inputs all of whose lines are met so. */
  lemma {:induction false} ReassemblyIsExact(s: string, b: nat)
    requires b >= 1024
    ensures Messages(s, b) == Lines(s) <==> Meets(s, b)
    decreases |s|
  {
    if NEWLINE in s {
      var n := LineEnd(s);
      MessageIsLine(s[..n], b);
      ReassemblyIsExact(s[n + 1..], Grown(n, b));
      SameHeadSameTail(Message(s[..n], b), Messages(s[n + 1..], Grown(n, b)), s[..n], Lines(s[n + 1..]));
    }
  }

  lemma SameHeadSameTail(a: string, x: seq<string>, c: string, y: seq<string>)
    ensures [a] + x == [c] + y <==> a == c && x == y
  {
    assert ([a] + x)[0] == a && ([c] + y)[0] == c;
    assert ([a] + x)[1..] == x && ([c] + y)[1..] == y;
  }

  /** No line has more than 1022 characters. */
  predicate Short(lines: seq<string>) { forall k :: 0 <= k < |lines| ==> |lines[k]| <= 1022 }

  lemma ShortTail(line: string, more: seq<string>)
    requires Short([line] + more)
    ensures |line| <= 1022 && Short(more)
  {
    assert ([line] + more)[0] == line;
    forall k | 0 <= k < |more| ensures |more[k]| <= 1022 { assert more[k] == ([line] + more)[k + 1]; }
  }

  lemma {:induction false} ShortLinesMeet(s: string, b: nat)
    requires b >= 1024 && Short(Lines(s))
    ensures Meets(s, b)
    decreases |s|
  {
    if NEWLINE in s {
      var n := LineEnd(s);
      ShortTail(s[..n], Lines(s[n + 1..]));
      assert Fits(n, b) && Grown(n, b) == b;
      ShortLinesMeet(s[n + 1..], b);
    }
  }

  /** In particular, on every input without a line of more than 1022 characters. */
  lemma ShortLinesAreExact(s: string, b: nat)
    requires b >= 1024 && Short(Lines(s))
    ensures Messages(s, b) == Lines(s)
  {
    ShortLinesMeet(s, b);
    ReassemblyIsExact(s, b);
  }

  /** The first line of an input and what comes after it. */
  lemma MessagesAfterLine(line: string, rest: string, b: nat)
    requires NEWLINE !in line && b >= 1024
    ensures Messages(line + [NEWLINE] + rest, b) == [Message(line, b)] + Messages(rest, Grown(|line|, b))
  {
    var s := line + [NEWLINE] + rest;
    assert s[|line|] == NEWLINE && s[..|line|] == line;
    EndOfLine(s, |line|);
    assert s[|line| + 1..] == rest;
  }

  lemma {:induction false} EndOfLine(s: string, n: nat)
    requires n < |s| && s[n] == NEWLINE && NEWLINE !in s[..n]
    ensures LineEnd(s) == n
  {
    if n > 0 {
      assert s[0] == s[..n][0];
      assert s[1..][..n - 1] == s[..n][1..];
      EndOfLine(s[1..], n - 1);
    }
  }

  /** The smallest loss: after a line of 1023 characters has made the buffer grow,
      a line of 2047 loses its second half. */
  lemma SecondLongLineIsCut(first: string, second: string)
    requires NEWLINE !in first && NEWLINE !in second && |first| == 1023 && |second| == 2047
    ensures Messages(first + [NEWLINE] + (second + [NEWLINE] + []), 1024) == [first, second[..1023]]
  {
    MessagesAfterLine(first, second + [NEWLINE] + [], 1024);
    MessagesAfterLine(second, [], 2048);
    MessageIsLine(first, 1024);
    assert second[..1023] + second[2047..] == second[..1023];
  }

  // ---------- the loop ----------

  /** After `k` reads without a newline that took the characters `got`: what the
      buffer holds before `pos`, and what the variables of the loop are. */
  ghost predicate Assembled(got: string, text: string, b: nat, k: nat, pos: nat, readLen: nat, bufLen: nat,
                            atEnd: bool)
  {
    && |text| == pos && NEWLINE !in got && bufLen == b + 1024 * k && b >= 1024
    && (k == 0 ==> got == [] && pos == 0 && readLen == b)
    && (k > 0 ==> pos == STEP * k && readLen == 1024)
    && (k > 0 && !atEnd ==> |got| == b - 1 + STEP * (k - 1) && text == got[..STEP] + got[b - 1..])
  }

  /** While there is input left, the buffer holds nothing but input before `pos`. */
  lemma TextIsClean(whole: string, rest: string, got: string, text: string, b: nat, k: nat, pos: nat, readLen: nat,
                    bufLen: nat)
    requires whole == got + rest && NUL !in whole
    requires Assembled(got, text, b, k, pos, readLen, bufLen, rest == [])
    ensures rest != [] ==> NUL !in text
  {
    assert forall k :: 0 <= k < |got| ==> got[k] == whole[k];
  }

  /** What one read takes from an input of which `got` has been taken already. */
  lemma Taken(whole: string, got: string, before: CString, max: nat)
    requires whole == got + before && max > 0
    ensures var c := Chunk(before, max);
            && NUL !in c && whole == (got + c) + before[|c|..]
            && (before == [] ==> whole == got && c == [])
            && (before != [] ==> c != [] && |before[|c|..]| < |before|)
  {
    var c := Chunk(before, max);
    assert before == c + before[|c|..];
  }

  /** A piece stored behind a text continues it. */
  lemma Joined(buf: array<char>, pos: nat, text: string, c: string)
    requires pos + |c| < buf.Length && c != []
    requires buf[..pos] == text && buf[pos..pos + |c|] == c && buf[pos + |c|] == NUL && NUL !in text && NUL !in c
    ensures Holds(buf, text + c) && buf[..pos + |c|] == text + c && buf[|text + c| - 1] == c[|c| - 1]
  {
    assert buf[..pos + |c|] == buf[..pos] + buf[pos..pos + |c|];
  }

  /** A read that ends in a newline completes the line. */
  lemma LineIsDone(got: string, c: string, text: string, b: nat, k: nat, pos: nat, readLen: nat, bufLen: nat)
    requires Assembled(got, text, b, k, pos, readLen, bufLen, false)
    requires 0 < |c| < readLen
    ensures var line := got + c[..|c| - 1];
            Message(line, b) == text + c[..|c| - 1] && Grown(|line|, b) == bufLen
  {
    var d := c[..|c| - 1];
    var line := got + d;
    if k == 0 {
      assert line == d == text + d;
    } else {
      assert !Fits(|line|, b);
      assert line[..STEP] == got[..STEP] && line[b - 1..] == got[b - 1..] + d;
      assert text + d == got[..STEP] + (got[b - 1..] + d);
    }
  }

  /** Any other read leaves the next one to continue. */
  lemma ReadGoesOn(got: string, c: string, text: string, b: nat, k: nat, pos: nat, readLen: nat, bufLen: nat,
                   filled: string, atEnd: bool)
    requires Assembled(got, text, b, k, pos, readLen, bufLen, false)
    requires NEWLINE !in c && |filled| == pos + STEP
    requires !atEnd ==> |c| == readLen - 1 && filled == (text + c)[..pos + STEP]
    ensures Assembled(got + c, filled, b, k + 1, pos + STEP, 1024, bufLen + 1024, atEnd)
  {
    if !atEnd {
      if k == 0 {
        assert filled == c[..STEP] && (got + c) == c;
        assert c[b - 1..] == [];
      } else {
        assert (got + c)[..STEP] == got[..STEP] && (got + c)[b - 1..] == got[b - 1..] + c;
        assert filled == text + c == got[..STEP] + (got[b - 1..] + c);
      }
    }
  }

  /** Where the first line of an input ends, when it is read in two parts. */
  lemma LineIsWhole(whole: string, got: string, c: string, rest: string)
    requires whole == got + (c + rest) && NEWLINE !in got
    requires c != [] && c[|c| - 1] == NEWLINE && NEWLINE !in c[..|c| - 1]
    ensures NEWLINE in whole && LineEnd(whole) == |got| + |c| - 1
    ensures whole[..LineEnd(whole)] == got + c[..|c| - 1] && whole[LineEnd(whole) + 1..] == rest
  {
    var n := |got| + |c| - 1;
    assert whole[n] == NEWLINE && whole[..n] == got + c[..|c| - 1];
    EndOfLine(whole, n);
  }

  class LinePublisher {
    var buf: array<char>
    var bufLen: nat
    const stdin: Input
    var waiting: bool           // status is STATUS_WAITING rather than STATUS_CONNACK_RECVD
    var published: seq<string>  // the payloads handed to mosquitto_publish, which succeeds

    constructor (stdin: Input)
      ensures this.stdin == stdin && fresh(buf) && Valid()
      ensures bufLen == 1024 && !waiting && published == []
    {
      this.stdin := stdin;
      buf, bufLen := new char[1024], 1024;
      waiting, published := false, [];
    }

    ghost predicate Valid()
      reads this
    {
      bufLen == buf.Length >= 1024
    }

    /** realloc to the new length, keeping what was there. */
    method Grow()
      requires Valid()
      modifies this`buf, this`bufLen
      ensures Valid() && bufLen == old(bufLen) + 1024 && fresh(buf)
      ensures buf[..old(bufLen)] == old(buf[..])
    {
      bufLen := bufLen + 1024;
      var bigger := new char[bufLen];
      forall i | 0 <= i < buf.Length { bigger[i] := buf[i]; }
      buf := bigger;
    }

    /** fgets at `pos`: the next piece of the input, whole up to a newline, a full
        buffer or the end of the input. */
    method Fetch(pos: nat, readLen: nat, ghost whole: string, ghost got: string) returns (ok: bool, ghost c: string)
      requires Valid() && 2 <= readLen && pos + readLen <= bufLen
      requires whole == got + stdin.rest && (stdin.eof ==> stdin.rest == [])
      modifies buf, stdin
      ensures buf[..pos] == old(buf[..pos])
      ensures !ok ==> stdin.eof && whole == got
      ensures ok ==> 0 < |c| < readLen && whole == (got + c) + stdin.rest && |stdin.rest| < |old(stdin.rest)|
      ensures ok ==> buf[pos..pos + |c|] == c && buf[pos + |c|] == NUL && NUL !in c
      ensures ok ==> if c[|c| - 1] == NEWLINE then NEWLINE !in c[..|c| - 1] && !stdin.eof
              else NEWLINE !in c && (|c| < readLen - 1 ==> stdin.rest == []) && (stdin.eof ==> stdin.rest == [])
    {
      Taken(whole, got, stdin.rest, readLen - 1);
      ok, c := stdin.Fgets(buf, pos, readLen);
    }

    /** fgets at `pos`, and strlen of the whole buffer if something was read. */
    method Read(pos: nat, readLen: nat, ghost text: string, ghost whole: string, ghost got: string)
      returns (ok: bool, len: nat, ghost c: string)
      requires Valid() && 2 <= readLen && pos + readLen <= bufLen
      requires buf[..pos] == text && (stdin.rest != [] ==> NUL !in text)
      requires whole == got + stdin.rest && (stdin.eof ==> stdin.rest == [])
      modifies buf, stdin
      ensures !ok ==> stdin.eof && whole == got
      ensures ok ==> Holds(buf, text + c) && len == |text + c| && buf[..pos + |c|] == text + c
      ensures ok ==> 0 < |c| < readLen && whole == (got + c) + stdin.rest && |stdin.rest| < |old(stdin.rest)|
      ensures ok ==> if buf[len - 1] == NEWLINE
              then c[|c| - 1] == NEWLINE && NEWLINE !in c[..|c| - 1] && !stdin.eof
              else NEWLINE !in c && (|c| < readLen - 1 ==> stdin.rest == []) && (stdin.eof ==> stdin.rest == [])
    {
      ok, c := Fetch(pos, readLen, whole, got);
      len := 0;
      if ok {
        Joined(buf, pos, text, c);
        len := Strlen(buf, text + c);
      }
    }

    /** Cuts the newline off and publishes what the buffer holds. */
    method Publish(len: nat, ghost text: string)
      requires Valid() && Holds(buf, text) && len == |text| > 0
      modifies buf, this`published
      ensures published == old(published) + [text[..len - 1]]
    {
      buf[len - 1] := NUL;
      published := published + [buf[..len - 1]];
      assert buf[..len - 1] == text[..len - 1];
    }

    /** The head of the loop: `got` has been taken from `whole` in `k` reads, the
        buffer had length `b` before, and there is room for the next read. */
    ghost predicate Reading(whole: string, b: nat, got: string, k: nat, pos: nat, readLen: nat)
      reads this, buf, stdin
    {
      && Valid() && 2 <= readLen && pos + readLen <= bufLen
      && !waiting && (stdin.eof ==> stdin.rest == [])
      && whole == got + stdin.rest && NUL !in whole
      && Assembled(got, buf[..pos], b, k, pos, readLen, bufLen, stdin.rest == [])
    }

    /** Its exit: the first line of `whole` is published, or there is no whole line. */
    ghost predicate Done(whole: string, b: nat, before: seq<string>)
      requires b >= 1024
      reads this, buf, stdin
    {
      && Valid() && !waiting
      && if NEWLINE in whole then
           && !stdin.eof && stdin.rest == whole[LineEnd(whole) + 1..]
           && published == before + [Message(whole[..LineEnd(whole)], b)]
           && bufLen == Grown(LineEnd(whole), b)
         else stdin.eof && published == before
    }

    /** One pass through the loop. */
    method Piece(pos: nat, readLen: nat, ghost whole: string, ghost b: nat, ghost got: string, ghost k: nat)
      returns (more: bool, ghost c: string)
      requires b >= 1024 && Reading(whole, b, got, k, pos, readLen)
      modifies this, buf, stdin
      ensures fresh(buf) || buf == old(buf)
      ensures more ==> Reading(whole, b, got + c, k + 1, pos + STEP, 1024)
      ensures more ==> published == old(published) && |stdin.rest| < |old(stdin.rest)|
      ensures !more ==> Done(whole, b, old(published))
    {
      ghost var text := buf[..pos];
      TextIsClean(whole, stdin.rest, got, text, b, k, pos, readLen, bufLen);
      var ok, len;
      ok, len, c := Read(pos, readLen, text, whole, got);
      more := false;
      if ok {
        if buf[len - 1] == NEWLINE {
          Finish(pos, readLen, len, text, whole, b, got, k, c);
        } else {
          Continue(pos, readLen, text, whole, b, got, k, c);
          more := true;
        }
      }
    }

    /** The newline branch: the line is published. */
    method Finish(pos: nat, readLen: nat, len: nat, ghost text: string, ghost whole: string, ghost b: nat,
                  ghost got: string, ghost k: nat, ghost c: string)
      requires Valid() && !waiting && !stdin.eof && Holds(buf, text + c) && len == |text + c|
      requires Assembled(got, text, b, k, pos, readLen, bufLen, false)
      requires 0 < |c| < readLen && c[|c| - 1] == NEWLINE && NEWLINE !in c[..|c| - 1]
      requires whole == (got + c) + stdin.rest
      modifies buf, this`published
      ensures Done(whole, b, old(published))
    {
      assert whole == got + (c + stdin.rest);
      LineIsWhole(whole, got, c, stdin.rest);
      LineIsDone(got, c, text, b, k, pos, readLen, bufLen);
      assert (text + c)[..len - 1] == text + c[..|c| - 1];
      Publish(len, text + c);
    }

    /** The else branch: room for another read. */
    method Continue(pos: nat, readLen: nat, ghost text: string, ghost whole: string, ghost b: nat, ghost got: string,
                    ghost k: nat, ghost c: string)
      requires Valid() && !waiting && (stdin.eof ==> stdin.rest == []) && NUL !in whole
      requires pos + readLen <= bufLen && |c| < readLen && 0 < |c|
      requires Assembled(got, text, b, k, pos, readLen, bufLen, false) && buf[..pos + |c|] == text + c
      requires NEWLINE !in c && whole == (got + c) + stdin.rest && (|c| < readLen - 1 ==> stdin.rest == [])
      modifies this`buf, this`bufLen
      ensures fresh(buf) && Reading(whole, b, got + c, k + 1, pos + STEP, 1024)
    {
      ghost var was, n := buf[..], bufLen;
      Grow();
      ghost var atEnd := stdin.rest == [];
      if !atEnd {
        assert buf[..pos + STEP] == was[..pos + STEP] == (text + c)[..pos + STEP];
      }
      ReadGoesOn(got, c, text, b, k, pos, readLen, n, buf[..pos + STEP], atEnd);
    }

    /** One turn of the main loop: reads until a whole line is there and publishes
        it, or until the input ends, which leaves an unterminated tail unpublished.
        No read is given more room than the buffer has left after `pos`. */
    method Turn()
      requires Valid() && !waiting && !stdin.eof
      modifies this, buf, stdin
      ensures Valid() && (fresh(buf) || buf == old(buf))
      ensures var s := old(stdin.rest);
              if NEWLINE in s then
                && !waiting && !stdin.eof && stdin.rest == s[LineEnd(s) + 1..]
                && published == old(published) + [Message(s[..LineEnd(s)], old(bufLen))]
                && bufLen == Grown(LineEnd(s), old(bufLen))
              else waiting && published == old(published)
    {
      ghost var whole, b := stdin.rest, bufLen;
      ghost var got: string, k: nat := "", 0;
      var pos: nat, readLen: nat := 0, bufLen;
      var more := true;
      while more
        invariant fresh(buf) || buf == old(buf)
        invariant more ==> Reading(whole, b, got, k, pos, readLen) && published == old(published)
        invariant !more ==> Done(whole, b, old(published))
        decreases if more then 1 + |stdin.rest| else 0
      {
        ghost var c;
        more, c := Piece(pos, readLen, whole, b, got, k);
        pos, readLen := pos + STEP, 1024;
        got, k := got + c, k + 1;
      }
      if stdin.eof { waiting := true; }
    }

    /** The main loop until the end of the input: all the messages, in order. */
    method PublishAll()
      requires Valid() && !waiting && !stdin.eof
      modifies this, buf, stdin
      ensures waiting && published == old(published) + Messages(old(stdin.rest), old(bufLen))
    {
      ghost var all := published + Messages(stdin.rest, bufLen);
      while !waiting
        invariant Valid() && (fresh(buf) || buf == old(buf)) && (!waiting ==> !stdin.eof)
        invariant all == published + if waiting then [] else Messages(stdin.rest, bufLen)
        decreases if waiting then 0 else 1 + |stdin.rest|
      {
        NextMessage(published, stdin.rest, bufLen);
        Turn();
      }
    }
  }

  lemma NextMessage(before: seq<string>, s: string, b: nat)
    requires b >= 1024
    ensures before + Messages(s, b)
            == if NEWLINE in s
               then before + [Message(s[..LineEnd(s)], b)] + Messages(s[LineEnd(s) + 1..], Grown(LineEnd(s), b))
               else before + []
  {
    if NEWLINE in s {
      var m, more := Message(s[..LineEnd(s)], b), Messages(s[LineEnd(s) + 1..], Grown(LineEnd(s), b));
      assert Messages(s, b) == [m] + more;
      Associate(before, [m], more);
    }
  }

  lemma Associate(a: seq<string>, b: seq<string>, c: seq<string>)
    ensures a + (b + c) == a + b + c
  {
  }
}
