/** The retry loops of Forward_MSG_Queue_Thread (UartCmdRxThread.c, lines 388-425,
    434-468 and 488-527): a notification is sent, the status byte of a response
    decides whether it is sent again. */
module Retry {
  import opened Wrappers
  import opened Bytes

  const LIMIT := 4  // RETRY_COUNT

  const SUCCESS: byte := 0x00
  const NO_RESOURCES: byte := 0x16
  const DISCONNECTED: byte := 0x14
  const NO_BUFFER: byte := 0x04

  /** `retry_needed` after a response.  The cloud loop has its increment commented out. */
  function After(status: byte, retries: nat, cloud: bool): nat {
    if status == SUCCESS || status == DISCONNECTED then LIMIT
    else if status == NO_RESOURCES then (if cloud then retries else retries + 1)
    else if status == NO_BUFFER then 0
    else retries
  }

  /** How many attempts a loop makes on a stream of responses, starting from a count
      of `retries`; None when the stream runs out first and the loop waits for ever. */
  function Attempts(trace: seq<byte>, retries: nat, cloud: bool): (n: Option<nat>)
    requires retries < LIMIT
    ensures n.Some? ==> 1 <= n.value <= |trace|
  {
    if trace == [] then None
    else
      var r := After(trace[0], retries, cloud);
      if r >= LIMIT then Some(1)
      else match Attempts(trace[1..], r, cloud) case None => None case Some(n) => Some(n + 1)
  }

  function Count(trace: seq<byte>, status: byte): nat {
    if trace == [] then 0 else (if trace[0] == status then 1 else 0) + Count(trace[1..], status)
  }

  predicate Known(status: byte) {
    status == SUCCESS || status == NO_RESOURCES || status == DISCONNECTED || status == NO_BUFFER
  }

  /** Responses the loops have no case for. */
  function Others(trace: seq<byte>): nat {
    if trace == [] then 0 else (if Known(trace[0]) then 0 else 1) + Others(trace[1..])
  }

  // ---------- where the loops stop ----------

  /** The number of 0x16 since the last 0x04, or since `retries` of them before. */
  function Since(trace: seq<byte>, retries: nat): nat {
    if trace == [] then retries
    else
      var last := trace[|trace| - 1];
      if last == NO_BUFFER then 0
      else Since(trace[..|trace| - 1], retries) + (if last == NO_RESOURCES then 1 else 0)
  }

  /** The `n`th response ends the mobile and ping loops. */
  predicate StopsAt(trace: seq<byte>, retries: nat, n: nat)
    requires 1 <= n <= |trace|
  {
    || trace[n - 1] == SUCCESS || trace[n - 1] == DISCONNECTED
    || (trace[n - 1] == NO_RESOURCES && Since(trace[..n], retries) >= LIMIT)
  }

  lemma {:induction false} SinceFirst(trace: seq<byte>, retries: nat, n: nat)
    requires 1 <= n <= |trace|
    ensures Since(trace[..n], retries)
            == Since(trace[1..][..n - 1],
                     if trace[0] == NO_BUFFER then 0 else if trace[0] == NO_RESOURCES then retries + 1 else retries)
  {
    assert trace[1..][..n - 1] == trace[1..n];
    if n == 1 {
      assert trace[..1][..0] == [];
    } else {
      SinceFirst(trace, retries, n - 1);
      assert trace[..n][..n - 1] == trace[..n - 1];
      assert trace[1..][..n - 1][..n - 2] == trace[1..][..n - 2];
    }
  }

  /** The mobile and ping loops make exactly as many attempts as it takes to meet the
      first 0x00 or 0x14, or the fourth 0x16 since the last 0x04. */
  lemma {:induction false} StopsAtFirst(trace: seq<byte>, retries: nat, n: nat)
    requires retries < LIMIT && 1 <= n <= |trace|
    ensures Attempts(trace, retries, false) == Some(n)
            <==> StopsAt(trace, retries, n) && forall m :: 1 <= m < n ==> !StopsAt(trace, retries, m)
    decreases |trace|
  {
    var r := After(trace[0], retries, false);
    SinceFirst(trace, retries, 1);
    assert trace[1..][..0] == [];
    assert StopsAt(trace, retries, 1) <==> r >= LIMIT;
    if r < LIMIT {
      forall m | 2 <= m <= |trace| ensures StopsAt(trace, retries, m) == StopsAt(trace[1..], r, m - 1) {
        SinceFirst(trace, retries, m);
      }
      if n > 1 {
        StopsAtFirst(trace[1..], r, n - 1);
        if forall m :: 1 <= m < n - 1 ==> !StopsAt(trace[1..], r, m) {
          forall m | 1 <= m < n ensures !StopsAt(trace, retries, m) {
            if m > 1 { assert !StopsAt(trace[1..], r, m - 1); }
          }
        } else {
          var m :| 1 <= m < n - 1 && StopsAt(trace[1..], r, m);
          assert StopsAt(trace, retries, m + 1);
        }
      }
    } else if n > 1 {
      assert StopsAt(trace, retries, 1);
    }
  }

  /** The cloud loop counts nothing: it stops at the first 0x00 or 0x14 and at
      nothing else. */
  lemma {:induction false} CloudStopsAtFirst(trace: seq<byte>, n: nat)
    requires 1 <= n <= |trace|
    ensures Attempts(trace, 0, true) == Some(n)
            <==> (trace[n - 1] == SUCCESS || trace[n - 1] == DISCONNECTED)
                 && forall m :: 0 <= m < n - 1 ==> trace[m] != SUCCESS && trace[m] != DISCONNECTED
  {
    if n > 1 && trace[0] != SUCCESS && trace[0] != DISCONNECTED {
      CloudStopsAtFirst(trace[1..], n - 1);
      assert forall m :: 0 <= m < n - 2 ==> trace[1..][m] == trace[m + 1];
      assert forall m :: 1 <= m < n - 1 ==> trace[m] == trace[1..][m - 1];
    }
  }

  // ---------- how long they run ----------

  lemma {:induction false} AttemptsAreBounded(trace: seq<byte>, retries: nat)
    requires retries < LIMIT
    ensures match Attempts(trace, retries, false)
            case None => |trace| < 4 * (Count(trace, NO_BUFFER) + 1) - retries + Others(trace)
            case Some(n) => n <= 4 * (Count(trace[..n], NO_BUFFER) + 1) - retries + Others(trace[..n])
    decreases |trace|
  {
    if trace != [] {
      var r := After(trace[0], retries, false);
      if r >= LIMIT {
        assert trace[..1][1..] == [];
      } else {
        AttemptsAreBounded(trace[1..], r);
        var n := Attempts(trace, retries, false);
        if n.Some? { assert trace[..n.value][1..] == trace[1..][..n.value - 1]; }
      }
    }
  }

  /** With `k` responses 0x04 and no response outside the four known ones, at most
      4(k + 1) attempts are made, and that many responses are enough. */
  lemma RetryBound(trace: seq<byte>)
    requires forall status :: status in trace ==> Known(status)
    ensures var k := Count(trace, NO_BUFFER);
            && (Attempts(trace, 0, false).Some? ==> Attempts(trace, 0, false).value <= 4 * (k + 1))
            && (|trace| >= 4 * (k + 1) ==> Attempts(trace, 0, false).Some?)
  {
    AttemptsAreBounded(trace, 0);
    NoOthers(trace);
    if Attempts(trace, 0, false).Some? {
      var n := Attempts(trace, 0, false).value;
      NoOthers(trace[..n]);
      CountPrefix(trace, n);
    }
  }

  lemma {:induction false} NoOthers(trace: seq<byte>)
    requires forall status :: status in trace ==> Known(status)
    ensures Others(trace) == 0
  {
    if trace != [] { NoOthers(trace[1..]); }
  }

  lemma {:induction false} CountPrefix(trace: seq<byte>, n: nat)
    requires n <= |trace|
    ensures Count(trace[..n], NO_BUFFER) <= Count(trace, NO_BUFFER)
  {
    if n > 0 {
      assert trace[..n][1..] == trace[1..][..n - 1];
      CountPrefix(trace[1..], n - 1);
    }
  }

  /** One more response that does not end the loop. */
  lemma OneMoreResponse(status: byte, rest: seq<byte>, retries: nat)
    requires retries < LIMIT && After(status, retries, false) < LIMIT
    ensures Count([status] + rest, NO_BUFFER) == Count(rest, NO_BUFFER) + if status == NO_BUFFER then 1 else 0
    ensures Attempts([status] + rest, retries, false)
            == match Attempts(rest, After(status, retries, false), false) case None => None case Some(n) => Some(n + 1)
  {
    assert ([status] + rest)[1..] == rest;
  }

  /** Three 0x16 and one more response. */
  lemma ThreeRetries(status: byte, rest: seq<byte>)
    ensures var trace, last := Worse(status, rest), [status] + rest;
            && Count(trace, NO_BUFFER) == Count(last, NO_BUFFER)
            && Attempts(trace, 0, false)
               == match Attempts(last, 3, false) case None => None case Some(n) => Some(n + 3)
  {
    var last := [status] + rest;
    OneMoreResponse(NO_RESOURCES, last, 2);
    OneMoreResponse(NO_RESOURCES, [NO_RESOURCES] + last, 1);
    OneMoreResponse(NO_RESOURCES, [NO_RESOURCES] + ([NO_RESOURCES] + last), 0);
  }

  function Worse(status: byte, rest: seq<byte>): seq<byte> {
    [NO_RESOURCES] + ([NO_RESOURCES] + ([NO_RESOURCES] + ([status] + rest)))
  }

  /** Three 0x16 before each 0x04, then four. */
  function Worst(k: nat): seq<byte> {
    if k == 0 then Worse(NO_RESOURCES, []) else Worse(NO_BUFFER, Worst(k - 1))
  }

  /** The bound is met. */
  lemma {:induction false} BoundIsTight(k: nat)
    ensures var trace := Worst(k);
            && Count(trace, NO_BUFFER) == k && (forall status :: status in trace ==> Known(status))
            && Attempts(trace, 0, false) == Some(4 * (k + 1))
  {
    if k == 0 {
      ThreeRetries(NO_RESOURCES, []);
      var last := [NO_RESOURCES] + [];
      assert last[1..] == [] && last[0] == NO_RESOURCES;
      assert Count(last, NO_BUFFER) == 0 && Attempts(last, 3, false) == Some(1);
    } else {
      BoundIsTight(k - 1);
      ThreeRetries(NO_BUFFER, Worst(k - 1));
      OneMoreResponse(NO_BUFFER, Worst(k - 1), 3);
    }
  }
}
