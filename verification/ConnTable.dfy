/** The table of connections and the slave count (CentralModeThread.c,
    Update_Conn_Status and Device_conn_count; UartCmdRxThread.c, the link-terminated
    rule and Upadate_Disconnection).  Connections enter the table without touching
    the count; it is taken again whenever a link ends. */
module ConnTable {
  import opened Wrappers
  import opened Bytes

  const SIZE := 6     // Conn_Device_List
  const COUNTED := 5  // MAX_NUM_PERIPHERALS
  const LIMIT := 4    // Device_conn_count

  datatype Entry = Entry(mac: Mac, handle: uint16, status: byte)

  type Entries = t: seq<Entry> | |t| == SIZE witness seq(SIZE, _ => Entry([0, 0, 0, 0, 0, 0], 0, 0))

  function Zeroed(): Entries { seq(SIZE, _ => Entry([0, 0, 0, 0, 0, 0], 0, 0)) }

  /** How many of the first `n` entries are active. */
  function Active(t: Entries, n: nat): (k: nat)
    requires n <= SIZE
    ensures k <= n
  {
    if n == 0 then 0 else Active(t, n - 1) + if t[n - 1].status == 1 then 1 else 0
  }

  function Connect(t: Entries, handle: nat, mac: Mac): Entries
    requires handle < SIZE
  {
    t[handle := Entry(mac, handle, 1)]
  }

  function Disconnect(t: Entries, handle: nat): Entries
    requires handle < SIZE
  {
    t[handle := t[handle].(status := 0)]
  }

  class Table {
    const entries: array<Entry>  // Conn_Device_List, zeroed at start
    var slaveCount: byte

    constructor ()
      ensures entries.Length == SIZE && fresh(entries) && slaveCount == 0
      ensures entries[..] == Zeroed()
    {
      entries := new Entry[SIZE](_ => Entry([0, 0, 0, 0, 0, 0], 0, 0));
      slaveCount := 0;
      new;
      assert forall i :: 0 <= i < SIZE ==> entries[..][i] == Entry([0, 0, 0, 0, 0, 0], 0, 0);
    }

    method UpdateConnStatus(handle: nat, mac: Mac)
      requires entries.Length == SIZE && handle < SIZE
      modifies entries
      ensures entries[..] == Connect(old(entries[..]), handle, mac)
    {
      entries[handle] := Entry(mac, handle, 1);
    }

    method DeviceConnCount() returns (n: nat)
      requires entries.Length == SIZE
      ensures n == Active(entries[..], LIMIT)
    {
      n := 0;
      for i := 0 to LIMIT
        invariant n == Active(entries[..], i)
      {
        if entries[i].status == 1 { n := n + 1; }
      }
    }

    /** Upadate_Disconnection. */
    method UpdateDisconnection()
      requires entries.Length == SIZE
      modifies this`slaveCount
      ensures slaveCount == Active(entries[..], COUNTED)
    {
      var n := 0;
      for i := 0 to COUNTED
        invariant n == Active(entries[..], i)
      {
        if entries[i].status == 1 { n := n + 1; }
      }
      if n == 0 { slaveCount := 0; }
      slaveCount := n;
    }

    /** The router's rule for a terminated link. */
    method LinkTerminated(handle: nat)
      requires entries.Length == SIZE && handle < SIZE
      modifies this`slaveCount, entries
      ensures entries[..] == Disconnect(old(entries[..]), handle)
      ensures slaveCount == Active(entries[..], COUNTED)
    {
      entries[handle] := entries[handle].(status := 0);
      UpdateDisconnection();
    }
  }

  // ---------- runs ----------

  datatype Event = Connected(handle: nat, mac: Mac) | Terminated(handle: nat)

  predicate InTable(es: seq<Event>) { forall e :: e in es ==> e.handle < SIZE }

  /** The table after a sequence of events. */
  function After(es: seq<Event>): Entries
    requires InTable(es)
  {
    if es == [] then Zeroed()
    else
      var e, t := es[|es| - 1], After(es[..|es| - 1]);
      if e.Connected? then Connect(t, e.handle, e.mac) else Disconnect(t, e.handle)
  }

  /** The slave count then. */
  function SlaveCount(es: seq<Event>): nat
    requires InTable(es)
  {
    if es == [] then 0
    else if es[|es| - 1].Terminated? then Active(After(es), COUNTED)
    else SlaveCount(es[..|es| - 1])
  }

  /** Connections that became active since the count was last taken. */
  function Uncounted(es: seq<Event>): nat
    requires InTable(es)
  {
    if es == [] || es[|es| - 1].Terminated? then 0
    else
      var h, was := es[|es| - 1].handle, es[..|es| - 1];
      Uncounted(was) + if h < COUNTED && After(was)[h].status != 1 then 1 else 0
  }

  lemma {:induction false} ActiveAfterUpdate(t: Entries, h: nat, e: Entry, n: nat)
    requires h < SIZE && n <= SIZE
    ensures Active(t[h := e], n)
            == Active(t, n)
               + if h >= n || (t[h].status == 1) == (e.status == 1) then 0 else if e.status == 1 then 1 else -1
  {
    if n > 0 { ActiveAfterUpdate(t, h, e, n - 1); }
  }

  /** The count and the table, over any sequence of events: the active entries are
      those that were counted and those that became active since. */
  lemma {:induction false} CountTracksTable(es: seq<Event>)
    requires InTable(es)
    ensures Active(After(es), COUNTED) == SlaveCount(es) + Uncounted(es)
  {
    if es == [] {
      assert Active(Zeroed(), 5) == Active(Zeroed(), 4) == Active(Zeroed(), 3) == Active(Zeroed(), 2) == 0;
    } else {
      var e, was := es[|es| - 1], es[..|es| - 1];
      CountTracksTable(was);
      if e.Connected? {
        ActiveAfterUpdate(After(was), e.handle, Entry(e.mac, e.handle, 1), COUNTED);
      }
    }
  }

  /** So the count is right after every termination, and never too high. */
  lemma CountNeverExceeds(es: seq<Event>)
    requires InTable(es)
    ensures SlaveCount(es) <= Active(After(es), COUNTED)
    ensures SlaveCount(es) == Active(After(es), COUNTED) <==> Uncounted(es) == 0
  {
    CountTracksTable(es);
  }

  /** Before the first link ends the count is 0 however many connections are active,
      so until then nothing is relayed to them. */
  lemma {:induction false} NothingCountedAtFirst(es: seq<Event>)
    requires InTable(es) && forall e :: e in es ==> e.Connected?
    ensures SlaveCount(es) == 0 && Active(After(es), COUNTED) == Uncounted(es)
  {
    CountTracksTable(es);
    if es != [] {
      assert es[|es| - 1] in es;
      NothingCountedAtFirst(es[..|es| - 1]);
    }
  }

  /** A termination lowers the total by one exactly when it ends an active entry that
      is counted; and the two counts differ by the fifth entry alone. */
  lemma TerminationCounts(t: Entries, h: nat)
    requires h < SIZE
    ensures Active(Disconnect(t, h), COUNTED) == Active(t, COUNTED) - (if h < COUNTED && t[h].status == 1 then 1 else 0)
    ensures Active(t, LIMIT) <= Active(t, COUNTED) <= Active(t, LIMIT) + 1
  {
    ActiveAfterUpdate(t, h, t[h].(status := 0), COUNTED);
  }

  /** The last event about a handle, if there is one. */
  function LastAbout(es: seq<Event>, h: nat): Option<Event> {
    if es == [] then None
    else if es[|es| - 1].handle == h then Some(es[|es| - 1])
    else LastAbout(es[..|es| - 1], h)
  }

  /** The last address connected under a handle. */
  function LastMac(es: seq<Event>, h: nat): Option<Mac> {
    if es == [] then None
    else if es[|es| - 1].Connected? && es[|es| - 1].handle == h then Some(es[|es| - 1].mac)
    else LastMac(es[..|es| - 1], h)
  }

  /** After any history an entry is active exactly when the last event about its handle is
      a connection, and holds the address last connected under it. */
  lemma {:induction false} EntryIsLastWord(es: seq<Event>, h: nat)
    requires InTable(es) && h < SIZE
    ensures After(es)[h].status == (if LastAbout(es, h).Some? && LastAbout(es, h).value.Connected? then 1 else 0)
    ensures After(es)[h].mac == (if LastMac(es, h).Some? then LastMac(es, h).value else [0, 0, 0, 0, 0, 0])
    ensures LastMac(es, h).Some? ==> After(es)[h].handle == h
  {
    if es != [] { EntryIsLastWord(es[..|es| - 1], h); }
  }
}
