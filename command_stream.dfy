/**
 * The polling command interpreter `cCommandStream` and its chained dispatch
 * tables `cCommandStream::cDispatch`.
 *
 * The header fixes the state: a 128-byte line buffer, an argument vector of
 * 128/4 slots, the read and command flags, the command status, the
 * collector and host pointers, and an intrusive chain of dispatch tables.
 * The bodies of the out-of-line members are not part of this model; where
 * a transition below goes beyond what the header declares it follows the
 * read / dispatch / complete cycle the header's comments and field names
 * describe, and README.md lists each such assumption.
 */
module CommandStreams {
  import opened CatenaTypes

  /** `enum CommandStatus` */
  datatype CommandStatus =
    | Unknown
    | IoError
    | Success
    | Error
    | InvalidParameter
    | InternalError
    | NotInitialized
    | ReadError
    | WriteError
    | CreateError
    | Pending
  {
    /** The enumerator's integer value. */
    function Code(): (c: int)
      ensures -2 <= c <= 8
      ensures c == -2 <==> Unknown?
      ensures c == 8 <==> Pending?
    {
      match this
      case Unknown => -2
      case IoError => -1
      case Success => 0
      case Error => 1
      case InvalidParameter => 2
      case InternalError => 3
      case NotInitialized => 4
      case ReadError => 5
      case WriteError => 6
      case CreateError => 7
      case Pending => 8
    }

    /** A status that ends a command; only kPending leaves it running. */
    predicate IsTerminal()
    {
      !Pending?
    }
  }

  /** The status whose enumerator has value c, if any. */
  function FromCode(c: int): (r: Option<CommandStatus>)
    ensures r.Some? ==> r.value.Code() == c
    ensures r.None? <==> c < -2 || c > 8
  {
    if c == -2 then Some(Unknown)
    else if c == -1 then Some(IoError)
    else if c == 0 then Some(Success)
    else if c == 1 then Some(Error)
    else if c == 2 then Some(InvalidParameter)
    else if c == 3 then Some(InternalError)
    else if c == 4 then Some(NotInitialized)
    else if c == 5 then Some(ReadError)
    else if c == 6 then Some(WriteError)
    else if c == 7 then Some(CreateError)
    else if c == 8 then Some(Pending)
    else None
  }

  /** Every status is recovered from its code, so the eleven codes are distinct. */
  lemma CodeRoundTrip(s: CommandStatus)
    ensures FromCode(s.Code()) == Some(s)
  {
  }

  lemma CodesDistinct(a: CommandStatus, b: CommandStatus)
    ensures a.Code() == b.Code() <==> a == b
  {
    CodeRoundTrip(a);
    CodeRoundTrip(b);
  }

  /** The identity of a handler function (`CommandFn *`). */
  type CommandFn = nat

  /** `struct cEntry` */
  datatype Entry = Entry(name: string, dispatch: CommandFn)

  /** `sizeof(cEntry)`: two 32-bit pointers on the STM32L0 target. */
  const EntrySize: nat := 8

  /** `cCommandStream::cDispatch` */
  class Dispatch {
    /** `m_pEntries`: the caller's entry array */
    const entries: seq<Entry>
    /** `m_nEntries` */
    const nEntries: nat
    /** `m_pGroupName`, None for `nullptr` */
    const groupName: Option<string>
    /** `m_pContext`, forwarded to every handler of this table */
    var context: object?
    /** `m_pNext`: the table registered after this one */
    var next: Dispatch?
    /** `m_pLast`: the table registered before this one */
    var last: Dispatch?

    predicate Valid()
    {
      nEntries <= |entries|
    }

    /**
     * The table over `sizeofEntries` bytes of entries: the count is the byte
     * size divided by the size of one entry. The group name defaults to none
     * (`nullptr`). `m_pContext` stays unset until registration.
     */
    constructor (pEntries: seq<Entry>, sizeofEntries: nat, pGroupName: Option<string> := None)
      requires sizeofEntries / EntrySize <= |pEntries|
      ensures Valid()
      ensures entries == pEntries && nEntries == sizeofEntries / EntrySize
      ensures groupName == pGroupName
      ensures next == null && last == null
    {
      entries := pEntries;
      nEntries := sizeofEntries / EntrySize;
      groupName := pGroupName;
      next := null;
      last := null;
    }

    /**
     * `search(pCommand)`: the position of the first of the table's entries
     * named `command`, or None (`nullptr`) when none is.
     */
    function Search(command: string): (r: Option<nat>)
      requires Valid()
      ensures r.Some? ==> r.value < nEntries && entries[r.value].name == command
      ensures r.Some? ==> forall j :: 0 <= j < r.value ==> entries[j].name != command
      ensures r.None? ==> forall j :: 0 <= j < nEntries ==> entries[j].name != command
    {
      SearchFrom(command, 0)
    }

    function SearchFrom(command: string, i: nat): (r: Option<nat>)
      requires Valid() && i <= nEntries
      ensures r.Some? ==> i <= r.value < nEntries && entries[r.value].name == command
      ensures r.Some? ==> forall j :: i <= j < r.value ==> entries[j].name != command
      ensures r.None? ==> forall j :: i <= j < nEntries ==> entries[j].name != command
      decreases nEntries - i
    {
      if i == nEntries then None
      else if entries[i].name == command then Some(i)
      else SearchFrom(command, i + 1)
    }
  }

  /**
   * Looking a command up in a chain of tables: the first table, in chain
   * order, that has an entry of that name, and the entry's position there.
   */
  function ChainLookup(tables: seq<Dispatch>, command: string): (r: Option<(Dispatch, nat)>)
    requires forall t <- tables :: t.Valid()
    ensures r.Some? ==> r.value.0 in tables && r.value.0.Search(command) == Some(r.value.1)
    decreases |tables|
  {
    if tables == [] then None
    else match tables[0].Search(command)
      case Some(k) => Some((tables[0], k))
      case None => ChainLookup(tables[1..], command)
  }

  /**
   * The lookup finds nothing exactly when no table has the command, and
   * otherwise finds it in the first table that has it.
   */
  lemma {:induction false} ChainLookupFirst(tables: seq<Dispatch>, command: string)
    requires forall t <- tables :: t.Valid()
    ensures ChainLookup(tables, command).None? <==>
              forall i :: 0 <= i < |tables| ==> tables[i].Search(command).None?
    ensures ChainLookup(tables, command).Some? ==>
              exists i :: 0 <= i < |tables| && tables[i].Search(command).Some? &&
                ChainLookup(tables, command) == Some((tables[i], tables[i].Search(command).value)) &&
                forall j :: 0 <= j < i ==> tables[j].Search(command).None?
    decreases |tables|
  {
    if tables != [] {
      var rest := tables[1..];
      assert forall t <- rest :: t.Valid();
      ChainLookupFirst(rest, command);
      if tables[0].Search(command).None? {
        assert forall i :: 1 <= i < |tables| ==> tables[i] == rest[i - 1];
        if ChainLookup(rest, command).Some? {
          var i :| 0 <= i < |rest| && rest[i].Search(command).Some? &&
                   ChainLookup(rest, command) == Some((rest[i], rest[i].Search(command).value)) &&
                   forall j :: 0 <= j < i ==> rest[j].Search(command).None?;
          assert tables[i + 1] == rest[i];
          assert forall j :: 0 <= j < i + 1 ==> tables[j].Search(command).None?;
        }
      }
    }
  }

  /**
   * Appending a table to a chain: a command found before is still found in
   * the same table, and the new table is searched only for commands that no
   * earlier table has. Registration order is lookup precedence.
   */
  lemma {:induction false} ChainLookupAppend(tables: seq<Dispatch>, d: Dispatch, command: string)
    requires forall t <- tables :: t.Valid()
    requires d.Valid()
    ensures ChainLookup(tables + [d], command) ==
              if ChainLookup(tables, command).Some? then ChainLookup(tables, command)
              else match d.Search(command)
                case Some(k) => Some((d, k))
                case None => None
    decreases |tables|
  {
    if tables == [] {
      assert [d][1..] == [];
    } else {
      assert (tables + [d])[0] == tables[0];
      assert (tables + [d])[1..] == tables[1..] + [d];
      ChainLookupAppend(tables[1..], d, command);
    }
  }

  /**
   * `first` and the `next` / `last` fields of the tables link exactly the
   * tables of `tables`, in order: no table twice, each `next` the following
   * table (null at the end), each `last` the preceding one (null at the head).
   */
  ghost predicate LinkedAs(first: Dispatch?, tables: seq<Dispatch>)
    reads tables
  {
    && (forall i :: 0 <= i < |tables| ==> tables[i].Valid())
    && (forall i, j :: 0 <= i < j < |tables| ==> tables[i] != tables[j])
    && ForwardLinked(first, tables)
    && (forall i :: 0 <= i < |tables| ==> tables[i].last == (if i == 0 then null else tables[i - 1]))
  }

  /**
   * Following `m_pNext` from `first` visits exactly the tables of `tables`,
   * in order, and then reaches null: the chain a lookup walks.
   */
  ghost predicate ForwardLinked(first: Dispatch?, tables: seq<Dispatch>)
    reads tables
  {
    && first == (if tables == [] then null else tables[0])
    && (forall i :: 0 <= i < |tables| ==> tables[i].next == (if i + 1 < |tables| then tables[i + 1] else null))
  }

  lemma LinkAt(first: Dispatch?, tables: seq<Dispatch>, i: nat)
    requires LinkedAs(first, tables) && i < |tables|
    ensures tables[i].next == (if i + 1 < |tables| then tables[i + 1] else null)
    ensures tables[i].last == (if i == 0 then null else tables[i - 1])
  {
  }

  /**
   * The tail walk of `registerCommands`: follow `m_pNext` from `first` to the
   * last table and link `d` after it. Only `m_pNext` of the old tail and the
   * links of `d` change. Nothing here requires `d` to be new to the chain.
   */
  method LinkAtTail(first: Dispatch, ghost tables: seq<Dispatch>, d: Dispatch) returns (ghost tail: Dispatch)
    requires LinkedAs(first, tables)
    modifies tables[|tables| - 1], d
    ensures tail == tables[|tables| - 1]
    ensures d.last == tail && d.next == null
    ensures tail != d ==> tail.next == d && tail.last == old(tail.last)
    ensures tail.context == old(tail.context) && d.context == old(d.context)
    ensures forall t <- tables :: t != d && t != tail ==> t.next == old(t.next) && t.last == old(t.last)
  {
    var p: Dispatch := first;
    ghost var i := 0;
    while p.next != null
      modifies {}
      invariant LinkedAs(first, tables)
      invariant 0 <= i < |tables| && p == tables[i]
      decreases |tables| - i
    {
      LinkAt(first, tables, i);
      p := p.next;
      i := i + 1;
    }
    LinkAt(first, tables, i);
    p.next := d;
    d.last := p;
    d.next := null;
    tail := p;
  }

  /**
   * The same tail walk applied to a table `d` that is already registered,
   * at position j. The walk from `first` now ends at that table, so every table
   * registered after it is lost from the chain. Its `m_pLast` points at the
   * old tail, which is the table itself when it was the tail. This is why
   * `RegisterCommands` admits only a table that is not yet registered.
   */
  method RegisterAgain(first: Dispatch, ghost tables: seq<Dispatch>, d: Dispatch, ghost j: nat)
    requires LinkedAs(first, tables) && j < |tables| && d == tables[j]
    modifies tables[|tables| - 1], d
    ensures ForwardLinked(first, tables[..j + 1])
    ensures tables[j].last == tables[|tables| - 1]
    ensures forall k :: j < k < |tables| ==> tables[k] !in tables[..j + 1]
  {
    forall k | 0 <= k < |tables|
      ensures tables[k].next == (if k + 1 < |tables| then tables[k + 1] else null)
    {
      LinkAt(first, tables, k);
    }
    var tail := LinkAtTail(first, tables, d);
    forall k | 0 <= k <= j
      ensures tables[k].next == (if k < j then tables[k + 1] else null)
    {
      if k < j {
        assert tables[k] != tables[j] && tables[k] != tail;
        assert tables[k].next == old(tables[k].next);
      }
    }
    assert ForwardLinked(first, tables[..j + 1]);
  }

  /** `cStreamLineCollector`: the external line reader; only its identity is modelled. */
  class LineCollector {
    constructor () {}
  }

  /** `CatenaBase`: the owning host object; only its identity is modelled. */
  class Host {
    constructor () {}
  }

  /** `sizeof(m_buffer)` */
  const BufferSize: nat := 128

  /** The number of `m_argv` slots, `sizeof(m_buffer)/4`. */
  const ArgvSlots: nat := BufferSize / 4

  lemma ArgvCapacity()
    ensures ArgvSlots == 32 && 4 * ArgvSlots == BufferSize
  {
  }

  /** Where the read / dispatch cycle stands, derived from the flags. */
  datatype Phase = Idle | ReadPending | LineReady | CommandPending

  /**
   * What became of a completed line when it was processed: the read failed
   * (reported on the stream, not dispatched), the line held no tokens, or
   * it was dispatched and its handler returned `status`.
   */
  datatype LineOutcome = ReadFailed | EmptyLine | Dispatched(status: CommandStatus)

  /** `cCommandStream` */
  class CommandStream {
    /** `m_buffer[128]`: the line buffer */
    const buffer: array<uint8>
    /** `m_nRead`: how many bytes the last read delivered */
    var nRead: nat
    /** `m_fReadPending`: a read request is outstanding */
    var readPending: bool
    /** `m_fReadComplete`: a line has arrived and awaits processing */
    var readComplete: bool
    /** `m_ReadStatus`: the collector's status for the last read, narrowed to `uint8_t` */
    var readStatus: uint8
    /** `m_fCmdActive`: a dispatched command has not yet completed */
    var cmdActive: bool
    /** `m_CmdStatus` */
    var cmdStatus: CommandStatus
    /** `m_argv`: each argument as an offset into `m_buffer`, filled by parsing */
    const argv: array<nat>
    /** `m_pCollector`, null until `begin` */
    var collector: LineCollector?
    /** `m_pCatena`, null until `begin` */
    var host: Host?
    /** `m_pHead`: the first registered table */
    var head: Dispatch?
    /** the tables reachable from `m_pHead` through `m_pNext`, in order */
    ghost var chain: seq<Dispatch>

    /**
     * The intrusive list through `m_pHead`, `m_pNext` and `m_pLast` is the
     * sequence `chain`.
     */
    ghost predicate ChainValid()
      reads this, chain
    {
      LinkedAs(head, chain)
    }

    /**
     * At most one line is in flight: a completed line is never also pending,
     * and while a command is active neither a read nor a line is outstanding.
     */
    ghost predicate FlagsConsistent()
      reads this
    {
      && !(readPending && readComplete)
      && (cmdActive ==> !readPending && !readComplete)
    }

    ghost predicate Valid()
      reads this, chain
    {
      && buffer.Length == BufferSize
      && argv.Length == ArgvSlots
      && ChainValid()
      && FlagsConsistent()
    }

    ghost function Phase(): (ph: Phase)
      reads this
    {
      if cmdActive then CommandPending
      else if readComplete then LineReady
      else if readPending then ReadPending
      else Idle
    }

    /**
     * `cCommandStream()`: no read pending or complete, no command active,
     * no collector, no host and no registered tables.
     */
    constructor ()
      ensures Valid() && fresh(buffer) && fresh(argv)
      ensures !readPending && !readComplete && !cmdActive && Phase() == Idle
      ensures collector == null && host == null
      ensures head == null && chain == []
    {
      buffer := new uint8[BufferSize];
      argv := new nat[ArgvSlots];
      nRead := 0;
      readStatus := 0;
      readPending, readComplete, cmdActive := false, false, false;
      cmdStatus := Unknown;
      collector, host, head := null, null, null;
      chain := [];
    }

    /** `begin(pCollector, pCatena)`: bind the stream to its collector and host. */
    method Begin(pCollector: LineCollector, pCatena: Host) returns (ok: bool)
      requires Valid()
      modifies this
      ensures Valid()
      ensures ok
      ensures collector == pCollector && host == pCatena
      ensures head == old(head) && chain == old(chain)
      ensures readPending == old(readPending) && readComplete == old(readComplete)
      ensures cmdActive == old(cmdActive) && cmdStatus == old(cmdStatus)
      ensures nRead == old(nRead) && readStatus == old(readStatus)
    {
      collector := pCollector;
      host := pCatena;
      ok := true;
    }

    /**
     * `registerCommands(pDispatch, pContext)`: record the table's context and
     * link it at the end of the chain; the tables already registered stay,
     * in their order, ahead of it.
     */
    method RegisterCommands(d: Dispatch, pContext: object?)
      requires Valid()
      requires d.Valid() && d !in chain
      modifies this, d, chain
      ensures Valid()
      ensures chain == old(chain) + [d]
      ensures d.context == pContext
      ensures forall t <- old(chain) :: t.context == old(t.context)
      ensures readPending == old(readPending) && readComplete == old(readComplete)
      ensures cmdActive == old(cmdActive) && cmdStatus == old(cmdStatus)
      ensures nRead == old(nRead) && readStatus == old(readStatus)
      ensures collector == old(collector) && host == old(host)
    {
      ghost var c0 := chain;
      forall k | 0 <= k < |c0|
        ensures c0[k].last == (if k == 0 then null else c0[k - 1])
      {
        LinkAt(head, c0, k);
      }
      ghost var tail: Dispatch? := null;
      if head == null {
        assert c0 == [];
        head := d;
        d.last := null;
        d.next := null;
      } else {
        tail := LinkAtTail(head, chain, d);
      }
      assert tail == (if c0 == [] then null else c0[|c0| - 1]);
      d.context := pContext;
      chain := chain + [d];
      forall k | 0 <= k < |chain|
        ensures chain[k].next == (if k + 1 < |chain| then chain[k + 1] else null)
      {
        if k + 1 < |c0| {
          assert chain[k] == c0[k] && c0[k] != d && c0[k] != c0[|c0| - 1];
          assert c0[k].next == old(c0[k].next);
        }
      }
      forall k | 0 <= k < |chain|
        ensures chain[k].last == (if k == 0 then null else chain[k - 1])
      {
        if k < |c0| {
          assert chain[k] == c0[k] && c0[k] in old(chain);
          assert old(c0[k].last) == (if k == 0 then null else c0[k - 1]);
          assert c0[k].last == old(c0[k].last);
          if k > 0 {
            assert chain[k - 1] == c0[k - 1];
          }
        } else {
          assert chain[k] == d && d.last == tail;
        }
      }
      assert LinkedAs(head, chain);
    }

    /**
     * The dispatcher's command lookup: walk the chain from `m_pHead` along
     * `m_pNext`, searching each table, and stop at the first table that has
     * the command.
     */
    method FindCommand(command: string) returns (r: Option<(Dispatch, nat)>)
      requires Valid()
      ensures r == ChainLookup(chain, command)
    {
      var p := head;
      ghost var i := 0;
      while p != null
        invariant LinkedAs(head, chain)
        invariant 0 <= i <= |chain|
        invariant p == (if i < |chain| then chain[i] else null)
        invariant ChainLookup(chain, command) == ChainLookup(chain[i..], command)
        decreases |chain| - i
      {
        assert chain[i..][0] == p && chain[i..][1..] == chain[i + 1..];
        LinkAt(head, chain, i);
        var k := p.Search(command);
        if k.Some? {
          return Some((p, k.value));
        }
        p := p.next;
        i := i + 1;
      }
      return None;
    }

    /** `launchRead()`: issue the read request for the next line. */
    method LaunchRead()
      requires Valid() && Phase() == Idle
      modifies this
      ensures Valid() && Phase() == ReadPending
      ensures readPending && !readComplete && !cmdActive
      ensures cmdStatus == old(cmdStatus) && nRead == old(nRead) && readStatus == old(readStatus)
      ensures head == old(head) && chain == old(chain)
      ensures collector == old(collector) && host == old(host)
    {
      readPending := true;
    }

    /**
     * `readComplete(uStatus, pBuffer, nBuffer)`: the outstanding read has
     * delivered a line (or an error); record it for the next poll.
     */
    method ReadComplete(uStatus: int, nBuffer: nat)
      requires Valid() && readPending
      modifies this
      ensures Valid() && Phase() == LineReady
      ensures !readPending && readComplete
      ensures readStatus == ToUint8(uStatus) && nRead == nBuffer
      ensures cmdActive == old(cmdActive) && cmdStatus == old(cmdStatus)
      ensures head == old(head) && chain == old(chain)
      ensures collector == old(collector) && host == old(host)
    {
      readPending := false;
      readStatus := ToUint8(uStatus);
      nRead := nBuffer;
      readComplete := true;
    }

    /**
     * `readCompleteCb(pCtx, uStatus, pBuffer, nBuffer)`: the collector's
     * callback; it forwards the status and count unchanged to the stream the
     * context designates.
     */
    static method ReadCompleteCb(ctx: CommandStream, uStatus: int, nBuffer: nat)
      requires ctx.Valid() && ctx.readPending
      modifies ctx
      ensures ctx.Valid() && ctx.Phase() == LineReady
      ensures !ctx.readPending && ctx.readComplete
      ensures ctx.readStatus == ToUint8(uStatus) && ctx.nRead == nBuffer
      ensures ctx.cmdActive == old(ctx.cmdActive) && ctx.cmdStatus == old(ctx.cmdStatus)
      ensures ctx.head == old(ctx.head) && ctx.chain == old(ctx.chain)
      ensures ctx.collector == old(ctx.collector) && ctx.host == old(ctx.host)
    {
      ctx.ReadComplete(uStatus, nBuffer);
    }

    /**
     * `poll()`: one step of the cycle. While a command is active, or while
     * a read is outstanding, nothing happens. A completed line is consumed;
     * `line` says what became of it. A failed read or an empty line is not
     * dispatched and records no status. A dispatched line records the
     * handler's status: a pending status makes the command active, and any
     * other ends it at once. With nothing outstanding, a new read is
     * launched.
     */
    method Poll(line: LineOutcome)
      requires Valid()
      modifies this
      ensures Valid()
      ensures old(Phase()) == CommandPending || old(Phase()) == ReadPending ==>
                readPending == old(readPending) && readComplete == old(readComplete) &&
                cmdActive == old(cmdActive) && cmdStatus == old(cmdStatus)
      ensures old(Phase()) == Idle ==> Phase() == ReadPending && cmdStatus == old(cmdStatus)
      ensures old(Phase()) == LineReady ==> !readComplete && !readPending
      ensures old(Phase()) == LineReady && line.Dispatched? ==>
                cmdStatus == line.status && cmdActive == !line.status.IsTerminal() &&
                Phase() == (if line.status.IsTerminal() then Idle else CommandPending)
      ensures old(Phase()) == LineReady && !line.Dispatched? ==>
                cmdStatus == old(cmdStatus) && !cmdActive && Phase() == Idle
      ensures readPending && !old(readPending) ==> old(Phase()) == Idle
      ensures nRead == old(nRead) && readStatus == old(readStatus)
      ensures head == old(head) && chain == old(chain)
      ensures collector == old(collector) && host == old(host)
    {
      if cmdActive {
        return;
      }
      if readComplete {
        readComplete := false;
        if line.Dispatched? {
          cmdStatus := line.status;
          if line.status == Pending {
            cmdActive := true;
          }
        }
      } else if !readPending {
        LaunchRead();
      }
    }

    /**
     * `completeCommand(status)`: an asynchronous command has finished; the
     * command is no longer active and its final status is recorded.
     */
    method CompleteCommand(status: CommandStatus)
      requires Valid()
      modifies this
      ensures Valid()
      ensures !cmdActive && cmdStatus == status
      ensures old(Phase()) == CommandPending ==> Phase() == Idle
      ensures readPending == old(readPending) && readComplete == old(readComplete)
      ensures nRead == old(nRead) && readStatus == old(readStatus)
      ensures head == old(head) && chain == old(chain)
      ensures collector == old(collector) && host == old(host)
    {
      cmdActive := false;
      cmdStatus := status;
    }
  }

  /**
   * A command that completes asynchronously: its line is dispatched once,
   * polling while it is active changes nothing, and after `completeCommand`
   * the status it reports is the one recorded and the next poll reads again.
   * A failed read that follows is not dispatched, keeps that status, and the
   * poll after it reads again.
   */
  method PendingCommandScenario(c: LineCollector, h: Host)
  {
    var s := new CommandStream();
    var ok := s.Begin(c, h);
    s.Poll(EmptyLine);
    assert s.Phase() == ReadPending;
    CommandStream.ReadCompleteCb(s, 0, 7);
    s.Poll(Dispatched(Pending));
    assert s.Phase() == CommandPending;
    s.Poll(Dispatched(Success));
    assert s.Phase() == CommandPending && s.cmdStatus == Pending;
    s.CompleteCommand(InternalError);
    assert s.Phase() == Idle && s.cmdStatus == InternalError;
    s.Poll(EmptyLine);
    assert s.Phase() == ReadPending && s.cmdStatus == InternalError;
    CommandStream.ReadCompleteCb(s, 1, 0);
    s.Poll(ReadFailed);
    assert s.Phase() == Idle && s.cmdStatus == InternalError;
    s.Poll(EmptyLine);
    assert s.Phase() == ReadPending;
  }
}
