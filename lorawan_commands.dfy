/**
 * The `lorawan` command table of the STM32L0 Catena platform and its one
 * command, `lorawan configure [ {param} [ {value} ] ]`, which displays or
 * sets a LoRaWAN provisioning value kept in FRAM.
 *
 * The FRAM cursor belongs to a storage library that is not part of this
 * model: what its queries and transfers report is given as a
 * `StorageResults` record, and the transfers the handler asks of it are
 * returned as a trace of `StorageCall`s.
 */
module LoRaWANCommands {
  import opened CatenaTypes
  import opened CommandStreams

  /** `cFramStorage::StandardKeys`: the FRAM items `configure` can address. */
  datatype StandardKey =
    | DevEUI | AppEUI | AppKey | NwkSKey | AppSKey
    | DevAddr | NetID | FCntUp | FCntDown | Join

  /** `struct KeyMap` */
  datatype KeyMapEntry = KeyMapEntry(name: string, key: StandardKey)

  /** `sKeyMap`: parameter names and the keys they select. */
  const KeyMap: seq<KeyMapEntry> := [
    KeyMapEntry("deveui", DevEUI),
    KeyMapEntry("appeui", AppEUI),
    KeyMapEntry("appkey", AppKey),
    KeyMapEntry("nwkskey", NwkSKey),
    KeyMapEntry("appskey", AppSKey),
    KeyMapEntry("devaddr", DevAddr),
    KeyMapEntry("netid", NetID),
    KeyMapEntry("fcntup", FCntUp),
    KeyMapEntry("fcntdown", FCntDown),
    KeyMapEntry("join", Join)
  ]

  // ---------------------------------------------------------------------
  // Case-insensitive names
  // ---------------------------------------------------------------------

  /** `tolower` in the C locale: only 'A'..'Z' change. */
  function ToLower(c: char): (r: char)
    ensures 'A' <= c <= 'Z' ==> 'a' <= r <= 'z' && r as int == c as int + 32
    ensures !('A' <= c <= 'Z') ==> r == c
  {
    if 'A' <= c <= 'Z' then (c as int + 32) as char else c
  }

  /** `strcasecmp(a, b) == 0` */
  predicate EqualsIgnoreCase(a: string, b: string)
  {
    |a| == |b| && forall i :: 0 <= i < |a| ==> ToLower(a[i]) == ToLower(b[i])
  }

  lemma EqualsIgnoreCaseSymmetric(a: string, b: string)
    ensures EqualsIgnoreCase(a, b) ==> EqualsIgnoreCase(b, a)
  {
  }

  lemma EqualsIgnoreCaseTransitive(a: string, b: string, c: string)
    requires EqualsIgnoreCase(a, b) && EqualsIgnoreCase(b, c)
    ensures EqualsIgnoreCase(a, c)
  {
  }

  predicate IsLowerName(s: string)
  {
    forall i :: 0 <= i < |s| ==> 'a' <= s[i] <= 'z'
  }

  /** Two lower-case names are equal ignoring case only when they are equal. */
  lemma LowerNamesIgnoreCase(a: string, b: string)
    requires IsLowerName(a) && IsLowerName(b)
    ensures EqualsIgnoreCase(a, b) <==> a == b
  {
    if EqualsIgnoreCase(a, b) {
      assert forall i :: 0 <= i < |a| ==> a[i] == ToLower(a[i]) == ToLower(b[i]) == b[i];
    }
  }

  /** The ten names of `sKeyMap` are distinct even ignoring case. */
  lemma KeyMapNamesDistinct()
    ensures |KeyMap| == 10
    ensures forall i, j :: 0 <= i < j < |KeyMap| ==> !EqualsIgnoreCase(KeyMap[i].name, KeyMap[j].name)
  {
    assert forall i :: 0 <= i < |KeyMap| ==> IsLowerName(KeyMap[i].name);
    forall i, j | 0 <= i < j < |KeyMap|
      ensures !EqualsIgnoreCase(KeyMap[i].name, KeyMap[j].name)
    {
      LowerNamesIgnoreCase(KeyMap[i].name, KeyMap[j].name);
    }
  }

  /** Whatever the parameter name, at most one `sKeyMap` entry matches it. */
  lemma AtMostOneKeyMatches(name: string, i: nat, j: nat)
    requires i < |KeyMap| && j < |KeyMap|
    requires EqualsIgnoreCase(KeyMap[i].name, name) && EqualsIgnoreCase(KeyMap[j].name, name)
    ensures i == j
  {
    KeyMapNamesDistinct();
    EqualsIgnoreCaseSymmetric(KeyMap[j].name, name);
    EqualsIgnoreCaseTransitive(KeyMap[i].name, name, KeyMap[j].name);
    EqualsIgnoreCaseSymmetric(KeyMap[i].name, KeyMap[j].name);
  }

  // ---------------------------------------------------------------------
  // The key lookup
  // ---------------------------------------------------------------------

  /** The key of the first entry of `table` whose name matches, ignoring case. */
  function Lookup(table: seq<KeyMapEntry>, name: string): (r: Option<StandardKey>)
    decreases |table|
  {
    if table == [] then None
    else if EqualsIgnoreCase(table[0].name, name) then Some(table[0].key)
    else Lookup(table[1..], name)
  }

  /** The key a parameter name selects in `sKeyMap`. */
  function KeyFor(name: string): (key: Option<StandardKey>)
  {
    Lookup(KeyMap, name)
  }

  lemma {:induction false} LookupAppend(table: seq<KeyMapEntry>, e: KeyMapEntry, name: string)
    ensures Lookup(table + [e], name) ==
              if Lookup(table, name).Some? then Lookup(table, name)
              else if EqualsIgnoreCase(e.name, name) then Some(e.key)
              else None
    decreases |table|
  {
    if table == [] {
      assert [e][1..] == [];
    } else {
      assert (table + [e])[0] == table[0] && (table + [e])[1..] == table[1..] + [e];
      LookupAppend(table[1..], e, name);
    }
  }

  /** A lookup finds a key exactly when some entry matches, and it is a matching entry's key. */
  lemma {:induction false} LookupMatches(table: seq<KeyMapEntry>, name: string)
    ensures Lookup(table, name).None? <==>
              forall i :: 0 <= i < |table| ==> !EqualsIgnoreCase(table[i].name, name)
    ensures Lookup(table, name).Some? ==>
              exists i :: 0 <= i < |table| && EqualsIgnoreCase(table[i].name, name) &&
                          table[i].key == Lookup(table, name).value
    decreases |table|
  {
    if table != [] {
      LookupMatches(table[1..], name);
      assert forall i :: 1 <= i < |table| ==> table[i] == table[1..][i - 1];
      if !EqualsIgnoreCase(table[0].name, name) && Lookup(table, name).Some? {
        var i :| 0 <= i < |table[1..]| && EqualsIgnoreCase(table[1..][i].name, name) &&
                 table[1..][i].key == Lookup(table[1..], name).value;
        assert table[i + 1] == table[1..][i];
      }
    }
  }

  /**
   * The scan of `sKeyMap` in `doConfigure`: every entry whose name matches
   * the parameter, ignoring case, positions the cursor on its key. Since at
   * most one entry matches, the cursor ends on the key `KeyFor` gives, and
   * it is bound exactly when some entry matches.
   */
  method LocateKey(name: string) returns (bound: Option<StandardKey>)
    ensures bound == KeyFor(name)
    ensures bound.None? <==> forall i :: 0 <= i < |KeyMap| ==> !EqualsIgnoreCase(KeyMap[i].name, name)
    ensures bound.Some? ==> exists i :: 0 <= i < |KeyMap| && EqualsIgnoreCase(KeyMap[i].name, name) &&
                                        KeyMap[i].key == bound.value
  {
    bound := None;
    for i := 0 to |KeyMap|
      invariant bound == Lookup(KeyMap[..i], name)
    {
      LookupAppend(KeyMap[..i], KeyMap[i], name);
      assert KeyMap[..i + 1] == KeyMap[..i] + [KeyMap[i]];
      if EqualsIgnoreCase(KeyMap[i].name, name) {
        assert Lookup(KeyMap[..i], name).None? by {
          LookupMatches(KeyMap[..i], name);
          if Lookup(KeyMap[..i], name).Some? {
            var j :| 0 <= j < i && EqualsIgnoreCase(KeyMap[..i][j].name, name);
            AtMostOneKeyMatches(name, j, i);
          }
        }
        bound := Some(KeyMap[i].key);
      }
    }
    assert KeyMap[..|KeyMap|] == KeyMap;
    LookupMatches(KeyMap, name);
  }

  // ---------------------------------------------------------------------
  // The configure handler
  // ---------------------------------------------------------------------

  /** `sizeof(databuf)`: the largest item `configure` transfers. */
  const DataBufSize: nat := 16

  /** What the FRAM cursor reports for the item it is bound to. */
  datatype StorageResults = StorageResults(
    itemSize: nat,    // getitemsize()
    located: bool,    // islocated(): the item exists in FRAM
    getOk: bool,      // get(databuf, size)
    parseOk: bool,    // parsevalue(pValue, databuf, size)
    createOk: bool,   // create()
    putOk: bool       // put(databuf, size)
  )

  /** A request the handler makes of the FRAM cursor. */
  datatype StorageCall =
    | Locate(key: StandardKey)
    | Get(size: nat)
    | Format(size: nat)
    | Parse(size: nat)
    | Create
    | Put(size: nat)

  datatype ConfigureResult = ConfigureResult(status: CommandStatus, calls: seq<StorageCall>)

  /** The transfer size: the item size, limited to the size of `databuf`. */
  function TransferSize(itemSize: nat): (size: nat)
    ensures size <= DataBufSize
    ensures itemSize <= DataBufSize ==> size == itemSize
    ensures itemSize > DataBufSize ==> size == DataBufSize
  {
    Min(itemSize, DataBufSize)
  }

  predicate SizedWith(c: StorageCall, size: nat)
  {
    match c
    case Get(s) => s == size
    case Format(s) => s == size
    case Parse(s) => s == size
    case Put(s) => s == size
    case _ => true
  }

  predicate Writes(calls: seq<StorageCall>)
  {
    exists i :: 0 <= i < |calls| && calls[i].Put?
  }

  /**
   * What `doConfigure` does once the parameter name has been looked up:
   * `bound` is the key the cursor was positioned on, if any.
   */
  function Configure(argc: nat, bound: Option<StandardKey>, fram: StorageResults): (r: ConfigureResult)
    ensures r.status.IsTerminal()
    ensures argc < 2 || bound.None? ==> r == ConfigureResult(InvalidParameter, [])
    ensures argc >= 2 && bound.Some? ==> |r.calls| >= 1 && r.calls[0] == Locate(bound.value)
    ensures forall c <- r.calls :: SizedWith(c, TransferSize(fram.itemSize))
    ensures r.status == Success <==>
              argc >= 2 && bound.Some? &&
              (if argc == 2 then fram.located && fram.getOk
               else fram.parseOk && fram.createOk && fram.putOk)
    ensures Writes(r.calls) <==> argc > 2 && bound.Some? && fram.parseOk && fram.createOk
  {
    if argc < 2 then
      ConfigureResult(InvalidParameter, [])
    else if bound.None? then
      ConfigureResult(InvalidParameter, [])
    else
      var size := TransferSize(fram.itemSize);
      var locate := [Locate(bound.value)];
      if argc <= 2 then
        if !fram.located then
          ConfigureResult(NotInitialized, locate)
        else if !fram.getOk then
          ConfigureResult(ReadError, locate + [Get(size)])
        else
          ConfigureResult(Success, locate + [Get(size), Format(size)])
      else
        if !fram.parseOk then
          ConfigureResult(InvalidParameter, locate + [Parse(size)])
        else if !fram.createOk then
          ConfigureResult(CreateError, locate + [Parse(size), Create])
        else
          var calls := locate + [Parse(size), Create, Put(size)];
          assert calls[3].Put?;
          ConfigureResult(if fram.putOk then Success else WriteError, calls)
  }

  /** `lorawan configure {param}`: the display path and its three outcomes. */
  lemma DisplayStatus(bound: Option<StandardKey>, fram: StorageResults)
    requires bound.Some?
    ensures Configure(2, bound, fram).status ==
              if !fram.located then NotInitialized
              else if !fram.getOk then ReadError
              else Success
    ensures !Writes(Configure(2, bound, fram).calls)
  {
  }

  /** `lorawan configure {param} {value}`: the set path and its four outcomes. */
  lemma SetStatus(argc: nat, bound: Option<StandardKey>, fram: StorageResults)
    requires argc > 2 && bound.Some?
    ensures Configure(argc, bound, fram).status ==
              if !fram.parseOk then InvalidParameter
              else if !fram.createOk then CreateError
              else if fram.putOk then Success
              else WriteError
  {
  }

  /**
   * `doConfigure(pThis, pContext, argc, argv)`. Too few arguments: invalid
   * parameter, before the cursor is touched. Otherwise the parameter name
   * `argv[1]` is looked up in `sKeyMap`, and the outcome follows from the
   * key found and what the cursor reports. The handler always finishes
   * synchronously.
   */
  method DoConfigure(argc: nat, argv: seq<string>, fram: StorageResults) returns (res: ConfigureResult)
    requires argc <= |argv|
    ensures res == Configure(argc, if argc < 2 then None else KeyFor(argv[1]), fram)
    ensures res.status != Pending
    ensures argc < 2 ==> res == ConfigureResult(InvalidParameter, [])
  {
    if argc < 2 {
      return ConfigureResult(InvalidParameter, []);
    }
    var bound := LocateKey(argv[1]);
    res := Configure(argc, bound, fram);
  }

  // ---------------------------------------------------------------------
  // The command table
  // ---------------------------------------------------------------------

  /** The identity of the handler `doConfigure`. */
  const ConfigureFn: CommandFn := 1

  /** `sDispatchEntries` */
  const DispatchEntries: seq<Entry> := [Entry("configure", ConfigureFn)]

  /**
   * `sDispatch(sDispatchEntries, sizeof(sDispatchEntries), "lorawan")`: a
   * table of exactly one entry, `configure`, in the group `lorawan`.
   */
  method NewLoRaWANDispatch() returns (d: Dispatch)
    ensures fresh(d) && d.Valid()
    ensures d.nEntries == 1 && d.entries == DispatchEntries
    ensures d.groupName == Some("lorawan")
    ensures d.Search("configure") == Some(0)
    ensures forall command :: command != "configure" ==> d.Search(command).None?
    ensures d.next == null && d.last == null
  {
    d := new Dispatch(DispatchEntries, |DispatchEntries| * EntrySize, Some("lorawan"));
  }
}
