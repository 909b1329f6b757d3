/**
 * The extraction driver: per image, build the address-keyed stub table and
 * append its listing to a shared output stream; per run, extract from the
 * native API library (identifiers from 0) and the user/GDI thunk library
 * (identifiers from 0x1000) and decide whether to save the listing.
 */
module Extractor {
  import opened Wrappers
  import opened SyscallName
  import opened SyscallTable
  import opened Listing

  const NtdllStartID: nat := 0
  const Win32uStartID: nat := 0x1000
  const DefaultOutFileName: string := "syscalls.txt"

  /** The in-memory text stream the listing is accumulated in: it is only ever appended to. */
  class TextStream {
    var text: string

    constructor ()
      ensures text == ""
    {
      text := "";
    }

    method Write(s: string)
      modifies this
      ensures text == old(text) + s
    {
      text := text + s;
    }
  }

  /** The records of a table: its names in ascending key order, numbered from `startID`. */
  ghost function Records(table: map<Dword, string>, startID: nat): (records: seq<Record>)
    ensures |records| == |table|
  {
    SortedKeysMembers(table.Keys);
    RecordsOf(SortedKeys(table.Keys), table, startID)
  }

  /** The records for the first `keys` of a table walk. */
  ghost function RecordsOf(keys: seq<Dword>, table: map<Dword, string>, startID: nat): (records: seq<Record>)
    requires forall k :: k in keys ==> k in table
    ensures |records| == |keys|
    decreases |keys|
  {
    if keys == [] then []
    else
      var n := |keys| - 1;
      RecordsOf(keys[..n], table, startID) + [Record(startID + n, table[keys[n]])]
  }

  lemma RecordsOfAppend(keys: seq<Dword>, k: Dword, table: map<Dword, string>, startID: nat)
    requires forall j :: j in keys ==> j in table
    requires k in table
    ensures RecordsOf(keys + [k], table, startID) == RecordsOf(keys, table, startID) + [Record(startID + |keys|, table[k])]
  {
    assert (keys + [k])[..|keys|] == keys;
  }

  lemma {:induction false} RecordsOfAt(keys: seq<Dword>, table: map<Dword, string>, startID: nat, k: nat)
    requires forall j :: j in keys ==> j in table
    requires k < |keys|
    ensures RecordsOf(keys, table, startID)[k] == Record(startID + k, table[keys[k]])
    decreases |keys|
  {
    var n := |keys| - 1;
    if k < n {
      RecordsOfAt(keys[..n], table, startID, k);
    }
  }

  /** One step of the table walk: the least remaining key comes next, and its line extends the listing. */
  lemma WalkStep(table: map<Dword, string>, walked: seq<Dword>, rest: set<Dword>, rva: Dword, startID: nat, text: string)
    requires rest <= table.Keys && IsLeast(rva, rest)
    requires forall k :: k in walked ==> k in table
    requires SortedKeys(table.Keys) == walked + SortedKeys(rest)
    ensures SortedKeys(table.Keys) == (walked + [rva]) + SortedKeys(rest - {rva})
    ensures text + Render(RecordsOf(walked, table, startID)) + Line(Record(startID + |walked|, table[rva]))
      == text + Render(RecordsOf(walked + [rva], table, startID))
  {
    SortedKeysFirst(rest, rva);
    assert walked + SortedKeys(rest) == (walked + [rva]) + SortedKeys(rest - {rva});
    RecordsOfAppend(walked, rva, table, startID);
    RenderAppend(RecordsOf(walked, table, startID), Record(startID + |walked|, table[rva]));
  }

  /** The text one extraction appends to the stream. */
  ghost function ExtractedText(img: Image, startID: nat): string {
    match img.exportNames
    case None => ""
    case Some(names) => Render(Records(BuildTable(names, img), startID))
  }

  /** The value one extraction returns: 0 when the names cannot be listed, otherwise the next unused identifier. */
  function ExtractedValue(img: Image, startID: nat): nat {
    match img.exportNames
    case None => 0
    case Some(names) => startID + |BuildTable(names, img)|
  }

  /** The first loop of the extraction: insert every contributing export name under its relative address. */
  method CollectSyscalls(names: seq<string>, img: Image) returns (sysFunctions: map<Dword, string>)
    ensures sysFunctions == BuildTable(names, img)
  {
    sysFunctions := map[];
    var i := 0;
    while i < |names|
      invariant 0 <= i <= |names|
      invariant sysFunctions == BuildTable(names[..i], img)
    {
      var funcName := names[i];
      assert names[..i + 1][..i] == names[..i];
      BuildTableStep(names[..i + 1], img);
      if IsSyscallFunc(funcName) {
        var va := img.resolve(funcName);
        if va != 0 {
          var rva := Rva(va, img.base);
          sysFunctions := sysFunctions[rva := funcName];
        }
      }
      i := i + 1;
    }
    assert names[..i] == names;
  }

  /** The second loop: walk the table in ascending key order, appending one numbered line per entry. */
  method WriteTable(sysFunctions: map<Dword, string>, outs: TextStream, startID: nat) returns (id: nat)
    modifies outs
    ensures outs.text == old(outs.text) + Render(Records(sysFunctions, startID))
    ensures id == startID + |sysFunctions|
  {
    ghost var before := outs.text;
    id := startID;
    var rest := sysFunctions.Keys;
    ghost var walked: seq<Dword> := [];
    assert RecordsOf(walked, sysFunctions, startID) == [];
    while rest != {}
      invariant rest <= sysFunctions.Keys
      invariant forall k :: k in walked ==> k in sysFunctions
      invariant SortedKeys(sysFunctions.Keys) == walked + SortedKeys(rest)
      invariant id == startID + |walked|
      invariant outs.text == before + Render(RecordsOf(walked, sysFunctions, startID))
      decreases rest
    {
      LeastExists(rest);
      var rva :| IsLeast(rva, rest);
      var funcName := sysFunctions[rva];
      WalkStep(sysFunctions, walked, rest, rva, startID, before);
      // "0x", the identifier in unpadded lower-case hex, ",", the name, "\n"
      outs.Write(Line(Record(id, funcName)));
      walked := walked + [rva];
      id := id + 1;
      rest := rest - {rva};
    }
    assert walked == SortedKeys(sysFunctions.Keys);
  }

  /**
   * Extracts the stub table of one image and appends its listing to `outs`;
   * returns `startID` plus the number of lines written, or 0 when the export
   * names cannot be listed.
   */
  method ExtractSyscalls(img: Image, outs: TextStream, startID: nat) returns (id: nat)
    modifies outs
    ensures outs.text == old(outs.text) + ExtractedText(img, startID)
    ensures id == ExtractedValue(img, startID)
  {
    if img.exportNames.None? {
      return 0;
    }
    var sysFunctions := CollectSyscalls(img.exportNames.value, img);
    id := WriteTable(sysFunctions, outs, startID);
  }

  /** What loading a library gives: None when the PE loader fails. */
  type LoadOutcome = Option<Image>

  ghost function DllText(load: LoadOutcome, startID: nat): string {
    match load
    case None => ""
    case Some(img) => ExtractedText(img, startID)
  }

  function DllValue(load: LoadOutcome, startID: nat): nat {
    match load
    case None => 0
    case Some(img) => ExtractedValue(img, startID)
  }

  /** Extracts from one library: nothing is appended and 0 returned when it fails to load. */
  method ExtractFromDll(load: LoadOutcome, startSyscallID: nat, outs: TextStream) returns (extractedCount: nat)
    modifies outs
    ensures outs.text == old(outs.text) + DllText(load, startSyscallID)
    ensures extractedCount == DllValue(load, startSyscallID)
  {
    if load.None? {
      return 0;
    }
    extractedCount := ExtractSyscalls(load.value, outs, startSyscallID);
  }

  /** The output path: the first command-line argument after the program name, else the default. */
  function OutFileName(args: seq<string>): (name: string)
    ensures |args| >= 2 ==> name == args[1]
    ensures |args| < 2 ==> name == DefaultOutFileName
  {
    if |args| < 2 then DefaultOutFileName else args[1]
  }

  datatype SavedFile = SavedFile(path: string, contents: string)

  /** The exit status and the file written, if any. */
  datatype RunResult = RunResult(status: int, saved: Option<SavedFile>)

  /** What a run does, given the load outcomes of the two libraries. */
  ghost function Program(ntdll: LoadOutcome, win32u: LoadOutcome, args: seq<string>): RunResult {
    var extractedCount := DllValue(ntdll, NtdllStartID) + DllValue(win32u, Win32uStartID);
    if extractedCount == 0 then RunResult(-1, None)
    else RunResult(0, Some(SavedFile(OutFileName(args), DllText(ntdll, NtdllStartID) + DllText(win32u, Win32uStartID))))
  }

  /** The program's main flow: extract from both libraries into one stream, fail on a zero sum, else save the stream. */
  method Run(ntdll: LoadOutcome, win32u: LoadOutcome, args: seq<string>) returns (result: RunResult)
    ensures result == Program(ntdll, win32u, args)
  {
    var outFileName := OutFileName(args);
    var outs := new TextStream();
    var extractedCount: nat := 0;
    ghost var ntdllText := DllText(ntdll, NtdllStartID);
    ghost var win32uText := DllText(win32u, Win32uStartID);
    var count := ExtractFromDll(ntdll, NtdllStartID, outs);
    extractedCount := extractedCount + count;
    assert outs.text == ntdllText;
    count := ExtractFromDll(win32u, Win32uStartID, outs);
    extractedCount := extractedCount + count;
    assert outs.text == ntdllText + win32uText;
    assert extractedCount == DllValue(ntdll, NtdllStartID) + DllValue(win32u, Win32uStartID);
    if extractedCount == 0 {
      return RunResult(-1, None);
    }
    result := RunResult(0, Some(SavedFile(outFileName, outs.text)));
  }

  /** Whether a library adds nothing to the sum: it fails to load, its names cannot be listed, or none is a resolvable stub. */
  ghost predicate ContributesNothing(load: LoadOutcome) {
    match load
    case None => true
    case Some(img) =>
      match img.exportNames
      case None => true
      case Some(names) => forall i :: 0 <= i < |names| ==> !Contributes(names[i], img)
  }

  /** Whether a library's extraction returns 0 whatever its start identifier: it fails to load or its names cannot be listed. */
  predicate ListingFails(load: LoadOutcome) {
    load.None? || load.value.exportNames.None?
  }

  /**
   * When no stub name with a non-zero address contains a newline, the listing
   * one extraction appends reads back, line by line, as the table's names in
   * ascending address order numbered from `startID`, and the value returned is
   * `startID` plus the number of lines.
   */
  lemma ExtractedTextParses(img: Image, startID: nat)
    requires img.exportNames.Some?
    requires forall i :: 0 <= i < |img.exportNames.value| && Contributes(img.exportNames.value[i], img) ==>
      '\n' !in img.exportNames.value[i]
    ensures var table := BuildTable(img.exportNames.value, img);
      var keys := SortedKeys(table.Keys);
      var parsed := ParseListing(ExtractedText(img, startID));
      && parsed.Some?
      && |parsed.value| == |keys| == ExtractedValue(img, startID) - startID
      && (forall k :: 0 <= k < |keys| ==> keys[k] in table && parsed.value[k] == Record(startID + k, table[keys[k]]))
  {
    var names := img.exportNames.value;
    var table := BuildTable(names, img);
    var keys := SortedKeys(table.Keys);
    var records := Records(table, startID);
    SortedKeysMembers(table.Keys);
    TableNamesFromList(names, img);
    forall k | 0 <= k < |keys| ensures records[k] == Record(startID + k, table[keys[k]]) {
      RecordsOfAt(keys, table, startID, k);
    }
    forall k | 0 <= k < |records| ensures '\n' !in records[k].name {
      var i :| 0 <= i < |names| && names[i] == table[keys[k]] && WritesAt(names[i], img, keys[k]);
    }
    ParseRender(records);
  }

  /** An extraction returns 0 exactly when the names cannot be listed, or when it starts at 0 and writes nothing. */
  lemma ExtractedValueZero(img: Image, startID: nat)
    ensures ExtractedValue(img, startID) == 0 <==>
      img.exportNames.None? || (startID == 0 && ExtractedText(img, startID) == "")
    ensures img.exportNames.None? ==> ExtractedText(img, startID) == ""
  {
    if img.exportNames.Some? {
      RenderEmptyIff(Records(BuildTable(img.exportNames.value, img), startID));
    }
  }

  /**
   * A run fails (status -1, no file saved) exactly when the native API
   * library contributes no stub and the thunk library's names cannot be
   * listed; otherwise it saves the stream and exits 0.
   */
  lemma RunFailsIff(ntdll: LoadOutcome, win32u: LoadOutcome, args: seq<string>)
    ensures Program(ntdll, win32u, args).status == -1 <==> ContributesNothing(ntdll) && ListingFails(win32u)
    ensures Program(ntdll, win32u, args).status in {0, -1}
    ensures Program(ntdll, win32u, args).saved.None? <==> Program(ntdll, win32u, args).status == -1
  {
    if ntdll.Some? && ntdll.value.exportNames.Some? {
      TableEmptyIff(ntdll.value.exportNames.value, ntdll.value);
    }
  }

  /**
   * Because an extraction returns the next identifier rather than a count,
   * a thunk library whose names can be listed keeps the run from failing
   * even when neither library has a single stub: an empty file is saved.
   */
  lemma EmptyThunkLibraryStillSaves(ntdll: LoadOutcome, win32u: LoadOutcome, args: seq<string>)
    requires ContributesNothing(ntdll) && ContributesNothing(win32u) && !ListingFails(win32u)
    ensures Program(ntdll, win32u, args) == RunResult(0, Some(SavedFile(OutFileName(args), "")))
  {
    if ntdll.Some? && ntdll.value.exportNames.Some? {
      var table := BuildTable(ntdll.value.exportNames.value, ntdll.value);
      TableEmptyIff(ntdll.value.exportNames.value, ntdll.value);
      assert Records(table, NtdllStartID) == [];
    }
    var table := BuildTable(win32u.value.exportNames.value, win32u.value);
    TableEmptyIff(win32u.value.exportNames.value, win32u.value);
    assert Records(table, Win32uStartID) == [];
    assert DllText(ntdll, NtdllStartID) == "";
    assert DllText(win32u, Win32uStartID) == "";
    assert DllValue(win32u, Win32uStartID) == Win32uStartID;
    assert DllText(ntdll, NtdllStartID) + DllText(win32u, Win32uStartID) == "";
  }
}
