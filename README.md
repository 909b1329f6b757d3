# Syscall extractor, modelled in Dafny

The syscall extractor reads the export tables of two Windows system libraries:
`ntdll.dll`, the native API library, and `win32u.dll`, the user/GDI thunk library.
It keeps the exports whose names look like system-call stubs: `Nt` followed by an
upper-case letter. It sorts them by their 32-bit relative address and numbers them
in that order. The first library's numbers start at 0 and the second library's at
0x1000. It then writes one line `0x<hex id>,<name>` per stub to `syscalls.txt`,
or to the path given as the first argument.

The model covers all of `syscall_extractor/main.cpp`:

- `SyscallName` holds the stub-name predicate `isSyscallFunc`.
- `SyscallTable` holds the address-keyed `std::map` that `extract_syscalls` builds.
  It covers the 32-bit truncation of the relative address, "a later name for the
  same address replaces the earlier one", and the ascending key order of the walk.
- `Hex` holds the unpadded lower-case rendering that `std::hex` gives an identifier,
  and its inverse.
- `Listing` holds the line format, the rendering of a table as text, and a parser.
  For names without a newline, the parser is proved to be the exact inverse of
  the rendering.
- `Extractor` holds the output `std::stringstream`, modelled as a class whose text
  is only ever appended to. It also holds the two loops of `extract_syscalls` as
  methods, `extract_from_dll`, and the flow of `main` as `Run`.

The PE library (libPeConv) is replaced by input data. A loaded image is an
`Image`. It has a base address and a list of export names, which is `None` when
listing fails. It also has a resolver from a name to an absolute address, where 0
means the name could not be resolved. A failed load is `None`.

Points where the code is easy to misread:

- `extract_syscalls` returns the next unused identifier, `startID + entries`, not
  the number of entries. It returns 0 when the export names cannot be listed, and
  also when `startID` is 0 and no stub is found (`ExtractedValueZero`).
- So `main` fails (status -1, no file) only when `ntdll.dll` yields no stub AND
  `win32u.dll` fails to load or to list its names. If `win32u.dll` can be listed,
  the sum is at least 0x1000 and an empty table is still saved.
  `EmptyThunkLibraryStillSaves` proves this.
- Export names are not restricted to `[A-Za-z0-9_]`. Only their first three
  characters are checked. A stub name containing a newline (such as `NtA` followed
  by a newline) therefore enters the table and breaks the line structure of the
  output file. `ExtractedTextParses` assumes that no stub name with a non-zero
  address contains a newline.

## Model

| member | source | states |
|---|---|---|
| `SyscallName.IsSyscallFunc` | syscall_extractor/main.cpp:8-24 | True exactly when the name has at least 3 characters, starts with `N`,`t`, and its third character is in `A`..`Z` |
| `SyscallName.StubNameExtends` | syscall_extractor/main.cpp:11-18 | Being a stub name depends only on the first three characters: appending text or cutting the name down to 3 or more characters keeps it a stub name |
| `SyscallName.Examples` | syscall_extractor/main.cpp:19-20 | `NtUserSetWindowLongPtr` and `NtA` are stub names; `NtdllDefWindowProc_A`, `Nt` and `ZwClose` are not |
| `SyscallTable.Rva` | syscall_extractor/main.cpp:40 | The stored address is congruent to `va - base` modulo 2^32, and equals it when the difference fits in a DWORD |
| `SyscallTable.TableKey` | syscall_extractor/main.cpp:33-42 | An address is a key of the table exactly when some export name passes the predicate, resolves to a non-zero address, and truncates to that key |
| `SyscallTable.TableValue` | syscall_extractor/main.cpp:34-41 | The name stored under an address is the last name in the export list that is stored under that address (later insertions overwrite) |
| `SyscallTable.TableNamesFromList` | syscall_extractor/main.cpp:34-42 | Every name in the table is an export name that passes the predicate and resolves to its key |
| `SyscallTable.TableEmptyIff` | syscall_extractor/main.cpp:36-38 | The table is empty exactly when no export name both passes the predicate and resolves to a non-zero address |
| `SyscallTable.SortedKeys` | syscall_extractor/main.cpp:45 | The walk of the map's keys has exactly as many elements as the map has keys |
| `SyscallTable.SortedKeysMembers` | syscall_extractor/main.cpp:45 | The walk visits exactly the keys of the map |
| `SyscallTable.SortedKeysAscending` | syscall_extractor/main.cpp:45 | The walk visits the keys in strictly ascending order, so each key once |
| `SyscallTable.SortedKeysFirst` | syscall_extractor/main.cpp:45 | The walk starts at the least key and continues with the walk of the remaining keys |
| `Hex.ToHex` | syscall_extractor/main.cpp:47 | The rendering is non-empty lower-case hex digits with no leading zero, and starts with `0` only for zero |
| `Hex.HexValueOfToHex` | syscall_extractor/main.cpp:47 | Reading the digits back gives the identifier back |
| `Hex.ToHexOfHexValue` | syscall_extractor/main.cpp:47 | Every non-empty, unpadded lower-case hex string is the rendering of its value, so the rendering is a bijection onto such strings |
| `Listing.RenderAppend` | syscall_extractor/main.cpp:45-47 | Writing one more entry appends exactly its line to the text written so far |
| `Listing.RenderEmptyIff` | syscall_extractor/main.cpp:44-48 | The listing is empty exactly when the table is |
| `Listing.ParseLine` | syscall_extractor/main.cpp:47 | A line that parses is exactly `0x` + unpadded hex id + `,` + name + newline for the record it yields |
| `Listing.ParseLineOfLine` | syscall_extractor/main.cpp:47 | Every line written for an (id, name) record parses back to that record, whatever the name contains |
| `Listing.ParseRender` | syscall_extractor/main.cpp:44-48 | A listing of records whose names contain no newline parses back to the same records, in the same order, and each line ends with its newline |
| `Listing.RenderParse` | syscall_extractor/main.cpp:44-48 | Any text that parses as a listing is exactly the rendering of the records it parses to |
| `Extractor.TextStream.constructor` | syscall_extractor/main.cpp:87 | A new stream is empty |
| `Extractor.TextStream.Write` | syscall_extractor/main.cpp:47 | Writing only appends: the old text is a prefix of the new one |
| `Extractor.CollectSyscalls` | syscall_extractor/main.cpp:33-43 | The insertion loop over the export names yields the table defined by `BuildTable` (see `TableKey`, `TableValue`) |
| `Extractor.WriteTable` | syscall_extractor/main.cpp:44-49 | The walk appends the table's names in ascending address order, numbered from `startID`, and returns `startID` plus the number of entries |
| `Extractor.ExtractSyscalls` | syscall_extractor/main.cpp:26-50 | Returns 0 and appends nothing when the names cannot be listed; otherwise appends the table's listing and returns `startID` + the table size |
| `Extractor.ExtractedTextParses` | syscall_extractor/main.cpp:26-50 | When no stub name with a non-zero address contains a newline, the appended text parses back line by line. Line k is `(startID + k, name at the k-th smallest address)`, and the returned value is `startID` + the number of lines |
| `Extractor.ExtractedValueZero` | syscall_extractor/main.cpp:29-49 | An extraction returns 0 exactly when listing fails, or when `startID` is 0 and nothing is written; a failed listing writes nothing |
| `Extractor.ExtractFromDll` | syscall_extractor/main.cpp:52-69 | A library that fails to load returns 0 and appends nothing; otherwise the result and the appended text are those of `ExtractSyscalls` |
| `Extractor.OutFileName` | syscall_extractor/main.cpp:73-82 | The output path is the first argument when one is given, else `syscalls.txt` |
| `Extractor.Run` | syscall_extractor/main.cpp:71-111 | Extracts from the native library with start 0, then from the thunk library with start 0x1000, into one stream. Exits -1 with no file when the sum is 0; otherwise saves the stream to the output path and exits 0 |
| `Extractor.RunFailsIff` | syscall_extractor/main.cpp:88-103 | The run fails exactly when the native library yields no stub and the thunk library fails to load or to list; it exits 0 or -1, and writes the output file exactly when it exits 0 |
| `Extractor.EmptyThunkLibraryStillSaves` | syscall_extractor/main.cpp:96-103 | With no stub in either library but a listable thunk library, the run still exits 0 and saves an empty file |

## Left out

- libPeConv is not part of this model. Its calls `load_pe_module`, `get_exported_names`, `get_exported_func` and `free_pe_buffer` become inputs: a load outcome, an optional name list, and a resolver function. Which images list no names, and whether an image with zero exports counts as a failed listing, is up to that library and is not modelled. Releasing the buffer has no effect on any result and is left out.
- `ExpandEnvironmentStringsA` and the `MAX_PATH` path buffers are left out. The two library paths only select which load outcome `Run` receives.
- Turning WOW64 file-system redirection off and back on (`util::wow64_disable_fs_redirection`, `util::wow64_revert_fs_redirection`) is left out. It is OS state, and `util` is not part of this model.
- Console output (usage text, "Failed to load the PE", "No syscalls extracted", "Saved to") is left out. It is I/O and does not affect any result.
- Writing the file through `std::ofstream` is modelled as the `saved` part of `RunResult` (path and contents), not as file-system state. A failed `open` of the output file is not modelled: the source then writes nothing and still exits 0, so `saved` means that the program tried to write the file.
- Extractor.WriteTable: each line is appended with one `Write` rather than five `<<` insertions. The stream text is the same. The sticky `std::hex` flag on the stream is not modelled, because nothing else writes a number to it.
- Extractor.Run: identifiers and the extracted-count sum are unbounded integers, so `size_t` wrap-around is not modelled. The WOW64 handling means the tool is also built as a 32-bit program, where `size_t` is 32 bits and wraps at 2^32. Wrapping would then need about 2^32 exports, which no image mapped in a 32-bit address space can hold.
- SyscallTable.Rva: the pointer-width subtraction is not modelled separately. Truncating it to 32 bits gives the same value as the Euclidean remainder of the mathematical difference, because 2^32 divides the pointer range.
- The fixed start 0x1000 of the second library can collide with the first library's identifiers if the first has more than 4096 stubs. The model keeps the constant and does not prove disjointness.
