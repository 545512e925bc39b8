# Device search over SetupAPI, modelled in Dafny

The program looks up one device by its exact description string in the Windows
device tree and prints the device's hardware ID, manufacturer, driver and
physical object name. This project models its core, `findAndDisplayDeviceInfo`
and its helper `getDeviceProperty` in `main.go`, and proves the properties the
search relies on:

- the device information set is opened once;
- a failed open ends the search at once with an error and nothing else is called;
- a successful open is destroyed exactly once, as the last call, on both return paths;
- the enumeration index runs 0, 1, 2, … one step at a time and stops at the first
  failing enumeration or at the first exact description match, whichever comes first;
- a failed description read counts as a non-match;
- a failed read of any other field only leaves that field out of the report;
- a property read yields the 256-unit buffer up to its first NUL.

Files and modules:

- `setupapi.dfy`, module `SetupApi`: the four SetupAPI entry points as a class
  `Backend`. It holds a finite list of `DeviceRecord`s, a switch that makes the
  open fail, counters of open and destroy calls, the number of live (opened, not
  destroyed) device information sets, and a trace of every call. Enumeration
  succeeds exactly for the indices of the list. A registry-property call
  succeeds when the device has the property and its value fits in the bytes
  offered; it then copies the value to the front of the buffer. Every call after
  the open requires at least one live set and the handle the open returned.
  The backend counts live sets rather than tracking each open separately, so
  these requirements alone do not rule out a second destroy of one open. That
  the search destroys its set exactly once is stated by
  `FindAndDisplayDeviceInfo` (its destroy counter grows by exactly one after a
  successful open) and by `ReleasedExactlyOnce` about its trace.
- `utf16.dfy`, module `Utf16`: code units and `UntilNul`, the cut at the first
  zero unit that `syscall.UTF16ToString` makes.
- `search_spec.dfy`, module `SearchSpec`: the reference definition of one
  search, written as functions of the devices, the open-failure switch and the
  target name. `ReadProperty` is one property read. `FirstMatchFrom` and
  `FirstMatch` give the matching entry. `ScanTrace` and `SearchTrace` give the
  exact call sequence. `Matches` says when an entry is the one sought: its
  description reads successfully and equals the name (main.go:86-87). `Report`
  and `Printed` give the printed lines. The
  lemmas about these definitions state the search's promises.
- `search.dfy`, module `DeviceSearch`: `GetDeviceProperty`,
  `FindAndDisplayDeviceInfo` and `ReportDevice` (the print block of the match
  branch), as methods against `Backend`. Each is proved to produce exactly
  the trace, the result and the lines of the reference definition.
- `wrappers.dfy`, module `Wrappers`: `Option` and `Result`.

The search's results map onto the Go function as follows:

- `found` is the Go boolean.
- `err` is `Some(EnumerationUnavailable)` where Go returns the
  "failed to get device info set" error.
- `printed` records the console lines as data: `Found`, `Reported(property, value)`
  and `NotFound`.

Points about the code the model keeps:

- on a match, four further properties are read, not three; the physical object
  name is the fourth;
- the description line is printed only when the description is not empty;
- a property value is "the buffer up to the first NUL", so for a multi-string
  value (a hardware-ID list) only the first string is reported;
- the search itself does not check a value's size; a too-large value reads as
  absent only because the backend's call fails on it.

## Model

| member | source | states |
|---|---|---|
| `DeviceSearch.FindAndDisplayDeviceInfo` | main.go:58-123 | The error is `EnumerationUnavailable` exactly when the open fails, and there is none otherwise. `found` holds exactly when the open succeeds and some entry's description reads back as `deviceName`. The calls made are exactly `SearchTrace`. The open counter grows by one; the destroy counter grows by one after a successful open and by zero after a failed one; live sets return to their count before the search. The lines printed are `Printed`. |
| `DeviceSearch.GetDeviceProperty` | main.go:37-56 | Makes exactly one registry-property call, offering 512 bytes (2 × 256 units). Returns the error with the property's code when the call fails; otherwise returns the zero-initialised buffer up to its first NUL, which equals `ReadProperty` of the entry. |
| `DeviceSearch.ReportDevice` | main.go:92-116 | Called only for an entry whose description read returned `deviceName` (`Matches`). Reads hardware ID, manufacturer, driver and physical name, in that order and nothing else. Prints exactly `Report` of the entry: the found line, the description when it is not empty, and exactly the fields whose reads succeeded. |
| `SearchSpec.ReadPropertyOutcome` | main.go:37-55 | `ReadProperty`, one read into the 256-unit buffer, fails exactly when the device lacks the property or the value exceeds 256 units, and the error carries the property's code. A successful read has at most 256 units, contains no NUL, and is the stored value cut at its first NUL. |
| `SearchSpec.MatchesExactly` | main.go:86-87 | An entry matches exactly when the device stores a description that fits in 256 units and that, cut at its first NUL, equals the name code unit for code unit. A name containing a NUL never matches. |
| `SearchSpec.ReportListsDescription` | main.go:86-96 | For a matched entry, the report holds a description line with value d exactly when the description read returned d and d is not empty. |
| `SearchSpec.FirstMatchFrom` | main.go:86-90 | A result k is a matching entry at or after the start, and no entry between the start and k matches; no result means no entry from the start on matches (first match wins). |
| `SearchSpec.FirstMatchDependsOnDescriptionsOnly` | main.go:86-118 | Two device lists with the same descriptions find the same entry: failed or successful reads of the other four fields never change whether, or where, a device is found. |
| `SearchSpec.ReleasedExactlyOnce` | main.go:65-68 | A failed open makes no call but the open: no enumeration and no destroy. After a successful open the trace holds exactly one destroy, and it is the last call. |
| `SearchSpec.ScanNeverReleases` | main.go:70-119 | The enumeration loop itself never destroys the set, from any starting index. |
| `SearchSpec.EnumerationOrder` | main.go:70-89 | After a successful open, the enumerated indices are exactly 0, 1, …, stop, in that order. Here stop is the first match, or the list length when nothing matches. Each index is visited once, ascending by one, and none after the match. |
| `SearchSpec.ScanEnumerates` | main.go:72-89 | From index i the loop enumerates exactly i, i + 1, …, up to and including the index where it stops. |
| `SearchSpec.ScanSplit` | main.go:86-89 | When no entry before i matches, the loop's calls are i iterations of (enumerate j, read description of j), for j = 0 .. i-1, followed by the loop from i. |
| `SearchSpec.MatchTrace` | main.go:86-118 | On a first match at k, the loop's calls are the k skipped iterations, then: enumerate k, read its description, hardware ID, manufacturer, driver and physical name, in that order, and nothing more. |
| `SearchSpec.NoMatchTrace` | main.go:76-84 | With no match, the loop reads the description of every entry and ends with one failing enumeration at the index past the list. |
| `SearchSpec.FoundAt` | main.go:86-118 | When entry k matches and none before it does, k is the first match. The calls in the order the match path makes them are the search trace, and the printed lines are the report of entry k. |
| `SearchSpec.FoundNone` | main.go:82-122 | When no entry matches, there is no match. The calls in the order the not-found path makes them are the search trace, and exactly one "not found" line is printed. (That no error is returned on this path is stated by `FindAndDisplayDeviceInfo`.) |
| `SearchSpec.ReportListsReadFields` | main.go:98-116 | A report starts with the found line. For each of the four fields, it contains the field with value v exactly when that field's read returned v; a failed read only omits its line. |
| `SearchSpec.RangeAt` | main.go:70-88 | The index sequence used for the enumeration starts at its lower bound and grows by exactly one per position. |
| `Utf16.UntilNul` | main.go:55 | The decoded string is a prefix of the buffer, contains no NUL, and is followed in the buffer by a NUL unless it runs to the buffer's end. |
| `Utf16.UntilNulIgnoresZeroPadding` | main.go:38-55 | A value copied into the front of a zero-filled buffer decodes the same as the value alone. |
| `Utf16.UntilNulOfNulFree` | main.go:55 | A buffer without NUL decodes to itself. |
| `SetupApi.Query` | main.go:41-51 | The backend's property call yields a value only when the device stores it and it fits in the bytes offered; it fails when the property is absent or too large. |
| `SetupApi.Backend.GetClassDevs` | main.go:59-67 | Returns `INVALID_HANDLE_VALUE` (all 64 bits set) exactly when the open fails. Otherwise it returns the backend's handle and one more set is live. The call is counted and traced. |
| `SetupApi.Backend.EnumDeviceInfo` | main.go:76-84 | Returns non-zero, with the entry for the index, exactly when the index names a device. Requires a live set. |
| `SetupApi.Backend.GetDeviceRegistryProperty` | main.go:41-51 | Returns non-zero exactly when `Query` yields a value; the value is then copied to the front of the buffer and the rest is untouched. On failure the buffer is unchanged. |
| `SetupApi.Backend.DestroyDeviceInfoList` | main.go:68 | Requires at least one live set and the backend's handle; releases one live set, counts the destroy and traces it. Live sets are counted, not tracked per open, so this alone does not exclude a second destroy of one open. |

## Left out

- The `syscall.NewLazyDLL`/`NewProc` bindings, the `unsafe.Pointer` marshalling,
  the `SP_DEVINFO_DATA` layout and its `CbSize` setup (main.go:22-35, 73-74) are
  foreign calls. `SetupApi.Backend` replaces them; `DevInfoData` keeps only the
  entry's index.
- The `requiredSize` out-parameter of the registry-property call is not modelled;
  the source never reads it.
- Console output and its wording (main.go:92-116, 121) are recorded only as
  `Line` values. `main`, its hard-coded device name and its `Scanln` prompt
  (main.go:125-133) are outside the core; the name is the `deviceName` parameter.
- Transcoding UTF-16 to a Go string (surrogate pairs, replacement of unpaired
  surrogates) is library code. Strings are sequences of UTF-16 code units, and
  descriptions are compared with `deviceName` as code units. Go compares them
  after replacing each unpaired surrogate with U+FFFD, so such descriptions can
  match in Go and not here, and the reverse.
- `uint32` wrap-around of `deviceIndex` is excluded: `Backend.Valid` requires fewer
  than 2^32 devices, and the model proves that the index never leaves `uint32`.
- `uintptr` is modelled as 64 bits; on 32-bit Windows `INVALID_HANDLE_VALUE` would be
  `0xFFFFFFFF`.
- The real operating system's behaviour for values too large for the buffer: the
  backend here fails such a call, and the code itself only tests `ret == 0`.
- An enumeration that fails for a reason other than the end of the list is not
  distinguished from the end. The source does not distinguish them either: such
  a failure on a real system looks to the search like a shorter device list.
- `SetupApi.Backend.DestroyDeviceInfoList`: live sets are a count, and every open
  returns the same handle, so the backend does not tell one open from another;
  exactly-once release is promised for the search as a whole, not by this call's
  precondition.
- The return value of the deferred `SetupDiDestroyDeviceInfoList` is ignored, as
  in the source.
