# Backup Status — a Dafny model of its preferences pipeline

Backup Status is a macOS app with a widget that shows the state of Time
Machine. The app watches `/Library/Preferences/com.apple.TimeMachine.plist`,
debounces the change notifications it gets for that file, parses the file
into a list of backup destinations and publishes the list to a store shared
with the widget. The widget draws a disk-usage bar for a destination.

This project models three parts of that code and proves what they promise:

- **The tolerant parser** (`Preferences`, `Preferences.Destination`), module
  `TimeMachinePreferences` over the decoded property list of module
  `PropertyList`.
  - Pulling one field out of a destination dictionary never fails. A missing
    or wrongly typed field gives `nil`, except `isEncrypted`, which gives
    `false`. `isNetwork` only tests whether the key `NetworkURL` is present,
    whatever its value.
  - The whole parse fails in four cases only: security-scoped access does not
    start, reading or decoding throws, the top level is not a dictionary, or
    `Destinations` is not an array of dictionaries.
  - `Parse` is the parser as a value; `Open` is the same code step by step. It
    also returns a ghost count of the security-scoped accesses it leaves held.
- **The change-handling state machine** (`PreferencesFile`), class
  `PreferencesFileModel.PreferencesFile`. It covers:
  - the `url` observer;
  - the one-second debounce;
  - the path filter of the event callback;
  - the parse-then-store-or-clear rule of `process()`;
  - starting and stopping the event stream;
  - the decisions of `grantAccess()`, `bookmark(url:)`, `init()` and `deinit`.

  The pure rules (`Debounce`, `Forwards`, `Published`) are functions. The
  lemmas about `Debounce` cover whole sequences of notifications; `Forwards`
  and `Published` are stated for one call.
- **The disk-usage bar** (`DiskUsageView`), module `DiskUsage`: the
  minimum-width clamp of `width(fullWidth:)` and the three colour bands of
  `color`.

The model follows the code as written, including its quirks:

- a dropped notification does not move the debounce window;
- `lastChange` is never reset, so only the object's very first notification is ignored;
- stopping the stream leaves `stream` set, so a later stop releases it again;
- starting a stream overwrites the old one without stopping it;
- the three early returns of `Preferences.init?(url:)` keep the security-scoped access held;
- assigning `url` inside `init()` processes nothing and starts no stream, because Swift does not run `didSet` there;
- every `Destination` field is optional, and no numeric field defaults to zero;
- a destination carries no identifier, and the preferences name no "last destination";
- the debounce state is not reset when watching restarts.

Inputs from the system are method parameters:

- the clock (`now`);
- whether security-scoped access starts, and what reading and decoding the file give (`FileAccess`);
- whether `Preferences.store()` succeeds (`stored`);
- whether creating a bookmark succeeds;
- whether the saved bookmark resolves;
- what the user picks in the open panel.

The shared store is the field `store`. Streams that `FSEventStreamCreate`
hands out are numbered by `nextStream`.

## Model

| member | source | states |
|---|---|---|
| `PropertyList.AsInt` | BackupStatus/Preferences.swift:32-33 | `as? Int` gives `n` iff the value is the property-list integer `n` and `n` fits in 64 bits; any other kind of value gives nil. |
| `PropertyList.CastAll` | BackupStatus/Preferences.swift:35-36 | `as? [T]` succeeds exactly when every element casts. Its result then has the same length, and element i is the cast of element i. |
| `TimeMachinePreferences.DestinationOf` | BackupStatus/Preferences.swift:29-46 | `isEncrypted` is never nil. It is true iff `LastKnownEncryptionState` holds exactly the string "Encrypted". `isNetwork` is never nil. It is true iff the key `NetworkURL` is present, with a value of any type. Each of `bytesAvailable`, `bytesUsed` and `volumeName` is `Some(v)` iff its key holds `v` with the expected type; an integer must also fit in 64 bits. `snapshots` and `attempts` are present iff the value is an array of dates only, and then they hold those dates in order. `result` is `OK` iff `RESULT` is the integer 0. It is `Other` iff `RESULT` is another integer. Otherwise it is nil. |
| `TimeMachinePreferences.FieldsIndependent` | BackupStatus/Preferences.swift:30-45 | Replacing the value under one key, with a bad value or any other, changes no field read from a different key. |
| `TimeMachinePreferences.CompactMap` | BackupStatus/Preferences.swift:63 | `compactMap` never yields more elements than its input. |
| `TimeMachinePreferences.CompactMapTotal` | BackupStatus/Preferences.swift:63 | When the closure never returns nil, `compactMap` keeps every element's image, in order. |
| `TimeMachinePreferences.DestinationDictionaries` | BackupStatus/Preferences.swift:55-62 | The destination dictionaries are found iff the document is a dictionary whose `Destinations` is an array of dictionaries. They are then that array's entries, one for one, in order. |
| `TimeMachinePreferences.Parse` | BackupStatus/Preferences.swift:51-73 | `Preferences.init?(url:)` yields nil iff access does not start, reading or decoding throws, or the document does not have that shape. |
| `TimeMachinePreferences.ParseCharacterization` | BackupStatus/Preferences.swift:51-73 | The parse yields nil iff one of these holds: access does not start; the read throws; decoding throws; or the document is not a dictionary whose `Destinations` is an array of dictionaries. On success, `destinations` has the array's length and order, and element i is `Destination(arr[i])`. |
| `TimeMachinePreferences.Open` | BackupStatus/Preferences.swift:51-73 | The step-by-step initialiser returns what `Parse` returns. The ghost hold count is 1 after the three early returns that follow a started access. It is 0 on success and 0 when access never started. |
| `PreferencesFileModel.Debounce` | BackupStatus/PreferencesFile.swift:132-139 | With no `lastChange`, the notification only records `now` and does not process. Otherwise it processes iff `now - lastChange > 1` (strictly), and then `lastChange := now`. A dropped notification leaves `lastChange` unchanged. |
| `PreferencesFileModel.Accepted` | BackupStatus/PreferencesFile.swift:132-139 | The notifications, among a sequence of them, that run `process()`. They are a selection of the notification times and never more than there are notifications. |
| `PreferencesFileModel.QuietWindow` | BackupStatus/PreferencesFile.swift:132-139 | Once a time inside a one-second window is recorded, no later notification inside that window is processed. |
| `PreferencesFileModel.AtMostOnePerWindow` | BackupStatus/PreferencesFile.swift:132-139 | Any number of notifications inside one one-second window run `process()` at most once. They never run it when the first of them is the object's first notification. |
| `PreferencesFileModel.AcceptedSpaced` | BackupStatus/PreferencesFile.swift:132-139 | Along any sequence of notifications, successive processed notifications are more than one second apart. The first one is more than one second after the recorded `lastChange`. |
| `PreferencesFileModel.Filter` | BackupStatus/PreferencesFile.swift:145 | `filter` keeps only elements that satisfy the predicate and never grows its input. |
| `PreferencesFileModel.FilterEmptyIff` | BackupStatus/PreferencesFile.swift:145 | `filter(p).isEmpty` holds iff no element satisfies `p`. |
| `PreferencesFileModel.Forwards` | BackupStatus/PreferencesFile.swift:141-150 | An event batch is forwarded iff one of its paths equals `/Library/Preferences/com.apple.TimeMachine.plist`. |
| `PreferencesFileModel.Published` | BackupStatus/PreferencesFile.swift:152-163 | After `process()` the store holds a value iff the parse and `store()` both succeeded, and that value is the fresh parse. Otherwise the store is cleared. |
| `PreferencesFileModel.PreferencesFile.constructor` | BackupStatus/PreferencesFile.swift:44-57 | A resolving bookmark sets `url` without processing or starting a stream. A bookmark that does not resolve clears the store. Without a bookmark nothing changes. `stream` and `lastChange` start unset. |
| `PreferencesFileModel.PreferencesFile.Process` | BackupStatus/PreferencesFile.swift:152-163 | Requires `url`. The store becomes `Published(Parse(f), stored)`. A failed parse after a started access adds one leaked scope hold. |
| `PreferencesFileModel.PreferencesFile.StartObserving` | BackupStatus/PreferencesFile.swift:106-122 | Requires `url`. `stream` becomes a new stream. The stream set gains it and loses nothing, so the previous stream stays running. |
| `PreferencesFileModel.PreferencesFile.StopObserving` | BackupStatus/PreferencesFile.swift:124-130 | A no-op when `stream` is nil. Otherwise it stops and releases the stream it holds, and `stream` keeps pointing at it. |
| `PreferencesFileModel.PreferencesFile.SetUrl` | BackupStatus/PreferencesFile.swift:33-42 | Setting a non-nil `url` processes, then starts a stream. Setting nil only stops the stream. `lastChange` is never touched. |
| `PreferencesFileModel.PreferencesFile.HandleFileChanged` | BackupStatus/PreferencesFile.swift:132-139 | `lastChange` follows `Debounce`. `process()` runs, and changes the store, exactly when `Debounce` says so. |
| `PreferencesFileModel.PreferencesFile.DeliverEvents` | BackupStatus/PreferencesFile.swift:141-150 | A batch without the preferences path changes nothing. A batch with it goes through the debounce: a dropped one leaves the store and the scope holds as they were, and a processed one publishes `Published(Parse(f), stored)` and counts the leaked hold. |
| `PreferencesFileModel.PreferencesFile.Bookmark` | BackupStatus/PreferencesFile.swift:94-104 | On success the bookmark is saved and true is returned. On failure the store is cleared and false is returned. |
| `PreferencesFileModel.PreferencesFile.GrantAccess` | BackupStatus/PreferencesFile.swift:64-92 | `url` changes only when a file was chosen, it parses, and the bookmark succeeds; it is then processed and watched. A cancelled panel changes nothing. A file that fails to parse changes nothing but the probe's leaked scope hold. A bookmark failure clears the store and changes nothing else. |
| `PreferencesFileModel.PreferencesFile.Deinit` | BackupStatus/PreferencesFile.swift:59-62 | Deinitialising stops the stream the object holds, even one already released. |
| `DiskUsage.Width` | BackupStatusWidget/DiskUsageView.swift:32-39 | The width is 0 when `used + available <= 0`. It is at least 5 when the total is positive. |
| `DiskUsage.WidthClamp` | BackupStatusWidget/DiskUsageView.swift:37-38 | With a positive total the bar is drawn at the minimum width 5 iff `used * fullWidth <= 5 * total`. Otherwise its width `w` satisfies `w * total == used * fullWidth`. |
| `DiskUsage.WidthBounded` | BackupStatusWidget/DiskUsageView.swift:37-38 | With a positive total and `0 <= used <= total`, the width never exceeds `max(fullWidth, 5)`. |
| `DiskUsage.Color` | BackupStatusWidget/DiskUsageView.swift:41-54 | The colour is `.primary` iff `used + available <= 0`. |
| `DiskUsage.ColorBands` | BackupStatusWidget/DiskUsageView.swift:41-54 | The colour is `.primary` iff the total is `<= 0`. Otherwise, in cross-multiplied integers, it is green iff `10*used < 7*total`. It is orange iff `7*total <= 10*used < 9*total`, and red iff `10*used >= 9*total`. |
| `DiskUsage.ColorMonotone` | BackupStatusWidget/DiskUsageView.swift:46-53 | With the total fixed, more `used` never moves the colour from red back to orange or from orange back to green. |

## Left out

- The FSEvents C API, the dispatch queue and the `NotificationCenter` hop are modelled as one synchronous call, `DeliverEvents`. Notifications posted by one object reach every `PreferencesFile`, and that is not modelled either.
- The `fatalError` when the event paths do not cast to `[String]` is not modelled. The paths are a `seq<string>`.
- `process()` and `startObservingForChanges()` end in `fatalError` when `url` is nil. The model makes a non-nil `url` a precondition of `Process`, `StartObserving` and the handlers that reach them, so the crash itself is not modelled.
- `HandleFileChanged` reads `Date()` twice, once for the comparison and once for the store. The model reads the clock once (`now`).
- `GrantAccess` opens the chosen file twice, once as a probe and once in `process()`. The model assumes both reads see the same file.
- `NSOpenPanel` and `NSAlert` are replaced by a `PanelChoice` parameter. The alert changes no state.
- Bookmark creation and resolution, `Data(contentsOf:)`, `PropertyListSerialization` and `UserDefaults` are left out. Their outcomes are parameters.
- `Preferences.store()`, `clear()`, `load()` and `demo` are defined in a file this model does not cover. The store is the field `store`.
- `TimeMachinePreferences.DestinationOf`: models `as? Int` as succeeding only for a property-list integer that fits in 64 bits. Foundation's bridging of reals and booleans to `Int` is not modelled.
- `DiskUsage.Width`: real arithmetic stands in for `Double`/`CGFloat`, so rounding is not modelled. The Swift trap on overflow of `used + available` becomes a precondition.
- The SwiftUI views, the app delegate, the widget timelines and intents, `StartAtLaunch`, byte formatting and the logger are left out. They hold layout and scheduling and nothing stateful.
- `BackupStatus/PreferenceFile.swift` is an older duplicate and is not part of this model. Members that this revision calls but never defines (`updateAccess`, `hasAccess`, `lastDestination`, `lastBackup`) are not invented.
