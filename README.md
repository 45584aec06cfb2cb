# Keyboard navigation, upload and export rules of a PDF dark-mode viewer

This project is a Dafny model of the interaction core of a browser PDF viewer. It covers five parts.

- **A process-wide keyboard-shortcut dispatcher**, `KeyboardShortcutManager`.
  - It keeps a registry from lower-cased keys or `ctrl+x+<key>` chords to lists of registrations.
  - It keeps a Ctrl+X chord flag with a one-second reset timer.
  - On each key press it swallows the first Ctrl+X, which arms the chord.
  - For any other key it looks up the plain key or the chord key. It sorts a snapshot of the registrations by descending priority; the sort is stable, as `Array.prototype.sort` is.
  - It runs each handler whose condition holds, until one returns `false` or leaves the event's default prevented.
  - It disarms the chord only when the chord key had registrations.
- **The upload hook's rules**:
  - extension matching, `type/*` wildcards and exact MIME types against an `accept` list;
  - taking a file's extension;
  - size-before-type validation;
  - partitioning of a batch of files into duplicates, errors and accepted files;
  - the state updates: add, remove, clear and drag.
- **The export dialog**:
  - the `.pdf` suffix and the base-name rules;
  - the page range prefilled on open;
  - the automatic file name;
  - the Ctrl/Cmd+E and Escape keys;
  - the clamping of the submitted range into the 0-based page indices that are copied.
- **The shared store**, with its setters and toggles.
- **The viewer canvas**:
  - its `scrollToPage` guard;
  - its shortcut table: the `ctrl+x+m` and `ctrl+x+f` chords at priority 10, the arrow keys at priority 8 and the digit keys at priority 5;
  - the timers that reset the typed-page buffer and the scrolling flag.

The dispatcher's state lives in a class, `KeyboardShortcuts.KeyboardShortcutManager`. Its methods are proved against pure transitions on a `ManagerState` value: `KeyDown`, `Expired`, `Registered`, `Unregistered`, `UnregisteredAll` and `Destroyed`. The properties are then proved about those transitions.

Consumer handlers and conditions are closures in the program. In the model they are opaque references, and two function parameters supply what they do:
- `run: (HandlerRef, KeyEvent, W) -> HandlerOutcome<W>` runs a handler;
- `holds: (ConditionRef, W) -> bool` evaluates a condition.

Both thread a consumer world `W` through one dispatch. The canvas supplies a concrete world, `PdfCanvas.Viewer`, and a `CanvasRun`, so its shortcut table can be run through the dispatcher model.

Timers are explicit events, and cancelling a timer clears its pending flag:
- `Expire` for the chord timer;
- `PageInputTimerFires` for the typed-page buffer;
- `ScrollTimerFires` for the scrolling flag.

The JavaScript built-ins the core relies on are in `JsString`: `toLowerCase`, `split`, `trim`, `Number.parseInt(·, 10)` and `String(n)`. `JsString.Join` is not used by the core; it is there as the inverse that `split` is proved against.

The file layout follows the program:
- `shortcut_registry.dfy`, `shortcut_dispatch.dfy` and `keyboard_shortcuts.dfy` model `hooks/use-keyboard-shortcuts.ts`;
- `file_upload.dfy` models `hooks/use-file-upload.ts`;
- `export_pages_dialog.dfy` models `app/_components/export-pages-dialog.tsx`;
- `pdf_store.dfy` models `zustand/pdf-zustand.ts`;
- `pdf_canvas.dfy` models `app/_components/pdf-canvas.tsx`.

## Model

| member | source | states |
|---|---|---|
| JsString.Lower | hooks/use-keyboard-shortcuts.ts:42 | lower-casing keeps the length and maps every character through the ASCII lower-case map |
| JsString.LowerIdempotent | hooks/use-keyboard-shortcuts.ts:74 | a key lower-cased twice is the key lower-cased once, so normalised registry keys are stable |
| JsString.LowerFixed | hooks/use-keyboard-shortcuts.ts:42-43 | a string without upper-case letters is its own lower-case form |
| JsString.LowerAppend | hooks/use-keyboard-shortcuts.ts:43 | lower-casing distributes over concatenation, as in the `ctrl+x+` chord key |
| JsString.Split | hooks/use-file-upload.ts:43 | `split` yields at least one part and no part contains the separator |
| JsString.SplitAround | hooks/use-file-upload.ts:43 | splitting `a + sep + b` is splitting `a` followed by splitting `b` |
| JsString.SplitNoSeparator | hooks/use-file-upload.ts:43 | a string without the separator splits into itself alone |
| JsString.JoinSplit | hooks/use-file-upload.ts:51 | joining the parts of a split with the same separator gives back the string |
| JsString.SplitJoin | hooks/use-file-upload.ts:51 | splitting a join of separator-free parts gives back the parts |
| JsString.WhitespaceEnd | hooks/use-file-upload.ts:51 | the scan stops at the first non-whitespace character at or after `i`, and everything it skipped is whitespace |
| JsString.WhitespaceStart | hooks/use-file-upload.ts:51 | the backward scan stops after the last non-whitespace character before `j`, and everything it skipped is whitespace |
| JsString.TrimStart | hooks/use-file-upload.ts:51 | only leading whitespace is removed, and the result does not start with whitespace |
| JsString.TrimStartSuffix | hooks/use-file-upload.ts:51 | trimming the start leaves a suffix of the input |
| JsString.TrimEnd | hooks/use-file-upload.ts:51 | the result is a prefix of the input, only trailing whitespace is removed, and it does not end with whitespace |
| JsString.TrimProperties | app/_components/export-pages-dialog.tsx:192 | `trim` leaves no whitespace at either end, and trimming twice is trimming once |
| JsString.DigitChar | app/_components/export-pages-dialog.tsx:105 | the character of a decimal digit is a digit with that value |
| JsString.DigitsEnd | app/_components/pdf-canvas.tsx:174 | the scan stops at the first non-digit at or after `i`, and everything it skipped is a digit |
| JsString.NatToString | app/_components/export-pages-dialog.tsx:105 | `String(n)` of a natural number below 10^21 is a non-empty run of digits (the exponent form above is under Left out) |
| JsString.DecimalValueOfNatToString | app/_components/export-pages-dialog.tsx:105 | reading the digits of `String(n)` gives back `n` |
| JsString.TrimStartUnchanged | app/_components/pdf-canvas.tsx:174 | a string that does not start with whitespace is left alone by `parseInt`'s leading-whitespace skip |
| JsString.ParseDigitsOfDigits | app/_components/pdf-canvas.tsx:174 | a non-empty run of digits is read as its full decimal value |
| JsString.ParseIntOfDigits | app/_components/pdf-canvas.tsx:174 | `parseInt` of a non-empty run of digits is its decimal value |
| JsString.ParseIntOfNegatedDigits | app/_components/export-pages-dialog.tsx:168-169 | `parseInt` of a minus sign followed by digits is the negated decimal value |
| JsString.ParseIntOfMinus | app/_components/export-pages-dialog.tsx:168-169 | a string whose first character is `-` and whose rest is a run of digits parses to the negated value of those digits |
| JsString.DecimalValueShort | app/_components/pdf-canvas.tsx:172-174 | one digit has its own value, two digits `ab` have the value `10a + b` |
| JsString.ParseShortDigits | app/_components/pdf-canvas.tsx:172-174 | `parseInt` of a one- or two-digit buffer is that number |
| JsString.ParseOneDigit | app/_components/pdf-canvas.tsx:172-174 | a one-digit buffer parses to its digit |
| JsString.ParseTwoDigits | app/_components/pdf-canvas.tsx:172-174 | a two-digit buffer `ab` parses to `10a + b` |
| JsString.ParseIntOfIntToString | app/_components/export-pages-dialog.tsx:105 | `parseInt(String(n))` is `n` for every integer with \|n\| < 10^21, negative ones included; larger values are under Left out |
| ShortcutRegistry.WithoutId | hooks/use-keyboard-shortcuts.ts:84 | filtering out an id keeps exactly the entries with other ids and never lengthens the list |
| ShortcutRegistry.NewRegistration | hooks/use-keyboard-shortcuts.ts:75-80 | a new entry takes the given id, handler and condition, and takes priority 0 when no priority is given |
| ShortcutRegistry.WithoutIdAppend | hooks/use-keyboard-shortcuts.ts:84-85 | filtering distributes over concatenation, so the relative order of the remaining entries is kept |
| ShortcutRegistry.WithoutIdIdempotent | hooks/use-keyboard-shortcuts.ts:103 | filtering an id twice is filtering it once |
| ShortcutRegistry.WithoutIdAbsent | hooks/use-keyboard-shortcuts.ts:93 | filtering an id that no entry has changes nothing |
| ShortcutRegistry.CountIdZero | hooks/use-keyboard-shortcuts.ts:84 | an id's count in a list is zero exactly when no entry has that id |
| ShortcutRegistry.CountIdAppend | hooks/use-keyboard-shortcuts.ts:85 | counts of an id add up over concatenation |
| ShortcutRegistry.WithoutIdKeepsUnique | hooks/use-keyboard-shortcuts.ts:93 | filtering keeps a list free of repeated ids |
| ShortcutRegistry.RegisterSpec | hooks/use-keyboard-shortcuts.ts:73-86 | after `register` the lower-cased key holds exactly one entry of the id, placed last; the other entries keep their order; no other key changes; the registry invariants hold |
| ShortcutRegistry.UnregisterSpec | hooks/use-keyboard-shortcuts.ts:88-99 | `unregister` on an absent key is a no-op; otherwise it removes the id's entries from that key, deletes the key when nothing is left, changes no other key and keeps the invariants |
| ShortcutRegistry.UnregisterAllSpec | hooks/use-keyboard-shortcuts.ts:101-110 | after `unregisterAll` a key remains exactly when it held an entry of another id, each remaining list is the filtered list without the id, and the invariants hold |
| ShortcutRegistry.UnregisterAllIdempotent | hooks/use-keyboard-shortcuts.ts:101-110 | calling `unregisterAll` twice equals calling it once |
| ShortcutRegistry.UnregisterAllAbsent | hooks/use-keyboard-shortcuts.ts:101-110 | on a valid registry without the id, `unregisterAll` changes nothing |
| ShortcutRegistry.FilteredEveryKey | hooks/use-keyboard-shortcuts.ts:101-110 | a registry holding, for every key, that key's filtered list exactly when it is non-empty, and nothing else, is the result of `unregisterAll` |
| ShortcutRegistry.RegisterThenUnregisterAll | hooks/use-keyboard-shortcuts.ts:73-110 | `unregisterAll(id)` after `register(key, id, …)` leaves what `unregisterAll(id)` alone leaves |
| ShortcutRegistry.BindThenCleanup | hooks/use-keyboard-shortcuts.ts:156-165 | the hook's cleanup undoes its registrations; for an id not yet present it restores the registry exactly |
| ShortcutRegistry.BindPreservesValid | hooks/use-keyboard-shortcuts.ts:156-161 | registering a whole shortcut table keeps the registry invariants |
| ShortcutRegistry.BindLeavesOtherKeys | hooks/use-keyboard-shortcuts.ts:156-161 | registering a table leaves every key the table does not name as it was |
| ShortcutRegistry.BindSingleKey | hooks/use-keyboard-shortcuts.ts:156-161 | a table naming a fresh key once leaves exactly that one registration under it |
| ShortcutDispatch.WithPriority | hooks/use-keyboard-shortcuts.ts:47 | the priority-`p` view of a list holds exactly its entries of priority `p` |
| ShortcutDispatch.InsertByPriority | hooks/use-keyboard-shortcuts.ts:47 | inserting into the sorted list is a permutation of the list plus the new entry |
| ShortcutDispatch.StableSort | hooks/use-keyboard-shortcuts.ts:47 | the sorted snapshot is a permutation of the registrations |
| ShortcutDispatch.InsertKeepsSorted | hooks/use-keyboard-shortcuts.ts:47 | insertion keeps the list sorted by non-increasing priority |
| ShortcutDispatch.InsertKeepsPriorityOrder | hooks/use-keyboard-shortcuts.ts:47 | insertion places the new entry first among its equal-priority entries of the rest of the list |
| ShortcutDispatch.StableSortCorrect | hooks/use-keyboard-shortcuts.ts:47 | the sort orders by non-increasing priority, and within each priority it keeps insertion order |
| ShortcutDispatch.SubseqOfSorted | hooks/use-keyboard-shortcuts.ts:49-63 | any subsequence of a priority-sorted list is priority-sorted |
| ShortcutDispatch.SubseqWithPriority | hooks/use-keyboard-shortcuts.ts:49-63 | taking a subsequence commutes with the priority-`p` view |
| ShortcutDispatch.RunInvokesSubseq | hooks/use-keyboard-shortcuts.ts:49-63 | the handlers that run are some of the dispatched entries, in dispatch order, each at most once |
| ShortcutDispatch.FiringOrder | hooks/use-keyboard-shortcuts.ts:45-63 | handlers fire in non-increasing priority, and equal priorities fire in registration order |
| ShortcutDispatch.RunAppend | hooks/use-keyboard-shortcuts.ts:49-63 | the loop over `a + b` is the loop over `a`, then, unless it broke in `a`, the loop over `b` from the event and world `a` left, with the handlers run concatenated |
| ShortcutDispatch.RunSkipsDisabled | hooks/use-keyboard-shortcuts.ts:50-52 | an entry whose condition is false in the world the loop reaches it in (or that the loop never reaches) can be removed without changing the dispatch |
| ShortcutDispatch.RunIgnoresAfterStopper | hooks/use-keyboard-shortcuts.ts:54-62 | after an entry that, when the loop reaches it, is enabled and returns `false` or leaves the default prevented, the remaining entries are irrelevant and it is the last handler to run |
| ShortcutDispatch.StopperBlocksLowerPriority | hooks/use-keyboard-shortcuts.ts:47-62 | an entry with lower priority than an entry that stops the loop on this event when it is reached never runs |
| ShortcutDispatch.FiredNotBelowStopper | hooks/use-keyboard-shortcuts.ts:47-62 | in the sorted dispatch, no handler runs below the priority of an entry that stops the loop on this event when it is reached |
| ShortcutDispatch.AlreadyPreventedRunsAtMostOne | hooks/use-keyboard-shortcuts.ts:54-62 | an event that arrives with its default already prevented runs at most one handler |
| KeyboardShortcuts.KeyboardShortcutManager.constructor | hooks/use-keyboard-shortcuts.ts:13-25 | a new manager has an empty registry, an idle chord, and its listener attached |
| KeyboardShortcuts.KeyboardShortcutManager.HandleKeyDown | hooks/use-keyboard-shortcuts.ts:27-71 | while the listener is attached, the new state, event, world and handlers run are those of the `KeyDown` transition |
| KeyboardShortcuts.KeyboardShortcutManager.Expire | hooks/use-keyboard-shortcuts.ts:36-38 | the chord timer's firing clears the flag; a cancelled timer does nothing |
| KeyboardShortcuts.KeyboardShortcutManager.Register | hooks/use-keyboard-shortcuts.ts:73-86 | only the registry changes, to the `Registered` one |
| KeyboardShortcuts.KeyboardShortcutManager.Unregister | hooks/use-keyboard-shortcuts.ts:88-99 | only the registry changes, to the `Unregistered` one |
| KeyboardShortcuts.KeyboardShortcutManager.UnregisterAll | hooks/use-keyboard-shortcuts.ts:101-110 | only the registry changes, to the `UnregisteredAll` one, computed by a key-by-key loop |
| KeyboardShortcuts.KeyboardShortcutManager.Destroy | hooks/use-keyboard-shortcuts.ts:112-121 | `destroy` detaches the listener, cancels the timer and clears the registry |
| KeyboardShortcuts.KeyboardShortcutManager.IsCtrlXPressed | hooks/use-keyboard-shortcuts.ts:123-125 | it returns the flag, which while listening is set exactly when the chord timer is pending |
| KeyboardShortcuts.RunHandlers | hooks/use-keyboard-shortcuts.ts:49-63 | the handler loop computes the dispatch that `Run` defines |
| KeyboardShortcuts.WithoutConsumer | hooks/use-keyboard-shortcuts.ts:101-110 | the loop over the keys computes `UnregisteredAll` |
| KeyboardShortcuts.GlobalManager.GetManager | hooks/use-keyboard-shortcuts.ts:128-135 | the first call creates a fresh manager in its initial state, and later calls return that same manager |
| KeyboardShortcuts.UseKeyboardShortcuts | hooks/use-keyboard-shortcuts.ts:148-161 | the effect registers each shortcut of the table under one id, in order, and changes nothing else |
| KeyboardShortcuts.IsInputElement | hooks/use-keyboard-shortcuts.ts:169-173 | an element counts as an input exactly when it exists and its tag is INPUT, TEXTAREA or SELECT |
| KeyboardShortcuts.EventsPreserveValid | hooks/use-keyboard-shortcuts.ts:27-71 | key events, the chord timer and `destroy` keep the registry invariants and "armed exactly when the timer is pending" |
| KeyboardShortcuts.UpdatesPreserveValid | hooks/use-keyboard-shortcuts.ts:73-110 | `register`, `unregister` and `unregisterAll` keep the manager's invariants |
| KeyboardShortcuts.ChordPrefixArms | hooks/use-keyboard-shortcuts.ts:28-40 | Ctrl+X (`x` or `X`) while idle prevents the default, arms the chord, starts its timer and runs no handler |
| KeyboardShortcuts.ArmedPrefixLooksUpChordX | hooks/use-keyboard-shortcuts.ts:28-45 | Ctrl+X while armed does not re-arm; it is dispatched as the chord `ctrl+x+x` |
| KeyboardShortcuts.ArmedDispatchDisarmsIffRegistered | hooks/use-keyboard-shortcuts.ts:42-70 | an armed dispatch disarms the chord and cancels its timer exactly when the chord key had registrations, whatever their conditions |
| KeyboardShortcuts.IdleDispatchUsesPlainKey | hooks/use-keyboard-shortcuts.ts:42-63 | with the chord idle, a key other than Ctrl+X dispatches the lower-cased key and leaves the manager's state alone |
| KeyboardShortcuts.SingleRun | hooks/use-keyboard-shortcuts.ts:49-63 | a key holding one unconditional registration runs its handler exactly once |
| KeyboardShortcuts.ArmedChordRunsSingle | hooks/use-keyboard-shortcuts.ts:42-70 | an armed chord whose key holds one unconditional registration runs exactly that handler and disarms |
| KeyboardShortcuts.IdleKeyRunsSingle | hooks/use-keyboard-shortcuts.ts:42-63 | an idle key holding one unconditional registration runs exactly that handler and leaves the manager's state alone |
| KeyboardShortcuts.ChordScenario | hooks/use-keyboard-shortcuts.ts:27-70 | Ctrl+X then a key: a registered chord runs and disarms, after which the plain key is back in use; an unregistered chord leaves the chord armed |
| KeyboardShortcuts.TimeoutScenario | hooks/use-keyboard-shortcuts.ts:36-47 | after the chord timer fires, the next key is dispatched as a plain key |
| KeyboardShortcuts.MissKeepsChordArmed | hooks/use-keyboard-shortcuts.ts:42-70 | a key with no chord registration runs nothing and keeps the chord armed for the next key |
| KeyboardShortcuts.DestroyedRunsNothing | hooks/use-keyboard-shortcuts.ts:112-121 | after `destroy` the registry is empty and no event runs any handler |
| PdfStore.FitMode.Flip | zustand/pdf-zustand.ts:28 | toggling yields the other fit mode |
| PdfStore.InitialStore | zustand/pdf-zustand.ts:18-21 | the initial state has no document, page 0, the export dialog closed and height fit |
| PdfStore.FlipInvolution | zustand/pdf-zustand.ts:28 | toggling swaps height and width, and toggling twice restores the mode |
| PdfStore.Store.constructor | zustand/pdf-zustand.ts:17-21 | a new store is in the initial state |
| PdfStore.Store.SetShowExportDialog | zustand/pdf-zustand.ts:23 | sets the dialog flag to the argument and changes nothing else |
| PdfStore.Store.OpenExportDialog | zustand/pdf-zustand.ts:24 | opens the dialog and changes nothing else |
| PdfStore.Store.CloseExportDialog | zustand/pdf-zustand.ts:25 | closes the dialog and changes nothing else |
| PdfStore.Store.ToggleExportDialog | zustand/pdf-zustand.ts:26 | negates the dialog flag and changes nothing else |
| PdfStore.Store.SetFitMode | zustand/pdf-zustand.ts:27 | sets the fit mode and changes nothing else |
| PdfStore.Store.ToggleFitMode | zustand/pdf-zustand.ts:28 | flips the fit mode and changes nothing else |
| PdfStore.Store.SetCurrentPage | app/_components/pdf-canvas.tsx:78 | a partial `setState({ currentPage })` changes only the page |
| PdfStore.Store.SetPdf | app/_components/pdf-canvas.tsx:258 | a partial `setState({ pdf })` changes only the document |
| PdfStore.ToggleExportDialogTwice | zustand/pdf-zustand.ts:26 | two dialog toggles restore the whole store |
| PdfStore.ToggleFitModeTwice | zustand/pdf-zustand.ts:28 | two fit-mode toggles restore the whole store |
| FileUpload.FileExtension | hooks/use-file-upload.ts:41-45 | the extension is empty or a dot followed by dot-free text |
| FileUpload.ExtensionAfterLastDot | hooks/use-file-upload.ts:41-45 | the extension is `.` plus the text after the last dot, and empty when that text is empty |
| FileUpload.ExtensionWithoutDot | hooks/use-file-upload.ts:41-45 | a non-empty name without a dot has `.` plus the whole name as its extension |
| FileUpload.IsTypeAccepted | hooks/use-file-upload.ts:47-71 | the result is true for `*`, and otherwise exactly when some trimmed entry of the list matches |
| FileUpload.MatchEntries | hooks/use-file-upload.ts:52-70 | the early-return loop answers whether any entry matches |
| FileUpload.ExtensionEntry | hooks/use-file-upload.ts:53-57 | an entry starting with `.` matches exactly the same extension, ignoring case |
| FileUpload.WildcardEntry | hooks/use-file-upload.ts:59-64 | an entry `base/*` matches exactly the MIME types starting with `base/` |
| FileUpload.ExactEntry | hooks/use-file-upload.ts:66-68 | any other entry matches only the identical MIME type |
| FileUpload.TrailingCommaAcceptsUntyped | hooks/use-file-upload.ts:51 | example: for the one input `accept = ".pdf,"`, a file with an empty MIME type is accepted through the empty entry |
| FileUpload.ValidateFile | hooks/use-file-upload.ts:130-149 | the validation method returns the `Validation` verdict |
| FileUpload.SizeCheckedFirst | hooks/use-file-upload.ts:131-134 | an oversized file is reported as too large whatever its type |
| FileUpload.ValidationPasses | hooks/use-file-upload.ts:136-146 | a file passes exactly when it is within size and of an accepted type; with `*` only size is checked |
| FileUpload.ClassifySpec | hooks/use-file-upload.ts:90-107 | a file is a silent duplicate exactly in multiple mode with an existing file of equal name and size; rejections carry the type or generic-size error; accepted files are within size and of an accepted type |
| FileUpload.Prepare | hooks/use-file-upload.ts:75-113 | no more results than input files: each file yields at most one valid file or error |
| FileUpload.PrepareSound | hooks/use-file-upload.ts:90-112 | every valid file is an input file classified as accepted, and every error is the rejection of some input file |
| FileUpload.PrepareAppend | hooks/use-file-upload.ts:90-112 | preparing two batches in sequence equals preparing them together, so input order is preserved |
| FileUpload.PrepareOne | hooks/use-file-upload.ts:90-109 | a single file yields nothing, one error, or one valid file with its id, according to its classification |
| FileUpload.PrepareValidFiles | hooks/use-file-upload.ts:75-113 | the push loop builds exactly the `Prepare` result |
| FileUpload.PrepareFile | hooks/use-file-upload.ts:91-109 | one loop iteration extends the partial result by that file's `Step` |
| FileUpload.WithoutFile | hooks/use-file-upload.ts:245 | removing an id keeps exactly the files with other ids |
| FileUpload.WithoutFileAppend | hooks/use-file-upload.ts:245 | removal distributes over concatenation, so the kept files stay in order |
| FileUpload.WithoutFileAbsent | hooks/use-file-upload.ts:245 | removing an id no file has changes nothing |
| FileUpload.WithoutFileIdempotent | hooks/use-file-upload.ts:245 | removing an id twice equals removing it once |
| FileUpload.TooManyAddsNothing | hooks/use-file-upload.ts:204-207 | in multiple mode, adding past `maxFiles` sets a single error and adds nothing |
| FileUpload.MaxFilesRespected | hooks/use-file-upload.ts:204-225 | in multiple mode, adding keeps the files already present at the front, and a list within `maxFiles` stays within it |
| FileUpload.SingleModeReplaces | hooks/use-file-upload.ts:200-225 | in single mode the accepted files replace the list, and nothing is a duplicate |
| FileUpload.Uploader.constructor | hooks/use-file-upload.ts:116-126 | the initial files are the given metadata with their own ids, with no errors and no drag |
| FileUpload.Uploader.ClearFiles | hooks/use-file-upload.ts:168-189 | `clearFiles` empties both files and errors and keeps the drag flag |
| FileUpload.Uploader.ClearErrors | hooks/use-file-upload.ts:258-263 | only the errors are cleared |
| FileUpload.Uploader.RemoveFile | hooks/use-file-upload.ts:237-256 | the files become those whose id differs, in order, and the errors are cleared |
| FileUpload.Uploader.AddFiles | hooks/use-file-upload.ts:191-235 | the state becomes the `Added` state for the batch |
| FileUpload.Uploader.HandleDragEnter | hooks/use-file-upload.ts:265-269 | sets the drag flag |
| FileUpload.Uploader.HandleDragLeave | hooks/use-file-upload.ts:271-280 | clears the drag flag unless the pointer moved to a child |
| FileUpload.Uploader.HandleDrop | hooks/use-file-upload.ts:287-307 | clears the drag flag, then adds all files in multiple mode or only the first one in single mode, and adds nothing when the input is disabled or nothing was dropped |
| FileUpload.Uploader.HandleFileChange | hooks/use-file-upload.ts:309-316 | the chosen files are added |
| ExportPagesDialog.LowerPdfSuffix | app/_components/export-pages-dialog.tsx:47 | helper fact about one constant: `.pdf` is already lower case |
| ExportPagesDialog.EnsurePdfSuffixSpec | app/_components/export-pages-dialog.tsx:46-48 | the name always ends with `.pdf` ignoring case, is unchanged when it already does, gains exactly `.pdf` otherwise, and the operation is idempotent |
| ExportPagesDialog.StripPdfExt | app/_components/export-pages-dialog.tsx:22 | stripping removes exactly one trailing `.pdf` in any case and otherwise leaves the name |
| ExportPagesDialog.StripUndoesEnsure | app/_components/export-pages-dialog.tsx:192-200 | the document title is the download name without the suffix the download added |
| ExportPagesDialog.FallbackKeepsName | app/_components/export-pages-dialog.tsx:90-92 | helper fact about one constant: the fallback `export` survives stripping |
| ExportPagesDialog.DefaultBaseName | app/_components/export-pages-dialog.tsx:88-93 | the base name is never empty; it is `export` when there is no title or the title is empty, the title without one `.pdf` when something is left, and `export` when a non-empty title strips to nothing |
| ExportPagesDialog.DefaultBaseNameExamples | app/_components/export-pages-dialog.tsx:88-93 | examples for two inputs: `report.PDF` gives `report`, and `.pdf` gives `export` |
| ExportPagesDialog.MaxPage | app/_components/export-pages-dialog.tsx:100 | the largest page is at least 1 and at least the page count |
| ExportPagesDialog.Clamp | app/_components/export-pages-dialog.tsx:101 | the clamped page lies within the largest page; a page in range is kept, and one outside goes to the nearer bound |
| ExportPagesDialog.ClampedRange | app/_components/export-pages-dialog.tsx:175-178 | after clamping, 1 ≤ low ≤ high ≤ max(totalPages, 1), and low and high are the two clamped ends |
| ExportPagesDialog.ClampedRangeProperties | app/_components/export-pages-dialog.tsx:175-178 | an in-range ordered range is kept as given, and swapping start and end gives the same range |
| ExportPagesDialog.PageIndicesSpec | app/_components/export-pages-dialog.tsx:186 | the indices are low-1, …, high-1: consecutive, high-low+1 of them |
| ExportPagesDialog.OrIfFalsy | app/_components/export-pages-dialog.tsx:131-132 | `parseInt(…) \|\| fallback` keeps a non-zero number and uses the fallback for NaN or 0 |
| ExportPagesDialog.IntToStringOne | app/_components/export-pages-dialog.tsx:131 | example for one input: `String(1)` is `"1"` |
| ExportPagesDialog.PrefillSpec | app/_components/export-pages-dialog.tsx:100-108 | the prefill puts the clamped current page in both range fields, so page 0 gives 1, and suggests the automatic name for that range |
| ExportPagesDialog.AutoFileNameFallbacks | app/_components/export-pages-dialog.tsx:130-137 | empty fields fall back to start 1 and end equal to start, giving `<base>-p<s>-<s>.pdf` |
| ExportPagesDialog.SubmitExportSpec | app/_components/export-pages-dialog.tsx:161-200 | every export that submit plans has an ordered range inside [1, max(totalPages, 1)], its consecutive 0-based indices and a `.pdf` download name |
| ExportPagesDialog.ExportOf | app/_components/export-pages-dialog.tsx:186-200 | a clamped range with any chosen name gives a well-formed export |
| ExportPagesDialog.SubmitErrors | app/_components/export-pages-dialog.tsx:162-173 | submit reports "no PDF" exactly when none is loaded, and "not numbers" exactly when start or end does not parse |
| ExportPagesDialog.DialogKey | app/_components/export-pages-dialog.tsx:143-154 | Ctrl/Cmd+E opens the dialog only with a PDF loaded, and only then prevents the default; Escape closes it only when it is open |
| ExportPagesDialog.Dialog.constructor | app/_components/export-pages-dialog.tsx:78-86 | the form starts at `1`, `1`, `export.pdf` with the name not edited |
| ExportPagesDialog.Dialog.PrefillOnOpen | app/_components/export-pages-dialog.tsx:96-118 | when the dialog is open, the form is reset to the prefill and the manual-edit mark is cleared; otherwise nothing changes |
| ExportPagesDialog.Dialog.AutoUpdateFileName | app/_components/export-pages-dialog.tsx:123-139 | the automatic name is written only while the dialog is open and the name was not edited by hand |
| ExportPagesDialog.Dialog.EditFileName | app/_components/export-pages-dialog.tsx:254-257 | typing a name sets it and marks it as edited by hand |
| ExportPagesDialog.Dialog.EditStartPage | app/_components/export-pages-dialog.tsx:224-235 | typing a start page sets only that field |
| ExportPagesDialog.Dialog.EditEndPage | app/_components/export-pages-dialog.tsx:237-248 | typing an end page sets only that field |
| ExportPagesDialog.Dialog.OnKey | app/_components/export-pages-dialog.tsx:142-159 | the global key listener applies `DialogKey` to the event and to the store's dialog flag |
| ExportPagesDialog.Dialog.OnSubmit | app/_components/export-pages-dialog.tsx:161-211 | submit follows `SubmitPlan`, and closes the dialog only after a successful export |
| PdfCanvas.ScrollToPage | app/_components/pdf-canvas.tsx:65-87 | nothing happens without the root or for a page outside [1, pages]; otherwise the page is set, scrolling is marked and its timer starts, and nothing else changes |
| PdfCanvas.ScrollTimerFires | app/_components/pdf-canvas.tsx:81-83 | the scroll timer clears the scrolling flag and its timer and changes nothing else, so the page stays; a cancelled timer does nothing |
| PdfCanvas.PageInputTimerFires | app/_components/pdf-canvas.tsx:179-181 | the buffer timer empties the typed-page buffer and clears its timer and changes nothing else; a cancelled timer does nothing |
| PdfCanvas.Unmounted | app/_components/pdf-canvas.tsx:200-209 | unmounting cancels both timers and changes nothing else |
| PdfCanvas.ArrowUpSpec | app/_components/pdf-canvas.tsx:111-133 | with an input focused it does nothing and leaves the default; otherwise it prevents the default, moves to the previous page from a page in [2, pages] with the canvas mounted, and leaves the world unchanged from a page at or below 1 or above pages |
| PdfCanvas.ArrowDownSpec | app/_components/pdf-canvas.tsx:135-157 | with an input focused it does nothing and leaves the default; otherwise it prevents the default, moves to the next page from a page in [1, pages-1] with the canvas mounted, and leaves the world unchanged from a page below 1 or at or above pages |
| PdfCanvas.DigitSpec | app/_components/pdf-canvas.tsx:159-184 | with an input focused a digit changes nothing and does not prevent the default, so lower-priority handlers run; otherwise it prevents the default, appends to the buffer, restarts its timer and jumps exactly when the buffer parses to a page in [1, pages] (with no jump only the buffer and its timer change); only the page, the scrolling state and the buffer change |
| PdfCanvas.DigitLandsOn | app/_components/pdf-canvas.tsx:172-177 | when the extended buffer parses to an in-range page, the viewer lands on it |
| PdfCanvas.FirstDigit | app/_components/pdf-canvas.tsx:172-177 | the first digit on an empty buffer jumps to that page, and 0 stays put |
| PdfCanvas.SecondDigit | app/_components/pdf-canvas.tsx:172-177 | a second digit within the timeout jumps to the two-digit page |
| PdfCanvas.TypingTwoDigits | app/_components/pdf-canvas.tsx:172-181 | typing digits `a` then `b` within the timeout lands on page `10a + b`; if the buffer resets between them, the second digit alone decides, and `0` leaves the page at `a` |
| PdfCanvas.CanvasPriorities | app/_components/pdf-canvas.tsx:89-187 | the table has 14 shortcuts: the two chords at 10, then the arrows at 8, then the digits at 5 |
| PdfCanvas.CanvasKeysDistinct | app/_components/pdf-canvas.tsx:101-157 | only the fit-mode chord is named `ctrl+x+f`, and only the down arrow is named `arrowdown` |
| PdfCanvas.ArrowDownThroughDispatcher | app/_components/pdf-canvas.tsx:135-157 | with the canvas table registered, ArrowDown through the dispatcher runs only the canvas handler, moves one page down and prevents the default |
| PdfCanvas.FocusedInputLetsLowerPriorityRun | app/_components/pdf-canvas.tsx:137-141 | with an input focused, a lower-priority handler on the same key runs after the arrow handler; otherwise it never runs |
| PdfCanvas.ChordTogglesFitMode | app/_components/pdf-canvas.tsx:101-109 | Ctrl+X then F through the dispatcher runs only the fit-mode handler, flips the fit mode and disarms the chord |

## Left out

- Real timers, the window keydown listener and `document.activeElement`: timers are explicit fire events, and the focused element is a field of the canvas world.
- React hook machinery (`useEffect`, `useRef`, `useCallback`, `setState` scheduling): each hook is reduced to the state changes its callbacks make. A `setState` updater is applied to the state at the time of the call.
- The random consumer id, and the random parts of file ids (`Math.random`, `Date.now`): ids are parameters.
- `stopPropagation` in the `ctrl+x+m` and `ctrl+x+f` handlers (app/_components/pdf-canvas.tsx:95, :105): it keeps those events from the export dialog's own window keydown listener (app/_components/export-pages-dialog.tsx:155). That listener's `onKey` reacts only to Ctrl/Cmd+E and Escape, never to `m` or `f`, so stopping the event changes nothing the model states.
- Registration or removal of shortcuts during a dispatch is not modelled. A dispatch runs over a snapshot, and handlers cannot change the registry.
- Handlers and conditions are pure functions of the world. The real closures can read and write anything.
- ShortcutDispatch.Run: a handler or condition that throws is not modelled. In the program a throw at hooks/use-keyboard-shortcuts.ts:50 or :54 ends the loop and leaves `handleKeyDown`. Lower-priority handlers then do not run, and the chord disarm at lines 65-70 is skipped, so after a failing chord handler the chord stays armed until its timer fires. `KeyboardShortcuts.KeyDown` always reaches the disarm step.
- ShortcutRegistry.NewRegistration: priorities are integers in the model. The program's priority is a JavaScript number, so fractional and NaN priorities, and the comparator `b.priority - a.priority` on them, are outside the model. Every caller passes an integer literal.
- `formatBytes`: its floating-point logarithm and rounding are left out. Size errors carry the limit as a number, not the formatted message text.
- File previews and object URLs (`createPreview`, `URL.createObjectURL`, `revokeObjectURL`), and the `onFilesChange`/`onFilesAdded` callbacks: they produce no state the rules depend on.
- `inputRef.current.value = ""`, `openFileDialog`, `getInputProps` and the `handleDragOver` no-op: these are DOM plumbing.
- `getFilenameFromUrlString`, with its `URL` parsing and `decodeURIComponent`: this is the abstract `urlFileName` parameter of `DeriveTitle`.
- `toLowerCase` covers ASCII letters only. `trim` uses the ECMAScript whitespace and line-terminator set, restricted to the BMP code points listed in `IsWhitespace`.
- `Number.parseInt` is modelled for base 10 only. It skips leading whitespace, takes an optional sign, and reads at least one digit, otherwise the result is NaN. Floating-point rounding of very long digit runs is not modelled.
- JsString.NatToString: `String(n)` is modelled as the plain digit run for every integer, also through `JsString.IntToString`. JavaScript switches to exponent form, such as `1e+21`, once |n| ≥ 10^21, and `parseInt` reads that back as its leading digit. So for a typed start page of 10^21 or more with an empty end field, `ExportPagesDialog.AutoEnd` and the automatic file name keep the number, where the program would use the leading digit.
- JsString.ParseIntOfIntToString: the round trip is proved for the model's `String(n)`, which matches JavaScript only for |n| < 10^21, as the line above says.
- The export itself is a success-or-failure parameter of `OnSubmit`: pdf-lib loading, page copying, `fetch`, `atob`, Blob download and the toasts.
- The `onOpenChange` callback of the dialog element is not modelled; it is an ordinary `setShowExportDialog`.
- The markdown dialog is not part of this model. Its store fields are not declared in the store: `openMarkdownDialog` is a flag of the canvas world, set by the `ctrl+x+m` chord.
- Layout code in the canvas is left out: the intersection observer, viewport sizes, page dimensions and fit widths.
- `totalPages` and the URL parser are fixed when the export dialog model is created.
- KeyboardShortcuts.EventsPreserveValid: Dafny proves it from the transition definitions alone, so it states the invariant without proof work of its own.
- The canvas `deriveTitle`/`document.title` update (app/_components/pdf-canvas.tsx:261-266) is not modelled; only the dialog's title derivation is.

## Observations

- An `accept` list with a trailing comma, such as `.pdf,`, contains an empty entry after trimming. That entry matches any file whose MIME type is empty (`FileUpload.TrailingCommaAcceptsUntyped`).
- `validateFile` has a named-file size error, but through `addFiles` it is never produced. `prepareValidFiles` checks the size first and reports its own generic message (`FileUpload.ClassifySpec`, `FileUpload.SizeCheckedFirst`).
