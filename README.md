# UCI configuration sync over MQTT — a Dafny model

The system mirrors OpenWrt-style UCI configuration files onto an MQTT bus.
Each file of the UCI directory is parsed into sections. Every section gets a
stable uuid and is published retained on `config/<file>/<type>/<uuid>`.
Commands arriving on `commands/...` create, update or delete sections, or
reload and validate files; the engine writes the changed file back to disk
and reports on the bus. An HTTP API service builds those command messages,
lists the known files from the retained topics, and validates file names,
section names, uuids and option values.

This project models the core of that system:

| source file | Dafny file(s) | form |
|---|---|---|
| `src/uci/uciParser.js` | `uci_parser.dfy`, `uci_parser_props.dfy`, `uci_round_trip.dfy` | `parse` and `serialize` are methods with loops, proved against the specification functions `Parsed` and `SerializedText`; `parseValue`, `serializeValue` and `validate` are functions; `uci_round_trip.dfy` proves what `parse` gives back for the text `serialize` writes |
| `src/uci/uciManager.js` (new engine) | `uci_io.dfy`, `uci_manager.dfy`, `uci_manager_props.dfy` | class `Manager`, whose methods each ensure `State() == Spec(old(State()), ...)` for a specification function over an `Engine` snapshot; the properties are lemmas about those functions |
| `src/mqtt/uciManager.js` (older engine) | `mqtt_uci_manager.dfy`, `mqtt_uci_manager_props.dfy` | the same shape |
| `src/api/services/uciService.js` | `uci_service.dfy` | `topicMatches` is a method with a loop; the topic list, its dedup and the command records are functions |
| `src/api/validation.js` | `validation.dfy` | functions returning a `Verdict` |

Shared pieces:
- `common.dfy` holds JavaScript's `split`, `trim`, `\s`, `\w` and `\d`, and decimal rendering.
- `ordered_map.dfy` holds insertion-ordered maps, as a JavaScript `Map` and the `{...a, ...b}` spread keep their keys.

How the outside world is represented:
- The disk is a value `Disk`. It has file texts, files that refuse writes, a flag for failing backup copies, and the uuid registry file.
- The MQTT bus is the sequence of messages published so far (`Message(topic, payload, retain)`), plus a `connected` flag for whether a client is attached.
- Clocks become a `now: nat` parameter.
- `uuidv4` becomes a function `newId: nat -> string` applied to a counter `minted` of ids drawn so far.

Each handler's `try`/`catch` becomes an `Outcome(state, err)`.
- The state keeps every change made before the throw, as the JavaScript does.
- The handler that catches the throw adds the error status or response the source publishes.

Where the two engines disagree, each is modelled as written:
- The new engine keys its uuid registry by `generateSectionKey` and may write uuids back to the file.
- The older engine draws a fresh uuid for every section without one on every load and never writes back.
- The older engine reads the verb as the second topic segment; the new one only accepts the exact topics `commands/edit` and `commands/reload`.

Points where the code differs from the system's written description follow the code:
- `loadAllUCIFiles` stops at the first file that fails to load. It does not skip that file.
- `topicMatches` knows only the `+` wildcard. `#` is a literal segment (`UciService.HashIsLiteral`).
- `serializeValue` writes an opening quote but no closing one. For a string that needs quoting, `parseValue(serializeValue(s))` is therefore never `s` (`UciParserProps.QuotedStringLost`).
- An empty string serialises to an `option` line that `parse` rejects (`UciParserProps.EmptyStringLineRejected`).
- `parse` gives an anonymous section the name `<type>_<i>`. `generateSectionKey` therefore always takes its named branch for sections read from a file (`UciManagerProps.AnonymousSectionKeyedByName`).

## Model

| member | source | states |
|---|---|---|
| Common.Split | src/uci/uciParser.js:16 | `split` never returns an empty list, and `""` splits to `[""]` |
| Common.SplitJoin | src/uci/uciParser.js:15-17 | splitting the join of separator-free lines gives the lines back |
| Common.JoinSplit | src/uci/uciParser.js:15-17 | joining the pieces of a split gives the text back |
| Common.Trim | src/uci/uciParser.js:17 | neither end of the trimmed text is white space |
| Common.TrimTabbed | src/uci/uciParser.js:17 | trimming keeps a text whose ends are not white space, and drops a leading tab in front of one |
| Common.NatToString | src/uci/uciParser.js:193 | `String(n)` of a natural number is a digit string |
| Common.DigitsValueOfNatToString | src/uci/uciParser.js:114-115 | reading a rendered natural number back with `parseInt` gives the number |
| Common.NatToStringInjective | src/uci/uciParser.js:193 | different numbers render differently |
| OrderedMap.Get | src/uci/uciManager.js:474 | `get` finds nothing exactly when the key is absent |
| OrderedMap.Put | src/uci/uciManager.js:434 | `set` adds an entry exactly when the key was absent |
| OrderedMap.GetPut | src/uci/uciManager.js:434 | after `set`, `get` of the key gives the new value and every other key gives what it gave |
| OrderedMap.KeysPut | src/uci/uciManager.js:434 | after `set` the keys are unchanged when the key was present, otherwise one key more at the end |
| OrderedMap.PutSpec | src/uci/uciManager.js:434 | after `set` the key holds the value, every other key holds what it held, and keys stay distinct |
| OrderedMap.PutFresh | src/mqtt/uciManager.js:284 | setting an absent key appends it |
| OrderedMap.RemoveKeepsOthers | src/uci/uciManager.js:519 | deleting a key keeps the other entries in their order |
| OrderedMap.RemoveAbsent | src/mqtt/uciManager.js:343 | deleting an absent key changes nothing |
| OrderedMap.RemovePutFresh | src/mqtt/uciManager.js:284-343 | deleting a key just added restores the map |
| OrderedMap.GetMerge | src/uci/uciManager.js:480 | the spread holds `b`'s value where `b` has the key, otherwise `a`'s |
| OrderedMap.KeysMerge | src/uci/uciManager.js:480 | the spread keeps `a`'s keys in place and only appends new ones |
| UciParser.Unquote | src/uci/uciParser.js:106-111 | a value wrapped in matching quotes loses exactly two characters (a lone quote becomes empty); any other value is unchanged |
| UciParser.ParseValue | src/uci/uciParser.js:104-127 | a number exactly when the unquoted text is all digits, and then the natural number those digits denote; otherwise a boolean exactly when it is `true` or `false` (true for `true`); otherwise the unquoted text |
| UciParser.Escape | src/uci/uciParser.js:184 | escaping never shortens, lengthens any text with a quote, keeps the last character, and puts a backslash before a trailing quote |
| UciParser.SerializeValue | src/uci/uciParser.js:175-194 | a string needing quotes gets a leading `'` and grows; booleans become the digits 1/0; naturals their digits |
| UciParser.QuotedName | src/uci/uciParser.js:34 | the optional quoted name is non-empty and holds no quote |
| UciParser.MatchHeader | src/uci/uciParser.js:34 | a matched header's type is a non-empty word |
| UciParser.MatchDirective | src/uci/uciParser.js:51-54 | a matched directive has a non-empty word key and a non-empty single-line value |
| UciParser.DirectiveValue | src/uci/uciParser.js:51 | a matched value is non-empty and single-line |
| UciParser.TrimAll | src/uci/uciParser.js:17 | every line is trimmed and none is lost |
| UciParser.Keep | src/uci/uciParser.js:18 | every kept line is non-empty, does not start with `#`, and comes from the input |
| UciParser.RunLinesStaysFailed | src/uci/uciParser.js:84-87 | once a line fails, the run fails with that line's message |
| UciParser.Parse | src/uci/uciParser.js:13-97 | the loop's result is `Parsed(content)`, line by line |
| UciParser.ReadHeader | src/uci/uciParser.js:27-48 | a `config` line saves the current section and opens the next, as one `Step` |
| UciParser.ReadOption | src/uci/uciParser.js:49-66 | an `option` line sets the uuid or one value, as one `Step` |
| UciParser.ReadListItem | src/uci/uciParser.js:67-83 | a `list` line starts or extends an array, as one `Step` |
| UciParser.PushListItem | src/uci/uciParser.js:75-82 | the values after a `list` item are `ListAppended` |
| UciParser.PutPut | src/uci/uciParser.js:64 | setting a key twice keeps the second value at the first position |
| UciParser.Serialize | src/uci/uciParser.js:134-168 | the loop's text is `SerializedText(sections)`, which `parse` reads back as `UciRoundTrip.SerializeThenParse` states |
| UciParser.PushSection | src/uci/uciParser.js:139-164 | one section adds its header, uuid line, value lines and blank line |
| UciParser.PushEntry | src/uci/uciParser.js:152-162 | one value adds one `option` line, or one `list` line per array item |
| UciParser.Validate | src/uci/uciParser.js:201-216 | valid exactly when parsing succeeds; then the section count and no errors, otherwise count 0 and the parse error alone |
| UciParserProps.StepFailure | src/uci/uciParser.js:26-87 | one line fails exactly when it is malformed, whatever state and position it is read in; the message names the directive and ends with the raw line; a line that starts with none of `config `, `option `, `list ` changes nothing (the run-level consequence is `ParseFailsAtFirstMalformed`) |
| UciParserProps.RunFailure | src/uci/uciParser.js:25-94 | a run fails exactly when a line is malformed, with the first such line's message |
| UciParserProps.ParseFailsAtFirstMalformed | src/uci/uciParser.js:13-97 | `parse` throws exactly when a kept line is malformed, naming the first one by its 1-based position among kept lines |
| UciParserProps.ValidateReportsFirstMalformed | src/uci/uciParser.js:201-216 | `validate` reports the count, or the single message for the first malformed line |
| UciParserProps.KeepAppend | src/uci/uciParser.js:18 | the kept lines of a concatenation are the kept lines of its parts |
| UciParserProps.KeptLinesDropped | src/uci/uciParser.js:15-18 | inserting a blank or comment line anywhere leaves the kept lines as they were |
| UciParserProps.DroppedLineInvisible | src/uci/uciParser.js:13-97 | inserting a blank or comment line changes neither the sections, their line numbers nor the error |
| UciParserProps.NoHeaderNoSections | src/uci/uciParser.js:49-83 | well-formed lines before any header are ignored |
| UciParserProps.HeaderlessContent | src/uci/uciParser.js:91-93 | text with no header parses to the empty map |
| UciParserProps.SetOptionEffect | src/uci/uciParser.js:49-66 | `option uuid` sets the uuid, any other key sets exactly one value in place |
| UciParserProps.ListAppendedEffect | src/uci/uciParser.js:67-83 | a `list` line appends to an array, starts one on a missing or falsy key, is dropped on a truthy scalar; no other key changes |
| UciParserProps.ListOnScalarDropped | src/uci/uciParser.js:75-82 | a `list` line on a truthy scalar leaves the values alone |
| UciParserProps.HeaderShape | src/uci/uciParser.js:34 | the word after `config ` is the type; the name is read after white space |
| UciParserProps.QuotedNameShape | src/uci/uciParser.js:34 | a quoted name is read up to its closing quote |
| UciParserProps.HeaderOpensSection | src/uci/uciParser.js:27-48 | a matching header never fails; it opens a fresh section keyed and named by its quoted name, or `<type>_<i>` without one, with the type, no values, no uuid and line number `i + 1`; the previously open section is stored under its key (replacing an earlier one with that key, appended otherwise) and every other stored section is kept |
| UciParserProps.HeaderIgnoresTrailingText | src/uci/uciParser.js:34 | text after the quoted name is ignored, since the pattern has no end anchor |
| UciParserProps.UnnamedHeader | src/uci/uciParser.js:40 | an unnamed section is keyed `<type>_<i>` by its 0-based kept-line index |
| UciParserProps.RepeatedKeyReplaces | src/uci/uciParser.js:28-31 | a repeated section key replaces the data but keeps the position |
| UciParserProps.DigitsBeforeBooleans | src/uci/uciParser.js:114-124 | `1` and `0` parse as numbers, never booleans |
| UciParserProps.NaturalRoundTrip | src/uci/uciParser.js:114-115 | `parseValue(serializeValue(n))` is `n` for every natural number below 2^53 |
| UciParserProps.NegativeBecomesString | src/uci/uciParser.js:193 | `parseValue(serializeValue(n))` of a negative number is the string `String(n)` |
| UciParserProps.BooleanBecomesNumber | src/uci/uciParser.js:189-191 | `parseValue(serializeValue(b))` of a boolean is the number 1 or 0 |
| UciParserProps.PlainStringRoundTrip | src/uci/uciParser.js:186 | `parseValue(serializeValue(s))` is `s` for a string that needs no quotes and is neither all digits nor a boolean word |
| UciParserProps.QuotedStringLost | src/uci/uciParser.js:184 | `parseValue(serializeValue(s))` is never `s` for a string with a space, a tab or a quote |
| UciParserProps.EmptyStringLineRejected | src/uci/uciParser.js:160 | an empty string gives an `option` line that `parse` rejects |
| UciParserProps.TabbedTrailingSpace | src/uci/uciParser.js:17 | the tab before and a space after a line are trimmed away |
| UciParserProps.DirectiveShape | src/uci/uciParser.js:51 | the word after the keyword is the key, and the value is read from the rest |
| UciRoundTrip.SerializeThenParse | src/uci/uciParser.js:134-168 | `parse(serialize(sections))` succeeds and gives every section back, in order, each under its written name or `<type>_<i>`, with its type, its entries read back in order, its uuid read back and the line number of its header, for sections whose lines each read back as one line and whose read-back keys are distinct |
| UciRoundTrip.SerializedSectionComesBack | src/uci/uciParser.js:13-97 | section `j` of `parse(serialize(sections))` is section `j` of the input, keyed by its written name or by `<type>_<i>` with `i` the non-blank lines written before it, carrying `lineNumber` `i + 1`, its type, its entries read back and its uuid read back |
| UciRoundTrip.KeptLinesOfText | src/uci/uciParser.js:15-18 | the lines `parse` keeps from the written text are the written lines without their tabs and blank separators, one per header, uuid, option and array item |
| UciRoundTrip.StepReadsWrittenLines | src/uci/uciParser.js:27-83 | every written header, `option` and `list` line makes its one change to the reading state, whatever that state is |
| UciRoundTrip.StepWrittenHeader | src/uci/uciParser.js:34-48 | a written header opens the section under its written name, or `<type>_<i>` when it carries none, and flushes the previous one |
| UciRoundTrip.AllReads | src/uci/uciParser.js:23-88 | the kept lines of the written text run without error and make, in turn, the changes each section's lines make |
| UciRoundTrip.AppliedItems | src/uci/uciParser.js:75-81 | the `list` lines of an array under a new key append it after the entries so far, holding its items read back, in order |
| UciRoundTrip.AppliedSection | src/uci/uciParser.js:27-83 | the header, uuid and entry lines of one section leave it open with exactly its data read back, the sections before it flushed |
| UciRoundTrip.AppliedAll | src/uci/uciParser.js:28-31 | all sections' changes, applied in turn, give the read-back sections, the last still open |
| UciRoundTrip.PlainComesBack | src/uci/uciParser.js:104-127 | a natural number below 2^53, or a one-line string needing no quotes that is neither all digits nor a boolean word, is written as one line and `parseValue(serializeValue(x))` is `x` |
| UciRoundTrip.BooleanComesBackAsNumber | src/uci/uciParser.js:189-191 | a boolean is written as one line and comes back as the number 1 or 0 |
| UciRoundTrip.PlainValuesComeBack | src/uci/uciParser.js:152-162 | entries holding such plain scalars, alone or in arrays, come back unchanged |
| UciRoundTrip.UuidComesBack | src/uci/uciParser.js:147-149 | a uuid written between quotes comes back as the same string unless it reads as a number or a boolean word |
| UciRoundTrip.PlainSectionComesBack | src/uci/uciParser.js:134-168 | parsing the written text gives back every plain entry of a section unchanged, in order |
| UciRoundTrip.BooleanEntryComesBackAsNumber | src/uci/uciParser.js:134-168 | parsing the written text gives a boolean entry back under its key as the number 1 (true) or 0 (false) |
| UciIo.FoundWellKeyed | src/uci/uciManager.js:416 | a file found in a well-keyed store is well keyed |
| UciIo.PutFilesWellKeyed | src/uci/uciManager.js:197 | replacing a file's entry by a well-keyed one keeps the store well keyed |
| UciIo.RemoveFilesWellKeyed | src/mqtt/uciManager.js:200 | dropping a file's entry keeps the store well keyed |
| UciIo.DataOf | src/uci/uciManager.js:139-156 | the map given to `serialize` has the same keys and each section's parser record |
| UciIo.PutWellKeyed | src/uci/uciManager.js:434 | `set` under a section's own uuid keeps the sections well keyed |
| UciIo.PutEntries | src/uci/uciManager.js:434 | every entry after `set` is the new one or an old one |
| UciIo.RemoveWellKeyed | src/uci/uciManager.js:519 | `delete` keeps the sections well keyed |
| UciIo.Backup | src/uci/uciManager.js:125-137 | a backup adds a copy of the current text when the file exists and copying works; nothing else changes |
| UciManager.SectionMessages | src/uci/uciManager.js:255-278 | one message per section, in file order |
| UciManager.Manager.constructor | src/uci/uciManager.js:8-24 | nothing loaded, the registry empty, no id drawn |
| UciManager.Manager.LoadUuidMapping | src/uci/uciManager.js:64-81 | the saved registry, or an empty one when it is missing or unreadable |
| UciManager.Manager.SaveUuidMapping | src/uci/uciManager.js:83-94 | the registry file holds the registry; nothing else changes |
| UciManager.Manager.GetOrCreateUuid | src/uci/uciManager.js:106-123 | the uuid and registry are `Assign`'s (see `AssignChoice`, `AssignRecords`) |
| UciManager.Manager.CreateBackup | src/uci/uciManager.js:125-137 | the disk is `Backup` of the old disk |
| UciManager.Manager.WriteUciFile | src/uci/uciManager.js:139-156 | `ok` exactly when the disk accepts the write; then the disk holds the serialisation, after the backup |
| UciManager.Manager.ResolveSections | src/uci/uciManager.js:168-194 | the loop computes `Resolve` (see `ResolveWellKeyed`, `ResolveModified`) |
| UciManager.Manager.LoadUciFile | src/uci/uciManager.js:158-220 | the new state and error are `Loaded` (see `LoadReplacesEntry`, `LoadWriteBack`) |
| UciManager.Manager.InstallFile | src/uci/uciManager.js:197-212 | the end of a load is `Installed` (see `InstalledEntry`) |
| UciManager.Manager.LoadAllUciFiles | src/uci/uciManager.js:222-240 | the loop computes `LoadedAll` (see `LoadedAllLoadsEvery`) |
| UciManager.Manager.PublishSystemStatus | src/uci/uciManager.js:291-313 | one retained status message is appended when connected |
| UciManager.Manager.PublishCommandResponse | src/uci/uciManager.js:538-553 | one response message is appended when connected |
| UciManager.Manager.PublishUciFile | src/uci/uciManager.js:242-289 | the result is `Published` (see `ReloadPublishesFile`) |
| UciManager.Manager.Commit | src/uci/uciManager.js:440-444 | the result is `Committed` (see `CommittedEffect`) |
| UciManager.Manager.Announce | src/uci/uciManager.js:450-463 | the result is `Announced` (see `CreateAnnouncesInOrder`) |
| UciManager.Manager.CreateSection | src/uci/uciManager.js:415-466 | the result is `Created` (see `CreatedMemory`, `CreatedKeepsOthers`) |
| UciManager.Manager.CreateIn | src/uci/uciManager.js:421-466 | the result is `CreatedIn` (see `CreatedInMemory`) |
| UciManager.Manager.Register | src/uci/uciManager.js:434-466 | the result is `Registered` |
| UciManager.Manager.UpdateSection | src/uci/uciManager.js:468-506 | the result is `Updated` (see `UpdateOverlaysValues`, `UpdateAnnouncesInOrder`) |
| UciManager.Manager.DeleteSection | src/uci/uciManager.js:508-536 | the result is `Deleted` (see `DeleteRemovesExactly`) |
| UciManager.Manager.HandleEditCommand | src/uci/uciManager.js:390-413 | the new state is `Edited` (see `EditedConsistent`, `UnknownActionRejected`) |
| UciManager.Manager.HandleReloadCommand | src/uci/uciManager.js:555-565 | the new state is `Reloaded` (see `ReloadPublishesFile`, `ReloadReportsFailure`) |
| UciManager.Manager.HandleMqttMessage | src/uci/uciManager.js:376-388 | the new state is `Dispatched` (see `OtherTopicsIgnored`) |
| UciManagerProps.ColonSplit | src/uci/uciManager.js:96-104 | a colon-free prefix ending at the first `:` is determined by the key |
| UciManagerProps.SectionKeysSeparateFilesAndTypes | src/uci/uciManager.js:96-104 | sections of different files or types never share a key when names hold no `:` |
| UciManagerProps.UnnamedKeysFollowLines | src/uci/uciManager.js:98-100 | `line<N>` keys in one file and type agree exactly when the line numbers do |
| UciManagerProps.AnonymousSectionKeyedByName | src/uci/uciManager.js:96-104 | a parsed anonymous section is keyed by its `type_i` name, not its line |
| UciManagerProps.AssignRecords | src/uci/uciManager.js:106-123 | the registry maps the key to the returned uuid and no other key changes |
| UciManagerProps.AssignChoice | src/uci/uciManager.js:106-123 | the embedded uuid wins, else the registered one (nothing changes), else a fresh id |
| UciManagerProps.ResolveWellKeyed | src/uci/uciManager.js:168-194 | sections are keyed by their own uuid, at most one per parsed section, registry keys distinct |
| UciManagerProps.ResolveModified | src/uci/uciManager.js:183-186 | the file needs rewriting exactly when some section lacks a uuid |
| UciManagerProps.ResolveKeepsEmbedded | src/uci/uciManager.js:168-194 | every uuid embedded in the file is a key of the stored sections |
| UciManagerProps.ResolveOneEmbedded | src/uci/uciManager.js:168-194 | a section carrying its uuid is stored unchanged under it, with no fresh id |
| UciManagerProps.ResolveAllEmbedded | src/uci/uciManager.js:168-194 | a file whose sections all carry distinct uuids is stored as parsed, in order, with no fresh id |
| UciManagerProps.MappingKept | src/uci/uciManager.js:106-123 | a registered key keeps its uuid for the rest of the loop |
| UciManagerProps.ResolveStable | src/uci/uciManager.js:168-194 | re-resolving a uuid-less file with the registry left by the first load gives the same sections and no fresh id |
| UciManagerProps.PutFileConsistent | src/uci/uciManager.js:197-201 | replacing a file's entry by a well-keyed one keeps the engine consistent |
| UciManagerProps.CommittedConsistent | src/uci/uciManager.js:139-156 | writing back keeps the engine consistent, whether or not the write fails |
| UciManagerProps.LoadedConsistent | src/uci/uciManager.js:158-220 | a load keeps the engine consistent, whatever it throws |
| UciManagerProps.LoadedAllConsistent | src/uci/uciManager.js:222-240 | loading all files keeps the engine consistent |
| UciManagerProps.InsertedConsistent | src/uci/uciManager.js:434-437 | the memory change of create keeps the engine consistent |
| UciManagerProps.CreatedConsistent | src/uci/uciManager.js:415-466 | create keeps the engine consistent, whatever it throws |
| UciManagerProps.UpdatedConsistent | src/uci/uciManager.js:468-506 | update keeps the engine consistent, whatever it throws |
| UciManagerProps.DeletedConsistent | src/uci/uciManager.js:508-536 | delete keeps the engine consistent, whatever it throws |
| UciManagerProps.EditedConsistent | src/uci/uciManager.js:390-413 | every edit command keeps the engine consistent |
| UciManagerProps.ReloadedConsistent | src/uci/uciManager.js:555-565 | a reload keeps the engine consistent |
| UciManagerProps.CommittedEffect | src/uci/uciManager.js:125-156 | the write is preceded by a timestamped copy of the existing file unless backups fail; on success the disk holds the serialisation and the entry the new time; on failure only that backup is left; registry, bus and other files untouched |
| UciManagerProps.CommittedFiles | src/uci/uciManager.js:443-444 | only the written file's timestamp changes, and only on success |
| UciManagerProps.InstalledEntry | src/uci/uciManager.js:197-212 | the entry holds the resolved sections with the text and time read, or the written ones |
| UciManagerProps.LoadReplacesEntry | src/uci/uciManager.js:197-201 | a successful parse replaces the entry wholesale and the registry; other files, bus and connection untouched |
| UciManagerProps.LoadFailureChangesNothing | src/uci/uciManager.js:214-219 | a load that cannot read or parse throws and changes nothing |
| UciManagerProps.LoadWritesOnlyWhenNeeded | src/uci/uciManager.js:204-212 | the disk changes only when write-back is on and some section lacked a uuid |
| UciManagerProps.LoadWriteBack | src/uci/uciManager.js:204-212 | write-back takes a backup, writes the whole resolved set, and the entry records what was written |
| UciManagerProps.ReloadKeepsUuids | src/uci/uciManager.js:158-220 | reloading a uuid-less file with write-back off reaches the first load's state: same uuids, no fresh id |
| UciManagerProps.UpdateOverlaysValues | src/uci/uciManager.js:480 | a key the command names takes its value, others keep theirs; type, name, uuid, other sections and files stay; memory keeps the change if the write fails |
| UciManagerProps.DeleteRemovesExactly | src/uci/uciManager.js:519 | exactly the named section goes, the others keep their order, other files stay, the registry keeps the key |
| UciManagerProps.UpdateAnnouncesInOrder | src/uci/uciManager.js:479-503 | when writable and connected: the file is rewritten as the serialisation of the sections with the merged one in place, then the section message with the merged values, the `section_updated` status and the success response, in order |
| UciManagerProps.DeleteAnnouncesInOrder | src/uci/uciManager.js:519-533 | when writable and connected: the file is rewritten, then the clearing message, `section_deleted` status and success response, in order |
| UciManagerProps.MissingTargetAnswersError | src/uci/uciManager.js:468-516 | a missing file or section changes nothing but the bus, which gets an `error` response |
| UciManagerProps.UnknownActionRejected | src/uci/uciManager.js:406-411 | an unknown action gets an `error` response and changes nothing else |
| UciManagerProps.CreatedInFrame | src/uci/uciManager.js:434-444 | once the file is found, memory ends as `Inserted`, plus the new timestamp on success |
| UciManagerProps.CreatedInMemory | src/uci/uciManager.js:434-437 | the new section is set, its key registered, one id drawn, whatever the write does |
| UciManagerProps.CreatedMemory | src/uci/uciManager.js:421-437 | the new section sits under the fresh uuid, appended when that uuid is new to the file |
| UciManagerProps.CreatedKeepsOthers | src/uci/uciManager.js:434-437 | every other section and file is kept; the registry gains one key; one id is drawn |
| UciManagerProps.CreateAnnouncesInOrder | src/uci/uciManager.js:440-463 | when writable and connected: write, save registry, then section message, `section_created` status and success response with the uuid |
| UciManagerProps.CreateWriteFailure | src/uci/uciManager.js:434-440 | a create on a file the disk refuses throws the write failure (`WriteFailed`), keeps the disk text and registry file, and publishes nothing |
| UciManagerProps.CreateWriteFailureKeepsMemory | src/uci/uciManager.js:434-440 | a refused write throws after memory changed; disk text and registry file are kept; only the error response is published |
| UciManagerProps.EditWriteFailureAnswersError | src/uci/uciManager.js:479-522 | an update or delete of a present section on a file the disk refuses keeps the disk text, the registry file and the registry; the only message is an `error` response carrying the write failure's message |
| UciManagerProps.CreateThenDeleteRestores | src/uci/uciManager.js:434-519 | deleting what a create added restores the section set; the registry keeps the key |
| UciManagerProps.LoadedKeepsDiskNames | src/uci/uciManager.js:158-220 | loading never adds or removes a file on disk |
| UciManagerProps.LoadedAllLoadsEvery | src/uci/uciManager.js:222-240 | on success every listed non-hidden file is loaded and earlier loads stay |
| UciManagerProps.LoadSucceeded | src/uci/uciManager.js:197-201 | a successful load leaves the file loaded, keeps the others and the directory's names |
| UciManagerProps.ReloadPublishesFile | src/uci/uciManager.js:555-565 | a successful reload publishes every section, the `loaded` status with the count, then `reloaded` |
| UciManagerProps.ReloadReportsFailure | src/uci/uciManager.js:558-564 | a failed reload changes nothing but the bus, which gets an `error` status |
| UciManagerProps.OtherTopicsIgnored | src/uci/uciManager.js:376-388 | any topic other than `commands/edit` and `commands/reload`, `commands/validate` included, is ignored |
| UciManagerProps.DispatchedConsistent | src/uci/uciManager.js:376-388 | every handled message keeps the engine consistent |
| MqttUciManager.ValuesMessages | src/mqtt/uciManager.js:119-148 | one message per section, in file order |
| MqttUciManager.Prefix8 | src/mqtt/uciManager.js:278 | the first eight characters of the uuid, or all when shorter |
| MqttUciManager.Manager.constructor | src/mqtt/uciManager.js:9-23 | nothing loaded, no id drawn |
| MqttUciManager.Manager.KeySections | src/mqtt/uciManager.js:88-96 | the loop computes `Keyed` (see `KeyedHolds`) |
| MqttUciManager.Manager.PublishSystemStatus | src/mqtt/uciManager.js:150-163 | one status message is appended when connected |
| MqttUciManager.Manager.PublishUciFile | src/mqtt/uciManager.js:119-148 | the new state is `Published` (see `LoadPublishes`) |
| MqttUciManager.Manager.LoadUciFile | src/mqtt/uciManager.js:78-117 | the result is `Loaded` (see `LoadReplacesEntry`) |
| MqttUciManager.Manager.OnFileChanged | src/mqtt/uciManager.js:175-195 | a change or add event reloads and swallows a failure |
| MqttUciManager.Manager.OnFileRemoved | src/mqtt/uciManager.js:197-201 | an unlink event is `Unlinked` (see `UnlinkDropsOnlyEntry`) |
| MqttUciManager.Manager.SaveUciFile | src/mqtt/uciManager.js:361-394 | the result is `Saved` (see `SaveWritesSerialisation`) |
| MqttUciManager.Manager.Announce | src/mqtt/uciManager.js:290-298 | the result is `Announced` (see `CreateAnnounces`) |
| MqttUciManager.Manager.CreateSection | src/mqtt/uciManager.js:269-300 | the result is `Created` (see `CreateAddsSection`) |
| MqttUciManager.Manager.UpdateSection | src/mqtt/uciManager.js:302-330 | the result is `Updated` (see `UpdateOverlaysValues`) |
| MqttUciManager.Manager.DeleteSection | src/mqtt/uciManager.js:332-359 | the result is `Deleted` (see `DeleteRemovesExactly`) |
| MqttUciManager.Manager.HandleEditCommand | src/mqtt/uciManager.js:240-267 | the new state is `Edited` |
| MqttUciManager.Manager.HandleReloadCommand | src/mqtt/uciManager.js:396-413 | the new state is `Reloaded` |
| MqttUciManager.Manager.HandleValidateCommand | src/mqtt/uciManager.js:415-429 | the new state is `Validated` (see `ValidateReportsParse`) |
| MqttUciManager.Manager.HandleCommand | src/mqtt/uciManager.js:218-238 | the new state is `Handled` (see `HandledConsistent`, `UnknownVerbIgnored`) |
| MqttUciManagerProps.KeyedShape | src/mqtt/uciManager.js:88-96 | the map is well keyed and no larger than the parse; one id per uuid-less section |
| MqttUciManagerProps.KeyOneKeys | src/mqtt/uciManager.js:89-94 | one turn keeps every key and adds the uuid it used |
| MqttUciManagerProps.KeyedHolds | src/mqtt/uciManager.js:88-96 | every parsed section's uuid, its own or its drawn one, is a key |
| MqttUciManagerProps.LoadedConsistent | src/mqtt/uciManager.js:78-117 | a load keeps the store well keyed |
| MqttUciManagerProps.SavedConsistent | src/mqtt/uciManager.js:361-394 | a save keeps the store well keyed |
| MqttUciManagerProps.CommittedConsistent | src/mqtt/uciManager.js:284-298 | saving and announcing keeps the store well keyed |
| MqttUciManagerProps.CreatedConsistent | src/mqtt/uciManager.js:269-300 | create keeps the store well keyed |
| MqttUciManagerProps.UpdatedConsistent | src/mqtt/uciManager.js:302-330 | update keeps the store well keyed |
| MqttUciManagerProps.DeletedConsistent | src/mqtt/uciManager.js:332-359 | delete keeps the store well keyed |
| MqttUciManagerProps.EditedConsistent | src/mqtt/uciManager.js:240-267 | every edit command keeps the store well keyed |
| MqttUciManagerProps.ReloadedConsistent | src/mqtt/uciManager.js:396-413 | a reload keeps the store well keyed |
| MqttUciManagerProps.HandledConsistent | src/mqtt/uciManager.js:218-238 | whatever arrives on `commands/<verb>`, the store stays well keyed |
| MqttUciManagerProps.UnlinkedConsistent | src/mqtt/uciManager.js:197-201 | an unlink keeps the store well keyed |
| MqttUciManagerProps.LoadReplacesEntry | src/mqtt/uciManager.js:99-103 | a successful parse replaces the entry wholesale; other files and the disk are untouched |
| MqttUciManagerProps.LoadPublishes | src/mqtt/uciManager.js:110-112 | when connected, each section's values in file order, then `loaded`; otherwise nothing |
| MqttUciManagerProps.LoadFailureChangesNothing | src/mqtt/uciManager.js:113-116 | a failed read or parse throws and changes nothing |
| MqttUciManagerProps.SaveWritesSerialisation | src/mqtt/uciManager.js:361-394 | a save succeeds exactly when the file is loaded, the backup works and the write is accepted; then disk and entry hold the serialisation |
| MqttUciManagerProps.SavedFiles | src/mqtt/uciManager.js:361-394 | the store after a save: unchanged on failure, else the entry's text and time replaced |
| MqttUciManagerProps.CommittedSections | src/mqtt/uciManager.js:284-298 | the edited sections stay in memory whatever the save does; other files stay |
| MqttUciManagerProps.CreatedSections | src/mqtt/uciManager.js:275-284 | the new section is set under the drawn uuid; other files stay |
| MqttUciManagerProps.CreateAddsSection | src/mqtt/uciManager.js:275-284 | the section is typed by the command's name and keyed `<name>_<8 uuid chars>`, appended when new; others untouched |
| MqttUciManagerProps.CommittedAnnounces | src/mqtt/uciManager.js:287-298 | a successful save with a client publishes the message, then the status |
| MqttUciManagerProps.CreateAnnounces | src/mqtt/uciManager.js:290-298 | a saved create publishes the raw values retained, then `created` |
| MqttUciManagerProps.UpdatedSections | src/mqtt/uciManager.js:308-317 | the merged section is set back under its uuid; other files stay |
| MqttUciManagerProps.UpdateOverlaysValues | src/mqtt/uciManager.js:314 | a key the command names takes its value, others keep theirs; the rest is untouched |
| MqttUciManagerProps.DeleteRemovesExactly | src/mqtt/uciManager.js:343 | exactly the named section goes, others keep their order |
| MqttUciManagerProps.MissingTargetReportsError | src/mqtt/uciManager.js:303-340 | a missing file or section changes nothing but the bus, which gets an `error` status |
| MqttUciManagerProps.CreateThenDeleteRestores | src/mqtt/uciManager.js:284-343 | deleting what a create added restores the section set |
| MqttUciManagerProps.ValidateReportsParse | src/mqtt/uciManager.js:415-429 | `valid` exactly when the content (or empty text) parses; only the bus changes |
| MqttUciManagerProps.UnknownVerbIgnored | src/mqtt/uciManager.js:220-237 | a verb other than edit, reload or validate is ignored |
| MqttUciManagerProps.VerbOfCommandTopic | src/mqtt/uciManager.js:220 | `commands/<verb>` reaches the handler named by the verb |
| MqttUciManagerProps.UnlinkDropsOnlyEntry | src/mqtt/uciManager.js:197-201 | a removed file drops out of memory and nothing else changes |
| UciService.TopicMatches | src/api/services/uciService.js:353-368 | true exactly when both split into equally many segments and each filter segment is `+` or equal |
| UciService.LiteralFilterMatchesOnlyItself | src/api/services/uciService.js:353-368 | a filter without `+` matches exactly the topic it spells |
| UciService.HashIsLiteral | src/api/services/uciService.js:361-367 | `config/#` matches only itself |
| UciService.MatchesAround | src/api/services/uciService.js:353-368 | matching splits around a separator when the fronts have equally many segments |
| UciService.PlusMatchesAnySegment | src/api/services/uciService.js:361-367 | a trailing `/+` accepts any one more segment, the empty one included |
| UciService.ConfigFilterMatches | src/api/services/uciService.js:353-368 | `config/+/+/+` matches exactly four-segment topics starting with `config` |
| UciService.FirstIndex | src/api/services/uciService.js:21-28 | the first position of an element |
| UciService.DeduplicatedSpec | src/api/services/uciService.js:21-28 | the set keeps every element and no other, each once, in first-seen order |
| UciService.SecondSegmentsSpec | src/api/services/uciService.js:23-26 | the collected names are the topics' second segments, no more |
| UciService.CollectedByShape | src/api/services/uciService.js:20 | the query collects exactly the four-segment `config/...` topics received |
| UciService.ListedFilesSpec | src/api/services/uciService.js:17-39 | the files are exactly the received topics' second segments, each once; `count` is their number |
| UciService.RequestTopicVerbs | src/api/services/uciService.js:113 | the older engine reads the verb of `commands/edit` and `commands/reload` as intended |
| UciService.CreateRequestCreates | src/api/services/uciService.js:101-130 | the create record reaches the edit handler as a `create` with the file, name and values |
| UciService.UpdateRequestUpdates | src/api/services/uciService.js:132-163 | the update record reaches the edit handler as an `update` of the uuid with the values |
| UciService.DeleteRequestDeletes | src/api/services/uciService.js:165-194 | the delete record reaches the edit handler as a `delete` of the uuid |
| UciService.ReloadRequestReloads | src/api/services/uciService.js:196-215 | the reload record reaches the reload handler for its file |
| Validation.FileNameValidIff | src/api/validation.js:137-169 | a file name is accepted exactly when present and made of letters, digits, `_` and `-` |
| Validation.FileNameErrorOrder | src/api/validation.js:137-169 | missing, then traversal (even when hidden), then hidden, then charset, in that order |
| Validation.DotDotIsTraversal | src/api/validation.js:142-151 | a leading `..` is a traversal, not a hidden file |
| Validation.SectionNameValidIff | src/api/validation.js:172-186 | a section name is accepted exactly when present and of the same characters; file and section names agree |
| Validation.UuidVerdict | src/api/validation.js:188-201 | valid exactly when present and in the uuid layout with version 1-5 and variant 8, 9, a or b |
| Validation.UuidGroups | src/api/validation.js:194-196 | accepted exactly when it is five dash-joined hex groups of 8-4-4-4-12 with those digits |
| Validation.GroupsMakeUuid | src/api/validation.js:194-196 | joining five well-formed groups gives an accepted uuid |
| Validation.UuidIgnoresCase | src/api/validation.js:194-196 | a uuid is accepted exactly when its lower-case spelling is |
| Validation.NoRuleMeansValid | src/api/validation.js:204-220 | without rules for the type or the key, every value is valid |
| Validation.RuleDecides | src/api/validation.js:204-220 | where a rule exists its verdict stands, its message prefixed by the key |

## Left out

- I/O is a value: file reads, `fs.statSync`, `fs.copyFile` and writes act on the `Disk` value. Directory creation (`ensureDirectories`) is not modelled.
- JSON: message payloads are modelled as structured values, not JSON text. `JSON.parse` failures are not modelled. A command whose `action`, `sectionName` or `requestId` is missing is outside the model: its record type always has them.
- Timestamps: `new Date().toISOString()` fields in status messages are dropped. The time is a `now` parameter.
- `uuidv4` is the parameter `newId` applied to a counter. Freshness across files is not assumed.
- `initialize`, `connectToMQTT` (subscriptions), `getStatus` and `shutdown` of both engines are not modelled. Neither is the older engine's `loadAllUCIFiles`, which matches the new engine's listing loop.
- The file watcher: the chokidar setup and its debounce are left out. Its `change`, `add` and `unlink` handlers are modelled.
- Async interleaving: every handler runs to completion before the next message. Concurrent handlers are not modelled.
- Logging is not modelled.
- The registry write's own failure detail is not modelled. A failed `saveUUIDMapping` is swallowed, so the model lets it succeed.
- JavaScript's ordering of integer-like object keys, and keys that name `Object.prototype` members, are not modelled. Keys keep insertion order, and a section type such as `toString` has no rule table.
- `src/mqtt/uciParser.js` is not part of this model. Both engines here use the codec of `src/uci/uciParser.js`.
- In the service, `publishMQTTMessage`, `getMQTTMessage`, `queryMQTTData`, `getUCIFile`, `getUCISections` and `getUCISection` are not modelled. `queryMQTTTopics` is modelled only through its filter, applied to the topics received.
- In the validators, the Joi schemas (`setupSchemas`, `validateSectionValues` and the command validators) are not modelled. The bodies of the per-key value rules are a parameter `rule`; only their keys per section type are written out.
- UciService.ListedFilesSpec: states membership and the count only; the first-seen order of the list is stated by UciService.DeduplicatedSpec.
- UciParser.ParseValue: `parseInt` gives a double; the model keeps the exact natural number. The two agree below 2^53, and `UciParserProps.NaturalRoundTrip` and `UciRoundTrip.Plain` are bounded there.
- UciParserProps.NaturalRoundTrip: holds below 2^53 only. From 10^21 on, `String(n)` writes exponent notation such as `1e+21`, which reads back as a string. Between 2^53 and 10^21, the double has already lost the exact value.
- UciParser.Serialize: the round trip (`UciRoundTrip.SerializeThenParse`) is proved only for sections whose lines each read back as one line and whose read-back keys are distinct. Not covered are empty strings, values with white space at either end or a line terminator, quoted strings (see `QuotedStringLost`), an entry named `uuid`, colliding keys, and the reordering JavaScript applies to integer-like object keys.
- UciManager.Published: a connected client is assumed to accept every publish. The per-section `catch` in `publishUCIFile` (src/uci/uciManager.js:269-277) therefore never fires, and the `loaded` status always counts every section, where the program counts only the publishes that succeeded.
- UciManager.Announced: a publish rejected by a connected client is not modelled. In the program the create, update and delete handlers then throw after memory and disk have changed, and the command is answered with an `error` response (src/uci/uciManager.js:460, 500, 530). In the model an edit on a connected client never fails at the publish step.
- MqttUciManager.Published: the same assumption for the older engine. A rejected publish rethrows from `publishUCIFile` (src/mqtt/uciManager.js:133, 144-147), so the program's load and reload then report `error` after memory changed; the model never does.
- MqttUciManager.Announced: the older engine's edit publishes (src/mqtt/uciManager.js:291, 321, 350) are likewise assumed to succeed on a connected client, so no edit reports `error` at the publish step.
- UciIo.ErrorText: a failed read, write or backup throws Node's own `fs` error, whose `error.message` (such as `EACCES: permission denied, open '…'`) reaches the `error` response and the `Failed to reload <file>: …` status (src/uci/uciManager.js:150-154, 411, 563; src/mqtt/uciManager.js:265, 391-393, 410). The model replaces that message by the fixed texts `cannot read <file>`, `cannot write <file>` and `cannot back up <file>`; only the fact that the failure's message is passed on is modelled.
- UciParser.Scalar: command values other than strings, integers, booleans and lists of those (floats, `null`, nested objects, lists holding them) are outside the model, as is the `String(v)` rendering `serializeValue` would give them.
- UciParser.SerializeValue: states only the shape of the written text (a leading quote, digits); the round trips are stated in UciParserProps.
