/** The synchronisation engine of `src/uci/uciManager.js`: it gives every
    section of every UCI file a stable uuid, keeps the files' sections in memory
    keyed by that uuid, applies edit commands to memory and disk, and publishes
    the results on the bus.

    Each handler is specified by a function from the engine's state before to
    its state after (`Loaded`, `Created`, ...); the class `Manager` holds that
    state in fields and its methods are proved to compute exactly those
    functions. */
module UciManager {
  import opened Common
  import opened OrderedMap
  import opened UciParser
  import opened UciIo

  // ---------------------------------------------------------------------------
  // Identities

  /** A line number in a template string; `undefined` when the section has none. */
  function LineText(lineNumber: Option<nat>): string {
    if lineNumber.Some? then NatToString(lineNumber.value) else "undefined"
  }

  /** `generateSectionKey`: `file:type:name` for a name that is non-empty and
      differs from the type, `file:type:line<N>` otherwise. */
  function SectionKey(fileName: string, sectionType: string, sectionName: string, lineNumber: Option<nat>): string {
    if sectionName != "" && sectionName != sectionType then fileName + ":" + sectionType + ":" + sectionName
    else fileName + ":" + sectionType + ":line" + LineText(lineNumber)
  }

  /** The uuid `getOrCreateUUID` returns, with the registry and the count of
      ids drawn from `uuidv4` after the call. */
  datatype Assigned = Assigned(uuid: Scalar, mapping: seq<(string, Scalar)>, minted: nat)

  /** `getOrCreateUUID`: an embedded uuid wins and is recorded; otherwise the
      registered one is reused; otherwise the next fresh id is drawn and
      recorded. `newId(n)` is the n-th id `uuidv4` returns. */
  function Assign(mapping: seq<(string, Scalar)>, minted: nat, key: string, existing: Option<Scalar>,
                  newId: nat -> string): Assigned
  {
    if existing.Some? && Truthy(existing.value) then Assigned(existing.value, Put(mapping, key, existing.value), minted)
    else match Get(mapping, key)
      case Some(u) => Assigned(u, mapping, minted)
      case None => Assigned(Str(newId(minted)), Put(mapping, key, Str(newId(minted))), minted + 1)
  }

  /** What the loop of `loadUCIFile` has built after some parsed sections. */
  datatype Resolution = Resolution(sections: seq<(Scalar, Section)>, mapping: seq<(string, Scalar)>, minted: nat,
                                   modified: bool)

  /** One turn of that loop: resolve the section's uuid, note whether the file
      lacked it, and set the section under it. */
  function ResolveOne(fileName: string, r: Resolution, entry: (string, SectionData), newId: nat -> string): Resolution {
    var d := entry.1;
    var key := SectionKey(fileName, d.sectionType, d.sectionName, d.lineNumber);
    var a := Assign(r.mapping, r.minted, key, d.uuid, newId);
    Resolution(Put(r.sections, a.uuid, Section(d.(uuid := Some(a.uuid)), key, Some(entry.0))), a.mapping, a.minted,
               r.modified || !HasUuid(d))
  }

  /** The whole loop over the parsed sections, in order. */
  function Resolve(fileName: string, entries: seq<(string, SectionData)>, mapping: seq<(string, Scalar)>, minted: nat,
                   newId: nat -> string): Resolution
    decreases |entries|
  {
    if |entries| == 0 then Resolution([], mapping, minted, false)
    else ResolveOne(fileName, Resolve(fileName, entries[..|entries| - 1], mapping, minted, newId), entries[|entries| - 1], newId)
  }

  // ---------------------------------------------------------------------------
  // Engine state and handlers as functions

  /** `config.writeUuidsToFiles` and the source of fresh ids. */
  datatype Config = Config(writeUuidsToFiles: bool, newId: nat -> string)

  /** `uciFiles`, `uuidMapping`, the disk, the bus, whether `mqttClient` is
      set, and how many ids have been drawn. */
  datatype Engine = Engine(files: seq<(string, FileData)>, mapping: seq<(string, Scalar)>, disk: Disk,
                           bus: seq<Message>, connected: bool, minted: nat)

  /** `writeUCIFile` when the write succeeds: a backup, then the serialisation
      of the whole section set. */
  function WriteOut(d: Disk, fileName: string, sections: seq<(Scalar, Section)>, now: nat): Disk {
    Store(Backup(d, fileName, now), fileName, SerializedText(DataOf(sections)), now)
  }

  /** `loadUCIFile`: read and parse, resolve every section's uuid, replace the
      file's entry, then write the uuids back when some section lacked one and
      the configuration asks for it. */
  function Loaded(e: Engine, cfg: Config, fileName: string, now: nat): Outcome<Engine> {
    if fileName !in e.disk.files then Outcome(e, Some(ReadFailed(fileName)))
    else
      var file := e.disk.files[fileName];
      match Parsed(file.content)
      case Err(msg) => Outcome(e, Some(ParseFailed(msg)))
      case Ok(entries) =>
        var r := Resolve(fileName, entries, e.mapping, e.minted, cfg.newId);
        Installed(e.(mapping := r.mapping, minted := r.minted), cfg, fileName, file, r.sections, r.modified, now)
  }

  /** The end of `loadUCIFile`: the file's entry is replaced by the resolved
      sections with the text and mtime read, then rewritten with its uuids when
      `modified` and the configuration asks for it. */
  function Installed(e: Engine, cfg: Config, fileName: string, file: DiskFile, sections: seq<(Scalar, Section)>,
                     modified: bool, now: nat): Outcome<Engine> {
    var loaded := e.(files := Put(e.files, fileName, FileData(sections, file.mtime, file.content)));
    if !(modified && cfg.writeUuidsToFiles) then Outcome(loaded, None)
    else if fileName in e.disk.readOnly then
      Outcome(loaded.(disk := Backup(e.disk, fileName, now)), Some(WriteFailed(fileName)))
    else
      Outcome(loaded.(disk := WriteOut(e.disk, fileName, sections, now),
                      files := Put(e.files, fileName, FileData(sections, now, SerializedText(DataOf(sections))))),
              None)
  }

  /** `loadAllUCIFiles` over the directory listing `names`: names that are not
      plain files (absent from `disk.files`) or start with `.` are skipped, and
      the first failing load ends the whole call. */
  function LoadedAll(e: Engine, cfg: Config, names: seq<string>, now: nat): Outcome<Engine>
    decreases |names|
  {
    if |names| == 0 then Outcome(e, None)
    else if names[0] !in e.disk.files || StartsWith(names[0], ".") then LoadedAll(e, cfg, names[1..], now)
    else
      var o := Loaded(e, cfg, names[0], now);
      if o.error.Some? then o else LoadedAll(o.state, cfg, names[1..], now)
  }

  /** The retained message describing one section. */
  function SectionMessage(fileName: string, segment: string, uuid: Scalar, d: SectionData, lastModified: nat): Message {
    Message(SectionTopic(fileName, segment, uuid), SectionInfo(uuid, d.sectionType, d.sectionName, fileName, d.values, lastModified), true)
  }

  /** One message per section of a file, in the file's order. */
  function SectionMessages(fileName: string, fd: FileData): (ms: seq<Message>)
    ensures |ms| == |fd.sections|
  {
    seq(|fd.sections|, i requires 0 <= i < |fd.sections| =>
      SectionMessage(fileName, fd.sections[i].1.data.sectionType, fd.sections[i].0, fd.sections[i].1.data, fd.lastModified))
  }

  /** `this.uciFiles.get(fileName)?.sections.size || 0` */
  function TotalSections(files: seq<(string, FileData)>, fileName: string): nat {
    match Get(files, fileName)
    case Some(fd) => |fd.sections|
    case None => 0
  }

  /** `publishSystemStatus`: one retained message, or nothing without a client. */
  function WithStatus(e: Engine, fileName: string, status: string, message: string): Engine {
    if e.connected then
      e.(bus := e.bus + [Message(StatusTopic, Status(fileName, status, message, TotalSections(e.files, fileName)), true)])
    else e
  }

  /** `publishCommandResponse`: one message that is not retained; without a
      client the call throws and the error is swallowed. */
  function WithResponse(e: Engine, requestId: string, status: string, message: string,
                        fileName: string, sectionName: string, uuid: Option<Scalar>): Engine {
    if e.connected then
      e.(bus := e.bus + [Message(ResponseTopic(requestId), Response(requestId, status, message, fileName, sectionName, uuid), false)])
    else e
  }

  /** `publishUCIFile`: every section of the file, then a `loaded` status
      counting them. */
  function Published(e: Engine, fileName: string): Outcome<Engine> {
    if !e.connected then Outcome(e, Some(NotConnected))
    else match Get(e.files, fileName)
      case None => Outcome(e, None)
      case Some(fd) =>
        Outcome(WithStatus(e.(bus := e.bus + SectionMessages(fileName, fd)), fileName, "loaded",
                           "UCI file loaded successfully with " + NatToString(|fd.sections|) + " sections"), None)
  }

  /** `writeUCIFile` for a file whose entry in memory already holds `fd`, then
      the `statSync` that sets `lastModified`. A failed write is thrown, and
      memory is not rolled back. */
  function Committed(e: Engine, fileName: string, fd: FileData, now: nat): Outcome<Engine> {
    if fileName in e.disk.readOnly then Outcome(e.(disk := Backup(e.disk, fileName, now)), Some(WriteFailed(fileName)))
    else Outcome(e.(disk := WriteOut(e.disk, fileName, fd.sections, now),
                    files := Put(e.files, fileName, fd.(lastModified := now))), None)
  }

  /** The tail shared by the three edit handlers: the section message, the
      status, the success response. Without a client the first publish throws. */
  function Announced(e: Engine, m: Message, fileName: string, status: string, statusText: string,
                     requestId: string, responseText: string, sectionName: string, uuid: Scalar): Outcome<Engine> {
    if !e.connected then Outcome(e, Some(NotConnected))
    else Outcome(WithResponse(WithStatus(e.(bus := e.bus + [m]), fileName, status, statusText),
                              requestId, "success", responseText, fileName, sectionName, Some(uuid)), None)
  }

  /** The section `createSection` adds: type and name both `sectionName`. */
  function NewSection(cmd: EditCommand, uuid: Scalar, now: nat): Section {
    Section(SectionData(cmd.sectionName, cmd.sectionName, cmd.values, None, Some(uuid)),
            SectionKey(cmd.fileName, cmd.sectionName, cmd.sectionName, Some(now)), Some(cmd.sectionName))
  }

  /** `createSection` */
  function Created(e: Engine, cfg: Config, cmd: EditCommand, now: nat): Outcome<Engine> {
    match Get(e.files, cmd.fileName)
    case None => Outcome(e, Some(FileNotFound(cmd.fileName)))
    case Some(fd) => CreatedIn(e, cmd, fd, Str(cfg.newId(e.minted)), now)
  }

  /** `createSection` once the file's entry `fd` is found and `uuid` drawn. */
  function CreatedIn(e: Engine, cmd: EditCommand, fd: FileData, uuid: Scalar, now: nat): Outcome<Engine> {
    var s := NewSection(cmd, uuid, now);
    var c := Committed(Inserted(e, cmd, fd, uuid, s), cmd.fileName, fd.(sections := Put(fd.sections, uuid, s)), now);
    if c.error.Some? then c else Registered(c.state, cmd, uuid, s, now)
  }

  /** The memory change of `createSection`: the section under its uuid, its
      key in the registry, one more id drawn. */
  function Inserted(e: Engine, cmd: EditCommand, fd: FileData, uuid: Scalar, s: Section): Engine {
    e.(files := Put(e.files, cmd.fileName, fd.(sections := Put(fd.sections, uuid, s))),
       mapping := Put(e.mapping, s.sectionKey, uuid), minted := e.minted + 1)
  }

  /** The end of `createSection`: save the registry, then announce the section. */
  function Registered(e: Engine, cmd: EditCommand, uuid: Scalar, s: Section, now: nat): Outcome<Engine> {
    Announced(e.(disk := e.disk.(registry := Some(e.mapping))), SectionMessage(cmd.fileName, cmd.sectionName, uuid, s.data, now),
              cmd.fileName, "section_created", "Section " + Display(uuid) + " created successfully", cmd.requestId,
              "Section created successfully", cmd.sectionName, uuid)
  }

  /** `updateSection`: `{...section.values, ...values}` */
  function Updated(e: Engine, cmd: EditCommand, now: nat): Outcome<Engine> {
    match Get(e.files, cmd.fileName)
    case None => Outcome(e, Some(FileNotFound(cmd.fileName)))
    case Some(fd) =>
      match Target(fd, cmd.uuid)
      case None => Outcome(e, Some(SectionNotFound(cmd.uuid, cmd.fileName)))
      case Some(s) =>
        var uuid := cmd.uuid.value;
        var s1 := s.(data := s.data.(values := Merge(s.data.values, cmd.values)));
        var fd1 := fd.(sections := Put(fd.sections, uuid, s1));
        var c := Committed(e.(files := Put(e.files, cmd.fileName, fd1)), cmd.fileName, fd1, now);
        if c.error.Some? then c
        else Announced(c.state, SectionMessage(cmd.fileName, cmd.sectionName, uuid, s1.data, now), cmd.fileName,
                       "section_updated", "Section " + Display(uuid) + " updated successfully", cmd.requestId,
                       "Section updated successfully", cmd.sectionName, uuid)
  }

  /** `deleteSection`: the retained message on the section's topic is cleared
      with an empty payload. */
  function Deleted(e: Engine, cmd: EditCommand, now: nat): Outcome<Engine> {
    match Get(e.files, cmd.fileName)
    case None => Outcome(e, Some(FileNotFound(cmd.fileName)))
    case Some(fd) =>
      if Target(fd, cmd.uuid).None? then Outcome(e, Some(SectionNotFound(cmd.uuid, cmd.fileName)))
      else
        var uuid := cmd.uuid.value;
        var fd1 := fd.(sections := Remove(fd.sections, uuid));
        var c := Committed(e.(files := Put(e.files, cmd.fileName, fd1)), cmd.fileName, fd1, now);
        if c.error.Some? then c
        else Announced(c.state, Message(SectionTopic(cmd.fileName, cmd.sectionName, uuid), Tombstone, true), cmd.fileName,
                       "section_deleted", "Section " + Display(uuid) + " deleted successfully", cmd.requestId,
                       "Section deleted successfully", cmd.sectionName, uuid)
  }

  /** `handleEditCommand`: dispatch on the action; any thrown error becomes an
      `error` response carrying the command's file, name and uuid. */
  function Edited(e: Engine, cfg: Config, cmd: EditCommand, now: nat): Engine {
    var o :=
      if cmd.action == "create" then Created(e, cfg, cmd, now)
      else if cmd.action == "update" then Updated(e, cmd, now)
      else if cmd.action == "delete" then Deleted(e, cmd, now)
      else Outcome(e, Some(UnknownAction(cmd.action)));
    if o.error.Some? then
      WithResponse(o.state, cmd.requestId, "error", ErrorText(o.error.value), cmd.fileName, cmd.sectionName, cmd.uuid)
    else o.state
  }

  /** `handleReloadCommand`: load, publish, report; a failure is reported as
      an `error` status instead. */
  function Reloaded(e: Engine, cfg: Config, fileName: string, now: nat): Engine {
    var l := Loaded(e, cfg, fileName, now);
    if l.error.Some? then WithStatus(l.state, fileName, "error", "Failed to reload " + fileName + ": " + ErrorText(l.error.value))
    else
      var p := Published(l.state, fileName);
      if p.error.Some? then WithStatus(p.state, fileName, "error", "Failed to reload " + fileName + ": " + ErrorText(p.error.value))
      else WithStatus(p.state, fileName, "reloaded", "File " + fileName + " reloaded successfully")
  }

  /** `handleMQTTMessage`: only the exact topics `commands/edit` and
      `commands/reload` are handled; `cmd` carries the parsed message. */
  function Dispatched(e: Engine, cfg: Config, topic: string, cmd: EditCommand, now: nat): Engine {
    if topic == "commands/edit" then Edited(e, cfg, cmd, now)
    else if topic == "commands/reload" then Reloaded(e, cfg, cmd.fileName, now)
    else e
  }

  /** The invariant every handler keeps: file names and registry keys are
      distinct, and every file's sections are well keyed. */
  predicate Consistent(e: Engine) {
    FilesWellKeyed(e.files) && Distinct(Keys(e.mapping))
  }

  // ---------------------------------------------------------------------------
  // The engine object

  class Manager {
    var files: seq<(string, FileData)>
    var mapping: seq<(string, Scalar)>
    var disk: Disk
    var bus: seq<Message>
    var connected: bool
    var minted: nat
    const writeUuidsToFiles: bool
    const newId: nat -> string

    function State(): Engine
      reads this
    {
      Engine(files, mapping, disk, bus, connected, minted)
    }

    function Cfg(): Config {
      Config(writeUuidsToFiles, newId)
    }

    /** A manager over `disk0` with nothing loaded; `connected0` says whether
        an MQTT client is attached. */
    constructor (disk0: Disk, connected0: bool, writeUuids: bool, newId0: nat -> string)
      ensures State() == Engine([], [], disk0, [], connected0, 0)
      ensures writeUuidsToFiles == writeUuids && newId == newId0
    {
      files, mapping, disk, bus, connected, minted := [], [], disk0, [], connected0, 0;
      writeUuidsToFiles, newId := writeUuids, newId0;
    }

    /** `loadUUIDMapping`: the saved registry, or an empty one when there is
        none or it cannot be read. */
    method LoadUuidMapping()
      modifies this`mapping
      ensures mapping == if disk.registry.Some? then disk.registry.value else []
    {
      if disk.registry.Some? {
        mapping := disk.registry.value;
      } else {
        mapping := [];
      }
    }

    /** `saveUUIDMapping` */
    method SaveUuidMapping()
      modifies this`disk
      ensures disk == old(disk).(registry := Some(mapping))
    {
      disk := disk.(registry := Some(mapping));
    }

    /** `getOrCreateUUID` */
    method GetOrCreateUuid(key: string, existing: Option<Scalar>) returns (uuid: Scalar)
      modifies this`mapping, this`minted
      ensures Assigned(uuid, mapping, minted) == Assign(old(mapping), old(minted), key, existing, newId)
    {
      if existing.Some? && Truthy(existing.value) {
        mapping := Put(mapping, key, existing.value);
        return existing.value;
      }
      var known := Get(mapping, key);
      if known.Some? {
        uuid := known.value;
      } else {
        uuid := Str(newId(minted));
        minted := minted + 1;
        mapping := Put(mapping, key, uuid);
      }
    }

    /** `createBackup` */
    method CreateBackup(fileName: string, now: nat)
      modifies this`disk
      ensures disk == Backup(old(disk), fileName, now)
    {
      if fileName in disk.files && !disk.backupsFail {
        disk := disk.(backups := disk.backups + [BackupCopy(fileName, now, disk.files[fileName].content)]);
      }
    }

    /** `writeUCIFile`: backup, serialise, write; `ok` is false when the write
        threw. */
    method WriteUciFile(fileName: string, sections: seq<(Scalar, Section)>, now: nat) returns (ok: bool)
      modifies this`disk
      ensures ok == (fileName !in old(disk).readOnly)
      ensures disk == if ok then WriteOut(old(disk), fileName, sections, now) else Backup(old(disk), fileName, now)
    {
      CreateBackup(fileName, now);
      var text := Serialize(DataOf(sections));
      if fileName in disk.readOnly {
        return false;
      }
      disk := disk.(files := disk.files[fileName := DiskFile(text, now)]);
      ok := true;
    }

    /** The loop of `loadUCIFile` over the parsed sections. */
    method ResolveSections(fileName: string, entries: seq<(string, SectionData)>)
      returns (sections: seq<(Scalar, Section)>, modified: bool)
      modifies this`mapping, this`minted
      ensures Resolve(fileName, entries, old(mapping), old(minted), newId) == Resolution(sections, mapping, minted, modified)
    {
      sections, modified := [], false;
      for i := 0 to |entries|
        invariant Resolve(fileName, entries[..i], old(mapping), old(minted), newId) == Resolution(sections, mapping, minted, modified)
      {
        var (sectionKey, data) := entries[i];
        var key := SectionKey(fileName, data.sectionType, data.sectionName, data.lineNumber);
        var uuid := GetOrCreateUuid(key, data.uuid);
        if !HasUuid(data) {
          modified := true;
        }
        sections := Put(sections, uuid, Section(data.(uuid := Some(uuid)), key, Some(sectionKey)));
        assert entries[..i + 1][..i] == entries[..i];
      }
      assert entries[..|entries|] == entries;
    }

    /** `loadUCIFile` */
    method LoadUciFile(fileName: string, now: nat) returns (err: Option<Error>)
      modifies this
      ensures Outcome(State(), err) == Loaded(old(State()), Cfg(), fileName, now)
    {
      if fileName !in disk.files {
        return Some(ReadFailed(fileName));
      }
      var content := disk.files[fileName].content;
      var mtime := disk.files[fileName].mtime;
      var parsed := Parse(content);
      if parsed.Err? {
        return Some(ParseFailed(parsed.error));
      }
      var sections, modified := ResolveSections(fileName, parsed.value);
      err := InstallFile(fileName, DiskFile(content, mtime), sections, modified, now);
    }

    /** The end of `loadUCIFile`. */
    method InstallFile(fileName: string, file: DiskFile, sections: seq<(Scalar, Section)>, modified: bool, now: nat)
      returns (err: Option<Error>)
      modifies this`files, this`disk
      ensures Outcome(State(), err) == Installed(old(State()), Cfg(), fileName, file, sections, modified, now)
    {
      files := Put(files, fileName, FileData(sections, file.mtime, file.content));
      if modified && writeUuidsToFiles {
        var ok := WriteUciFile(fileName, sections, now);
        if !ok {
          return Some(WriteFailed(fileName));
        }
        files := Put(files, fileName, FileData(sections, disk.files[fileName].mtime, disk.files[fileName].content));
        PutPut(old(files), fileName, FileData(sections, file.mtime, file.content), FileData(sections, now, SerializedText(DataOf(sections))));
      }
      err := None;
    }

    /** `loadAllUCIFiles`, given the directory listing. */
    method LoadAllUciFiles(names: seq<string>, now: nat) returns (err: Option<Error>)
      modifies this
      ensures Outcome(State(), err) == LoadedAll(old(State()), Cfg(), names, now)
    {
      for i := 0 to |names|
        invariant LoadedAll(State(), Cfg(), names[i..], now) == LoadedAll(old(State()), Cfg(), names, now)
      {
        assert names[i..][1..] == names[i + 1..];
        if names[i] in disk.files && !StartsWith(names[i], ".") {
          err := LoadUciFile(names[i], now);
          if err.Some? {
            return;
          }
        }
      }
      err := None;
    }

    /** `publishSystemStatus` */
    method PublishSystemStatus(fileName: string, status: string, message: string)
      modifies this`bus
      ensures State() == WithStatus(old(State()), fileName, status, message)
    {
      if !connected {
        return;
      }
      var total := 0;
      var found := Get(files, fileName);
      if found.Some? {
        total := |found.value.sections|;
      }
      bus := bus + [Message(StatusTopic, Status(fileName, status, message, total), true)];
    }

    /** `publishCommandResponse` */
    method PublishCommandResponse(requestId: string, status: string, message: string,
                                  fileName: string, sectionName: string, uuid: Option<Scalar>)
      modifies this`bus
      ensures State() == WithResponse(old(State()), requestId, status, message, fileName, sectionName, uuid)
    {
      if connected {
        bus := bus + [Message(ResponseTopic(requestId), Response(requestId, status, message, fileName, sectionName, uuid), false)];
      }
    }

    /** `publishUCIFile` */
    method PublishUciFile(fileName: string) returns (err: Option<Error>)
      modifies this`bus
      ensures Outcome(State(), err) == Published(old(State()), fileName)
    {
      if !connected {
        return Some(NotConnected);
      }
      var found := Get(files, fileName);
      if found.None? {
        return None;
      }
      var fd := found.value;
      for i := 0 to |fd.sections|
        invariant bus == old(bus) + SectionMessages(fileName, fd)[..i]
      {
        var (uuid, s) := fd.sections[i];
        assert SectionMessages(fileName, fd)[..i + 1] == SectionMessages(fileName, fd)[..i] + [SectionMessages(fileName, fd)[i]];
        bus := bus + [SectionMessage(fileName, s.data.sectionType, uuid, s.data, fd.lastModified)];
      }
      assert SectionMessages(fileName, fd)[..|fd.sections|] == SectionMessages(fileName, fd);
      PublishSystemStatus(fileName, "loaded", "UCI file loaded successfully with " + NatToString(|fd.sections|) + " sections");
      err := None;
    }

    /** Write the file whose entry now holds `fd`, then take its mtime. */
    method Commit(fileName: string, fd: FileData, now: nat) returns (err: Option<Error>)
      modifies this`disk, this`files
      ensures Outcome(State(), err) == Committed(old(State()), fileName, fd, now)
    {
      var ok := WriteUciFile(fileName, fd.sections, now);
      if !ok {
        return Some(WriteFailed(fileName));
      }
      files := Put(files, fileName, fd.(lastModified := disk.files[fileName].mtime));
      err := None;
    }

    /** The section message, the status and the success response. */
    method Announce(m: Message, fileName: string, status: string, statusText: string,
                    requestId: string, responseText: string, sectionName: string, uuid: Scalar)
      returns (err: Option<Error>)
      modifies this`bus
      ensures Outcome(State(), err) == Announced(old(State()), m, fileName, status, statusText, requestId, responseText, sectionName, uuid)
    {
      if !connected {
        return Some(NotConnected);
      }
      bus := bus + [m];
      PublishSystemStatus(fileName, status, statusText);
      PublishCommandResponse(requestId, "success", responseText, fileName, sectionName, Some(uuid));
      err := None;
    }

    /** `createSection` */
    method CreateSection(cmd: EditCommand, now: nat) returns (err: Option<Error>)
      modifies this
      ensures Outcome(State(), err) == Created(old(State()), Cfg(), cmd, now)
    {
      var found := Get(files, cmd.fileName);
      if found.None? {
        return Some(FileNotFound(cmd.fileName));
      }
      err := CreateIn(cmd, found.value, Str(newId(minted)), now);
    }

    /** The body of `createSection` after the lookup and the call to `uuidv4`. */
    method CreateIn(cmd: EditCommand, fd0: FileData, uuid: Scalar, now: nat) returns (err: Option<Error>)
      modifies this
      ensures Outcome(State(), err) == CreatedIn(old(State()), cmd, fd0, uuid, now)
    {
      var s := NewSection(cmd, uuid, now);
      var fd := fd0.(sections := Put(fd0.sections, uuid, s));
      files, mapping, minted := Put(files, cmd.fileName, fd), Put(mapping, s.sectionKey, uuid), minted + 1;
      assert State() == Inserted(old(State()), cmd, fd0, uuid, s);
      err := Commit(cmd.fileName, fd, now);
      if err.Some? {
        return;
      }
      ghost var c := State();
      err := Register(cmd, uuid, s, now);
      assert Outcome(State(), err) == Registered(c, cmd, uuid, s, now);
    }

    /** The end of `createSection`. */
    method Register(cmd: EditCommand, uuid: Scalar, s: Section, now: nat) returns (err: Option<Error>)
      modifies this`disk, this`bus
      ensures Outcome(State(), err) == Registered(old(State()), cmd, uuid, s, now)
    {
      SaveUuidMapping();
      err := Announce(SectionMessage(cmd.fileName, cmd.sectionName, uuid, s.data, now), cmd.fileName, "section_created",
                      "Section " + Display(uuid) + " created successfully", cmd.requestId, "Section created successfully",
                      cmd.sectionName, uuid);
    }

    /** `updateSection` */
    method UpdateSection(cmd: EditCommand, now: nat) returns (err: Option<Error>)
      modifies this
      ensures Outcome(State(), err) == Updated(old(State()), cmd, now)
    {
      var found := Get(files, cmd.fileName);
      if found.None? {
        return Some(FileNotFound(cmd.fileName));
      }
      var fd := found.value;
      var target := Target(fd, cmd.uuid);
      if target.None? {
        return Some(SectionNotFound(cmd.uuid, cmd.fileName));
      }
      var uuid := cmd.uuid.value;
      var s := target.value;
      s := s.(data := s.data.(values := Merge(s.data.values, cmd.values)));
      fd := fd.(sections := Put(fd.sections, uuid, s));
      files := Put(files, cmd.fileName, fd);
      err := Commit(cmd.fileName, fd, now);
      if err.Some? {
        return;
      }
      err := Announce(SectionMessage(cmd.fileName, cmd.sectionName, uuid, s.data, now), cmd.fileName, "section_updated",
                      "Section " + Display(uuid) + " updated successfully", cmd.requestId, "Section updated successfully",
                      cmd.sectionName, uuid);
    }

    /** `deleteSection` */
    method DeleteSection(cmd: EditCommand, now: nat) returns (err: Option<Error>)
      modifies this
      ensures Outcome(State(), err) == Deleted(old(State()), cmd, now)
    {
      var found := Get(files, cmd.fileName);
      if found.None? {
        return Some(FileNotFound(cmd.fileName));
      }
      var fd := found.value;
      if Target(fd, cmd.uuid).None? {
        return Some(SectionNotFound(cmd.uuid, cmd.fileName));
      }
      var uuid := cmd.uuid.value;
      fd := fd.(sections := Remove(fd.sections, uuid));
      files := Put(files, cmd.fileName, fd);
      err := Commit(cmd.fileName, fd, now);
      if err.Some? {
        return;
      }
      err := Announce(Message(SectionTopic(cmd.fileName, cmd.sectionName, uuid), Tombstone, true), cmd.fileName,
                      "section_deleted", "Section " + Display(uuid) + " deleted successfully", cmd.requestId,
                      "Section deleted successfully", cmd.sectionName, uuid);
    }

    /** `handleEditCommand` */
    method HandleEditCommand(cmd: EditCommand, now: nat)
      modifies this
      ensures State() == Edited(old(State()), Cfg(), cmd, now)
    {
      var err: Option<Error>;
      if cmd.action == "create" {
        err := CreateSection(cmd, now);
      } else if cmd.action == "update" {
        err := UpdateSection(cmd, now);
      } else if cmd.action == "delete" {
        err := DeleteSection(cmd, now);
      } else {
        err := Some(UnknownAction(cmd.action));
      }
      if err.Some? {
        PublishCommandResponse(cmd.requestId, "error", ErrorText(err.value), cmd.fileName, cmd.sectionName, cmd.uuid);
      }
    }

    /** `handleReloadCommand` */
    method HandleReloadCommand(fileName: string, now: nat)
      modifies this
      ensures State() == Reloaded(old(State()), Cfg(), fileName, now)
    {
      var err := LoadUciFile(fileName, now);
      if err.None? {
        err := PublishUciFile(fileName);
        if err.None? {
          PublishSystemStatus(fileName, "reloaded", "File " + fileName + " reloaded successfully");
          return;
        }
      }
      PublishSystemStatus(fileName, "error", "Failed to reload " + fileName + ": " + ErrorText(err.value));
    }

    /** `handleMQTTMessage` */
    method HandleMqttMessage(topic: string, cmd: EditCommand, now: nat)
      modifies this
      ensures State() == Dispatched(old(State()), Cfg(), topic, cmd, now)
    {
      if topic == "commands/edit" {
        HandleEditCommand(cmd, now);
      } else if topic == "commands/reload" {
        HandleReloadCommand(cmd.fileName, now);
      }
    }
  }
}
