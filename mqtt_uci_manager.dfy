/** The older synchronisation engine (src/mqtt/uciManager.js): the same store of
    files keyed by uuid, but no uuid registry. Commands arrive on
    `commands/<verb>` and are dispatched on the verb; results and failures are
    reported only as `system/status` messages, and a file removed from the
    directory drops out of memory.

    As for the newer engine, each handler is a function from the state before
    to the state after, and the class `Manager` is proved to compute it. */
module MqttUciManager {
  import opened Common
  import opened OrderedMap
  import opened UciParser
  import opened UciIo

  // ---------------------------------------------------------------------------
  // Keying the parsed sections

  /** The map `loadUCIFile` builds, and how many ids have been drawn. */
  datatype Keying = Keying(sections: seq<(Scalar, Section)>, minted: nat)

  /** One step of the loop: `sectionData.uuid || uuidv4()`, then `set`. */
  function KeyOne(k: Keying, entry: (string, SectionData), newId: nat -> string): Keying {
    var d := entry.1;
    var uuid := if HasUuid(d) then d.uuid.value else Str(newId(k.minted));
    Keying(Put(k.sections, uuid, Section(d.(uuid := Some(uuid)), entry.0, None)),
           if HasUuid(d) then k.minted else k.minted + 1)
  }

  /** The whole loop over the parsed sections, in order. */
  function Keyed(entries: seq<(string, SectionData)>, minted: nat, newId: nat -> string): Keying
    decreases |entries|
  {
    if |entries| == 0 then Keying([], minted)
    else KeyOne(Keyed(entries[..|entries| - 1], minted, newId), entries[|entries| - 1], newId)
  }

  // ---------------------------------------------------------------------------
  // Engine state and handlers as functions

  /** `uciFiles`, the disk, the bus, whether `mqttClient` is set, and how many
      ids have been drawn. */
  datatype Engine = Engine(files: seq<(string, FileData)>, disk: Disk, bus: seq<Message>, connected: bool, minted: nat)

  /** `publishSystemStatus`: one message that is not retained; without a
      client the call throws and the error is swallowed. */
  function WithStatus(e: Engine, fileName: string, status: string, message: string): Engine {
    if e.connected then e.(bus := e.bus + [Message(StatusTopic, PlainStatus(fileName, status, message), false)]) else e
  }

  /** The retained message carrying one section's values. */
  function ValuesMessage(fileName: string, segment: string, uuid: Scalar, values: seq<(string, Value)>): Message {
    Message(SectionTopic(fileName, segment, uuid), RawValues(values), true)
  }

  /** One message per section of a file, in the file's order. */
  function ValuesMessages(fileName: string, fd: FileData): (ms: seq<Message>)
    ensures |ms| == |fd.sections|
  {
    seq(|fd.sections|, i requires 0 <= i < |fd.sections| =>
      ValuesMessage(fileName, fd.sections[i].1.data.sectionType, fd.sections[i].0, fd.sections[i].1.data.values))
  }

  /** `publishUCIFile`, called only when a client is set: every section's
      values, then a `loaded` status; nothing when the file is not loaded. */
  function Published(e: Engine, fileName: string): Engine {
    match Get(e.files, fileName)
    case None => e
    case Some(fd) => WithStatus(e.(bus := e.bus + ValuesMessages(fileName, fd)), fileName, "loaded", "UCI file loaded successfully")
  }

  /** `loadUCIFile`: read and parse, key every section by its uuid, replace
      the file's entry, then publish the file when a client is set. */
  function Loaded(e: Engine, newId: nat -> string, fileName: string): Outcome<Engine> {
    if fileName !in e.disk.files then Outcome(e, Some(ReadFailed(fileName)))
    else
      var file := e.disk.files[fileName];
      match Parsed(file.content)
      case Err(msg) => Outcome(e, Some(ParseFailed(msg)))
      case Ok(entries) =>
        var k := Keyed(entries, e.minted, newId);
        var e1 := e.(files := Put(e.files, fileName, FileData(k.sections, file.mtime, file.content)), minted := k.minted);
        Outcome(if e.connected then Published(e1, fileName) else e1, None)
  }

  /** `saveUCIFile`: copy the file to the backup directory when it exists (a
      failed copy is thrown), write the serialisation of its sections, then
      record the written text and the time in the entry. */
  function Saved(e: Engine, fileName: string, now: nat): Outcome<Engine> {
    match Get(e.files, fileName)
    case None => Outcome(e, Some(NotInMemory(fileName)))
    case Some(fd) =>
      if fileName in e.disk.files && e.disk.backupsFail then Outcome(e, Some(BackupFailed(fileName)))
      else
        var d := Backup(e.disk, fileName, now);
        if fileName in e.disk.readOnly then Outcome(e.(disk := d), Some(WriteFailed(fileName)))
        else
          var text := SerializedText(DataOf(fd.sections));
          Outcome(e.(disk := Store(d, fileName, text, now),
                     files := Put(e.files, fileName, fd.(content := text, lastModified := now))), None)
  }

  /** The first eight characters of a uuid, or all of them when it is shorter. */
  function Prefix8(id: string): (p: string)
    ensures |p| <= 8 && p <= id
    ensures |id| >= 8 ==> |p| == 8
  {
    if |id| <= 8 then id else id[..8]
  }

  /** The section `createSection` stores: type `sectionName`, no name of its
      own, keyed `<sectionName>_<first eight characters of the uuid>`. */
  function NewSection(sectionName: string, values: seq<(string, Value)>, id: string): Section {
    Section(SectionData(sectionName, "", values, None, Some(Str(id))), sectionName + "_" + Prefix8(id), None)
  }

  /** The tail shared by the three edit handlers: the section's message, then
      the status. Without a client the first publish throws. */
  function Announced(e: Engine, m: Message, fileName: string, status: string, statusText: string): Outcome<Engine> {
    if !e.connected then Outcome(e, Some(NotConnected))
    else Outcome(WithStatus(e.(bus := e.bus + [m]), fileName, status, statusText), None)
  }

  /** Save the edited file, then announce the edit; a failed save is thrown
      before anything is published. */
  function Committed(e: Engine, fileName: string, now: nat, m: Message, status: string, statusText: string): Outcome<Engine> {
    var sv := Saved(e, fileName, now);
    if sv.error.Some? then sv else Announced(sv.state, m, fileName, status, statusText)
  }

  /** The state `createSection` saves: the new section set in the file's
      entry `fd` under a freshly drawn uuid. */
  function Inserted(e: Engine, newId: nat -> string, cmd: EditCommand, fd: FileData): Engine {
    var id := newId(e.minted);
    e.(files := Put(e.files, cmd.fileName, fd.(sections := Put(fd.sections, Str(id), NewSection(cmd.sectionName, cmd.values, id)))),
       minted := e.minted + 1)
  }

  /** `createSection` */
  function Created(e: Engine, newId: nat -> string, cmd: EditCommand, now: nat): Outcome<Engine> {
    match Get(e.files, cmd.fileName)
    case None => Outcome(e, Some(FileNotFound(cmd.fileName)))
    case Some(fd) =>
      var id := newId(e.minted);
      Committed(Inserted(e, newId, cmd, fd), cmd.fileName, now, ValuesMessage(cmd.fileName, cmd.sectionName, Str(id), cmd.values),
                "created", "Section " + id + " created successfully")
  }

  /** `updateSection`: `{...section.values, ...values}` */
  function Updated(e: Engine, cmd: EditCommand, now: nat): Outcome<Engine> {
    match Get(e.files, cmd.fileName)
    case None => Outcome(e, Some(FileNotFound(cmd.fileName)))
    case Some(fd) =>
      match Target(fd, cmd.uuid)
      case None => Outcome(e, Some(SectionNotFound(cmd.uuid, cmd.fileName)))
      case Some(s) =>
        var uuid := cmd.uuid.value;
        var s1 := s.(data := s.data.(values := Merge(s.data.values, cmd.values)));
        Committed(e.(files := Put(e.files, cmd.fileName, fd.(sections := Put(fd.sections, uuid, s1)))), cmd.fileName, now,
                  ValuesMessage(cmd.fileName, cmd.sectionName, uuid, s1.data.values),
                  "updated", "Section " + Display(uuid) + " updated successfully")
  }

  /** `deleteSection`: the retained message on the section's topic is cleared
      with an empty payload. */
  function Deleted(e: Engine, cmd: EditCommand, now: nat): Outcome<Engine> {
    match Get(e.files, cmd.fileName)
    case None => Outcome(e, Some(FileNotFound(cmd.fileName)))
    case Some(fd) =>
      if Target(fd, cmd.uuid).None? then Outcome(e, Some(SectionNotFound(cmd.uuid, cmd.fileName)))
      else
        var uuid := cmd.uuid.value;
        Committed(e.(files := Put(e.files, cmd.fileName, fd.(sections := Remove(fd.sections, uuid)))), cmd.fileName, now,
                  Message(SectionTopic(cmd.fileName, cmd.sectionName, uuid), Tombstone, true),
                  "deleted", "Section " + Display(uuid) + " deleted successfully")
  }

  /** `handleEditCommand`: dispatch on the action; a thrown error becomes an
      `error` status carrying its message. */
  function Edited(e: Engine, newId: nat -> string, cmd: EditCommand, now: nat): Engine {
    var o :=
      if cmd.action == "create" then Created(e, newId, cmd, now)
      else if cmd.action == "update" then Updated(e, cmd, now)
      else if cmd.action == "delete" then Deleted(e, cmd, now)
      else Outcome(e, Some(UnknownAction(cmd.action)));
    if o.error.Some? then WithStatus(o.state, cmd.fileName, "error", ErrorText(o.error.value)) else o.state
  }

  /** `handleReloadCommand` */
  function Reloaded(e: Engine, newId: nat -> string, fileName: string, now: nat): Engine {
    var l := Loaded(e, newId, fileName);
    if l.error.Some? then WithStatus(l.state, fileName, "error", "Failed to reload " + fileName + ": " + ErrorText(l.error.value))
    else WithStatus(l.state, fileName, "reloaded", "File " + fileName + " reloaded successfully")
  }

  /** The text `handleValidateCommand` parses: `content || ''`. */
  function ContentOrEmpty(content: Option<string>): string {
    if content.Some? then content.value else ""
  }

  /** `handleValidateCommand`: parse the text and report; the files are not
      touched. */
  function Validated(e: Engine, fileName: string, content: Option<string>): Engine {
    match Parsed(ContentOrEmpty(content))
    case Ok(_) => WithStatus(e, fileName, "valid", "UCI syntax is valid")
    case Err(msg) => WithStatus(e, fileName, "invalid", "UCI syntax error: " + msg)
  }

  /** The verb of a command topic, `topic.split('/')[1]`; absent when the topic
      has no `/`. */
  function Verb(topic: string): Option<string> {
    var segments := Split(topic, '/');
    if |segments| < 2 then None else Some(segments[1])
  }

  /** `handleCommand`: `cmd` carries the message's edit fields and `content`
      its text for `validate`; an unknown verb is only logged. */
  function Handled(e: Engine, newId: nat -> string, topic: string, cmd: EditCommand, content: Option<string>, now: nat): Engine {
    match Verb(topic)
    case Some("edit") => Edited(e, newId, cmd, now)
    case Some("reload") => Reloaded(e, newId, cmd.fileName, now)
    case Some("validate") => Validated(e, cmd.fileName, content)
    case _ => e
  }

  /** The watcher's `unlink` handler: the entry goes, nothing is published. */
  function Unlinked(e: Engine, fileName: string): Engine {
    e.(files := Remove(e.files, fileName))
  }

  // ---------------------------------------------------------------------------
  // The engine object

  class Manager {
    var files: seq<(string, FileData)>
    var disk: Disk
    var bus: seq<Message>
    var connected: bool
    var minted: nat
    const newId: nat -> string

    function State(): Engine
      reads this
    {
      Engine(files, disk, bus, connected, minted)
    }

    /** A manager over `disk0` with nothing loaded; `connected0` says whether
        an MQTT client is attached. */
    constructor (disk0: Disk, connected0: bool, newId0: nat -> string)
      ensures State() == Engine([], disk0, [], connected0, 0) && newId == newId0
    {
      files, disk, bus, connected, minted := [], disk0, [], connected0, 0;
      newId := newId0;
    }

    /** The loop of `loadUCIFile` over the parsed sections. */
    method KeySections(entries: seq<(string, SectionData)>) returns (sections: seq<(Scalar, Section)>)
      modifies this`minted
      ensures Keying(sections, minted) == Keyed(entries, old(minted), newId)
    {
      sections := [];
      for i := 0 to |entries|
        invariant Keying(sections, minted) == Keyed(entries[..i], old(minted), newId)
      {
        var (sectionKey, data) := entries[i];
        var uuid: Scalar;
        if data.uuid.Some? && Truthy(data.uuid.value) {
          uuid := data.uuid.value;
        } else {
          uuid := Str(newId(minted));
          minted := minted + 1;
        }
        sections := Put(sections, uuid, Section(data.(uuid := Some(uuid)), sectionKey, None));
        assert entries[..i + 1][..i] == entries[..i];
      }
      assert entries[..|entries|] == entries;
    }

    /** `publishSystemStatus` */
    method PublishSystemStatus(fileName: string, status: string, message: string)
      modifies this`bus
      ensures State() == WithStatus(old(State()), fileName, status, message)
    {
      if connected {
        bus := bus + [Message(StatusTopic, PlainStatus(fileName, status, message), false)];
      }
    }

    /** `publishUCIFile` */
    method PublishUciFile(fileName: string)
      modifies this`bus
      ensures State() == Published(old(State()), fileName)
    {
      var found := Get(files, fileName);
      if found.None? {
        return;
      }
      var fd := found.value;
      for i := 0 to |fd.sections|
        invariant bus == old(bus) + ValuesMessages(fileName, fd)[..i]
      {
        var (uuid, s) := fd.sections[i];
        assert ValuesMessages(fileName, fd)[..i + 1] == ValuesMessages(fileName, fd)[..i] + [ValuesMessages(fileName, fd)[i]];
        bus := bus + [ValuesMessage(fileName, s.data.sectionType, uuid, s.data.values)];
      }
      assert ValuesMessages(fileName, fd)[..|fd.sections|] == ValuesMessages(fileName, fd);
      PublishSystemStatus(fileName, "loaded", "UCI file loaded successfully");
    }

    /** `loadUCIFile` */
    method LoadUciFile(fileName: string) returns (err: Option<Error>)
      modifies this
      ensures Outcome(State(), err) == Loaded(old(State()), newId, fileName)
    {
      if fileName !in disk.files {
        return Some(ReadFailed(fileName));
      }
      var file := disk.files[fileName];
      var parsed := Parse(file.content);
      if parsed.Err? {
        return Some(ParseFailed(parsed.error));
      }
      var sections := KeySections(parsed.value);
      files := Put(files, fileName, FileData(sections, file.mtime, file.content));
      if connected {
        PublishUciFile(fileName);
      }
      err := None;
    }

    /** The watcher's `change` and `add` handlers: reload, and log a failure. */
    method OnFileChanged(fileName: string)
      modifies this
      ensures State() == Loaded(old(State()), newId, fileName).state
    {
      var _ := LoadUciFile(fileName);
    }

    /** The watcher's `unlink` handler. */
    method OnFileRemoved(fileName: string)
      modifies this`files
      ensures State() == Unlinked(old(State()), fileName)
    {
      files := Remove(files, fileName);
    }

    /** `saveUCIFile` */
    method SaveUciFile(fileName: string, now: nat) returns (err: Option<Error>)
      modifies this`disk, this`files
      ensures Outcome(State(), err) == Saved(old(State()), fileName, now)
    {
      var found := Get(files, fileName);
      if found.None? {
        return Some(NotInMemory(fileName));
      }
      if fileName in disk.files {
        if disk.backupsFail {
          return Some(BackupFailed(fileName));
        }
        disk := disk.(backups := disk.backups + [BackupCopy(fileName, now, disk.files[fileName].content)]);
      }
      var text := Serialize(DataOf(found.value.sections));
      if fileName in disk.readOnly {
        return Some(WriteFailed(fileName));
      }
      disk := disk.(files := disk.files[fileName := DiskFile(text, now)]);
      files := Put(files, fileName, found.value.(content := text, lastModified := now));
      err := None;
    }

    /** The section's message and the status, once the file is saved. */
    method Announce(m: Message, fileName: string, status: string, statusText: string) returns (err: Option<Error>)
      modifies this`bus
      ensures Outcome(State(), err) == Announced(old(State()), m, fileName, status, statusText)
    {
      if !connected {
        return Some(NotConnected);
      }
      bus := bus + [m];
      PublishSystemStatus(fileName, status, statusText);
      err := None;
    }

    /** `createSection` */
    method CreateSection(cmd: EditCommand, now: nat) returns (err: Option<Error>)
      modifies this
      ensures Outcome(State(), err) == Created(old(State()), newId, cmd, now)
    {
      ghost var before := State();
      var found := Get(files, cmd.fileName);
      if found.None? {
        return Some(FileNotFound(cmd.fileName));
      }
      var fd := found.value;
      var id := newId(minted);
      var uuid := Str(id);
      fd := fd.(sections := Put(fd.sections, uuid, NewSection(cmd.sectionName, cmd.values, id)));
      files, minted := Put(files, cmd.fileName, fd), minted + 1;
      assert State() == Inserted(before, newId, cmd, found.value);
      err := SaveUciFile(cmd.fileName, now);
      if err.Some? {
        return;
      }
      err := Announce(ValuesMessage(cmd.fileName, cmd.sectionName, uuid, cmd.values), cmd.fileName,
                      "created", "Section " + id + " created successfully");
    }

    /** `updateSection` */
    method UpdateSection(cmd: EditCommand, now: nat) returns (err: Option<Error>)
      modifies this
      ensures Outcome(State(), err) == Updated(old(State()), cmd, now)
    {
      var found := Get(files, cmd.fileName);
      if found.None? {
        return Some(FileNotFound(cmd.fileName));
      }
      var fd := found.value;
      var target := Target(fd, cmd.uuid);
      if target.None? {
        return Some(SectionNotFound(cmd.uuid, cmd.fileName));
      }
      var uuid := cmd.uuid.value;
      var s := target.value;
      s := s.(data := s.data.(values := Merge(s.data.values, cmd.values)));
      files := Put(files, cmd.fileName, fd.(sections := Put(fd.sections, uuid, s)));
      err := SaveUciFile(cmd.fileName, now);
      if err.Some? {
        return;
      }
      err := Announce(ValuesMessage(cmd.fileName, cmd.sectionName, uuid, s.data.values), cmd.fileName,
                      "updated", "Section " + Display(uuid) + " updated successfully");
    }

    /** `deleteSection` */
    method DeleteSection(cmd: EditCommand, now: nat) returns (err: Option<Error>)
      modifies this
      ensures Outcome(State(), err) == Deleted(old(State()), cmd, now)
    {
      var found := Get(files, cmd.fileName);
      if found.None? {
        return Some(FileNotFound(cmd.fileName));
      }
      var fd := found.value;
      if Target(fd, cmd.uuid).None? {
        return Some(SectionNotFound(cmd.uuid, cmd.fileName));
      }
      var uuid := cmd.uuid.value;
      files := Put(files, cmd.fileName, fd.(sections := Remove(fd.sections, uuid)));
      err := SaveUciFile(cmd.fileName, now);
      if err.Some? {
        return;
      }
      err := Announce(Message(SectionTopic(cmd.fileName, cmd.sectionName, uuid), Tombstone, true), cmd.fileName,
                      "deleted", "Section " + Display(uuid) + " deleted successfully");
    }

    /** `handleEditCommand` */
    method HandleEditCommand(cmd: EditCommand, now: nat)
      modifies this
      ensures State() == Edited(old(State()), newId, cmd, now)
    {
      var err: Option<Error>;
      if cmd.action == "create" {
        err := CreateSection(cmd, now);
      } else if cmd.action == "update" {
        err := UpdateSection(cmd, now);
      } else if cmd.action == "delete" {
        err := DeleteSection(cmd, now);
      } else {
        err := Some(UnknownAction(cmd.action));
      }
      if err.Some? {
        PublishSystemStatus(cmd.fileName, "error", ErrorText(err.value));
      }
    }

    /** `handleReloadCommand` */
    method HandleReloadCommand(fileName: string, now: nat)
      modifies this
      ensures State() == Reloaded(old(State()), newId, fileName, now)
    {
      var err := LoadUciFile(fileName);
      if err.Some? {
        PublishSystemStatus(fileName, "error", "Failed to reload " + fileName + ": " + ErrorText(err.value));
      } else {
        PublishSystemStatus(fileName, "reloaded", "File " + fileName + " reloaded successfully");
      }
    }

    /** `handleValidateCommand` */
    method HandleValidateCommand(fileName: string, content: Option<string>)
      modifies this`bus
      ensures State() == Validated(old(State()), fileName, content)
    {
      var parsed := Parse(ContentOrEmpty(content));
      if parsed.Ok? {
        PublishSystemStatus(fileName, "valid", "UCI syntax is valid");
      } else {
        PublishSystemStatus(fileName, "invalid", "UCI syntax error: " + parsed.error);
      }
    }

    /** `handleCommand` */
    method HandleCommand(topic: string, cmd: EditCommand, content: Option<string>, now: nat)
      modifies this
      ensures State() == Handled(old(State()), newId, topic, cmd, content, now)
    {
      var segments := Split(topic, '/');
      if |segments| < 2 {
        return;
      }
      var verb := segments[1];
      if verb == "edit" {
        HandleEditCommand(cmd, now);
      } else if verb == "reload" {
        HandleReloadCommand(cmd.fileName, now);
      } else if verb == "validate" {
        HandleValidateCommand(cmd.fileName, content);
      }
    }
  }
}
