/** Properties of the older engine: how `loadUCIFile` keys sections, what each
    handler changes and publishes, and the store invariant every handler keeps. */
module MqttUciManagerProps {
  import opened Common
  import opened OrderedMap
  import opened UciParser
  import opened UciIo
  import opened MqttUciManager

  // ---------------------------------------------------------------------------
  // Keying

  /** How many of the parsed sections carry no uuid of their own. */
  function Missing(es: seq<(string, SectionData)>): nat
    decreases |es|
  {
    if |es| == 0 then 0 else Missing(es[..|es| - 1]) + if HasUuid(es[|es| - 1].1) then 0 else 1
  }

  /** The uuid the loop gives entry `j`: its own, or the id drawn for it, the
      `n + (sections without a uuid before it)`-th. */
  function UuidFor(es: seq<(string, SectionData)>, j: nat, n: nat, newId: nat -> string): Scalar
    requires j < |es|
  {
    if HasUuid(es[j].1) then es[j].1.uuid.value else Str(newId(n + Missing(es[..j])))
  }

  /** The map is well keyed and no larger than the parse; exactly one id is
      drawn per section without a uuid. */
  lemma {:induction false} KeyedShape(es: seq<(string, SectionData)>, n: nat, newId: nat -> string)
    ensures WellKeyed(Keyed(es, n, newId).sections)
    ensures |Keyed(es, n, newId).sections| <= |es|
    ensures Keyed(es, n, newId).minted == n + Missing(es)
    decreases |es|
  {
    if |es| > 0 {
      var init := es[..|es| - 1];
      KeyedShape(init, n, newId);
      var k := Keyed(init, n, newId);
      var d := es[|es| - 1].1;
      var uuid := if HasUuid(d) then d.uuid.value else Str(newId(k.minted));
      PutWellKeyed(k.sections, uuid, Section(d.(uuid := Some(uuid)), es[|es| - 1].0, None));
    }
  }

  /** One turn keeps every key and adds the uuid it used. */
  lemma KeyOneKeys(k: Keying, entry: (string, SectionData), newId: nat -> string)
    ensures forall x :: x in Keys(k.sections) ==> x in Keys(KeyOne(k, entry, newId).sections)
    ensures (if HasUuid(entry.1) then entry.1.uuid.value else Str(newId(k.minted))) in Keys(KeyOne(k, entry, newId).sections)
  {
    var d := entry.1;
    var uuid := if HasUuid(d) then d.uuid.value else Str(newId(k.minted));
    KeysPut(k.sections, uuid, Section(d.(uuid := Some(uuid)), entry.0, None));
  }

  /** Every parsed section's uuid is a key of the map: its own when it has one,
      otherwise the id drawn for it. A later section with the same uuid takes
      the earlier one's place. */
  lemma {:induction false} KeyedHolds(es: seq<(string, SectionData)>, j: nat, n: nat, newId: nat -> string)
    requires j < |es|
    ensures UuidFor(es, j, n, newId) in Keys(Keyed(es, n, newId).sections)
    decreases |es|
  {
    var last := |es| - 1;
    var init := es[..last];
    var k := Keyed(init, n, newId);
    assert Keyed(es, n, newId) == KeyOne(k, es[last], newId);
    KeyOneKeys(k, es[last], newId);
    var u := UuidFor(es, j, n, newId);
    if j < last {
      KeyedHolds(init, j, n, newId);
      assert es[..j] == init[..j] && es[j] == init[j];
      assert u == UuidFor(init, j, n, newId);
      assert u in Keys(k.sections);
    } else {
      KeyedShape(init, n, newId);
      assert es[..j] == init;
      assert u == if HasUuid(es[last].1) then es[last].1.uuid.value else Str(newId(k.minted));
    }
  }

  // ---------------------------------------------------------------------------
  // The store invariant

  predicate Consistent(e: Engine) {
    FilesWellKeyed(e.files)
  }

  lemma LoadedConsistent(e: Engine, newId: nat -> string, f: string)
    requires Consistent(e)
    ensures Consistent(Loaded(e, newId, f).state)
  {
    if f in e.disk.files && Parsed(e.disk.files[f].content).Ok? {
      var file := e.disk.files[f];
      var k := Keyed(Parsed(file.content).value, e.minted, newId);
      KeyedShape(Parsed(file.content).value, e.minted, newId);
      PutFilesWellKeyed(e.files, f, FileData(k.sections, file.mtime, file.content));
      var e1 := e.(files := Put(e.files, f, FileData(k.sections, file.mtime, file.content)), minted := k.minted);
      assert Published(e1, f).files == e1.files;
    }
  }

  lemma SavedConsistent(e: Engine, f: string, now: nat)
    requires Consistent(e)
    ensures Consistent(Saved(e, f, now).state)
  {
    if Get(e.files, f).Some? {
      var fd := Get(e.files, f).value;
      FoundWellKeyed(e.files, f);
      PutFilesWellKeyed(e.files, f, fd.(content := SerializedText(DataOf(fd.sections)), lastModified := now));
    }
  }

  /** Saving and announcing an edit keeps a consistent state consistent. */
  lemma CommittedConsistent(e: Engine, f: string, now: nat, m: Message, status: string, text: string)
    requires Consistent(e)
    ensures Consistent(Committed(e, f, now, m, status, text).state)
  {
    SavedConsistent(e, f, now);
    assert Committed(e, f, now, m, status, text).state.files == Saved(e, f, now).state.files;
  }

  lemma CreatedConsistent(e: Engine, newId: nat -> string, cmd: EditCommand, now: nat)
    requires Consistent(e)
    ensures Consistent(Created(e, newId, cmd, now).state)
  {
    if Get(e.files, cmd.fileName).Some? {
      var fd := Get(e.files, cmd.fileName).value;
      var id := newId(e.minted);
      var s := NewSection(cmd.sectionName, cmd.values, id);
      FoundWellKeyed(e.files, cmd.fileName);
      PutWellKeyed(fd.sections, Str(id), s);
      PutFilesWellKeyed(e.files, cmd.fileName, fd.(sections := Put(fd.sections, Str(id), s)));
      CommittedConsistent(Inserted(e, newId, cmd, fd), cmd.fileName, now, ValuesMessage(cmd.fileName, cmd.sectionName, Str(id), cmd.values),
                          "created", "Section " + id + " created successfully");
    }
  }

  lemma UpdatedConsistent(e: Engine, cmd: EditCommand, now: nat)
    requires Consistent(e)
    ensures Consistent(Updated(e, cmd, now).state)
  {
    if Get(e.files, cmd.fileName).Some? && Target(Get(e.files, cmd.fileName).value, cmd.uuid).Some? {
      var fd := Get(e.files, cmd.fileName).value;
      var s := Target(fd, cmd.uuid).value;
      var uuid := cmd.uuid.value;
      FoundWellKeyed(e.files, cmd.fileName);
      GetIn(fd.sections, uuid);
      var i :| 0 <= i < |fd.sections| && fd.sections[i] == (uuid, s);
      var s1 := s.(data := s.data.(values := Merge(s.data.values, cmd.values)));
      PutWellKeyed(fd.sections, uuid, s1);
      var fd1 := fd.(sections := Put(fd.sections, uuid, s1));
      PutFilesWellKeyed(e.files, cmd.fileName, fd1);
      CommittedConsistent(e.(files := Put(e.files, cmd.fileName, fd1)), cmd.fileName, now,
                               ValuesMessage(cmd.fileName, cmd.sectionName, uuid, s1.data.values),
                               "updated", "Section " + Display(uuid) + " updated successfully");
    }
  }

  lemma DeletedConsistent(e: Engine, cmd: EditCommand, now: nat)
    requires Consistent(e)
    ensures Consistent(Deleted(e, cmd, now).state)
  {
    if Get(e.files, cmd.fileName).Some? && Target(Get(e.files, cmd.fileName).value, cmd.uuid).Some? {
      var fd := Get(e.files, cmd.fileName).value;
      var uuid := cmd.uuid.value;
      FoundWellKeyed(e.files, cmd.fileName);
      RemoveWellKeyed(fd.sections, uuid);
      var fd1 := fd.(sections := Remove(fd.sections, uuid));
      PutFilesWellKeyed(e.files, cmd.fileName, fd1);
      CommittedConsistent(e.(files := Put(e.files, cmd.fileName, fd1)), cmd.fileName, now,
                               Message(SectionTopic(cmd.fileName, cmd.sectionName, uuid), Tombstone, true),
                               "deleted", "Section " + Display(uuid) + " deleted successfully");
    }
  }

  lemma EditedConsistent(e: Engine, newId: nat -> string, cmd: EditCommand, now: nat)
    requires Consistent(e)
    ensures Consistent(Edited(e, newId, cmd, now))
  {
    var o :=
      if cmd.action == "create" then Created(e, newId, cmd, now)
      else if cmd.action == "update" then Updated(e, cmd, now)
      else if cmd.action == "delete" then Deleted(e, cmd, now)
      else Outcome(e, Some(UnknownAction(cmd.action)));
    if cmd.action == "create" {
      CreatedConsistent(e, newId, cmd, now);
    } else if cmd.action == "update" {
      UpdatedConsistent(e, cmd, now);
    } else if cmd.action == "delete" {
      DeletedConsistent(e, cmd, now);
    }
    assert Consistent(o.state);
    assert Edited(e, newId, cmd, now).files == o.state.files;
  }

  lemma ReloadedConsistent(e: Engine, newId: nat -> string, f: string, now: nat)
    requires Consistent(e)
    ensures Consistent(Reloaded(e, newId, f, now))
  {
    LoadedConsistent(e, newId, f);
    assert Reloaded(e, newId, f, now).files == Loaded(e, newId, f).state.files;
  }

  /** Whatever arrives on `commands/<verb>`, the store stays well keyed. */
  lemma HandledConsistent(e: Engine, newId: nat -> string, topic: string, cmd: EditCommand, content: Option<string>, now: nat)
    requires Consistent(e)
    ensures Consistent(Handled(e, newId, topic, cmd, content, now))
  {
    var v := Verb(topic);
    var h := Handled(e, newId, topic, cmd, content, now);
    if v == Some("edit") {
      EditedConsistent(e, newId, cmd, now);
      assert h == Edited(e, newId, cmd, now);
    } else if v == Some("reload") {
      ReloadedConsistent(e, newId, cmd.fileName, now);
      assert h == Reloaded(e, newId, cmd.fileName, now);
    } else if v == Some("validate") {
      ValidateReportsParse(e, cmd.fileName, content);
      assert h.files == e.files;
    } else {
      assert h == e;
    }
  }

  lemma UnlinkedConsistent(e: Engine, f: string)
    requires Consistent(e)
    ensures Consistent(Unlinked(e, f))
  {
    RemoveFilesWellKeyed(e.files, f);
  }

  // ---------------------------------------------------------------------------
  // loadUCIFile

  /** The entry a successful load installs: the keyed sections with the text
      and mtime read. */
  function LoadedEntry(e: Engine, newId: nat -> string, f: string): FileData
    requires f in e.disk.files && Parsed(e.disk.files[f].content).Ok?
  {
    FileData(Keyed(Parsed(e.disk.files[f].content).value, e.minted, newId).sections, e.disk.files[f].mtime, e.disk.files[f].content)
  }

  /** A successful parse replaces the file's entry wholesale by the keyed
      sections with the text and mtime read; other files and the disk are
      untouched, since this engine never writes back on load. */
  lemma LoadReplacesEntry(e: Engine, newId: nat -> string, f: string)
    requires f in e.disk.files && Parsed(e.disk.files[f].content).Ok?
    ensures Loaded(e, newId, f).error.None?
    ensures Get(Loaded(e, newId, f).state.files, f) == Some(LoadedEntry(e, newId, f))
    ensures forall g :: g != f ==> Get(Loaded(e, newId, f).state.files, g) == Get(e.files, g)
    ensures Loaded(e, newId, f).state.disk == e.disk
  {
    PutSpec(e.files, f, LoadedEntry(e, newId, f));
    var e1 := e.(files := Put(e.files, f, LoadedEntry(e, newId, f)), minted := Keyed(Parsed(e.disk.files[f].content).value, e.minted, newId).minted);
    assert Loaded(e, newId, f).state.files == e1.files;
  }

  /** With a client, a successful load publishes every section's values in
      the file's order, then the `loaded` status; without one, nothing. */
  lemma LoadPublishes(e: Engine, newId: nat -> string, f: string)
    requires f in e.disk.files && Parsed(e.disk.files[f].content).Ok?
    ensures Loaded(e, newId, f).state.bus == e.bus + if !e.connected then [] else
      ValuesMessages(f, LoadedEntry(e, newId, f)) +
      [Message(StatusTopic, PlainStatus(f, "loaded", "UCI file loaded successfully"), false)]
  {
    var fd := LoadedEntry(e, newId, f);
    var e1 := e.(files := Put(e.files, f, fd), minted := Keyed(Parsed(e.disk.files[f].content).value, e.minted, newId).minted);
    assert Loaded(e, newId, f).state == if e.connected then Published(e1, f) else e1;
    GetPut(e.files, f, fd, f);
  }

  /** A load that cannot read or parse the file throws and changes nothing. */
  lemma LoadFailureChangesNothing(e: Engine, newId: nat -> string, f: string)
    requires f !in e.disk.files || Parsed(e.disk.files[f].content).Err?
    ensures Loaded(e, newId, f).state == e
    ensures Loaded(e, newId, f).error ==
      Some(if f !in e.disk.files then ReadFailed(f) else ParseFailed(Parsed(e.disk.files[f].content).error))
  {
  }

  // ---------------------------------------------------------------------------
  // saveUCIFile

  /** `saveUCIFile` succeeds exactly when the file is loaded, its backup copy
      (taken only when it exists on disk) works and the disk accepts the write.
      Then the disk holds the serialisation of the entry's sections, the entry
      holds that same text and the time, and a copy of the old text was kept.
      It never publishes and never touches another entry. */
  lemma SaveWritesSerialisation(e: Engine, f: string, now: nat)
    ensures Saved(e, f, now).error.None? <==>
      Get(e.files, f).Some? && !(f in e.disk.files && e.disk.backupsFail) && f !in e.disk.readOnly
    ensures Saved(e, f, now).state.bus == e.bus
    ensures forall g :: g != f ==> Get(Saved(e, f, now).state.files, g) == Get(e.files, g)
    ensures Saved(e, f, now).error.None? ==>
      Get(Saved(e, f, now).state.files, f).Some? &&
      Get(Saved(e, f, now).state.files, f).value.sections == Get(e.files, f).value.sections &&
      f in Saved(e, f, now).state.disk.files &&
      Saved(e, f, now).state.disk.files[f] == DiskFile(SerializedText(DataOf(Get(e.files, f).value.sections)), now) &&
      Get(Saved(e, f, now).state.files, f).value.content == Saved(e, f, now).state.disk.files[f].content &&
      Get(Saved(e, f, now).state.files, f).value.lastModified == now &&
      Saved(e, f, now).state.disk.backups == e.disk.backups + if f in e.disk.files then [BackupCopy(f, now, e.disk.files[f].content)] else []
    ensures Saved(e, f, now).error.Some? ==> Saved(e, f, now).state.files == e.files && Saved(e, f, now).state.disk.files == e.disk.files
  {
    if Get(e.files, f).Some? {
      var fd := Get(e.files, f).value;
      PutSpec(e.files, f, fd.(content := SerializedText(DataOf(fd.sections)), lastModified := now));
    }
  }

  // ---------------------------------------------------------------------------
  // The edit handlers

  /** The section stored under `uuid` in file `f`, if any. */
  function Lookup(e: Engine, f: string, uuid: Scalar): Option<Section> {
    match Get(e.files, f)
    case None => None
    case Some(fd) => Get(fd.sections, uuid)
  }

  /** The file store after `saveUCIFile`: as it was when the save fails,
      otherwise with the entry's text and time replaced. */
  lemma SavedFiles(e: Engine, f: string, now: nat)
    requires Get(e.files, f).Some?
    ensures Saved(e, f, now).state.files == e.files ||
      Saved(e, f, now).state.files == Put(e.files, f, Get(e.files, f).value.(content := SerializedText(DataOf(Get(e.files, f).value.sections)), lastModified := now))
  {
  }

  /** Saving and announcing an edit leaves the edited sections in memory,
      whether or not the save and the publishes succeed, and every other file
      as it was. */
  lemma CommittedSections(e: Engine, f: string, now: nat, m: Message, status: string, text: string)
    requires Get(e.files, f).Some?
    ensures Get(Committed(e, f, now, m, status, text).state.files, f).Some?
    ensures Get(Committed(e, f, now, m, status, text).state.files, f).value.sections == Get(e.files, f).value.sections
    ensures forall g :: g != f ==> Get(Committed(e, f, now, m, status, text).state.files, g) == Get(e.files, g)
  {
    var fd := Get(e.files, f).value;
    SavedFiles(e, f, now);
    PutSpec(e.files, f, fd.(content := SerializedText(DataOf(fd.sections)), lastModified := now));
    assert Committed(e, f, now, m, status, text).state.files == Saved(e, f, now).state.files;
  }

  /** What `createSection` leaves in memory, whether or not the save and the
      publishes succeed: the file's sections with the new one set under the
      drawn uuid; every other file as it was. */
  lemma CreatedSections(e: Engine, newId: nat -> string, cmd: EditCommand, now: nat)
    requires Get(e.files, cmd.fileName).Some?
    ensures Get(Created(e, newId, cmd, now).state.files, cmd.fileName).Some?
    ensures Get(Created(e, newId, cmd, now).state.files, cmd.fileName).value.sections ==
      Put(Get(e.files, cmd.fileName).value.sections, Str(newId(e.minted)), NewSection(cmd.sectionName, cmd.values, newId(e.minted)))
    ensures forall g :: g != cmd.fileName ==> Get(Created(e, newId, cmd, now).state.files, g) == Get(e.files, g)
  {
    var f := cmd.fileName;
    var fd := Get(e.files, f).value;
    var id := newId(e.minted);
    var fd1 := fd.(sections := Put(fd.sections, Str(id), NewSection(cmd.sectionName, cmd.values, id)));
    PutSpec(e.files, f, fd1);
    CommittedSections(Inserted(e, newId, cmd, fd), f, now, ValuesMessage(f, cmd.sectionName, Str(id), cmd.values),
                      "created", "Section " + id + " created successfully");
  }

  /** `createSection` adds a section under the freshly drawn uuid, typed by the
      command's section name and keyed `<sectionName>_<first eight characters
      of the uuid>`, appended after the others when the uuid is new to the
      file. Other sections and files are untouched. */
  lemma CreateAddsSection(e: Engine, newId: nat -> string, cmd: EditCommand, now: nat)
    requires Get(e.files, cmd.fileName).Some?
    ensures Lookup(Created(e, newId, cmd, now).state, cmd.fileName, Str(newId(e.minted))).Some?
    ensures Lookup(Created(e, newId, cmd, now).state, cmd.fileName, Str(newId(e.minted))).value.data ==
      SectionData(cmd.sectionName, "", cmd.values, None, Some(Str(newId(e.minted))))
    ensures Lookup(Created(e, newId, cmd, now).state, cmd.fileName, Str(newId(e.minted))).value.sectionKey ==
      cmd.sectionName + "_" + Prefix8(newId(e.minted))
    ensures Str(newId(e.minted)) !in Keys(Get(e.files, cmd.fileName).value.sections) ==>
      Get(Created(e, newId, cmd, now).state.files, cmd.fileName).value.sections ==
      Get(e.files, cmd.fileName).value.sections + [(Str(newId(e.minted)), NewSection(cmd.sectionName, cmd.values, newId(e.minted)))]
    ensures forall u :: u != Str(newId(e.minted)) ==> Lookup(Created(e, newId, cmd, now).state, cmd.fileName, u) == Lookup(e, cmd.fileName, u)
  {
    var fd := Get(e.files, cmd.fileName).value;
    var id := newId(e.minted);
    CreatedSections(e, newId, cmd, now);
    PutSpec(fd.sections, Str(id), NewSection(cmd.sectionName, cmd.values, id));
    if Str(id) !in Keys(fd.sections) {
      PutFresh(fd.sections, Str(id), NewSection(cmd.sectionName, cmd.values, id));
    }
  }

  /** When the file is loaded, its backup works and the disk accepts the write,
      an edit with a client connected publishes its message, then its status. */
  lemma CommittedAnnounces(e: Engine, f: string, now: nat, m: Message, status: string, text: string)
    requires Get(e.files, f).Some? && e.connected
    requires !(f in e.disk.files && e.disk.backupsFail) && f !in e.disk.readOnly
    ensures Committed(e, f, now, m, status, text).error.None?
    ensures Committed(e, f, now, m, status, text).state.bus == e.bus + [m, Message(StatusTopic, PlainStatus(f, status, text), false)]
  {
  }

  /** With the file saved and a client connected, `createSection` publishes
      the raw values retained on the section's topic, then a `created` status. */
  lemma CreateAnnounces(e: Engine, newId: nat -> string, cmd: EditCommand, now: nat)
    requires Get(e.files, cmd.fileName).Some? && e.connected
    requires !(cmd.fileName in e.disk.files && e.disk.backupsFail) && cmd.fileName !in e.disk.readOnly
    ensures Created(e, newId, cmd, now).error.None?
    ensures Created(e, newId, cmd, now).state.bus == e.bus +
      [Message(SectionTopic(cmd.fileName, cmd.sectionName, Str(newId(e.minted))), RawValues(cmd.values), true),
       Message(StatusTopic, PlainStatus(cmd.fileName, "created", "Section " + newId(e.minted) + " created successfully"), false)]
  {
    var f := cmd.fileName;
    var fd := Get(e.files, f).value;
    var id := newId(e.minted);
    var fd1 := fd.(sections := Put(fd.sections, Str(id), NewSection(cmd.sectionName, cmd.values, id)));
    PutSpec(e.files, f, fd1);
    CommittedAnnounces(Inserted(e, newId, cmd, fd), f, now, ValuesMessage(f, cmd.sectionName, Str(id), cmd.values),
                       "created", "Section " + id + " created successfully");
  }

  /** What `updateSection` leaves in memory, whether or not the save and the
      publishes succeed: the section's values merged with the command's, set
      back under its uuid; every other file as it was. */
  lemma UpdatedSections(e: Engine, cmd: EditCommand, now: nat)
    requires cmd.uuid.Some? && Lookup(e, cmd.fileName, cmd.uuid.value).Some?
    ensures Get(Updated(e, cmd, now).state.files, cmd.fileName).Some?
    ensures Get(Updated(e, cmd, now).state.files, cmd.fileName).value.sections ==
      Put(Get(e.files, cmd.fileName).value.sections, cmd.uuid.value,
          Lookup(e, cmd.fileName, cmd.uuid.value).value.(data := Lookup(e, cmd.fileName, cmd.uuid.value).value.data.(
            values := Merge(Lookup(e, cmd.fileName, cmd.uuid.value).value.data.values, cmd.values))))
    ensures forall g :: g != cmd.fileName ==> Get(Updated(e, cmd, now).state.files, g) == Get(e.files, g)
  {
    var f := cmd.fileName;
    var uuid := cmd.uuid.value;
    var fd := Get(e.files, f).value;
    var s := Get(fd.sections, uuid).value;
    var s1 := s.(data := s.data.(values := Merge(s.data.values, cmd.values)));
    var fd1 := fd.(sections := Put(fd.sections, uuid, s1));
    PutSpec(e.files, f, fd1);
    CommittedSections(e.(files := Put(e.files, f, fd1)), f, now, ValuesMessage(f, cmd.sectionName, uuid, s1.data.values),
                           "updated", "Section " + Display(uuid) + " updated successfully");
  }

  /** `updateSection` overlays the command's values on the section's: a key the
      command names takes the command's value, every other key keeps its own.
      The rest of the section and every other section are untouched. */
  lemma UpdateOverlaysValues(e: Engine, cmd: EditCommand, now: nat)
    requires cmd.uuid.Some? && Lookup(e, cmd.fileName, cmd.uuid.value).Some? && Distinct(Keys(cmd.values))
    ensures Lookup(Updated(e, cmd, now).state, cmd.fileName, cmd.uuid.value).Some?
    ensures forall k :: Get(Lookup(Updated(e, cmd, now).state, cmd.fileName, cmd.uuid.value).value.data.values, k) ==
                        if k in Keys(cmd.values) then Get(cmd.values, k)
                        else Get(Lookup(e, cmd.fileName, cmd.uuid.value).value.data.values, k)
    ensures Lookup(Updated(e, cmd, now).state, cmd.fileName, cmd.uuid.value).value.(data := Lookup(e, cmd.fileName, cmd.uuid.value).value.data) ==
      Lookup(e, cmd.fileName, cmd.uuid.value).value
    ensures Lookup(Updated(e, cmd, now).state, cmd.fileName, cmd.uuid.value).value.data.(values := Lookup(e, cmd.fileName, cmd.uuid.value).value.data.values) ==
      Lookup(e, cmd.fileName, cmd.uuid.value).value.data
    ensures forall u :: u != cmd.uuid.value ==> Lookup(Updated(e, cmd, now).state, cmd.fileName, u) == Lookup(e, cmd.fileName, u)
  {
    var uuid := cmd.uuid.value;
    var fd := Get(e.files, cmd.fileName).value;
    var s := Get(fd.sections, uuid).value;
    var s1 := s.(data := s.data.(values := Merge(s.data.values, cmd.values)));
    UpdatedSections(e, cmd, now);
    PutSpec(fd.sections, uuid, s1);
    forall k ensures Get(s1.data.values, k) == if k in Keys(cmd.values) then Get(cmd.values, k) else Get(s.data.values, k) {
      GetMerge(s.data.values, cmd.values, k);
    }
  }

  /** `deleteSection` removes exactly the named section, keeping the order of
      the others, whether or not the save and the publishes succeed. */
  lemma DeleteRemovesExactly(e: Engine, cmd: EditCommand, now: nat)
    requires cmd.uuid.Some? && Lookup(e, cmd.fileName, cmd.uuid.value).Some?
    ensures Get(Deleted(e, cmd, now).state.files, cmd.fileName).Some?
    ensures Get(Deleted(e, cmd, now).state.files, cmd.fileName).value.sections ==
      Remove(Get(e.files, cmd.fileName).value.sections, cmd.uuid.value)
    ensures Lookup(Deleted(e, cmd, now).state, cmd.fileName, cmd.uuid.value).None?
    ensures forall u :: u != cmd.uuid.value ==> Lookup(Deleted(e, cmd, now).state, cmd.fileName, u) == Lookup(e, cmd.fileName, u)
    ensures forall g :: g != cmd.fileName ==> Get(Deleted(e, cmd, now).state.files, g) == Get(e.files, g)
  {
    var f := cmd.fileName;
    var uuid := cmd.uuid.value;
    var fd := Get(e.files, f).value;
    var fd1 := fd.(sections := Remove(fd.sections, uuid));
    var e1 := e.(files := Put(e.files, f, fd1));
    forall u ensures Get(fd1.sections, u) == if u == uuid then None else Get(fd.sections, u) {
      GetRemove(fd.sections, uuid, u);
    }
    PutSpec(e.files, f, fd1);
    CommittedSections(e1, f, now, Message(SectionTopic(f, cmd.sectionName, uuid), Tombstone, true),
                           "deleted", "Section " + Display(uuid) + " deleted successfully");
  }

  /** An update or delete naming a file that is not loaded, or a section the
      file does not hold, changes nothing but the bus, where it reports an
      `error` status saying which. */
  lemma MissingTargetReportsError(e: Engine, newId: nat -> string, cmd: EditCommand, now: nat)
    requires cmd.action == "update" || cmd.action == "delete"
    requires cmd.uuid.None? || Lookup(e, cmd.fileName, cmd.uuid.value).None?
    ensures Edited(e, newId, cmd, now) ==
      WithStatus(e, cmd.fileName, "error",
                 if Get(e.files, cmd.fileName).None? then "UCI file " + cmd.fileName + " not found"
                 else "Section " + Shown(cmd.uuid) + " not found in " + cmd.fileName)
  {
  }

  /** Deleting the section a create just added restores the file's section
      set, whatever the disk or the bus did in between. */
  lemma CreateThenDeleteRestores(e: Engine, newId: nat -> string, cmd: EditCommand, now: nat, later: nat)
    requires Get(e.files, cmd.fileName).Some?
    requires Str(newId(e.minted)) !in Keys(Get(e.files, cmd.fileName).value.sections)
    ensures Get(Deleted(Created(e, newId, cmd, now).state, cmd.(uuid := Some(Str(newId(e.minted)))), later).state.files, cmd.fileName).Some?
    ensures Get(Deleted(Created(e, newId, cmd, now).state, cmd.(uuid := Some(Str(newId(e.minted)))), later).state.files, cmd.fileName).value.sections ==
      Get(e.files, cmd.fileName).value.sections
    ensures forall g :: g != cmd.fileName ==>
      Get(Deleted(Created(e, newId, cmd, now).state, cmd.(uuid := Some(Str(newId(e.minted)))), later).state.files, g) == Get(e.files, g)
  {
    var uuid := Str(newId(e.minted));
    var fd := Get(e.files, cmd.fileName).value;
    var s := NewSection(cmd.sectionName, cmd.values, newId(e.minted));
    CreateAddsSection(e, newId, cmd, now);
    CreatedSections(e, newId, cmd, now);
    DeleteRemovesExactly(Created(e, newId, cmd, now).state, cmd.(uuid := Some(uuid)), later);
    RemovePutFresh(fd.sections, uuid, s);
    PutFresh(fd.sections, uuid, s);
  }

  // ---------------------------------------------------------------------------
  // Commands and watcher events

  /** Validation parses `content`, or the empty text when there is none, and
      reports `valid` exactly when that parse succeeds; it changes nothing but
      the bus. */
  lemma ValidateReportsParse(e: Engine, f: string, content: Option<string>)
    ensures Validated(e, f, content).(bus := e.bus) == e
    ensures e.connected ==>
      |Validated(e, f, content).bus| == |e.bus| + 1 &&
      (Validated(e, f, content).bus[|e.bus|].payload.status == "valid" <==> Parsed(ContentOrEmpty(content)).Ok?)
  {
  }

  /** A topic whose second segment is not `edit`, `reload` or `validate` is
      ignored. */
  lemma UnknownVerbIgnored(e: Engine, newId: nat -> string, topic: string, cmd: EditCommand, content: Option<string>, now: nat)
    requires Verb(topic) !in {Some("edit"), Some("reload"), Some("validate")}
    ensures Handled(e, newId, topic, cmd, content, now) == e
  {
  }

  /** `commands/<verb>` reaches the handler the verb names. */
  lemma VerbOfCommandTopic(verb: string)
    requires '/' !in verb
    ensures Verb("commands/" + verb) == Some(verb)
  {
    assert "commands/" + verb == "commands" + ['/'] + verb;
    SplitAround("commands", '/', verb);
    CommandsIsOneSegment();
    SplitNoSep(verb, '/');
  }

  lemma CommandsIsOneSegment()
    ensures Split("commands", '/') == ["commands"]
  {
    SplitNoSep("commands", '/');
  }

  /** A file removed from the directory drops out of memory and nothing else
      changes: the disk, the bus and every other entry stay. */
  lemma UnlinkDropsOnlyEntry(e: Engine, f: string)
    ensures Get(Unlinked(e, f).files, f).None?
    ensures forall g :: g != f ==> Get(Unlinked(e, f).files, g) == Get(e.files, g)
    ensures Unlinked(e, f).(files := e.files) == e
  {
    forall g ensures Get(Unlinked(e, f).files, g) == if g == f then None else Get(e.files, g) {
      GetRemove(e.files, f, g);
    }
  }
}
