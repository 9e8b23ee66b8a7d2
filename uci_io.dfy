/** What the two synchronisation engines share: the sections they keep in
    memory, the configuration directory as a map from file name to text with a
    log of backup copies, the MQTT bus as an append-only list of messages, and
    the errors their handlers throw. */
module UciIo {
  import opened Common
  import opened OrderedMap
  import opened UciParser

  // ---------------------------------------------------------------------------
  // Sections in memory

  /** A stored section: what `parse` produced, with its resolved uuid written
      into `data.uuid`, the key it is known by, and the key `parse` gave it. */
  datatype Section = Section(data: SectionData, sectionKey: string, originalSectionKey: Option<string>)

  /** A loaded file: its sections keyed by uuid, in insertion order. */
  datatype FileData = FileData(sections: seq<(Scalar, Section)>, lastModified: nat, content: string)

  /** Every section sits under the uuid it carries, and no uuid is used twice. */
  predicate WellKeyed(sections: seq<(Scalar, Section)>) {
    Distinct(Keys(sections)) && forall i :: 0 <= i < |sections| ==> sections[i].1.data.uuid == Some(sections[i].0)
  }

  /** `sectionData.uuid` is truthy: the section carries a uuid of its own. */
  predicate HasUuid(d: SectionData) {
    d.uuid.Some? && Truthy(d.uuid.value)
  }

  /** The store of loaded files: file names are distinct and every file's
      sections are well keyed. */
  predicate FilesWellKeyed(files: seq<(string, FileData)>) {
    Distinct(Keys(files)) && forall i :: 0 <= i < |files| ==> WellKeyed(files[i].1.sections)
  }

  /** A file found in a well-keyed store is well keyed. */
  lemma FoundWellKeyed(files: seq<(string, FileData)>, f: string)
    requires FilesWellKeyed(files) && Get(files, f).Some?
    ensures WellKeyed(Get(files, f).value.sections)
  {
    GetIn(files, f);
    var i :| 0 <= i < |files| && files[i] == (f, Get(files, f).value);
  }

  /** Replacing a file's entry by a well-keyed one keeps the store well keyed. */
  lemma PutFilesWellKeyed(files: seq<(string, FileData)>, f: string, fd: FileData)
    requires FilesWellKeyed(files) && WellKeyed(fd.sections)
    ensures FilesWellKeyed(Put(files, f, fd))
  {
    DistinctPut(files, f, fd);
    PutEntries(files, f, fd);
    var fs := Put(files, f, fd);
    forall i | 0 <= i < |fs| ensures WellKeyed(fs[i].1.sections) {
      assert fs[i] in fs;
      if fs[i] != (f, fd) {
        var j :| 0 <= j < |files| && files[j] == fs[i];
      }
    }
  }

  /** Dropping a file's entry keeps the store well keyed. */
  lemma RemoveFilesWellKeyed(files: seq<(string, FileData)>, f: string)
    requires FilesWellKeyed(files)
    ensures FilesWellKeyed(Remove(files, f))
  {
    DistinctRemove(files, f);
    RemoveKeepsOthers(files, f);
    var fs := Remove(files, f);
    forall i | 0 <= i < |fs| ensures WellKeyed(fs[i].1.sections) {
      assert fs[i] in fs;
      var j :| 0 <= j < |files| && files[j] == fs[i];
    }
  }

  /** The map handed to `serialize`: the same keys, the parser's section records. */
  function DataOf(sections: seq<(Scalar, Section)>): (r: seq<(Scalar, SectionData)>)
    ensures |r| == |sections| && forall i :: 0 <= i < |sections| ==> r[i] == (sections[i].0, sections[i].1.data)
  {
    seq(|sections|, i requires 0 <= i < |sections| => (sections[i].0, sections[i].1.data))
  }

  /** `sections.set(uuid, section)` keeps the store well keyed when the section
      carries that uuid. */
  lemma PutWellKeyed(sections: seq<(Scalar, Section)>, uuid: Scalar, s: Section)
    requires WellKeyed(sections) && s.data.uuid == Some(uuid)
    ensures WellKeyed(Put(sections, uuid, s))
  {
    DistinctPut(sections, uuid, s);
    PutEntries(sections, uuid, s);
  }

  /** Every entry after `set` is the new one or an old one. */
  lemma {:induction false} PutEntries<K, V>(m: seq<(K, V)>, k: K, v: V)
    ensures forall e :: e in Put(m, k, v) ==> e == (k, v) || e in m
  {
    if |m| > 0 && m[0].0 != k {
      PutEntries(m[1..], k, v);
    }
  }

  /** `sections.delete(uuid)` keeps the store well keyed. */
  lemma RemoveWellKeyed(sections: seq<(Scalar, Section)>, uuid: Scalar)
    requires WellKeyed(sections)
    ensures WellKeyed(Remove(sections, uuid))
  {
    DistinctRemove(sections, uuid);
    RemoveKeepsOthers(sections, uuid);
    var r := Remove(sections, uuid);
    forall i | 0 <= i < |r| ensures r[i].1.data.uuid == Some(r[i].0) {
      assert r[i] in r;
    }
  }

  // ---------------------------------------------------------------------------
  // The configuration directory

  datatype DiskFile = DiskFile(content: string, mtime: nat)

  /** One copy made by `createBackup`, named after the file and a timestamp. */
  datatype BackupCopy = BackupCopy(fileName: string, stamp: nat, content: string)

  /** The directory of UCI files, the backup directory, the saved uuid
      registry, the files a write would fail on, and whether copying into the
      backup directory fails. */
  datatype Disk = Disk(files: map<string, DiskFile>, backups: seq<BackupCopy>, registry: Option<seq<(string, Scalar)>>,
                       readOnly: set<string>, backupsFail: bool)

  /** `createBackup`: a copy of the file as it is now, when it exists; a failed
      copy is swallowed. */
  function Backup(d: Disk, fileName: string, now: nat): (r: Disk)
    ensures r.files == d.files && r.readOnly == d.readOnly && r.registry == d.registry
    ensures r.backups == if fileName in d.files && !d.backupsFail
      then d.backups + [BackupCopy(fileName, now, d.files[fileName].content)] else d.backups
  {
    if fileName in d.files && !d.backupsFail then
      d.(backups := d.backups + [BackupCopy(fileName, now, d.files[fileName].content)])
    else d
  }

  /** `fs.writeFileSync`: replaces the whole file, or fails and changes nothing. */
  function Store(d: Disk, fileName: string, text: string, now: nat): Disk {
    if fileName in d.readOnly then d else d.(files := d.files[fileName := DiskFile(text, now)])
  }

  // ---------------------------------------------------------------------------
  // The bus

  /** A message payload, as the structured value that is serialised to JSON. */
  datatype Payload =
    | SectionInfo(uuid: Scalar, sectionType: string, sectionName: string, fileName: string,
                  values: seq<(string, Value)>, lastModified: nat)
    | RawValues(values: seq<(string, Value)>)
    | Tombstone
    | Status(fileName: string, status: string, message: string, totalSections: nat)
    | PlainStatus(fileName: string, status: string, message: string)
    | Response(requestId: string, status: string, message: string,
               fileName: string, sectionName: string, subject: Option<Scalar>)

  datatype Message = Message(topic: string, payload: Payload, retain: bool)

  /** `config/<file>/<segment>/<uuid>` */
  function SectionTopic(fileName: string, segment: string, uuid: Scalar): string {
    "config/" + fileName + "/" + segment + "/" + Display(uuid)
  }

  /** `commands/response/<requestId>` */
  function ResponseTopic(requestId: string): string {
    "commands/response/" + requestId
  }

  const StatusTopic: string := "system/status"

  /** A JavaScript value in a template string: `undefined` when absent. */
  function Shown(x: Option<Scalar>): string {
    if x.Some? then Display(x.value) else "undefined"
  }

  // ---------------------------------------------------------------------------
  // Commands and errors

  /** The fields of an edit command that the handlers read. */
  datatype EditCommand = EditCommand(action: string, fileName: string, sectionName: string, uuid: Option<Scalar>,
                                     values: seq<(string, Value)>, requestId: string)

  /** The section a command's `uuid` names in the file's entry, if any. */
  function Target(fd: FileData, uuid: Option<Scalar>): Option<Section> {
    if uuid.Some? then Get(fd.sections, uuid.value) else None
  }

  datatype Error =
    | FileNotFound(fileName: string)
    | NotInMemory(fileName: string)
    | SectionNotFound(uuid: Option<Scalar>, fileName: string)
    | UnknownAction(action: string)
    | ParseFailed(message: string)
    | ReadFailed(fileName: string)
    | WriteFailed(fileName: string)
    | BackupFailed(fileName: string)
    | NotConnected

  /** A handler's end state, and the error it threw, if any. */
  datatype Outcome<S> = Outcome(state: S, error: Option<Error>)

  /** `error.message` */
  function ErrorText(e: Error): string {
    match e
    case FileNotFound(f) => "UCI file " + f + " not found"
    case NotInMemory(f) => "UCI file " + f + " not found in memory"
    case SectionNotFound(u, f) => "Section " + Shown(u) + " not found in " + f
    case UnknownAction(a) => "Unknown edit action: " + a
    case ParseFailed(m) => m
    case ReadFailed(f) => "cannot read " + f
    case WriteFailed(f) => "cannot write " + f
    case BackupFailed(f) => "cannot back up " + f
    case NotConnected => "MQTT client not connected"
  }
}
