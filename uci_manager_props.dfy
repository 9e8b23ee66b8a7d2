/** Properties of the synchronisation engine of `src/uci/uciManager.js`: how
    identities are assigned, what loading a file stores and writes, and what
    each edit command changes, in which order, and what it leaves alone. */
module UciManagerProps {
  import opened Common
  import opened OrderedMap
  import opened UciParser
  import opened UciIo
  import opened UciManager

  // ---------------------------------------------------------------------------
  // Section keys

  /** Position of the first `:`, or the length when there is none. */
  function FirstColon(s: string): (n: nat)
    ensures n <= |s|
  {
    if |s| == 0 || s[0] == ':' then 0 else 1 + FirstColon(s[1..])
  }

  lemma {:induction false} FirstColonAfter(a: string, x: string)
    requires ':' !in a
    ensures FirstColon(a + ":" + x) == |a|
  {
    if |a| > 0 {
      assert (a + ":" + x)[1..] == a[1..] + ":" + x;
      FirstColonAfter(a[1..], x);
    }
  }

  /** A colon-free prefix ending at the first `:` is determined by the text. */
  lemma ColonSplit(a: string, x: string, b: string, y: string)
    requires ':' !in a && ':' !in b && a + ":" + x == b + ":" + y
    ensures a == b && x == y
  {
    FirstColonAfter(a, x);
    FirstColonAfter(b, y);
    assert a == (a + ":" + x)[..|a|];
    assert b == (b + ":" + y)[..|b|];
    assert x == (a + ":" + x)[|a| + 1..];
    assert y == (b + ":" + y)[|b| + 1..];
  }

  /** What follows `file:type:` in a section key. */
  function KeyTail(sectionType: string, sectionName: string, lineNumber: Option<nat>): string {
    if sectionName != "" && sectionName != sectionType then sectionName else "line" + LineText(lineNumber)
  }

  lemma KeyShape(f: string, t: string, n: string, l: Option<nat>)
    ensures SectionKey(f, t, n, l) == f + ":" + (t + ":" + KeyTail(t, n, l))
  {
    if n != "" && n != t {
      assert f + ":" + t + ":" + n == f + ":" + (t + ":" + n);
    } else {
      assert f + ":" + t + ":line" + LineText(l) == f + ":" + (t + ":" + ("line" + LineText(l)));
    }
  }

  /** Sections of different files, or of different types, never share a key
      as long as file names and types contain no `:`. */
  lemma SectionKeysSeparateFilesAndTypes(f1: string, t1: string, n1: string, l1: Option<nat>,
                                         f2: string, t2: string, n2: string, l2: Option<nat>)
    requires ':' !in f1 && ':' !in f2 && ':' !in t1 && ':' !in t2
    requires SectionKey(f1, t1, n1, l1) == SectionKey(f2, t2, n2, l2)
    ensures f1 == f2 && t1 == t2
  {
    KeyShape(f1, t1, n1, l1);
    KeyShape(f2, t2, n2, l2);
    ColonSplit(f1, t1 + ":" + KeyTail(t1, n1, l1), f2, t2 + ":" + KeyTail(t2, n2, l2));
    ColonSplit(t1, KeyTail(t1, n1, l1), t2, KeyTail(t2, n2, l2));
  }

  /** Two sections that take the `line<N>` branch in the same file and type
      get the same key exactly when their line numbers agree. */
  lemma UnnamedKeysFollowLines(f: string, t: string, n1: string, n2: string, l1: nat, l2: nat)
    requires (n1 == "" || n1 == t) && (n2 == "" || n2 == t)
    ensures SectionKey(f, t, n1, Some(l1)) == SectionKey(f, t, n2, Some(l2)) <==> l1 == l2
  {
    var p := f + ":" + t + ":line";
    if SectionKey(f, t, n1, Some(l1)) == SectionKey(f, t, n2, Some(l2)) {
      assert NatToString(l1) == (p + NatToString(l1))[|p|..];
      assert NatToString(l2) == (p + NatToString(l2))[|p|..];
      NatToStringInjective(l1, l2);
    }
  }

  /** `parse` names an anonymous section `type_i`, which is never its type, so
      `generateSectionKey` keys it by that name and not by its line. */
  lemma AnonymousSectionKeyedByName(f: string, t: string, i: nat, l: Option<nat>)
    ensures SectionKey(f, t, HeaderKey(t, None, i), l) == f + ":" + t + ":" + t + "_" + NatToString(i)
  {
    assert |HeaderKey(t, None, i)| > |t|;
  }

  // ---------------------------------------------------------------------------
  // getOrCreateUUID

  /** Afterwards the registry maps the key to the returned uuid and no other
      key changes. */
  lemma AssignRecords(mapping: seq<(string, Scalar)>, minted: nat, key: string, existing: Option<Scalar>, newId: nat -> string)
    ensures Get(Assign(mapping, minted, key, existing, newId).mapping, key) == Some(Assign(mapping, minted, key, existing, newId).uuid)
    ensures forall k :: k != key ==> Get(Assign(mapping, minted, key, existing, newId).mapping, k) == Get(mapping, k)
    ensures Distinct(Keys(mapping)) ==> Distinct(Keys(Assign(mapping, minted, key, existing, newId).mapping))
  {
    if existing.Some? && Truthy(existing.value) {
      PutSpec(mapping, key, existing.value);
    } else if Get(mapping, key).None? {
      PutSpec(mapping, key, Str(newId(minted)));
    }
  }

  /** Which uuid is returned: the embedded one, else the registered one with
      nothing changed, else the next fresh id. */
  lemma AssignChoice(mapping: seq<(string, Scalar)>, minted: nat, key: string, existing: Option<Scalar>, newId: nat -> string)
    ensures existing.Some? && Truthy(existing.value) ==>
      Assign(mapping, minted, key, existing, newId).uuid == existing.value && Assign(mapping, minted, key, existing, newId).minted == minted
    ensures !(existing.Some? && Truthy(existing.value)) && Get(mapping, key).Some? ==>
      Assign(mapping, minted, key, existing, newId) == Assigned(Get(mapping, key).value, mapping, minted)
    ensures !(existing.Some? && Truthy(existing.value)) && Get(mapping, key).None? ==>
      Assign(mapping, minted, key, existing, newId).uuid == Str(newId(minted)) && Assign(mapping, minted, key, existing, newId).minted == minted + 1
  {
  }

  // ---------------------------------------------------------------------------
  // The loop of loadUCIFile

  /** The sections are keyed by the uuid they carry, at most one per parsed
      section, and the registry keeps distinct keys. */
  lemma {:induction false} ResolveWellKeyed(f: string, es: seq<(string, SectionData)>, m: seq<(string, Scalar)>, n: nat, newId: nat -> string)
    requires Distinct(Keys(m))
    ensures WellKeyed(Resolve(f, es, m, n, newId).sections)
    ensures Distinct(Keys(Resolve(f, es, m, n, newId).mapping))
    ensures |Resolve(f, es, m, n, newId).sections| <= |es|
    ensures n <= Resolve(f, es, m, n, newId).minted <= n + |es|
  {
    if |es| > 0 {
      var p := es[..|es| - 1];
      ResolveWellKeyed(f, p, m, n, newId);
      var r := Resolve(f, p, m, n, newId);
      var d := es[|es| - 1].1;
      var key := SectionKey(f, d.sectionType, d.sectionName, d.lineNumber);
      var a := Assign(r.mapping, r.minted, key, d.uuid, newId);
      AssignRecords(r.mapping, r.minted, key, d.uuid, newId);
      PutWellKeyed(r.sections, a.uuid, Section(d.(uuid := Some(a.uuid)), key, Some(es[|es| - 1].0)));
    }
  }

  /** The file needs rewriting exactly when some parsed section lacks a uuid. */
  lemma {:induction false} ResolveModified(f: string, es: seq<(string, SectionData)>, m: seq<(string, Scalar)>, n: nat, newId: nat -> string)
    ensures Resolve(f, es, m, n, newId).modified <==> exists j :: 0 <= j < |es| && !HasUuid(es[j].1)
  {
    if |es| > 0 {
      var p := es[..|es| - 1];
      ResolveModified(f, p, m, n, newId);
      var last := es[|es| - 1].1;
      assert Resolve(f, es, m, n, newId).modified == (Resolve(f, p, m, n, newId).modified || !HasUuid(last));
      if !HasUuid(last) {
        assert !HasUuid(es[|es| - 1].1);
      } else if exists j :: 0 <= j < |es| && !HasUuid(es[j].1) {
        var j :| 0 <= j < |es| && !HasUuid(es[j].1);
        assert p[j] == es[j];
      }
    }
  }

  /** Every uuid embedded in `es` is a key of `sections`. */
  predicate Covers(es: seq<(string, SectionData)>, sections: seq<(Scalar, Section)>) {
    forall j :: 0 <= j < |es| && HasUuid(es[j].1) ==> es[j].1.uuid.value in Keys(sections)
  }

  lemma CoversStep(p: seq<(string, SectionData)>, last: (string, SectionData), sections: seq<(Scalar, Section)>, u: Scalar, sec: Section)
    requires Covers(p, sections) && (HasUuid(last.1) ==> last.1.uuid.value == u)
    ensures Covers(p + [last], Put(sections, u, sec))
  {
    KeysPut(sections, u, sec);
    var es := p + [last];
    forall j | 0 <= j < |es| && HasUuid(es[j].1) ensures es[j].1.uuid.value in Keys(Put(sections, u, sec)) {
      if j < |p| {
        assert es[j] == p[j];
      }
    }
  }

  /** Every uuid embedded in the file ends up as a key of the stored sections. */
  lemma {:induction false} ResolveKeepsEmbedded(f: string, es: seq<(string, SectionData)>, m: seq<(string, Scalar)>, n: nat, newId: nat -> string)
    ensures Covers(es, Resolve(f, es, m, n, newId).sections)
  {
    if |es| > 0 {
      var p := es[..|es| - 1];
      ResolveKeepsEmbedded(f, p, m, n, newId);
      var r := Resolve(f, p, m, n, newId);
      var d := es[|es| - 1].1;
      var key := SectionKey(f, d.sectionType, d.sectionName, d.lineNumber);
      AssignChoice(r.mapping, r.minted, key, d.uuid, newId);
      var a := Assign(r.mapping, r.minted, key, d.uuid, newId);
      LastSplit(es);
      CoversStep(p, es[|es| - 1], r.sections, a.uuid, Section(d.(uuid := Some(a.uuid)), key, Some(es[|es| - 1].0)));
    }
  }

  /** `sections` holds the parsed sections of `es` in order, each under the
      uuid it carries. */
  predicate StoredAsParsed(es: seq<(string, SectionData)>, sections: seq<(Scalar, Section)>) {
    |sections| == |es| && forall j :: 0 <= j < |es| ==> es[j].1.uuid == Some(sections[j].0) && sections[j].1.data == es[j].1
  }

  lemma StoredStep(p: seq<(string, SectionData)>, last: (string, SectionData), sections: seq<(Scalar, Section)>, u: Scalar, sec: Section)
    requires StoredAsParsed(p, sections) && last.1.uuid == Some(u) && sec.data == last.1
    requires forall j :: 0 <= j < |p| ==> p[j].1.uuid != last.1.uuid
    ensures Put(sections, u, sec) == sections + [(u, sec)]
    ensures StoredAsParsed(p + [last], sections + [(u, sec)])
  {
    assert u !in Keys(sections) by {
      forall j | 0 <= j < |sections| ensures sections[j].0 != u {
        assert p[j].1.uuid == Some(sections[j].0);
      }
    }
    PutFresh(sections, u, sec);
  }

  /** One turn of the loop over a section that carries its uuid: it is set
      under that uuid, unchanged, and no fresh id is drawn. */
  lemma ResolveOneEmbedded(f: string, r: Resolution, entry: (string, SectionData), newId: nat -> string)
    requires HasUuid(entry.1)
    ensures ResolveOne(f, r, entry, newId).sections ==
      Put(r.sections, entry.1.uuid.value,
          Section(entry.1, SectionKey(f, entry.1.sectionType, entry.1.sectionName, entry.1.lineNumber), Some(entry.0)))
    ensures ResolveOne(f, r, entry, newId).minted == r.minted && ResolveOne(f, r, entry, newId).modified == r.modified
  {
    var d := entry.1;
    var key := SectionKey(f, d.sectionType, d.sectionName, d.lineNumber);
    AssignChoice(r.mapping, r.minted, key, d.uuid, newId);
    assert d.(uuid := Some(d.uuid.value)) == d;
  }

  /** A file whose sections all carry distinct uuids is stored exactly as
      parsed, in order, under those uuids, and draws no fresh id. */
  lemma {:induction false} ResolveAllEmbedded(f: string, es: seq<(string, SectionData)>, m: seq<(string, Scalar)>, n: nat, newId: nat -> string)
    requires forall j :: 0 <= j < |es| ==> HasUuid(es[j].1)
    requires forall i, j :: 0 <= i < j < |es| ==> es[i].1.uuid != es[j].1.uuid
    ensures StoredAsParsed(es, Resolve(f, es, m, n, newId).sections)
    ensures !Resolve(f, es, m, n, newId).modified && Resolve(f, es, m, n, newId).minted == n
  {
    if |es| > 0 {
      var p := es[..|es| - 1];
      var last := es[|es| - 1];
      assert forall j :: 0 <= j < |p| ==> p[j] == es[j];
      ResolveAllEmbedded(f, p, m, n, newId);
      var r := Resolve(f, p, m, n, newId);
      var d := last.1;
      ResolveOneEmbedded(f, r, last, newId);
      var sec := Section(d, SectionKey(f, d.sectionType, d.sectionName, d.lineNumber), Some(last.0));
      StoredStep(p, last, r.sections, d.uuid.value, sec);
      LastSplit(es);
    }
  }

  /** Without embedded uuids, a key the registry holds keeps its uuid for the
      rest of the loop. */
  lemma {:induction false} MappingKept(f: string, es: seq<(string, SectionData)>, m: seq<(string, Scalar)>, n: nat, newId: nat -> string,
                                       j: nat, key: string, u: Scalar)
    requires forall i :: 0 <= i < |es| ==> !HasUuid(es[i].1)
    requires j <= |es| && Get(Resolve(f, es[..j], m, n, newId).mapping, key) == Some(u)
    ensures Get(Resolve(f, es, m, n, newId).mapping, key) == Some(u)
    decreases |es|
  {
    if j < |es| {
      var p := es[..|es| - 1];
      assert p[..j] == es[..j];
      assert forall i :: 0 <= i < |p| ==> p[i] == es[i];
      MappingKept(f, p, m, n, newId, j, key, u);
      var r := Resolve(f, p, m, n, newId);
      var d := es[|es| - 1].1;
      var k := SectionKey(f, d.sectionType, d.sectionName, d.lineNumber);
      AssignRecords(r.mapping, r.minted, k, d.uuid, newId);
      AssignChoice(r.mapping, r.minted, k, d.uuid, newId);
    } else {
      assert es[..j] == es;
    }
  }

  lemma {:induction false} ResolveStablePrefix(f: string, es: seq<(string, SectionData)>, m: seq<(string, Scalar)>, n: nat,
                                               newId: nat -> string, i: nat)
    requires forall j :: 0 <= j < |es| ==> !HasUuid(es[j].1)
    requires i <= |es|
    ensures Resolve(f, es[..i], Resolve(f, es, m, n, newId).mapping, Resolve(f, es, m, n, newId).minted, newId)
         == Resolve(f, es[..i], m, n, newId).(mapping := Resolve(f, es, m, n, newId).mapping, minted := Resolve(f, es, m, n, newId).minted)
  {
    if i > 0 {
      ResolveStablePrefix(f, es, m, n, newId, i - 1);
      assert es[..i][..i - 1] == es[..i - 1];
      assert es[..i][i - 1] == es[i - 1];
      var big := Resolve(f, es, m, n, newId);
      var p := Resolve(f, es[..i - 1], m, n, newId);
      var d := es[i - 1].1;
      var key := SectionKey(f, d.sectionType, d.sectionName, d.lineNumber);
      var a := Assign(p.mapping, p.minted, key, d.uuid, newId);
      AssignRecords(p.mapping, p.minted, key, d.uuid, newId);
      MappingKept(f, es, m, n, newId, i, key, a.uuid);
      AssignChoice(big.mapping, big.minted, key, d.uuid, newId);
    }
  }

  /** Reloading a file that carries no uuids, with the registry the first
      load left behind, reproduces exactly the same sections under the same
      uuids and draws no fresh id. */
  lemma ResolveStable(f: string, es: seq<(string, SectionData)>, m: seq<(string, Scalar)>, n: nat, newId: nat -> string)
    requires forall j :: 0 <= j < |es| ==> !HasUuid(es[j].1)
    ensures Resolve(f, es, Resolve(f, es, m, n, newId).mapping, Resolve(f, es, m, n, newId).minted, newId) == Resolve(f, es, m, n, newId)
  {
    ResolveStablePrefix(f, es, m, n, newId, |es|);
    assert es[..|es|] == es;
  }

  // ---------------------------------------------------------------------------
  // The engine's invariant

  /** Replacing a file's entry by a well-keyed one keeps the engine consistent. */
  lemma PutFileConsistent(e: Engine, f: string, fd: FileData)
    requires Consistent(e) && WellKeyed(fd.sections)
    ensures Consistent(e.(files := Put(e.files, f, fd)))
  {
    PutFilesWellKeyed(e.files, f, fd);
  }

  /** Writing a well-keyed entry back keeps the engine consistent, whether or
      not the write fails. */
  lemma CommittedConsistent(e: Engine, f: string, fd: FileData, now: nat)
    requires Consistent(e) && WellKeyed(fd.sections)
    ensures Consistent(Committed(e, f, fd, now).state)
  {
    if f !in e.disk.readOnly {
      PutFileConsistent(e, f, fd.(lastModified := now));
    }
  }

  /** `loadUCIFile` keeps the engine consistent, whatever it throws. */
  lemma LoadedConsistent(e: Engine, cfg: Config, f: string, now: nat)
    requires Consistent(e)
    ensures Consistent(Loaded(e, cfg, f, now).state)
  {
    if f in e.disk.files && Parsed(e.disk.files[f].content).Ok? {
      var file := e.disk.files[f];
      var r := Resolve(f, Parsed(file.content).value, e.mapping, e.minted, cfg.newId);
      ResolveWellKeyed(f, Parsed(file.content).value, e.mapping, e.minted, cfg.newId);
      var e1 := e.(mapping := r.mapping, minted := r.minted);
      assert Consistent(e1);
      assert Loaded(e, cfg, f, now) == Installed(e1, cfg, f, file, r.sections, r.modified, now);
      PutFileConsistent(e1, f, FileData(r.sections, file.mtime, file.content));
      PutFileConsistent(e1, f, FileData(r.sections, now, SerializedText(DataOf(r.sections))));
    }
  }

  /** `loadAllUCIFiles` keeps the engine consistent. */
  lemma {:induction false} LoadedAllConsistent(e: Engine, cfg: Config, names: seq<string>, now: nat)
    requires Consistent(e)
    ensures Consistent(LoadedAll(e, cfg, names, now).state)
    decreases |names|
  {
    if |names| > 0 {
      if names[0] !in e.disk.files || StartsWith(names[0], ".") {
        LoadedAllConsistent(e, cfg, names[1..], now);
      } else {
        LoadedConsistent(e, cfg, names[0], now);
        LoadedAllConsistent(Loaded(e, cfg, names[0], now).state, cfg, names[1..], now);
      }
    }
  }

  /** The memory change of `createSection` keeps the engine consistent. */
  lemma InsertedConsistent(e: Engine, cmd: EditCommand, fd: FileData, uuid: Scalar, s: Section)
    requires Consistent(e) && WellKeyed(fd.sections) && s.data.uuid == Some(uuid)
    ensures Consistent(Inserted(e, cmd, fd, uuid, s))
  {
    PutWellKeyed(fd.sections, uuid, s);
    DistinctPut(e.mapping, s.sectionKey, uuid);
    var e0 := e.(mapping := Put(e.mapping, s.sectionKey, uuid), minted := e.minted + 1);
    assert Consistent(e0);
    PutFileConsistent(e0, cmd.fileName, fd.(sections := Put(fd.sections, uuid, s)));
  }

  /** `createSection` keeps the engine consistent, whatever it throws. */
  lemma CreatedConsistent(e: Engine, cfg: Config, cmd: EditCommand, now: nat)
    requires Consistent(e)
    ensures Consistent(Created(e, cfg, cmd, now).state)
  {
    if Get(e.files, cmd.fileName).Some? {
      var fd := Get(e.files, cmd.fileName).value;
      var uuid := Str(cfg.newId(e.minted));
      var s := NewSection(cmd, uuid, now);
      FoundWellKeyed(e.files, cmd.fileName);
      PutWellKeyed(fd.sections, uuid, s);
      InsertedConsistent(e, cmd, fd, uuid, s);
      var e1 := Inserted(e, cmd, fd, uuid, s);
      CommittedConsistent(e1, cmd.fileName, fd.(sections := Put(fd.sections, uuid, s)), now);
      var c := Committed(e1, cmd.fileName, fd.(sections := Put(fd.sections, uuid, s)), now);
      assert Created(e, cfg, cmd, now) == CreatedIn(e, cmd, fd, uuid, now);
      if c.error.None? {
        var o := Registered(c.state, cmd, uuid, s, now);
        assert o.state.files == c.state.files && o.state.mapping == c.state.mapping;
      }
    }
  }

  /** `updateSection` keeps the engine consistent, whatever it throws. */
  lemma UpdatedConsistent(e: Engine, cmd: EditCommand, now: nat)
    requires Consistent(e)
    ensures Consistent(Updated(e, cmd, now).state)
  {
    if Get(e.files, cmd.fileName).Some? && Target(Get(e.files, cmd.fileName).value, cmd.uuid).Some? {
      var fd := Get(e.files, cmd.fileName).value;
      var s := Target(fd, cmd.uuid).value;
      var uuid := cmd.uuid.value;
      FoundWellKeyed(e.files, cmd.fileName);
      GetIn(fd.sections, uuid);
      var i :| 0 <= i < |fd.sections| && fd.sections[i] == (uuid, s);
      var s1 := s.(data := s.data.(values := Merge(s.data.values, cmd.values)));
      PutWellKeyed(fd.sections, uuid, s1);
      var fd1 := fd.(sections := Put(fd.sections, uuid, s1));
      var e1 := e.(files := Put(e.files, cmd.fileName, fd1));
      PutFileConsistent(e, cmd.fileName, fd1);
      CommittedConsistent(e1, cmd.fileName, fd1, now);
      var c := Committed(e1, cmd.fileName, fd1, now);
      if c.error.None? {
        var o := Announced(c.state, SectionMessage(cmd.fileName, cmd.sectionName, uuid, s1.data, now), cmd.fileName,
                           "section_updated", "Section " + Display(uuid) + " updated successfully", cmd.requestId,
                           "Section updated successfully", cmd.sectionName, uuid);
        assert o.state.files == c.state.files && o.state.mapping == c.state.mapping;
        assert Updated(e, cmd, now) == o;
      } else {
        assert Updated(e, cmd, now) == c;
      }
    }
  }

  /** `deleteSection` keeps the engine consistent, whatever it throws. */
  lemma DeletedConsistent(e: Engine, cmd: EditCommand, now: nat)
    requires Consistent(e)
    ensures Consistent(Deleted(e, cmd, now).state)
  {
    if Get(e.files, cmd.fileName).Some? && Target(Get(e.files, cmd.fileName).value, cmd.uuid).Some? {
      var fd := Get(e.files, cmd.fileName).value;
      var uuid := cmd.uuid.value;
      FoundWellKeyed(e.files, cmd.fileName);
      RemoveWellKeyed(fd.sections, uuid);
      var fd1 := fd.(sections := Remove(fd.sections, uuid));
      var e1 := e.(files := Put(e.files, cmd.fileName, fd1));
      PutFileConsistent(e, cmd.fileName, fd1);
      CommittedConsistent(e1, cmd.fileName, fd1, now);
      var c := Committed(e1, cmd.fileName, fd1, now);
      if c.error.None? {
        var o := Announced(c.state, Message(SectionTopic(cmd.fileName, cmd.sectionName, uuid), Tombstone, true), cmd.fileName,
                           "section_deleted", "Section " + Display(uuid) + " deleted successfully", cmd.requestId,
                           "Section deleted successfully", cmd.sectionName, uuid);
        assert o.state.files == c.state.files && o.state.mapping == c.state.mapping;
        assert Deleted(e, cmd, now) == o;
      } else {
        assert Deleted(e, cmd, now) == c;
      }
    }
  }

  /** Every edit command leaves the engine consistent. */
  lemma EditedConsistent(e: Engine, cfg: Config, cmd: EditCommand, now: nat)
    requires Consistent(e)
    ensures Consistent(Edited(e, cfg, cmd, now))
  {
    CreatedConsistent(e, cfg, cmd, now);
    UpdatedConsistent(e, cmd, now);
    DeletedConsistent(e, cmd, now);
  }

  /** A reload leaves the engine consistent. */
  lemma ReloadedConsistent(e: Engine, cfg: Config, f: string, now: nat)
    requires Consistent(e)
    ensures Consistent(Reloaded(e, cfg, f, now))
  {
    LoadedConsistent(e, cfg, f, now);
  }

  // ---------------------------------------------------------------------------
  // Writing back and loading

  /** The section stored under `uuid` in file `f`, if any. */
  function Lookup(e: Engine, f: string, uuid: Scalar): Option<Section> {
    match Get(e.files, f)
    case None => None
    case Some(fd) => Get(fd.sections, uuid)
  }

  /** What `writeUCIFile` does to the engine: whether or not the write
      succeeds, a timestamped copy of the file as it was is taken first when
      it exists and backups work; on success the disk holds the serialisation
      of the entry's sections and the entry its new timestamp; on failure
      only that backup is left. The registry, the bus and other files are
      never touched. */
  lemma CommittedEffect(e: Engine, f: string, fd: FileData, now: nat)
    ensures Committed(e, f, fd, now).state.disk.backups ==
      if f in e.disk.files && !e.disk.backupsFail then e.disk.backups + [BackupCopy(f, now, e.disk.files[f].content)]
      else e.disk.backups
    ensures Committed(e, f, fd, now).state.mapping == e.mapping && Committed(e, f, fd, now).state.bus == e.bus
    ensures Committed(e, f, fd, now).state.connected == e.connected && Committed(e, f, fd, now).state.disk.registry == e.disk.registry
    ensures Committed(e, f, fd, now).error.Some? <==> f in e.disk.readOnly
    ensures f in e.disk.readOnly ==> (Committed(e, f, fd, now).state.files == e.files &&
      Committed(e, f, fd, now).state.disk.files == e.disk.files && Committed(e, f, fd, now).error == Some(WriteFailed(f)))
    ensures f !in e.disk.readOnly ==>
      Committed(e, f, fd, now).state.disk.files == e.disk.files[f := DiskFile(SerializedText(DataOf(fd.sections)), now)]
  {
    CommittedFiles(e, f, fd, now);
  }

  /** The file store after `writeUCIFile`: the entry gets its new timestamp
      when the write succeeds, and no other entry changes. */
  lemma CommittedFiles(e: Engine, f: string, fd: FileData, now: nat)
    ensures f !in e.disk.readOnly ==> Get(Committed(e, f, fd, now).state.files, f) == Some(fd.(lastModified := now))
    ensures forall g :: g != f ==> Get(Committed(e, f, fd, now).state.files, g) == Get(e.files, g)
  {
    PutSpec(e.files, f, fd.(lastModified := now));
  }

  /** The entry `Installed` leaves: the resolved sections, with the text and
      time read, or the written ones when the uuids went back to disk. */
  lemma InstalledEntry(e: Engine, cfg: Config, f: string, file: DiskFile, sections: seq<(Scalar, Section)>,
                       modified: bool, now: nat)
    ensures Get(Installed(e, cfg, f, file, sections, modified, now).state.files, f).Some?
    ensures Get(Installed(e, cfg, f, file, sections, modified, now).state.files, f).value.sections == sections
    ensures forall g :: g != f ==> Get(Installed(e, cfg, f, file, sections, modified, now).state.files, g) == Get(e.files, g)
    ensures Installed(e, cfg, f, file, sections, modified, now).state.(files := e.files, disk := e.disk) == e
  {
    PutSpec(e.files, f, FileData(sections, file.mtime, file.content));
    PutSpec(e.files, f, FileData(sections, now, SerializedText(DataOf(sections))));
  }

  /** A successful parse replaces the file's entry wholesale by the resolved
      sections and the registry by the resolved one; other files, the bus and
      the connection are untouched. */
  lemma LoadReplacesEntry(e: Engine, cfg: Config, f: string, now: nat)
    requires f in e.disk.files && Parsed(e.disk.files[f].content).Ok?
    ensures Get(Loaded(e, cfg, f, now).state.files, f).Some?
    ensures Get(Loaded(e, cfg, f, now).state.files, f).value.sections
         == Resolve(f, Parsed(e.disk.files[f].content).value, e.mapping, e.minted, cfg.newId).sections
    ensures forall g :: g != f ==> Get(Loaded(e, cfg, f, now).state.files, g) == Get(e.files, g)
    ensures Loaded(e, cfg, f, now).state.mapping == Resolve(f, Parsed(e.disk.files[f].content).value, e.mapping, e.minted, cfg.newId).mapping
    ensures Loaded(e, cfg, f, now).state.bus == e.bus && Loaded(e, cfg, f, now).state.connected == e.connected
  {
    var file := e.disk.files[f];
    var r := Resolve(f, Parsed(file.content).value, e.mapping, e.minted, cfg.newId);
    var e1 := e.(mapping := r.mapping, minted := r.minted);
    assert Loaded(e, cfg, f, now) == Installed(e1, cfg, f, file, r.sections, r.modified, now);
    InstalledEntry(e1, cfg, f, file, r.sections, r.modified, now);
  }

  /** A load that cannot read or parse the file throws and changes nothing. */
  lemma LoadFailureChangesNothing(e: Engine, cfg: Config, f: string, now: nat)
    requires f !in e.disk.files || Parsed(e.disk.files[f].content).Err?
    ensures Loaded(e, cfg, f, now).state == e
    ensures Loaded(e, cfg, f, now).error ==
      Some(if f !in e.disk.files then ReadFailed(f) else ParseFailed(Parsed(e.disk.files[f].content).error))
  {
  }

  /** The disk changes only when the configuration asks for it and some parsed
      section lacked a uuid. */
  lemma LoadWritesOnlyWhenNeeded(e: Engine, cfg: Config, f: string, now: nat)
    requires Loaded(e, cfg, f, now).state.disk != e.disk
    ensures f in e.disk.files && Parsed(e.disk.files[f].content).Ok? && cfg.writeUuidsToFiles
    ensures exists j :: 0 <= j < |Parsed(e.disk.files[f].content).value| && !HasUuid(Parsed(e.disk.files[f].content).value[j].1)
  {
    var es := Parsed(e.disk.files[f].content).value;
    ResolveModified(f, es, e.mapping, e.minted, cfg.newId);
  }

  /** When it does write, it first backs the file up, then writes the
      serialisation of the whole resolved section set, and the entry's
      `content` and `lastModified` are what was written. */
  lemma LoadWriteBack(e: Engine, cfg: Config, f: string, now: nat, j: nat)
    requires f in e.disk.files && f !in e.disk.readOnly && Parsed(e.disk.files[f].content).Ok? && cfg.writeUuidsToFiles
    requires j < |Parsed(e.disk.files[f].content).value| && !HasUuid(Parsed(e.disk.files[f].content).value[j].1)
    ensures Loaded(e, cfg, f, now).error.None?
    ensures f in Loaded(e, cfg, f, now).state.disk.files && Get(Loaded(e, cfg, f, now).state.files, f).Some?
    ensures Loaded(e, cfg, f, now).state.disk.files[f] ==
      DiskFile(SerializedText(DataOf(Get(Loaded(e, cfg, f, now).state.files, f).value.sections)), now)
    ensures Get(Loaded(e, cfg, f, now).state.files, f).value.content == Loaded(e, cfg, f, now).state.disk.files[f].content
    ensures Get(Loaded(e, cfg, f, now).state.files, f).value.lastModified == now
    ensures Loaded(e, cfg, f, now).state.disk.backups ==
      e.disk.backups + if e.disk.backupsFail then [] else [BackupCopy(f, now, e.disk.files[f].content)]
  {
    var file := e.disk.files[f];
    var es := Parsed(file.content).value;
    ResolveModified(f, es, e.mapping, e.minted, cfg.newId);
    var r := Resolve(f, es, e.mapping, e.minted, cfg.newId);
    var e1 := e.(mapping := r.mapping, minted := r.minted);
    assert Loaded(e, cfg, f, now) == Installed(e1, cfg, f, file, r.sections, r.modified, now);
    PutSpec(e.files, f, FileData(r.sections, now, SerializedText(DataOf(r.sections))));
  }

  /** Reloading a file whose sections carry no uuid, with write-back off,
      reaches the state the first load reached: every section keeps its uuid
      and no fresh id is drawn. */
  lemma ReloadKeepsUuids(e: Engine, cfg: Config, f: string, now: nat)
    requires f in e.disk.files && Parsed(e.disk.files[f].content).Ok? && !cfg.writeUuidsToFiles
    requires forall j :: 0 <= j < |Parsed(e.disk.files[f].content).value| ==> !HasUuid(Parsed(e.disk.files[f].content).value[j].1)
    ensures Loaded(Loaded(e, cfg, f, now).state, cfg, f, now).state == Loaded(e, cfg, f, now).state
  {
    var file := e.disk.files[f];
    var es := Parsed(file.content).value;
    var r := Resolve(f, es, e.mapping, e.minted, cfg.newId);
    ResolveStable(f, es, e.mapping, e.minted, cfg.newId);
    var fd := FileData(r.sections, file.mtime, file.content);
    var e1 := e.(mapping := r.mapping, minted := r.minted, files := Put(e.files, f, fd));
    assert Loaded(e, cfg, f, now).state == e1;
    PutPut(e.files, f, fd, fd);
  }

  // ---------------------------------------------------------------------------
  // The edit handlers

  /** `updateSection` overlays the command's values on the section's: a key the
      command names takes the command's value, every other key keeps its own.
      The section's type, name and uuid stay, every other section and every
      other file is untouched; memory keeps the change even when the write
      fails. */
  lemma UpdateOverlaysValues(e: Engine, cmd: EditCommand, now: nat)
    requires cmd.uuid.Some? && Lookup(e, cmd.fileName, cmd.uuid.value).Some? && Distinct(Keys(cmd.values))
    ensures Lookup(Updated(e, cmd, now).state, cmd.fileName, cmd.uuid.value).Some?
    ensures forall k :: Get(Lookup(Updated(e, cmd, now).state, cmd.fileName, cmd.uuid.value).value.data.values, k) ==
                        if k in Keys(cmd.values) then Get(cmd.values, k)
                        else Get(Lookup(e, cmd.fileName, cmd.uuid.value).value.data.values, k)
    ensures Lookup(Updated(e, cmd, now).state, cmd.fileName, cmd.uuid.value).value.(data := Lookup(e, cmd.fileName, cmd.uuid.value).value.data) ==
      Lookup(e, cmd.fileName, cmd.uuid.value).value
    ensures Lookup(Updated(e, cmd, now).state, cmd.fileName, cmd.uuid.value).value.data.(values := Lookup(e, cmd.fileName, cmd.uuid.value).value.data.values) ==
      Lookup(e, cmd.fileName, cmd.uuid.value).value.data
    ensures forall u :: u != cmd.uuid.value ==> Lookup(Updated(e, cmd, now).state, cmd.fileName, u) == Lookup(e, cmd.fileName, u)
    ensures forall g :: g != cmd.fileName ==> Get(Updated(e, cmd, now).state.files, g) == Get(e.files, g)
  {
    var f := cmd.fileName;
    var uuid := cmd.uuid.value;
    var fd := Get(e.files, f).value;
    var s := Get(fd.sections, uuid).value;
    var s1 := s.(data := s.data.(values := Merge(s.data.values, cmd.values)));
    var fd1 := fd.(sections := Put(fd.sections, uuid, s1));
    var e1 := e.(files := Put(e.files, f, fd1));
    PutSpec(fd.sections, uuid, s1);
    PutSpec(e.files, f, fd1);
    CommittedEffect(e1, f, fd1, now);
    CommittedFiles(e1, f, fd1, now);
    var c := Committed(e1, f, fd1, now);
    var o := Announced(c.state, SectionMessage(f, cmd.sectionName, uuid, s1.data, now), f,
                       "section_updated", "Section " + Display(uuid) + " updated successfully", cmd.requestId,
                       "Section updated successfully", cmd.sectionName, uuid);
    assert o.state.files == c.state.files;
    assert Updated(e, cmd, now) == if c.error.Some? then c else o;
    forall k ensures Get(s1.data.values, k) == if k in Keys(cmd.values) then Get(cmd.values, k) else Get(s.data.values, k) {
      GetMerge(s.data.values, cmd.values, k);
    }
  }

  /** `deleteSection` removes exactly the named section, keeping the order of
      the others, whether or not the write and the publishes succeed; other
      files are untouched and the uuid registry keeps the section's key. */
  lemma DeleteRemovesExactly(e: Engine, cmd: EditCommand, now: nat)
    requires cmd.uuid.Some? && Lookup(e, cmd.fileName, cmd.uuid.value).Some?
    ensures Get(Deleted(e, cmd, now).state.files, cmd.fileName).Some?
    ensures Get(Deleted(e, cmd, now).state.files, cmd.fileName).value.sections ==
      Remove(Get(e.files, cmd.fileName).value.sections, cmd.uuid.value)
    ensures Lookup(Deleted(e, cmd, now).state, cmd.fileName, cmd.uuid.value).None?
    ensures forall u :: u != cmd.uuid.value ==> Lookup(Deleted(e, cmd, now).state, cmd.fileName, u) == Lookup(e, cmd.fileName, u)
    ensures forall g :: g != cmd.fileName ==> Get(Deleted(e, cmd, now).state.files, g) == Get(e.files, g)
    ensures Deleted(e, cmd, now).state.mapping == e.mapping
  {
    var f := cmd.fileName;
    var uuid := cmd.uuid.value;
    var fd := Get(e.files, f).value;
    var fd1 := fd.(sections := Remove(fd.sections, uuid));
    var e1 := e.(files := Put(e.files, f, fd1));
    forall u ensures Get(fd1.sections, u) == if u == uuid then None else Get(fd.sections, u) {
      GetRemove(fd.sections, uuid, u);
    }
    PutSpec(e.files, f, fd1);
    CommittedEffect(e1, f, fd1, now);
    CommittedFiles(e1, f, fd1, now);
    var c := Committed(e1, f, fd1, now);
    var o := Announced(c.state, Message(SectionTopic(f, cmd.sectionName, uuid), Tombstone, true), f,
                       "section_deleted", "Section " + Display(uuid) + " deleted successfully", cmd.requestId,
                       "Section deleted successfully", cmd.sectionName, uuid);
    assert o.state.files == c.state.files && o.state.mapping == c.state.mapping;
    assert Deleted(e, cmd, now) == if c.error.Some? then c else o;
  }

  /** With the file writable and a client connected, `updateSection` rewrites
      the file with the merged section in its place and publishes, in order,
      the section's retained message carrying the merged values, a
      `section_updated` status and a success response. */
  lemma UpdateAnnouncesInOrder(e: Engine, cmd: EditCommand, now: nat)
    requires cmd.uuid.Some? && Lookup(e, cmd.fileName, cmd.uuid.value).Some?
    requires e.connected && cmd.fileName !in e.disk.readOnly
    ensures Updated(e, cmd, now).error.None? && cmd.fileName in Updated(e, cmd, now).state.disk.files
    ensures var s := Lookup(e, cmd.fileName, cmd.uuid.value).value;
      Updated(e, cmd, now).state.disk.files[cmd.fileName].content ==
      SerializedText(DataOf(Put(Get(e.files, cmd.fileName).value.sections, cmd.uuid.value,
                                s.(data := s.data.(values := Merge(s.data.values, cmd.values))))))
    ensures |Updated(e, cmd, now).state.bus| == |e.bus| + 3 && Updated(e, cmd, now).state.bus[..|e.bus|] == e.bus
    ensures var s := Lookup(e, cmd.fileName, cmd.uuid.value).value;
      Updated(e, cmd, now).state.bus[|e.bus|] ==
      SectionMessage(cmd.fileName, cmd.sectionName, cmd.uuid.value, s.data.(values := Merge(s.data.values, cmd.values)), now)
    ensures Updated(e, cmd, now).state.bus[|e.bus| + 1].payload.status == "section_updated"
    ensures Updated(e, cmd, now).state.bus[|e.bus| + 2] ==
      Message(ResponseTopic(cmd.requestId), Response(cmd.requestId, "success", "Section updated successfully",
                                                     cmd.fileName, cmd.sectionName, cmd.uuid), false)
  {
    var f := cmd.fileName;
    var uuid := cmd.uuid.value;
    var fd := Get(e.files, f).value;
    var s := Get(fd.sections, uuid).value;
    var s1 := s.(data := s.data.(values := Merge(s.data.values, cmd.values)));
    var fd1 := fd.(sections := Put(fd.sections, uuid, s1));
    var e1 := e.(files := Put(e.files, f, fd1));
    CommittedEffect(e1, f, fd1, now);
    var c := Committed(e1, f, fd1, now);
    assert Updated(e, cmd, now) == Announced(c.state, SectionMessage(f, cmd.sectionName, uuid, s1.data, now), f,
                       "section_updated", "Section " + Display(uuid) + " updated successfully", cmd.requestId,
                       "Section updated successfully", cmd.sectionName, uuid);
  }

  /** With the file writable and a client connected, `deleteSection` rewrites
      the file without the section and publishes, in order, the empty retained
      message that clears the section's topic, a `section_deleted` status and a
      success response. */
  lemma DeleteAnnouncesInOrder(e: Engine, cmd: EditCommand, now: nat)
    requires cmd.uuid.Some? && Lookup(e, cmd.fileName, cmd.uuid.value).Some?
    requires e.connected && cmd.fileName !in e.disk.readOnly
    ensures Deleted(e, cmd, now).error.None? && cmd.fileName in Deleted(e, cmd, now).state.disk.files
    ensures Deleted(e, cmd, now).state.disk.files[cmd.fileName].content ==
      SerializedText(DataOf(Remove(Get(e.files, cmd.fileName).value.sections, cmd.uuid.value)))
    ensures |Deleted(e, cmd, now).state.bus| == |e.bus| + 3 && Deleted(e, cmd, now).state.bus[..|e.bus|] == e.bus
    ensures Deleted(e, cmd, now).state.bus[|e.bus|] == Message(SectionTopic(cmd.fileName, cmd.sectionName, cmd.uuid.value), Tombstone, true)
    ensures Deleted(e, cmd, now).state.bus[|e.bus| + 1].payload.status == "section_deleted"
    ensures Deleted(e, cmd, now).state.bus[|e.bus| + 2] ==
      Message(ResponseTopic(cmd.requestId), Response(cmd.requestId, "success", "Section deleted successfully",
                                                     cmd.fileName, cmd.sectionName, cmd.uuid), false)
  {
    var f := cmd.fileName;
    var uuid := cmd.uuid.value;
    var fd := Get(e.files, f).value;
    var fd1 := fd.(sections := Remove(fd.sections, uuid));
    var e1 := e.(files := Put(e.files, f, fd1));
    CommittedEffect(e1, f, fd1, now);
    var c := Committed(e1, f, fd1, now);
    assert Deleted(e, cmd, now) == Announced(c.state, Message(SectionTopic(f, cmd.sectionName, uuid), Tombstone, true), f,
                       "section_deleted", "Section " + Display(uuid) + " deleted successfully", cmd.requestId,
                       "Section deleted successfully", cmd.sectionName, uuid);
  }

  /** An update or delete naming a file that is not loaded, or a section the
      file does not hold, changes nothing but the bus, where it answers with an
      `error` response saying which. */
  lemma MissingTargetAnswersError(e: Engine, cfg: Config, cmd: EditCommand, now: nat)
    requires cmd.action == "update" || cmd.action == "delete"
    requires cmd.uuid.None? || Lookup(e, cmd.fileName, cmd.uuid.value).None?
    ensures Edited(e, cfg, cmd, now) ==
      WithResponse(e, cmd.requestId, "error",
                   if Get(e.files, cmd.fileName).None? then "UCI file " + cmd.fileName + " not found"
                   else "Section " + Shown(cmd.uuid) + " not found in " + cmd.fileName,
                   cmd.fileName, cmd.sectionName, cmd.uuid)
  {
  }

  /** An action other than create, update and delete is answered with an
      `error` response and changes nothing else. */
  lemma UnknownActionRejected(e: Engine, cfg: Config, cmd: EditCommand, now: nat)
    requires cmd.action != "create" && cmd.action != "update" && cmd.action != "delete"
    ensures Edited(e, cfg, cmd, now) ==
      WithResponse(e, cmd.requestId, "error", "Unknown edit action: " + cmd.action, cmd.fileName, cmd.sectionName, cmd.uuid)
  {
  }

  /** `createSection` once the file's entry is found ends with memory as
      `Inserted` left it, up to the entry's new timestamp when the write
      succeeded. */
  lemma CreatedInFrame(e: Engine, cmd: EditCommand, fd: FileData, uuid: Scalar, now: nat)
    ensures CreatedIn(e, cmd, fd, uuid, now).state.mapping == Inserted(e, cmd, fd, uuid, NewSection(cmd, uuid, now)).mapping
    ensures CreatedIn(e, cmd, fd, uuid, now).state.minted == e.minted + 1
    ensures CreatedIn(e, cmd, fd, uuid, now).state.files == Inserted(e, cmd, fd, uuid, NewSection(cmd, uuid, now)).files ||
            CreatedIn(e, cmd, fd, uuid, now).state.files ==
              Put(Inserted(e, cmd, fd, uuid, NewSection(cmd, uuid, now)).files, cmd.fileName,
                  fd.(sections := Put(fd.sections, uuid, NewSection(cmd, uuid, now)), lastModified := now))
  {
    var f := cmd.fileName;
    var s := NewSection(cmd, uuid, now);
    var fd1 := fd.(sections := Put(fd.sections, uuid, s));
    var e1 := Inserted(e, cmd, fd, uuid, s);
    var c := Committed(e1, f, fd1, now);
    var o := Registered(c.state, cmd, uuid, s, now);
    assert o.state.files == c.state.files && o.state.mapping == c.state.mapping && o.state.minted == c.state.minted;
  }

  /** `createSection` once the file's entry is found: the file's sections gain
      the new one by `set`, its key enters the registry, one id is drawn; this
      holds whether or not the write and the publishes succeed. */
  lemma CreatedInMemory(e: Engine, cmd: EditCommand, fd: FileData, uuid: Scalar, now: nat)
    ensures Get(CreatedIn(e, cmd, fd, uuid, now).state.files, cmd.fileName).Some?
    ensures Get(CreatedIn(e, cmd, fd, uuid, now).state.files, cmd.fileName).value.sections ==
      Put(fd.sections, uuid, NewSection(cmd, uuid, now))
    ensures forall g :: g != cmd.fileName ==> Get(CreatedIn(e, cmd, fd, uuid, now).state.files, g) == Get(e.files, g)
  {
    var s := NewSection(cmd, uuid, now);
    var fd1 := fd.(sections := Put(fd.sections, uuid, s));
    CreatedInFrame(e, cmd, fd, uuid, now);
    PutPut(e.files, cmd.fileName, fd1, fd1.(lastModified := now));
    PutSpec(e.files, cmd.fileName, fd1);
    PutSpec(e.files, cmd.fileName, fd1.(lastModified := now));
  }

  /** What `createSection` leaves in memory, whether or not the write and the
      publishes succeed: the new section under the freshly drawn uuid, appended
      after the others when that uuid is new to the file. */
  lemma CreatedMemory(e: Engine, cfg: Config, cmd: EditCommand, now: nat)
    requires Get(e.files, cmd.fileName).Some?
    ensures Lookup(Created(e, cfg, cmd, now).state, cmd.fileName, Str(cfg.newId(e.minted))) ==
      Some(NewSection(cmd, Str(cfg.newId(e.minted)), now))
    ensures Str(cfg.newId(e.minted)) !in Keys(Get(e.files, cmd.fileName).value.sections) ==>
      Get(Created(e, cfg, cmd, now).state.files, cmd.fileName).value.sections ==
      Get(e.files, cmd.fileName).value.sections + [(Str(cfg.newId(e.minted)), NewSection(cmd, Str(cfg.newId(e.minted)), now))]
  {
    var fd := Get(e.files, cmd.fileName).value;
    var uuid := Str(cfg.newId(e.minted));
    var s := NewSection(cmd, uuid, now);
    assert Created(e, cfg, cmd, now) == CreatedIn(e, cmd, fd, uuid, now);
    CreatedInMemory(e, cmd, fd, uuid, now);
    PutSpec(fd.sections, uuid, s);
    if uuid !in Keys(fd.sections) {
      PutFresh(fd.sections, uuid, s);
    }
  }

  /** ... and what it leaves alone: every other section of the file and every
      other file; the registry gains the new section's key and one id is drawn. */
  lemma CreatedKeepsOthers(e: Engine, cfg: Config, cmd: EditCommand, now: nat)
    requires Get(e.files, cmd.fileName).Some?
    ensures forall u :: u != Str(cfg.newId(e.minted)) ==> Lookup(Created(e, cfg, cmd, now).state, cmd.fileName, u) == Lookup(e, cmd.fileName, u)
    ensures forall g :: g != cmd.fileName ==> Get(Created(e, cfg, cmd, now).state.files, g) == Get(e.files, g)
    ensures Created(e, cfg, cmd, now).state.mapping ==
      Put(e.mapping, NewSection(cmd, Str(cfg.newId(e.minted)), now).sectionKey, Str(cfg.newId(e.minted)))
    ensures Created(e, cfg, cmd, now).state.minted == e.minted + 1
  {
    var fd := Get(e.files, cmd.fileName).value;
    var uuid := Str(cfg.newId(e.minted));
    assert Created(e, cfg, cmd, now) == CreatedIn(e, cmd, fd, uuid, now);
    CreatedInFrame(e, cmd, fd, uuid, now);
    CreatedInMemory(e, cmd, fd, uuid, now);
    PutSpec(fd.sections, uuid, NewSection(cmd, uuid, now));
  }

  /** With the file writable and a client connected, `createSection` writes the
      whole section set, saves the registry, and publishes in order the
      section's retained message, a `section_created` status and a success
      response carrying the new uuid. */
  lemma CreateAnnouncesInOrder(e: Engine, cfg: Config, cmd: EditCommand, now: nat)
    requires Get(e.files, cmd.fileName).Some? && e.connected && cmd.fileName !in e.disk.readOnly
    ensures Created(e, cfg, cmd, now).error.None?
    ensures Get(Created(e, cfg, cmd, now).state.files, cmd.fileName).Some? && cmd.fileName in Created(e, cfg, cmd, now).state.disk.files
    ensures Created(e, cfg, cmd, now).state.disk.files[cmd.fileName].content ==
      SerializedText(DataOf(Get(Created(e, cfg, cmd, now).state.files, cmd.fileName).value.sections))
    ensures Created(e, cfg, cmd, now).state.disk.registry == Some(Created(e, cfg, cmd, now).state.mapping)
    ensures |Created(e, cfg, cmd, now).state.bus| == |e.bus| + 3 && Created(e, cfg, cmd, now).state.bus[..|e.bus|] == e.bus
    ensures Created(e, cfg, cmd, now).state.bus[|e.bus|] ==
      SectionMessage(cmd.fileName, cmd.sectionName, Str(cfg.newId(e.minted)), NewSection(cmd, Str(cfg.newId(e.minted)), now).data, now)
    ensures Created(e, cfg, cmd, now).state.bus[|e.bus| + 1].payload.status == "section_created"
    ensures Created(e, cfg, cmd, now).state.bus[|e.bus| + 2] ==
      Message(ResponseTopic(cmd.requestId), Response(cmd.requestId, "success", "Section created successfully",
                                                     cmd.fileName, cmd.sectionName, Some(Str(cfg.newId(e.minted)))), false)
  {
    var f := cmd.fileName;
    var fd := Get(e.files, f).value;
    var uuid := Str(cfg.newId(e.minted));
    var s := NewSection(cmd, uuid, now);
    var fd1 := fd.(sections := Put(fd.sections, uuid, s));
    var e1 := Inserted(e, cmd, fd, uuid, s);
    CommittedEffect(e1, f, fd1, now);
    CommittedFiles(e1, f, fd1, now);
    var c := Committed(e1, f, fd1, now);
    assert Created(e, cfg, cmd, now) == CreatedIn(e, cmd, fd, uuid, now) == Registered(c.state, cmd, uuid, s, now);
  }

  /** `createSection` on a file the disk refuses: the write throws, the
      disk keeps its text and its registry, and nothing is published. */
  lemma CreateWriteFailure(e: Engine, cfg: Config, cmd: EditCommand, now: nat)
    requires Get(e.files, cmd.fileName).Some? && cmd.fileName in e.disk.readOnly
    ensures Created(e, cfg, cmd, now).error == Some(WriteFailed(cmd.fileName))
    ensures ErrorText(Created(e, cfg, cmd, now).error.value) == "cannot write " + cmd.fileName
    ensures Created(e, cfg, cmd, now).state.disk.files == e.disk.files
    ensures Created(e, cfg, cmd, now).state.disk.registry == e.disk.registry
    ensures Created(e, cfg, cmd, now).state.bus == e.bus && Created(e, cfg, cmd, now).state.connected == e.connected
  {
    var f := cmd.fileName;
    var fd := Get(e.files, f).value;
    var uuid := Str(cfg.newId(e.minted));
    var s := NewSection(cmd, uuid, now);
    var e1 := Inserted(e, cmd, fd, uuid, s);
    CommittedEffect(e1, f, fd.(sections := Put(fd.sections, uuid, s)), now);
    assert Created(e, cfg, cmd, now) == CreatedIn(e, cmd, fd, uuid, now) == Committed(e1, f, fd.(sections := Put(fd.sections, uuid, s)), now);
  }

  /** A create on a file the disk refuses throws after memory has changed:
      the section stays in memory, the disk keeps its text and its registry,
      nothing is published but the `error` response. */
  lemma CreateWriteFailureKeepsMemory(e: Engine, cfg: Config, cmd: EditCommand, now: nat)
    requires cmd.action == "create" && Get(e.files, cmd.fileName).Some? && cmd.fileName in e.disk.readOnly
    ensures Created(e, cfg, cmd, now).error == Some(WriteFailed(cmd.fileName))
    ensures Lookup(Edited(e, cfg, cmd, now), cmd.fileName, Str(cfg.newId(e.minted))) == Some(NewSection(cmd, Str(cfg.newId(e.minted)), now))
    ensures Edited(e, cfg, cmd, now).disk.files == e.disk.files && Edited(e, cfg, cmd, now).disk.registry == e.disk.registry
    ensures Edited(e, cfg, cmd, now).bus == e.bus + if e.connected then
      [Message(ResponseTopic(cmd.requestId), Response(cmd.requestId, "error", "cannot write " + cmd.fileName,
                                                      cmd.fileName, cmd.sectionName, cmd.uuid), false)] else []
  {
    var f := cmd.fileName;
    var c := Created(e, cfg, cmd, now);
    CreateWriteFailure(e, cfg, cmd, now);
    CreatedMemory(e, cfg, cmd, now);
    EditedCreateError(e, cfg, cmd, now);
    var r := WithResponse(c.state, cmd.requestId, "error", "cannot write " + f, f, cmd.sectionName, cmd.uuid);
    assert r.files == c.state.files && r.disk == c.state.disk;
  }

  /** An update or delete of a section the file holds, on a file the disk
      refuses: the write throws after memory changed, the disk keeps its text
      and its registry, and the only message is the `error` response saying
      the file cannot be written. */
  lemma EditWriteFailureAnswersError(e: Engine, cfg: Config, cmd: EditCommand, now: nat)
    requires cmd.action == "update" || cmd.action == "delete"
    requires cmd.uuid.Some? && Lookup(e, cmd.fileName, cmd.uuid.value).Some? && cmd.fileName in e.disk.readOnly
    ensures Edited(e, cfg, cmd, now).disk.files == e.disk.files && Edited(e, cfg, cmd, now).disk.registry == e.disk.registry
    ensures Edited(e, cfg, cmd, now).mapping == e.mapping
    ensures Edited(e, cfg, cmd, now).bus == e.bus + if e.connected then
      [Message(ResponseTopic(cmd.requestId), Response(cmd.requestId, "error", "cannot write " + cmd.fileName,
                                                      cmd.fileName, cmd.sectionName, cmd.uuid), false)] else []
  {
    var f := cmd.fileName;
    var uuid := cmd.uuid.value;
    var fd := Get(e.files, f).value;
    var fd1 := if cmd.action == "update" then
      var s := Get(fd.sections, uuid).value;
      fd.(sections := Put(fd.sections, uuid, s.(data := s.data.(values := Merge(s.data.values, cmd.values)))))
      else fd.(sections := Remove(fd.sections, uuid));
    var e1 := e.(files := Put(e.files, f, fd1));
    CommittedEffect(e1, f, fd1, now);
    var c := Committed(e1, f, fd1, now);
    assert c.error == Some(WriteFailed(f));
    if cmd.action == "update" {
      assert Updated(e, cmd, now) == c;
    } else {
      assert Deleted(e, cmd, now) == c;
    }
    assert Edited(e, cfg, cmd, now) == WithResponse(c.state, cmd.requestId, "error", "cannot write " + f, f, cmd.sectionName, cmd.uuid);
  }

  /** A create that throws is answered with an `error` response on top of
      whatever the create left behind. */
  lemma EditedCreateError(e: Engine, cfg: Config, cmd: EditCommand, now: nat)
    requires cmd.action == "create" && Created(e, cfg, cmd, now).error.Some?
    ensures Edited(e, cfg, cmd, now) ==
      WithResponse(Created(e, cfg, cmd, now).state, cmd.requestId, "error", ErrorText(Created(e, cfg, cmd, now).error.value),
                   cmd.fileName, cmd.sectionName, cmd.uuid)
  {
  }

  /** Deleting the section a create just added restores the file's section
      set, whatever the disk or the bus did in between; the registry keeps
      the created key. */
  lemma CreateThenDeleteRestores(e: Engine, cfg: Config, cmd: EditCommand, now: nat, later: nat)
    requires Get(e.files, cmd.fileName).Some?
    requires Str(cfg.newId(e.minted)) !in Keys(Get(e.files, cmd.fileName).value.sections)
    ensures Get(Deleted(Created(e, cfg, cmd, now).state, cmd.(uuid := Some(Str(cfg.newId(e.minted)))), later).state.files, cmd.fileName).Some?
    ensures Get(Deleted(Created(e, cfg, cmd, now).state, cmd.(uuid := Some(Str(cfg.newId(e.minted)))), later).state.files, cmd.fileName).value.sections ==
      Get(e.files, cmd.fileName).value.sections
    ensures forall g :: g != cmd.fileName ==>
      Get(Deleted(Created(e, cfg, cmd, now).state, cmd.(uuid := Some(Str(cfg.newId(e.minted)))), later).state.files, g) == Get(e.files, g)
    ensures Deleted(Created(e, cfg, cmd, now).state, cmd.(uuid := Some(Str(cfg.newId(e.minted)))), later).state.mapping ==
      Created(e, cfg, cmd, now).state.mapping
  {
    var f := cmd.fileName;
    var uuid := Str(cfg.newId(e.minted));
    var fd := Get(e.files, f).value;
    var c := Created(e, cfg, cmd, now).state;
    var del := cmd.(uuid := Some(uuid));
    CreatedMemory(e, cfg, cmd, now);
    CreatedKeepsOthers(e, cfg, cmd, now);
    DeleteRemovesExactly(c, del, later);
    PutFresh(fd.sections, uuid, NewSection(cmd, uuid, now));
    RemovePutFresh(fd.sections, uuid, NewSection(cmd, uuid, now));
  }

  // ---------------------------------------------------------------------------
  // Loading the directory and reloading a file

  /** Loading never adds or removes a file on disk. */
  lemma LoadedKeepsDiskNames(e: Engine, cfg: Config, f: string, now: nat)
    ensures Loaded(e, cfg, f, now).state.disk.files.Keys == e.disk.files.Keys
  {
  }

  /** When `loadAllUCIFiles` finishes without error, every listed plain file
      whose name does not start with `.` is loaded, and every file loaded
      before still is. */
  lemma {:induction false} LoadedAllLoadsEvery(e: Engine, cfg: Config, names: seq<string>, now: nat)
    requires LoadedAll(e, cfg, names, now).error.None?
    ensures forall i :: 0 <= i < |names| && names[i] in e.disk.files && !StartsWith(names[i], ".") ==>
      Get(LoadedAll(e, cfg, names, now).state.files, names[i]).Some?
    ensures forall g :: Get(e.files, g).Some? ==> Get(LoadedAll(e, cfg, names, now).state.files, g).Some?
    decreases |names|
  {
    if |names| > 0 {
      var rest := names[1..];
      if names[0] !in e.disk.files || StartsWith(names[0], ".") {
        LoadedAllLoadsEvery(e, cfg, rest, now);
        assert forall i :: 1 <= i < |names| ==> names[i] == rest[i - 1];
      } else {
        var o := Loaded(e, cfg, names[0], now);
        assert LoadedAll(e, cfg, names, now) == LoadedAll(o.state, cfg, rest, now);
        LoadSucceeded(e, cfg, names[0], now);
        LoadedAllLoadsEvery(o.state, cfg, rest, now);
        var done := LoadedAll(o.state, cfg, rest, now).state.files;
        forall i | 0 <= i < |names| && names[i] in e.disk.files && !StartsWith(names[i], ".")
          ensures Get(done, names[i]).Some?
        {
          if i > 0 {
            assert names[i] == rest[i - 1];
          }
        }
      }
    }
  }

  /** A load that succeeds leaves the file loaded, keeps every other loaded
      file and does not change which files the directory holds. */
  lemma LoadSucceeded(e: Engine, cfg: Config, f: string, now: nat)
    requires Loaded(e, cfg, f, now).error.None?
    ensures Get(Loaded(e, cfg, f, now).state.files, f).Some?
    ensures forall g :: Get(e.files, g).Some? ==> Get(Loaded(e, cfg, f, now).state.files, g).Some?
    ensures Loaded(e, cfg, f, now).state.disk.files.Keys == e.disk.files.Keys
  {
    if f !in e.disk.files || Parsed(e.disk.files[f].content).Err? {
      LoadFailureChangesNothing(e, cfg, f, now);
    } else {
      LoadReplacesEntry(e, cfg, f, now);
      LoadedKeepsDiskNames(e, cfg, f, now);
    }
  }

  /** A successful reload publishes every section of the file as loaded, the
      `loaded` status counting them, then the `reloaded` status. */
  lemma ReloadPublishesFile(e: Engine, cfg: Config, f: string, now: nat)
    requires f in e.disk.files && Parsed(e.disk.files[f].content).Ok? && Loaded(e, cfg, f, now).error.None? && e.connected
    ensures Get(Loaded(e, cfg, f, now).state.files, f).Some?
    ensures Reloaded(e, cfg, f, now).bus == e.bus + SectionMessages(f, Get(Loaded(e, cfg, f, now).state.files, f).value) +
      [Message(StatusTopic, Status(f, "loaded", "UCI file loaded successfully with " +
                                   NatToString(|Get(Loaded(e, cfg, f, now).state.files, f).value.sections|) + " sections",
                                   |Get(Loaded(e, cfg, f, now).state.files, f).value.sections|), true),
       Message(StatusTopic, Status(f, "reloaded", "File " + f + " reloaded successfully",
                                   |Get(Loaded(e, cfg, f, now).state.files, f).value.sections|), true)]
  {
    LoadReplacesEntry(e, cfg, f, now);
    var l := Loaded(e, cfg, f, now).state;
    var fd := Get(l.files, f).value;
    var p := Published(l, f);
    assert p.state.files == l.files;
  }

  /** A reload of a file that cannot be read or parsed changes nothing but the
      bus, where it reports the failure as an `error` status. */
  lemma ReloadReportsFailure(e: Engine, cfg: Config, f: string, now: nat)
    requires f !in e.disk.files || Parsed(e.disk.files[f].content).Err?
    ensures Reloaded(e, cfg, f, now) == WithStatus(e, f, "error", "Failed to reload " + f + ": " +
      if f !in e.disk.files then "cannot read " + f else Parsed(e.disk.files[f].content).error)
  {
  }

  /** Messages on any topic other than `commands/edit` and `commands/reload`
      are ignored; in particular this engine has no `validate` command. */
  lemma OtherTopicsIgnored(e: Engine, cfg: Config, topic: string, cmd: EditCommand, now: nat)
    requires topic != "commands/edit" && topic != "commands/reload"
    ensures Dispatched(e, cfg, topic, cmd, now) == e
    ensures Dispatched(e, cfg, "commands/validate", cmd, now) == e
  {
    assert "commands/validate" != "commands/edit" by {
      assert "commands/validate"[9] != "commands/edit"[9];
    }
    assert "commands/validate" != "commands/reload" by {
      assert "commands/validate"[9] != "commands/reload"[9];
    }
  }

  /** Every message the engine handles leaves it consistent. */
  lemma DispatchedConsistent(e: Engine, cfg: Config, topic: string, cmd: EditCommand, now: nat)
    requires Consistent(e)
    ensures Consistent(Dispatched(e, cfg, topic, cmd, now))
  {
    if topic == "commands/edit" {
      EditedConsistent(e, cfg, cmd, now);
    } else if topic == "commands/reload" {
      ReloadedConsistent(e, cfg, cmd.fileName, now);
    }
  }
}
