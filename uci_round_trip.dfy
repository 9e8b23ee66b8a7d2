/** Writing a section map with `serialize` and reading the text back with
    `parse`: which sections, keys and values come back, and as what. */
module UciRoundTrip {
  import opened Common
  import opened OrderedMap
  import opened UciParser
  import opened UciParserProps

  // ---------------------------------------------------------------------------
  // What can be written and read back

  /** A scalar whose written form fills an `option` or `list` line: not empty,
      no white space at either end, and no line terminator. */
  predicate WritableScalar(x: Scalar) {
    var s := SerializeValue(x);
    |s| > 0 && !IsSpace(s[0]) && !IsSpace(s[|s| - 1]) && NoLineTerminator(s)
  }

  /** An entry the parser reads back under its own key: a word other than
      `uuid`, holding a writable scalar or a non-empty array of them. */
  predicate WritableEntry(key: string, v: Value) {
    && |key| > 0 && AllWordChars(key) && key != "uuid"
    && match v
       case Single(x) => WritableScalar(x)
       case List(items) => |items| > 0 && forall i :: 0 <= i < |items| ==> WritableScalar(items[i])
  }

  /** The quoted name a header carries, if `serialize` writes one. */
  function WrittenName(key: Scalar, d: SectionData): (n: Option<string>)
    ensures n.Some? ==> |n.value| > 0
  {
    var name := HeaderName(key, d);
    if name == Str(d.sectionType) || !Truthy(name) then None
    else
      DisplayNonEmpty(name);
      Some(Display(name))
  }

  lemma DisplayNonEmpty(x: Scalar)
    requires Truthy(x)
    ensures |Display(x)| > 0
  {
    if x.Int? && x.n < 0 {
      assert Display(x) == "-" + NatToString(-x.n);
    }
  }

  /** A section whose header, uuid line and entries each read back as one
      line: a word type, a name without quote or line terminator, a uuid without
      line terminator, and distinct writable entries. */
  predicate WritableSection(key: Scalar, d: SectionData) {
    && WritableHeader(key, d)
    && (WrittenName(key, d).Some? ==> NoLineTerminator(WrittenName(key, d).value))
    && (d.uuid.Some? && Truthy(d.uuid.value) ==> NoLineTerminator(Display(d.uuid.value)))
    && Distinct(Keys(d.values))
    && forall j :: 0 <= j < |d.values| ==> WritableEntry(d.values[j].0, d.values[j].1)
  }

  /** A header the parser reads back as written: a word type, and a name
      without a quote. */
  predicate WritableHeader(key: Scalar, d: SectionData) {
    && |d.sectionType| > 0 && AllWordChars(d.sectionType)
    && (WrittenName(key, d).Some? ==> '\'' !in WrittenName(key, d).value)
  }

  predicate Writable(sections: seq<(Scalar, SectionData)>) {
    forall j :: 0 <= j < |sections| ==> WritableSection(sections[j].0, sections[j].1)
  }

  // ---------------------------------------------------------------------------
  // What comes back

  /** A scalar after `serializeValue` and `parseValue`. */
  function Reread(x: Scalar): Scalar {
    ParseValue(SerializeValue(x))
  }

  function RereadItems(items: seq<Scalar>): (r: seq<Scalar>)
    ensures |r| == |items|
  {
    if |items| == 0 then [] else RereadItems(items[..|items| - 1]) + [Reread(items[|items| - 1])]
  }

  function RereadValue(v: Value): Value {
    match v
    case Single(x) => Single(Reread(x))
    case List(items) => List(RereadItems(items))
  }

  function RereadValues(values: seq<(string, Value)>): (r: seq<(string, Value)>)
    ensures |r| == |values|
  {
    if |values| == 0 then []
    else RereadValues(values[..|values| - 1]) + [(values[|values| - 1].0, RereadValue(values[|values| - 1].1))]
  }

  /** The uuid is written quoted when truthy, and read back through `parseValue`. */
  function RereadUuid(uuid: Option<Scalar>): Option<Scalar> {
    if uuid.Some? && Truthy(uuid.value) then Some(ParseValue("'" + Display(uuid.value) + "'")) else None
  }

  /** How many lines `serialize` writes for the sections that are not blank:
      per section a header, the uuid line if any, and one line per option or
      array item. */
  function WrittenCount(sections: seq<(Scalar, SectionData)>): nat {
    if |sections| == 0 then 0
    else
      var d := sections[|sections| - 1].1;
      WrittenCount(sections[..|sections| - 1]) + 1 + |UuidLines(d)| + |ValueLines(d.values)|
  }

  /** The sections `parse` returns for the text of `sections`: each keyed by its
      written name, or `<type>_<i>` with `i` the number of non-blank lines
      written before its header; its line number is `i + 1`. */
  function RereadSections(sections: seq<(Scalar, SectionData)>): (r: seq<(string, SectionData)>)
    ensures |r| == |sections|
  {
    if |sections| == 0 then []
    else
      var n := |sections| - 1;
      RereadSections(sections[..n]) + [RereadSection(sections[n].0, sections[n].1, WrittenCount(sections[..n]))]
  }

  /** One section as read back when its header is written after `i` kept lines. */
  function RereadSection(key: Scalar, d: SectionData, i: nat): (string, SectionData) {
    var k := HeaderKey(d.sectionType, WrittenName(key, d), i);
    (k, SectionData(d.sectionType, k, RereadValues(d.values), Some(i + 1), RereadUuid(d.uuid)))
  }

  // ---------------------------------------------------------------------------
  // The lines `parse` keeps: trimmed, the blank separators dropped

  function KeptUuid(d: SectionData): seq<string> {
    if d.uuid.Some? && Truthy(d.uuid.value) then ["option uuid '" + Display(d.uuid.value) + "'"] else []
  }

  function KeptItems(key: string, items: seq<Scalar>): (r: seq<string>)
    ensures |r| == |items|
  {
    if |items| == 0 then []
    else KeptItems(key, items[..|items| - 1]) + ["list " + key + " " + SerializeValue(items[|items| - 1])]
  }

  function KeptEntry(key: string, v: Value): seq<string> {
    match v
    case Single(x) => ["option " + key + " " + SerializeValue(x)]
    case List(items) => KeptItems(key, items)
  }

  function KeptValues(values: seq<(string, Value)>): seq<string> {
    if |values| == 0 then []
    else KeptValues(values[..|values| - 1]) + KeptEntry(values[|values| - 1].0, values[|values| - 1].1)
  }

  /** A section's header line and its uuid line, if any. */
  function HeaderBlock(key: Scalar, d: SectionData): seq<string> {
    [HeaderLine(key, d)] + KeptUuid(d)
  }

  function KeptSection(key: Scalar, d: SectionData): seq<string> {
    HeaderBlock(key, d) + KeptValues(d.values)
  }

  function KeptAll(sections: seq<(Scalar, SectionData)>): seq<string> {
    if |sections| == 0 then []
    else KeptAll(sections[..|sections| - 1]) + KeptSection(sections[|sections| - 1].0, sections[|sections| - 1].1)
  }

  /** Every line survives the blank-and-comment filter. */
  predicate AllKept(lines: seq<string>) {
    forall i :: 0 <= i < |lines| ==> Kept(lines[i])
  }

  /** No line holds a newline, so joining and splitting gives the lines back. */
  predicate OneLineEach(lines: seq<string>) {
    forall i :: 0 <= i < |lines| ==> '\n' !in lines[i]
  }

  lemma {:induction false} KeepAllKept(lines: seq<string>)
    requires AllKept(lines)
    ensures Keep(lines) == lines
    decreases |lines|
  {
    if |lines| > 0 {
      KeepAllKept(lines[1..]);
      assert [lines[0]] + lines[1..] == lines;
    }
  }

  lemma AppendRead(a: seq<string>, b: seq<string>)
    ensures AllKept(a) && AllKept(b) ==> AllKept(a + b)
    ensures OneLineEach(a) && OneLineEach(b) ==> OneLineEach(a + b)
  {
  }

  lemma LinesTrimmed(lines: seq<string>, kept: seq<string>, line: string, k: string)
    requires TrimAll(lines) == kept && Trim(line) == k
    ensures TrimAll(lines + [line]) == kept + [k]
  {
    TrimAllAppend(lines, [line]);
    OneLineTrimmed(line);
  }

  lemma OneLineTrimmed(line: string)
    ensures TrimAll([line]) == [Trim(line)]
  {
  }

  /** The indented keywords, spelled out piece by piece. */
  lemma KeywordSpellings()
    ensures "\tlist " == "\t" + "list "
    ensures "\toption " == "\t" + "option "
    ensures "list " == "list" + " " && "option " == "option" + " "
  {
  }

  /** The uuid line, spelled out piece by piece. */
  lemma UuidSpelling(u: string)
    ensures "\toption uuid '" + u + "'" == "\t" + ("option " + "uuid" + " " + ("'" + u + "'"))
    ensures "option uuid '" + u + "'" == "option " + "uuid" + " " + ("'" + u + "'")
    ensures "\toption uuid '" + u + "'" == "\toption " + "uuid" + " " + ("'" + u + "'")
  {
  }

  /** A line of text with no white space at either end, written after a tab,
      is trimmed back to itself and kept. */
  lemma IndentedRead(body: string, last: char)
    requires |body| > 0 && !IsSpace(body[0]) && body[0] != '#' && body[|body| - 1] == last && !IsSpace(last)
    ensures Trim("\t" + body) == body && Kept(body)
  {
    assert IsSpace('\t');
    TrimTabbed("\t", body);
    assert body[..1][0] == body[0];
  }

  lemma NoNewline(s: string, indented: string)
    requires NoLineTerminator(s) && indented == s
    ensures '\n' !in indented
  {
    forall j | 0 <= j < |s| ensures s[j] != '\n' { assert !IsLineTerminator(s[j]); }
  }

  lemma WordNoNewline(w: string)
    requires AllWordChars(w)
    ensures '\n' !in w
  {
    forall j | 0 <= j < |w| ensures w[j] != '\n' { assert IsWordChar(w[j]); }
  }

  lemma ReadsOptionLine(key: string, s: string)
    requires |s| > 0 && !IsSpace(s[|s| - 1]) && NoLineTerminator(s) && AllWordChars(key)
    ensures Trim("\toption " + key + " " + s) == "option " + key + " " + s
    ensures Kept("option " + key + " " + s)
    ensures '\n' !in "\toption " + key + " " + s
  {
    var body := "option " + key + " " + s;
    KeywordSpellings();
    assert "\toption " + key + " " + s == "\t" + body;
    assert body[0] == 'o' && body[|body| - 1] == s[|s| - 1];
    IndentedRead(body, s[|s| - 1]);
    WordNoNewline(key);
    NoNewline(s, s);
  }

  lemma ReadsListLine(key: string, s: string)
    requires |s| > 0 && !IsSpace(s[|s| - 1]) && NoLineTerminator(s) && AllWordChars(key)
    ensures Trim("\tlist " + key + " " + s) == "list " + key + " " + s
    ensures Kept("list " + key + " " + s)
    ensures '\n' !in "\tlist " + key + " " + s
  {
    var body := "list " + key + " " + s;
    KeywordSpellings();
    assert "\tlist " + key + " " + s == "\t" + body;
    assert body[0] == 'l' && body[|body| - 1] == s[|s| - 1];
    IndentedRead(body, s[|s| - 1]);
    WordNoNewline(key);
    NoNewline(s, s);
  }

  lemma {:induction false} ItemsRead(key: string, items: seq<Scalar>)
    requires AllWordChars(key) && forall i :: 0 <= i < |items| ==> WritableScalar(items[i])
    ensures TrimAll(ListLines(key, items)) == KeptItems(key, items)
    ensures AllKept(KeptItems(key, items)) && OneLineEach(ListLines(key, items))
    decreases |items|
  {
    if |items| > 0 {
      var n := |items| - 1;
      var s := SerializeValue(items[n]);
      var line := "\tlist " + key + " " + s;
      var kept := "list " + key + " " + s;
      assert ListLines(key, items) == ListLines(key, items[..n]) + [line];
      assert KeptItems(key, items) == KeptItems(key, items[..n]) + [kept];
      ItemsRead(key, items[..n]);
      ReadsListLine(key, s);
      LinesTrimmed(ListLines(key, items[..n]), KeptItems(key, items[..n]), line, kept);
      AppendRead(KeptItems(key, items[..n]), [kept]);
      AppendRead(ListLines(key, items[..n]), [line]);
    }
  }

  lemma EntryRead(key: string, v: Value)
    requires WritableEntry(key, v)
    ensures TrimAll(EntryLines(key, v)) == KeptEntry(key, v)
    ensures AllKept(KeptEntry(key, v)) && OneLineEach(EntryLines(key, v))
  {
    match v
    case Single(x) =>
      var s := SerializeValue(x);
      ReadsOptionLine(key, s);
      OneLineTrimmed("\toption " + key + " " + s);
    case List(items) =>
      ItemsRead(key, items);
  }

  lemma {:induction false} ValuesRead(values: seq<(string, Value)>)
    requires forall j :: 0 <= j < |values| ==> WritableEntry(values[j].0, values[j].1)
    ensures TrimAll(ValueLines(values)) == KeptValues(values)
    ensures AllKept(KeptValues(values)) && OneLineEach(ValueLines(values))
    decreases |values|
  {
    if |values| > 0 {
      var n := |values| - 1;
      var key, v := values[n].0, values[n].1;
      ValuesRead(values[..n]);
      EntryRead(key, v);
      TrimAllAppend(ValueLines(values[..n]), EntryLines(key, v));
      AppendRead(KeptValues(values[..n]), KeptEntry(key, v));
      AppendRead(ValueLines(values[..n]), EntryLines(key, v));
    }
  }

  lemma UuidRead(d: SectionData)
    requires d.uuid.Some? && Truthy(d.uuid.value) ==> NoLineTerminator(Display(d.uuid.value))
    ensures TrimAll(UuidLines(d)) == KeptUuid(d)
    ensures AllKept(KeptUuid(d)) && OneLineEach(UuidLines(d))
  {
    if d.uuid.Some? && Truthy(d.uuid.value) {
      var u := Display(d.uuid.value);
      var s := "'" + u + "'";
      QuotedOneLine(u);
      UuidSpelling(u);
      ReadsOptionLine("uuid", s);
      OneLineTrimmed("\toption uuid '" + u + "'");
    }
  }

  /** Quoting keeps a text on one line and gives it non-space ends. */
  lemma QuotedOneLine(u: string)
    requires NoLineTerminator(u)
    ensures var s := "'" + u + "'"; |s| > 0 && !IsSpace(s[0]) && !IsSpace(s[|s| - 1]) && NoLineTerminator(s)
  {
    var s := "'" + u + "'";
    forall j | 0 <= j < |s| ensures !IsLineTerminator(s[j]) {
      if 0 < j < |s| - 1 { assert s[j] == u[j - 1]; }
    }
  }

  lemma HeaderRead(key: Scalar, d: SectionData)
    requires WritableSection(key, d)
    ensures Trim(HeaderLine(key, d)) == HeaderLine(key, d)
    ensures Kept(HeaderLine(key, d)) && '\n' !in HeaderLine(key, d)
  {
    match WrittenName(key, d)
    case None =>
      PlainHeaderRead(d.sectionType);
    case Some(n) =>
      NamedHeaderRead(d.sectionType, n);
  }

  lemma PlainHeaderRead(t: string)
    requires |t| > 0 && AllWordChars(t)
    ensures var h := "config " + t; Trim(h) == h && Kept(h) && '\n' !in h
  {
    var h := "config " + t;
    WordNoNewline(t);
    WordCharNotSpace(t[|t| - 1]);
    assert h[0] == 'c' && h[|h| - 1] == t[|t| - 1];
    UnindentedRead(h, t[|t| - 1]);
  }

  lemma NamedHeaderRead(t: string, n: string)
    requires AllWordChars(t) && NoLineTerminator(n)
    ensures var h := "config " + t + " '" + n + "'"; Trim(h) == h && Kept(h) && '\n' !in h
  {
    var h := "config " + t + " '" + n + "'";
    WordNoNewline(t);
    NoNewline(n, n);
    assert h[0] == 'c' && h[|h| - 1] == '\'';
    UnindentedRead(h, '\'');
  }

  /** A line of text with no white space at either end is its own trim, and kept. */
  lemma UnindentedRead(body: string, last: char)
    requires |body| > 0 && !IsSpace(body[0]) && body[0] != '#' && body[|body| - 1] == last && !IsSpace(last)
    ensures Trim(body) == body && Kept(body)
  {
    TrimTabbed("", body);
    assert "" + body == body;
    assert body[..1][0] == body[0];
  }

  /** One section's lines, as `parse` sees them: trimmed to the kept lines plus
      one blank line, and none of them holding a newline. */
  lemma SectionRead(key: Scalar, d: SectionData)
    requires WritableSection(key, d)
    ensures TrimAll(SectionLines(key, d)) == KeptSection(key, d) + [""]
    ensures Keep(TrimAll(SectionLines(key, d))) == KeptSection(key, d)
    ensures OneLineEach(SectionLines(key, d))
    ensures |KeptSection(key, d)| == 1 + |UuidLines(d)| + |ValueLines(d.values)|
  {
    var h, u, v := HeaderLine(key, d), UuidLines(d), ValueLines(d.values);
    var ku, kv := KeptUuid(d), KeptValues(d.values);
    HeaderRead(key, d);
    UuidRead(d);
    ValuesRead(d.values);
    SectionTrimmed(h, u, v, ku, kv);
    SectionFiltered(h, ku, kv);
    SectionOneLine(h, u, v);
  }

  lemma SectionTrimmed(h: string, u: seq<string>, v: seq<string>, ku: seq<string>, kv: seq<string>)
    requires Trim(h) == h && TrimAll(u) == ku && TrimAll(v) == kv
    ensures TrimAll([h] + u + v + [""]) == [h] + ku + kv + [""]
  {
    OneLineTrimmed(h);
    OneLineTrimmed("");
    TrimAllAppend([h], u);
    TrimAllAppend([h] + u, v);
    TrimAllAppend([h] + u + v, [""]);
  }

  lemma SectionFiltered(h: string, ku: seq<string>, kv: seq<string>)
    requires Kept(h) && AllKept(ku) && AllKept(kv)
    ensures Keep([h] + ku + kv + [""]) == [h] + ku + kv
  {
    AppendRead([h], ku);
    AppendRead([h] + ku, kv);
    KeepAllKept([h] + ku + kv);
    KeepAppend([h] + ku + kv, [""]);
    assert Keep([""]) == [];
  }

  lemma SectionOneLine(h: string, u: seq<string>, v: seq<string>)
    requires '\n' !in h && OneLineEach(u) && OneLineEach(v)
    ensures OneLineEach([h] + u + v + [""])
  {
    AppendRead([h], u);
    AppendRead([h] + u, v);
    AppendRead([h] + u + v, [""]);
  }

  lemma WritablePrefix(sections: seq<(Scalar, SectionData)>, n: nat)
    requires Writable(sections) && n <= |sections|
    ensures Writable(sections[..n])
  {
    forall j | 0 <= j < n ensures WritableSection(sections[..n][j].0, sections[..n][j].1) {
      assert sections[..n][j] == sections[j];
    }
  }

  /** The whole text, as `parse` sees it. */
  lemma {:induction false} AllRead(sections: seq<(Scalar, SectionData)>)
    requires Writable(sections)
    ensures Keep(TrimAll(AllLines(sections))) == KeptAll(sections)
    ensures |KeptAll(sections)| == WrittenCount(sections)
    ensures OneLineEach(AllLines(sections))
    decreases |sections|
  {
    if |sections| > 0 {
      var n := |sections| - 1;
      var key, d := sections[n].0, sections[n].1;
      var lines, kept := AllLines(sections[..n]), KeptAll(sections[..n]);
      assert AllLines(sections) == lines + SectionLines(key, d);
      assert KeptAll(sections) == kept + KeptSection(key, d);
      assert WrittenCount(sections) == WrittenCount(sections[..n]) + 1 + |UuidLines(d)| + |ValueLines(d.values)|;
      WritablePrefix(sections, n);
      AllRead(sections[..n]);
      SectionRead(key, d);
      TrimAllAppend(lines, SectionLines(key, d));
      KeepAppend(TrimAll(lines), TrimAll(SectionLines(key, d)));
      AppendRead(lines, SectionLines(key, d));
    }
  }

  lemma KeptLinesOfText(sections: seq<(Scalar, SectionData)>)
    requires Writable(sections)
    ensures KeptLines(SerializedText(sections)) == KeptAll(sections)
    ensures |KeptAll(sections)| == WrittenCount(sections)
  {
    AllRead(sections);
    if |sections| == 0 {
      assert Split("", '\n') == [""];
      OneLineTrimmed("");
      assert Keep([""]) == [];
    } else {
      var n := |sections| - 1;
      assert |AllLines(sections)| >= 1 by {
        assert AllLines(sections) == AllLines(sections[..n]) + SectionLines(sections[n].0, sections[n].1);
      }
      assert "\n" == ['\n'];
      SplitJoin(AllLines(sections), '\n');
    }
  }

  // ---------------------------------------------------------------------------
  // How the parser steps through the kept lines

  /** A well-formed `option` line whose value starts with no white space sets
      exactly that key to that value read. */
  lemma StepOptionLine(st: ParseState, key: string, s: string, i: nat)
    requires |key| > 0 && AllWordChars(key)
    requires |s| > 0 && !IsSpace(s[0]) && NoLineTerminator(s)
    ensures Step(st, "option " + key + " " + s, i) == Ok(SetOption(st, key, ParseValue(s)))
  {
    OptionLineShape(key, s);
    StepOption(st, "option " + key + " " + s, key, s, i);
  }

  /** The same for a `list` line, which appends the item. */
  lemma StepListLine(st: ParseState, key: string, s: string, i: nat)
    requires |key| > 0 && AllWordChars(key)
    requires |s| > 0 && !IsSpace(s[0]) && NoLineTerminator(s)
    ensures Step(st, "list " + key + " " + s, i) == Ok(AddListItem(st, key, ParseValue(s)))
  {
    ListLineShape(key, s);
    StepList(st, "list " + key + " " + s, key, s, i);
  }

  lemma OptionLineShape(key: string, s: string)
    requires |key| > 0 && AllWordChars(key)
    requires |s| > 0 && !IsSpace(s[0]) && NoLineTerminator(s)
    ensures var line := "option " + key + " " + s;
      !StartsWith(line, "config ") && StartsWith(line, "option ") && MatchDirective("option", line) == Some((key, s))
  {
    KeywordSpellings();
    DirectiveMatched("option", key, s);
    NotPrefix("option " + key + " " + s, "config ");
  }

  lemma ListLineShape(key: string, s: string)
    requires |key| > 0 && AllWordChars(key)
    requires |s| > 0 && !IsSpace(s[0]) && NoLineTerminator(s)
    ensures var line := "list " + key + " " + s;
      !StartsWith(line, "config ") && !StartsWith(line, "option ") && StartsWith(line, "list ") && MatchDirective("list", line) == Some((key, s))
  {
    KeywordSpellings();
    DirectiveMatched("list", key, s);
    NotPrefix("list " + key + " " + s, "config ");
    NotPrefix("list " + key + " " + s, "option ");
  }

  lemma NotPrefix(line: string, p: string)
    requires |line| > 0 && |p| > 0 && line[0] != p[0]
    ensures !StartsWith(line, p)
  {
    if |p| <= |line| {
      assert line[..|p|][0] == line[0];
    }
  }

  lemma StepOption(st: ParseState, line: string, key: string, v: string, i: nat)
    requires !StartsWith(line, "config ")
    requires StartsWith(line, "option ") && MatchDirective("option", line) == Some((key, v))
    ensures Step(st, line, i) == Ok(SetOption(st, key, ParseValue(v)))
  {
  }

  lemma StepList(st: ParseState, line: string, key: string, v: string, i: nat)
    requires !StartsWith(line, "config ") && !StartsWith(line, "option ")
    requires StartsWith(line, "list ") && MatchDirective("list", line) == Some((key, v))
    ensures Step(st, line, i) == Ok(AddListItem(st, key, ParseValue(v)))
  {
  }

  lemma DirectiveMatched(kw: string, key: string, s: string)
    requires |key| > 0 && AllWordChars(key)
    requires |s| > 0 && !IsSpace(s[0]) && NoLineTerminator(s)
    ensures StartsWith(kw + " " + key + " " + s, kw + " ")
    ensures MatchDirective(kw, kw + " " + key + " " + s) == Some((key, s))
  {
    var tail := " " + s;
    assert kw + " " + key + " " + s == kw + " " + key + tail;
    DirectiveShape(kw, key, tail);
    SpaceRunAfter(" ", s);
    assert tail[1..] == s;
  }

  /** The header opens the section under its written name, or `<type>_<i>`. */
  lemma StepWrittenHeader(st: ParseState, key: Scalar, d: SectionData, i: nat)
    requires WritableHeader(key, d)
    ensures var k := HeaderKey(d.sectionType, WrittenName(key, d), i);
      Step(st, HeaderLine(key, d), i) == Ok(ParseState(Flushed(st), Some((k, SectionData(d.sectionType, k, [], Some(i + 1), None)))))
  {
    var t := d.sectionType;
    match WrittenName(key, d)
    case None =>
      assert HeaderLine(key, d) == "config " + t;
      StepUnnamedHeader(st, t, i);
    case Some(n) =>
      assert HeaderLine(key, d) == "config " + t + " '" + n + "'";
      StepNamedHeader(st, t, n, i);
  }

  lemma StepUnnamedHeader(st: ParseState, t: string, i: nat)
    requires |t| > 0 && AllWordChars(t)
    ensures var k := t + "_" + NatToString(i);
      Step(st, "config " + t, i) == Ok(ParseState(Flushed(st), Some((k, SectionData(t, k, [], Some(i + 1), None)))))
  {
    assert "config " + t + "" == "config " + t;
    UnnamedHeader(st, t, "", i);
  }

  lemma StepNamedHeader(st: ParseState, t: string, n: string, i: nat)
    requires |t| > 0 && AllWordChars(t) && |n| > 0 && '\'' !in n
    ensures Step(st, "config " + t + " '" + n + "'", i) == Ok(ParseState(Flushed(st), Some((n, SectionData(t, n, [], Some(i + 1), None)))))
  {
    var line := "config " + t + " '" + n + "'";
    NamedHeaderMatches(t, n);
    StepHeader(st, line, i, t, Some(n));
  }

  /** The written header of a named section matches the header pattern with
      its type and name. */
  lemma NamedHeaderMatches(t: string, n: string)
    requires |t| > 0 && AllWordChars(t) && |n| > 0 && '\'' !in n
    ensures StartsWith("config " + t + " '" + n + "'", "config ")
    ensures MatchHeader("config " + t + " '" + n + "'") == Some((t, Some(n)))
  {
    var tail := " '" + n + "'";
    var line := "config " + t + " '" + n + "'";
    assert line + "" == line;
    assert line == "config " + t + tail;
    HeaderIgnoresTrailingText(t, n, "");
    HeaderShape(t, tail);
  }

  lemma GetLast(m: seq<(string, Value)>, k: string, w: Value)
    requires k !in Keys(m)
    ensures Get(m + [(k, w)], k) == Some(w)
  {
    PutFresh(m, k, w);
    GetPut(m, k, w, k);
  }

  lemma KeysRereadValues(values: seq<(string, Value)>)
    ensures Keys(RereadValues(values)) == Keys(values)
  {
    forall i | 0 <= i < |values| ensures RereadValues(values)[i].0 == values[i].0 {
      RereadValuesAt(values, i);
    }
  }

  lemma {:induction false} RereadValuesAt(values: seq<(string, Value)>, i: nat)
    requires i < |values|
    ensures RereadValues(values)[i] == (values[i].0, RereadValue(values[i].1))
    decreases |values|
  {
    var n := |values| - 1;
    SnocAt(RereadValues(values[..n]), (values[n].0, RereadValue(values[n].1)), i);
    if i < n {
      RereadValuesAt(values[..n], i);
      PrefixOfPrefix(values, n, i);
    }
  }

  /** The last key of a map with distinct keys is not among the earlier ones. */
  lemma DistinctLast<K, V>(m: seq<(K, V)>)
    requires |m| > 0 && Distinct(Keys(m))
    ensures m[|m| - 1].0 !in Keys(m[..|m| - 1]) && Distinct(Keys(m[..|m| - 1]))
  {
    var n := |m| - 1;
    forall j | 0 <= j < n ensures Keys(m[..n])[j] != m[n].0 {
      assert Keys(m)[j] != Keys(m)[n];
    }
  }

  /** Each key is absent from the entries before it: distinct keys, stated
      entry by entry. */
  predicate FreshKeys<K(==), V>(m: seq<(K, V)>)
    decreases |m|
  {
    |m| == 0 || (FreshKeys(m[..|m| - 1]) && m[|m| - 1].0 !in Keys(m[..|m| - 1]))
  }

  lemma {:induction false} DistinctFreshKeys<K, V>(m: seq<(K, V)>)
    requires Distinct(Keys(m))
    ensures FreshKeys(m)
    decreases |m|
  {
    if |m| > 0 {
      DistinctLast(m);
      DistinctFreshKeys(m[..|m| - 1]);
    }
  }

  function ReadState(sections: seq<(Scalar, SectionData)>): ParseState {
    var r := RereadSections(sections);
    if |r| == 0 then Start else ParseState(r[..|r| - 1], Some(r[|r| - 1]))
  }

  lemma FlushedReadState(sections: seq<(Scalar, SectionData)>)
    requires FreshKeys(RereadSections(sections))
    ensures Flushed(ReadState(sections)) == RereadSections(sections)
  {
    var r := RereadSections(sections);
    if |r| > 0 {
      PutFresh(r[..|r| - 1], r[|r| - 1].0, r[|r| - 1].1);
      LastSplit(r);
    }
  }

  // ---------------------------------------------------------------------------
  // What each kept line does to the reading state, whatever that state is

  /** The change one kept line makes: a header opens a section, an `option`
      line sets a field, a `list` line appends an item. */
  datatype Effect = Open(key: string, data: SectionData) | SetField(key: string, x: Scalar) | AddItem(key: string, x: Scalar)

  function Apply(e: Effect, st: ParseState): ParseState {
    match e
    case Open(k, d) => ParseState(Flushed(st), Some((k, d)))
    case SetField(k, x) => SetOption(st, k, x)
    case AddItem(k, x) => AddListItem(st, k, x)
  }

  function Applied(effects: seq<Effect>, st: ParseState): ParseState {
    if |effects| == 0 then st else Apply(effects[|effects| - 1], Applied(effects[..|effects| - 1], st))
  }

  /** A step of the parser, and a way of making one change to the reading
      state. The lemmas below hold for any pair that agree on the written
      lines, so their proofs never look inside `Step` or `Apply`. */
  type StepFn = (ParseState, string, nat) -> Result<ParseState, string>
  type ApplyFn = (Effect, ParseState) -> ParseState

  /** The changes made in turn by `apply`; `Applied` is the case `apply == Apply`. */
  function AppliedWith(apply: ApplyFn, effects: seq<Effect>, st: ParseState): ParseState {
    if |effects| == 0 then st else apply(effects[|effects| - 1], AppliedWith(apply, effects[..|effects| - 1], st))
  }

  lemma {:induction false} AppliedWithApply(effects: seq<Effect>, st: ParseState)
    ensures AppliedWith(Apply, effects, st) == Applied(effects, st)
    decreases |effects|
  {
    if |effects| > 0 {
      AppliedWithApply(effects[..|effects| - 1], st);
    }
  }

  lemma {:induction false} AppliedWithAppend(apply: ApplyFn, ea: seq<Effect>, eb: seq<Effect>, st: ParseState)
    ensures AppliedWith(apply, ea + eb, st) == AppliedWith(apply, eb, AppliedWith(apply, ea, st))
    decreases |eb|
  {
    if |eb| == 0 {
      assert ea + eb == ea;
    } else {
      var n := |eb| - 1;
      AppendDropLast(ea, eb);
      AppliedWithAppend(apply, ea, eb[..n], st);
    }
  }

  /** The line numbered `i` makes the change `e` in every state. */
  ghost predicate LineReads(step: StepFn, apply: ApplyFn, line: string, i: nat, e: Effect) {
    forall s {:trigger step(s, line, i)} :: step(s, line, i) == Ok(apply(e, s))
  }

  /** Run from any state, the lines numbered from `base` make the changes
      `effects`, in turn. */
  ghost predicate RunsFromAnyState(step: StepFn, apply: ApplyFn, lines: seq<string>, base: nat, effects: seq<Effect>) {
    forall st {:trigger RunWith(step, st, lines, base)} :: RunWith(step, st, lines, base) == Ok(AppliedWith(apply, effects, st))
  }

  /** The blocks of lines that run that way. Membership keeps the quantifier
      above out of the proofs that only join blocks together. */
  ghost const RunningBlocks: iset<(StepFn, ApplyFn, seq<string>, nat, seq<Effect>)> :=
    iset p: (StepFn, ApplyFn, seq<string>, nat, seq<Effect>) | RunsFromAnyState(p.0, p.1, p.2, p.3, p.4)

  ghost predicate Runs(step: StepFn, apply: ApplyFn, lines: seq<string>, base: nat, effects: seq<Effect>) {
    (step, apply, lines, base, effects) in RunningBlocks
  }

  /** Running two blocks of lines in a row: the second starts from the state
      the first leaves, numbered on from it. */
  lemma {:induction false} RunWithAppend(step: StepFn, st: ParseState, mid: ParseState,
                                         a: seq<string>, b: seq<string>, base: nat)
    requires RunWith(step, st, a, base) == Ok(mid)
    ensures RunWith(step, st, a + b, base) == RunWith(step, mid, b, base + |a|)
    decreases |b|
  {
    if |b| == 0 {
      assert a + b == a;
    } else {
      var m := |b| - 1;
      RunWithAppend(step, st, mid, a, b[..m], base);
      AppendDropLast(a, b);
    }
  }

  lemma RunsOne(step: StepFn, apply: ApplyFn, line: string, i: nat, e: Effect)
    requires LineReads(step, apply, line, i, e)
    ensures Runs(step, apply, [line], i, [e])
  {
    forall st ensures RunWith(step, st, [line], i) == Ok(AppliedWith(apply, [e], st)) {
      assert [line][..0] == [] && [e][..0] == [];
    }
    assert RunsFromAnyState(step, apply, [line], i, [e]);
  }

  /** Two blocks run in a row; the second is numbered from `mid`. */
  lemma RunsAppend(step: StepFn, apply: ApplyFn, a: seq<string>, ea: seq<Effect>,
                   b: seq<string>, eb: seq<Effect>, base: nat, mid: nat)
    requires mid == base + |a|
    requires Runs(step, apply, a, base, ea) && Runs(step, apply, b, mid, eb)
    ensures Runs(step, apply, a + b, base, ea + eb)
  {
    assert RunsFromAnyState(step, apply, a, base, ea) && RunsFromAnyState(step, apply, b, mid, eb);
    forall st ensures RunWith(step, st, a + b, base) == Ok(AppliedWith(apply, ea + eb, st)) {
      var after := AppliedWith(apply, ea, st);
      assert RunWith(step, st, a, base) == Ok(after);
      RunWithAppend(step, st, after, a, b, base);
      assert RunWith(step, after, b, mid) == Ok(AppliedWith(apply, eb, after));
      AppliedWithAppend(apply, ea, eb, st);
    }
    assert RunsFromAnyState(step, apply, a + b, base, ea + eb);
  }

  lemma {:induction false} AppliedAppend(ea: seq<Effect>, eb: seq<Effect>, st: ParseState)
    ensures Applied(ea + eb, st) == Applied(eb, Applied(ea, st))
    decreases |eb|
  {
    if |eb| == 0 {
      assert ea + eb == ea;
    } else {
      var n := |eb| - 1;
      AppendDropLast(ea, eb);
      AppliedAppend(ea, eb[..n], st);
    }
  }

  /** The key and value of a written `option` or `list` line. */
  predicate DirectiveParts(key: string, s: string) {
    |key| > 0 && AllWordChars(key) && |s| > 0 && !IsSpace(s[0]) && NoLineTerminator(s)
  }

  /** What the header of a section written after `i` kept lines does. */
  function HeaderEffect(key: Scalar, d: SectionData, i: nat): Effect {
    var k := HeaderKey(d.sectionType, WrittenName(key, d), i);
    Open(k, SectionData(d.sectionType, k, [], Some(i + 1), None))
  }

  function ListLine(key: string, s: string): string {
    "list " + key + " " + s
  }

  function OptionLine(key: string, s: string): string {
    "option " + key + " " + s
  }

  /** `step` reads every kind of line `serialize` writes as the change it
      stands for: `list` lines append, `option` lines set, headers open. */
  ghost predicate WrittenLinesRead(step: StepFn, apply: ApplyFn) {
    && (forall key, s, i: nat :: DirectiveParts(key, s) ==> LineReads(step, apply, ListLine(key, s), i, AddItem(key, ParseValue(s))))
    && (forall key, s, i: nat :: DirectiveParts(key, s) ==> LineReads(step, apply, OptionLine(key, s), i, SetField(key, ParseValue(s))))
    && (forall key, d, i: nat :: WritableHeader(key, d) ==> LineReads(step, apply, HeaderLine(key, d), i, HeaderEffect(key, d, i)))
  }

  /** The steps that read the written lines. Membership keeps the three
      quantifiers above out of every proof that only passes the step on. */
  ghost const WrittenLineReaders: iset<(StepFn, ApplyFn)> :=
    iset p: (StepFn, ApplyFn) | WrittenLinesRead(p.0, p.1)

  ghost predicate ReadsWrittenLines(step: StepFn, apply: ApplyFn) {
    (step, apply) in WrittenLineReaders
  }

  lemma ListLineEffect(step: StepFn, apply: ApplyFn, key: string, s: string, i: nat)
    requires ReadsWrittenLines(step, apply) && DirectiveParts(key, s)
    ensures LineReads(step, apply, ListLine(key, s), i, AddItem(key, ParseValue(s)))
  {
    assert WrittenLinesRead(step, apply);
  }

  lemma OptionLineEffect(step: StepFn, apply: ApplyFn, key: string, s: string, i: nat)
    requires ReadsWrittenLines(step, apply) && DirectiveParts(key, s)
    ensures LineReads(step, apply, OptionLine(key, s), i, SetField(key, ParseValue(s)))
  {
    assert WrittenLinesRead(step, apply);
  }

  lemma HeaderLineEffect(step: StepFn, apply: ApplyFn, key: Scalar, d: SectionData, i: nat)
    requires ReadsWrittenLines(step, apply) && WritableHeader(key, d)
    ensures LineReads(step, apply, HeaderLine(key, d), i, HeaderEffect(key, d, i))
  {
    assert WrittenLinesRead(step, apply);
  }

  lemma ListLinesRead(key: string, s: string, i: nat)
    requires DirectiveParts(key, s)
    ensures LineReads(Step, Apply, "list " + key + " " + s, i, AddItem(key, ParseValue(s)))
  {
    forall st: ParseState ensures Step(st, "list " + key + " " + s, i) == Ok(AddListItem(st, key, ParseValue(s))) {
      StepListLine(st, key, s, i);
    }
  }

  lemma OptionLinesRead(key: string, s: string, i: nat)
    requires DirectiveParts(key, s)
    ensures LineReads(Step, Apply, "option " + key + " " + s, i, SetField(key, ParseValue(s)))
  {
    forall st: ParseState ensures Step(st, "option " + key + " " + s, i) == Ok(SetOption(st, key, ParseValue(s))) {
      StepOptionLine(st, key, s, i);
    }
  }

  lemma HeaderLinesRead(key: Scalar, d: SectionData, i: nat)
    requires WritableHeader(key, d)
    ensures LineReads(Step, Apply, HeaderLine(key, d), i, HeaderEffect(key, d, i))
  {
    forall st: ParseState ensures Step(st, HeaderLine(key, d), i) == Ok(Apply(HeaderEffect(key, d, i), st)) {
      StepWrittenHeader(st, key, d, i);
    }
  }

  /** The parser's own step reads every written line as its change. */
  lemma StepReadsWrittenLines()
    ensures ReadsWrittenLines(Step, Apply)
  {
    assert WrittenLinesRead(Step, Apply) by {
      forall key, s, i: nat | DirectiveParts(key, s) ensures LineReads(Step, Apply, ListLine(key, s), i, AddItem(key, ParseValue(s))) {
        ListLinesRead(key, s, i);
      }
      forall key, s, i: nat | DirectiveParts(key, s) ensures LineReads(Step, Apply, OptionLine(key, s), i, SetField(key, ParseValue(s))) {
        OptionLinesRead(key, s, i);
      }
      forall key, d, i: nat | WritableHeader(key, d) ensures LineReads(Step, Apply, HeaderLine(key, d), i, HeaderEffect(key, d, i)) {
        HeaderLinesRead(key, d, i);
      }
    }
  }

  // The changes the written lines make

  function ItemEffects(key: string, items: seq<Scalar>): (r: seq<Effect>)
    ensures |r| == |items|
  {
    if |items| == 0 then [] else ItemEffects(key, items[..|items| - 1]) + [AddItem(key, Reread(items[|items| - 1]))]
  }

  function EntryEffects(key: string, v: Value): seq<Effect> {
    match v
    case Single(x) => [SetField(key, Reread(x))]
    case List(items) => ItemEffects(key, items)
  }

  function ValueEffects(values: seq<(string, Value)>): seq<Effect> {
    if |values| == 0 then []
    else ValueEffects(values[..|values| - 1]) + EntryEffects(values[|values| - 1].0, values[|values| - 1].1)
  }

  function UuidEffects(d: SectionData): seq<Effect> {
    if d.uuid.Some? && Truthy(d.uuid.value) then [SetField("uuid", ParseValue("'" + Display(d.uuid.value) + "'"))] else []
  }

  /** The header of a section written after `i` kept lines, then its lines. */
  function HeaderChanges(key: Scalar, d: SectionData, i: nat): seq<Effect> {
    [HeaderEffect(key, d, i)] + UuidEffects(d)
  }

  function SectionEffects(key: Scalar, d: SectionData, i: nat): seq<Effect> {
    HeaderChanges(key, d, i) + ValueEffects(d.values)
  }

  function AllEffects(sections: seq<(Scalar, SectionData)>): seq<Effect> {
    if |sections| == 0 then []
    else
      var n := |sections| - 1;
      AllEffects(sections[..n]) + SectionEffects(sections[n].0, sections[n].1, WrittenCount(sections[..n]))
  }

  /** No lines make no change. */
  lemma RunsNothing(step: StepFn, apply: ApplyFn, base: nat)
    ensures Runs(step, apply, [], base, [])
  {
    assert RunsFromAnyState(step, apply, [], base, []);
  }

  /** The lines of each of `xs`, one block after another. */
  function Blocks<T>(linesOf: T -> seq<string>, xs: seq<T>): seq<string>
    decreases |xs|
  {
    if |xs| == 0 then [] else Blocks(linesOf, xs[..|xs| - 1]) + linesOf(xs[|xs| - 1])
  }

  /** The changes the blocks of `xs` make in turn, each numbered from the line
      its block starts at. */
  function BlockEffects<T>(linesOf: T -> seq<string>, effectsOf: (T, nat) -> seq<Effect>,
                           xs: seq<T>, base: nat): seq<Effect>
    decreases |xs|
  {
    if |xs| == 0 then []
    else
      var n := |xs| - 1;
      BlockEffects(linesOf, effectsOf, xs[..n], base) + effectsOf(xs[n], base + |Blocks(linesOf, xs[..n])|)
  }

  /** Blocks that each make their changes wherever they start make them all,
      in turn. Nothing here looks inside a block, so the proof stays clear of
      the text the blocks hold. */
  lemma {:induction false} BlocksRun<T>(step: StepFn, apply: ApplyFn, linesOf: T -> seq<string>,
                                        effectsOf: (T, nat) -> seq<Effect>, xs: seq<T>, base: nat)
    requires forall x, i: nat :: x in xs ==> Runs(step, apply, linesOf(x), i, effectsOf(x, i))
    ensures Runs(step, apply, Blocks(linesOf, xs), base, BlockEffects(linesOf, effectsOf, xs, base))
    decreases |xs|
  {
    if |xs| == 0 {
      RunsNothing(step, apply, base);
    } else {
      var n := |xs| - 1;
      var a, ea := Blocks(linesOf, xs[..n]), BlockEffects(linesOf, effectsOf, xs[..n], base);
      var mid := base + |a|;
      BlocksRun(step, apply, linesOf, effectsOf, xs[..n], base);
      assert xs[n] in xs;
      RunsAppend(step, apply, a, ea, linesOf(xs[n]), effectsOf(xs[n], mid), base, mid);
    }
  }

  // The written text as blocks: a `list` line per item, the lines of each
  // entry, the lines of each section.

  function ItemLines(key: string): Scalar -> seq<string> {
    x => ["list " + key + " " + SerializeValue(x)]
  }

  function ItemChanges(key: string): (Scalar, nat) -> seq<Effect> {
    (x, i) => [AddItem(key, Reread(x))]
  }

  function EntryBlock(p: (string, Value)): seq<string> {
    KeptEntry(p.0, p.1)
  }

  function EntryChanges(p: (string, Value), i: nat): seq<Effect> {
    EntryEffects(p.0, p.1)
  }

  function SectionBlock(p: (Scalar, SectionData)): seq<string> {
    KeptSection(p.0, p.1)
  }

  function SectionChanges(p: (Scalar, SectionData), i: nat): seq<Effect> {
    SectionEffects(p.0, p.1, i)
  }

  lemma {:induction false} ItemBlocks(key: string, items: seq<Scalar>, base: nat)
    ensures Blocks(ItemLines(key), items) == KeptItems(key, items)
    ensures BlockEffects(ItemLines(key), ItemChanges(key), items, base) == ItemEffects(key, items)
    decreases |items|
  {
    if |items| > 0 {
      ItemBlocks(key, items[..|items| - 1], base);
    }
  }

  lemma {:induction false} ValueBlocks(values: seq<(string, Value)>, base: nat)
    ensures Blocks(EntryBlock, values) == KeptValues(values)
    ensures BlockEffects(EntryBlock, EntryChanges, values, base) == ValueEffects(values)
    decreases |values|
  {
    if |values| > 0 {
      ValueBlocks(values[..|values| - 1], base);
    }
  }

  /** The sections' blocks start where `WrittenCount` says, since every
      written line is kept. */
  lemma {:induction false} AllBlocks(sections: seq<(Scalar, SectionData)>)
    requires Writable(sections)
    ensures Blocks(SectionBlock, sections) == KeptAll(sections)
    ensures BlockEffects(SectionBlock, SectionChanges, sections, 0) == AllEffects(sections)
    decreases |sections|
  {
    if |sections| > 0 {
      var n := |sections| - 1;
      WritablePrefix(sections, n);
      AllBlocks(sections[..n]);
      AllRead(sections[..n]);
    }
  }

  /** The `list` line of one array item appends the item read back. */
  lemma ItemLineRuns(step: StepFn, apply: ApplyFn, key: string, x: Scalar, i: nat)
    requires ReadsWrittenLines(step, apply)
    requires |key| > 0 && AllWordChars(key) && WritableScalar(x)
    ensures Runs(step, apply, ItemLines(key)(x), i, ItemChanges(key)(x, i))
  {
    var s := SerializeValue(x);
    assert DirectiveParts(key, s);
    ListLineEffect(step, apply, key, s, i);
    RunsOne(step, apply, ListLine(key, s), i, AddItem(key, ParseValue(s)));
  }

  lemma EntryReads(step: StepFn, apply: ApplyFn, key: string, v: Value, base: nat)
    requires ReadsWrittenLines(step, apply)
    requires WritableEntry(key, v)
    ensures Runs(step, apply, KeptEntry(key, v), base, EntryEffects(key, v))
  {
    match v
    case Single(x) =>
      var s := SerializeValue(x);
      assert DirectiveParts(key, s);
      OptionLineEffect(step, apply, key, s, base);
      RunsOne(step, apply, "option " + key + " " + s, base, SetField(key, ParseValue(s)));
    case List(items) =>
      forall x, i: nat | x in items ensures Runs(step, apply, ItemLines(key)(x), i, ItemChanges(key)(x, i)) {
        ItemLineRuns(step, apply, key, x, i);
      }
      BlocksRun(step, apply, ItemLines(key), ItemChanges(key), items, base);
      ItemBlocks(key, items, base);
  }

  lemma ValuesReads(step: StepFn, apply: ApplyFn, values: seq<(string, Value)>, base: nat)
    requires ReadsWrittenLines(step, apply)
    requires forall j :: 0 <= j < |values| ==> WritableEntry(values[j].0, values[j].1)
    ensures Runs(step, apply, KeptValues(values), base, ValueEffects(values))
  {
    forall p, i: nat | p in values ensures Runs(step, apply, EntryBlock(p), i, EntryChanges(p, i)) {
      EntryReads(step, apply, p.0, p.1, i);
    }
    BlocksRun(step, apply, EntryBlock, EntryChanges, values, base);
    ValueBlocks(values, base);
  }

  lemma UuidReads(step: StepFn, apply: ApplyFn, key: Scalar, d: SectionData, i: nat)
    requires ReadsWrittenLines(step, apply)
    requires WritableSection(key, d)
    ensures Runs(step, apply, KeptUuid(d), i, UuidEffects(d))
  {
    if d.uuid.Some? && Truthy(d.uuid.value) {
      var u := Display(d.uuid.value);
      var s := "'" + u + "'";
      QuotedOneLine(u);
      UuidSpelling(u);
      assert DirectiveParts("uuid", s);
      OptionLineEffect(step, apply, "uuid", s, i);
      RunsOne(step, apply, "option " + "uuid" + " " + s, i, SetField("uuid", ParseValue(s)));
    } else {
      RunsNothing(step, apply, i);
    }
  }

  /** The header and the uuid line of a section. */
  lemma HeaderReads(step: StepFn, apply: ApplyFn, key: Scalar, d: SectionData, i: nat)
    requires ReadsWrittenLines(step, apply)
    requires WritableSection(key, d)
    ensures Runs(step, apply, HeaderBlock(key, d), i, HeaderChanges(key, d, i))
  {
    HeaderLineEffect(step, apply, key, d, i);
    RunsOne(step, apply, HeaderLine(key, d), i, HeaderEffect(key, d, i));
    UuidReads(step, apply, key, d, i + 1);
    RunsAppend(step, apply, [HeaderLine(key, d)], [HeaderEffect(key, d, i)], KeptUuid(d), UuidEffects(d), i, i + 1);
  }

  lemma SectionReads(step: StepFn, apply: ApplyFn, key: Scalar, d: SectionData, i: nat)
    requires ReadsWrittenLines(step, apply)
    requires WritableSection(key, d)
    ensures Runs(step, apply, KeptSection(key, d), i, SectionEffects(key, d, i))
  {
    var mid := i + |HeaderBlock(key, d)|;
    HeaderReads(step, apply, key, d, i);
    ValuesReads(step, apply, d.values, mid);
    RunsAppend(step, apply, HeaderBlock(key, d), HeaderChanges(key, d, i), KeptValues(d.values), ValueEffects(d.values), i, mid);
  }

  lemma AllReads(step: StepFn, apply: ApplyFn, sections: seq<(Scalar, SectionData)>)
    requires ReadsWrittenLines(step, apply)
    requires Writable(sections)
    ensures Runs(step, apply, KeptAll(sections), 0, AllEffects(sections))
  {
    forall p, i: nat | p in sections ensures Runs(step, apply, SectionBlock(p), i, SectionChanges(p, i)) {
      SectionReads(step, apply, p.0, p.1, i);
    }
    BlocksRun(step, apply, SectionBlock, SectionChanges, sections, 0);
    AllBlocks(sections);
  }

  // The changes made in turn

  /** The changes of `list` lines holding `xs`, in order. */
  function Adds(key: string, xs: seq<Scalar>): (r: seq<Effect>)
    ensures |r| == |xs|
  {
    if |xs| == 0 then [] else Adds(key, xs[..|xs| - 1]) + [AddItem(key, xs[|xs| - 1])]
  }

  /** The `list` lines of an array add its items read back. */
  lemma {:induction false} ItemAdds(key: string, items: seq<Scalar>)
    ensures ItemEffects(key, items) == Adds(key, RereadItems(items))
    decreases |items|
  {
    if |items| > 0 {
      var n := |items| - 1;
      var r := RereadItems(items);
      ItemAdds(key, items[..n]);
      assert r[..n] == RereadItems(items[..n]);
    }
  }

  /** Adding `xs` under a new key appends an array holding them, in order. */
  lemma {:induction false} AppliedAdds(ss: seq<(string, SectionData)>, name: string, d: SectionData, key: string, xs: seq<Scalar>)
    requires key !in Keys(d.values) && |xs| > 0
    ensures Applied(Adds(key, xs), ParseState(ss, Some((name, d)))) ==
            ParseState(ss, Some((name, d.(values := d.values + [(key, List(xs))]))))
    decreases |xs|
  {
    var n := |xs| - 1;
    AppliedLastAdd(key, xs, ParseState(ss, Some((name, d))));
    if n == 0 {
      ListStarted(d.values, key, xs[0]);
      assert xs == [xs[0]];
    } else {
      AppliedAdds(ss, name, d, key, xs[..n]);
      ListExtended(d.values, key, xs[..n], xs[n]);
      LastSplit(xs);
    }
  }

  lemma AppliedLastAdd(key: string, xs: seq<Scalar>, st: ParseState)
    requires |xs| > 0
    ensures Applied(Adds(key, xs), st) == AddListItem(Applied(Adds(key, xs[..|xs| - 1]), st), key, xs[|xs| - 1])
  {
    var n := |xs| - 1;
    var e := Adds(key, xs);
    assert e[..n] == Adds(key, xs[..n]) && e[n] == AddItem(key, xs[n]);
  }

  /** The first `list` line of a new key starts an array. */
  lemma ListStarted(values: seq<(string, Value)>, key: string, x: Scalar)
    requires key !in Keys(values)
    ensures ListAppended(values, key, x) == values + [(key, List([x]))]
  {
    PutFresh(values, key, List([x]));
  }

  /** A further `list` line appends to the array it started. */
  lemma ListExtended(values: seq<(string, Value)>, key: string, r: seq<Scalar>, x: Scalar)
    requires key !in Keys(values) && |r| > 0
    ensures ListAppended(values + [(key, List(r))], key, x) == values + [(key, List(r + [x]))]
  {
    GetLast(values, key, List(r));
    PutLast(values, key, List(r), List(r + [x]));
  }

  /** The `list` lines of a new array append it after the entries so far,
      holding its items read back, in order. */
  lemma AppliedItems(ss: seq<(string, SectionData)>, name: string, d: SectionData, key: string, items: seq<Scalar>)
    requires key !in Keys(d.values) && |items| > 0
    ensures Applied(ItemEffects(key, items), ParseState(ss, Some((name, d)))) ==
            ParseState(ss, Some((name, d.(values := d.values + [(key, List(RereadItems(items)))]))))
  {
    ItemAdds(key, items);
    AppliedAdds(ss, name, d, key, RereadItems(items));
  }

  /** The entries of a section come back one after another, each read back. */
  lemma {:induction false} AppliedValues(ss: seq<(string, SectionData)>, name: string, d: SectionData, values: seq<(string, Value)>)
    requires d.values == []
    requires FreshKeys(values) && forall j :: 0 <= j < |values| ==> WritableEntry(values[j].0, values[j].1)
    ensures Applied(ValueEffects(values), ParseState(ss, Some((name, d)))) ==
            ParseState(ss, Some((name, d.(values := RereadValues(values)))))
    decreases |values|
  {
    if |values| > 0 {
      var n := |values| - 1;
      assert forall j :: 0 <= j < n ==> values[..n][j] == values[j];
      AppliedValues(ss, name, d, values[..n]);
      AppliedValuesLast(ss, name, d, values);
    }
  }

  /** One more entry, under a key not read before. */
  lemma {:induction false} AppliedValuesLast(ss: seq<(string, SectionData)>, name: string, d: SectionData, values: seq<(string, Value)>)
    requires |values| > 0 && WritableEntry(values[|values| - 1].0, values[|values| - 1].1)
    requires values[|values| - 1].0 !in Keys(values[..|values| - 1])
    requires Applied(ValueEffects(values[..|values| - 1]), ParseState(ss, Some((name, d)))) ==
             ParseState(ss, Some((name, d.(values := RereadValues(values[..|values| - 1])))))
    ensures Applied(ValueEffects(values), ParseState(ss, Some((name, d)))) ==
            ParseState(ss, Some((name, d.(values := RereadValues(values)))))
  {
    var st := ParseState(ss, Some((name, d)));
    var n := |values| - 1;
    var init := values[..n];
    var key, v := values[n].0, values[n].1;
    var prior := RereadValues(init);
    assert RereadValues(values) == prior + [(key, RereadValue(v))];
    assert ValueEffects(values) == ValueEffects(init) + EntryEffects(key, v);
    KeysRereadValues(init);
    AppliedAppend(ValueEffects(init), EntryEffects(key, v), st);
    match v
    case Single(x) =>
      assert EntryEffects(key, v)[..0] == [];
      PutFresh(prior, key, Single(Reread(x)));
    case List(items) =>
      AppliedItems(ss, name, d.(values := prior), key, items);
  }

  /** One section: the header flushes the section before it, the uuid line
      sets the uuid, and the entries come back in order. */
  lemma AppliedSection(st: ParseState, key: Scalar, d: SectionData, i: nat)
    requires WritableSection(key, d)
    ensures Applied(SectionEffects(key, d, i), st) == ParseState(Flushed(st), Some(RereadSection(key, d, i)))
  {
    var k := HeaderKey(d.sectionType, WrittenName(key, d), i);
    var d1 := SectionData(d.sectionType, k, [], Some(i + 1), None);
    var e := [HeaderEffect(key, d, i)];
    assert e[..0] == [];
    var st1 := ParseState(Flushed(st), Some((k, d1)));
    assert Applied(e, st) == st1;
    var d2 := d1.(uuid := RereadUuid(d.uuid));
    assert Applied(UuidEffects(d), st1) == ParseState(Flushed(st), Some((k, d2))) by {
      if d.uuid.Some? && Truthy(d.uuid.value) {
        assert UuidEffects(d)[..0] == [];
      }
    }
    AppliedAppend(e, UuidEffects(d), st);
    AppliedAppend(e + UuidEffects(d), ValueEffects(d.values), st);
    DistinctFreshKeys(d.values);
    AppliedValues(Flushed(st), k, d2, d.values);
  }

  lemma {:induction false} AppliedAll(sections: seq<(Scalar, SectionData)>)
    requires Writable(sections) && FreshKeys(RereadSections(sections))
    ensures Applied(AllEffects(sections), Start) == ReadState(sections)
    decreases |sections|
  {
    if |sections| > 0 {
      var n := |sections| - 1;
      FreshRereadPrefix(sections);
      WritablePrefix(sections, n);
      AppliedAll(sections[..n]);
      AppliedAllLast(sections);
    }
  }

  /** The sections before the last are read back under distinct keys too. */
  lemma FreshRereadPrefix(sections: seq<(Scalar, SectionData)>)
    requires |sections| > 0 && FreshKeys(RereadSections(sections))
    ensures FreshKeys(RereadSections(sections[..|sections| - 1]))
  {
    var n := |sections| - 1;
    SnocParts(RereadSections(sections[..n]), RereadSection(sections[n].0, sections[n].1, WrittenCount(sections[..n])));
  }

  /** One more section after the ones already read. */
  lemma {:induction false} AppliedAllLast(sections: seq<(Scalar, SectionData)>)
    requires |sections| > 0 && Writable(sections)
    requires FreshKeys(RereadSections(sections[..|sections| - 1]))
    requires Applied(AllEffects(sections[..|sections| - 1]), Start) == ReadState(sections[..|sections| - 1])
    ensures Applied(AllEffects(sections), Start) == ReadState(sections)
  {
    var n := |sections| - 1;
    var init := sections[..n];
    var r := RereadSections(sections);
    assert r == RereadSections(init) + [RereadSection(sections[n].0, sections[n].1, WrittenCount(init))];
    SnocParts(RereadSections(init), RereadSection(sections[n].0, sections[n].1, WrittenCount(init)));
    FlushedReadState(init);
    AppliedAppend(AllEffects(init), SectionEffects(sections[n].0, sections[n].1, WrittenCount(init)), Start);
    AppliedSection(ReadState(init), sections[n].0, sections[n].1, WrittenCount(init));
  }

  /** `parse(serialize(sections))`: every section comes back, in order, under
      its written name or `<type>_<i>`, with its type, its entries read back in
      order, its uuid read back, and the line number of its header. */
  lemma SerializeThenParse(sections: seq<(Scalar, SectionData)>)
    requires Writable(sections)
    requires Distinct(Keys(RereadSections(sections)))
    ensures Parsed(SerializedText(sections)) == Ok(RereadSections(sections))
  {
    KeptLinesOfText(sections);
    StepReadsWrittenLines();
    AllReads(Step, Apply, sections);
    assert RunsFromAnyState(Step, Apply, KeptAll(sections), 0, AllEffects(sections));
    assert RunWith(Step, Start, KeptAll(sections), 0) == Ok(AppliedWith(Apply, AllEffects(sections), Start));
    AppliedWithApply(AllEffects(sections), Start);
    DistinctFreshKeys(RereadSections(sections));
    AppliedAll(sections);
    FlushedReadState(sections);
  }

  // ---------------------------------------------------------------------------
  // What comes back, section by section and value by value

  /** Section `j` of the parsed text: the key is its written name, or
      `<type>_<i>` when the header carries none, with `i` the number of kept
      lines before it; the type is kept; the entries come back in order, each
      read back; the uuid is read back from its quotes; the line number is
      that of the header. */
  lemma SerializedSectionComesBack(sections: seq<(Scalar, SectionData)>, j: nat)
    requires Writable(sections) && Distinct(Keys(RereadSections(sections)))
    requires j < |sections|
    ensures var parsed := Parsed(SerializedText(sections));
      var key, d := sections[j].0, sections[j].1;
      var i := WrittenCount(sections[..j]);
      var k := HeaderKey(d.sectionType, WrittenName(key, d), i);
      && parsed.Ok? && |parsed.value| == |sections|
      && parsed.value[j] == (k, SectionData(d.sectionType, k, RereadValues(d.values), Some(i + 1), RereadUuid(d.uuid)))
  {
    SerializeThenParse(sections);
    RereadSectionsAt(sections, j);
  }

  lemma {:induction false} RereadSectionsAt(sections: seq<(Scalar, SectionData)>, j: nat)
    requires j < |sections|
    ensures RereadSections(sections)[j] == RereadSection(sections[j].0, sections[j].1, WrittenCount(sections[..j]))
    decreases |sections|
  {
    var n := |sections| - 1;
    SnocAt(RereadSections(sections[..n]), RereadSection(sections[n].0, sections[n].1, WrittenCount(sections[..n])), j);
    if j < n {
      RereadSectionsAt(sections[..n], j);
      PrefixOfPrefix(sections, n, j);
    }
  }

  /** A scalar that reads back as itself: a natural number below 2^53, or a
      non-empty string that needs no quoting, is not all digits, is not a
      boolean word and has no white space at either end nor a line terminator. */
  predicate Plain(x: Scalar) {
    || (x.Int? && 0 <= x.n < 0x20_0000_0000_0000)
    || (x.Str? && |x.s| > 0 && !NeedsQuote(x.s) && !AllDigits(x.s) && x.s != "true" && x.s != "false"
        && !IsSpace(x.s[0]) && !IsSpace(x.s[|x.s| - 1]) && NoLineTerminator(x.s))
  }

  predicate PlainEntry(v: Value) {
    match v
    case Single(x) => Plain(x)
    case List(items) => forall i :: 0 <= i < |items| ==> Plain(items[i])
  }

  /** A plain scalar is written on one line and read back unchanged. */
  lemma PlainComesBack(x: Scalar)
    requires Plain(x)
    ensures WritableScalar(x) && Reread(x) == x
  {
    if x.Int? {
      NaturalRoundTrip(x.n);
      var s := SerializeValue(x);
      assert AllDigits(s);
      assert IsDigit(s[0]) && IsDigit(s[|s| - 1]);
      forall i | 0 <= i < |s| ensures !IsLineTerminator(s[i]) {
        assert IsDigit(s[i]);
      }
    } else {
      PlainStringRoundTrip(x.s);
    }
  }

  /** Booleans are written as `1`/`0` and come back as those numbers. */
  lemma BooleanComesBackAsNumber(b: bool)
    ensures WritableScalar(Bool(b)) && Reread(Bool(b)) == Int(if b then 1 else 0)
  {
    BooleanBecomesNumber(b);
    var s := SerializeValue(Bool(b));
    assert s == "1" || s == "0";
  }

  lemma {:induction false} PlainItemsComeBack(items: seq<Scalar>)
    requires forall i :: 0 <= i < |items| ==> Plain(items[i])
    ensures RereadItems(items) == items
    decreases |items|
  {
    if |items| > 0 {
      var n := |items| - 1;
      assert RereadItems(items) == RereadItems(items[..n]) + [Reread(items[n])];
      PlainItemsComeBack(items[..n]);
      PlainComesBack(items[n]);
      LastSplit(items);
    }
  }

  /** Entries holding plain scalars, alone or in arrays, come back unchanged. */
  lemma {:induction false} PlainValuesComeBack(values: seq<(string, Value)>)
    requires forall j :: 0 <= j < |values| ==> PlainEntry(values[j].1)
    ensures RereadValues(values) == values
    decreases |values|
  {
    if |values| > 0 {
      var n := |values| - 1;
      PlainValuesComeBack(values[..n]);
      var key, v := values[n].0, values[n].1;
      assert RereadValues(values) == RereadValues(values[..n]) + [(key, RereadValue(v))];
      assert RereadValue(v) == v by {
        match v
        case Single(x) => PlainComesBack(x);
        case List(items) => PlainItemsComeBack(items);
      }
      LastSplit(values);
    }
  }

  /** Parsing the written text gives back a section's plain entries unchanged. */
  lemma PlainSectionComesBack(sections: seq<(Scalar, SectionData)>, j: nat)
    requires Writable(sections) && Distinct(Keys(RereadSections(sections)))
    requires j < |sections| && forall i :: 0 <= i < |sections[j].1.values| ==> PlainEntry(sections[j].1.values[i].1)
    ensures var parsed := Parsed(SerializedText(sections));
      parsed.Ok? && |parsed.value| == |sections| && parsed.value[j].1.values == sections[j].1.values
  {
    SerializedSectionComesBack(sections, j);
    PlainValuesComeBack(sections[j].1.values);
  }

  /** Parsing the written text gives a boolean entry back as the number 1 or 0,
      under its key. */
  lemma BooleanEntryComesBackAsNumber(sections: seq<(Scalar, SectionData)>, j: nat, i: nat, b: bool)
    requires Writable(sections) && Distinct(Keys(RereadSections(sections)))
    requires j < |sections| && i < |sections[j].1.values| && sections[j].1.values[i].1 == Single(Bool(b))
    ensures var parsed := Parsed(SerializedText(sections));
      && parsed.Ok? && |parsed.value| == |sections| && |parsed.value[j].1.values| == |sections[j].1.values|
      && parsed.value[j].1.values[i] == (sections[j].1.values[i].0, Single(Int(if b then 1 else 0)))
  {
    SerializedSectionComesBack(sections, j);
    RereadValuesAt(sections[j].1.values, i);
    BooleanComesBackAsNumber(b);
  }

  /** A uuid written between quotes comes back as the same string, unless it
      reads as a number or a boolean word. */
  lemma UuidComesBack(u: string)
    requires |u| > 0 && !AllDigits(u) && u != "true" && u != "false"
    ensures RereadUuid(Some(Str(u))) == Some(Str(u))
  {
    var w := "'" + u + "'";
    assert QuotedWith(w, '\'');
    assert w[1..|w| - 1] == u;
  }
}
