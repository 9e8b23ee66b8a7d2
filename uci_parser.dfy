/** The UCI text codec: the subset of OpenWrt's UCI syntax made of `config`,
    `option` and `list` lines, read into an insertion-ordered map of sections and
    written back out. */
module UciParser {
  import opened Common
  import opened OrderedMap

  /** What `parseValue` can produce, and what command payloads carry as values. */
  datatype Scalar = Str(s: string) | Int(n: int) | Bool(b: bool)

  /** A section's value under one key: a scalar (`option`) or an array (`list`). */
  datatype Value = Single(x: Scalar) | List(items: seq<Scalar>)

  /** JavaScript truthiness of a scalar: `''`, `0` and `false` are falsy. */
  predicate Truthy(x: Scalar) {
    match x
    case Str(s) => s != ""
    case Int(n) => n != 0
    case Bool(b) => b
  }

  /** Arrays are always truthy. */
  predicate TruthyValue(v: Value) {
    v.List? || Truthy(v.x)
  }

  /** `String(x)`, as a template literal renders it. */
  function Display(x: Scalar): string {
    match x
    case Str(s) => s
    case Int(n) => IntToString(n)
    case Bool(b) => if b then "true" else "false"
  }

  /** One parsed section. `lineNumber` is absent for sections created by a
      command; `uuid` is `null` (None) until an `option uuid` line sets it. */
  datatype SectionData = SectionData(
    sectionType: string,
    sectionName: string,
    values: seq<(string, Value)>,
    lineNumber: Option<nat>,
    uuid: Option<Scalar>)

  // ---------------------------------------------------------------------------
  // Values

  predicate QuotedWith(v: string, q: char) {
    |v| > 0 && v[0] == q && v[|v| - 1] == q
  }

  /** Removes one pair of matching outer quotes; `slice(1, -1)` of a lone quote is empty. */
  function Unquote(v: string): (u: string)
    ensures QuotedWith(v, '\'') || QuotedWith(v, '"') ==> |u| == if |v| >= 2 then |v| - 2 else 0
    ensures !(QuotedWith(v, '\'') || QuotedWith(v, '"')) ==> u == v
  {
    if QuotedWith(v, '\'') || QuotedWith(v, '"') then
      if |v| >= 2 then v[1..|v| - 1] else ""
    else v
  }

  /** `parseValue`: unquote, then the digit test, then the boolean words,
      otherwise the text itself. */
  function ParseValue(v: string): (x: Scalar)
    ensures x.Int? <==> AllDigits(Unquote(v))
    ensures x.Int? ==> x.n >= 0 && x.n == DigitsValue(Unquote(v))
    ensures x.Bool? <==> Unquote(v) == "true" || Unquote(v) == "false"
    ensures x.Bool? ==> (x.b <==> Unquote(v) == "true")
    ensures x.Str? ==> x.s == Unquote(v)
  {
    var u := Unquote(v);
    if AllDigits(u) then Int(DigitsValue(u))
    else if u == "true" || u == "1" then Bool(true)
    else if u == "false" || u == "0" then Bool(false)
    else Str(u)
  }

  /** The characters that make `serializeValue` quote a string. */
  predicate NeedsQuote(s: string) {
    ' ' in s || '\t' in s || '\'' in s || '"' in s
  }

  /** `value.replace(/'/g, "\\'")` */
  function Escape(s: string): (e: string)
    ensures |e| >= |s|
    ensures '\'' in s ==> |e| > |s|
    ensures |s| > 0 ==> |e| > 0 && e[|e| - 1] == s[|s| - 1]
    ensures |s| > 0 && s[|s| - 1] == '\'' ==> |e| >= 2 && e[|e| - 2] == '\\'
  {
    if |s| == 0 then ""
    else
      var c := s[|s| - 1];
      assert '\'' in s ==> '\'' in s[..|s| - 1] || c == '\'';
      Escape(s[..|s| - 1]) + (if c == '\'' then "\\'" else [c])
  }

  /** `serializeValue`: a string that needs quoting gets an opening quote only. */
  function SerializeValue(x: Scalar): (s: string)
    ensures x.Str? && NeedsQuote(x.s) ==> |s| > |x.s| && s[0] == '\''
    ensures x.Bool? ==> AllDigits(s) && DigitsValue(s) == (if x.b then 1 else 0)
    ensures x.Int? && x.n >= 0 ==> AllDigits(s) && DigitsValue(s) == x.n
  {
    match x
    case Str(t) => if NeedsQuote(t) then "'" + Escape(t) else t
    case Bool(b) => if b then "1" else "0"
    case Int(n) => DigitsValueOfNatToString(if n >= 0 then n else 0); IntToString(n)
  }

  // ---------------------------------------------------------------------------
  // The three line patterns, as JavaScript's backtracking matcher reads them

  /** The length of the leading run of `\s`. */
  function SpaceRun(s: string): (n: nat)
    ensures n <= |s| && (forall i :: 0 <= i < n ==> IsSpace(s[i])) && (n < |s| ==> !IsSpace(s[n]))
  {
    if |s| > 0 && IsSpace(s[0]) then 1 + SpaceRun(s[1..]) else 0
  }

  /** The length of the leading run of `\w`. */
  function WordRun(s: string): (n: nat)
    ensures n <= |s| && (forall i :: 0 <= i < n ==> IsWordChar(s[i])) && (n < |s| ==> !IsWordChar(s[n]))
  {
    if |s| > 0 && IsWordChar(s[0]) then 1 + WordRun(s[1..]) else 0
  }

  /** The length of the leading run of `[^']`. */
  function NonQuoteRun(s: string): (n: nat)
    ensures n <= |s| && (forall i :: 0 <= i < n ==> s[i] != '\'') && (n < |s| ==> s[n] == '\'')
  {
    if |s| > 0 && s[0] != '\'' then 1 + NonQuoteRun(s[1..]) else 0
  }

  predicate NoLineTerminator(s: string) {
    forall i :: 0 <= i < |s| ==> !IsLineTerminator(s[i])
  }

  /** The optional `'([^']+)'` group. */
  function QuotedName(r: string): (n: Option<string>)
    ensures n.Some? ==> |n.value| > 0 && '\'' !in n.value
  {
    if |r| > 0 && r[0] == '\'' then
      var q := NonQuoteRun(r[1..]);
      if 0 < q < |r| - 1 then Some(r[1..1 + q]) else None
    else None
  }

  /** `/^config\s+(\w+)\s*(?:'([^']+)')?/`: the type and the optional name.
      Nothing anchors the end, so text after them is ignored. */
  function MatchHeader(line: string): (m: Option<(string, Option<string>)>)
    ensures m.Some? ==> |m.value.0| > 0 && AllWordChars(m.value.0)
  {
    if !StartsWith(line, "config") then None
    else
      var r1 := line[6..];
      var r2 := r1[SpaceRun(r1)..];
      var t := WordRun(r2);
      if SpaceRun(r1) == 0 || t == 0 then None
      else
        var r3 := r2[t..];
        Some((r2[..t], QuotedName(r3[SpaceRun(r3)..])))
  }

  /** `/^<kw>\s+(\w+)\s+(.+)$/`: the key and the raw value. */
  function MatchDirective(kw: string, line: string): (m: Option<(string, string)>)
    ensures m.Some? ==> |m.value.0| > 0 && AllWordChars(m.value.0)
    ensures m.Some? ==> |m.value.1| > 0 && NoLineTerminator(m.value.1)
  {
    if !StartsWith(line, kw) then None
    else
      var r1 := line[|kw|..];
      var r2 := r1[SpaceRun(r1)..];
      var k := WordRun(r2);
      if SpaceRun(r1) == 0 || k == 0 then None
      else
        var v := DirectiveValue(r2[k..]);
        if v.None? then None else Some((r2[..k], v.value))
  }

  /** `\s+(.+)$` on what follows the key. When the greedy `\s+` leaves nothing
      for `(.+)`, the matcher gives back one white-space character. */
  function DirectiveValue(r: string): (v: Option<string>)
    ensures v.Some? ==> |v.value| > 0 && NoLineTerminator(v.value)
  {
    var w := SpaceRun(r);
    var rest := r[w..];
    if w == 0 then None
    else if |rest| > 0 then (if NoLineTerminator(rest) then Some(rest) else None)
    else if w >= 2 && !IsLineTerminator(r[w - 1]) then Some([r[w - 1]])
    else None
  }


  // ---------------------------------------------------------------------------
  // Parsing

  /** `line && !line.startsWith('#')` */
  predicate Kept(line: string) {
    line != "" && !StartsWith(line, "#")
  }

  function TrimAll(lines: seq<string>): (r: seq<string>)
    ensures |r| == |lines| && forall i :: 0 <= i < |lines| ==> r[i] == Trim(lines[i])
  {
    seq(|lines|, i requires 0 <= i < |lines| => Trim(lines[i]))
  }

  function Keep(lines: seq<string>): (r: seq<string>)
    ensures |r| <= |lines| && forall l :: l in r ==> l in lines && Kept(l)
  {
    if |lines| == 0 then []
    else (if Kept(lines[0]) then [lines[0]] else []) + Keep(lines[1..])
  }

  /** The lines `parse` numbers and reads: split on `\n`, trimmed, blanks and
      comments dropped. */
  function KeptLines(content: string): seq<string> {
    Keep(TrimAll(Split(content, '\n')))
  }

  /** The sections saved so far and the one being read (`currentSection`,
      `currentSectionData`). */
  datatype ParseState = ParseState(sections: seq<(string, SectionData)>, current: Option<(string, SectionData)>)

  const Start := ParseState([], None)

  /** The sections after saving the one being read. */
  function Flushed(st: ParseState): seq<(string, SectionData)> {
    if st.current.Some? then Put(st.sections, st.current.value.0, st.current.value.1) else st.sections
  }

  /** An `option` line: `uuid` goes to the uuid field, any other key into `values`. */
  function SetOption(st: ParseState, key: string, x: Scalar): ParseState {
    match st.current
    case None => st
    case Some((name, d)) =>
      if key == "uuid" then st.(current := Some((name, d.(uuid := Some(x)))))
      else st.(current := Some((name, d.(values := Put(d.values, key, Single(x))))))
  }

  /** A `list` line: a missing or falsy entry becomes an empty array, and the
      item is appended only if the entry is an array. */
  function AddListItem(st: ParseState, key: string, x: Scalar): ParseState {
    match st.current
    case None => st
    case Some((name, d)) => st.(current := Some((name, d.(values := ListAppended(d.values, key, x)))))
  }

  /** The values after `list <key> <x>`. */
  function ListAppended(values: seq<(string, Value)>, key: string, x: Scalar): seq<(string, Value)> {
    var prior := Get(values, key);
    if prior.None? || !TruthyValue(prior.value) then Put(values, key, List([x]))
    else if prior.value.List? then Put(values, key, List(prior.value.items + [x]))
    else values
  }

  function HeaderKey(typ: string, name: Option<string>, i: nat): string {
    if name.Some? then name.value else typ + "_" + NatToString(i)
  }

  /** One kept line, at 0-based kept-line index `i`. */
  function Step(st: ParseState, line: string, i: nat): Result<ParseState, string> {
    if StartsWith(line, "config ") then
      match MatchHeader(line)
      case None => Err("Invalid config line: " + line)
      case Some((typ, name)) =>
        var key := HeaderKey(typ, name, i);
        Ok(ParseState(Flushed(st), Some((key, SectionData(typ, key, [], Some(i + 1), None)))))
    else if StartsWith(line, "option ") then
      match MatchDirective("option", line)
      case None => Err("Invalid option line: " + line)
      case Some((key, v)) => Ok(SetOption(st, key, ParseValue(v)))
    else if StartsWith(line, "list ") then
      match MatchDirective("list", line)
      case None => Err("Invalid list line: " + line)
      case Some((key, v)) => Ok(AddListItem(st, key, ParseValue(v)))
    else Ok(st)
  }

  function LineError(i: nat, msg: string): string {
    "Parse error at line " + NatToString(i + 1) + ": " + msg
  }

  /** Reads `lines` with `step`, numbered from `base`; the first failing line
      ends the run, its message prefixed with the line's 1-based number. */
  function RunWith(step: (ParseState, string, nat) -> Result<ParseState, string>, st: ParseState, lines: seq<string>, base: nat): Result<ParseState, string>
    decreases |lines|
  {
    if |lines| == 0 then Ok(st)
    else
      match RunWith(step, st, lines[..|lines| - 1], base)
      case Err(e) => Err(e)
      case Ok(s) =>
        var i := base + |lines| - 1;
        match step(s, lines[|lines| - 1], i)
        case Err(msg) => Err(LineError(i, msg))
        case Ok(s') => Ok(s')
  }

  /** The kept lines read one by one with `Step`. */
  function RunLines(st: ParseState, lines: seq<string>, base: nat): Result<ParseState, string> {
    RunWith(Step, st, lines, base)
  }

  /** What `parse` returns, or the message it throws. */
  function Parsed(content: string): Result<seq<(string, SectionData)>, string> {
    match RunLines(Start, KeptLines(content), 0)
    case Err(e) => Err(e)
    case Ok(st) => Ok(Flushed(st))
  }

  /** Once a prefix of the lines fails, the whole run fails with the same message. */
  lemma {:induction false} RunLinesStaysFailed(st: ParseState, lines: seq<string>, base: nat, j: nat)
    requires j <= |lines| && RunLines(st, lines[..j], base).Err?
    ensures RunLines(st, lines, base) == RunLines(st, lines[..j], base)
    decreases |lines|
  {
    if j < |lines| {
      var init := lines[..|lines| - 1];
      assert init[..j] == lines[..j];
      RunLinesStaysFailed(st, init, base, j);
    } else {
      assert lines[..j] == lines;
    }
  }

  lemma RunLinesNext(lines: seq<string>, i: nat, st: ParseState)
    requires i < |lines| && RunLines(Start, lines[..i], 0) == Ok(st)
    ensures RunLines(Start, lines[..i + 1], 0) ==
      match Step(st, lines[i], i)
      case Err(msg) => Err(LineError(i, msg))
      case Ok(s) => Ok(s)
  {
    assert lines[..i + 1][..i] == lines[..i];
  }

  /** `parse`, line by line as the source does it; each kind of line is read by
      one of the methods below, and a failure ends the loop with the line's
      1-based position. */
  method Parse(content: string) returns (r: Result<seq<(string, SectionData)>, string>)
    ensures r == Parsed(content)
  {
    var lines := KeptLines(content);
    var sections: seq<(string, SectionData)> := [];
    var current: Option<(string, SectionData)> := None;
    for i := 0 to |lines|
      invariant RunLines(Start, lines[..i], 0) == Ok(ParseState(sections, current))
    {
      var line := lines[i];
      RunLinesNext(lines, i, ParseState(sections, current));
      var next: Result<ParseState, string>;
      if StartsWith(line, "config ") {
        next := ReadHeader(sections, current, line, i);
      } else if StartsWith(line, "option ") {
        next := ReadOption(sections, current, line, i);
      } else if StartsWith(line, "list ") {
        next := ReadListItem(sections, current, line, i);
      } else {
        next := Ok(ParseState(sections, current));
      }
      if next.Err? {
        r := Err(LineError(i, next.error));
        RunLinesStaysFailed(Start, lines, 0, i + 1);
        return;
      }
      sections, current := next.value.sections, next.value.current;
    }
    assert lines[..|lines|] == lines;
    if current.Some? {
      sections := Put(sections, current.value.0, current.value.1);
    }
    r := Ok(sections);
  }

  /** A `config` line: save the section being read, then start a new one. */
  method ReadHeader(sections0: seq<(string, SectionData)>, current0: Option<(string, SectionData)>, line: string, i: nat)
    returns (next: Result<ParseState, string>)
    requires StartsWith(line, "config ")
    ensures next == Step(ParseState(sections0, current0), line, i)
  {
    var sections := sections0;
    if current0.Some? {
      sections := Put(sections, current0.value.0, current0.value.1);
    }
    var m := MatchHeader(line);
    if m.None? {
      return Err("Invalid config line: " + line);
    }
    var (typ, name) := m.value;
    var key := if name.Some? then name.value else typ + "_" + NatToString(i);
    next := Ok(ParseState(sections, Some((key, SectionData(typ, key, [], Some(i + 1), None)))));
  }

  /** An `option` line: `uuid` goes to the uuid field, any other key into `values`. */
  method ReadOption(sections: seq<(string, SectionData)>, current0: Option<(string, SectionData)>, line: string, i: nat)
    returns (next: Result<ParseState, string>)
    requires StartsWith(line, "option ") && !StartsWith(line, "config ")
    ensures next == Step(ParseState(sections, current0), line, i)
  {
    var m := MatchDirective("option", line);
    if m.None? {
      return Err("Invalid option line: " + line);
    }
    var (key, v) := m.value;
    var current := current0;
    if current.Some? {
      var (name, d) := current.value;
      var x := ParseValue(v);
      if key == "uuid" {
        d := d.(uuid := Some(x));
      } else {
        d := d.(values := Put(d.values, key, Single(x)));
      }
      current := Some((name, d));
    }
    next := Ok(ParseState(sections, current));
  }

  /** A `list` line: make the entry an array if it is missing or falsy, then
      push the item if the entry is an array. */
  method ReadListItem(sections: seq<(string, SectionData)>, current0: Option<(string, SectionData)>, line: string, i: nat)
    returns (next: Result<ParseState, string>)
    requires StartsWith(line, "list ") && !StartsWith(line, "config ") && !StartsWith(line, "option ")
    ensures next == Step(ParseState(sections, current0), line, i)
  {
    var m := MatchDirective("list", line);
    if m.None? {
      return Err("Invalid list line: " + line);
    }
    var (key, v) := m.value;
    var current := current0;
    if current.Some? {
      var (name, d) := current.value;
      var values := PushListItem(d.values, key, ParseValue(v));
      current := Some((name, d.(values := values)));
    }
    next := Ok(ParseState(sections, current));
  }

  /** The entry update of a `list` line, on the values of the section being read. */
  method PushListItem(values0: seq<(string, Value)>, key: string, x: Scalar) returns (values: seq<(string, Value)>)
    ensures values == ListAppended(values0, key, x)
  {
    values := values0;
    var prior := Get(values, key);
    if prior.None? || !TruthyValue(prior.value) {
      values := Put(values, key, List([]));
      GetPut(values0, key, List([]), key);
    }
    var entry := Get(values, key);
    if entry.Some? && entry.value.List? {
      values := Put(values, key, List(entry.value.items + [x]));
      if prior.None? || !TruthyValue(prior.value) {
        PutPut(values0, key, List([]), List([] + [x]));
        assert [] + [x] == [x];
      }
    }
  }

  /** Setting a key twice keeps only the second value, at the first position. */
  lemma {:induction false} PutPut<K, V>(m: seq<(K, V)>, k: K, v: V, w: V)
    ensures Put(Put(m, k, v), k, w) == Put(m, k, w)
  {
    if |m| > 0 && m[0].0 != k {
      PutPut(m[1..], k, v, w);
      assert Put(m, k, v)[1..] == Put(m[1..], k, v);
    } else if |m| > 0 {
      assert Put(m, k, v)[1..] == m[1..];
    }
  }

  // ---------------------------------------------------------------------------
  // Serialising

  /** `sectionData.sectionName || sectionKey` */
  function HeaderName(key: Scalar, d: SectionData): Scalar {
    if d.sectionName != "" then Str(d.sectionName) else key
  }

  /** The header omits the name when it is falsy or equal to the type. */
  function HeaderLine(key: Scalar, d: SectionData): string {
    var name := HeaderName(key, d);
    if name == Str(d.sectionType) || !Truthy(name) then "config " + d.sectionType
    else "config " + d.sectionType + " '" + Display(name) + "'"
  }

  /** The `option uuid` line, written first when the uuid is truthy. */
  function UuidLines(d: SectionData): seq<string> {
    if d.uuid.Some? && Truthy(d.uuid.value) then ["\toption uuid '" + Display(d.uuid.value) + "'"] else []
  }

  function ListLines(key: string, items: seq<Scalar>): (r: seq<string>)
    ensures |r| == |items|
  {
    if |items| == 0 then []
    else ListLines(key, items[..|items| - 1]) + ["\tlist " + key + " " + SerializeValue(items[|items| - 1])]
  }

  function EntryLines(key: string, v: Value): seq<string> {
    match v
    case Single(x) => ["\toption " + key + " " + SerializeValue(x)]
    case List(items) => ListLines(key, items)
  }

  function ValueLines(values: seq<(string, Value)>): seq<string> {
    if |values| == 0 then []
    else
      var (key, v) := values[|values| - 1];
      ValueLines(values[..|values| - 1]) + EntryLines(key, v)
  }

  /** One section's lines, closed by a blank line. */
  function SectionLines(key: Scalar, d: SectionData): seq<string> {
    [HeaderLine(key, d)] + UuidLines(d) + ValueLines(d.values) + [""]
  }

  function AllLines(sections: seq<(Scalar, SectionData)>): seq<string> {
    if |sections| == 0 then []
    else
      var (key, d) := sections[|sections| - 1];
      AllLines(sections[..|sections| - 1]) + SectionLines(key, d)
  }

  /** What `serialize` returns for a section map keyed by `key` (a uuid in the engines). */
  function SerializedText(sections: seq<(Scalar, SectionData)>): string {
    Join(AllLines(sections), "\n")
  }

  lemma AllLinesNext(sections: seq<(Scalar, SectionData)>, i: nat)
    requires i < |sections|
    ensures AllLines(sections[..i + 1]) == AllLines(sections[..i]) + SectionLines(sections[i].0, sections[i].1)
  {
    assert sections[..i + 1][..i] == sections[..i];
  }

  lemma ValueLinesNext(values: seq<(string, Value)>, j: nat)
    requires j < |values|
    ensures ValueLines(values[..j + 1]) == ValueLines(values[..j]) + EntryLines(values[j].0, values[j].1)
  {
    assert values[..j + 1][..j] == values[..j];
  }

  lemma ListLinesNext(key: string, items: seq<Scalar>, n: nat)
    requires n < |items|
    ensures ListLines(key, items[..n + 1]) == ListLines(key, items[..n]) + ["\tlist " + key + " " + SerializeValue(items[n])]
  {
    assert items[..n + 1][..n] == items[..n];
  }

  /** `serialize`: one pass over the sections, pushing lines. */
  method Serialize(sections: seq<(Scalar, SectionData)>) returns (text: string)
    ensures text == SerializedText(sections)
  {
    var lines: seq<string> := [];
    for i := 0 to |sections|
      invariant lines == AllLines(sections[..i])
    {
      var (key, d) := sections[i];
      AllLinesNext(sections, i);
      lines := PushSection(lines, key, d);
    }
    assert sections[..|sections|] == sections;
    text := Join(lines, "\n");
  }

  /** The body of `serialize`'s outer loop: the header, the uuid, then one line
      per option and per list item, then the blank separator. */
  method PushSection(lines0: seq<string>, key: Scalar, d: SectionData) returns (lines: seq<string>)
    ensures lines == lines0 + SectionLines(key, d)
  {
    lines := lines0;
    var name := if d.sectionName != "" then Str(d.sectionName) else key;
    if name == Str(d.sectionType) || !Truthy(name) {
      lines := lines + ["config " + d.sectionType];
    } else {
      lines := lines + ["config " + d.sectionType + " '" + Display(name) + "'"];
    }
    if d.uuid.Some? && Truthy(d.uuid.value) {
      lines := lines + ["\toption uuid '" + Display(d.uuid.value) + "'"];
    }
    assert lines == lines0 + [HeaderLine(key, d)] + UuidLines(d);
    ghost var head := lines;
    for j := 0 to |d.values|
      invariant lines == head + ValueLines(d.values[..j])
    {
      var (k, v) := d.values[j];
      ValueLinesNext(d.values, j);
      ghost var entryStart := lines;
      lines := PushEntry(lines, k, v);
      Associative(head, ValueLines(d.values[..j]), EntryLines(k, v));
    }
    assert d.values[..|d.values|] == d.values;
    assert lines == lines0 + [HeaderLine(key, d)] + UuidLines(d) + ValueLines(d.values);
    lines := lines + [""];
    Associative(lines0, [HeaderLine(key, d)] + UuidLines(d) + ValueLines(d.values), [""]);
    Associative(lines0, [HeaderLine(key, d)] + UuidLines(d), ValueLines(d.values));
    Associative(lines0, [HeaderLine(key, d)], UuidLines(d));
  }

  /** One `option` line, or one `list` line per array item. */
  method PushEntry(lines0: seq<string>, k: string, v: Value) returns (lines: seq<string>)
    ensures lines == lines0 + EntryLines(k, v)
  {
    lines := lines0;
    match v {
      case List(items) =>
        for n := 0 to |items|
          invariant lines == lines0 + ListLines(k, items[..n])
        {
          ListLinesNext(k, items, n);
          lines := lines + ["\tlist " + k + " " + SerializeValue(items[n])];
        }
        assert items[..|items|] == items;
      case Single(x) =>
        lines := lines + ["\toption " + k + " " + SerializeValue(x)];
    }
  }

  // ---------------------------------------------------------------------------
  // Validation

  /** `{ valid, sections, errors }` */
  datatype Report = Report(valid: bool, sections: nat, errors: seq<string>)

  /** `validate`: the section count, or the parse error as the only message. */
  function Validate(content: string): (r: Report)
    ensures r.valid <==> Parsed(content).Ok?
    ensures r.valid ==> r.errors == [] && r.sections == |Parsed(content).value|
    ensures !r.valid ==> r.sections == 0 && r.errors == [Parsed(content).error]
  {
    match Parsed(content)
    case Ok(m) => Report(true, |m|, [])
    case Err(e) => Report(false, 0, [e])
  }
}
