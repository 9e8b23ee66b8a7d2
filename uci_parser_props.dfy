/** What the UCI codec guarantees, and the quirks it really has. */
module UciParserProps {
  import opened Common
  import opened OrderedMap
  import opened UciParser

  // ---------------------------------------------------------------------------
  // Failure: the first malformed kept line, and nothing partial

  /** A kept line that starts like a header, an option or a list entry but does
      not match its pattern. Any other line is never malformed. */
  predicate Malformed(line: string) {
    if StartsWith(line, "config ") then MatchHeader(line).None?
    else if StartsWith(line, "option ") then MatchDirective("option", line).None?
    else if StartsWith(line, "list ") then MatchDirective("list", line).None?
    else false
  }

  /** The message thrown for a malformed line. */
  function Complaint(line: string): string {
    if StartsWith(line, "config ") then "Invalid config line: " + line
    else if StartsWith(line, "option ") then "Invalid option line: " + line
    else "Invalid list line: " + line
  }

  predicate FirstMalformed(lines: seq<string>, j: int) {
    0 <= j < |lines| && Malformed(lines[j]) && forall k :: 0 <= k < j ==> !Malformed(lines[k])
  }

  /** One line fails exactly when it is malformed, whatever was read before
      and wherever it stands; the message quotes the raw line after naming
      the directive. A line that is no directive leaves the state alone. */
  lemma StepFailure(st: ParseState, line: string, i: nat)
    ensures Step(st, line, i).Err? <==> Malformed(line)
    ensures forall st': ParseState, i': nat :: Step(st', line, i').Err? == Step(st, line, i).Err?
    ensures Malformed(line) ==> Step(st, line, i) == Err(Complaint(line))
    ensures Malformed(line) ==> |Complaint(line)| > |line| && Complaint(line)[|Complaint(line)| - |line|..] == line
    ensures !StartsWith(line, "config ") && !StartsWith(line, "option ") && !StartsWith(line, "list ") ==>
      Step(st, line, i) == Ok(st)
  {
    var c := Complaint(line);
    if Malformed(line) {
      var kind := if StartsWith(line, "config ") then "Invalid config line: "
        else if StartsWith(line, "option ") then "Invalid option line: " else "Invalid list line: ";
      assert c == kind + line;
      assert c[|c| - |line|..] == line;
    }
  }

  /** One more line after a successful run. */
  lemma RunWithSnoc(step: (ParseState, string, nat) -> Result<ParseState, string>, st: ParseState, lines: seq<string>, base: nat)
    requires |lines| > 0 && RunWith(step, st, lines[..|lines| - 1], base).Ok?
    ensures RunWith(step, st, lines, base) ==
      match step(RunWith(step, st, lines[..|lines| - 1], base).value, lines[|lines| - 1], base + |lines| - 1)
      case Err(msg) => Err(LineError(base + |lines| - 1, msg))
      case Ok(s') => Ok(s')
  {
  }

  /** The failure behaviour of a run, for any classification `bad` of lines
      that agrees with `step`. */
  lemma {:induction false} RunFailure(step: (ParseState, string, nat) -> Result<ParseState, string>, st: ParseState, lines: seq<string>, base: nat,
                                       bad: string -> bool, complaint: string -> string)
    requires forall s, line, i :: step(s, line, i).Err? <==> bad(line)
    requires forall s, line, i :: bad(line) ==> step(s, line, i) == Err(complaint(line))
    ensures RunWith(step, st, lines, base).Ok? <==> forall j :: 0 <= j < |lines| ==> !bad(lines[j])
    ensures forall j :: 0 <= j < |lines| && bad(lines[j]) && (forall k :: 0 <= k < j ==> !bad(lines[k])) ==>
      RunWith(step, st, lines, base) == Err(LineError(base + j, complaint(lines[j])))
    decreases |lines|
  {
    if |lines| > 0 {
      var n := |lines| - 1;
      var init := lines[..n];
      RunFailure(step, st, init, base, bad, complaint);
      assert forall j :: 0 <= j < n ==> init[j] == lines[j];
      var prefix := RunWith(step, st, init, base);
      if prefix.Err? {
        assert RunWith(step, st, lines, base) == prefix;
        var j0 :| 0 <= j0 < n && bad(init[j0]);
        assert bad(lines[j0]);
        forall j | 0 <= j < |lines| && bad(lines[j]) && (forall k :: 0 <= k < j ==> !bad(lines[k]))
          ensures RunWith(step, st, lines, base) == Err(LineError(base + j, complaint(lines[j])))
        {
          assert j <= j0;
          assert bad(init[j]) && forall k :: 0 <= k < j ==> !bad(init[k]);
        }
      } else {
        RunWithSnoc(step, st, lines, base);
        var r := step(prefix.value, lines[n], base + n);
        assert r.Err? <==> bad(lines[n]);
        if bad(lines[n]) {
          assert r == Err(complaint(lines[n]));
          assert RunWith(step, st, lines, base) == Err(LineError(base + n, complaint(lines[n])));
          assert forall j :: 0 <= j < n ==> !bad(lines[j]);
        } else {
          assert r.Ok?;
          assert RunWith(step, st, lines, base).Ok?;
          assert forall j :: 0 <= j < n ==> !bad(init[j]);
          forall j | 0 <= j < |lines| ensures !bad(lines[j]) {
            if j < n {
              assert lines[j] == init[j];
            }
          }
        }
      }
    }
  }

  /** A run over kept lines fails exactly when one of them is malformed, and then
      with the message of the first one, numbered from `base`. */
  lemma RunLinesFailure(st: ParseState, lines: seq<string>, base: nat)
    ensures RunLines(st, lines, base).Ok? <==> forall j :: 0 <= j < |lines| ==> !Malformed(lines[j])
    ensures forall j :: FirstMalformed(lines, j) ==> RunLines(st, lines, base) == Err(LineError(base + j, Complaint(lines[j])))
  {
    forall s, line, i {
      StepFailure(s, line, i);
    }
    RunFailure(Step, st, lines, base, Malformed, Complaint);
  }

  /** `parse` throws exactly when a kept line is malformed, naming the first one
      by its 1-based position among the kept lines; otherwise it returns a map. */
  lemma ParseFailsAtFirstMalformed(content: string)
    ensures Parsed(content).Ok? <==> forall j :: 0 <= j < |KeptLines(content)| ==> !Malformed(KeptLines(content)[j])
    ensures forall j :: FirstMalformed(KeptLines(content), j) ==>
      Parsed(content) == Err("Parse error at line " + NatToString(j + 1) + ": " + Complaint(KeptLines(content)[j]))
  {
    RunLinesFailure(Start, KeptLines(content), 0);
  }

  /** `validate` reports the section count, or exactly one message naming the
      first malformed kept line and a count of zero. */
  lemma ValidateReportsFirstMalformed(content: string)
    ensures Validate(content).valid <==> forall j :: 0 <= j < |KeptLines(content)| ==> !Malformed(KeptLines(content)[j])
    ensures Validate(content).valid ==> Validate(content).errors == [] && Validate(content).sections == |Parsed(content).value|
    ensures forall j :: FirstMalformed(KeptLines(content), j) ==>
      Validate(content) == Report(false, 0, ["Parse error at line " + NatToString(j + 1) + ": " + Complaint(KeptLines(content)[j])])
  {
    ParseFailsAtFirstMalformed(content);
  }

  // ---------------------------------------------------------------------------
  // Blank lines and comments are dropped before numbering

  /** The kept lines of a concatenation are the kept lines of its parts. */
  lemma {:induction false} KeepAppend(a: seq<string>, b: seq<string>)
    ensures Keep(a + b) == Keep(a) + Keep(b)
    decreases |a|
  {
    if |a| > 0 {
      assert (a + b)[1..] == a[1..] + b;
      KeepAppend(a[1..], b);
    } else {
      assert a + b == b;
    }
  }

  lemma KeepDropped(line: string)
    requires !Kept(line)
    ensures Keep([line]) == []
  {
    assert [line][1..] == [];
  }

  lemma TrimAllAppend(a: seq<string>, b: seq<string>)
    ensures TrimAll(a + b) == TrimAll(a) + TrimAll(b)
  {
  }

  /** Inserting a blank, white-space-only or comment line anywhere leaves the
      kept lines as they were. */
  lemma KeptLinesDropped(a: string, c: string, b: string)
    requires '\n' !in c && !Kept(Trim(c))
    ensures KeptLines(a + "\n" + c + "\n" + b) == KeptLines(a + "\n" + b)
  {
    var nl := '\n';
    var sa, sb := Split(a, nl), Split(b, nl);
    SplitsDropped(a, c, b);
    var ta, tc, tb := TrimAll(sa), TrimAll([c]), TrimAll(sb);
    TrimAllAppend(sa, [c] + sb);
    TrimAllAppend([c], sb);
    TrimAllAppend(sa, sb);
    assert tc == [Trim(c)];
    KeepDropped(Trim(c));
    KeepAppend(tc, tb);
    KeepAppend(ta, tc + tb);
    KeepAppend(ta, tb);
    calc {
      KeptLines(a + "\n" + c + "\n" + b);
      Keep(TrimAll(sa + ([c] + sb)));
      Keep(ta + (tc + tb));
      Keep(ta) + (Keep(tc) + Keep(tb));
      { assert Keep(tc) + Keep(tb) == Keep(tb); }
      Keep(ta) + Keep(tb);
      Keep(ta + tb);
      KeptLines(a + "\n" + b);
    }
  }

  lemma SplitsDropped(a: string, c: string, b: string)
    requires '\n' !in c
    ensures Split(a + "\n" + c + "\n" + b, '\n') == Split(a, '\n') + ([c] + Split(b, '\n'))
    ensures Split(a + "\n" + b, '\n') == Split(a, '\n') + Split(b, '\n')
  {
    var nl := '\n';
    assert a + "\n" + c + "\n" + b == a + [nl] + (c + [nl] + b);
    SplitAround(a, nl, c + [nl] + b);
    SplitAround(c, nl, b);
    SplitNoSep(c, nl);
    SplitAround(a, nl, b);
  }

  /** Inserting a blank, white-space-only or comment line anywhere changes nothing:
      not the sections, not their line numbers, not the error message. */
  lemma DroppedLineInvisible(a: string, c: string, b: string)
    requires '\n' !in c && !Kept(Trim(c))
    ensures Parsed(a + "\n" + c + "\n" + b) == Parsed(a + "\n" + b)
  {
    KeptLinesDropped(a, c, b);
  }

  // ---------------------------------------------------------------------------
  // Lines that change nothing

  /** Before the first header, well-formed `option` and `list` lines and any
      unrecognised line are read and ignored: text without a header parses to
      the empty map. */
  lemma {:induction false} NoHeaderNoSections(lines: seq<string>, base: nat)
    requires forall j :: 0 <= j < |lines| ==> !Malformed(lines[j]) && !StartsWith(lines[j], "config ")
    ensures RunLines(Start, lines, base) == Ok(Start)
    decreases |lines|
  {
    if |lines| > 0 {
      NoHeaderNoSections(lines[..|lines| - 1], base);
    }
  }

  lemma HeaderlessContent(content: string)
    requires forall j :: 0 <= j < |KeptLines(content)| ==>
      !Malformed(KeptLines(content)[j]) && !StartsWith(KeptLines(content)[j], "config ")
    ensures Parsed(content) == Ok([])
  {
    NoHeaderNoSections(KeptLines(content), 0);
  }

  // ---------------------------------------------------------------------------
  // Option and list lines

  /** An `option` line sets `uuid` when its key is `uuid`, and otherwise sets (or
      overwrites, in place) exactly one entry of `values`. */
  lemma SetOptionEffect(st: ParseState, key: string, x: Scalar, j: string)
    requires st.current.Some?
    ensures var (name, d) := st.current.value;
      var (name', d') := SetOption(st, key, x).current.value;
      && name' == name && d'.sectionType == d.sectionType && d'.sectionName == d.sectionName
      && d'.lineNumber == d.lineNumber && SetOption(st, key, x).sections == st.sections
      && (key == "uuid" ==> d'.uuid == Some(x) && d'.values == d.values)
      && (key != "uuid" ==>
            && d'.uuid == d.uuid
            && Get(d'.values, j) == (if j == key then Some(Single(x)) else Get(d.values, j))
            && Keys(d'.values) == (if key in Keys(d.values) then Keys(d.values) else Keys(d.values) + [key]))
  {
    var d := st.current.value.1;
    GetPut(d.values, key, Single(x), j);
    KeysPut(d.values, key, Single(x));
  }

  /** A `list` line appends to the array under its key, starts a one-item array
      when the key is missing or holds a falsy scalar, and is dropped when the key
      holds a truthy scalar. No other key changes. */
  lemma ListAppendedEffect(values: seq<(string, Value)>, key: string, x: Scalar, j: string)
    ensures Get(ListAppended(values, key, x), j) ==
      if j != key then Get(values, j)
      else if Get(values, key).None? then Some(List([x]))
      else if Get(values, key).value.List? then Some(List(Get(values, key).value.items + [x]))
      else if Truthy(Get(values, key).value.x) then Get(values, key)
      else Some(List([x]))
  {
    var prior := Get(values, key);
    if prior.None? || !TruthyValue(prior.value) {
      GetPut(values, key, List([x]), j);
    } else if prior.value.List? {
      GetPut(values, key, List(prior.value.items + [x]), j);
    }
  }

  /** A `list` line on a key that holds a truthy scalar leaves the values alone. */
  lemma ListOnScalarDropped(values: seq<(string, Value)>, key: string, x: Scalar, y: Scalar)
    requires Get(values, key) == Some(Single(y)) && Truthy(y)
    ensures ListAppended(values, key, x) == values
  {
  }

  // ---------------------------------------------------------------------------
  // Headers

  lemma {:induction false} SpaceRunAfter(p: string, s: string)
    requires forall i :: 0 <= i < |p| ==> IsSpace(p[i])
    requires s == "" || !IsSpace(s[0])
    ensures SpaceRun(p + s) == |p|
    decreases |p|
  {
    if |p| > 0 {
      assert (p + s)[1..] == p[1..] + s;
      SpaceRunAfter(p[1..], s);
    } else {
      assert p + s == s;
    }
  }

  lemma {:induction false} WordRunAfter(w: string, s: string)
    requires AllWordChars(w)
    requires s == "" || !IsWordChar(s[0])
    ensures WordRun(w + s) == |w|
    decreases |w|
  {
    if |w| > 0 {
      assert (w + s)[1..] == w[1..] + s;
      WordRunAfter(w[1..], s);
    } else {
      assert w + s == s;
    }
  }

  lemma {:induction false} NonQuoteRunAfter(n: string, s: string)
    requires '\'' !in n && |s| > 0 && s[0] == '\''
    ensures NonQuoteRun(n + s) == |n|
    decreases |n|
  {
    if |n| > 0 {
      assert (n + s)[1..] == n[1..] + s;
      NonQuoteRunAfter(n[1..], s);
    } else {
      assert n + s == s;
    }
  }

  lemma WordCharNotSpace(c: char)
    requires IsWordChar(c)
    ensures !IsSpace(c)
  {
  }

  /** `config`, one space and a word, followed by anything that does not
      continue the word: the word is the type, and the name is read from what
      follows once leading white space is skipped. */
  lemma HeaderShape(typ: string, tail: string)
    requires |typ| > 0 && AllWordChars(typ)
    requires tail == "" || !IsWordChar(tail[0])
    ensures StartsWith("config " + typ + tail, "config ")
    ensures MatchHeader("config " + typ + tail) == Some((typ, QuotedName(tail[SpaceRun(tail)..])))
  {
    assert "config " + typ + tail == "config " + (typ + tail);
    HeaderPrefix(typ + tail);
    WordCharNotSpace(typ[0]);
    SpaceRunAfter(" ", typ + tail);
    WordRunAfter(typ, tail);
    assert (typ + tail)[..|typ|] == typ && (typ + tail)[|typ|..] == tail;
  }

  lemma HeaderPrefix(r: string)
    ensures StartsWith("config " + r, "config ") && StartsWith("config " + r, "config")
    ensures ("config " + r)[6..] == " " + r && (" " + r)[1..] == r
  {
    assert ("config " + r)[..7] == "config ";
    assert ("config " + r)[..6] == "config";
  }

  /** A quoted name is read up to its closing quote. */
  lemma QuotedNameShape(name: string, rest: string)
    requires |name| > 0 && '\'' !in name
    ensures QuotedName("'" + name + "'" + rest) == Some(name)
  {
    var r := "'" + name + "'" + rest;
    assert r[1..] == name + ("'" + rest);
    NonQuoteRunAfter(name, "'" + rest);
    assert r[1..1 + |name|] == name;
  }

  /** The `config` branch of `Step` unfolded for a matching header: a helper
      for the proofs that need the whole new state at once. What the step
      means is stated through lookups by `HeaderOpensSection`. */
  lemma StepHeader(st: ParseState, line: string, i: nat, typ: string, name: Option<string>)
    requires StartsWith(line, "config ") && MatchHeader(line) == Some((typ, name))
    ensures var key := HeaderKey(typ, name, i);
      Step(st, line, i) == Ok(ParseState(Flushed(st), Some((key, SectionData(typ, key, [], Some(i + 1), None)))))
  {
  }

  /** What a matching header line does, seen through lookups: it always
      succeeds; the open section becomes a fresh one keyed by the quoted
      name, or by `<type>_<i>` without one, whose name is that key, with no
      values, no uuid and the 1-based line number `i + 1`; the section that was
      open is stored under its key, taking the place of an earlier one with
      that key, and every other stored section is kept. */
  lemma HeaderOpensSection(st: ParseState, line: string, i: nat, typ: string, name: Option<string>, k: string)
    requires StartsWith(line, "config ") && MatchHeader(line) == Some((typ, name))
    ensures Step(st, line, i).Ok? && Step(st, line, i).value.current.Some?
    ensures Step(st, line, i).value.current.value.0 == if name.Some? then name.value else typ + "_" + NatToString(i)
    ensures Step(st, line, i).value.current.value.1.sectionType == typ
    ensures Step(st, line, i).value.current.value.1.sectionName == Step(st, line, i).value.current.value.0
    ensures Step(st, line, i).value.current.value.1.values == []
    ensures Step(st, line, i).value.current.value.1.uuid == None
    ensures Step(st, line, i).value.current.value.1.lineNumber == Some(i + 1)
    ensures Get(Step(st, line, i).value.sections, k) ==
      if st.current.Some? && k == st.current.value.0 then Some(st.current.value.1) else Get(st.sections, k)
    ensures Keys(Step(st, line, i).value.sections) ==
      if st.current.Some? && st.current.value.0 !in Keys(st.sections) then Keys(st.sections) + [st.current.value.0]
      else Keys(st.sections)
  {
    StepHeader(st, line, i, typ, name);
    if st.current.Some? {
      RepeatedKeyReplaces(st, k);
    }
  }

  /** A quoted name after the type is read up to its closing quote; whatever
      follows is ignored, because the pattern is not anchored at the end. */
  lemma HeaderIgnoresTrailingText(typ: string, name: string, rest: string)
    requires |typ| > 0 && AllWordChars(typ)
    requires |name| > 0 && '\'' !in name
    ensures MatchHeader("config " + typ + " '" + name + "'" + rest) == Some((typ, Some(name)))
  {
    var q := "'" + name + "'" + rest;
    var tail := " " + q;
    assert "config " + typ + " '" + name + "'" + rest == "config " + typ + tail;
    HeaderShape(typ, tail);
    SpaceRunAfter(" ", q);
    assert tail[1..] == q;
    QuotedNameShape(name, rest);
  }

  /** A header without a quoted name: the type is the leading word, anything
      after it that is neither a word character, white space nor a quote is
      ignored, and the section is keyed `<type>_<i>` by its 0-based kept-line
      index. */
  lemma UnnamedHeader(st: ParseState, typ: string, rest: string, i: nat)
    requires |typ| > 0 && AllWordChars(typ)
    requires rest == "" || (!IsWordChar(rest[0]) && !IsSpace(rest[0]) && rest[0] != '\'')
    ensures MatchHeader("config " + typ + rest) == Some((typ, None))
    ensures var key := typ + "_" + NatToString(i);
      Step(st, "config " + typ + rest, i) == Ok(ParseState(Flushed(st), Some((key, SectionData(typ, key, [], Some(i + 1), None)))))
  {
    HeaderShape(typ, rest);
    SpaceRunAfter("", rest);
    assert "" + rest == rest;
    assert QuotedName(rest) == None;
    StepHeader(st, "config " + typ + rest, i, typ, None);
  }

  /** A header whose key is already in the map replaces that section's data but
      keeps its position. */
  lemma RepeatedKeyReplaces(st: ParseState, j: string)
    requires st.current.Some?
    ensures Get(Flushed(st), j) == if j == st.current.value.0 then Some(st.current.value.1) else Get(st.sections, j)
    ensures Keys(Flushed(st)) == if st.current.value.0 in Keys(st.sections) then Keys(st.sections) else Keys(st.sections) + [st.current.value.0]
  {
    GetPut(st.sections, st.current.value.0, st.current.value.1, j);
    KeysPut(st.sections, st.current.value.0, st.current.value.1);
  }

  // ---------------------------------------------------------------------------
  // Values

  /** The digit test comes first, so `1` and `0`, quoted or not, are numbers,
      never booleans; only the words `true` and `false` give booleans. */
  lemma DigitsBeforeBooleans(v: string)
    ensures ParseValue(v).Bool? ==> Unquote(v) == "true" || Unquote(v) == "false"
    ensures ParseValue("1") == Int(1) && ParseValue("0") == Int(0)
    ensures ParseValue("'1'") == Int(1) && ParseValue("\"0\"") == Int(0)
    ensures ParseValue("'true'") == Bool(true) && ParseValue("false") == Bool(false)
  {
    assert Unquote("'1'") == "1";
    assert Unquote("\"0\"") == "0";
    assert Unquote("'true'") == "true";
    assert DigitsValue("1") == 1 && DigitsValue("0") == 0;
  }

  /** Non-negative integers below 2^53, the integers a JavaScript number holds
      exactly, survive writing and reading back. */
  lemma NaturalRoundTrip(n: nat)
    requires n < 0x20_0000_0000_0000
    ensures ParseValue(SerializeValue(Int(n))) == Int(n)
  {
    var s := SerializeValue(Int(n));
    assert !QuotedWith(s, '\'') && !QuotedWith(s, '"');
  }

  /** A negative integer is written with its sign and comes back as a string. */
  lemma NegativeBecomesString(n: int)
    requires n < 0
    ensures ParseValue(SerializeValue(Int(n))) == Str(IntToString(n))
  {
    var s := SerializeValue(Int(n));
    assert s[0] == '-';
    assert !AllDigits(s);
  }

  /** Booleans are written as `1`/`0` and come back as the numbers 1/0. */
  lemma BooleanBecomesNumber(b: bool)
    ensures ParseValue(SerializeValue(Bool(b))) == Int(if b then 1 else 0)
  {
    var s := SerializeValue(Bool(b));
    assert !QuotedWith(s, '\'') && !QuotedWith(s, '"');
  }

  /** A string that needs no quoting, is not all digits and is not a boolean
      word survives writing and reading back. */
  lemma PlainStringRoundTrip(s: string)
    requires !NeedsQuote(s) && !AllDigits(s) && s != "true" && s != "false"
    ensures ParseValue(SerializeValue(Str(s))) == Str(s)
  {
    assert !QuotedWith(s, '\'') && !QuotedWith(s, '"');
  }

  /** A string with a space, a tab or a quote never survives: only an opening
      quote is written, so reading strips nothing or strips a backslash-escaped
      closing quote. */
  lemma QuotedStringLost(s: string)
    requires NeedsQuote(s)
    ensures ParseValue(SerializeValue(Str(s))) != Str(s)
  {
    var w := SerializeValue(Str(s));
    var e := Escape(s);
    assert w == "'" + e;
    var u := Unquote(w);
    if QuotedWith(w, '\'') {
      assert u == e[..|e| - 1];
      if |u| == |s| {
        assert s[|s| - 1] == e[|e| - 1] == '\'';
        assert u[|u| - 1] == e[|e| - 2] == '\\';
      }
    } else {
      assert u == w;
    }
    assert u != s;
  }

  /** An empty string is written as nothing, leaving an `option` line that the
      parser rejects. */
  lemma EmptyStringLineRejected(key: string)
    requires |key| > 0 && AllWordChars(key)
    ensures Malformed(Trim("\toption " + key + " " + SerializeValue(Str(""))))
  {
    TabbedTrailingSpace("option " + key);
    assert "\toption " + key + " " + SerializeValue(Str("")) == "\t" + ("option " + key) + " ";
    DirectiveShape("option", key, "");
    assert "option " + key + "" == "option " + key;
  }

  /** A tab before and a space after are trimmed away. */
  lemma TabbedTrailingSpace(body: string)
    requires |body| > 0 && !IsSpace(body[0]) && !IsSpace(body[|body| - 1])
    ensures Trim("\t" + body + " ") == body
  {
    var t := body + " ";
    assert IsSpace('\t') && IsSpace(' ');
    TrimStartPrefix("\t", t);
    assert "\t" + body + " " == "\t" + t;
    assert TrimStart("\t" + t) == t;
    assert t[..|t| - 1] == body;
    assert TrimEnd(t) == TrimEnd(body) == body;
  }

  /** The keyword, one space and a word, followed by anything that does not
      continue the word: the word is the key, and the value is read from what
      follows. */
  lemma DirectiveShape(kw: string, key: string, tail: string)
    requires |key| > 0 && AllWordChars(key)
    requires tail == "" || !IsWordChar(tail[0])
    ensures StartsWith(kw + " " + key + tail, kw + " ")
    ensures MatchDirective(kw, kw + " " + key + tail) ==
      if DirectiveValue(tail).None? then None else Some((key, DirectiveValue(tail).value))
  {
    var r := key + tail;
    assert kw + " " + key + tail == kw + " " + r;
    assert (kw + " " + r)[..|kw| + 1] == kw + " ";
    assert (kw + " " + r)[..|kw|] == kw;
    assert (kw + " " + r)[|kw|..] == " " + r;
    assert (" " + r)[1..] == r;
    WordCharNotSpace(key[0]);
    SpaceRunAfter(" ", r);
    WordRunAfter(key, tail);
    assert r[..|key|] == key && r[|key|..] == tail;
  }
}
