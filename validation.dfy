/** The request validators of the HTTP layer (src/api/validation.js): file and
    section names, uuids, and the per-type value rules where no rule applies.
    An absent argument is `None`; the empty string is as falsy as an absent one. */
module Validation {
  import opened Common

  /** `{ valid: true }` or `{ valid: false, error }` */
  datatype Verdict = Valid | Invalid(error: string)

  // ---------------------------------------------------------------------------
  // Names

  /** `[a-zA-Z0-9_-]` */
  predicate IsNameChar(c: char) {
    'a' <= c <= 'z' || 'A' <= c <= 'Z' || '0' <= c <= '9' || c == '_' || c == '-'
  }

  /** `/^[a-zA-Z0-9_-]+$/.test(s)` */
  predicate IsName(s: string) {
    |s| > 0 && forall i :: 0 <= i < |s| ==> IsNameChar(s[i])
  }

  /** `s.includes('..')` */
  predicate HasDotDot(s: string) {
    exists i :: 0 <= i < |s| - 1 && s[i] == '.' && s[i + 1] == '.'
  }

  /** `s.includes('..') || s.includes('/') || s.includes('\\')` */
  predicate Traverses(s: string) {
    HasDotDot(s) || '/' in s || '\\' in s
  }

  /** `!x` for a string argument */
  predicate Missing(x: Option<string>) {
    x.None? || x.value == ""
  }

  const FileNameRequired: string := "File name is required"
  const TraversalRejected: string := "Invalid file name: path traversal not allowed"
  const HiddenRejected: string := "Invalid file name: hidden files not allowed"
  const FileNameCharset: string := "Invalid file name: only alphanumeric, underscore, and dash allowed"

  /** `validateFileName`: presence, then traversal, then hidden files, then the
      character set, the first failing check giving the error. */
  function FileNameVerdict(fileName: Option<string>): Verdict {
    if Missing(fileName) then Invalid(FileNameRequired)
    else if Traverses(fileName.value) then Invalid(TraversalRejected)
    else if fileName.value[0] == '.' then Invalid(HiddenRejected)
    else if !IsName(fileName.value) then Invalid(FileNameCharset)
    else Valid
  }

  /** A file name is accepted exactly when it is present and made only of
      letters, digits, `_` and `-`: the traversal and hidden-file checks never
      reject such a name. */
  lemma FileNameValidIff(fileName: Option<string>)
    ensures FileNameVerdict(fileName) == Valid <==> fileName.Some? && IsName(fileName.value)
  {
    if fileName.Some? && IsName(fileName.value) {
      var s := fileName.value;
      forall i | 0 <= i < |s| ensures s[i] != '.' && s[i] != '/' && s[i] != '\\' {
        assert IsNameChar(s[i]);
      }
    }
  }

  /** Which error a rejected file name gets: a missing one is required; a
      present one with `..`, `/` or `\` is a traversal even when it also starts
      with `.`; a hidden name is reported as such only when it does not
      traverse; every other rejection is the character set. */
  lemma FileNameErrorOrder(fileName: Option<string>)
    ensures Missing(fileName) ==> FileNameVerdict(fileName) == Invalid(FileNameRequired)
    ensures !Missing(fileName) && Traverses(fileName.value) ==> FileNameVerdict(fileName) == Invalid(TraversalRejected)
    ensures !Missing(fileName) && !Traverses(fileName.value) && fileName.value[0] == '.' ==>
      FileNameVerdict(fileName) == Invalid(HiddenRejected)
    ensures FileNameVerdict(fileName).Invalid? ==>
      FileNameVerdict(fileName).error in {FileNameRequired, TraversalRejected, HiddenRejected, FileNameCharset}
  {
  }

  /** A leading `..` is a traversal, not a hidden file. */
  lemma DotDotIsTraversal(rest: string)
    ensures FileNameVerdict(Some(".." + rest)) == Invalid(TraversalRejected)
  {
    var s := ".." + rest;
    assert s[0] == '.' && s[1] == '.';
  }

  const SectionNameRequired: string := "Section name is required"
  const SectionNameCharset: string := "Invalid section name: only alphanumeric, underscore, and dash allowed"

  /** `validateSectionName` */
  function SectionNameVerdict(sectionName: Option<string>): Verdict {
    if Missing(sectionName) then Invalid(SectionNameRequired)
    else if !IsName(sectionName.value) then Invalid(SectionNameCharset)
    else Valid
  }

  /** A section name is accepted exactly when it is present and made only of
      letters, digits, `_` and `-`; file and section names are accepted alike. */
  lemma SectionNameValidIff(sectionName: Option<string>)
    ensures SectionNameVerdict(sectionName) == Valid <==> sectionName.Some? && IsName(sectionName.value)
    ensures SectionNameVerdict(sectionName) == Valid <==> FileNameVerdict(sectionName) == Valid
  {
    FileNameValidIff(sectionName);
  }

  // ---------------------------------------------------------------------------
  // Uuids

  /** `[0-9a-f]` under the `i` flag */
  predicate IsHex(c: char) {
    '0' <= c <= '9' || 'a' <= c <= 'f' || 'A' <= c <= 'F'
  }

  predicate AllHex(s: string) {
    forall i :: 0 <= i < |s| ==> IsHex(s[i])
  }

  /** Where the four dashes of a uuid stand. */
  predicate IsDashPosition(i: int) {
    i == 8 || i == 13 || i == 18 || i == 23
  }

  /** `/^[0-9a-f]{8}-[0-9a-f]{4}-[1-5][0-9a-f]{3}-[89ab][0-9a-f]{3}-[0-9a-f]{12}$/i`,
      position by position: 36 characters, dashes at 8, 13, 18 and 23, hex
      digits elsewhere, a version digit 1 to 5 at 14 and a variant digit 8, 9,
      a or b at 19. */
  predicate IsUuid(s: string) {
    |s| == 36 &&
    (forall i :: 0 <= i < 36 ==> if IsDashPosition(i) then s[i] == '-' else IsHex(s[i])) &&
    '1' <= s[14] <= '5' &&
    s[19] in {'8', '9', 'a', 'b', 'A', 'B'}
  }

  const UuidRequired: string := "UUID is required"
  const UuidMalformed: string := "Invalid UUID format"

  /** `validateUUID` */
  function UuidVerdict(uuid: Option<string>): (v: Verdict)
    ensures v == Valid <==> uuid.Some? && IsUuid(uuid.value)
  {
    if Missing(uuid) then Invalid(UuidRequired)
    else if !IsUuid(uuid.value) then Invalid(UuidMalformed)
    else Valid
  }

  /** The regular expression read group by group: five hex groups of 8, 4, 4, 4
      and 12 digits joined by dashes, the third opening with the version digit
      1 to 5 and the fourth with the variant digit 8, 9, a or b. */
  ghost predicate IsGroupedUuid(s: string) {
    exists g1, g2, g3, g4, g5 ::
      |g1| == 8 && |g2| == 4 && |g3| == 4 && |g4| == 4 && |g5| == 12 &&
      AllHex(g1) && AllHex(g2) && AllHex(g3) && AllHex(g4) && AllHex(g5) &&
      '1' <= g3[0] <= '5' && g4[0] in {'8', '9', 'a', 'b', 'A', 'B'} &&
      s == g1 + "-" + g2 + "-" + g3 + "-" + g4 + "-" + g5
  }

  /** The two readings agree: `validateUUID` accepts exactly the dash-joined
      hex groups of the standard layout, with version and variant digits. */
  lemma UuidGroups(s: string)
    ensures IsUuid(s) <==> IsGroupedUuid(s)
  {
    if IsUuid(s) {
      UuidHasGroups(s);
    }
    if IsGroupedUuid(s) {
      var g1, g2, g3, g4, g5 :| |g1| == 8 && |g2| == 4 && |g3| == 4 && |g4| == 4 && |g5| == 12 &&
        AllHex(g1) && AllHex(g2) && AllHex(g3) && AllHex(g4) && AllHex(g5) &&
        '1' <= g3[0] <= '5' && g4[0] in {'8', '9', 'a', 'b', 'A', 'B'} &&
        s == g1 + "-" + g2 + "-" + g3 + "-" + g4 + "-" + g5;
      GroupsMakeUuid(g1, g2, g3, g4, g5);
    }
  }

  /** Cutting an accepted uuid at its dashes gives the five groups. */
  lemma UuidHasGroups(s: string)
    requires IsUuid(s)
    ensures IsGroupedUuid(s)
  {
    var g1, g2, g3, g4, g5 := s[..8], s[9..13], s[14..18], s[19..23], s[24..];
    CutAtDashes(s);
    forall i | 0 <= i < 8 ensures IsHex(g1[i]) { assert !IsDashPosition(i); }
    forall i | 0 <= i < 4 ensures IsHex(g2[i]) && IsHex(g3[i]) && IsHex(g4[i]) {
      assert !IsDashPosition(9 + i) && !IsDashPosition(14 + i) && !IsDashPosition(19 + i);
    }
    forall i | 0 <= i < 12 ensures IsHex(g5[i]) { assert !IsDashPosition(24 + i); }
    assert g3[0] == s[14] && g4[0] == s[19];
    assert AllHex(g1) && AllHex(g2) && AllHex(g3) && AllHex(g4) && AllHex(g5);
  }

  /** A 36-character string with dashes in the uuid positions is its four
      dash-separated slices joined back together. */
  lemma CutAtDashes(s: string)
    requires |s| == 36 && s[8] == '-' && s[13] == '-' && s[18] == '-' && s[23] == '-'
    ensures s == s[..8] + "-" + s[9..13] + "-" + s[14..18] + "-" + s[19..23] + "-" + s[24..]
  {
    var t := s[..8] + "-" + s[9..13] + "-" + s[14..18] + "-" + s[19..23] + "-" + s[24..];
    forall i | 0 <= i < 36 ensures t[i] == s[i] {
    }
  }

  /** Joining five well-formed groups with dashes gives an accepted uuid. */
  lemma GroupsMakeUuid(g1: string, g2: string, g3: string, g4: string, g5: string)
    requires |g1| == 8 && |g2| == 4 && |g3| == 4 && |g4| == 4 && |g5| == 12
    requires AllHex(g1) && AllHex(g2) && AllHex(g3) && AllHex(g4) && AllHex(g5)
    requires '1' <= g3[0] <= '5' && g4[0] in {'8', '9', 'a', 'b', 'A', 'B'}
    ensures IsUuid(g1 + "-" + g2 + "-" + g3 + "-" + g4 + "-" + g5)
  {
    var s := g1 + "-" + g2 + "-" + g3 + "-" + g4 + "-" + g5;
    forall i | 0 <= i < 36 ensures if IsDashPosition(i) then s[i] == '-' else IsHex(s[i]) {
      if i < 8 { assert s[i] == g1[i]; }
      else if 9 <= i < 13 { assert s[i] == g2[i - 9]; }
      else if 14 <= i < 18 { assert s[i] == g3[i - 14]; }
      else if 19 <= i < 23 { assert s[i] == g4[i - 19]; }
      else if 24 <= i { assert s[i] == g5[i - 24]; }
    }
    assert s[14] == g3[0] && s[19] == g4[0];
  }

  /** ASCII lower case, as the `i` flag compares. */
  function Lower(s: string): (r: string)
    ensures |r| == |s|
    ensures forall i :: 0 <= i < |s| ==> r[i] == LowerChar(s[i])
  {
    seq(|s|, i requires 0 <= i < |s| => LowerChar(s[i]))
  }

  function LowerChar(c: char): char {
    if 'A' <= c <= 'Z' then (c as int + 32) as char else c
  }

  /** Case does not matter: a uuid is accepted exactly when its lower-case
      spelling is. */
  lemma UuidIgnoresCase(s: string)
    ensures UuidVerdict(Some(s)) == UuidVerdict(Some(Lower(s)))
  {
    var l := Lower(s);
    if |s| == 36 {
      forall i | 0 <= i < 36 ensures (s[i] == '-' <==> l[i] == '-') && (IsHex(s[i]) <==> IsHex(l[i])) {
      }
      assert ('1' <= s[14] <= '5') == ('1' <= l[14] <= '5');
      assert (s[19] in {'8', '9', 'a', 'b', 'A', 'B'}) == (l[19] in {'8', '9', 'a', 'b', 'A', 'B'});
      assert IsUuid(s) == IsUuid(l);
    }
  }

  // ---------------------------------------------------------------------------
  // Values

  /** The keys `getValidationRules(sectionType)` has a rule for; a section type
      without a table gets `{}`. */
  function RuleKeys(sectionType: string): seq<string> {
    if sectionType == "interface" then ["proto", "ifname", "ipaddr", "netmask", "gateway", "dns", "metric"]
    else if sectionType == "wifi-device" then ["type", "channel", "hwmode", "htmode", "txpower", "disabled"]
    else if sectionType == "wifi-iface" then ["device", "network", "mode", "ssid", "encryption", "key", "hidden", "isolate"]
    else if sectionType == "firewall" then ["input", "output", "forward", "masq", "mtu_fix"]
    else if sectionType == "rule" then ["name", "src", "dest", "proto", "src_port", "dest_port", "target"]
    else []
  }

  /** `validateUCIValue`. `rule(sectionType, key)` stands for the rule's own
      check of `value`, its error message when it fails; it is consulted only
      when the table has a rule for the key. */
  function ValueVerdict<V>(key: string, value: V, sectionType: string, rule: (string, string, V) -> Option<string>): Verdict {
    if key in RuleKeys(sectionType) then
      match rule(sectionType, key, value)
      case Some(message) => Invalid("Invalid value for " + key + ": " + message)
      case None => Valid
    else Valid
  }

  /** Without a table for the section type, or without a rule for the key,
      every value is valid whatever a rule would have said. */
  lemma NoRuleMeansValid<V>(key: string, value: V, sectionType: string, rule: (string, string, V) -> Option<string>)
    requires key !in RuleKeys(sectionType)
    ensures ValueVerdict(key, value, sectionType, rule) == Valid
    ensures sectionType !in {"interface", "wifi-device", "wifi-iface", "firewall", "rule"} ==> RuleKeys(sectionType) == []
  {
  }

  /** Where a rule exists, the verdict is the rule's, its message prefixed by
      the key. */
  lemma RuleDecides<V>(key: string, value: V, sectionType: string, rule: (string, string, V) -> Option<string>)
    requires key in RuleKeys(sectionType)
    ensures ValueVerdict(key, value, sectionType, rule) == Valid <==> rule(sectionType, key, value).None?
    ensures rule(sectionType, key, value).Some? ==>
      ValueVerdict(key, value, sectionType, rule) == Invalid("Invalid value for " + key + ": " + rule(sectionType, key, value).value)
  {
  }
}
