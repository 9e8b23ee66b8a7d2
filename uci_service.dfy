/** The HTTP-side service (src/api/services/uciService.js): the topic filter its
    bus queries use, the file list it assembles from the retained `config/...`
    topics, and the command records it sends to the engine. */
module UciService {
  import opened Common
  import opened OrderedMap
  import opened UciParser
  import opened UciIo
  import M = MqttUciManager
  import MP = MqttUciManagerProps

  // ---------------------------------------------------------------------------
  // Topic filters

  /** One filter segment against one topic segment: `+` stands for any segment,
      the empty one included; anything else, `#` too, must be equal. */
  predicate SegmentMatches(p: string, t: string) {
    p == "+" || p == t
  }

  /** Segment by segment, with as many segments on each side. */
  predicate SegmentsMatch(ps: seq<string>, ts: seq<string>) {
    |ps| == |ts| && forall i :: 0 <= i < |ps| ==> SegmentMatches(ps[i], ts[i])
  }

  /** What `topicMatches(pattern, topic)` answers. */
  predicate Matches(pattern: string, topic: string) {
    SegmentsMatch(Split(pattern, '/'), Split(topic, '/'))
  }

  /** `topicMatches`: split both on `/`, refuse different lengths, then stop at
      the first segment that is neither `+` nor equal. */
  method TopicMatches(pattern: string, topic: string) returns (b: bool)
    ensures b <==> Matches(pattern, topic)
  {
    var patternParts := Split(pattern, '/');
    var topicParts := Split(topic, '/');
    if |patternParts| != |topicParts| {
      return false;
    }
    for i := 0 to |patternParts|
      invariant forall j :: 0 <= j < i ==> SegmentMatches(patternParts[j], topicParts[j])
    {
      if patternParts[i] != "+" && patternParts[i] != topicParts[i] {
        return false;
      }
    }
    return true;
  }

  /** A filter with no `+` segment matches exactly the topic it spells: every
      topic matches itself, and nothing is a wildcard but `+`. */
  lemma LiteralFilterMatchesOnlyItself(pattern: string, topic: string)
    requires forall i :: 0 <= i < |Split(pattern, '/')| ==> Split(pattern, '/')[i] != "+"
    ensures Matches(pattern, topic) <==> pattern == topic
  {
    if Matches(pattern, topic) {
      var ps, ts := Split(pattern, '/'), Split(topic, '/');
      assert forall i :: 0 <= i < |ps| ==> ps[i] == ts[i];
      assert ps == ts;
      JoinSplit(pattern, '/');
      JoinSplit(topic, '/');
    }
  }

  /** `#` is no multi-level wildcard here: `config/#` matches only itself, not
      the topics below `config/`. */
  lemma HashIsLiteral(topic: string)
    ensures Matches("config/#", topic) <==> topic == "config/#"
  {
    HashFilterSegments();
    LiteralFilterMatchesOnlyItself("config/#", topic);
  }

  lemma HashFilterSegments()
    ensures Split("config/#", '/') == ["config", "#"]
  {
    var parts := ["config", "#"];
    assert Join(parts, "/") == "config/#";
    SplitJoin(parts, '/');
  }

  /** Filters and topics compose around a separator: when the fronts split
      into as many segments, the whole matches exactly when both halves do. */
  lemma MatchesAround(p1: string, p2: string, t1: string, t2: string)
    requires |Split(p1, '/')| == |Split(t1, '/')|
    ensures Matches(p1 + ['/'] + p2, t1 + ['/'] + t2) <==> Matches(p1, t1) && Matches(p2, t2)
  {
    SplitAround(p1, '/', p2);
    SplitAround(t1, '/', t2);
    ConcatMatch(Split(p1, '/'), Split(p2, '/'), Split(t1, '/'), Split(t2, '/'));
  }

  /** Segment lists match piecewise when the fronts are equally long. */
  lemma ConcatMatch(ps1: seq<string>, ps2: seq<string>, ts1: seq<string>, ts2: seq<string>)
    requires |ps1| == |ts1|
    ensures SegmentsMatch(ps1 + ps2, ts1 + ts2) <==> SegmentsMatch(ps1, ts1) && SegmentsMatch(ps2, ts2)
  {
    var ps, ts := ps1 + ps2, ts1 + ts2;
    if SegmentsMatch(ps, ts) {
      forall i | 0 <= i < |ps1| ensures SegmentMatches(ps1[i], ts1[i]) {
        assert ps[i] == ps1[i] && ts[i] == ts1[i];
      }
      forall i | 0 <= i < |ps2| ensures SegmentMatches(ps2[i], ts2[i]) {
        assert ps[|ps1| + i] == ps2[i] && ts[|ts1| + i] == ts2[i];
      }
    }
    if SegmentsMatch(ps1, ts1) && SegmentsMatch(ps2, ts2) {
      forall i | 0 <= i < |ps| ensures SegmentMatches(ps[i], ts[i]) {
        if i < |ps1| {
          assert ps[i] == ps1[i] && ts[i] == ts1[i];
        } else {
          assert ps[i] == ps2[i - |ps1|] && ts[i] == ts2[i - |ts1|];
        }
      }
    }
  }

  /** A trailing `/+` accepts any one more segment, the empty one included. */
  lemma PlusMatchesAnySegment(pattern: string, topic: string, segment: string)
    requires Matches(pattern, topic) && '/' !in segment
    ensures Matches(pattern + "/+", topic + "/" + segment)
  {
    assert pattern + "/+" == pattern + ['/'] + "+";
    assert topic + "/" + segment == topic + ['/'] + segment;
    SplitNoSep("+", '/');
    SplitNoSep(segment, '/');
    MatchesAround(pattern, "+", topic, segment);
  }

  /** The filter `listUCIFiles` queries. */
  const ConfigFilter: string := "config/+/+/+"

  lemma ConfigFilterSegments()
    ensures Split(ConfigFilter, '/') == ["config", "+", "+", "+"]
  {
    var parts := ["config", "+", "+", "+"];
    assert Join(parts, "/") == ConfigFilter;
    SplitJoin(parts, '/');
  }

  /** A filter spelling `config`, `+`, `+`, `+` matches exactly the
      four-segment topics whose first segment is `config`. */
  lemma ConfigShapedFilterMatches(pattern: string, topic: string)
    requires Split(pattern, '/') == ["config", "+", "+", "+"]
    ensures Matches(pattern, topic) <==> |Split(topic, '/')| == 4 && Split(topic, '/')[0] == "config"
  {
    var ps, ts := Split(pattern, '/'), Split(topic, '/');
    if |ts| == 4 && ts[0] == "config" {
      forall i | 0 <= i < |ps| ensures SegmentMatches(ps[i], ts[i]) {
        assert i == 0 || ps[i] == "+";
      }
    }
  }

  /** `config/+/+/+` matches exactly the four-segment topics whose first
      segment is `config`, whatever the other three hold. */
  lemma ConfigFilterMatches(topic: string)
    ensures Matches(ConfigFilter, topic) <==> |Split(topic, '/')| == 4 && Split(topic, '/')[0] == "config"
  {
    ConfigFilterSegments();
    ConfigShapedFilterMatches(ConfigFilter, topic);
  }

  // ---------------------------------------------------------------------------
  // listUCIFiles

  /** `[...new Set(xs)]`: each element once, in order of first appearance. */
  function Deduplicated<T(==)>(xs: seq<T>): seq<T>
    decreases |xs|
  {
    if |xs| == 0 then []
    else
      var d := Deduplicated(xs[..|xs| - 1]);
      if xs[|xs| - 1] in d then d else d + [xs[|xs| - 1]]
  }

  /** Where `x` first appears in `xs`. */
  function FirstIndex<T(==)>(xs: seq<T>, x: T): (i: nat)
    requires x in xs
    ensures i < |xs| && xs[i] == x && x !in xs[..i]
  {
    if xs[0] == x then 0 else 1 + FirstIndex(xs[1..], x)
  }

  /** The set keeps every element and no other, each once, in the order in
      which each first appeared. */
  lemma {:induction false} DeduplicatedSpec<T>(xs: seq<T>)
    ensures Distinct(Deduplicated(xs))
    ensures forall x :: x in Deduplicated(xs) <==> x in xs
    ensures forall i, j :: 0 <= i < j < |Deduplicated(xs)| ==>
      FirstIndex(xs, Deduplicated(xs)[i]) < FirstIndex(xs, Deduplicated(xs)[j])
    decreases |xs|
  {
    if |xs| > 0 {
      var init := xs[..|xs| - 1];
      var x := xs[|xs| - 1];
      DeduplicatedSpec(init);
      var d := Deduplicated(init);
      LastSplit(xs);
      forall y | y in init ensures FirstIndex(xs, y) == FirstIndex(init, y) {
        FirstIndexPrefix(init, [x], y);
      }
      if x !in d {
        assert x !in init;
        assert FirstIndex(xs, x) == |init| by {
          assert xs[..|init|] == init;
        }
      }
    }
  }

  /** Appending leaves the first appearance of an element already present. */
  lemma {:induction false} FirstIndexPrefix<T>(a: seq<T>, b: seq<T>, y: T)
    requires y in a
    ensures FirstIndex(a + b, y) == FirstIndex(a, y)
  {
    if a[0] != y {
      assert (a + b)[1..] == a[1..] + b;
      FirstIndexPrefix(a[1..], b, y);
    }
  }

  /** The topics a `queryMQTTTopics(pattern)` collects from the retained
      messages it receives: those the filter matches, each once, in the order
      received. */
  function Collected(pattern: string, received: seq<string>): seq<string> {
    Deduplicated(Filtered(pattern, received))
  }

  function Filtered(pattern: string, received: seq<string>): (r: seq<string>)
    ensures forall t :: t in r <==> t in received && Matches(pattern, t)
  {
    if |received| == 0 then []
    else (if Matches(pattern, received[0]) then [received[0]] else []) + Filtered(pattern, received[1..])
  }

  /** `topics.map(topic => topic.split('/')[1])` */
  function SecondSegments(topics: seq<string>): (r: seq<string>)
    requires forall t :: t in topics ==> |Split(t, '/')| >= 2
    ensures |r| == |topics|
  {
    seq(|topics|, i requires 0 <= i < |topics| => Split(topics[i], '/')[1])
  }

  /** The second segments are those of the topics, no more. */
  lemma SecondSegmentsSpec(topics: seq<string>)
    requires forall t :: t in topics ==> |Split(t, '/')| >= 2
    ensures forall f :: f in SecondSegments(topics) <==> exists t :: t in topics && Split(t, '/')[1] == f
  {
    var names := SecondSegments(topics);
    forall f ensures f in names <==> exists t :: t in topics && Split(t, '/')[1] == f {
      if f in names {
        var i :| 0 <= i < |names| && names[i] == f;
        assert topics[i] in topics;
      }
      if exists t :: t in topics && Split(t, '/')[1] == f {
        var t :| t in topics && Split(t, '/')[1] == f;
        var i :| 0 <= i < |topics| && topics[i] == t;
        assert names[i] == f;
      }
    }
  }

  /** The result of `listUCIFiles` without its timestamp. */
  datatype FileList = FileList(files: seq<string>, count: nat)

  /** A filter spelling `config/+/+/+` collects exactly the received topics
      with four segments, the first `config`. */
  lemma CollectedByShape(pattern: string, received: seq<string>)
    requires Split(pattern, '/') == ["config", "+", "+", "+"]
    ensures forall t :: t in Collected(pattern, received) <==> t in received && |Split(t, '/')| == 4 && Split(t, '/')[0] == "config"
  {
    DeduplicatedSpec(Filtered(pattern, received));
    forall t {
      ConfigShapedFilterMatches(pattern, t);
    }
  }

  /** The file names listed from the topics a `config/+/+/+` filter collects:
      their second segments, each once, in the order the topics name them. */
  function FilesCollected(pattern: string, received: seq<string>): FileList
    requires Split(pattern, '/') == ["config", "+", "+", "+"]
  {
    CollectedByShape(pattern, received);
    var files := Deduplicated(SecondSegments(Collected(pattern, received)));
    FileList(files, |files|)
  }

  /** `listUCIFiles`, given the retained messages the query receives. */
  function ListedFiles(received: seq<string>): FileList {
    ConfigFilterSegments();
    FilesCollected(ConfigFilter, received)
  }

  lemma FilesCollectedSpec(pattern: string, received: seq<string>)
    requires Split(pattern, '/') == ["config", "+", "+", "+"]
    ensures Distinct(FilesCollected(pattern, received).files)
    ensures FilesCollected(pattern, received).count == |FilesCollected(pattern, received).files|
    ensures forall f :: f in FilesCollected(pattern, received).files <==>
      exists t :: t in received && |Split(t, '/')| == 4 && Split(t, '/')[0] == "config" && Split(t, '/')[1] == f
  {
    CollectedByShape(pattern, received);
    var topics := Collected(pattern, received);
    SecondSegmentsSpec(topics);
    DeduplicatedSpec(SecondSegments(topics));
  }

  /** The listed files are exactly the second segments of the received
      `config/<file>/<section>/<uuid>` topics, each once; `count` is how many
      there are. */
  lemma ListedFilesSpec(received: seq<string>)
    ensures Distinct(ListedFiles(received).files)
    ensures ListedFiles(received).count == |ListedFiles(received).files|
    ensures forall f :: f in ListedFiles(received).files <==>
      exists t :: t in received && |Split(t, '/')| == 4 && Split(t, '/')[0] == "config" && Split(t, '/')[1] == f
  {
    ConfigFilterSegments();
    FilesCollectedSpec(ConfigFilter, received);
  }

  // ---------------------------------------------------------------------------
  // Command records

  /** The fields of a command record; an absent field is left out of the JSON.
      The timestamp is not modelled. */
  datatype Command = Command(action: Option<string>, fileName: string, sectionName: Option<string>, uuid: Option<string>,
                             values: Option<seq<(string, Value)>>, requestId: Option<string>)

  /** A command and the topic it is published on. */
  datatype Request = Request(topic: string, command: Command)

  /** `commands/<verb>`: `commands/edit` or `commands/reload`. */
  function CommandTopic(verb: string): string {
    "commands/" + verb
  }

  /** The older engine reads the verb of either topic as intended. */
  lemma RequestTopicVerbs()
    ensures M.Verb(CommandTopic("edit")) == Some("edit") && M.Verb(CommandTopic("reload")) == Some("reload")
  {
    MP.VerbOfCommandTopic("edit");
    MP.VerbOfCommandTopic("reload");
  }

  /** `createUCISection`: no uuid; the engine draws one. */
  function CreateRequest(fileName: string, sectionName: string, values: seq<(string, Value)>, requestId: string): Request {
    Request(CommandTopic("edit"), Command(Some("create"), fileName, Some(sectionName), None, Some(values), Some(requestId)))
  }

  /** `updateUCISection` */
  function UpdateRequest(fileName: string, sectionName: string, uuid: string, values: seq<(string, Value)>, requestId: string): Request {
    Request(CommandTopic("edit"), Command(Some("update"), fileName, Some(sectionName), Some(uuid), Some(values), Some(requestId)))
  }

  /** `deleteUCISection`: no values. */
  function DeleteRequest(fileName: string, sectionName: string, uuid: string, requestId: string): Request {
    Request(CommandTopic("edit"), Command(Some("delete"), fileName, Some(sectionName), Some(uuid), None, Some(requestId)))
  }

  /** `reloadUCIFile`: the file name alone. */
  function ReloadRequest(fileName: string): Request {
    Request(CommandTopic("reload"), Command(None, fileName, None, None, None, None))
  }

  /** What an engine's edit handler reads from a command record it receives;
      absent values read as none, which only a delete sends and never reads. */
  function Received(c: Command): EditCommand
    requires c.action.Some? && c.sectionName.Some? && c.requestId.Some?
  {
    EditCommand(c.action.value, c.fileName, c.sectionName.value,
                if c.uuid.Some? then Some(Str(c.uuid.value)) else None,
                if c.values.Some? then c.values.value else [], c.requestId.value)
  }

  /** The create record reaches the older engine's edit handler as a
      `create` with the service's file, section name and values and no uuid. */
  lemma CreateRequestCreates(e: M.Engine, newId: nat -> string, fileName: string, sectionName: string,
                             values: seq<(string, Value)>, requestId: string, content: Option<string>, now: nat)
    ensures Received(CreateRequest(fileName, sectionName, values, requestId).command) ==
      EditCommand("create", fileName, sectionName, None, values, requestId)
    ensures M.Handled(e, newId, CreateRequest(fileName, sectionName, values, requestId).topic,
                      EditCommand("create", fileName, sectionName, None, values, requestId), content, now) ==
      M.Edited(e, newId, EditCommand("create", fileName, sectionName, None, values, requestId), now)
  {
    RequestTopicVerbs();
  }

  /** The update record reaches the edit handler as an `update` of the
      section's uuid with the service's values. */
  lemma UpdateRequestUpdates(e: M.Engine, newId: nat -> string, fileName: string, sectionName: string, uuid: string,
                             values: seq<(string, Value)>, requestId: string, content: Option<string>, now: nat)
    ensures Received(UpdateRequest(fileName, sectionName, uuid, values, requestId).command) ==
      EditCommand("update", fileName, sectionName, Some(Str(uuid)), values, requestId)
    ensures M.Handled(e, newId, UpdateRequest(fileName, sectionName, uuid, values, requestId).topic,
                      EditCommand("update", fileName, sectionName, Some(Str(uuid)), values, requestId), content, now) ==
      M.Edited(e, newId, EditCommand("update", fileName, sectionName, Some(Str(uuid)), values, requestId), now)
  {
    RequestTopicVerbs();
  }

  /** The delete record reaches the edit handler as a `delete` of the
      section's uuid, carrying no values. */
  lemma DeleteRequestDeletes(e: M.Engine, newId: nat -> string, fileName: string, sectionName: string, uuid: string,
                             requestId: string, content: Option<string>, now: nat)
    ensures DeleteRequest(fileName, sectionName, uuid, requestId).command.values.None?
    ensures Received(DeleteRequest(fileName, sectionName, uuid, requestId).command) ==
      EditCommand("delete", fileName, sectionName, Some(Str(uuid)), [], requestId)
    ensures M.Handled(e, newId, DeleteRequest(fileName, sectionName, uuid, requestId).topic,
                      EditCommand("delete", fileName, sectionName, Some(Str(uuid)), [], requestId), content, now) ==
      M.Edited(e, newId, EditCommand("delete", fileName, sectionName, Some(Str(uuid)), [], requestId), now)
  {
    RequestTopicVerbs();
  }

  /** The reload record reaches `handleReloadCommand` for its file. */
  lemma ReloadRequestReloads(e: M.Engine, newId: nat -> string, fileName: string, cmd: EditCommand, content: Option<string>, now: nat)
    requires cmd.fileName == ReloadRequest(fileName).command.fileName
    ensures M.Handled(e, newId, ReloadRequest(fileName).topic, cmd, content, now) == M.Reloaded(e, newId, fileName, now)
  {
    RequestTopicVerbs();
  }
}
