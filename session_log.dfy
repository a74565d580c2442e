/** The session-log reader of the bridge: picking the assistant reply out of a session log
    (`getLatestAssistantReply`) and picking the active session file (`getLatestSessionFile`).

    A log is given line by line, each line already decoded: `None` for a line that is not
    valid JSON (the source skips it). Timestamps are integers (milliseconds); `None` stands for
    a missing timestamp or one `Date` cannot read, which never compares as later. */
module SessionLog {
  import opened Common

  /** One element of a message's `content` array; `text` is absent when the field is. */
  datatype Block = Block(kind: string, text: Option<string>)

  /** The `message` object of a log record. */
  datatype Message = Message(role: Option<string>, content: Option<seq<Block>>)

  /** One decoded log line: `{ type, timestamp, message }`, each possibly absent. */
  datatype Entry = Entry(kind: Option<string>, timestamp: Option<int>, message: Option<Message>)

  predicate IsTextBlock(b: Block) {
    b.kind == "text"
  }

  predicate HasTextBlock(blocks: seq<Block>) {
    exists i :: 0 <= i < |blocks| && IsTextBlock(blocks[i])
  }

  /** The `find` predicate: a message record, from the assistant, strictly later than `after`,
      with at least one text block. */
  predicate Qualifies(e: Entry, after: int) {
    && e.kind == Some("message")
    && e.message.Some? && e.message.value.role == Some("assistant")
    && e.timestamp.Some? && e.timestamp.value > after
    && e.message.value.content.Some? && HasTextBlock(e.message.value.content.value)
  }

  /** The records the source collects: every line that decodes, in file order. */
  function Parsed(lines: seq<Option<Entry>>): (r: seq<Entry>)
    ensures |r| <= |lines|
  {
    if lines == [] then []
    else (if lines[0].Some? then [lines[0].value] else []) + Parsed(lines[1..])
  }

  /** `lines.find(...)`: the first qualifying record. */
  function Find(records: seq<Entry>, after: int): (r: Option<Entry>)
    ensures r.Some? ==> Qualifies(r.value, after) && r.value in records
    ensures r.None? <==> forall i :: 0 <= i < |records| ==> !Qualifies(records[i], after)
  {
    if records == [] then None
    else if Qualifies(records[0], after) then Some(records[0])
    else
      var r := Find(records[1..], after);
      assert forall i :: 1 <= i < |records| ==> records[i] == records[1..][i - 1];
      r
  }

  /** The first text block of a list that has one. */
  function FirstTextBlock(blocks: seq<Block>): (k: nat)
    requires HasTextBlock(blocks)
    ensures k < |blocks| && IsTextBlock(blocks[k])
    ensures forall j :: 0 <= j < k ==> !IsTextBlock(blocks[j])
  {
    if IsTextBlock(blocks[0]) then 0
    else
      assert HasTextBlock(blocks[1..]) by {
        var i :| 0 <= i < |blocks| && IsTextBlock(blocks[i]);
        assert blocks[1..][i - 1] == blocks[i];
      }
      var k := FirstTextBlock(blocks[1..]);
      assert forall j :: 1 <= j < k + 1 ==> blocks[j] == blocks[1..][j - 1];
      k + 1
  }

  /** The text the reader resolves with for a chosen record: that of its first text block
      (`None` when that block has no `text`). */
  function ReplyText(e: Entry): Option<string>
    requires e.message.Some? && e.message.value.content.Some? && HasTextBlock(e.message.value.content.value)
  {
    var blocks := e.message.value.content.value;
    blocks[FirstTextBlock(blocks)].text
  }

  /** What `getLatestAssistantReply` resolves with (`None` for `null`). */
  function LatestReply(lines: seq<Option<Entry>>, after: int): Option<string> {
    match Find(Parsed(lines), after)
    case None => None
    case Some(e) => ReplyText(e)
  }

  /** Decoding skips exactly the malformed lines: `Find` over the decoded records is the first
      line, in file order, that decodes to a qualifying record. */
  lemma FindIsFirstLine(lines: seq<Option<Entry>>, after: int)
    ensures Find(Parsed(lines), after).None? <==>
      forall k :: 0 <= k < |lines| ==> lines[k].None? || !Qualifies(lines[k].value, after)
    ensures Find(Parsed(lines), after).Some? ==>
      exists k :: 0 <= k < |lines| && lines[k] == Find(Parsed(lines), after)
        && forall j :: 0 <= j < k ==> lines[j].None? || !Qualifies(lines[j].value, after)
  {
    FindNoneWhenNoLineQualifies(lines, after);
    FindFirstQualifyingLine(lines, after);
  }

  /** `Find` over the decoded records looks at the first line, then at the rest. */
  lemma FindParsedCons(lines: seq<Option<Entry>>, after: int)
    requires lines != []
    ensures Find(Parsed(lines), after) ==
      if lines[0].Some? && Qualifies(lines[0].value, after) then lines[0]
      else Find(Parsed(lines[1..]), after)
  {
    var ps := Parsed(lines);
    if lines[0].Some? {
      assert ps == [lines[0].value] + Parsed(lines[1..]);
      assert ps[0] == lines[0].value && ps[1..] == Parsed(lines[1..]);
      if Qualifies(lines[0].value, after) {
        assert Find(ps, after) == Some(ps[0]);
      } else {
        assert Find(ps, after) == Find(ps[1..], after);
      }
    } else {
      assert ps == [] + Parsed(lines[1..]);
      assert ps == Parsed(lines[1..]);
    }
  }

  lemma {:induction false} FindNoneWhenNoLineQualifies(lines: seq<Option<Entry>>, after: int)
    ensures Find(Parsed(lines), after).None? <==>
      forall k :: 0 <= k < |lines| ==> lines[k].None? || !Qualifies(lines[k].value, after)
  {
    if lines != [] {
      FindParsedCons(lines, after);
      FindNoneWhenNoLineQualifies(lines[1..], after);
      assert forall k :: 1 <= k < |lines| ==> lines[k] == lines[1..][k - 1];
    }
  }

  lemma {:induction false} FindFirstQualifyingLine(lines: seq<Option<Entry>>, after: int)
    ensures Find(Parsed(lines), after).Some? ==>
      exists k :: 0 <= k < |lines| && lines[k] == Find(Parsed(lines), after)
        && forall j :: 0 <= j < k ==> lines[j].None? || !Qualifies(lines[j].value, after)
  {
    if lines != [] {
      var rest := lines[1..];
      var r := Find(Parsed(lines), after);
      FindParsedCons(lines, after);
      if r.Some? && !(lines[0].Some? && Qualifies(lines[0].value, after)) {
        FindFirstQualifyingLine(rest, after);
        var k :| 0 <= k < |rest| && rest[k] == r
          && forall j :: 0 <= j < k ==> rest[j].None? || !Qualifies(rest[j].value, after);
        assert lines[k + 1] == r;
        assert forall j :: 1 <= j < k + 1 ==> lines[j] == rest[j - 1];
      }
    }
  }

  /** The reader never answers from a record that is not from the assistant or not strictly
      later than `after`: its answer is the text of a qualifying record of the log, the first
      one in file order, or there is none. */
  lemma LatestReplyFromQualifying(lines: seq<Option<Entry>>, after: int)
    ensures LatestReply(lines, after).Some? ==>
      exists k :: 0 <= k < |lines| && lines[k].Some? && Qualifies(lines[k].value, after)
        && LatestReply(lines, after) == ReplyText(lines[k].value)
        && forall j :: 0 <= j < k ==> lines[j].None? || !Qualifies(lines[j].value, after)
    ensures (forall k :: 0 <= k < |lines| ==> lines[k].None? || !Qualifies(lines[k].value, after))
            ==> LatestReply(lines, after).None?
  {
    FindIsFirstLine(lines, after);
  }

  /** The selection is a `find`, not a maximum by timestamp: of two qualifying replies the
      earlier line is taken even when the later line carries the later timestamp. */
  lemma FirstInFileOrderNotLatest()
    ensures var older := Entry(Some("message"), Some(2), Some(Message(Some("assistant"), Some([Block("text", Some("draft"))]))));
            var newer := Entry(Some("message"), Some(3), Some(Message(Some("assistant"), Some([Block("text", Some("final"))]))));
            LatestReply([Some(older), Some(newer)], 1) == Some("draft")
  {
    var older := Entry(Some("message"), Some(2), Some(Message(Some("assistant"), Some([Block("text", Some("draft"))]))));
    var newer := Entry(Some("message"), Some(3), Some(Message(Some("assistant"), Some([Block("text", Some("final"))]))));
    assert [Some(older), Some(newer)][1..] == [Some(newer)];
    assert Parsed([Some(older), Some(newer)]) == [older, newer];
    assert IsTextBlock(older.message.value.content.value[0]);
    assert Qualifies(older, 1);
  }

  /** `getLatestAssistantReply`: collect the decodable lines, then `find`. */
  method ReadLatestReply(lines: seq<Option<Entry>>, after: int) returns (reply: Option<string>)
    ensures reply == LatestReply(lines, after)
  {
    var records: seq<Entry> := [];
    var i := 0;
    while i < |lines|
      invariant 0 <= i <= |lines|
      invariant records + Parsed(lines[i..]) == Parsed(lines)
    {
      ParsedStep(records, lines, i);
      if lines[i].Some? {
        records := records + [lines[i].value];
      }
      i := i + 1;
    }
    assert records == Parsed(lines);
    var j := 0;
    while j < |records|
      invariant 0 <= j <= |records|
      invariant Find(records, after) == Find(records[j..], after)
    {
      FindStep(records, j, after);
      if Qualifies(records[j], after) {
        var blocks := records[j].message.value.content.value;
        reply := blocks[FirstTextBlock(blocks)].text;
        return;
      }
      j := j + 1;
    }
    reply := None;
  }

  /** One step of the decoding loop: the kept records grow by the decoded line, if any. */
  lemma ParsedStep(records: seq<Entry>, lines: seq<Option<Entry>>, i: nat)
    requires i < |lines|
    ensures records + Parsed(lines[i..])
      == (records + (if lines[i].Some? then [lines[i].value] else [])) + Parsed(lines[i + 1..])
  {
    assert lines[i..][1..] == lines[i + 1..];
  }

  /** One step of the `find` loop: a qualifying record is the answer, any other is passed. */
  lemma FindStep(records: seq<Entry>, j: nat, after: int)
    requires j < |records|
    ensures Find(records[j..], after)
      == if Qualifies(records[j], after) then Some(records[j]) else Find(records[j + 1..], after)
  {
    assert records[j..][0] == records[j];
    assert records[j..][1..] == records[j + 1..];
  }

  /** One directory entry: its name and its modification time (`None` when `stat` fails). */
  datatype DirEntry = DirEntry(name: string, mtime: Option<int>)

  predicate IsSessionName(name: string) {
    EndsWith(name, ".jsonl")
  }

  /** The entries whose names end in `.jsonl`, in listing order. */
  function SessionEntries(es: seq<DirEntry>): (r: seq<DirEntry>)
    ensures forall e :: e in r <==> e in es && IsSessionName(e.name)
  {
    if es == [] then []
    else (if IsSessionName(es[0].name) then [es[0]] else []) + SessionEntries(es[1..])
  }

  predicate AllStated(es: seq<DirEntry>) {
    forall i :: 0 <= i < |es| ==> es[i].mtime.Some?
  }

  /** The position the stable descending sort puts first: the first entry of greatest mtime. */
  function Newest(es: seq<DirEntry>): (k: nat)
    requires es != [] && AllStated(es)
    ensures k < |es|
    ensures forall j :: 0 <= j < |es| ==> es[j].mtime.value <= es[k].mtime.value
    ensures forall j :: 0 <= j < k ==> es[j].mtime.value < es[k].mtime.value
  {
    if |es| == 1 then 0
    else
      var k := Newest(es[..|es| - 1]);
      assert forall j :: 0 <= j < |es| - 1 ==> es[..|es| - 1][j] == es[j];
      if es[|es| - 1].mtime.value > es[k].mtime.value then |es| - 1 else k
  }

  /** `getLatestSessionFile`: `listing` is `None` when the directory cannot be read. */
  function LatestSessionFile(dir: string, listing: Option<seq<DirEntry>>): (r: Option<string>)
    ensures r.Some? <==>
      listing.Some? && SessionEntries(listing.value) != [] && AllStated(SessionEntries(listing.value))
    ensures r.Some? ==>
      var sessions := SessionEntries(listing.value);
      exists k :: 0 <= k < |sessions| && r.value == JoinPath(dir, sessions[k].name)
        && IsSessionName(sessions[k].name)
        && forall j :: 0 <= j < |sessions| ==> sessions[j].mtime.value <= sessions[k].mtime.value
  {
    match listing
    case None => None
    case Some(es) =>
      var sessions := SessionEntries(es);
      if sessions == [] || !AllStated(sessions) then None
      else
        var k := Newest(sessions);
        assert sessions[k] in sessions;
        Some(JoinPath(dir, sessions[k].name))
  }

  /** Of two session files, the more recently modified one is chosen. */
  lemma NewerSessionChosen(dir: string, a: DirEntry, b: DirEntry)
    requires IsSessionName(a.name) && IsSessionName(b.name)
    requires a.mtime.Some? && b.mtime.Some? && a.mtime.value < b.mtime.value
    ensures LatestSessionFile(dir, Some([a, b])) == Some(JoinPath(dir, b.name))
    ensures LatestSessionFile(dir, Some([b, a])) == Some(JoinPath(dir, b.name))
  {
    PairChoice(dir, a, b);
    PairChoice(dir, b, a);
  }

  /** Two session files: the second is chosen only when it is strictly newer (ties go to
      the first, as the sort is stable). */
  lemma PairChoice(dir: string, x: DirEntry, y: DirEntry)
    requires IsSessionName(x.name) && IsSessionName(y.name)
    requires x.mtime.Some? && y.mtime.Some?
    ensures LatestSessionFile(dir, Some([x, y]))
      == Some(JoinPath(dir, if y.mtime.value > x.mtime.value then y.name else x.name))
  {
    SessionPair(x, y);
    NewestOfPair(x, y);
  }

  lemma SessionPair(x: DirEntry, y: DirEntry)
    requires IsSessionName(x.name) && IsSessionName(y.name)
    ensures SessionEntries([x, y]) == [x, y]
  {
    assert [x, y][1..] == [y];
    assert SessionEntries([y]) == [y] by { assert [y][1..] == []; }
  }

  lemma NewestOfPair(x: DirEntry, y: DirEntry)
    requires x.mtime.Some? && y.mtime.Some?
    ensures Newest([x, y]) == if y.mtime.value > x.mtime.value then 1 else 0
  {
    assert [x, y][..1] == [x];
    assert Newest([x]) == 0;
  }
}
