/** What a server sends as events and what the reader makes of it (src/cli/remote.rs). */
module SseRoundTrip {
  import opened Prelude
  import opened SseFrames
  import opened SseStream

  // ---------- round trip ----------

  /** An event as a server sends it: a name and at least one line of data. */
  datatype Message = Message(name: string, data: seq<string>)

  /** Lines of a stream hold no line end. */
  predicate OneLine(s: string) {
    forall k :: 0 <= k < |s| ==> s[k] != '\n' && s[k] != '\r'
  }

  ghost predicate Sendable(m: Message) {
    OneLine(m.name) && m.data != [] && forall k :: 0 <= k < |m.data| ==> OneLine(m.data[k])
  }

  function DataFields(data: seq<string>): seq<string> {
    if data == [] then [] else DataFields(data[..|data| - 1]) + ["data: " + Last(data)]
  }

  function MessageLines(m: Message): seq<string> {
    ["event: " + m.name] + DataFields(m.data)
  }

  /** The stream form of a list of messages, as section 9.2 of the WHATWG HTML Standard lays it out. */
  function Wire(messages: seq<Message>): string {
    if messages == [] then "" else Join(MessageLines(messages[0]), "\n") + "\n\n" + Wire(messages[1..])
  }

  function Trimmed(data: seq<string>): seq<string> {
    if data == [] then [] else Trimmed(data[..|data| - 1]) + [TrimStart(Last(data))]
  }

  /** What the reader makes of a message: leading white space of the name and of each data line is lost. */
  function Received(messages: seq<Message>): seq<SseEvent> {
    if messages == [] then []
    else [SseEvent(TrimStart(messages[0].name), Join(Trimmed(messages[0].data), "\n"))] + Received(messages[1..])
  }

  ghost predicate CleanLines(lines: seq<string>) {
    forall k :: 0 <= k < |lines| ==> lines[k] != "" && OneLine(lines[k])
  }

  lemma {:induction false} FirstBreak(line: string, more: string)
    requires OneLine(line)
    ensures Find(line + ("\n" + more), "\n") == Some(|line|) && WithoutCr(line) == line
  {
    var s := line + ("\n" + more);
    assert s[|line|..|line| + 1] == "\n";
    forall j | 0 <= j < |line| ensures !MatchesAt(s, "\n", j) {
      assert s[j..j + 1][0] == line[j];
    }
    FindIs(s, "\n", |line|);
  }

  lemma {:induction false} NoBreak(line: string)
    requires OneLine(line)
    ensures Find(line, "\n").None?
  {
    FindFromFirst(line, "\n", 0);
    forall j: nat ensures !MatchesAt(line, "\n", j) {
      if j < |line| {
        assert line[j..j + 1][0] == line[j];
      }
    }
  }

  lemma {:induction false} LinesOfJoined(lines: seq<string>)
    requires CleanLines(lines)
    ensures Lines(Join(lines, "\n")) == lines
    decreases |lines|
  {
    if |lines| == 1 {
      NoBreak(lines[0]);
    } else if lines != [] {
      var rest := Join(lines[1..], "\n");
      LinesOfJoined(lines[1..]);
      FirstBreak(lines[0], rest);
      Assoc(lines[0], "\n", rest);
      var s := lines[0] + ("\n" + rest);
      assert s[..|lines[0]|] == lines[0] && s[|lines[0]| + 1..] == rest;
    }
  }

  lemma {:induction false} SpaceIsTrimmed(field: string, s: string)
    ensures (field + " " + s)[|field|..] == " " + s && TrimStart(" " + s) == TrimStart(s)
  {
    assert (" " + s)[1..] == s;
  }

  lemma {:induction false} DataField(x: string)
    ensures Field("data: " + x, "data:") == Some(TrimStart(x)) && Field("data: " + x, "event:") == None
  {
    SpaceIsTrimmed("data:", x);
    assert "data: " == "data:" + " ";
    assert ("data: " + x)[0] == 'd' && "event:"[0] == 'e';
    assert ("data:" + " " + x)[..5] == "data:";
  }

  lemma {:induction false} EventField(x: string)
    ensures Field("event: " + x, "event:") == Some(TrimStart(x)) && Field("event: " + x, "data:") == None
  {
    SpaceIsTrimmed("event:", x);
    assert "event: " == "event:" + " ";
    assert ("event: " + x)[0] == 'e' && "data:"[0] == 'd';
    assert ("event:" + " " + x)[..6] == "event:";
  }

  lemma {:induction false} FieldsOfMessage(name: string, data: seq<string>)
    ensures var lines := ["event: " + name] + DataFields(data);
            EventName(lines) == TrimStart(name) && DataLines(lines) == Trimmed(data)
    decreases |data|
  {
    var lines := ["event: " + name] + DataFields(data);
    if data == [] {
      EventField(name);
      assert lines == ["event: " + name] && lines[..0] == [];
    } else {
      var front := data[..|data| - 1];
      DataField(Last(data));
      FieldsOfMessage(name, front);
      Assoc(["event: " + name], DataFields(front), ["data: " + Last(data)]);
      assert lines[..|lines| - 1] == ["event: " + name] + DataFields(front);
      assert Last(lines) == "data: " + Last(data);
    }
  }

  lemma {:induction false} MessageLinesClean(m: Message, n: nat)
    requires n <= |m.data| && OneLine(m.name) && forall k :: 0 <= k < |m.data| ==> OneLine(m.data[k])
    ensures CleanLines(["event: " + m.name] + DataFields(m.data[..n]))
  {
    if n > 0 {
      MessageLinesClean(m, n - 1);
      assert m.data[..n][..n - 1] == m.data[..n - 1] && Last(m.data[..n]) == m.data[n - 1];
      assert OneLine("data: " + m.data[n - 1]);
      Assoc(["event: " + m.name], DataFields(m.data[..n - 1]), ["data: " + m.data[n - 1]]);
    } else {
      assert OneLine("event: " + m.name);
    }
  }

  /** No line break starts, ends or is doubled. */
  ghost predicate SingleBreaks(s: string) {
    && s != "" && s[0] != '\n' && Last(s) != '\n'
    && (forall k :: 0 <= k < |s| ==> s[k] != '\r')
    && forall k :: 0 <= k < |s| - 1 && s[k] == '\n' ==> s[k + 1] != '\n'
  }

  lemma {:induction false} JoinSingleBreaks(lines: seq<string>)
    requires lines != [] && CleanLines(lines)
    ensures SingleBreaks(Join(lines, "\n"))
    decreases |lines|
  {
    if |lines| > 1 {
      var rest := Join(lines[1..], "\n");
      JoinSingleBreaks(lines[1..]);
      var s := lines[0] + "\n" + rest;
      forall k | 0 <= k < |s| - 1 && s[k] == '\n' ensures s[k + 1] != '\n' {
        assert k >= |lines[0]|;
        assert s[k + 1] == rest[k - |lines[0]|];
        assert k > |lines[0]| ==> rest[k - |lines[0]| - 1] == '\n';
      }
    }
  }

  lemma {:induction false} BlankBehind(frame: string, more: string)
    requires SingleBreaks(frame)
    ensures Find(frame + "\n\n" + more, "\n\n") == Some(|frame|)
  {
    var s := frame + "\n\n" + more;
    assert s[|frame|..|frame| + 2] == "\n\n";
    forall j | 0 <= j < |frame| ensures !MatchesAt(s, "\n\n", j) {
      assert s[j..j + 2][0] == frame[j] && s[j..j + 2][1] == s[j + 1];
      assert j == |frame| - 1 ==> frame[j] == Last(frame);
    }
    FindIs(s, "\n\n", |frame|);
  }

  /** The frame of a message decodes to the message as received. */
  lemma {:induction false} MessageDecodes(m: Message)
    requires Sendable(m)
    ensures var frame := Join(MessageLines(m), "\n");
            SingleBreaks(frame) && EventOf(frame) == Some(SseEvent(TrimStart(m.name), Join(Trimmed(m.data), "\n")))
  {
    assert m.data[..|m.data|] == m.data;
    MessageLinesClean(m, |m.data|);
    JoinSingleBreaks(MessageLines(m));
    LinesOfJoined(MessageLines(m));
    FieldsOfMessage(m.name, m.data);
    assert Trimmed(m.data) != [];
  }

  /** A frame followed by a blank line is cut off. */
  lemma {:induction false} FrameIsCut(frame: string, more: string)
    requires SingleBreaks(frame) && EventOf(frame).Some?
    ensures var s := frame + "\n\n" + more;
            Tail(s) == Tail(more) && Events(Frames(s)) == [EventOf(frame).value] + Events(Frames(more))
  {
    var s := frame + "\n\n" + more;
    BlankBehind(frame, more);
    FirstFrame(s, |frame|);
    assert s[..|frame|] == frame && s[|frame| + 2..] == more;
  }

  lemma {:induction false} WireHasNoCr(messages: seq<Message>)
    requires forall k :: 0 <= k < |messages| ==> Sendable(messages[k])
    ensures '\r' !in Wire(messages)
    decreases |messages|
  {
    if messages != [] {
      MessageDecodes(messages[0]);
      WireHasNoCr(messages[1..]);
    }
  }

  lemma {:induction false} WireIsCut(messages: seq<Message>)
    requires forall k :: 0 <= k < |messages| ==> Sendable(messages[k])
    ensures Events(Frames(Wire(messages))) == Received(messages) && Tail(Wire(messages)) == ""
    decreases |messages|
  {
    if messages == [] {
      FindFromFirst("", "\n\n", 0);
    } else {
      MessageDecodes(messages[0]);
      WireIsCut(messages[1..]);
      FrameIsCut(Join(MessageLines(messages[0]), "\n"), Wire(messages[1..]));
    }
  }

  /**
   * However the stream form of some messages is cut on the way, the reader gets these messages and nothing is left
   * over.
   */
  lemma {:induction false} WireRoundTrip(messages: seq<Message>, chunks: seq<string>)
    requires forall k :: 0 <= k < |messages| ==> Sendable(messages[k])
    requires Concat(chunks) == Wire(messages)
    ensures var fed := Feed("", chunks); Events(fed.frames) == Received(messages) && fed.buffer == ""
  {
    WireIsCut(messages);
    WireHasNoCr(messages);
    ChunkIndependentIff(Wire(messages));
    NormalizedFixed(Wire(messages));
  }

  // ---------- when the round trip is exact ----------

  /** The events that some messages stand for. */
  function Meant(messages: seq<Message>): seq<SseEvent> {
    if messages == [] then [] else [SseEvent(messages[0].name, Join(messages[0].data, "\n"))] + Meant(messages[1..])
  }

  predicate NoLeadingSpace(s: string) {
    s != "" ==> !IsWhitespace(s[0])
  }

  lemma {:induction false} TrimStartSameIff(s: string)
    ensures TrimStart(s) == s <==> NoLeadingSpace(s)
    ensures |TrimStart(s)| <= |s| && (|TrimStart(s)| == |s| ==> TrimStart(s) == s)
    decreases |s|
  {
    if s != "" {
      TrimStartSameIff(s[1..]);
    }
  }

  lemma {:induction false} JoinLast(parts: seq<string>)
    requires |parts| > 1
    ensures Join(parts, "\n") == Join(parts[..|parts| - 1], "\n") + "\n" + Last(parts)
    decreases |parts|
  {
    if |parts| > 2 {
      JoinLast(parts[1..]);
      assert parts[1..][..|parts| - 2] == parts[..|parts| - 1][1..];
    }
  }

  lemma {:induction false} TrimmedSameIff(data: seq<string>)
    ensures |Trimmed(data)| == |data| && |Join(Trimmed(data), "\n")| <= |Join(data, "\n")|
    ensures Join(Trimmed(data), "\n") == Join(data, "\n") <==> forall k :: 0 <= k < |data| ==> NoLeadingSpace(data[k])
    ensures |Join(Trimmed(data), "\n")| == |Join(data, "\n")| ==> Join(Trimmed(data), "\n") == Join(data, "\n")
    decreases |data|
  {
    if data != [] {
      var front := data[..|data| - 1];
      TrimmedSameIff(front);
      TrimStartSameIff(Last(data));
      assert forall k :: 0 <= k < |front| ==> front[k] == data[k];
      if front == [] {
        assert Trimmed(data) == [TrimStart(data[0])];
      } else {
        JoinLast(data);
        JoinLast(Trimmed(data));
        assert Trimmed(data)[..|data| - 1] == Trimmed(front);
        SameEnds(Join(Trimmed(front), "\n"), TrimStart(Last(data)), Join(front, "\n"), Last(data));
      }
    }
  }

  lemma {:induction false} SameEnds(a: string, x: string, b: string, y: string)
    requires |a| <= |b| && |x| <= |y|
    ensures a + "\n" + x == b + "\n" + y <==> a == b && x == y
  {
    if a + "\n" + x == b + "\n" + y {
      assert |a| == |b|;
      assert a == (a + "\n" + x)[..|a|] && b == (b + "\n" + y)[..|b|];
      assert x == (a + "\n" + x)[|a| + 1..] && y == (b + "\n" + y)[|b| + 1..];
    }
  }

  /** Messages are received as they were meant exactly when no name and no data line begins with white space. */
  lemma {:induction false} ReceivedAsMeantIff(messages: seq<Message>)
    ensures Received(messages) == Meant(messages) <==>
            forall k :: 0 <= k < |messages| ==>
              && NoLeadingSpace(messages[k].name)
              && forall i :: 0 <= i < |messages[k].data| ==> NoLeadingSpace(messages[k].data[i])
    decreases |messages|
  {
    if messages != [] {
      var m := messages[0];
      TrimStartSameIff(m.name);
      TrimmedSameIff(m.data);
      ReceivedAsMeantIff(messages[1..]);
      assert Received(messages)[1..] == Received(messages[1..]) && Meant(messages)[1..] == Meant(messages[1..]);
      assert forall k :: 1 <= k < |messages| ==> messages[k] == messages[1..][k - 1];
      assert forall k :: 0 <= k < |messages[1..]| ==> messages[1..][k] == messages[k + 1];
    }
  }
}
