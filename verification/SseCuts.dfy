/**
 * Streams with CR CR LF: events that depend on the cut, and streams for which it does not matter (src/cli/remote.rs).
 */
module SseCuts {
  import opened Prelude
  import opened SseFrames
  import opened SseStream
  import opened SseRoundTrip

  lemma {:induction false} CrCrLfBehind(text: string)
    requires text != "" && OneLine(text)
    ensures Normalized(text + "\r\r\n\n") == text + "\r\n\n"
    ensures Normalized(text + "\r\r\n") == text + "\r\n" && Normalized(text + "\r\n\n") == text + "\n\n"
  {
    NormalizedFixed(text);
    NormalizedSplit(text, "\r\r\n\n");
    NormalizedSplit(text, "\r\r\n");
    NormalizedSplit(text, "\r\n\n");
    assert "\r\r\n\n" == ['\r'] + (['\r'] + "\n\n") && "\r\r\n" == ['\r'] + (['\r'] + "\n");
    NormalizedFixed("\n\n");
    NormalizedFixed("\n");
    NormalizedCons('\r', "\n\n");
    NormalizedCons('\r', "\n");
    NormalizedCons('\r', ['\r'] + "\n\n");
    NormalizedCons('\r', ['\r'] + "\n");
    assert ['\r'] + "\n\n" == "\r\n\n" && ['\r'] + "\n" == "\r\n";
  }

  /** A line without a blank line behind it stays in the buffer. */
  lemma {:induction false} StaysBuffered(line: string)
    requires forall k :: 0 <= k < |line| ==> line[k] != '\n'
    ensures Frames(line + "\n") == [] && Tail(line + "\n") == line + "\n"
  {
    var s := line + "\n";
    FindFromFirst(s, "\n\n", 0);
    forall j: nat ensures !MatchesAt(s, "\n\n", j) {
      if j + 2 <= |s| {
        assert s[j..j + 2][0] == line[j];
      }
    }
  }

  lemma {:induction false} OneFrame(line: string)
    requires line != "" && forall k :: 0 <= k < |line| ==> line[k] != '\n'
    ensures Frames(line + "\n\n") == [line] && Tail(line + "\n\n") == "" && Lines(line) == [line]
  {
    var s := line + "\n\n";
    assert s[|line|..|line| + 2] == "\n\n";
    forall j | 0 <= j < |line| ensures !MatchesAt(s, "\n\n", j) {
      assert s[j..j + 2][0] == line[j];
    }
    FindIs(s, "\n\n", |line|);
    assert s[..|line|] == line && s[|line| + 2..] == "";
    FindFromFirst("", "\n\n", 0);
    FindFromFirst(line, "\n", 0);
    forall j: nat ensures !MatchesAt(line, "\n", j) {
      if j < |line| {
        assert line[j..j + 1][0] == line[j];
      }
    }
  }

  lemma {:induction false} OneDataLine(x: string)
    requires x != "" && forall k :: 0 <= k < |x| ==> x[k] != '\n'
    ensures Events(Frames("data: " + x + "\n\n")) == [SseEvent("message", TrimStart(x))]
  {
    var line := "data: " + x;
    OneFrame(line);
    DataField(x);
    assert [line][..0] == [] && Last([line]) == line;
    assert DataLines([line]) == [TrimStart(x)] && EventName([line]) == "message";
    assert [line][1..] == [];
  }

  /** Two chunks of which the first completes no frame. */
  lemma {:induction false} FeedTwo(first: string, second: string)
    requires Drain(first).frames == []
    ensures Feed("", [first, second]) == Drain(Drain(first).buffer + second)
  {
    FeedBoth(first, second);
    assert [] + Drain(Drain(first).buffer + second).frames == Drain(Drain(first).buffer + second).frames;
  }

  /** The stream `data: x` CR CR LF LF: one drain leaves a CR in the data, but cut behind its first LF none is left. */
  lemma {:induction false} CutShows(x: string)
    requires x != "" && OneLine(x)
    ensures Events(Drain("data: " + x + "\r\r\n\n").frames) == [SseEvent("message", TrimStart(x + "\r"))]
    ensures Events(Feed("", ["data: " + x + "\r\r\n", "\n"]).frames) == [SseEvent("message", TrimStart(x))]
  {
    var text := "data: " + x;
    CrCrLfBehind(text);
    Assoc("data: ", x, "\r");
    OneDataLine(x + "\r");
    assert text + "\r\n\n" == text + "\r" + "\n\n";
    StaysBuffered(text + "\r");
    assert text + "\r" + "\n" == text + "\r\n";
    assert text + "\r\n" + "\n" == text + "\r\n\n";
    FeedTwo(text + "\r\r\n", "\n");
    OneDataLine(x);
  }

  /** The text `data: a` CR CR LF LF: one drain yields the data `a` CR, but cut behind its first LF it yields `a`. */
  lemma {:induction false} EventsDependOnCut()
    ensures var s, chunks := "data: a\r\r\n\n", ["data: a\r\r\n", "\n"];
            && Concat(chunks) == s
            && Events(Drain(s).frames) == [SseEvent("message", "a\r")]
            && Events(Feed("", chunks).frames) == [SseEvent("message", "a")]
  {
    CutShows("a");
    Spelled("data: a\r\r\n");
    Together("data: a\r\r\n", "\n");
  }

  lemma {:induction false} Spelled(first: string)
    requires first == "data: a\r\r\n"
    ensures "data: " + "a" + "\r\r\n" == first && "data: " + "a" + "\r\r\n\n" == first + "\n" == "data: a\r\r\n\n"
    ensures TrimStart("a" + "\r") == "a\r" && TrimStart("a") == "a"
  {
  }

  lemma {:induction false} Together(first: string, second: string)
    ensures Concat([first, second]) == first + second
  {
    assert [first, second][1..] == [second] && [second][1..] == [];
    assert Concat([second]) == second + Concat([]) == second;
  }

  // ---------- streams without a colon ----------

  lemma {:induction false} NormalizedWithout(s: string, c: char)
    requires c !in s && c != '\n'
    ensures c !in Normalized(s)
    decreases |s|
  {
    if StartsWithCrLf(s) {
      NormalizedWithout(s[2..], c);
    } else if s != [] {
      NormalizedWithout(s[1..], c);
    }
  }

  lemma {:induction false} CutWithout(t: string, c: char)
    requires c !in t
    ensures c !in Tail(t) && forall k :: 0 <= k < |Frames(t)| ==> c !in Frames(t)[k]
    decreases |t|
  {
    var blank := Find(t, "\n\n");
    if blank.Some? {
      CutWithout(t[blank.value + 2..], c);
      assert Frames(t)[1..] == Frames(t[blank.value + 2..]);
    }
  }

  lemma {:induction false} LinesWithout(s: string, c: char)
    requires c !in s
    ensures forall k :: 0 <= k < |Lines(s)| ==> c !in Lines(s)[k]
    decreases |s|
  {
    var end := Find(s, "\n");
    if s != [] && end.Some? {
      LinesWithout(s[end.value + 1..], c);
      assert Lines(s)[1..] == Lines(s[end.value + 1..]);
    }
  }

  lemma {:induction false} NoData(lines: seq<string>)
    requires forall k :: 0 <= k < |lines| ==> ':' !in lines[k]
    ensures DataLines(lines) == []
    decreases |lines|
  {
    if lines != [] {
      NoData(lines[..|lines| - 1]);
      assert "data:"[4] == ':';
    }
  }

  lemma {:induction false} NoEventsIn(frames: seq<string>)
    requires forall k :: 0 <= k < |frames| ==> ':' !in frames[k]
    ensures Events(frames) == []
    decreases |frames|
  {
    if frames != [] {
      LinesWithout(frames[0], ':');
      NoData(Lines(frames[0]));
      NoEventsIn(frames[1..]);
    }
  }

  lemma {:induction false} DrainWithout(s: string)
    requires ':' !in s
    ensures Events(Drain(s).frames) == [] && ':' !in Drain(s).buffer
  {
    NormalizedWithout(s, ':');
    CutWithout(Normalized(s), ':');
    NoEventsIn(Frames(Normalized(s)));
  }

  lemma {:induction false} FeedWithout(buffer: string, chunks: seq<string>)
    requires ':' !in buffer && ':' !in Concat(chunks)
    ensures Events(Feed(buffer, chunks).frames) == []
    decreases |chunks|
  {
    if chunks != [] {
      var d := Drain(buffer + chunks[0]);
      DrainWithout(buffer + chunks[0]);
      FeedWithout(d.buffer, chunks[1..]);
      EventsAppend(d.frames, Feed(d.buffer, chunks[1..]).frames);
    }
  }

  /** A stream without a colon yields no event however it is cut, be there CR CR LF in it or not. */
  lemma {:induction false} NoColonNoEvents(s: string, chunks: seq<string>)
    requires ':' !in s && Concat(chunks) == s
    ensures Events(Feed("", chunks).frames) == Events(Drain(s).frames) == []
  {
    DrainWithout(s);
    FeedWithout("", chunks);
  }
}
