/** Events of a server-sent event stream and the loop that follows them (src/cli/remote.rs). */
module SseStream {
  import opened Prelude
  import opened SseFrames

  datatype SseEvent = SseEvent(event: string, data: string)

  // ---------- frames and events ----------

  /** Rust's `str::lines`: LF or CR LF ends a line, the last line end is optional. */
  function Lines(s: string): seq<string>
    decreases |s|
  {
    if s == [] then []
    else
      var end := Find(s, "\n");
      if end.None? then [s] else [WithoutCr(s[..end.value])] + Lines(s[end.value + 1..])
  }

  function WithoutCr(line: string): string {
    if line != [] && Last(line) == '\r' then line[..|line| - 1] else line
  }

  function Field(line: string, name: string): Option<string> {
    if name <= line then Some(TrimStart(line[|name|..])) else None
  }

  /** The last event name given, `message` without one. */
  function EventName(lines: seq<string>): string {
    if lines == [] then "message"
    else UnwrapOr(Field(Last(lines), "event:"), EventName(lines[..|lines| - 1]))
  }

  /** All data lines in order. */
  function DataLines(lines: seq<string>): seq<string> {
    if lines == [] then []
    else
      var data := Field(Last(lines), "data:");
      DataLines(lines[..|lines| - 1]) + (if data.Some? then [data.value] else [])
  }

  function Join(parts: seq<string>, glue: string): string {
    if parts == [] then ""
    else if |parts| == 1 then parts[0]
    else parts[0] + glue + Join(parts[1..], glue)
  }

  /** The event of a frame; none without data. */
  function EventOf(frame: string): Option<SseEvent> {
    var lines := Lines(frame);
    if DataLines(lines) == [] then None else Some(SseEvent(EventName(lines), Join(DataLines(lines), "\n")))
  }

  function Events(frames: seq<string>): seq<SseEvent> {
    if frames == [] then []
    else (if EventOf(frames[0]).Some? then [EventOf(frames[0]).value] else []) + Events(frames[1..])
  }

  /** No matter how a stream without CR CR LF is cut, the same events come out and the same buffer is left. */
  lemma {:induction false} SameEvents(s: string, chunks: seq<string>)
    requires Clean(s) && Concat(chunks) == s
    ensures Events(Feed("", chunks).frames) == Events(Drain(s).frames) && Feed("", chunks).buffer == Drain(s).buffer
  {
    ChunkIndependentIff(s);
  }

  method ParseSseEvent(frame: string) returns (r: Option<SseEvent>)
    ensures r == EventOf(frame)
  {
    var event := "message";
    var data: seq<string> := [];
    var lines := Lines(frame);
    for i := 0 to |lines|
      invariant event == EventName(lines[..i]) && data == DataLines(lines[..i])
    {
      var line := lines[i];
      assert lines[..i + 1][..i] == lines[..i] && Last(lines[..i + 1]) == line;
      if line == "" || line[0] == ':' {
        continue;
      }
      if "event:" <= line {
        event := TrimStart(line[6..]);
      } else if "data:" <= line {
        data := data + [TrimStart(line[5..])];
      }
    }
    assert lines[..|lines|] == lines;
    r := if data == [] then None else Some(SseEvent(event, Join(data, "\n")));
  }

  // ---------- the reader ----------

  class LogStream {
    var buffer: string

    constructor ()
      ensures buffer == ""
    {
      buffer := "";
    }

    /** Takes the complete frames out of the buffer. */
    method DrainSseEvents() returns (events: seq<SseEvent>)
      modifies this
      ensures events == Events(Drain(old(buffer)).frames) && buffer == Drain(old(buffer)).buffer
    {
      var rest := Normalized(buffer);
      events := [];
      ghost var whole := rest;
      assert [] + Events(Frames(rest)) == Events(Frames(rest));
      while Find(rest, "\n\n").Some?
        invariant Events(Frames(whole)) == events + Events(Frames(rest)) && Tail(whole) == Tail(rest)
        decreases |rest|
      {
        var blank := Find(rest, "\n\n").value;
        var event := ParseSseEvent(rest[..blank]);
        FirstFrame(rest, blank);
        Assoc(events, if event.Some? then [event.value] else [], Events(Frames(rest[blank + 2..])));
        if event.Some? {
          events := events + [event.value];
        }
        rest := rest[blank + 2..];
      }
      buffer := rest;
    }

    /**
     * Reads chunk after chunk and shows each event, up to the first one that ends the stream: `done`, `error`, or a
     * snapshot or log whose data cannot be read.
     */
    method FollowLogs(chunks: seq<string>, readable: SseEvent -> bool)
      returns (shown: seq<SseEvent>, last: Option<SseEvent>)
      requires buffer == ""
      modifies this
      ensures (shown, last) == UpToEnd(Events(Feed("", chunks).frames), readable)
    {
      shown, last := [], None;
      ghost var all := Events(Feed("", chunks).frames);
      for i := 0 to |chunks|
        invariant last.None?
        invariant all == shown + Events(Feed(buffer, chunks[i..]).frames) && UpToEnd(shown, readable) == (shown, None)
      {
        ghost var before := buffer;
        buffer := buffer + chunks[i];
        var events := DrainSseEvents();
        assert chunks[i..][1..] == chunks[i + 1..];
        ghost var more := Feed(buffer, chunks[i + 1..]).frames;
        EventsAppend(Drain(before + chunks[i]).frames, more);
        Assoc(shown, events, Events(more));
        ghost var earlier := shown;
        var now := UpToEnd(events, readable);
        UpToEndAppend(earlier, events, readable);
        UpToEndAppend(earlier + events, Events(more), readable);
        shown := shown + now.0;
        if now.1.Some? {
          return shown, now.1;
        }
        UpToEndAll(events, readable);
      }
      assert Feed(buffer, []).frames == [];
      assert all == shown;
    }
  }

  lemma {:induction false} FirstFrame(t: string, blank: nat)
    requires Find(t, "\n\n") == Some(blank)
    ensures Tail(t) == Tail(t[blank + 2..])
    ensures Events(Frames(t)) ==
            (if EventOf(t[..blank]).Some? then [EventOf(t[..blank]).value] else []) + Events(Frames(t[blank + 2..]))
  {
    assert Frames(t)[1..] == Frames(t[blank + 2..]);
  }

  predicate EndsStream(e: SseEvent, readable: SseEvent -> bool) {
    e.event == "done" || e.event == "error" || ((e.event == "snapshot" || e.event == "log") && !readable(e))
  }

  /** The events before the first one that ends the stream, and that one. */
  function UpToEnd(events: seq<SseEvent>, readable: SseEvent -> bool): (seq<SseEvent>, Option<SseEvent>) {
    if events == [] then ([], None)
    else if EndsStream(events[0], readable) then ([], Some(events[0]))
    else
      var more := UpToEnd(events[1..], readable);
      ([events[0]] + more.0, more.1)
  }

  /** A stream can go on behind this event: it is neither `done` nor `error`, and the client can read what it needs. */
  ghost predicate GoesOnBehind(e: SseEvent, readable: SseEvent -> bool) {
    e.event !in ["done", "error"] && (e.event in ["snapshot", "log"] ==> readable(e))
  }

  /**
   * The events in order: those shown, behind all of which the stream can go on, then the one that ends it, then those
   * that are never looked at. Without such an event all are shown.
   */
  lemma {:induction false} UpToEndIs(events: seq<SseEvent>, readable: SseEvent -> bool) returns (rest: seq<SseEvent>)
    ensures var (shown, last) := UpToEnd(events, readable);
            && (forall k :: 0 <= k < |shown| ==> GoesOnBehind(shown[k], readable))
            && match last
               case None => events == shown
               case Some(e) => events == shown + [e] + rest && !GoesOnBehind(e, readable)
    decreases |events|
  {
    rest := [];
    if events != [] {
      if EndsStream(events[0], readable) {
        rest := events[1..];
      } else {
        rest := UpToEndIs(events[1..], readable);
        assert events == [events[0]] + events[1..];
      }
    }
  }

  lemma {:induction false} UpToEndAll(events: seq<SseEvent>, readable: SseEvent -> bool)
    ensures UpToEnd(events, readable).1.None? ==> UpToEnd(events, readable).0 == events
    decreases |events|
  {
    if events != [] {
      UpToEndAll(events[1..], readable);
    }
  }

  lemma {:induction false} UpToEndAppend(a: seq<SseEvent>, b: seq<SseEvent>, readable: SseEvent -> bool)
    ensures UpToEnd(a + b, readable) ==
            if UpToEnd(a, readable).1.Some? then UpToEnd(a, readable)
            else (a + UpToEnd(b, readable).0, UpToEnd(b, readable).1)
    decreases |a|
  {
    if a == [] {
      assert a + b == b && a + UpToEnd(b, readable).0 == UpToEnd(b, readable).0;
    } else {
      assert (a + b)[1..] == a[1..] + b && (a + b)[0] == a[0];
      UpToEndAppend(a[1..], b, readable);
      assert a == [a[0]] + a[1..];
      Assoc([a[0]], a[1..], UpToEnd(b, readable).0);
    }
  }

  lemma {:induction false} EventsAppend(a: seq<string>, b: seq<string>)
    ensures Events(a + b) == Events(a) + Events(b)
    decreases |a|
  {
    if a == [] {
      assert a + b == b;
    } else {
      assert (a + b)[1..] == a[1..] + b && (a + b)[0] == a[0];
      EventsAppend(a[1..], b);
      Assoc(if EventOf(a[0]).Some? then [EventOf(a[0]).value] else [], Events(a[1..]), Events(b));
    }
  }
}
