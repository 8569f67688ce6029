/** Cutting a server-sent event stream into frames, chunk by chunk (src/cli/remote.rs). */
module SseFrames {
  import opened Prelude

  // ---------- cutting a stream into frames ----------

  predicate StartsWithCrLf(s: string) {
    |s| >= 2 && s[0] == '\r' && s[1] == '\n'
  }

  /** Every CR LF replaced by LF. */
  function Normalized(s: string): string {
    if s == [] then ""
    else if StartsWithCrLf(s) then ['\n'] + Normalized(s[2..])
    else [s[0]] + Normalized(s[1..])
  }

  /** The frames of a text: what stands before each blank line. */
  function Frames(t: string): seq<string>
    decreases |t|
  {
    var blank := Find(t, "\n\n");
    if blank.None? then [] else [t[..blank.value]] + Frames(t[blank.value + 2..])
  }

  /** What follows the last blank line. */
  function Tail(t: string): string
    decreases |t|
  {
    var blank := Find(t, "\n\n");
    if blank.None? then t else Tail(t[blank.value + 2..])
  }

  /** A buffer after it was drained: the frames found so far and the text left over. */
  datatype Drained = Drained(frames: seq<string>, buffer: string)

  function Drain(buffer: string): Drained {
    Drained(Frames(Normalized(buffer)), Tail(Normalized(buffer)))
  }

  /** Appending chunk after chunk, draining after each. */
  function Feed(buffer: string, chunks: seq<string>): Drained
    decreases |chunks|
  {
    if chunks == [] then Drained([], buffer)
    else
      var d := Drain(buffer + chunks[0]);
      var more := Feed(d.buffer, chunks[1..]);
      Drained(d.frames + more.frames, more.buffer)
  }

  function Concat(chunks: seq<string>): string {
    if chunks == [] then "" else chunks[0] + Concat(chunks[1..])
  }

  predicate CrCrLfAt(s: string, i: nat) {
    i + 2 < |s| && s[i] == '\r' && s[i + 1] == '\r' && s[i + 2] == '\n'
  }

  /** The stream holds no CR CR LF. */
  ghost predicate Clean(s: string) {
    forall i: nat :: !CrCrLfAt(s, i)
  }

  // ---------- chunk independence ----------

  lemma {:induction false} CleanBehind(a: string, b: string)
    requires Clean(a + b)
    ensures Clean(a) && Clean(b)
  {
    forall i: nat ensures !CrCrLfAt(b, i) {
      assert !CrCrLfAt(a + b, |a| + i);
    }
    forall i: nat ensures !CrCrLfAt(a, i) {
      assert !CrCrLfAt(a + b, i);
    }
  }

  lemma {:induction false} NormalizedCons(x: char, t: string)
    ensures !StartsWithCrLf([x] + t) ==> Normalized([x] + t) == [x] + Normalized(t)
    ensures x == '\r' && t != [] && t[0] == '\n' ==> Normalized([x] + t) == Normalized(t)
  {
    assert ([x] + t)[1..] == t;
    if x == '\r' && t != [] && t[0] == '\n' {
      assert ([x] + t)[2..] == t[1..];
    }
  }

  /** Normalising a normalised prefix again changes nothing, unless CR CR LF occurs. */
  lemma {:induction false} NormalizedTwice(p: string, c: string)
    requires Clean(p + c)
    ensures Normalized(Normalized(p) + c) == Normalized(p + c)
    decreases |p|
  {
    if p == [] {
      assert Normalized(p) + c == c == p + c;
    } else {
      var x, q := p[0], p[1..];
      assert p == [x] + q && p + c == [x] + (q + c);
      CleanBehind([x], q + c);
      NormalizedTwice(q, c);
      NormalizedCons(x, q);
      NormalizedCons(x, q + c);
      NormalizedCons(x, Normalized(q) + c);
      assert !CrCrLfAt(p + c, 0);
      if !StartsWithCrLf(p) {
        assert Normalized(p) + c == [x] + (Normalized(q) + c);
      }
    }
  }

  ghost predicate NoCrLf(s: string) {
    forall i :: 0 <= i && i + 1 < |s| && s[i] == '\r' ==> s[i + 1] != '\n'
  }

  lemma {:induction false} NormalizedHasNoCrLf(p: string)
    requires Clean(p)
    ensures NoCrLf(Normalized(p))
    ensures p != [] && p[0] != '\n' && !StartsWithCrLf(p) ==> Normalized(p)[0] != '\n'
    decreases |p|
  {
    if p != [] {
      var x, q := p[0], p[1..];
      assert p == [x] + q;
      CleanBehind([x], q);
      NormalizedHasNoCrLf(q);
      NormalizedCons(x, q);
      assert !CrCrLfAt(p, 0);
    }
  }

  /** A stretch that does not end in CR is normalised independently of what follows. */
  lemma {:induction false} NormalizedSplit(a: string, b: string)
    requires a != [] ==> Last(a) != '\r'
    ensures Normalized(a + b) == Normalized(a) + Normalized(b)
    decreases |a|
  {
    if a == [] {
      assert a + b == b;
    } else {
      var x, q := a[0], a[1..];
      assert a == [x] + q && a + b == [x] + (q + b);
      NormalizedSplit(q, b);
      NormalizedCons(x, q);
      NormalizedCons(x, q + b);
      if !StartsWithCrLf(a) {
        assert [x] + (Normalized(q) + Normalized(b)) == [x] + Normalized(q) + Normalized(b);
      }
    }
  }

  lemma {:induction false} NormalizedFixed(s: string)
    requires NoCrLf(s)
    ensures Normalized(s) == s
    decreases |s|
  {
    if s != [] {
      assert s == [s[0]] + s[1..];
      NormalizedFixed(s[1..]);
    }
  }

  lemma {:induction false} BlankAt(t: string, i: nat)
    requires Find(t, "\n\n") == Some(i)
    ensures i + 2 <= |t| && t[i] == t[i + 1] == '\n'
  {
    FindFromFirst(t, "\n\n", 0);
    assert t[i..i + 2][0] == t[i] && t[i..i + 2][1] == t[i + 1];
  }

  lemma {:induction false} FirstBlankStays(t: string, i: nat, more: string)
    requires Find(t, "\n\n") == Some(i)
    ensures Find(t[..i + 2] + more, "\n\n") == Some(i)
  {
    FindFromFirst(t, "\n\n", 0);
    var u := t[..i + 2] + more;
    assert u[i..i + 2] == t[i..i + 2];
    forall j | 0 <= j < i ensures !MatchesAt(u, "\n\n", j) {
      assert u[j..j + 2] == t[j..j + 2];
      assert !MatchesAt(t, "\n\n", j);
    }
    FindIs(u, "\n\n", i);
  }

  lemma {:induction false} PeelFirst(t: string, i: nat, more: string)
    requires Find(t, "\n\n") == Some(i)
    ensures Frames(t[..i + 2] + more) == [t[..i]] + Frames(more)
    ensures Tail(t[..i + 2] + more) == Tail(more)
  {
    FirstBlankStays(t, i, more);
    var n := t[..i + 2] + more;
    assert n[..i] == t[..i] && n[i + 2..] == more;
  }

  /** Up to a line break, nothing is left to normalise in a normalised text. */
  lemma {:induction false} NormalizedBehindBreak(g: string, u: string, c: string)
    requires NoCrLf(g) && g != [] && Last(g) == '\n'
    ensures Normalized(g + u + c) == g + Normalized(u + c)
  {
    NormalizedSplit(g, u + c);
    NormalizedFixed(g);
    Assoc(g, u, c);
  }

  /** Draining the tail of a text with a chunk behind it continues the draining of the text. */
  lemma {:induction false} DrainingResumes(t: string, c: string)
    requires NoCrLf(t)
    ensures Frames(Normalized(t + c)) == Frames(t) + Frames(Normalized(Tail(t) + c))
    ensures Tail(Normalized(t + c)) == Tail(Normalized(Tail(t) + c))
    decreases |t|
  {
    var blank := Find(t, "\n\n");
    if blank.Some? {
      var i := blank.value;
      var u := t[i + 2..];
      BlankAt(t, i);
      assert t == t[..i + 2] + u;
      NormalizedBehindBreak(t[..i + 2], u, c);
      PeelFirst(t, i, Normalized(u + c));
      DrainingResumes(u, c);
      Assoc([t[..i]], Frames(u), Frames(Normalized(Tail(u) + c)));
    }
  }

  lemma {:induction false} FeedContinues(p: string, chunks: seq<string>)
    requires Clean(p + Concat(chunks))
    ensures var fed := Feed(Tail(Normalized(p)), chunks);
            var d := Drain(p + Concat(chunks));
            d.frames == Frames(Normalized(p)) + fed.frames && d.buffer == fed.buffer
    decreases |chunks|
  {
    if chunks == [] {
      assert p + Concat(chunks) == p;
    } else {
      var c, rest := chunks[0], Concat(chunks[1..]);
      Assoc(p, c, rest);
      CleanBehind(p + c, rest);
      CleanBehind(p, c);
      NormalizedTwice(p, c);
      NormalizedHasNoCrLf(p);
      DrainingResumes(Normalized(p), c);
      FeedContinues(p + c, chunks[1..]);
      var d := Drain(Tail(Normalized(p)) + c);
      Assoc(Frames(Normalized(p)), d.frames, Feed(d.buffer, chunks[1..]).frames);
    }
  }

  // ---------- why CR CR LF is excluded ----------

  function FramesWeight(frames: seq<string>): nat {
    if frames == [] then 0 else |frames[0]| + 2 + FramesWeight(frames[1..])
  }

  lemma {:induction false} FramesWeightAppend(a: seq<string>, b: seq<string>)
    ensures FramesWeight(a + b) == FramesWeight(a) + FramesWeight(b)
    decreases |a|
  {
    if a == [] {
      assert a + b == b;
    } else {
      assert (a + b)[1..] == a[1..] + b;
      FramesWeightAppend(a[1..], b);
    }
  }

  lemma {:induction false} CuttingKeepsLength(t: string)
    ensures FramesWeight(Frames(t)) + |Tail(t)| == |t|
    decreases |t|
  {
    var blank := Find(t, "\n\n");
    if blank.Some? {
      CuttingKeepsLength(t[blank.value + 2..]);
      assert Frames(t)[1..] == Frames(t[blank.value + 2..]);
    }
  }

  predicate EndsWithCrLf(t: string) {
    |t| >= 2 && t[|t| - 2] == '\r' && t[|t| - 1] == '\n'
  }

  lemma {:induction false} TailKeepsEnd(t: string)
    requires EndsWithCrLf(t)
    ensures EndsWithCrLf(Tail(t))
    decreases |t|
  {
    var blank := Find(t, "\n\n");
    if blank.Some? {
      var i := blank.value;
      BlankAt(t, i);
      TailKeepsEnd(t[i + 2..]);
    }
  }

  lemma {:induction false} NormalizedShrinks(t: string)
    ensures |Normalized(t)| <= |t|
    ensures EndsWithCrLf(t) ==> |Normalized(t)| < |t|
    decreases |t|
  {
    if t != [] {
      NormalizedShrinks(t[1..]);
      if StartsWithCrLf(t) {
        NormalizedShrinks(t[2..]);
      }
    }
  }

  /** After CR CR LF the normalised text ends in a fresh CR LF. */
  lemma {:induction false} FreshCrLf(u: string)
    ensures EndsWithCrLf(Normalized(u + "\r\r\n"))
    decreases |u|
  {
    if u == [] {
      assert u + "\r\r\n" == ['\r'] + "\r\n";
      NormalizedCons('\r', "\r\n");
      assert Normalized("\r\n") == "\n" by {
        assert "\r\n"[2..] == "";
      }
    } else {
      var x, q := u[0], u[1..];
      assert u + "\r\r\n" == [x] + (q + "\r\r\n");
      FreshCrLf(q);
      NormalizedCons(x, q + "\r\r\n");
    }
  }

  /** Cutting the stream right behind a CR CR LF gives another result than one drain. */
  lemma {:induction false} CutBehindCrCrLf(s: string, i: nat)
    requires CrCrLfAt(s, i)
    ensures Concat([s[..i + 3], s[i + 3..]]) == s && Feed("", [s[..i + 3], s[i + 3..]]) != Drain(s)
  {
    var a, b := s[..i + 3], s[i + 3..];
    assert s == a + b && a == s[..i] + "\r\r\n";
    assert [a, b][1..] == [b] && [b][1..] == [] && b + Concat([]) == b;
    var t := Tail(Normalized(a));
    FreshCrLf(s[..i]);
    TailKeepsEnd(Normalized(a));
    FeedBoth(a, b);
    FramesWeightAppend(Frames(Normalized(a)), Frames(Normalized(t + b)));
    CuttingKeepsLength(Normalized(a));
    CuttingKeepsLength(Normalized(t + b));
    CuttingKeepsLength(Normalized(s));
    NormalizedSplit(a, b);
    NormalizedSplit(t, b);
    NormalizedShrinks(t);
  }

  lemma {:induction false} FeedBoth(a: string, b: string)
    ensures var first := Drain(a);
            var second := Drain(first.buffer + b);
            Feed("", [a, b]) == Drained(first.frames + second.frames, second.buffer)
  {
    var first := Drain(a);
    var second := Drain(first.buffer + b);
    assert "" + a == a && [a, b][1..] == [b] && [b][1..] == [];
    assert Feed(second.buffer, []) == Drained([], second.buffer);
    assert second.frames + [] == second.frames;
    assert Feed(first.buffer, [b]) == second;
  }

  /**
   * Chunk independence, exactly: every way of cutting a stream into chunks leaves the frames and the buffer of one
   * drain of the whole, if and only if the stream holds no CR CR LF.
   */
  lemma {:induction false} ChunkIndependentIff(s: string)
    ensures (forall chunks :: Concat(chunks) == s ==> Feed("", chunks) == Drain(s)) <==> Clean(s)
  {
    if Clean(s) {
      forall chunks | Concat(chunks) == s ensures Feed("", chunks) == Drain(s) {
        assert "" + Concat(chunks) == s && Normalized("") == "";
        FindFromFirst("", "\n\n", 0);
        FeedContinues("", chunks);
        assert [] + Feed("", chunks).frames == Feed("", chunks).frames;
      }
    } else {
      var i: nat :| CrCrLfAt(s, i);
      CutBehindCrCrLf(s, i);
    }
  }
}
