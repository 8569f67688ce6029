/** The strict duration grammar and its canonical printer (crates/stepyard-core/src/duration.rs). */
module DurationGrammar {
  import opened Decimals
  import opened Prelude

  const U64_MAX := 0xFFFF_FFFF_FFFF_FFFF
  const U128_MAX := 0xFFFF_FFFF_FFFF_FFFF_FFFF_FFFF_FFFF_FFFF

  datatype DurationError =
    | EmptyInput
    | InvalidCharacter
    | MissingDigits
    | MissingUnit
    | UnknownUnit(unit: string)
    | OrderViolation(unit: string)
    | Overflow

  type Parsed = Result<nat, DurationError>

  datatype Unit = Milliseconds | Seconds | Minutes | Hours {
    function Text(): string {
      match this
      case Milliseconds => "ms"
      case Seconds => "s"
      case Minutes => "m"
      case Hours => "h"
    }

    function Rank(): nat {
      match this
      case Milliseconds => 1
      case Seconds => 2
      case Minutes => 3
      case Hours => 4
    }

    /** Milliseconds in so many of the unit. */
    function Times(number: nat): nat {
      match this
      case Milliseconds => number
      case Seconds => number * 1_000
      case Minutes => number * 60_000
      case Hours => number * 3_600_000
    }
  }

  predicate IsLower(c: char) {
    'a' <= c <= 'z'
  }

  // ---------- the grammar ----------

  /** A number followed by its unit. */
  datatype Segment = Segment(digits: string, unit: Unit)

  ghost predicate WellFormed(g: Segment) {
    g.digits != [] && forall k :: 0 <= k < |g.digits| ==> IsDigit(g.digits[k])
  }

  /** Well-formed segments whose units strictly descend, starting below a rank. */
  ghost predicate Descending(segments: seq<Segment>, below: nat) {
    segments != [] ==>
      && WellFormed(segments[0])
      && segments[0].unit.Rank() < below
      && Descending(segments[1..], segments[0].unit.Rank())
  }

  function Spell(segments: seq<Segment>): string {
    if segments == [] then "" else segments[0].digits + segments[0].unit.Text() + Spell(segments[1..])
  }

  /** The milliseconds that some segments add up to. */
  ghost function Total(segments: seq<Segment>): nat {
    if segments == [] then 0
    else
      (if WellFormed(segments[0]) then segments[0].unit.Times(Value(segments[0].digits)) else 0) +
      Total(segments[1..])
  }

  /** A string of the grammar, with its exact value. */
  ghost predicate Denotes(s: string, millis: nat) {
    exists segments :: segments != [] && Descending(segments, 5) && Spell(segments) == s && Total(segments) == millis
  }

  // ---------- the parser as a function ----------

  /** End of the stretch of digits that starts at `i`. */
  function DigitEnd(s: string, i: nat): (e: nat)
    requires i <= |s|
    ensures i <= e <= |s| && forall k :: i <= k < e ==> IsDigit(s[k])
    decreases |s| - i
  {
    if i == |s| || !IsDigit(s[i]) then i else DigitEnd(s, i + 1)
  }

  /** End of the stretch of lower-case letters that starts at `i`. */
  function LowerEnd(s: string, i: nat): (e: nat)
    requires i <= |s|
    ensures i <= e <= |s|
    decreases |s| - i
  {
    if i == |s| || !IsLower(s[i]) then i else LowerEnd(s, i + 1)
  }

  function UnitOf(text: string): Option<Unit> {
    if text == "ms" then Some(Milliseconds)
    else if text == "s" then Some(Seconds)
    else if text == "m" then Some(Minutes)
    else if text == "h" then Some(Hours)
    else None
  }

  /** Where a segment ends, and the total and the rank behind it. */
  datatype Step = Step(end: nat, total: nat, rank: nat)

  /** Reading the segment at `i`. With a limit, numbers, products and sums beyond it overflow. */
  function ParseSegment(s: string, i: nat, total: nat, lastRank: nat,
      limit: Option<nat>): (r: Result<Step, DurationError>)
    requires i <= |s|
    ensures r.Ok? ==> i < r.value.end <= |s|
  {
    var d := DigitEnd(s, i);
    var u := LowerEnd(s, d);
    if d == i then Err(MissingDigits)
    else if Exceeds(Value(s[i..d]), limit) then Err(Overflow)
    else if u == d then Err(MissingUnit)
    else AddSegment(Value(s[i..d]), s[d..u], u, total, lastRank, limit)
  }

  /** Adding a number with a unit to the total. */
  function AddSegment(number: nat, text: string, end: nat, total: nat, lastRank: nat,
      limit: Option<nat>): (r: Result<Step, DurationError>)
    ensures r.Ok? ==> r.value.end == end
  {
    var unit := UnitOf(text);
    if unit.None? then Err(UnknownUnit(text))
    else if unit.value.Rank() >= lastRank then Err(OrderViolation(text))
    else
      var product := unit.value.Times(number);
      if Exceeds(product, limit) || Exceeds(total + product, limit) then Err(Overflow)
      else Ok(Step(end, total + product, unit.value.Rank()))
  }

  /** Parsing on from `i`, behind some segments. */
  function ParseFrom(s: string, i: nat, total: nat, lastRank: nat, limit: Option<nat>): Parsed
    requires i <= |s|
    decreases |s| - i
  {
    if i == |s| then Ok(total)
    else
      match ParseSegment(s, i, total, lastRank, limit)
      case Ok(step) => ParseFrom(s, step.end, step.total, step.rank, limit)
      case Err(e) => Err(e)
  }

  predicate Exceeds(n: nat, limit: Option<nat>) {
    limit.Some? && n > limit.value
  }

  /** The whole parser; the ranks stop at 4, so 5 is as good as the largest machine integer. */
  function Parse(s: string): Parsed {
    if s == [] then Err(EmptyInput)
    else if exists k :: 0 <= k < |s| && !IsDigit(s[k]) && !IsLower(s[k]) then Err(InvalidCharacter)
    else
      match ParseFrom(s, 0, 0, 5, Some(U128_MAX))
      case Ok(total) => if total > U64_MAX then Err(Overflow) else Ok(total)
      case Err(e) => Err(e)
  }

  /** The parser: an index moves over the characters while the total and the last rank are updated. */
  method ParseDuration(s: string) returns (r: Parsed)
    ensures r == Parse(s)
  {
    if s == [] {
      return Err(EmptyInput);
    }
    if exists k :: 0 <= k < |s| && !IsDigit(s[k]) && !IsLower(s[k]) {
      return Err(InvalidCharacter);
    }
    var i := 0;
    var total: nat := 0;
    var lastRank: nat := 5;
    ghost var whole := ParseFrom(s, 0, 0, 5, Some(U128_MAX));
    while i < |s|
      invariant 0 <= i <= |s|
      invariant whole == ParseFrom(s, i, total, lastRank, Some(U128_MAX))
    {
      var step := ReadSegment(s, i, total, lastRank);
      match step {
        case Err(e) =>
          return Err(e);
        case Ok(next) =>
          i, total, lastRank := next.end, next.total, next.rank;
      }
    }
    r := if total > U64_MAX then Err(Overflow) else Ok(total);
  }

  method ReadSegment(s: string, start: nat, total: nat, lastRank: nat) returns (r: Result<Step, DurationError>)
    requires start < |s|
    ensures r == ParseSegment(s, start, total, lastRank, Some(U128_MAX))
  {
    var i := start;
    while i < |s| && IsDigit(s[i])
      invariant start <= i <= |s| && DigitEnd(s, start) == DigitEnd(s, i)
    {
      i := i + 1;
    }
    if i == start {
      return Err(MissingDigits);
    }
    var number := Value(s[start..i]);
    if number > U128_MAX {
      return Err(Overflow);
    }
    var unitStart := i;
    while i < |s| && IsLower(s[i])
      invariant unitStart <= i <= |s| && LowerEnd(s, unitStart) == LowerEnd(s, i)
    {
      i := i + 1;
    }
    if i == unitStart {
      return Err(MissingUnit);
    }
    r := AddSegment(number, s[unitStart..i], i, total, lastRank, Some(U128_MAX));
  }

  // ---------- which errors are reported ----------

  /** A text that breaks off behind some segments: a stretch of digits, one of letters, and whatever follows. */
  ghost predicate BreaksOff(s: string, segments: seq<Segment>, rank: nat, digits: string, text: string, more: string) {
    && Descending(segments, rank) && s == Spell(segments) + (digits + text + more)
    && (forall k :: 0 <= k < |digits| ==> IsDigit(digits[k])) && (forall k :: 0 <= k < |text| ==> IsLower(text[k]))
    && (more != [] ==> !IsLower(more[0])) && (text == "" && more != [] ==> !IsDigit(more[0]))
  }

  function RankBehind(segments: seq<Segment>, rank: nat): nat {
    if segments == [] then rank else Last(segments).unit.Rank()
  }

  /** Why the stretch behind some segments is refused, when numbers up to a limit can be told apart. */
  ghost predicate Refuses(total: nat, below: nat, digits: string, text: string, limit: nat, e: DurationError)
    requires forall k :: 0 <= k < |digits| ==> IsDigit(digits[k])
  {
    match e
    case MissingDigits => digits == ""
    case MissingUnit => digits != "" && text == "" && Value(digits) <= limit
    case UnknownUnit(unit) =>
      digits != "" && unit == text && text !in ["", "ms", "s", "m", "h"] && Value(digits) <= limit
    case OrderViolation(unit) =>
      digits != "" && unit == text && Value(digits) <= limit && exists u: Unit :: u.Text() == text && u.Rank() >= below
    case Overflow =>
      digits != "" &&
      (Value(digits) > limit ||
       exists u: Unit :: u.Text() == text && u.Rank() < below && total + u.Times(Value(digits)) > limit)
    case _ => false
  }

  lemma {:induction false} DigitEndStops(s: string, i: nat)
    requires i <= |s|
    ensures DigitEnd(s, i) < |s| ==> !IsDigit(s[DigitEnd(s, i)])
    decreases |s| - i
  {
    if i < |s| && IsDigit(s[i]) {
      DigitEndStops(s, i + 1);
    }
  }

  lemma {:induction false} LowerEndStops(s: string, i: nat)
    requires i <= |s|
    ensures forall k :: i <= k < LowerEnd(s, i) ==> IsLower(s[k])
    ensures LowerEnd(s, i) < |s| ==> !IsLower(s[LowerEnd(s, i)])
    decreases |s| - i
  {
    if i < |s| && IsLower(s[i]) {
      LowerEndStops(s, i + 1);
    }
  }

  lemma {:induction false} CutTwice(s: string, i: nat, d: nat, u: nat)
    requires i <= d <= u <= |s|
    ensures s[i..] == "" + (s[i..d] + s[d..u] + s[u..])
  {
    assert s[i..] == s[i..d] + s[d..];
    assert s[d..] == s[d..u] + s[u..];
  }

  lemma {:induction false} SegmentParts(s: string, i: nat, rank: nat)
    requires i <= |s|
    ensures var d := DigitEnd(s, i);
            var u := LowerEnd(s, d);
            BreaksOff(s[i..], [], rank, s[i..d], s[d..u], s[u..])
  {
    var d := DigitEnd(s, i);
    var u := LowerEnd(s, d);
    DigitEndStops(s, i);
    LowerEndStops(s, d);
    CutTwice(s, i, d, u);
    assert u < |s| ==> s[u..][0] == s[u];
  }

  lemma {:induction false} UnitRefused(total: nat, rank: nat, digits: string, text: string, end: nat, limit: nat)
    requires digits != "" && text != "" && forall k :: 0 <= k < |digits| ==> IsDigit(digits[k])
    requires Value(digits) <= limit && AddSegment(Value(digits), text, end, total, rank, Some(limit)).Err?
    ensures Refuses(total, rank, digits, text, limit,
                    AddSegment(Value(digits), text, end, total, rank, Some(limit)).error)
  {
    UnitOfIs(text);
    if UnitOf(text).Some? {
      assert UnitOf(text).value.Text() == text;
    }
  }

  lemma {:induction false} SegmentRefused(s: string, i: nat, total: nat, rank: nat, limit: nat)
    returns (digits: string, text: string, more: string)
    requires i < |s| && ParseSegment(s, i, total, rank, Some(limit)).Err?
    ensures BreaksOff(s[i..], [], rank, digits, text, more)
    ensures Refuses(total, rank, digits, text, limit, ParseSegment(s, i, total, rank, Some(limit)).error)
  {
    var d := DigitEnd(s, i);
    var u := LowerEnd(s, d);
    SegmentParts(s, i, rank);
    digits, text, more := s[i..d], s[d..u], s[u..];
    if d > i && Value(digits) <= limit && u > d {
      UnitRefused(total, rank, digits, text, u, limit);
    }
  }

  lemma {:induction false} SegmentRead(s: string, i: nat, total: nat, rank: nat, limit: Option<nat>)
    returns (g: Segment)
    requires i < |s| && ParseSegment(s, i, total, rank, limit).Ok?
    ensures var step := ParseSegment(s, i, total, rank, limit).value;
            && WellFormed(g) && g.unit.Rank() < rank && step.rank == g.unit.Rank()
            && step.total == total + g.unit.Times(Value(g.digits))
            && s[i..] == g.digits + g.unit.Text() + s[step.end..]
  {
    var d := DigitEnd(s, i);
    var u := LowerEnd(s, d);
    UnitOfIs(s[d..u]);
    g := Segment(s[i..d], UnitOf(s[d..u]).value);
    CutTwice(s, i, d, u);
  }

  lemma {:induction false} BreaksOffLater(s: string, g: Segment, rest: string, segments: seq<Segment>, rank: nat,
      digits: string, text: string, more: string)
    requires WellFormed(g) && g.unit.Rank() < rank && s == g.digits + g.unit.Text() + rest
    requires BreaksOff(rest, segments, g.unit.Rank(), digits, text, more)
    ensures BreaksOff(s, [g] + segments, rank, digits, text, more)
    ensures RankBehind([g] + segments, rank) == RankBehind(segments, g.unit.Rank())
    ensures Total([g] + segments) == g.unit.Times(Value(g.digits)) + Total(segments)
  {
    assert ([g] + segments)[1..] == segments;
    var stretch := digits + text + more;
    Assoc(g.digits + g.unit.Text(), Spell(segments), stretch);
  }

  /** The parser refuses the first stretch that it cannot add to the segments before it, for a reason that is true. */
  lemma {:induction false} RefusedBehind(s: string, i: nat, total: nat, rank: nat, limit: nat)
    returns (segments: seq<Segment>, digits: string, text: string, more: string)
    requires i <= |s| && ParseFrom(s, i, total, rank, Some(limit)).Err?
    ensures BreaksOff(s[i..], segments, rank, digits, text, more)
    ensures Refuses(total + Total(segments), RankBehind(segments, rank), digits, text, limit,
                    ParseFrom(s, i, total, rank, Some(limit)).error)
    decreases |s| - i
  {
    match ParseSegment(s, i, total, rank, Some(limit)) {
      case Err(_) =>
        segments := [];
        digits, text, more := SegmentRefused(s, i, total, rank, limit);
      case Ok(step) =>
        var g := SegmentRead(s, i, total, rank, Some(limit));
        segments, digits, text, more := RefusedBehind(s, step.end, step.total, step.rank, limit);
        BreaksOffLater(s[i..], g, s[step.end..], segments, rank, digits, text, more);
        segments := [g] + segments;
    }
  }

  /**
   * What each error says is true of the text: it is empty; it holds a character that is neither a digit nor a
   * lower-case letter; its value is too large; or it breaks off at a stretch that cannot be added.
   */
  lemma {:induction false} ErrorIs(s: string)
    returns (segments: seq<Segment>, digits: string, text: string, more: string)
    requires Parse(s).Err?
    ensures Parse(s) == Err(EmptyInput) <==> s == ""
    ensures Parse(s) == Err(InvalidCharacter) <==>
            s != "" && exists k :: 0 <= k < |s| && !IsDigit(s[k]) && !IsLower(s[k])
    ensures !Parse(s).error.EmptyInput? && !Parse(s).error.InvalidCharacter? ==>
              || (Parse(s) == Err(Overflow) && exists millis: nat :: Denotes(s, millis) && millis > U64_MAX)
              || (BreaksOff(s, segments, 5, digits, text, more) &&
                  Refuses(Total(segments), RankBehind(segments, 5), digits, text, U128_MAX, Parse(s).error))
  {
    segments, digits, text, more := [], "", "", "";
    if s != [] && forall k :: 0 <= k < |s| ==> IsDigit(s[k]) || IsLower(s[k]) {
      if ParseFrom(s, 0, 0, 5, Some(U128_MAX)).Err? {
        segments, digits, text, more := RefusedBehind(s, 0, 0, 5, U128_MAX);
        assert s[0..] == s;
      } else {
        TooLargeDenotes(s);
      }
    }
  }

  lemma {:induction false} TooLargeDenotes(s: string)
    requires s != [] && ParseFrom(s, 0, 0, 5, Some(U128_MAX)).Ok?
    ensures Denotes(s, ParseFrom(s, 0, 0, 5, Some(U128_MAX)).value)
  {
    LimitNeverMatters(s, 0, 0, 5, U128_MAX);
    var segments := ReadIsSpelled(s, 0, 0, 5);
    assert s[0..] == s;
  }

  // ---------- acceptance is exact ----------

  lemma {:induction false} DigitEndIs(s: string, i: nat, e: nat)
    requires i <= e <= |s| && (forall k :: i <= k < e ==> IsDigit(s[k])) && (e < |s| ==> !IsDigit(s[e]))
    ensures DigitEnd(s, i) == e
    decreases e - i
  {
    if i < e {
      DigitEndIs(s, i + 1, e);
    }
  }

  lemma {:induction false} LowerEndIs(s: string, i: nat, e: nat)
    requires i <= e <= |s| && (forall k :: i <= k < e ==> IsLower(s[k])) && (e < |s| ==> !IsLower(s[e]))
    ensures LowerEnd(s, i) == e
    decreases e - i
  {
    if i < e {
      LowerEndIs(s, i + 1, e);
    }
  }

  lemma {:induction false} UnitOfText(u: Unit)
    ensures UnitOf(u.Text()) == Some(u)
    ensures 1 <= |u.Text()| <= 2 && forall k :: 0 <= k < |u.Text()| ==> IsLower(u.Text()[k])
  {
  }

  lemma {:induction false} UnitOfIs(text: string)
    ensures UnitOf(text).Some? ==> UnitOf(text).value.Text() == text
  {
  }

  /** What the parser reads is spelled by descending segments with the total it returns. */
  lemma {:induction false} ReadIsSpelled(s: string, i: nat, total: nat, rank: nat) returns (segments: seq<Segment>)
    requires i <= |s| && ParseFrom(s, i, total, rank, None).Ok?
    ensures Descending(segments, rank) && Spell(segments) == s[i..] && (i < |s| ==> segments != [])
    ensures ParseFrom(s, i, total, rank, None).value == total + Total(segments)
    decreases |s| - i
  {
    if i == |s| {
      segments := [];
    } else {
      var step := ParseSegment(s, i, total, rank, None).value;
      var first := SegmentRead(s, i, total, rank, None);
      var rest := ReadIsSpelled(s, step.end, step.total, step.rank);
      segments := [first] + rest;
      assert segments[0] == first && segments[1..] == rest;
    }
  }

  lemma {:induction false} ThreeParts(s: string, i: nat, a: string, b: string, c: string)
    requires i <= |s| && s[i..] == a + b + c
    ensures var d, u := i + |a|, i + |a| + |b|;
            && u <= |s| && s[i..d] == a && s[d..u] == b && s[u..] == c
            && (forall k :: i <= k < d ==> s[k] == a[k - i]) && (forall k :: d <= k < u ==> s[k] == b[k - d])
  {
    var t := a + b + c;
    assert t[..|a|] == a && t[|a|..|a| + |b|] == b && t[|a| + |b|..] == c;
    assert forall k :: i <= k < |s| ==> s[k] == s[i..][k - i];
  }

  /** Digits, letters and then anything that is no letter: where the two scans end. */
  lemma {:induction false} PartsAt(s: string, i: nat, a: string, b: string, c: string)
    requires i <= |s| && s[i..] == a + b + c && b != []
    requires forall k :: 0 <= k < |a| ==> IsDigit(a[k])
    requires forall k :: 0 <= k < |b| ==> IsLower(b[k])
    requires c != [] ==> IsDigit(c[0])
    ensures var d, u := i + |a|, i + |a| + |b|;
            && u <= |s| && DigitEnd(s, i) == d && LowerEnd(s, d) == u && s[i..d] == a && s[d..u] == b && s[u..] == c
  {
    var d, u := i + |a|, i + |a| + |b|;
    ThreeParts(s, i, a, b, c);
    DigitEndIs(s, i, d);
    assert u < |s| ==> s[u] == s[u..][0];
    LowerEndIs(s, d, u);
  }

  /** Where the parts of a spelled segment lie. */
  lemma {:induction false} SpelledParts(s: string, i: nat, segments: seq<Segment>, rank: nat)
    requires i <= |s| && segments != [] && Descending(segments, rank) && Spell(segments) == s[i..]
    ensures var d := i + |segments[0].digits|;
            var u := d + |segments[0].unit.Text()|;
            && i < d < u <= |s| && DigitEnd(s, i) == d && LowerEnd(s, d) == u
            && s[i..d] == segments[0].digits && s[d..u] == segments[0].unit.Text() && s[u..] == Spell(segments[1..])
  {
    UnitOfText(segments[0].unit);
    DigitFirst(segments[1..], segments[0].unit.Rank());
    PartsAt(s, i, segments[0].digits, segments[0].unit.Text(), Spell(segments[1..]));
  }

  lemma {:induction false} DigitFirst(segments: seq<Segment>, rank: nat)
    requires Descending(segments, rank)
    ensures Spell(segments) != [] ==> IsDigit(Spell(segments)[0])
  {
    if segments != [] {
      assert Spell(segments)[0] == segments[0].digits[0];
    }
  }

  /** The scanner finds exactly these segments from `i` on. */
  ghost predicate Scans(s: string, i: nat, segments: seq<Segment>)
    requires i <= |s|
    decreases |segments|
  {
    if segments == [] then i == |s|
    else
      var d := DigitEnd(s, i);
      var u := LowerEnd(s, d);
      && i < d < u && s[i..d] == segments[0].digits && UnitOf(s[d..u]) == Some(segments[0].unit)
      && Scans(s, u, segments[1..])
  }

  lemma {:induction false} SpelledHead(s: string, i: nat, segments: seq<Segment>, rank: nat)
    requires i <= |s| && segments != [] && Descending(segments, rank) && Spell(segments) == s[i..]
    ensures var d := DigitEnd(s, i);
            var u := LowerEnd(s, d);
            && i < d < u && s[i..d] == segments[0].digits && UnitOf(s[d..u]) == Some(segments[0].unit)
            && s[u..] == Spell(segments[1..])
  {
    SpelledParts(s, i, segments, rank);
    UnitOfText(segments[0].unit);
  }

  lemma {:induction false} SpelledIsScanned(s: string, i: nat, segments: seq<Segment>, rank: nat)
    requires i <= |s| && Descending(segments, rank) && Spell(segments) == s[i..]
    ensures Scans(s, i, segments)
    decreases |segments|
  {
    if segments == [] {
      assert |s[i..]| == |s| - i;
    } else {
      SpelledHead(s, i, segments, rank);
      SpelledIsScanned(s, LowerEnd(s, DigitEnd(s, i)), segments[1..], segments[0].unit.Rank());
    }
  }

  lemma {:induction false} ReadOn(s: string, i: nat, total: nat, rank: nat, step: Step)
    requires i < |s| && ParseSegment(s, i, total, rank, None) == Ok(step)
    ensures ParseFrom(s, i, total, rank, None) == ParseFrom(s, step.end, step.total, step.rank, None)
  {
  }

  /** The parser adds up scanned segments. */
  lemma {:induction false} ScannedIsRead(s: string, i: nat, total: nat, rank: nat, segments: seq<Segment>)
    requires i <= |s| && Descending(segments, rank) && Scans(s, i, segments)
    ensures ParseFrom(s, i, total, rank, None) == Ok(total + Total(segments))
    decreases |segments|
  {
    if segments != [] {
      var step := ScannedSegment(s, i, total, rank, segments);
      ScannedIsRead(s, step.end, step.total, step.rank, segments[1..]);
      ReadOn(s, i, total, rank, step);
    }
  }

  lemma {:induction false} ScannedSegment(s: string, i: nat, total: nat, rank: nat, segments: seq<Segment>)
    returns (step: Step)
    requires i <= |s| && segments != [] && Descending(segments, rank) && Scans(s, i, segments)
    ensures i < step.end <= |s| && ParseSegment(s, i, total, rank, None) == Ok(step)
    ensures Descending(segments[1..], step.rank) && Scans(s, step.end, segments[1..])
    ensures step.total + Total(segments[1..]) == total + Total(segments)
  {
    var g := segments[0];
    step := Step(LowerEnd(s, DigitEnd(s, i)), total + g.unit.Times(Value(g.digits)), g.unit.Rank());
  }

  /** The parser reads any spelling of descending segments, and returns their total. */
  lemma {:induction false} SpelledIsRead(s: string, i: nat, total: nat, rank: nat, segments: seq<Segment>)
    requires i <= |s| && Descending(segments, rank) && Spell(segments) == s[i..]
    ensures ParseFrom(s, i, total, rank, None) == Ok(total + Total(segments))
  {
    SpelledIsScanned(s, i, segments, rank);
    ScannedIsRead(s, i, total, rank, segments);
  }

  lemma {:induction false} TotalGrows(s: string, i: nat, total: nat, rank: nat)
    requires i <= |s|
    ensures var r := ParseFrom(s, i, total, rank, None); r.Ok? ==> total <= r.value
    decreases |s| - i
  {
    if i < |s| && ParseSegment(s, i, total, rank, None).Ok? {
      var step := ParseSegment(s, i, total, rank, None).value;
      TotalGrows(s, step.end, step.total, step.rank);
    }
  }

  /** A limit on one segment only ever turns a result into an overflow, and never one whose total keeps to the limit. */
  lemma {:induction false} SegmentLimit(s: string, i: nat, total: nat, rank: nat, limit: nat)
    requires i <= |s|
    ensures var free, bound := ParseSegment(s, i, total, rank, None), ParseSegment(s, i, total, rank, Some(limit));
            && (bound == free || bound == Err(Overflow))
            && (free.Ok? && free.value.total <= limit ==> bound == free)
  {
    var d := DigitEnd(s, i);
    var unit := UnitOf(s[d..LowerEnd(s, d)]);
    if unit.Some? {
      assert Value(s[i..d]) <= unit.value.Times(Value(s[i..d]));
    }
  }

  /** The 128-bit checks never change the answer: they only replace an answer that is out of range or an error. */
  lemma {:induction false} LimitNeverMatters(s: string, i: nat, total: nat, rank: nat, limit: nat)
    requires i <= |s|
    ensures var free, bound := ParseFrom(s, i, total, rank, None), ParseFrom(s, i, total, rank, Some(limit));
            && (bound == free || bound == Err(Overflow))
            && (free.Ok? && free.value <= limit ==> bound == free)
    decreases |s| - i
  {
    if i < |s| {
      SegmentLimit(s, i, total, rank, limit);
      var free := ParseSegment(s, i, total, rank, None);
      if free.Ok? {
        TotalGrows(s, free.value.end, free.value.total, free.value.rank);
        LimitNeverMatters(s, free.value.end, free.value.total, free.value.rank, limit);
      }
    }
  }

  lemma {:induction false} SpelledCharacters(segments: seq<Segment>, rank: nat)
    requires Descending(segments, rank)
    ensures forall k :: 0 <= k < |Spell(segments)| ==> IsDigit(Spell(segments)[k]) || IsLower(Spell(segments)[k])
    decreases |segments|
  {
    if segments != [] {
      UnitOfText(segments[0].unit);
      SpelledCharacters(segments[1..], segments[0].unit.Rank());
    }
  }

  /** A string is accepted, with a certain value, exactly when the grammar gives it that value and it fits 64 bits. */
  lemma {:induction false} AcceptedExactly(s: string, millis: nat)
    ensures Parse(s) == Ok(millis) <==> Denotes(s, millis) && millis <= U64_MAX
  {
    assert s[0..] == s;
    LimitNeverMatters(s, 0, 0, 5, U128_MAX);
    if Parse(s) == Ok(millis) {
      var segments := ReadIsSpelled(s, 0, 0, 5);
      assert Denotes(s, millis);
    }
    if Denotes(s, millis) && millis <= U64_MAX {
      var segments :| segments != [] && Descending(segments, 5) && Spell(segments) == s && Total(segments) == millis;
      assert s[0..] == s;
      SpelledIsRead(s, 0, 0, 5, segments);
      SpelledCharacters(segments, 5);
    }
  }

  /** A string denotes at most one duration. */
  lemma {:induction false} Unambiguous(s: string, a: nat, b: nat)
    requires Denotes(s, a) && Denotes(s, b)
    ensures a == b
  {
    var x :| x != [] && Descending(x, 5) && Spell(x) == s && Total(x) == a;
    var y :| y != [] && Descending(y, 5) && Spell(y) == s && Total(y) == b;
    assert s[0..] == s;
    SpelledIsRead(s, 0, 0, 5, x);
    SpelledIsRead(s, 0, 0, 5, y);
  }

  // ---------- the canonical form ----------

  /** A duration in nanoseconds. */
  datatype Duration = Duration(nanos: nat) {
    function AsMillis(): nat {
      nanos / 1_000_000
    }
  }

  function FromMillis(millis: nat): Duration {
    Duration(millis * 1_000_000)
  }

  function NonZero(n: nat, unit: Unit): seq<Segment> {
    if n > 0 then [Segment(Decimal(n), unit)] else []
  }

  /** The greedy decomposition from hours down, without empty parts; zero is `0s`. */
  function CanonicalSegments(millis: nat): seq<Segment> {
    if millis == 0 then [Segment(Decimal(0), Seconds)]
    else
      NonZero(millis / 3_600_000, Hours) + (NonZero(millis % 3_600_000 / 60_000, Minutes) +
      (NonZero(millis % 3_600_000 % 60_000 / 1_000, Seconds) +
        NonZero(millis % 3_600_000 % 60_000 % 1_000, Milliseconds)))
  }

  function CanonicalText(d: Duration): string {
    Spell(CanonicalSegments(d.AsMillis()))
  }

  function NonZeroText(n: nat, unit: Unit): string {
    if n > 0 then Decimal(n) + unit.Text() else ""
  }

  lemma {:induction false} SpellNonZero(n: nat, unit: Unit, rest: seq<Segment>)
    ensures Spell(NonZero(n, unit) + rest) == NonZeroText(n, unit) + Spell(rest)
  {
    assert [Segment(Decimal(n), unit)] + rest != [];
    assert ([Segment(Decimal(n), unit)] + rest)[1..] == rest;
    assert [] + rest == rest;
  }

  lemma {:induction false} SpellOne(g: Segment)
    ensures Spell([g]) == g.digits + g.unit.Text()
    ensures WellFormed(g) ==> Descending([g], 5) && Total([g]) == g.unit.Times(Value(g.digits))
  {
    assert Total([]) == 0;
    assert [g][1..] == [] && g.digits + g.unit.Text() + "" == g.digits + g.unit.Text();
  }

  lemma {:induction false} Regroup(a: string, b: string, c: string, d: string)
    ensures a + (b + (c + d)) == "" + a + b + c + d
  {
  }

  /** The printer: the total is reduced unit by unit while the text grows. */
  method Canonical(d: Duration) returns (out: string)
    ensures out == CanonicalText(d)
  {
    var total := d.AsMillis();
    if total == 0 {
      SpellOne(Segment(Decimal(0), Seconds));
      return Decimal(0) + Seconds.Text();
    }
    var hours := total / 3_600_000;
    total := total % 3_600_000;
    var minutes := total / 60_000;
    total := total % 60_000;
    var seconds := total / 1_000;
    total := total % 1_000;
    out := "";
    if hours > 0 {
      out := out + (Decimal(hours) + Hours.Text());
    }
    assert out == "" + NonZeroText(hours, Hours);
    if minutes > 0 {
      out := out + (Decimal(minutes) + Minutes.Text());
    }
    assert out == "" + NonZeroText(hours, Hours) + NonZeroText(minutes, Minutes);
    if seconds > 0 {
      out := out + (Decimal(seconds) + Seconds.Text());
    }
    assert out == "" + NonZeroText(hours, Hours) + NonZeroText(minutes, Minutes) + NonZeroText(seconds, Seconds);
    if total > 0 {
      out := out + (Decimal(total) + Milliseconds.Text());
    }
    SpellParts(hours, minutes, seconds, total);
  }

  lemma {:induction false} SpellParts(hours: nat, minutes: nat, seconds: nat, millis: nat)
    ensures Spell(NonZero(hours, Hours) +
            (NonZero(minutes, Minutes) + (NonZero(seconds, Seconds) + NonZero(millis, Milliseconds)))) ==
            "" + NonZeroText(hours, Hours) + NonZeroText(minutes, Minutes) +
              NonZeroText(seconds, Seconds) + NonZeroText(millis, Milliseconds)
  {
    var ms := NonZero(millis, Milliseconds);
    SpellNonZero(millis, Milliseconds, []);
    assert ms + [] == ms && NonZeroText(millis, Milliseconds) + Spell([]) == NonZeroText(millis, Milliseconds);
    SpellNonZero(seconds, Seconds, ms);
    SpellNonZero(minutes, Minutes, NonZero(seconds, Seconds) + ms);
    SpellNonZero(hours, Hours, NonZero(minutes, Minutes) + (NonZero(seconds, Seconds) + ms));
    Regroup(NonZeroText(hours, Hours), NonZeroText(minutes, Minutes),
      NonZeroText(seconds, Seconds), NonZeroText(millis, Milliseconds));
  }

  lemma {:induction false} NonZeroDescends(n: nat, unit: Unit, rest: seq<Segment>, below: nat)
    requires Descending(rest, unit.Rank()) && unit.Rank() < below
    ensures Descending(NonZero(n, unit) + rest, below)
    ensures Total(NonZero(n, unit) + rest) == unit.Times(n) + Total(rest)
  {
    if n > 0 {
      ValueOfDecimal(n);
      var all := [Segment(Decimal(n), unit)] + rest;
      assert all[0] == Segment(Decimal(n), unit) && all[1..] == rest;
    } else {
      assert [] + rest == rest;
    }
  }

  /** The canonical segments belong to the grammar and add up to the number they came from. */
  lemma {:induction false} CanonicalDenotes(millis: nat)
    ensures Denotes(Spell(CanonicalSegments(millis)), millis)
  {
    var segments := CanonicalSegments(millis);
    if millis == 0 {
      ValueOfDecimal(0);
      SpellOne(segments[0]);
    } else {
      var h, m := millis / 3_600_000, millis % 3_600_000 / 60_000;
      var s, ms := millis % 3_600_000 % 60_000 / 1_000, millis % 3_600_000 % 60_000 % 1_000;
      assert NonZero(ms, Milliseconds) + [] == NonZero(ms, Milliseconds);
      NonZeroDescends(ms, Milliseconds, [], 2);
      NonZeroDescends(s, Seconds, NonZero(ms, Milliseconds), 3);
      NonZeroDescends(m, Minutes, NonZero(s, Seconds) + NonZero(ms, Milliseconds), 4);
      NonZeroDescends(h, Hours, NonZero(m, Minutes) + (NonZero(s, Seconds) + NonZero(ms, Milliseconds)), 5);
      assert Total(segments) == millis;
    }
  }

  /** Parsing a canonical form gives back the whole milliseconds, unless they exceed 64 bits. */
  lemma {:induction false} ParseCanonical(d: Duration)
    ensures Parse(CanonicalText(d)) == if d.AsMillis() <= U64_MAX then Ok(d.AsMillis()) else Err(Overflow)
  {
    var s, millis := CanonicalText(d), d.AsMillis();
    CanonicalDenotes(millis);
    AcceptedExactly(s, millis);
    if millis > U64_MAX {
      var segments :| segments != [] && Descending(segments, 5) && Spell(segments) == s && Total(segments) == millis;
      assert s[0..] == s;
      SpelledIsRead(s, 0, 0, 5, segments);
      SpelledCharacters(segments, 5);
      LimitNeverMatters(s, 0, 0, 5, U128_MAX);
    }
  }

  /** Printing and parsing gives a duration back exactly when it consists of whole milliseconds that fit 64 bits. */
  lemma {:induction false} RoundTripIff(d: Duration)
    ensures (exists millis :: Parse(CanonicalText(d)) == Ok(millis) && FromMillis(millis) == d) <==>
            d.nanos % 1_000_000 == 0 && d.AsMillis() <= U64_MAX
  {
    ParseCanonical(d);
    if d.nanos % 1_000_000 == 0 && d.AsMillis() <= U64_MAX {
      assert Parse(CanonicalText(d)) == Ok(d.AsMillis()) && FromMillis(d.AsMillis()) == d;
    }
  }

  /** One nanosecond prints as `0s` and comes back as nothing. */
  lemma {:induction false} NanosecondIsLost()
    ensures CanonicalText(Duration(1)) == "0s" && Parse("0s") == Ok(0) && FromMillis(0) != Duration(1)
  {
    ParseCanonical(Duration(1));
    SpellOne(Segment(Decimal(0), Seconds));
    assert Decimal(0) == "0" && "0" + "s" == "0s";
  }

  /** The canonical form of a string. */
  function Canonicalised(s: string): Result<string, DurationError> {
    match Parse(s)
    case Ok(millis) => Ok(CanonicalText(FromMillis(millis)))
    case Err(e) => Err(e)
  }

  /** Canonicalising an accepted string keeps its value, and doing it again changes nothing. */
  lemma {:induction false} CanonicalIsIdempotent(s: string)
    requires Canonicalised(s).Ok?
    ensures Parse(Canonicalised(s).value) == Parse(s) && Canonicalised(Canonicalised(s).value) == Canonicalised(s)
  {
    AcceptedExactly(s, Parse(s).value);
    CanonicalAgain(Parse(s).value);
  }

  lemma {:induction false} CanonicalAgain(millis: nat)
    requires millis <= U64_MAX
    ensures var text := CanonicalText(FromMillis(millis)); Parse(text) == Ok(millis) && Canonicalised(text) == Ok(text)
  {
    ParseCanonical(FromMillis(millis));
    assert FromMillis(millis).AsMillis() == millis;
  }

  /** Two accepted strings have the same canonical form exactly when they denote the same duration. */
  lemma {:induction false} SameCanonicalIffSameDuration(a: string, b: string)
    requires Canonicalised(a).Ok? && Canonicalised(b).Ok?
    ensures Canonicalised(a) == Canonicalised(b) <==> Parse(a) == Parse(b)
  {
    CanonicalIsIdempotent(a);
    CanonicalIsIdempotent(b);
  }
}
