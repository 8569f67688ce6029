/** Quoting a text for the shell (crates/stepyard-harness/src/container_workspace.rs). */
module ShellQuote {
  import opened Prelude

  /** Every single quote replaced by: close the quotes, an escaped quote, open them again. */
  function Escaped(s: string): string {
    if s == [] then ""
    else (if s[0] == '\'' then "'\\''" else [s[0]]) + Escaped(s[1..])
  }

  function Quote(s: string): string {
    "'" + Escaped(s) + "'"
  }

  // ---------- reading words, by sections 2.2.1 and 2.2.2 of the POSIX Shell Command Language ----------

  datatype Mode = Unquoted | Escape | SingleQuoted

  /** The words read so far, the word being read, if any, and how the next character counts. */
  datatype Reader = Reader(words: seq<string>, word: Option<string>, mode: Mode)

  const START := Reader([], None, Unquoted)

  predicate IsBlank(c: char) {
    c == ' ' || c == '\t'
  }

  /** Characters that mean more than themselves outside quotes; commands that use them are not read here. */
  predicate IsSpecial(c: char) {
    c in "|&;<>()$`\"\n*?[]#~=%!{}"
  }

  function Append(r: Reader, c: char): Reader {
    r.(word := Some(UnwrapOr(r.word, "") + [c]), mode := if r.mode.Escape? then Unquoted else r.mode)
  }

  function EndWord(r: Reader): Reader {
    if r.word.Some? then r.(words := r.words + [r.word.value], word := None) else r
  }

  /** One character. An escaped line end joins two lines; a quote inside single quotes always ends them. */
  function Step(r: Reader, c: char): Option<Reader> {
    match r.mode
    case SingleQuoted => if c == '\'' then Some(r.(mode := Unquoted)) else Some(Append(r, c))
    case Escape => if c == '\n' then Some(r.(mode := Unquoted)) else Some(Append(r, c))
    case Unquoted =>
      if IsBlank(c) then Some(EndWord(r))
      else if c == '\\' then Some(r.(mode := Escape))
      else if c == '\'' then Some(r.(word := Some(UnwrapOr(r.word, "")), mode := SingleQuoted))
      else if IsSpecial(c) then None
      else Some(Append(r, c))
  }

  function Scan(r: Option<Reader>, s: string): Option<Reader>
    decreases |s|
  {
    if r.None? || s == [] then r else Scan(Step(r.value, s[0]), s[1..])
  }

  /** The words of a command, when it is complete and plain. */
  function Words(s: string): Option<seq<string>> {
    var r := Scan(Some(START), s);
    if r.Some? && r.value.mode.Unquoted? then Some(EndWord(r.value).words) else None
  }

  // ---------- round trip ----------

  lemma {:induction false} ScanAppend(r: Option<Reader>, a: string, b: string)
    ensures Scan(r, a + b) == Scan(Scan(r, a), b)
    decreases |a|
  {
    if a == [] {
      assert a + b == b;
    } else if r.Some? {
      assert (a + b)[1..] == a[1..] + b;
      ScanAppend(Step(r.value, a[0]), a[1..], b);
    }
  }

  lemma {:induction false} ScanFour(r: Reader, c0: char, c1: char, c2: char, c3: char)
    ensures Scan(Some(r), [c0, c1, c2, c3]) == Scan(Scan(Some(r), [c0, c1]), [c2, c3])
  {
    assert [c0, c1, c2, c3] == [c0, c1] + [c2, c3];
    ScanAppend(Some(r), [c0, c1], [c2, c3]);
  }

  lemma {:induction false} ScanTwo(r: Reader, c0: char, c1: char)
    ensures Scan(Some(r), [c0, c1]) == if Step(r, c0).Some? then Step(Step(r, c0).value, c1) else None
  {
    assert [c0, c1][1..] == [c1] && [c1][1..] == [];
    assert Scan(Step(r, c0), [c1]) == if Step(r, c0).Some? then Scan(Step(Step(r, c0).value, c1), []) else None;
  }

  /** The escape for one quote adds one quote to the word and stays within quotes. */
  lemma {:induction false} EscapedQuote(words: seq<string>, word: string)
    ensures Scan(Some(Reader(words, Some(word), SingleQuoted)), "'\\''") ==
            Some(Reader(words, Some(word + ['\'']), SingleQuoted))
  {
    var r := Reader(words, Some(word), SingleQuoted);
    ScanFour(r, '\'', '\\', '\'', '\'');
    ScanTwo(r, '\'', '\\');
    ScanTwo(Reader(words, Some(word), Escape), '\'', '\'');
  }

  lemma {:induction false} EscapedText(words: seq<string>, word: string, s: string)
    ensures Scan(Some(Reader(words, Some(word), SingleQuoted)), Escaped(s)) ==
            Some(Reader(words, Some(word + s), SingleQuoted))
    decreases |s|
  {
    var r := Some(Reader(words, Some(word), SingleQuoted));
    if s == [] {
      assert word + s == word;
    } else {
      var c := s[0];
      assert word + s == word + [c] + s[1..];
      EscapedText(words, word + [c], s[1..]);
      if c == '\'' {
        EscapedQuote(words, word);
        ScanAppend(r, "'\\''", Escaped(s[1..]));
      } else {
        ScanAppend(r, [c], Escaped(s[1..]));
        assert [c][1..] == [];
        assert Scan(r, [c]) == Scan(Step(r.value, c), []);
      }
    }
  }

  /** Wherever it stands outside quotes, a quoted text adds exactly itself to the word being read. */
  lemma {:induction false} QuoteAddsText(words: seq<string>, word: Option<string>, s: string)
    ensures Scan(Some(Reader(words, word, Unquoted)), Quote(s)) ==
            Some(Reader(words, Some(UnwrapOr(word, "") + s), Unquoted))
  {
    var r := Reader(words, word, Unquoted);
    var text := UnwrapOr(word, "");
    assert Quote(s) == "'" + (Escaped(s) + "'");
    ScanAppend(Some(r), "'", Escaped(s) + "'");
    assert "'"[1..] == [];
    assert Scan(Some(r), "'") == Scan(Step(r, '\''), []);
    ScanAppend(Some(Reader(words, Some(text), SingleQuoted)), Escaped(s), "'");
    EscapedText(words, text, s);
    var inside := Reader(words, Some(text + s), SingleQuoted);
    assert Scan(Some(inside), "'") == Scan(Step(inside, '\''), []);
  }

  /** The words already read only ever stand in front. */
  lemma {:induction false} EarlierWords(words: seq<string>, r: Reader, s: string)
    ensures var a, b := Scan(Some(r.(words := words + r.words)), s), Scan(Some(r), s);
            && (a.Some? <==> b.Some?)
            && (a.Some? ==> a.value == b.value.(words := words + b.value.words))
    decreases |s|
  {
    if s != [] {
      var next := Step(r, s[0]);
      assert Step(r.(words := words + r.words), s[0]) ==
             if next.Some? then Some(next.value.(words := words + next.value.words)) else None by {
        Assoc(words, r.words, [UnwrapOr(r.word, "")]);
      }
      if next.Some? {
        EarlierWords(words, next.value, s[1..]);
      }
    }
  }

  /** Quoting any text gives exactly one word, that text, also between blanks in a longer command. */
  lemma {:induction false} QuotedIsOneWord(before: string, s: string, after: string)
    requires Words(before).Some? && Words(after).Some?
    ensures Words(Quote(s)) == Some([s])
    ensures Words(before + " " + Quote(s) + " " + after) == Some(Words(before).value + [s] + Words(after).value)
  {
    QuoteAddsText([], None, s);
    assert "" + s == s && [] + [s] == [s];
    var front := Words(before).value;
    BlankEndsWord(START, before);
    var r1 := Some(Reader(front, None, Unquoted));
    assert Scan(Some(START), before + " ") == r1;
    ScanAppend(Some(START), before + " ", Quote(s));
    QuoteAddsText(front, None, s);
    var r2 := Reader(front, Some(s), Unquoted);
    assert Scan(Some(START), before + " " + Quote(s)) == Some(r2);
    ScanAppend(Some(START), before + " " + Quote(s), " ");
    assert Scan(Some(r2), " ") == Scan(Step(r2, ' '), " "[1..]) == Some(Reader(front + [s], None, Unquoted));
    ScanAppend(Some(START), before + " " + Quote(s) + " ", after);
    EarlierWords(front + [s], START, after);
    assert front + [s] + [] == front + [s];
    var last := Scan(Some(START), after).value;
    if last.word.Some? {
      Assoc(front + [s], last.words, [last.word.value]);
    }
  }

  lemma {:induction false} BlankEndsWord(r: Reader, s: string)
    requires Scan(Some(r), s).Some? && Scan(Some(r), s).value.mode.Unquoted?
    ensures Scan(Some(r), s + " ") == Some(EndWord(Scan(Some(r), s).value))
  {
    ScanAppend(Some(r), s, " ");
    var end := Scan(Some(r), s).value;
    assert Scan(Some(end), " ") == Scan(Step(end, ' '), " "[1..]);
  }

  /** Different texts are quoted differently. */
  lemma {:induction false} QuoteInjective(a: string, b: string)
    requires Quote(a) == Quote(b)
    ensures a == b
  {
    QuoteAddsText([], None, a);
    QuoteAddsText([], None, b);
    assert "" + a == a && "" + b == b;
  }
}
