/** Shortening a chat history, in the v1 and the v2 implementation (src/steps/chat.rs, src/chat_client.rs). */
module Truncation {
  import opened Prelude
  import opened ContextStore

  datatype Strategy =
    | KeepAll
    | KeepLast(count: nat)
    | KeepFirst(count: nat)
    | FirstLast(first: nat, last: nat)
    | SlidingWindow(maxTokens: nat)

  type History = seq<ChatMessage>

  /** Estimated tokens of a history; `estimate` stands for the word-count heuristic on one text. */
  function Tokens(history: History, estimate: string -> nat): nat {
    if history == [] then 0 else Tokens(history[..|history| - 1], estimate) + estimate(Last(history).content)
  }

  /** Subtraction that stops at zero. */
  function SaturatingSub(a: nat, b: nat): nat {
    if b <= a then a - b else 0
  }

  // ---------- what the strategies promise ----------

  /** The longest suffix that fits the budget. */
  ghost predicate LongestFittingSuffix(history: History, estimate: string -> nat, budget: nat, r: History) {
    && |r| <= |history| && r == history[|history| - |r|..]
    && Tokens(r, estimate) <= budget
    && forall k :: 0 <= k < |history| - |r| ==> Tokens(history[k..], estimate) > budget
  }

  /** The first and the last messages, each kept once; the whole history when the two parts meet. */
  ghost predicate HeadAndTail(history: History, first: nat, last: nat, r: History) {
    if first + last >= |history| then r == history
    else r == history[..first] + history[|history| - last..] && |r| == first + last
  }

  /** The meaning of a strategy. */
  ghost predicate Truncated(history: History, s: Strategy, estimate: string -> nat, r: History) {
    match s
    case KeepAll => r == history
    case KeepLast(n) => |r| == (if n < |history| then n else |history|) && r == history[|history| - |r|..]
    case KeepFirst(n) => |r| == (if n < |history| then n else |history|) && r == history[..|r|]
    case FirstLast(first, last) => HeadAndTail(history, first, last, r)
    case SlidingWindow(max) => LongestFittingSuffix(history, estimate, max, r)
  }

  lemma {:induction false} TokensSplit(a: History, b: History, estimate: string -> nat)
    ensures Tokens(a + b, estimate) == Tokens(a, estimate) + Tokens(b, estimate)
    decreases |b|
  {
    if b == [] {
      assert a + b == a;
    } else {
      assert (a + b)[..|a + b| - 1] == a + b[..|b| - 1];
      TokensSplit(a, b[..|b| - 1], estimate);
    }
  }

  lemma {:induction false} DropOne(history: History, i: nat, estimate: string -> nat)
    requires i < |history|
    ensures Tokens(history[i..], estimate) == estimate(history[i].content) + Tokens(history[i + 1..], estimate)
  {
    assert history[i..] == [history[i]] + history[i + 1..];
    TokensSplit([history[i]], history[i + 1..], estimate);
    assert [history[i]][..0] == [];
  }

  /** The meaning fixes the result, so two implementations that meet it agree. */
  lemma {:induction false} TruncatedUnique(history: History, s: Strategy, estimate: string -> nat, a: History,
      b: History)
    requires Truncated(history, s, estimate, a) && Truncated(history, s, estimate, b)
    ensures a == b
  {
    if s.SlidingWindow? {
      assert Tokens(history[|history| - |a|..], estimate) <= s.maxTokens;
      assert Tokens(history[|history| - |b|..], estimate) <= s.maxTokens;
    }
  }

  /** A first-and-last result keeps as many messages as asked, or all, and no message twice when all are different. */
  lemma {:induction false} NothingDuplicated(history: History, first: nat, last: nat, r: History)
    requires HeadAndTail(history, first, last, r)
    ensures |r| == if first + last < |history| then first + last else |history|
    ensures Distinct(history) ==> Distinct(r)
  {
    if first + last < |history| {
      assert forall k :: 0 <= k < first ==> r[k] == history[k];
      assert forall k :: first <= k < |r| ==> r[k] == history[k - first + |history| - last];
    }
  }

  /** What a strategy leaves of a history. */
  function Shortened(history: History, s: Strategy, estimate: string -> nat): (r: History)
    ensures Truncated(history, s, estimate, r)
  {
    match s
    case KeepAll => history
    case KeepLast(n) => history[SaturatingSub(|history|, n)..]
    case KeepFirst(n) => history[..if n < |history| then n else |history|]
    case FirstLast(first, last) =>
      if first + last >= |history| then history else history[..first] + history[|history| - last..]
    case SlidingWindow(max) => FittingSuffix(history, estimate, max)
  }

  function FittingSuffix(history: History, estimate: string -> nat, budget: nat): (r: History)
    ensures LongestFittingSuffix(history, estimate, budget, r)
  {
    if Tokens(history, estimate) <= budget then history[0..]
    else
      assert forall k :: 1 <= k <= |history| ==> history[k..] == history[1..][k - 1..];
      assert history[0..] == history;
      FittingSuffix(history[1..], estimate, budget)
  }

  // ---------- the v1 implementation ----------

  method TotalTokens(history: History, estimate: string -> nat) returns (total: nat)
    ensures total == Tokens(history, estimate)
  {
    total := 0;
    for i := 0 to |history|
      invariant total == Tokens(history[..i], estimate)
    {
      assert history[..i + 1][..i] == history[..i];
      total := total + estimate(history[i].content);
    }
    assert history[..|history|] == history;
  }

  /** The v1 form: slices, and a plain subtraction, which never goes below zero. */
  method TruncateMessages(messages: History, s: Strategy, estimate: string -> nat) returns (r: History)
    ensures Truncated(messages, s, estimate, r)
  {
    match s {
      case KeepAll =>
        return messages;
      case KeepLast(n) =>
        return messages[SaturatingSub(|messages|, n)..];
      case KeepFirst(n) =>
        return messages[..if n < |messages| then n else |messages|];
      case FirstLast(first, last) =>
        var firstEnd := if first < |messages| then first else |messages|;
        var lastStart := SaturatingSub(|messages|, last);
        if firstEnd >= lastStart {
          return messages;
        }
        return messages[..firstEnd] + messages[lastStart..];
      case SlidingWindow(max) =>
        var total := TotalTokens(messages, estimate);
        if total <= max {
          assert messages == messages[0..];
          return messages;
        }
        var tokensUsed: nat := total;
        var dropCount := 0;
        while dropCount < |messages| && tokensUsed > max
          invariant 0 <= dropCount <= |messages| && tokensUsed == Tokens(messages[dropCount..], estimate)
          invariant forall k :: 0 <= k < dropCount ==> Tokens(messages[k..], estimate) > max
        {
          DropOne(messages, dropCount, estimate);
          tokensUsed := tokensUsed - estimate(messages[dropCount].content);
          dropCount := dropCount + 1;
        }
        r := messages[dropCount..];
        SuffixFits(messages, estimate, max, dropCount);
    }
  }

  lemma {:induction false} SuffixFits(history: History, estimate: string -> nat, budget: nat, drop: nat)
    requires drop <= |history| && Tokens(history[drop..], estimate) <= budget
    requires forall k :: 0 <= k < drop ==> Tokens(history[k..], estimate) > budget
    ensures LongestFittingSuffix(history, estimate, budget, history[drop..])
  {
  }

  // ---------- the v2 implementation ----------

  /** The v2 form: an optional strategy, skipping and taking, and a saturating subtraction. */
  method ApplyTruncation(history: History, strategy: Option<Strategy>, estimate: string -> nat) returns (r: History)
    ensures Truncated(history, UnwrapOr(strategy, KeepAll), estimate, r)
  {
    if strategy.None? {
      return history;
    }
    match strategy.value {
      case KeepAll =>
        return history;
      case KeepLast(n) =>
        var start := SaturatingSub(|history|, n);
        return history[start..];
      case KeepFirst(n) =>
        var count := if n < |history| then n else |history|;
        return history[..count];
      case FirstLast(first, last) =>
        var firstN := if first < |history| then first else |history|;
        var lastStart := SaturatingSub(|history|, last);
        if firstN >= lastStart {
          return history;
        }
        var head := history[..firstN];
        head := head + history[lastStart..];
        return head;
      case SlidingWindow(max) =>
        var total := TotalTokens(history, estimate);
        if total <= max {
          assert history == history[0..];
          return history;
        }
        var tokensUsed := total;
        var dropCount := 0;
        while dropCount < |history| && tokensUsed > max
          invariant 0 <= dropCount <= |history| && tokensUsed == Tokens(history[dropCount..], estimate)
          invariant forall k :: 0 <= k < dropCount ==> Tokens(history[k..], estimate) > max
        {
          DropOne(history, dropCount, estimate);
          tokensUsed := SaturatingSub(tokensUsed, estimate(history[dropCount].content));
          dropCount := dropCount + 1;
        }
        r := history[dropCount..];
        SuffixFits(history, estimate, max, dropCount);
    }
  }
}
