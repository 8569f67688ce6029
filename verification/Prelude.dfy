/** Small datatypes and sequence helpers shared by every other module. */
module Prelude {

  datatype Option<+T> = None | Some(value: T)

  datatype Result<+T, +E> = Ok(value: T) | Err(error: E)

  function UnwrapOr<T>(o: Option<T>, fallback: T): T {
    if o.Some? then o.value else fallback
  }

  /** The value a map holds for a key, if any. */
  function Lookup<K, V>(m: map<K, V>, k: K): Option<V> {
    if k in m then Some(m[k]) else None
  }

  /** The first defined option, as in Rust's `or_else`. */
  function OrElse<T>(a: Option<T>, b: Option<T>): Option<T> {
    if a.Some? then a else b
  }

  ghost predicate Distinct<T>(s: seq<T>) {
    forall i, j :: 0 <= i < j < |s| ==> s[i] != s[j]
  }

  lemma {:induction false} Assoc<T>(a: seq<T>, b: seq<T>, c: seq<T>)
    ensures a + (b + c) == a + b + c
  {
  }

  function Max(a: nat, b: nat): nat {
    if a < b then b else a
  }

  function Last<T>(s: seq<T>): T
    requires s != []
  {
    s[|s| - 1]
  }

  /** Rust's `char::is_whitespace`: the Unicode White_Space property. */
  predicate IsWhitespace(c: char) {
    || '\t' <= c <= '\r' || c == ' ' || c == '\U{85}' || c == '\U{A0}' || c == '\U{1680}'
    || '\U{2000}' <= c <= '\U{200A}' || c == '\U{2028}' || c == '\U{2029}' || c == '\U{202F}'
    || c == '\U{205F}' || c == '\U{3000}'
  }

  function TrimStart(s: string): string {
    if s != [] && IsWhitespace(s[0]) then TrimStart(s[1..]) else s
  }

  function TrimEnd(s: string): string {
    if s != [] && IsWhitespace(Last(s)) then TrimEnd(s[..|s| - 1]) else s
  }

  function Trim(s: string): string {
    TrimEnd(TrimStart(s))
  }

  lemma {:induction false} TrimStartIs(s: string) returns (i: nat)
    ensures i <= |s| && TrimStart(s) == s[i..] && (i < |s| ==> !IsWhitespace(s[i]))
    ensures forall k :: 0 <= k < i ==> IsWhitespace(s[k])
    decreases |s|
  {
    i := 0;
    if s != [] && IsWhitespace(s[0]) {
      var j := TrimStartIs(s[1..]);
      i := j + 1;
      assert forall k :: 1 <= k < i ==> s[k] == s[1..][k - 1];
    }
  }

  lemma {:induction false} TrimEndIs(s: string) returns (j: nat)
    ensures j <= |s| && TrimEnd(s) == s[..j] && (j > 0 ==> !IsWhitespace(s[j - 1]))
    ensures forall k :: j <= k < |s| ==> IsWhitespace(s[k])
    decreases |s|
  {
    j := |s|;
    if s != [] && IsWhitespace(Last(s)) {
      j := TrimEndIs(s[..|s| - 1]);
      assert s[..|s| - 1][..j] == s[..j];
    }
  }

  /** Trimming cuts out the stretch between the first and the last character that is not white space. */
  lemma {:induction false} TrimIs(s: string) returns (i: nat, j: nat)
    ensures i <= j <= |s| && Trim(s) == s[i..j]
    ensures i < j ==> !IsWhitespace(s[i]) && !IsWhitespace(s[j - 1])
    ensures forall k :: 0 <= k < i || j <= k < |s| ==> IsWhitespace(s[k])
  {
    i := TrimStartIs(s);
    var e := TrimEndIs(s[i..]);
    j := i + e;
    assert s[i..][..e] == s[i..j];
    assert e > 0 ==> s[i..][e - 1] == s[j - 1];
    forall k | j <= k < |s| ensures IsWhitespace(s[k]) {
      assert s[i..][k - i] == s[k];
    }
  }

  /** What is left of a text is empty exactly when the text is white space. */
  lemma {:induction false} TrimEmptyIff(s: string)
    ensures Trim(s) == "" <==> forall k :: 0 <= k < |s| ==> IsWhitespace(s[k])
  {
    var i, j := TrimIs(s);
    if i < j {
      assert !IsWhitespace(s[i]);
    }
  }

  // ---------- searching in texts ----------

  predicate MatchesAt(s: string, pattern: string, i: nat) {
    i + |pattern| <= |s| && s[i..i + |pattern|] == pattern
  }

  /** Leftmost occurrence of a pattern. */
  function Find(s: string, pattern: string): (r: Option<nat>)
    ensures r.Some? ==> r.value + |pattern| <= |s|
  {
    FindFrom(s, pattern, 0)
  }

  function FindFrom(s: string, pattern: string, i: nat): (r: Option<nat>)
    requires i <= |s|
    ensures r.Some? ==> r.value + |pattern| <= |s|
    decreases |s| - i
  {
    if MatchesAt(s, pattern, i) then Some(i)
    else if i == |s| then None
    else FindFrom(s, pattern, i + 1)
  }

  /** The search finds the first match from `i` on, and fails only when there is none. */
  lemma {:induction false} FindFromFirst(s: string, pattern: string, i: nat)
    requires i <= |s|
    ensures var r := FindFrom(s, pattern, i);
            && (r.Some? ==>
                  && i <= r.value && MatchesAt(s, pattern, r.value)
                  && forall j :: i <= j < r.value ==> !MatchesAt(s, pattern, j))
            && (r.None? ==> forall j :: i <= j ==> !MatchesAt(s, pattern, j))
    decreases |s| - i
  {
    if !MatchesAt(s, pattern, i) && i < |s| {
      FindFromFirst(s, pattern, i + 1);
    }
  }

  /** The one position that qualifies is the one found. */
  lemma {:induction false} FindIs(s: string, pattern: string, i: nat)
    requires MatchesAt(s, pattern, i) && forall j :: 0 <= j < i ==> !MatchesAt(s, pattern, j)
    ensures Find(s, pattern) == Some(i)
  {
    FindFromFirst(s, pattern, 0);
  }
}
