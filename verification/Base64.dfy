/** The base64 encoder of the dashboard subscriber (src/events/subscribers.rs). */
module Base64 {
  import opened Prelude

  type Bytes = seq<bv8>

  const UPPER := "ABCDEFGHIJKLMNOPQRSTUVWXYZ"
  const LOWER := "abcdefghijklmnopqrstuvwxyz"
  const DIGITS := "0123456789"
  const TABLE := UPPER + LOWER + DIGITS + "+/"

  /** An alphabet: 64 different characters, none of them the padding character. */
  ghost predicate IsAlphabet(table: string) {
    |table| == 64 && Distinct(table) && '=' !in table
  }

  /** One character of an encoding: six bits, or padding. */
  datatype Code = Bits(v: bv8) | Pad

  predicate Fits(c: Code) {
    c.Bits? ==> c.v < 64
  }

  function Show(table: string, c: Code): char
    requires |table| == 64 && Fits(c)
  {
    if c.Bits? then table[c.v as int] else '='
  }

  /** The four codes for a chunk of up to three bytes. */
  function Codes(chunk: Bytes): (r: seq<Code>)
    requires 1 <= |chunk| <= 3
    ensures |r| == 4 && forall k :: 0 <= k < 4 ==> Fits(r[k])
  {
    var b0 := chunk[0];
    var b1 := if |chunk| > 1 then chunk[1] else 0;
    var b2 := if |chunk| > 2 then chunk[2] else 0;
    [Bits(b0 >> 2), Bits(((b0 & 0x03) << 4) | (b1 >> 4)),
     if |chunk| > 1 then Bits(((b1 & 0x0F) << 2) | (b2 >> 6)) else Pad,
     if |chunk| > 2 then Bits(b2 & 0x3F) else Pad]
  }

  function Quad(table: string, chunk: Bytes): (q: string)
    requires |table| == 64 && 1 <= |chunk| <= 3
    ensures |q| == 4
  {
    var codes := Codes(chunk);
    [Show(table, codes[0]), Show(table, codes[1]), Show(table, codes[2]), Show(table, codes[3])]
  }

  /** Chunks of three; the last one may be shorter. */
  function Encode(table: string, bytes: Bytes): string
    requires |table| == 64
  {
    if bytes == [] then ""
    else if |bytes| <= 3 then Quad(table, bytes)
    else Quad(table, bytes[..3]) + Encode(table, bytes[3..])
  }

  method ChunkCodes(chunk: Bytes) returns (codes: seq<Code>)
    requires 1 <= |chunk| <= 3
    ensures codes == Codes(chunk)
  {
    var b0 := chunk[0];
    var b1 := if |chunk| > 1 then chunk[1] else 0;
    var b2 := if |chunk| > 2 then chunk[2] else 0;
    var c0, c1, c2, c3 := Bits(b0 >> 2), Bits(((b0 & 0x03) << 4) | (b1 >> 4)), Pad, Pad;
    if |chunk| > 1 {
      c2 := Bits(((b1 & 0x0F) << 2) | (b2 >> 6));
    }
    if |chunk| > 2 {
      c3 := Bits(b2 & 0x3F);
    }
    codes := [c0] + [c1] + [c2] + [c3];
  }

  lemma {:induction false} FirstChunk(table: string, bytes: Bytes, i: nat, next: nat)
    requires |table| == 64 && i < |bytes| && next == if i + 3 < |bytes| then i + 3 else |bytes|
    ensures Encode(table, bytes[i..]) == Quad(table, bytes[i..next]) + Encode(table, bytes[next..])
  {
    var rest := bytes[i..];
    if i + 3 < |bytes| {
      assert rest[..3] == bytes[i..next] && rest[3..] == bytes[next..];
    } else {
      assert bytes[i..next] == rest && bytes[next..] == [];
      assert Quad(table, rest) + "" == Quad(table, rest);
    }
  }

  /** The encoder: a loop over the chunks that pushes four characters for each. */
  method Base64Encode(bytes: Bytes) returns (out: string)
    ensures out == Encode(TABLE, bytes)
  {
    out := EncodeWith(TABLE, bytes);
  }

  method EncodeWith(table: string, bytes: Bytes) returns (out: string)
    requires |table| == 64
    ensures out == Encode(table, bytes)
  {
    out := "";
    var i := 0;
    ghost var rest := Encode(table, bytes);
    assert bytes[0..] == bytes;
    while i < |bytes|
      invariant 0 <= i <= |bytes| && rest == Encode(table, bytes[i..]) && Encode(table, bytes) == out + rest
    {
      var next := if i + 3 < |bytes| then i + 3 else |bytes|;
      var codes := ChunkCodes(bytes[i..next]);
      var quad := [Show(table, codes[0]), Show(table, codes[1]), Show(table, codes[2]), Show(table, codes[3])];
      FirstChunk(table, bytes, i, next);
      Assoc(out, quad, Encode(table, bytes[next..]));
      out := out + quad;
      rest := Encode(table, bytes[next..]);
      i := next;
    }
  }

  // ---------- decoding, as section 4 of RFC 4648 prescribes ----------

  /** The position of a character in an alphabet, searched from `n` on. */
  function SextetFrom(table: string, c: char, n: nat): (r: Option<bv8>)
    requires n <= |table| == 64
    ensures r.Some? ==> r.value < 64
    decreases 64 - n
  {
    if n == 64 then None
    else if table[n] == c then Some(n as bv8)
    else SextetFrom(table, c, n + 1)
  }

  function Read(table: string, c: char): Option<Code>
    requires |table| == 64
  {
    if c == '=' then Some(Pad)
    else
      var v := SextetFrom(table, c, 0);
      if v.Some? then Some(Bits(v.value)) else None
  }

  /** The bytes of one group of four codes; padding is allowed at the end of the last group only. */
  function Combine(codes: seq<Code>, isLast: bool): Option<Bytes>
    requires |codes| == 4
  {
    var a, b, c, d := codes[0], codes[1], codes[2], codes[3];
    if a.Pad? || b.Pad? then None
    else
      var first := (a.v << 2) | (b.v >> 4);
      if c.Pad? then (if isLast && d.Pad? then Some([first]) else None)
      else
        var second := ((b.v & 0x0F) << 4) | (c.v >> 2);
        if d.Pad? then (if isLast then Some([first, second]) else None)
        else Some([first, second, ((c.v & 0x03) << 6) | d.v])
  }

  function DecodeQuad(table: string, q: string, isLast: bool): Option<Bytes>
    requires |table| == 64 && |q| == 4
  {
    var a, b, c, d := Read(table, q[0]), Read(table, q[1]), Read(table, q[2]), Read(table, q[3]);
    if a.None? || b.None? || c.None? || d.None? then None
    else Combine([a.value, b.value, c.value, d.value], isLast)
  }

  function Decode(table: string, s: string): Option<Bytes>
    requires |table| == 64
    decreases |s|
  {
    if s == "" then Some([])
    else if |s| < 4 then None
    else
      var head := DecodeQuad(table, s[..4], |s| == 4);
      var tail := Decode(table, s[4..]);
      if head.None? || tail.None? then None else Some(head.value + tail.value)
  }

  // ---------- laws ----------

  lemma {:induction false} TableUpper(n: nat)
    requires n < 26
    ensures UPPER[n] as int == 'A' as int + n && LOWER[n] as int == 'a' as int + n
  {
  }

  lemma {:induction false} TableDigits(n: nat)
    requires n < 10
    ensures DIGITS[n] as int == '0' as int + n
  {
  }

  /** Table 1 of RFC 4648. */
  lemma {:induction false} TableAt(n: nat)
    requires n < 64
    ensures TABLE[n] as int ==
            if n < 26 then 'A' as int + n
            else if n < 52 then 'a' as int + (n - 26)
            else if n < 62 then '0' as int + (n - 52)
            else if n == 62 then '+' as int else '/' as int
  {
    if n < 26 {
      TableUpper(n);
      assert TABLE[n] == UPPER[n];
    } else if n < 52 {
      TableUpper(n - 26);
      assert TABLE[n] == LOWER[n - 26];
    } else if n < 62 {
      TableDigits(n - 52);
      assert TABLE[n] == DIGITS[n - 52];
    } else {
      assert TABLE[n] == "+/"[n - 62];
    }
  }

  lemma {:induction false} TableIsAlphabet()
    ensures IsAlphabet(TABLE)
  {
    forall i, j | 0 <= i < j < 64 ensures TABLE[i] != TABLE[j] {
      TableAt(i);
      TableAt(j);
    }
    forall i | 0 <= i < 64 ensures TABLE[i] != '=' {
      TableAt(i);
    }
  }

  lemma {:induction false} SextetFound(table: string, v: bv8, k: nat)
    requires IsAlphabet(table) && k <= v as int < 64
    ensures SextetFrom(table, table[v as int], k) == Some(v)
    decreases 64 - k
  {
    if k < v as int {
      SextetFound(table, v, k + 1);
    }
  }

  lemma {:induction false} ReadShow(table: string, c: Code)
    requires IsAlphabet(table) && Fits(c)
    ensures Read(table, Show(table, c)) == Some(c) && (Show(table, c) == '=' <==> c.Pad?)
  {
    if c.Bits? {
      SextetFound(table, c.v, 0);
    }
  }

  lemma {:induction false} QuadReads(table: string, chunk: Bytes, isLast: bool)
    requires IsAlphabet(table) && 1 <= |chunk| <= 3
    ensures DecodeQuad(table, Quad(table, chunk), isLast) == Combine(Codes(chunk), isLast)
    ensures forall k :: 0 <= k < 4 ==> (Quad(table, chunk)[k] == '=' <==> Codes(chunk)[k].Pad?)
  {
    var codes := Codes(chunk);
    forall k | 0 <= k < 4
      ensures Read(table, Show(table, codes[k])) == Some(codes[k]) && (Show(table, codes[k]) == '=' <==> codes[k].Pad?)
    {
      ReadShow(table, codes[k]);
    }
    assert codes == [codes[0], codes[1], codes[2], codes[3]];
  }

  /** The bits of up to three bytes can be put together again from the codes. */
  lemma {:induction false} BitsBack(b0: bv8, b1: bv8, b2: bv8)
    ensures ((b0 >> 2) << 2) | ((((b0 & 0x03) << 4) | (b1 >> 4)) >> 4) == b0
    ensures (((((b0 & 0x03) << 4) | (b1 >> 4)) & 0x0F) << 4) | ((((b1 & 0x0F) << 2) | (b2 >> 6)) >> 2) == b1
    ensures (((((b1 & 0x0F) << 2) | (b2 >> 6)) & 0x03) << 6) | (b2 & 0x3F) == b2
  {
  }

  lemma {:induction false} CodesCombine(chunk: Bytes, isLast: bool)
    requires 1 <= |chunk| <= 3 && (|chunk| < 3 ==> isLast)
    ensures Combine(Codes(chunk), isLast) == Some(chunk)
    ensures forall k :: 0 <= k < 4 ==> (Codes(chunk)[k].Pad? <==> k > |chunk|)
  {
    BitsBack(chunk[0], if |chunk| > 1 then chunk[1] else 0, if |chunk| > 2 then chunk[2] else 0);
    if |chunk| == 1 {
      assert chunk == [chunk[0]];
    } else if |chunk| == 2 {
      assert chunk == [chunk[0], chunk[1]];
    } else {
      assert chunk == [chunk[0], chunk[1], chunk[2]];
    }
  }

  lemma {:induction false} QuadDecodes(table: string, chunk: Bytes, isLast: bool)
    requires IsAlphabet(table) && 1 <= |chunk| <= 3 && (|chunk| < 3 ==> isLast)
    ensures DecodeQuad(table, Quad(table, chunk), isLast) == Some(chunk)
    ensures forall k :: 0 <= k < 4 ==> (Quad(table, chunk)[k] == '=' <==> k > |chunk|)
  {
    QuadReads(table, chunk, isLast);
    CodesCombine(chunk, isLast);
  }

  /** Decoding recovers the input, for any alphabet. */
  lemma {:induction false} DecodeEncode(table: string, bytes: Bytes)
    requires IsAlphabet(table)
    ensures Decode(table, Encode(table, bytes)) == Some(bytes)
    decreases |bytes|
  {
    if bytes != [] {
      if |bytes| <= 3 {
        QuadDecodes(table, bytes, true);
        var q := Quad(table, bytes);
        assert q[..4] == q && q[4..] == "" && bytes + [] == bytes;
      } else {
        var head, rest := Quad(table, bytes[..3]), Encode(table, bytes[3..]);
        QuadDecodes(table, bytes[..3], false);
        DecodeEncode(table, bytes[3..]);
        LengthOf(table, bytes[3..]);
        assert (head + rest)[..4] == head && (head + rest)[4..] == rest && bytes[..3] + bytes[3..] == bytes;
      }
    }
  }

  /** Four characters for every three bytes or part thereof. */
  lemma {:induction false} LengthOf(table: string, bytes: Bytes)
    requires |table| == 64
    ensures |Encode(table, bytes)| == 4 * ((|bytes| + 2) / 3)
    decreases |bytes|
  {
    if |bytes| > 3 {
      LengthOf(table, bytes[3..]);
    }
  }

  /**
   * The encoding with the standard alphabet is undone by decoding, so different byte strings are encoded differently.
   */
  lemma {:induction false} RoundTrip(a: Bytes, b: Bytes)
    ensures Decode(TABLE, Encode(TABLE, a)) == Some(a)
    ensures Encode(TABLE, a) == Encode(TABLE, b) ==> a == b
  {
    TableIsAlphabet();
    DecodeEncode(TABLE, a);
    DecodeEncode(TABLE, b);
  }

  /** Number of padding characters for an input of `n` bytes. */
  function Padding(n: nat): nat {
    if n % 3 == 0 then 0 else 3 - n % 3
  }

  /** Padding stands at the end and nowhere else, and its amount follows from the length of the input. */
  lemma {:induction false} PaddingAtEndOnly(table: string, bytes: Bytes, k: nat)
    requires IsAlphabet(table) && k < |Encode(table, bytes)|
    ensures Encode(table, bytes)[k] == '=' <==> k >= |Encode(table, bytes)| - Padding(|bytes|)
    decreases |bytes|
  {
    LengthOf(table, bytes);
    var chunk := if |bytes| <= 3 then bytes else bytes[..3];
    QuadDecodes(table, chunk, true);
    if |bytes| > 3 {
      LengthOf(table, bytes[3..]);
      if k >= 4 {
        PaddingAtEndOnly(table, bytes[3..], k - 4);
      }
    }
  }
}
