/** Base 64 as the browser provides it: `btoa` encodes with the alphabet and
    padding of RFC 4648 section 4, and `atob` is the "forgiving-base64 decode"
    of the WHATWG Infra standard (section 4.6): it drops ASCII white space,
    accepts the input with or without its final padding, and fails on any
    other character. */
module Base64 {
  import opened Wrappers

  type byte = x: int | 0 <= x < 256

  /** The 64 characters of RFC 4648 section 4, table 1. */
  predicate IsAlphabetChar(c: char) {
    ('A' <= c <= 'Z') || ('a' <= c <= 'z') || ('0' <= c <= '9') || c == '+' || c == '/'
  }

  /** The character that encodes the six-bit value `v`. */
  function CharOf(v: int): (c: char)
    requires 0 <= v < 64
    ensures IsAlphabetChar(c)
  {
    if v < 26 then ('A' as int + v) as char
    else if v < 52 then ('a' as int + (v - 26)) as char
    else if v < 62 then ('0' as int + (v - 52)) as char
    else if v == 62 then '+'
    else '/'
  }

  /** The six-bit value an alphabet character stands for. */
  function ValueOf(c: char): (v: int)
    requires IsAlphabetChar(c)
    ensures 0 <= v < 64
  {
    if 'A' <= c <= 'Z' then c as int - 'A' as int
    else if 'a' <= c <= 'z' then c as int - 'a' as int + 26
    else if '0' <= c <= '9' then c as int - '0' as int + 52
    else if c == '+' then 62
    else 63
  }

  /** Every six-bit value has exactly one character, and back. */
  lemma ValueOfCharOf(v: int)
    requires 0 <= v < 64
    ensures ValueOf(CharOf(v)) == v
  {
  }

  lemma CharOfValueOf(c: char)
    requires IsAlphabetChar(c)
    ensures CharOf(ValueOf(c)) == c
  {
  }

  predicate IsAsciiWhitespace(c: char) {
    c == '\t' || c == '\n' || c == '\U{C}' || c == '\r' || c == ' '
  }

  /** `s` without its ASCII white space (step 1 of forgiving-base64 decode). */
  function StripWhitespace(s: string): (r: string)
    ensures forall k :: 0 <= k < |r| ==> !IsAsciiWhitespace(r[k])
    ensures (forall k :: 0 <= k < |s| ==> !IsAsciiWhitespace(s[k])) ==> r == s
    decreases |s|
  {
    if s == [] then []
    else (if IsAsciiWhitespace(s[0]) then [] else [s[0]]) + StripWhitespace(s[1..])
  }

  /** Step 2: when the length is a multiple of four, one or two final `=`
      are removed. */
  function StripPadding(s: string): string {
    if |s| % 4 == 0 && |s| >= 2 && s[|s| - 2..] == "==" then s[..|s| - 2]
    else if |s| % 4 == 0 && |s| >= 1 && s[|s| - 1] == '=' then s[..|s| - 1]
    else s
  }

  /** Six-bit values, each below 64. */
  predicate AllSixBit(v: seq<int>) {
    forall k :: 0 <= k < |v| ==> 0 <= v[k] < 64
  }

  /** The bytes carried by a run of six-bit values whose length is not 1
      modulo 4; the bits left over at the end are dropped. */
  function SixesToBytes(v: seq<int>): seq<byte>
    requires AllSixBit(v) && |v| % 4 != 1
    decreases |v|
  {
    if |v| == 0 then []
    else if |v| == 2 then [v[0] * 4 + v[1] / 16]
    else if |v| == 3 then [v[0] * 4 + v[1] / 16, (v[1] % 16) * 16 + v[2] / 4]
    else
      [v[0] * 4 + v[1] / 16, (v[1] % 16) * 16 + v[2] / 4, (v[2] % 4) * 64 + v[3]]
      + SixesToBytes(v[4..])
  }

  /** The six-bit values of the characters of `s`. */
  function Values(s: string): (v: seq<int>)
    requires forall k :: 0 <= k < |s| ==> IsAlphabetChar(s[k])
    ensures |v| == |s| && AllSixBit(v)
  {
    seq(|s|, k requires 0 <= k < |s| => ValueOf(s[k]))
  }

  /** The bytes encoded by a run of alphabet characters. */
  function DecodeCore(s: string): seq<byte>
    requires |s| % 4 != 1
    requires forall k :: 0 <= k < |s| ==> IsAlphabetChar(s[k])
  {
    SixesToBytes(Values(s))
  }

  /** The string whose character codes are the bytes `b`
      (`String.fromCharCode(...b)`). */
  function Latin1(b: seq<byte>): (t: string)
    ensures |t| == |b|
    ensures forall k :: 0 <= k < |b| ==> t[k] as int == b[k]
  {
    seq(|b|, k requires 0 <= k < |b| => b[k] as char)
  }

  /** `atob(s)`: the decoded text, one character per byte, or `None` where the
      browser throws an `InvalidCharacterError`. */
  function Atob(s: string): (r: Option<string>)
    ensures r.Some? ==> forall k :: 0 <= k < |r.value| ==> r.value[k] as int < 256
  {
    var t := StripPadding(StripWhitespace(s));
    if |t| % 4 == 1 then None
    else if exists k :: 0 <= k < |t| && !IsAlphabetChar(t[k]) then None
    else Some(Latin1(DecodeCore(t)))
  }

  /** The four six-bit values that carry three bytes. */
  function SixesOfThree(x: byte, y: byte, z: byte): (v: seq<int>)
    ensures |v| == 4 && AllSixBit(v)
  {
    [x / 4, (x % 4) * 16 + y / 16, (y % 16) * 4 + z / 64, z % 64]
  }

  /** The six-bit values that carry the bytes `b`: four per three bytes,
      and two or three for a final one or two bytes, padded with zero bits. */
  function BytesToSixes(b: seq<byte>): (v: seq<int>)
    ensures AllSixBit(v)
    ensures |v| % 4 == (if |b| % 3 == 0 then 0 else |b| % 3 + 1)
    ensures |b| > 0 ==> |v| > 0
    decreases |b|
  {
    if |b| == 0 then []
    else if |b| == 1 then [b[0] / 4, (b[0] % 4) * 16]
    else if |b| == 2 then [b[0] / 4, (b[0] % 4) * 16 + b[1] / 16, (b[1] % 16) * 4]
    else
      var g := SixesOfThree(b[0], b[1], b[2]);
      var w := BytesToSixes(b[3..]);
      AllSixBitConcat(g, w);
      g + w
  }

  lemma AllSixBitConcat(g: seq<int>, w: seq<int>)
    requires AllSixBit(g) && AllSixBit(w)
    ensures AllSixBit(g + w)
  {
    forall k | 0 <= k < |g + w| ensures 0 <= (g + w)[k] < 64 {
      if k >= |g| {
        assert (g + w)[k] == w[k - |g|];
      }
    }
  }

  /** The characters for the six-bit values `v`. */
  function Chars(v: seq<int>): (s: string)
    requires AllSixBit(v)
    ensures |s| == |v|
    ensures forall k :: 0 <= k < |s| ==> IsAlphabetChar(s[k])
  {
    seq(|v|, k requires 0 <= k < |v| => CharOf(v[k]))
  }

  /** The characters for the bytes `b`, without padding. */
  function EncodeCore(b: seq<byte>): (s: string)
    ensures forall k :: 0 <= k < |s| ==> IsAlphabetChar(s[k])
    ensures |s| % 4 == (if |b| % 3 == 0 then 0 else |b| % 3 + 1)
    ensures |b| > 0 ==> |s| > 0
  {
    Chars(BytesToSixes(b))
  }

  /** Reading the characters back gives the six-bit values. */
  lemma ValuesOfChars(v: seq<int>)
    requires AllSixBit(v)
    ensures Values(Chars(v)) == v
  {
    forall k | 0 <= k < |v| ensures Values(Chars(v))[k] == v[k] {
      ValueOfCharOf(v[k]);
    }
  }

  /** Regrouping six-bit values into bytes undoes the split. */
  lemma {:induction false} SixesRoundTrip(b: seq<byte>)
    ensures SixesToBytes(BytesToSixes(b)) == b
    decreases |b|
  {
    if |b| == 1 {
      RegroupOne(b[0]);
    } else if |b| == 2 {
      RegroupTwo(b[0], b[1]);
    } else if |b| >= 3 {
      var g := SixesOfThree(b[0], b[1], b[2]);
      var w := BytesToSixes(b[3..]);
      RegroupThree(b[0], b[1], b[2]);
      SixesOfGroup(g, w);
      SixesRoundTrip(b[3..]);
      assert b == [b[0], b[1], b[2]] + b[3..];
    }
  }

  /** Four six-bit values in front give their three bytes in front. */
  lemma SixesOfGroup(g: seq<int>, w: seq<int>)
    requires |g| == 4 && AllSixBit(g) && AllSixBit(w) && |w| % 4 != 1
    ensures AllSixBit(g + w) && |g + w| % 4 != 1
    ensures SixesToBytes(g + w) == SixesToBytes(g) + SixesToBytes(w)
  {
    assert (g + w)[4..] == w;
    assert g[4..] == [];
  }

  /** The arithmetic of one byte: the high six bits, then the low two. */
  lemma RegroupOne(x: byte)
    ensures SixesToBytes([x / 4, (x % 4) * 16]) == [x]
  {
    assert ((x % 4) * 16) / 16 == x % 4;
  }

  /** The arithmetic of two bytes. */
  lemma RegroupTwo(x: byte, y: byte)
    ensures SixesToBytes([x / 4, (x % 4) * 16 + y / 16, (y % 16) * 4]) == [x, y]
  {
    var v1 := (x % 4) * 16 + y / 16;
    assert v1 / 16 == x % 4 && v1 % 16 == y / 16;
    assert ((y % 16) * 4) / 4 == y % 16;
  }

  /** The arithmetic of three bytes. */
  lemma RegroupThree(x: byte, y: byte, z: byte)
    ensures SixesToBytes(SixesOfThree(x, y, z)) == [x, y, z]
  {
    var v1 := (x % 4) * 16 + y / 16;
    var v2 := (y % 16) * 4 + z / 64;
    assert v1 / 16 == x % 4 && v1 % 16 == y / 16;
    assert v2 / 4 == y % 16 && v2 % 4 == z / 64;
    assert SixesOfThree(x, y, z)[4..] == [];
  }

  /** `btoa` of the string whose character codes are `b`: the characters,
      then `=` up to a multiple of four. */
  function Btoa(b: seq<byte>): string {
    EncodeCore(b) + Padding(|b|)
  }

  /** Decoding undoes encoding. */
  lemma DecodeEncodeCore(b: seq<byte>)
    ensures DecodeCore(EncodeCore(b)) == b
  {
    ValuesOfChars(BytesToSixes(b));
    SixesRoundTrip(b);
  }

  /** The padding `btoa` appends after the characters of `b`. */
  function Padding(n: int): string {
    if n % 3 == 1 then "==" else if n % 3 == 2 then "=" else ""
  }

  /** `btoa`'s output has no white space, and removing its padding gives
      back the characters. */
  lemma BtoaShape(b: seq<byte>)
    ensures StripWhitespace(Btoa(b)) == Btoa(b)
    ensures StripPadding(Btoa(b)) == EncodeCore(b)
  {
    var core := EncodeCore(b);
    var pad := Padding(|b|);
    assert pad in {"", "=", "=="} && (|core| + |pad|) % 4 == 0 && (pad != "" ==> |core| >= 2) by {
      if |b| % 3 == 1 {
        assert |core| % 4 == 2 && pad == "==";
      } else if |b| % 3 == 2 {
        assert |core| % 4 == 3 && pad == "=";
      } else {
        assert |core| % 4 == 0 && pad == "";
      }
    }
    PaddedHasNoWhitespace(core, pad);
    StripPaddingOfPadded(core, pad);
  }

  /** Alphabet characters followed by `=` signs hold no white space. */
  lemma PaddedHasNoWhitespace(core: string, pad: string)
    requires forall k :: 0 <= k < |core| ==> IsAlphabetChar(core[k])
    requires pad in {"", "=", "=="}
    ensures StripWhitespace(core + pad) == core + pad
  {
    var s := core + pad;
    forall k | 0 <= k < |s| ensures !IsAsciiWhitespace(s[k]) {
      if k < |core| {
        assert s[k] == core[k];
      } else {
        assert s[k] == pad[k - |core|];
      }
    }
  }

  /** The padding of a full group of four is what `StripPadding` removes. */
  lemma StripPaddingOfPadded(core: string, pad: string)
    requires forall k :: 0 <= k < |core| ==> IsAlphabetChar(core[k])
    requires pad in {"", "=", "=="}
    requires (|core| + |pad|) % 4 == 0
    requires pad != "" ==> |core| >= 2
    ensures StripPadding(core + pad) == core
  {
    var s := core + pad;
    if pad == "==" {
      assert s[|s| - 2..] == "==";
      assert s[..|s| - 2] == core;
    } else if pad == "=" {
      assert s[..|s| - 1] == core;
      assert s[|s| - 2] == core[|core| - 1];
    } else {
      assert s == core;
      if |s| >= 1 {
        assert s[|s| - 1] == core[|core| - 1];
      }
    }
  }

  /** `atob(btoa(x)) == x`: what `btoa` stores comes back unchanged. */
  lemma AtobBtoa(b: seq<byte>)
    ensures Atob(Btoa(b)) == Some(Latin1(b))
  {
    BtoaShape(b);
    DecodeEncodeCore(b);
  }
}
