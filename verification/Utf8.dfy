/** stripInvalidUTF8: cleaning a payer's comment in place before it is stored (db/db.go), over UTF-8 as sections 3
    and 4 of RFC 3629 define it. */
module Utf8 {
  import opened Prelude

  type Bytes = seq<byte>

  // ---------------------------------------------------------------- section 3: code points and their octets

  /** Unicode scalar values: no surrogates, nothing beyond U+10FFFF. */
  predicate IsScalar(c: nat) { c < 0xD800 || 0xE000 <= c <= 0x10FFFF }

  function Tail(x: nat): byte
    requires x < 64
  {
    (0x80 + x) as byte
  }

  function Encode(c: nat): (b: Bytes)
    requires IsScalar(c)
    ensures 1 <= |b| <= 4
  {
    if c < 0x80 then [c as byte]
    else if c < 0x800 then [(0xC0 + c / 64) as byte, Tail(c % 64)]
    else if c < 0x10000 then [(0xE0 + c / 64 / 64) as byte, Tail(c / 64 % 64), Tail(c % 64)]
    else [(0xF0 + c / 64 / 64 / 64) as byte, Tail(c / 64 / 64 % 64), Tail(c / 64 % 64), Tail(c % 64)]
  }

  predicate Scalars(cs: seq<nat>) { forall i | 0 <= i < |cs| :: IsScalar(cs[i]) }

  function EncodeAll(cs: seq<nat>): Bytes
    requires Scalars(cs)
  {
    if cs == [] then [] else Encode(cs[0]) + EncodeAll(cs[1..])
  }

  predicate ValidUtf8(b: Bytes) { Decoded(b).Some? }

  // ---------------------------------------------------------------- section 4: the syntax of octet sequences

  predicate IsTail(x: byte) { 0x80 <= x <= 0xBF }

  /** The range of the second octet after this first one (first octets of two and more octets). */
  predicate SecondOk(b0: byte, b1: byte)
  {
    if b0 == 0xE0 then 0xA0 <= b1 <= 0xBF
    else if b0 == 0xED then 0x80 <= b1 <= 0x9F
    else if b0 == 0xF0 then 0x90 <= b1 <= 0xBF
    else if b0 == 0xF4 then 0x80 <= b1 <= 0x8F
    else IsTail(b1)
  }

  /** The number of octets of the valid sequence at the front; 0 if there is none. */
  function ValidLen(b: Bytes): (n: nat)
    ensures n <= |b| && n <= 4
  {
    if |b| >= 1 && b[0] <= 0x7F then 1
    else if |b| >= 2 && 0xC2 <= b[0] <= 0xDF && SecondOk(b[0], b[1]) then 2
    else if |b| >= 3 && 0xE0 <= b[0] <= 0xEF && SecondOk(b[0], b[1]) && IsTail(b[2]) then 3
    else if |b| >= 4 && 0xF0 <= b[0] <= 0xF4 && SecondOk(b[0], b[1]) && IsTail(b[2]) && IsTail(b[3]) then 4
    else 0
  }

  /** utf8.DecodeRune, as far as the cleaning looks at it: the size, which is 1 for an invalid byte, and
      whether the rune is the error rune. An encoded U+FFFD is the error rune, too, but of size 3. */
  function DecodeRune(b: Bytes): (r: (bool, nat))
    requires b != []
  {
    var n := ValidLen(b);
    if n == 0 then (true, 1) else (CodePoint(b) == 0xFFFD, n)
  }

  /** The six bits of a following octet. */
  function Bits(x: byte): (n: nat)
    requires IsTail(x)
    ensures n < 64 && Tail(n) == x
  {
    x as nat - 0x80
  }

  /** The code point of the valid sequence at the front. */
  function CodePoint(b: Bytes): (c: nat)
    requires ValidLen(b) > 0
  {
    var n := ValidLen(b);
    if n == 1 then b[0] as nat
    else if n == 2 then (b[0] as nat - 0xC0) * 64 + Bits(b[1])
    else if n == 3 then ((b[0] as nat - 0xE0) * 64 + Bits(b[1])) * 64 + Bits(b[2])
    else (((b[0] as nat - 0xF0) * 64 + Bits(b[1])) * 64 + Bits(b[2])) * 64 + Bits(b[3])
  }

  lemma EncodesTwo(b: Bytes)
    requires ValidLen(b) == 2
    ensures IsScalar(CodePoint(b)) && Encode(CodePoint(b)) == b[..2]
  {
    Digits(b[0] as nat - 0xC0, Bits(b[1]));
  }

  lemma EncodesThree(b: Bytes)
    requires ValidLen(b) == 3
    ensures IsScalar(CodePoint(b)) && Encode(CodePoint(b)) == b[..3]
  {
    var hi := (b[0] as nat - 0xE0) * 64 + Bits(b[1]);
    Digits(b[0] as nat - 0xE0, Bits(b[1]));
    Digits(hi, Bits(b[2]));
  }

  lemma EncodesFour(b: Bytes)
    requires ValidLen(b) == 4
    ensures IsScalar(CodePoint(b)) && Encode(CodePoint(b)) == b[..4]
  {
    var hi := (b[0] as nat - 0xF0) * 64 + Bits(b[1]);
    var mid := hi * 64 + Bits(b[2]);
    Digits(b[0] as nat - 0xF0, Bits(b[1]));
    Digits(hi, Bits(b[2]));
    Digits(mid, Bits(b[3]));
  }

  /** A valid sequence is the encoding of its code point. */
  lemma EncodesItsCodePoint(b: Bytes)
    requires ValidLen(b) > 0
    ensures IsScalar(CodePoint(b)) && Encode(CodePoint(b)) == b[..ValidLen(b)]
  {
    if ValidLen(b) == 2 { EncodesTwo(b); }
    if ValidLen(b) == 3 { EncodesThree(b); }
    if ValidLen(b) == 4 { EncodesFour(b); }
  }

  lemma Digits(q: nat, r: nat)
    requires r < 64
    ensures (q * 64 + r) / 64 == q && (q * 64 + r) % 64 == r
  {
  }

  /** The encoding of a code point is a valid sequence, whatever follows it, and decodes to that code point. */
  lemma DecodesWhatItEncodes(c: nat, rest: Bytes)
    requires IsScalar(c)
    ensures ValidLen(Encode(c) + rest) == |Encode(c)| && CodePoint(Encode(c) + rest) == c
  {
    var b := Encode(c) + rest;
    if c < 0x80 { assert b[0] == c as byte; }
    else if c < 0x800 { assert b[0] == (0xC0 + c / 64) as byte && b[1] == Tail(c % 64); }
    else if c < 0x10000 {
      assert b[0] == (0xE0 + c / 64 / 64) as byte && b[1] == Tail(c / 64 % 64) && b[2] == Tail(c % 64);
    } else {
      assert b[0] == (0xF0 + c / 64 / 64 / 64) as byte && b[1] == Tail(c / 64 / 64 % 64);
      assert b[2] == Tail(c / 64 % 64) && b[3] == Tail(c % 64);
    }
  }

  // ---------------------------------------------------------------- reading a byte string

  /** The code points of the valid sequences, in order; bytes that start none are skipped one by one. */
  function Points(b: Bytes): (cs: seq<nat>)
    ensures Scalars(cs)
  {
    if b == [] then []
    else
      var n := ValidLen(b);
      if n == 0 then Points(b[1..])
      else
        EncodesItsCodePoint(b);
        [CodePoint(b)] + Points(b[n..])
  }

  /** The code points of a byte string that is valid UTF-8 throughout. */
  function Decoded(b: Bytes): (cs: Option<seq<nat>>)
    ensures cs.Some? ==> Scalars(cs.value)
  {
    if b == [] then Some([])
    else
      var n := ValidLen(b);
      if n == 0 then None
      else
        EncodesItsCodePoint(b);
        match Decoded(b[n..])
        case None => None
        case Some(cs) => Some([CodePoint(b)] + cs)
  }

  lemma {:induction false} EncodingIsValid(cs: seq<nat>)
    requires Scalars(cs)
    ensures Decoded(EncodeAll(cs)) == Some(cs) && Points(EncodeAll(cs)) == cs
    decreases |cs|
  {
    if cs != [] {
      var b, rest := EncodeAll(cs), EncodeAll(cs[1..]);
      DecodesWhatItEncodes(cs[0], rest);
      assert b[|Encode(cs[0])|..] == rest;
      EncodingIsValid(cs[1..]);
      assert cs == [cs[0]] + cs[1..];
    }
  }

  lemma {:induction false} ValidIsEncoding(b: Bytes)
    requires ValidUtf8(b)
    ensures b == EncodeAll(Decoded(b).value) && Points(b) == Decoded(b).value
    decreases |b|
  {
    if b != [] {
      EncodesItsCodePoint(b);
      ValidIsEncoding(b[ValidLen(b)..]);
    }
  }

  // ---------------------------------------------------------------- the first pass: invalid bytes

  /** The result of the loop: the valid sequences, one after the other. */
  function DropInvalid(b: Bytes): Bytes
  {
    if b == [] then []
    else
      var n := ValidLen(b);
      if n == 0 then DropInvalid(b[1..]) else b[..n] + DropInvalid(b[n..])
  }

  lemma {:induction false} DropInvalidEncodes(b: Bytes)
    ensures DropInvalid(b) == EncodeAll(Points(b))
    decreases |b|
  {
    if b != [] {
      var n := ValidLen(b);
      if n == 0 {
        DropInvalidEncodes(b[1..]);
      } else {
        EncodesItsCodePoint(b);
        DropInvalidEncodes(b[n..]);
        assert ([CodePoint(b)] + Points(b[n..]))[1..] == Points(b[n..]);
      }
    }
  }

  function SizeAt(rest: Bytes): nat { if ValidLen(rest) == 0 then 1 else ValidLen(rest) }

  /** The test in the loop tells valid sequences from invalid bytes. */
  lemma TestIsValidity(rest: Bytes)
    requires rest != []
    ensures var (isErrorRune, size) := DecodeRune(rest);
      (!isErrorRune || size > 1 <==> ValidLen(rest) > 0) && size == SizeAt(rest) <= |rest|
  {
  }

  /** One turn of the loop, on the part still to be read. */
  lemma DropStep(kept: Bytes, rest: Bytes, n: nat, after: Bytes)
    requires rest != [] && n == ValidLen(rest) && after == rest[SizeAt(rest)..]
    ensures kept + DropInvalid(rest) == (if n > 0 then kept + rest[..n] else kept) + DropInvalid(after)
  {
    if n > 0 {
      assert DropInvalid(rest) == rest[..n] + DropInvalid(after);
      assert kept + (rest[..n] + DropInvalid(after)) == kept + rest[..n] + DropInvalid(after);
    }
  }

  /** The loop, over one buffer that is both read and written: the kept bytes go to its front. What is still
      to be read is never overwritten. Returns how many bytes were kept. */
  method CompactInPlace(a: array<byte>) returns (kept: nat)
    modifies a
    ensures kept <= a.Length && a[..kept] == DropInvalid(old(a[..]))
  {
    ghost var input := a[..];
    var read := 0;
    kept := 0;
    while read < a.Length
      invariant kept <= read <= a.Length
      invariant a[read..] == input[read..]
      invariant DropInvalid(input) == a[..kept] + DropInvalid(a[read..])
    {
      ghost var rest, before := a[read..], a[..kept];
      var (isErrorRune, size) := DecodeRune(a[read..]);
      TestIsValidity(rest);
      DropStep(before, rest, ValidLen(rest), rest[size..]);
      Slices(a, read, size);
      if !isErrorRune || size > 1 { MoveDown(a, kept, read, size); kept := kept + size; }
      read := read + size;
      assert a[read..] == rest[size..];
    }
    assert a[..kept] + [] == a[..kept];
  }

  lemma Slices(a: array<byte>, read: nat, size: nat)
    requires read + size <= a.Length
    ensures a[read..][size..] == a[read + size..] && a[read..][..size] == a[read..read + size]
  {
  }

  /** append(out, b[:size]...) when `out` shares the buffer: a forward copy. */
  method MoveDown(a: array<byte>, to: nat, from: nat, size: nat)
    requires to <= from && from + size <= a.Length
    modifies a
    ensures a[..to + size] == old(a[..to] + a[from..from + size])
    ensures a[from + size..] == old(a[from + size..])
  {
    for i := 0 to size
      invariant a[..to + i] == old(a[..to] + a[from..from + i])
      invariant forall j | from + i <= j < a.Length :: a[j] == old(a[j])
    {
      a[to + i] := a[from + i];
      assert a[..to + i + 1] == a[..to + i] + [a[to + i]];
    }
  }

  // ---------------------------------------------------------------- the second pass: NUL

  function DropNul(b: Bytes): Bytes
  {
    if b == [] then [] else (if b[0] == 0 then [] else [b[0]]) + DropNul(b[1..])
  }

  function NonNul(cs: seq<nat>): seq<nat>
  {
    if cs == [] then [] else (if cs[0] == 0 then [] else [cs[0]]) + NonNul(cs[1..])
  }

  lemma {:induction false} NonNulScalars(cs: seq<nat>)
    requires Scalars(cs)
    ensures Scalars(NonNul(cs)) && 0 !in NonNul(cs) && (0 !in cs ==> NonNul(cs) == cs)
  {
    if cs != [] { NonNulScalars(cs[1..]); }
  }

  lemma {:induction false} DropNulOfTwo(a: Bytes, b: Bytes)
    ensures DropNul(a + b) == DropNul(a) + DropNul(b)
  {
    if a == [] {
      assert a + b == b;
    } else {
      assert (a + b)[1..] == a[1..] + b;
      DropNulOfTwo(a[1..], b);
    }
  }

  lemma {:induction false} KeepsNonzero(b: Bytes)
    requires 0 !in b
    ensures DropNul(b) == b
  {
    if b != [] { KeepsNonzero(b[1..]); }
  }

  lemma NoZeroInside(c: nat)
    requires IsScalar(c) && c != 0
    ensures 0 !in Encode(c)
  {
  }

  /** Only U+0000 has a zero byte in its encoding. */
  lemma {:induction false} DropNulEncodes(cs: seq<nat>)
    requires Scalars(cs)
    ensures Scalars(NonNul(cs)) && DropNul(EncodeAll(cs)) == EncodeAll(NonNul(cs))
    decreases |cs|
  {
    NonNulScalars(cs);
    if cs != [] {
      DropNulOfTwo(Encode(cs[0]), EncodeAll(cs[1..]));
      DropNulEncodes(cs[1..]);
      if cs[0] == 0 {
        assert DropNul(Encode(0)) == [];
        assert NonNul(cs) == NonNul(cs[1..]);
      } else {
        NoZeroInside(cs[0]);
        KeepsNonzero(Encode(cs[0]));
        assert NonNul(cs)[1..] == NonNul(cs[1..]);
      }
    }
  }

  lemma {:induction false} DropNulLeavesNone(b: Bytes)
    ensures 0 !in DropNul(b)
  {
    if b != [] { DropNulLeavesNone(b[1..]); }
  }

  // ---------------------------------------------------------------- the whole function

  function Strip(b: Bytes): Bytes { DropNul(DropInvalid(b)) }

  method StripInvalidUtf8(s: Bytes) returns (r: Bytes)
    ensures r == Strip(s)
  {
    var a := new byte[|s|](i requires 0 <= i < |s| => s[i]);
    assert a[..] == s;
    var kept := CompactInPlace(a);
    var text := a[..kept];
    r := [];
    for i := 0 to |text|
      invariant r + DropNul(text[i..]) == DropNul(text)
    {
      assert text[i..][1..] == text[i + 1..];
      if text[i] != 0 { r := r + [text[i]]; }
    }
    assert r + [] == r;
  }

  /** The result is valid UTF-8 without NUL and holds exactly the valid code points other than NUL, in order. */
  lemma StripKeepsThePoints(b: Bytes)
    ensures Decoded(Strip(b)) == Some(NonNul(Points(b)))
    ensures 0 !in Strip(b)
  {
    DropInvalidEncodes(b);
    DropNulEncodes(Points(b));
    NonNulScalars(Points(b));
    EncodingIsValid(NonNul(Points(b)));
    DropNulLeavesNone(DropInvalid(b));
  }

  /** Clean input, and only clean input, is left as it is. */
  lemma StripIsIdentityIffClean(b: Bytes)
    ensures Strip(b) == b <==> ValidUtf8(b) && 0 !in b
  {
    StripKeepsThePoints(b);
    if ValidUtf8(b) && 0 !in b {
      ValidIsEncoding(b);
      DropInvalidEncodes(b);
      KeepsNonzero(b);
    }
  }

  lemma StripIsIdempotent(b: Bytes)
    ensures Strip(Strip(b)) == Strip(b)
  {
    StripKeepsThePoints(b);
    StripIsIdentityIffClean(Strip(b));
  }

  /** An encoded U+FFFD is kept, although DecodeRune reports it as the error rune. */
  lemma ReplacementCharacterIsKept(b: Bytes)
    requires b == Encode(0xFFFD)
    ensures DecodeRune(b) == (true, 3) && Strip(b) == b
  {
    DecodesWhatItEncodes(0xFFFD, []);
    assert b + [] == b;
    NoZeroInside(0xFFFD);
    EncodingIsValid([0xFFFD]);
    assert EncodeAll([0xFFFD]) == b + EncodeAll([0xFFFD][1..]) == b;
    StripIsIdentityIffClean(b);
  }
}
