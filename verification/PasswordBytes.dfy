/**
 The byte length of a password against the UTF-8 encoding it stands for.

 A JavaScript string is a sequence of UTF-16 code units that need not be well formed.
 Encoding it replaces a surrogate that has no partner by U+FFFD.
 */
module PasswordBytes {

  type Unit = u: int | 0 <= u < 0x10000
  type Byte = b: int | 0 <= b < 0x100
  type CodePoint = c: int | 0 <= c < 0x110000

  const REPLACEMENT: CodePoint := 0xFFFD
  const MAX_PASSWORD_BYTES := 72

  predicate IsHigh(u: int) { 0xD800 <= u < 0xDC00 }

  predicate IsLow(u: int) { 0xDC00 <= u < 0xE000 }

  /** The surrogate pair at the front of the string, as one character. */
  predicate StartsWithPair(s: seq<Unit>) {
    |s| >= 2 && IsHigh(s[0]) && IsLow(s[1])
  }

  /** The code point iteration yields first: a pair, or one unit whatever it is. */
  function FirstCode(s: seq<Unit>): CodePoint
    requires s != []
  {
    if StartsWithPair(s) then 0x10000 + (s[0] as int - 0xD800) * 0x400 + (s[1] as int - 0xDC00) else s[0]
  }

  /** The pair at the front is the UTF-16 form of the code point read from it, and a lone unit is read as it is. */
  lemma FirstCodeReadsUtf16(s: seq<Unit>)
    requires s != []
    ensures var code := FirstCode(s);
      if code >= 0x10000 then
        |s| >= 2 && s[0] as int == 0xD800 + (code - 0x10000) / 1024 && s[1] as int == 0xDC00 + (code - 0x10000) % 1024
      else
        code == s[0] && (|s| >= 2 && 0xD800 <= s[0] <= 0xDBFF ==> !(0xDC00 <= s[1] <= 0xDFFF))
  {}

  function FirstWidth(s: seq<Unit>): (n: nat)
    requires s != []
    ensures 1 <= n <= |s|
  {
    if StartsWithPair(s) then 2 else 1
  }

  function CodeBytes(code: CodePoint): nat {
    if code <= 0x7F then 1 else if code <= 0x7FF then 2 else if code <= 0xFFFF then 3 else 4
  }

  // ---------- The encoding ----------

  /** Section 3 of RFC 3629. */
  function EncodeCode(code: CodePoint): (bytes: seq<Byte>)
    ensures |bytes| == CodeBytes(code)
  {
    if code <= 0x7F then [code]
    else if code <= 0x7FF then [0xC0 + code / 0x40, 0x80 + code % 0x40]
    else if code <= 0xFFFF then [0xE0 + code / 0x1000, 0x80 + code / 0x40 % 0x40, 0x80 + code % 0x40]
    else [0xF0 + code / 0x40000, 0x80 + code / 0x1000 % 0x40, 0x80 + code / 0x40 % 0x40, 0x80 + code % 0x40]
  }

  predicate IsScalar(code: CodePoint) { !IsHigh(code) && !IsLow(code) }

  function Scalar(code: CodePoint): (scalar: CodePoint)
    ensures IsScalar(scalar)
  {
    if IsScalar(code) then code else REPLACEMENT
  }

  /** The characters of a string, lone surrogates replaced. */
  function Scalars(s: seq<Unit>): seq<CodePoint>
    decreases |s|
  {
    if s == [] then [] else [Scalar(FirstCode(s))] + Scalars(s[FirstWidth(s)..])
  }

  function Encode(codes: seq<CodePoint>): seq<Byte> {
    if codes == [] then [] else EncodeCode(codes[0]) + Encode(codes[1..])
  }

  function Utf8(s: seq<Unit>): seq<Byte> {
    Encode(Scalars(s))
  }

  /** The length a lead byte announces. */
  function LeadWidth(lead: Byte): nat {
    if lead < 0x80 then 1 else if lead < 0xE0 then 2 else if lead < 0xF0 then 3 else 4
  }

  /** The six bits a continuation byte carries. */
  function Tail(b: Byte): int {
    b as int - 0x80
  }

  function DecodeFirst(bytes: seq<Byte>): int
    requires bytes != [] && LeadWidth(bytes[0]) <= |bytes|
  {
    match LeadWidth(bytes[0])
    case 1 => bytes[0]
    case 2 => (bytes[0] as int - 0xC0) * 0x40 + Tail(bytes[1])
    case 3 => (bytes[0] as int - 0xE0) * 0x1000 + Tail(bytes[1]) * 0x40 + Tail(bytes[2])
    case _ =>
      (bytes[0] as int - 0xF0) * 0x40000 + Tail(bytes[1]) * 0x1000 + Tail(bytes[2]) * 0x40 + Tail(bytes[3])
  }

  function Decode(bytes: seq<Byte>): seq<int>
    decreases |bytes|
  {
    if bytes == [] || LeadWidth(bytes[0]) > |bytes| then []
    else [DecodeFirst(bytes)] + Decode(bytes[LeadWidth(bytes[0])..])
  }

  /** Six bits at a time. */
  lemma SixBits(code: nat)
    ensures code == code / 0x40 * 0x40 + code % 0x40
    ensures code / 0x40 == code / 0x1000 * 0x40 + code / 0x40 % 0x40
    ensures code / 0x1000 == code / 0x40000 * 0x40 + code / 0x1000 % 0x40
  {}

  lemma DecodeFirstUndoesEncodeCode(code: CodePoint, rest: seq<Byte>)
    ensures var bytes := EncodeCode(code) + rest;
      LeadWidth(bytes[0]) == CodeBytes(code) && DecodeFirst(bytes) == code
  {
    var bytes := EncodeCode(code) + rest;
    assert bytes[0] == EncodeCode(code)[0];
    SixBits(code);
    if code <= 0x7F {
    } else if code <= 0x7FF {
      assert bytes[1] == EncodeCode(code)[1];
    } else if code <= 0xFFFF {
      assert bytes[1] == EncodeCode(code)[1] && bytes[2] == EncodeCode(code)[2];
    } else {
      assert bytes[1] == EncodeCode(code)[1] && bytes[2] == EncodeCode(code)[2] && bytes[3] == EncodeCode(code)[3];
    }
  }

  /** The encoding loses nothing: it is the real one, not just a sequence of the right length. */
  lemma {:induction false} DecodeUndoesEncode(codes: seq<CodePoint>)
    ensures Decode(Encode(codes)) == codes
  {
    hide EncodeCode, DecodeFirst, LeadWidth;
    if codes != [] {
      DecodeFirstUndoesEncodeCode(codes[0], Encode(codes[1..]));
      assert Encode(codes)[CodeBytes(codes[0])..] == Encode(codes[1..]);
      DecodeUndoesEncode(codes[1..]);
    }
  }

  // ---------- The loop ----------

  /** The bytes the loop adds up over a whole string. */
  function ByteLength(s: seq<Unit>): nat
    decreases |s|
  {
    if s == [] then 0 else CodeBytes(FirstCode(s)) + ByteLength(s[FirstWidth(s)..])
  }

  /** `passwordByteLength`: the length in bytes of the password's UTF-8 encoding. */
  method PasswordByteLength(password: seq<Unit>) returns (bytes: nat)
    ensures bytes == |Utf8(password)|
  {
    bytes := 0;
    var rest := password;
    while rest != []
      invariant bytes + ByteLength(rest) == ByteLength(password)
      decreases |rest|
    {
      var code := FirstCode(rest);
      if code <= 0x7F {
        bytes := bytes + 1;
      } else if code <= 0x7FF {
        bytes := bytes + 2;
      } else if code <= 0xFFFF {
        bytes := bytes + 3;
      } else {
        bytes := bytes + 4;
      }
      rest := rest[FirstWidth(rest)..];
    }
    ByteLengthIsEncodedLength(password);
  }

  method IsPasswordWithinByteLimit(password: seq<Unit>, maxBytes: nat := MAX_PASSWORD_BYTES) returns (within: bool)
    ensures within <==> |Utf8(password)| <= maxBytes
  {
    var bytes := PasswordByteLength(password);
    within := bytes <= maxBytes;
  }

  lemma {:induction false} ByteLengthIsEncodedLength(s: seq<Unit>)
    ensures ByteLength(s) == |Utf8(s)|
    decreases |s|
  {
    if s != [] {
      var rest := s[FirstWidth(s)..];
      ByteLengthIsEncodedLength(rest);
      assert Scalars(s)[1..] == Scalars(rest);
      assert CodeBytes(FirstCode(s)) == CodeBytes(Scalar(FirstCode(s)));
    }
  }

  // ---------- Bounds, prefixes and concatenation ----------

  /** Between one and three bytes for every code unit. */
  lemma {:induction false} ByteLengthBounds(s: seq<Unit>)
    ensures |s| <= |Utf8(s)| <= 3 * |s|
    decreases |s|
  {
    ByteLengthIsEncodedLength(s);
    if s != [] {
      ByteLengthBounds(s[FirstWidth(s)..]);
      ByteLengthIsEncodedLength(s[FirstWidth(s)..]);
    }
  }

  /** A surrogate pair forms where the two strings meet. */
  predicate PairAtJoin(a: seq<Unit>, b: seq<Unit>) {
    a != [] && b != [] && IsHigh(a[|a| - 1]) && IsLow(b[0])
  }

  lemma {:induction false} ByteLengthConcat(a: seq<Unit>, b: seq<Unit>)
    ensures ByteLength(a + b) == ByteLength(a) + ByteLength(b) - (if PairAtJoin(a, b) then 2 else 0)
    decreases |a|
  {
    if a == [] {
      assert a + b == b;
    } else if |a| == 1 && PairAtJoin(a, b) {
      assert (a + b)[2..] == b[1..];
      assert a[1..] == [];
      assert !StartsWithPair(b) && ByteLength(b) == 3 + ByteLength(b[1..]);
    } else {
      var n := FirstWidth(a);
      assert StartsWithPair(a + b) <==> StartsWithPair(a);
      assert (a + b)[n..] == a[n..] + b;
      ByteLengthConcat(a[n..], b);
      assert PairAtJoin(a[n..], b) <==> PairAtJoin(a, b);
    }
  }

  /** Bytes add up under concatenation, less exactly two when a pair forms at the join. */
  lemma ConcatenationAddsBytes(a: seq<Unit>, b: seq<Unit>)
    ensures |Utf8(a + b)| == |Utf8(a)| + |Utf8(b)| - (if PairAtJoin(a, b) then 2 else 0)
  {
    ByteLengthConcat(a, b);
    ByteLengthIsEncodedLength(a + b);
    ByteLengthIsEncodedLength(a);
    ByteLengthIsEncodedLength(b);
  }

  /** A longer password never counts fewer bytes: what fits still fits when it is cut short. */
  lemma PrefixHasNoMoreBytes(s: seq<Unit>, n: nat)
    requires n <= |s|
    ensures |Utf8(s[..n])| <= |Utf8(s)|
  {
    ConcatenationAddsBytes(s[..n], s[n..]);
    assert s[..n] + s[n..] == s;
    ByteLengthBounds(s[n..]);
    if n < |s| && IsLow(s[n]) {
      ByteLengthIsEncodedLength(s[n..]);
      assert !StartsWithPair(s[n..]) && CodeBytes(s[n]) == 3;
    }
  }
}
