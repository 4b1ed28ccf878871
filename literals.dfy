/**
  The literal encoder (obfuscator.py:101-130): a string constant is replaced
  by an expression that rebuilds it at run time from its byte values, so the
  text no longer appears in the program.

  To say what the rewritten expression means, the module carries a small
  evaluator for exactly the expression forms involved, and UTF-8 in both
  directions.
 */
module Literals {
  import opened Syntax

  // ---------------------------------------------------------------------------
  // UTF-8 (RFC 3629)
  // ---------------------------------------------------------------------------

  /** A continuation byte: 10xxxxxx. */
  predicate IsContinuation(b: byte) {
    0x80 <= b < 0xC0
  }

  predicate IsScalar(cp: int) {
    (0 <= cp < 0xD800) || (0xE000 <= cp < 0x11_0000)
  }

  /** The one-to-four byte UTF-8 form of one code point. */
  function EncodeChar(c: char): (r: seq<byte>)
    ensures 1 <= |r| <= 4
  {
    var cp := c as int;
    if cp < 0x80 then [cp]
    else if cp < 0x800 then [0xC0 + cp / 64, 0x80 + cp % 64]
    else if cp < 0x1_0000 then [0xE0 + cp / 4096, 0x80 + (cp / 64) % 64, 0x80 + cp % 64]
    else [0xF0 + cp / 262144, 0x80 + (cp / 4096) % 64, 0x80 + (cp / 64) % 64, 0x80 + cp % 64]
  }

  /** `unicode.encode('utf-8')`. */
  function Utf8Encode(s: string): seq<byte> {
    if s == [] then [] else EncodeChar(s[0]) + Utf8Encode(s[1..])
  }

  /**
    The first code point of a byte string and the number of bytes it takes,
    or None when the bytes do not start with a well-formed sequence in the
    strict sense of RFC 3629 (overlong forms, encoded surrogates and code
    points past U+10FFFF are refused). Python 2.7's decoder accepts encoded
    surrogates; only encoder output, which holds none, is decoded here.
   */
  function DecodeFirst(b: seq<byte>): (r: Option<(char, nat)>)
    ensures r.Some? ==> 1 <= r.value.1 <= |b| && r.value.1 <= 4
  {
    if |b| == 0 then None
    else if b[0] < 0x80 then Some((b[0] as char, 1))
    else if b[0] < 0xC2 then None
    else if b[0] < 0xE0 then
      if |b| < 2 || !IsContinuation(b[1]) then None
      else Some((((b[0] as int - 0xC0) * 64 + (b[1] as int - 0x80)) as char, 2))
    else if b[0] < 0xF0 then
      if |b| < 3 || !IsContinuation(b[1]) || !IsContinuation(b[2]) then None
      else
        var cp := (b[0] as int - 0xE0) * 4096 + (b[1] as int - 0x80) * 64 + (b[2] as int - 0x80);
        if cp < 0x800 || !IsScalar(cp) then None else Some((cp as char, 3))
    else if b[0] < 0xF5 then
      if |b| < 4 || !IsContinuation(b[1]) || !IsContinuation(b[2]) || !IsContinuation(b[3]) then None
      else
        var cp := (b[0] as int - 0xF0) * 262144 + (b[1] as int - 0x80) * 4096 + (b[2] as int - 0x80) * 64 + (b[3] as int - 0x80);
        if cp < 0x1_0000 || !IsScalar(cp) then None else Some((cp as char, 4))
    else None
  }

  /** `str.decode('utf-8')` as a strict RFC 3629 decoder: None on ill-formed input. Unlike Python 2.7, it also refuses encoded surrogates. */
  function Utf8Decode(b: seq<byte>): Option<string>
    decreases |b|
  {
    if b == [] then Some("")
    else match DecodeFirst(b)
      case None => None
      case Some((c, k)) =>
        match Utf8Decode(b[k..])
        case None => None
        case Some(rest) => Some([c] + rest)
  }

  /** Division and remainder by 64 split off one six-bit group. */
  lemma DivMod64(q: int, r: int)
    requires 0 <= r < 64
    ensures (64 * q + r) / 64 == q && (64 * q + r) % 64 == r
  {
  }

  lemma SplitTwo(cp: int)
    requires 0x80 <= cp < 0x800
    ensures 0xC2 <= 0xC0 + cp / 64 < 0xE0
    ensures (cp / 64) * 64 + cp % 64 == cp
  {
  }

  lemma SplitThree(cp: int)
    requires 0x800 <= cp < 0x1_0000
    ensures 0xE0 <= 0xE0 + cp / 4096 < 0xF0
    ensures (cp / 4096) * 4096 + ((cp / 64) % 64) * 64 + cp % 64 == cp
  {
  }

  lemma SplitFour(cp: int)
    requires 0x1_0000 <= cp < 0x11_0000
    ensures 0xF0 <= 0xF0 + cp / 262144 < 0xF5
    ensures (cp / 262144) * 262144 + ((cp / 4096) % 64) * 4096 + ((cp / 64) % 64) * 64 + cp % 64 == cp
  {
  }

  /** Decoding undoes the encoding of one code point, whatever follows it. */
  lemma DecodeFirstEncodeChar(c: char, rest: seq<byte>)
    ensures DecodeFirst(EncodeChar(c) + rest) == Some((c, |EncodeChar(c)|))
  {
    var cp := c as int;
    var b := EncodeChar(c) + rest;
    if cp < 0x80 {
    } else if cp < 0x800 {
      SplitTwo(cp);
      assert b[0] as int - 0xC0 == cp / 64 && b[1] as int - 0x80 == cp % 64;
    } else if cp < 0x1_0000 {
      SplitThree(cp);
      assert b[0] as int - 0xE0 == cp / 4096;
      assert b[1] as int - 0x80 == (cp / 64) % 64 && b[2] as int - 0x80 == cp % 64;
    } else {
      SplitFour(cp);
      assert b[0] as int - 0xF0 == cp / 262144;
      assert b[1] as int - 0x80 == (cp / 4096) % 64;
      assert b[2] as int - 0x80 == (cp / 64) % 64 && b[3] as int - 0x80 == cp % 64;
    }
  }

  lemma JoinTwo(x0: int, x1: int)
    requires 0 <= x1 < 64
    ensures var cp := x0 * 64 + x1; cp / 64 == x0 && cp % 64 == x1
  {
    DivMod64(x0, x1);
  }

  lemma JoinThree(x0: int, x1: int, x2: int)
    requires 0 <= x1 < 64 && 0 <= x2 < 64
    ensures var cp := x0 * 4096 + x1 * 64 + x2;
      cp / 4096 == x0 && (cp / 64) % 64 == x1 && cp % 64 == x2
  {
    DivMod64(x0 * 64 + x1, x2);
    DivMod64(x0, x1);
  }

  lemma JoinFour(x0: int, x1: int, x2: int, x3: int)
    requires 0 <= x1 < 64 && 0 <= x2 < 64 && 0 <= x3 < 64
    ensures var cp := x0 * 262144 + x1 * 4096 + x2 * 64 + x3;
      cp / 262144 == x0 && (cp / 4096) % 64 == x1 && (cp / 64) % 64 == x2 && cp % 64 == x3
  {
    var cp := x0 * 262144 + x1 * 4096 + x2 * 64 + x3;
    DivMod64(x0 * 4096 + x1 * 64 + x2, x3);
    assert cp / 64 == x0 * 4096 + x1 * 64 + x2;
    JoinThree(x0, x1, x2);
    assert cp / 4096 == (cp / 64) / 64;
  }

  /** Whatever the decoder accepts is exactly the encoding of the code point it returns. */
  lemma DecodeFirstCanonical(b: seq<byte>)
    requires DecodeFirst(b).Some?
    ensures b[..DecodeFirst(b).value.1] == EncodeChar(DecodeFirst(b).value.0)
  {
    var c := DecodeFirst(b).value.0;
    if b[0] < 0x80 {
    } else if b[0] < 0xE0 {
      JoinTwo(b[0] as int - 0xC0, b[1] as int - 0x80);
      assert EncodeChar(c) == [b[0], b[1]];
    } else if b[0] < 0xF0 {
      JoinThree(b[0] as int - 0xE0, b[1] as int - 0x80, b[2] as int - 0x80);
      assert EncodeChar(c) == [b[0], b[1], b[2]];
    } else {
      JoinFour(b[0] as int - 0xF0, b[1] as int - 0x80, b[2] as int - 0x80, b[3] as int - 0x80);
      assert EncodeChar(c) == [b[0], b[1], b[2], b[3]];
    }
  }

  /** Every unicode string survives the round trip through its UTF-8 bytes. */
  lemma {:induction false} Utf8RoundTrip(s: string)
    ensures Utf8Decode(Utf8Encode(s)) == Some(s)
  {
    if s != [] {
      var e := EncodeChar(s[0]);
      var tail := Utf8Encode(s[1..]);
      DecodeFirstEncodeChar(s[0], tail);
      assert (e + tail)[|e|..] == tail;
      Utf8RoundTrip(s[1..]);
      assert [s[0]] + s[1..] == s;
    }
  }

  /** Conversely, the decoder accepts exactly the canonical encodings. */
  lemma {:induction false} Utf8DecodeCanonical(b: seq<byte>, s: string)
    requires Utf8Decode(b) == Some(s)
    ensures Utf8Encode(s) == b
    decreases |b|
  {
    if b != [] {
      var c := DecodeFirst(b).value.0;
      var k := DecodeFirst(b).value.1;
      var rest := Utf8Decode(b[k..]).value;
      assert s == [c] + rest;
      DecodeFirstCanonical(b);
      Utf8DecodeCanonical(b[k..], rest);
      assert s[0] == c && s[1..] == rest;
      assert b == b[..k] + b[k..];
    }
  }

  // ---------------------------------------------------------------------------
  // The encoder
  // ---------------------------------------------------------------------------

  /** The bytes of the literal `'utf-8'`, the codec argument the unicode encoder passes. */
  const Utf8Name: seq<byte> := [117, 116, 102, 45, 56]

  /** The member the unicode encoder calls on the rebuilt byte string. */
  const DecodeMember: string := "decode"

  function NumList(bytes: seq<byte>): seq<Node> {
    seq(|bytes|, i requires 0 <= i < |bytes| => Num(bytes[i]))
  }

  /** `_obfuscateStringLiteral` (obfuscator.py:101-117): `str(bytearray([b0, b1, ...]))`. */
  function StringLiteral(bytes: seq<byte>): (r: Node)
    ensures r.Call? && r.func == Name("str") && |r.args| == 1
    ensures r.args[0].Call? && r.args[0].func == Name("bytearray") && |r.args[0].args| == 1
    ensures r.args[0].args[0].List?
    ensures |r.args[0].args[0].elts| == |bytes|
    ensures forall i :: 0 <= i < |bytes| ==> r.args[0].args[0].elts[i] == Num(bytes[i])
  {
    Call(Name("str"), [Call(Name("bytearray"), [List(NumList(bytes))])])
  }

  /**
    `_obfuscateUnicodeLiteral` (obfuscator.py:119-130): the byte-string form of
    the UTF-8 bytes, with `.decode('utf-8')` called on it. `slot` is the arena
    cell holding the member name `decode`.
   */
  function UnicodeLiteral(text: string, slot: nat): (r: Node)
    ensures r.Call? && r.func.Attribute? && r.func.slot == slot
    ensures r.func.value == StringLiteral(Utf8Encode(text))
    ensures r.args == [Str(Bytes(Utf8Name))]
  {
    Call(Attribute(StringLiteral(Utf8Encode(text)), slot), [Str(Bytes(Utf8Name))])
  }

  /** `visit_Str` (obfuscator.py:144-151): which node replaces a string constant. */
  function EncodedLiteral(v: StrValue, slot: nat): Node {
    match v
    case Bytes(b) => StringLiteral(b)
    case Text(t) => UnicodeLiteral(t, slot)
    case Opaque => Str(Opaque)
  }

  // ---------------------------------------------------------------------------
  // What such an expression evaluates to
  // ---------------------------------------------------------------------------

  datatype PyValue = PyStr(bytes: seq<byte>) | PyUnicode(text: string)

  /** The byte values of a list of small integer constants, if that is what it is. */
  function ByteValues(ns: seq<Node>): (r: Option<seq<byte>>)
    ensures r.Some? ==> |r.value| == |ns|
  {
    if ns == [] then Some([])
    else if ns[0].Num? && 0 <= ns[0].n < 256 then
      match ByteValues(ns[1..])
      case None => None
      case Some(rest) => Some([ns[0].n as byte] + rest)
    else None
  }

  /**
    The value of a string-producing expression, for the forms the encoder
    emits and for string constants; None for anything else (including a
    `bytearray` argument out of range, where Python raises ValueError, and
    bytes that are not UTF-8, where it raises UnicodeDecodeError). `str` and
    `bytearray` are read as the builtins.
   */
  function Eval(e: Node, arena: seq<string>): Option<PyValue> {
    match e
    case Str(Bytes(b)) => Some(PyStr(b))
    case Str(Text(t)) => Some(PyUnicode(t))
    case Call(Name(f), args) =>
      if f == "str" && |args| == 1 && args[0].Call? && args[0].func == Name("bytearray")
         && |args[0].args| == 1 && args[0].args[0].List?
      then
        match ByteValues(args[0].args[0].elts)
        case None => None
        case Some(b) => Some(PyStr(b))
      else None
    case Call(Attribute(v, slot), args) =>
      if slot < |arena| && arena[slot] == DecodeMember && args == [Str(Bytes(Utf8Name))] then
        match Eval(v, arena)
        case Some(PyStr(b)) =>
          (match Utf8Decode(b)
           case None => None
           case Some(t) => Some(PyUnicode(t)))
        case _ => None
      else None
    case _ => None
  }

  lemma {:induction false} ByteValuesNumList(bytes: seq<byte>)
    ensures ByteValues(NumList(bytes)) == Some(bytes)
  {
    if bytes != [] {
      assert NumList(bytes)[1..] == NumList(bytes[1..]);
      ByteValuesNumList(bytes[1..]);
      assert [bytes[0]] + bytes[1..] == bytes;
    }
  }

  /**
    The encoded expression evaluates to the very string the constant stood for:
    the rewrite changes how a literal is spelled, not its value.
   */
  lemma EncodedLiteralFaithful(v: StrValue, slot: nat, arena: seq<string>)
    requires v != Opaque
    requires v.Text? ==> slot < |arena| && arena[slot] == DecodeMember
    ensures Eval(EncodedLiteral(v, slot), arena) == Eval(Str(v), arena)
  {
    match v
    case Bytes(b) =>
      StringLiteralEval(b, arena);
    case Text(t) =>
      var r := UnicodeLiteral(t, slot);
      StringLiteralEval(Utf8Encode(t), arena);
      Utf8RoundTrip(t);
      assert Eval(r.func.value, arena) == Some(PyStr(Utf8Encode(t)));
  }

  /** The byte-string form evaluates to the bytes it was built from. */
  lemma StringLiteralEval(b: seq<byte>, arena: seq<string>)
    ensures Eval(StringLiteral(b), arena) == Some(PyStr(b))
  {
    ByteValuesNumList(b);
  }

  /** The encoded expression no longer contains the text as a constant: only byte values. */
  lemma EncodedLiteralHasNoStringConstant(b: seq<byte>)
    ensures forall x :: x in StringLiteral(b).args[0].args[0].elts ==> x.Num? && 0 <= x.n < 256
  {
  }
}
