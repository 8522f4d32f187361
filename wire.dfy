/**
 * The driver's wire codec (src/util.rs): fixed-width scalars in the host's
 * native byte order, read from a cursor in declared order and appended to a
 * buffer; raw byte blobs; NUL-padded UTF-8 strings; and the decimal and
 * hexadecimal text the driver formats into its log lines.
 *
 * A read cursor is modelled by the bytes it has not consumed yet: every read
 * takes them and gives back the decoded value together with the bytes that
 * remain. The native byte order is little-endian, as the codec's own unit
 * test fixes it.
 */
module Wire {

  type u8 = x: int | 0 <= x < 0x100
  type u32 = x: int | 0 <= x < 0x1_0000_0000
  type i32 = x: int | -0x8000_0000 <= x < 0x8000_0000
  type Bytes = seq<u8>

  datatype Option<T> = None | Some(value: T)

  /** An f32 kept as its IEEE-754 bit pattern: the driver only moves floats around. */
  datatype F32 = F32(bits: u32)

  /** An RGBA colour with 8-bit channels, as nanovg's Color::from_rgba takes it. */
  datatype Color = Color(r: u8, g: u8, b: u8, a: u8)

  // ---------------------------------------------------------------------------
  // 4-byte scalars

  /** The u32 whose native (little-endian) bytes are b0 b1 b2 b3. */
  function LeU32(b0: u8, b1: u8, b2: u8, b3: u8): u32 {
    b0 + 0x100 * b1 + 0x1_0000 * b2 + 0x100_0000 * b3
  }

  /** The four native (little-endian) bytes of x, lowest first. */
  function U32Le(x: u32): (r: Bytes)
    ensures |r| == 4
  {
    var q1 := x / 0x100;
    var q2 := q1 / 0x100;
    var q3 := q2 / 0x100;
    assert q2 == x / 0x1_0000 && q3 == x / 0x100_0000;
    [x % 0x100, q1 % 0x100, q2 % 0x100, q3]
  }

  /** Encoding then decoding gives x back. */
  lemma LeU32OfU32Le(x: u32)
    ensures var r := U32Le(x); LeU32(r[0], r[1], r[2], r[3]) == x
  {
    var q1 := x / 0x100;
    var q2 := q1 / 0x100;
    assert q2 == x / 0x1_0000 && q2 / 0x100 == x / 0x100_0000;
  }

  /** Decoding then encoding four bytes gives the same four bytes back. */
  lemma LeU32Bytes(b0: u8, b1: u8, b2: u8, b3: u8)
    ensures U32Le(LeU32(b0, b1, b2, b3)) == [b0, b1, b2, b3]
  {
    var x := LeU32(b0, b1, b2, b3);
    assert x / 0x100 == b1 + 0x100 * b2 + 0x1_0000 * b3;
    assert x / 0x100 / 0x100 == b2 + 0x100 * b3;
    assert x / 0x100 / 0x100 / 0x100 == b3;
  }

  /** The big-endian reading of four bytes, as the frame length prefix is read. */
  function BeU32(b0: u8, b1: u8, b2: u8, b3: u8): u32 {
    LeU32(b3, b2, b1, b0)
  }

  /** The four big-endian bytes of x, highest first. */
  function U32Be(x: u32): (r: Bytes)
    ensures |r| == 4 && BeU32(r[0], r[1], r[2], r[3]) == x
  {
    var le := U32Le(x);
    LeU32OfU32Le(x);
    [le[3], le[2], le[1], le[0]]
  }

  /** Two's complement: the i32 whose bit pattern is u. */
  function I32OfBits(u: u32): i32 {
    if u < 0x8000_0000 then u else u - 0x1_0000_0000
  }

  /** The bit pattern of i. */
  function BitsOfI32(i: i32): (u: u32)
    ensures I32OfBits(u) == i
    ensures (i >= 0) == (u < 0x8000_0000)
  {
    if i >= 0 then i else i + 0x1_0000_0000
  }

  // ---------------------------------------------------------------------------
  // Reading from a cursor

  /** Why a read fails; every failure of the driver's reads ends in an error or a panic. */
  datatype Failure = UnexpectedEof | NulOnly | InvalidUtf8

  /** The result of a read: the value and the unread bytes, or the failure. */
  datatype Read<T> = Got(value: T, rest: Bytes) | Fail(failure: Failure)

  /** read_u32::<NativeEndian>: four bytes, or UnexpectedEof when fewer remain. */
  function ReadU32(s: Bytes): (r: Read<u32>)
    ensures r.Got? <==> |s| >= 4
    ensures r.Got? ==> r.rest == s[4..]
    ensures r.Fail? ==> r.failure == UnexpectedEof
  {
    if |s| < 4 then Fail(UnexpectedEof)
    else Got(LeU32(s[0], s[1], s[2], s[3]), s[4..])
  }

  /** A successful read consumed exactly the encoding of the value it returns. */
  lemma ReadU32Consumes(s: Bytes)
    requires |s| >= 4
    ensures s == U32Le(ReadU32(s).value) + ReadU32(s).rest
  {
    LeU32Bytes(s[0], s[1], s[2], s[3]);
    assert s == [s[0], s[1], s[2], s[3]] + s[4..];
  }

  /** Reading the encoding of x gives x back and leaves whatever followed it. */
  lemma ReadU32Le(x: u32, rest: Bytes)
    ensures ReadU32(U32Le(x) + rest) == Got(x, rest)
  {
    var s := U32Le(x) + rest;
    LeU32OfU32Le(x);
    assert s[..4] == U32Le(x);
    assert s[4..] == rest;
  }

  /** The types read_type! knows, in the order a caller lists them. */
  datatype Ty = I32T | U32T | UsizeT | F32T | ColorT | BoolT

  /** A decoded scalar. A usize is read as a u32 and widened. */
  datatype Value =
    | I32V(i: i32)
    | U32V(u: u32)
    | UsizeV(n: nat)
    | F32V(f: F32)
    | ColorV(c: Color)
    | BoolV(b: bool)

  /** Bytes a scalar of type ty takes on the wire: a colour is four u32s. */
  function Width(ty: Ty): nat {
    if ty == ColorT then 16 else 4
  }

  function TotalWidth(tys: seq<Ty>): nat
    decreases |tys|
  {
    if tys == [] then 0 else Width(tys[0]) + TotalWidth(tys[1..])
  }

  predicate HasType(v: Value, ty: Ty) {
    match ty
    case I32T => v.I32V?
    case U32T => v.U32V?
    case UsizeT => v.UsizeV? && v.n < 0x1_0000_0000
    case F32T => v.F32V?
    case ColorT => v.ColorV?
    case BoolT => v.BoolV?
  }

  /** The Color read_type! builds: four u32s, each truncated to its low 8 bits. */
  function ReadColor(s: Bytes): (r: Read<Color>)
    ensures r.Got? <==> |s| >= 16
    ensures r.Got? ==> r.rest == s[16..]
    ensures r.Got? ==> r.value == Color(ReadU32(s).value % 0x100, ReadU32(s[4..]).value % 0x100,
                                        ReadU32(s[8..]).value % 0x100, ReadU32(s[12..]).value % 0x100)
  {
    match ReadU32(s)
    case Fail(f) => Fail(f)
    case Got(r, s1) =>
      match ReadU32(s1)
      case Fail(f) => Fail(f)
      case Got(g, s2) =>
        match ReadU32(s2)
        case Fail(f) => Fail(f)
        case Got(b, s3) =>
          match ReadU32(s3)
          case Fail(f) => Fail(f)
          case Got(a, s4) => Got(Color(r % 0x100, g % 0x100, b % 0x100, a % 0x100), s4)
  }

  /** read_type!: one scalar of type ty in native order. */
  function ReadType(ty: Ty, s: Bytes): (r: Read<Value>)
    ensures r.Got? <==> |s| >= Width(ty)
    ensures r.Got? ==> HasType(r.value, ty) && r.rest == s[Width(ty)..]
    ensures r.Fail? ==> r.failure == UnexpectedEof
    ensures r.Got? && ty == I32T ==> r.value == I32V(I32OfBits(ReadU32(s).value))
    ensures r.Got? && ty == U32T ==> r.value == U32V(ReadU32(s).value)
    ensures r.Got? && ty == UsizeT ==> r.value == UsizeV(ReadU32(s).value)
    ensures r.Got? && ty == F32T ==> r.value == F32V(F32(ReadU32(s).value))
    ensures r.Got? && ty == BoolT ==> r.value == BoolV(ReadU32(s).value != 0)
    ensures r.Got? && ty == ColorT ==> r.value == ColorV(ReadColor(s).value)
  {
    if ty == ColorT then
      match ReadColor(s)
      case Fail(f) => Fail(f)
      case Got(c, rest) => Got(ColorV(c), rest)
    else
      match ReadU32(s)
      case Fail(f) => Fail(f)
      case Got(u, rest) =>
        var v := match ty
          case I32T => I32V(I32OfBits(u))
          case U32T => U32V(u)
          case UsizeT => UsizeV(u)
          case F32T => F32V(F32(u))
          case BoolT => BoolV(u != 0);
        Got(v, rest)
  }

  /** read_multi!: the listed scalars in declared order; the first short read fails the whole. */
  function ReadMulti(tys: seq<Ty>, s: Bytes): (r: Read<seq<Value>>)
    ensures r.Got? <==> |s| >= TotalWidth(tys)
    ensures r.Got? ==> |r.value| == |tys| && r.rest == s[TotalWidth(tys)..]
    ensures r.Got? ==> forall i | 0 <= i < |tys| :: HasType(r.value[i], tys[i])
    ensures r.Fail? ==> r.failure == UnexpectedEof
    decreases |tys|
  {
    if tys == [] then Got([], s)
    else
      match ReadType(tys[0], s)
      case Fail(f) => Fail(f)
      case Got(v, s1) =>
        match ReadMulti(tys[1..], s1)
        case Fail(f) => Fail(f)
        case Got(vs, s2) => Got([v] + vs, s2)
  }

  /** A read that succeeds reads the same value when more bytes follow, and leaves them unread. */
  lemma ReadU32Extend(s: Bytes, b: Bytes)
    requires |s| >= 4
    ensures ReadU32(s + b) == Got(ReadU32(s).value, ReadU32(s).rest + b)
  {
    assert (s + b)[4..] == s[4..] + b;
  }

  lemma ReadColorExtend(s: Bytes, b: Bytes)
    requires |s| >= 16
    ensures ReadColor(s + b) == Got(ReadColor(s).value, ReadColor(s).rest + b)
  {
    ReadU32Extend(s, b);
    ReadU32Extend(s[4..], b);
    ReadU32Extend(s[8..], b);
    ReadU32Extend(s[12..], b);
    assert (s + b)[4..] == s[4..] + b;
    assert (s[4..] + b)[4..] == s[8..] + b;
    assert (s[8..] + b)[4..] == s[12..] + b;
  }

  lemma ReadTypeExtend(ty: Ty, s: Bytes, b: Bytes)
    requires ReadType(ty, s).Got?
    ensures ReadType(ty, s + b) == Got(ReadType(ty, s).value, ReadType(ty, s).rest + b)
  {
    if ty == ColorT {
      ReadColorExtend(s, b);
    } else {
      ReadU32Extend(s, b);
    }
  }

  lemma {:induction false} ReadMultiExtend(tys: seq<Ty>, s: Bytes, b: Bytes)
    requires ReadMulti(tys, s).Got?
    ensures ReadMulti(tys, s + b) == Got(ReadMulti(tys, s).value, ReadMulti(tys, s).rest + b)
    decreases |tys|
  {
    if tys != [] {
      var s1 := ReadType(tys[0], s).rest;
      ReadTypeExtend(tys[0], s, b);
      ReadMultiExtend(tys[1..], s1, b);
    }
  }

  // ---------------------------------------------------------------------------
  // Appending to a buffer

  /** A value of one of the types WriteAny is implemented for: bool, i32, u32 and f32. */
  datatype Scalar = I32W(i: i32) | U32W(u: u32) | F32W(f: F32) | BoolW(b: bool)

  /** The 32 bits WriteAny puts on the wire for a scalar: a bool as 0 or 1. */
  function Bits(w: Scalar): u32 {
    match w
    case I32W(i) => BitsOfI32(i)
    case U32W(u) => u
    case F32W(f) => f.bits
    case BoolW(b) => if b then 1 else 0
  }

  /** WriteAny::write_any: the scalar's four native bytes appended to buf. */
  function WriteAny(w: Scalar, buf: Bytes): (r: Bytes)
    ensures |r| == |buf| + 4 && r[..|buf|] == buf
  {
    buf + U32Le(Bits(w))
  }

  /** write_multi!: the head written first, then the tail, each appended to the buffer. */
  function WriteMulti(buf: Bytes, ws: seq<Scalar>): Bytes
    decreases |ws|
  {
    if ws == [] then buf else WriteMulti(WriteAny(ws[0], buf), ws[1..])
  }

  /** The value a scalar is read back as, and its type. */
  function AsValue(w: Scalar): Value {
    match w
    case I32W(i) => I32V(i)
    case U32W(u) => U32V(u)
    case F32W(f) => F32V(f)
    case BoolW(b) => BoolV(b)
  }

  function TypeOf(w: Scalar): Ty {
    match w
    case I32W(_) => I32T
    case U32W(_) => U32T
    case F32W(_) => F32T
    case BoolW(_) => BoolT
  }

  function ValuesOf(ws: seq<Scalar>): (vs: seq<Value>)
    ensures |vs| == |ws|
  {
    seq(|ws|, i requires 0 <= i < |ws| => AsValue(ws[i]))
  }

  function TypesOf(ws: seq<Scalar>): (tys: seq<Ty>)
    ensures |tys| == |ws|
  {
    seq(|ws|, i requires 0 <= i < |ws| => TypeOf(ws[i]))
  }

  /** Writing only appends: the buffer keeps its bytes and is followed by the scalars' bytes. */
  lemma {:induction false} WriteMultiAppends(buf: Bytes, ws: seq<Scalar>)
    ensures WriteMulti(buf, ws) == buf + WriteMulti([], ws)
    decreases |ws|
  {
    if ws != [] {
      var w := U32Le(Bits(ws[0]));
      calc {
        WriteMulti(buf, ws);
        WriteMulti(buf + w, ws[1..]);
        { WriteMultiAppends(buf + w, ws[1..]); }
        (buf + w) + WriteMulti([], ws[1..]);
        buf + (w + WriteMulti([], ws[1..]));
        { WriteMultiAppends(w, ws[1..]); }
        buf + WriteMulti(w, ws[1..]);
        { assert [] + w == w; }
        buf + WriteMulti([], ws);
      }
    }
  }

  /** read_type! at a scalar's type reads back the scalar WriteAny wrote. */
  lemma ReadTypeScalar(w: Scalar, rest: Bytes)
    ensures ReadType(TypeOf(w), U32Le(Bits(w)) + rest) == Got(AsValue(w), rest)
  {
    ReadU32Le(Bits(w), rest);
  }

  /** read_multi! over a non-empty list: the first type read, then the rest from what remains. */
  lemma ReadMultiCons(ty: Ty, tys: seq<Ty>, v: Value, mid: Bytes, s: Bytes)
    requires ReadType(ty, s) == Got(v, mid)
    ensures ReadMulti([ty] + tys, s) ==
      match ReadMulti(tys, mid)
      case Fail(f) => Fail(f)
      case Got(vs, rest) => Got([v] + vs, rest)
  {
    assert ([ty] + tys)[1..] == tys;
  }

  lemma ScalarsCons(ws: seq<Scalar>)
    requires ws != []
    ensures TypesOf(ws) == [TypeOf(ws[0])] + TypesOf(ws[1..])
    ensures ValuesOf(ws) == [AsValue(ws[0])] + ValuesOf(ws[1..])
  {
    assert TypesOf(ws) == [TypeOf(ws[0])] + TypesOf(ws[1..]);
    assert ValuesOf(ws) == [AsValue(ws[0])] + ValuesOf(ws[1..]);
  }

  /** The bytes of a non-empty list: the first scalar's four bytes, then the others'. */
  lemma WriteMultiCons(ws: seq<Scalar>, rest: Bytes)
    requires ws != []
    ensures WriteMulti([], ws) + rest == U32Le(Bits(ws[0])) + (WriteMulti([], ws[1..]) + rest)
  {
    var w := U32Le(Bits(ws[0]));
    assert [] + w == w;
    WriteMultiAppends(w, ws[1..]);
  }

  /** write_multi! then read_multi! over the same types gives the same values back. */
  lemma {:induction false} WriteReadMulti(ws: seq<Scalar>, rest: Bytes)
    ensures ReadMulti(TypesOf(ws), WriteMulti([], ws) + rest) == Got(ValuesOf(ws), rest)
    decreases |ws|
  {
    if ws != [] {
      var w := U32Le(Bits(ws[0]));
      var tail := WriteMulti([], ws[1..]) + rest;
      WriteMultiCons(ws, rest);
      ReadTypeScalar(ws[0], tail);
      WriteReadMulti(ws[1..], rest);
      ReadMultiCons(TypeOf(ws[0]), TypesOf(ws[1..]), AsValue(ws[0]), tail, w + tail);
      ScalarsCons(ws);
    }
  }

  /** The codec's unit test: bytes 1..7,0xff read as i32 0x04030201 then u32 0xff070605,
    * nothing more can be read, and writing the two values gives the same eight bytes. */
  lemma ReadWriteMultiExample()
    ensures ReadMulti([I32T, U32T], [1, 2, 3, 4, 5, 6, 7, 0xff])
            == Got([I32V(0x0403_0201), U32V(0xff07_0605)], [])
    ensures ReadMulti([I32T], []).Fail?
    ensures WriteMulti([], [I32W(0x0403_0201), U32W(0xff07_0605)]) == [1, 2, 3, 4, 5, 6, 7, 0xff]
  {
    var ws := [I32W(0x0403_0201), U32W(0xff07_0605)];
    LeU32Bytes(1, 2, 3, 4);
    LeU32Bytes(5, 6, 7, 0xff);
    assert WriteMulti([], ws) == [1, 2, 3, 4, 5, 6, 7, 0xff] by {
      assert ws[1..][1..] == [];
      assert WriteMulti([], ws) == WriteMulti(WriteAny(ws[1], WriteAny(ws[0], [])), []);
    }
    WriteReadMulti(ws, []);
    assert TypesOf(ws) == [I32T, U32T];
    assert ValuesOf(ws) == [I32V(0x0403_0201), U32V(0xff07_0605)];
  }

  // ---------------------------------------------------------------------------
  // Blobs and strings

  /** read_bytes: exactly len bytes; short input fails (the source unwraps, so it panics). */
  function ReadBytes(s: Bytes, len: nat): (r: Read<Bytes>)
    ensures r.Got? <==> |s| >= len
    ensures r.Got? ==> |r.value| == len && s == r.value + r.rest
    ensures r.Fail? ==> r.failure == UnexpectedEof
  {
    if |s| < len then Fail(UnexpectedEof) else Got(s[..len], s[len..])
  }

  function Zeros(n: nat): (z: Bytes)
    ensures |z| == n && forall i | 0 <= i < n :: z[i] == 0
  {
    seq(n, _ => 0)
  }

  predicate AllZero(s: Bytes) {
    forall i | 0 <= i < |s| :: s[i] == 0
  }

  /** trim_null_tail: drop the trailing NUL bytes. With no nonzero byte at all the source's
    * index underflows, which is a panic: None. */
  function NullTrimmed(buf: Bytes): (r: Option<Bytes>)
    ensures r.None? <==> AllZero(buf)
    ensures r.Some? ==> 0 < |r.value| <= |buf| && r.value[|r.value| - 1] != 0
    ensures r.Some? ==> buf == r.value + Zeros(|buf| - |r.value|)
    decreases |buf|
  {
    if buf == [] then None
    else if buf[|buf| - 1] != 0 then Some(buf)
    else
      var r := NullTrimmed(buf[..|buf| - 1]);
      if r.Some? then
        assert buf == buf[..|buf| - 1] + [0];
        assert Zeros(|buf| - 1 - |r.value|) + [0] == Zeros(|buf| - |r.value|);
        r
      else r
  }

  /** Cutting after a NUL byte trims to the same as cutting before it; a lone NUL trims to
    * nothing. */
  lemma NullTrimmedDropsNul(buf: Bytes, i: nat)
    requires i < |buf| && buf[i] == 0
    ensures NullTrimmed(buf[..i + 1]) == if i == 0 then None else NullTrimmed(buf[..i])
  {
    assert buf[..i + 1][..i] == buf[..i];
  }

  /** Cutting after a nonzero byte leaves nothing to trim. */
  lemma NullTrimmedKeeps(buf: Bytes, i: nat)
    requires i < |buf| && buf[i] != 0
    ensures NullTrimmed(buf[..i + 1]) == Some(buf[..i + 1])
  {
  }

  /** trim_null_tail as the source runs it: an index walks down from the last byte while the
    * byte under it is zero, then the buffer is cut after it. An empty buffer, or one of NULs
    * only, makes the index underflow: None. */
  method TrimNullTail(buf: Bytes) returns (r: Option<Bytes>)
    ensures r == NullTrimmed(buf)
  {
    if |buf| == 0 {
      return None;
    }
    var i: nat := |buf| - 1;
    assert buf[..i + 1] == buf;
    while buf[i] == 0
      invariant i < |buf|
      invariant NullTrimmed(buf) == NullTrimmed(buf[..i + 1])
      decreases i
    {
      NullTrimmedDropsNul(buf, i);
      if i == 0 {
        return None;
      }
      i := i - 1;
    }
    NullTrimmedKeeps(buf, i);
    r := Some(buf[..i + 1]);
  }

  /** The trimmed bytes are the NUL-padded input without its padding, whatever the padding. */
  lemma {:induction false} NullTrimmedPadding(text: Bytes, n: nat)
    requires |text| > 0 && text[|text| - 1] != 0
    ensures NullTrimmed(text + Zeros(n)) == Some(text)
    decreases n
  {
    if n > 0 {
      var s := text + Zeros(n);
      assert s[..|s| - 1] == text + Zeros(n - 1);
      NullTrimmedPadding(text, n - 1);
    } else {
      assert text + Zeros(0) == text;
    }
  }

  lemma ReadBytesExtend(s: Bytes, len: nat, b: Bytes)
    requires ReadBytes(s, len).Got?
    ensures ReadBytes(s + b, len) == Got(ReadBytes(s, len).value, ReadBytes(s, len).rest + b)
  {
    assert (s + b)[..len] == s[..len];
    assert (s + b)[len..] == s[len..] + b;
  }

  /** Well-formed UTF-8 (RFC 3629, section 4), what String::from_utf8 accepts. */
  predicate IsUtf8(s: Bytes)
    decreases |s|
  {
    if s == [] then true
    else if s[0] < 0x80 then IsUtf8(s[1..])
    else if 0xC2 <= s[0] <= 0xDF then
      |s| >= 2 && IsCont(s[1]) && IsUtf8(s[2..])
    else if 0xE0 <= s[0] <= 0xEF then
      |s| >= 3 && IsCont(s[2])
      && (if s[0] == 0xE0 then 0xA0 <= s[1] <= 0xBF
          else if s[0] == 0xED then 0x80 <= s[1] <= 0x9F
          else IsCont(s[1]))
      && IsUtf8(s[3..])
    else if 0xF0 <= s[0] <= 0xF4 then
      |s| >= 4 && IsCont(s[2]) && IsCont(s[3])
      && (if s[0] == 0xF0 then 0x90 <= s[1] <= 0xBF
          else if s[0] == 0xF4 then 0x80 <= s[1] <= 0x8F
          else IsCont(s[1]))
      && IsUtf8(s[4..])
    else false
  }

  predicate IsCont(b: u8) {
    0x80 <= b <= 0xBF
  }

  predicate IsAscii(s: Bytes) {
    forall i | 0 <= i < |s| :: s[i] < 0x80
  }

  /** Every ASCII text is UTF-8. */
  lemma {:induction false} AsciiIsUtf8(s: Bytes)
    requires IsAscii(s)
    ensures IsUtf8(s)
    decreases |s|
  {
    if s != [] {
      AsciiIsUtf8(s[1..]);
    }
  }

  /** read_string: len bytes, NUL padding trimmed, checked to be UTF-8 (the source unwraps
    * both steps, so each failure is a panic). */
  function ReadString(s: Bytes, len: nat): (r: Read<Bytes>)
    ensures r.Got? <==> |s| >= len && !AllZero(s[..len]) && IsUtf8(NullTrimmed(s[..len]).value)
    ensures r.Got? ==> r.rest == s[len..] && |r.value| <= len
    ensures r.Got? ==> s[..len] == r.value + Zeros(len - |r.value|)
  {
    match ReadBytes(s, len)
    case Fail(f) => Fail(f)
    case Got(raw, rest) =>
      match NullTrimmed(raw)
      case None => Fail(NulOnly)
      case Some(text) => if IsUtf8(text) then Got(text, rest) else Fail(InvalidUtf8)
  }

  /** read_bytes of exactly the bytes that were written gives them back. */
  lemma ReadBytesExact(data: Bytes, rest: Bytes)
    ensures ReadBytes(data + rest, |data|) == Got(data, rest)
  {
    assert (data + rest)[..|data|] == data;
    assert (data + rest)[|data|..] == rest;
  }

  /** read_string round trip: a UTF-8 text that does not end in NUL, padded with any number of
    * NULs to the field length, reads back as itself. */
  lemma ReadStringPadded(text: Bytes, n: nat, rest: Bytes)
    requires |text| > 0 && text[|text| - 1] != 0 && IsUtf8(text)
    ensures ReadString(text + Zeros(n) + rest, |text| + n) == Got(text, rest)
  {
    ReadBytesExact(text + Zeros(n), rest);
    NullTrimmedPadding(text, n);
  }

  lemma ReadStringExtend(s: Bytes, len: nat, b: Bytes)
    requires ReadString(s, len).Got?
    ensures ReadString(s + b, len) == Got(ReadString(s, len).value, ReadString(s, len).rest + b)
  {
    ReadBytesExtend(s, len, b);
  }

  // ---------------------------------------------------------------------------
  // Formatted text

  /** The bytes of an ASCII literal, one per character; the driver's literals are all
    * ASCII, so the zero written for a wider character never occurs. */
  function Ascii(s: string): (r: Bytes)
    ensures |r| == |s|
  {
    seq(|s|, i requires 0 <= i < |s| => if s[i] < 128 as char then s[i] as int else 0)
  }

  predicate IsDigit(b: u8) {
    0x30 <= b <= 0x39
  }

  /** `{}` of an unsigned number: its decimal digits, most significant first, no leading zero. */
  function Decimal(n: nat): (r: Bytes)
    ensures |r| > 0 && (forall i | 0 <= i < |r| :: IsDigit(r[i]))
    ensures |r| > 1 ==> r[0] != 0x30
    decreases n
  {
    if n < 10 then [0x30 + n] else Decimal(n / 10) + [0x30 + n % 10]
  }

  /** The number a string of decimal digits spells. */
  function DecimalValue(s: Bytes): nat
    requires forall i | 0 <= i < |s| :: IsDigit(s[i])
    decreases |s|
  {
    if s == [] then 0
    else
      assert IsDigit(s[|s| - 1]);
      10 * DecimalValue(s[..|s| - 1]) + (s[|s| - 1] - 0x30)
  }

  /** Decimal formatting is undone by reading the digits back. */
  lemma {:induction false} DecimalRoundTrip(n: nat)
    ensures DecimalValue(Decimal(n)) == n
    decreases n
  {
    if n >= 10 {
      DecimalRoundTrip(n / 10);
      var d := Decimal(n);
      assert d[..|d| - 1] == Decimal(n / 10);
    }
  }

  function HexDigit(d: nat): (b: u8)
    requires d < 16
    ensures IsUpperHex(b) && HexDigitValue(b) == d
  {
    if d < 10 then 0x30 + d else 0x41 + (d - 10)
  }

  predicate IsUpperHex(b: u8) {
    0x30 <= b <= 0x39 || 0x41 <= b <= 0x46
  }

  function HexDigitValue(b: u8): nat
    requires IsUpperHex(b)
  {
    if b <= 0x39 then b - 0x30 else b - 0x41 + 10
  }

  /** The upper-case hexadecimal digits of n, no leading zero. */
  function HexDigits(n: nat): (r: Bytes)
    ensures |r| > 0 && (forall i | 0 <= i < |r| :: IsUpperHex(r[i]))
    ensures |r| > 1 ==> r[0] != 0x30
    decreases n
  {
    if n < 16 then [HexDigit(n)] else HexDigits(n / 16) + [HexDigit(n % 16)]
  }

  function HexValue(s: Bytes): nat
    requires forall i | 0 <= i < |s| :: IsUpperHex(s[i])
    decreases |s|
  {
    if s == [] then 0 else 16 * HexValue(s[..|s| - 1]) + HexDigitValue(s[|s| - 1])
  }

  /** Hexadecimal formatting is undone by reading the digits back. */
  lemma {:induction false} HexRoundTrip(n: nat)
    ensures HexValue(HexDigits(n)) == n
    decreases n
  {
    if n >= 16 {
      HexRoundTrip(n / 16);
      var d := HexDigits(n);
      assert d[..|d| - 1] == HexDigits(n / 16);
    }
  }

  /** `{:#X}`: "0x" and the upper-case hexadecimal digits. */
  function AlternateUpperHex(n: nat): (r: Bytes)
    ensures |r| > 2 && r[..2] == Ascii("0x")
    ensures forall i | 2 <= i < |r| :: IsUpperHex(r[i])
    ensures HexValue(r[2..]) == n
  {
    HexRoundTrip(n);
    var r := Ascii("0x") + HexDigits(n);
    assert r[2..] == HexDigits(n);
    r
  }
}
