/**
 * What the driver writes to its caller (src/comms.rs): every event is a payload
 * made of its native u32 kind and then its fields in argument order, or raw text
 * bytes with no length field; write_cmd frames a payload with its length as a
 * big-endian u32. The caller's side of the same framing is the stdin reader,
 * which takes a big-endian length and then exactly that many bytes as one message.
 */
module Outbound {
  import opened Wire
  import opened Defines

  /** The events the send_* functions build, one constructor per function. */
  datatype Event =
    | Close
    | Stats(inputFlags: u32, x: i32, y: i32, width: i32, height: i32,
            focused: bool, resizable: bool, iconified: bool, maximized: bool, visible: bool)
    | Puts(text: Bytes)
    | Write(text: Bytes)
    | Inspect(text: Bytes)
    | Reshape(windowWidth: i32, windowHeight: i32, frameWidth: i32, frameHeight: i32)
    | Ready(rootId: i32)
    | DrawReady(id: u32)
    | Key(key: i32, scancode: i32, action: i32, mods: i32)
    | Codepoint(codepoint: u32, cmods: i32)
    | CursorPos(xpos: F32, ypos: F32)
    | MouseButton(button: i32, baction: i32, bmods: i32, bxpos: F32, bypos: F32)
    | Scroll(xoffset: F32, yoffset: F32, sx: F32, sy: F32)
    | CursorEnter(entered: i32, ex: F32, ey: F32)
    | CacheMiss(text: Bytes)
    | FontMiss(text: Bytes)

  /** The events whose payload is the kind followed by raw bytes (send_string_cmd, send_inspect). */
  predicate IsText(e: Event) {
    e.Puts? || e.Write? || e.Inspect? || e.CacheMiss? || e.FontMiss?
  }

  /** The kind each send_* function writes first. */
  function Kind(e: Event): u32 {
    match e
    case Close => MsgOutClose
    case Stats(_, _, _, _, _, _, _, _, _, _) => MsgOutStats
    case Puts(_) => MsgOutPuts
    case Write(_) => MsgOutWrite
    case Inspect(_) => MsgOutInspect
    case Reshape(_, _, _, _) => MsgOutReshape
    case Ready(_) => MsgOutReady
    case DrawReady(_) => MsgOutDrawReady
    case Key(_, _, _, _) => MsgOutKey
    case Codepoint(_, _) => MsgOutCodepoint
    case CursorPos(_, _) => MsgOutCursorPos
    case MouseButton(_, _, _, _, _) => MsgOutMouseButton
    case Scroll(_, _, _, _) => MsgOutMouseScroll
    case CursorEnter(_, _, _) => MsgOutCursorEnter
    case CacheMiss(_) => MsgOutCacheMiss
    case FontMiss(_) => MsgOutFontMiss
  }

  /** The scalars write_multi! appends after the kind, in argument order (none for text events). */
  function Fields(e: Event): seq<Scalar> {
    match e
    case Stats(f, x, y, w, h, fo, re, ic, ma, vi) =>
      [U32W(f), I32W(x), I32W(y), I32W(w), I32W(h), BoolW(fo), BoolW(re), BoolW(ic), BoolW(ma), BoolW(vi)]
    case Reshape(ww, wh, fw, fh) => [I32W(ww), I32W(wh), I32W(fw), I32W(fh)]
    case Ready(r) => [I32W(r)]
    case DrawReady(id) => [U32W(id)]
    case Key(k, sc, a, m) => [I32W(k), I32W(sc), I32W(a), I32W(m)]
    case Codepoint(c, m) => [U32W(c), I32W(m)]
    case CursorPos(x, y) => [F32W(x), F32W(y)]
    case MouseButton(b, a, m, x, y) => [I32W(b), I32W(a), I32W(m), F32W(x), F32W(y)]
    case Scroll(xo, yo, x, y) => [F32W(xo), F32W(yo), F32W(x), F32W(y)]
    case CursorEnter(en, x, y) => [I32W(en), F32W(x), F32W(y)]
    case _ => []
  }

  /** The text a string event carries (empty for the others). */
  function Text(e: Event): Bytes {
    if IsText(e) then e.text else []
  }

  /** The payload the send_* function builds: kind, fields, then any raw text. */
  function Payload(e: Event): (p: Bytes)
    ensures |p| == 4 + 4 * |Fields(e)| + |Text(e)|
    ensures ReadU32(p) == Got(Kind(e), p[4..])
  {
    PayloadParts(Kind(e), Fields(e), Text(e));
    WriteMulti([], [U32W(Kind(e))] + Fields(e)) + Text(e)
  }

  /** A kind, scalars and text written one after the other read back the kind first. */
  lemma PayloadParts(kind: u32, ws: seq<Scalar>, t: Bytes)
    ensures var p := WriteMulti([], [U32W(kind)] + ws) + t;
      |p| == 4 + 4 * |ws| + |t| && ReadU32(p) == Got(kind, p[4..])
  {
    var body := WriteMulti([], ws);
    WriteMultiLength(ws);
    PayloadKind(kind, ws);
    ReadU32Le(kind, body + t);
    assert U32Le(kind) + body + t == U32Le(kind) + (body + t);
  }

  /** write_multi! writes four bytes per scalar. */
  lemma {:induction false} WriteMultiLength(ws: seq<Scalar>)
    ensures |WriteMulti([], ws)| == 4 * |ws|
    decreases |ws|
  {
    if ws != [] {
      WriteMultiAppends(U32Le(Bits(ws[0])), ws[1..]);
      WriteMultiLength(ws[1..]);
      assert [] + U32Le(Bits(ws[0])) == U32Le(Bits(ws[0]));
    }
  }

  /** A payload starts with the kind's four native bytes, then the fields' bytes. */
  lemma PayloadKind(kind: u32, ws: seq<Scalar>)
    ensures WriteMulti([], [U32W(kind)] + ws) == U32Le(kind) + WriteMulti([], ws)
  {
    var all := [U32W(kind)] + ws;
    assert all[1..] == ws;
    assert [] + U32Le(kind) == U32Le(kind);
    WriteMultiAppends(U32Le(kind), ws);
  }

  /** The field types the caller expects after each fixed-layout kind. */
  function FieldTypes(kind: u32): Option<seq<Ty>> {
    if kind == MsgOutClose then Some([])
    else if kind == MsgOutStats then
      Some([U32T, I32T, I32T, I32T, I32T, BoolT, BoolT, BoolT, BoolT, BoolT])
    else if kind == MsgOutReshape then Some([I32T, I32T, I32T, I32T])
    else if kind == MsgOutReady then Some([I32T])
    else if kind == MsgOutDrawReady then Some([U32T])
    else if kind == MsgOutKey then Some([I32T, I32T, I32T, I32T])
    else if kind == MsgOutCodepoint then Some([U32T, I32T])
    else if kind == MsgOutCursorPos then Some([F32T, F32T])
    else if kind == MsgOutMouseButton then Some([I32T, I32T, I32T, F32T, F32T])
    else if kind == MsgOutMouseScroll then Some([F32T, F32T, F32T, F32T])
    else if kind == MsgOutCursorEnter then Some([I32T, F32T, F32T])
    else None
  }

  predicate Fits(vs: seq<Value>, tys: seq<Ty>) {
    |vs| == |tys| && forall i | 0 <= i < |tys| :: HasType(vs[i], tys[i])
  }

  /** The event a caller rebuilds from a fixed-layout kind and the values read after it. */
  function Build(kind: u32, vs: seq<Value>): Event
    requires FieldTypes(kind).Some? && Fits(vs, FieldTypes(kind).value)
  {
    if kind == MsgOutClose then Close
    else if kind == MsgOutStats then
      Stats(vs[0].u, vs[1].i, vs[2].i, vs[3].i, vs[4].i, vs[5].b, vs[6].b, vs[7].b, vs[8].b, vs[9].b)
    else if kind == MsgOutReshape then Reshape(vs[0].i, vs[1].i, vs[2].i, vs[3].i)
    else if kind == MsgOutReady then Ready(vs[0].i)
    else if kind == MsgOutDrawReady then DrawReady(vs[0].u)
    else if kind == MsgOutKey then Key(vs[0].i, vs[1].i, vs[2].i, vs[3].i)
    else if kind == MsgOutCodepoint then Codepoint(vs[0].u, vs[1].i)
    else if kind == MsgOutCursorPos then CursorPos(vs[0].f, vs[1].f)
    else if kind == MsgOutMouseButton then MouseButton(vs[0].i, vs[1].i, vs[2].i, vs[3].f, vs[4].f)
    else if kind == MsgOutMouseScroll then Scroll(vs[0].f, vs[1].f, vs[2].f, vs[3].f)
    else CursorEnter(vs[0].i, vs[1].f, vs[2].f)
  }

  /** How the caller reads a payload: the kind, then either the rest as text or the
    * kind's fields with nothing left over. */
  function DecodeEvent(p: Bytes): Option<Event> {
    match ReadU32(p)
    case Fail(_) => None
    case Got(kind, rest) =>
      if kind == MsgOutPuts then Some(Puts(rest))
      else if kind == MsgOutWrite then Some(Write(rest))
      else if kind == MsgOutInspect then Some(Inspect(rest))
      else if kind == MsgOutCacheMiss then Some(CacheMiss(rest))
      else if kind == MsgOutFontMiss then Some(FontMiss(rest))
      else if FieldTypes(kind).None? then None
      else
        match ReadMulti(FieldTypes(kind).value, rest)
        case Fail(_) => None
        case Got(vs, left) => if left == [] then Some(Build(kind, vs)) else None
  }

  /** The layout the caller expects for an event's kind is the types of its fields. */
  lemma FieldTypesOfKind(e: Event)
    requires !IsText(e)
    ensures FieldTypes(Kind(e)) == Some(TypesOf(Fields(e)))
    ensures Kind(e) !in {MsgOutPuts, MsgOutWrite, MsgOutInspect, MsgOutCacheMiss, MsgOutFontMiss}
  {
    var tys := TypesOf(Fields(e));
    match e
    case Close =>
    case Stats(_, _, _, _, _, _, _, _, _, _) =>
      assert tys == [U32T, I32T, I32T, I32T, I32T, BoolT, BoolT, BoolT, BoolT, BoolT];
    case Reshape(_, _, _, _) => assert tys == [I32T, I32T, I32T, I32T];
    case Ready(_) => assert tys == [I32T];
    case DrawReady(_) => assert tys == [U32T];
    case Key(_, _, _, _) => assert tys == [I32T, I32T, I32T, I32T];
    case Codepoint(_, _) => assert tys == [U32T, I32T];
    case CursorPos(_, _) => assert tys == [F32T, F32T];
    case MouseButton(_, _, _, _, _) => assert tys == [I32T, I32T, I32T, F32T, F32T];
    case Scroll(_, _, _, _) => assert tys == [F32T, F32T, F32T, F32T];
    case CursorEnter(_, _, _) => assert tys == [I32T, F32T, F32T];
  }

  /** Rebuilding an event from the values of its own fields gives the event back. */
  lemma BuildOfFields(e: Event)
    requires !IsText(e)
    ensures FieldTypes(Kind(e)).Some? && Fits(ValuesOf(Fields(e)), FieldTypes(Kind(e)).value)
    ensures Build(Kind(e), ValuesOf(Fields(e))) == e
  {
    FieldTypesOfKind(e);
    ScalarsFit(Fields(e));
    var vs := ValuesOf(Fields(e));
    match e
    case Close =>
    case Stats(_, _, _, _, _, _, _, _, _, _) =>
    case Reshape(_, _, _, _) =>
    case Ready(_) =>
    case DrawReady(_) =>
    case Key(_, _, _, _) =>
    case Codepoint(_, _) =>
    case CursorPos(_, _) =>
    case MouseButton(_, _, _, _, _) =>
    case Scroll(_, _, _, _) =>
    case CursorEnter(_, _, _) =>
  }

  /** The values of scalars have the scalars' types. */
  lemma ScalarsFit(ws: seq<Scalar>)
    ensures Fits(ValuesOf(ws), TypesOf(ws))
  {
  }

  /** A string event decodes to itself: the kind, then the rest as its text. */
  lemma DecodeTextPayload(e: Event)
    requires IsText(e)
    ensures DecodeEvent(Payload(e)) == Some(e)
  {
    assert Fields(e) == [] && Text(e) == e.text;
    assert Payload(e) == WriteMulti([], [U32W(Kind(e))] + []) + e.text;
    PayloadKind(Kind(e), []);
    ReadU32Le(Kind(e), e.text);
  }

  /** Reading a fixed-layout kind followed by exactly its fields' bytes gives the event they build. */
  lemma DecodeFixed(kind: u32, ws: seq<Scalar>, p: Bytes)
    requires kind !in {MsgOutPuts, MsgOutWrite, MsgOutInspect, MsgOutCacheMiss, MsgOutFontMiss}
    requires FieldTypes(kind) == Some(TypesOf(ws))
    requires p == U32Le(kind) + WriteMulti([], ws)
    ensures Fits(ValuesOf(ws), TypesOf(ws))
    ensures DecodeEvent(p) == Some(Build(kind, ValuesOf(ws)))
  {
    ReadU32Le(kind, WriteMulti([], ws));
    WriteReadMulti(ws, []);
    assert WriteMulti([], ws) + [] == WriteMulti([], ws);
  }

  /** A fixed-layout event decodes to itself: its fields are read back with nothing left. */
  lemma DecodeFixedPayload(e: Event)
    requires !IsText(e)
    ensures DecodeEvent(Payload(e)) == Some(e)
  {
    var ws := Fields(e);
    PayloadKind(Kind(e), ws);
    assert Text(e) == [];
    FieldTypesOfKind(e);
    BuildOfFields(e);
    DecodeFixed(Kind(e), ws, Payload(e));
  }

  /** Every event's payload decodes back to the event: the layouts are unambiguous. */
  lemma DecodePayload(e: Event)
    ensures DecodeEvent(Payload(e)) == Some(e)
  {
    if IsText(e) {
      DecodeTextPayload(e);
    } else {
      DecodeFixedPayload(e);
    }
  }

  /** Two events with the same payload are the same event. */
  lemma PayloadInjective(e1: Event, e2: Event)
    requires Payload(e1) == Payload(e2)
    ensures e1 == e2
  {
    DecodePayload(e1);
    DecodePayload(e2);
  }

  // ---------------------------------------------------------------------------
  // Framing

  /** write_cmd: the payload's length as a big-endian u32, then the payload. The length is
    * cast with `as u32`, so it wraps for payloads of 4 GiB or more. */
  function Frame(p: Bytes): (f: Bytes)
    ensures |f| == 4 + |p| && f[4..] == p
    ensures BeU32(f[0], f[1], f[2], f[3]) == |p| % 0x1_0000_0000
  {
    U32Be(|p| % 0x1_0000_0000) + p
  }

  /** One step of the stdin reader: a big-endian length, then exactly that many bytes. */
  function ReadFrame(s: Bytes): (r: Read<Bytes>)
    ensures r.Got? <==> |s| >= 4 && |s| >= 4 + BeU32(s[0], s[1], s[2], s[3])
    ensures r.Got? ==> r.value == s[4..4 + BeU32(s[0], s[1], s[2], s[3])]
    ensures r.Got? ==> r.rest == s[4 + BeU32(s[0], s[1], s[2], s[3])..] && |r.rest| < |s|
  {
    if |s| < 4 then Fail(UnexpectedEof)
    else
      var len := BeU32(s[0], s[1], s[2], s[3]);
      ReadBytes(s[4..], len)
  }

  /** The messages the stdin reader forwards before the stream ends or breaks off mid-frame. */
  function ReadFrames(s: Bytes): seq<Bytes>
    decreases |s|
  {
    match ReadFrame(s)
    case Fail(_) => []
    case Got(msg, rest) => [msg] + ReadFrames(rest)
  }

  /** The concatenation of the frames of a list of payloads, as write_cmd emits them in turn. */
  function Frames(ps: seq<Bytes>): Bytes
    decreases |ps|
  {
    if ps == [] then [] else Frame(ps[0]) + Frames(ps[1..])
  }

  predicate Framable(p: Bytes) {
    |p| < 0x1_0000_0000
  }

  lemma BeU32Bytes(x: u32)
    ensures var b := U32Be(x); U32Be(BeU32(b[0], b[1], b[2], b[3])) == b
  {
  }

  /** Deframing one frame gives its payload and leaves what followed it. */
  lemma ReadFrameOfFrame(p: Bytes, rest: Bytes)
    requires Framable(p)
    ensures ReadFrame(Frame(p) + rest) == Got(p, rest)
  {
    var f := Frame(p);
    var s := f + rest;
    assert s[0] == f[0] && s[1] == f[1] && s[2] == f[2] && s[3] == f[3];
    assert BeU32(s[0], s[1], s[2], s[3]) == |p|;
    assert s[4..] == p + rest;
    ReadBytesExact(p, rest);
  }

  /** The reader forwards exactly the payloads the writer framed, in order. */
  lemma {:induction false} ReadFramesOfFrames(ps: seq<Bytes>)
    requires forall i | 0 <= i < |ps| :: Framable(ps[i])
    ensures ReadFrames(Frames(ps)) == ps
    decreases |ps|
  {
    assert Frames(ps) + [] == Frames(ps);
    ReadFramesBrokenOff(ps, []);
  }

  /** A stream that breaks off inside a frame, or before a whole length: the reader forwards
    * the complete frames before it, in order, and nothing of the broken one. */
  lemma {:induction false} ReadFramesBrokenOff(ps: seq<Bytes>, tail: Bytes)
    requires forall i | 0 <= i < |ps| :: Framable(ps[i])
    requires ReadFrame(tail).Fail?
    ensures ReadFrames(Frames(ps) + tail) == ps
    decreases |ps|
  {
    if ps == [] {
      assert Frames(ps) + tail == tail;
    } else {
      var after := Frames(ps[1..]) + tail;
      assert Frames(ps) + tail == Frame(ps[0]) + after;
      ReadFrameOfFrame(ps[0], after);
      assert ReadFrames(Frame(ps[0]) + after) == [ps[0]] + ReadFrames(after);
      ReadFramesBrokenOff(ps[1..], tail);
      assert ps == [ps[0]] + ps[1..];
    }
  }

  /** write_cmd of an event: the frame of its payload, which the caller deframes and decodes back. */
  lemma EventRoundTrip(e: Event, rest: Bytes)
    requires Framable(Payload(e))
    ensures ReadFrame(Frame(Payload(e)) + rest) == Got(Payload(e), rest)
    ensures DecodeEvent(Payload(e)) == Some(e)
  {
    ReadFrameOfFrame(Payload(e), rest);
    DecodePayload(e);
  }

  /** Field i of a fixed-layout event sits at bytes 4 + 4i to 8 + 4i of its payload, as the
    * four native bytes of its bit pattern: the fields follow the kind in argument order. */
  lemma PayloadFieldAt(e: Event, i: nat)
    requires i < |Fields(e)|
    ensures Payload(e)[4 + 4 * i..8 + 4 * i] == U32Le(Bits(Fields(e)[i]))
  {
    assert Payload(e) == WriteMulti([], [U32W(Kind(e))] + Fields(e)) + Text(e);
    PartsFieldAt(Kind(e), Fields(e), Text(e), i);
  }

  lemma PartsFieldAt(kind: u32, ws: seq<Scalar>, t: Bytes, i: nat)
    requires i < |ws|
    ensures |WriteMulti([], [U32W(kind)] + ws) + t| == 4 + 4 * |ws| + |t|
    ensures (WriteMulti([], [U32W(kind)] + ws) + t)[4 + 4 * i..8 + 4 * i] == U32Le(Bits(ws[i]))
  {
    PayloadParts(kind, ws, t);
    PayloadKind(kind, ws);
    WriteMultiAt(ws, i);
    SliceOfMiddle(U32Le(kind), WriteMulti([], ws), t, 4 * i, 4 * i + 4);
  }

  lemma PrefixOfThree(a: Bytes, b: Bytes, c: Bytes)
    ensures (a + b + c)[..|a|] == a
  {
    assert (a + b + c)[..|a|] == (a + b)[..|a|];
  }

  /** A slice inside the middle part of a three-part sequence is a slice of that part. */
  lemma SliceOfMiddle(a: Bytes, b: Bytes, c: Bytes, lo: nat, hi: nat)
    requires lo <= hi <= |b|
    ensures (a + b + c)[|a| + lo..|a| + hi] == b[lo..hi]
  {
    assert (a + b + c)[|a| + lo..|a| + hi] == (a + b + c)[|a|..|a| + |b|][lo..hi];
    assert (a + b + c)[|a|..|a| + |b|] == b;
  }

  /** The bytes of scalar i of a written list are at 4i to 4i + 4. */
  lemma WriteMultiAt(ws: seq<Scalar>, i: nat)
    requires i < |ws|
    ensures |WriteMulti([], ws)| == 4 * |ws|
    ensures WriteMulti([], ws)[4 * i..4 * i + 4] == U32Le(Bits(ws[i]))
  {
    WriteMultiLength(ws);
    WriteMultiLength(ws[..i]);
    WriteMultiAround(ws, i);
    SliceOfMiddle(WriteMulti([], ws[..i]), U32Le(Bits(ws[i])), WriteMulti([], ws[i + 1..]), 0, 4);
    assert U32Le(Bits(ws[i]))[0..4] == U32Le(Bits(ws[i]));
  }

  /** Writing a list is writing the scalars before i, scalar i, and the scalars after it. */
  lemma WriteMultiAround(ws: seq<Scalar>, i: nat)
    requires i < |ws|
    ensures WriteMulti([], ws) == WriteMulti([], ws[..i]) + U32Le(Bits(ws[i])) + WriteMulti([], ws[i + 1..])
  {
    var rest := ws[i..];
    assert rest[..1] == [ws[i]];
    assert rest[1..] == ws[i + 1..];
    WriteMultiSplit(rest, 1);
    WriteMultiSingle(ws[i]);
    assert WriteMulti([], rest) == U32Le(Bits(ws[i])) + WriteMulti([], ws[i + 1..]);
    WriteMultiSplit(ws, i);
  }

  /** The stats payload is 44 bytes: kind 1, the input flags, x, y, width and height,
    * and the five window flags as 0 or 1. */
  lemma StatsLayout(f: u32, x: i32, y: i32, w: i32, h: i32, fo: bool, re: bool, ic: bool, ma: bool, vi: bool)
    ensures var p := Payload(Stats(f, x, y, w, h, fo, re, ic, ma, vi));
      |p| == 44 && p[..4] == U32Le(MsgOutStats) && p[4..8] == U32Le(f)
      && p[8..12] == U32Le(BitsOfI32(x)) && p[12..16] == U32Le(BitsOfI32(y))
      && p[16..20] == U32Le(BitsOfI32(w)) && p[20..24] == U32Le(BitsOfI32(h))
      && p[24..28] == U32Le(if fo then 1 else 0) && p[28..32] == U32Le(if re then 1 else 0)
      && p[32..36] == U32Le(if ic then 1 else 0) && p[36..40] == U32Le(if ma then 1 else 0)
      && p[40..44] == U32Le(if vi then 1 else 0)
  {
    var e := Stats(f, x, y, w, h, fo, re, ic, ma, vi);
    var ws := Fields(e);
    assert |ws| == 10 && Text(e) == [] && Kind(e) == MsgOutStats;
    assert Bits(ws[0]) == f && Bits(ws[1]) == BitsOfI32(x) && Bits(ws[2]) == BitsOfI32(y);
    assert Bits(ws[3]) == BitsOfI32(w) && Bits(ws[4]) == BitsOfI32(h);
    assert Bits(ws[5]) == (if fo then 1 else 0) && Bits(ws[6]) == (if re then 1 else 0);
    assert Bits(ws[7]) == (if ic then 1 else 0) && Bits(ws[8]) == (if ma then 1 else 0);
    assert Bits(ws[9]) == (if vi then 1 else 0);
    PayloadHead(e);
    PayloadFieldAt(e, 0);
    PayloadFieldAt(e, 1);
    PayloadFieldAt(e, 2);
    PayloadFieldAt(e, 3);
    PayloadFieldAt(e, 4);
    PayloadFieldAt(e, 5);
    PayloadFieldAt(e, 6);
    PayloadFieldAt(e, 7);
    PayloadFieldAt(e, 8);
    PayloadFieldAt(e, 9);
  }

  /** Every payload starts with the kind's four native bytes. */
  lemma PayloadHead(e: Event)
    ensures Payload(e)[..4] == U32Le(Kind(e))
  {
    PayloadKind(Kind(e), Fields(e));
    PrefixOfThree(U32Le(Kind(e)), WriteMulti([], Fields(e)), Text(e));
  }

  lemma WriteMultiSingle(w: Scalar)
    ensures WriteMulti([], [w]) == U32Le(Bits(w))
  {
    assert [w][1..] == [];
    assert [] + U32Le(Bits(w)) == U32Le(Bits(w));
  }

  /** Writing a list is writing its first k scalars and then the rest. */
  lemma WriteMultiSplit(ws: seq<Scalar>, k: nat)
    requires k <= |ws|
    ensures WriteMulti([], ws) == WriteMulti([], ws[..k]) + WriteMulti([], ws[k..])
  {
    assert ws == ws[..k] + ws[k..];
    WriteMultiConcat([], ws[..k], ws[k..]);
    WriteMultiAppends(WriteMulti([], ws[..k]), ws[k..]);
  }

  /** Writing two lists in turn is writing their concatenation. */
  lemma {:induction false} WriteMultiConcat(buf: Bytes, a: seq<Scalar>, b: seq<Scalar>)
    ensures WriteMulti(buf, a + b) == WriteMulti(WriteMulti(buf, a), b)
    decreases |a|
  {
    if a == [] {
      assert a + b == b;
    } else {
      assert (a + b)[0] == a[0] && (a + b)[1..] == a[1..] + b;
      WriteMultiConcat(WriteAny(a[0], buf), a[1..], b);
    }
  }

  /** A string event carries the text verbatim after the kind, with no length or terminator. */
  lemma TextLayout(e: Event)
    requires IsText(e)
    ensures Payload(e) == U32Le(Kind(e)) + e.text
  {
    PayloadKind(Kind(e), []);
    assert WriteMulti([], []) == [];
  }
}
