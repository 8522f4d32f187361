/**
 * The script interpreter (src/script.rs). A script is a byte stream of drawing
 * opcodes, each followed by its operands in native order. The interpreter takes
 * one opcode per recursive step; a paint built by a PAINT_* opcode is handed to
 * the next step only; RUN_SCRIPT opens a nested level on the same stream; and
 * TERMINATE or an unknown opcode ends the current level. Every nanovg call and
 * every event sent is an entry of the run's trace.
 *
 * The numeric opcode values are not part of this model: the interpreter is
 * parameterised by a decode table, which is required to be injective.
 */
module Script {
  import opened Wire
  import opened Outbound
  import opened Host

  /** The script opcodes, in the order the interpreter's match lists them. */
  datatype Op =
    | OpPushState | OpPopState | OpResetState
    | OpRunScript
    | OpPaintLinear | OpPaintBox | OpPaintRadial | OpPaintImage
    | OpAntiAlias | OpStrokeWidth | OpStrokeColor | OpStrokePaint
    | OpFillColor | OpFillPaint
    | OpMiterLimit | OpLineCap | OpLineJoin | OpGlobalAlpha
    | OpScissor | OpIntersectScissor | OpResetScissor
    | OpPathBegin | OpPathMoveTo | OpPathLineTo | OpPathBezierTo | OpPathQuadraticTo
    | OpPathArcTo | OpPathClose | OpPathWinding
    | OpFill | OpStroke
    | OpTriangle | OpArc | OpRect | OpRoundRect | OpRoundRectVar | OpEllipse | OpCircle
    | OpSector | OpText
    | OpTxReset | OpTxIdentity | OpTxMatrix | OpTxTranslate | OpTxScale | OpTxRotate
    | OpTxSkewX | OpTxSkewY
    | OpFont | OpFontBlur | OpFontSize | OpTextAlign | OpTextHeight
    | OpTerminate

  /** A decode table: opcode word to operation. No two words name the same operation. */
  predicate Injective(t: map<u32, Op>) {
    forall a, b | a in t && b in t && a != b :: t[a] != t[b]
  }

  /** The word an operation is encoded as, under an injective table that has it. */
  ghost function Encode(t: map<u32, Op>, op: Op): (code: u32)
    requires Injective(t) && op in t.Values
    ensures code in t && t[code] == op
  {
    var code :| code in t && t[code] == op; code
  }

  /** Decoding an encoded operation gives it back, and encoding a decoded word gives the word. */
  lemma EncodeDecode(t: map<u32, Op>, code: u32)
    requires Injective(t) && code in t
    ensures t[code] in t.Values && Encode(t, t[code]) == code
  {
    assert t[code] in t.Values;
  }

  // ---------------------------------------------------------------------------
  // Operand layouts

  const F4: seq<Ty> := [F32T, F32T, F32T, F32T]

  /** The fixed operands an opcode reads with read_multi!, in declared order. PAINT_IMAGE reads
    * a key of the length its last operand gives, FONT a name and TEXT raw bytes afterwards. */
  function Layout(op: Op): seq<Ty> {
    match op
    case OpPaintLinear => F4 + [ColorT, ColorT]
    case OpPaintBox => F4 + [F32T, F32T, ColorT, ColorT]
    case OpPaintRadial => F4 + [ColorT, ColorT]
    case OpPaintImage => F4 + [F32T, F32T, U32T]
    case OpAntiAlias => [I32T]
    case OpStrokeWidth => [F32T]
    case OpStrokeColor => [U32T, U32T, U32T, U32T]
    case OpFillColor => [ColorT]
    case OpMiterLimit => [F32T]
    case OpLineCap => [I32T]
    case OpLineJoin => [I32T]
    case OpGlobalAlpha => [F32T]
    case OpScissor => [F32T, F32T]
    case OpIntersectScissor => [F32T, F32T]
    case OpPathMoveTo => [F32T, F32T]
    case OpPathLineTo => [F32T, F32T]
    case OpPathBezierTo => F4 + [F32T, F32T]
    case OpPathQuadraticTo => F4
    case OpPathArcTo => F4 + [F32T]
    case OpPathWinding => [BoolT]
    case OpTriangle => F4 + [F32T, F32T]
    case OpArc => [F32T, F32T, F32T]
    case OpRect => [F32T, F32T]
    case OpRoundRect => [F32T, F32T, F32T]
    case OpEllipse => [F32T, F32T]
    case OpCircle => [F32T]
    case OpSector => [F32T, F32T, F32T]
    case OpText => [UsizeT]
    case OpTxMatrix => F4 + [F32T, F32T]
    case OpTxTranslate => [F32T, F32T]
    case OpTxScale => [F32T, F32T]
    case OpTxRotate => [F32T]
    case OpTxSkewX => [F32T]
    case OpTxSkewY => [F32T]
    case OpFont => [UsizeT]
    case OpFontBlur => [F32T]
    case OpFontSize => [F32T]
    case OpTextAlign => [I32T]
    case OpTextHeight => [F32T]
    case _ => []
  }

  /** The opcodes that build the paint for the next step. */
  predicate IsPaintOp(op: Op) {
    op == OpPaintLinear || op == OpPaintBox || op == OpPaintRadial || op == OpPaintImage
  }

  /** The opcodes whose whole operand list is their fixed layout. */
  predicate IsPlain(op: Op) {
    op != OpRunScript && op != OpTerminate && op != OpPaintImage && op != OpFont && op != OpText
  }

  // Operand i of a decoded list, by type; read_multi! guarantees the type and the count,
  // so the defaults never occur.
  function ArgF32(vs: seq<Value>, i: nat): F32 { if i < |vs| && vs[i].F32V? then vs[i].f else F32(0) }
  function ArgI32(vs: seq<Value>, i: nat): i32 { if i < |vs| && vs[i].I32V? then vs[i].i else 0 }
  function ArgU32(vs: seq<Value>, i: nat): u32 { if i < |vs| && vs[i].U32V? then vs[i].u else 0 }
  function ArgColor(vs: seq<Value>, i: nat): Color { if i < |vs| && vs[i].ColorV? then vs[i].c else Color(0, 0, 0, 0) }
  function ArgBool(vs: seq<Value>, i: nat): bool { i < |vs| && vs[i].BoolV? && vs[i].b }
  function ArgUsize(vs: seq<Value>, i: nat): nat { if i < |vs| && vs[i].UsizeV? then vs[i].n else 0 }

  const Zero: F32 := F32(0)

  /** line_join: 0, 1 and 2 become nanovg's MITER, ROUND and BEVEL; any other value is passed
    * through. The result is handed to the line-cap setter. */
  function JoinCap(i: i32): (c: CapValue)
    ensures c.CapRaw? <==> !(0 <= i <= 2)
    ensures c.CapRaw? ==> c.raw == i
  {
    if i == 0 then CapMiter else if i == 1 then CapRound else if i == 2 then CapBevel else CapRaw(i)
  }

  /** The calls a plain opcode makes with its decoded operands and the incoming paint: only
    * STROKE_PAINT and FILL_PAINT look at the paint, and they apply it if there is one. */
  function Draw(op: Op, vs: seq<Value>, paint: Option<Paint>): seq<Effect> {
    if op == OpStrokePaint then (if paint.Some? then [Nvg(StrokePaint(paint.value))] else [])
    else if op == OpFillPaint then (if paint.Some? then [Nvg(FillPaint(paint.value))] else [])
    else Calls(op, vs)
  }

  /** The calls the other plain opcodes make with their decoded operands. */
  function Calls(op: Op, vs: seq<Value>): seq<Effect> {
    match op
    case OpPushState => [Nvg(Save)]
    case OpPopState => [Nvg(Restore)]
    case OpResetState => [Nvg(Reset)]
    case OpPaintLinear => []
    case OpPaintBox => []
    case OpPaintRadial => []
    case OpAntiAlias => [Nvg(ShapeAntiAlias(ArgI32(vs, 0)))]
    case OpStrokeWidth => [Nvg(StrokeWidth(ArgF32(vs, 0)))]
    case OpStrokeColor =>
      [Nvg(StrokeColor(Color(ArgU32(vs, 0) % 0x100, ArgU32(vs, 1) % 0x100, ArgU32(vs, 2) % 0x100, ArgU32(vs, 3) % 0x100)))]
    case OpFillColor => [Nvg(FillColor(ArgColor(vs, 0)))]
    case OpMiterLimit => [Nvg(MiterLimit(ArgF32(vs, 0)))]
    case OpLineCap => [Nvg(LineCap(CapRaw(ArgI32(vs, 0))))]
    case OpLineJoin => [Nvg(LineCap(JoinCap(ArgI32(vs, 0))))]
    case OpGlobalAlpha => [Nvg(GlobalAlpha(ArgF32(vs, 0)))]
    case OpScissor => [Nvg(Scissor(Zero, Zero, ArgF32(vs, 0), ArgF32(vs, 1)))]
    case OpIntersectScissor => [Nvg(IntersectScissor(Zero, Zero, ArgF32(vs, 0), ArgF32(vs, 1)))]
    case OpResetScissor => [Nvg(ResetScissor)]
    case OpPathBegin => [Nvg(BeginPath)]
    case OpPathMoveTo => [Nvg(MoveTo(ArgF32(vs, 0), ArgF32(vs, 1)))]
    case OpPathLineTo => [Nvg(LineTo(ArgF32(vs, 0), ArgF32(vs, 1)))]
    case OpPathBezierTo =>
      [Nvg(BezierTo(ArgF32(vs, 0), ArgF32(vs, 1), ArgF32(vs, 2), ArgF32(vs, 3), ArgF32(vs, 4), ArgF32(vs, 5)))]
    case OpPathQuadraticTo => [Nvg(QuadTo(ArgF32(vs, 0), ArgF32(vs, 1), ArgF32(vs, 2), ArgF32(vs, 3)))]
    case OpPathArcTo => [Nvg(ArcTo(ArgF32(vs, 0), ArgF32(vs, 1), ArgF32(vs, 2), ArgF32(vs, 3), ArgF32(vs, 4)))]
    case OpPathClose => [Nvg(ClosePath)]
    case OpPathWinding => [Nvg(PathWinding(if ArgBool(vs, 0) then Solid else Hole))]
    case OpFill => [Nvg(Fill)]
    case OpStroke => [Nvg(Stroke)]
    case OpTriangle =>
      [Nvg(MoveTo(ArgF32(vs, 0), ArgF32(vs, 1))), Nvg(LineTo(ArgF32(vs, 2), ArgF32(vs, 3))),
       Nvg(LineTo(ArgF32(vs, 4), ArgF32(vs, 5))), Nvg(ClosePath)]
    case OpArc => [Nvg(ArcSegments(ArgF32(vs, 0), ArgF32(vs, 1), ArgF32(vs, 2)))]
    case OpRect => [Nvg(Rect(Zero, Zero, ArgF32(vs, 0), ArgF32(vs, 1)))]
    case OpRoundRect => [Nvg(RoundedRect(Zero, Zero, ArgF32(vs, 0), ArgF32(vs, 1), ArgF32(vs, 2)))]
    case OpRoundRectVar => []
    case OpEllipse => [Nvg(Ellipse(Zero, Zero, ArgF32(vs, 0), ArgF32(vs, 1)))]
    case OpCircle => [Nvg(Circle(Zero, Zero, ArgF32(vs, 0)))]
    case OpSector =>
      [Nvg(ArcSegments(ArgF32(vs, 0), ArgF32(vs, 1), ArgF32(vs, 2))), Nvg(LineTo(Zero, Zero)), Nvg(ClosePath)]
    case OpTxReset => [Nvg(ResetTransform)]
    case OpTxIdentity => []
    case OpTxMatrix =>
      [Nvg(Transform(ArgF32(vs, 0), ArgF32(vs, 1), ArgF32(vs, 2), ArgF32(vs, 3), ArgF32(vs, 4), ArgF32(vs, 5)))]
    case OpTxTranslate => [Nvg(Translate(ArgF32(vs, 0), ArgF32(vs, 1)))]
    case OpTxScale => [Nvg(Scale(ArgF32(vs, 0), ArgF32(vs, 1)))]
    case OpTxRotate => [Nvg(Rotate(ArgF32(vs, 0)))]
    case OpTxSkewX => [Nvg(SkewX(ArgF32(vs, 0)))]
    case OpTxSkewY => [Nvg(SkewY(ArgF32(vs, 0)))]
    case OpFontBlur => [Nvg(FontBlur(ArgF32(vs, 0)))]
    case OpFontSize => [Nvg(FontSize(ArgF32(vs, 0)))]
    case OpTextAlign => [Nvg(TextAlign(ArgI32(vs, 0)))]
    case OpTextHeight => [Nvg(TextLineHeight(ArgF32(vs, 0)))]
    case _ => []
  }

  /** The gradient paint_linear, paint_box or paint_radial builds from its operands. */
  function Gradient(op: Op, vs: seq<Value>): (p: Option<Paint>)
    ensures p.Some? <==> op in {OpPaintLinear, OpPaintBox, OpPaintRadial}
  {
    match op
    case OpPaintLinear =>
      Some(Linear(ArgF32(vs, 0), ArgF32(vs, 1), ArgF32(vs, 2), ArgF32(vs, 3), ArgColor(vs, 4), ArgColor(vs, 5)))
    case OpPaintBox =>
      Some(BoxGradient(ArgF32(vs, 0), ArgF32(vs, 1), ArgF32(vs, 2), ArgF32(vs, 3), ArgF32(vs, 4), ArgF32(vs, 5),
                       ArgColor(vs, 6), ArgColor(vs, 7)))
    case OpPaintRadial =>
      Some(Radial(ArgF32(vs, 0), ArgF32(vs, 1), ArgF32(vs, 2), ArgF32(vs, 3), ArgColor(vs, 4), ArgColor(vs, 5)))
    case _ => None
  }

  // ---------------------------------------------------------------------------
  // One step

  /** How a run ends: Done is Ok(()) from the outermost level; Eof is the Err the opcode read
    * returns on a short stream; Panic is an unwrap of a short operand read, a NUL-only or
    * non-UTF-8 string; Hang is the text opcode, whose layout loop has no exit. */
  datatype Status = Done | Eof | Panic | Hang

  /** What the resources the interpreter looks up: textures by key, loaded fonts by name. */
  datatype Env = Env(textures: map<Bytes, Image>, fonts: seq<Bytes>)

  /** One opcode's work: the calls it made, the paint for the next step and the unread
    * bytes; or the status that ends the whole run. */
  datatype Step = Next(calls: seq<Effect>, next: Option<Paint>, rest: Bytes) | Stop(status: Status, calls: seq<Effect>)

  /** Decode one opcode's operands from s and perform it. */
  function Exec(op: Op, env: Env, s: Bytes, paint: Option<Paint>): (r: Step)
    requires op != OpRunScript && op != OpTerminate
    ensures r.Next? ==> |r.rest| <= |s|
    ensures r.Next? && r.next.Some? ==> IsPaintOp(op)
    ensures r.Stop? ==> r.status in {Panic, Hang}
    ensures IsPlain(op) ==> (r.Next? <==> |s| >= TotalWidth(Layout(op)))
    ensures IsPlain(op) && r.Next? ==> r.rest == s[TotalWidth(Layout(op))..]
  {
    match ReadMulti(Layout(op), s)
    case Fail(_) => Stop(Panic, [])
    case Got(vs, s1) =>
      if op == OpPaintImage then PaintImage(env, vs, s1)
      else if op == OpFont then Font(env, ArgUsize(vs, 0), s1)
      else if op == OpText then Text(ArgUsize(vs, 0), s1)
      else Next(Draw(op, vs, paint), Gradient(op, vs), s1)
  }

  /** paint_image, after its fixed operands: the key, then the texture it names as an image
    * pattern; a key with no texture is a cache miss and gives no paint. */
  function PaintImage(env: Env, vs: seq<Value>, s: Bytes): (r: Step)
    ensures r.Next? ==> |r.rest| <= |s|
    ensures r.Stop? ==> r.status == Panic
  {
    match ReadString(s, ArgU32(vs, 6))
    case Fail(_) => Stop(Panic, [])
    case Got(key, rest) =>
      if key in env.textures then
        Next([], Some(ImagePattern(env.textures[key], ArgF32(vs, 0), ArgF32(vs, 1), ArgF32(vs, 2),
                                   ArgF32(vs, 3), ArgF32(vs, 4), ArgF32(vs, 5))), rest)
      else
        Next([Send(CacheMiss(key))], None, rest)
  }

  /** font, after the name's length: the face is set when a font of that name is loaded,
    * otherwise the caller is told the font is missing. The lookup is by the whole name read;
    * what the source hands nvgFindFont differs for some fields (FontCName). */
  function Font(env: Env, len: nat, s: Bytes): (r: Step)
    ensures r.Next? ==> |r.rest| <= |s| && r.next.None?
    ensures r.Stop? ==> r.status == Panic
  {
    match ReadString(s, len)
    case Fail(_) => Stop(Panic, [])
    case Got(name, rest) =>
      var id := FindFont(env.fonts, name);
      if id >= 0 then Next([Nvg(FontFaceId(id))], None, rest)
      else Next([Send(FontMiss(name))], None, rest)
  }

  /** The name nvgFindFont sees when `font` passes it the buffer of the string it read from a
    * field: the field's bytes up to the first NUL (the NULs trimmed off the name are still in
    * the buffer after it). A field with no NUL gives the C string no terminator inside the
    * buffer, so the lookup reads past its end: None. */
  function FontCName(field: Bytes): (r: Option<Bytes>)
    ensures r.None? <==> 0 !in field
    ensures r.Some? ==> |r.value| < |field| && field[..|r.value|] == r.value
                        && field[|r.value|] == 0 && 0 !in r.value
    decreases |field|
  {
    if field == [] then None
    else if field[0] == 0 then Some([])
    else
      match FontCName(field[1..])
      case None => None
      case Some(n) =>
        assert field[..|n| + 1] == [field[0]] + field[1..][..|n|];
        Some([field[0]] + n)
  }

  /** The C string of a name without NUL, followed by a NUL and anything, is the name. */
  lemma {:induction false} FontCNameTerminated(name: Bytes, after: Bytes)
    requires 0 !in name
    ensures FontCName(name + [0] + after) == Some(name)
    decreases |name|
  {
    var f := name + [0] + after;
    if name != [] {
      assert f[0] == name[0] && name[0] != 0;
      assert f[1..] == name[1..] + [0] + after;
      FontCNameTerminated(name[1..], after);
      assert [name[0]] + name[1..] == name;
    }
  }

  /** For a name `font` has read, nvgFindFont sees exactly that name if and only if the name has
    * no NUL in it and the field held at least one byte of NUL padding after it. */
  lemma FontCNameOfRead(s: Bytes, len: nat)
    requires ReadString(s, len).Got?
    ensures var name := ReadString(s, len).value;
      FontCName(s[..len]) == Some(name) <==> |name| < len && 0 !in name
  {
    var name := ReadString(s, len).value;
    if |name| < len && 0 !in name {
      var z := Zeros(len - |name|);
      assert s[..len] == name + [0] + z[1..];
      FontCNameTerminated(name, z[1..]);
    }
  }

  /** A font name that fills its field: the field [0x61] reads as the name "a", which a font
    * loaded under "a" matches, but the buffer handed to nvgFindFont has no NUL in it. */
  lemma FontNameUnterminated()
    ensures ReadString([0x61], 1) == Got([0x61], [])
    ensures FontCName([0x61]) == None
    ensures FindFont([[0x61]], [0x61]) == 0
  {
    assert NullTrimmed([0x61]) == Some([0x61]);
    assert IsUtf8([0x61]) by { AsciiIsUtf8([0x61]); }
    assert [0x61][..1] == [0x61];
  }

  /** text, after the length: the bytes are read and laid out, and the layout loop, which has
    * no exit, never hands control back. */
  function Text(len: nat, s: Bytes): (r: Step)
    ensures r.Stop?
    ensures r.status == Panic <==> |s| < len
  {
    match ReadBytes(s, len)
    case Fail(_) => Stop(Panic, [])
    case Got(text, _) => Stop(Hang, [Nvg(TextMetrics), Nvg(TextLayout(text))])
  }

  // ---------------------------------------------------------------------------
  // The interpreter

  datatype RunResult = RunResult(status: Status, rest: Bytes, calls: seq<Effect>)

  /** The log line for an opcode word the table does not know. */
  function UnknownOpLine(code: u32): Bytes {
    Ascii("!!!Unknown script command: ") + Decimal(code)
  }

  /** run_script_internal: read the opcode word (Eof when fewer than four bytes remain), perform
    * it, and continue on the rest of the same stream with the paint it produced. */
  function Run(t: map<u32, Op>, env: Env, s: Bytes, paint: Option<Paint>): (r: RunResult)
    ensures |r.rest| <= |s|
    decreases |s|
  {
    match ReadU32(s)
    case Fail(_) => RunResult(Eof, s, [])
    case Got(code, s1) =>
      if code !in t then RunResult(Done, s1, [Send(Puts(UnknownOpLine(code)))])
      else if t[code] == OpTerminate then RunResult(Done, s1, [])
      else if t[code] == OpRunScript then
        var inner := Run(t, env, s1, None);
        if inner.status != Done then inner
        else
          var outer := Run(t, env, inner.rest, None);
          RunResult(outer.status, outer.rest, inner.calls + outer.calls)
      else
        match Exec(t[code], env, s1, paint)
        case Stop(status, calls) => RunResult(status, s1, calls)
        case Next(calls, next, s2) =>
          var after := Run(t, env, s2, next);
          RunResult(after.status, after.rest, calls + after.calls)
  }

  /** run_scripts: nothing for an id with no script; otherwise a run of the script from its
    * start with no paint, whose Err the caller unwraps, so Eof becomes a panic. */
  function RunScripts(t: map<u32, Op>, env: Env, scripts: map<u32, Bytes>, id: u32): (r: Option<(Status, seq<Effect>)>)
    ensures r.None? <==> id !in scripts
    ensures r.Some? ==> r.value.0 != Eof
    ensures r.Some? && Run(t, env, scripts[id], None).status != Eof ==>
      r.value.0 == Run(t, env, scripts[id], None).status
    ensures r.Some? ==> r.value.1 == Run(t, env, scripts[id], None).calls
  {
    if id !in scripts then None
    else
      var run := Run(t, env, scripts[id], None);
      Some((if run.status == Eof then Panic else run.status, run.calls))
  }

  /** The render pass runs the root script only when its id is positive. */
  function RenderRoot(t: map<u32, Op>, env: Env, scripts: map<u32, Bytes>, root: i32): (r: Option<(Status, seq<Effect>)>)
    ensures root <= 0 ==> r.None?
    ensures root > 0 ==> r == RunScripts(t, env, scripts, root)
  {
    if root > 0 then RunScripts(t, env, scripts, root) else None
  }

  // ---------------------------------------------------------------------------
  // Properties of one step

  /** Only STROKE_PAINT and FILL_PAINT depend on the incoming paint. */
  lemma ExecPaintIndependent(op: Op, env: Env, s: Bytes, p1: Option<Paint>, p2: Option<Paint>)
    requires op != OpRunScript && op != OpTerminate && op != OpStrokePaint && op != OpFillPaint
    ensures Exec(op, env, s, p1) == Exec(op, env, s, p2)
  {
  }

  /** The shapes and scissors that take no position are drawn at the origin. */
  lemma ShapesAtOrigin(op: Op, vs: seq<Value>, p: Option<Paint>)
    requires op in {OpRect, OpRoundRect, OpEllipse, OpCircle, OpScissor, OpIntersectScissor}
    ensures |Draw(op, vs, p)| == 1 && Draw(op, vs, p)[0].Nvg?
    ensures OriginOf(Draw(op, vs, p)[0].call) == Some((Zero, Zero))
  {
  }

  /** The position a positioned shape or scissor call is made at. */
  function OriginOf(c: NvgCall): Option<(F32, F32)> {
    match c
    case Rect(x, y, _, _) => Some((x, y))
    case RoundedRect(x, y, _, _, _) => Some((x, y))
    case Ellipse(x, y, _, _) => Some((x, y))
    case Circle(x, y, _) => Some((x, y))
    case Scissor(x, y, _, _) => Some((x, y))
    case IntersectScissor(x, y, _, _) => Some((x, y))
    case _ => None
  }

  /** A triangle is a move to the first corner, lines to the other two, and a close. */
  lemma TriangleIsPath(vs: seq<Value>, p: Option<Paint>)
    requires |vs| == 6
    ensures Draw(OpTriangle, vs, p)
         == Draw(OpPathMoveTo, vs[0..2], p) + Draw(OpPathLineTo, vs[2..4], p)
          + Draw(OpPathLineTo, vs[4..6], p) + Draw(OpPathClose, [], p)
  {
    assert vs[2..4][0] == vs[2] && vs[2..4][1] == vs[3];
    assert vs[4..6][0] == vs[4] && vs[4..6][1] == vs[5];
  }

  /** A sector is the arc with the same operands, then a line to the origin and a close. */
  lemma SectorIsArcClosed(vs: seq<Value>, p: Option<Paint>)
    ensures Draw(OpSector, vs, p) == Draw(OpArc, vs, p) + [Nvg(LineTo(Zero, Zero)), Nvg(ClosePath)]
  {
  }

  /** line_join hands the line-cap setter what LINE_CAP would, except that 0, 1 and 2 become
    * the miter, round and bevel symbols. */
  lemma LineJoinThroughLineCap(vs: seq<Value>, p: Option<Paint>)
    ensures var i := ArgI32(vs, 0);
      if 0 <= i <= 2 then
        Draw(OpLineJoin, vs, p) == [Nvg(LineCap([CapMiter, CapRound, CapBevel][i]))]
      else
        Draw(OpLineJoin, vs, p) == Draw(OpLineCap, vs, p)
  {
  }

  /** A step that finished reads the same from a longer stream and leaves the extra bytes. */
  lemma ExecExtend(op: Op, env: Env, s: Bytes, b: Bytes, p: Option<Paint>)
    requires op != OpRunScript && op != OpTerminate
    requires Exec(op, env, s, p).Next? || Exec(op, env, s, p).status == Hang
    ensures var r := Exec(op, env, s, p);
      Exec(op, env, s + b, p) == if r.Next? then Next(r.calls, r.next, r.rest + b) else r
  {
    var tys := Layout(op);
    ReadMultiExtend(tys, s, b);
    var vs, s1 := ReadMulti(tys, s).value, ReadMulti(tys, s).rest;
    if op == OpPaintImage {
      PaintImageExtend(env, vs, s1, b);
    } else if op == OpFont {
      FontExtend(env, ArgUsize(vs, 0), s1, b);
    } else if op == OpText {
      TextExtend(ArgUsize(vs, 0), s1, b);
    }
  }

  lemma PaintImageExtend(env: Env, vs: seq<Value>, s: Bytes, b: Bytes)
    requires PaintImage(env, vs, s).Next?
    ensures var r := PaintImage(env, vs, s);
      PaintImage(env, vs, s + b) == Next(r.calls, r.next, r.rest + b)
  {
    ReadStringExtend(s, ArgU32(vs, 6), b);
  }

  lemma FontExtend(env: Env, len: nat, s: Bytes, b: Bytes)
    requires Font(env, len, s).Next?
    ensures var r := Font(env, len, s);
      Font(env, len, s + b) == Next(r.calls, r.next, r.rest + b)
  {
    ReadStringExtend(s, len, b);
  }

  lemma TextExtend(len: nat, s: Bytes, b: Bytes)
    requires Text(len, s).status == Hang
    ensures Text(len, s + b) == Text(len, s)
  {
    ReadBytesExtend(s, len, b);
  }

  /** One step of a level through Exec: the opcode word, then the step, then the rest of the
    * level with the paint the step built. */
  lemma RunExecStep(t: map<u32, Op>, env: Env, code: u32, s: Bytes, p: Option<Paint>)
    requires code in t && t[code] != OpTerminate && t[code] != OpRunScript
    ensures var r := Run(t, env, U32Le(code) + s, p);
      match Exec(t[code], env, s, p)
      case Stop(status, calls) => r == RunResult(status, s, calls)
      case Next(calls, next, s2) =>
        var after := Run(t, env, s2, next);
        r == RunResult(after.status, after.rest, calls + after.calls)
  {
    ReadU32Le(code, s);
  }

  // ---------------------------------------------------------------------------
  // Properties of a run

  /** A run that ends normally (or in the text loop) depends only on the bytes it read: with
    * more bytes after the stream it does the same and leaves them unread. */
  lemma {:induction false} RunExtend(t: map<u32, Op>, env: Env, s: Bytes, b: Bytes, p: Option<Paint>)
    requires Run(t, env, s, p).status in {Done, Hang}
    ensures var r := Run(t, env, s, p);
      Run(t, env, s + b, p) == RunResult(r.status, r.rest + b, r.calls)
    decreases |s|
  {
    ReadU32Extend(s, b);
    var code, s1 := ReadU32(s).value, ReadU32(s).rest;
    if code in t && t[code] != OpTerminate {
      if t[code] == OpRunScript {
        var inner := Run(t, env, s1, None);
        RunExtend(t, env, s1, b, None);
        if inner.status == Done {
          RunExtend(t, env, inner.rest, b, None);
        }
      } else {
        ExecExtend(t[code], env, s1, b, p);
        match Exec(t[code], env, s1, p)
        case Stop(_, _) =>
        case Next(_, next, s2) =>
          RunExtend(t, env, s2, b, next);
      }
    }
  }

  /** Fewer than four bytes left: the opcode read fails and the run returns Err. */
  lemma RunShort(t: map<u32, Op>, env: Env, s: Bytes, p: Option<Paint>)
    requires |s| < 4
    ensures Run(t, env, s, p) == RunResult(Eof, s, [])
  {
  }

  /** TERMINATE ends the current level successfully, right after its word, with no call. */
  lemma TerminateEndsLevel(t: map<u32, Op>, env: Env, code: u32, rest: Bytes, p: Option<Paint>)
    requires code in t && t[code] == OpTerminate
    ensures Run(t, env, U32Le(code) + rest, p) == RunResult(Done, rest, [])
  {
    ReadU32Le(code, rest);
  }

  /** An unknown word ends the current level successfully after one log line: the fixed text
    * and the word in decimal. */
  lemma UnknownOpLogged(t: map<u32, Op>, env: Env, code: u32, rest: Bytes, p: Option<Paint>)
    requires code !in t
    ensures Run(t, env, U32Le(code) + rest, p) == RunResult(Done, rest, [Send(Puts(UnknownOpLine(code)))])
    ensures var line := UnknownOpLine(code);
      line[..27] == Ascii("!!!Unknown script command: ")
      && (forall i | 27 <= i < |line| :: IsDigit(line[i]))
      && DecimalValue(line[27..]) == code
  {
    ReadU32Le(code, rest);
    var line := UnknownOpLine(code);
    assert line[27..] == Decimal(code);
    DecimalRoundTrip(code);
  }

  /** The incoming paint matters only to a first opcode that is STROKE_PAINT or FILL_PAINT. */
  lemma PaintOnlyForNext(t: map<u32, Op>, env: Env, code: u32, rest: Bytes, p1: Option<Paint>, p2: Option<Paint>)
    requires code !in t || (t[code] != OpStrokePaint && t[code] != OpFillPaint)
    ensures Run(t, env, U32Le(code) + rest, p1) == Run(t, env, U32Le(code) + rest, p2)
  {
    ReadU32Le(code, rest);
    if code in t && t[code] != OpTerminate && t[code] != OpRunScript {
      ExecPaintIndependent(t[code], env, rest, p1, p2);
    }
  }

  /** STROKE_PAINT applies the paint the previous step built, if any, and the step after it
    * starts with no paint. */
  lemma StrokeUsesPaint(t: map<u32, Op>, env: Env, code: u32, s: Bytes, paint: Option<Paint>)
    requires code in t && t[code] == OpStrokePaint
    ensures Run(t, env, U32Le(code) + s, paint).calls
         == (if paint.Some? then [Nvg(StrokePaint(paint.value))] else []) + Run(t, env, s, None).calls
  {
    RunExecStep(t, env, code, s, paint);
    ExecStrokePaint(env, s, paint);
  }

  /** FILL_PAINT likewise, with the fill setter. */
  lemma FillUsesPaint(t: map<u32, Op>, env: Env, code: u32, s: Bytes, paint: Option<Paint>)
    requires code in t && t[code] == OpFillPaint
    ensures Run(t, env, U32Le(code) + s, paint).calls
         == (if paint.Some? then [Nvg(FillPaint(paint.value))] else []) + Run(t, env, s, None).calls
  {
    RunExecStep(t, env, code, s, paint);
    ExecFillPaint(env, s, paint);
  }

  lemma ExecFillPaint(env: Env, s: Bytes, p: Option<Paint>)
    ensures Exec(OpFillPaint, env, s, p)
         == Next(if p.Some? then [Nvg(FillPaint(p.value))] else [], None, s)
  {
    assert Layout(OpFillPaint) == [];
    assert ReadMulti([], s) == Got([], s);
    assert Gradient(OpFillPaint, []) == None;
  }

  lemma ExecStrokePaint(env: Env, s: Bytes, p: Option<Paint>)
    ensures Exec(OpStrokePaint, env, s, p)
         == Next(if p.Some? then [Nvg(StrokePaint(p.value))] else [], None, s)
  {
    assert Layout(OpStrokePaint) == [];
    assert ReadMulti([], s) == Got([], s);
    assert Gradient(OpStrokePaint, []) == None;
  }

  /** PAINT_IMAGE with a key that names no texture: one cache-miss event, and the next step
    * starts with no paint. */
  lemma ImageCacheMiss(t: map<u32, Op>, env: Env, code: u32, s: Bytes, p: Option<Paint>)
    requires code in t && t[code] == OpPaintImage
    requires ReadMulti(Layout(OpPaintImage), s).Got?
    requires var m := ReadMulti(Layout(OpPaintImage), s);
      ReadString(m.rest, ArgU32(m.value, 6)).Got? && ReadString(m.rest, ArgU32(m.value, 6)).value !in env.textures
    ensures var m := ReadMulti(Layout(OpPaintImage), s);
      var k := ReadString(m.rest, ArgU32(m.value, 6));
      Run(t, env, U32Le(code) + s, p).calls == [Send(CacheMiss(k.value))] + Run(t, env, k.rest, None).calls
  {
    RunExecStep(t, env, code, s, p);
  }

  /** FONT: a loaded name selects that font's id; an unknown name sends a font-miss event. */
  lemma FontLookup(t: map<u32, Op>, env: Env, code: u32, s: Bytes, p: Option<Paint>)
    requires code in t && t[code] == OpFont
    requires |s| >= 4 && ReadString(s[4..], ReadU32(s).value).Got?
    ensures var name := ReadString(s[4..], ReadU32(s).value);
      var first := if name.value in env.fonts then Nvg(FontFaceId(FindFont(env.fonts, name.value)))
                   else Send(FontMiss(name.value));
      Run(t, env, U32Le(code) + s, p).calls == [first] + Run(t, env, name.rest, None).calls
  {
    RunExecStep(t, env, code, s, p);
    ExecFont(env, s, p);
  }

  lemma ExecFont(env: Env, s: Bytes, p: Option<Paint>)
    requires |s| >= 4
    ensures Exec(OpFont, env, s, p) == Font(env, ReadU32(s).value, s[4..])
  {
    ReadUsizeAlone(s);
  }

  lemma ReadUsizeAlone(s: Bytes)
    requires |s| >= 4
    ensures ReadMulti(Layout(OpFont), s) == Got([UsizeV(ReadU32(s).value)], s[4..])
  {
    assert Layout(OpFont) == [UsizeT] + [];
    assert ReadType(UsizeT, s) == Got(UsizeV(ReadU32(s).value), s[4..]);
    ReadMultiCons(UsizeT, [], UsizeV(ReadU32(s).value), s[4..], s);
    assert ReadMulti([], s[4..]) == Got([], s[4..]);
    assert [UsizeV(ReadU32(s).value)] + [] == [UsizeV(ReadU32(s).value)];
  }

  /** RUN_SCRIPT reads no operand: it runs a nested level on the same stream with no paint,
    * and when that level has consumed the bytes a, the outer level goes on with the bytes
    * after them, again with no paint. */
  lemma NestedLevel(t: map<u32, Op>, env: Env, code: u32, a: Bytes, c: Bytes, p: Option<Paint>)
    requires code in t && t[code] == OpRunScript
    requires Run(t, env, a, None).status == Done && Run(t, env, a, None).rest == []
    ensures var outer := Run(t, env, c, None);
      Run(t, env, U32Le(code) + (a + c), p)
      == RunResult(outer.status, outer.rest, Run(t, env, a, None).calls + outer.calls)
  {
    RunNestedStep(t, env, code, a + c, p);
    RunExtend(t, env, a, c, None);
    assert [] + c == c;
  }

  /** One RUN_SCRIPT step: the nested level, then, if it ended normally, the rest of the outer
    * level from where the nested one stopped. */
  lemma RunNestedStep(t: map<u32, Op>, env: Env, code: u32, s: Bytes, p: Option<Paint>)
    requires code in t && t[code] == OpRunScript
    ensures var inner := Run(t, env, s, None);
      Run(t, env, U32Le(code) + s, p)
      == if inner.status != Done then inner
         else var outer := Run(t, env, inner.rest, None);
           RunResult(outer.status, outer.rest, inner.calls + outer.calls)
  {
    ReadU32Le(code, s);
  }

  /** A script holding only TERMINATE makes no call at all. */
  lemma TerminateOnlyScript(t: map<u32, Op>, env: Env, scripts: map<u32, Bytes>, id: u32)
    requires Injective(t) && OpTerminate in t.Values
    requires id in scripts && scripts[id] == U32Le(Encode(t, OpTerminate))
    ensures RunScripts(t, env, scripts, id) == Some((Done, []))
  {
    TerminateEndsLevel(t, env, Encode(t, OpTerminate), [], None);
    assert U32Le(Encode(t, OpTerminate)) + [] == U32Le(Encode(t, OpTerminate));
  }

  /** A script that ends before its outermost TERMINATE makes run_scripts panic. */
  lemma UnterminatedScriptPanics(t: map<u32, Op>, env: Env, scripts: map<u32, Bytes>, id: u32)
    requires id in scripts && Run(t, env, scripts[id], None).status == Eof
    ensures RunScripts(t, env, scripts, id).Some? && RunScripts(t, env, scripts, id).value.0 == Panic
  {
  }
}
