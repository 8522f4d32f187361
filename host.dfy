/**
 * The foreign side of the driver: nanovg, GL and GLFW. Every call the driver
 * makes into them is an entry appended to a trace, in call order; what they
 * answer (window geometry and flags, whether a font or image loads) is read
 * from a World fixed for the run. GL keeps a queue of pending error codes,
 * which check_gl_error (src/util.rs) drains into log events.
 */
module Host {
  import opened Wire
  import opened Outbound

  /** A nanovg image handle. */
  datatype Image = Image(handle: nat)

  /** The paints the PAINT_* opcodes build; a paint is applied by a later STROKE_PAINT or FILL_PAINT. */
  datatype Paint =
    | Linear(sx: F32, sy: F32, ex: F32, ey: F32, linStart: Color, linEnd: Color)
    | BoxGradient(bx: F32, by_: F32, bw: F32, bh: F32, radius: F32, feather: F32, boxStart: Color, boxEnd: Color)
    | Radial(cx: F32, cy: F32, innerRadius: F32, outerRadius: F32, radStart: Color, radEnd: Color)
    | ImagePattern(image: Image, ox: F32, oy: F32, ix: F32, iy: F32, angle: F32, alpha: F32)

  /** The value handed to nvgLineCap: a raw i32, or one of nanovg's join symbols. */
  datatype CapValue = CapRaw(raw: i32) | CapMiter | CapRound | CapBevel

  datatype Solidity = Solid | Hole

  /** The nanovg calls the driver makes. */
  datatype NvgCall =
    | Save | Restore | Reset
    | StrokePaint(sp: Paint) | FillPaint(fp: Paint)
    | ShapeAntiAlias(enabled: i32)
    | StrokeWidth(width: F32)
    | StrokeColor(strokeColor: Color)
    | FillColor(fillColor: Color)
    | MiterLimit(limit: F32)
    | LineCap(cap: CapValue)
    | GlobalAlpha(galpha: F32)
    | Scissor(scx: F32, scy: F32, scw: F32, sch: F32)
    | IntersectScissor(isx: F32, isy: F32, isw: F32, ish: F32)
    | ResetScissor
    | BeginPath
    | MoveTo(mx: F32, my: F32)
    | LineTo(lx: F32, ly: F32)
    | BezierTo(c1x: F32, c1y: F32, c2x: F32, c2y: F32, bex: F32, bey: F32)
    | QuadTo(qx1: F32, qy1: F32, qx2: F32, qy2: F32)
    | ArcTo(ax1: F32, ay1: F32, ax2: F32, ay2: F32, aradius: F32)
    | ClosePath
    | PathWinding(solidity: Solidity)
    | Fill | Stroke
    | Rect(rx: F32, ry: F32, rw: F32, rh: F32)
    | RoundedRect(rrx: F32, rry: F32, rrw: F32, rrh: F32, rrr: F32)
    | Ellipse(ecx: F32, ecy: F32, erx: F32, ery: F32)
    | Circle(ccx: F32, ccy: F32, cr: F32)
    | ArcSegments(segRadius: F32, segStart: F32, segFinish: F32)
    | TextMetrics
    | TextLayout(text: Bytes)
    | ResetTransform
    | Transform(ta: F32, tb: F32, tc: F32, td: F32, te: F32, tf: F32)
    | Translate(tx: F32, ty: F32)
    | Scale(sx: F32, sy: F32)
    | Rotate(rangle: F32)
    | SkewX(kx: F32)
    | SkewY(ky: F32)
    | FontFaceId(fontId: nat)
    | FontBlur(blur: F32)
    | FontSize(size: F32)
    | TextAlign(align: i32)
    | TextLineHeight(lineHeight: F32)
    | CreateFont(fontName: Bytes, path: Bytes)
    | CreateFontMem(memName: Bytes, data: Bytes)
    | CreateImageMem(imageData: Bytes)

  /** GL calls: the setup's clear colour as floats, and CLEAR_COLOR's four channels, each of
    * which the driver divides by 255 before the call. */
  datatype GlCall =
    | ClearColor(r: F32, g: F32, b: F32, a: F32)
    | ClearColorScaled(r255: u32, g255: u32, b255: u32, a255: u32)

  /** The GLFW event streams the setup switches on. */
  datatype PollKind =
    | FramebufferSizePolling | SizePolling | KeyPolling | CharModsPolling | CursorPosPolling
    | CursorEnterPolling | MouseButtonPolling | ScrollPolling | ClosePolling

  /** GLFW calls on the window. */
  datatype WindowCall =
    | PostEmptyEvent
    | SetSize(w: i32, h: i32)
    | SetPos(x: i32, y: i32)
    | Iconify | RestoreWindow | Show | Hide
    | SetPolling(kind: PollKind)

  /** One entry of the trace: an event written to the caller, or a foreign call. */
  datatype Effect = Send(event: Event) | Nvg(call: NvgCall) | Gl(gl: GlCall) | Glfw(window: WindowCall)

  /** What the foreign libraries answer; fixed for a run. Uploading a decoded image to GL
    * may leave error codes pending: `imageGlErrors` gives them, by image data. */
  datatype World = World(
    pos: (i32, i32), size: (i32, i32), framebufferSize: (i32, i32),
    focused: bool, resizable: bool, iconified: bool, maximized: bool, visible: bool,
    badFontFiles: set<Bytes>, badFontData: set<Bytes>, badImageData: set<Bytes>,
    imageGlErrors: map<Bytes, seq<GlError>>)

  /** The GL error codes the texture upload of these image data leaves pending. */
  function ImageGlErrors(world: World, data: Bytes): seq<GlError> {
    if data in world.imageGlErrors then world.imageGlErrors[data] else []
  }

  /** The foreign state the driver changes: the trace, GL's pending errors, the names of the
    * fonts nanovg holds (a font's id is its index) and the number of images created. */
  datatype Backend = Backend(trace: seq<Effect>, glErrors: seq<GlError>, fonts: seq<Bytes>, images: nat)

  /** A pending GL error: any code but NO_ERROR, which glGetError answers when none is pending. */
  type GlError = x: u32 | x != 0 witness 0x0500

  // ---------------------------------------------------------------------------
  // GL errors

  const GlNoError: u32 := 0
  const GlInvalidEnum: u32 := 0x0500
  const GlInvalidValue: u32 := 0x0501
  const GlInvalidOperation: u32 := 0x0502
  const GlStackOverflow: u32 := 0x0503
  const GlStackUnderflow: u32 := 0x0504
  const GlOutOfMemory: u32 := 0x0505
  const GlInvalidFramebufferOperation: u32 := 0x0506

  /** The names check_gl_error prints for the error codes it knows. */
  const GlErrorNames: seq<(u32, string)> := [
    (GlInvalidEnum, "INVALID_ENUM"), (GlInvalidValue, "INVALID_VALUE"),
    (GlInvalidOperation, "INVALID_OPERATION"), (GlOutOfMemory, "OUT_OF_MEMORY"),
    (GlStackUnderflow, "STACK_UNDERFLOW"), (GlStackOverflow, "STACK_OVERFLOW"),
    (GlInvalidFramebufferOperation, "INVALID_FRAMEBUFFER_OPERATION")]

  /** The name the first entry of a table with this code gives it, if any. */
  function NameOf(table: seq<(u32, string)>, err: u32): (r: Option<string>)
    ensures r.None? ==> forall i | 0 <= i < |table| :: table[i].0 != err
    ensures r.Some? ==> exists i | 0 <= i < |table| ::
      table[i] == (err, r.value) && forall j | 0 <= j < i :: table[j].0 != err
    decreases |table|
  {
    if table == [] then None
    else if table[0].0 == err then Some(table[0].1)
    else
      var r := NameOf(table[1..], err);
      assert r.Some? ==> exists i | 0 <= i < |table| ::
        table[i] == (err, r.value) && forall j | 0 <= j < i :: table[j].0 != err
      by {
        if r.Some? {
          var k :| 0 <= k < |table[1..]| && table[1..][k] == (err, r.value)
            && forall j | 0 <= j < k :: table[1..][j].0 != err;
          forall j | 0 <= j < k + 1
            ensures table[j].0 != err
          {
            if j > 0 { assert table[j] == table[1..][j - 1]; }
          }
          assert table[k + 1] == (err, r.value);
        }
      }
      r
  }

  /** What check_gl_error prints after the message: a space and the error's name, or
    * " GL_OTHER: " and the code in decimal. */
  function GlErrorSuffix(err: u32): Bytes {
    match NameOf(GlErrorNames, err)
    case Some(name) => Ascii(" " + name)
    case None => Ascii(" GL_OTHER: ") + Decimal(err)
  }

  /** The log line for one pending error: the message, then the suffix. */
  function GlErrorLine(msg: Bytes, err: u32): Bytes {
    msg + GlErrorSuffix(err)
  }

  /** Every line begins with the message and a space. */
  lemma GlErrorLineShape(msg: Bytes, err: u32)
    ensures var line := GlErrorLine(msg, err);
      |line| > |msg| + 1 && line[..|msg|] == msg && line[|msg|] == 0x20
  {
    var suffix := GlErrorSuffix(err);
    assert GlErrorLine(msg, err)[..|msg|] == msg;
    match NameOf(GlErrorNames, err)
    case Some(name) =>
      assert suffix == Ascii(" " + name);
      assert (" " + name)[0] == ' ';
    case None =>
      assert suffix == Ascii(" GL_OTHER: ") + Decimal(err);
  }

  /** The log events check_gl_error emits for the pending codes: one per code, in order;
    * after the last one glGetError answers NO_ERROR and the loop returns. */
  function GlErrorLog(msg: Bytes, errs: seq<GlError>): (log: seq<Effect>)
    ensures |log| == |errs|
  {
    seq(|errs|, i requires 0 <= i < |errs| => Send(Puts(GlErrorLine(msg, errs[i]))))
  }

  /** check_gl_error on the backend state: the queue is drained into the trace. */
  function CheckGl(b: Backend, msg: Bytes): Backend {
    b.(trace := b.trace + GlErrorLog(msg, b.glErrors), glErrors := [])
  }

  /** A code check_gl_error has no name for is logged as " GL_OTHER: " and its decimal spelling. */
  lemma GlOtherLine(msg: Bytes, err: u32)
    requires err < GlInvalidEnum || err > GlInvalidFramebufferOperation
    ensures var line := GlErrorLine(msg, err);
      line[..|msg| + 11] == msg + Ascii(" GL_OTHER: ")
      && (forall i | |msg| + 11 <= i < |line| :: IsDigit(line[i]))
      && DecimalValue(line[|msg| + 11..]) == err
  {
    var line := GlErrorLine(msg, err);
    UnnamedSuffix(err);
    assert line == (msg + Ascii(" GL_OTHER: ")) + Decimal(err);
    assert line[|msg| + 11..] == Decimal(err);
    DecimalRoundTrip(err);
  }

  /** A code outside 0x500-0x506 has no name, so its suffix is the GL_OTHER form. */
  lemma UnnamedSuffix(err: u32)
    requires err < GlInvalidEnum || err > GlInvalidFramebufferOperation
    ensures GlErrorSuffix(err) == Ascii(" GL_OTHER: ") + Decimal(err)
  {
    assert forall i | 0 <= i < |GlErrorNames| :: GlInvalidEnum <= GlErrorNames[i].0 <= GlInvalidFramebufferOperation;
  }

  /** Appending one code to the queue appends its line to the log. */
  lemma GlErrorLogSnoc(msg: Bytes, done: seq<GlError>, err: GlError)
    ensures GlErrorLog(msg, done + [err]) == GlErrorLog(msg, done) + GlErrorLog(msg, [err])
  {
    var l, r := GlErrorLog(msg, done + [err]), GlErrorLog(msg, done) + GlErrorLog(msg, [err]);
    forall i | 0 <= i < |l| ensures l[i] == r[i] {
      if i < |done| {
        assert (done + [err])[i] == done[i];
      } else {
        assert (done + [err])[i] == err;
      }
    }
  }

  // ---------------------------------------------------------------------------
  // Fonts

  /** nvgFindFont: the id (index) of the first font with this name, or -1. */
  function FindFont(fonts: seq<Bytes>, name: Bytes): (id: int)
    ensures id == -1 <==> name !in fonts
    ensures id >= 0 ==> id < |fonts| && fonts[id] == name && name !in fonts[..id]
    decreases |fonts|
  {
    if fonts == [] then -1
    else if fonts[0] == name then 0
    else
      var r := FindFont(fonts[1..], name);
      if r < 0 then -1
      else
        assert fonts[..r + 1] == [fonts[0]] + fonts[1..][..r];
        r + 1
  }

  // ---------------------------------------------------------------------------
  // The backend as an object

  /** The foreign libraries as the driver sees them: every call appends to the trace. */
  class Host {
    const world: World
    var trace: seq<Effect>
    var glErrors: seq<GlError>
    var fonts: seq<Bytes>
    var images: nat

    function State(): Backend
      reads this
    {
      Backend(trace, glErrors, fonts, images)
    }

    constructor(world: World, glErrors: seq<GlError>)
      ensures this.world == world
      ensures State() == Backend([], glErrors, [], 0)
    {
      this.world := world;
      this.trace := [];
      this.glErrors := glErrors;
      this.fonts := [];
      this.images := 0;
    }

    /** A call with no answer: the entry is appended to the trace and nothing else changes. */
    method Call(e: Effect)
      modifies this
      ensures State() == old(State()).(trace := old(trace) + [e])
    {
      trace := trace + [e];
    }

    /** write_cmd of an event's payload. */
    method WriteCmd(e: Event)
      modifies this
      ensures State() == old(State()).(trace := old(trace) + [Send(e)])
    {
      trace := trace + [Send(e)];
    }

    /** glGetError: the oldest pending code, removed from the queue; NO_ERROR when none is pending. */
    method GetError() returns (err: u32)
      modifies this
      ensures old(glErrors) == [] ==> err == GlNoError && glErrors == []
      ensures old(glErrors) != [] ==> err == old(glErrors)[0] && glErrors == old(glErrors)[1..]
      ensures trace == old(trace) && fonts == old(fonts) && images == old(images)
    {
      if glErrors == [] {
        err := GlNoError;
      } else {
        err := glErrors[0];
        glErrors := glErrors[1..];
      }
    }

    /** check_gl_error: read codes until NO_ERROR, logging one line per code. */
    method CheckGlError(msg: Bytes)
      modifies this
      ensures trace == old(trace) + GlErrorLog(msg, old(glErrors)) && glErrors == []
      ensures fonts == old(fonts) && images == old(images)
      ensures State() == CheckGl(old(State()), msg)
    {
      ghost var done: seq<GlError> := [];
      while true
        invariant old(glErrors) == done + glErrors
        invariant trace == old(trace) + GlErrorLog(msg, done)
        invariant fonts == old(fonts) && images == old(images)
        decreases |glErrors|
      {
        var err := GetError();
        if err == GlNoError {
          assert done == old(glErrors);
          return;
        }
        var line := ErrorLine(msg, err);
        GlErrorLogSnoc(msg, done, err);
        WriteCmd(Puts(line));
        done := done + [err];
      }
    }

    /** The text check_gl_error prints for one code, kept apart so that the loop above reasons
      * about log entries rather than about the name table. */
    static method ErrorLine(msg: Bytes, err: GlError) returns (line: Bytes)
      ensures GlErrorLog(msg, [err]) == [Send(Puts(line))]
    {
      line := GlErrorLine(msg, err);
    }

    /** nanovg's font lookup by name. */
    function FontId(name: Bytes): int
      reads this
    {
      FindFont(fonts, name)
    }

    /** Font::from_file: the call is traced; a file that does not load makes the result
      * an error, which the driver unwraps (ok false). */
    method CreateFontFile(name: Bytes, path: Bytes) returns (ok: bool)
      modifies this
      ensures ok <==> path !in world.badFontFiles
      ensures State() == CreateFontFileB(world, old(State()), name, path).1
    {
      trace := trace + [Nvg(CreateFont(name, path))];
      ok := path !in world.badFontFiles;
      if ok {
        fonts := fonts + [name];
      }
    }

    /** Font::from_memory, likewise, with the font's bytes. */
    method CreateFontMemory(name: Bytes, data: Bytes) returns (ok: bool)
      modifies this
      ensures ok <==> data !in world.badFontData
      ensures State() == CreateFontMemB(world, old(State()), name, data).1
    {
      trace := trace + [Nvg(CreateFontMem(name, data))];
      ok := data !in world.badFontData;
      if ok {
        fonts := fonts + [name];
      }
    }

    /** Image::build_from_memory: a fresh image handle, or failure for data that does not
      * decode. Data that decodes is uploaded as a texture, which may queue GL errors. */
    method CreateImage(data: Bytes) returns (r: Option<Image>)
      modifies this
      ensures r == CreateImageB(world, old(State()), data).0
      ensures State() == CreateImageB(world, old(State()), data).1
      ensures r.Some? ==> r.value.handle == old(images)
    {
      trace := trace + [Nvg(CreateImageMem(data))];
      if data in world.badImageData {
        r := None;
      } else {
        r := Some(Image(images));
        images := images + 1;
        glErrors := glErrors + ImageGlErrors(world, data);
      }
    }
  }

  /** The backend after a font file load is attempted, and whether it succeeded. */
  function CreateFontFileB(world: World, b: Backend, name: Bytes, path: Bytes): (r: (bool, Backend))
    ensures r.0 <==> path !in world.badFontFiles
    ensures r.1.trace == b.trace + [Nvg(CreateFont(name, path))] && r.1.glErrors == b.glErrors
    ensures r.1.fonts == if r.0 then b.fonts + [name] else b.fonts
    ensures r.1.images == b.images
  {
    var ok := path !in world.badFontFiles;
    (ok, b.(trace := b.trace + [Nvg(CreateFont(name, path))], fonts := if ok then b.fonts + [name] else b.fonts))
  }

  function CreateFontMemB(world: World, b: Backend, name: Bytes, data: Bytes): (r: (bool, Backend))
    ensures r.0 <==> data !in world.badFontData
    ensures r.1.trace == b.trace + [Nvg(CreateFontMem(name, data))] && r.1.glErrors == b.glErrors
    ensures r.1.fonts == if r.0 then b.fonts + [name] else b.fonts
    ensures r.1.images == b.images
  {
    var ok := data !in world.badFontData;
    (ok, b.(trace := b.trace + [Nvg(CreateFontMem(name, data))], fonts := if ok then b.fonts + [name] else b.fonts))
  }

  /** The backend after an image decode is attempted, and the new image if it succeeded. */
  function CreateImageB(world: World, b: Backend, data: Bytes): (r: (Option<Image>, Backend))
    ensures r.0.Some? <==> data !in world.badImageData
    ensures r.0.Some? ==> r.0.value == Image(b.images) && r.1.images == b.images + 1
    ensures r.0.Some? ==> r.1.glErrors == b.glErrors + ImageGlErrors(world, data)
    ensures r.0.None? ==> r.1.images == b.images && r.1.glErrors == b.glErrors
    ensures r.1.trace == b.trace + [Nvg(CreateImageMem(data))]
    ensures r.1.fonts == b.fonts
  {
    var t := b.trace + [Nvg(CreateImageMem(data))];
    if data in world.badImageData then (None, b.(trace := t))
    else (Some(Image(b.images)), b.(trace := t, images := b.images + 1,
                                     glErrors := b.glErrors + ImageGlErrors(world, data)))
  }
}
