/**
 * The command side of the driver (src/comms.rs): dispatch_message, its
 * receive_* handlers and handle_stdio_in.
 *
 * The handlers are specified twice: once as functions over a snapshot of the
 * driver's state (Sys), and once as methods over the objects the driver
 * really mutates (WindowData, Context and the foreign Host), each proved to
 * do what its function says. The properties of the dispatcher are lemmas
 * about the functions.
 */
module Comms {
  import opened Wire
  import opened Defines
  import opened Outbound
  import opened Host
  import opened Types

  /** Everything a command can change: the window record, the textures and the foreign side. */
  datatype Sys = Sys(w: WindowState, textures: map<Bytes, Image>, b: Backend)

  /** How a step ends: the process goes on, panics on an unwrap, or exits with a status. */
  datatype Halt = Running | Panicked | Exited(status: int)

  /** A handler's outcome: how it ended, the new state and the unread bytes of the message. */
  datatype Handled = Handled(halt: Halt, sys: Sys, rest: Bytes)

  /** dispatch_message's outcome: how it ended, the render flag it returns and the new state. */
  datatype Dispatched = Dispatched(halt: Halt, render: bool, sys: Sys)

  /** The state after some foreign calls or events, appended to the trace in order. */
  function Emit(s: Sys, es: seq<Effect>): Sys {
    s.(b := s.b.(trace := s.b.trace + es))
  }

  function Snap(wd: WindowData, ctx: Context, host: Host): Sys
    reads wd, ctx, host
  {
    Sys(wd.State(), ctx.textures, host.State())
  }

  /** The text check_gl_error is given before every command. */
  const StartingError: Bytes := Ascii("starting error: ")

  /** The log line receive_crash writes before it exits. */
  const CrashLine: Bytes := Ascii("receive_crash - exit")

  /** The log line for a code no branch handles: the text and the code as "{:#X}" prints it. */
  function UnknownMessageLine(code: u32): Bytes {
    Ascii("Unknown message: ") + AlternateUpperHex(code)
  }

  /** The commands whose branch sets the render flag. */
  predicate Renders(code: u32) {
    code in {CmdRenderGraph, CmdClearGraph, CmdSetRoot, CmdClearColor,
             CmdLoadFontFile, CmdLoadFontBlob, CmdPutTxBlob}
  }

  /** The commands dispatch_message has a branch for; every other code, including the
    * defined ones whose branch is commented out, goes to the unknown-message arm. */
  predicate HasBranch(code: u32) {
    code in {CmdQuit, CmdRenderGraph, CmdClearGraph, CmdSetRoot, CmdClearColor, CmdInput,
             CmdQueryStats, CmdReshape, CmdPosition, CmdIconify, CmdRestore, CmdShow, CmdHide,
             CmdLoadFontFile, CmdLoadFontBlob, CmdPutTxBlob, CmdFreeTxId, CmdCrash}
  }

  /** Two native u32s read in turn, as read_multi! of two 4-byte types does. */
  function ReadPair(s: Bytes): (r: Read<(u32, u32)>)
    ensures r.Got? <==> |s| >= 8
    ensures r.Got? ==> r.rest == s[8..]
  {
    match ReadU32(s)
    case Fail(f) => Fail(f)
    case Got(a, s1) =>
      match ReadU32(s1)
      case Fail(f) => Fail(f)
      case Got(b, s2) => Got((a, b), s2)
  }

  lemma ReadPairLe(a: u32, b: u32, rest: Bytes)
    ensures ReadPair(U32Le(a) + U32Le(b) + rest) == Got((a, b), rest)
  {
    ReadU32Le(a, U32Le(b) + rest);
    assert U32Le(a) + U32Le(b) + rest == U32Le(a) + (U32Le(b) + rest);
    ReadU32Le(b, rest);
  }

  // ---------------------------------------------------------------------------
  // The handlers, as functions of the state

  /** receive_render: the id, then the whole rest of the message is the script. */
  function OnRender(s: Sys, cur: Bytes): Handled {
    match ReadU32(cur)
    case Fail(_) => Handled(Panicked, s, cur)
    case Got(id, script) =>
      Handled(Running, Emit(s.(w := s.w.(scripts := s.w.scripts[id := script])),
                            [Send(DrawReady(id)), Glfw(PostEmptyEvent)]), [])
  }

  /** receive_clear: the id's script is deleted. */
  function OnClear(s: Sys, cur: Bytes): Handled {
    match ReadU32(cur)
    case Fail(_) => Handled(Panicked, s, cur)
    case Got(id, rest) => Handled(Running, s.(w := s.w.(scripts := s.w.scripts - {id})), rest)
  }

  /** receive_set_root: a signed id becomes the root script. */
  function OnSetRoot(s: Sys, cur: Bytes): Handled {
    match ReadU32(cur)
    case Fail(_) => Handled(Panicked, s, cur)
    case Got(u, rest) =>
      Handled(Running, Emit(s.(w := s.w.(rootScript := I32OfBits(u))), [Glfw(PostEmptyEvent)]), rest)
  }

  /** receive_clear_color: four u32 channels, handed to glClearColor. */
  function OnClearColor(s: Sys, cur: Bytes): Handled {
    match ReadPair(cur)
    case Fail(_) => Handled(Panicked, s, cur)
    case Got(rg, s1) =>
      match ReadPair(s1)
      case Fail(_) => Handled(Panicked, s, cur)
      case Got(ba, rest) =>
        Handled(Running, Emit(s, [Gl(ClearColorScaled(rg.0, rg.1, ba.0, ba.1))]), rest)
  }

  /** receive_input: the flags replace the window's input flags. */
  function OnInput(s: Sys, cur: Bytes): Handled {
    match ReadU32(cur)
    case Fail(_) => Handled(Panicked, s, cur)
    case Got(flags, rest) => Handled(Running, s.(w := s.w.(inputFlags := flags)), rest)
  }

  /** The statistics event receive_query_stats sends: the input flags and what the window reports. */
  function StatsOf(world: World, w: WindowState): Event {
    Stats(w.inputFlags, world.pos.0, world.pos.1, world.size.0, world.size.1,
          world.focused, world.resizable, world.iconified, world.maximized, world.visible)
  }

  /** receive_query_stats: reads nothing and sends the statistics. */
  function OnQueryStats(world: World, s: Sys, cur: Bytes): Handled {
    Handled(Running, Emit(s, [Send(StatsOf(world, s.w))]), cur)
  }

  /** receive_reshape and receive_position: two i32s handed to the window. */
  function OnWindowPair(s: Sys, cur: Bytes, resize: bool): Handled {
    match ReadPair(cur)
    case Fail(_) => Handled(Panicked, s, cur)
    case Got(p, rest) =>
      var x, y := I32OfBits(p.0), I32OfBits(p.1);
      Handled(Running, Emit(s, [Glfw(if resize then SetSize(x, y) else SetPos(x, y))]), rest)
  }

  /** The two lengths, then the name as a string, then the second field read by `second`:
    * a string for a font path, raw bytes for font or image data. */
  function ReadNamed(cur: Bytes, secondIsString: bool): Read<(Bytes, Bytes)> {
    match ReadPair(cur)
    case Fail(f) => Fail(f)
    case Got(lens, s1) =>
      match ReadString(s1, lens.0)
      case Fail(f) => Fail(f)
      case Got(name, s2) =>
        match (if secondIsString then ReadString(s2, lens.1) else ReadBytes(s2, lens.1))
        case Fail(f) => Fail(f)
        case Got(second, rest) => Got((name, second), rest)
  }

  /** receive_load_font_file and receive_load_font_blob: a font nanovg already holds under the
    * name is kept; otherwise it is created, and a failed creation is unwrapped. */
  function OnLoadFont(world: World, s: Sys, cur: Bytes, fromFile: bool): Handled {
    match ReadNamed(cur, fromFile)
    case Fail(_) => Handled(Panicked, s, cur)
    case Got(nd, rest) =>
      if FindFont(s.b.fonts, nd.0) >= 0 then Handled(Running, s, rest)
      else
        var r := if fromFile then CreateFontFileB(world, s.b, nd.0, nd.1)
                 else CreateFontMemB(world, s.b, nd.0, nd.1);
        Handled(if r.0 then Running else Panicked, s.(b := r.1), rest)
  }

  /** receive_put_tx_blob: the image is decoded and stored under the name. */
  function OnPutTxBlob(world: World, s: Sys, cur: Bytes): Handled {
    match ReadNamed(cur, false)
    case Fail(_) => Handled(Panicked, s, cur)
    case Got(nd, rest) =>
      var r := CreateImageB(world, s.b, nd.1);
      if r.0.None? then Handled(Panicked, s.(b := r.1), rest)
      else Handled(Running, s.(textures := s.textures[nd.0 := r.0.value], b := r.1), rest)
  }

  /** receive_free_tx_id: a length, then the name whose texture is removed. */
  function OnFreeTx(s: Sys, cur: Bytes): Handled {
    match ReadU32(cur)
    case Fail(_) => Handled(Panicked, s, cur)
    case Got(len, s1) =>
      match ReadString(s1, len)
      case Fail(_) => Handled(Panicked, s, cur)
      case Got(name, rest) => Handled(Running, s.(textures := s.textures - {name}), rest)
  }

  /** The branch of dispatch_message for a code other than QUIT. */
  function Handle(world: World, s: Sys, code: u32, cur: Bytes): Handled {
    if code == CmdRenderGraph then OnRender(s, cur)
    else if code == CmdClearGraph then OnClear(s, cur)
    else if code == CmdSetRoot then OnSetRoot(s, cur)
    else if code == CmdClearColor then OnClearColor(s, cur)
    else if code == CmdInput then OnInput(s, cur)
    else if code == CmdQueryStats then OnQueryStats(world, s, cur)
    else if code == CmdReshape then OnWindowPair(s, cur, true)
    else if code == CmdPosition then OnWindowPair(s, cur, false)
    else if code == CmdIconify then Handled(Running, Emit(s, [Glfw(Iconify)]), cur)
    else if code == CmdRestore then Handled(Running, Emit(s, [Glfw(RestoreWindow)]), cur)
    else if code == CmdShow then Handled(Running, Emit(s, [Glfw(Show)]), cur)
    else if code == CmdHide then Handled(Running, Emit(s, [Glfw(Hide)]), cur)
    else if code == CmdLoadFontFile then OnLoadFont(world, s, cur, true)
    else if code == CmdLoadFontBlob then OnLoadFont(world, s, cur, false)
    else if code == CmdPutTxBlob then OnPutTxBlob(world, s, cur)
    else if code == CmdFreeTxId then OnFreeTx(s, cur)
    else if code == CmdCrash then Handled(Exited(1), Emit(s, [Send(Puts(CrashLine))]), cur)
    else Handled(Running, Emit(s, [Send(Puts(UnknownMessageLine(code)))]), cur)
  }

  /** The state once the starting check_gl_error has run: every pending code logged. */
  function Started(s: Sys): (r: Sys)
    ensures r.w == s.w && r.textures == s.textures && r.b.glErrors == []
    ensures r.b.trace == s.b.trace + GlErrorLog(StartingError, s.b.glErrors)
  {
    s.(b := CheckGl(s.b, StartingError))
  }

  /** dispatch_message: the command code (unwrapped), the starting GL error check, the branch,
    * and, unless the command was QUIT, the leftover check: the unread bytes are read as a
    * string (unwrapped, so bytes that are not UTF-8 panic) and, when there are any, handed to
    * check_gl_error as its message. */
  function Dispatch(world: World, s: Sys, msg: Bytes): Dispatched {
    match ReadU32(msg)
    case Fail(_) => Dispatched(Panicked, false, s)
    case Got(code, cur) => Command(world, s, code, cur)
  }

  /** dispatch_message once the command code has been read, with `cur` the bytes after it. */
  function Command(world: World, s: Sys, code: u32, cur: Bytes): Dispatched {
    var s1 := Started(s);
    if code == CmdQuit then
      Dispatched(Running, false, Emit(s1.(w := s1.w.(keepGoing := false)), [Glfw(PostEmptyEvent)]))
    else
      var h := Handle(world, s1, code, cur);
      if h.halt != Running then Dispatched(h.halt, false, h.sys)
      else if !IsUtf8(h.rest) then Dispatched(Panicked, false, h.sys)
      else if h.rest == [] then Dispatched(Running, Renders(code), h.sys)
      else Dispatched(Running, Renders(code), h.sys.(b := CheckGl(h.sys.b, h.rest)))
  }

  /** A message is its code in native byte order followed by the operands: dispatching it is
    * the command with those operands. */
  lemma DispatchCommand(world: World, s: Sys, code: u32, cur: Bytes)
    ensures Dispatch(world, s, U32Le(code) + cur) == Command(world, s, code, cur)
  {
    ReadU32Le(code, cur);
  }

  /** The outcome of handle_stdio_in. */
  datatype Drained = Drained(halt: Halt, redraw: bool, sys: Sys, left: seq<Bytes>)

  /** dispatch_message for a fixed world, as the step handle_stdio_in repeats. */
  function Dispatcher(world: World): (Sys, Bytes) -> Dispatched {
    (s, msg) => Dispatch(world, s, msg)
  }

  /** handle_stdio_in with `budget` standing for the time left: queued messages are handed to
    * `step` oldest first while budget remains, every flag is ORed into `redraw`, and a
    * message that ends the process ends the loop. */
  function Drain(step: (Sys, Bytes) -> Dispatched, s: Sys, queue: seq<Bytes>, budget: nat, redraw: bool): Drained
    decreases budget
  {
    if budget == 0 || queue == [] then Drained(Running, redraw, s, queue)
    else
      var d := step(s, queue[0]);
      if d.halt != Running then Drained(d.halt, redraw, d.sys, queue[1..])
      else Drain(step, d.sys, queue[1..], budget - 1, d.render || redraw)
  }


  // ---------------------------------------------------------------------------
  // Properties of dispatch_message

  /** A message too short to hold a command code panics before anything is done. */
  lemma ShortMessagePanics(world: World, s: Sys, msg: Bytes)
    requires |msg| < 4
    ensures Dispatch(world, s, msg) == Dispatched(Panicked, false, s)
  {
  }

  /** When dispatch returns, its flag is true exactly for RENDER_GRAPH, CLEAR_GRAPH, SET_ROOT,
    * CLEAR_COLOR, LOAD_FONT_FILE, LOAD_FONT_BLOB and PUT_TX_BLOB. */
  lemma RenderFlag(world: World, s: Sys, code: u32, cur: Bytes)
    ensures var d := Command(world, s, code, cur);
      d.halt == Running ==>
        (d.render <==> code in {CmdRenderGraph, CmdClearGraph, CmdSetRoot, CmdClearColor,
                                CmdLoadFontFile, CmdLoadFontBlob, CmdPutTxBlob})
  {
  }

  /** Every command but QUIT and CRASH either returns or panics; only CRASH exits, with status 1. */
  lemma OnlyCrashExits(world: World, s: Sys, code: u32, cur: Bytes)
    ensures var d := Command(world, s, code, cur);
      d.halt.Exited? <==> code == CmdCrash
  {
  }

  /** QUIT clears keep_going and wakes the event loop, returns false, and skips the leftover
    * check: whatever follows the code is ignored, even bytes that are not UTF-8. */
  lemma QuitStops(world: World, s: Sys, rest: Bytes)
    ensures var d := Command(world, s, CmdQuit, rest);
      d.halt == Running && !d.render
      && d.sys.w == s.w.(keepGoing := false) && d.sys.textures == s.textures
      && d.sys.b == Started(s).b.(trace := Started(s).b.trace + [Glfw(PostEmptyEvent)])
  {
  }

  /** RENDER_GRAPH stores everything after the id as that id's script, replacing any earlier
    * one, answers draw_ready(id), wakes the event loop and asks for a render. */
  lemma RenderGraphStores(world: World, s: Sys, id: u32, script: Bytes)
    ensures var d := Command(world, s, CmdRenderGraph, U32Le(id) + script);
      d.halt == Running && d.render
      && d.sys.w == s.w.(scripts := s.w.scripts[id := script]) && d.sys.textures == s.textures
      && d.sys.b == Started(s).b.(trace := Started(s).b.trace + [Send(DrawReady(id)), Glfw(PostEmptyEvent)])
  {
    assert U32Le(CmdRenderGraph) + U32Le(id) + script == U32Le(CmdRenderGraph) + (U32Le(id) + script);
    ReadU32Le(id, script);
  }

  /** CLEAR_GRAPH removes the id's script, if any, and asks for a render. */
  lemma ClearGraphRemoves(world: World, s: Sys, id: u32)
    ensures var d := Command(world, s, CmdClearGraph, U32Le(id));
      d.halt == Running && d.render
      && d.sys.w == s.w.(scripts := s.w.scripts - {id}) && d.sys.textures == s.textures
      && d.sys.b == Started(s).b
  {
    ReadU32Le(id, []);
    assert U32Le(id) + [] == U32Le(id);
  }

  /** SET_ROOT stores the id as a signed number (so -1 clears the root) and asks for a render. */
  lemma SetRootSigned(world: World, s: Sys, root: i32)
    ensures var d := Command(world, s, CmdSetRoot, U32Le(BitsOfI32(root)));
      d.halt == Running && d.render
      && d.sys.w == s.w.(rootScript := root) && d.sys.textures == s.textures
      && d.sys.b == Started(s).b.(trace := Started(s).b.trace + [Glfw(PostEmptyEvent)])
  {
    ReadU32Le(BitsOfI32(root), []);
    assert U32Le(BitsOfI32(root)) + [] == U32Le(BitsOfI32(root));
  }

  /** INPUT replaces the input flags. Bytes after the flags go through the leftover check:
    * UTF-8 bytes are handed to check_gl_error, which finds no error pending (the starting check
    * drained the queue), and anything else panics. */
  lemma InputReplaces(world: World, s: Sys, flags: u32, extra: Bytes)
    ensures var d := Command(world, s, CmdInput, U32Le(flags) + extra);
      (IsUtf8(extra) ==>
        d.halt == Running && !d.render
        && d.sys.w == s.w.(inputFlags := flags) && d.sys.textures == s.textures
        && d.sys.b == Started(s).b)
      && (!IsUtf8(extra) ==> d.halt == Panicked)
  {
    assert U32Le(CmdInput) + U32Le(flags) + extra == U32Le(CmdInput) + (U32Le(flags) + extra);
    ReadU32Le(flags, extra);
    var b := Started(s).b;
    assert GlErrorLog(extra, []) == [];
    assert b.(trace := b.trace + []) == b;
  }

  /** QUERY_STATS sends one statistics event: the input flags, then the position, size and
    * flags the window reports; it changes nothing else. */
  lemma QueryStatsReports(world: World, s: Sys)
    ensures var d := Command(world, s, CmdQueryStats, []);
      var e := Stats(s.w.inputFlags, world.pos.0, world.pos.1, world.size.0, world.size.1,
                     world.focused, world.resizable, world.iconified, world.maximized, world.visible);
      d.halt == Running && !d.render && d.sys.w == s.w && d.sys.textures == s.textures
      && d.sys.b == Started(s).b.(trace := Started(s).b.trace + [Send(e)])
      && Payload(e)[4..8] == U32Le(s.w.inputFlags)
  {
    assert U32Le(CmdQueryStats) + [] == U32Le(CmdQueryStats);
    StatsLayout(s.w.inputFlags, world.pos.0, world.pos.1, world.size.0, world.size.1,
                world.focused, world.resizable, world.iconified, world.maximized, world.visible);
  }

  /** CRASH logs "receive_crash - exit" and exits with status 1. */
  lemma CrashExits(world: World, s: Sys, rest: Bytes)
    ensures var d := Command(world, s, CmdCrash, rest);
      d.halt == Exited(1) && d.sys.w == s.w && d.sys.textures == s.textures
      && d.sys.b == Started(s).b.(trace := Started(s).b.trace + [Send(Puts(CrashLine))])
  {
  }

  /** A code with no branch logs one line, changes no other state and returns false. */
  lemma UnknownCommandLogged(world: World, s: Sys, code: u32)
    requires !HasBranch(code)
    ensures var d := Command(world, s, code, []);
      d.halt == Running && !d.render && d.sys.w == s.w && d.sys.textures == s.textures
      && d.sys.b == Started(s).b.(trace := Started(s).b.trace + [Send(Puts(UnknownMessageLine(code)))])
  {
  }

  /** The line is "Unknown message: " and the code in "{:#X}" form: 0x, then upper-case hex
    * digits that spell the code. */
  lemma UnknownMessageLineShape(code: u32)
    ensures var line := UnknownMessageLine(code);
      line[..17] == Ascii("Unknown message: ") && line[17..19] == Ascii("0x")
      && (forall i | 19 <= i < |line| :: IsUpperHex(line[i]))
      && HexValue(line[19..]) == code
  {
    var line := UnknownMessageLine(code);
    var hex := AlternateUpperHex(code);
    assert line[17..] == hex;
    assert line[17..19] == hex[..2];
    assert line[19..] == hex[2..];
  }

  /** PUT_TX_BLOB whose operands read as a name and image data with nothing after them: data
    * that decodes is stored under the name as a fresh image, its upload's GL errors stay
    * pending, and a render is asked for; data that does not decode panics. Either way nanovg
    * was asked to decode it. */
  lemma PutTxBlobStores(world: World, s: Sys, cur: Bytes, name: Bytes, data: Bytes)
    requires ReadNamed(cur, false) == Got((name, data), [])
    ensures Command(world, s, CmdPutTxBlob, cur) ==
      var t := Started(s).b.trace + [Nvg(CreateImageMem(data))];
      if data in world.badImageData then
        Dispatched(Panicked, false, Started(s).(b := Started(s).b.(trace := t)))
      else
        Dispatched(Running, true, Started(s).(textures := s.textures[name := Image(s.b.images)],
                                              b := Started(s).b.(trace := t, images := s.b.images + 1,
                                                                 glErrors := ImageGlErrors(world, data))))
  {
  }

  /** PUT_TX_BLOB with UTF-8 bytes after its operands: the GL errors of the upload are logged
    * by the leftover check, each under those bytes, and the queue ends empty. */
  lemma PutTxBlobLeftoverLogs(world: World, s: Sys, cur: Bytes, name: Bytes, data: Bytes, extra: Bytes)
    requires ReadNamed(cur, false) == Got((name, data), extra)
    requires data !in world.badImageData && extra != [] && IsUtf8(extra)
    ensures var d := Command(world, s, CmdPutTxBlob, cur);
      d.halt == Running && d.render
      && d.sys.w == s.w && d.sys.textures == s.textures[name := Image(s.b.images)]
      && d.sys.b.trace == Started(s).b.trace + [Nvg(CreateImageMem(data))]
                          + GlErrorLog(extra, ImageGlErrors(world, data))
      && d.sys.b.glErrors == []
  {
  }

  /** Every command but QUIT ends with the leftover check: once its branch returns with bytes L
    * unread, bytes that are not UTF-8 panic; otherwise, when there are any, every GL error the
    * branch left pending is logged under L and the queue is emptied. */
  lemma LeftoverChecked(world: World, s: Sys, code: u32, cur: Bytes)
    requires code != CmdQuit
    ensures var h := Handle(world, Started(s), code, cur);
      var d := Command(world, s, code, cur);
      h.halt == Running ==>
        if !IsUtf8(h.rest) then d == Dispatched(Panicked, false, h.sys)
        else if h.rest == [] then d == Dispatched(Running, Renders(code), h.sys)
        else d == Dispatched(Running, Renders(code),
                   h.sys.(b := h.sys.b.(trace := h.sys.b.trace + GlErrorLog(h.rest, h.sys.b.glErrors),
                                        glErrors := [])))
  {
  }

  /** Only PUT_TX_BLOB's branch can leave a GL error pending: after every other branch the queue
    * is as empty as the starting check left it, so UTF-8 leftover bytes log nothing and change
    * nothing. */
  lemma LeftoverSilent(world: World, s: Sys, code: u32, cur: Bytes)
    requires code != CmdQuit && code != CmdPutTxBlob
    ensures Handle(world, Started(s), code, cur).sys.b.glErrors == []
    ensures var h := Handle(world, Started(s), code, cur);
      h.halt == Running && IsUtf8(h.rest) ==>
        Command(world, s, code, cur) == Dispatched(Running, Renders(code), h.sys)
  {
    var h := Handle(world, Started(s), code, cur);
    HandleKeepsGlErrors(world, Started(s), code, cur);
    assert GlErrorLog(h.rest, []) == [];
    assert h.sys.b.(trace := h.sys.b.trace + [], glErrors := []) == h.sys.b;
  }

  /** No branch but PUT_TX_BLOB's changes the queue of pending GL errors. */
  lemma HandleKeepsGlErrors(world: World, s: Sys, code: u32, cur: Bytes)
    requires code != CmdPutTxBlob
    ensures Handle(world, s, code, cur).sys.b.glErrors == s.b.glErrors
  {
  }

  /** LOAD_FONT_FILE for a name nanovg already holds creates nothing and still asks for a
    * render. */
  lemma LoadFontFileKept(world: World, s: Sys, cur: Bytes, name: Bytes, path: Bytes)
    requires ReadNamed(cur, true) == Got((name, path), [])
    requires name in s.b.fonts
    ensures Command(world, s, CmdLoadFontFile, cur) == Dispatched(Running, true, Started(s))
  {
  }

  /** LOAD_FONT_BLOB for a name nanovg already holds, likewise. */
  lemma LoadFontBlobKept(world: World, s: Sys, cur: Bytes, name: Bytes, data: Bytes)
    requires ReadNamed(cur, false) == Got((name, data), [])
    requires name in s.b.fonts
    ensures Command(world, s, CmdLoadFontBlob, cur) == Dispatched(Running, true, Started(s))
  {
  }

  /** LOAD_FONT_FILE for a new name makes nanovg load the path: a path that loads adds the
    * font under the name and asks for a render. */
  lemma LoadFontFileLoads(world: World, s: Sys, cur: Bytes, name: Bytes, path: Bytes)
    requires ReadNamed(cur, true) == Got((name, path), [])
    requires name !in s.b.fonts && path !in world.badFontFiles
    ensures Command(world, s, CmdLoadFontFile, cur) ==
      Dispatched(Running, true, Started(s).(b := Started(s).b.(trace := Started(s).b.trace + [Nvg(CreateFont(name, path))],
                                                              fonts := s.b.fonts + [name])))
  {
  }

  /** LOAD_FONT_FILE for a new name whose path does not load panics, after the attempt. */
  lemma LoadFontFileBadPath(world: World, s: Sys, cur: Bytes, name: Bytes, path: Bytes)
    requires ReadNamed(cur, true) == Got((name, path), [])
    requires name !in s.b.fonts && path in world.badFontFiles
    ensures Command(world, s, CmdLoadFontFile, cur) ==
      Dispatched(Panicked, false, Started(s).(b := Started(s).b.(trace := Started(s).b.trace + [Nvg(CreateFont(name, path))])))
  {
  }

  /** LOAD_FONT_BLOB for a new name makes nanovg load the bytes, likewise. */
  lemma LoadFontBlobLoads(world: World, s: Sys, cur: Bytes, name: Bytes, data: Bytes)
    requires ReadNamed(cur, false) == Got((name, data), [])
    requires name !in s.b.fonts
    ensures Command(world, s, CmdLoadFontBlob, cur) ==
      var ok := data !in world.badFontData;
      var b := Started(s).b.(trace := Started(s).b.trace + [Nvg(CreateFontMem(name, data))],
                             fonts := if ok then s.b.fonts + [name] else s.b.fonts);
      Dispatched(if ok then Running else Panicked, ok, Started(s).(b := b))
  {
  }

  /** The operands of PUT_TX_BLOB and LOAD_FONT_BLOB as the caller lays them out: the two
    * lengths, then the name (UTF-8, not ending in NUL) and the data, read back as written. */
  lemma ReadNamedBlob(name: Bytes, data: Bytes)
    requires |name| > 0 && name[|name| - 1] != 0 && IsUtf8(name)
    requires |name| < 0x1_0000_0000 && |data| < 0x1_0000_0000
    ensures ReadNamed(U32Le(|name|) + U32Le(|data|) + (name + data), false) == Got((name, data), [])
  {
    ReadPairLe(|name|, |data|, name + data);
    ReadStringPadded(name, 0, data);
    assert name + Zeros(0) + data == name + data;
    ReadBytesExact(data, []);
    assert data + [] == data;
  }

  /** The operands of LOAD_FONT_FILE likewise, the path read as a second string. */
  lemma ReadNamedFile(name: Bytes, path: Bytes)
    requires |name| > 0 && name[|name| - 1] != 0 && IsUtf8(name)
    requires |path| > 0 && path[|path| - 1] != 0 && IsUtf8(path)
    requires |name| < 0x1_0000_0000 && |path| < 0x1_0000_0000
    ensures ReadNamed(U32Le(|name|) + U32Le(|path|) + (name + path), true) == Got((name, path), [])
  {
    ReadPairLe(|name|, |path|, name + path);
    ReadStringPadded(name, 0, path);
    assert name + Zeros(0) + path == name + path;
    ReadStringPadded(path, 0, []);
    assert path + Zeros(0) + [] == path;
  }

  // ---------------------------------------------------------------------------
  // Properties of handle_stdio_in

  /** The flag already gathered never stops the loop: the same messages are dispatched with
    * the same effect, and the result is that flag ORed with the flags of the messages. */
  lemma {:induction false} DrainIgnoresFlag(step: (Sys, Bytes) -> Dispatched, s: Sys, queue: seq<Bytes>, budget: nat, redraw: bool)
    ensures var r, r0 := Drain(step, s, queue, budget, redraw), Drain(step, s, queue, budget, false);
      r.halt == r0.halt && r.sys == r0.sys && r.left == r0.left
      && (r.halt == Running ==> r.redraw == (redraw || r0.redraw))
    decreases budget
  {
    if budget > 0 && queue != [] {
      var d := step(s, queue[0]);
      if d.halt == Running {
        DrainIgnoresFlag(step, d.sys, queue[1..], budget - 1, d.render || redraw);
        DrainIgnoresFlag(step, d.sys, queue[1..], budget - 1, d.render);
      }
    }
  }

  /** Messages are dispatched oldest first: draining q1 then q2 is draining q1, then q2 from
    * the state and flag that left, as long as no message of q1 ended the process. */
  lemma {:induction false} DrainFifo(step: (Sys, Bytes) -> Dispatched, s: Sys, q1: seq<Bytes>, q2: seq<Bytes>, budget: nat, redraw: bool)
    requires |q1| <= budget
    requires Drain(step, s, q1, |q1|, redraw).halt == Running
    ensures var r1 := Drain(step, s, q1, |q1|, redraw);
      Drain(step, s, q1 + q2, budget, redraw) == Drain(step, r1.sys, q2, budget - |q1|, r1.redraw)
    decreases |q1|
  {
    if q1 != [] {
      var d := step(s, q1[0]);
      assert (q1 + q2)[0] == q1[0] && (q1 + q2)[1..] == q1[1..] + q2;
      DrainFifo(step, d.sys, q1[1..], q2, budget - 1, d.render || redraw);
    } else {
      assert q1 + q2 == q2;
    }
  }

  /** With no process end, the loop dispatches min(budget, |queue|) messages and leaves the rest. */
  lemma {:induction false} DrainLeaves(step: (Sys, Bytes) -> Dispatched, s: Sys, queue: seq<Bytes>, budget: nat, redraw: bool)
    ensures var r := Drain(step, s, queue, budget, redraw);
      r.halt == Running ==> r.left == queue[if budget < |queue| then budget else |queue|..]
    decreases budget
  {
    if budget > 0 && queue != [] {
      var d := step(s, queue[0]);
      if d.halt == Running {
        DrainLeaves(step, d.sys, queue[1..], budget - 1, d.render || redraw);
      }
    }
  }

  // ---------------------------------------------------------------------------
  // The handlers, on the driver's objects

  /** receive_quit. */
  method ReceiveQuit(wd: WindowData, host: Host)
    modifies wd, host
    ensures wd.State() == old(wd.State()).(keepGoing := false)
    ensures host.State() == old(host.State()).(trace := old(host.trace) + [Glfw(PostEmptyEvent)])
  {
    wd.keepGoing := false;
    host.Call(Glfw(PostEmptyEvent));
  }

  /** receive_render. */
  method ReceiveRender(wd: WindowData, ctx: Context, host: Host, cur: Bytes) returns (halt: Halt, rest: Bytes)
    modifies wd, host
    ensures Handled(halt, Snap(wd, ctx, host), rest) == OnRender(old(Snap(wd, ctx, host)), cur)
  {
    if |cur| < 4 {
      return Panicked, cur;
    }
    var id := ReadU32(cur).value;
    wd.PutScript(id, cur[4..]);
    host.WriteCmd(DrawReady(id));
    host.Call(Glfw(PostEmptyEvent));
    return Running, [];
  }

  /** receive_clear. */
  method ReceiveClear(wd: WindowData, ctx: Context, host: Host, cur: Bytes) returns (halt: Halt, rest: Bytes)
    modifies wd
    ensures Handled(halt, Snap(wd, ctx, host), rest) == OnClear(old(Snap(wd, ctx, host)), cur)
  {
    if |cur| < 4 {
      return Panicked, cur;
    }
    wd.DeleteScript(ReadU32(cur).value);
    return Running, cur[4..];
  }

  /** receive_set_root. */
  method ReceiveSetRoot(wd: WindowData, ctx: Context, host: Host, cur: Bytes) returns (halt: Halt, rest: Bytes)
    modifies wd, host
    ensures Handled(halt, Snap(wd, ctx, host), rest) == OnSetRoot(old(Snap(wd, ctx, host)), cur)
  {
    if |cur| < 4 {
      return Panicked, cur;
    }
    wd.rootScript := I32OfBits(ReadU32(cur).value);
    host.Call(Glfw(PostEmptyEvent));
    return Running, cur[4..];
  }

  /** receive_clear_color. */
  method ReceiveClearColor(wd: WindowData, ctx: Context, host: Host, cur: Bytes) returns (halt: Halt, rest: Bytes)
    modifies host
    ensures Handled(halt, Snap(wd, ctx, host), rest) == OnClearColor(old(Snap(wd, ctx, host)), cur)
  {
    if |cur| < 16 {
      return Panicked, cur;
    }
    var rg := ReadPair(cur).value;
    var ba := ReadPair(cur[8..]).value;
    host.Call(Gl(ClearColorScaled(rg.0, rg.1, ba.0, ba.1)));
    return Running, cur[16..];
  }

  /** receive_input. */
  method ReceiveInput(wd: WindowData, ctx: Context, host: Host, cur: Bytes) returns (halt: Halt, rest: Bytes)
    modifies wd
    ensures Handled(halt, Snap(wd, ctx, host), rest) == OnInput(old(Snap(wd, ctx, host)), cur)
  {
    if |cur| < 4 {
      return Panicked, cur;
    }
    wd.inputFlags := ReadU32(cur).value;
    return Running, cur[4..];
  }

  /** receive_query_stats. */
  method ReceiveQueryStats(wd: WindowData, ctx: Context, host: Host, cur: Bytes) returns (halt: Halt, rest: Bytes)
    modifies host
    ensures Handled(halt, Snap(wd, ctx, host), rest) == OnQueryStats(host.world, old(Snap(wd, ctx, host)), cur)
  {
    host.WriteCmd(StatsOf(host.world, wd.State()));
    return Running, cur;
  }

  /** receive_reshape (resize) and receive_position. */
  method ReceiveWindowPair(wd: WindowData, ctx: Context, host: Host, cur: Bytes, resize: bool) returns (halt: Halt, rest: Bytes)
    modifies host
    ensures Handled(halt, Snap(wd, ctx, host), rest) == OnWindowPair(old(Snap(wd, ctx, host)), cur, resize)
  {
    if |cur| < 8 {
      return Panicked, cur;
    }
    var p := ReadPair(cur).value;
    var x, y := I32OfBits(p.0), I32OfBits(p.1);
    host.Call(Glfw(if resize then SetSize(x, y) else SetPos(x, y)));
    return Running, cur[8..];
  }

  /** receive_load_font_file (fromFile) and receive_load_font_blob. */
  method ReceiveLoadFont(wd: WindowData, ctx: Context, host: Host, cur: Bytes, fromFile: bool) returns (halt: Halt, rest: Bytes)
    modifies host
    ensures Handled(halt, Snap(wd, ctx, host), rest) == OnLoadFont(host.world, old(Snap(wd, ctx, host)), cur, fromFile)
  {
    var named := ReadNamed(cur, fromFile);
    if named.Fail? {
      return Panicked, cur;
    }
    var name, second := named.value.0, named.value.1;
    rest := named.rest;
    if host.FontId(name) >= 0 {
      return Running, rest;
    }
    var ok;
    if fromFile {
      ok := host.CreateFontFile(name, second);
    } else {
      ok := host.CreateFontMemory(name, second);
    }
    halt := if ok then Running else Panicked;
  }

  /** receive_put_tx_blob. */
  method ReceivePutTxBlob(wd: WindowData, ctx: Context, host: Host, cur: Bytes) returns (halt: Halt, rest: Bytes)
    modifies ctx, host
    ensures Handled(halt, Snap(wd, ctx, host), rest) == OnPutTxBlob(host.world, old(Snap(wd, ctx, host)), cur)
  {
    var named := ReadNamed(cur, false);
    if named.Fail? {
      return Panicked, cur;
    }
    rest := named.rest;
    var ok := ctx.PutTx(named.value.0, named.value.1, host);
    halt := if ok then Running else Panicked;
  }

  /** receive_free_tx_id. */
  method ReceiveFreeTx(wd: WindowData, ctx: Context, host: Host, cur: Bytes) returns (halt: Halt, rest: Bytes)
    modifies ctx
    ensures Handled(halt, Snap(wd, ctx, host), rest) == OnFreeTx(old(Snap(wd, ctx, host)), cur)
  {
    if |cur| < 4 {
      return Panicked, cur;
    }
    var name := ReadString(cur[4..], ReadU32(cur).value);
    if name.Fail? {
      return Panicked, cur;
    }
    ctx.FreeTx(name.value);
    return Running, name.rest;
  }

  /** The match of dispatch_message, for every code but QUIT. */
  method HandleCommand(wd: WindowData, ctx: Context, host: Host, code: u32, cur: Bytes) returns (halt: Halt, rest: Bytes)
    modifies wd, ctx, host
    ensures Handled(halt, Snap(wd, ctx, host), rest) == Handle(host.world, old(Snap(wd, ctx, host)), code, cur)
  {
    if code == CmdRenderGraph {
      halt, rest := ReceiveRender(wd, ctx, host, cur);
    } else if code == CmdClearGraph {
      halt, rest := ReceiveClear(wd, ctx, host, cur);
    } else if code == CmdSetRoot {
      halt, rest := ReceiveSetRoot(wd, ctx, host, cur);
    } else if code == CmdClearColor {
      halt, rest := ReceiveClearColor(wd, ctx, host, cur);
    } else if code == CmdInput {
      halt, rest := ReceiveInput(wd, ctx, host, cur);
    } else if code == CmdQueryStats {
      halt, rest := ReceiveQueryStats(wd, ctx, host, cur);
    } else if code == CmdReshape {
      halt, rest := ReceiveWindowPair(wd, ctx, host, cur, true);
    } else if code == CmdPosition {
      halt, rest := ReceiveWindowPair(wd, ctx, host, cur, false);
    } else if code == CmdIconify {
      host.Call(Glfw(Iconify));
      halt, rest := Running, cur;
    } else if code == CmdRestore {
      host.Call(Glfw(RestoreWindow));
      halt, rest := Running, cur;
    } else if code == CmdShow {
      host.Call(Glfw(Show));
      halt, rest := Running, cur;
    } else if code == CmdHide {
      host.Call(Glfw(Hide));
      halt, rest := Running, cur;
    } else if code == CmdLoadFontFile {
      halt, rest := ReceiveLoadFont(wd, ctx, host, cur, true);
    } else if code == CmdLoadFontBlob {
      halt, rest := ReceiveLoadFont(wd, ctx, host, cur, false);
    } else if code == CmdPutTxBlob {
      halt, rest := ReceivePutTxBlob(wd, ctx, host, cur);
    } else if code == CmdFreeTxId {
      halt, rest := ReceiveFreeTx(wd, ctx, host, cur);
    } else if code == CmdCrash {
      host.WriteCmd(Puts(CrashLine));
      halt, rest := Exited(1), cur;
    } else {
      host.WriteCmd(Puts(UnknownMessageLine(code)));
      halt, rest := Running, cur;
    }
  }

  /** dispatch_message on the driver's objects. */
  method DispatchMessage(wd: WindowData, ctx: Context, host: Host, msg: Bytes) returns (halt: Halt, render: bool)
    modifies wd, ctx, host
    ensures Dispatched(halt, render, Snap(wd, ctx, host)) == Dispatch(host.world, old(Snap(wd, ctx, host)), msg)
  {
    if |msg| < 4 {
      return Panicked, false;
    }
    var code := ReadU32(msg).value;
    host.CheckGlError(StartingError);
    if code == CmdQuit {
      ReceiveQuit(wd, host);
      return Running, false;
    }
    var rest;
    halt, rest := HandleCommand(wd, ctx, host, code, msg[4..]);
    if halt != Running {
      return halt, false;
    }
    if !IsUtf8(rest) {
      return Panicked, false;
    }
    if rest != [] {
      host.CheckGlError(rest);
    }
    render := Renders(code);
  }

  /** handle_stdio_in: the queue stands for the channel, and its unread part is returned. */
  method HandleStdioIn(wd: WindowData, ctx: Context, host: Host, queue: seq<Bytes>, budget: nat)
    returns (halt: Halt, redraw: bool, left: seq<Bytes>)
    modifies wd, ctx, host
    ensures Drained(halt, redraw, Snap(wd, ctx, host), left) == Drain(Dispatcher(host.world), old(Snap(wd, ctx, host)), queue, budget, false)
  {
    redraw := false;
    left := queue;
    var time := budget;
    while time > 0 && left != []
      invariant Drain(Dispatcher(host.world), old(Snap(wd, ctx, host)), queue, budget, false)
             == Drain(Dispatcher(host.world), Snap(wd, ctx, host), left, time, redraw)
      decreases time
    {
      var h, flag := DispatchNext(wd, ctx, host, left, time, redraw);
      left := left[1..];
      if h != Running {
        return h, redraw, left;
      }
      redraw := flag;
      time := time - 1;
    }
    halt := Running;
  }

  /** One turn of handle_stdio_in's loop: the oldest message is dispatched and its flag ORed in. */
  method DispatchNext(wd: WindowData, ctx: Context, host: Host, queue: seq<Bytes>, budget: nat, redraw: bool)
    returns (halt: Halt, flag: bool)
    requires budget > 0 && queue != []
    modifies wd, ctx, host
    ensures Drain(Dispatcher(host.world), old(Snap(wd, ctx, host)), queue, budget, redraw)
         == if halt != Running then Drained(halt, redraw, Snap(wd, ctx, host), queue[1..])
            else Drain(Dispatcher(host.world), Snap(wd, ctx, host), queue[1..], budget - 1, flag)
  {
    var render;
    halt, render := DispatchMessage(wd, ctx, host, queue[0]);
    flag := render || redraw;
  }
}
