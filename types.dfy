/**
 * The driver's mutable stores (src/types.rs) and the window bookkeeping the
 * reshape handlers do (src/event.rs): the window record with its script map,
 * and the rendering context with its texture map.
 */
module Types {
  import opened Wire
  import opened Outbound
  import opened Host

  /** The fields of WindowData, as a value. */
  datatype WindowState = WindowState(
    windowSize: (i32, i32),
    frameSize: (i32, i32),
    keepGoing: bool,
    redraw: bool,
    inputFlags: u32,
    lastCursorPos: (F32, F32),
    scripts: map<u32, Bytes>,
    rootScript: i32)

  /** -1.0 as an f32 bit pattern. */
  const MinusOneF32: F32 := F32(0xBF80_0000)

  /** The input flags a new window starts with: every input enabled. */
  const AllInputs: u32 := 0xFFFF

  /** The GLFW event streams setup_window_data switches on, in call order. */
  const SetupPolling: seq<PollKind> := [
    FramebufferSizePolling, SizePolling, KeyPolling, CharModsPolling, CursorPosPolling,
    CursorEnterPolling, MouseButtonPolling, ScrollPolling, ClosePolling]

  /** The foreign calls setup_window_data makes, in order: the reshape event sent by
    * reshape_window, the nine polling switches, and an opaque black clear colour. */
  function SetupCalls(world: World): (calls: seq<Effect>)
    ensures |calls| == 11
    ensures calls[0] == Send(Reshape(world.size.0, world.size.1, world.size.0, world.size.1))
    ensures forall i | 0 <= i < 9 :: calls[i + 1] == Glfw(SetPolling(SetupPolling[i]))
    ensures calls[10] == Gl(ClearColor(F32(0), F32(0), F32(0), F32(0x3F80_0000)))
  {
    [Send(Reshape(world.size.0, world.size.1, world.size.0, world.size.1))]
    + seq(9, i requires 0 <= i < 9 => Glfw(SetPolling(SetupPolling[i])))
    + [Gl(ClearColor(F32(0), F32(0), F32(0), F32(0x3F80_0000)))]
  }

  /** A window event GLFW delivers to the event loop; the driver does not look inside it. */
  type WindowEvent

  /** WindowData: the window's sizes and flags, and the scripts by id. */
  class WindowData {
    var windowSize: (i32, i32)
    var frameSize: (i32, i32)
    var keepGoing: bool
    var redraw: bool
    var inputFlags: u32
    var lastCursorPos: (F32, F32)
    var scripts: map<u32, Bytes>
    var rootScript: i32

    function State(): WindowState
      reads this
    {
      WindowState(windowSize, frameSize, keepGoing, redraw, inputFlags, lastCursorPos, scripts, rootScript)
    }

    /** setup_window_data: the initial record, then the two reshape calls with the sizes GLFW
      * reports, the polling switches and the clear colour. */
    constructor Setup(width: i32, height: i32, host: Host)
      modifies host
      ensures State() == WindowState(host.world.size, host.world.framebufferSize, true, true,
                                     AllInputs, (MinusOneF32, MinusOneF32), map[], -1)
      ensures host.State() == old(host.State()).(trace := old(host.trace) + SetupCalls(host.world))
    {
      keepGoing := true;
      redraw := false;
      inputFlags := AllInputs;
      lastCursorPos := (MinusOneF32, MinusOneF32);
      scripts := map[];
      rootScript := -1;
      windowSize := (width, height);
      frameSize := (0, 0);
      new;
      ReshapeFramebuffer(host.world.framebufferSize.0, host.world.framebufferSize.1);
      ReshapeWindow(host.world.size.0, host.world.size.1, host);
      ghost var calls := SetupCalls(host.world);
      ghost var state := State();
      var i := 0;
      while i < 9
        invariant 0 <= i <= 9
        invariant State() == state
        invariant host.State() == old(host.State()).(trace := old(host.trace) + calls[..i + 1])
      {
        host.Call(Glfw(SetPolling(SetupPolling[i])));
        assert calls[..i + 2] == calls[..i + 1] + [calls[i + 1]];
        i := i + 1;
      }
      host.Call(Gl(ClearColor(F32(0), F32(0), F32(0), F32(0x3F80_0000))));
      assert calls == calls[..10] + [calls[10]];
    }

    /** put_script: the script is stored under id, replacing any earlier one. */
    method PutScript(id: u32, script: Bytes)
      modifies this
      ensures State() == old(State()).(scripts := old(scripts)[id := script])
    {
      scripts := scripts[id := script];
    }

    /** get_script: the script stored under id, if any. */
    method GetScript(id: u32) returns (r: Option<Bytes>)
      ensures r.Some? <==> id in scripts
      ensures r.Some? ==> r.value == scripts[id]
    {
      if id in scripts {
        r := Some(scripts[id]);
      } else {
        r := None;
      }
    }

    /** delete_script: id is no longer stored; an absent id is left absent. */
    method DeleteScript(id: u32)
      modifies this
      ensures State() == old(State()).(scripts := old(scripts) - {id})
    {
      scripts := scripts - {id};
    }

    /** reshape_framebuffer: the new framebuffer size, and a redraw is due. */
    method ReshapeFramebuffer(width: i32, height: i32)
      modifies this
      ensures State() == old(State()).(frameSize := (width, height), redraw := true)
    {
      frameSize := (width, height);
      redraw := true;
    }

    /** reshape_window: the new window size, a reshape event with the window size given as
      * both the window and the frame size, and a redraw is due. */
    method ReshapeWindow(width: i32, height: i32, host: Host)
      modifies this, host
      ensures State() == old(State()).(windowSize := (width, height), redraw := true)
      ensures host.State() == old(host.State()).(trace := old(host.trace) + [Send(Reshape(width, height, width, height))])
    {
      windowSize := (width, height);
      host.WriteCmd(Reshape(width, height, width, height));
      redraw := true;
    }

    /** handle_window_event: every window event is ignored. */
    method HandleWindowEvent(event: WindowEvent)
      ensures State() == old(State())
    {
    }
  }

  /** Context: the textures by name. */
  class Context {
    var textures: map<Bytes, Image>

    constructor()
      ensures textures == map[]
    {
      textures := map[];
    }

    /** put_tx: decode the image, then store it under key, replacing any earlier one. A decode
      * failure is unwrapped, a panic (ok false), and leaves the map as it was. */
    method PutTx(key: Bytes, data: Bytes, host: Host) returns (ok: bool)
      modifies this, host
      ensures ok <==> data !in host.world.badImageData
      ensures host.State() == CreateImageB(host.world, old(host.State()), data).1
      ensures ok ==> textures == old(textures)[key := Image(old(host.images))]
      ensures !ok ==> textures == old(textures)
    {
      var img := host.CreateImage(data);
      if img.None? {
        return false;
      }
      textures := textures[key := img.value];
      return true;
    }

    /** free_tx: key is no longer stored; an absent key is left absent. */
    method FreeTx(key: Bytes)
      modifies this
      ensures textures == old(textures) - {key}
    {
      textures := textures - {key};
    }
  }

  // ---------------------------------------------------------------------------
  // The store operations on values, as the dispatcher uses them

  /** After put_script, get_script finds the new script, and every other id keeps its entry. */
  lemma PutScriptGet(w: WindowState, id: u32, script: Bytes, other: u32)
    requires other != id
    ensures var w' := w.(scripts := w.scripts[id := script]);
      id in w'.scripts && w'.scripts[id] == script
      && (other in w'.scripts <==> other in w.scripts)
      && (other in w.scripts ==> w'.scripts[other] == w.scripts[other])
  {
  }

  /** delete_script twice is delete_script once, and it removes only id. */
  lemma DeleteScriptIdempotent(w: WindowState, id: u32)
    ensures var w' := w.(scripts := w.scripts - {id});
      id !in w'.scripts && w'.(scripts := w'.scripts - {id}) == w'
      && forall k | k in w.scripts && k != id :: k in w'.scripts && w'.scripts[k] == w.scripts[k]
  {
    var w' := w.(scripts := w.scripts - {id});
    assert w'.scripts - {id} == w'.scripts;
  }

  /** free_tx twice is free_tx once. */
  lemma FreeTxIdempotent(textures: map<Bytes, Image>, key: Bytes)
    ensures (textures - {key}) - {key} == textures - {key}
    ensures key !in textures - {key}
  {
  }
}
