# scenic_driver_glfw_rust, modelled in Dafny

The driver is a separate process that draws for a Scenic viewport. The
controlling process writes framed messages to the driver's stdin, and the
driver writes framed events to its stdout.

Every frame, in both directions, has the same layout:

- a big-endian `u32` length;
- a payload whose first native-endian (little-endian) `u32` is a command code
  (inbound) or an event kind (outbound).

A reader thread deframes stdin into a channel. On each turn of the event loop,
`handle_stdio_in` drains that channel within a time budget. It calls
`dispatch_message` for each message, which works in this order:

1. read the code;
2. drain GL's error queue into log events;
3. route the code to a `receive_*` handler;
4. pass any leftover operand bytes through GL's error-check routine as a
   message.

The handlers act on three things:

- the window record (`WindowData`), which holds the scripts by id, the root id,
  the sizes and the flags;
- the texture store (`Context`);
- the font and image loaders of nanovg.

A render pass runs the root script. A script is a bytecode program in which
each step reads an opcode word and its operands, then makes nanovg calls.

- A paint built by one step is applied by the next step, if that step is
  `STROKE_PAINT` or `FILL_PAINT`.
- `RUN_SCRIPT` starts a nested level on the same stream.
- `TERMINATE` ends a level.

The model has seven modules, one file each.

| file | module | models |
|---|---|---|
| `wire.dfy` | `Wire` | the byte codec of `src/util.rs`: native `u32`/`i32`/`f32`/`bool`/colour reads and writes, `read_multi!`/`write_multi!`, `read_bytes`, `trim_null_tail`, `read_string`, and the decimal and `{:#X}` spellings used in log lines |
| `defines.dfy` | `Defines` | the constants of `src/defines.rs` |
| `outbound.dfy` | `Outbound` | the outbound events of `src/comms.rs` (`send_*`), their payloads and `write_cmd`'s framing; the inverse reading a caller does, and the stdin deframer |
| `host.dfy` | `Host` | nanovg, GL and GLFW as a `Host` object: a trace of calls, a queue of pending GL errors, loaded fonts and created images; `check_gl_error` as a loop over that queue |
| `types.dfy` | `Types` | `WindowData` and `Context` of `src/types.rs` as classes, with `setup_window_data` and the reshape handlers of `src/event.rs` |
| `script.dfy` | `Script` | `run_script_internal` and its opcode functions (`src/script.rs`) as a pure function from the script bytes to a status, the unread bytes and the calls made; `run_scripts`, and the render pass's `root_script > 0` test (`src/main.rs`) |
| `comms.dfy` | `Comms` | `dispatch_message` and every `receive_*` handler, as a pure specification over the whole state, and as methods on the objects, each proved equal to it; `handle_stdio_in` as a loop over a queue |

Conventions:

- A read is a function from the remaining bytes to `Got(value, rest)` or
  `Fail`.
- An `.unwrap()` that fails ends the process with a panic. The dispatcher
  represents this as `Halt.Panicked`, and the script interpreter as
  `Status.Panic`.
- An `f32` is an opaque 32-bit pattern (`F32`).
- A foreign call is an entry appended to a trace, in call order. What the
  foreign libraries answer comes from a `World` fixed for the run: window
  geometry and flags, which font files, font blobs and images fail to load, and
  which GL errors an image upload queues.

The opcode words of the script language are not defined in the files of this
repository; they come from a binding crate that is not part of this model. The
interpreter therefore takes the decode table (word to operation) as a
parameter, and every property of it holds for every table.

## Failure handling in the driver

- A short or malformed operand read in a command handler panics (`unwrap`).
  The whole process ends, not only the current frame.
- A malformed operand in a script panics as well. Only the opcode word itself
  returns `Err` on a short stream, and `run_scripts` unwraps even that.
- Leftover bytes are read with `read_to_string`, and its result is unwrapped,
  so leftover bytes that are not UTF-8 panic.
- An unknown command is logged with its code in `{:#X}` form. An unknown opcode
  is logged with its word in decimal.

## Model

| member | source | states |
|---|---|---|
| Wire.U32Le | src/util.rs:80-92 | a u32 is written as four bytes, lowest first, which `LeU32OfU32Le` reads back |
| Wire.LeU32OfU32Le | src/util.rs:50-78 | decoding the four native bytes of x gives x |
| Wire.LeU32Bytes | src/util.rs:50-78 | encoding the decoded value of four bytes gives the same four bytes |
| Wire.U32Be | src/comms.rs:90-99 | the big-endian length prefix is the four bytes of the length, highest first, which `BeU32` reads back |
| Wire.BitsOfI32 | src/util.rs:84-87 | the two's-complement bit pattern of an i32, which `I32OfBits` maps back to it |
| Wire.ReadU32 | src/util.rs:104-113 | a native u32 read fails exactly when fewer than four bytes remain and otherwise consumes four |
| Wire.ReadU32Consumes | src/util.rs:104-113 | a successful read consumed exactly the encoding of the value it returns |
| Wire.ReadU32Le | src/util.rs:104-113 | reading the encoding of x gives x and leaves what followed |
| Wire.ReadColor | src/util.rs:50-78 | a colour is four u32s, each truncated to 8 bits; the read fails exactly on fewer than 16 bytes |
| Wire.ReadType | src/util.rs:50-78 | one scalar of the requested type; it consumes that type's width and fails exactly on a shorter input; the value is the word itself as u32 and usize, its two's-complement reading as i32, its bits as f32, word ≠ 0 as bool, and four bytes as a colour |
| Wire.ReadMulti | src/util.rs:104-113 | scalars in declared order; it succeeds exactly when the input holds their total width, and the values have the declared types |
| Wire.ReadU32Extend | src/util.rs:104-113 | a successful read gives the same value when more bytes follow, and leaves them unread |
| Wire.ReadColorExtend | src/util.rs:50-78 | the same for a colour read |
| Wire.ReadTypeExtend | src/util.rs:50-78 | the same for any scalar read |
| Wire.ReadMultiExtend | src/util.rs:104-113 | the same for a list of scalars |
| Wire.WriteAny | src/util.rs:80-102 | a write appends four native bytes of the scalar's bits (a bool as 0 or 1) and keeps the buffer |
| Wire.WriteMultiAppends | src/util.rs:115-122 | `write_multi!` keeps the buffer and appends exactly four bytes per scalar |
| Wire.ReadTypeScalar | src/util.rs:50-102 | reading a written scalar at its type gives the scalar's value back |
| Wire.WriteReadMulti | src/util.rs:104-122 | `read_multi!` at the written types gives back every value `write_multi!` wrote, and leaves what followed |
| Wire.ReadWriteMultiExample | src/util.rs:124-138 | bytes 1..7, 0xff read as i32 0x04030201 and u32 0xff070605, nothing more can be read, and writing the two values gives the bytes back |
| Wire.ReadBytes | src/util.rs:37-41 | exactly `len` bytes, or a failure when fewer remain |
| Wire.ReadBytesExtend | src/util.rs:37-41 | a successful read is unaffected by bytes after it |
| Wire.ReadBytesExact | src/util.rs:37-41 | reading as many bytes as were written gives them back |
| Wire.NullTrimmed | src/util.rs:26-33 | the input without its trailing NULs, a prefix ending in a nonzero byte; none when the input has no nonzero byte, where the index underflows |
| Wire.TrimNullTail | src/util.rs:26-33 | the index loop of `trim_null_tail` computes `NullTrimmed` |
| Wire.NullTrimmedPadding | src/util.rs:26-33 | a text not ending in NUL, padded with any number of NULs, trims back to itself |
| Wire.ReadString | src/util.rs:34-36 | a string read succeeds exactly when the bytes are there, trim to something, and that is UTF-8 |
| Wire.ReadStringPadded | src/util.rs:34-41 | a UTF-8 text not ending in NUL, padded with NULs to the field length, reads back as itself |
| Wire.ReadStringExtend | src/util.rs:34-41 | a successful string read is unaffected by bytes after it |
| Wire.AsciiIsUtf8 | src/util.rs:34-36 | every ASCII text passes the UTF-8 check |
| Wire.Decimal | src/util.rs:21 | `{}` of an unsigned number: digits only, no leading zero |
| Wire.DecimalRoundTrip | src/util.rs:21 | the decimal spelling reads back as the number |
| Wire.HexDigit | src/comms.rs:206 | an upper-case hexadecimal digit for every value below 16 |
| Wire.HexDigits | src/comms.rs:206 | upper-case hexadecimal digits, no leading zero |
| Wire.HexRoundTrip | src/comms.rs:206 | the hexadecimal spelling reads back as the number |
| Wire.AlternateUpperHex | src/comms.rs:206 | `{:#X}`: "0x" followed by the hexadecimal digits |
| Defines.IncreasingDistinct | src/defines.rs:2-63 | a strictly increasing list of codes has no two equal codes |
| Defines.IncreasingFirst | src/defines.rs:2-63 | in an increasing list every later code exceeds an earlier one |
| Defines.OutKindsDistinct | src/defines.rs:2-24 | the outbound event kinds are pairwise distinct |
| Defines.CmdCodesDistinct | src/defines.rs:28-63 | the active command codes are pairwise distinct |
| Defines.SetRootOwnsThree | src/defines.rs:30-32 | no other active command has SET_ROOT's code 0x03 |
| Outbound.Payload | src/comms.rs:23-88 | a `send_*` payload is 4 bytes plus 4 per field plus the text, and reading a u32 from it gives the event's kind |
| Outbound.PayloadParts | src/comms.rs:13-21 | the kind, then the fields, then the text; the length is their sum |
| Outbound.WriteMultiLength | src/comms.rs:13-21 | the fields take four bytes each |
| Outbound.PayloadKind | src/comms.rs:13-21 | a payload starts with the kind's four native bytes |
| Outbound.FieldTypesOfKind | src/comms.rs:23-88 | the layout a caller expects for an event's kind is the types of that event's fields |
| Outbound.BuildOfFields | src/comms.rs:23-88 | rebuilding an event from its own fields' values gives the event |
| Outbound.ScalarsFit | src/comms.rs:23-88 | written scalars' values have the written types |
| Outbound.DecodeTextPayload | src/comms.rs:36-64 | a string event (puts, write, inspect, cache miss, font miss) decodes back to itself |
| Outbound.DecodeFixed | src/comms.rs:23-88 | a kind followed by exactly its fields' bytes decodes to the event they build |
| Outbound.DecodeFixedPayload | src/comms.rs:23-34 | a fixed-layout event decodes back to itself |
| Outbound.DecodePayload | src/comms.rs:23-88 | every event's payload decodes back to the event |
| Outbound.PayloadInjective | src/comms.rs:23-88 | two events with the same payload are the same event |
| Outbound.Frame | src/comms.rs:90-99 | `write_cmd`: the big-endian length (cast to u32) followed by the payload |
| Outbound.ReadFrame | src/comms.rs:219-226 | the reader fails exactly when the length prefix or the payload it announces is cut short; otherwise it gives the announced bytes and leaves what follows them |
| Outbound.ReadFramesBrokenOff | src/comms.rs:219-226 | framed payloads followed by a broken-off frame are forwarded in order and the broken-off part gives nothing |
| Outbound.BeU32Bytes | src/comms.rs:215-217 | the big-endian read of a length's bytes gives the length |
| Outbound.ReadFrameOfFrame | src/comms.rs:90-99 | deframing a frame of a payload under 4 GiB gives the payload and leaves what followed |
| Outbound.ReadFramesOfFrames | src/comms.rs:219-226 | the reader forwards exactly the framed payloads, in order |
| Outbound.EventRoundTrip | src/comms.rs:90-99 | the frame of an event's payload deframes and decodes back to the event |
| Outbound.PayloadFieldAt | src/comms.rs:23-88 | field i of an event sits at bytes 4+4i to 8+4i as the native bytes of its bits |
| Outbound.PartsFieldAt | src/comms.rs:13-21 | the same for any kind, fields and text |
| Outbound.WriteMultiAt | src/util.rs:115-122 | scalar i of a written list is at bytes 4i to 4i+4 |
| Outbound.StatsLayout | src/comms.rs:268-284 | the stats payload is 44 bytes: kind 1, the input flags, x, y, width and height, then focused, resizable, iconified, maximized and visible as 0 or 1, each field at its own four bytes |
| Outbound.PayloadHead | src/comms.rs:13-21 | every payload starts with its kind |
| Outbound.WriteMultiSplit | src/util.rs:115-122 | writing a list is writing a prefix, then the rest |
| Outbound.WriteMultiAround | src/util.rs:115-122 | writing a list is writing the scalars before i, scalar i, then the scalars after it |
| Outbound.WriteMultiConcat | src/util.rs:115-122 | writing two lists in turn is writing their concatenation |
| Outbound.TextLayout | src/comms.rs:36-58 | a string event carries its text verbatim after the kind, with no length or terminator |
| Host.NameOf | src/util.rs:7-25 | the name of the first table entry with the code, or none when no entry has it |
| Host.GlErrorLineShape | src/util.rs:7-25 | every GL error line is the message, a space and more |
| Host.GlErrorLog | src/util.rs:7-25 | one log line per pending code |
| Host.GlOtherLine | src/util.rs:21 | an unnamed code is logged as " GL_OTHER: " and decimal digits that spell the code |
| Host.UnnamedSuffix | src/util.rs:12-21 | a code outside the seven named ones 0x500-0x506 gets the " GL_OTHER: " suffix and its decimal spelling |
| Host.GlErrorLogSnoc | src/util.rs:7-25 | one more code adds its line at the end |
| Host.Host.WriteCmd | src/comms.rs:90-99 | the event is appended to the trace; nothing else changes |
| Host.Host.GetError | src/util.rs:9 | `glGetError`: the oldest pending code, removed; NO_ERROR on an empty queue |
| Host.Host.CheckGlError | src/util.rs:7-25 | the loop logs every pending code in order and empties the queue, as `CheckGl` states |
| Host.FindFont | src/script.rs:435-446 | nvgFindFont: -1 exactly for an absent name; otherwise the index of the first font with the name |
| Host.Host.CreateFontFile | src/comms.rs:296-308 | the load is traced; it succeeds exactly for a path that loads, and adds the name as the newest font |
| Host.Host.CreateFontMemory | src/comms.rs:309-322 | the same for font bytes |
| Host.Host.CreateImage | src/types.rs:13-18 | the decode is traced; it gives a fresh handle exactly for data that decodes |
| Host.CreateFontFileB | src/comms.rs:296-308 | the backend after a font file load |
| Host.CreateFontMemB | src/comms.rs:309-322 | the backend after a font blob load |
| Host.CreateImageB | src/types.rs:13-18 | the backend after an image decode: the decode is traced; a decoded image takes the next handle and its upload's GL errors join the pending queue; a failed decode changes neither |
| Types.SetupCalls | src/types.rs:60-92 | setup makes 11 foreign calls: the reshape event, the nine polling switches in order, then an opaque black clear colour |
| Types.WindowData.Setup | src/types.rs:60-92 | the initial record (flags, input 0xFFFF, cursor -1, no scripts, root -1) with the sizes GLFW reports, and exactly the setup calls |
| Types.WindowData.PutScript | src/types.rs:39-41 | the script is stored under the id, replacing any earlier one; nothing else changes |
| Types.WindowData.GetScript | src/types.rs:42-44 | the stored script exactly when the id is present |
| Types.WindowData.DeleteScript | src/types.rs:45-47 | the id is removed; nothing else changes |
| Types.PutScriptGet | src/types.rs:39-44 | after put, get finds the new script; every other id keeps its entry |
| Types.DeleteScriptIdempotent | src/types.rs:45-47 | deleting twice is deleting once, and only the id goes |
| Types.Context.PutTx | src/types.rs:13-18 | the image is decoded and stored under the key; a decode failure is a panic that leaves the map as it was |
| Types.Context.FreeTx | src/types.rs:19-21 | the key is removed |
| Types.FreeTxIdempotent | src/types.rs:19-21 | freeing twice is freeing once |
| Types.WindowData.ReshapeFramebuffer | src/event.rs:8-12 | new framebuffer size and a redraw due; nothing else changes |
| Types.WindowData.ReshapeWindow | src/event.rs:13-17 | new window size, a redraw due, and one reshape event with that size as window and frame size |
| Types.WindowData.HandleWindowEvent | src/event.rs:4-6 | every window event leaves the record unchanged |
| Script.EncodeDecode | src/script.rs:32-34 | under an injective table, decoding an encoded operation gives it back, and the reverse |
| Script.JoinCap | src/script.rs:239-251 | 0, 1, 2 become miter, round, bevel; every other value passes through unchanged |
| Script.Gradient | src/script.rs:159-193 | a paint exactly for the linear, box and radial opcodes |
| Script.Exec | src/script.rs:36-149 | one opcode: a plain opcode succeeds exactly when its operands are there, and consumes exactly them; only paint opcodes give a paint; stopping is a panic or the text hang |
| Script.PaintImage | src/script.rs:194-213 | an image pattern for a stored key, otherwise a cache miss; a bad key read panics |
| Script.Font | src/script.rs:435-446 | never gives a paint; a bad name read panics |
| Script.FontCName | src/script.rs:437-439 | the name nvgFindFont sees in a buffer: the bytes before its first NUL, and none when the buffer has no NUL |
| Script.FontCNameTerminated | src/util.rs:26-41 | a name followed by a NUL is seen as exactly that name |
| Script.FontCNameOfRead | src/script.rs:435-446 | the lookup sees the name read exactly when the field was longer than the name and the name holds no NUL |
| Script.FontNameUnterminated | src/script.rs:435-446 | a one-byte field with no NUL: the name read is that byte, the buffer has no terminator, and the whole-name lookup of a font with that name finds id 0 |
| Script.Text | src/script.rs:371-399 | text never hands control back: it panics exactly on a short read and otherwise hangs in the layout loop |
| Script.Run | src/script.rs:23-158 | `run_script_internal` never reads past the end of its input |
| Script.RunScripts | src/script.rs:10-21 | nothing for an absent id; otherwise the calls of a run from the start with no paint; the end of the stream (Err) becomes a panic and every other status is kept |
| Script.RenderRoot | src/main.rs:70-83 | the root script runs only for a positive root id |
| Script.ExecPaintIndependent | src/script.rs:73-85 | only STROKE_PAINT and FILL_PAINT depend on the incoming paint |
| Script.ShapesAtOrigin | src/script.rs:255-340 | rect, round rect, ellipse, circle, scissor and intersect scissor are one call at (0, 0) |
| Script.TriangleIsPath | src/script.rs:309-317 | a triangle is a move, two lines and a close, as the path opcodes would make |
| Script.SectorIsArcClosed | src/script.rs:364-370 | a sector is the arc, a line to the origin and a close |
| Script.LineJoinThroughLineCap | src/script.rs:236-251 | line join calls the line-cap setter: the join symbols for 0-2, otherwise what LINE_CAP calls |
| Script.ExecExtend | src/script.rs:36-149 | a finished step reads the same from a longer stream and leaves the extra bytes |
| Script.PaintImageExtend | src/script.rs:194-213 | the same for the image key |
| Script.FontExtend | src/script.rs:435-446 | the same for the font name |
| Script.TextExtend | src/script.rs:371-399 | the same for the text bytes |
| Script.RunExecStep | src/script.rs:32-34 | a step is the word, the opcode, then the rest of the level with the new paint |
| Script.RunExtend | src/script.rs:23-158 | a run that ends normally or hangs does the same on a longer stream and leaves the extra bytes |
| Script.RunShort | src/script.rs:32 | fewer than four bytes left: the opcode read returns Err |
| Script.TerminateEndsLevel | src/script.rs:150 | TERMINATE ends the level right after its word, with no call |
| Script.UnknownOpLogged | src/script.rs:151-154 | an unknown word ends the level after one line: the fixed text and the word in decimal |
| Script.PaintOnlyForNext | src/script.rs:30-85 | the incoming paint matters only to a first opcode that is STROKE_PAINT or FILL_PAINT |
| Script.StrokeUsesPaint | src/script.rs:73-77 | STROKE_PAINT applies the incoming paint if any, and the next step starts with none |
| Script.FillUsesPaint | src/script.rs:81-85 | FILL_PAINT likewise, with the fill setter |
| Script.ExecStrokePaint | src/script.rs:73-77 | the STROKE_PAINT step reads nothing |
| Script.ExecFillPaint | src/script.rs:81-85 | the FILL_PAINT step reads nothing |
| Script.ImageCacheMiss | src/script.rs:194-213 | PAINT_IMAGE with an unknown key sends one cache-miss event, and the next step has no paint |
| Script.FontLookup | src/script.rs:435-446 | FONT with a loaded name selects its id; with an unknown name it sends a font-miss event |
| Script.ExecFont | src/script.rs:435-446 | FONT reads its length first |
| Script.NestedLevel | src/script.rs:49-51 | RUN_SCRIPT runs a nested level with no paint; the outer level continues after it with no paint |
| Script.RunNestedStep | src/script.rs:49-51 | a level that stops early stops the caller with its status; a finished one lets the caller continue on the bytes after it, with no paint |
| Script.TerminateOnlyScript | src/script.rs:10-21 | a script holding only TERMINATE makes no call |
| Script.UnterminatedScriptPanics | src/script.rs:10-21 | a script that ends before its outermost TERMINATE makes run_scripts panic |
| Comms.ReadPair | src/util.rs:104-113 | two native u32s in turn; fails exactly below eight bytes |
| Comms.ReadPairLe | src/util.rs:104-113 | reading two encoded u32s gives them back |
| Comms.Started | src/comms.rs:129 | the starting error check logs every pending GL error and empties the queue |
| Comms.DispatchCommand | src/comms.rs:121-213 | a message is its code followed by the operands: dispatching it is the command on those operands |
| Comms.ShortMessagePanics | src/comms.rs:128 | a message shorter than four bytes panics before anything is done |
| Comms.RenderFlag | src/comms.rs:133-206 | when dispatch returns, its flag is true exactly for RENDER_GRAPH, CLEAR_GRAPH, SET_ROOT, CLEAR_COLOR, the two font loads and PUT_TX_BLOB |
| Comms.OnlyCrashExits | src/comms.rs:133-206 | every command except CRASH returns or panics; only CRASH exits |
| Comms.QuitStops | src/comms.rs:133-136 | QUIT clears keep-going, wakes the loop, returns false and skips the leftover check |
| Comms.RenderGraphStores | src/comms.rs:232-239 | RENDER_GRAPH stores everything after the id as that script, answers draw-ready, wakes the loop and asks for a render |
| Comms.ClearGraphRemoves | src/comms.rs:240-243 | CLEAR_GRAPH removes the script and asks for a render |
| Comms.SetRootSigned | src/comms.rs:244-248 | SET_ROOT stores the id as signed and asks for a render |
| Comms.InputReplaces | src/comms.rs:264-267 | INPUT replaces the input flags; leftover UTF-8 bytes go to the error check, which finds no pending error; other leftovers panic |
| Comms.QueryStatsReports | src/comms.rs:268-284 | QUERY_STATS sends one stats event with the flags, position, size and window flags, and changes nothing else |
| Comms.CrashExits | src/comms.rs:349-352 | CRASH logs "receive_crash - exit" and exits with status 1 |
| Comms.UnknownCommandLogged | src/comms.rs:206 | a code with no branch logs one line, changes nothing else and returns false |
| Comms.UnknownMessageLineShape | src/comms.rs:206 | the line is "Unknown message: 0x" and upper-case hexadecimal digits that spell the code |
| Comms.PutTxBlobStores | src/comms.rs:326-336 | PUT_TX_BLOB stores decodable data under the name as a fresh image and asks for a render, with the upload's GL errors still pending; undecodable data panics after the attempt |
| Comms.PutTxBlobLeftoverLogs | src/comms.rs:194-212 | after PUT_TX_BLOB, UTF-8 leftover bytes make the closing error check log the upload's GL errors, and the queue ends empty |
| Comms.LeftoverChecked | src/comms.rs:208-212 | for every command but QUIT that keeps running: leftover bytes that are not UTF-8 panic; no leftover skips the check; UTF-8 leftover logs the pending GL errors and empties the queue |
| Comms.HandleKeepsGlErrors | src/comms.rs:132-207 | no command handler except PUT_TX_BLOB queues a GL error |
| Comms.LeftoverSilent | src/comms.rs:132-212 | for every command but QUIT and PUT_TX_BLOB the closing check finds the queue empty: UTF-8 leftover bytes change nothing |
| Comms.LoadFontFileKept | src/comms.rs:296-308 | LOAD_FONT_FILE for a name already held creates nothing and still asks for a render |
| Comms.LoadFontBlobKept | src/comms.rs:309-322 | the same for LOAD_FONT_BLOB |
| Comms.LoadFontFileLoads | src/comms.rs:296-308 | a new name with a loadable path adds the font and asks for a render |
| Comms.LoadFontFileBadPath | src/comms.rs:296-308 | a new name with a path that does not load panics after the attempt |
| Comms.LoadFontBlobLoads | src/comms.rs:309-322 | a new name with loadable bytes adds the font and asks for a render |
| Comms.ReadNamedBlob | src/comms.rs:309-336 | the two lengths, a name and the data, as a caller writes them, read back as written |
| Comms.ReadNamedFile | src/comms.rs:296-308 | the same with the path read as a string |
| Comms.DrainIgnoresFlag | src/comms.rs:102-119 | the flag gathered so far never affects what is dispatched; the result is that flag ORed with the messages' flags |
| Comms.DrainFifo | src/comms.rs:102-119 | messages are dispatched oldest first: two queues drain in turn |
| Comms.DrainLeaves | src/comms.rs:102-119 | without a process end, min(budget, queue length) messages are dispatched and the rest stay |
| Comms.ReceiveQuit | src/comms.rs:228-231 | keep-going cleared, one wake call; nothing else changes |
| Comms.ReceiveRender | src/comms.rs:232-239 | the objects end as `OnRender` specifies |
| Comms.ReceiveClear | src/comms.rs:240-243 | the objects end as `OnClear` specifies |
| Comms.ReceiveSetRoot | src/comms.rs:244-248 | the objects end as `OnSetRoot` specifies |
| Comms.ReceiveClearColor | src/comms.rs:249-260 | the objects end as `OnClearColor` specifies: four channels to glClearColor |
| Comms.ReceiveInput | src/comms.rs:264-267 | the objects end as `OnInput` specifies |
| Comms.ReceiveQueryStats | src/comms.rs:268-284 | the objects end as `OnQueryStats` specifies |
| Comms.ReceiveWindowPair | src/comms.rs:285-292 | reshape and position: the objects end as `OnWindowPair` specifies |
| Comms.ReceiveLoadFont | src/comms.rs:296-322 | both font loads: the objects end as `OnLoadFont` specifies |
| Comms.ReceivePutTxBlob | src/comms.rs:326-336 | the objects end as `OnPutTxBlob` specifies |
| Comms.ReceiveFreeTx | src/comms.rs:337-346 | the objects end as `OnFreeTx` specifies |
| Comms.HandleCommand | src/comms.rs:132-207 | every branch of the match on the objects ends as `Handle` specifies |
| Comms.DispatchMessage | src/comms.rs:121-213 | `dispatch_message` on the objects ends as `Dispatch` specifies, which the lemmas above characterise |
| Comms.HandleStdioIn | src/comms.rs:102-119 | the loop ends as `Drain` specifies, with the unread part of the queue |
| Comms.DispatchNext | src/comms.rs:110-113 | one turn of the loop is one step of `Drain` |

## Left out

- Floating point is left out: `f32` values are opaque bit patterns. Left unmodelled because of that:
  - the /255 colour scaling of CLEAR_COLOR and colour conversion;
  - `get_ratio` and `get_window_size_float`;
  - the arc segmentation of `arc` in `src/script.rs:341-363`, which is one opaque `ArcSegments` call.
- Script.Text: the layout loop of `text` (`src/script.rs:371-399`) has no exit condition. It is modelled as the hang status after its metrics and layout calls; `Hang` stands for "never hands control back". The drawing of individual rows is not modelled, and neither are the reads before the row buffer: `rows.offset(i - 1)` at `src/script.rs:392` when `i` is 0, and `rows.offset(nrows - 1)` at `src/script.rs:396` when no row was laid out. The process may fault there instead of looping.
- The native `Image` destructor is not modelled. It frees a replaced or removed texture in nanovg, and the binding that holds it is not part of this model.
- The stdin reader thread and its channel are modelled by the pure deframer (`ReadFrames`) and a finite queue that `HandleStdioIn` drains. Blocking, concurrency, and the point where stdin ends are not modelled.
- Comms.HandleStdioIn: the 32 ms wall-clock budget is a count of loop turns. Elapsed time is not modelled.
- Host.FindFont: compares whole names. LOAD_FONT_FILE and LOAD_FONT_BLOB look names up through the binding's `Font::find`, whose handling of the name is not part of this model. For the FONT opcode, see Findings.
- Script.FontLookup: looks up the whole name read. It does not model the unterminated buffer that `font` passes to nvgFindFont when the name field holds no NUL (see Findings; `FontCName` gives what that call would see).
- The `World` answers for position, size and flags are fixed for a run. `set_size` and `set_pos` are traced but do not change what QUERY_STATS later reports.
- `expect_or_send` (`src/util.rs:140-156`) is not called by any modelled function and is not modelled.
- `src/main.rs` is not modelled except the render pass's `root_script > 0` test (`RenderRoot`). Left out: window creation, the event loop, the draw interval, buffer swapping, and the GLFW event callbacks that send the input events.
- Comms.LeftoverSilent: only an image upload queues GL errors in the model (`World.imageGlErrors`). Font loads, window calls and the other foreign calls never queue one, so after any other command the closing check finds nothing.
- Script.Run: the interpreter is a pure function returning the calls it makes. The nanovg frame and the window record it receives are not threaded through, since no opcode changes them.
- The numeric values of the script opcodes are a parameter: the decode table. They are not in this repository's files.
- Script.ExecPaintIndependent, Script.PaintOnlyForNext: paint objects are values. The boxed trait objects and their lifetimes are not modelled.

## Findings

| source | as written | input that shows it | evidently intended | confidence | as-written member | corrected member |
|---|---|---|---|---|---|---|
| src/script.rs:435-446 | `font` passes the bytes of the name read straight to nvgFindFont, which reads up to a NUL, and no NUL is added | a FONT opcode whose name field has length 1 and holds `a` (0x61), with no NUL: the lookup reads past the one-byte buffer | look up the whole name read, as the font loads register it | high, not executed | Script.FontNameUnterminated | Script.FontLookup |
