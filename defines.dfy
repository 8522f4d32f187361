/**
 * The protocol's numeric codes (src/defines.rs): the kinds of the events the
 * driver writes to its caller, and the codes of the commands it reads.
 */
module Defines {
  import opened Wire

  // Outbound event kinds, the first u32 of every payload the driver sends.
  const MsgOutClose: u32 := 0x00
  const MsgOutStats: u32 := 0x01
  const MsgOutPuts: u32 := 0x02
  const MsgOutWrite: u32 := 0x03
  const MsgOutInspect: u32 := 0x04
  const MsgOutReshape: u32 := 0x05
  const MsgOutReady: u32 := 0x06
  const MsgOutDrawReady: u32 := 0x07
  const MsgOutKey: u32 := 0x0A
  const MsgOutCodepoint: u32 := 0x0B
  const MsgOutCursorPos: u32 := 0x0C
  const MsgOutMouseButton: u32 := 0x0D
  const MsgOutMouseScroll: u32 := 0x0E
  const MsgOutCursorEnter: u32 := 0x0F
  const MsgOutDropPaths: u32 := 0x10
  const MsgOutCacheMiss: u32 := 0x20
  const MsgOutFontMiss: u32 := 0x22
  const MsgOutNewTxId: u32 := 0x31
  const MsgOutNewFontId: u32 := 0x32

  // Inbound command codes, the first u32 of every message the driver receives.
  // CACHE_LOAD (once 0x03, the value SET_ROOT now has), CACHE_RELEASE and the
  // display-list codes are commented out in the source and have no constant here.
  const CmdRenderGraph: u32 := 0x01
  const CmdClearGraph: u32 := 0x02
  const CmdSetRoot: u32 := 0x03
  const CmdClearColor: u32 := 0x05
  const CmdInput: u32 := 0x0A
  const CmdQuit: u32 := 0x20
  const CmdQueryStats: u32 := 0x21
  const CmdReshape: u32 := 0x22
  const CmdPosition: u32 := 0x23
  const CmdFocus: u32 := 0x24
  const CmdIconify: u32 := 0x25
  const CmdMaximize: u32 := 0x26
  const CmdRestore: u32 := 0x27
  const CmdShow: u32 := 0x28
  const CmdHide: u32 := 0x29
  const CmdNewTxId: u32 := 0x32
  const CmdFreeTxId: u32 := 0x33
  const CmdPutTxBlob: u32 := 0x34
  const CmdPutTxRaw: u32 := 0x35
  const CmdLoadFontFile: u32 := 0x37
  const CmdLoadFontBlob: u32 := 0x38
  const CmdFreeFont: u32 := 0x39
  const CmdCrash: u32 := 0xFE

  /** Every outbound kind, in declaration order. */
  const OutKinds: seq<u32> := [
    MsgOutClose, MsgOutStats, MsgOutPuts, MsgOutWrite, MsgOutInspect, MsgOutReshape,
    MsgOutReady, MsgOutDrawReady, MsgOutKey, MsgOutCodepoint, MsgOutCursorPos,
    MsgOutMouseButton, MsgOutMouseScroll, MsgOutCursorEnter, MsgOutDropPaths,
    MsgOutCacheMiss, MsgOutFontMiss, MsgOutNewTxId, MsgOutNewFontId]

  /** Every active inbound command code, in declaration order. */
  const CmdCodes: seq<u32> := [
    CmdRenderGraph, CmdClearGraph, CmdSetRoot, CmdClearColor, CmdInput, CmdQuit,
    CmdQueryStats, CmdReshape, CmdPosition, CmdFocus, CmdIconify, CmdMaximize,
    CmdRestore, CmdShow, CmdHide, CmdNewTxId, CmdFreeTxId, CmdPutTxBlob, CmdPutTxRaw,
    CmdLoadFontFile, CmdLoadFontBlob, CmdFreeFont, CmdCrash]

  /** No two elements of s are equal. */
  predicate Distinct(s: seq<u32>) {
    forall i, j | 0 <= i < j < |s| :: s[i] != s[j]
  }

  /** Whether a list of codes is strictly increasing; such a list is distinct. */
  predicate Increasing(s: seq<u32>) {
    forall i | 0 <= i < |s| - 1 :: s[i] < s[i + 1]
  }

  lemma {:induction false} IncreasingDistinct(s: seq<u32>)
    requires Increasing(s)
    ensures Distinct(s)
    decreases |s|
  {
    if |s| > 1 {
      assert Increasing(s[1..]) by {
        forall i | 0 <= i < |s[1..]| - 1 ensures s[1..][i] < s[1..][i + 1] {
          assert s[1..][i] == s[i + 1] && s[1..][i + 1] == s[i + 2];
        }
      }
      IncreasingDistinct(s[1..]);
      forall j | 0 < j < |s| ensures s[0] < s[j] {
        IncreasingFirst(s, j);
      }
      forall i, j | 0 <= i < j < |s| ensures s[i] != s[j] {
        if i > 0 {
          assert s[1..][i - 1] == s[i] && s[1..][j - 1] == s[j];
        }
      }
    }
  }

  lemma {:induction false} IncreasingFirst(s: seq<u32>, j: nat)
    requires Increasing(s) && 0 < j < |s|
    ensures s[0] < s[j]
    decreases j
  {
    if j > 1 {
      IncreasingFirst(s, j - 1);
    }
  }

  /** The outbound event kinds are pairwise distinct, so a caller can tell every event apart. */
  lemma OutKindsDistinct()
    ensures |OutKinds| == 19 && Distinct(OutKinds)
  {
    IncreasingDistinct(OutKinds);
  }

  /** The active command codes are pairwise distinct, so routing by code is unambiguous. */
  lemma CmdCodesDistinct()
    ensures |CmdCodes| == 23 && Distinct(CmdCodes)
  {
    IncreasingDistinct(CmdCodes);
  }

  /** SET_ROOT owns 0x03 alone: no other active command shares it. */
  lemma SetRootOwnsThree()
    ensures CmdSetRoot == 0x03
    ensures forall i | 0 <= i < |CmdCodes| :: CmdCodes[i] == 0x03 <==> i == 2
  {
    CmdCodesDistinct();
  }
}
