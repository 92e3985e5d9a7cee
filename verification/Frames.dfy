/** Frame types and the facts the generated program states about them. */
module Frames {
  import opened Wrappers

  datatype FrameType =
    | Hello | Req | Chunk | End | Log | Err | Heartbeat | StreamStart | StreamEnd
    | RelayNotify | RelayState | Cancel | Credit | CloseStream | Policy

  /** Part of a request's flow: numbered, reordered at a relay, gated behind the flow's end. */
  predicate IsFlow(t: FrameType) {
    t in {Req, Chunk, End, Log, FrameType.Err, StreamStart, StreamEnd}
  }

  predicate IsTerminal(t: FrameType) {
    t == End || t == FrameType.Err
  }

  type MessageId = nat

  datatype FlowKey = FlowKey(rid: MessageId, xid: Option<MessageId>)

  // `body` stands for everything a frame carries that no decision here reads.
  datatype Frame = Frame(kind: FrameType, id: MessageId, xid: Option<MessageId>, num: nat, body: nat) {
    function Key(): FlowKey {
      FlowKey(id, xid)
    }
  }

  /** The flow frames of one flow, in order. */
  function OfFlow(frames: seq<Frame>, key: FlowKey): seq<Frame> {
    if frames == [] then []
    else
      var last := frames[|frames| - 1];
      OfFlow(frames[..|frames| - 1], key)
      + if IsFlow(last.kind) && last.Key() == key then [last] else []
  }

  lemma {:induction false} OfFlowAppend(a: seq<Frame>, b: seq<Frame>, key: FlowKey)
    ensures OfFlow(a + b, key) == OfFlow(a, key) + OfFlow(b, key)
  {
    if b == [] {
      assert a + b == a;
    } else {
      var init := b[..|b| - 1];
      assert (a + b)[..|a + b| - 1] == a + init;
      OfFlowAppend(a, init, key);
    }
  }

  lemma {:induction false} OfFlowMembers(frames: seq<Frame>, key: FlowKey, f: Frame)
    ensures f in OfFlow(frames, key) <==> f in frames && IsFlow(f.kind) && f.Key() == key
  {
    if frames != [] {
      var n := |frames| - 1;
      OfFlowMembers(frames[..n], key, f);
      assert frames == frames[..n] + [frames[n]];
    }
  }
}
