/**
 * `StreamRelayHandler`: each WebSocket text frame is parsed with
 * `SimpleJson`, dispatched on its "action" (compared ignoring case) to the
 * relay manager, and answered on the same channel.
 */
module RelayHandler {
  import opened Wrappers
  import opened JavaLang
  import SimpleJson
  import RelayManager
  import RelayTask

  const UNKNOWN_ACTION: string := "unknown action"
  const STOPPED: string := "stopped"

  /**
   * One character of `equalsIgnoreCase` against a lower-case ASCII letter:
   * it matches the letter, its upper case, or a character whose upper case
   * is that upper case (only U+017F LATIN SMALL LETTER LONG S, for 's').
   */
  predicate MatchesLetter(c: char, w: char)
    requires 'a' <= w <= 'z'
  {
    c == w || c as int == w as int - 32 || (w == 's' && c == '\U{17F}')
  }

  predicate IsLowerWord(w: string)
  {
    forall i | 0 <= i < |w| :: 'a' <= w[i] <= 'z'
  }

  /** `word.equalsIgnoreCase(s)` for a lower-case ASCII `word`; false for null. */
  predicate EqualsIgnoreCase(s: Option<string>, word: string)
    requires IsLowerWord(word)
  {
    s.Some? && |s.value| == |word| && forall i | 0 <= i < |word| :: MatchesLetter(s.value[i], word[i])
  }

  /** `map.get(key)`: null when the key is absent. */
  function Get(m: map<string, string>, key: string): Option<string>
  {
    if key in m then Some(m[key]) else None
  }

  /** What one control message asks for. */
  datatype Command =
    | Start(cameraId: Option<string>, rtsp: Option<string>, stream: Option<string>)
    | Stop(cameraId: Option<string>)
    | Status(cameraId: Option<string>)
    | Unknown

  /**
   * The dispatch of `channelRead0`. The three words have different
   * lengths, so at most one can match and the order of the tests is
   * immaterial.
   */
  function Dispatch(m: map<string, string>): (c: Command)
    ensures c.Start? <==> EqualsIgnoreCase(Get(m, "action"), "start")
    ensures c.Stop? <==> EqualsIgnoreCase(Get(m, "action"), "stop")
    ensures c.Status? <==> EqualsIgnoreCase(Get(m, "action"), "status")
    ensures c.Start? ==> c.rtsp == Get(m, "rtsp") && c.stream == Get(m, "stream")
    ensures !c.Unknown? ==> c.cameraId == Get(m, "cameraId")
  {
    var action := Get(m, "action");
    var cameraId := Get(m, "cameraId");
    if EqualsIgnoreCase(action, "start") then Start(cameraId, Get(m, "rtsp"), Get(m, "stream"))
    else if EqualsIgnoreCase(action, "stop") then Stop(cameraId)
    else if EqualsIgnoreCase(action, "status") then Status(cameraId)
    else Unknown
  }

  /** The client's end of the WebSocket: the frames sent to it, and whether it is open. */
  class Channel {
    var sent: seq<string>
    var open: bool

    constructor ()
      ensures sent == [] && open
    {
      sent := [];
      open := true;
    }

    /** `writeAndFlush(new TextWebSocketFrame(text))`: a closed channel drops the frame. */
    method WriteAndFlush(text: string)
      modifies this
      ensures sent == if old(open) then old(sent) + [text] else old(sent)
      ensures open == old(open)
    {
      if open {
        sent := sent + [text];
      }
    }

    method Close()
      modifies this
      ensures sent == old(sent) && !open
    {
      open := false;
    }
  }

  class StreamRelayHandler {
    const manager: RelayManager.StreamRelayManager

    constructor (manager: RelayManager.StreamRelayManager)
      ensures this.manager == manager
    {
      this.manager := manager;
    }

    /**
     * `channelRead0`. `npeMessage` is the message of the
     * `NullPointerException` the manager's maps throw for a missing
     * "cameraId" on stop and status (null prints as "null").
     */
    method ChannelRead0(ctx: Channel, text: string, npeMessage: Option<string>)
      requires manager.Valid()
      modifies manager, manager.store, ctx
      ensures manager.Valid()
      ensures ctx.open == old(ctx.open)
      ensures var cmd := Dispatch(SimpleJson.ParseResult(text));
        var reply := (x: string) => if old(ctx.open) then old(ctx.sent) + [x] else old(ctx.sent);
        match cmd
        case Unknown =>
          ctx.sent == reply(UNKNOWN_ACTION) && unchanged(manager) && unchanged(manager.store)
        case Stop(None) =>
          ctx.sent == reply("error:" + Str(npeMessage)) && unchanged(manager) && unchanged(manager.store)
        case Status(None) =>
          ctx.sent == reply("error:" + Str(npeMessage)) && unchanged(manager) && unchanged(manager.store)
        case Stop(Some(c)) =>
          ctx.sent == reply(STOPPED)
          && manager.cameraTaskMap == old(manager.cameraTaskMap) - {c}
          && manager.cameraToChannel == old(manager.cameraToChannel) - {c}
          && manager.jobs == (if c in old(manager.cameraTaskMap)
            then old(manager.jobs)[old(manager.cameraTaskMap)[c] := RelayManager.Cancel(old(manager.jobs)[old(manager.cameraTaskMap)[c]])]
            else old(manager.jobs))
          && manager.store.entries == (if c in old(manager.cameraToChannel)
            then old(manager.store.entries) - {old(manager.cameraToChannel)[c]} - {RelayTask.MapKey(c)}
            else old(manager.store.entries))
          && manager.currentCount == old(manager.currentCount) - 1
        case Status(Some(c)) =>
          ctx.sent == reply(RelayManager.StatusOf(
            if c in old(manager.cameraTaskMap) then Some(old(manager.jobs)[old(manager.cameraTaskMap)[c]].state) else None))
          && unchanged(manager) && unchanged(manager.store)
        case Start(None, _, _) =>
          ctx.sent == old(ctx.sent) && unchanged(manager) && unchanged(manager.store)
        case Start(Some(c), rtsp, stream) =>
          var slot := RelayManager.FirstFreeSlot(old(manager.store.entries));
          if old(manager.currentCount) + 1 <= manager.maxConcurrency && slot.Some? then
            var key := RelayManager.SlotKey(slot.value);
            var url := RelayManager.RTMP_PREFIX + Str(stream);
            && ctx.sent == reply(RelayManager.StartedReply(key, url))
            && manager.store.entries == RelayManager.Allocated(old(manager.store.entries), c)
            && manager.currentCount == old(manager.currentCount) + 1
            && manager.jobs == old(manager.jobs) + [RelayManager.Job(RelayTask.Params(rtsp, url, key, c), RelayManager.Pending)]
            && manager.cameraTaskMap == old(manager.cameraTaskMap)[c := |old(manager.jobs)|]
            && manager.cameraToChannel == old(manager.cameraToChannel)[c := key]
          else
            ctx.sent == old(ctx.sent) && unchanged(manager) && manager.store.entries == old(manager.store.entries)
    {
      var m := SimpleJson.Parse(text);
      var cmd := Dispatch(m);
      match cmd {
        case Start(cameraId, rtsp, stream) =>
          if cameraId.Some? {
            var r := manager.StartRelay(cameraId.value, rtsp, stream);
            if r.Ok? {
              ctx.WriteAndFlush(r.value);
            }
          }
        case Stop(cameraId) =>
          if cameraId.Some? {
            manager.StopRelay(cameraId.value);
            ctx.WriteAndFlush(STOPPED);
          } else {
            ctx.WriteAndFlush("error:" + Str(npeMessage));
          }
        case Status(cameraId) =>
          if cameraId.Some? {
            var status := manager.Status(cameraId.value);
            ctx.WriteAndFlush(status);
          } else {
            ctx.WriteAndFlush("error:" + Str(npeMessage));
          }
        case Unknown =>
          ctx.WriteAndFlush(UNKNOWN_ACTION);
      }
    }

    /** `exceptionCaught`: close the connection. */
    method ExceptionCaught(ctx: Channel)
      modifies ctx
      ensures ctx.sent == old(ctx.sent) && !ctx.open
    {
      ctx.Close();
    }
  }

  /** The control message a client sends to start a relay. */
  function StartMessage(cameraId: string, rtsp: string, stream: string): string
  {
    SimpleJson.Render(StartPairs(cameraId, rtsp, stream))
  }

  /** The fields of a start message as parsed. */
  function StartFields(cameraId: string, rtsp: string, stream: string): map<string, string>
  {
    map["action" := "start"]["cameraId" := cameraId]["rtsp" := rtsp]["stream" := stream]
  }

  /** The four pairs of a start message, in the order they are rendered. */
  function StartPairs(cameraId: string, rtsp: string, stream: string): seq<(string, string)>
  {
    [("action", "start"), ("cameraId", cameraId), ("rtsp", rtsp), ("stream", stream)]
  }

  lemma StartPairsMap(cameraId: string, rtsp: string, stream: string)
    ensures SimpleJson.MapOf(StartPairs(cameraId, rtsp, stream), map[]) == StartFields(cameraId, rtsp, stream)
  {
    var pairs := StartPairs(cameraId, rtsp, stream);
    var m1 := map["action" := "start"];
    var m2 := m1["cameraId" := cameraId];
    var m3 := m2["rtsp" := rtsp];
    var m4 := m3["stream" := stream];
    assert SimpleJson.MapOf(pairs[3..], m3) == SimpleJson.MapOf([], m4);
    assert SimpleJson.MapOf(pairs[2..], m2) == SimpleJson.MapOf(pairs[3..], m3);
    assert SimpleJson.MapOf(pairs[1..], m1) == SimpleJson.MapOf(pairs[2..], m2);
  }

  lemma StartPairsRenderable(cameraId: string, rtsp: string, stream: string)
    requires ',' !in cameraId && ',' !in rtsp && ',' !in stream
    ensures SimpleJson.Renderable(StartPairs(cameraId, rtsp, stream))
  {
  }

  /** A start message built from comma-free fields parses back to those fields. */
  lemma StartMessageParses(cameraId: string, rtsp: string, stream: string)
    requires ',' !in cameraId && ',' !in rtsp && ',' !in stream
    ensures SimpleJson.ParseResult(StartMessage(cameraId, rtsp, stream)) == StartFields(cameraId, rtsp, stream)
  {
    StartPairsRenderable(cameraId, rtsp, stream);
    SimpleJson.RenderRoundTrip(StartPairs(cameraId, rtsp, stream));
    StartPairsMap(cameraId, rtsp, stream);
  }

  /** The four fields of a start message are found under their names. */
  lemma StartFieldsLookups(cameraId: string, rtsp: string, stream: string)
    ensures var m := StartFields(cameraId, rtsp, stream);
      Get(m, "action") == Some("start") && Get(m, "cameraId") == Some(cameraId)
      && Get(m, "rtsp") == Some(rtsp) && Get(m, "stream") == Some(stream)
  {
    assert "action"[0] != "stream"[0];
  }

  /** Any message whose action is "start" dispatches to a start with its other three fields. */
  lemma StartDispatches(m: map<string, string>)
    requires Get(m, "action") == Some("start")
    ensures Dispatch(m) == Start(Get(m, "cameraId"), Get(m, "rtsp"), Get(m, "stream"))
  {
    assert EqualsIgnoreCase(Some("start"), "start");
  }

  /**
   * A start message built from comma-free fields reaches the manager as a
   * start with exactly those fields, whatever colons the RTSP address has.
   */
  lemma StartMessageDispatches(cameraId: string, rtsp: string, stream: string)
    requires ',' !in cameraId && ',' !in rtsp && ',' !in stream
    ensures Dispatch(SimpleJson.ParseResult(StartMessage(cameraId, rtsp, stream)))
      == Start(Some(cameraId), Some(rtsp), Some(stream))
  {
    StartMessageParses(cameraId, rtsp, stream);
    StartFieldsLookups(cameraId, rtsp, stream);
    StartDispatches(StartFields(cameraId, rtsp, stream));
  }
}
