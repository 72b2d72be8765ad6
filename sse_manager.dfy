/**
 * `SseManager`: the registry of server-sent-event clients. Two maps, kept with
 * the same keys, record each client's emitter and topic. Sending only submits
 * a task to an executor; the tasks submitted so far are the `outbox`, and a
 * task that fails to write removes its client.
 */
module Sse {
  import opened Wrappers
  import opened JavaLang

  const DEFAULT_TOPIC: string := "SYS_MSG_TOPIC"
  const MESSAGE_EVENT: string := "message"
  const NULL_POINTER: string := "java.lang.NullPointerException"
  /** Length of "Bearer ": what the fallback cuts off the `authorization` header. */
  const BEARER_LENGTH: nat := 7

  /** A send submitted to the executor: the emitter it writes to and the event it writes. */
  datatype Send = Send(emitter: nat, event: string, data: string, clientId: string)

  /** The topic a connection is filed under: a missing or blank one becomes the default topic. */
  function TopicOrDefault(topic: Option<string>): (t: string)
    ensures !IsBlank(t)
    ensures topic.Some? && !IsBlank(topic.value) ==> t == topic.value
    ensures IsBlankOrNull(topic) ==> t == DEFAULT_TOPIC
  {
    if IsBlankOrNull(topic) then
      assert !IsWhitespace(DEFAULT_TOPIC[0]);
      DEFAULT_TOPIC
    else topic.value
  }

  /** commons-lang `StringUtils.substring(str, start)` for a start that is not negative. */
  function SubstringFrom(str: Option<string>, start: nat): (r: Option<string>)
    ensures r.None? <==> str.None?
    ensures r.Some? ==> EndsWith(str.value, r.value) && |r.value| == if start <= |str.value| then |str.value| - start else 0
  {
    if str.None? then None
    else if start > |str.value| then Some("")
    else Some(str.value[start..])
  }

  /**
   * The client `sendToClient` looks up: the one named, or when that name is
   * missing or blank, the token of the `authorization` header of the current
   * request (`header`).
   */
  function Resolve(clientId: Option<string>, header: Option<string>): (id: Option<string>)
    ensures !IsBlankOrNull(clientId) ==> id == clientId
    ensures IsBlankOrNull(clientId) ==> id == SubstringFrom(header, BEARER_LENGTH)
  {
    if IsBlankOrNull(clientId) then SubstringFrom(header, BEARER_LENGTH) else clientId
  }

  /**
   * What `sendToClient` submits: nothing for an unknown client, one "message"
   * event for a registered one, and a `NullPointerException` when no client
   * id can be found (the map refuses a null key).
   */
  function Delivery(clients: map<string, nat>, clientId: Option<string>, message: string, header: Option<string>)
    : (r: Result<seq<Send>, string>)
    ensures r.Err? <==> Resolve(clientId, header).None?
    ensures r.Err? ==> r.error == NULL_POINTER
    ensures r.Ok? ==> |r.value| <= 1
    ensures r.Ok? ==> (r.value == [] <==> Resolve(clientId, header).value !in clients)
    ensures r.Ok? && r.value != [] ==>
      var id := Resolve(clientId, header).value;
      r.value[0] == Send(clients[id], MESSAGE_EVENT, message, id)
  {
    var id := Resolve(clientId, header);
    if id.None? then Err(NULL_POINTER)
    else if id.value !in clients then Ok([])
    else Ok([Send(clients[id.value], MESSAGE_EVENT, message, id.value)])
  }

  /** The sends for the clients `ids`, visited in that order, each of which resolves. */
  function Fanout(clients: map<string, nat>, ids: seq<string>, message: string, header: Option<string>): (r: seq<Send>)
    requires forall i | 0 <= i < |ids| :: Resolve(Some(ids[i]), header).Some?
    ensures |r| <= |ids|
    ensures forall s | s in r ::
      s.event == MESSAGE_EVENT && s.data == message && s.clientId in clients && s.emitter == clients[s.clientId]
    decreases |ids|
  {
    if ids == [] then []
    else
      var init := ids[..|ids| - 1];
      Fanout(clients, init, message, header) + Delivery(clients, Some(ids[|ids| - 1]), message, header).value
  }

  /** The clients filed under `topic` (`t.equals(topic)`, so a missing topic matches none). */
  function TopicMembers(clientTopics: map<string, string>, topic: Option<string>): (r: set<string>)
    ensures forall k :: k in r <==> k in clientTopics && topic == Some(clientTopics[k])
  {
    set k | k in clientTopics && topic == Some(clientTopics[k])
  }

  /** `ids` visits each client of `targets` exactly once. */
  predicate Enumerates(ids: seq<string>, targets: set<string>)
  {
    (forall i, j | 0 <= i < j < |ids| :: ids[i] != ids[j]) && (set i | 0 <= i < |ids| :: ids[i]) == targets
  }

  /** Sending to registered, non-blank ids reaches each one's current emitter exactly once. */
  lemma {:induction false} FanoutReachesEach(clients: map<string, nat>, ids: seq<string>, message: string, header: Option<string>)
    requires forall i | 0 <= i < |ids| :: ids[i] in clients && !IsBlank(ids[i])
    ensures |Fanout(clients, ids, message, header)| == |ids|
    ensures forall i | 0 <= i < |ids| ::
      Fanout(clients, ids, message, header)[i] == Send(clients[ids[i]], MESSAGE_EVENT, message, ids[i])
    decreases |ids|
  {
    if ids != [] {
      FanoutReachesEach(clients, ids[..|ids| - 1], message, header);
    }
  }

  /** Visiting one more client appends what `sendToClient` submits for it. */
  lemma FanoutSnoc(clients: map<string, nat>, ids: seq<string>, k: string, message: string, header: Option<string>)
    requires forall i | 0 <= i < |ids| :: Resolve(Some(ids[i]), header).Some?
    requires Resolve(Some(k), header).Some?
    ensures forall i | 0 <= i < |ids + [k]| :: Resolve(Some((ids + [k])[i]), header).Some?
    ensures Fanout(clients, ids + [k], message, header)
      == Fanout(clients, ids, message, header) + Delivery(clients, Some(k), message, header).value
  {
    assert (ids + [k])[..|ids|] == ids;
  }

  /**
   * Part way through visiting `targets`: `rest` is still to visit, and `ids`
   * has visited, without repeats, every other target, each of which resolved.
   */
  predicate Progress(targets: set<string>, rest: set<string>, ids: seq<string>, header: Option<string>)
  {
    && rest <= targets
    && (forall i | 0 <= i < |ids| :: ids[i] in targets && ids[i] !in rest && Resolve(Some(ids[i]), header).Some?)
    && (forall i, j | 0 <= i < j < |ids| :: ids[i] != ids[j])
    && (forall k | k in targets && k !in rest :: k in ids)
  }

  lemma ProgressStep(targets: set<string>, rest: set<string>, ids: seq<string>, k: string, header: Option<string>)
    requires Progress(targets, rest, ids, header) && k in rest && Resolve(Some(k), header).Some?
    ensures Progress(targets, rest - {k}, ids + [k], header)
  {
  }

  /** A visit that has nothing left enumerates the targets, and each of them resolved. */
  lemma ProgressDone(targets: set<string>, ids: seq<string>, header: Option<string>)
    requires Progress(targets, {}, ids, header)
    ensures Enumerates(ids, targets)
    ensures forall k | k in targets :: Resolve(Some(k), header).Some?
  {
    forall k | k in targets ensures Resolve(Some(k), header).Some? {
      var i :| 0 <= i < |ids| && ids[i] == k;
    }
  }

  class SseManager {
    /** clientId -> emitter (emitters are numbered in creation order). */
    var clients: map<string, nat>
    /** clientId -> topic. */
    var clientTopics: map<string, string>
    /** How many emitters have been created. */
    var emitters: nat
    /** The sends submitted to the executor, in submission order. */
    var outbox: seq<Send>

    /** Both maps name the same clients, and every emitter in use has been created. */
    ghost predicate Valid()
      reads this
    {
      clients.Keys == clientTopics.Keys && forall k | k in clients :: clients[k] < emitters
    }

    constructor ()
      ensures Valid() && clients == map[] && clientTopics == map[] && emitters == 0 && outbox == []
    {
      clients := map[];
      clientTopics := map[];
      emitters := 0;
      outbox := [];
    }

    /** `createConnection`: a new emitter, replacing any earlier entry of the client in both maps. */
    method CreateConnection(clientId: string, topic: Option<string>) returns (emitter: nat)
      requires Valid()
      modifies this
      ensures Valid()
      ensures emitter == old(emitters) && emitters == emitter + 1
      ensures clients == old(clients)[clientId := emitter]
      ensures clientTopics == old(clientTopics)[clientId := TopicOrDefault(topic)]
      ensures outbox == old(outbox)
    {
      var t := TopicOrDefault(topic);
      emitter := emitters;
      emitters := emitters + 1;
      clients := clients[clientId := emitter];
      clientTopics := clientTopics[clientId := t];
    }

    /**
     * `removeClient`: drops the client from both maps (removing an absent one
     * changes nothing). The emitter's completion, timeout and error callbacks
     * all call it.
     */
    method RemoveClient(clientId: string)
      requires Valid()
      modifies this
      ensures Valid()
      ensures clients == old(clients) - {clientId} && clientTopics == old(clientTopics) - {clientId}
      ensures clientId !in old(clients) ==> clients == old(clients) && clientTopics == old(clientTopics)
      ensures emitters == old(emitters) && outbox == old(outbox)
    {
      clients := clients - {clientId};
      clientTopics := clientTopics - {clientId};
    }

    /** `sendToClient`: submits a "message" event to the client's emitter, if it is registered. */
    method SendToClient(clientId: Option<string>, message: string, header: Option<string>) returns (r: Result<(), string>)
      modifies this
      ensures var d := Delivery(old(clients), clientId, message, header);
        (r.Err? <==> d.Err?) && (r.Err? ==> r.error == d.error)
        && outbox == old(outbox) + (if d.Ok? then d.value else [])
      ensures clients == old(clients) && clientTopics == old(clientTopics) && emitters == old(emitters)
    {
      var id := Resolve(clientId, header);
      if id.None? {
        return Err(NULL_POINTER);
      }
      if id.value !in clients {
        return Ok(());
      }
      outbox := outbox + [Send(clients[id.value], MESSAGE_EVENT, message, id.value)];
      r := Ok(());
    }

    /**
     * Calls `sendToClient` for each of `targets`, in an order the map
     * chooses (`visited`). A target that cannot be resolved throws and ends
     * the iteration; the sends already submitted stay.
     */
    method SendToEach(targets: set<string>, message: string, header: Option<string>)
      returns (visited: seq<string>, r: Result<(), string>)
      modifies this
      ensures r.Err? <==> exists k | k in targets :: Resolve(Some(k), header).None?
      ensures r.Err? ==> r.error == NULL_POINTER
      ensures r.Ok? ==> Enumerates(visited, targets)
      ensures forall i | 0 <= i < |visited| :: visited[i] in targets && Resolve(Some(visited[i]), header).Some?
      ensures outbox == old(outbox) + Fanout(old(clients), visited, message, header)
      ensures clients == old(clients) && clientTopics == old(clientTopics) && emitters == old(emitters)
    {
      var rest := targets;
      visited := [];
      ghost var start := outbox;
      ghost var cs := clients;
      while rest != {}
        invariant Progress(targets, rest, visited, header)
        invariant outbox == start + Fanout(cs, visited, message, header)
        invariant clients == cs && clientTopics == old(clientTopics) && emitters == old(emitters)
        decreases |rest|
      {
        var k :| k in rest;
        var sent := Visit(k, message, header, targets, rest, visited, start);
        if sent.Err? {
          return visited, sent;
        }
        visited := visited + [k];
        rest := rest - {k};
      }
      ProgressDone(targets, visited, header);
      r := Ok(());
    }

    /** One step of `SendToEach`: `sendToClient` for the target `k`, which the visit has not reached yet. */
    method Visit(k: string, message: string, header: Option<string>, ghost targets: set<string>,
                 ghost rest: set<string>, ghost visited: seq<string>, ghost start: seq<Send>)
      returns (sent: Result<(), string>)
      requires Progress(targets, rest, visited, header) && k in rest
      requires outbox == start + Fanout(clients, visited, message, header)
      modifies this
      ensures sent.Err? <==> Resolve(Some(k), header).None?
      ensures sent.Err? ==> sent.error == NULL_POINTER && outbox == old(outbox)
      ensures sent.Ok? ==> Progress(targets, rest - {k}, visited + [k], header)
      ensures sent.Ok? ==> outbox == start + Fanout(clients, visited + [k], message, header)
      ensures clients == old(clients) && clientTopics == old(clientTopics) && emitters == old(emitters)
    {
      sent := SendToClient(Some(k), message, header);
      if sent.Ok? {
        FanoutSnoc(clients, visited, k, message, header);
        ghost var d := Delivery(clients, Some(k), message, header).value;
        ghost var sentSoFar := Fanout(clients, visited, message, header);
        assert outbox == old(outbox) + d;
        assert (start + sentSoFar) + d == start + (sentSoFar + d);
        ProgressStep(targets, rest, visited, k, header);
      }
    }

    /** `sendToTopic`: a "message" event to every client filed under `topic`. */
    method SendToTopic(topic: Option<string>, message: string, header: Option<string>)
      returns (visited: seq<string>, r: Result<(), string>)
      modifies this
      ensures r.Err? <==> exists k | k in TopicMembers(old(clientTopics), topic) :: Resolve(Some(k), header).None?
      ensures r.Ok? ==> Enumerates(visited, TopicMembers(old(clientTopics), topic))
      ensures forall i | 0 <= i < |visited| :: visited[i] in TopicMembers(old(clientTopics), topic)
      ensures forall i | 0 <= i < |visited| :: Resolve(Some(visited[i]), header).Some?
      ensures outbox == old(outbox) + Fanout(old(clients), visited, message, header)
      ensures clients == old(clients) && clientTopics == old(clientTopics) && emitters == old(emitters)
    {
      visited, r := SendToEach(TopicMembers(clientTopics, topic), message, header);
    }

    /** `broadcast`: a "message" event to every registered client. */
    method Broadcast(message: string, header: Option<string>) returns (visited: seq<string>, r: Result<(), string>)
      modifies this
      ensures r.Err? <==> exists k | k in old(clients) :: Resolve(Some(k), header).None?
      ensures r.Ok? ==> Enumerates(visited, old(clients).Keys)
      ensures forall i | 0 <= i < |visited| :: visited[i] in old(clients)
      ensures forall i | 0 <= i < |visited| :: Resolve(Some(visited[i]), header).Some?
      ensures outbox == old(outbox) + Fanout(old(clients), visited, message, header)
      ensures clients == old(clients) && clientTopics == old(clientTopics) && emitters == old(emitters)
    {
      visited, r := SendToEach(clients.Keys, message, header);
    }

    /**
     * The task of `asyncSend` finishing: a write that fails (an `IOException`)
     * removes the client it was addressed to, whatever emitter that client
     * holds by then.
     */
    method Deliver(send: Send, fails: bool)
      requires Valid()
      modifies this
      ensures Valid()
      ensures fails ==> clients == old(clients) - {send.clientId} && clientTopics == old(clientTopics) - {send.clientId}
      ensures !fails ==> clients == old(clients) && clientTopics == old(clientTopics)
      ensures emitters == old(emitters) && outbox == old(outbox)
    {
      if fails {
        RemoveClient(send.clientId);
      }
    }
  }

  /**
   * A client that reconnects while a send to its old emitter is pending loses
   * its new connection when that old send fails.
   */
  method StaleFailureDropsReconnect() returns (first: nat, second: nat, registered: bool)
    ensures first != second && !registered
  {
    assert !IsBlank("a") by { assert !IsWhitespace("a"[0]); }
    var manager := new SseManager();
    first := manager.CreateConnection("a", None);
    var sent := manager.SendToClient(Some("a"), "hello", None);
    assert manager.outbox == [Send(first, MESSAGE_EVENT, "hello", "a")];
    second := manager.CreateConnection("a", None);
    manager.Deliver(manager.outbox[0], true);
    registered := "a" in manager.clients;
  }
}
