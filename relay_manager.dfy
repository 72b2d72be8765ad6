/**
 * `StreamRelayManager`: admits relay requests against a concurrency counter,
 * claims one of sixteen channel slots in the store, submits a worker per
 * camera and remembers camera -> future and camera -> slot, stops a camera's
 * relay and reports its status.
 *
 * The relay executor is modelled by the list of submitted jobs (indices are
 * future identities) and their future states; running a job is `RunJob`,
 * which plays one worker run through `RelayTask.Call`.
 */
module RelayManager {
  import opened Wrappers
  import opened LeaseStore
  import opened JavaLang
  import Decimal
  import RelayTask

  const CHANNEL_KEY_PREFIX: string := "camera:live_"
  const TOTAL_CHANNELS: nat := 16
  const CHANNEL_TTL: nat := 60
  const RTMP_PREFIX: string := "rtmp://127.0.0.1:1935/live/"
  /** The messages of the two admission failures. */
  const TOO_MANY_RELAYS: string := "超出最大并发推流数"
  const NO_FREE_CHANNEL: string := "没有可用通道"
  /** `ExecutionException.getMessage()` when the worker rethrew the interrupt from `Thread.sleep`. */
  const INTERRUPTED_TEXT: string := "java.lang.InterruptedException: sleep interrupted"

  /** The state of a submitted worker's `Future`. */
  datatype FutureState = Pending | Cancelled | Completed(value: string) | Failed(message: string)

  /** One submission to the relay executor. */
  datatype Job = Job(task: RelayTask.Params, state: FutureState)

  /** The store key of channel slot i: `"camera:live_" + i`. */
  function SlotKey(i: nat): string
  {
    CHANNEL_KEY_PREFIX + Decimal.NatToString(i)
  }

  predicate IsSlotKey(k: string)
  {
    exists i | 1 <= i <= TOTAL_CHANNELS :: k == SlotKey(i)
  }

  lemma SlotKeyInjective(i: nat, j: nat)
    requires SlotKey(i) == SlotKey(j)
    ensures i == j
  {
    var n := |CHANNEL_KEY_PREFIX|;
    assert Decimal.NatToString(i) == SlotKey(i)[n..];
    assert Decimal.NatToString(j) == SlotKey(j)[n..];
    Decimal.NatRoundTrip(i);
    Decimal.NatRoundTrip(j);
  }

  /** A slot key is never a camera's map key: they differ at position 7. */
  lemma SlotKeyIsNotMapKey(i: nat, cameraId: string)
    ensures SlotKey(i) != RelayTask.MapKey(cameraId)
  {
    assert SlotKey(i)[7] == 'l';
    assert RelayTask.MapKey(cameraId)[7] == 'm';
  }

  /** The first free slot from i on, scanning upwards as `allocateChannel` does. */
  function FreeFrom(entries: map<string, Lease>, i: nat): (r: Option<nat>)
    requires 1 <= i <= TOTAL_CHANNELS + 1
    ensures r.Some? ==>
      && i <= r.value <= TOTAL_CHANNELS && SlotKey(r.value) !in entries
      && forall j | i <= j < r.value :: SlotKey(j) in entries
    ensures r.None? ==> forall j | i <= j <= TOTAL_CHANNELS :: SlotKey(j) in entries
    decreases TOTAL_CHANNELS + 1 - i
  {
    if i > TOTAL_CHANNELS then None
    else if SlotKey(i) !in entries then Some(i)
    else FreeFrom(entries, i + 1)
  }

  /** The lowest-numbered free slot, if any. */
  function FirstFreeSlot(entries: map<string, Lease>): Option<nat>
  {
    FreeFrom(entries, 1)
  }

  /** The store after a successful or failed allocation for `cameraId`. */
  function Allocated(entries: map<string, Lease>, cameraId: string): map<string, Lease>
  {
    match FirstFreeSlot(entries)
    case None => entries
    case Some(i) =>
      entries[SlotKey(i) := Lease(cameraId, CHANNEL_TTL)][RelayTask.MapKey(cameraId) := Lease(SlotKey(i), CHANNEL_TTL)]
  }

  /** `"started:" + channelKey + ", rtmp=" + rtmpUrl`. */
  function StartedReply(channelKey: string, rtmpUrl: string): string
  {
    "started:" + channelKey + ", rtmp=" + rtmpUrl
  }

  /** The effect of `Future.cancel(true)`: only a future not yet done changes. */
  function Cancel(j: Job): Job
  {
    if j.state.Pending? then j.(state := Cancelled) else j
  }

  /** The future's state once the worker's `call()` has ended with `o`. */
  function Settle(j: Job, o: RelayTask.Outcome): Job
  {
    if !j.state.Pending? then j
    else match o
      case Blocked => j
      case Finished => j.(state := Completed(RelayTask.FINISHED))
      case Interrupted => j.(state := Failed(INTERRUPTED_TEXT))
      case Failed(m) => j.(state := Failed(m))
  }

  /** The text `status` answers for a camera whose future is `f` (or none). */
  function StatusOf(f: Option<FutureState>): string
  {
    match f
    case None => "stopped"
    case Some(Cancelled) => "cancelled"
    case Some(Completed(v)) => "done:" + v
    case Some(Failed(m)) => "done:error:" + m
    case Some(Pending) => "running"
  }

  /** The future states a worker can have while its camera is mapped. */
  predicate Reachable(f: Option<FutureState>)
  {
    f.None? || f.value.Pending? || f.value == Completed(RelayTask.FINISHED) || f.value.Failed?
  }

  /** On the states a worker can reach, the status text identifies the state. */
  lemma StatusIdentifiesState(f: Option<FutureState>, g: Option<FutureState>)
    requires Reachable(f) && Reachable(g) && StatusOf(f) == StatusOf(g)
    ensures f == g
  {
    var s := StatusOf(f);
    if f.Some? && f.value.Failed? {
      assert s[5] == 'e';
      if g.Some? && g.value.Failed? {
        assert f.value.message == s[11..] == g.value.message;
      }
    } else if f.Some? && f.value.Completed? {
      assert s[5] == 'f';
    }
  }

  /** A future that completes with a value starting "error:" reads as a failure. */
  lemma CompletedErrorReadsAsFailure(m: string)
    ensures StatusOf(Some(Completed("error:" + m))) == StatusOf(Some(Failed(m)))
  {
    assert "done:" + ("error:" + m) == ("done:" + "error:") + m;
  }

  /**
   * The manager's invariant: the counter is within the limit between calls;
   * both camera maps have the same cameras; each mapped camera points at its
   * own job, started for that camera on that slot and not cancelled; every
   * job holds a slot key.
   */
  predicate Consistent(max: int, count: int, tasks: map<string, nat>, channels: map<string, string>, jobs: seq<Job>)
  {
    && max >= 1
    && count <= max
    && tasks.Keys == channels.Keys
    && (forall c | c in tasks ::
          tasks[c] < |jobs|
          && jobs[tasks[c]].task.cameraId == c
          && jobs[tasks[c]].task.channelKey == channels[c]
          && !jobs[tasks[c]].state.Cancelled?)
    && (forall c, d | c in tasks && d in tasks && c != d :: tasks[c] != tasks[d])
    && (forall j | 0 <= j < |jobs| :: IsSlotKey(jobs[j].task.channelKey))
  }

  /** An admitted start keeps the invariant, even for a camera already mapped. */
  lemma StartKeepsInvariant(max: int, count: int, tasks: map<string, nat>, channels: map<string, string>,
                            jobs: seq<Job>, task: RelayTask.Params)
    requires Consistent(max, count, tasks, channels, jobs)
    requires count + 1 <= max && IsSlotKey(task.channelKey)
    ensures Consistent(max, count + 1, tasks[task.cameraId := |jobs|], channels[task.cameraId := task.channelKey],
                       jobs + [Job(task, Pending)])
  {
    var jobs' := jobs + [Job(task, Pending)];
    var tasks' := tasks[task.cameraId := |jobs|];
    forall c | c in tasks' && c != task.cameraId
      ensures tasks'[c] < |jobs| && jobs'[tasks'[c]] == jobs[tasks[c]]
    {
    }
  }

  /** Cancelling a mapped camera's future and dropping it from both maps keeps the invariant. */
  lemma CancelKeepsInvariant(max: int, count: int, tasks: map<string, nat>, channels: map<string, string>,
                             jobs: seq<Job>, cameraId: string)
    requires Consistent(max, count, tasks, channels, jobs) && cameraId in tasks
    ensures Consistent(max, count - 1, tasks - {cameraId}, channels - {cameraId},
                       jobs[tasks[cameraId] := Cancel(jobs[tasks[cameraId]])])
  {
    var id := tasks[cameraId];
    var jobs' := jobs[id := Cancel(jobs[id])];
    forall c | c in tasks - {cameraId}
      ensures tasks[c] != id && jobs'[tasks[c]] == jobs[tasks[c]]
    {
    }
    assert forall j | 0 <= j < |jobs'| :: jobs'[j].task == jobs[j].task;
  }

  /** A stop keeps the invariant, whether or not the camera was mapped. */
  lemma StopKeepsInvariant(max: int, count: int, tasks: map<string, nat>, channels: map<string, string>,
                           jobs: seq<Job>, cameraId: string)
    requires Consistent(max, count, tasks, channels, jobs)
    ensures Consistent(max, count - 1, tasks - {cameraId}, channels - {cameraId},
                       if cameraId in tasks then jobs[tasks[cameraId] := Cancel(jobs[tasks[cameraId]])] else jobs)
  {
    if cameraId in tasks {
      CancelKeepsInvariant(max, count, tasks, channels, jobs, cameraId);
    } else {
      assert tasks - {cameraId} == tasks && channels - {cameraId} == channels;
    }
  }

  /** A worker's end keeps the invariant: a settled future is never cancelled. */
  lemma SettleKeepsInvariant(max: int, count: int, tasks: map<string, nat>, channels: map<string, string>,
                             jobs: seq<Job>, id: nat, o: RelayTask.Outcome)
    requires Consistent(max, count, tasks, channels, jobs) && id < |jobs|
    ensures Consistent(max, count, tasks, channels, jobs[id := Settle(jobs[id], o)])
  {
    var jobs' := jobs[id := Settle(jobs[id], o)];
    assert forall j | 0 <= j < |jobs'| :: jobs'[j].task == jobs[j].task;
  }

  class StreamRelayManager {
    /** The external store shared with the workers. */
    const store: Store
    const maxConcurrency: int
    /** The `AtomicInteger` admission counter. */
    var currentCount: int
    /** camera -> index of its future in `jobs`. */
    var cameraTaskMap: map<string, nat>
    /** camera -> the slot key it holds. */
    var cameraToChannel: map<string, string>
    /** Every submission to the relay executor, in order. */
    var jobs: seq<Job>

    ghost predicate Valid()
      reads this
    {
      Consistent(maxConcurrency, currentCount, cameraTaskMap, cameraToChannel, jobs)
    }

    /** `new StreamRelayManager(maxConcurrency)`; a fixed pool needs at least one thread. */
    constructor (store: Store, maxConcurrency: int)
      requires maxConcurrency >= 1
      ensures Valid()
      ensures this.store == store && this.maxConcurrency == maxConcurrency
      ensures currentCount == 0 && cameraTaskMap == map[] && cameraToChannel == map[] && jobs == []
    {
      this.store := store;
      this.maxConcurrency := maxConcurrency;
      currentCount := 0;
      cameraTaskMap := map[];
      cameraToChannel := map[];
      jobs := [];
    }

    /** `allocateChannel`: claim the first free slot and record the camera's map key. */
    method AllocateChannel(cameraId: string) returns (key: Option<string>)
      modifies store
      ensures key == if FirstFreeSlot(old(store.entries)).Some?
        then Some(SlotKey(FirstFreeSlot(old(store.entries)).value)) else None
      ensures store.entries == Allocated(old(store.entries), cameraId)
    {
      var i := 1;
      while i <= TOTAL_CHANNELS
        invariant 1 <= i <= TOTAL_CHANNELS + 1
        invariant store.entries == old(store.entries)
        invariant FreeFrom(store.entries, i) == FirstFreeSlot(store.entries)
      {
        var channelKey := CHANNEL_KEY_PREFIX + Decimal.NatToString(i);
        var ok := store.TrySet(channelKey, cameraId, CHANNEL_TTL);
        if ok {
          store.Set(RelayTask.MapKey(cameraId), channelKey, CHANNEL_TTL);
          return Some(channelKey);
        }
        i := i + 1;
      }
      return None;
    }

    /**
     * `startRelay`, run to the end of its asynchronous step: the result is
     * the reply text or the message of the exception the future fails with.
     */
    method StartRelay(cameraId: string, rtspUrl: Option<string>, streamName: Option<string>)
      returns (r: Result<string, string>)
      requires Valid()
      modifies this, store
      ensures Valid()
      ensures old(currentCount) + 1 > maxConcurrency ==>
        r == Err(TOO_MANY_RELAYS) && unchanged(this) && store.entries == old(store.entries)
      ensures old(currentCount) + 1 <= maxConcurrency && FirstFreeSlot(old(store.entries)).None? ==>
        r == Err(NO_FREE_CHANNEL) && unchanged(this) && store.entries == old(store.entries)
      ensures old(currentCount) + 1 <= maxConcurrency && FirstFreeSlot(old(store.entries)).Some? ==>
        var key := SlotKey(FirstFreeSlot(old(store.entries)).value);
        var url := RTMP_PREFIX + Str(streamName);
        && r == Ok(StartedReply(key, url))
        && store.entries == Allocated(old(store.entries), cameraId)
        && currentCount == old(currentCount) + 1
        && jobs == old(jobs) + [Job(RelayTask.Params(rtspUrl, url, key, cameraId), Pending)]
        && cameraTaskMap == old(cameraTaskMap)[cameraId := |old(jobs)|]
        && cameraToChannel == old(cameraToChannel)[cameraId := key]
    {
      currentCount := currentCount + 1;
      if currentCount > maxConcurrency {
        currentCount := currentCount - 1;
        return Err(TOO_MANY_RELAYS);
      }
      var channelKey := AllocateChannel(cameraId);
      if channelKey.None? {
        assert store.entries == old(store.entries);
        currentCount := currentCount - 1;
        return Err(NO_FREE_CHANNEL);
      }
      var key := channelKey.value;
      ghost var i := FirstFreeSlot(old(store.entries)).value;
      assert IsSlotKey(key) by { assert key == SlotKey(i) && 1 <= i <= TOTAL_CHANNELS; }
      var rtmpUrl := RTMP_PREFIX + Str(streamName);
      Submit(RelayTask.Params(rtspUrl, rtmpUrl, key, cameraId));
      r := Ok(StartedReply(key, rtmpUrl));
    }

    /** The admitted part of `startRelay`, once counted: submit the task and record the camera. */
    method Submit(task: RelayTask.Params)
      requires Consistent(maxConcurrency, currentCount - 1, cameraTaskMap, cameraToChannel, jobs)
      requires currentCount <= maxConcurrency && IsSlotKey(task.channelKey)
      modifies this
      ensures Valid()
      ensures currentCount == old(currentCount)
      ensures jobs == old(jobs) + [Job(task, Pending)]
      ensures cameraTaskMap == old(cameraTaskMap)[task.cameraId := |old(jobs)|]
      ensures cameraToChannel == old(cameraToChannel)[task.cameraId := task.channelKey]
    {
      StartKeepsInvariant(maxConcurrency, currentCount - 1, cameraTaskMap, cameraToChannel, jobs, task);
      jobs := jobs + [Job(task, Pending)];
      cameraTaskMap := cameraTaskMap[task.cameraId := |jobs| - 1];
      cameraToChannel := cameraToChannel[task.cameraId := task.channelKey];
    }

    /**
     * `stopRelay`: forget the camera, cancel its future, delete its slot and
     * map keys when it held a slot, and decrement the counter in every case.
     */
    method StopRelay(cameraId: string)
      requires Valid()
      modifies this, store
      ensures Valid()
      ensures cameraTaskMap == old(cameraTaskMap) - {cameraId}
      ensures cameraToChannel == old(cameraToChannel) - {cameraId}
      ensures jobs == if cameraId in old(cameraTaskMap)
        then old(jobs)[old(cameraTaskMap)[cameraId] := Cancel(old(jobs)[old(cameraTaskMap)[cameraId]])]
        else old(jobs)
      ensures store.entries == if cameraId in old(cameraToChannel)
        then old(store.entries) - {old(cameraToChannel)[cameraId]} - {RelayTask.MapKey(cameraId)}
        else old(store.entries)
      ensures currentCount == old(currentCount) - 1
    {
      var channelKey := Forget(cameraId);
      if channelKey.Some? {
        store.Delete(channelKey.value);
        store.Delete(RelayTask.MapKey(cameraId));
      }
      currentCount := currentCount - 1;
    }

    /** The in-memory part of `stopRelay`: drop both map entries and cancel the future. */
    method Forget(cameraId: string) returns (channelKey: Option<string>)
      requires Valid()
      modifies this
      ensures Consistent(maxConcurrency, currentCount - 1, cameraTaskMap, cameraToChannel, jobs)
      ensures currentCount == old(currentCount)
      ensures cameraTaskMap == old(cameraTaskMap) - {cameraId}
      ensures cameraToChannel == old(cameraToChannel) - {cameraId}
      ensures jobs == if cameraId in old(cameraTaskMap)
        then old(jobs)[old(cameraTaskMap)[cameraId] := Cancel(old(jobs)[old(cameraTaskMap)[cameraId]])]
        else old(jobs)
      ensures channelKey == if cameraId in old(cameraToChannel) then Some(old(cameraToChannel)[cameraId]) else None
    {
      var f: Option<nat> := None;
      if cameraId in cameraTaskMap {
        f := Some(cameraTaskMap[cameraId]);
        cameraTaskMap := cameraTaskMap - {cameraId};
      }
      channelKey := None;
      if cameraId in cameraToChannel {
        channelKey := Some(cameraToChannel[cameraId]);
        cameraToChannel := cameraToChannel - {cameraId};
      }
      StopKeepsInvariant(maxConcurrency, currentCount, old(cameraTaskMap), old(cameraToChannel), jobs, cameraId);
      if f.Some? {
        jobs := jobs[f.value := Cancel(jobs[f.value])];
      }
    }

    /** `status`: the text for the camera's current future; never "cancelled". */
    method Status(cameraId: string) returns (s: string)
      requires Valid()
      ensures s == StatusOf(if cameraId in cameraTaskMap then Some(jobs[cameraTaskMap[cameraId]].state) else None)
      ensures s != "cancelled"
    {
      if cameraId !in cameraTaskMap {
        return "stopped";
      }
      var f := jobs[cameraTaskMap[cameraId]].state;
      if f.Cancelled? {
        return "cancelled";
      }
      if !f.Pending? {
        if f.Completed? {
          assert ("done:" + f.value)[0] == 'd';
          return "done:" + f.value;
        }
        return "done:error:" + f.message;
      }
      return "running";
    }

    /**
     * One relay executor thread runs job `id` to its end (or into a grab that
     * never returns). The camera maps and the counter are untouched: a
     * relay that ends by itself still holds its map entries and its share of
     * the counter until `stopRelay`.
     */
    method RunJob(id: nat, src: RelayTask.Source) returns (outcome: RelayTask.Outcome)
      requires Valid() && id < |jobs|
      modifies this, store
      ensures Valid()
      ensures var run := RelayTask.Run(old(jobs)[id].task, src, old(store.entries));
        outcome == run.outcome && store.entries == run.world.store
      ensures jobs == old(jobs)[id := Settle(old(jobs)[id], outcome)]
      ensures cameraTaskMap == old(cameraTaskMap) && cameraToChannel == old(cameraToChannel)
      ensures currentCount == old(currentCount)
    {
      var trace;
      outcome, trace := RelayTask.Call(store, jobs[id].task, src);
      SettleKeepsInvariant(maxConcurrency, currentCount, cameraTaskMap, cameraToChannel, jobs, id, outcome);
      jobs := jobs[id := Settle(jobs[id], outcome)];
    }
  }

  /**
   * A stop for a camera that was never started still decrements the counter,
   * so a manager limited to one relay then admits two.
   */
  method OverAdmission() returns (first: Result<string, string>, second: Result<string, string>, admitted: nat)
    ensures first.Ok? && second.Ok?
    ensures admitted == 2
  {
    var store := new Store(map[]);
    var manager := new StreamRelayManager(store, 1);
    manager.StopRelay("unknown");
    first := manager.StartRelay("cam1", Some("rtsp://cam1"), Some("s1"));
    assert FirstFreeSlot(map[]) == Some(1);
    SecondSlotFree("cam1");
    second := manager.StartRelay("cam2", Some("rtsp://cam2"), Some("s2"));
    admitted := |manager.jobs|;
  }

  /** After one allocation for `cameraId` in an empty store, slot 2 is the first free one. */
  lemma SecondSlotFree(cameraId: string)
    ensures FirstFreeSlot(Allocated(map[], cameraId)) == Some(2)
  {
    assert FirstFreeSlot(map[]) == Some(1);
    var e := Allocated(map[], cameraId);
    assert e.Keys == {SlotKey(1), RelayTask.MapKey(cameraId)};
    SlotKeyIsNotMapKey(2, cameraId);
    if SlotKey(2) == SlotKey(1) {
      SlotKeyInjective(2, 1);
    }
    assert SlotKey(2) !in e;
    assert FreeFrom(e, 2) == Some(2);
  }

  /**
   * Starting the same camera twice claims a second slot and overwrites the
   * camera's future; stopping the camera then stops only the second worker,
   * and the first keeps slot 1 with a future nobody cancels.
   */
  method DuplicateStart() returns (first: Result<string, string>, second: Result<string, string>,
                                   firstSlot: string, secondSlot: string, orphanSlotHeld: bool, orphan: FutureState)
    ensures first.Ok? && second.Ok? && firstSlot != secondSlot
    ensures orphanSlotHeld && orphan == Pending
  {
    var store := new Store(map[]);
    var manager := new StreamRelayManager(store, 2);
    first := manager.StartRelay("cam1", Some("rtsp://cam1"), Some("s1"));
    assert FirstFreeSlot(map[]) == Some(1);
    firstSlot := manager.cameraToChannel["cam1"];
    SecondSlotFree("cam1");
    second := manager.StartRelay("cam1", Some("rtsp://cam1"), Some("s1"));
    secondSlot := manager.cameraToChannel["cam1"];
    manager.StopRelay("cam1");
    SlotKeyIsNotMapKey(1, "cam1");
    orphanSlotHeld := store.IsExists(firstSlot);
    orphan := manager.jobs[0].state;
  }
}
