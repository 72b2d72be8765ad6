/**
 * `IdGenUtil`: snowflake identifiers. An id packs, from high to low bits,
 * the milliseconds since 2000-01-01 00:00 Beijing time (42 bits), a
 * datacenter id (5 bits), a machine id (5 bits) and a per-millisecond
 * sequence (12 bits). The clock is a list of the readings
 * `System.currentTimeMillis()` returns, in the order they are taken.
 */
module IdGen {
  import opened Wrappers
  import opened JavaLang
  import Decimal
  import Encoding

  const START_TIMESTAMP: int := 946656000000
  const SEQUENCE_BITS: nat := 12
  const MACHINE_BITS: nat := 5
  const DATACENTER_BITS: nat := 5
  /** `~(-1L << 5)` and `~(-1L << 12)`. */
  const MAX_DATACENTER_ID: int := 31
  const MAX_MACHINE_ID: int := 31
  const MAX_SEQUENCE: int := 4095
  /** 2^12, 2^17 and 2^22: the shifts of the machine, datacenter and time fields. */
  const MACHINE_UNIT: int := 0x1000
  const DATACENTER_UNIT: int := 0x2_0000
  const TIMESTAMP_UNIT: int := 0x40_0000
  const CLOCK_BACKWARDS: string := "系统时钟回拨，拒绝生成分布式ID"

  /**
   * The id for one timestamp and sequence. The four fields occupy disjoint
   * bits (the time field's low 22 bits are zero even after the 64-bit
   * wrap of the shift), so the source's bitwise OR is this sum.
   */
  function Compose(timestamp: int, datacenterId: int, machineId: int, sequence: int): int
  {
    Wrap64((timestamp - START_TIMESTAMP) * TIMESTAMP_UNIT)
      + datacenterId * DATACENTER_UNIT + machineId * MACHINE_UNIT + sequence
  }

  /** Timestamps from 2000 up to the 41-bit horizon: the shift does not wrap. */
  predicate InRange(timestamp: int)
  {
    0 <= timestamp - START_TIMESTAMP < 0x200_0000_0000
  }

  predicate IsField(x: int, bound: int)
  {
    0 <= x < bound
  }

  lemma DivMod(q: int, r: int, d: int)
    requires d > 0 && 0 <= r < d
    ensures (q * d + r) / d == q && (q * d + r) % d == r
  {
    var x := q * d + r;
    var k := q - x / d;
    assert d * k == x % d - r;
  }

  /** Within range, the fields of an id can be read back. */
  lemma {:induction false} IdFields(timestamp: int, datacenterId: int, machineId: int, sequence: int)
    requires InRange(timestamp)
    requires IsField(datacenterId, 32) && IsField(machineId, 32) && IsField(sequence, 4096)
    ensures var id := Compose(timestamp, datacenterId, machineId, sequence);
      && 0 <= id < TWO_63
      && id / TIMESTAMP_UNIT + START_TIMESTAMP == timestamp
      && id / DATACENTER_UNIT % 32 == datacenterId
      && id / MACHINE_UNIT % 32 == machineId
      && id % MACHINE_UNIT == sequence
  {
    var t := timestamp - START_TIMESTAMP;
    assert Wrap64(t * TIMESTAMP_UNIT) == t * TIMESTAMP_UNIT;
    var low := machineId * MACHINE_UNIT + sequence;
    var mid := datacenterId * 32 + machineId;
    var id := Compose(timestamp, datacenterId, machineId, sequence);
    assert id == t * TIMESTAMP_UNIT + (datacenterId * DATACENTER_UNIT + low);
    DivMod(t, datacenterId * DATACENTER_UNIT + low, TIMESTAMP_UNIT);
    assert id == (t * 32 + datacenterId) * DATACENTER_UNIT + low;
    DivMod(t * 32 + datacenterId, low, DATACENTER_UNIT);
    DivMod(t, datacenterId, 32);
    assert id == (t * 1024 + mid) * MACHINE_UNIT + sequence;
    DivMod(t * 1024 + mid, sequence, MACHINE_UNIT);
    assert t * 1024 + mid == (t * 32 + datacenterId) * 32 + machineId;
    DivMod(t * 32 + datacenterId, machineId, 32);
  }

  /** Ids grow with the time, and within one millisecond with the sequence. */
  lemma IdsIncrease(t1: int, s1: int, t2: int, s2: int, datacenterId: int, machineId: int)
    requires InRange(t1) && InRange(t2)
    requires IsField(datacenterId, 32) && IsField(machineId, 32) && IsField(s1, 4096) && IsField(s2, 4096)
    requires t1 < t2 || (t1 == t2 && s1 < s2)
    ensures Compose(t1, datacenterId, machineId, s1) < Compose(t2, datacenterId, machineId, s2)
  {
    assert Wrap64((t1 - START_TIMESTAMP) * TIMESTAMP_UNIT) == (t1 - START_TIMESTAMP) * TIMESTAMP_UNIT;
    assert Wrap64((t2 - START_TIMESTAMP) * TIMESTAMP_UNIT) == (t2 - START_TIMESTAMP) * TIMESTAMP_UNIT;
    if t1 < t2 {
      assert (t2 - START_TIMESTAMP) * TIMESTAMP_UNIT - (t1 - START_TIMESTAMP) * TIMESTAMP_UNIT
        == (t2 - t1) * TIMESTAMP_UNIT >= TIMESTAMP_UNIT;
    }
  }

  // ----- machine and datacenter ids -----

  /** The `h = 31 * h + x` hash with Java `int` wrap-around, as a left fold. */
  function Hash31(xs: seq<int>): (h: int)
    ensures IsInt(h)
    decreases |xs|
  {
    if xs == [] then 0 else Wrap32(31 * Hash31(xs[..|xs| - 1]) + xs[|xs| - 1])
  }

  /** `String.hashCode()`: the hash over the UTF-16 code units. */
  function StringHash(s: string): int
  {
    Hash31(Encoding.Utf16Encode(s))
  }

  /** `(hash & 0xfffffff) % 32`: the low 28 bits, then the remainder. */
  function FieldOf(hash: int): (id: int)
    ensures 0 <= id <= MAX_MACHINE_ID
    ensures id == hash % 32
  {
    (hash % 0x1000_0000) % (MAX_MACHINE_ID + 1)
  }

  /** What `getHardwareAddress` gives for one interface. */
  datatype Nic = NoMac | Mac(bytes: seq<JByte>) | Fails

  function ByteValues(bs: seq<JByte>): (r: seq<int>)
    ensures |r| == |bs| && forall i | 0 <= i < |bs| :: r[i] == bs[i] as int
  {
    seq(|bs|, i requires 0 <= i < |bs| => bs[i] as int)
  }

  /**
   * The machine id for the interface list (`None`: listing them throws):
   * the hash of the first hardware address, or 1 when there is none or a
   * lookup throws first.
   */
  function MachineIdOf(nics: Option<seq<Nic>>): int
  {
    if nics.None? then 1 else FirstMacId(nics.value)
  }

  function FirstMacId(nics: seq<Nic>): int
    decreases |nics|
  {
    if nics == [] then 1
    else match nics[0]
      case Fails => 1
      case NoMac => FirstMacId(nics[1..])
      case Mac(bs) => FieldOf(Hash31(ByteValues(bs)))
  }

  /** The machine id is always a 5-bit field. */
  lemma {:induction false} MachineIdInRange(nics: seq<Nic>)
    ensures 0 <= FirstMacId(nics) <= MAX_MACHINE_ID
    decreases |nics|
  {
    if nics != [] && nics[0].NoMac? {
      MachineIdInRange(nics[1..]);
    }
  }

  /** `initMachineId`. */
  method InitMachineId(nics: Option<seq<Nic>>) returns (id: int)
    ensures id == MachineIdOf(nics)
  {
    if nics.None? {
      return 1;
    }
    var list := nics.value;
    var i := 0;
    while i < |list|
      invariant 0 <= i <= |list|
      invariant FirstMacId(list[i..]) == FirstMacId(list)
    {
      assert list[i..][1..] == list[i + 1..];
      match list[i] {
        case Fails =>
          return 1;
        case Mac(mac) =>
          var hash := 0;
          var j := 0;
          while j < |mac|
            invariant 0 <= j <= |mac|
            invariant hash == Hash31(ByteValues(mac[..j]))
          {
            assert ByteValues(mac[..j + 1])[..j] == ByteValues(mac[..j]);
            hash := Wrap32(31 * hash + mac[j] as int);
            j := j + 1;
          }
          assert mac[..j] == mac;
          return (hash % 0x1000_0000) % (MAX_MACHINE_ID + 1);
        case NoMac =>
      }
      i := i + 1;
    }
    return 1;
  }

  /** `initDatacenterId`: from the host name (`None`: the lookup throws). */
  function DatacenterIdOf(hostname: Option<string>): (id: int)
    ensures 0 <= id <= MAX_DATACENTER_ID
    ensures hostname.None? ==> id == 1
    ensures hostname.Some? ==> id == StringHash(hostname.value) % 32
  {
    if hostname.None? then 1 else FieldOf(StringHash(hostname.value))
  }

  // ----- the generator -----

  class IdGenerator {
    const datacenterId: int
    const machineId: int
    /** The sequence and the timestamp of the last id handed out. */
    var sequence: int
    var lastTimestamp: int

    ghost predicate Valid()
      reads this
    {
      IsField(datacenterId, 32) && IsField(machineId, 32) && IsField(sequence, 4096)
    }

    /** The static initialiser: both ids computed, no id issued yet. */
    constructor (hostname: Option<string>, nics: Option<seq<Nic>>)
      ensures Valid()
      ensures datacenterId == DatacenterIdOf(hostname) && machineId == MachineIdOf(nics)
      ensures sequence == 0 && lastTimestamp == -1
    {
      datacenterId := DatacenterIdOf(hostname);
      if nics.Some? {
        MachineIdInRange(nics.value);
      }
      var m := InitMachineId(nics);
      machineId := m;
      sequence := 0;
      lastTimestamp := -1;
    }

    /** The sequence overflows when the next id falls in the same millisecond. */
    predicate Wraps(now: int)
      reads this
    {
      now == lastTimestamp && (sequence + 1) % 4096 == 0
    }

    /**
     * `nextId`, reading the clock from `clock[0]` on; `used` is the number of
     * readings taken. When the sequence overflows it waits for the first
     * later reading, which the clock must eventually give.
     */
    method NextId(clock: seq<int>) returns (r: Result<int, string>, used: nat)
      requires Valid() && clock != []
      requires Wraps(clock[0]) ==> exists j | 1 <= j < |clock| :: clock[j] > clock[0]
      modifies this
      ensures Valid()
      ensures 1 <= used <= |clock|
      ensures clock[0] < old(lastTimestamp) ==>
        r == Err(CLOCK_BACKWARDS) && used == 1 && sequence == old(sequence) && lastTimestamp == old(lastTimestamp)
      ensures clock[0] > old(lastTimestamp) ==>
        r == Ok(Compose(clock[0], datacenterId, machineId, 0)) && used == 1
        && sequence == 0 && lastTimestamp == clock[0]
      ensures clock[0] == old(lastTimestamp) && (old(sequence) + 1) % 4096 != 0 ==>
        r == Ok(Compose(clock[0], datacenterId, machineId, old(sequence) + 1)) && used == 1
        && sequence == old(sequence) + 1 && lastTimestamp == clock[0]
      ensures clock[0] == old(lastTimestamp) && (old(sequence) + 1) % 4096 == 0 ==>
        && used >= 2 && clock[used - 1] > clock[0]
        && (forall k | 1 <= k < used - 1 :: clock[k] <= clock[0])
        && r == Ok(Compose(clock[used - 1], datacenterId, machineId, 0))
        && sequence == 0 && lastTimestamp == clock[used - 1]
      ensures r.Ok? && old(lastTimestamp) != -1 && InRange(old(lastTimestamp)) && InRange(lastTimestamp) ==>
        r.value > Compose(old(lastTimestamp), datacenterId, machineId, old(sequence))
    {
      var timestamp := clock[0];
      used := 1;
      if timestamp < lastTimestamp {
        return Err(CLOCK_BACKWARDS), used;
      }
      ghost var previous := (lastTimestamp, sequence);
      if timestamp == lastTimestamp {
        sequence := (sequence + 1) % (MAX_SEQUENCE + 1);
        if sequence == 0 {
          // waitNextMillis
          var now := clock[1];
          used := 2;
          while now <= timestamp
            invariant 2 <= used <= |clock| && now == clock[used - 1]
            invariant forall k | 1 <= k < used - 1 :: clock[k] <= timestamp
            invariant exists j | used - 1 <= j < |clock| :: clock[j] > timestamp
            decreases |clock| - used
          {
            now := clock[used];
            used := used + 1;
          }
          timestamp := now;
        }
      } else {
        sequence := 0;
      }
      lastTimestamp := timestamp;
      r := Ok(Compose(timestamp, datacenterId, machineId, sequence));
      if previous.0 != -1 && InRange(previous.0) && InRange(timestamp) {
        IdsIncrease(previous.0, previous.1, timestamp, sequence, datacenterId, machineId);
      }
    }

    /** `nextIdStr`: the decimal text of the next id. */
    method NextIdStr(clock: seq<int>) returns (r: Result<string, string>, used: nat)
      requires Valid() && clock != []
      requires Wraps(clock[0]) ==> exists j | 1 <= j < |clock| :: clock[j] > clock[0]
      modifies this
      ensures Valid()
      ensures 1 <= used <= |clock|
      ensures r.Err? <==> clock[0] < old(lastTimestamp)
      ensures r.Err? ==>
        r.error == CLOCK_BACKWARDS && used == 1 && sequence == old(sequence) && lastTimestamp == old(lastTimestamp)
      ensures r.Ok? ==> r.value == Decimal.IntToString(Compose(lastTimestamp, datacenterId, machineId, sequence))
      ensures clock[0] > old(lastTimestamp) ==> used == 1 && sequence == 0 && lastTimestamp == clock[0]
      ensures clock[0] == old(lastTimestamp) && (old(sequence) + 1) % 4096 != 0 ==>
        used == 1 && sequence == old(sequence) + 1 && lastTimestamp == clock[0]
      ensures clock[0] == old(lastTimestamp) && (old(sequence) + 1) % 4096 == 0 ==>
        && used >= 2 && clock[used - 1] > clock[0]
        && (forall k | 1 <= k < used - 1 :: clock[k] <= clock[0])
        && sequence == 0 && lastTimestamp == clock[used - 1]
      ensures r.Ok? && old(lastTimestamp) != -1 && InRange(old(lastTimestamp)) && InRange(lastTimestamp) ==>
        Compose(lastTimestamp, datacenterId, machineId, sequence)
          > Compose(old(lastTimestamp), datacenterId, machineId, old(sequence))
    {
      var id;
      id, used := NextId(clock);
      if id.Err? {
        return Err(id.error), used;
      }
      r := Ok(Decimal.IntToString(id.value));
    }
  }
}
