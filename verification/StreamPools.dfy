/** The round-robin stream pools and the current stream of each device. */
module StreamPools {
  import opened Bits
  import opened StreamIds

  const PRIORITIES := 2
  const MAX_DEVICES := 16
  const STREAMS_PER_POOL := 32
  const UINT32 := 0x1_0000_0000

  type Handle = nat

  datatype Result<T> = Ok(value: T) | Raised

  /** A stream as callers hold it. */
  datatype Stream = Stream(device: int, id: StreamId)

  /** What an id resolves to. */
  datatype Target = DefaultStream | Pointer(id: StreamId) | Slot(pool: nat, index: nat)

  function Resolve(id: StreamId): Result<Target> {
    match StreamIdType(id)
    case Invalid => Raised
    case Type(t) =>
      if t == DEFAULT then (if StreamIdIndex(id) == 0 then Ok(DefaultStream) else Raised)
      else if t == EXT then Ok(Pointer(id))
      else if t > PRIORITIES as bv64 then Raised
      else Ok(Slot(t as nat - 1, StreamIdIndex(id) as nat))
  }

  /** Priorities 0, -1, -2, ... map to pools 0, 1, 1, ... */
  function PoolOf(priority: int): nat
    requires priority <= 0
  {
    if -priority < PRIORITIES - 1 then -priority else PRIORITIES - 1
  }

  // ----- Small integers as bits -----

  lemma SmallBits(i: nat)
    requires i < 32
    ensures i as bv64 as nat == i && (i as bv64) < 32
  {
    assert i as bv8 as nat == i;
    assert i as bv8 as bv64 == i as bv64;
    SameNumber(i as bv8);
  }

  lemma SameNumber(b: bv8)
    ensures b as bv64 as nat == b as nat
  {
  }

  lemma PoolBits(p: nat)
    requires p < PRIORITIES
    ensures 1 <= (p + 1) as bv64 <= 2 && (p + 1) as bv64 as nat == p + 1
  {
    SmallBits(p + 1);
    if p == 0 {
      assert (p + 1) as bv64 == 1;
    } else {
      assert (p + 1) as bv64 == 2;
    }
  }

  // ----- Tickets -----

  datatype Request = Request(pool: nat, device: nat)

  /** How many of the requests went to this pool. */
  function Tickets(requests: seq<Request>, pool: nat, device: nat): nat {
    if requests == [] then 0
    else Tickets(requests[..|requests| - 1], pool, device) +
         if requests[|requests| - 1] == Request(pool, device) then 1 else 0
  }

  /** The id of one stream of one pool. */
  function NativeId(pool: nat, index: nat): StreamId
    requires pool < PRIORITIES && index < STREAMS_PER_POOL
  {
    PoolBits(pool);
    MakeStreamId((pool + 1) as bv64, index as bv64)
  }

  lemma NativeIdResolves(pool: nat, index: nat)
    requires pool < PRIORITIES && index < STREAMS_PER_POOL
    ensures Resolve(NativeId(pool, index)) == Ok(Slot(pool, index))
  {
    SmallBits(index);
    PoolBits(pool);
    DecodeInvertsMake((pool + 1) as bv64, index as bv64);
  }

  /** The id handed out for ticket number k of a pool, with the counter wrapping at 2^32. */
  function TicketId(pool: nat, k: nat): StreamId
    requires pool < PRIORITIES
  {
    NativeId(pool, (k % UINT32) % STREAMS_PER_POOL)
  }

  /** The wrap-around of the counter does not disturb the round robin. */
  lemma WrapKeepsSlot(k: nat)
    ensures (k % UINT32) % STREAMS_PER_POOL == k % STREAMS_PER_POOL
  {
    var q, w := k / UINT32, k % UINT32;
    assert k == (q * 0x800_0000 + w / 32) * 32 + w % 32;
    UniqueRemainder(k, 32, q * 0x800_0000 + w / 32, w % 32);
  }

  /** Ticket number k resolves to slot k mod 32 of its own pool, for every k. */
  lemma TicketResolvesRoundRobin(pool: nat, k: nat)
    requires pool < PRIORITIES
    ensures Resolve(TicketId(pool, k)) == Ok(Slot(pool, k % STREAMS_PER_POOL))
  {
    WrapKeepsSlot(k);
    NativeIdResolves(pool, k % STREAMS_PER_POOL);
  }

  /** Two tickets share a stream exactly when they are of one pool and a multiple of
      32 apart; so any 32 consecutive tickets of a pool are 32 different streams. */
  lemma SharedStreamsAre32Apart(pool: nat, k: nat, pool': nat, k': nat)
    requires pool < PRIORITIES && pool' < PRIORITIES && k <= k'
    ensures Resolve(TicketId(pool, k)) == Resolve(TicketId(pool', k')) <==>
            pool == pool' && (k' - k) % STREAMS_PER_POOL == 0
    ensures pool == pool' && 0 < k' - k < STREAMS_PER_POOL ==> TicketId(pool, k) != TicketId(pool', k')
  {
    TicketResolvesRoundRobin(pool, k);
    TicketResolvesRoundRobin(pool', k');
    SameSlotExactly(Resolve(TicketId(pool, k)), pool, k, Resolve(TicketId(pool', k')), pool', k');
  }

  lemma SameSlotExactly(r: Result<Target>, pool: nat, k: nat, r': Result<Target>, pool': nat, k': nat)
    requires r == Ok(Slot(pool, k % STREAMS_PER_POOL)) && r' == Ok(Slot(pool', k' % STREAMS_PER_POOL)) && k <= k'
    ensures r == r' <==> pool == pool' && (k' - k) % STREAMS_PER_POOL == 0
    ensures pool == pool' && 0 < k' - k < STREAMS_PER_POOL ==> r != r'
  {
    RemaindersAgree(k, k');
    assert k' - k < 32 ==> (k' - k) % 32 == k' - k;
  }

  lemma RemaindersAgree(k: nat, k': nat)
    requires k <= k'
    ensures k % 32 == k' % 32 <==> (k' - k) % 32 == 0
  {
    var q, r := (k' - k) / 32, (k' - k) % 32;
    if r == 0 {
      UniqueRemainder(k', 32, k / 32 + q, k % 32);
    }
  }

  // ----- The pools -----

  class StreamPool {
    const numNpus: nat
    const counters: array2<nat>
    const streams: array3<Handle>
    const ready: array<bool>
    ghost var issued: seq<Request>
    ghost var made: map<nat, (nat, nat) -> Handle>

    ghost predicate Valid()
      reads this, counters, ready, streams
    {
      && numNpus <= MAX_DEVICES
      && counters.Length0 == PRIORITIES && counters.Length1 == MAX_DEVICES
      && streams.Length0 == PRIORITIES && streams.Length1 == MAX_DEVICES && streams.Length2 == STREAMS_PER_POOL
      && ready.Length == MAX_DEVICES
      && (forall p, d :: 0 <= p < PRIORITIES && 0 <= d < MAX_DEVICES ==>
            if ready[d] then counters[p, d] == Tickets(issued, p, d) % UINT32 else Tickets(issued, p, d) == 0)
      && (forall d :: 0 <= d < MAX_DEVICES && ready[d] ==> d in made)
      && (forall p, d, i :: 0 <= p < PRIORITIES && 0 <= d < MAX_DEVICES && 0 <= i < STREAMS_PER_POOL && ready[d] ==>
            streams[p, d, i] == made[d](p, i))
    }

    /** The state after initGlobalStreamState found n devices, before any pool exists. */
    constructor (n: nat)
      requires n <= MAX_DEVICES
      ensures Valid() && numNpus == n && issued == []
    {
      numNpus := n;
      counters := new nat[PRIORITIES, MAX_DEVICES]((_, _) => 0);
      streams := new Handle[PRIORITIES, MAX_DEVICES, STREAMS_PER_POOL]((_, _, _) => 0);
      ready := new bool[MAX_DEVICES](_ => false);
      issued := [];
      made := map[];
    }

    /** Creates the streams of one device, once, and zeroes its counters; created tells
        which handle the driver returns for each of them. */
    method InitDeviceStreamState(device: nat, created: (nat, nat) -> Handle)
      requires Valid() && device < MAX_DEVICES && !ready[device]
      modifies this`made, counters, streams, ready
      ensures Valid() && ready[device] && made == old(made)[device := created]
      ensures forall d :: 0 <= d < MAX_DEVICES && d != device ==> ready[d] == old(ready[d])
      ensures forall p, i :: 0 <= p < PRIORITIES && 0 <= i < STREAMS_PER_POOL ==>
                streams[p, device, i] == created(p, i)
      ensures forall p, d, i | 0 <= p < PRIORITIES && 0 <= d < MAX_DEVICES && 0 <= i < STREAMS_PER_POOL ::
                d != device ==> streams[p, d, i] == old(streams[p, d, i])
    {
      for i := 0 to STREAMS_PER_POOL
        invariant ready[..] == old(ready[..])
        invariant forall p, d :: 0 <= p < PRIORITIES && 0 <= d < MAX_DEVICES && d != device ==>
                    counters[p, d] == old(counters[p, d])
        invariant i > 0 ==> forall p :: 0 <= p < PRIORITIES ==> counters[p, device] == 0
        invariant forall p, j :: 0 <= p < PRIORITIES && 0 <= j < i ==> streams[p, device, j] == created(p, j)
        invariant forall p, d, j | 0 <= p < PRIORITIES && 0 <= d < MAX_DEVICES && 0 <= j < STREAMS_PER_POOL ::
                    d != device ==> streams[p, d, j] == old(streams[p, d, j])
        invariant made == old(made)
      {
        for p := 0 to PRIORITIES
          invariant ready[..] == old(ready[..])
          invariant forall q, d :: 0 <= q < PRIORITIES && 0 <= d < MAX_DEVICES && d != device ==>
                      counters[q, d] == old(counters[q, d])
          invariant forall q :: 0 <= q < p ==> counters[q, device] == 0
          invariant forall q, j :: 0 <= q < PRIORITIES && 0 <= j < i ==> streams[q, device, j] == created(q, j)
          invariant forall q :: 0 <= q < p ==> streams[q, device, i] == created(q, i)
          invariant forall q, d, j | 0 <= q < PRIORITIES && 0 <= d < MAX_DEVICES && 0 <= j < STREAMS_PER_POOL ::
                      d != device ==> streams[q, d, j] == old(streams[q, d, j])
          invariant made == old(made)
        {
          streams[p, device, i] := created(p, i);
          counters[p, device] := 0;
        }
      }
      forall d | 0 <= d < MAX_DEVICES ensures ready[d] == old(ready[d]) {
        assert ready[..][d] == old(ready[..])[d];
      }
      ready[device] := true;
      made := made[device := created];
    }

    /** Takes a number: one atomic fetch-and-add on the pool's 32-bit counter. */
    method GetIdx(pool: nat, device: nat) returns (idx: nat)
      requires Valid() && pool < PRIORITIES && device < MAX_DEVICES && ready[device]
      modifies this`issued, counters
      ensures Valid()
      ensures idx == (old(Tickets(issued, pool, device)) % UINT32) % STREAMS_PER_POOL
      ensures issued == old(issued) + [Request(pool, device)]
    {
      var raw := counters[pool, device];
      counters[pool, device] := (raw + 1) % UINT32;
      WrapStep(Tickets(issued, pool, device));
      ghost var was := issued;
      issued := issued + [Request(pool, device)];
      assert issued[..|issued| - 1] == was;
      idx := raw % STREAMS_PER_POOL;
    }

    /** Every request for a pool gets that pool's next ticket; -1 means the current device. */
    method GetStreamFromPool(priority: int, deviceIndex: int, currentDevice: int, created: (nat, nat) -> Handle)
      returns (r: Result<Stream>)
      requires Valid() && priority <= 0
      modifies this`issued, this`made, counters, streams, ready
      ensures Valid()
      ensures var d := if deviceIndex == -1 then currentDevice else deviceIndex;
              if 0 <= d < numNpus then
                ready[..] == old(ready[..])[d := true] &&
                made == if old(ready[..])[d] then old(made) else old(made)[d := created]
              else ready[..] == old(ready[..]) && made == old(made)
      ensures var d := if deviceIndex == -1 then currentDevice else deviceIndex;
              if 0 <= d < numNpus then
                && r == Ok(Stream(d, TicketId(PoolOf(priority), old(Tickets(issued, PoolOf(priority), d)))))
                && issued == old(issued) + [Request(PoolOf(priority), d)]
              else r == Raised && issued == old(issued)
    {
      var device := if deviceIndex == -1 then currentDevice else deviceIndex;
      if device < 0 || device >= numNpus {
        return Raised;
      }
      if !ready[device] {
        InitDeviceStreamState(device, created);
      }
      var pool := if -priority < PRIORITIES - 1 then -priority else PRIORITIES - 1;
      var idx := GetIdx(pool, device);
      r := Ok(Stream(device, NativeId(pool, idx)));
    }

    /** A native id of pool p and slot i resolves to that slot on its device. */
    ghost predicate FromPool(s: Stream, r: Result<Handle>)
      requires Valid()
      reads this, counters, ready, streams
    {
      forall p, i, d | 0 <= p < PRIORITIES && 0 <= i < STREAMS_PER_POOL && 0 <= d < MAX_DEVICES ::
        s == Stream(d, NativeId(p, i)) ==> r == Ok(streams[p, d, i])
    }

    /** The handle behind a stream; only a native id looks at the device. */
    method GetHandle(s: Stream) returns (r: Result<Handle>)
      requires Valid()
      requires Resolve(s.id).Ok? && Resolve(s.id).value.Slot? ==> 0 <= s.device < MAX_DEVICES
      ensures r.Raised? <==> Resolve(s.id).Raised?
      ensures FromPool(s, r)
      ensures IsExternal(s.id) ==> r == Ok(s.id as nat)
      ensures IsDefault(s.id) ==> r == Ok(0)
    {
      NativeResolvesToSlot(s.id);
      SpecialIdsResolve(s.id);
      match Resolve(s.id)
      case Raised => r := Raised;
      case Ok(DefaultStream) => r := Ok(0);
      case Ok(Pointer(id)) => r := Ok(id as nat);
      case Ok(Slot(pool, index)) =>
        SlotInRange(s.id);
        r := Ok(streams[pool, s.device, index]);
    }
  }

  /** The handle behind ticket number k of a pool is the one its slot was created with, and
      GetHandle returns that one. */
  lemma TicketHandle(pools: StreamPool, pool: nat, device: nat, k: nat, r: Result<Handle>)
    requires pools.Valid() && pool < PRIORITIES && device < MAX_DEVICES && pools.ready[device]
    requires pools.FromPool(Stream(device, TicketId(pool, k)), r)
    ensures device in pools.made && r == Ok(pools.made[device](pool, k % STREAMS_PER_POOL))
  {
    WrapKeepsSlot(k);
    assert TicketId(pool, k) == NativeId(pool, k % STREAMS_PER_POOL);
  }

  /** If the driver creates a pool's streams with different handles, fewer than 32 tickets
      apart means different handles. */
  lemma NearbyTicketsDiffer(created: (nat, nat) -> Handle, pool: nat, k: nat, k': nat)
    requires forall i, j :: 0 <= i < j < STREAMS_PER_POOL ==> created(pool, i) != created(pool, j)
    requires k < k' < k + STREAMS_PER_POOL
    ensures created(pool, k % STREAMS_PER_POOL) != created(pool, k' % STREAMS_PER_POOL)
  {
    RemaindersAgree(k, k');
    var i, j := k % STREAMS_PER_POOL, k' % STREAMS_PER_POOL;
    assert i < j || j < i;
  }

  /** Priority 0 is served by pool 0, every higher priority (a negative number) by pool 1. */
  lemma PriorityPools(priority: int)
    requires priority <= 0
    ensures PoolOf(priority) == if priority == 0 then 0 else 1
  {
  }

  // ----- Current streams -----

  /** One thread's current stream for every device. */
  class CurrentStreams {
    const current: array<StreamId>

    /** All devices start on the default stream. */
    constructor (numNpus: nat)
      ensures fresh(current) && current.Length == numNpus
      ensures forall d :: 0 <= d < numNpus ==> IsDefault(current[d])
    {
      current := new StreamId[numNpus](_ => 0);
    }

    method GetCurrentStream(deviceIndex: int, currentDevice: int) returns (r: Result<Stream>)
      ensures var d := if deviceIndex == -1 then currentDevice else deviceIndex;
              r == if 0 <= d < current.Length then Ok(Stream(d, current[d])) else Raised
    {
      var device := if deviceIndex == -1 then currentDevice else deviceIndex;
      if device < 0 || device >= current.Length {
        return Raised;
      }
      r := Ok(Stream(device, current[device]));
    }

    /** Touches the current stream of the stream's own device only. */
    method SetCurrentStream(s: Stream)
      requires 0 <= s.device < current.Length
      modifies current
      ensures current[..] == old(current[..])[s.device := s.id]
    {
      current[s.device] := s.id;
    }

    /** Returns the stream it replaces, so that exchanging back restores everything. */
    method ExchangeStream(s: Stream) returns (replaced: Stream)
      requires 0 <= s.device < current.Length
      modifies current
      ensures replaced.device == s.device
      ensures current[..] == old(current[..])[s.device := s.id]
      ensures current[..][replaced.device := replaced.id] == old(current[..])
    {
      var was := GetCurrentStream(s.device, s.device);
      replaced := was.value;
      SetCurrentStream(s);
    }
  }

  lemma WrapStep(k: nat)
    ensures (k % UINT32 + 1) % UINT32 == (k + 1) % UINT32
  {
    var q, w := k / UINT32, k % UINT32;
    if w + 1 == UINT32 {
      UniqueRemainder(k + 1, UINT32, q + 1, 0);
    } else {
      UniqueRemainder(k + 1, UINT32, q, w + 1);
    }
  }

  lemma NativeResolvesToSlot(id: StreamId)
    ensures forall p, i | 0 <= p < PRIORITIES && 0 <= i < STREAMS_PER_POOL ::
              id == NativeId(p, i) ==> Resolve(id) == Ok(Slot(p, i))
  {
    forall p, i | 0 <= p < PRIORITIES && 0 <= i < STREAMS_PER_POOL && id == NativeId(p, i)
      ensures Resolve(id) == Ok(Slot(p, i))
    {
      NativeIdResolves(p, i);
    }
  }

  lemma SpecialIdsResolve(id: StreamId)
    ensures IsDefault(id) ==> Resolve(id) == Ok(DefaultStream)
    ensures IsExternal(id) ==> Resolve(id) == Ok(Pointer(id))
    ensures Resolve(id).Ok? && Resolve(id).value.Pointer? ==> Resolve(id).value.id == id
  {
  }

  lemma SlotInRange(id: StreamId)
    requires Resolve(id).Ok? && Resolve(id).value.Slot?
    ensures Resolve(id).value.pool < PRIORITIES && Resolve(id).value.index < STREAMS_PER_POOL
  {
    SmallNumber(StreamIdIndex(id));
    if StreamIdType(id).t != 1 {
      assert StreamIdType(id).t == 2;
    }
  }

  lemma SmallNumber(b: bv64)
    requires b < 32
    ensures b as nat < 32
  {
  }
}
