/**
 One token bucket: continuous refill with a nanosecond residue.
 `Bucket` is the value of a bucket, `TokenBucket` the object that holds and updates it.
 */
module TokenBuckets {
  import opened Clock
  import opened Int64Words

  datatype Bucket = Bucket(
    tokens: int,
    residue: Duration,
    updated: Time,
    count: int,
    capacity: int,
    interval: Duration,
    ready: bool)

  /** A bucket before its first configuration. */
  const EMPTY_BUCKET := Bucket(0, 0, ZERO_TIME, 0, 0, 0, false)

  function Configured(b: Bucket, count: int, capacity: int, interval: Duration): Bucket {
    var count := if count < 1 then 1 else count;
    var capacity := if capacity < 1 then 1 else capacity;
    var interval := if interval <= 0 then MINUTE else interval;
    var configured := b.(count := count, capacity := capacity, interval := interval);
    if !b.ready then configured.(tokens := capacity, ready := true)
    else if b.tokens > capacity then configured.(tokens := capacity)
    else configured
  }

  function TokensEarned(elapsed: Duration, count: int, interval: Duration, limit: int): int {
    if elapsed <= 0 || count <= 0 || interval <= 0 || limit <= 0 then 0
    else
      var full := elapsed / interval;
      if full >= limit then limit
      else if full * count >= limit then limit
      else
        var rem := elapsed % interval;
        var earned := full * count + if rem > 0 then MulDivFloor(rem, count, interval) else 0;
        if earned > limit then limit
        else if earned < 0 then 0
        else earned
  }

  function Refilled(b: Bucket, now: Time): Bucket {
    if !b.ready then b
    else if b.updated == ZERO_TIME then b.(updated := now, residue := 0)
    else if now <= b.updated then b
    else
      var elapsed := now - b.updated + b.residue;
      var room := b.capacity - b.tokens;
      if room <= 0 then b.(updated := now, tokens := b.capacity, residue := 0)
      else
        var earned := TokensEarned(elapsed, b.count, b.interval, room);
        if earned <= 0 then b.(updated := now, residue := elapsed)
        else if earned >= room then b.(updated := now, tokens := b.tokens + earned, residue := 0)
        else
          var consumed := MulDivFloor(earned, b.interval, b.count);
          if consumed < 0 || consumed > elapsed then
            b.(updated := now, tokens := b.tokens + earned, residue := 0)
          else
            b.(updated := now, tokens := b.tokens + earned, residue := elapsed - consumed)
  }

  function WaitForOne(b: Bucket): Duration {
    if b.tokens >= 1 || b.count < 1 || b.interval <= 0 then 0
    else
      var need := b.interval - b.residue * b.count;
      if need <= 0 then 1
      else
        var wait := (need + b.count - 1) / b.count;
        if wait < 1 then 1 else wait
  }

  class TokenBucket {
    var tokens: int
    var residue: Duration
    var updated: Time
    var count: int
    var capacity: int
    var interval: Duration
    var ready: bool

    constructor ()
      ensures Value() == EMPTY_BUCKET
    {
      tokens, residue, updated := 0, 0, ZERO_TIME;
      count, capacity, interval, ready := 0, 0, 0, false;
    }

    function Value(): Bucket
      reads this
    {
      Bucket(tokens, residue, updated, count, capacity, interval, ready)
    }

    method Configure(newCount: int, newCapacity: int, newInterval: Duration)
      modifies this
      ensures Value() == Configured(old(Value()), newCount, newCapacity, newInterval)
    {
      var c, cap, i := newCount, newCapacity, newInterval;
      if c < 1 {
        c := 1;
      }
      if cap < 1 {
        cap := 1;
      }
      if i <= 0 {
        i := MINUTE;
      }
      if !ready {
        count, capacity, interval := c, cap, i;
        tokens := cap;
        ready := true;
        return;
      }
      count, interval, capacity := c, i, cap;
      if tokens > cap {
        tokens := cap;
      }
    }

    method Refill(now: Time)
      modifies this
      ensures Value() == Refilled(old(Value()), now)
    {
      if !ready {
        return;
      }
      if updated == ZERO_TIME {
        updated := now;
        residue := 0;
        return;
      }
      if now <= updated {
        return;
      }
      var elapsed := now - updated + residue;
      updated := now;
      var room := capacity - tokens;
      if room <= 0 {
        tokens := capacity;
        residue := 0;
        return;
      }
      var earned := TokensEarned(elapsed, count, interval, room);
      if earned <= 0 {
        residue := elapsed;
        return;
      }
      tokens := tokens + earned;
      if earned >= room {
        residue := 0;
        return;
      }
      var consumed := MulDivFloor(earned, interval, count);
      if consumed < 0 || consumed > elapsed {
        residue := 0;
        return;
      }
      residue := elapsed - consumed;
    }
  }
}
