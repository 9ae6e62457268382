/** libtorrent's `bandwidth_channel`: a token bucket. The ghost fields keep its books. */
module BandwidthLimit {

  const INF := 0x7fff_ffff

  /** What a channel may hand out for `dt` milliseconds, rounded. */
  function ToAdd(limit: nat, dt: nat): nat {
    (limit * dt + 500) / 1000
  }

  /** What a refill makes of a quota. */
  function Refilled(limit: nat, quota: int, dt: nat): int {
    var toAdd := ToAdd(limit, dt);
    if limit == 0 then quota
    else if toAdd > INF - quota then INF
    else
      var q := quota + toAdd;
      var capped := if q >= 0 && q / 3 > limit then 3 * limit else q;
      if capped < INF then capped else INF
  }

  lemma {:induction false} RefilledBounds(limit: nat, quota: int, dt: nat)
    requires quota >= 0
    ensures 0 <= Refilled(limit, quota, dt) <= quota + ToAdd(limit, dt)
    ensures limit > 0 ==> Refilled(limit, quota, dt) <= INF
  {}

  /** `added` is what `limit` bytes a second come to in `dt` milliseconds, rounded to the nearest byte. */
  predicate ToTheByte(limit: int, dt: int, added: int) {
    1000 * added <= limit * dt + 500 < 1000 * added + 1000
  }

  /** What a refill adds: to the byte what the limit entitles to, unless the quota comes to one of its two caps. */
  ghost predicate RefillOk(limit: nat, before: int, after: int, dt: nat) {
    && (limit == 0 ==> after == before)
    && (limit > 0 ==> 1000 * (after - before) <= limit * dt + 500)
    && (limit > 0 && after != 3 * limit && after != 2147483647 ==> ToTheByte(limit, dt, after - before))
  }

  lemma {:induction false} RefillIsRounded(limit: nat, quota: int, dt: nat)
    requires quota >= 0
    ensures RefillOk(limit, quota, Refilled(limit, quota, dt), dt) && ToTheByte(limit, dt, ToAdd(limit, dt))
  {
    var exact := limit * dt;
    assert ToAdd(limit, dt) == (exact + 500) / 1000;
  }

  /** Half a second, which is how long a tick is by default. */
  lemma {:induction false} HalfASecond()
    ensures Refilled(1000, 0, 500) == 500
  {}

  /**
   A refill leaves at most three seconds' worth of quota, or two bytes more, exactly if it does not go beyond the
   largest quota there is. If it does it skips the cap, though the limit may be much lower than it was.
   */
  lemma {:induction false} CapIff(limit: nat, quota: nat, dt: nat)
    requires limit > 0
    ensures Refilled(limit, quota, dt) <= 3 * limit + 2 <==>
            ToAdd(limit, dt) <= 2147483647 - quota || 2147483647 <= 3 * limit + 2
  {}

  /** A channel whose limit was lowered to 1000 bytes a second, but which can hand out 2^31 - 1 bytes at once. */
  lemma {:induction false} CapIsSkipped()
    ensures Refilled(1000, 2147483647, 1000) == 2147483647
  {}

  /**
   The books of a channel, and its quota. `net` is what a queue has used and not given back while the channel was
   limited, and `free` the same while it was not.
   */
  datatype Account = Account(limit: int, quotaLeft: int, net: int, granted: int, added: int, allowed: int, free: int)

  /** A queue has used `amount` of the quota, or has given back so much if that is negative. */
  ghost predicate Charged(before: Account, after: Account, amount: int) {
    && after.limit == before.limit && after.granted == before.granted
    && after.added == before.added && after.allowed == before.allowed
    && (before.limit == 0 ==>
          after.quotaLeft == before.quotaLeft && after.net == before.net && after.free == before.free + amount)
    && (before.limit != 0 ==>
          after.quotaLeft == before.quotaLeft - amount && after.net == before.net + amount && after.free == before.free)
  }

  function Charge(a: Account, amount: int): Account {
    if a.limit == 0 then a.(free := a.free + amount) else a.(quotaLeft := a.quotaLeft - amount, net := a.net + amount)
  }

  lemma {:induction false} ChargedIs(before: Account, after: Account, amount: int)
    ensures Charged(before, after, amount) <==> after == Charge(before, amount)
  {}

  /** The account after a refill. */
  function Refreshed(a: Account, dt: nat): Account
    requires a.limit >= 0
  {
    var q := Refilled(a.limit, a.quotaLeft, dt);
    a.(quotaLeft := q, added := a.added + (q - a.quotaLeft),
       allowed := a.allowed + if a.limit == 0 then 0 else ToAdd(a.limit, dt))
  }

  class BandwidthChannel {
    // temporary storage while bandwidth is distributed
    var tmp: int
    // the number of bytes to distribute this round
    var distributeQuota: int
    var quotaLeft: int
    // bytes per second, 0 is infinite
    var limit: int

    // what refills have changed the quota by, and what they were entitled to add
    ghost var added: int
    ghost var allowed: int
    // what the queue has used and given back, and what was granted without queueing
    ghost var used: int
    ghost var refunded: int
    ghost var granted: int
    // what was used, less what was given back, while the channel was not limited
    ghost var free: int

    constructor ()
      ensures Valid() && limit == 0 && quotaLeft == 0 && tmp == 0 && Untouched() && granted == added == allowed == 0
    {
      tmp, distributeQuota, quotaLeft, limit := 0, 0, 0, 0;
      added, allowed, used, refunded, granted, free := 0, 0, 0, 0, 0, 0;
    }

    ghost predicate Valid()
      reads `limit, `quotaLeft, `used, `refunded, `granted, `added, `allowed
    {
      0 <= limit < INF && added <= allowed && quotaLeft == added - used + refunded - granted
    }

    ghost function Books(): Account
      reads `limit, `quotaLeft, `used, `refunded, `granted, `added, `allowed, `free
    {
      Account(limit, quotaLeft, used - refunded, granted, added, allowed, free)
    }

    /** No queue has used the channel yet. */
    ghost predicate Untouched()
      reads `used, `refunded, `free
    {
      used == refunded == free == 0
    }

    method Throttle(limit: int)
      requires Valid() && 0 <= limit < INF
      modifies this`limit
      ensures Valid() && this.limit == limit
    {
      this.limit := limit;
    }

    method UpdateQuota(dt: nat)
      requires Valid() && quotaLeft >= 0
      modifies this`quotaLeft, this`distributeQuota, this`added, this`allowed
      ensures Valid() && quotaLeft >= 0 && Books() == Refreshed(old(Books()), dt)
      ensures RefillOk(limit, old(quotaLeft), quotaLeft, dt)
      ensures limit > 0 ==> ToTheByte(limit, dt, allowed - old(allowed))
      ensures distributeQuota == if limit == 0 then old(distributeQuota) else quotaLeft
    {
      hide RefillOk, ToTheByte;
      RefillIsRounded(limit, quotaLeft, dt);
      if limit == 0 {
        return;
      }
      RefilledBounds(limit, quotaLeft, dt);
      var toAdd := (limit * dt + 500) / 1000;
      ghost var before := quotaLeft;
      if toAdd > INF - quotaLeft {
        quotaLeft := INF;
      } else {
        quotaLeft := quotaLeft + toAdd;
        if quotaLeft / 3 > limit {
          quotaLeft := limit * 3;
        }
        quotaLeft := if quotaLeft < INF then quotaLeft else INF;
      }
      distributeQuota := if quotaLeft > 0 then quotaLeft else 0;
      added, allowed := added + (quotaLeft - before), allowed + toAdd;
    }

    method ReturnQuota(amount: int)
      requires Valid() && amount >= 0
      modifies this`quotaLeft, this`refunded, this`free
      ensures Valid() && Charged(old(Books()), Books(), -amount)
    {
      if limit == 0 {
        free := free - amount;
        return;
      }
      quotaLeft := quotaLeft + amount;
      refunded := refunded + amount;
    }

    method UseQuota(amount: int)
      requires Valid() && amount >= 0
      modifies this`quotaLeft, this`used, this`free
      ensures Valid() && Charged(old(Books()), Books(), amount)
    {
      if limit == 0 {
        free := free + amount;
        return;
      }
      quotaLeft := quotaLeft - amount;
      used := used + amount;
    }

    /**
     Whether a request has to wait. When more than a second's worth of quota has built up it does not, and is paid for.
     */
    method NeedQueueing(amount: int) returns (wait: bool)
      requires Valid() && amount >= 0
      modifies this`quotaLeft, this`granted
      ensures Valid() && (wait <==> old(quotaLeft) < limit + amount)
      ensures wait ==> quotaLeft == old(quotaLeft) && granted == old(granted)
      ensures !wait ==> quotaLeft == old(quotaLeft) - amount >= limit && granted == old(granted) + amount
    {
      if quotaLeft - amount < limit {
        return true;
      }
      quotaLeft := quotaLeft - amount;
      granted := granted + amount;
      wait := false;
    }
  }
}
