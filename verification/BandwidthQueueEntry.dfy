/**
 libtorrent's `bw_request`: a request that waits for bandwidth on several channels at once. Queues hold requests by
 value, so a request is a value here, and the channels are objects that it refers to.
 */
module BandwidthQueueEntry {
  import opened BandwidthLimit

  type Peer(==, !new)

  const MAX_BANDWIDTH_CHANNELS := 10
  const INITIAL_TTL := 20

  /** `ttl` is the number of rounds that the request still waits for its whole size. */
  datatype BwRequest = BwRequest(peer: Peer, priority: int, requestSize: int, channel: seq<BandwidthChannel>,
                                 assignedBytes: int, ttl: int)

  function NewRequest(peer: Peer, blk: int, priority: int, channel: seq<BandwidthChannel>): BwRequest {
    BwRequest(peer, priority, blk, channel, 0, INITIAL_TTL)
  }

  /** What a charge of `amount` to every one of the channels comes to for `c`. */
  function ChargeTo(channels: seq<BandwidthChannel>, c: BandwidthChannel, amount: int): int {
    if channels == [] then 0 else
    ChargeTo(channels[..|channels| - 1], c, amount) + if channels[|channels| - 1] == c then amount else 0
  }

  lemma {:induction false} ChargeToOthers(channels: seq<BandwidthChannel>, c: BandwidthChannel, amount: int)
    requires c !in channels
    ensures ChargeTo(channels, c, amount) == 0
  {
    if channels != [] {
      ChargeToOthers(channels[..|channels| - 1], c, amount);
    }
  }

  lemma {:induction false} ChargeToIsPositive(channels: seq<BandwidthChannel>, c: BandwidthChannel, amount: int)
    requires amount > 0
    ensures ChargeTo(channels, c, amount) >= 0
    ensures ChargeTo(channels, c, amount) > 0 <==> c in channels
  {
    if channels != [] {
      ChargeToIsPositive(channels[..|channels| - 1], c, amount);
      assert channels == channels[..|channels| - 1] + [channels[|channels| - 1]];
    }
  }

  lemma {:induction false} NothingCharged(channels: seq<BandwidthChannel>)
    ensures forall c :: c in channels ==> ChargeTo(channels, c, 0) == 0
  {
    forall c | c in channels
      ensures ChargeTo(channels, c, 0) == 0
    {
      ChargeOfZero(channels, c);
    }
  }

  lemma {:induction false} ChargeOfZero(channels: seq<BandwidthChannel>, c: BandwidthChannel)
    ensures ChargeTo(channels, c, 0) == 0
  {
    if channels != [] {
      ChargeOfZero(channels[..|channels| - 1], c);
    }
  }

  /** What is granted to a request that lacks `room` bytes: the least of its shares of what its channels distribute. */
  ghost function GrantOver(channels: seq<BandwidthChannel>, priority: int, room: int): int
    reads channels`limit, channels`tmp, channels`distributeQuota
  {
    if channels == [] then room else
    var rest, c := GrantOver(channels[..|channels| - 1], priority, room), channels[|channels| - 1];
    if c.limit == 0 || c.tmp == 0 then rest else
    var share := c.distributeQuota * priority / c.tmp;
    if share < rest then share else rest
  }

  /** A grant is within what is lacking and within every share, and no less than it has to be. */
  lemma {:induction false} GrantIsLeast(channels: seq<BandwidthChannel>, priority: int, room: int)
    ensures var g := GrantOver(channels, priority, room);
      && g <= room
      && (forall c :: c in channels && c.limit != 0 && c.tmp != 0 ==> g <= c.distributeQuota * priority / c.tmp)
      && (g == room
          || exists c :: c in channels && c.limit != 0 && c.tmp != 0 && g == c.distributeQuota * priority / c.tmp)
  {
    if channels != [] {
      GrantIsLeast(channels[..|channels| - 1], priority, room);
      assert channels == channels[..|channels| - 1] + [channels[|channels| - 1]];
    }
  }

  lemma {:induction false} GrantNonNegative(channels: seq<BandwidthChannel>, priority: int, room: int)
    requires room >= 0 && priority > 0
    requires forall c :: c in channels && c.limit != 0 ==> c.tmp >= 0 && c.distributeQuota >= 0
    ensures GrantOver(channels, priority, room) >= 0
  {
    if channels != [] {
      var init, c := channels[..|channels| - 1], channels[|channels| - 1];
      GrantNonNegative(init, priority, room);
      if c.limit != 0 && c.tmp != 0 {
        ShareNonNegative(c.distributeQuota, priority, c.tmp);
      }
    }
  }

  lemma {:induction false} ShareNonNegative(quota: int, priority: int, total: int)
    requires quota >= 0 && priority > 0 && total > 0
    ensures quota * priority / total >= 0
  {}

  /** The request after a round in which it gets its share of what its channels distribute. */
  ghost function Assigned(r: BwRequest): BwRequest
    reads r.channel`limit, r.channel`tmp, r.channel`distributeQuota
  {
    var quota := GrantOver(r.channel, r.priority, r.requestSize - r.assignedBytes);
    r.(assignedBytes := r.assignedBytes + quota, ttl := r.ttl - 1)
  }

  /** Loops over the channels and finds the most limiting one. */
  method LeastShare(r: BwRequest, room: int) returns (quota: int)
    ensures quota == GrantOver(r.channel, r.priority, room)
  {
    quota := room;
    for j := 0 to |r.channel|
      invariant quota == GrantOver(r.channel[..j], r.priority, room)
    {
      assert r.channel[..j + 1][..j] == r.channel[..j];
      if r.channel[j].limit == 0 { continue; }
      if r.channel[j].tmp == 0 { continue; }
      var share := r.channel[j].distributeQuota * r.priority / r.channel[j].tmp;
      quota := if share < quota then share else quota;
    }
    assert r.channel[..|r.channel|] == r.channel;
  }

  /** Takes a round's share, the least one, from all channels. */
  method AssignBandwidth(r: BwRequest) returns (r': BwRequest, quota: int)
    requires r.assignedBytes <= r.requestSize && r.priority > 0
    requires forall c :: c in r.channel ==> c.Valid() && (c.limit != 0 ==> c.tmp >= 0 && c.distributeQuota >= 0)
    modifies r.channel`quotaLeft, r.channel`used, r.channel`free
    ensures r' == Assigned(r) && quota == r'.assignedBytes - r.assignedBytes
    ensures 0 <= quota <= r.requestSize - r.assignedBytes
    ensures forall c :: c in r.channel ==>
              c.Valid() && Charged(old(c.Books()), c.Books(), ChargeTo(r.channel, c, quota))
  {
    quota := r.requestSize - r.assignedBytes;
    GrantNonNegative(r.channel, r.priority, quota);
    GrantIsLeast(r.channel, r.priority, quota);
    r' := r.(ttl := r.ttl - 1);
    if quota == 0 {
      NothingCharged(r.channel);
      return;
    }
    quota := LeastShare(r, quota);
    r' := r'.(assignedBytes := r'.assignedBytes + quota);
    UseAll(r.channel, quota);
  }

  method UseAll(channel: seq<BandwidthChannel>, quota: int)
    requires quota >= 0 && forall c :: c in channel ==> c.Valid()
    modifies channel`quotaLeft, channel`used, channel`free
    ensures forall c :: c in channel ==> c.Valid() && Charged(old(c.Books()), c.Books(), ChargeTo(channel, c, quota))
  {
    for j := 0 to |channel|
      invariant forall c :: c in channel ==>
                  c.Valid() && Charged(old(c.Books()), c.Books(), ChargeTo(channel[..j], c, quota))
    {
      assert channel[..j + 1][..j] == channel[..j];
      channel[j].UseQuota(quota);
    }
    assert channel[..|channel|] == channel;
  }

  /** Gives `amount` back to all channels. */
  method ReturnAll(channel: seq<BandwidthChannel>, amount: int)
    requires amount >= 0 && forall c :: c in channel ==> c.Valid()
    modifies channel`quotaLeft, channel`refunded, channel`free
    ensures forall c :: c in channel ==> c.Valid() && Charged(old(c.Books()), c.Books(), ChargeTo(channel, c, -amount))
  {
    for j := 0 to |channel|
      invariant forall c :: c in channel ==>
                  c.Valid() && Charged(old(c.Books()), c.Books(), ChargeTo(channel[..j], c, -amount))
    {
      assert channel[..j + 1][..j] == channel[..j];
      channel[j].ReturnQuota(amount);
    }
    assert channel[..|channel|] == channel;
  }
}
