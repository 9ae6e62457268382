/**
 libtorrent's `bandwidth_manager`: requests that share channels wait in a queue, and every round gets each of them
 closer to the bytes that it asked for.
 */
module BandwidthManager {
  import Bytes
  import opened BandwidthLimit
  import opened BandwidthQueueEntry

  /** The peer of a request was called back, with the bytes that were assigned to the request. */
  datatype Callback = Callback(request: BwRequest, amount: int)

  // ----- sums over requests

  /** The bytes that the requests have been assigned, as charged to `c`. */
  function Held(q: seq<BwRequest>, c: BandwidthChannel): int {
    if q == [] then 0 else
    Held(q[..|q| - 1], c) + ChargeTo(q[|q| - 1].channel, c, q[|q| - 1].assignedBytes)
  }

  /** The bytes that the requests still lack. */
  function Outstanding(q: seq<BwRequest>): int {
    if q == [] then 0 else
    Outstanding(q[..|q| - 1]) + (q[|q| - 1].requestSize - q[|q| - 1].assignedBytes)
  }

  /** The priorities of the requests that are in line for `c`. */
  function Weight(q: seq<BwRequest>, c: BandwidthChannel): int {
    if q == [] then 0 else
    Weight(q[..|q| - 1], c) + ChargeTo(q[|q| - 1].channel, c, q[|q| - 1].priority)
  }

  /** Whether a request is in line for `c`. */
  predicate InLine(q: seq<BwRequest>, c: BandwidthChannel) {
    q != [] && (InLine(q[..|q| - 1], c) || c in q[|q| - 1].channel)
  }

  /** The bytes that peers were called back with, as charged to `c`. */
  function Paid(calls: seq<Callback>, c: BandwidthChannel): int {
    if calls == [] then 0 else
    Paid(calls[..|calls| - 1], c) + ChargeTo(calls[|calls| - 1].request.channel, c, calls[|calls| - 1].amount)
  }

  // ----- the requests of a round

  function Leaving(q: seq<BwRequest>, gone: set<Peer>): seq<BwRequest> {
    if q == [] then [] else
    var init := Leaving(q[..|q| - 1], gone);
    if q[|q| - 1].peer in gone then init + [q[|q| - 1]] else init
  }

  function Staying(q: seq<BwRequest>, gone: set<Peer>): seq<BwRequest> {
    if q == [] then [] else
    var init := Staying(q[..|q| - 1], gone);
    if q[|q| - 1].peer in gone then init else init + [q[|q| - 1]]
  }

  /** The same requests without anything assigned. */
  function Emptied(q: seq<BwRequest>): seq<BwRequest> {
    if q == [] then [] else Emptied(q[..|q| - 1]) + [q[|q| - 1].(assignedBytes := 0)]
  }

  /** Whether a request has what it asked for, or has waited long enough for what it has. */
  predicate Done(r: BwRequest) {
    r.assignedBytes == r.requestSize || (r.ttl <= 0 && r.assignedBytes > 0)
  }

  function Finished(q: seq<BwRequest>): seq<BwRequest> {
    if q == [] then [] else
    var init := Finished(q[..|q| - 1]);
    if Done(q[|q| - 1]) then init + [q[|q| - 1]] else init
  }

  function Waiting(q: seq<BwRequest>): seq<BwRequest> {
    if q == [] then [] else
    var init := Waiting(q[..|q| - 1]);
    if Done(q[|q| - 1]) then init else init + [q[|q| - 1]]
  }

  /** The calls that tell the peers what they have been assigned; the last one comes first. */
  function CallsFor(q: seq<BwRequest>): seq<Callback> {
    if q == [] then [] else
    [Callback(q[|q| - 1], q[|q| - 1].assignedBytes)] + CallsFor(q[..|q| - 1])
  }

  /** A request as it was when it was queued. */
  function Original(r: BwRequest): BwRequest {
    r.(assignedBytes := 0, ttl := INITIAL_TTL)
  }

  function Originals(q: seq<BwRequest>): multiset<BwRequest> {
    if q == [] then multiset{} else Originals(q[..|q| - 1]) + multiset{Original(q[|q| - 1])}
  }

  /** The requests that were called back, as often as they were. */
  function Served(calls: seq<Callback>): multiset<BwRequest> {
    if calls == [] then multiset{} else Served(calls[..|calls| - 1]) + multiset{Original(calls[|calls| - 1].request)}
  }

  // ----- facts about the sums

  lemma {:induction false} OneMoreHeld(q: seq<BwRequest>, r: BwRequest, c: BandwidthChannel)
    ensures Held(q + [r], c) == Held(q, c) + ChargeTo(r.channel, c, r.assignedBytes)
    ensures Weight(q + [r], c) == Weight(q, c) + ChargeTo(r.channel, c, r.priority)
    ensures InLine(q + [r], c) <==> InLine(q, c) || c in r.channel
  {
    Bytes.InitOfAppend(q, r);
  }

  lemma {:induction false} OneMoreOutstanding(q: seq<BwRequest>, r: BwRequest)
    ensures Outstanding(q + [r]) == Outstanding(q) + (r.requestSize - r.assignedBytes)
  {
    Bytes.InitOfAppend(q, r);
  }

  lemma {:induction false} HeldSplits(q: seq<BwRequest>, gone: set<Peer>, c: BandwidthChannel)
    ensures Held(q, c) == Held(Leaving(q, gone), c) + Held(Staying(q, gone), c)
  {
    if q != [] {
      var init, r := q[..|q| - 1], q[|q| - 1];
      HeldSplits(init, gone, c);
      if r.peer in gone {
        OneMoreHeld(Leaving(init, gone), r, c);
      } else {
        OneMoreHeld(Staying(init, gone), r, c);
      }
    }
  }

  lemma {:induction false} OutstandingSplits(q: seq<BwRequest>, gone: set<Peer>)
    ensures Outstanding(q) == Outstanding(Leaving(q, gone)) + Outstanding(Staying(q, gone))
  {
    if q != [] {
      var init, r := q[..|q| - 1], q[|q| - 1];
      OutstandingSplits(init, gone);
      Bytes.InitOfAppend(Leaving(init, gone), r);
      Bytes.InitOfAppend(Staying(init, gone), r);
    }
  }

  lemma {:induction false} HeldByOutcome(q: seq<BwRequest>, c: BandwidthChannel)
    ensures Held(q, c) == Held(Finished(q), c) + Held(Waiting(q), c)
  {
    if q != [] {
      var init, r := q[..|q| - 1], q[|q| - 1];
      HeldByOutcome(init, c);
      if Done(r) {
        OneMoreHeld(Finished(init), r, c);
      } else {
        OneMoreHeld(Waiting(init), r, c);
      }
    }
  }

  lemma {:induction false} HeldConcat(a: seq<BwRequest>, b: seq<BwRequest>, c: BandwidthChannel)
    ensures Held(a + b, c) == Held(a, c) + Held(b, c)
  {
    if b == [] {
      assert a + b == a;
    } else {
      HeldConcat(a, b[..|b| - 1], c);
      assert (a + b)[..|a + b| - 1] == a + b[..|b| - 1];
    }
  }

  lemma {:induction false} HeldEmptied(q: seq<BwRequest>, c: BandwidthChannel)
    ensures Held(Emptied(q), c) == 0
  {
    if q != [] {
      HeldEmptied(q[..|q| - 1], c);
      OneMoreHeld(Emptied(q[..|q| - 1]), q[|q| - 1].(assignedBytes := 0), c);
      ChargeOfZero(q[|q| - 1].channel, c);
    }
  }

  lemma {:induction false} ChargeToSum(channels: seq<BandwidthChannel>, c: BandwidthChannel, a: int, b: int)
    ensures ChargeTo(channels, c, a + b) == ChargeTo(channels, c, a) + ChargeTo(channels, c, b)
  {
    if channels != [] {
      ChargeToSum(channels[..|channels| - 1], c, a, b);
    }
  }

  lemma {:induction false} PaidConcat(a: seq<Callback>, b: seq<Callback>, c: BandwidthChannel)
    ensures Paid(a + b, c) == Paid(a, c) + Paid(b, c)
  {
    if b == [] {
      assert a + b == a;
    } else {
      PaidConcat(a, b[..|b| - 1], c);
      assert (a + b)[..|a + b| - 1] == a + b[..|b| - 1];
    }
  }

  lemma {:induction false} PaidForCalls(q: seq<BwRequest>, c: BandwidthChannel)
    ensures Paid(CallsFor(q), c) == Held(q, c)
  {
    if q != [] {
      var last := Callback(q[|q| - 1], q[|q| - 1].assignedBytes);
      PaidForCalls(q[..|q| - 1], c);
      PaidConcat([last], CallsFor(q[..|q| - 1]), c);
      assert [last][..0] == [];
      assert Paid([last], c) == ChargeTo(last.request.channel, c, last.amount);
    }
  }

  lemma {:induction false} InLineHasWeight(q: seq<BwRequest>, c: BandwidthChannel)
    requires forall r :: r in q ==> r.priority > 0
    ensures Weight(q, c) >= 0 && (InLine(q, c) <==> Weight(q, c) > 0)
  {
    if q != [] {
      InLineHasWeight(q[..|q| - 1], c);
      ChargeToIsPositive(q[|q| - 1].channel, c, q[|q| - 1].priority);
    }
  }

  lemma {:induction false} InLineOf(q: seq<BwRequest>, k: nat, c: BandwidthChannel)
    requires k < |q| && c in q[k].channel
    ensures InLine(q, c)
  {
    if k < |q| - 1 {
      InLineOf(q[..|q| - 1], k, c);
    }
  }

  lemma {:induction false} HeldNonNegative(q: seq<BwRequest>, c: BandwidthChannel)
    requires forall k :: 0 <= k < |q| ==> q[k].assignedBytes >= 0
    ensures Held(q, c) >= 0
  {
    if q != [] {
      HeldNonNegative(q[..|q| - 1], c);
      var r := q[|q| - 1];
      if r.assignedBytes > 0 {
        ChargeToIsPositive(r.channel, c, r.assignedBytes);
      } else {
        ChargeOfZero(r.channel, c);
      }
    }
  }

  // ----- the shares of a round are within what is distributed

  /** A share of `quota` in proportion to `priority` is that, rounded down. */
  lemma {:induction false} ShareInProportion(a: int, quota: int, priority: int, total: int)
    requires total > 0 && a <= quota * priority / total
    ensures a * total <= quota * priority
  {}

  lemma {:induction false} SlotsInProportion(channels: seq<BandwidthChannel>, c: BandwidthChannel, a: int, quota: int,
                                             priority: int, total: int)
    requires a * total <= quota * priority
    ensures ChargeTo(channels, c, a) * total <= quota * ChargeTo(channels, c, priority)
  {
    if channels != [] {
      var rest, prio := ChargeTo(channels[..|channels| - 1], c, a), ChargeTo(channels[..|channels| - 1], c, priority);
      SlotsInProportion(channels[..|channels| - 1], c, a, quota, priority, total);
      if channels[|channels| - 1] == c {
        Bytes.TimesSum(rest, a, total);
        Bytes.TimesSum(prio, priority, quota);
      }
    }
  }

  /** The requests `after` are those in `q` with something more. */
  predicate SameRequests(q: seq<BwRequest>, after: seq<BwRequest>) {
    |after| == |q| && forall k :: 0 <= k < |q| ==>
      after[k] == q[k].(assignedBytes := after[k].assignedBytes, ttl := after[k].ttl)
  }

  /** All shares of a channel together are within its quota in proportion to their priorities together. */
  lemma {:induction false} SharesInProportion(q: seq<BwRequest>, after: seq<BwRequest>, c: BandwidthChannel, quota: int,
                                              total: int)
    requires SameRequests(q, after)
    requires forall k :: 0 <= k < |q| && c in q[k].channel ==>
               (after[k].assignedBytes - q[k].assignedBytes) * total <= quota * q[k].priority
    ensures (Held(after, c) - Held(q, c)) * total <= quota * Weight(q, c)
  {
    if q != [] {
      var n := |q| - 1;
      var r, a := q[n], after[n].assignedBytes - q[n].assignedBytes;
      SharesInProportion(q[..n], after[..n], c, quota, total);
      ChargeToSum(r.channel, c, r.assignedBytes, a);
      if c in r.channel {
        SlotsInProportion(r.channel, c, a, quota, r.priority, total);
      } else {
        ChargeToOthers(r.channel, c, a);
        ChargeToOthers(r.channel, c, r.priority);
      }
      Bytes.TimesSum(Held(after[..n], c) - Held(q[..n], c), ChargeTo(r.channel, c, a), total);
      Bytes.TimesSum(Weight(q[..n], c), ChargeTo(r.channel, c, r.priority), quota);
    }
  }

  lemma {:induction false} NoMoreThan(a: int, b: int, x: int)
    requires a * x <= b * x && x > 0
    ensures a <= b
  {}

  /** A round hands out no more than the channel distributes. */
  lemma {:induction false} SharesWithinQuota(q: seq<BwRequest>, after: seq<BwRequest>, c: BandwidthChannel, quota: int)
    requires SameRequests(q, after) && Weight(q, c) > 0
    requires forall k :: 0 <= k < |q| && c in q[k].channel ==>
               after[k].assignedBytes - q[k].assignedBytes <= quota * q[k].priority / Weight(q, c)
    ensures Held(after, c) - Held(q, c) <= quota
  {
    var total := Weight(q, c);
    forall k | 0 <= k < |q| && c in q[k].channel
      ensures (after[k].assignedBytes - q[k].assignedBytes) * total <= quota * q[k].priority
    {
      ShareInProportion(after[k].assignedBytes - q[k].assignedBytes, quota, q[k].priority, total);
    }
    SharesInProportion(q, after, c, quota, total);
    NoMoreThan(Held(after, c) - Held(q, c), quota, total);
  }

  lemma {:induction false} HeldByOthers(q: seq<BwRequest>, c: BandwidthChannel)
    requires !InLine(q, c)
    ensures Held(q, c) == 0
  {
    if q != [] {
      HeldByOthers(q[..|q| - 1], c);
      ChargeToOthers(q[|q| - 1].channel, c, q[|q| - 1].assignedBytes);
    }
  }

  lemma {:induction false} SameLine(q: seq<BwRequest>, after: seq<BwRequest>, c: BandwidthChannel)
    requires SameRequests(q, after)
    ensures InLine(after, c) == InLine(q, c)
  {
    if q != [] {
      SameLine(q[..|q| - 1], after[..|q| - 1], c);
    }
  }

  // ----- requests, channels and books that are in order

  /** A request that waits lacks something, and as long as it has something its time is not over. */
  ghost predicate RequestOk(r: BwRequest, known: set<BandwidthChannel>) {
    && r.priority > 0 && 0 <= r.assignedBytes < r.requestSize && (r.ttl > 0 || r.assignedBytes == 0)
    && 0 < |r.channel| <= MAX_BANDWIDTH_CHANNELS && forall c :: c in r.channel ==> c in known
  }

  ghost predicate RequestsOk(q: seq<BwRequest>, known: set<BandwidthChannel>) {
    forall k :: 0 <= k < |q| ==> RequestOk(q[k], known)
  }

  /** What the queue owes a channel is what its requests hold and what peers were called back with. */
  ghost predicate Settled(a: Account, held: int, paid: int) {
    a.net + a.free == held + paid
  }

  /** The books of the channels are in order when the requests in `q` wait and those `calls` were made. */
  ghost predicate BooksOk(known: set<BandwidthChannel>, q: seq<BwRequest>, calls: seq<Callback>)
    reads known`limit, known`quotaLeft, known`used, known`refunded, known`granted, known`added, known`allowed,
      known`free
  {
    forall c :: c in known ==> c.Valid() && c.quotaLeft >= 0 && Settled(c.Books(), Held(q, c), Paid(calls, c))
  }

  ghost function Snapshot(known: set<BandwidthChannel>): (books: map<BandwidthChannel, Account>)
    reads known`limit, known`quotaLeft, known`used, known`refunded
    reads known`granted, known`added, known`allowed, known`free
  {
    map c | c in known :: c.Books()
  }

  ghost function SetOf(channels: seq<BandwidthChannel>): set<BandwidthChannel> {
    set c | c in channels
  }

  /** Since the time of `books`, what `plus` holds was used, and what `minus` holds was given back. */
  ghost predicate ChargedBy(known: set<BandwidthChannel>, books: map<BandwidthChannel, Account>, plus: seq<BwRequest>,
                            minus: seq<BwRequest>)
    reads known`limit, known`quotaLeft, known`used, known`refunded, known`granted, known`added, known`allowed,
      known`free
  {
    forall c :: c in known ==> c.Valid() && c in books && Charged(books[c], c.Books(), Held(plus, c) - Held(minus, c))
  }

  // ----- first phase: who is disconnecting leaves

  lemma {:induction false} SplitOneMore(q: seq<BwRequest>, n: nat, gone: set<Peer>)
    requires n < |q|
    ensures Leaving(q[..n + 1], gone)
         == if q[n].peer in gone then Leaving(q[..n], gone) + [q[n]] else Leaving(q[..n], gone)
    ensures Staying(q[..n + 1], gone)
         == if q[n].peer in gone then Staying(q[..n], gone) else Staying(q[..n], gone) + [q[n]]
  {
    assert q[..n + 1][..n] == q[..n];
  }

  /** Taking the first of the requests that are still to be looked at out of the queue, or leaving it in. */
  lemma {:induction false} Erased<T>(q: seq<T>, n: nat, seen: seq<T>, queue: seq<T>)
    requires n < |q| && queue == seen + q[n..]
    ensures |seen| < |queue| && queue[|seen|] == q[n]
    ensures queue[..|seen|] + queue[|seen| + 1..] == seen + q[n + 1..]
    ensures queue == (seen + [q[n]]) + q[n + 1..]
  {}

  lemma {:induction false} NextCharged(books: Account, before: Account, after: Account, plus: int, minus: int, a: int)
    requires Charged(books, before, plus - minus) && Charged(before, after, a)
    ensures Charged(books, after, plus - minus + a)
  {}

  method RefundNext(r: BwRequest, ghost out: seq<BwRequest>, ghost known: set<BandwidthChannel>,
                    ghost books: map<BandwidthChannel, Account>)
    requires ChargedBy(known, books, [], out) && RequestOk(r, known)
    modifies known`quotaLeft, known`refunded, known`free
    ensures ChargedBy(known, books, [], out + [r])
  {
    ReturnAll(r.channel, r.assignedBytes);
    forall c | c in known
      ensures c.Valid() && Charged(books[c], c.Books(), Held([], c) - Held(out + [r], c))
    {
      if c !in r.channel {
        ChargeToOthers(r.channel, c, -r.assignedBytes);
      }
      NextCharged(books[c], old(c.Books()), c.Books(), Held([], c), Held(out, c),
        ChargeTo(r.channel, c, -r.assignedBytes));
      OneMoreHeld(out, r, c);
      ChargeToSum(r.channel, c, r.assignedBytes, -r.assignedBytes);
      ChargeOfZero(r.channel, c);
    }
  }

  ghost predicate Cleared(stay: seq<BwRequest>, known: set<BandwidthChannel>)
    reads known`tmp
  {
    forall c :: c in known && InLine(stay, c) ==> c.tmp == 0
  }

  method ClearNext(r: BwRequest, ghost stay: seq<BwRequest>, ghost known: set<BandwidthChannel>)
    requires Cleared(stay, known) && RequestOk(r, known)
    modifies known`tmp
    ensures Cleared(stay + [r], known)
  {
    for j := 0 to |r.channel|
      invariant forall c :: c in known && (InLine(stay, c) || c in r.channel[..j]) ==> c.tmp == 0
    {
      r.channel[j].tmp := 0;
      assert r.channel[..j + 1] == r.channel[..j] + [r.channel[j]];
    }
    assert r.channel[..|r.channel|] == r.channel;
    Bytes.InitOfAppend(stay, r);
  }

  /** The queue without those of the first `n` requests that leave, which lack `bytes`. */
  predicate DropShape(queue: seq<BwRequest>, n: nat, gone: set<Peer>, kept: seq<BwRequest>, i: int, out: seq<BwRequest>,
                      bytes: int) {
    && n <= |queue| && i == |Staying(queue[..n], gone)| && kept == Staying(queue[..n], gone) + queue[n..]
    && out == Emptied(Leaving(queue[..n], gone)) && bytes == Outstanding(Leaving(queue[..n], gone))
  }

  lemma {:induction false} DropShapeStep(queue: seq<BwRequest>, n: nat, gone: set<Peer>, kept: seq<BwRequest>, i: int,
                                         out: seq<BwRequest>, bytes: int)
    requires DropShape(queue, n, gone, kept, i, out, bytes) && i < |kept|
    ensures n < |queue| && 0 <= i && kept[i] == queue[n]
    ensures var r := kept[i];
      if r.peer in gone then
        DropShape(queue, n + 1, gone, kept[..i] + kept[i + 1..], i, out + [r.(assignedBytes := 0)],
                  bytes + (r.requestSize - r.assignedBytes))
      else
        DropShape(queue, n + 1, gone, kept, i + 1, out, bytes)
  {
    assert n < |queue|;
    SplitOneMore(queue, n, gone);
    Erased(queue, n, Staying(queue[..n], gone), kept);
    OneMoreOutstanding(Leaving(queue[..n], gone), queue[n]);
    Bytes.InitOfAppend(Leaving(queue[..n], gone), queue[n]);
  }

  lemma {:induction false} DropShapeEnds(queue: seq<BwRequest>, n: nat, gone: set<Peer>, kept: seq<BwRequest>, i: int,
                                         out: seq<BwRequest>, bytes: int)
    requires DropShape(queue, n, gone, kept, i, out, bytes) && i >= |kept|
    ensures queue[..n] == queue
  {}

  /** The next request leaves and pays back, or stays and clears its channels. */
  method DropTurn(r: BwRequest, leaves: bool, ghost queue: seq<BwRequest>, ghost n: nat, ghost gone: set<Peer>,
                  ghost known: set<BandwidthChannel>, ghost books: map<BandwidthChannel, Account>)
    requires n < |queue| && r == queue[n] && RequestOk(r, known) && (leaves <==> r.peer in gone)
    requires ChargedBy(known, books, [], Leaving(queue[..n], gone)) && Cleared(Staying(queue[..n], gone), known)
    modifies known`quotaLeft, known`refunded, known`free, known`tmp
    ensures ChargedBy(known, books, [], Leaving(queue[..n + 1], gone)) && Cleared(Staying(queue[..n + 1], gone), known)
  {
    SplitOneMore(queue, n, gone);
    if leaves {
      RefundNext(r, Leaving(queue[..n], gone), known, books);
    } else {
      ClearNext(r, Staying(queue[..n], gone), known);
    }
  }

  /** The requests of peers that are disconnecting leave the queue and return what they were assigned. */
  method DropDisconnecting(queue: seq<BwRequest>, queuedBytes: int, gone: set<Peer>, ghost known: set<BandwidthChannel>,
                           ghost books: map<BandwidthChannel, Account>)
    returns (kept: seq<BwRequest>, out: seq<BwRequest>, bytes: int)
    requires RequestsOk(queue, known) && ChargedBy(known, books, [], [])
    modifies known`quotaLeft, known`refunded, known`free, known`tmp
    ensures kept == Staying(queue, gone) && out == Emptied(Leaving(queue, gone))
    ensures bytes == queuedBytes - Outstanding(Leaving(queue, gone))
    ensures ChargedBy(known, books, [], Leaving(queue, gone)) && Cleared(kept, known)
  {
    kept, out, bytes := queue, [], queuedBytes;
    var i := 0;
    ghost var n := 0;
    while i < |kept|
      invariant DropShape(queue, n, gone, kept, i, out, queuedBytes - bytes)
      invariant ChargedBy(known, books, [], Leaving(queue[..n], gone)) && Cleared(Staying(queue[..n], gone), known)
      decreases |queue| - n
    {
      DropShapeStep(queue, n, gone, kept, i, out, queuedBytes - bytes);
      var r := kept[i];
      DropTurn(r, r.peer in gone, queue, n, gone, known, books);
      if r.peer in gone {
        bytes := bytes - (r.requestSize - r.assignedBytes);
        out := out + [r.(assignedBytes := 0)];
        kept := kept[..i] + kept[i + 1..];
      } else {
        i := i + 1;
      }
      n := n + 1;
    }
    DropShapeEnds(queue, n, gone, kept, i, out, queuedBytes - bytes);
  }

  // ----- second phase: the channels that are waited for are refilled

  /** The channels that the requests are in line for, each of them once. */
  ghost predicate ChannelsOf(channels: seq<BandwidthChannel>, q: seq<BwRequest>, known: set<BandwidthChannel>) {
    && Distinct(channels)
    && (forall c :: c in channels ==> c in known && InLine(q, c))
    && (forall c :: c in known && InLine(q, c) ==> c in channels)
  }

  /** The channels that any of the requests is in line for have counted the priorities of those in `seen`. */
  ghost predicate Counted(seen: seq<BwRequest>, all: seq<BwRequest>, known: set<BandwidthChannel>)
    reads known`tmp
  {
    forall c :: c in known && InLine(all, c) ==> c.tmp == Weight(seen, c)
  }

  /** The first `j` channels of the next request are collected and have counted its priority. */
  ghost predicate Counting(channels: seq<BandwidthChannel>, r: BwRequest, j: nat, seen: seq<BwRequest>,
                           all: seq<BwRequest>, known: set<BandwidthChannel>)
    requires j <= |r.channel|
    reads known`tmp
  {
    && Distinct(channels)
    && (forall c :: c in channels ==> c in known && (InLine(seen, c) || c in r.channel[..j]))
    && (forall c :: c in known && (InLine(seen, c) || c in r.channel[..j]) ==> c in channels)
    && (forall c :: c in known && InLine(all, c) ==> c.tmp == Weight(seen, c) + ChargeTo(r.channel[..j], c, r.priority))
  }

  lemma {:induction false} FirstOfChannel(r: BwRequest, j: nat)
    requires j < |r.channel|
    ensures r.channel[..j + 1] == r.channel[..j] + [r.channel[j]] && r.channel[..j + 1][..j] == r.channel[..j]
  {}

  /** A channel that has counted nothing is not collected yet. */
  lemma {:induction false} NotCountedYet(channels: seq<BandwidthChannel>, r: BwRequest, j: nat, seen: seq<BwRequest>,
                                         all: seq<BwRequest>, known: set<BandwidthChannel>)
    requires j < |r.channel| && Counting(channels, r, j, seen, all, known) && RequestsOk(seen, known)
    requires RequestOk(r, known) && InLine(all, r.channel[j])
    ensures r.channel[j].tmp == 0 <==> r.channel[j] !in channels
  {
    var bwc := r.channel[j];
    InLineHasWeight(seen, bwc);
    ChargeToIsPositive(r.channel[..j], bwc, r.priority);
  }

  method CountChannel(channels: seq<BandwidthChannel>, bwc: BandwidthChannel, r: BwRequest, ghost j: nat,
                      ghost seen: seq<BwRequest>, ghost all: seq<BwRequest>, ghost known: set<BandwidthChannel>)
    returns (channels': seq<BandwidthChannel>)
    requires j < |r.channel| && Counting(channels, r, j, seen, all, known) && RequestsOk(seen, known)
    requires RequestOk(r, known) && InLine(all, bwc) && bwc == r.channel[j]
    modifies bwc`tmp
    ensures Counting(channels', r, j + 1, seen, all, known)
  {
    NotCountedYet(channels, r, j, seen, all, known);
    FirstOfChannel(r, j);
    channels' := channels;
    if bwc.tmp == 0 {
      DistinctAppend(channels', bwc);
      channels' := channels' + [bwc];
    }
    bwc.tmp := bwc.tmp + r.priority;
  }

  method CountNext(channels: seq<BandwidthChannel>, r: BwRequest, ghost seen: seq<BwRequest>, ghost all: seq<BwRequest>,
                   ghost known: set<BandwidthChannel>)
    returns (channels': seq<BandwidthChannel>)
    requires ChannelsOf(channels, seen, known) && Counted(seen, all, known)
    requires RequestOk(r, known) && (forall c :: c in r.channel ==> InLine(all, c)) && RequestsOk(seen, known)
    modifies known`tmp
    ensures ChannelsOf(channels', seen + [r], known) && Counted(seen + [r], all, known)
  {
    channels' := channels;
    for j := 0 to |r.channel|
      invariant Counting(channels', r, j, seen, all, known)
    {
      channels' := CountChannel(channels', r.channel[j], r, j, seen, all, known);
    }
    CountedAll(channels', r, seen, all, known);
  }

  lemma {:induction false} CountedAll(channels: seq<BandwidthChannel>, r: BwRequest, seen: seq<BwRequest>,
                                      all: seq<BwRequest>, known: set<BandwidthChannel>)
    requires Counting(channels, r, |r.channel|, seen, all, known)
    ensures ChannelsOf(channels, seen + [r], known) && Counted(seen + [r], all, known)
  {
    assert r.channel[..|r.channel|] == r.channel;
    Bytes.InitOfAppend(seen, r);
  }

  /** Adds up the priorities of the requests in their channels, and collects these. */
  method CountPriorities(queue: seq<BwRequest>, ghost known: set<BandwidthChannel>)
    returns (channels: seq<BandwidthChannel>)
    requires RequestsOk(queue, known) && Cleared(queue, known)
    modifies known`tmp
    ensures ChannelsOf(channels, queue, known) && Counted(queue, queue, known)
  {
    channels := [];
    for n := 0 to |queue|
      invariant ChannelsOf(channels, queue[..n], known) && Counted(queue[..n], queue, known)
    {
      forall c | c in queue[n].channel
        ensures InLine(queue, c)
      {
        InLineOf(queue, n, c);
      }
      assert queue[..n + 1] == queue[..n] + [queue[n]];
      channels := CountNext(channels, queue[n], queue[..n], queue, known);
    }
    assert queue[..|queue|] == queue;
  }

  /** Refills the channels. */
  method UpdateChannels(channels: seq<BandwidthChannel>, dt: nat)
    requires Distinct(channels) && forall c :: c in channels ==> c.Valid() && c.quotaLeft >= 0
    modifies channels`quotaLeft, channels`distributeQuota, channels`added, channels`allowed
    ensures forall c :: c in channels ==>
              && c.Valid() && c.quotaLeft >= 0 && c.Books() == Refreshed(old(c.Books()), dt)
              && (c.limit != 0 ==> c.distributeQuota == c.quotaLeft)
  {
    for n := 0 to |channels|
      invariant forall k :: 0 <= k < |channels| ==> channels[k].Valid() && channels[k].quotaLeft >= 0
      invariant forall k :: 0 <= k < n ==> channels[k].Books() == Refreshed(old(channels[k].Books()), dt)
      invariant forall k :: 0 <= k < n && channels[k].limit != 0 ==>
        channels[k].distributeQuota == channels[k].quotaLeft
      invariant forall k :: n <= k < |channels| ==> channels[k].Books() == old(channels[k].Books())
    {
      DistinctFrom(channels, n);
      channels[n].UpdateQuota(dt);
    }
  }

  // ----- third phase: the quotas are shared out

  /**
   The channels are ready for a round of these requests: their priorities are counted, their quotas are to be shared.
   */
  ghost predicate ReadyToShare(q: seq<BwRequest>, known: set<BandwidthChannel>, books: map<BandwidthChannel, Account>)
    reads known`limit, known`tmp, known`distributeQuota
  {
    forall c :: c in known && InLine(q, c) ==>
      && c in books && c.tmp == Weight(q, c) > 0
      && (c.limit != 0 ==> c.distributeQuota == books[c].quotaLeft >= 0)
  }

  /** Each of the first requests has got its share, the least that its channels have for it. */
  ghost predicate SharesGiven(all: seq<BwRequest>, after: seq<BwRequest>, known: set<BandwidthChannel>)
    reads known`limit, known`tmp, known`distributeQuota
  {
    |after| <= |all| && forall k :: 0 <= k < |after| ==>
      && RequestOk(all[k], known) && after[k] == Assigned(all[k])
      && all[k].assignedBytes <= after[k].assignedBytes <= all[k].requestSize
  }

  lemma {:induction false} ShareGiven(all: seq<BwRequest>, after: seq<BwRequest>, r: BwRequest,
                                      known: set<BandwidthChannel>)
    requires SharesGiven(all, after, known) && |after| < |all| && RequestOk(all[|after|], known)
    requires r == Assigned(all[|after|]) && all[|after|].assignedBytes <= r.assignedBytes <= r.requestSize
    ensures SharesGiven(all, after + [r], known)
  {}

  method AssignNext(r: BwRequest, ghost before: seq<BwRequest>, ghost after: seq<BwRequest>,
                    ghost known: set<BandwidthChannel>, ghost books: map<BandwidthChannel, Account>)
    returns (r': BwRequest, a: int)
    requires ChargedBy(known, books, after, before) && RequestOk(r, known)
    requires forall c :: c in r.channel && c.limit != 0 ==> c.tmp >= 0 && c.distributeQuota >= 0
    modifies known`quotaLeft, known`used, known`free
    ensures r' == Assigned(r) && a == r'.assignedBytes - r.assignedBytes
    ensures r.assignedBytes <= r'.assignedBytes <= r.requestSize
    ensures ChargedBy(known, books, after + [r'], before + [r])
  {
    hide Held, ChargeTo;
    r', a := AssignBandwidth(r);
    forall c | c in known
      ensures c.Valid() && Charged(books[c], c.Books(), Held(after + [r'], c) - Held(before + [r], c))
    {
      if c !in r.channel {
        ChargeToOthers(r.channel, c, a);
      }
      NextCharged(books[c], old(c.Books()), c.Books(), Held(after, c), Held(before, c), ChargeTo(r.channel, c, a));
      OneMoreHeld(before, r, c);
      OneMoreHeld(after, r', c);
      ChargeToSum(r.channel, c, r.assignedBytes, a);
    }
  }

  /** The queue without those of the first requests, `after` their share, that are done, and what is still lacking. */
  predicate AssignShape(all: seq<BwRequest>, after: seq<BwRequest>, queue: seq<BwRequest>, i: int, out0: seq<BwRequest>,
                        out: seq<BwRequest>, bytes: int) {
    && |after| <= |all| && i == |Waiting(after)| && queue == Waiting(after) + all[|after|..]
    && out == out0 + Finished(after)
    && bytes == Outstanding(Waiting(after)) + (Outstanding(all) - Outstanding(all[..|after|]))
  }

  lemma {:induction false} AssignShapeDone(all: seq<BwRequest>, after: seq<BwRequest>, queue: seq<BwRequest>, i: int,
                                           out0: seq<BwRequest>, out: seq<BwRequest>, r: BwRequest)
    requires |after| < |all| && i == |Waiting(after)| && queue == Waiting(after) + all[|after|..] && Done(r)
    requires out == out0 + Finished(after)
    ensures i < |queue| && Waiting(after + [r]) == Waiting(after) && Finished(after + [r]) == Finished(after) + [r]
    ensures queue[i := r][..i] + queue[i := r][i + 1..] == Waiting(after + [r]) + all[|after| + 1..]
    ensures out + [r] == out0 + Finished(after + [r])
  {
    Bytes.InitOfAppend(after, r);
    Erased(all, |after|, Waiting(after), queue);
    assert queue[i := r][..i] + queue[i := r][i + 1..] == queue[..i] + queue[i + 1..];
    assert (out0 + Finished(after)) + [r] == out0 + (Finished(after) + [r]);
  }

  lemma {:induction false} AssignShapeWaits(all: seq<BwRequest>, after: seq<BwRequest>, queue: seq<BwRequest>, i: int,
                                            r: BwRequest)
    requires |after| < |all| && i == |Waiting(after)| && queue == Waiting(after) + all[|after|..] && !Done(r)
    ensures i < |queue| && Waiting(after + [r]) == Waiting(after) + [r] && Finished(after + [r]) == Finished(after)
    ensures queue[i := r] == Waiting(after + [r]) + all[|after| + 1..]
  {
    Bytes.InitOfAppend(after, r);
    assert queue[i := r] == (Waiting(after) + [r]) + all[|after| + 1..];
  }

  lemma {:induction false} AssignShapeStep(all: seq<BwRequest>, after: seq<BwRequest>, queue: seq<BwRequest>, i: int,
                                           out0: seq<BwRequest>, out: seq<BwRequest>, bytes: int, r: BwRequest)
    requires AssignShape(all, after, queue, i, out0, out, bytes) && 0 <= i < |queue| && |after| < |all|
    requires queue[i] == all[|after|] && r.requestSize == all[|after|].requestSize
    ensures var a := r.assignedBytes - all[|after|].assignedBytes;
      if Done(r) then
        AssignShape(all, after + [r], queue[i := r][..i] + queue[i := r][i + 1..], i, out0, out + [r],
                    bytes - (a + (r.requestSize - r.assignedBytes)))
      else
        AssignShape(all, after + [r], queue[i := r], i + 1, out0, out, bytes - a)
  {
    var n := |after|;
    assert all[..n + 1] == all[..n] + [all[n]];
    Bytes.InitOfAppend(all[..n], all[n]);
    if Done(r) {
      AssignShapeDone(all, after, queue, i, out0, out, r);
    } else {
      AssignShapeWaits(all, after, queue, i, r);
      Bytes.InitOfAppend(Waiting(after), r);
    }
  }

  lemma {:induction false} AssignShapeEnds(all: seq<BwRequest>, after: seq<BwRequest>, queue: seq<BwRequest>, i: int,
                                           out0: seq<BwRequest>, out: seq<BwRequest>, bytes: int)
    requires AssignShape(all, after, queue, i, out0, out, bytes) && i >= |queue|
    ensures |after| == |all| && all[..|after|] == all
    ensures queue == Waiting(after) && out == out0 + Finished(after) && bytes == Outstanding(queue)
  {
    assert all[..|all|] == all;
  }

  lemma {:induction false} AssignShapeStarts(all: seq<BwRequest>, out0: seq<BwRequest>)
    ensures AssignShape(all, [], all, 0, out0, out0, Outstanding(all)) && all[..0] == []
  {
    assert all[..0] == [] && Finished([]) == [];
  }

  lemma {:induction false} ReadyForTurn(all: seq<BwRequest>, n: nat, known: set<BandwidthChannel>,
                                        books: map<BandwidthChannel, Account>)
    requires n < |all| && RequestOk(all[n], known) && ReadyToShare(all, known, books)
    ensures forall c :: c in all[n].channel && c.limit != 0 ==> c.tmp >= 0 && c.distributeQuota >= 0
  {
    forall c | c in all[n].channel
      ensures InLine(all, c)
    {
      InLineOf(all, n, c);
    }
  }

  /** The next request gets its share. */
  method AssignTurn(r: BwRequest, ghost all: seq<BwRequest>, ghost after: seq<BwRequest>,
                    ghost known: set<BandwidthChannel>, ghost books: map<BandwidthChannel, Account>)
    returns (r': BwRequest, a: int)
    requires |after| < |all| && r == all[|after|] && RequestOk(r, known) && ReadyToShare(all, known, books)
    requires SharesGiven(all, after, known) && ChargedBy(known, books, after, all[..|after|])
    modifies known`quotaLeft, known`used, known`free
    ensures r'.requestSize == r.requestSize && a == r'.assignedBytes - r.assignedBytes
    ensures SharesGiven(all, after + [r'], known) && ChargedBy(known, books, after + [r'], all[..|after| + 1])
  {
    ReadyForTurn(all, |after|, known, books);
    r', a := AssignNext(r, all[..|after|], after, known, books);
    ShareGiven(all, after, r', known);
    Bytes.OneMore(all, |after|);
  }

  /** The next request gets its share, and leaves the queue if it is done. */
  method AssignStep(ghost all: seq<BwRequest>, ghost after: seq<BwRequest>, queue: seq<BwRequest>, i: int,
                    ghost out0: seq<BwRequest>, out: seq<BwRequest>, bytes: int, ghost known: set<BandwidthChannel>,
                    ghost books: map<BandwidthChannel, Account>)
    returns (queue': seq<BwRequest>, i': int, out': seq<BwRequest>, bytes': int, ghost r': BwRequest)
    requires AssignShape(all, after, queue, i, out0, out, bytes) && 0 <= i < |queue|
    requires |after| < |all| && queue[i] == all[|after|] && RequestOk(queue[i], known)
      && ReadyToShare(all, known, books)
    requires SharesGiven(all, after, known) && ChargedBy(known, books, after, all[..|after|])
    modifies known`quotaLeft, known`used, known`free
    ensures AssignShape(all, after + [r'], queue', i', out0, out', bytes')
    ensures SharesGiven(all, after + [r'], known) && ChargedBy(known, books, after + [r'], all[..|after| + 1])
  {
    var r, a := AssignTurn(queue[i], all, after, known, books);
    AssignShapeStep(all, after, queue, i, out0, out, bytes, r);
    r', queue', i', out' := r, queue[i := r], i, out;
    if r.assignedBytes == r.requestSize || (r.ttl <= 0 && r.assignedBytes > 0) {
      a := a + (r.requestSize - r.assignedBytes);
      out' := out' + [r];
      queue' := queue'[..i] + queue'[i + 1..];
    } else {
      i' := i' + 1;
    }
    bytes' := bytes - a;
  }

  /** Every request gets its share; those that are done leave the queue. */
  method AssignAll(all: seq<BwRequest>, queuedBytes: int, out0: seq<BwRequest>, ghost known: set<BandwidthChannel>,
                   ghost books: map<BandwidthChannel, Account>)
    returns (queue: seq<BwRequest>, out: seq<BwRequest>, bytes: int, ghost after: seq<BwRequest>)
    requires RequestsOk(all, known) && ChargedBy(known, books, [], []) && ReadyToShare(all, known, books)
    requires queuedBytes == Outstanding(all)
    modifies known`quotaLeft, known`used, known`free
    ensures |after| == |all| && SharesGiven(all, after, known) && ChargedBy(known, books, after, all)
    ensures queue == Waiting(after) && out == out0 + Finished(after) && bytes == Outstanding(queue)
  {
    queue, out, bytes, after := all, out0, queuedBytes, [];
    var i := 0;
    AssignShapeStarts(all, out0);
    while i < |queue|
      invariant AssignShape(all, after, queue, i, out0, out, bytes)
      invariant SharesGiven(all, after, known) && ChargedBy(known, books, after, all[..|after|])
      decreases |all| - |after|
    {
      StillToLook(all, after, queue, i, out0, out, bytes);
      ghost var r;
      queue, i, out, bytes, r := AssignStep(all, after, queue, i, out0, out, bytes, known, books);
      after := after + [r];
    }
    AssignShapeEnds(all, after, queue, i, out0, out, bytes);
  }

  lemma {:induction false} StillToLook(all: seq<BwRequest>, after: seq<BwRequest>, queue: seq<BwRequest>, i: int,
                                       out0: seq<BwRequest>, out: seq<BwRequest>, bytes: int)
    requires AssignShape(all, after, queue, i, out0, out, bytes) && i < |queue|
    ensures 0 <= i && |after| < |all| && queue[i] == all[|after|]
  {}

  // ----- the books after each phase

  lemma {:induction false} DropSettles(before: Account, after: Account, held: int, back: int, paid: int)
    requires Charged(before, after, -back) && back >= 0 && before.quotaLeft >= 0 && Settled(before, held, paid)
    ensures after.quotaLeft >= 0 && Settled(after, held - back, paid)
  {}

  lemma {:induction false} SplitElements(q: seq<BwRequest>, gone: set<Peer>, known: set<BandwidthChannel>)
    requires RequestsOk(q, known)
    ensures RequestsOk(Leaving(q, gone), known) && RequestsOk(Staying(q, gone), known)
  {
    if q != [] {
      SplitElements(q[..|q| - 1], gone, known);
    }
  }

  /** A round refills the channels that these requests are in line for, and counts their priorities. */
  ghost predicate Refilled(queue: seq<BwRequest>, known: set<BandwidthChannel>, paid: map<BandwidthChannel, Account>,
                           dt: nat)
    reads known`limit, known`quotaLeft, known`used, known`refunded, known`granted, known`added, known`allowed,
      known`free
    reads known`tmp, known`distributeQuota
  {
    forall c :: c in known ==>
      && c in paid && paid[c].limit >= 0
      && c.Books() == (if InLine(queue, c) then Refreshed(paid[c], dt) else paid[c])
      && (InLine(queue, c) ==> c.tmp == Weight(queue, c))
      && (InLine(queue, c) && c.limit != 0 ==> c.quotaLeft == c.distributeQuota)
  }

  /** Second phase: what is waited for is refilled once. */
  method Refill(queue: seq<BwRequest>, dt: nat, ghost known: set<BandwidthChannel>, ghost calls: seq<Callback>,
                ghost paid: map<BandwidthChannel, Account>)
    requires RequestsOk(queue, known) && Cleared(queue, known) && BooksOk(known, queue, calls)
      && paid == Snapshot(known)
    modifies known`tmp, known`quotaLeft, known`distributeQuota, known`added, known`allowed
    ensures BooksOk(known, queue, calls) && Refilled(queue, known, paid, dt)
  {
    assert forall c :: c in known ==> c.Valid() && c in paid && paid[c] == c.Books();
    var channels := CountPriorities(queue, known);
    UpdateChannels(channels, dt);
    RefillSettles(queue, channels, known, calls, paid, dt);
  }

  lemma {:induction false} RefillSettles(queue: seq<BwRequest>, channels: seq<BandwidthChannel>,
                                         known: set<BandwidthChannel>, calls: seq<Callback>,
                                         paid: map<BandwidthChannel, Account>, dt: nat)
    requires ChannelsOf(channels, queue, known) && Counted(queue, queue, known)
    requires forall c :: c in known ==>
               && c.Valid() && c.quotaLeft >= 0 && c in paid && paid[c].limit >= 0
               && Settled(paid[c], Held(queue, c), Paid(calls, c))
    requires forall c :: c in channels ==>
               c.Books() == Refreshed(paid[c], dt) && (c.limit != 0 ==> c.distributeQuota == c.quotaLeft)
    requires forall c :: c in known && c !in channels ==> c.Books() == paid[c]
    ensures BooksOk(known, queue, calls) && Refilled(queue, known, paid, dt)
  {}

  /** First phase: who is disconnecting pays back and leaves. */
  method Drop(queue: seq<BwRequest>, queuedBytes: int, gone: set<Peer>, ghost known: set<BandwidthChannel>,
              ghost calls: seq<Callback>, ghost books: map<BandwidthChannel, Account>)
    returns (kept: seq<BwRequest>, out: seq<BwRequest>, bytes: int)
    requires RequestsOk(queue, known) && BooksOk(known, queue, calls) && queuedBytes == Outstanding(queue)
    requires books == Snapshot(known)
    modifies known`quotaLeft, known`refunded, known`free, known`tmp
    ensures kept == Staying(queue, gone) && out == Emptied(Leaving(queue, gone)) && bytes == Outstanding(kept)
    ensures RequestsOk(kept, known) && BooksOk(known, kept, calls) && Cleared(kept, known)
    ensures ChargedBy(known, books, [], Leaving(queue, gone))
  {
    assert forall c :: c in known ==> books[c].quotaLeft >= 0 && Settled(books[c], Held(queue, c), Paid(calls, c));
    SplitElements(queue, gone, known);
    OutstandingSplits(queue, gone);
    kept, out, bytes := DropDisconnecting(queue, queuedBytes, gone, known, books);
    DroppedSettles(queue, gone, known, calls, books);
  }

  lemma {:induction false} DroppedSettles(queue: seq<BwRequest>, gone: set<Peer>, known: set<BandwidthChannel>,
                                          calls: seq<Callback>, books: map<BandwidthChannel, Account>)
    requires RequestsOk(queue, known) && ChargedBy(known, books, [], Leaving(queue, gone))
    requires forall c :: c in known ==> books[c].quotaLeft >= 0 && Settled(books[c], Held(queue, c), Paid(calls, c))
    ensures BooksOk(known, Staying(queue, gone), calls)
  {
    SplitElements(queue, gone, known);
    forall c | c in known
      ensures c.quotaLeft >= 0 && Settled(c.Books(), Held(Staying(queue, gone), c), Paid(calls, c))
    {
      var left := Leaving(queue, gone);
      HeldSplits(queue, gone, c);
      HeldNonNegative(left, c);
      DropSettles(books[c], c.Books(), Held(queue, c), Held(left, c), Paid(calls, c));
    }
  }

  lemma {:induction false} GivenSameRequests(all: seq<BwRequest>, after: seq<BwRequest>, known: set<BandwidthChannel>)
    requires SharesGiven(all, after, known) && |after| == |all|
    ensures SameRequests(all, after)
  {}

  /** What is handed out of a channel in a round is within what it had to distribute. */
  lemma {:induction false} WithinQuota(all: seq<BwRequest>, after: seq<BwRequest>, known: set<BandwidthChannel>,
                                       c: BandwidthChannel)
    requires SharesGiven(all, after, known) && |after| == |all|
    requires c.limit != 0 && c.tmp == Weight(all, c) > 0
    ensures Held(after, c) - Held(all, c) <= c.distributeQuota
  {
    GivenSameRequests(all, after, known);
    forall k | 0 <= k < |all| && c in all[k].channel
      ensures after[k].assignedBytes - all[k].assignedBytes <= c.distributeQuota * all[k].priority / Weight(all, c)
    {
      GrantIsLeast(all[k].channel, all[k].priority, all[k].requestSize - all[k].assignedBytes);
    }
    SharesWithinQuota(all, after, c, c.distributeQuota);
  }

  lemma {:induction false} ShareSettles(before: Account, after: Account, plus: int, minus: int, paid: int)
    requires Charged(before, after, plus - minus) && Settled(before, minus, paid)
    requires before.quotaLeft >= 0 && (before.limit != 0 ==> plus - minus <= before.quotaLeft)
    ensures after.quotaLeft >= 0 && Settled(after, plus, paid)
  {}

  /** No channel goes into debt when the quotas are shared out. */
  lemma {:induction false} SharedSettles(all: seq<BwRequest>, after: seq<BwRequest>, known: set<BandwidthChannel>,
                                         calls: seq<Callback>, books: map<BandwidthChannel, Account>)
    requires SharesGiven(all, after, known) && |after| == |all|
    requires ChargedBy(known, books, after, all) && ReadyToShare(all, known, books)
    requires forall c :: c in known ==> books[c].quotaLeft >= 0 && Settled(books[c], Held(all, c), Paid(calls, c))
    ensures BooksOk(known, after, calls)
  {
    GivenSameRequests(all, after, known);
    forall c | c in known
      ensures c.quotaLeft >= 0 && Settled(c.Books(), Held(after, c), Paid(calls, c))
    {
      if !InLine(all, c) {
        SameLine(all, after, c);
        HeldByOthers(all, c);
        HeldByOthers(after, c);
      } else if c.limit != 0 {
        WithinQuota(all, after, known, c);
      }
      ShareSettles(books[c], c.Books(), Held(after, c), Held(all, c), Paid(calls, c));
    }
  }

  lemma {:induction false} NextCall(calls: seq<Callback>, q: seq<BwRequest>)
    requires q != []
    ensures var r := q[|q| - 1];
      calls + CallsFor(q) == (calls + [Callback(r, r.assignedBytes)]) + CallsFor(q[..|q| - 1])
  {}

  /** Calls the peers of the requests back, the last one first. */
  method Deliver(out: seq<BwRequest>, calls: seq<Callback>) returns (calls': seq<Callback>)
    ensures calls' == calls + CallsFor(out)
  {
    calls' := calls;
    var queue := out;
    while queue != []
      invariant calls' + CallsFor(queue) == calls + CallsFor(out)
    {
      var bwr := queue[|queue| - 1];
      NextCall(calls', queue);
      calls' := calls' + [Callback(bwr, bwr.assignedBytes)];
      queue := queue[..|queue| - 1];
    }
  }

  /** After the calls the books say the same. */
  lemma {:induction false} DeliverySettles(known: set<BandwidthChannel>, after: seq<BwRequest>, left: seq<BwRequest>,
                                           calls: seq<Callback>)
    requires BooksOk(known, after, calls)
    ensures BooksOk(known, Waiting(after), calls + CallsFor(Emptied(left) + Finished(after)))
  {
    forall c | c in known
      ensures Settled(c.Books(), Held(Waiting(after), c), Paid(calls + CallsFor(Emptied(left) + Finished(after)), c))
    {
      HeldByOutcome(after, c);
      PaidConcat(calls, CallsFor(Emptied(left) + Finished(after)), c);
      PaidForCalls(Emptied(left) + Finished(after), c);
      HeldConcat(Emptied(left), Finished(after), c);
      HeldEmptied(left, c);
    }
  }

  /** Third phase: what was refilled is shared out. */
  method Share(queue: seq<BwRequest>, queuedBytes: int, out0: seq<BwRequest>, ghost known: set<BandwidthChannel>,
               ghost calls: seq<Callback>, ghost paid: map<BandwidthChannel, Account>, ghost dt: nat,
               ghost books: map<BandwidthChannel, Account>)
    returns (queue': seq<BwRequest>, out: seq<BwRequest>, bytes: int, ghost after: seq<BwRequest>)
    requires RequestsOk(queue, known) && BooksOk(known, queue, calls) && queuedBytes == Outstanding(queue)
    requires Refilled(queue, known, paid, dt) && books == Snapshot(known)
    modifies known`quotaLeft, known`used, known`free
    ensures |after| == |queue| && SharesGiven(queue, after, known) && ChargedBy(known, books, after, queue)
    ensures queue' == Waiting(after) && out == out0 + Finished(after) && bytes == Outstanding(queue')
    ensures BooksOk(known, after, calls) && ReadyToShare(queue, known, books)
  {
    BeforeShare(queue, known, calls, paid, dt, books);
    queue', out, bytes, after := AssignAll(queue, queuedBytes, out0, known, books);
    SharedSettles(queue, after, known, calls, books);
  }

  lemma {:induction false} BeforeShare(queue: seq<BwRequest>, known: set<BandwidthChannel>, calls: seq<Callback>,
                                       paid: map<BandwidthChannel, Account>, dt: nat,
                                       books: map<BandwidthChannel, Account>)
    requires RequestsOk(queue, known) && BooksOk(known, queue, calls) && Refilled(queue, known, paid, dt)
      && books == Snapshot(known)
    ensures ReadyToShare(queue, known, books) && ChargedBy(known, books, [], [])
    ensures forall c :: c in known ==> books[c].quotaLeft >= 0 && Settled(books[c], Held(queue, c), Paid(calls, c))
  {
    forall c | c in known && InLine(queue, c)
      ensures c.tmp > 0
    {
      InLineHasWeight(queue, c);
    }
  }

  // ----- what every request comes to

  /** A callback with at most what was asked for. */
  ghost predicate CallOk(call: Callback, known: set<BandwidthChannel>) {
    0 <= call.amount <= call.request.requestSize && forall c :: c in call.request.channel ==> c in known
  }

  /**
   Every request that ever was in the queue waits or was called back, as often as it was queued, and got at most its
   size.
   */
  ghost predicate CallsOk(asked: multiset<BwRequest>, queue: seq<BwRequest>, calls: seq<Callback>,
                          known: set<BandwidthChannel>) {
    && asked == Originals(queue) + Served(calls)
    && forall k :: 0 <= k < |calls| ==> CallOk(calls[k], known)
  }

  lemma {:induction false} SumAssociative<T>(a: multiset<T>, b: multiset<T>, c: multiset<T>)
    ensures a + (b + c) == (a + b) + c
    ensures a + b == b + a
  {}

  lemma {:induction false} SumRegrouped<T>(x: multiset<T>, y: multiset<T>, z: multiset<T>, left: multiset<T>,
                                           right: multiset<T>)
    requires left == (x + y) + z && right == y + z
    ensures left == x + right
  {}

  lemma {:induction false} LastOfConcat<T>(a: seq<T>, b: seq<T>)
    requires b != []
    ensures a + b == (a + b[..|b| - 1]) + [b[|b| - 1]] && b == b[..|b| - 1] + [b[|b| - 1]]
  {}

  lemma {:induction false} OneMoreOriginal(q: seq<BwRequest>, r: BwRequest)
    ensures Originals(q + [r]) == Originals(q) + multiset{Original(r)}
  {
    Bytes.InitOfAppend(q, r);
  }

  lemma {:induction false} OriginalsConcat(a: seq<BwRequest>, b: seq<BwRequest>)
    ensures Originals(a + b) == Originals(a) + Originals(b)
  {
    if b == [] {
      assert a + b == a;
    } else {
      var init, last := b[..|b| - 1], b[|b| - 1];
      OriginalsConcat(a, init);
      LastOfConcat(a, b);
      OneMoreOriginal(a + init, last);
      OneMoreOriginal(init, last);
      SumRegrouped(Originals(a), Originals(init), multiset{Original(last)}, Originals(a + b), Originals(b));
    }
  }

  lemma {:induction false} OneMoreServed(calls: seq<Callback>, call: Callback)
    ensures Served(calls + [call]) == Served(calls) + multiset{Original(call.request)}
  {
    assert (calls + [call])[..|calls|] == calls;
  }

  lemma {:induction false} ServedByCalls(q: seq<BwRequest>)
    ensures Served(CallsFor(q)) == Originals(q)
  {
    if q != [] {
      var last := Callback(q[|q| - 1], q[|q| - 1].assignedBytes);
      var c: seq<Callback> := [last];
      ServedByCalls(q[..|q| - 1]);
      ServedConcat([last], CallsFor(q[..|q| - 1]));
      assert [last][..0] == [];
      assert Served([last]) == multiset{Original(last.request)};
    }
  }

  lemma {:induction false} ServedConcat(a: seq<Callback>, b: seq<Callback>)
    ensures Served(a + b) == Served(a) + Served(b)
  {
    if b == [] {
      assert a + b == a;
    } else {
      var init, last := b[..|b| - 1], b[|b| - 1];
      ServedConcat(a, init);
      LastOfConcat(a, b);
      OneMoreServed(a + init, last);
      OneMoreServed(init, last);
      SumRegrouped(Served(a), Served(init), multiset{Original(last.request)}, Served(a + b), Served(b));
    }
  }

  lemma {:induction false} OriginalsOfSame(q: seq<BwRequest>, after: seq<BwRequest>)
    requires SameRequests(q, after)
    ensures Originals(after) == Originals(q)
  {
    if q != [] {
      OriginalsOfSame(q[..|q| - 1], after[..|q| - 1]);
    }
  }

  lemma {:induction false} OriginalsSplit(q: seq<BwRequest>, gone: set<Peer>)
    ensures Originals(q) == Originals(Emptied(Leaving(q, gone))) + Originals(Staying(q, gone))
  {
    if q != [] {
      var init, r := q[..|q| - 1], q[|q| - 1];
      OriginalsSplit(init, gone);
      var left, stay := Originals(Emptied(Leaving(init, gone))), Originals(Staying(init, gone));
      var last := multiset{Original(r)};
      if r.peer in gone {
        Bytes.InitOfAppend(Leaving(init, gone), r);
        Bytes.InitOfAppend(Emptied(Leaving(init, gone)), r.(assignedBytes := 0));
        SumAssociative(left, last, stay);
        SumAssociative(left, stay, last);
        SumAssociative(stay, last, left);
      } else {
        Bytes.InitOfAppend(Staying(init, gone), r);
        SumAssociative(left, stay, last);
      }
    }
  }

  lemma {:induction false} OriginalsByOutcome(q: seq<BwRequest>)
    ensures Originals(q) == Originals(Finished(q)) + Originals(Waiting(q))
  {
    if q != [] {
      var init, r := q[..|q| - 1], q[|q| - 1];
      OriginalsByOutcome(init);
      Bytes.InitOfAppend(Finished(init), r);
      Bytes.InitOfAppend(Waiting(init), r);
    }
  }

  /** A request that may be called back: it has at most what it asked for. */
  ghost predicate Servable(q: seq<BwRequest>, known: set<BandwidthChannel>) {
    forall k :: 0 <= k < |q| ==>
      0 <= q[k].assignedBytes <= q[k].requestSize && forall c :: c in q[k].channel ==> c in known
  }

  lemma {:induction false} CallsReach(q: seq<BwRequest>)
    ensures |CallsFor(q)| == |q|
    ensures forall k :: 0 <= k < |q| ==> CallsFor(q)[k] == Callback(q[|q| - 1 - k], q[|q| - 1 - k].assignedBytes)
  {
    if q != [] {
      CallsReach(q[..|q| - 1]);
    }
  }

  /** The requests in `out` are called back and leave the others waiting. */
  lemma {:induction false} Called(asked: multiset<BwRequest>, queue: seq<BwRequest>, kept: seq<BwRequest>,
                                  out: seq<BwRequest>, calls: seq<Callback>, known: set<BandwidthChannel>)
    requires CallsOk(asked, queue, calls, known) && Originals(queue) == Originals(kept) + Originals(out)
      && Servable(out, known)
    ensures CallsOk(asked, kept, calls + CallsFor(out), known)
  {
    ServedByCalls(out);
    ServedConcat(calls, CallsFor(out));
    CallsRegrouped(Originals(kept), Originals(out), Served(calls));
    CallsInBounds(calls, out, known);
  }

  lemma {:induction false} CallsRegrouped<T>(kept: multiset<T>, out: multiset<T>, served: multiset<T>)
    ensures (kept + out) + served == kept + (served + out)
  {}

  lemma {:induction false} CallsInBounds(calls: seq<Callback>, out: seq<BwRequest>, known: set<BandwidthChannel>)
    requires (forall k :: 0 <= k < |calls| ==> CallOk(calls[k], known)) && Servable(out, known)
    ensures var more := calls + CallsFor(out); forall k :: 0 <= k < |more| ==> CallOk(more[k], known)
  {
    CallsReach(out);
    var more := calls + CallsFor(out);
    forall k | 0 <= k < |more|
      ensures CallOk(more[k], known)
    {
      if k >= |calls| {
        assert more[k] == CallsFor(out)[k - |calls|];
      }
    }
  }

  lemma {:induction false} OutcomeOk(after: seq<BwRequest>, known: set<BandwidthChannel>)
    requires Servable(after, known)
    requires forall k :: 0 <= k < |after| ==> after[k].priority > 0 && 0 < |after[k].channel| <= MAX_BANDWIDTH_CHANNELS
    ensures RequestsOk(Waiting(after), known) && Servable(Finished(after), known)
  {
    if after != [] {
      OutcomeOk(after[..|after| - 1], known);
    }
  }

  lemma {:induction false} EmptiedOk(q: seq<BwRequest>, known: set<BandwidthChannel>)
    requires RequestsOk(q, known)
    ensures Servable(Emptied(q), known)
  {
    if q != [] {
      EmptiedOk(q[..|q| - 1], known);
    }
  }

  /** What is left in the queue after a round, and the calls that it makes. */
  lemma {:induction false} RoundEnds(all: seq<BwRequest>, gone: set<Peer>, after: seq<BwRequest>,
                                     asked: multiset<BwRequest>, calls: seq<Callback>, known: set<BandwidthChannel>)
    requires RequestsOk(all, known) && CallsOk(asked, all, calls, known)
    requires |after| == |Staying(all, gone)| && SharesGiven(Staying(all, gone), after, known)
    ensures RequestsOk(Waiting(after), known)
    ensures CallsOk(asked, Waiting(after), calls + CallsFor(Emptied(Leaving(all, gone)) + Finished(after)), known)
  {
    var left := Emptied(Leaving(all, gone));
    SplitElements(all, gone, known);
    GivenSameRequests(Staying(all, gone), after, known);
    OutcomeOk(after, known);
    EmptiedOk(Leaving(all, gone), known);
    OriginalsSplit(all, gone);
    OriginalsOfSame(Staying(all, gone), after);
    OriginalsByOutcome(after);
    OriginalsConcat(left, Finished(after));
    ServableConcat(left, Finished(after), known);
    Called(asked, all, Waiting(after), left + Finished(after), calls, known);
  }

  lemma {:induction false} ServableConcat(a: seq<BwRequest>, b: seq<BwRequest>, known: set<BandwidthChannel>)
    requires Servable(a, known) && Servable(b, known)
    ensures Servable(a + b, known)
  {}

  // ----- who has to wait

  /** The channels that have less than a second's worth of quota besides what is asked for. */
  ghost function Scarce(channels: seq<BandwidthChannel>, blk: int): seq<BandwidthChannel>
    reads channels`limit, channels`quotaLeft
  {
    if channels == [] then [] else
    var init, c := Scarce(channels[..|channels| - 1], blk), channels[|channels| - 1];
    if c.quotaLeft < c.limit + blk then init + [c] else init
  }

  /** The account after `blk` bytes were granted without queueing. */
  function GrantedAtOnce(a: Account, blk: int): Account {
    a.(quotaLeft := a.quotaLeft - blk, granted := a.granted + blk)
  }

  /** The channels that are not scarce have granted `blk` bytes. */
  ghost predicate GrantedByOthers(channels: set<BandwidthChannel>, books: map<BandwidthChannel, Account>, blk: int)
    reads channels`limit, channels`quotaLeft, channels`used, channels`refunded, channels`granted, channels`added,
      channels`allowed, channels`free
  {
    forall c :: c in channels ==>
      && c in books
      && c.Books() == if books[c].quotaLeft < books[c].limit + blk then books[c] else GrantedAtOnce(books[c], blk)
  }

  lemma {:induction false} ScarceOneMore(channels: seq<BandwidthChannel>, i: nat, blk: int)
    requires i < |channels|
    ensures var c := channels[i];
      Scarce(channels[..i + 1], blk) ==
        if c.quotaLeft < c.limit + blk then Scarce(channels[..i], blk) + [c] else Scarce(channels[..i], blk)
  {
    assert channels[..i + 1][..i] == channels[..i];
  }

  /** Pays for a request at every channel that has enough; it has to wait for the others. */
  method ChannelsToWaitFor(chan: seq<BandwidthChannel>, blk: int, ghost books: map<BandwidthChannel, Account>)
    returns (waiting: seq<BandwidthChannel>)
    requires blk > 0 && forall c :: c in chan ==> c.Valid() && c.quotaLeft >= 0 && c in books && books[c] == c.Books()
    modifies chan`quotaLeft, chan`granted
    ensures |waiting| <= |chan| && forall c :: c in waiting ==> c in chan
    ensures forall c :: c in chan ==> c.Valid() && c.quotaLeft >= 0
    ensures forall c :: c in chan ==> c.granted >= old(c.granted)
    ensures Distinct(chan) ==> waiting == old(Scarce(chan, blk))
    ensures Distinct(chan) ==> GrantedByOthers(SetOf(chan), books, blk)
  {
    waiting := [];
    ghost var distinct := Distinct(chan);
    ghost var scarce := seq(|chan| + 1, i requires 0 <= i <= |chan| reads chan`limit,
      chan`quotaLeft => Scarce(chan[..i], blk));
    forall i | 0 <= i < |chan|
      ensures scarce[i + 1] == if chan[i].quotaLeft < chan[i].limit + blk then scarce[i] + [chan[i]] else scarce[i]
    {
      ScarceOneMore(chan, i, blk);
    }
    for i := 0 to |chan|
      invariant |waiting| <= i && forall c :: c in waiting ==> c in chan
      invariant forall c :: c in chan ==> c.Valid() && c.quotaLeft >= 0 && c.granted >= old(c.granted)
      invariant distinct ==> waiting == scarce[i]
      invariant distinct ==> forall k :: 0 <= k < |chan| ==>
                  var b := books[chan[k]];
                  chan[k].Books() == if k >= i || b.quotaLeft < b.limit + blk then b else GrantedAtOnce(b, blk)
    {
      if distinct {
        DistinctFrom(chan, i);
      }
      var wait := chan[i].NeedQueueing(blk);
      if wait {
        waiting := waiting + [chan[i]];
      }
    }
    assert chan[..|chan|] == chan;
  }

  /** Nothing was ever charged to a channel that no request has waited for. */
  lemma {:induction false} UnknownHoldsNothing(q: seq<BwRequest>, known: set<BandwidthChannel>, c: BandwidthChannel)
    requires RequestsOk(q, known) && c !in known
    ensures Held(q, c) == 0
  {
    if q != [] {
      UnknownHoldsNothing(q[..|q| - 1], known, c);
      ChargeToOthers(q[|q| - 1].channel, c, q[|q| - 1].assignedBytes);
    }
  }

  lemma {:induction false} UnknownPaysNothing(calls: seq<Callback>, c: BandwidthChannel)
    requires forall k :: 0 <= k < |calls| ==> c !in calls[k].request.channel
    ensures Paid(calls, c) == 0
  {
    if calls != [] {
      UnknownPaysNothing(calls[..|calls| - 1], c);
      ChargeToOthers(calls[|calls| - 1].request.channel, c, calls[|calls| - 1].amount);
    }
  }

  /** A request that has nothing yet changes no books. */
  lemma {:induction false} BooksOpened(known: set<BandwidthChannel>, more: set<BandwidthChannel>,
                                       asked: multiset<BwRequest>, q: seq<BwRequest>, calls: seq<Callback>,
                                       r: BwRequest)
    requires BooksOk(known, q, calls) && RequestsOk(q, known) && CallsOk(asked, q, calls, known)
    requires r.assignedBytes == 0 && known <= more
    requires forall c :: c in more ==> c.Valid() && c.quotaLeft >= 0 && (c in known || c.Untouched())
    ensures BooksOk(more, q + [r], calls)
  {
    forall c | c in more
      ensures Settled(c.Books(), Held(q + [r], c), Paid(calls, c))
    {
      OneMoreHeld(q, r, c);
      ChargeOfZero(r.channel, c);
      if c !in known {
        UnknownHoldsNothing(q, known, c);
        UnknownPaysNothing(calls, c);
      }
    }
  }

  /** A new request goes to the end of the line. */
  lemma {:induction false} Queued(known: set<BandwidthChannel>, more: set<BandwidthChannel>, asked: multiset<BwRequest>,
                                  q: seq<BwRequest>, calls: seq<Callback>, r: BwRequest)
    requires RequestsOk(q, known) && CallsOk(asked, q, calls, known) && known <= more
    requires RequestOk(r, more) && r == Original(r)
    ensures RequestsOk(q + [r], more) && CallsOk(asked + multiset{r}, q + [r], calls, more)
    ensures Outstanding(q + [r]) == Outstanding(q) + r.requestSize
  {
    OneMoreOutstanding(q, r);
    Bytes.InitOfAppend(q, r);
  }

  /** All that wait are called back. */
  lemma {:induction false} CloseSettles(known: set<BandwidthChannel>, asked: multiset<BwRequest>, q: seq<BwRequest>,
                                        calls: seq<Callback>)
    requires BooksOk(known, q, calls) && RequestsOk(q, known) && CallsOk(asked, q, calls, known)
    ensures BooksOk(known, [], calls + CallsFor(q)) && CallsOk(asked, [], calls + CallsFor(q), known)
  {
    forall c | c in known
      ensures Settled(c.Books(), Held([], c), Paid(calls + CallsFor(q), c))
    {
      PaidConcat(calls, CallsFor(q), c);
      PaidForCalls(q, c);
    }
    Called(asked, q, [], q, calls, known);
  }

  class Manager {
    // the requests that want bandwidth
    var queue: seq<BwRequest>
    // the number of bytes that all requests in the queue are for
    var queuedBytes: int
    var aborted: bool
    // the calls back to peers that were made
    var calls: seq<Callback>

    // the channels that requests have waited for, and the requests that ever were in the queue
    ghost var known: set<BandwidthChannel>
    ghost var asked: multiset<BwRequest>

    constructor ()
      ensures Valid() && queue == [] && calls == [] && known == {} && asked == multiset{} && !aborted
    {
      queue, queuedBytes, aborted, calls := [], 0, false, [];
      known, asked := {}, multiset{};
    }

    ghost predicate Valid()
      reads this`queue, this`queuedBytes, this`aborted, this`calls, this`known, this`asked
      reads known`limit, known`quotaLeft, known`used, known`refunded, known`granted, known`added, known`allowed,
        known`free
    {
      && RequestsOk(queue, known) && queuedBytes == Outstanding(queue) && (aborted ==> queue == [])
      && BooksOk(known, queue, calls) && CallsOk(asked, queue, calls, known)
    }

    /** The requests that wait from now on, and the calls that were made. */
    method Store(queue: seq<BwRequest>, queuedBytes: int, calls: seq<Callback>, ghost known: set<BandwidthChannel>,
                 ghost asked: multiset<BwRequest>)
      requires RequestsOk(queue, known) && queuedBytes == Outstanding(queue) && (aborted ==> queue == [])
      requires BooksOk(known, queue, calls) && CallsOk(asked, queue, calls, known)
      modifies this`queue, this`queuedBytes, this`calls, this`known, this`asked
      ensures Valid() && this.queue == queue && this.calls == calls && this.known == known && this.asked == asked
    {
      this.queue, this.queuedBytes, this.calls := queue, queuedBytes, calls;
      this.known, this.asked := known, asked;
    }

    /**
     A request for `blk` bytes is granted at once when none of its channels is scarce. Otherwise the peer will be called
     back. A channel that no request has waited for yet must not have been charged by another queue.
     */
    method RequestBandwidth(peer: Peer, blk: int, priority: int, chan: seq<BandwidthChannel>) returns (granted: int)
      requires Valid() && blk > 0 && priority > 0 && |chan| <= MAX_BANDWIDTH_CHANNELS
      requires forall c :: c in chan ==> c.Valid() && c.quotaLeft >= 0 && (c in known || c.Untouched())
      modifies this`queue, this`queuedBytes, this`calls, this`known, this`asked, chan`quotaLeft, chan`granted
      ensures calls == old(calls) && aborted == old(aborted)
      ensures forall c :: c in chan ==> c.Valid() && c.quotaLeft >= 0 && c.granted >= old(c.granted)
      ensures aborted ==> forall c :: c in chan ==> c.quotaLeft == old(c.quotaLeft) && c.granted == old(c.granted)
      ensures Valid() && old(known) <= known <= old(known) + SetOf(chan)
      ensures aborted ==> granted == 0 && queue == old(queue) && asked == old(asked)
      ensures !aborted && granted != 0 ==> granted == blk && queue == old(queue) && asked == old(asked)
      ensures !aborted && granted == 0 ==>
                && queue != [] && var r := queue[|queue| - 1];
                && queue == old(queue) + [r] && asked == old(asked) + multiset{r}
                && r == NewRequest(peer, blk, priority, r.channel)
                && r.channel != [] && (forall c :: c in r.channel ==> c in chan)
                && (Distinct(chan) ==> r.channel == old(Scarce(chan, blk)))
      ensures !aborted && Distinct(chan) ==> (granted != 0 <==> old(Scarce(chan, blk)) == [])
      ensures !aborted && Distinct(chan) ==> GrantedByOthers(SetOf(chan), old(Snapshot(SetOf(chan))), blk)
    {
      if aborted {
        return 0;
      }
      if |chan| == 0 {
        return blk;
      }
      granted := RequestFrom(peer, blk, priority, chan, Snapshot(SetOf(chan)));
    }

    /** Asks the channels whether the request has to wait for them. */
    method RequestFrom(peer: Peer, blk: int, priority: int, chan: seq<BandwidthChannel>,
                       ghost books: map<BandwidthChannel, Account>)
      returns (granted: int)
      requires Valid() && !aborted && blk > 0 && priority > 0 && |chan| <= MAX_BANDWIDTH_CHANNELS
      requires forall c :: c in chan ==> c.Valid() && c.quotaLeft >= 0 && (c in known || c.Untouched())
      requires books == Snapshot(SetOf(chan))
      modifies this`queue, this`queuedBytes, this`calls, this`known, this`asked, chan`quotaLeft, chan`granted
      ensures calls == old(calls) && forall c :: c in chan ==> c.Valid() && c.quotaLeft >= 0
      ensures forall c :: c in chan ==> c.granted >= old(c.granted)
      ensures Valid() && old(known) <= known <= old(known) + SetOf(chan)
      ensures granted != 0 ==> granted == blk && queue == old(queue) && asked == old(asked)
      ensures granted == 0 ==>
                && queue != [] && var r := queue[|queue| - 1];
                && queue == old(queue) + [r] && asked == old(asked) + multiset{r}
                && r == NewRequest(peer, blk, priority, r.channel)
                && r.channel != [] && (forall c :: c in r.channel ==> c in chan)
                && (Distinct(chan) ==> r.channel == old(Scarce(chan, blk)))
      ensures Distinct(chan) ==> (granted != 0 <==> old(Scarce(chan, blk)) == [])
      ensures Distinct(chan) ==> GrantedByOthers(SetOf(chan), books, blk)
    {
      hide CallsOk, RequestsOk, Scarce, Distinct, GrantedByOthers;
      assert forall c :: c in chan ==> c in books && books[c] == c.Books();
      var waiting := ChannelsToWaitFor(chan, blk, books);
      assert BooksOk(known, queue, calls);
      if |waiting| == 0 {
        return blk;
      }
      Queue(NewRequest(peer, blk, priority, waiting), chan, books, blk);
      granted := 0;
    }

    /** A new request goes to the end of the line. */
    method Queue(bwr: BwRequest, ghost chan: seq<BandwidthChannel>, ghost books: map<BandwidthChannel, Account>,
                 ghost blk: int)
      requires Valid() && !aborted && bwr == Original(bwr)
      requires bwr.priority > 0 && bwr.requestSize > 0 && 0 < |bwr.channel| <= MAX_BANDWIDTH_CHANNELS
      requires forall c :: c in bwr.channel ==> c in chan
      requires forall c :: c in chan ==> c.Valid() && c.quotaLeft >= 0 && (c in known || c.Untouched())
      modifies this`queue, this`queuedBytes, this`calls, this`known, this`asked
      ensures Valid() && queue == old(queue) + [bwr] && asked == old(asked) + multiset{bwr} && calls == old(calls)
      ensures known == old(known) + SetOf(bwr.channel) && known <= old(known) + SetOf(chan)
      ensures forall c :: c in chan ==> c.Valid() && c.quotaLeft >= 0
      ensures old(GrantedByOthers(SetOf(chan), books, blk)) ==> GrantedByOthers(SetOf(chan), books, blk)
    {
      ghost var more := known + SetOf(bwr.channel);
      BooksOpened(known, more, asked, queue, calls, bwr);
      Queued(known, more, asked, queue, calls, bwr);
      Store(queue + [bwr], queuedBytes + bwr.requestSize, calls, more, asked + multiset{bwr});
    }

    /** All that wait are called back with what they have. Nobody will be queued again. */
    method Close()
      requires Valid()
      modifies this`queue, this`queuedBytes, this`aborted, this`calls
      ensures Valid() && aborted && queue == [] && queuedBytes == 0
      ensures calls == old(calls + CallsFor(queue))
    {
      hide BooksOk, CallsOk;
      CloseSettles(known, asked, queue, calls);
      var calls' := Deliver(queue, calls);
      aborted := true;
      queue, queuedBytes, calls := [], 0, calls';
    }

    /**
     A round. Those that are disconnecting leave and pay back what they had; then every channel that is waited for is
     refilled once and shared out in proportion to the priorities; and those that are done are called back.
     */
    method UpdateQuotas(dt: nat, gone: set<Peer>)
      returns (ghost paid: map<BandwidthChannel, Account>, ghost after: seq<BwRequest>)
      requires Valid()
      modifies this`queue, this`queuedBytes, this`calls, this`known, this`asked, known
      ensures Valid()
      ensures known == old(known) && asked == old(asked) && aborted == old(aborted)
      ensures old(queue) == [] ==> queue == [] && calls == old(calls) && Snapshot(known) == old(Snapshot(known))
      ensures old(queue) != [] ==>
                && RoundOf(known, old(Snapshot(known)), paid, old(queue), gone, after, if dt > 3000 then 3000 else dt)
                && queue == Waiting(after)
                && calls == old(calls) + CallsFor(Emptied(Leaving(old(queue), gone)) + Finished(after))
    {
      paid, after := map[], [];
      if aborted {
        return;
      }
      if queue == [] {
        return;
      }
      paid, after := RunRound(if dt > 3000 then 3000 else dt, gone);
    }

    /** Calls the peers of the requests in `out` back; those in `queue` wait. */
    method DeliverAll(queue: seq<BwRequest>, out: seq<BwRequest>, queuedBytes: int,
                      ghost books: map<BandwidthChannel, Account>, ghost paid: map<BandwidthChannel, Account>,
                      ghost all: seq<BwRequest>, ghost gone: set<Peer>, ghost after: seq<BwRequest>, ghost dt: nat)
      requires RequestsOk(queue, known) && queuedBytes == Outstanding(queue) && !aborted
      requires BooksOk(known, queue, calls + CallsFor(out)) && CallsOk(asked, queue, calls + CallsFor(out), known)
      modifies this`queue, this`queuedBytes, this`calls, this`known, this`asked
      ensures Valid() && this.queue == queue && calls == old(calls) + CallsFor(out)
      ensures known == old(known) && asked == old(asked)
      ensures old(RoundOf(known, books, paid, all, gone, after, dt)) ==>
        RoundOf(known, books, paid, all, gone, after, dt)
    {
      hide BooksOk, CallsOk, RequestsOk;
      var calls' := Deliver(out, calls);
      Store(queue, queuedBytes, calls', known, asked);
    }

    method RunRound(milliseconds: nat, gone: set<Peer>)
      returns (ghost paid: map<BandwidthChannel, Account>, ghost after: seq<BwRequest>)
      requires Valid() && !aborted
      modifies this`queue, this`queuedBytes, this`calls, this`known, this`asked, known
      ensures Valid() && known == old(known) && asked == old(asked)
      ensures RoundOf(known, old(Snapshot(known)), paid, old(queue), gone, after, milliseconds)
      ensures queue == Waiting(after)
      ensures calls == old(calls) + CallsFor(Emptied(Leaving(old(queue), gone)) + Finished(after))
    {
      var queue', out, bytes;
      ghost var books := Snapshot(known);
      queue', out, bytes, paid, after := Round(queue, queuedBytes, milliseconds, gone, calls, known, asked, books);
      DeliverAll(queue', out, bytes, old(Snapshot(known)), paid, old(queue), gone, after, milliseconds);
    }
  }

  /** A channel is refilled once when one of these requests is in line for it, and is charged with what they get. */
  ghost predicate RefilledAndShared(all: seq<BwRequest>, after: seq<BwRequest>, c: BandwidthChannel, paid: Account,
                                    dt: nat)
    reads c`limit, c`quotaLeft, c`used, c`refunded, c`granted, c`added, c`allowed, c`free, c`distributeQuota, c`tmp
  {
    && paid.limit >= 0
    && Charged(if InLine(all, c) then Refreshed(paid, dt) else paid, c.Books(), Held(after, c) - Held(all, c))
    && (InLine(all, c) ==> c.tmp == Weight(all, c))
    && (InLine(all, c) && c.limit != 0 ==> c.distributeQuota == Refreshed(paid, dt).quotaLeft)
  }

  /** The books after the first phase. */
  ghost predicate PaidBack(known: set<BandwidthChannel>, books: map<BandwidthChannel, Account>,
                           paid: map<BandwidthChannel, Account>, left: seq<BwRequest>) {
    forall c :: c in known ==>
      c in books && c in paid && paid[c].limit >= 0 && paid[c].quotaLeft >= 0
        && Charged(books[c], paid[c], -Held(left, c))
  }

  lemma {:induction false} NotePaid(known: set<BandwidthChannel>, books: map<BandwidthChannel, Account>,
                                    paid: map<BandwidthChannel, Account>, left: seq<BwRequest>)
    requires ChargedBy(known, books, [], left) && paid == Snapshot(known) && forall c :: c in known ==> c.quotaLeft >= 0
    ensures PaidBack(known, books, paid, left)
  {}

  /** The books after the second phase. */
  ghost predicate ReadyFrom(known: set<BandwidthChannel>, paid: map<BandwidthChannel, Account>,
                            ready: map<BandwidthChannel, Account>, queue: seq<BwRequest>, dt: nat) {
    forall c :: c in known ==>
      && c in paid && c in ready && paid[c].limit >= 0
      && ready[c] == if InLine(queue, c) then Refreshed(paid[c], dt) else paid[c]
  }

  lemma {:induction false} NoteReady(known: set<BandwidthChannel>, paid: map<BandwidthChannel, Account>,
                                     ready: map<BandwidthChannel, Account>, queue: seq<BwRequest>, dt: nat)
    requires Refilled(queue, known, paid, dt) && ready == Snapshot(known)
    ensures ReadyFrom(known, paid, ready, queue, dt)
  {}

  /** What a round does to all channels. */
  ghost predicate RoundDone(known: set<BandwidthChannel>, books: map<BandwidthChannel, Account>,
                            paid: map<BandwidthChannel, Account>, left: seq<BwRequest>, all: seq<BwRequest>,
                            after: seq<BwRequest>, dt: nat)
    reads known`limit, known`quotaLeft, known`used, known`refunded, known`granted, known`added, known`allowed,
      known`free
    reads known`tmp, known`distributeQuota
  {
    PaidBack(known, books, paid, left) && forall c :: c in known ==> RefilledAndShared(all, after, c, paid[c], dt)
  }

  /** A round of the requests in `queue`: those that stay get their shares. */
  ghost predicate RoundOf(known: set<BandwidthChannel>, books: map<BandwidthChannel, Account>,
                          paid: map<BandwidthChannel, Account>, queue: seq<BwRequest>, gone: set<Peer>,
                          after: seq<BwRequest>, dt: nat)
    reads known`limit, known`quotaLeft, known`used, known`refunded, known`granted, known`added, known`allowed,
      known`free
    reads known`tmp, known`distributeQuota
  {
    && |after| == |Staying(queue, gone)| && SharesGiven(Staying(queue, gone), after, known)
    && RoundDone(known, books, paid, Leaving(queue, gone), Staying(queue, gone), after, dt)
  }

  lemma {:induction false} NoteRound(known: set<BandwidthChannel>, books: map<BandwidthChannel, Account>,
                                     paid: map<BandwidthChannel, Account>, ready: map<BandwidthChannel, Account>,
                                     left: seq<BwRequest>, all: seq<BwRequest>, after: seq<BwRequest>, dt: nat)
    requires PaidBack(known, books, paid, left) && ReadyFrom(known, paid, ready, all, dt)
    requires ChargedBy(known, ready, after, all) && ReadyToShare(all, known, ready)
    ensures RoundDone(known, books, paid, left, all, after, dt)
  {
    forall c | c in known
      ensures RefilledAndShared(all, after, c, paid[c], dt)
    {
      assert Charged(ready[c], c.Books(), Held(after, c) - Held(all, c));
    }
  }

  /** The first two phases of a round. */
  method DropAndRefill(all: seq<BwRequest>, queuedBytes: int, dt: nat, gone: set<Peer>,
                       ghost known: set<BandwidthChannel>, ghost calls: seq<Callback>,
                       ghost books: map<BandwidthChannel, Account>)
    returns (kept: seq<BwRequest>, out: seq<BwRequest>, bytes: int, ghost paid: map<BandwidthChannel, Account>,
             ghost ready: map<BandwidthChannel, Account>)
    requires RequestsOk(all, known) && BooksOk(known, all, calls)
    requires queuedBytes == Outstanding(all) && books == Snapshot(known)
    modifies known
    ensures kept == Staying(all, gone) && out == Emptied(Leaving(all, gone)) && bytes == Outstanding(kept)
    ensures RequestsOk(kept, known) && BooksOk(known, kept, calls) && Refilled(kept, known, paid, dt)
    ensures PaidBack(known, books, paid, Leaving(all, gone)) && ReadyFrom(known, paid, ready, kept, dt)
      && ready == Snapshot(known)
  {
    kept, out, bytes := Drop(all, queuedBytes, gone, known, calls, books);
    paid := Snapshot(known);
    NotePaid(known, books, paid, Leaving(all, gone));
    Refill(kept, dt, known, calls, paid);
    ready := Snapshot(known);
    NoteReady(known, paid, ready, kept, dt);
  }

  /** The three phases of a round. The peers of the requests in `out` are to be called back. */
  method Round(all: seq<BwRequest>, queuedBytes: int, dt: nat, gone: set<Peer>, ghost calls: seq<Callback>,
               ghost known: set<BandwidthChannel>, ghost asked: multiset<BwRequest>,
               ghost books: map<BandwidthChannel, Account>)
    returns (queue: seq<BwRequest>, out: seq<BwRequest>, bytes: int, ghost paid: map<BandwidthChannel, Account>,
             ghost after: seq<BwRequest>)
    requires RequestsOk(all, known) && BooksOk(known, all, calls) && CallsOk(asked, all, calls, known)
    requires queuedBytes == Outstanding(all) && books == Snapshot(known)
    modifies known
    ensures RoundOf(known, books, paid, all, gone, after, dt)
    ensures queue == Waiting(after) && out == Emptied(Leaving(all, gone)) + Finished(after)
    ensures RequestsOk(queue, known) && bytes == Outstanding(queue)
    ensures BooksOk(known, queue, calls + CallsFor(out)) && CallsOk(asked, queue, calls + CallsFor(out), known)
  {
    var kept, dropped, bytes1;
    ghost var ready;
    kept, dropped, bytes1, paid, ready := DropAndRefill(all, queuedBytes, dt, gone, known, calls, books);
    queue, out, bytes, after := Share(kept, bytes1, dropped, known, calls, paid, dt, ready);
    NoteRound(known, books, paid, ready, Leaving(all, gone), kept, after, dt);
    RoundEnds(all, gone, after, asked, calls, known);
    DeliverySettles(known, after, Leaving(all, gone), calls);
  }

  // ----- sequences without repetition

  /** No element is in `q` twice. */
  ghost predicate Distinct<T>(q: seq<T>) {
    q != [] ==> q[|q| - 1] !in q[..|q| - 1] && Distinct(q[..|q| - 1])
  }

  lemma {:induction false} DistinctAt<T>(q: seq<T>, i: nat, j: nat)
    requires Distinct(q) && i < j < |q|
    ensures q[i] != q[j]
  {
    if j < |q| - 1 {
      DistinctAt(q[..|q| - 1], i, j);
    } else {
      assert q[i] == q[..|q| - 1][i];
    }
  }

  lemma {:induction false} DistinctFrom<T>(q: seq<T>, n: nat)
    requires Distinct(q) && n < |q|
    ensures forall k :: 0 <= k < |q| && k != n ==> q[k] != q[n]
  {
    forall k | 0 <= k < |q| && k != n
      ensures q[k] != q[n]
    {
      if k < n {
        DistinctAt(q, k, n);
      } else {
        DistinctAt(q, n, k);
      }
    }
  }

  lemma {:induction false} DistinctAppend<T>(q: seq<T>, x: T)
    requires Distinct(q) && x !in q
    ensures Distinct(q + [x])
  {
    assert (q + [x])[..|q|] == q;
  }
}
