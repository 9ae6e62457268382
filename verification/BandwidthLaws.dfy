/**
 What runs of the bandwidth manager come to, in the terms of those that set the limits and those that wait: how much is
 metered out, how a round shares it, whom a request has to wait for, and how long.
 */
module BandwidthLaws {
  import Bytes
  import opened BandwidthLimit
  import opened BandwidthQueueEntry
  import opened BandwidthManager
  import opened BandwidthTrace

  // ----- what is metered out

  /**
   A round takes back what those that leave had, and refills a channel that others wait for, to the byte for up to three
   seconds.
   */
  lemma {:induction false} RefillsInRound(states: seq<State>, events: seq<Event>, answers: seq<Answer>,
                                          channels: set<BandwidthChannel>, c: BandwidthChannel, k: nat)
    requires RunOf(states, events, answers, channels) && c in channels && k < |events| && events[k].Tick?
    requires states[k].books[c].limit > 0
    ensures answers[k].Shared?
    ensures var a, e, queue := states[k].books[c], events[k], answers[k].queue;
      var returned, quota := Held(Leaving(queue, e.gone), c), Ready(a, queue, e, c).quotaLeft;
      if InLine(Staying(queue, e.gone), c) then
        RefillOk(a.limit, a.quotaLeft + returned, quota, if e.dt < 3000 then e.dt else 3000)
      else quota == a.quotaLeft + returned
  {
    hide RunOf, Ready, RefillOk, StepOk, SharesOk;
    var s, e, a := AnswerIs(states, events, answers, channels, k);
    assert SoundFor(s.books[c], s.log, c);
    SplitElements(a.queue, e.gone, channels);
    HeldNonNegative(Leaving(a.queue, e.gone), c);
    ReadyIsRefilled(s.books[c], a.queue, e, c);
  }

  lemma {:induction false} ReadyIsRefilled(a: Account, queue: seq<BwRequest>, e: Event, c: BandwidthChannel)
    requires e.Tick? && a.limit > 0 && a.quotaLeft + Held(Leaving(queue, e.gone), c) >= 0
    ensures var returned, quota := Held(Leaving(queue, e.gone), c), Ready(a, queue, e, c).quotaLeft;
      if InLine(Staying(queue, e.gone), c) then
        RefillOk(a.limit, a.quotaLeft + returned, quota, if e.dt < 3000 then e.dt else 3000)
      else quota == a.quotaLeft + returned
  {
    hide RefillOk, BandwidthLimit.Refilled, Held, Leaving, Staying;
    RefillIsRounded(a.limit, a.quotaLeft + Held(Leaving(queue, e.gone), c), Milliseconds(e.dt));
  }

  /**
   At every moment: what is held, was paid and was granted at once is within the quota that there was and what the
   limits have metered out since, rounded in every round; without a round at limit 0.
   */
  lemma {:induction false} MeteredOut(states: seq<State>, events: seq<Event>, answers: seq<Answer>,
                                      channels: set<BandwidthChannel>, c: BandwidthChannel, k: nat)
    requires RunOf(states, events, answers, channels) && c in channels && k <= |events|
    requires !FreeRound(events[..k], c, states[0].books[c].limit)
    ensures var first, now, log := states[0].books[c], states[k].books[c], states[k].log;
      1000 * (Held(log.queue, c) + Paid(log.calls, c) + (now.granted - first.granted) - first.quotaLeft)
        <= Metered(events[..k], c, first.limit) + 500 * Rounds(events[..k])
  {
    Always(states, events, answers, channels, c, k);
    RunPrefix(states, events, answers, channels, k);
    NothingFree(states[..k + 1], events[..k], answers[..k], channels, c);
    EntitledIsMetered(events[..k], c, states[0].books[c].limit);
  }

  // ----- how a round shares it

  /** What a request gets in a round: `got`, in proportion to its priority, of every limited channel. */
  ghost predicate Proportional(r: BwRequest, got: int, all: seq<BwRequest>, ready: Books, c: BandwidthChannel) {
    c in ready && (ready[c].limit != 0 && Weight(all, c) != 0 ==>
      got * Weight(all, c) <= ready[c].quotaLeft * r.priority)
  }

  /** A byte more would be too much. */
  ghost predicate Exhausts(r: BwRequest, got: int, all: seq<BwRequest>, ready: Books, c: BandwidthChannel) {
    c in ready && ready[c].limit != 0
    && ready[c].quotaLeft * r.priority < (got + 1) * Weight(all, c)
  }

  /** A request gets its share: in proportion, and all that it lacks or all of its share of some channel. */
  ghost predicate GetsShare(r: BwRequest, got: int, all: seq<BwRequest>, ready: Books) {
    && 0 <= got <= r.requestSize - r.assignedBytes
    && (forall c :: c in r.channel ==> Proportional(r, got, all, ready, c))
    && (got == r.requestSize - r.assignedBytes || exists c :: c in r.channel && Exhausts(r, got, all, ready, c))
  }

  lemma {:induction false} Floored(n: int, d: int, g: int)
    requires d > 0
    ensures g <= n / d <==> g * d <= n
    ensures g == n / d ==> n < (g + 1) * d
  {
    var q := n / d;
    assert q * d <= n < (q + 1) * d;
    if g <= q {
      assert g * d <= q * d;
    } else {
      assert (q + 1) * d <= g * d;
    }
  }

  /** No channel is overdrawn by a share, and a request has all that it lacks or one more byte would overdraw one. */
  lemma {:induction false} GrantIsProportional(channels: seq<BandwidthChannel>, r: BwRequest, room: int,
                                               all: seq<BwRequest>, ready: Books)
    requires forall c :: c in channels ==> c in ready && c in r.channel && Weight(all, c) >= 0
    ensures var got := GrantFrom(channels, r.priority, room, all, ready);
      && got <= room && (forall c :: c in channels ==> Proportional(r, got, all, ready, c))
      && (got == room || exists c :: c in r.channel && Exhausts(r, got, all, ready, c))
  {
    if channels != [] {
      var init, c := channels[..|channels| - 1], channels[|channels| - 1];
      var rest, got := GrantFrom(init, r.priority, room, all, ready), GrantFrom(channels, r.priority, room, all, ready);
      GrantIsProportional(init, r, room, all, ready);
      assert channels == init + [c];
      if ready[c].limit != 0 && Weight(all, c) != 0 {
        Floored(ready[c].quotaLeft * r.priority, Weight(all, c), got);
        assert got == rest || Exhausts(r, got, all, ready, c);
      }
      forall d | d in init
        ensures Proportional(r, got, all, ready, d)
      {
        assert Proportional(r, rest, all, ready, d);
        if ready[d].limit != 0 && Weight(all, d) != 0 {
          Floored(ready[d].quotaLeft * r.priority, Weight(all, d), rest);
          Floored(ready[d].quotaLeft * r.priority, Weight(all, d), got);
        }
      }
    }
  }

  /**
   In a round, what every request gets is in proportion to its priority; it fills the request, or is all of its share of
   a channel.
   */
  lemma {:induction false} SharesInRound(states: seq<State>, events: seq<Event>, answers: seq<Answer>,
                                         channels: set<BandwidthChannel>, k: nat, j: nat)
    requires RunOf(states, events, answers, channels) && k < |events| && events[k].Tick?
    requires j < |Staying(states[k].log.queue, events[k].gone)|
    ensures var queue, e := states[k].log.queue, events[k];
      var all, ready := Staying(queue, e.gone), ReadyBooks(states[k].books, queue, e);
      && answers[k].Shared? && |answers[k].after| == |all|
      && var r, r' := all[j], answers[k].after[j];
      && r' == r.(assignedBytes := r'.assignedBytes, ttl := r.ttl - 1)
      && GetsShare(r, r'.assignedBytes - r.assignedBytes, all, ready)
  {
    hide GrantFrom, Ready, Proportional, Exhausts, Weight, RunOf;
    var s, e, a := AnswerIs(states, events, answers, channels, k);
    var all, ready := Staying(s.log.queue, e.gone), ReadyBooks(s.books, s.log.queue, e);
    var r := all[j];
    SplitElements(s.log.queue, e.gone, channels);
    assert RequestOk(r, channels);
    InLineHasWeights(all, r.channel);
    GrantIsProportional(r.channel, r, r.requestSize - r.assignedBytes, all, ready);
    assert a.after[j] == ShareOf(r, all, ready);
  }

  lemma {:induction false} AnswerIs(states: seq<State>, events: seq<Event>, answers: seq<Answer>,
                                    channels: set<BandwidthChannel>, k: nat)
    returns (s: State, e: Event, a: Answer)
    requires RunOf(states, events, answers, channels) && k < |events|
    ensures s == states[k] && e == events[k] && k < |answers| && a == answers[k]
    ensures AnswerOk(s, e, a) && StateOk(s, channels)
    ensures StepOk(s, e, a, states[k + 1], channels)
  {
    hide AnswerOk, StateOk;
    s, e, a := states[k], events[k], answers[k];
    assert StepOk(s, e, a, states[k + 1], channels);
  }

  lemma {:induction false} InLineHasWeights(q: seq<BwRequest>, cs: seq<BandwidthChannel>)
    requires forall r :: r in q ==> r.priority > 0
    ensures forall c :: c in cs ==> Weight(q, c) >= 0
  {
    forall c | c in cs
      ensures Weight(q, c) >= 0
    {
      InLineHasWeight(q, c);
    }
  }

  /** Of `q`, requests for the one channel `c`, each got all of its share of `quota`. */
  ghost predicate SharedOut(q: seq<BwRequest>, after: seq<BwRequest>, c: BandwidthChannel, quota: int, weight: int) {
    |after| == |q| && forall j :: 0 <= j < |q| ==>
      && q[j].channel == after[j].channel == [c]
      && quota * q[j].priority < (after[j].assignedBytes - q[j].assignedBytes + 1) * weight
  }

  lemma {:induction false} SumOfShares(q: seq<BwRequest>, after: seq<BwRequest>, c: BandwidthChannel, quota: int,
                                       weight: int)
    requires SharedOut(q, after, c, quota, weight)
    ensures quota * Weight(q, c) <= (Held(after, c) - Held(q, c) + |q|) * weight
    ensures q != [] ==> quota * Weight(q, c) < (Held(after, c) - Held(q, c) + |q|) * weight
  {
    if q != [] {
      var n := |q| - 1;
      SumOfShares(q[..n], after[..n], c, quota, weight);
      OneChannel(q[n], c);
      OneChannel(after[n], c);
      SumOfOne(quota, weight, Weight(q[..n], c), q[n].priority, Held(after[..n], c) - Held(q[..n], c) + n,
        after[n].assignedBytes - q[n].assignedBytes + 1);
    }
  }

  lemma {:induction false} SumOfOne(quota: int, weight: int, w: int, p: int, held: int, got: int)
    requires quota * w <= held * weight && quota * p < got * weight
    ensures quota * (w + p) < (held + got) * weight
  {
    Bytes.TimesSum(w, p, quota);
    Bytes.TimesSum(held, got, weight);
  }

  lemma {:induction false} OneChannel(r: BwRequest, c: BandwidthChannel)
    requires r.channel == [c]
    ensures ChargeTo(r.channel, c, r.assignedBytes) == r.assignedBytes
    ensures ChargeTo(r.channel, c, r.priority) == r.priority
  {
    assert [c][..0] == [];
  }

  /** While nobody gets all that is asked for, less than a byte for each is left over of a channel. */
  lemma {:induction false} NothingLeftOver(states: seq<State>, events: seq<Event>, answers: seq<Answer>,
                                           channels: set<BandwidthChannel>, c: BandwidthChannel, k: nat)
    requires RunOf(states, events, answers, channels) && c in channels && k < |events| && events[k].Tick?
    requires c in states[k].books && states[k].books[c].limit > 0
    requires var all := Staying(states[k].log.queue, events[k].gone);
      all != [] && forall r :: r in all ==> r.channel == [c]
    requires answers[k].Shared? && forall r :: r in answers[k].after ==> r.assignedBytes < r.requestSize
    ensures var queue, e := states[k].log.queue, events[k];
      var all, after := Staying(queue, e.gone), answers[k].after;
      var quota, handed := Ready(states[k].books[c], queue, e, c).quotaLeft, Held(after, c) - Held(all, c);
      quota - |all| < handed <= quota
  {
    hide GrantFrom, RunOf, Proportional, Held, Weight, StepOk, SharesOk, Ready;
    var s, e, a := AnswerIs(states, events, answers, channels, k);
    var all, ready := Staying(s.log.queue, e.gone), ReadyBooks(s.books, s.log.queue, e);
    SharesInRound(states, events, answers, channels, k, 0);
    forall j | 0 <= j < |all|
      ensures all[j].channel == a.after[j].channel == [c]
      ensures ready[c].quotaLeft * all[j].priority
              < (a.after[j].assignedBytes - all[j].assignedBytes + 1) * Weight(all, c)
    {
      SharesInRound(states, events, answers, channels, k, j);
      assert all[j] in all && a.after[j] in a.after;
    }
    SumOfShares(all, a.after, c, ready[c].quotaLeft, Weight(all, c));
    SomeWeight(s.log.queue, e.gone, channels, c);
    MoreThan(ready[c].quotaLeft, Held(a.after, c) - Held(all, c) + |all|, Weight(all, c));
    RoundWithinQuota(states, events, answers, channels, c, k);
  }

  lemma {:induction false} SomeWeight(queue: seq<BwRequest>, gone: set<Peer>, channels: set<BandwidthChannel>,
                                      c: BandwidthChannel)
    requires RequestsOk(queue, channels) && Staying(queue, gone) != []
    requires forall r :: r in Staying(queue, gone) ==> r.channel == [c]
    ensures Weight(Staying(queue, gone), c) > 0
  {
    var all := Staying(queue, gone);
    SplitElements(queue, gone, channels);
    assert forall r :: r in all ==> RequestOk(r, channels);
    InLineHasWeight(all, c);
    assert all[|all| - 1] in all;
  }

  lemma {:induction false} MoreThan(a: int, b: int, w: int)
    requires w > 0 && a * w < b * w
    ensures a < b
  {}

  // ----- whom a request has to wait for

  lemma {:induction false} ScarceIs(chan: seq<BandwidthChannel>, books: Books, blk: int, c: BandwidthChannel)
    ensures c in ScarceIn(chan, books, blk) <==>
            c in chan && c in books && books[c].quotaLeft - blk < books[c].limit
  {
    if chan != [] {
      ScarceIs(chan[..|chan| - 1], books, blk, c);
      assert chan == chan[..|chan| - 1] + [chan[|chan| - 1]];
    }
  }

  /**
   A request waits for exactly those of its channels that it would leave less than a second's worth of quota; the others
   pay at once.
   */
  lemma {:induction false} GrantLeavesASecond(states: seq<State>, events: seq<Event>, answers: seq<Answer>,
                                              channels: set<BandwidthChannel>, c: BandwidthChannel, k: nat)
    requires RunOf(states, events, answers, channels) && k < |events| && events[k].Ask? && !states[k].closed
    requires Distinct(events[k].chan) && c in events[k].chan
    ensures answers[k] == Granted(events[k].blk) || (answers[k].Waits? && answers[k].channel != [])
    ensures c in states[k].books && c in states[k + 1].books
    ensures var before, after, blk := states[k].books[c], states[k + 1].books[c], events[k].blk;
      var waits := answers[k].Waits? && c in answers[k].channel;
      && (waits <==> before.quotaLeft < before.limit + blk)
      && after.quotaLeft == (if waits then before.quotaLeft else before.quotaLeft - blk)
      && (!waits ==> after.quotaLeft >= after.limit)
  {
    var s, e, a := AnswerIs(states, events, answers, channels, k);
    assert EventOk(e, channels);
    ScarceIs(e.chan, s.books, e.blk, c);
  }

  // ----- in which order, and for how long, requests wait

  /** The last one is called first. */
  lemma {:induction false} CallsInReverse(q: seq<BwRequest>)
    ensures |CallsFor(q)| == |q|
    ensures forall k :: 0 <= k < |q| ==> CallsFor(q)[k] == Callback(q[|q| - 1 - k], q[|q| - 1 - k].assignedBytes)
  {
    if q != [] {
      CallsInReverse(q[..|q| - 1]);
    }
  }

  lemma {:induction false} LeavingAre(q: seq<BwRequest>, gone: set<Peer>)
    ensures forall r :: r in Emptied(Leaving(q, gone)) ==> r.peer in gone && r.assignedBytes == 0
    ensures forall r :: r in Staying(q, gone) ==> r.peer !in gone
  {
    if q != [] {
      LeavingAre(q[..|q| - 1], gone);
      Bytes.InitOfAppend(Leaving(q[..|q| - 1], gone), q[|q| - 1]);
    }
  }

  lemma {:induction false} FinishedIff(q: seq<BwRequest>, r: BwRequest)
    ensures r in Finished(q) <==> r in q && Done(r)
  {
    if q != [] {
      FinishedIff(q[..|q| - 1], r);
      assert q == q[..|q| - 1] + [q[|q| - 1]];
    }
  }

  /**
   The calls that a round makes: nothing to those that leave, and to the others all that they hold, which is what they
   asked for, or something after twenty rounds.
   */
  lemma {:induction false} CallsOfRound(states: seq<State>, events: seq<Event>, answers: seq<Answer>,
                                        channels: set<BandwidthChannel>, k: nat) returns (made: seq<Callback>)
    requires RunOf(states, events, answers, channels) && k < |events| && events[k].Tick?
    ensures states[k + 1].log.calls == states[k].log.calls + made
    ensures forall i :: 0 <= i < |made| ==>
              var r := made[i].request;
              && made[i].amount == r.assignedBytes
              && (if r.peer in events[k].gone then r.assignedBytes == 0
                  else 0 < r.assignedBytes <= r.requestSize && (r.assignedBytes == r.requestSize || r.ttl <= 0))
  {
    hide RunOf, GetsShare, Ready, GrantFrom;
    var s, e, a := AnswerIs(states, events, answers, channels, k);
    var all, q := Staying(s.log.queue, e.gone), Emptied(Leaving(a.queue, e.gone)) + Finished(a.after);
    made := CallsFor(q);
    CallsInReverse(q);
    LeavingAre(s.log.queue, e.gone);
    SplitElements(s.log.queue, e.gone, channels);
    forall i | 0 <= i < |made|
      ensures made[i].amount == made[i].request.assignedBytes
      ensures var r := made[i].request;
        if r.peer in e.gone then r.assignedBytes == 0
        else 0 < r.assignedBytes <= r.requestSize && (r.assignedBytes == r.requestSize || r.ttl <= 0)
    {
      var r := q[|q| - 1 - i];
      assert made[i] == Callback(r, r.assignedBytes);
      if r !in Emptied(Leaving(a.queue, e.gone)) {
        FinishedIff(a.after, r);
        var j :| 0 <= j < |a.after| && a.after[j] == r;
        SharesInRound(states, events, answers, channels, k, j);
        assert all[j] in all && RequestOk(all[j], channels);
      }
    }
  }

  /** `r` was asked for in event `i`, and has waited through all rounds since. */
  ghost predicate WaitsSince(r: BwRequest, i: nat, events: seq<Event>, answers: seq<Answer>) {
    && i < |events| == |answers| && events[i].Ask? && answers[i].Waits?
    && Original(r) == NewRequest(events[i].peer, events[i].blk, events[i].priority, answers[i].channel)
    && r.ttl == 20 - Rounds(events[i + 1..])
  }

  /** The requests of a queue wait since those events, each one since a later one. */
  ghost predicate Ages(q: seq<BwRequest>, ages: seq<nat>, events: seq<Event>, answers: seq<Answer>) {
    && |ages| == |q| && (forall j :: 0 <= j < |q| ==> WaitsSince(q[j], ages[j], events, answers))
    && forall i, j :: 0 <= i < j < |ages| ==> ages[i] < ages[j]
  }

  lemma {:induction false} OneEventLater(r: BwRequest, i: nat, events: seq<Event>, answers: seq<Answer>, e: Event,
                                         a: Answer)
    requires WaitsSince(r, i, events, answers)
    ensures WaitsSince(if e.Tick? then r.(ttl := r.ttl - 1) else r, i, events + [e], answers + [a])
  {
    assert (events + [e])[i + 1..] == events[i + 1..] + [e];
    Bytes.InitOfAppend(events[i + 1..], e);
  }

  lemma {:induction false} Youngest(r: BwRequest, events: seq<Event>, answers: seq<Answer>, e: Event, a: Answer)
    requires |events| == |answers| && e.Ask? && a.Waits? && r == NewRequest(e.peer, e.blk, e.priority, a.channel)
    ensures WaitsSince(r, |events|, events + [e], answers + [a])
  {
    assert (events + [e])[|events| + 1..] == [];
  }

  lemma {:induction false} NoYounger(q: seq<BwRequest>, ages: seq<nat>, r: BwRequest, i: nat, events: seq<Event>,
                                     answers: seq<Answer>)
    requires Ages(q, ages, events, answers) && WaitsSince(r, i, events, answers) && forall a :: a in ages ==> a < i
    ensures Ages(q + [r], ages + [i], events, answers)
  {
    hide WaitsSince;
    assert forall j :: 0 <= j < |ages| ==> ages[j] in ages;
  }

  lemma {:induction false} StayingAges(q: seq<BwRequest>, ages: seq<nat>, gone: set<Peer>, events: seq<Event>,
                                       answers: seq<Answer>) returns (left: seq<nat>)
    requires Ages(q, ages, events, answers)
    ensures Ages(Staying(q, gone), left, events, answers) && forall a :: a in left ==> a in ages
  {
    hide WaitsSince;
    left := [];
    if q != [] {
      var n := |q| - 1;
      left := StayingAges(q[..n], ages[..n], gone, events, answers);
      if q[n].peer !in gone {
        NoYounger(Staying(q[..n], gone), left, q[n], ages[n], events, answers);
        left := left + [ages[n]];
      }
    }
  }

  lemma {:induction false} WaitingAges(q: seq<BwRequest>, ages: seq<nat>, events: seq<Event>, answers: seq<Answer>)
    returns (left: seq<nat>)
    requires Ages(q, ages, events, answers)
    ensures Ages(Waiting(q), left, events, answers) && forall a :: a in left ==> a in ages
  {
    hide WaitsSince, Done;
    left := [];
    if q != [] {
      var n := |q| - 1;
      left := WaitingAges(q[..n], ages[..n], events, answers);
      if !Done(q[n]) {
        NoYounger(Waiting(q[..n]), left, q[n], ages[n], events, answers);
        left := left + [ages[n]];
      }
    }
  }

  /** Nobody moves in the queue when something else happens. */
  lemma {:induction false} AllOneEventLater(q: seq<BwRequest>, after: seq<BwRequest>, ages: seq<nat>,
                                            events: seq<Event>, answers: seq<Answer>, e: Event, a: Answer)
    requires Ages(q, ages, events, answers) && |after| == |q|
    requires forall j :: 0 <= j < |q| ==> Original(after[j]) == Original(q[j])
    requires forall j :: 0 <= j < |q| ==> after[j].ttl == if e.Tick? then q[j].ttl - 1 else q[j].ttl
    ensures Ages(after, ages, events + [e], answers + [a])
  {
    forall j | 0 <= j < |q|
      ensures WaitsSince(after[j], ages[j], events + [e], answers + [a])
    {
      assert WaitsSince(q[j], ages[j], events, answers);
      OneEventLater(q[j], ages[j], events, answers, e, a);
    }
  }

  lemma {:induction false} AgesStep(s: State, e: Event, a: Answer, t: State, channels: set<BandwidthChannel>,
                                    ages: seq<nat>, events: seq<Event>, answers: seq<Answer>)
    returns (left: seq<nat>)
    requires StepOk(s, e, a, t, channels) && Ages(s.log.queue, ages, events, answers) && |events| == |answers|
    ensures Ages(t.log.queue, left, events + [e], answers + [a])
  {
    hide Ages, AllMoved, GrantFrom;
    var q := s.log.queue;
    match a
    case Waits(channel) =>
      var r := NewRequest(e.peer, e.blk, e.priority, channel);
      AllOneEventLater(q, q, ages, events, answers, e, a);
      Youngest(r, events, answers, e, a);
      AgesAreEarlier(q, ages, events, answers);
      NoYounger(q, ages, r, |events|, events + [e], answers + [a]);
      left := ages + [|events|];
    case Shared(_, after) =>
      var stay := StayingAges(q, ages, e.gone, events, answers);
      AllOneEventLater(Staying(q, e.gone), after, stay, events, answers, e, a);
      left := WaitingAges(after, stay, events + [e], answers + [a]);
    case Flushed(_) =>
      left := [];
      NobodyAges(events + [e], answers + [a]);
    case _ =>
      AllOneEventLater(q, q, ages, events, answers, e, a);
      left := ages;
  }

  lemma {:induction false} NobodyAges(events: seq<Event>, answers: seq<Answer>)
    ensures Ages([], [], events, answers)
  {}

  lemma {:induction false} AgesAreEarlier(q: seq<BwRequest>, ages: seq<nat>, events: seq<Event>, answers: seq<Answer>)
    requires Ages(q, ages, events, answers)
    ensures forall a :: a in ages ==> a < |events|
  {
    forall a | a in ages
      ensures a < |events|
    {
      var j :| 0 <= j < |ages| && ages[j] == a;
      assert WaitsSince(q[j], ages[j], events, answers);
    }
  }

  /**
   In every run requests wait in the order in which they were asked for; and one that waits for its twentieth round, or
   longer, holds nothing: with anything at all it would have been called back.
   */
  lemma {:induction false} TwentyRounds(states: seq<State>, events: seq<Event>, answers: seq<Answer>,
                                        channels: set<BandwidthChannel>) returns (ages: seq<nat>)
    requires RunOf(states, events, answers, channels)
    ensures var q := states[|events|].log.queue;
      && Ages(q, ages, events, answers)
      && forall j :: 0 <= j < |q| && Rounds(events[ages[j] + 1..]) >= 20 ==> q[j].assignedBytes == 0
    decreases |events|
  {
    hide RunOf, StepOk, WaitsSince;
    Sizes(states, events, answers, channels);
    if events == [] {
      ages := [];
      NothingAsked(states, events, answers, channels);
    } else {
      var front, init, seen, s, e, a, t := LastStep(states, events, answers, channels);
      ages := TwentyRounds(front, init, seen, channels);
      ages := AgesStep(s, e, a, t, channels, ages, init, seen);
      Impatient(t.log.queue, channels, ages, events, answers);
    }
  }

  lemma {:induction false} NothingAsked(states: seq<State>, events: seq<Event>, answers: seq<Answer>,
                                        channels: set<BandwidthChannel>)
    requires RunOf(states, events, answers, channels)
    ensures states[0].log.queue == []
  {}

  lemma {:induction false} Impatient(q: seq<BwRequest>, channels: set<BandwidthChannel>, ages: seq<nat>,
                                     events: seq<Event>, answers: seq<Answer>)
    requires RequestsOk(q, channels) && Ages(q, ages, events, answers)
    ensures forall j :: 0 <= j < |q| && Rounds(events[ages[j] + 1..]) >= 20 ==> q[j].assignedBytes == 0
  {
    forall j | 0 <= j < |q| && Rounds(events[ages[j] + 1..]) >= 20
      ensures q[j].assignedBytes == 0
    {
      assert WaitsSince(q[j], ages[j], events, answers) && RequestOk(q[j], channels);
    }
  }

  lemma {:induction false} WaitingIff(q: seq<BwRequest>, r: BwRequest)
    ensures r in Waiting(q) <==> r in q && !Done(r)
  {
    if q != [] {
      WaitingIff(q[..|q| - 1], r);
      assert q == q[..|q| - 1] + [q[|q| - 1]];
    }
  }

  /**
   A request stays in the queue after a round exactly if it is not filled, and holds nothing or has not waited for
   twenty rounds yet, this one counted.
   */
  lemma {:induction false} StaysIff(states: seq<State>, events: seq<Event>, answers: seq<Answer>,
                                    channels: set<BandwidthChannel>, k: nat, j: nat) returns (i: nat)
    requires RunOf(states, events, answers, channels) && k < |events| && events[k].Tick?
    requires j < |Staying(states[k].log.queue, events[k].gone)|
    ensures i < k && WaitsSince(Staying(states[k].log.queue, events[k].gone)[j], i, events[..k], answers[..k])
    ensures answers[k].Shared? && j < |answers[k].after|
    ensures var r := answers[k].after[j];
      r in states[k + 1].log.queue <==>
      r.assignedBytes < r.requestSize && (r.assignedBytes == 0 || Rounds(events[i + 1..k]) + 1 < 20)
  {
    hide RunOf, WaitsSince, GetsShare;
    var s, e, a := AnswerIs(states, events, answers, channels, k);
    RunPrefix(states, events, answers, channels, k);
    Sizes(states, events, answers, channels);
    var ages := TwentyRounds(states[..k + 1], events[..k], answers[..k], channels);
    var stay := StayingAges(s.log.queue, ages, e.gone, events[..k], answers[..k]);
    i := stay[j];
    SharesInRound(states, events, answers, channels, k, j);
    SplitElements(s.log.queue, e.gone, channels);
    WaitingIff(a.after, a.after[j]);
    Aged(Staying(s.log.queue, e.gone)[j], a.after[j], i, events, answers, k);
  }

  lemma {:induction false} Aged(r: BwRequest, r': BwRequest, i: nat, events: seq<Event>, answers: seq<Answer>, k: nat)
    requires k <= |events| == |answers| && WaitsSince(r, i, events[..k], answers[..k]) && r'.ttl == r.ttl - 1
    ensures i < k && r'.ttl == 20 - (Rounds(events[i + 1..k]) + 1)
  {
    assert events[..k][i + 1..] == events[i + 1..k];
  }
}
