/**
 What can happen to a bandwidth manager and its channels, as a sequence of states: what each event makes of the queue,
 of the calls to peers and of the accounts of the channels. What holds of every such sequence is proved here.
 */
module BandwidthTrace {
  import Bytes
  import opened BandwidthLimit
  import opened BandwidthQueueEntry
  import opened BandwidthManager

  datatype Event =
    | Ask(peer: Peer, blk: int, priority: int, chan: seq<BandwidthChannel>)
    | Tick(dt: nat, gone: set<Peer>)
    | Throttling(c: BandwidthChannel, limit: int)
    | Shut

  /**
   What an event comes to. A request is granted at once or waits for some of its channels, unless it comes after the
   end. A round starts with a queue and makes `after` of those that stay in it. At the end all that wait are called.
   */
  datatype Answer =
    | Granted(amount: int)
    | Waits(channel: seq<BandwidthChannel>)
    | Shared(queue: seq<BwRequest>, after: seq<BwRequest>)
    | Flushed(queue: seq<BwRequest>)
    | Nothing

  type Books = map<BandwidthChannel, Account>

  /** The requests that ever were in the queue, those that are, and the calls to peers that were made. */
  datatype Log = Log(asked: multiset<BwRequest>, queue: seq<BwRequest>, calls: seq<Callback>)

  datatype State = State(log: Log, books: Books, closed: bool)

  ghost predicate EventOk(e: Event, channels: set<BandwidthChannel>) {
    match e
    case Ask(_, blk, priority, chan) =>
      blk > 0 && priority > 0 && |chan| <= MAX_BANDWIDTH_CHANNELS && forall c :: c in chan ==> c in channels
    case Throttling(c, limit) => c in channels && 0 <= limit < INF
    case _ => true
  }

  function Milliseconds(dt: nat): nat {
    if dt > 3000 then 3000 else dt
  }

  // ----- one event

  /** The account of a channel when a round has taken back what those that leave had, and has refilled it. */
  ghost function Ready(a: Account, queue: seq<BwRequest>, e: Event, c: BandwidthChannel): Account
    requires e.Tick?
  {
    var paid := Charge(a, -Held(Leaving(queue, e.gone), c));
    if InLine(Staying(queue, e.gone), c) && paid.limit >= 0 then Refreshed(paid, Milliseconds(e.dt)) else paid
  }

  ghost function ReadyBooks(books: Books, queue: seq<BwRequest>, e: Event): Books
    requires e.Tick?
  {
    map c | c in books :: Ready(books[c], queue, e, c)
  }

  /** What a request gets in a round: the least of what it lacks and of its shares of the limited channels. */
  ghost function GrantFrom(channels: seq<BandwidthChannel>, priority: int, room: int, all: seq<BwRequest>, ready: Books)
    : int
  {
    if channels == [] then room else
    var rest, c := GrantFrom(channels[..|channels| - 1], priority, room, all, ready), channels[|channels| - 1];
    if c !in ready || ready[c].limit == 0 || Weight(all, c) == 0 then rest else
    var share := ready[c].quotaLeft * priority / Weight(all, c);
    if share < rest then share else rest
  }

  ghost function ShareOf(r: BwRequest, all: seq<BwRequest>, ready: Books): BwRequest {
    var quota := GrantFrom(r.channel, r.priority, r.requestSize - r.assignedBytes, all, ready);
    r.(assignedBytes := r.assignedBytes + quota, ttl := r.ttl - 1)
  }

  ghost function Shares(q: seq<BwRequest>, all: seq<BwRequest>, ready: Books): seq<BwRequest> {
    if q == [] then [] else Shares(q[..|q| - 1], all, ready) + [ShareOf(q[|q| - 1], all, ready)]
  }

  /** Every request gets its share, which is not negative and no more than it lacks. */
  ghost predicate SharesOk(all: seq<BwRequest>, after: seq<BwRequest>, ready: Books) {
    |after| == |all| && forall k :: 0 <= k < |all| ==>
      after[k] == ShareOf(all[k], all, ready) && all[k].assignedBytes <= after[k].assignedBytes <= all[k].requestSize
  }

  /** The channels of a request that it would have to wait for. */
  function ScarceIn(channels: seq<BandwidthChannel>, books: Books, blk: int): seq<BandwidthChannel> {
    if channels == [] then [] else
    var init, c := ScarceIn(channels[..|channels| - 1], books, blk), channels[|channels| - 1];
    if c in books && books[c].quotaLeft < books[c].limit + blk then init + [c] else init
  }

  function AnswerTo(scarce: seq<BandwidthChannel>, blk: int): Answer {
    if scarce == [] then Granted(blk) else Waits(scarce)
  }

  ghost predicate AskOk(s: State, e: Event, a: Answer)
    requires e.Ask?
  {
    if s.closed then a == Nothing
    else if Distinct(e.chan) then a == AnswerTo(ScarceIn(e.chan, s.books, e.blk), e.blk)
    else a == Granted(e.blk) || (a.Waits? && a.channel != [] && forall c :: c in a.channel ==> c in e.chan)
  }

  ghost predicate AnswerOk(s: State, e: Event, a: Answer) {
    match e
    case Ask(_, _, _, _) => AskOk(s, e, a)
    case Tick(_, gone) =>
      && a.Shared? && a.queue == s.log.queue
      && SharesOk(Staying(a.queue, gone), a.after, ReadyBooks(s.books, a.queue, e))
    case Throttling(_, _) => a == Nothing
    case Shut => a == Flushed(s.log.queue)
  }

  function Logged(log: Log, e: Event, a: Answer): Log {
    match a
    case Waits(channel) =>
      if !e.Ask? then log else
      var r := NewRequest(e.peer, e.blk, e.priority, channel);
      Log(log.asked + multiset{r}, log.queue + [r], log.calls)
    case Shared(queue, after) =>
      if !e.Tick? then log else
      Log(log.asked, Waiting(after), log.calls + CallsFor(Emptied(Leaving(queue, e.gone)) + Finished(after)))
    case Flushed(queue) => Log(log.asked, [], log.calls + CallsFor(queue))
    case _ => log
  }

  /** Whether a request makes a channel pay at once. */
  ghost predicate Pays(before: Account, e: Event, a: Answer, c: BandwidthChannel)
    requires e.Ask?
  {
    a != Nothing && c in e.chan && before.quotaLeft >= before.limit + e.blk
  }

  /** What an event does to the account of a channel. */
  ghost predicate Moved(before: Account, after: Account, e: Event, a: Answer, c: BandwidthChannel) {
    match e
    case Ask(_, blk, _, chan) =>
      if Distinct(chan) then after == if Pays(before, e, a, c) then GrantedAtOnce(before, blk) else before
      else
        && after == before.(quotaLeft := after.quotaLeft, granted := after.granted)
        && after.granted - before.granted == before.quotaLeft - after.quotaLeft >= 0
    case Tick(_, gone) =>
      a.Shared? && after == Charge(Ready(before, a.queue, e, c), Held(a.after, c) - Held(Staying(a.queue, gone), c))
    case Throttling(channel, limit) => after == if channel == c then before.(limit := limit) else before
    case Shut => after == before
  }

  ghost predicate AllMoved(channels: set<BandwidthChannel>, before: Books, after: Books, e: Event, a: Answer) {
    forall c :: c in channels ==> c in before && c in after && Moved(before[c], after[c], e, a, c)
  }

  ghost predicate StepOk(s: State, e: Event, a: Answer, t: State, channels: set<BandwidthChannel>) {
    && AnswerOk(s, e, a) && t.log == Logged(s.log, e, a) && t.closed == (s.closed || e.Shut?)
    && AllMoved(channels, s.books, t.books, e, a)
  }

  /** No quota is negative, and the books of a channel agree with the queue and the calls. */
  ghost predicate SoundFor(a: Account, log: Log, c: BandwidthChannel) {
    && a.quotaLeft == a.added - a.net - a.granted >= 0 && a.limit >= 0
    && Settled(a, Held(log.queue, c), Paid(log.calls, c))
  }

  ghost predicate StateOk(s: State, channels: set<BandwidthChannel>) {
    && RequestsOk(s.log.queue, channels) && (s.closed ==> s.log.queue == [])
    && s.log.asked == Originals(s.log.queue) + Served(s.log.calls)
    && forall c :: c in channels ==> c in s.books && SoundFor(s.books[c], s.log, c)
  }

  lemma {:induction false} SharesAre(q: seq<BwRequest>, after: seq<BwRequest>, all: seq<BwRequest>, ready: Books)
    requires |after| == |q| && forall k :: 0 <= k < |q| ==> after[k] == ShareOf(q[k], all, ready)
    ensures after == Shares(q, all, ready)
  {
    if q != [] {
      var n := |q| - 1;
      SharesAre(q[..n], after[..n], all, ready);
      assert after == after[..n] + [after[n]];
    }
  }

  /**
   A round leaves the quota of a channel without a limit alone. What requests get of it then is not taken, and what they
   give back is lost: the books agree without correction exactly if the shares that the requests have coming to them
   hold as much of the channel as the queue does before.
   */
  lemma {:induction false} FreeRoundChanges(s: State, e: Event, a: Answer, t: State, channels: set<BandwidthChannel>,
                                            c: BandwidthChannel)
    requires StepOk(s, e, a, t, channels) && e.Tick? && c in channels && c in s.books && s.books[c].limit == 0
    ensures t.books[c].quotaLeft == s.books[c].quotaLeft
    ensures var queue, all := s.log.queue, Staying(s.log.queue, e.gone);
      t.books[c].free == s.books[c].free <==> Held(Shares(all, all, ReadyBooks(s.books, queue, e)), c) == Held(queue, c)
  {
    var all := Staying(s.log.queue, e.gone);
    SharesAre(all, a.after, all, ReadyBooks(s.books, s.log.queue, e));
    FreeMoves(s.books[c], t.books[c], e, a, c);
  }

  // ----- many events

  ghost predicate Starts(s: State, channels: set<BandwidthChannel>) {
    && s.log == Log(multiset{}, [], []) && !s.closed
    && forall c :: c in channels ==> c in s.books && s.books[c].net == s.books[c].free == 0
  }

  /** The states that a run goes through. */
  ghost predicate RunOf(states: seq<State>, events: seq<Event>, answers: seq<Answer>, channels: set<BandwidthChannel>) {
    && |states| == |events| + 1 && |answers| == |events| && Starts(states[0], channels)
    && (forall k :: 0 <= k < |events| ==>
          EventOk(events[k], channels) && StepOk(states[k], events[k], answers[k], states[k + 1], channels))
    && forall k :: 0 <= k < |states| ==> StateOk(states[k], channels)
  }

  lemma {:induction false} RunPrefix(states: seq<State>, events: seq<Event>, answers: seq<Answer>,
                                     channels: set<BandwidthChannel>, k: nat)
    requires RunOf(states, events, answers, channels) && k <= |events|
    ensures RunOf(states[..k + 1], events[..k], answers[..k], channels)
  {}

  lemma {:induction false} RunOneMore(states: seq<State>, events: seq<Event>, answers: seq<Answer>,
                                      channels: set<BandwidthChannel>, e: Event, a: Answer, t: State)
    requires RunOf(states, events, answers, channels) && StateOk(t, channels)
    requires EventOk(e, channels) && StepOk(states[|events|], e, a, t, channels)
    ensures RunOf(states + [t], events + [e], answers + [a], channels)
  {
    hide StepOk, StateOk, EventOk, Starts;
    var n := |events|;
    forall k | 0 <= k < n + 1
      ensures StepOk((states + [t])[k], (events + [e])[k], (answers + [a])[k], (states + [t])[k + 1], channels)
    {
      if k < n {
        assert StepOk(states[k], events[k], answers[k], states[k + 1], channels);
      }
    }
  }

  /** The limit of a channel after the events. */
  function LimitAfter(events: seq<Event>, c: BandwidthChannel, limit: int): int {
    if events == [] then limit else
    var e := events[|events| - 1];
    if e.Throttling? && e.c == c then e.limit else LimitAfter(events[..|events| - 1], c, limit)
  }

  /** What the rounds of a run entitle a channel to, each with the limit of its time. */
  function Entitled(events: seq<Event>, c: BandwidthChannel, limit: int): int {
    if events == [] then 0 else
    var init, e := events[..|events| - 1], events[|events| - 1];
    var now := LimitAfter(init, c, limit);
    Entitled(init, c, limit) + if e.Tick? && now >= 0 then ToAdd(now, Milliseconds(e.dt)) else 0
  }

  /** The same in bytes per second times milliseconds: what the limits meter out over the rounds. */
  function Metered(events: seq<Event>, c: BandwidthChannel, limit: int): int {
    if events == [] then 0 else
    var init, e := events[..|events| - 1], events[|events| - 1];
    var now := LimitAfter(init, c, limit);
    Metered(init, c, limit) + if e.Tick? && now > 0 then now * (if e.dt < 3000 then e.dt else 3000) else 0
  }

  function Rounds(events: seq<Event>): nat {
    if events == [] then 0 else
    Rounds(events[..|events| - 1]) + if events[|events| - 1].Tick? then 1 else 0
  }

  /** Half a byte in every round is all that rounding makes of a difference, in favour of the channel or against it. */
  lemma {:induction false} EntitledIsMetered(events: seq<Event>, c: BandwidthChannel, limit: int)
    ensures Metered(events, c, limit) - 500 * Rounds(events) <= 1000 * Entitled(events, c, limit)
    ensures 1000 * Entitled(events, c, limit) <= Metered(events, c, limit) + 500 * Rounds(events)
  {
    if events != [] {
      var init, e := events[..|events| - 1], events[|events| - 1];
      var now := LimitAfter(init, c, limit);
      EntitledIsMetered(init, c, limit);
      if e.Tick? && now >= 0 {
        RefillIsRounded(now, 0, Milliseconds(e.dt));
      }
    }
  }

  predicate Closed(events: seq<Event>) {
    events != [] && (Closed(events[..|events| - 1]) || events[|events| - 1].Shut?)
  }

  /** Whether there is a round, before the end, while the channel is not limited. */
  predicate FreeRound(events: seq<Event>, c: BandwidthChannel, limit: int) {
    events != [] &&
    var init, e := events[..|events| - 1], events[|events| - 1];
    FreeRound(init, c, limit) || (e.Tick? && !Closed(init) && LimitAfter(init, c, limit) == 0)
  }

  /** What a round makes requests hold more of a channel than before, those that left counted with nothing. */
  function Handed(a: Answer, c: BandwidthChannel): int {
    if a.Shared? then Held(a.after, c) - Held(a.queue, c) else 0
  }

  /** The same for all rounds without a limit. */
  function FreelyHanded(events: seq<Event>, answers: seq<Answer>, c: BandwidthChannel, limit: int): int
    requires |answers| == |events|
  {
    if events == [] then 0 else
    var n := |events| - 1;
    FreelyHanded(events[..n], answers[..n], c, limit)
    + if LimitAfter(events[..n], c, limit) == 0 then Handed(answers[n], c) else 0
  }

  lemma {:induction false} LimitMoves(before: Account, after: Account, e: Event, a: Answer, c: BandwidthChannel)
    requires Moved(before, after, e, a, c)
    ensures after.limit == if e.Throttling? && e.c == c then e.limit else before.limit
  {}

  lemma {:induction false} QuotaMoves(before: Account, after: Account, e: Event, a: Answer, c: BandwidthChannel)
    requires Moved(before, after, e, a, c) && before.quotaLeft >= 0 && before.limit >= 0
    requires (e.Ask? ==> e.blk > 0) && (e.Tick? ==> Held(Leaving(a.queue, e.gone), c) >= 0)
    ensures after.granted >= before.granted && after.added - before.added <= after.allowed - before.allowed
    ensures after.allowed - before.allowed <= if e.Tick? then ToAdd(before.limit, Milliseconds(e.dt)) else 0
  {
    if e.Tick? {
      var paid := Charge(before, -Held(Leaving(a.queue, e.gone), c));
      RefilledBounds(paid.limit, paid.quotaLeft, Milliseconds(e.dt));
    }
  }

  lemma {:induction false} FreeMoves(before: Account, after: Account, e: Event, a: Answer, c: BandwidthChannel)
    requires Moved(before, after, e, a, c) && (a.Shared? ==> e.Tick?)
    ensures after.free - before.free == if before.limit == 0 then Handed(a, c) else 0
  {
    if e.Tick? {
      HeldSplits(a.queue, e.gone, c);
    }
  }

  /** The last step of a run, and the run in front of it. */
  lemma {:induction false} LastStep(states: seq<State>, events: seq<Event>, answers: seq<Answer>,
                                    channels: set<BandwidthChannel>)
    returns (front: seq<State>, init: seq<Event>, seen: seq<Answer>, s: State, e: Event, a: Answer, t: State)
    requires RunOf(states, events, answers, channels) && events != []
    ensures |init| == |events| - 1 && RunOf(front, init, seen, channels) && front[0] == states[0]
    ensures |front| == |events| && forall n :: 0 <= n < |front| ==> front[n] == states[n]
    ensures s == front[|init|] && t == states[|events|] && StateOk(s, channels) && StateOk(t, channels)
    ensures EventOk(e, channels) && StepOk(s, e, a, t, channels)
    ensures events == init + [e] && answers == seen + [a]
    ensures events[..|events| - 1] == init && answers[..|answers| - 1] == seen
    ensures events[|events| - 1] == e && answers[|answers| - 1] == a
  {
    hide StepOk, StateOk;
    var n := |events| - 1;
    front, init, seen := states[..n + 1], events[..n], answers[..n];
    s, e, a, t := states[n], events[n], answers[n], states[n + 1];
    RunPrefix(states, events, answers, channels, n);
    assert StepOk(states[n], events[n], answers[n], states[n + 1], channels);
  }

  lemma {:induction false} LimitFollows(states: seq<State>, events: seq<Event>, answers: seq<Answer>,
                                        channels: set<BandwidthChannel>, c: BandwidthChannel)
    requires RunOf(states, events, answers, channels) && c in channels
    ensures states[|events|].books[c].limit == LimitAfter(events, c, states[0].books[c].limit)
    decreases |events|
  {
    hide RunOf;
    Sizes(states, events, answers, channels);
    if events != [] {
      var front, init, seen, s, e, a, t := LastStep(states, events, answers, channels);
      LimitFollows(front, init, seen, channels, c);
      LimitMoves(s.books[c], t.books[c], e, a, c);
    }
  }

  lemma {:induction false} FreeFollows(states: seq<State>, events: seq<Event>, answers: seq<Answer>,
                                       channels: set<BandwidthChannel>, c: BandwidthChannel)
    requires RunOf(states, events, answers, channels) && c in channels
    ensures states[|events|].books[c].free - states[0].books[c].free
         == FreelyHanded(events, answers, c, states[0].books[c].limit)
    decreases |events|
  {
    hide RunOf;
    Sizes(states, events, answers, channels);
    if events != [] {
      var front, init, seen, s, e, a, t := LastStep(states, events, answers, channels);
      FreeFollows(front, init, seen, channels, c);
      LimitFollows(front, init, seen, channels, c);
      FreeMoves(s.books[c], t.books[c], e, a, c);
    }
  }

  /** What refills have added, and what they may have. */
  ghost predicate Entitles(first: Account, now: Account, entitled: int) {
    now.granted >= first.granted && now.added - first.added <= now.allowed - first.allowed <= entitled
  }

  lemma {:induction false} QuotaFollows(states: seq<State>, events: seq<Event>, answers: seq<Answer>,
                                        channels: set<BandwidthChannel>, c: BandwidthChannel)
    requires RunOf(states, events, answers, channels) && c in channels
    ensures Entitles(states[0].books[c], states[|events|].books[c], Entitled(events, c, states[0].books[c].limit))
    decreases |events|
  {
    hide RunOf;
    Sizes(states, events, answers, channels);
    if events != [] {
      var front, init, seen, s, e, a, t := LastStep(states, events, answers, channels);
      QuotaFollows(front, init, seen, channels, c);
      LimitFollows(front, init, seen, channels, c);
      if e.Tick? {
        SplitElements(a.queue, e.gone, channels);
        HeldNonNegative(Leaving(a.queue, e.gone), c);
      }
      QuotaMoves(s.books[c], t.books[c], e, a, c);
    }
  }

  lemma {:induction false} ClosedFollows(states: seq<State>, events: seq<Event>, answers: seq<Answer>,
                                         channels: set<BandwidthChannel>)
    requires RunOf(states, events, answers, channels)
    ensures states[|events|].closed <==> Closed(events)
    decreases |events|
  {
    if events != [] {
      hide RunOf;
      var front, init, seen, s, e, a, t := LastStep(states, events, answers, channels);
      ClosedFollows(front, init, seen, channels);
    }
  }

  /** After the end nobody waits, whatever is asked for. */
  lemma {:induction false} NobodyWaitsAfterEnd(states: seq<State>, events: seq<Event>, answers: seq<Answer>,
                                               channels: set<BandwidthChannel>)
    requires RunOf(states, events, answers, channels) && Closed(events)
    ensures states[|events|].log.queue == []
  {
    ClosedFollows(states, events, answers, channels);
  }

  // ----- what holds in every run

  /**
   Conservation: what a channel had and was refilled with is what it has, what requests hold, what peers were called
   back with and what was granted at once. What was handed out `freely`, while there was no limit, was not taken from
   the channel; it is negative when requests that left gave back more.
   */
  predicate Balanced(first: Account, now: Account, held: int, paid: int, freely: int) {
    now.quotaLeft + held + paid + (now.granted - first.granted)
      == first.quotaLeft + (now.added - first.added) + freely
  }

  /** Conservation without that correction. */
  predicate Conserved(first: Account, now: Account, held: int, paid: int) {
    now.quotaLeft + held + paid + (now.granted - first.granted) == first.quotaLeft + (now.added - first.added)
  }

  /** The rate limit: so much at most was handed out and is held. */
  predicate RateLimited(first: Account, now: Account, held: int, paid: int, entitled: int) {
    held + paid + (now.granted - first.granted) <= first.quotaLeft + entitled
  }

  ghost predicate AccountOk(first: Account, now: Account, log: Log, events: seq<Event>, answers: seq<Answer>,
                            c: BandwidthChannel)
    requires |answers| == |events|
  {
    var held, paid := Held(log.queue, c), Paid(log.calls, c);
    var freely := FreelyHanded(events, answers, c, first.limit);
    && now.quotaLeft >= 0 && now.limit == LimitAfter(events, c, first.limit)
    && Balanced(first, now, held, paid, freely)
    && RateLimited(first, now, held, paid, Entitled(events, c, first.limit) + freely)
    && (!FreeRound(events, c, first.limit) ==> Conserved(first, now, held, paid))
  }

  /** Without a round at limit 0 nothing is handed out freely. */
  lemma {:induction false} NothingFree(states: seq<State>, events: seq<Event>, answers: seq<Answer>,
                                       channels: set<BandwidthChannel>, c: BandwidthChannel)
    requires RunOf(states, events, answers, channels) && c in channels
    requires !FreeRound(events, c, states[0].books[c].limit)
    ensures FreelyHanded(events, answers, c, states[0].books[c].limit) == 0
    decreases |events|
  {
    hide RunOf;
    Sizes(states, events, answers, channels);
    if events != [] {
      var front, init, seen, s, e, a, t := LastStep(states, events, answers, channels);
      NothingFree(front, init, seen, channels, c);
      ClosedFollows(front, init, seen, channels);
      if s.closed && a.Shared? {
        assert a.after == [] && a.queue == [];
      }
    }
  }

  lemma {:induction false} AccountsFollow(states: seq<State>, events: seq<Event>, answers: seq<Answer>,
                                          channels: set<BandwidthChannel>, c: BandwidthChannel)
    requires RunOf(states, events, answers, channels) && c in channels
    ensures AccountOk(states[0].books[c], states[|events|].books[c], states[|events|].log, events, answers, c)
  {
    var first, now, log := states[0].books[c], states[|events|].books[c], states[|events|].log;
    assert SoundFor(now, log, c) && SoundFor(first, states[0].log, c);
    LimitFollows(states, events, answers, channels, c);
    FreeFollows(states, events, answers, channels, c);
    QuotaFollows(states, events, answers, channels, c);
    if !FreeRound(events, c, first.limit) {
      NothingFree(states, events, answers, channels, c);
    }
  }

  /**
   At every moment of a run: the books of every channel balance, no quota is negative, no more is held and was paid than
   there was and than the rounds so far entitle to, and quota is conserved unless there was a round at limit 0.
   */
  lemma {:induction false} Always(states: seq<State>, events: seq<Event>, answers: seq<Answer>,
                                  channels: set<BandwidthChannel>, c: BandwidthChannel, k: nat)
    requires RunOf(states, events, answers, channels) && c in channels && k <= |events|
    ensures AccountOk(states[0].books[c], states[k].books[c], states[k].log, events[..k], answers[..k], c)
  {
    RunPrefix(states, events, answers, channels, k);
    AccountsFollow(states[..k + 1], events[..k], answers[..k], channels, c);
  }

  /** What a round hands out of a limited channel is within its quota as it is after the refill. */
  lemma {:induction false} RoundWithinQuota(states: seq<State>, events: seq<Event>, answers: seq<Answer>,
                                            channels: set<BandwidthChannel>, c: BandwidthChannel, k: nat)
    requires RunOf(states, events, answers, channels) && c in channels && k < |events| && events[k].Tick?
    requires states[k].books[c].limit > 0
    ensures answers[k].Shared?
    ensures var queue, gone := answers[k].queue, events[k].gone;
      Held(answers[k].after, c) - Held(Staying(queue, gone), c)
        <= Ready(states[k].books[c], queue, events[k], c).quotaLeft
  {
    assert StepOk(states[k], events[k], answers[k], states[k + 1], channels);
    assert SoundFor(states[k + 1].books[c], states[k + 1].log, c);
  }

  // ----- which schedules of rounds and limits conserve quota whatever is asked for

  /** The events without the requests. */
  function Schedule(events: seq<Event>): seq<Event> {
    if events == [] then [] else
    var init, e := Schedule(events[..|events| - 1]), events[|events| - 1];
    if e.Ask? then init else init + [e]
  }

  lemma {:induction false} ScheduleConcat(a: seq<Event>, b: seq<Event>)
    ensures Schedule(a + b) == Schedule(a) + Schedule(b)
  {
    if b == [] {
      assert a + b == a;
    } else {
      Bytes.InitOfConcat(a, b);
      ScheduleConcat(a, b[..|b| - 1]);
    }
  }

  lemma {:induction false} ScheduleIs(events: seq<Event>)
    requires forall k :: 0 <= k < |events| ==> !events[k].Ask?
    ensures Schedule(events) == events
  {
    if events != [] {
      ScheduleIs(events[..|events| - 1]);
    }
  }

  /** Requests do not change limits, and a round at limit 0 is one whatever is asked for. */
  lemma {:induction false} OnlyScheduleCounts(events: seq<Event>, c: BandwidthChannel, limit: int)
    ensures LimitAfter(events, c, limit) == LimitAfter(Schedule(events), c, limit)
    ensures Closed(events) <==> Closed(Schedule(events))
    ensures FreeRound(events, c, limit) <==> FreeRound(Schedule(events), c, limit)
  {
    if events != [] {
      var init, e := events[..|events| - 1], events[|events| - 1];
      OnlyScheduleCounts(init, c, limit);
      if !e.Ask? {
        assert (Schedule(init) + [e])[..|Schedule(init)|] == Schedule(init);
      }
    }
  }

  /** A round at limit 0. */
  function FreeRoundAt(events: seq<Event>, c: BandwidthChannel, limit: int): (k: nat)
    requires FreeRound(events, c, limit)
    ensures k < |events| && events[k].Tick? && !Closed(events[..k]) && LimitAfter(events[..k], c, limit) == 0
  {
    var n := |events| - 1;
    if FreeRound(events[..n], c, limit) then
      var k := FreeRoundAt(events[..n], c, limit);
      assert events[..n][..k] == events[..k];
      k
    else n
  }

  lemma {:induction false} Sizes(states: seq<State>, events: seq<Event>, answers: seq<Answer>,
                                 channels: set<BandwidthChannel>)
    requires RunOf(states, events, answers, channels)
    ensures |states| == |events| + 1 && |answers| == |events|
  {}

  /** While nobody asks for anything and nobody waits, nothing happens to the channels but to their limits. */
  lemma {:induction false} Quiet(states: seq<State>, events: seq<Event>, answers: seq<Answer>,
                                 channels: set<BandwidthChannel>, c: BandwidthChannel, limit: int, n: nat)
    requires RunOf(states, events, answers, channels) && c in channels && n <= |events|
    requires states[n].log.queue == [] && forall k :: n <= k < |events| ==> !events[k].Ask?
    ensures states[|events|].log.queue == []
    ensures states[|events|].books[c].quotaLeft == states[n].books[c].quotaLeft
    ensures FreelyHanded(events, answers, c, limit) == FreelyHanded(events[..n], answers[..n], c, limit)
    decreases |events|
  {
    hide RunOf, StepOk, StateOk;
    Sizes(states, events, answers, channels);
    if n == |events| {
      assert events[..n] == events && answers[..n] == answers;
    } else {
      var front, init, seen, s, e, a, t := LastStep(states, events, answers, channels);
      assert init[..n] == events[..n] && seen[..n] == answers[..n];
      Quiet(front, init, seen, channels, c, limit, n);
      QuietStep(s, e, a, t, channels, c);
    }
  }

  lemma {:induction false} QuietStep(s: State, e: Event, a: Answer, t: State, channels: set<BandwidthChannel>,
                                     c: BandwidthChannel)
    requires StepOk(s, e, a, t, channels) && c in channels && !e.Ask? && s.log.queue == []
    ensures t.log.queue == [] && t.books[c].quotaLeft == s.books[c].quotaLeft && Handed(a, c) == 0
  {
    if e.Tick? {
      assert a.after == [];
    }
  }

  /** A request for more than there is, made to a channel without a limit, waits. */
  lemma {:induction false} AskedOfOne(s: State, e: Event, a: Answer, t: State, channels: set<BandwidthChannel>,
                                      c: BandwidthChannel)
    requires StepOk(s, e, a, t, channels) && StateOk(s, channels) && c in channels && !s.closed && s.log.queue == []
    requires e.Ask? && e.chan == [c] && s.books[c].limit == 0 && e.blk > s.books[c].quotaLeft
    ensures a == Waits([c]) && t.log.queue == [NewRequest(e.peer, e.blk, e.priority, [c])] && t.books[c].limit == 0
    ensures Handed(a, c) == 0
  {
    assert [c][..0] == [] && ScarceIn([c], s.books, e.blk) == [c];
    assert Distinct([c]);
  }

  /** In the next round it gets all that it asked for. */
  lemma {:induction false} SharedByOne(s: State, e: Event, a: Answer, t: State, channels: set<BandwidthChannel>,
                                       c: BandwidthChannel, r: BwRequest)
    requires StepOk(s, e, a, t, channels) && c in channels && e.Tick? && s.log.queue == [r] && r.channel == [c]
    requires r.peer !in e.gone && r.assignedBytes == 0 && r.requestSize > 0 && c in s.books && s.books[c].limit == 0
    ensures t.log.queue == [] && Handed(a, c) == r.requestSize
  {
    hide AllMoved, ReadyBooks, GrantFrom, ShareOf, Held;
    StayingOne(r, e.gone);
    var ready := ReadyBooks(s.books, [r], e);
    var got := a.after[0];
    assert a.after == [got] && got == ShareOf(r, [r], ready);
    StillFree(s.books, [r], e, c);
    ShareOfOne(c, r, ready);
    HeldByOne(r, c);
    HeldByOne(got, c);
    NobodyWaits(got);
  }

  lemma {:induction false} StayingOne(r: BwRequest, gone: set<Peer>)
    requires r.peer !in gone
    ensures Staying([r], gone) == [r]
  {
    assert [r][..0] == [];
  }

  lemma {:induction false} NobodyWaits(r: BwRequest)
    requires Done(r)
    ensures Waiting([r]) == []
  {
    assert [r][..0] == [];
  }

  lemma {:induction false} ShareOfOne(c: BandwidthChannel, r: BwRequest, ready: Books)
    requires r.channel == [c] && r.assignedBytes == 0 && c in ready && ready[c].limit == 0
    ensures ShareOf(r, [r], ready).channel == [c] && ShareOf(r, [r], ready).requestSize == r.requestSize
    ensures ShareOf(r, [r], ready).assignedBytes == r.requestSize
  {
    hide GrantFrom;
    GrantOfOne(c, r.priority, r.requestSize, [r], ready);
  }

  lemma {:induction false} StillFree(books: Books, queue: seq<BwRequest>, e: Event, c: BandwidthChannel)
    requires e.Tick? && c in books && books[c].limit == 0
    ensures c in ReadyBooks(books, queue, e) && ReadyBooks(books, queue, e)[c].limit == 0
  {}

  lemma {:induction false} GrantOfOne(c: BandwidthChannel, priority: int, room: int, all: seq<BwRequest>, ready: Books)
    requires c in ready ==> ready[c].limit == 0
    ensures GrantFrom([c], priority, room, all, ready) == room
  {
    assert [c][..0] == [];
  }

  lemma {:induction false} HeldByOne(r: BwRequest, c: BandwidthChannel)
    requires r.channel == [c]
    ensures Held([r], c) == r.assignedBytes
  {
    assert [r][..0] == [] && [c][..0] == [];
    assert ChargeTo([c], c, r.assignedBytes) == r.assignedBytes;
  }

  /** One request, made in front of a round at limit 0, breaks conservation. */
  lemma {:induction false} OneRequestLoses(states: seq<State>, events: seq<Event>, answers: seq<Answer>,
                                           channels: set<BandwidthChannel>, c: BandwidthChannel, k: nat)
    requires RunOf(states, events, answers, channels) && c in channels && k + 1 < |events|
    requires forall j :: 0 <= j < |events| && events[j].Ask? ==> j == k
    requires events[k].Ask? && events[k].chan == [c] && events[k].blk > states[0].books[c].quotaLeft
    requires events[k + 1].Tick? && events[k].peer !in events[k + 1].gone
    requires !Closed(events[..k]) && LimitAfter(events[..k], c, states[0].books[c].limit) == 0
    ensures var first, now, log := states[0].books[c], states[|events|].books[c], states[|events|].log;
      !Conserved(first, now, Held(log.queue, c), Paid(log.calls, c))
  {
    var limit := states[0].books[c].limit;
    var s, t, u := states[k], states[k + 1], states[k + 2];
    BeforeRequest(states, events, answers, channels, c, k);
    AskedOfOne(s, events[k], answers[k], t, channels, c);
    SharedByOne(t, events[k + 1], answers[k + 1], u, channels, c, t.log.queue[0]);
    Quiet(states, events, answers, channels, c, limit, k + 2);
    FreelyTwice(events, answers, c, limit, k);
    AccountsFollow(states, events, answers, channels, c);
  }

  lemma {:induction false} BeforeRequest(states: seq<State>, events: seq<Event>, answers: seq<Answer>,
                                         channels: set<BandwidthChannel>, c: BandwidthChannel, k: nat)
    requires RunOf(states, events, answers, channels) && c in channels && k + 1 < |events|
    requires forall j :: 0 <= j < k ==> !events[j].Ask?
    requires !Closed(events[..k]) && LimitAfter(events[..k], c, states[0].books[c].limit) == 0
    ensures StepOk(states[k], events[k], answers[k], states[k + 1], channels) && StateOk(states[k], channels)
    ensures StepOk(states[k + 1], events[k + 1], answers[k + 1], states[k + 2], channels)
    ensures !states[k].closed && states[k].log.queue == [] && states[k].books[c].limit == 0
    ensures states[k].books[c].quotaLeft == states[0].books[c].quotaLeft
    ensures FreelyHanded(events[..k], answers[..k], c, states[0].books[c].limit) == 0
  {
    var front, init, seen := states[..k + 1], events[..k], answers[..k];
    RunPrefix(states, events, answers, channels, k);
    Quiet(front, init, seen, channels, c, states[0].books[c].limit, 0);
    ClosedFollows(front, init, seen, channels);
    LimitFollows(front, init, seen, channels, c);
  }

  lemma {:induction false} FreelyTwice(events: seq<Event>, answers: seq<Answer>, c: BandwidthChannel, limit: int,
                                       k: nat)
    requires |answers| == |events| && k + 1 < |events| && events[k].Ask? && LimitAfter(events[..k], c, limit) == 0
    ensures FreelyHanded(events[..k + 2], answers[..k + 2], c, limit)
         == FreelyHanded(events[..k], answers[..k], c, limit) + Handed(answers[k], c) + Handed(answers[k + 1], c)
  {
    assert events[..k + 2][..k + 1] == events[..k + 1] && events[..k + 1][..k] == events[..k];
    assert answers[..k + 2][..k + 1] == answers[..k + 1] && answers[..k + 1][..k] == answers[..k];
  }
}
