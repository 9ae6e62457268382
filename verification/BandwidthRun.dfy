/**
 Whole runs of a bandwidth manager over channels that no other queue uses. Each of its methods takes the state of the
 manager and its channels to the next one that `BandwidthTrace` has.
 */
module BandwidthRun {
  import opened BandwidthLimit
  import opened BandwidthQueueEntry
  import opened BandwidthManager
  import opened BandwidthTrace

  /** The manager knows no other channels, and those that it does not know were never charged. */
  ghost predicate Serves(m: Manager, channels: set<BandwidthChannel>)
    reads m`known, channels`limit, channels`quotaLeft, channels`used, channels`refunded
    reads channels`granted, channels`added, channels`allowed, channels`free
  {
    && m.known <= channels
    && forall c :: c in channels ==> c.Valid() && c.quotaLeft >= 0 && (c in m.known || c.Untouched())
  }

  ghost function LogOf(m: Manager): Log
    reads m`asked, m`queue, m`calls
  {
    Log(m.asked, m.queue, m.calls)
  }

  ghost function StateOf(m: Manager, channels: set<BandwidthChannel>): State
    reads m`asked, m`queue, m`calls, m`aborted
    reads channels`limit, channels`quotaLeft, channels`used, channels`refunded
    reads channels`granted, channels`added, channels`allowed, channels`free
  {
    State(LogOf(m), Snapshot(channels), m.aborted)
  }

  lemma {:induction false} StateIsOk(m: Manager, channels: set<BandwidthChannel>)
    requires m.Valid() && Serves(m, channels)
    ensures StateOk(StateOf(m, channels), channels)
  {
    forall c | c in channels
      ensures SoundFor(c.Books(), LogOf(m), c)
    {
      if c !in m.known {
        UnknownHoldsNothing(m.queue, m.known, c);
        UnknownPaysNothing(m.calls, c);
      }
    }
  }

  lemma {:induction false} ServesAgain(m: Manager, channels: set<BandwidthChannel>)
    requires m.Valid() && m.known <= channels
    requires forall c :: c in channels && c !in m.known ==> c.Valid() && c.quotaLeft >= 0 && c.Untouched()
    ensures Serves(m, channels)
  {}

  // ----- a round

  /** The account of a channel that is known, when the shares are handed out. */
  lemma {:induction false} ReadyIs(books: Account, paid: Account, queue: seq<BwRequest>, after: seq<BwRequest>,
                                   e: Event, c: BandwidthChannel)
    requires e.Tick? && Charged(books, paid, -Held(Leaving(queue, e.gone), c))
    requires RefilledAndShared(Staying(queue, e.gone), after, c, paid, Milliseconds(e.dt))
    ensures var ready, all := Ready(books, queue, e, c), Staying(queue, e.gone);
      && c.Books() == Charge(ready, Held(after, c) - Held(all, c)) && ready.limit == c.limit
      && (InLine(all, c) ==> c.tmp == Weight(all, c) && (c.limit != 0 ==> c.distributeQuota == ready.quotaLeft))
  {
    var all := Staying(queue, e.gone);
    ChargedIs(books, paid, -Held(Leaving(queue, e.gone), c));
    ChargedIs(if InLine(all, c) then Refreshed(paid, Milliseconds(e.dt)) else paid, c.Books(),
      Held(after, c) - Held(all, c));
  }

  lemma {:induction false} TickMoves(known: set<BandwidthChannel>, books: Books, paid: Books, e: Event, a: Answer)
    requires e.Tick? && a.Shared?
    requires RoundOf(known, books, paid, a.queue, e.gone, a.after, Milliseconds(e.dt))
    ensures forall c :: c in known ==> c in books && Moved(books[c], c.Books(), e, a, c)
  {
    hide Ready, Refreshed;
    forall c | c in known
      ensures c in books && Moved(books[c], c.Books(), e, a, c)
    {
      ReadyIs(books[c], paid[c], a.queue, a.after, e, c);
    }
  }

  /** The shares that a request gets, as the channels have it and as their accounts do. */
  lemma {:induction false} GrantsAgree(channels: seq<BandwidthChannel>, priority: int, room: int, all: seq<BwRequest>,
                                       ready: Books)
    requires forall c :: c in channels ==>
               && c in ready && ready[c].limit == c.limit && c.tmp == Weight(all, c)
               && (c.limit != 0 ==> c.distributeQuota == ready[c].quotaLeft)
    ensures GrantOver(channels, priority, room) == GrantFrom(channels, priority, room, all, ready)
  {
    if channels != [] {
      var n := |channels| - 1;
      assert channels == channels[..n] + [channels[n]];
      GrantsAgree(channels[..n], priority, room, all, ready);
    }
  }

  lemma {:induction false} TickShares(known: set<BandwidthChannel>, books: Books, paid: Books, e: Event, a: Answer,
                                      all: Books)
    requires e.Tick? && a.Shared? && forall c :: c in known ==> c in all && c in books && all[c] == books[c]
    requires RoundOf(known, books, paid, a.queue, e.gone, a.after, Milliseconds(e.dt))
    ensures SharesOk(Staying(a.queue, e.gone), a.after, ReadyBooks(all, a.queue, e))
  {
    var q, ready := Staying(a.queue, e.gone), ReadyBooks(all, a.queue, e);
    forall k | 0 <= k < |q|
      ensures a.after[k] == ShareOf(q[k], q, ready)
    {
      assert RequestOk(q[k], known) && a.after[k] == Assigned(q[k]);
      forall c | c in q[k].channel
        ensures c in ready && ready[c].limit == c.limit && c.tmp == Weight(q, c)
        ensures c.limit != 0 ==> c.distributeQuota == ready[c].quotaLeft
      {
        InLineOf(q, k, c);
        ReadyIs(books[c], paid[c], a.queue, a.after, e, c);
      }
      GrantsAgree(q[k].channel, q[k].priority, q[k].requestSize - q[k].assignedBytes, q, ready);
    }
  }

  /** A round, and what it does to the channels that are known. */
  method TickKnown(m: Manager, e: Event, ghost all: Books) returns (ghost a: Answer)
    requires m.Valid() && e.Tick? && forall c :: c in m.known ==> c in all && all[c] == c.Books()
    modifies m, m.known
    ensures m.Valid() && m.known == old(m.known) && m.aborted == old(m.aborted)
    ensures a.Shared? && a.queue == old(m.queue) && RequestsOk(a.queue, m.known)
    ensures SharesOk(Staying(a.queue, e.gone), a.after, ReadyBooks(all, a.queue, e))
    ensures forall c :: c in m.known ==> Moved(all[c], c.Books(), e, a, c)
    ensures LogOf(m) == Logged(old(LogOf(m)), e, a)
  {
    ghost var known, queue, books, log := m.known, m.queue, Snapshot(m.known), LogOf(m);
    ghost var paid, after := m.UpdateQuotas(e.dt, e.gone);
    if queue == [] {
      a := Shared([], []);
      EmptyRound(log, LogOf(m), e);
      QuietBooks(known, books, e, a);
    } else {
      a := Shared(queue, after);
      TickMoves(known, books, paid, e, a);
      TickShares(known, books, paid, e, a, all);
    }
  }

  lemma {:induction false} EmptyRound(before: Log, after: Log, e: Event)
    requires after == before && e.Tick? && before.queue == []
    ensures after == Logged(before, e, Shared([], []))
  {
    assert Emptied(Leaving([], e.gone)) + Finished([]) == [];
  }

  lemma {:induction false} QuietBooks(known: set<BandwidthChannel>, books: Books, e: Event, a: Answer)
    requires e.Tick? && a == Shared([], []) && forall c :: c in known ==> c in books && c.Books() == books[c]
    ensures forall c :: c in known ==> Moved(books[c], c.Books(), e, a, c)
  {}

  method StepTick(m: Manager, e: Event, ghost channels: set<BandwidthChannel>) returns (ghost a: Answer)
    requires m.Valid() && Serves(m, channels) && e.Tick?
    modifies m, m.known
    ensures m.Valid() && Serves(m, channels)
    ensures StepOk(old(StateOf(m, channels)), e, a, StateOf(m, channels), channels)
  {
    ghost var before := Snapshot(channels);
    a := TickKnown(m, e, before);
    OthersStay(channels, m.known, before, e, a);
    ServesAgain(m, channels);
  }

  lemma {:induction false} NotInLine(q: seq<BwRequest>, known: set<BandwidthChannel>, c: BandwidthChannel)
    requires RequestsOk(q, known) && c !in known
    ensures !InLine(q, c)
  {
    if q != [] {
      NotInLine(q[..|q| - 1], known, c);
    }
  }

  /** A round hands nothing out of a channel that no request waits for. */
  lemma {:induction false} SameHoldNothing(q: seq<BwRequest>, after: seq<BwRequest>, known: set<BandwidthChannel>,
                                           c: BandwidthChannel)
    requires RequestsOk(q, known) && c !in known && |after| == |q|
    requires forall k :: 0 <= k < |q| ==> after[k].channel == q[k].channel
    ensures Held(after, c) == 0
  {
    if q != [] {
      var n := |q| - 1;
      SameHoldNothing(q[..n], after[..n], known, c);
      ChargeToOthers(after[n].channel, c, after[n].assignedBytes);
    }
  }

  lemma {:induction false} OthersStay(channels: set<BandwidthChannel>, known: set<BandwidthChannel>, before: Books,
                                      e: Event, a: Answer)
    requires e.Tick? && a.Shared? && RequestsOk(a.queue, known)
    requires SharesOk(Staying(a.queue, e.gone), a.after, ReadyBooks(before, a.queue, e))
    requires forall c :: c in channels ==> c in before
    requires forall c :: c in channels && c in known ==> Moved(before[c], c.Books(), e, a, c)
    requires forall c :: c in channels && c !in known ==> c.Books() == before[c]
    ensures AllMoved(channels, before, Snapshot(channels), e, a)
  {
    SplitElements(a.queue, e.gone, known);
    forall c | c in channels && c !in known
      ensures Moved(before[c], c.Books(), e, a, c)
    {
      UnknownHoldsNothing(Leaving(a.queue, e.gone), known, c);
      UnknownHoldsNothing(Staying(a.queue, e.gone), known, c);
      NotInLine(Staying(a.queue, e.gone), known, c);
      SameHoldNothing(Staying(a.queue, e.gone), a.after, known, c);
    }
  }

  // ----- a request

  lemma {:induction false} ScarceAgrees(chan: seq<BandwidthChannel>, books: Books, blk: int)
    requires forall c :: c in chan ==> c in books && books[c] == c.Books()
    ensures Scarce(chan, blk) == ScarceIn(chan, books, blk)
  {
    if chan != [] {
      var n := |chan| - 1;
      assert chan == chan[..n] + [chan[n]];
      ScarceAgrees(chan[..n], books, blk);
    }
  }

  /** What a request makes of the log and of its channels, when it is granted at once or waits for some of them. */
  method AskChannels(m: Manager, e: Event, ghost before: Books) returns (granted: int, ghost r: BwRequest)
    requires m.Valid() && e.Ask? && e.blk > 0 && e.priority > 0 && |e.chan| <= MAX_BANDWIDTH_CHANNELS
    requires forall c :: c in e.chan ==> c.Valid() && c.quotaLeft >= 0 && (c in m.known || c.Untouched())
    requires forall c :: c in e.chan ==> c in before && before[c] == c.Books()
    modifies m, e.chan`quotaLeft, e.chan`granted
    ensures m.Valid() && old(m.known) <= m.known <= old(m.known) + SetOf(e.chan)
    ensures m.aborted == old(m.aborted) && m.calls == old(m.calls)
    ensures (m.aborted || granted != 0) ==> m.asked == old(m.asked) && m.queue == old(m.queue)
    ensures !m.aborted && granted != 0 ==> granted == e.blk
    ensures !m.aborted && granted == 0 ==>
              && m.asked == old(m.asked) + multiset{r} && m.queue == old(m.queue) + [r]
              && r == NewRequest(e.peer, e.blk, e.priority, r.channel)
              && r.channel != [] && forall c :: c in r.channel ==> c in e.chan
    ensures !m.aborted && Distinct(e.chan) ==>
              var scarce := ScarceIn(e.chan, before, e.blk);
              (granted != 0 <==> scarce == []) && (granted == 0 ==> r.channel == scarce)
    ensures forall c :: c in e.chan ==>
              c.Valid() && c.quotaLeft >= 0 && Asked(before[c], c.Books(), e, m.aborted, c)
  {
    hide BooksOk, CallsOk, RequestsOk, ScarceIn, Scarce;
    ScarceAgrees(e.chan, before, e.blk);
    granted := m.RequestBandwidth(e.peer, e.blk, e.priority, e.chan);
    r := if m.queue == [] then NewRequest(e.peer, e.blk, e.priority, []) else m.queue[|m.queue| - 1];
    assert forall c :: c in e.chan ==> c in SetOf(e.chan);
  }

  method AskOnce(m: Manager, e: Event, ghost channels: set<BandwidthChannel>, ghost before: Books)
    returns (granted: int, ghost r: BwRequest)
    requires m.Valid() && Serves(m, channels) && e.Ask? && EventOk(e, channels) && before == Snapshot(channels)
    modifies m, channels`quotaLeft, channels`granted
    ensures m.Valid() && Serves(m, channels) && m.aborted == old(m.aborted) && m.calls == old(m.calls)
    ensures (m.aborted || granted != 0) ==> m.asked == old(m.asked) && m.queue == old(m.queue)
    ensures !m.aborted && granted != 0 ==> granted == e.blk
    ensures !m.aborted && granted == 0 ==>
              && m.asked == old(m.asked) + multiset{r} && m.queue == old(m.queue) + [r]
              && r == NewRequest(e.peer, e.blk, e.priority, r.channel)
              && r.channel != [] && forall c :: c in r.channel ==> c in e.chan
    ensures !m.aborted && Distinct(e.chan) ==>
              var scarce := ScarceIn(e.chan, before, e.blk);
              (granted != 0 <==> scarce == []) && (granted == 0 ==> r.channel == scarce)
    ensures AllAsked(channels, before, e, m.aborted)
  {
    hide BooksOk, CallsOk, RequestsOk, ScarceIn, Distinct;
    granted, r := AskChannels(m, e, before);
  }

  /** What a request may do to the account of a channel. */
  ghost predicate Asked(before: Account, after: Account, e: Event, closed: bool, c: BandwidthChannel)
    requires e.Ask?
  {
    && after == before.(quotaLeft := after.quotaLeft, granted := after.granted)
    && after.granted - before.granted == before.quotaLeft - after.quotaLeft >= 0
    && (closed ==> after == before)
    && (!closed && Distinct(e.chan) ==>
          after == if c in e.chan && before.quotaLeft >= before.limit + e.blk then GrantedAtOnce(before, e.blk)
                   else before)
  }

  ghost predicate AllAsked(channels: set<BandwidthChannel>, before: Books, e: Event, closed: bool)
    requires e.Ask?
    reads channels`limit, channels`quotaLeft, channels`used, channels`refunded
    reads channels`granted, channels`added, channels`allowed, channels`free
  {
    forall c :: c in channels ==> c in before && Asked(before[c], c.Books(), e, closed, c)
  }

  lemma {:induction false} AskMoves(channels: set<BandwidthChannel>, s: State, e: Event, a: Answer, granted: int,
                                    r: BwRequest, t: State)
    requires e.Ask? && e.blk > 0 && AllAsked(channels, s.books, e, s.closed)
    requires t.closed == s.closed && t.books == Snapshot(channels)
    requires a == if s.closed then Nothing else if granted != 0 then Granted(granted) else Waits(r.channel)
    requires t.log.calls == s.log.calls
    requires (s.closed || granted != 0) ==> t.log == s.log
    requires !s.closed && granted != 0 ==> granted == e.blk
    requires !s.closed && granted == 0 ==>
               && t.log.asked == s.log.asked + multiset{r} && t.log.queue == s.log.queue + [r]
               && r == NewRequest(e.peer, e.blk, e.priority, r.channel)
               && r.channel != [] && forall c :: c in r.channel ==> c in e.chan
    requires !s.closed && Distinct(e.chan) ==>
               var scarce := ScarceIn(e.chan, s.books, e.blk);
               (granted != 0 <==> scarce == []) && (granted == 0 ==> r.channel == scarce)
    ensures StepOk(s, e, a, t, channels)
  {
    forall c | c in channels
      ensures Moved(s.books[c], t.books[c], e, a, c)
    {
      assert Asked(s.books[c], c.Books(), e, s.closed, c);
    }
  }

  method StepAsk(m: Manager, e: Event, ghost channels: set<BandwidthChannel>) returns (ghost a: Answer)
    requires m.Valid() && Serves(m, channels) && e.Ask? && EventOk(e, channels)
    modifies m, channels`quotaLeft, channels`granted
    ensures m.Valid() && Serves(m, channels)
    ensures StepOk(old(StateOf(m, channels)), e, a, StateOf(m, channels), channels)
  {
    ghost var s := StateOf(m, channels);
    ghost var r;
    var granted;
    granted, r := AskOnce(m, e, channels, s.books);
    a := if m.aborted then Nothing else if granted != 0 then Granted(granted) else Waits(r.channel);
    AskMoves(channels, s, e, a, granted, r, StateOf(m, channels));
  }

  // ----- limits, and the end

  method StepThrottling(m: Manager, e: Event, ghost channels: set<BandwidthChannel>)
    requires m.Valid() && Serves(m, channels) && e.Throttling? && EventOk(e, channels)
    modifies e.c`limit
    ensures m.Valid() && Serves(m, channels)
    ensures StepOk(old(StateOf(m, channels)), e, Nothing, StateOf(m, channels), channels)
  {
    e.c.Throttle(e.limit);
  }

  method StepShut(m: Manager, e: Event, ghost channels: set<BandwidthChannel>) returns (ghost a: Answer)
    requires m.Valid() && Serves(m, channels) && e.Shut?
    modifies m`queue, m`queuedBytes, m`aborted, m`calls
    ensures m.Valid() && Serves(m, channels)
    ensures StepOk(old(StateOf(m, channels)), e, a, StateOf(m, channels), channels)
  {
    ghost var s := StateOf(m, channels);
    a := Flushed(m.queue);
    m.Close();
    CloseMoves(s, e, StateOf(m, channels), channels);
  }

  lemma {:induction false} CloseMoves(s: State, e: Event, t: State, channels: set<BandwidthChannel>)
    requires e.Shut? && t.closed && t.books == s.books && forall c :: c in channels ==> c in s.books
    requires t.log == Log(s.log.asked, [], s.log.calls + CallsFor(s.log.queue))
    ensures StepOk(s, e, Flushed(s.log.queue), t, channels)
  {}

  method Step(m: Manager, e: Event, ghost channels: set<BandwidthChannel>) returns (ghost a: Answer)
    requires m.Valid() && Serves(m, channels) && EventOk(e, channels)
    modifies m, channels
    ensures m.Valid() && Serves(m, channels)
    ensures StepOk(old(StateOf(m, channels)), e, a, StateOf(m, channels), channels)
  {
    match e
    case Ask(_, _, _, _) =>
      a := StepAsk(m, e, channels);
    case Tick(_, _) =>
      a := StepTick(m, e, channels);
    case Throttling(_, _) =>
      a := Nothing;
      StepThrottling(m, e, channels);
    case Shut =>
      a := StepShut(m, e, channels);
  }

  // ----- many events

  lemma {:induction false} RunStarts(m: Manager, channels: set<BandwidthChannel>)
    requires m.Valid() && m.known == {} && m.queue == [] && m.calls == [] && m.asked == multiset{} && !m.aborted
    requires forall c :: c in channels ==> c.Valid() && c.quotaLeft >= 0 && c.Untouched()
    ensures Serves(m, channels) && RunOf([StateOf(m, channels)], [], [], channels)
  {
    StateIsOk(m, channels);
  }

  method RunStep(m: Manager, e: Event, ghost channels: set<BandwidthChannel>, ghost states: seq<State>,
                 ghost events: seq<Event>, ghost answers: seq<Answer>)
    returns (ghost states': seq<State>, ghost answers': seq<Answer>)
    requires m.Valid() && Serves(m, channels) && EventOk(e, channels)
    requires RunOf(states, events, answers, channels) && states[|events|] == StateOf(m, channels)
    modifies m, channels
    ensures m.Valid() && Serves(m, channels)
    ensures RunOf(states', events + [e], answers', channels) && |states'| == |events| + 2
    ensures states'[|events| + 1] == StateOf(m, channels) && states'[0] == states[0] && |answers'| == |events| + 1
  {
    ghost var a := Step(m, e, channels);
    ghost var t := StateOf(m, channels);
    StateIsOk(m, channels);
    RunOneMore(states, events, answers, channels, e, a, t);
    states', answers' := states + [t], answers + [a];
  }

  /**
   One manager lives through the events. The states that it and its channels go through are those of a run, for which
   `BandwidthTrace.Always` says that the books balance at every moment, that the rate limits hold, and that quota is
   conserved unless there was a round at limit 0. Every request that was queued waits or was called back exactly once.
   */
  method Run(events: seq<Event>, ghost channels: set<BandwidthChannel>)
    returns (m: Manager, ghost states: seq<State>, ghost answers: seq<Answer>)
    requires forall k :: 0 <= k < |events| ==> EventOk(events[k], channels)
    requires forall c :: c in channels ==> c.Valid() && c.quotaLeft >= 0 && c.Untouched()
    modifies channels
    ensures fresh(m) && m.Valid() && m.queuedBytes == Outstanding(m.queue)
    ensures RunOf(states, events, answers, channels)
    ensures states[0].books == old(Snapshot(channels)) && states[|events|] == StateOf(m, channels)
    ensures forall c :: c in channels ==>
              AccountOk(states[0].books[c], c.Books(), LogOf(m), events, answers, c)
    ensures m.asked == Originals(m.queue) + Served(m.calls)
    ensures forall k :: 0 <= k < |m.calls| ==> 0 <= m.calls[k].amount <= m.calls[k].request.requestSize
  {
    hide RunOf, StepOk, StateOk, AccountOk, BooksOk, RequestsOk, CallsOk, Serves;
    m := new Manager();
    ghost var first := StateOf(m, channels);
    RunStarts(m, channels);
    states, answers := [first], [];
    for n := 0 to |events|
      invariant fresh(m) && m.Valid() && Serves(m, channels) && |states| == n + 1 && |answers| == n
      invariant RunOf(states, events[..n], answers, channels) && states[n] == StateOf(m, channels)
      invariant states[0] == first
    {
      states, answers := RunStep(m, events[n], channels, states, events[..n], answers);
      assert events[..n + 1] == events[..n] + [events[n]];
    }
    assert events[..|events|] == events;
    RunEnds(m, states, events, answers, channels);
  }

  lemma {:induction false} RunEnds(m: Manager, states: seq<State>, events: seq<Event>, answers: seq<Answer>,
                                   channels: set<BandwidthChannel>)
    requires RunOf(states, events, answers, channels) && states[|events|] == StateOf(m, channels) && m.Valid()
    ensures forall c :: c in channels ==>
              c in states[0].books && AccountOk(states[0].books[c], c.Books(), LogOf(m), events, answers, c)
    ensures m.queuedBytes == Outstanding(m.queue) && m.asked == Originals(m.queue) + Served(m.calls)
    ensures forall k :: 0 <= k < |m.calls| ==> 0 <= m.calls[k].amount <= m.calls[k].request.requestSize
  {
    forall c | c in channels
      ensures c in states[0].books && AccountOk(states[0].books[c], c.Books(), LogOf(m), events, answers, c)
    {
      AccountsFollow(states, events, answers, channels, c);
    }
  }

  /**
   Whatever rounds and limits there are, as soon as one round finds no limit some requests break conservation: one is
   enough, of a peer that is still there in that round.
   */
  method SomeRunLoses(schedule: seq<Event>, c: BandwidthChannel, peer: Peer, ghost channels: set<BandwidthChannel>)
    returns (m: Manager, events: seq<Event>, ghost states: seq<State>, ghost answers: seq<Answer>)
    requires forall k :: 0 <= k < |schedule| ==> EventOk(schedule[k], channels) && !schedule[k].Ask?
    requires forall c :: c in channels ==> c.Valid() && c.quotaLeft >= 0 && c.Untouched()
    requires c in channels && FreeRound(schedule, c, c.limit)
    requires forall k :: 0 <= k < |schedule| && schedule[k].Tick? ==> peer !in schedule[k].gone
    modifies channels
    ensures Schedule(events) == schedule
    ensures RunOf(states, events, answers, channels) && states[|events|] == StateOf(m, channels)
    ensures states[0].books == old(Snapshot(channels))
    ensures !Conserved(old(c.Books()), c.Books(), Held(m.queue, c), Paid(m.calls, c))
  {
    hide RunOf, StepOk, StateOk, AccountOk;
    var k := FreeRoundAt(schedule, c, c.limit);
    var ask := Ask(peer, c.quotaLeft + 1, 1, [c]);
    events := schedule[..k] + [ask] + schedule[k..];
    OneAskInserted(schedule, k, ask, events);
    m, states, answers := Run(events, channels);
    OneRequestLoses(states, events, answers, channels, c, k);
  }

  lemma {:induction false} OneAskInserted(schedule: seq<Event>, k: nat, ask: Event, events: seq<Event>)
    requires k < |schedule| && ask.Ask? && forall j :: 0 <= j < |schedule| ==> !schedule[j].Ask?
    requires events == schedule[..k] + [ask] + schedule[k..]
    ensures Schedule(events) == schedule && |events| == |schedule| + 1
    ensures events[k] == ask && events[k + 1] == schedule[k] && events[..k] == schedule[..k]
    ensures forall j :: 0 <= j < |events| ==> if j == k then events[j] == ask else events[j] in schedule
    ensures forall j :: 0 <= j < |events| && events[j].Ask? ==> j == k
  {
    ScheduleConcat(schedule[..k] + [ask], schedule[k..]);
    ScheduleConcat(schedule[..k], [ask]);
    ScheduleIs(schedule[..k]);
    ScheduleIs(schedule[k..]);
    assert [ask][..0] == [];
    assert schedule[..k] + [] + schedule[k..] == schedule;
  }

  // ----- where quota is lost

  /** What a round does to a channel without a limit. */
  lemma {:induction false} RoundAtZero(known: set<BandwidthChannel>, books: map<BandwidthChannel, Account>,
                                       paid: map<BandwidthChannel, Account>, left: seq<BwRequest>,
                                       all: seq<BwRequest>, after: seq<BwRequest>, dt: nat, c: BandwidthChannel)
    requires RoundDone(known, books, paid, left, all, after, dt) && c in known && books[c].limit == 0
    ensures c.quotaLeft == books[c].quotaLeft
    ensures c.free == books[c].free + (Held(after, c) - Held(all, c)) - Held(left, c)
  {
    assert RefilledAndShared(all, after, c, paid[c], dt) && Charged(books[c], paid[c], -Held(left, c));
  }

  lemma {:induction false} OneInLine(r: BwRequest, c: BandwidthChannel)
    requires r.channel == [c]
    ensures Held([r], c) == r.assignedBytes && Weight([r], c) == r.priority && InLine([r], c)
    ensures Staying([r], {}) == [r] && Leaving([r], {}) == [] && Staying([r], {r.peer}) == []
      && Leaving([r], {r.peer}) == [r]
  {
    assert [r][..0] == [] && [c][..0] == [];
    assert ChargeTo([c], c, r.assignedBytes) == r.assignedBytes && ChargeTo([c], c, r.priority) == r.priority;
  }

  lemma {:induction false} OneWaits(r: BwRequest)
    ensures Waiting([r]) == (if Done(r) then [] else [r]) && Finished([r]) == (if Done(r) then [r] else [])
    ensures Emptied([r]) == [r.(assignedBytes := 0)] && CallsFor([r]) == [Callback(r, r.assignedBytes)]
  {
    assert [r][..0] == [];
  }

  lemma {:induction false} GrantFromOne(c: BandwidthChannel, priority: int, room: int)
    requires c.limit != 0 && c.tmp != 0
    ensures GrantOver([c], priority, room) ==
      if c.distributeQuota * priority / c.tmp < room then c.distributeQuota * priority / c.tmp else room
  {
    assert [c][..0] == [];
  }

  /** What has become of the books of a channel since `first`, when nothing was granted at once. */
  ghost predicate Reads(first: Account, now: Account, limit: int, quotaLeft: int, taken: int, refilled: int,
                        free: int) {
    && now.limit == limit && now.quotaLeft == quotaLeft && now.net == first.net + taken && now.granted == first.granted
    && now.added == first.added + refilled && now.free == first.free + free
  }

  lemma {:induction false} AllScarce(c: BandwidthChannel)
    requires c.quotaLeft == 0 && c.limit == 1000
    ensures Distinct([c]) && Scarce([c], 2000) == [c] && c in SetOf([c]) && forall k :: k in SetOf([c]) ==> k == c
  {
    assert [c][..0] == [];
  }

  lemma {:induction false} OnlyOne<T>(q: seq<T>, x: T)
    requires |q| == 1 && q[0] == x
    ensures q == [x]
  {}

  /** A request for 2000 bytes of `c` that has got some of them. */
  predicate ForWhole(r: BwRequest, c: BandwidthChannel, got: int) {
    && r.channel == [c] && r.priority == 1 && r.requestSize == 2000 && r.assignedBytes == got
    && r.ttl > (if got == 0 then 1 else 0)
  }

  /** The only request in the queue is `r`. */
  ghost predicate OneRequest(m: Manager, c: BandwidthChannel, r: BwRequest, got: int)
    reads m`queue, m`known, m`calls, m`aborted
  {
    && m.queue == [r] && c in m.known && (forall k :: k in m.known ==> k == c) && m.calls == [] && !m.aborted
    && ForWhole(r, c, got)
  }

  /** A request for 2000 bytes waits for a channel of 1000 bytes a second. */
  method AskForWhole(peer: Peer, c: BandwidthChannel) returns (m: Manager, ghost r: BwRequest)
    requires c.Valid() && c.Untouched() && c.quotaLeft == 0 && c.limit == 1000
    modifies c`quotaLeft, c`granted
    ensures fresh(m) && m.Valid() && OneRequest(m, c, r, 0)
    ensures c.Books() == old(c.Books())
  {
    m := new Manager();
    AllScarce(c);
    ghost var books := Snapshot(SetOf([c]));
    assert c in books && books[c] == c.Books();
    var granted := m.RequestBandwidth(peer, 2000, 1, [c]);
    r := m.queue[|m.queue| - 1];
    OnlyOne(m.queue, r);
    assert RequestOk(m.queue[0], m.known);
    assert c in SetOf([c]);
  }

  lemma {:induction false} HalfCharged(before: Account, mid: Account, after: Account)
    requires before.limit == 1000 && before.quotaLeft == 0 && Charged(before, mid, 0)
    ensures mid == before && Refreshed(mid, 1000).quotaLeft == 1000
    ensures Charged(Refreshed(mid, 1000), after, 1000) ==> Reads(before, after, 1000, 0, 1000, 1000, 0)
  {}

  /** What a second's round gives to that request. */
  lemma {:induction false} HalfAssigned(r: BwRequest, c: BandwidthChannel, before: Account, mid: Account,
                                        half: BwRequest)
    requires r.channel == [c] && r.priority == 1 && r.requestSize == 2000 && r.assignedBytes == 0
    requires before.limit == 1000 && before.quotaLeft == 0 && Charged(before, mid, 0)
    requires RefilledAndShared([r], [half], c, mid, 1000) && half == Assigned(r)
    ensures half == r.(assignedBytes := 1000, ttl := r.ttl - 1)
    ensures Reads(before, c.Books(), 1000, 0, 1000, 1000, 0)
  {
    OneInLine(r, c);
    HalfCharged(before, mid, c.Books());
    GrantFromOne(c, 1, 2000);
    OneInLine(half, c);
  }

  lemma {:induction false} NothingCalled(half: BwRequest)
    requires !Done(half)
    ensures Waiting([half]) == [half] && CallsFor(Emptied([]) + Finished([half])) == []
  {
    OneWaits(half);
    assert Emptied([]) + Finished([half]) == [];
  }

  /** After a second it has half of what it asked for. */
  method RoundForOne(m: Manager, c: BandwidthChannel, ghost r: BwRequest) returns (ghost half: BwRequest)
    requires m.Valid() && OneRequest(m, c, r, 0) && c.limit == 1000 && c.quotaLeft == 0
    modifies m, m.known
    ensures m.Valid() && OneRequest(m, c, half, 1000)
    ensures Reads(old(c.Books()), c.Books(), 1000, 0, 1000, 1000, 0)
  {
    ghost var books := Snapshot(m.known);
    ghost var paid, after := m.UpdateQuotas(1000, {});
    half := HalfRound(r, c, m.known, books, paid, after);
  }

  lemma {:induction false} HalfRound(r: BwRequest, c: BandwidthChannel, known: set<BandwidthChannel>,
                                     books: map<BandwidthChannel, Account>, paid: map<BandwidthChannel, Account>,
                                     after: seq<BwRequest>)
    returns (half: BwRequest)
    requires ForWhole(r, c, 0) && c in known && RoundOf(known, books, paid, [r], {}, after, 1000)
    requires c in books && books[c].limit == 1000 && books[c].quotaLeft == 0
    ensures ForWhole(half, c, 1000) && Reads(books[c], c.Books(), 1000, 0, 1000, 1000, 0)
    ensures Waiting(after) == [half] && CallsFor(Emptied(Leaving([r], {})) + Finished(after)) == []
  {
    OneInLine(r, c);
    half := after[0];
    OnlyOne(after, half);
    HalfAssigned(r, c, books[c], paid[c], half);
    NothingCalled(half);
  }

  method LastLeaves(m: Manager, c: BandwidthChannel, ghost r: BwRequest)
    requires m.Valid() && OneRequest(m, c, r, 1000) && c.limit == 0
    modifies m, m.known
    ensures m.Valid() && m.queue == [] && Paid(m.calls, c) == 0
    ensures Reads(old(c.Books()), c.Books(), 0, old(c.quotaLeft), 0, 0, -1000)
  {
    ghost var books := Snapshot(m.known);
    var peer := m.queue[0].peer;
    ghost var paid, after := m.UpdateQuotas(1000, {peer});
    OneInLine(r, c);
    NothingRefunded(r, c, m.known, books, paid, after, m.calls);
  }

  lemma {:induction false} NothingRefunded(r: BwRequest, c: BandwidthChannel, known: set<BandwidthChannel>,
                                           books: map<BandwidthChannel, Account>, paid: map<BandwidthChannel, Account>,
                                           after: seq<BwRequest>, calls: seq<Callback>)
    requires r.channel == [c] && r.assignedBytes == 1000 && c in known
    requires RoundDone(known, books, paid, [r], [], after, 1000) && after == []
    requires c in books && books[c].limit == 0
    requires calls == [] + CallsFor(Emptied([r]) + Finished(after))
    ensures Reads(books[c], c.Books(), 0, books[c].quotaLeft, 0, 0, -1000) && Paid(calls, c) == 0
  {
    OneInLine(r, c);
    RoundAtZero(known, books, paid, [r], [], [], 1000, c);
    assert RefilledAndShared([], [], c, paid[c], 1000);
    OneWaits(r);
    PaidForCalls([r.(assignedBytes := 0)], c);
    OneInLine(r.(assignedBytes := 0), c);
    assert Emptied([r]) + Finished([]) == [r.(assignedBytes := 0)];
    assert calls == CallsFor([r.(assignedBytes := 0)]);
  }

  /**
   The limit of a channel is lifted while a request holds 1000 bytes, and its peer disconnects: afterwards these bytes
   are nowhere. Nothing is held or was paid out, but the quota is as it was before the refill.
   */
  method LostRefund(peer: Peer, c: BandwidthChannel) returns (m: Manager)
    requires c.Valid() && c.Untouched() && c.quotaLeft == 0 && c.limit == 1000
    modifies c
    ensures m.Valid() && m.queue == [] && Held(m.queue, c) == 0 && Paid(m.calls, c) == 0
    ensures Reads(old(c.Books()), c.Books(), 0, 0, 1000, 1000, -1000)
    ensures !Conserved(old(c.Books()), c.Books(), Held(m.queue, c), Paid(m.calls, c))
  {
    ghost var r;
    m, r := AskForWhole(peer, c);
    r := RoundForOne(m, c, r);
    c.Throttle(0);
    LastLeaves(m, c, r);
  }
}
