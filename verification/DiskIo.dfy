/**
 The simulated disk's back-pressure: a writer is told to wait once too many blocks are queued, and is woken when the
 queue has been worked off far enough. The events of the disk run one after the other, on a timer.
 */
module DiskIo {
  import opened Bytes

  const BLOCK_SIZE := 0x4000
  const INT_MAX := 0x7fff_ffff
  const FULL_DELAY := 1000

  /** The parameters of the disk. */
  datatype Config = Config(low: int, high: int, recoverFullDisk: bool)

  /** What the disk does later. `handler` stands for the callback of the job. */
  datatype Event =
    | DiskFull(handler: nat)
    | WriteBlock(handler: nat, block: nat, valid: bool)
    | Other(handler: nat)

  datatype Timed = Timed(at: int, event: Event)

  /** What the disk posts to the session: an answer to a job, or a wake-up of the observers. */
  datatype Post = Failed(handler: nat) | Done(handler: nat) | Wake(observers: seq<nat>)

  /** The state of the disk. `timer` is when `on_timer` runs next. */
  datatype State = State(
    writeQueue: int,
    exceeded: bool,
    observers: seq<nat>,
    events: seq<Timed>,
    timer: Option<int>,
    spaceLeft: int,
    have: set<nat>,
    posted: seq<Post>)

  function Fresh(space: int): State {
    State(0, false, [], [], None, space, {}, [])
  }

  // The steps

  function Queue(s: State, now: int, delay: int, e: Event): State {
    if s.events == [] then s.(events := [Timed(now + delay, e)], timer := Some(now + delay))
    else s.(events := s.events + [Timed(s.events[|s.events| - 1].at + delay, e)])
  }

  predicate TooMuch(c: Config, s: State) {
    s.writeQueue > c.high || s.exceeded
  }

  function Write(c: Config, s: State, now: int, delay: int, e: Event, observer: nat): State
    requires e.WriteBlock?
  {
    if s.spaceLeft < BLOCK_SIZE then
      var q := Queue(s, now, FULL_DELAY, DiskFull(e.handler));
      if TooMuch(c, q) then q.(observers := q.observers + [observer]) else q
    else
      var q := Queue(s, now, delay, e).(writeQueue := s.writeQueue + 1);
      if TooMuch(c, q) then q.(exceeded := true, observers := q.observers + [observer]) else q
  }

  /** What `async_write` returns: shall the writer wait? */
  predicate Waits(c: Config, s: State) {
    TooMuch(c, if s.spaceLeft < BLOCK_SIZE then s else s.(writeQueue := s.writeQueue + 1))
  }

  function CheckLevel(c: Config, s: State): State {
    if !s.exceeded || s.writeQueue > c.low then s
    else s.(exceeded := false, observers := [], posted := s.posted + [Wake(s.observers)])
  }

  function Happens(c: Config, s: State, e: Event): State {
    match e
    case DiskFull(h) =>
      s.(posted := s.posted + [Failed(h)], spaceLeft := if c.recoverFullDisk then INT_MAX else s.spaceLeft)
    case WriteBlock(h, b, valid) =>
      var w := if valid then s.(have := s.have + {b}, spaceLeft := s.spaceLeft - BLOCK_SIZE) else s;
      CheckLevel(c, w.(posted := w.posted + [Done(h)], writeQueue := w.writeQueue - 1))
    case Other(h) =>
      s.(posted := s.posted + [Done(h)])
  }

  function Timer(c: Config, s: State): State {
    if s.events == [] then s
    else
      var t := Happens(c, s.(events := s.events[1..]), s.events[0].event);
      t.(timer := if t.events == [] then None else Some(t.events[0].at))
  }

  class TestDiskIo {
    const config: Config
    var writeQueue: int
    var exceededMaxSize: bool
    var observers: seq<nat>
    var eventQueue: seq<Timed>
    var timer: Option<int>
    var spaceLeft: int
    var have: set<nat>
    var posted: seq<Post>

    constructor (config: Config, space: int)
      ensures this.config == config && Now() == Fresh(space)
    {
      this.config := config;
      writeQueue := 0;
      exceededMaxSize := false;
      observers := [];
      eventQueue := [];
      timer := None;
      spaceLeft := space;
      have := {};
      posted := [];
    }

    ghost function Now(): State
      reads this
    {
      State(writeQueue, exceededMaxSize, observers, eventQueue, timer, spaceLeft, have, posted)
    }

    method QueueEvent(now: int, delay: int, e: Event)
      requires delay > 0
      modifies this`eventQueue, this`timer
      ensures Now() == Queue(old(Now()), now, delay, e)
    {
      if eventQueue == [] {
        eventQueue := eventQueue + [Timed(now + delay, e)];
        timer := Some(now + delay);
      } else {
        eventQueue := eventQueue + [Timed(eventQueue[|eventQueue| - 1].at + delay, e)];
      }
    }

    method AsyncWrite(now: int, delay: int, handler: nat, block: nat, valid: bool, observer: nat) returns (wait: bool)
      requires delay > 0
      modifies this
      ensures Now() == Write(config, old(Now()), now, delay, WriteBlock(handler, block, valid), observer)
      ensures wait == Waits(config, old(Now()))
    {
      if spaceLeft < BLOCK_SIZE {
        QueueEvent(now, FULL_DELAY, DiskFull(handler));
        if writeQueue > config.high || exceededMaxSize {
          observers := observers + [observer];
          return true;
        }
        return false;
      }
      QueueEvent(now, delay, WriteBlock(handler, block, valid));
      writeQueue := writeQueue + 1;
      if writeQueue > config.high || exceededMaxSize {
        exceededMaxSize := true;
        observers := observers + [observer];
        return true;
      }
      return false;
    }

    method CheckBufferLevel()
      modifies this`exceededMaxSize, this`observers, this`posted
      ensures Now() == CheckLevel(config, old(Now()))
    {
      if !exceededMaxSize || writeQueue > config.low { return; }
      exceededMaxSize := false;
      var callbacks := observers;
      observers := [];
      posted := posted + [Wake(callbacks)];
    }

    method Run(e: Event)
      requires Pending(Now()) + (if e.WriteBlock? then 1 else 0) == writeQueue
      modifies this
      ensures Now() == Happens(config, old(Now()), e)
    {
      match e
      case DiskFull(h) =>
        posted := posted + [Failed(h)];
        if config.recoverFullDisk { spaceLeft := INT_MAX; }
      case WriteBlock(h, b, valid) =>
        if valid {
          have := have + {b};
          spaceLeft := spaceLeft - BLOCK_SIZE;
        }
        posted := posted + [Done(h)];
        assert writeQueue > 0;
        writeQueue := writeQueue - 1;
        CheckBufferLevel();
      case Other(h) =>
        posted := posted + [Done(h)];
    }

    method OnTimer()
      requires Ok(config, Now())
      modifies this
      ensures Now() == Timer(config, old(Now()))
    {
      if eventQueue == [] { return; }
      var e := eventQueue[0].event;
      eventQueue := eventQueue[1..];
      Run(e);
      if eventQueue == [] {
        timer := None;
        return;
      }
      timer := Some(eventQueue[0].at);
    }
  }

  // Runs

  /** A writer calls `async_write`, another job is queued, or the timer fires. */
  datatype Action =
    | DoWrite(now: int, delay: int, event: Event, observer: nat)
    | DoOther(now: int, delay: int, handler: nat)
    | Fire(now: int)

  predicate ActionOk(a: Action) {
    match a
    case DoWrite(_, delay, e, _) => delay > 0 && e.WriteBlock?
    case DoOther(_, delay, _) => delay > 0
    case Fire(_) => true
  }

  predicate ActionsOk(run: seq<Action>) {
    forall i :: 0 <= i < |run| ==> ActionOk(run[i])
  }

  /** Time does not go back, and is not later than `now` in the end. */
  predicate InOrder(run: seq<Action>, now: int) {
    && (forall i :: 0 <= i < |run| ==> run[i].now <= now)
    && forall i, j :: 0 <= i < |run| && 0 <= j < |run| && i < j ==> run[i].now <= run[j].now
  }

  predicate Due(s: State, now: int) {
    s.timer.Some? && s.timer.value <= now
  }

  function Act(c: Config, s: State, a: Action): State
    requires ActionOk(a)
  {
    match a
    case DoWrite(now, delay, e, o) => Write(c, s, now, delay, e, o)
    case DoOther(now, delay, h) => Queue(s, now, delay, Other(h))
    case Fire(now) => if Due(s, now) then Timer(c, s) else s
  }

  function After(c: Config, s: State, run: seq<Action>): State
    requires ActionsOk(run)
  {
    if run == [] then s else Act(c, After(c, s, run[..|run| - 1]), run[|run| - 1])
  }

  /** The observers of the writers that were told to wait, in that order. */
  function Told(c: Config, s: State, run: seq<Action>): seq<nat>
    requires ActionsOk(run)
  {
    if run == [] then [] else
    var before, a := After(c, s, run[..|run| - 1]), run[|run| - 1];
    Told(c, s, run[..|run| - 1]) + if a.DoWrite? && Waits(c, before) then [a.observer] else []
  }

  /** The handler of the job that an action gives to the disk. */
  function AskedBy(a: Action): seq<nat> {
    match a
    case DoWrite(_, _, e, _) => [e.handler]
    case DoOther(_, _, h) => [h]
    case Fire(_) => []
  }

  /** The handlers of the jobs, in the order in which the jobs were given to the disk. */
  function Asked(run: seq<Action>): seq<nat> {
    if run == [] then [] else Asked(run[..|run| - 1]) + AskedBy(run[|run| - 1])
  }

  /** The observers that have been woken. */
  function Woken(posted: seq<Post>): seq<nat> {
    if posted == [] then [] else
    var p := posted[|posted| - 1];
    Woken(posted[..|posted| - 1]) + if p.Wake? then p.observers else []
  }

  /** The handlers that have been called. */
  function Answered(posted: seq<Post>): seq<nat> {
    if posted == [] then [] else
    var p := posted[|posted| - 1];
    Answered(posted[..|posted| - 1]) + if p.Wake? then [] else [p.handler]
  }

  function Handlers(events: seq<Timed>): seq<nat> {
    if events == [] then [] else [events[0].event.handler] + Handlers(events[1..])
  }

  function WritesIn(events: seq<Timed>): nat {
    if events == [] then 0 else (if events[0].event.WriteBlock? then 1 else 0) + WritesIn(events[1..])
  }

  function Pending(s: State): nat {
    WritesIn(s.events)
  }

  /** The invariant of the queue and the timer. */
  predicate Ok(c: Config, s: State) {
    && s.writeQueue == WritesIn(s.events)
    && s.timer == if s.events == [] then None else Some(s.events[0].at)
  }

  /** The invariant of the back-pressure. */
  predicate Pressure(c: Config, s: State) {
    && (s.exceeded ==> s.writeQueue > c.low)
    && (!s.exceeded ==> s.writeQueue <= c.high && s.observers == [])
  }

  predicate WellSet(c: Config) {
    0 <= c.low <= c.high
  }

  lemma {:induction false} WritesAppended(events: seq<Timed>, t: Timed)
    ensures WritesIn(events + [t]) == WritesIn(events) + if t.event.WriteBlock? then 1 else 0
    ensures Handlers(events + [t]) == Handlers(events) + [t.event.handler]
  {
    if events == [] {
    } else {
      assert (events + [t])[1..] == events[1..] + [t];
      WritesAppended(events[1..], t);
    }
  }

  lemma {:induction false} PostedOne(posted: seq<Post>, p: Post)
    ensures Woken(posted + [p]) == Woken(posted) + if p.Wake? then p.observers else []
    ensures Answered(posted + [p]) == Answered(posted) + if p.Wake? then [] else [p.handler]
  {
    assert (posted + [p])[..|posted|] == posted;
  }

  /** All observers told to wait: the woken ones and those that still wait. */
  function Observed(s: State): seq<nat> {
    Woken(s.posted) + s.observers
  }

  /** All jobs: the answered ones and those that are queued. */
  function Jobs(s: State): seq<nat> {
    Answered(s.posted) + Handlers(s.events)
  }

  lemma {:induction false} QueueKeeps(c: Config, s: State, now: int, delay: int, e: Event)
    ensures Jobs(Queue(s, now, delay, e)) == Jobs(s) + [e.handler]
    ensures Observed(Queue(s, now, delay, e)) == Observed(s)
    ensures Ok(c, s) ==> Ok(c, Queue(s, now, delay, e).(writeQueue := s.writeQueue + if e.WriteBlock? then 1 else 0))
  {
    var at := (if s.events == [] then now else s.events[|s.events| - 1].at) + delay;
    WritesAppended(s.events, Timed(at, e));
    assert Queue(s, now, delay, e).events == s.events + [Timed(at, e)];
  }

  lemma {:induction false} CheckKeeps(c: Config, s: State)
    ensures Observed(CheckLevel(c, s)) == Observed(s) && Answered(CheckLevel(c, s).posted) == Answered(s.posted)
  {
    PostedOne(s.posted, Wake(s.observers));
  }

  lemma {:induction false} BlockKeeps(c: Config, s: State, h: nat, b: nat, valid: bool)
    ensures var t := Happens(c, s, WriteBlock(h, b, valid));
      Observed(t) == Observed(s) && Answered(t.posted) == Answered(s.posted) + [h]
  {
    PostedOne(s.posted, Done(h));
    var w := if valid then s.(have := s.have + {b}, spaceLeft := s.spaceLeft - BLOCK_SIZE) else s;
    CheckKeeps(c, w.(posted := w.posted + [Done(h)], writeQueue := w.writeQueue - 1));
  }

  lemma {:induction false} HappensKeeps(c: Config, s: State, e: Event)
    ensures Observed(Happens(c, s, e)) == Observed(s)
    ensures Answered(Happens(c, s, e).posted) == Answered(s.posted) + [e.handler]
    ensures Happens(c, s, e).events == s.events
    ensures Happens(c, s, e).writeQueue == s.writeQueue - if e.WriteBlock? then 1 else 0
  {
    match e
    case DiskFull(h) => PostedOne(s.posted, Failed(h));
    case Other(h) => PostedOne(s.posted, Done(h));
    case WriteBlock(h, b, valid) => BlockKeeps(c, s, h, b, valid);
  }

  lemma {:induction false} TimerKeeps(c: Config, s: State)
    ensures Observed(Timer(c, s)) == Observed(s)
    ensures Jobs(Timer(c, s)) == Jobs(s)
    ensures Ok(c, s) ==> Ok(c, Timer(c, s))
    ensures s.events != [] ==> Timer(c, s).events == s.events[1..]
  {
    if s.events != [] {
      HappensKeeps(c, s.(events := s.events[1..]), s.events[0].event);
      assert Answered(s.posted) + Handlers(s.events)
          == (Answered(s.posted) + [s.events[0].event.handler]) + Handlers(s.events[1..]);
    }
  }

  lemma {:induction false} WriteKeeps(c: Config, s: State, now: int, delay: int, e: Event, o: nat)
    requires e.WriteBlock?
    ensures Observed(Write(c, s, now, delay, e, o)) == Observed(s) + if Waits(c, s) then [o] else []
    ensures Jobs(Write(c, s, now, delay, e, o)) == Jobs(s) + [e.handler]
    ensures Ok(c, s) ==> Ok(c, Write(c, s, now, delay, e, o))
  {
    if s.spaceLeft < BLOCK_SIZE {
      QueueKeeps(c, s, now, FULL_DELAY, DiskFull(e.handler));
      assert Woken(s.posted) + (s.observers + [o]) == Observed(s) + [o];
    } else {
      QueueKeeps(c, s, now, delay, e);
      assert Woken(s.posted) + (s.observers + [o]) == Observed(s) + [o];
    }
  }

  /** One step: nothing is lost, and the queue stays counted and the timer set for the first event. */
  lemma {:induction false} ActKeeps(c: Config, s: State, a: Action)
    requires ActionOk(a)
    ensures Ok(c, s) ==> Ok(c, Act(c, s, a))
    ensures Observed(Act(c, s, a)) == Observed(s) + if a.DoWrite? && Waits(c, s) then [a.observer] else []
    ensures Jobs(Act(c, s, a)) == Jobs(s) + AskedBy(a)
  {
    match a
    case DoWrite(now, delay, e, o) => WriteKeeps(c, s, now, delay, e, o);
    case DoOther(now, delay, h) => QueueKeeps(c, s, now, delay, Other(h));
    case Fire(now) => TimerKeeps(c, s);
  }

  /** With 0 <= low <= high every step keeps the invariant of the back-pressure. */
  lemma {:induction false} ActKeepsPressure(c: Config, s: State, a: Action)
    requires WellSet(c) && Pressure(c, s) && ActionOk(a)
    ensures Pressure(c, Act(c, s, a))
  {
  }

  // The theorems

  /**
   In every reachable state the write queue counts the pending write events and the timer is set for the first event;
   every job given to the disk is answered or queued, and every writer told to wait is woken or waiting, each exactly
   once and in order. If 0 <= low <= high, writers wait only while more than `low` blocks are queued.
   */
  lemma {:induction false} Reachable(c: Config, space: int, run: seq<Action>)
    requires ActionsOk(run)
    ensures Ok(c, After(c, Fresh(space), run))
    ensures Observed(After(c, Fresh(space), run)) == Told(c, Fresh(space), run)
    ensures Jobs(After(c, Fresh(space), run)) == Asked(run)
    ensures WellSet(c) ==> Pressure(c, After(c, Fresh(space), run))
  {
    if run != [] {
      var front, a := run[..|run| - 1], run[|run| - 1];
      Reachable(c, space, front);
      ActKeeps(c, After(c, Fresh(space), front), a);
      if WellSet(c) {
        ActKeepsPressure(c, After(c, Fresh(space), front), a);
      }
    }
  }

  /** Once the event queue is empty, every writer that was told to wait has been woken, and every job answered. */
  lemma {:induction false} NoLostWakeup(c: Config, space: int, run: seq<Action>)
    requires WellSet(c) && ActionsOk(run) && After(c, Fresh(space), run).events == []
    ensures Woken(After(c, Fresh(space), run).posted) == Told(c, Fresh(space), run)
    ensures Answered(After(c, Fresh(space), run).posted) == Asked(run)
    ensures !After(c, Fresh(space), run).exceeded
  {
    Reachable(c, space, run);
  }

  /** The timer has fired `n` times, at a time when it is due. */
  function Fires(n: nat, now: int): (run: seq<Action>)
    ensures |run| == n && ActionsOk(run)
    ensures forall i :: 0 <= i < n ==> run[i].now == now
  {
    if n == 0 then [] else Fires(n - 1, now) + [Fire(now)]
  }

  lemma {:induction false} InOrderConcat(a: seq<Action>, b: seq<Action>, now: int, later: int)
    requires InOrder(a, now) && InOrder(b, later) && now <= later && forall i :: 0 <= i < |b| ==> now <= b[i].now
    ensures InOrder(a + b, later)
  {
    var run := a + b;
    forall i, j | 0 <= i < |run| && 0 <= j < |run| && i < j
      ensures run[i].now <= run[j].now
    {
      if i < |a| <= j {
        assert run[i] == a[i] && run[j] == b[j - |a|];
      }
    }
  }

  lemma {:induction false} ThenFires(run: seq<Action>, n: nat, now: int)
    requires InOrder(run, now)
    ensures InOrder(run + Fires(n, now), now)
  {
    InOrderConcat(run, Fires(n, now), now, now);
  }

  predicate DueBy(s: State, now: int) {
    forall i :: 0 <= i < |s.events| ==> s.events[i].at <= now
  }

  lemma {:induction false} FiresOnce(c: Config, s: State, n: nat, now: int)
    requires n > 0
    ensures After(c, s, Fires(n, now)) == Act(c, After(c, s, Fires(n - 1, now)), Fire(now))
    ensures Told(c, s, Fires(n, now)) == Told(c, s, Fires(n - 1, now))
  {
    assert Fires(n, now)[..n - 1] == Fires(n - 1, now);
  }

  /** Firing the timer works off the events one by one. */
  lemma {:induction false} Drained(c: Config, s: State, n: nat, now: int)
    requires Ok(c, s) && DueBy(s, now) && n <= |s.events|
    ensures Told(c, s, Fires(n, now)) == []
    ensures Ok(c, After(c, s, Fires(n, now)))
    ensures After(c, s, Fires(n, now)).events == s.events[n..]
  {
    if n > 0 {
      Drained(c, s, n - 1, now);
      FiresOnce(c, s, n, now);
      var t := After(c, s, Fires(n - 1, now));
      assert t.events[0] == s.events[n - 1];
      TimerKeeps(c, t);
    }
  }

  lemma {:induction false} AfterMore(c: Config, s: State, a: seq<Action>, b: seq<Action>)
    requires ActionsOk(a) && ActionsOk(b)
    ensures ActionsOk(a + b) && After(c, s, a + b) == After(c, After(c, s, a), b)
    ensures Told(c, s, a + b) == Told(c, s, a) + Told(c, After(c, s, a), b)
  {
    if b == [] {
      assert a + b == a;
    } else {
      AfterMore(c, s, a, b[..|b| - 1]);
      assert (a + b)[..|a + b| - 1] == a + b[..|b| - 1];
    }
  }

  /** From every reachable state the timer works off the queue, and then no writer is left waiting. */
  lemma {:induction false} EventuallyWoken(c: Config, space: int, run: seq<Action>, now: int)
    requires WellSet(c) && ActionsOk(run) && DueBy(After(c, Fresh(space), run), now)
    ensures var end := run + Fires(|After(c, Fresh(space), run).events|, now);
      && ActionsOk(end)
      && After(c, Fresh(space), end).events == []
      && Woken(After(c, Fresh(space), end).posted) == Told(c, Fresh(space), run)
      && (InOrder(run, now) ==> InOrder(end, now))
  {
    var s := After(c, Fresh(space), run);
    Reachable(c, space, run);
    Drained(c, s, |s.events|, now);
    AfterMore(c, Fresh(space), run, Fires(|s.events|, now));
    NoLostWakeup(c, space, run + Fires(|s.events|, now));
    if InOrder(run, now) {
      ThenFires(run, |s.events|, now);
    }
  }

  // The watermarks that lose a wake-up

  function WriteAt(now: int): Action {
    DoWrite(now, 1, WriteBlock(0, 0, true), 0)
  }

  const A_WRITE := WriteAt(0)

  function Writes(n: nat): (run: seq<Action>)
    ensures |run| == n && ActionsOk(run)
    ensures forall i :: 0 <= i < n ==> run[i].now == 0
  {
    if n == 0 then [] else Writes(n - 1) + [A_WRITE]
  }

  /** The state after `n` writes to an idle disk. */
  ghost predicate Filled(c: Config, s: State, n: nat) {
    && s.writeQueue == n == |s.events| && s.spaceLeft == BLOCK_SIZE
    && (forall i :: 0 <= i < n ==> s.events[i] == Timed(i + 1, A_WRITE.event))
    && (n > 0 && n > c.high ==> s.exceeded && s.observers != [])
  }

  lemma {:induction false} OneMoreWrite(c: Config, s: State, n: nat)
    requires Filled(c, s, n)
    ensures Filled(c, Act(c, s, A_WRITE), n + 1)
  {
    var q := Queue(s, 0, 1, A_WRITE.event);
    assert q.events == s.events + [Timed(n + 1, A_WRITE.event)];
  }

  lemma {:induction false} ManyWrites(c: Config, n: nat)
    ensures Filled(c, After(c, Fresh(BLOCK_SIZE), Writes(n)), n)
  {
    if n > 0 {
      ManyWrites(c, n - 1);
      assert Writes(n)[..n - 1] == Writes(n - 1);
      OneMoreWrite(c, After(c, Fresh(BLOCK_SIZE), Writes(n - 1)), n - 1);
    }
  }

  /** Nobody will be woken: the mark is not set, or the queue cannot fall to the low watermark. */
  predicate Stuck(c: Config, s: State) {
    !s.exceeded || c.low < 0
  }

  lemma {:induction false} StuckOnce(c: Config, s: State, now: int)
    requires Ok(c, s) && Stuck(c, s)
    ensures Stuck(c, Act(c, s, Fire(now))) && Act(c, s, Fire(now)).observers == s.observers
  {
  }

  lemma {:induction false} StuckStays(c: Config, s: State, n: nat, now: int)
    requires Ok(c, s) && DueBy(s, now) && n <= |s.events| && Stuck(c, s)
    ensures Stuck(c, After(c, s, Fires(n, now))) && After(c, s, Fires(n, now)).observers == s.observers
  {
    if n > 0 {
      StuckStays(c, s, n - 1, now);
      Drained(c, s, n - 1, now);
      FiresOnce(c, s, n, now);
      StuckOnce(c, After(c, s, Fires(n - 1, now)), now);
    }
  }

  /** A run that ends, at the time `now`, with an idle disk and a writer that still waits. */
  ghost predicate Loses(c: Config, space: int, run: seq<Action>, now: int) {
    && ActionsOk(run) && InOrder(run, now)
    && After(c, Fresh(space), run).events == []
    && Woken(After(c, Fresh(space), run).posted) != Told(c, Fresh(space), run)
  }

  lemma {:induction false} LosesFrom(c: Config, space: int, run: seq<Action>, now: int)
    requires ActionsOk(run) && InOrder(run, now) && DueBy(After(c, Fresh(space), run), now)
    requires Stuck(c, After(c, Fresh(space), run)) && After(c, Fresh(space), run).observers != []
    ensures Loses(c, space, run + Fires(|After(c, Fresh(space), run).events|, now), now)
  {
    var s := After(c, Fresh(space), run);
    var rest := Fires(|s.events|, now);
    Reachable(c, space, run);
    Drained(c, s, |s.events|, now);
    StuckStays(c, s, |s.events|, now);
    AfterMore(c, Fresh(space), run, rest);
    Reachable(c, space, run + rest);
    ThenFires(run, |s.events|, now);
  }

  /** Without 0 <= low <= high some run loses a wake-up. */
  lemma {:induction false} LosingRun(c: Config) returns (space: int, run: seq<Action>, now: int)
    requires !WellSet(c)
    ensures Loses(c, space, run, now)
  {
    if c.low < 0 {
      space, run, now := LowIsNegative(c);
    } else if c.high < 0 {
      space, run, now := HighIsNegative(c);
    } else {
      space, run, now := LowIsAboveHigh(c);
    }
  }

  lemma {:induction false} LowIsNegative(c: Config) returns (space: int, run: seq<Action>, now: int)
    requires c.low < 0
    ensures Loses(c, space, run, now)
  {
    var n: nat := if c.high < 0 then 1 else c.high + 2;
    ManyWrites(c, n);
    LosesFrom(c, BLOCK_SIZE, Writes(n), n);
    return BLOCK_SIZE, Writes(n) + Fires(|After(c, Fresh(BLOCK_SIZE), Writes(n)).events|, n), n;
  }

  lemma {:induction false} HighIsNegative(c: Config) returns (space: int, run: seq<Action>, now: int)
    requires c.high < 0
    ensures Loses(c, space, run, now)
  {
    assert After(c, Fresh(0), Writes(1)) == Act(c, Fresh(0), A_WRITE) by {
      assert Writes(1)[..0] == [] && Writes(1)[0] == A_WRITE;
    }
    LosesFrom(c, 0, Writes(1), FULL_DELAY);
    return 0, Writes(1) + Fires(1, FULL_DELAY), FULL_DELAY;
  }

  lemma {:induction false} LowIsAboveHigh(c: Config) returns (space: int, run: seq<Action>, now: int)
    requires 0 <= c.high < c.low
    ensures Loses(c, space, run, now)
  {
    var n: nat := c.high + 2;
    var s := After(c, Fresh(BLOCK_SIZE), Writes(n));
    var middle := [Fire(n), WriteAt(n)];
    space, run, now := BLOCK_SIZE, Writes(n) + middle, n + FULL_DELAY;
    ManyWrites(c, n);
    Reachable(c, BLOCK_SIZE, Writes(n));
    MarkIsCleared(c, s, n);
    AfterMore(c, Fresh(BLOCK_SIZE), Writes(n), middle);
    InOrderConcat(Writes(n), middle, n, now);
    LosesFrom(c, BLOCK_SIZE, run, now);
    run := run + Fires(|After(c, Fresh(BLOCK_SIZE), run).events|, now);
  }

  /** One write event clears the mark while the queue is still above `high`; the disk is then full. */
  lemma {:induction false} MarkIsCleared(c: Config, s: State, n: nat)
    requires 0 <= c.high < c.low && n == c.high + 2 && Filled(c, s, n) && Ok(c, s)
    ensures ActionsOk([Fire(n), WriteAt(n)])
    ensures var t := After(c, s, [Fire(n), WriteAt(n)]);
      !t.exceeded && t.observers != [] && |t.events| == n && DueBy(t, n + FULL_DELAY)
  {
    var u := Act(c, s, Fire(n));
    assert [Fire(n), WriteAt(n)][..1] == [Fire(n)] && [Fire(n)][..0] == [];
    assert After(c, s, [Fire(n)]) == u;
    assert After(c, s, [Fire(n), WriteAt(n)]) == Act(c, u, WriteAt(n));
  }

  /** No wake-up is ever lost, in any run on any disk, exactly if 0 <= low <= high. */
  lemma {:induction false} WakeupsIffWellSet(c: Config)
    ensures (forall space: int, run: seq<Action>, now: int :: !Loses(c, space, run, now)) <==> WellSet(c)
  {
    if WellSet(c) {
      forall space: int, run: seq<Action>, now: int
        ensures !Loses(c, space, run, now)
      {
        if Loses(c, space, run, now) {
          NoLostWakeup(c, space, run);
        }
      }
    } else {
      var space, run, now := LosingRun(c);
      assert Loses(c, space, run, now);
    }
  }
}
