/**
 The simulated disk as those see it that give it jobs: a list of jobs, worked off from the front one by one. What was
 given when says how every job is answered, how much space is left and which blocks are there; and the disk does so.
 */
module DiskLedger {
  import opened DiskIo

  /** A write that found no room, a write, or anything else that is never refused. */
  datatype Kind = Refused | Written(block: nat, valid: bool) | Plain

  datatype Job = Job(handler: nat, kind: Kind, at: int)

  /** All jobs that were ever given, of which the first ones are done. */
  datatype Ledger = Ledger(jobs: seq<Job>, done: nat)

  /** The space that is left after those jobs. */
  function Space(c: Config, space: int, jobs: seq<Job>): int {
    if jobs == [] then space else
    var before := Space(c, space, jobs[..|jobs| - 1]);
    match jobs[|jobs| - 1].kind
    case Refused => if c.recoverFullDisk then 2147483647 else before
    case Written(_, valid) => if valid then before - 16384 else before
    case Plain => before
  }

  function Blocks(jobs: seq<Job>): set<nat> {
    if jobs == [] then {} else
    var job := jobs[|jobs| - 1];
    Blocks(jobs[..|jobs| - 1]) + if job.kind.Written? && job.kind.valid then {job.kind.block} else {}
  }

  /** A job more: it takes its time once all others are done. */
  function Given(l: Ledger, handler: nat, kind: Kind, now: int, time: int): Ledger {
    var start := if l.jobs == [] || l.done >= |l.jobs| then now else l.jobs[|l.jobs| - 1].at;
    l.(jobs := l.jobs + [Job(handler, kind, start + time)])
  }

  /** A write is refused exactly if less than a block is left when it is given; being refused takes a millisecond. */
  function Entered(c: Config, space: int, l: Ledger, a: Action): Ledger
    requires l.done <= |l.jobs| && ActionOk(a)
  {
    match a
    case DoWrite(now, time, e, _) =>
      if Space(c, space, l.jobs[..l.done]) < 16384 then Given(l, e.handler, Refused, now, 1000)
      else Given(l, e.handler, Written(e.block, e.valid), now, time)
    case DoOther(now, time, h) => Given(l, h, Plain, now, time)
    case Fire(now) => if l.done < |l.jobs| && l.jobs[l.done].at <= now then l.(done := l.done + 1) else l
  }

  function Entries(c: Config, space: int, run: seq<Action>): (l: Ledger)
    requires ActionsOk(run)
    ensures l.done <= |l.jobs|
  {
    if run == [] then Ledger([], 0) else Entered(c, space, Entries(c, space, run[..|run| - 1]), run[|run| - 1])
  }

  // ----- what the disk shows of it

  /** How a handler was called. */
  datatype Answer = Success(handler: nat) | NoSpace(handler: nat)

  function AnswerTo(job: Job): Answer {
    if job.kind.Refused? then NoSpace(job.handler) else Success(job.handler)
  }

  function AnswersTo(jobs: seq<Job>): seq<Answer> {
    if jobs == [] then [] else AnswersTo(jobs[..|jobs| - 1]) + [AnswerTo(jobs[|jobs| - 1])]
  }

  function Answers(posted: seq<Post>): seq<Answer> {
    if posted == [] then [] else
    var front := Answers(posted[..|posted| - 1]);
    match posted[|posted| - 1]
    case Failed(h) => front + [NoSpace(h)]
    case Done(h) => front + [Success(h)]
    case Wake(_) => front
  }

  predicate Shows(t: Timed, job: Job) {
    && t.at == job.at
    && match job.kind
       case Refused => t.event == DiskFull(job.handler)
       case Written(block, valid) => t.event == WriteBlock(job.handler, block, valid)
       case Plain => t.event == Other(job.handler)
  }

  ghost predicate Agrees(c: Config, space: int, s: State, l: Ledger) {
    && l.done <= |l.jobs| == l.done + |s.events|
    && (forall i :: 0 <= i < |s.events| ==> Shows(s.events[i], l.jobs[l.done + i]))
    && Answers(s.posted) == AnswersTo(l.jobs[..l.done])
    && s.spaceLeft == Space(c, space, l.jobs[..l.done]) && s.have == Blocks(l.jobs[..l.done])
  }

  lemma {:induction false} PostsAnswer(posted: seq<Post>, p: Post)
    ensures Answers(posted + [p]) == match p
      case Failed(h) => Answers(posted) + [NoSpace(h)]
      case Done(h) => Answers(posted) + [Success(h)]
      case Wake(_) => Answers(posted)
  {
    assert (posted + [p])[..|posted|] == posted;
  }

  lemma {:induction false} GivenAgrees(c: Config, space: int, s: State, l: Ledger, handler: nat, kind: Kind, now: int,
                                       time: int, e: Event)
    requires Agrees(c, space, s, l) && Ok(c, s) && Shows(Timed(0, e), Job(handler, kind, 0))
    ensures Agrees(c, space, Queue(s, now, time, e), Given(l, handler, kind, now, time))
  {
    assert Given(l, handler, kind, now, time).jobs[..l.done] == l.jobs[..l.done];
  }

  lemma {:induction false} JobDone(c: Config, space: int, jobs: seq<Job>, n: nat)
    requires n < |jobs|
    ensures var before, after, job := jobs[..n], jobs[..n + 1], jobs[n];
      && AnswersTo(after) == AnswersTo(before) + [AnswerTo(job)]
      && Space(c, space, after) == (match job.kind
           case Refused => if c.recoverFullDisk then 2147483647 else Space(c, space, before)
           case Written(_, valid) => if valid then Space(c, space, before) - 16384 else Space(c, space, before)
           case Plain => Space(c, space, before))
      && Blocks(after)
         == Blocks(before) + if job.kind.Written? && job.kind.valid then {job.kind.block} else {}
  {
    assert jobs[..n + 1][..n] == jobs[..n];
  }

  /** An event answers the job that it shows. */
  lemma {:induction false} EventAnswers(c: Config, s: State, t: Timed, job: Job)
    requires Shows(t, job)
    ensures var after := Happens(c, s, t.event);
      && Answers(after.posted) == Answers(s.posted) + [AnswerTo(job)] && after.events == s.events
      && after.spaceLeft == (match job.kind
           case Refused => if c.recoverFullDisk then 2147483647 else s.spaceLeft
           case Written(_, valid) => if valid then s.spaceLeft - 16384 else s.spaceLeft
           case Plain => s.spaceLeft)
      && after.have == s.have + if job.kind.Written? && job.kind.valid then {job.kind.block} else {}
  {
    hide Answers;
    match job.kind
    case Refused => PostsAnswer(s.posted, Failed(job.handler));
    case Plain => PostsAnswer(s.posted, Done(job.handler));
    case Written(_, _) =>
      PostsAnswer(s.posted, Done(job.handler));
      PostsAnswer(s.posted + [Done(job.handler)], Wake(s.observers));
  }

  /** The first job that is not done is answered. */
  lemma {:induction false} DoneAgrees(c: Config, space: int, s: State, l: Ledger)
    requires Agrees(c, space, s, l) && s.events != []
    ensures Agrees(c, space, Timer(c, s), l.(done := l.done + 1))
  {
    hide Happens, Answers, AnswersTo, Space, Blocks, AnswerTo;
    var job := l.jobs[l.done];
    assert Shows(s.events[0], job);
    JobDone(c, space, l.jobs, l.done);
    EventAnswers(c, s.(events := s.events[1..]), s.events[0], job);
  }

  lemma {:induction false} EnteredAgrees(c: Config, space: int, s: State, l: Ledger, a: Action)
    requires Agrees(c, space, s, l) && Ok(c, s) && ActionOk(a)
    ensures Agrees(c, space, Act(c, s, a), Entered(c, space, l, a))
  {
    match a
    case DoWrite(now, time, e, _) =>
      if s.spaceLeft < BLOCK_SIZE {
        GivenAgrees(c, space, s, l, e.handler, Refused, now, 1000, DiskFull(e.handler));
      } else {
        GivenAgrees(c, space, s, l, e.handler, Written(e.block, e.valid), now, time, e);
      }
    case DoOther(now, time, h) =>
      GivenAgrees(c, space, s, l, h, Plain, now, time, Other(h));
    case Fire(now) =>
      if Due(s, now) {
        DoneAgrees(c, space, s, l);
      }
  }

  /**
   After every run: the jobs that are done were answered in the order in which they were given, with an error exactly if
   they are writes that were given while less than a block of space was left; and the others are queued in that order.
   The space and the blocks are what the jobs that are done have left of them.
   */
  lemma {:induction false} AnsweredAsGiven(c: Config, space: int, run: seq<Action>)
    requires ActionsOk(run)
    ensures Agrees(c, space, After(c, Fresh(space), run), Entries(c, space, run))
  {
    if run != [] {
      var front := run[..|run| - 1];
      AnsweredAsGiven(c, space, front);
      Reachable(c, space, front);
      EnteredAgrees(c, space, After(c, Fresh(space), front), Entries(c, space, front), run[|run| - 1]);
    }
  }

  // ----- when writers wait

  lemma {:induction false} MarkIsObservers(c: Config, space: int, run: seq<Action>)
    requires WellSet(c) && ActionsOk(run)
    ensures var s := After(c, Fresh(space), run); s.exceeded <==> s.observers != []
  {
    hide Act, Pressure;
    if run != [] {
      MarkIsObservers(c, space, run[..|run| - 1]);
      Reachable(c, space, run[..|run| - 1]);
      MarkStep(c, After(c, Fresh(space), run[..|run| - 1]), run[|run| - 1]);
    }
  }

  lemma {:induction false} MarkStep(c: Config, s: State, a: Action)
    requires WellSet(c) && Pressure(c, s) && ActionOk(a) && (s.exceeded <==> s.observers != [])
    ensures Act(c, s, a).exceeded <==> Act(c, s, a).observers != []
  {}

  /**
   With 0 <= low <= high, in every reachable state: a writer will be told to wait exactly if others wait already or its
   block is one too many for the high watermark; some wait only while more blocks than the low watermark are pending,
   and none only while no more are than the high one.
   */
  lemma {:induction false} WaitsIff(c: Config, space: int, run: seq<Action>)
    requires WellSet(c) && ActionsOk(run)
    ensures var s := After(c, Fresh(space), run);
      && (Waits(c, s) <==>
            s.observers != [] || WritesIn(s.events) + (if s.spaceLeft < 16384 then 0 else 1) > c.high)
      && (s.observers != [] ==> WritesIn(s.events) > c.low)
      && (s.observers == [] ==> WritesIn(s.events) <= c.high)
  {
    Reachable(c, space, run);
    MarkIsObservers(c, space, run);
  }

  /** A write to a full disk, and one to a disk with room for it. */
  lemma {:induction false} RefusedAndWritten(c: Config, handler: nat, space: int)
    requires space >= 16384
    ensures var run := [DoWrite(0, 5, WriteBlock(handler, 0, true), 0), Fire(1000)];
      && ActionsOk(run)
      && Answers(After(c, Fresh(0), run).posted) == [NoSpace(handler)]
      && Answers(After(c, Fresh(space), run).posted) == [Success(handler)]
  {
    var run := [DoWrite(0, 5, WriteBlock(handler, 0, true), 0), Fire(1000)];
    assert run[..1][..0] == [] && run[..1][0] == run[0];
    AnsweredAsGiven(c, 0, run);
    AnsweredAsGiven(c, space, run);
    OneEntry(c, 0, run);
    OneEntry(c, space, run);
  }

  lemma {:induction false} OneEntry(c: Config, space: int, run: seq<Action>)
    requires ActionsOk(run) && |run| == 2 && run[0].DoWrite? && run[0].now == 0 && run[0].delay == 5
    requires run[1] == Fire(1000)
    ensures var l := Entries(c, space, run);
      && |l.jobs| == l.done == 1 && l.jobs[0].handler == run[0].event.handler
      && (l.jobs[0].kind.Refused? <==> space < 16384)
    ensures AnswersTo(Entries(c, space, run).jobs[..1]) == [AnswerTo(Entries(c, space, run).jobs[0])]
  {
    assert run[..1][..0] == [] && run[..1][0] == run[0] && |run[..1]| == 1;
    var l := Entries(c, space, run[..1]);
    assert Entries(c, space, []) == Ledger([], 0);
    assert l == Entered(c, space, Ledger([], 0), run[0]);
    assert Entries(c, space, run) == Entered(c, space, l, run[1]);
    assert Entries(c, space, run).jobs[..1][..0] == [];
  }
}
