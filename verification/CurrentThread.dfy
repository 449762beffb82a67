/**
 The current-thread executor: the run queue of current_thread_scheduler.cpp and the drive loop of
 scheduler.h.  One thread drives; any number of threads schedule tasks, and any may wake the main future.
 A section under the run-queue mutex is one step.  The event loop is assumed to keep a wake, or a posted
 callback, that arrives while nobody waits.
 */
module CurrentThread {

  datatype TaskState = Pending | Running | Completed

  /** What the driving thread does next. */
  datatype Driver =
    | SetLoop | Pop | Claim(task: nat) | EndPoll(task: nat) | PollMain | EndMain | CheckQueue | ParkCheck | Parked
    | Finished

  /** What a scheduling thread does next: load the loop pointer, then wake the loop if there was one. */
  datatype Scheduler = LoadLoop | WakeLoop

  /** History: `owed`, the tasks woken since their last poll began; `polls`, the tasks polled, in order. */
  datatype Work = Work(queue: seq<nat>, tasks: map<nat, TaskState>, owed: set<nat>, polls: seq<nat>)

  /**
   `bound` is whether block_on's loop is bound, `wakePending` its sticky wake, `posts` the number of posted
   callbacks that set `fired`.  History: `mainOwed`, whether the main future was woken since its last poll
   began.
   */
  datatype Loop = Loop(bound: bool, wakePending: bool, posts: nat, fired: bool, mainOwed: bool)

  datatype State = State(work: Work, loop: Loop, driver: Driver, schedulers: map<nat, Scheduler>)

  /**
   Schedule: thread t pushes a task (a wake, or a spawn).  Post: the main future's waker fires.  Drive: the
   driving thread's next step; `flag` is what a poll that ends in it returns, or whether a wait returns
   although nothing was pending.
   */
  datatype Event = Schedule(t: nat, task: nat) | SchedulerStep(t: nat) | Post | Drive(flag: bool)

  const Init := State(Work([], map[], {}, []), Loop(false, false, 0, false, false), SetLoop, map[])

  function StateOf(w: Work, task: nat): TaskState {
    if task in w.tasks then w.tasks[task] else Pending
  }

  function BeginPoll(w: Work, task: nat): Work {
    Work(w.queue, w.tasks[task := Running], w.owed - {task}, w.polls + [task])
  }

  function DriveApply(s: State, flag: bool): State {
    var w, l := s.work, s.loop;
    match s.driver
    case SetLoop => s.(loop := l.(bound := true), driver := Pop)
    case Pop =>
      if w.queue == [] then s.(driver := PollMain)
      else s.(work := w.(queue := w.queue[1..]), driver := Claim(w.queue[0]))
    case Claim(task) =>
      if StateOf(w, task).Pending? then s.(work := BeginPoll(w, task), driver := EndPoll(task)) else s.(driver := Pop)
    case EndPoll(task) =>
      s.(work := w.(tasks := w.tasks[task := if flag then Completed else Pending]), driver := Pop)
    case PollMain => s.(loop := l.(mainOwed := false), driver := EndMain)
    case EndMain => if flag then s.(loop := l.(bound := false), driver := Finished) else s.(driver := CheckQueue)
    case CheckQueue => s.(driver := if w.queue != [] then Pop else ParkCheck)
    case ParkCheck =>
      if !l.fired && w.queue == [] then s.(driver := Parked) else s.(loop := l.(fired := false), driver := Pop)
    case Parked =>
      if l.posts > 0 || l.wakePending || flag
      then s.(loop := l.(posts := 0, fired := l.fired || l.posts > 0, wakePending := false), driver := ParkCheck) else s
    case Finished => s
  }

  function Apply(s: State, e: Event): State {
    match e
    case Schedule(t, task) =>
      if t in s.schedulers then s
      else s.(work := s.work.(queue := s.work.queue + [task], owed := s.work.owed + {task}),
              schedulers := s.schedulers[t := LoadLoop])
    case SchedulerStep(t) =>
      if t !in s.schedulers then s
      else if s.schedulers[t].WakeLoop? then s.(schedulers := s.schedulers - {t}, loop := s.loop.(wakePending := true))
      else if s.loop.bound then s.(schedulers := s.schedulers[t := WakeLoop])
      else s.(schedulers := s.schedulers - {t})
    case Post => s.(loop := s.loop.(posts := s.loop.posts + 1, mainOwed := true))
    case Drive(flag) => DriveApply(s, flag)
  }

  function Run(es: seq<Event>): State {
    if es == [] then Init else Apply(Run(es[..|es| - 1]), es[|es| - 1])
  }

  /** A wake is pending on the loop, or a scheduler is between its push and its wake. */
  predicate WakeDue(s: State) {
    s.loop.wakePending || s.schedulers != map[]
  }

  /** Exactly the task being polled is running. */
  ghost predicate OneRuns(w: Work, d: Driver) {
    forall k :: StateOf(w, k).Running? <==> d == EndPoll(k)
  }

  /** A woken task that has not completed is queued or being claimed. */
  ghost predicate Kept(w: Work, d: Driver) {
    forall k :: k in w.owed ==> StateOf(w, k).Completed? || k in w.queue || d == Claim(k)
  }

  ghost predicate Awake(s: State) {
    var l, d := s.loop, s.driver;
    && (l.bound <==> !d.SetLoop? && !d.Finished?)
    && (d.Parked? && s.work.queue != [] ==> WakeDue(s))
    && (d.Parked? ==> !l.fired)
    && (l.mainOwed && (d.EndMain? || d.CheckQueue? || d.ParkCheck? || d.Parked?) ==> l.posts > 0 || l.fired)
  }

  ghost predicate Inv(s: State) {
    OneRuns(s.work, s.driver) && Kept(s.work, s.driver) && Awake(s)
  }

  lemma AwakeStep(s: State, e: Event)
    requires Awake(s)
    ensures Awake(Apply(s, e))
  {
    hide BeginPoll, StateOf;
    match e
    case Schedule(t, task) => if t !in s.schedulers { assert t in Apply(s, e).schedulers; }
    case SchedulerStep(t) => SchedulerKeepsAwake(s, t);
    case Post =>
    case Drive(flag) => DriveKeepsAwake(s, flag);
  }

  lemma SchedulerKeepsAwake(s: State, t: nat)
    requires Awake(s)
    ensures Awake(Apply(s, SchedulerStep(t)))
  {
    var s' := Apply(s, SchedulerStep(t));
    if t in s'.schedulers { assert s'.schedulers != map[]; }
  }

  lemma DriveKeepsAwake(s: State, flag: bool)
    requires Awake(s)
    ensures Awake(DriveApply(s, flag))
  {
    hide BeginPoll, StateOf;
  }

  lemma TasksStep(s: State, e: Event)
    requires OneRuns(s.work, s.driver) && Kept(s.work, s.driver)
    ensures OneRuns(Apply(s, e).work, Apply(s, e).driver) && Kept(Apply(s, e).work, Apply(s, e).driver)
  {
    var w, s' := s.work, Apply(s, e);
    assert s.driver.Pop? && w.queue != [] ==> w.queue == [w.queue[0]] + w.queue[1..];
    forall k ensures StateOf(s'.work, k).Running? <==> s'.driver == EndPoll(k) {
      assert StateOf(w, k).Running? <==> s.driver == EndPoll(k);
    }
    forall k | k in s'.work.owed
      ensures StateOf(s'.work, k).Completed? || k in s'.work.queue || s'.driver == Claim(k)
    {
      assert StateOf(w, k).Running? <==> s.driver == EndPoll(k);
      assert k in w.owed ==> StateOf(w, k).Completed? || k in w.queue || s.driver == Claim(k);
    }
  }

  lemma Step(s: State, e: Event)
    requires Inv(s)
    ensures Inv(Apply(s, e))
  {
    hide Apply, Kept, OneRuns, Awake;
    AwakeStep(s, e);
    TasksStep(s, e);
  }

  lemma {:induction false} RunInv(es: seq<Event>)
    ensures Inv(Run(es))
  {
    if es != [] {
      RunInv(es[..|es| - 1]);
      Step(Run(es[..|es| - 1]), es[|es| - 1]);
    }
  }

  /**
   block_on never sleeps on work: parked with a task in the queue, whenever that was pushed, a wake is
   pending on the loop or a scheduling thread is still on its way to wake it; parked with the main future
   woken since its last poll, a callback is pending.
   */
  lemma NeverSleepsOnWork(es: seq<Event>)
    requires Run(es).driver.Parked?
    ensures var s := Run(es); (s.work.queue != [] ==> WakeDue(s)) && (s.loop.mainOwed ==> s.loop.posts > 0)
  {
    RunInv(es);
  }

  /** And a scheduling thread on its way to a parked loop does find the loop and wakes it. */
  lemma SchedulerReachesParked(es: seq<Event>, t: nat)
    requires Run(es).driver.Parked? && t in Run(es).schedulers
    ensures Apply(Apply(Run(es), SchedulerStep(t)), SchedulerStep(t)).loop.wakePending
  {
    RunInv(es);
  }

  /** A woken task that has not completed is queued or being claimed, also when it was woken during its own poll. */
  lemma WokenTaskIsKept(es: seq<Event>, task: nat)
    requires task in Run(es).work.owed
    ensures var s := Run(es); StateOf(s.work, task).Completed? || task in s.work.queue || s.driver == Claim(task)
  {
    RunInv(es);
  }

  /** The claim never meets a task that is running: it fails only on completed tasks. */
  lemma ClaimFailsOnlyOnCompleted(es: seq<Event>)
    requires Run(es).driver.Claim?
    ensures var s := Run(es); StateOf(s.work, s.driver.task) in {Pending, Completed}
  {
    RunInv(es);
  }

  /** The driving thread's steps for the task at the head of the queue; `flag` is what a poll of it returns. */
  function Turn(s: State, flag: bool): State {
    var claimed := DriveApply(DriveApply(s, flag), flag);
    if claimed.driver.Pop? then claimed else DriveApply(claimed, flag)
  }

  lemma TurnDoes(s: State, flag: bool)
    requires Inv(s) && s.driver.Pop? && s.work.queue != []
    ensures var s', q := Turn(s, flag), s.work.queue[0];
            && Inv(s') && s'.driver.Pop? && s'.work.queue == s.work.queue[1..]
            && s'.work.polls == s.work.polls + (if StateOf(s.work, q).Pending? then [q] else [])
            && StateOf(s'.work, q) == (if StateOf(s.work, q).Pending? && !flag then Pending else Completed)
            && forall k :: k != q ==> StateOf(s'.work, k) == StateOf(s.work, k)
  {
    TurnKeeps(s, flag);
    NothingRuns(s);
    hide Inv;
  }

  lemma TurnKeeps(s: State, flag: bool)
    requires Inv(s)
    ensures Inv(Turn(s, flag))
  {
    hide Inv, DriveApply;
    Step(s, Drive(flag));
    Step(DriveApply(s, flag), Drive(flag));
    Step(DriveApply(DriveApply(s, flag), flag), Drive(flag));
  }

  lemma NothingRuns(s: State)
    requires Inv(s) && s.driver.Pop?
    ensures forall k :: !StateOf(s.work, k).Running?
  {
  }

  /** The driving thread takes as many tasks off the queue as there are answers. */
  function Drain(s: State, answers: seq<bool>): State
    decreases |answers|
  {
    if answers == [] then s else Drain(Turn(s, answers[0]), answers[1..])
  }

  /** A pending task in the queue is polled when its turn comes, at the latest. */
  lemma {:induction false} QueuedTaskIsPolled(s: State, answers: seq<bool>, i: nat)
    requires Inv(s) && s.driver.Pop? && i < |answers| <= |s.work.queue| && StateOf(s.work, s.work.queue[i]).Pending?
    ensures var s' := Drain(s, answers);
            s.work.polls <= s'.work.polls && s.work.queue[i] in s'.work.polls[|s.work.polls|..]
    decreases |answers|
  {
    hide Inv, Turn, StateOf;
    var s1 := Turn(s, answers[0]);
    TurnDoes(s, answers[0]);
    DrainPolls(s1, answers[1..]);
    var s' := Drain(s, answers);
    if s.work.queue[0] == s.work.queue[i] {
      assert s'.work.polls[|s.work.polls|] == s.work.queue[i];
    } else {
      assert s1.work.queue[i - 1] == s.work.queue[i];
      QueuedTaskIsPolled(s1, answers[1..], i - 1);
      var k :| |s1.work.polls| <= k < |s'.work.polls| && s'.work.polls[k] == s.work.queue[i];
      assert s'.work.polls[|s.work.polls|..][k - |s.work.polls|] == s.work.queue[i];
    }
  }

  lemma {:induction false} DrainPolls(s: State, answers: seq<bool>)
    requires Inv(s) && s.driver.Pop? && |answers| <= |s.work.queue|
    ensures s.work.polls <= Drain(s, answers).work.polls
    decreases |answers|
  {
    if answers != [] {
      TurnDoes(s, answers[0]);
      DrainPolls(Turn(s, answers[0]), answers[1..]);
    }
  }

  lemma RunSnoc(es: seq<Event>, e: Event)
    ensures Run(es + [e]) == Apply(Run(es), e)
  {
    assert (es + [e])[..|es|] == es;
  }

  /** The two steps of the driving thread that take it out of a wait that has something to wake it. */
  lemma WaitEnds(s: State)
    requires s.driver.Parked? && (s.loop.posts > 0 || s.loop.wakePending)
    requires s.work.queue != [] || s.loop.posts > 0
    ensures var s' := DriveApply(DriveApply(s, false), false);
            s'.driver == Pop && s'.work == s.work && s'.loop.posts == 0 && s'.schedulers == s.schedulers
  {
  }

  /**
   A task scheduled while the loop waits is polled: its scheduler's call and two steps of the driving thread lead
   to a queue ending in it, and by the end of that queue it has had a poll.
   */
  lemma ScheduledTaskIsPolled(es: seq<Event>, t: nat, task: nat, answers: seq<bool>)
    requires var s := Run(es); s.driver.Parked? && t !in s.schedulers && StateOf(s.work, task).Pending?
    requires |answers| == |Run(es).work.queue| + 1
    ensures var s := Run(es);
            var s' := Run(es + [Schedule(t, task), SchedulerStep(t), SchedulerStep(t), Drive(false), Drive(false)]);
            && s'.driver == Pop && s'.work.queue == s.work.queue + [task] && t !in s'.schedulers
            && s'.work.polls == s.work.polls && task in s'.work.owed
            && s'.work.polls <= Drain(s', answers).work.polls
            && task in Drain(s', answers).work.polls[|s'.work.polls|..]
  {
    hide Drain;
    var s := Run(es);
    RunInv(es);
    var es1 := es + [Schedule(t, task)];
    RunSnoc(es, Schedule(t, task));
    var es2 := es1 + [SchedulerStep(t)];
    RunSnoc(es1, SchedulerStep(t));
    var es3 := es2 + [SchedulerStep(t)];
    RunSnoc(es2, SchedulerStep(t));
    var es4 := es3 + [Drive(false)];
    RunSnoc(es3, Drive(false));
    RunSnoc(es4, Drive(false));
    assert es4 + [Drive(false)] ==
           es + [Schedule(t, task), SchedulerStep(t), SchedulerStep(t), Drive(false), Drive(false)];
    RunInv(es4 + [Drive(false)]);
    hide Run, Inv;
    WaitEnds(Run(es3));
    QueuedTaskIsPolled(Run(es4 + [Drive(false)]), answers, |s.work.queue|);
  }

  /** The main future's waker fired while the loop waits: three steps later it is polled, or a task before it. */
  lemma PostedMainIsPolled(es: seq<Event>)
    requires Run(es).driver.Parked?
    ensures var s := Run(es); var s' := Run(es + [Post, Drive(false), Drive(false), Drive(false)]);
            if s.work.queue == [] then s'.driver == PollMain else s'.driver == Claim(s.work.queue[0])
  {
    var es1 := es + [Post];
    RunSnoc(es, Post);
    var es2 := es1 + [Drive(false)];
    RunSnoc(es1, Drive(false));
    var es3 := es2 + [Drive(false)];
    RunSnoc(es2, Drive(false));
    RunSnoc(es3, Drive(false));
    assert es3 + [Drive(false)] == es + [Post, Drive(false), Drive(false), Drive(false)];
    hide Run;
    WaitEnds(Run(es1));
  }

  /**
   block_on begins by binding its loop, drains the queue, and then polls the main future, which from then on is
   owed no poll until its waker fires again.
   */
  lemma BeforeMain(es: seq<Event>)
    requires Run(es).driver.SetLoop? || (Run(es).driver.Pop? && Run(es).work.queue == []) || Run(es).driver.PollMain?
    ensures var s, s' := Run(es), Run(es + [Drive(false)]);
            && s'.work == s.work && s'.loop.posts == s.loop.posts && s'.loop.fired == s.loop.fired
            && (s.driver.SetLoop? ==> s'.driver == Pop && s'.loop.bound)
            && (s.driver.Pop? ==> s'.driver == PollMain)
            && (s.driver.PollMain? ==> s'.driver == EndMain && !s'.loop.mainOwed)
  {
    RunSnoc(es, Drive(false));
    hide Run;
  }

  /**
   What follows a poll of the main future: ready, the loop is unbound and block_on is over; otherwise it goes
   back to the queue if that has filled or the future's waker has fired, and only otherwise waits.
   */
  lemma AfterMain(es: seq<Event>)
    requires Run(es).driver == EndMain
    ensures var s := Run(es);
            var ready := Run(es + [Drive(true)]);
            var more := Run(es + [Drive(false), Drive(false), Drive(false)]);
            && ready.driver == Finished && !ready.loop.bound && ready.work == s.work
            && (s.work.queue != [] ==> Run(es + [Drive(false), Drive(false)]).driver == Pop)
            && (s.work.queue == [] && s.loop.fired ==> more.driver == Pop && !more.loop.fired)
            && (s.work.queue == [] && !s.loop.fired ==> more.driver == Parked && more.loop.bound == s.loop.bound)
  {
    RunSnoc(es, Drive(true));
    var es1 := es + [Drive(false)];
    RunSnoc(es, Drive(false));
    var es2 := es1 + [Drive(false)];
    RunSnoc(es1, Drive(false));
    RunSnoc(es2, Drive(false));
    assert es2 == es + [Drive(false), Drive(false)];
    assert es2 + [Drive(false)] == es + [Drive(false), Drive(false), Drive(false)];
    hide Run;
  }

  function RunFrom(s: State, es: seq<Event>): State {
    if es == [] then s else Apply(RunFrom(s, es[..|es| - 1]), es[|es| - 1])
  }

  /** Steps of everybody but the driving thread. */
  predicate ByOthers(es: seq<Event>) {
    forall k :: 0 <= k < |es| ==> !es[k].Drive?
  }

  /** They only schedule: the driving thread, the task states and the polls stay, the queue grows at its end. */
  lemma {:induction false} OthersOnlySchedule(s: State, es: seq<Event>)
    requires Inv(s) && ByOthers(es)
    ensures var r := RunFrom(s, es);
            && Inv(r) && r.driver == s.driver && r.work.tasks == s.work.tasks && r.work.polls == s.work.polls
            && s.work.queue <= r.work.queue
  {
    hide Inv, ByOthers;
    if es != [] {
      assert ByOthers(es[..|es| - 1]) && !es[|es| - 1].Drive? by { OthersEarlier(es); }
      OthersOnlySchedule(s, es[..|es| - 1]);
      Step(RunFrom(s, es[..|es| - 1]), es[|es| - 1]);
    }
  }

  lemma OthersEarlier(es: seq<Event>)
    requires ByOthers(es) && es != []
    ensures ByOthers(es[..|es| - 1]) && !es[|es| - 1].Drive?
  {
  }

  /**
   The executor in place.  The first methods are one step each of a scheduling thread, a waker, or the driving
   thread; RunLocalTask is a whole call with the other threads running during the poll.
   */
  class CurrentThreadHandle {
    var runQueue: seq<nat>
    var tasks: map<nat, TaskState>
    var loop: bool
    var wakePending: bool
    var posts: nat
    var fired: bool
    var driver: Driver
    var schedulers: map<nat, Scheduler>
    ghost var owed: set<nat>
    ghost var mainOwed: bool
    ghost var polls: seq<nat>

    ghost function View(): State
      reads this
    {
      State(Work(runQueue, tasks, owed, polls), Loop(loop, wakePending, posts, fired, mainOwed), driver, schedulers)
    }

    constructor ()
      ensures View() == Init
    {
      runQueue, tasks, loop, wakePending, posts, fired := [], map[], false, false, 0, false;
      driver, schedulers, owed, mainOwed, polls := SetLoop, map[], {}, false, [];
    }

    /** schedule by thread t: the push. */
    method PushTask(t: nat, task: nat)
      requires t !in schedulers
      modifies this
      ensures View() == Apply(old(View()), Schedule(t, task))
      ensures runQueue == old(runQueue) + [task] && task in owed && t in schedulers && tasks == old(tasks)
    {
      runQueue := runQueue + [task];
      schedulers := schedulers[t := LoadLoop];
      owed := owed + {task};
    }

    /** schedule by thread t: load the loop pointer, then wake the loop. */
    method Wake(t: nat)
      requires t in schedulers
      modifies this
      ensures View() == Apply(old(View()), SchedulerStep(t)) && runQueue == old(runQueue)
      ensures old(schedulers)[t].WakeLoop? ==> wakePending && t !in schedulers
      ensures old(schedulers)[t].LoadLoop? ==>
                if loop then t in schedulers && schedulers[t].WakeLoop? else t !in schedulers
    {
      if schedulers[t].LoadLoop? {
        schedulers := if loop then schedulers[t := WakeLoop] else schedulers - {t};
      } else {
        wakePending := true;
        schedulers := schedulers - {t};
      }
    }

    /** The main future's waker: post a callback that sets `fired`. */
    method PostFired()
      modifies this
      ensures View() == Apply(old(View()), Post) && posts == old(posts) + 1 && mainOwed
    {
      posts := posts + 1;
      mainOwed := true;
    }

    /** The driving thread's next step outside run_local_task. */
    method Drive(flag: bool)
      requires !driver.Claim? && !driver.EndPoll?
      modifies this
      ensures View() == Apply(old(View()), Event.Drive(flag))
    {
      match driver {
        case SetLoop =>
          loop, driver := true, Pop;
        case Pop =>
          if runQueue == [] {
            driver := PollMain;
          } else {
            driver := Claim(runQueue[0]);
            runQueue := runQueue[1..];
          }
        case PollMain =>
          mainOwed, driver := false, EndMain;
        case EndMain =>
          if flag {
            loop, driver := false, Finished;
          } else {
            driver := CheckQueue;
          }
        case CheckQueue =>
          driver := if runQueue != [] then Pop else ParkCheck;
        case ParkCheck =>
          if !fired && runQueue == [] {
            driver := Parked;
          } else {
            fired, driver := false, Pop;
          }
        case Parked =>
          if posts > 0 || wakePending || flag {
            fired := fired || posts > 0;
            posts, wakePending, driver := 0, false, ParkCheck;
          }
        case Finished =>
        case Claim(_) =>
        case EndPoll(_) =>
      }
    }

    /** run_local_task: claim the task and start its poll. */
    method ClaimTask()
      requires driver.Claim?
      modifies this
      ensures View() == Apply(old(View()), Event.Drive(false))
    {
      var task := driver.task;
      if task !in tasks || tasks[task].Pending? {
        tasks := tasks[task := Running];
        driver, owed, polls := EndPoll(task), owed - {task}, polls + [task];
      } else {
        driver := Pop;
      }
    }

    /** run_local_task: the poll is over. */
    method EndTask(completed: bool)
      requires driver.EndPoll?
      modifies this
      ensures View() == Apply(old(View()), Event.Drive(completed))
    {
      tasks := tasks[driver.task := if completed then Completed else Pending];
      driver := Pop;
    }

    method Access(e: Event)
      requires !e.Drive?
      modifies this
      ensures View() == Apply(old(View()), e)
    {
      match e {
        case Schedule(t, task) => if t !in schedulers { PushTask(t, task); }
        case SchedulerStep(t) => if t in schedulers { Wake(t); }
        case Post => PostFired();
      }
    }

    /** The other threads run. */
    method Others(es: seq<Event>)
      requires Inv(View()) && ByOthers(es)
      modifies this
      ensures Inv(View()) && driver == old(driver) && tasks == old(tasks) && polls == old(polls)
      ensures old(runQueue) <= runQueue
    {
      OthersOnlySchedule(View(), es);
      hide Apply, Inv;
      for k := 0 to |es|
        invariant View() == RunFrom(old(View()), es[..k])
      {
        Access(es[k]);
        assert es[..k + 1][..k] == es[..k];
      }
      assert es[..|es|] == es;
    }

    /**
     run_local_task, with es the steps of other threads during the poll and `ready` what the poll returns.  The
     task is polled exactly if it was pending; woken during that poll, it has completed or is in the queue again.
     */
    method RunLocalTask(ready: bool, es: seq<Event>) returns (ran: bool)
      requires Inv(View()) && driver.Claim? && ByOthers(es)
      modifies this
      ensures Inv(View()) && driver == Pop && old(runQueue) <= runQueue
      ensures ran <==> StateOf(old(View().work), old(driver.task)).Pending?
      ensures polls == old(polls) + if ran then [old(driver.task)] else []
      ensures StateOf(View().work, old(driver.task)) == if ran && !ready then Pending else Completed
      ensures old(driver.task) in owed && ran && !ready ==> old(driver.task) in runQueue
    {
      var task := driver.task;
      assert StateOf(View().work, task).Pending? || StateOf(View().work, task).Completed?;
      Step(View(), Event.Drive(false));
      ClaimTask();
      ran := driver.EndPoll?;
      if ran {
        Others(es);
        Step(View(), Event.Drive(ready));
        EndTask(ready);
        WokenIsQueued(View(), task);
      }
    }

    lemma WokenIsQueued(s: State, task: nat)
      requires Inv(s) && s.driver.Pop?
      ensures task in s.work.owed && !StateOf(s.work, task).Completed? ==> task in s.work.queue
    {
    }
  }
}
