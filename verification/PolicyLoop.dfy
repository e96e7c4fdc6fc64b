/**
 The policy-version loop of the scheduler: which checkpoint to adopt next, the one task that stages
 and applies it, and the commit that makes it current. Waiting for files and the outcome of stage and
 commit are the environment's business here; PolicyRollout plugs the inference pool in.
 */
module PolicyLoop {
  import opened Wrappers

  datatype Mode = Full | Delta

  /** `background` is the background-stage option; otherwise one task stages and commits. */
  datatype Config = Config(mode: Mode, background: bool)

  /** Adopted: the checkpoint is current and the task is dropping stale rollouts before it ends. */
  datatype TaskState = Running | Staged | Failed | Adopted

  datatype Task = Task(step: int, state: TaskState)

  datatype Loop = Loop(step: int, ckptStep: int, task: Option<Task>)

  function Max(a: int, b: int): int { if a >= b then a else b }

  function Min(a: int, b: int): int { if a <= b then a else b }

  function NextCkptStep(cfg: Config, s: Loop, latest: nat): int {
    var target := Max(s.step - 1, latest);
    if cfg.mode == Delta then Min(target, s.ckptStep + 1) else target
  }

  /** Only the staging runs in a background task, so it is done once staged or failed. */
  predicate Done(cfg: Config, task: Task) {
    cfg.background && task.state != Running
  }

  /** The task to wait for: the pending one, unless it is done and for another step. */
  function Pending(cfg: Config, task: Option<Task>, next: int): Task {
    if task.Some? && !(Done(cfg, task.value) && task.value.step != next) then task.value else Task(next, Running)
  }

  /** What a check for a new checkpoint leaves behind. */
  function Check(cfg: Config, s: Loop, latest: nat): Loop {
    var next := NextCkptStep(cfg, s, latest);
    if next <= s.ckptStep then s else s.(task := Some(Pending(cfg, s.task, next)))
  }

  /** The staging half of the task has ended. A failed direct update is over; a failed background stage waits. */
  function FinishStage(cfg: Config, s: Loop, ok: bool): Loop {
    match s.task
    case Some(Task(step, Running)) =>
      if ok then s.(task := Some(Task(step, Staged)))
      else if cfg.background then s.(task := Some(Task(step, Failed)))
      else s.(task := None)
    case _ => s
  }

  /** The commit of a task that ended its staging; `ok` is the commit's own outcome. */
  function FinishCommit(s: Loop, ok: bool): Loop {
    match s.task
    case Some(Task(step, Staged)) =>
      if ok then s.(ckptStep := step, task := Some(Task(step, Adopted))) else s.(task := None)
    case Some(Task(_, Failed)) => s.(task := None)
    case _ => s
  }

  /** The stale rollouts are dropped and the task is over. */
  function FinishTask(s: Loop): Loop {
    if s.task.Some? && s.task.value.state == Adopted then s.(task := None) else s
  }

  /** A pending task leads above the current checkpoint, in delta mode exactly one above, until adopted. */
  predicate Inv(cfg: Config, s: Loop) {
    && s.ckptStep >= 0
    && (s.task.Some? ==>
          var task := s.task.value;
          && (task.state != Adopted ==> task.step > s.ckptStep)
          && (task.state != Adopted && cfg.mode == Delta ==> task.step == s.ckptStep + 1)
          && (task.state == Adopted ==> task.step == s.ckptStep)
          && (task.state == Failed ==> cfg.background))
  }

  /** The version a check asks for: nothing unless something is newer; in delta mode the very next one. */
  function Wanted(cfg: Config, s: Loop, latest: nat): Option<int> {
    if s.step - 1 <= s.ckptStep && latest <= s.ckptStep then None
    else if cfg.mode == Delta then Some(s.ckptStep + 1)
    else Some(if latest >= s.step - 1 then latest else s.step - 1)
  }

  /** A check starts a task exactly when one is wanted and no pending one will do; a running one is never replaced. */
  lemma CheckExactly(cfg: Config, s: Loop, latest: nat)
    ensures var t, wanted := Check(cfg, s, latest), Wanted(cfg, s, latest);
      && t == s.(task := t.task)
      && t.task ==
           if wanted.None? then s.task
           else if s.task.None? then Some(Task(wanted.value, Running))
           else if cfg.background && s.task.value.state != Running && s.task.value.step != wanted.value
           then Some(Task(wanted.value, Running))
           else s.task
  {
  }

  /** The latest broadcast at a look, and how the task awaited behind it turns out. */
  datatype Answer = Answer(latest: nat, stageOk: bool, commitOk: bool)

  function At(answers: nat -> Answer, i: nat): Answer {
    answers(i)
  }

  predicate Fails(answer: Answer) {
    !answer.stageOk || !answer.commitOk
  }

  predicate HasFailed(task: Option<Task>) {
    task.Some? && task.value.state == Failed
  }

  class PolicyLoop {
    const cfg: Config
    var step: int
    var ckptStep: int
    var inflightTask: Option<Task>

    ghost function State(): Loop
      reads this
    {
      Loop(step, ckptStep, inflightTask)
    }

    constructor (cfg: Config)
      ensures this.cfg == cfg && State() == Loop(0, 0, None)
    {
      this.cfg := cfg;
      step, ckptStep, inflightTask := 0, 0, None;
    }

    method ComputeNextCkptStep(latestCkptStep: nat) returns (targetStep: int)
      ensures targetStep == NextCkptStep(cfg, State(), latestCkptStep)
      ensures targetStep <= ckptStep <==> step - 1 <= ckptStep && latestCkptStep <= ckptStep
      ensures cfg.mode == Delta ==> targetStep <= ckptStep + 1
      ensures cfg.mode == Full || (step - 1 <= ckptStep + 1 && latestCkptStep <= ckptStep + 1) ==>
        targetStep >= step - 1 && targetStep >= latestCkptStep && targetStep in {step - 1, latestCkptStep}
      ensures cfg.mode == Delta && (step - 1 > ckptStep || latestCkptStep > ckptStep) ==> targetStep == ckptStep + 1
    {
      targetStep := Max(step - 1, latestCkptStep);
      if cfg.mode == Delta {
        targetStep := Min(targetStep, ckptStep + 1);
      }
    }

    /** The pending background stage if it may still be used, a new one otherwise. */
    method GetOrStartStageTask(nextCkptStep: int) returns (task: Task)
      requires cfg.background
      modifies this`inflightTask
      ensures task == Pending(cfg, old(inflightTask), nextCkptStep) && inflightTask == Some(task)
    {
      if inflightTask.Some? {
        if Done(cfg, inflightTask.value) && inflightTask.value.step != nextCkptStep {
          inflightTask := None;
        } else if inflightTask.value.step == nextCkptStep {
          return inflightTask.value;
        } else if !Done(cfg, inflightTask.value) {
          return inflightTask.value;
        }
      }
      inflightTask := Some(Task(nextCkptStep, Running));
      task := inflightTask.value;
    }

    /** The running direct update, or a new one. */
    method GetOrStartPolicyUpdateTask(nextCkptStep: int) returns (task: Task)
      requires !cfg.background
      modifies this`inflightTask
      ensures task == Pending(cfg, old(inflightTask), nextCkptStep) && inflightTask == Some(task)
    {
      if inflightTask.Some? {
        return inflightTask.value;
      }
      inflightTask := Some(Task(nextCkptStep, Running));
      task := inflightTask.value;
    }

    /** Awaits the pending task to its end: what is left of staging, commit and dropping stale rollouts. */
    method AwaitPendingTask(stageOk: bool, commitOk: bool) returns (raised: bool)
      requires Inv(cfg, State()) && inflightTask.Some?
      modifies this`inflightTask, this`ckptStep
      ensures Inv(cfg, State()) && inflightTask.None?
      ensures raised <==> match old(inflightTask.value.state) {
        case Running => !stageOk || !commitOk
        case Staged => !commitOk
        case Failed => true
        case Adopted => false
      }
      ensures ckptStep == if raised then old(ckptStep) else old(inflightTask.value.step)
      ensures State() == FinishTask(FinishCommit(FinishStage(cfg, old(State()), stageOk), commitOk))
    {
      var task := inflightTask.value;
      if task.state == Running {
        task := Task(task.step, if stageOk then Staged else Failed);
      }
      raised := task.state == Failed || (task.state == Staged && !commitOk);
      if !raised {
        ckptStep := task.step;
      }
      inflightTask := None;
    }

    /**
     Round i of the loop meets answers(i). No checkpoint above `cap` is broadcast while this runs, so it ends.
     Returning from a blocking call leaves the scheduler at most one step ahead of the weights it uses, with
     nothing newer broadcast at the last look; `looks` counts them.
     */
    method MaybeUpdatePolicy(block: bool, answers: nat -> Answer, cap: nat) returns (raised: bool, looks: nat)
      requires Inv(cfg, State())
      requires forall i :: At(answers, i).latest <= cap
      modifies this`inflightTask, this`ckptStep
      ensures Inv(cfg, State())
      ensures ckptStep >= old(ckptStep) && looks >= 1
      ensures !raised && (block || !cfg.background) ==>
        ckptStep >= step - 1 && ckptStep >= At(answers, looks - 1).latest
      ensures !block && cfg.background ==>
        !raised && looks == 1 && State() == Check(cfg, old(State()), At(answers, 0).latest)
      ensures cfg.mode == Delta ==> ckptStep <= Max(old(ckptStep), Max(step - 1, cap))
      ensures raised ==> Fails(At(answers, looks - 1)) || HasFailed(old(inflightTask))
    {
      looks := 0;
      var more := true;
      while more
        invariant Inv(cfg, State())
        invariant ckptStep >= old(ckptStep)
        invariant looks == 0 ==> more && State() == old(State())
        invariant looks > 0 && more ==> inflightTask.None? && (block || !cfg.background)
        invariant looks > 0 && !more && (block || !cfg.background) ==>
          ckptStep >= step - 1 && ckptStep >= At(answers, looks - 1).latest
        invariant looks > 0 && !more && !block && cfg.background ==>
          looks == 1 && State() == Check(cfg, old(State()), At(answers, 0).latest)
        invariant cfg.mode == Delta ==> ckptStep <= Max(old(ckptStep), Max(step - 1, cap))
        decreases more, Max(step - 1, cap) - ckptStep, inflightTask.Some?
      {
        more, raised := UpdateRound(block, At(answers, looks));
        looks := looks + 1;
        if raised {
          return;
        }
      }
      raised := false;
    }

    /** One round: `more` when a task was awaited that did not raise. */
    method UpdateRound(block: bool, answer: Answer) returns (more: bool, raised: bool)
      requires Inv(cfg, State())
      modifies this`inflightTask, this`ckptStep
      ensures Inv(cfg, State())
      ensures more || raised ==>
        inflightTask.None? && (block || !cfg.background) && Wanted(cfg, old(State()), answer.latest).Some?
      ensures raised ==> !more && ckptStep == old(ckptStep) && (Fails(answer) || HasFailed(old(inflightTask)))
      ensures more ==>
        && ckptStep >= old(ckptStep) && (ckptStep > old(ckptStep) || old(inflightTask).Some?)
        && (cfg.mode == Delta ==> ckptStep <= old(ckptStep) + 1)
      ensures !more && !raised ==>
        && State() == Check(cfg, old(State()), answer.latest)
        && (Wanted(cfg, old(State()), answer.latest).Some? ==> !block && cfg.background)
    {
      CheckExactly(cfg, State(), answer.latest);
      var next := ComputeNextCkptStep(answer.latest);
      if next <= ckptStep {
        return false, false;
      }
      if cfg.background {
        var _ := GetOrStartStageTask(next);
        if !block {
          return false, false;
        }
      } else {
        var _ := GetOrStartPolicyUpdateTask(next);
      }
      raised := AwaitPendingTask(answer.stageOk, answer.commitOk);
      more := !raised;
    }
  }

  /* ---------- Every run ---------- */

  datatype Event =
    | SetStep(step: int)
    | NewCheck(latest: nat)
    | StageEnded(ok: bool)
    | CommitEnded(ok: bool)
    | TaskEnded

  function Next(cfg: Config, s: Loop, event: Event): Loop {
    match event
    case SetStep(step) => s.(step := step)
    case NewCheck(latest) => Check(cfg, s, latest)
    case StageEnded(ok) => FinishStage(cfg, s, ok)
    case CommitEnded(ok) => FinishCommit(s, ok)
    case TaskEnded => FinishTask(s)
  }

  function Run(cfg: Config, s: Loop, events: seq<Event>): Loop
    decreases |events|
  {
    if events == [] then s
    else Next(cfg, Run(cfg, s, events[..|events| - 1]), events[|events| - 1])
  }

  /** Only a commit moves the checkpoint, and only forward; in delta mode by exactly one. */
  lemma StepKeepsInv(cfg: Config, s: Loop, event: Event)
    requires Inv(cfg, s)
    ensures Inv(cfg, Next(cfg, s, event))
    ensures var moved := Next(cfg, s, event).ckptStep - s.ckptStep;
      && moved >= 0
      && (moved > 0 ==> event == CommitEnded(true))
      && (cfg.mode == Delta ==> moved <= 1)
  {
  }

  /** The loop after n adoptions of whatever is due, with nothing newer broadcast. */
  function AdoptDue(cfg: Config, s: Loop, latest: nat, n: nat): Loop {
    if n == 0 then s
    else
      var before := AdoptDue(cfg, s, latest, n - 1);
      var next := NextCkptStep(cfg, before, latest);
      if next <= before.ckptStep then before else before.(ckptStep := next)
  }

  /** One adoption catches up in full mode; in delta mode each brings the very next version, until none is due. */
  lemma {:induction false} AdoptingCatchesUp(cfg: Config, s: Loop, latest: nat, n: nat)
    ensures var behind := Max(s.step - 1, latest) - s.ckptStep;
      AdoptDue(cfg, s, latest, n) == s.(ckptStep := s.ckptStep +
        if behind <= 0 || n == 0 then 0 else if cfg.mode == Delta then Min(n, behind) else behind)
  {
    if n > 0 { AdoptingCatchesUp(cfg, s, latest, n - 1); }
  }

  lemma RunFrom(cfg: Config, s: Loop, events: seq<Event>, event: Event)
    ensures Run(cfg, s, events + [event]) == Next(cfg, Run(cfg, s, events), event)
  {
    assert (events + [event])[..|events|] == events;
  }

  /** A step, a check that finds something newer, and a task all of which succeeds: the wanted version is adopted. */
  lemma UpdateGoesThrough(cfg: Config, s: Loop, step: int, latest: nat)
    requires s.task.None? && Wanted(cfg, s.(step := step), latest).Some?
    ensures Run(cfg, s, [SetStep(step), NewCheck(latest), StageEnded(true), CommitEnded(true), TaskEnded])
         == Loop(step, Wanted(cfg, s.(step := step), latest).value, None)
  {
    FiveEvents(cfg, s, SetStep(step), NewCheck(latest), StageEnded(true), CommitEnded(true), TaskEnded);
  }

  lemma FiveEvents(cfg: Config, s: Loop, a: Event, b: Event, c: Event, d: Event, e: Event)
    ensures Run(cfg, s, [a, b, c, d, e])
         == Next(cfg, Next(cfg, Next(cfg, Next(cfg, Next(cfg, s, a), b), c), d), e)
  {
    RunFrom(cfg, s, [], a);
    RunFrom(cfg, s, [] + [a], b);
    RunFrom(cfg, s, [] + [a] + [b], c);
    RunFrom(cfg, s, [] + [a] + [b] + [c], d);
    RunFrom(cfg, s, [] + [a] + [b] + [c] + [d], e);
    OneByOne(a, b, c, d, e);
  }

  lemma OneByOne(a: Event, b: Event, c: Event, d: Event, e: Event)
    ensures [] + [a] + [b] + [c] + [d] + [e] == [a, b, c, d, e]
  {
  }

  /** If the staging or the commit fails the checkpoint stays and the task is gone, to be started anew. */
  lemma FailedUpdateIsForgotten(cfg: Config, s: Loop, step: int, latest: nat, stageOk: bool, commitOk: bool)
    requires s.task.None? && Wanted(cfg, s.(step := step), latest).Some? && !(stageOk && commitOk)
    ensures Run(cfg, s, [SetStep(step), NewCheck(latest), StageEnded(stageOk), CommitEnded(commitOk), TaskEnded])
         == Loop(step, s.ckptStep, None)
  {
    FiveEvents(cfg, s, SetStep(step), NewCheck(latest), StageEnded(stageOk), CommitEnded(commitOk), TaskEnded);
  }

  /** A failed background stage waits to be awaited: until then a check for its step does not start it again. */
  lemma FailedStageWaits(cfg: Config, s: Loop, latest: nat)
    requires cfg.background && s.task.None? && Wanted(cfg, s, latest).Some?
    ensures var failed := FinishStage(cfg, Check(cfg, s, latest), false);
      && failed == s.(task := Some(Task(Wanted(cfg, s, latest).value, Failed)))
      && Check(cfg, failed, latest) == failed
  {
  }

  /** In every run the checkpoint only moves forward, and a pending task always leads further. */
  lemma {:induction false} CkptNeverDecreases(cfg: Config, s: Loop, events: seq<Event>, i: nat)
    requires Inv(cfg, s) && i <= |events|
    ensures Inv(cfg, Run(cfg, s, events))
    ensures Run(cfg, s, events[..i]).ckptStep <= Run(cfg, s, events).ckptStep
    ensures cfg.mode == Delta ==> Run(cfg, s, events).ckptStep - Run(cfg, s, events[..i]).ckptStep <= |events| - i
    decreases |events|
  {
    if i == |events| {
      assert events[..i] == events;
      if events != [] {
        CkptNeverDecreases(cfg, s, events[..|events| - 1], |events| - 1);
        StepKeepsInv(cfg, Run(cfg, s, events[..|events| - 1]), events[|events| - 1]);
      }
    } else {
      var front := events[..|events| - 1];
      CkptNeverDecreases(cfg, s, front, i);
      assert front[..i] == events[..i];
      StepKeepsInv(cfg, Run(cfg, s, front), events[|events| - 1]);
    }
  }
}
