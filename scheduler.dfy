/** Task chaining: a job's tasks run in order, each called with its own
    arguments followed by the values the previous task returned. */
module Scheduler {
  import opened Wrappers

  /** What a task's func returns: a tuple of values, or None. */
  type Output<V> = Option<seq<V>>

  /** A task: a callable and the positional arguments it is always given. */
  datatype Task<!V> = Task(func: seq<V> -> Output<V>, args: seq<V>)

  /** A job: a cron schedule (used only by the external trigger) and the
      tasks to run in order. */
  datatype Job<!V> = Job(schedule: string, tasks: seq<Task<V>>)

  /** The arguments run_task passes to a task's func: the task's own arguments,
      followed, when there is a previous output, by its elements in order. */
  function TaskArgs<V>(task: Task<V>, previous: Output<V>): (all: seq<V>)
    ensures previous.None? ==> all == task.args
    ensures previous.Some? ==> |all| == |task.args| + |previous.value|
    ensures previous.Some? ==> all[..|task.args|] == task.args && all[|task.args|..] == previous.value
  {
    match previous
    case None => task.args
    case Some(out) => task.args + out
  }

  /** run_task: call the task's func with its arguments and the previous
      output, and return what it returns. */
  function RunTask<V>(task: Task<V>, previous: Output<V>): (output: Output<V>)
    ensures previous.None? ==> output == task.func(task.args)
    ensures previous.Some? ==> output == task.func(task.args + previous.value)
  {
    task.func(TaskArgs(task, previous))
  }

  /** A previous output with no values gives a task the same call as no
      previous output at all. */
  lemma EmptyOutputAddsNothing<V>(task: Task<V>)
    ensures TaskArgs(task, Some([])) == TaskArgs(task, None)
    ensures RunTask(task, Some([])) == RunTask(task, None)
  {
    assert task.args + [] == task.args;
  }

  /** The left fold of f over xs, starting from init. */
  function FoldLeft<A, B>(f: (B, A) -> B, init: B, xs: seq<A>): B
    decreases |xs|
  {
    if xs == [] then init else FoldLeft(f, f(init, xs[0]), xs[1..])
  }

  /** Folding over xs and then ys is folding over xs + ys. */
  lemma {:induction false} FoldLeftConcat<A, B>(f: (B, A) -> B, init: B, xs: seq<A>, ys: seq<A>)
    ensures FoldLeft(f, init, xs + ys) == FoldLeft(f, FoldLeft(f, init, xs), ys)
    decreases |xs|
  {
    if xs != [] {
      assert (xs + ys)[0] == xs[0];
      assert (xs + ys)[1..] == xs[1..] + ys;
      FoldLeftConcat(f, f(init, xs[0]), xs[1..], ys);
    } else {
      assert xs + ys == ys;
    }
  }

  /** One more element is one more application of f. */
  lemma FoldLeftSnoc<A, B>(f: (B, A) -> B, init: B, xs: seq<A>, x: A)
    ensures FoldLeft(f, init, xs + [x]) == f(FoldLeft(f, init, xs), x)
  {
    FoldLeftConcat(f, init, xs, [x]);
    assert [x][1..] == [];
  }

  /** One step of run's loop. */
  function Step<V>(output: Output<V>, task: Task<V>): Output<V> {
    RunTask(task, output)
  }

  /** The output after the first n tasks of a job have run. */
  function OutputAfter<V>(tasks: seq<Task<V>>, n: nat): Output<V>
    requires n <= |tasks|
  {
    FoldLeft(Step, None, tasks[..n])
  }

  /** How run threads outputs: before any task has run there is no output,
      so the first task gets only its own arguments; task i gets its own
      arguments followed by the output of task i - 1; and what run returns is
      the output after the last task. */
  lemma {:induction false} OutputsAreThreaded<V>(tasks: seq<Task<V>>, i: nat)
    requires i < |tasks|
    ensures OutputAfter(tasks, 0) == None
    ensures OutputAfter(tasks, i + 1) == tasks[i].func(TaskArgs(tasks[i], OutputAfter(tasks, i)))
    ensures i == 0 ==> OutputAfter(tasks, 1) == tasks[0].func(tasks[0].args)
    ensures OutputAfter(tasks, |tasks|) == FoldLeft(Step, None, tasks)
  {
    assert tasks[..i + 1] == tasks[..i] + [tasks[i]];
    FoldLeftSnoc(Step, None, tasks[..i], tasks[i]);
    assert tasks[..|tasks|] == tasks;
  }

  /** Running a job whose task list is split in two is running the second
      part with the first part's output as the previous output. */
  lemma RunSplits<V>(first: seq<Task<V>>, second: seq<Task<V>>)
    ensures FoldLeft(Step, None, first + second) == FoldLeft(Step, FoldLeft(Step, None, first), second)
  {
    FoldLeftConcat(Step, None, first, second);
  }

  /** A scheduler bound to one job. When the job runs is decided by an
      external trigger; this model covers what a run does. */
  class Scheduler<V> {
    const job: Job<V>

    constructor (job: Job<V>)
      ensures this.job == job
    {
      this.job := job;
    }

    /** run: thread the output through the job's tasks in order and return
        the last task's output, or None for a job with no tasks. */
    method Run() returns (output: Output<V>)
      ensures output == FoldLeft(Step, None, job.tasks)
      ensures job.tasks == [] ==> output == None
    {
      output := None;
      for i := 0 to |job.tasks|
        invariant output == FoldLeft(Step, None, job.tasks[..i])
      {
        assert job.tasks[..i + 1] == job.tasks[..i] + [job.tasks[i]];
        FoldLeftSnoc(Step, None, job.tasks[..i], job.tasks[i]);
        output := RunTask(job.tasks[i], output);
      }
      assert job.tasks[..|job.tasks|] == job.tasks;
    }
  }
}
