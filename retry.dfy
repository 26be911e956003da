/** The bounded retry loop the hooks repeat around one chain call:
    `let retries = 3; while (retries > 0) { try { ...; break } catch (err) { retries--;
    if (retries === 0) throw err; await delay(1000) } }`,
    as a pure specification over the outcome of each attempt. */
module Retry {
  import opened Js
  import opened Chain

  /** The initial value of `retries`. */
  const MaxAttempts: nat := 3

  /** What one attempt did and how it ended. */
  datatype Attempt<+T> = Attempt(steps: seq<Step>, reply: Reply<T>)

  /** What the whole loop did: every step, the number of attempts made, and the reply of the
      attempt that ended it (the error rethrown after the last failure). */
  datatype Run<+T> = Run(steps: seq<Step>, attempts: nat, result: Reply<T>)

  /** The loop entered with `retries` remaining, attempt `k` being the next one; `op(j)` is what
      attempt `j` does. */
  function RunFrom<T>(op: nat -> Attempt<T>, k: nat, retries: nat): (r: Run<T>)
    requires retries > 0
    ensures 1 <= r.attempts <= retries
    decreases retries
  {
    var a := op(k);
    if a.reply.Ok? || retries == 1 then Run(a.steps, 1, a.reply)
    else
      var rest := RunFrom(op, k + 1, retries - 1);
      Run(a.steps + [Delay] + rest.steps, rest.attempts + 1, rest.result)
  }

  /** The loop as the hooks run it. */
  function Retried<T>(op: nat -> Attempt<T>): Run<T> {
    RunFrom(op, 0, MaxAttempts)
  }

  /** The loop's state after `made` attempts with `steps` taken is on its way to `Retried(op)`. */
  ghost predicate OnTheWay<T>(op: nat -> Attempt<T>, steps: seq<Step>, made: nat, retries: nat)
    requires retries > 0
  {
    && Retried(op).steps == steps + RunFrom(op, made, retries).steps
    && Retried(op).result == RunFrom(op, made, retries).result
  }

  /** An attempt that succeeds, or the last one, ends the loop. */
  lemma LastAttempt<T>(op: nat -> Attempt<T>, steps: seq<Step>, made: nat, retries: nat)
    requires retries > 0 && OnTheWay(op, steps, made, retries)
    requires op(made).reply.Ok? || retries == 1
    ensures Retried(op).steps == steps + op(made).steps && Retried(op).result == op(made).reply
  {
  }

  /** A failed attempt that is not the last is followed by a pause and the next attempt. */
  lemma NextAttempt<T>(op: nat -> Attempt<T>, steps: seq<Step>, made: nat, retries: nat)
    requires retries > 1 && OnTheWay(op, steps, made, retries)
    requires op(made).reply.Fail?
    ensures OnTheWay(op, steps + op(made).steps + [Delay], made + 1, retries - 1)
  {
    var next := RunFrom(op, made + 1, retries - 1);
    assert RunFrom(op, made, retries).steps == op(made).steps + [Delay] + next.steps;
    assert steps + (op(made).steps + [Delay] + next.steps) == (steps + op(made).steps + [Delay]) + next.steps;
  }

  /** The loop itself, over the attempts `op` describes: it returns the steps taken and the reply
      of the attempt that ended it, which after three failures is the error it rethrows. */
  method RetryLoop<T>(op: nat -> Attempt<T>) returns (steps: seq<Step>, result: Reply<T>)
    ensures steps == Retried(op).steps && result == Retried(op).result
  {
    var retries := MaxAttempts;
    var made := 0;
    steps := [];
    while true
      invariant 0 < retries <= MaxAttempts && made + retries == MaxAttempts
      invariant OnTheWay(op, steps, made, retries)
      decreases retries
    {
      var taken, reply := op(made).steps, op(made).reply;
      if reply.Ok? {
        LastAttempt(op, steps, made, retries);
        return steps + taken, reply;
      }
      retries := retries - 1;
      if retries == 0 {
        LastAttempt(op, steps, made, 1);
        return steps + taken, reply;
      }
      NextAttempt(op, steps, made, retries + 1);
      steps := steps + taken + [Delay];
      made := made + 1;
    }
  }

  /** The loop stops at the first attempt that succeeds, or rethrows the error of the last
      attempt once all of them failed. */
  lemma {:induction false} RunShape<T>(op: nat -> Attempt<T>, k: nat, retries: nat)
    requires retries > 0
    ensures var r := RunFrom(op, k, retries);
      && r.result == op(k + r.attempts - 1).reply
      && (forall j :: k <= j < k + r.attempts - 1 ==> op(j).reply.Fail?)
      && (r.result.Fail? ==> r.attempts == retries)
    decreases retries
  {
    if op(k).reply.Fail? && retries > 1 {
      RunShape(op, k + 1, retries - 1);
    }
  }

  /** The loop succeeds exactly when one of the attempts it may make succeeds. */
  lemma RunOkIff<T>(op: nat -> Attempt<T>, k: nat, retries: nat)
    requires retries > 0
    ensures RunFrom(op, k, retries).result.Ok? <==> exists j :: k <= j < k + retries && op(j).reply.Ok?
  {
    var r := RunFrom(op, k, retries);
    RunShape(op, k, retries);
    if r.result.Ok? {
      assert op(k + r.attempts - 1).reply.Ok?;
    }
  }

  /** The steps of the loop end with the steps of its last attempt. */
  lemma {:induction false} RunEndsWith<T>(op: nat -> Attempt<T>, k: nat, retries: nat)
    requires retries > 0
    ensures var r := RunFrom(op, k, retries);
      var last := op(k + r.attempts - 1).steps;
      |last| <= |r.steps| && r.steps[|r.steps| - |last|..] == last
    decreases retries
  {
    if op(k).reply.Fail? && retries > 1 {
      RunEndsWith(op, k + 1, retries - 1);
      var rest := RunFrom(op, k + 1, retries - 1);
      var pre := op(k).steps + [Delay];
      assert RunFrom(op, k, retries).steps == pre + rest.steps;
      var last := op(k + 1 + rest.attempts - 1).steps;
      assert (pre + rest.steps)[|pre + rest.steps| - |last|..] == rest.steps[|rest.steps| - |last|..];
    }
  }

  /** When every successful attempt takes the steps `last`, a successful loop ends with them. */
  lemma RunOkEndsWith<T>(op: nat -> Attempt<T>, k: nat, retries: nat, last: seq<Step>)
    requires retries > 0
    requires forall j :: op(j).reply.Ok? ==> op(j).steps == last
    requires RunFrom(op, k, retries).result.Ok?
    ensures var s := RunFrom(op, k, retries).steps;
      |last| <= |s| && s[|s| - |last|..] == last
  {
    RunShape(op, k, retries);
    RunEndsWith(op, k, retries);
  }

  /** When attempt `k + first` is the first to succeed, the loop makes exactly `first + 1`
      attempts and succeeds. */
  lemma RunFirstOk<T>(op: nat -> Attempt<T>, k: nat, retries: nat, first: nat)
    requires first < retries
    requires op(k + first).reply.Ok?
    requires forall j :: k <= j < k + first ==> op(j).reply.Fail?
    ensures RunFrom(op, k, retries).attempts == first + 1
    ensures RunFrom(op, k, retries).result.Ok?
  {
    RunShape(op, k, retries);
  }

  /** How often `x` occurs in the steps of `n` attempts from attempt `k` on. */
  function AttemptsCount<T>(op: nat -> Attempt<T>, k: nat, n: nat, x: Step): nat
    decreases n
  {
    if n == 0 then 0 else CountOf(op(k).steps, x) + AttemptsCount(op, k + 1, n - 1, x)
  }

  /** Apart from the pauses, the loop takes exactly the steps of the attempts it made. */
  lemma {:induction false} RunCount<T>(op: nat -> Attempt<T>, k: nat, retries: nat, x: Step)
    requires retries > 0 && x != Delay
    ensures var r := RunFrom(op, k, retries);
      CountOf(r.steps, x) == AttemptsCount(op, k, r.attempts, x)
    decreases retries
  {
    var a := op(k);
    if a.reply.Fail? && retries > 1 {
      var rest := RunFrom(op, k + 1, retries - 1);
      RunCount(op, k + 1, retries - 1, x);
      CountOfConcat(a.steps + [Delay], rest.steps, x);
      CountOfConcat(a.steps, [Delay], x);
    } else {
      assert AttemptsCount(op, k + 1, 0, x) == 0;
    }
  }

  /** The loop pauses once between each two consecutive attempts, and at no other time. */
  lemma {:induction false} RunDelays<T>(op: nat -> Attempt<T>, k: nat, retries: nat)
    requires retries > 0
    requires forall j :: Delay !in op(j).steps
    ensures var r := RunFrom(op, k, retries);
      CountOf(r.steps, Delay) == r.attempts - 1
    decreases retries
  {
    var a := op(k);
    CountOfAbsent(a.steps, Delay);
    if a.reply.Fail? && retries > 1 {
      var rest := RunFrom(op, k + 1, retries - 1);
      RunDelays(op, k + 1, retries - 1);
      CountOfConcat(a.steps + [Delay], rest.steps, Delay);
      CountOfConcat(a.steps, [Delay], Delay);
    }
  }

  /** A step that no attempt takes does not occur in the loop. */
  lemma RunAvoids<T>(op: nat -> Attempt<T>, k: nat, retries: nat, x: Step)
    requires retries > 0 && x != Delay
    requires forall j :: k <= j < k + retries ==> x !in op(j).steps
    ensures x !in RunFrom(op, k, retries).steps
  {
    var r := RunFrom(op, k, retries);
    RunCount(op, k, retries, x);
    AttemptsCountZero(op, k, r.attempts, x);
    CountOfAbsent(r.steps, x);
  }

  lemma {:induction false} AttemptsCountZero<T>(op: nat -> Attempt<T>, k: nat, n: nat, x: Step)
    requires forall j :: k <= j < k + n ==> x !in op(j).steps
    ensures AttemptsCount(op, k, n, x) == 0
    decreases n
  {
    if n > 0 {
      CountOfAbsent(op(k).steps, x);
      AttemptsCountZero(op, k + 1, n - 1, x);
    }
  }

  /** A step that every attempt takes exactly once occurs once per attempt. */
  lemma {:induction false} AttemptsCountEach<T>(op: nat -> Attempt<T>, k: nat, n: nat, x: Step)
    requires forall j :: k <= j < k + n ==> CountOf(op(j).steps, x) == 1
    ensures AttemptsCount(op, k, n, x) == n
    decreases n
  {
    if n > 0 {
      AttemptsCountEach(op, k + 1, n - 1, x);
    }
  }

  /** A step every attempt takes exactly once occurs once per attempt made. */
  lemma RunCountEach<T>(op: nat -> Attempt<T>, k: nat, retries: nat, x: Step)
    requires retries > 0 && x != Delay
    requires forall j :: k <= j < k + retries ==> CountOf(op(j).steps, x) == 1
    ensures CountOf(RunFrom(op, k, retries).steps, x) == RunFrom(op, k, retries).attempts
  {
    var r := RunFrom(op, k, retries);
    RunCount(op, k, retries, x);
    AttemptsCountEach(op, k, r.attempts, x);
  }

  /** When every attempt fails with the same error, the loop rethrows it. */
  lemma RunAllFail<T>(op: nat -> Attempt<T>, k: nat, retries: nat, e: Error)
    requires retries > 0
    requires forall j :: k <= j < k + retries ==> op(j).reply == Fail(e)
    ensures RunFrom(op, k, retries).result == Fail(e)
  {
    RunShape(op, k, retries);
  }

  /** How a chain write ends once the loop is over: the error the loop rethrew, or the
      confirmation of the transaction it sent (`await tx.wait()`). */
  datatype Outcome = Outcome(ok: bool, steps: seq<Step>, error: Option<Error>)

  function SentThenConfirmed<T>(run: Run<T>, confirm: Reply<()>): (o: Outcome)
    ensures o.ok <==> run.result.Ok? && confirm.Ok?
    ensures o.ok <==> o.error.None?
    ensures o.steps == if run.result.Ok? then run.steps + [Wait] else run.steps
  {
    if run.result.Fail? then Outcome(false, run.steps, Some(run.result.error))
    else match confirm
      case Fail(e) => Outcome(false, run.steps + [Wait], Some(e))
      case Ok(_) => Outcome(true, run.steps + [Wait], None)
  }

  /** The confirmation adds no step other than `Wait`. */
  lemma ConfirmedCount<T>(run: Run<T>, confirm: Reply<()>, x: Step)
    requires x != Wait
    ensures CountOf(SentThenConfirmed(run, confirm).steps, x) == CountOf(run.steps, x)
  {
    CountOfConcat(run.steps, [Wait], x);
  }

  /** A sent transaction that ends with the steps `last` is followed by its confirmation. */
  lemma ConfirmedEndsWith<T>(run: Run<T>, confirm: Reply<()>, last: seq<Step>)
    requires run.result.Ok? && |last| <= |run.steps| && run.steps[|run.steps| - |last|..] == last
    ensures var s := SentThenConfirmed(run, confirm).steps;
      |s| >= |last| + 1 && s[|s| - |last| - 1..] == last + [Wait]
  {
    var s := run.steps + [Wait];
    assert s[|s| - |last| - 1..] == run.steps[|run.steps| - |last|..] + [Wait];
  }
}
