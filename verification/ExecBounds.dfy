/** How often, when and under which numbers a run hands a node to the runner. */
module ExecBounds {
  import opened Base
  import opened Graph
  import opened Exec
  import opened ExecInvariants
  import opened ExecSteps
  import opened ExecRuns

  /** The step hands node `id` to the runner. */
  predicate Hands(s: Exec, step: Step, id: Id) {
    && step.Launch? && At(s, step.t, Acquired) && s.tasks[step.t].node == id
    && s.nodes[id].state.Ready? && !s.loop.ctxDone && Accepted(s, step.ok)
  }

  /** The step ends an attempt of node `id` that will be retried. */
  predicate Retries(s: Exec, step: Step, id: Id) {
    && step.FinishTask? && At(s, step.t, Returned) && s.tasks[step.t].node == id
    && AttemptStands(s, step.t) && OutcomeOf(s, step.t).state.Pending? && Accepted(s, step.ok)
  }

  /** The account of a node moves only when it is handed to the runner or put off. */
  predicate LedgerStep(s: Exec, step: Step, s': Exec, id: Id)
    requires id in s.book.ledger
  {
    && id in s'.book.ledger
    && s'.book.ledger[id].base == s.book.ledger[id].base
    && s'.book.ledger[id].runs == s.book.ledger[id].runs + (if Hands(s, step, id) then 1 else 0)
    && s'.book.ledger[id].notBefore >= s.book.ledger[id].notBefore
  }

  lemma LoopStepKeepsBook(s: Exec, step: Step, s': Exec)
    requires LoopStep(step) && LoopNext(s, step, s')
    ensures s'.book == s.book
  {
  }

  lemma ClockStepKeepsBook(s: Exec, step: Step, s': Exec)
    requires ClockStep(step) && ClockNext(s, step, s')
    ensures s'.book == s.book
  {
  }

  lemma BeginKeepsBook(s: Exec, t: TaskId, ok: bool)
    requires At(s, t, Spawned)
    ensures Begin(s, t, ok).book == s.book
  {
  }

  lemma LookupKeepsBook(s: Exec, t: TaskId, found: Lookup, ok: bool, c: Closing)
    requires At(s, t, LookingUp)
    ensures LookupReturns(s, t, found, ok, c).book == s.book
  {
    hide HitNode;
  }

  lemma ImageKeepsBook(s: Exec, t: TaskId, failure: Option<string>, ok: bool, c: Closing)
    requires At(s, t, Ensuring)
    ensures ImageReturns(s, t, failure, ok, c).book == s.book
  {
    hide ImageFailed;
  }

  lemma EarlyStepKeepsBook(s: Exec, step: Step, s': Exec)
    requires EarlyStep(step) && EarlyNext(s, step, s')
    ensures s'.book == s.book
  {
    hide ClosesBelow, HitNode, ImageFailed, Begin, LookupReturns, ImageReturns;
    if step.BeginTask? { BeginKeepsBook(s, step.t, step.ok); }
    if step.LookedUp? { LookupKeepsBook(s, step.t, step.found, step.ok, step.c); }
    if step.Ensured? { ImageKeepsBook(s, step.t, step.imageFailure, step.ok, step.c); }
  }

  lemma DispatchKeepsLedger(s: Exec, step: Step, s': Exec)
    requires DispatchStep(step) && DispatchNext(s, step, s')
    ensures s'.book.ledger == s.book.ledger
  {
  }

  lemma CallStepKeepsBook(s: Exec, step: Step, s': Exec)
    requires CallStep(step) && CallNext(s, step, s')
    ensures s'.book == s.book
  {
    hide ParentActive, Over, CanUnblock;
  }

  lemma CloseStepKeepsBook(s: Exec, step: Step, s': Exec)
    requires CloseStep(step) && CloseNext(s, step, s')
    ensures s'.book == s.book
  {
    hide ClosesBelow, ClosingPossible, Descendants;
  }

  lemma LaunchLedger(s: Exec, t: TaskId, ok: bool, id: Id)
    requires At(s, t, Acquired) && id in s.book.ledger
    ensures LedgerStep(s, Launch(t, ok), StartAttempt(s, t, ok), id)
  {
  }

  /** A node whose attempt is in progress is past its earliest retry time. */
  lemma UnderwayIsDue(s: Exec, t: TaskId)
    requires Inv(s) && At(s, t, Returned) && AttemptStands(s, t)
    ensures s.tasks[t].node in s.book.ledger && s.book.ledger[s.tasks[t].node].notBefore <= s.loop.now
  {
    assert TaskOk(s, t);
  }

  lemma LateStepLedger(s: Exec, step: Step, s': Exec, id: Id)
    requires Inv(s) && LateStep(step) && LateNext(s, step, s') && id in s.book.ledger
    ensures LedgerStep(s, step, s', id)
  {
    hide Inv, StartAttempt, Finish, ClosesBelow, OutcomeOf;
    match step
    case Launch(t, ok) => LaunchLedger(s, t, ok, id);
    case FinishTask(t, ok, c) =>
      if AttemptStands(s, t) { UnderwayIsDue(s, t); }
      FinishLedger(s, t, ok, c, id);
    case _ =>
  }

  lemma RetryTime(s: Exec, t: TaskId)
    requires At(s, t, Returned) && OutcomeOf(s, t).state.Pending?
    ensures AttemptStands(s, t) ==> OutcomeOf(s, t).nextAttemptAt == s.loop.now + Backoff(s.nodes[s.tasks[t].node].failures + 1)
  {
  }

  lemma CommitKeepsBook(s: Exec, id: Id, next: Node, ok: bool, c: Closing)
    ensures CommitAndClose(s, id, next, ok, c, "parent action completed").book == s.book
  {
  }

  lemma FinishLedger(s: Exec, t: TaskId, ok: bool, c: Closing, id: Id)
    requires At(s, t, Returned) && id in s.book.ledger
    requires AttemptStands(s, t) && s.tasks[t].node == id ==> s.book.ledger[id].notBefore <= s.loop.now
    ensures var s' := Finish(s, t, ok, c);
            && id in s'.book.ledger
            && s'.book.ledger[id].base == s.book.ledger[id].base
            && s'.book.ledger[id].runs == s.book.ledger[id].runs
            && s'.book.ledger[id].notBefore >= s.book.ledger[id].notBefore
  {
    hide AttemptStands, OutcomeOf;
    if AttemptStands(s, t) {
      var node, next := s.tasks[t].node, OutcomeOf(s, t);
      if next.state.Pending? { RetryTime(s, t); }
      CommitKeepsBook(Leave(s, t), node, next, ok, c);
    }
    hide CommitAndClose;
  }

  lemma StepLedger(s: Exec, step: Step, s': Exec, id: Id)
    requires Inv(s) && Next(s, step, s') && id in s.book.ledger
    ensures LedgerStep(s, step, s', id)
  {
    hide Inv, LoopNext, ClockNext, DispatchNext, EarlyNext, LateNext, CallNext, CloseNext, AddNext;
    if LoopStep(step) { LoopStepKeepsBook(s, step, s'); }
    else if ClockStep(step) { ClockStepKeepsBook(s, step, s'); }
    else if DispatchStep(step) { DispatchKeepsLedger(s, step, s'); }
    else if EarlyStep(step) { EarlyStepKeepsBook(s, step, s'); }
    else if LateStep(step) { LateStepLedger(s, step, s', id); }
    else if CallStep(step) { CallStepKeepsBook(s, step, s'); }
    else if CloseStep(step) { CloseStepKeepsBook(s, step, s'); }
    else { AddLedger(s, step, s', id); }
  }

  lemma AddLedger(s: Exec, step: Step, s': Exec, id: Id)
    requires Inv(s) && AddStep(step) && AddNext(s, step, s') && id in s.book.ledger
    ensures id in s'.book.ledger && s'.book.ledger[id] == s.book.ledger[id]
  {
    assert id in s.nodes;
  }

  // ---- Counting over a run --------------------------------------------------

  /** How often steps `lo` to `hi` of the run hand node `id` to the runner. */
  function Handed(trace: seq<Exec>, steps: seq<Step>, id: Id, lo: nat, hi: nat): nat
    requires hi <= |steps| < |trace|
    decreases hi
  {
    if hi <= lo then 0
    else Handed(trace, steps, id, lo, hi - 1) + (if Hands(trace[hi - 1], steps[hi - 1], id) then 1 else 0)
  }

  /** Node `id` is part of the graph from state `first` on, not before. */
  predicate Arrives(trace: seq<Exec>, id: Id, first: nat) {
    first < |trace| && id in trace[first].nodes && (first == 0 || id !in trace[first - 1].nodes)
  }

  lemma ArrivalLedger(trace: seq<Exec>, steps: seq<Step>, id: Id, first: nat)
    requires GoodRun(trace, steps) && Arrives(trace, id, first)
    ensures id in trace[first].book.ledger && trace[first].book.ledger[id] == NewLedger(trace[first].nodes[id])
  {
    hide Inv, Next, Tree;
    FirstState(trace, steps);
    if first > 0 {
      NthStep(trace, steps, first - 1);
      RunInv(trace, steps, first - 1);
      StepKept(trace[first - 1], steps[first - 1], trace[first]);
      AddedLedger(trace[first - 1], steps[first - 1], trace[first], id);
    }
  }

  lemma AddedLedger(s: Exec, step: Step, s': Exec, id: Id)
    requires Next(s, step, s') && step.AddNode? && id !in s.nodes && id in s'.nodes
    ensures id in s'.book.ledger && s'.book.ledger[id] == NewLedger(s'.nodes[id])
  {
    hide Next;
    AddIs(s, step, s');
  }

  /** The account equals the count of hand-overs, over the failures the node came with. */
  lemma {:induction false} LedgerCounts(trace: seq<Exec>, steps: seq<Step>, id: Id, first: nat, i: nat)
    requires first <= i <= |steps| && |steps| < |trace| && GoodRun(trace, steps) && Arrives(trace, id, first)
    ensures id in trace[i].book.ledger
    ensures trace[i].book.ledger[id].base == trace[first].nodes[id].failures
    ensures trace[i].book.ledger[id].runs == Handed(trace, steps, id, first, i)
  {
    hide Inv, Next, GoodRun, Hands;
    FirstState(trace, steps);
    if i == first {
      ArrivalLedger(trace, steps, id, first);
    } else {
      LedgerCounts(trace, steps, id, first, i - 1);
      RunInv(trace, steps, i - 1);
      NthStep(trace, steps, i - 1);
      StepLedger(trace[i - 1], steps[i - 1], trace[i], id);
    }
  }

  /** What a node was created with never changes. */
  lemma {:induction false} RunKeepsSpec(trace: seq<Exec>, steps: seq<Step>, id: Id, i: nat, j: nat)
    requires GoodRun(trace, steps) && i <= j < |trace| && id in trace[i].nodes
    ensures id in trace[j].nodes && trace[j].nodes[id].spec == trace[i].nodes[id].spec
    ensures trace[j].nodes[id].attempt >= trace[i].nodes[id].attempt
    ensures trace[j].nodes[id].failures >= trace[i].nodes[id].failures
  {
    hide Inv, Next, GoodRun;
    FirstState(trace, steps);
    if i < j {
      RunKeepsSpec(trace, steps, id, i, j - 1);
      RunInv(trace, steps, j - 1);
      NthStep(trace, steps, j - 1);
      StepKept(trace[j - 1], steps[j - 1], trace[j]);
    }
  }

  lemma AccountOf(s: Exec, id: Id)
    requires Inv(s) && id in s.nodes
    ensures id in s.book.ledger && AccountOk(s.nodes[id], s.book.ledger[id], s.loop.now)
  {
  }

  /** Bounded retries: a node that comes with fewer failures than its limit is handed to the
      runner at most as often as failures are left, and its failures never pass the limit. */
  lemma RunBoundsRetries(trace: seq<Exec>, steps: seq<Step>, id: Id, first: nat, i: nat)
    requires first <= i <= |steps| && |steps| < |trace| && GoodRun(trace, steps) && Arrives(trace, id, first)
    requires trace[first].nodes[id].failures < trace[first].nodes[id].Limit()
    ensures id in trace[i].nodes
    ensures Handed(trace, steps, id, first, i) <= trace[first].nodes[id].Limit() - trace[first].nodes[id].failures
    ensures trace[i].nodes[id].failures <= trace[first].nodes[id].Limit()
  {
    hide Inv, GoodRun;
    LedgerCounts(trace, steps, id, first, i);
    RunKeepsSpec(trace, steps, id, first, i);
    RunInv(trace, steps, i);
    AccountOf(trace[i], id);
  }

  /** The step ends the standing attempt of node `id` with failure `f`. */
  predicate Fails(s: Exec, step: Step, id: Id, f: Failure) {
    && step.FinishTask? && At(s, step.t, Returned) && s.tasks[step.t].node == id
    && AttemptStands(s, step.t) && s.tasks[step.t].failure == Some(f) && Accepted(s, step.ok)
  }

  /** The failure may not be retried: it is cacheable, or the last one the node is allowed. */
  predicate Final(n: Node, f: Failure) {
    f.cacheable || n.failures + 1 >= n.Limit()
  }

  lemma FailedNode(s: Exec, step: Step, s': Exec, id: Id, f: Failure)
    requires Next(s, step, s') && Fails(s, step, id, f)
    ensures id in s.nodes && id in s'.nodes
    ensures if Final(s.nodes[id], f) then s'.nodes[id].state.Failed? else s'.nodes[id].state.Pending?
    ensures s'.nodes[id].failures == s.nodes[id].failures + 1 && s'.nodes[id].report.error == f.message
  {
    hide Next;
    LateIs(s, step, s');
    hide ClosesBelow, ExitedTask, Backoff;
    var next := OutcomeOf(s, step.t);
    if !next.state.Pending? { ClosedBelow(s, id, next, step.ok, step.c); }
  }

  /** Closing below a node that has just ended leaves the node as it is. */
  lemma ClosedBelow(s: Exec, id: Id, next: Node, ok: bool, c: Closing)
    requires ClosesBelow(s, id, next, ok, c) && Accepted(s, ok) && next.Terminal()
    ensures id !in c.done
  {
    hide CloseSet;
  }

  lemma TerminalIsNotHanded(s: Exec, step: Step, id: Id)
    requires id in s.nodes && s.nodes[id].Terminal()
    ensures !Hands(s, step, id)
  {
  }

  /** A failed attempt ends its node for good if and only if the failure is cacheable or the last
      one allowed: then the node stays the same failed node in every later state and is never
      handed to the runner again. */
  lemma CacheableFailureIsFinal(trace: seq<Exec>, steps: seq<Step>, i: nat, j: nat, id: Id, f: Failure)
    requires GoodRun(trace, steps) && i < j <= |steps| && |steps| < |trace| && Fails(trace[i], steps[i], id, f)
    ensures id in trace[i].nodes && id in trace[i + 1].nodes
    ensures trace[i + 1].nodes[id].Terminal() <==> Final(trace[i].nodes[id], f)
    ensures trace[i + 1].nodes[id].report.error == f.message
    ensures Final(trace[i].nodes[id], f) ==>
              && trace[i + 1].nodes[id].state.Failed?
              && id in trace[j].nodes && trace[j].nodes[id] == trace[i + 1].nodes[id]
              && (j < |steps| ==> !Hands(trace[j], steps[j], id))
  {
    hide Inv, Next, GoodRun, Fails, Hands, Final;
    NthStep(trace, steps, i);
    FailedNode(trace[i], steps[i], trace[i + 1], id, f);
    if Final(trace[i].nodes[id], f) {
      RunKeepsTerminal(trace, steps, i + 1, j, id);
      if j < |steps| { TerminalIsNotHanded(trace[j], steps[j], id); }
    }
  }

  // ---- When retries start ---------------------------------------------------

  lemma RetryBook(s: Exec, t: TaskId, ok: bool, c: Closing)
    requires At(s, t, Returned) && AttemptStands(s, t) && OutcomeOf(s, t).state.Pending? && Accepted(s, ok)
    ensures Finish(s, t, ok, c).book.ledger == Postponed(s.book.ledger, s.tasks[t].node, OutcomeOf(s, t).nextAttemptAt)
  {
    hide OutcomeOf, AttemptStands;
  }

  lemma RetryPutsOff(s: Exec, step: Step, s': Exec, id: Id)
    requires Inv(s) && Next(s, step, s') && Retries(s, step, id)
    ensures id in s'.book.ledger && id in s.nodes
    ensures s'.book.ledger[id].notBefore == s.loop.now + Backoff(s.nodes[id].failures + 1)
  {
    hide Inv, Next, AccountOk;
    AccountOf(s, id);
    LateIs(s, step, s');
    RetryTime(s, step.t);
    hide ClosesBelow, OutcomeOf, AttemptStands;
    RetryBook(s, step.t, step.ok, step.c);
  }

  lemma {:induction false} NotBeforeGrows(trace: seq<Exec>, steps: seq<Step>, id: Id, i: nat, j: nat)
    requires GoodRun(trace, steps) && i <= j < |trace| && id in trace[i].book.ledger
    ensures id in trace[j].book.ledger && trace[j].book.ledger[id].notBefore >= trace[i].book.ledger[id].notBefore
  {
    hide Inv, Next, GoodRun, Hands;
    FirstState(trace, steps);
    if i < j {
      NotBeforeGrows(trace, steps, id, i, j - 1);
      RunInv(trace, steps, j - 1);
      NthStep(trace, steps, j - 1);
      StepLedger(trace[j - 1], steps[j - 1], trace[j], id);
    }
  }

  /** The delay in nanoseconds: a second after the first failure, twice as much after each further one,
      and never more than 64 seconds. */
  lemma BackoffDoubles(failures: int)
    ensures failures <= 1 ==> Backoff(failures) == 1_000_000_000
    ensures 1 <= failures < 7 ==> Backoff(failures + 1) == 2 * Backoff(failures)
    ensures failures >= 7 ==> Backoff(failures) == 64_000_000_000
  {
    if 1 <= failures < 7 { assert Pow2(failures) == 2 * Pow2(failures - 1); }
    assert Pow2(3) == 8;
  }

  /** A retry never starts before the time of the failure it follows plus the backoff of that
      failure. */
  lemma RunHonorsBackoff(trace: seq<Exec>, steps: seq<Step>, id: Id, i: nat, j: nat)
    requires GoodRun(trace, steps) && i < j < |steps|
    requires Retries(trace[i], steps[i], id) && Hands(trace[j], steps[j], id)
    ensures |trace| == |steps| + 1 && id in trace[i].nodes
    ensures trace[i].loop.now + Backoff(trace[i].nodes[id].failures + 1) <= trace[j].loop.now
  {
    hide Inv, Next, GoodRun, Retries;
    FirstState(trace, steps);
    RunInv(trace, steps, i);
    NthStep(trace, steps, i);
    RetryPutsOff(trace[i], steps[i], trace[i + 1], id);
    NotBeforeGrows(trace, steps, id, i + 1, j);
    RunInv(trace, steps, j);
    AccountOf(trace[j], id);
  }

  // ---- Attempt numbers ------------------------------------------------------

  lemma HandedNumber(s: Exec, step: Step, s': Exec, id: Id)
    requires Inv(s) && Next(s, step, s') && Hands(s, step, id)
    ensures id in s.nodes && id in s'.nodes && s'.nodes[id].attempt == s.nodes[id].attempt + 1
    ensures step.t in s'.tasks && s'.tasks[step.t].number == s'.nodes[id].attempt
  {
    hide Next;
    LateIs(s, step, s');
  }

  /** No attempt number is handed out twice: a later hand-over of a node has a larger number. */
  lemma RunNumbersAttempts(trace: seq<Exec>, steps: seq<Step>, id: Id, i: nat, j: nat)
    requires GoodRun(trace, steps) && i < j < |steps|
    requires Hands(trace[i], steps[i], id) && Hands(trace[j], steps[j], id)
    ensures |trace| == |steps| + 1
    ensures id in trace[i + 1].nodes && id in trace[j + 1].nodes
    ensures trace[i + 1].nodes[id].attempt < trace[j + 1].nodes[id].attempt
  {
    hide Inv, Next, GoodRun, Hands;
    FirstState(trace, steps);
    RunInv(trace, steps, i);
    NthStep(trace, steps, i);
    HandedNumber(trace[i], steps[i], trace[i + 1], id);
    RunKeepsSpec(trace, steps, id, i + 1, j);
    RunInv(trace, steps, j);
    NthStep(trace, steps, j);
    HandedNumber(trace[j], steps[j], trace[j + 1], id);
  }

  /** Attempts of one node never overlap: at every moment at most one goroutine has an attempt
      of it, and that attempt is the one on record. */
  lemma RunNeverOverlapsAttempts(trace: seq<Exec>, steps: seq<Step>, i: nat, t: TaskId, u: TaskId)
    requires GoodRun(trace, steps) && i < |trace|
    requires t in trace[i].tasks && trace[i].tasks[t].Attempting()
    requires u in trace[i].tasks && trace[i].tasks[u].Alive() && trace[i].tasks[u].node == trace[i].tasks[t].node
    ensures t == u && trace[i].tasks[t].node in trace[i].active && trace[i].active[trace[i].tasks[t].node] == t
  {
    hide Next, NodesOk, GoodRun;
    RunInv(trace, steps, i);
    assert TaskOk(trace[i], t) && TaskOk(trace[i], u);
  }
}
