/** Leases over whole runs: a worker writes only in time, and while it is in time nobody takes the run
    from it. */
module RunLeases {
  import opened Base
  import opened Graph
  import opened RunStore
  import RunSafety

  /** The step gives the token the run for so many seconds: a claim, or a renewal. */
  predicate Leases(step: Step, token: Id, seconds: nat) {
    step == Claims(token, seconds) || step == Renews(token, seconds)
  }

  /** The step takes the run from the token: another claim, a cancellation, or its own release. */
  predicate Ends(step: Step, token: Id) {
    step.Claims? || step.Cancels? || step == Releases(token)
  }

  /** The step writes a row on behalf of the token. */
  predicate Writes(step: Step, token: Id) {
    match step
    case Commits(t, _, _, outcome) => t == token && !outcome.RolledBack?
    case Inserts(t, _, _, _, _) => t == token
    case _ => false
  }

  /** Step `i` gave the token the lease it has before step `j`. */
  ghost predicate LeasedBy(trace: seq<Cluster>, steps: seq<Step>, i: nat, j: nat, token: Id, until: Time)
    requires i < j <= |steps| < |trace|
  {
    && (exists seconds :: Leases(steps[i], token, seconds) && until == trace[i].db.now + seconds)
    && forall k :: i < k < j ==> !Ends(steps[k], token)
  }

  ghost predicate LeaseIsFrom(trace: seq<Cluster>, steps: seq<Step>, j: nat)
    requires j <= |steps| < |trace|
  {
    var db := trace[j].db;
    db.token.Some? ==> exists i: nat :: i < j && LeasedBy(trace, steps, i, j, db.token.value, db.leaseUntil)
  }

  /** What a step does to the run's claim. */
  lemma ClaimMoves(c: Cluster, step: Step, c': Cluster)
    requires Next(c, step, c')
    ensures c'.db.token.Some? ==>
              || (c'.db.token == c.db.token && c'.db.leaseUntil == c.db.leaseUntil && !Ends(step, c'.db.token.value))
              || (exists seconds :: Leases(step, c'.db.token.value, seconds) && c'.db.leaseUntil == c.db.now + seconds)
  {
    hide Requested, Unfinished, Committed;
    match step
    case Commits(token, id, next, outcome) => RunSafety.CommitKeepsUsed(c, token, id, next, outcome);
    case Claims(token, seconds) => assert Leases(step, token, seconds);
    case Renews(token, seconds) => assert Leases(step, token, seconds);
    case _ =>
  }

  lemma {:induction false} LeaseComesFrom(trace: seq<Cluster>, steps: seq<Step>, j: nat)
    requires IsRun(trace, steps) && j <= |steps|
    ensures LeaseIsFrom(trace, steps, j)
  {
    if j > 0 {
      hide LeaseIsFrom;
      LeaseComesFrom(trace, steps, j - 1);
      ClaimMoves(trace[j - 1], steps[j - 1], trace[j]);
      hide IsRun;
      LeaseGoesOn(trace, steps, j);
    }
  }

  lemma LeaseGoesOn(trace: seq<Cluster>, steps: seq<Step>, j: nat)
    requires 0 < j <= |steps| < |trace| && LeaseIsFrom(trace, steps, j - 1)
    requires var a, b, step := trace[j - 1].db, trace[j].db, steps[j - 1];
             b.token.Some? ==>
               || (b.token == a.token && b.leaseUntil == a.leaseUntil && !Ends(step, b.token.value))
               || (exists seconds :: Leases(step, b.token.value, seconds) && b.leaseUntil == a.now + seconds)
    ensures LeaseIsFrom(trace, steps, j)
  {
    hide Leases, Ends;
    var a, b := trace[j - 1].db, trace[j].db;
    if b.token.Some? {
      if b.token == a.token && b.leaseUntil == a.leaseUntil && !Ends(steps[j - 1], b.token.value) {
        var i: nat :| i < j - 1 && LeasedBy(trace, steps, i, j - 1, a.token.value, a.leaseUntil);
        assert LeasedBy(trace, steps, i, j, b.token.value, b.leaseUntil);
      } else {
        assert LeasedBy(trace, steps, j - 1, j, b.token.value, b.leaseUntil);
      }
    }
  }

  lemma WriterIsLive(c: Cluster, step: Step, c': Cluster, token: Id)
    requires Next(c, step, c') && Writes(step, token)
    ensures c.db.token == Some(token) && c.db.now < c.db.leaseUntil
  {
    hide Requested, Committed;
  }

  /** A worker writes only in time: every row it writes, it writes before the seconds it asked for in
      its claim or in a renewal are over, and before another claim, a cancellation or its own
      release. */
  lemma WrittenInTime(trace: seq<Cluster>, steps: seq<Step>, j: nat, token: Id)
    requires IsRun(trace, steps) && j < |steps| && Writes(steps[j], token)
    ensures exists i: nat, seconds ::
              && i < j && Leases(steps[i], token, seconds) && trace[j].db.now < trace[i].db.now + seconds
              && forall k :: i < k < j ==> !Ends(steps[k], token)
  {
    LeaseComesFrom(trace, steps, j);
    WriterIsLive(trace[j], steps[j], trace[j + 1], token);
    hide Leases, Ends, IsRun;
    var i: nat :| i < j && LeasedBy(trace, steps, i, j, token, trace[j].db.leaseUntil);
    var seconds :| Leases(steps[i], token, seconds) && trace[j].db.leaseUntil == trace[i].db.now + seconds;
  }

  /** The token holds the run at least until then. */
  predicate Holds(db: Database, token: Id, until: Time) {
    db.token == Some(token) && until <= db.leaseUntil
  }

  lemma HoldsOn(c: Cluster, step: Step, c': Cluster, token: Id, from: Time, seconds: nat)
    requires Next(c, step, c') && Holds(c.db, token, from + seconds) && from <= c.db.now < from + seconds
    requires !step.Cancels? && step != Releases(token)
    requires forall shorter: nat :: step == Renews(token, shorter) ==> seconds <= shorter
    ensures Holds(c'.db, token, from + seconds) && from <= c'.db.now && !step.Claims?
  {
    hide Requested, Committed, Unfinished;
    match step
    case Commits(t, id, next, outcome) => RunSafety.CommitKeepsUsed(c, t, id, next, outcome);
    case _ =>
  }

  lemma Starts(c: Cluster, step: Step, c': Cluster, token: Id, seconds: nat)
    requires Next(c, step, c') && Leases(step, token, seconds)
    requires step.Renews? ==> c.db.token == Some(token) && c.db.now < c.db.leaseUntil
    ensures Holds(c'.db, token, c.db.now + seconds) && c'.db.now == c.db.now
  {
  }

  /** And a worker in time keeps the run: from its claim, or a renewal that found it live, nobody else
      claims the run for the seconds it asked for, unless it is canceled or the worker releases it
      or renews it for less. */
  lemma {:induction false} LiveClaimStays(trace: seq<Cluster>, steps: seq<Step>, i: nat, j: nat, token: Id, seconds: nat)
    requires IsRun(trace, steps) && i < j <= |steps| && Leases(steps[i], token, seconds)
    requires steps[i].Renews? ==> trace[i].db.token == Some(token) && trace[i].db.now < trace[i].db.leaseUntil
    requires forall k :: i < k < j ==> !steps[k].Cancels? && steps[k] != Releases(token)
    requires forall k, s :: i < k < j && steps[k] == Renews(token, s) ==> seconds <= s
    requires trace[j].db.now < trace[i].db.now + seconds
    ensures trace[j].db.token == Some(token) && trace[i].db.now + seconds <= trace[j].db.leaseUntil
    ensures forall k :: i < k < j ==> !steps[k].Claims?
    ensures trace[i].db.now <= trace[j].db.now
  {
    hide Next, Created, Leases;
    RunSafety.RunForward(trace, steps, j - 1, j);
    if i == j - 1 {
      Starts(trace[i], steps[i], trace[j], token, seconds);
    } else {
      LiveClaimStays(trace, steps, i, j - 1, token, seconds);
      HoldsOn(trace[j - 1], steps[j - 1], trace[j], token, trace[i].db.now, seconds);
    }
  }

  // ---- Sessions -------------------------------------------------------------

  /** The claim is used up for loading, and for writing as well if `failed`. */
  predicate Spent(c: Cluster, token: Id, failed: bool) {
    token in c.used && (token in c.sessions ==> c.sessions[token].loaded && (failed ==> c.sessions[token].failed))
  }

  lemma SpentStays(c: Cluster, step: Step, c': Cluster, token: Id, failed: bool)
    requires Next(c, step, c') && Spent(c, token, failed)
    ensures Spent(c', token, failed)
    ensures step != Loads(token) && (failed ==> !(step.Commits? && step.token == token) && !(step.Adds? && step.token == token))
  {
    hide Requested, Fenced, Transition, CanceledGraph, CollapseAll, LoadGraph;
  }

  lemma {:induction false} SpentForever(trace: seq<Cluster>, steps: seq<Step>, i: nat, j: nat, token: Id, failed: bool)
    requires IsRun(trace, steps) && i <= j < |trace| && Spent(trace[i], token, failed)
    ensures Spent(trace[j], token, failed)
  {
    hide Next, Created, Spent;
    if i < j {
      SpentForever(trace, steps, i, j - 1, token, failed);
      SpentStays(trace[j - 1], steps[j - 1], trace[j], token, failed);
    }
  }

  lemma UsedIsKnown(c: Cluster, step: Step, c': Cluster)
    requires Next(c, step, c') && c.sessions.Keys <= c.used
    ensures c'.sessions.Keys <= c'.used
  {
    hide Requested, Fenced, Transition, CanceledGraph, CollapseAll, LoadGraph;
  }

  lemma {:induction false} SessionsAreUsed(trace: seq<Cluster>, steps: seq<Step>, i: nat)
    requires IsRun(trace, steps) && i < |trace|
    ensures trace[i].sessions.Keys <= trace[i].used
  {
    hide Next;
    if i > 0 {
      hide Created;
      SessionsAreUsed(trace, steps, i - 1);
      UsedIsKnown(trace[i - 1], steps[i - 1], trace[i]);
    }
  }

  lemma Spends(c: Cluster, step: Step, c': Cluster)
    requires Next(c, step, c') && c.sessions.Keys <= c.used
    ensures step.Loads? ==> Spent(c', step.token, false)
    ensures step.Commits? && !step.outcome.Acked? ==> Spent(c', step.token, true)
  {
    hide Requested, Fenced, Transition, CanceledGraph, CollapseAll, LoadGraph;
  }

  /** After a transition that was not acknowledged, whether it was committed or not, its worker sends
      none and adds nothing any more; and it loads its graph once. */
  lemma WorkersStopAtAFailure(trace: seq<Cluster>, steps: seq<Step>, i: nat, j: nat)
    requires IsRun(trace, steps) && i < j < |steps|
    ensures steps[i].Commits? && !steps[i].outcome.Acked? ==>
              !(steps[j].Commits? && steps[j].token == steps[i].token) && !(steps[j].Adds? && steps[j].token == steps[i].token)
    ensures steps[i].Loads? ==> steps[j] != steps[i]
  {
    hide Next, Created, Spent;
    SessionsAreUsed(trace, steps, i);
    Spends(trace[i], steps[i], trace[i + 1]);
    if steps[i].Loads? {
      SpentForever(trace, steps, i + 1, j, steps[i].token, false);
      SpentStays(trace[j], steps[j], trace[j + 1], steps[i].token, false);
    }
    if steps[i].Commits? && !steps[i].outcome.Acked? {
      SpentForever(trace, steps, i + 1, j, steps[i].token, true);
      SpentStays(trace[j], steps[j], trace[j + 1], steps[i].token, true);
    }
  }
}
