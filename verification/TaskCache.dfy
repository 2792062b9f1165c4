/** The cache row of one key: who may compute the result, and what is published. */
module TaskCache {
  import opened Base

  /** What an action leaves in the cache: an output, or a failure that may be reused. */
  datatype Result = Output(value: Bytes) | CachedFailure(code: string, details: Bytes)

  datatype Row = Building(token: Id, leaseUntil: Time) | Ready(token: Id, result: Result)

  const LEASE: nat := 30

  /** The database clock, the row of the key if there is one, and two histories: what was
      published, by whom, and what lookups have answered. */
  datatype Cache = Cache(now: Time, row: Option<Row>, published: seq<(Id, Result)>, answers: seq<Result>)

  datatype Step =
    | Tick(later: Time)
    | Claim(owner: Id)
    | Renew(owner: Id)
    | Expire
    | Release(owner: Id)
    | Finish(owner: Id, result: Result)
    | Hit

  /** `owner` holds the row: its token, still building, the lease not over. */
  predicate Holds(c: Cache, owner: Id) {
    c.row.Some? && c.row.value.Building? && c.row.value.token == owner && c.now < c.row.value.leaseUntil
  }

  function Apply(c: Cache, step: Step): Cache {
    match step
    case Tick(later) => c.(now := Max(c.now, later))
    case Claim(owner) => if c.row.None? then c.(row := Some(Building(owner, c.now + LEASE))) else c
    case Renew(owner) => if Holds(c, owner) then c.(row := Some(Building(owner, c.now + LEASE))) else c
    case Expire =>
      if c.row.Some? && c.row.value.Building? && c.row.value.leaseUntil <= c.now then c.(row := None) else c
    case Release(owner) =>
      if c.row.Some? && c.row.value.Building? && c.row.value.token == owner then c.(row := None) else c
    case Finish(owner, result) =>
      if Holds(c, owner) then c.(row := Some(Ready(owner, result)), published := c.published + [(owner, result)]) else c
    case Hit => if c.row.Some? && c.row.value.Ready? then c.(answers := c.answers + [c.row.value.result]) else c
  }

  function Run(c: Cache, steps: seq<Step>): Cache {
    if steps == [] then c else Apply(Run(c, steps[..|steps| - 1]), steps[|steps| - 1])
  }

  function NewCache(now: Time): Cache {
    Cache(now, None, [], [])
  }

  /** Nothing was published and no lookup answered while there is no ready row; otherwise the
      row's result is the only one ever published, and every answer. */
  predicate Inv(c: Cache) {
    if c.row.Some? && c.row.value.Ready? then
      && c.published == [(c.row.value.token, c.row.value.result)]
      && forall i :: 0 <= i < |c.answers| ==> c.answers[i] == c.row.value.result
    else c.published == [] && c.answers == []
  }

  lemma ApplyInv(c: Cache, step: Step)
    requires Inv(c)
    ensures Inv(Apply(c, step))
  {
  }

  lemma {:induction false} RunInv(now: Time, steps: seq<Step>)
    ensures Inv(Run(NewCache(now), steps))
    decreases |steps|
  {
    if steps != [] {
      RunInv(now, steps[..|steps| - 1]);
      ApplyInv(Run(NewCache(now), steps[..|steps| - 1]), steps[|steps| - 1]);
    }
  }

  /** Single publication: over all owners, expiries and releases at most one result is
      published for a key, and every lookup that hits answers with that result. */
  lemma OneResultPerKey(now: Time, steps: seq<Step>)
    ensures var c := Run(NewCache(now), steps);
            && |c.published| <= 1
            && forall i :: 0 <= i < |c.answers| ==> |c.published| == 1 && c.answers[i] == c.published[0].1
  {
    RunInv(now, steps);
  }

  /** Step `i` of a run publishes: the owner holds the row with a live lease and finishes. */
  predicate Publishes(c: Cache, steps: seq<Step>, i: nat, entry: (Id, Result))
    requires i < |steps|
  {
    steps[i] == Finish(entry.0, entry.1) && Holds(Run(c, steps[..i]), entry.0)
  }

  /** What was published over a run is exactly what its holders finished with: nobody else
      publishes anything, and no holder's result is lost. */
  lemma {:induction false} PublishedByHolder(now: Time, steps: seq<Step>, entry: (Id, Result))
    ensures entry in Run(NewCache(now), steps).published <==>
              exists i: nat :: i < |steps| && Publishes(NewCache(now), steps, i, entry)
    decreases |steps|
  {
    if steps != [] {
      var n := |steps| - 1;
      var before := steps[..n];
      PublishedByHolder(now, before, entry);
      forall i: nat | i < n ensures Publishes(NewCache(now), steps, i, entry) <==> Publishes(NewCache(now), before, i, entry) {
        assert before[..i] == steps[..i];
      }
      var c := Run(NewCache(now), before);
      hide Run;
      assert Run(NewCache(now), steps) == Apply(c, steps[n]) by { RunOnce(NewCache(now), steps); }
      assert entry in Apply(c, steps[n]).published <==> entry in c.published || Publishes(NewCache(now), steps, n, entry);
    }
  }

  lemma RunOnce(c: Cache, steps: seq<Step>)
    requires steps != []
    ensures Run(c, steps) == Apply(Run(c, steps[..|steps| - 1]), steps[|steps| - 1])
  {
  }

  /** Once ready, the row never changes. */
  lemma {:induction false} ReadyStays(c: Cache, steps: seq<Step>)
    requires c.row.Some? && c.row.value.Ready?
    ensures Run(c, steps).row == c.row && Run(c, steps).published == c.published
    decreases |steps|
  {
    if steps != [] { ReadyStays(c, steps[..|steps| - 1]); }
  }

  /** An owner that has lost the row: someone else's, expired, released or ready. */
  predicate Lost(c: Cache, owner: Id) {
    !Holds(c, owner)
  }

  /** The step is a new claim by the owner. Owners are fresh for every lookup, so a lost owner
      does not claim again. */
  predicate Claims(step: Step, owner: Id) {
    step.Claim? && step.owner == owner
  }

  /** An owner that has lost its row, and does not claim anew, publishes nothing any more. */
  lemma {:induction false} LostOwnerIsFenced(c: Cache, steps: seq<Step>, owner: Id)
    requires Lost(c, owner) && forall i :: 0 <= i < |steps| ==> !Claims(steps[i], owner)
    ensures Lost(Run(c, steps), owner)
    ensures forall result :: Apply(Run(c, steps), Finish(owner, result)) == Run(c, steps)
    decreases |steps|
  {
    if steps != [] { LostOwnerIsFenced(c, steps[..|steps| - 1], owner); }
  }

  predicate ReadyIn(c: Cache) {
    c.row.Some? && c.row.value.Ready?
  }

  /** The row is being computed under the owner's token. */
  predicate OwnedBy(c: Cache, owner: Id) {
    c.row.Some? && c.row.value.Building? && c.row.value.token == owner
  }

  // ---- Leases ---------------------------------------------------------------

  function At(now: Time, steps: seq<Step>, i: nat): Cache
    requires i <= |steps|
  {
    Run(NewCache(now), steps[..i])
  }

  lemma AtNext(now: Time, steps: seq<Step>, i: nat)
    requires i < |steps|
    ensures At(now, steps, i + 1) == Apply(At(now, steps, i), steps[i])
  {
    assert steps[..i + 1][..i] == steps[..i];
  }

  /** Step `k` claims the row for the owner, or renews its claim. */
  predicate Leases(steps: seq<Step>, k: nat, owner: Id)
    requires k < |steps|
  {
    steps[k] == Claim(owner) || steps[k] == Renew(owner)
  }

  ghost predicate LeasedUntil(now: Time, steps: seq<Step>, i: nat, owner: Id, until: Time)
    requires i <= |steps|
  {
    exists k: nat :: k < i && Leases(steps, k, owner) && until == At(now, steps, k).now + 30
  }

  lemma {:induction false} LeaseIsFrom(now: Time, steps: seq<Step>, i: nat)
    requires i <= |steps|
    ensures var row := At(now, steps, i).row;
            row.Some? && row.value.Building? ==> LeasedUntil(now, steps, i, row.value.token, row.value.leaseUntil)
  {
    if i > 0 {
      LeaseIsFrom(now, steps, i - 1);
      AtNext(now, steps, i - 1);
      hide Run;
      var c, c' := At(now, steps, i - 1), At(now, steps, i);
      if c'.row.Some? && c'.row.value.Building? && c'.row != c.row {
        assert Leases(steps, i - 1, c'.row.value.token) && c'.row.value.leaseUntil == c.now + 30;
      }
    }
  }

  /** Nobody publishes late: whatever a step publishes is what an owner finishes with, less than 30
      seconds after that owner's claim or a renewal of it. */
  lemma PublishedInTime(now: Time, steps: seq<Step>, i: nat)
    requires i < |steps| && At(now, steps, i + 1).published != At(now, steps, i).published
    ensures exists owner, result, k: nat ::
              && steps[i] == Finish(owner, result) && k < i && Leases(steps, k, owner)
              && At(now, steps, i).now < At(now, steps, k).now + 30
              && At(now, steps, i + 1).published == At(now, steps, i).published + [(owner, result)]
  {
    LeaseIsFrom(now, steps, i);
    AtNext(now, steps, i);
    hide Run;
    var owner, result := steps[i].owner, steps[i].result;
    var k: nat :| k < i && Leases(steps, k, owner) && At(now, steps, i).row.value.leaseUntil == At(now, steps, k).now + 30;
    assert steps[i] == Finish(owner, result);
  }

  /** A claim whose lease is over holds nobody up: the row is swept away and taken anew. */
  lemma LapsedClaimIsTakenOver(c: Cache, other: Id, owner: Id)
    requires OwnedBy(c, other) && c.row.value.leaseUntil <= c.now
    ensures Apply(Apply(c, Expire), Claim(owner)).row == Some(Building(owner, c.now + 30))
  {
  }

  /** The owner gives its claim up: it releases it or finishes. */
  predicate GivesUp(step: Step, owner: Id) {
    (step.Release? || step.Finish?) && step.owner == owner
  }

  /** A claim that takes the row, or a renewal by its holder. */
  predicate TakesRow(c: Cache, step: Step, owner: Id) {
    || (step == Claim(owner) && c.row.None?)
    || (step == Renew(owner) && OwnedBy(c, owner) && c.now < c.row.value.leaseUntil)
  }

  /** One step of anyone leaves a live claim alone. */
  lemma LiveStep(c: Cache, step: Step, owner: Id, from: Time)
    requires OwnedBy(c, owner) && from <= c.now && from + 30 <= c.row.value.leaseUntil
    requires Apply(c, step).now < from + 30 && !GivesUp(step, owner)
    ensures var c' := Apply(c, step);
            OwnedBy(c', owner) && from <= c'.now && from + 30 <= c'.row.value.leaseUntil && c'.published == c.published && c'.answers == c.answers
  {
  }

  /** A claim is exclusive while it is less than 30 seconds old: until its owner gives it up, nobody
      else takes the row, expires it or publishes. */
  lemma {:induction false} LiveClaimStays(now: Time, steps: seq<Step>, k: nat, i: nat, owner: Id)
    requires k < i <= |steps| && TakesRow(At(now, steps, k), steps[k], owner)
    requires At(now, steps, i).now < At(now, steps, k).now + 30
    requires forall j :: k < j < i ==> !GivesUp(steps[j], owner)
    ensures var c, c0 := At(now, steps, i), At(now, steps, k);
            && OwnedBy(c, owner) && c0.now <= c.now && c0.now + 30 <= c.row.value.leaseUntil
            && c.published == c0.published && c.answers == c0.answers
  {
    AtNext(now, steps, i - 1);
    hide Run, At, GivesUp, OwnedBy;
    var c := At(now, steps, i - 1);
    if k < i - 1 {
      assert c.now <= Apply(c, steps[i - 1]).now;
      hide Apply, TakesRow;
      LiveClaimStays(now, steps, k, i - 1, owner);
      LiveStep(c, steps[i - 1], owner, At(now, steps, k).now);
    } else {
      assert OwnedBy(Apply(c, steps[k]), owner) by { TakesIt(c, steps[k], owner); }
    }
  }

  lemma TakesIt(c: Cache, step: Step, owner: Id)
    requires TakesRow(c, step, owner)
    ensures OwnedBy(Apply(c, step), owner)
  {
  }

  /** So an owner that finishes in time publishes: its result is the one every later lookup gets. */
  lemma TimelyOwnerPublishes(now: Time, steps: seq<Step>, k: nat, i: nat, owner: Id, result: Result)
    requires k < i < |steps| && TakesRow(At(now, steps, k), steps[k], owner) && steps[i] == Finish(owner, result)
    requires At(now, steps, i).now < At(now, steps, k).now + 30
    requires forall j :: k < j < i ==> !GivesUp(steps[j], owner)
    ensures At(now, steps, |steps|).published == [(owner, result)]
    ensures At(now, steps, |steps|).row == Some(Ready(owner, result))
  {
    LiveClaimStays(now, steps, k, i, owner);
    AtNext(now, steps, i);
    var c := At(now, steps, i + 1);
    assert steps[..i + 1] == steps[..|steps|][..i + 1];
    RunAppends(NewCache(now), steps[..i + 1], steps[i + 1..]);
    assert steps[..i + 1] + steps[i + 1..] == steps[..|steps|];
    ReadyStays(c, steps[i + 1..]);
    RunInv(now, steps[..i + 1]);
  }

  lemma {:induction false} RunAppends(c: Cache, a: seq<Step>, b: seq<Step>)
    ensures Run(c, a + b) == Run(Run(c, a), b)
    decreases |b|
  {
    if b == [] {
      assert a + b == a;
    } else {
      RunAppends(c, a, b[..|b| - 1]);
      assert (a + b)[..|a + b| - 1] == a + b[..|b| - 1];
    }
  }

  // ---- Lookup and Store -----------------------------------------------------

  /** How a lookup ends: a stored result, the right to compute it, the caller's context over, or a
      statement that failed. */
  datatype Answer = Found(result: Result) | Compute | Canceled | DatabaseError

  class Client {
    var cache: Cache
    ghost var history: seq<Step>
    ghost const start: Time

    /** How often a lookup has found the result being computed, or its claim lost to another. */
    ghost var waits: nat

    ghost predicate Valid()
      reads this
    {
      cache == Run(NewCache(start), history)
    }

    constructor (now: Time)
      ensures Valid() && history == []
    {
      cache, history, start, waits := NewCache(now), [], now, 0;
    }

    /** History only grows. */
    twostate predicate Later()
      reads this
    {
      Valid() && |old(history)| <= |history| && history[..|old(history)|] == old(history)
    }

    /** There was a row after the first `i` steps. */
    ghost predicate RowAt(i: nat)
      requires i <= |history|
      reads this
    {
      Run(NewCache(start), history[..i]).row.Some?
    }

    method Take(step: Step)
      requires Valid()
      modifies `cache, `history
      ensures Later() && history == old(history) + [step] && cache == Apply(old(cache), step)
    {
      cache, history := Apply(cache, step), history + [step];
    }

    /** What everyone else does between two statements. Nobody else uses our token. */
    method Others(owner: Id)
      requires Valid()
      modifies `cache, `history
      ensures Later()
      ensures forall i :: |old(history)| <= i < |history| ==> !Claims(history[i], owner)
      ensures ReadyIn(old(cache)) ==> cache.row == old(cache).row
    {
      var rounds: nat := *;
      while rounds > 0
        invariant Later()
        invariant forall i :: |old(history)| <= i < |history| ==> !Claims(history[i], owner)
        invariant ReadyIn(old(cache)) ==> cache.row == old(cache).row
      {
        var step: Step := *;
        if !Claims(step, owner) { Take(step); }
        rounds := rounds - 1;
      }
    }

    /** One look at the row: the answer, or nothing yet because the result is being computed, a
        lapsed claim was to be swept away, or another lookup was faster. */
    method Look(ctx: Context, owner: Id) returns (a: Option<Answer>)
      requires Valid()
      modifies `cache, `history, `waits, ctx`broken
      ensures Later()
      ensures a.Some? && a.value.Found? ==> ReadyIn(cache) && cache.row.value.result == a.value.result
      ensures a.Some? && a.value.Compute? ==> cache.row == Some(Building(owner, cache.now + 30))
      ensures a.Some? && a.value.DatabaseError? ==> ctx.broken
      ensures a != Some(Canceled)
      ensures ReadyIn(old(cache)) ==> a.Some? && !a.value.Compute? && (a.value.Found? ==> cache.row == old(cache).row)
      ensures waits == old(waits) + if a.None? then 1 else 0
      ensures a.None? ==> exists i :: |old(history)| <= i <= |history| && RowAt(i)
    {
      Others(owner);
      var breaks := ctx.MayBreak();
      if breaks { return Some(DatabaseError); }
      var row := cache.row;
      ghost var seen := |history|;
      assert history[..seen] == history;
      if row.Some? && row.value.Ready? {
        Take(Hit);
        return Some(Found(row.value.result));
      }
      if row.None? {
        Others(owner);
        breaks := ctx.MayBreak();
        if breaks { return Some(DatabaseError); }
        if cache.row.None? {
          Take(Claim(owner));
          return Some(Compute);
        }
        seen := |history|;
        assert history[..seen] == history;
      } else {
        var lapsed: bool := *;
        if lapsed {
          Take(Expire);
          breaks := ctx.MayBreak();
          if breaks { return Some(DatabaseError); }
        }
      }
      waits := waits + 1;
      assert RowAt(seen);
      return None;
    }

    /** `Lookup`: reads the row, claims it if there is none, waits for a builder, and sweeps
        lapsed claims away. An answer found is the one result published for the key; the right
        to compute comes with the row holding our token for 30 seconds. A result that is there is
        found unless a statement fails, and a lookup waits until its context is over, but only for a
        row that was there. */
    method Lookup(ctx: Context, owner: Id) returns (a: Answer)
      requires Valid()
      modifies this, ctx
      ensures Later()
      ensures a.Found? ==> ReadyIn(cache) && cache.row.value.result == a.result && cache.published == [(cache.row.value.token, a.result)]
      ensures a.Compute? ==> cache.row == Some(Building(owner, cache.now + 30)) && cache.published == []
      ensures a.DatabaseError? ==> ctx.broken
      ensures a.Canceled? ==> ctx.lives == 0 && exists i :: |old(history)| <= i <= |history| && RowAt(i)
      ensures ReadyIn(old(cache)) ==> a == Found(old(cache).row.value.result) || a.DatabaseError?
      ensures waits == old(waits) + (old(ctx.lives) - ctx.lives) + if a.Canceled? then 1 else 0
    {
      ghost var lives0 := ctx.lives;
      while true
        invariant Later() && (ReadyIn(old(cache)) ==> cache.row == old(cache).row)
        invariant ctx.lives <= lives0 && waits == old(waits) + (lives0 - ctx.lives)
        decreases ctx.lives
      {
        var found := Look(ctx, owner);
        RunInv(start, history);
        if found.Some? { return found.value; }
        if ctx.lives == 0 { return Canceled; }
        ctx.lives := ctx.lives - 1;
      }
    }

    /** `Store`: publishes a result or a reusable failure, and gives the claim up after any
        other error. It succeeds only for the owner whose claim is there and not over. */
    method Store(owner: Id, outcome: Option<Result>) returns (ok: bool)
      requires Valid()
      modifies this
      ensures Later() && waits == old(waits)
      ensures outcome.Some? ==> (ok <==> OwnedBy(old(cache), owner) && old(cache).now < old(cache).row.value.leaseUntil)
      ensures outcome.Some? && ok ==> cache.row == Some(Ready(owner, outcome.value)) && cache.published == [(owner, outcome.value)]
      ensures outcome.Some? && !ok ==> cache == old(cache)
      ensures outcome.None? ==> ok && cache == old(cache).(row := if OwnedBy(old(cache), owner) then None else old(cache).row)
    {
      RunInv(start, history);
      match outcome
      case None =>
        Take(Release(owner));
        return true;
      case Some(result) =>
        ok := Holds(cache, owner);
        Take(Finish(owner, result));
    }
  }
}
