/** A worker's calls for one image key: `ensureImage`, `claimImageBuild` and `buildImage`
    against a table that everyone else keeps changing. */
module ImageWorker {
  import opened Base
  import opened ImageBuild

  /** Some steps lead from one state of the table to the other. */
  ghost predicate Leads(s: Builds, s': Builds) {
    exists trace: seq<Builds>, steps: seq<Step> :: Path(trace, steps, s, s')
  }

  ghost predicate Path(trace: seq<Builds>, steps: seq<Step>, s: Builds, s': Builds) {
    && |trace| == |steps| + 1 && trace[0] == s && trace[|steps|] == s'
    && forall i :: 0 <= i < |steps| ==> Next(trace[i], steps[i], trace[i + 1])
  }

  lemma LeadsNowhere(s: Builds)
    ensures Leads(s, s)
  {
    assert Path([s], [], s, s);
  }

  lemma LeadsOn(s: Builds, m: Builds, step: Step, s': Builds)
    requires Leads(s, m) && Next(m, step, s')
    ensures Leads(s, s')
  {
    hide Next;
    var trace, steps :| Path(trace, steps, s, m);
    assert Path(trace + [s'], steps + [step], s, s');
  }

  lemma LeadsTrans(s: Builds, m: Builds, s': Builds)
    requires Leads(s, m) && Leads(m, s')
    ensures Leads(s, s')
  {
    hide Next;
    var t0, u0 :| Path(t0, u0, s, m);
    var t1, u1 :| Path(t1, u1, m, s');
    var trace, steps := t0 + t1[1..], u0 + u1;
    forall i | 0 <= i < |steps| ensures Next(trace[i], steps[i], trace[i + 1]) {
      if i < |u0| {
        assert Next(t0[i], u0[i], t0[i + 1]);
      } else {
        assert Next(t1[i - |u0|], u1[i - |u0|], t1[i - |u0| + 1]);
      }
    }
    assert Path(trace, steps, s, s');
  }

  /** Along any steps a row stays with its token, and a lease that is over stays over. */
  lemma RowStays(s: Builds, s': Builds, id: Id)
    requires Inv(s) && Leads(s, s') && id in s.rows
    ensures id in s'.rows && s'.rows[id].token == s.rows[id].token
    ensures s.rows[id].leaseUntil <= s.now ==> s'.rows[id].leaseUntil <= s'.now
  {
    hide Next, Inv;
    var trace: seq<Builds>, steps: seq<Step> :| Path(trace, steps, s, s');
    for i := 0 to |steps|
      invariant Inv(trace[i]) && id in trace[i].rows && trace[i].rows[id].token == s.rows[id].token
      invariant s.rows[id].leaseUntil <= s.now ==> trace[i].rows[id].leaseUntil <= trace[i].now
    {
      assert Next(trace[i], steps[i], trace[i + 1]);
      StepInv(trace[i], steps[i], trace[i + 1]);
      TokenStays(trace[i], steps[i], trace[i + 1], id);
      if trace[i].rows[id].leaseUntil <= trace[i].now { ExpiredStays(trace[i], steps[i], trace[i + 1], id); }
    }
  }

  /** What a claim came back with: a row, perhaps owned, or nothing yet because another's is
      building. */
  datatype Claimed = Current(id: Id, row: Row) | Owned(id: Id, row: Row) | NothingYet | ClaimError

  /** How a call ends: the image; the error a build failed with; this builder's lease is over; or
      the caller's context or a statement failed. */
  datatype Result = Image(artifact: Bytes) | Failure(message: string) | LeaseLost | Canceled | DatabaseError

  /** A row a caller waits on: it is building, or it was expired and is to be built anew. */
  predicate Waits(row: Row) {
    row.status.Building? || (row.status.BuildFailed? && row.error == EXPIRED)
  }

  /** What a claim or a look says about the table. */
  ghost predicate Says(s: Builds, c: Claimed, broken: bool) {
    match c
    case Current(id, row) => id in s.rows && s.rows[id] == row && (row.status.Ready? ==> row.artifact in s.returned)
    case Owned(id, row) => id in s.rows && s.rows[id] == row && row.status.Building?
    case NothingYet => exists id: Id :: BuildingIn(s.rows, id)
    case ClaimError => broken
  }

  class Worker {
    var db: Builds

    /** How often a call has found a build it has to wait for, how often it has claimed the key, and
        how often a build it waited for turned out to be lost. */
    ghost var waits: nat
    ghost var claims: nat
    ghost var losses: nat

    constructor (s: Builds)
      requires Inv(s)
      ensures db == s
    {
      db, waits, claims, losses := s, 0, 0, 0;
    }

    /** The table has moved on by whole steps since the call began. */
    twostate predicate Moved()
      reads this
    {
      Inv(db) && Leads(old(db), db)
    }

    /** One statement of ours, as the step it is. */
    method Take(step: Step, next: Builds)
      requires Inv(db) && Next(db, step, next)
      modifies `db
      ensures Moved() && db == next
    {
      LeadsNowhere(db);
      LeadsOn(db, db, step, next);
      StepInv(db, step, next);
      db := next;
    }

    /** Whatever all the others do between two statements of ours; our own open transaction,
        if any, is ours alone. */
    method Others(mine: Option<Id>)
      requires Inv(db)
      modifies `db
      ensures Moved()
      ensures mine.Some? && mine.value in old(db).claims ==> mine.value in db.claims && db.claims[mine.value] == old(db).claims[mine.value]
    {
      hide Next, Inv;
      ghost var s0 := db;
      LeadsNowhere(db);
      var rounds: nat := *;
      while rounds > 0
        invariant Inv(db) && Leads(s0, db)
        invariant mine.Some? && mine.value in s0.claims ==> mine.value in db.claims && db.claims[mine.value] == s0.claims[mine.value]
      {
        var step: Step, next: Builds := *, *;
        if Next(db, step, next) && (mine.None? || !Touches(step, mine.value)) {
          ghost var s1 := db;
          if mine.Some? { UntouchedStays(db, step, next, mine.value); }
          Take(step, next);
          LeadsTrans(s0, s1, db);
        }
        rounds := rounds - 1;
      }
    }

    /** A statement of ours after whatever the others did. */
    method Then(step: Step, next: Builds, ghost s0: Builds)
      requires Inv(db) && Next(db, step, next) && Leads(s0, db)
      modifies `db
      ensures Inv(db) && Leads(s0, db) && db == next
    {
      ghost var s1 := db;
      Take(step, next);
      LeadsTrans(s0, s1, db);
    }

    method Meanwhile(mine: Option<Id>, ghost s0: Builds)
      requires Inv(db) && Leads(s0, db)
      modifies `db
      ensures Inv(db) && Leads(s0, db) && Leads(old(db), db)
      ensures mine.Some? && mine.value in old(db).claims ==> mine.value in db.claims && db.claims[mine.value] == old(db).claims[mine.value]
    {
      ghost var s1 := db;
      Others(mine);
      LeadsTrans(s0, s1, db);
    }

    /** A statement of ours that began when the table was `before`. */
    method Finishes(step: Step, next: Builds, ghost before: Builds, ghost s0: Builds)
      requires Inv(db) && Next(db, step, next) && Leads(before, db) && Leads(s0, before)
      modifies `db
      ensures Inv(db) && Leads(s0, db) && Leads(before, db) && db == next
    {
      Then(step, next, before);
      LeadsTrans(s0, before, db);
    }

    /** `ExpireImageBuilds` inside the claim transaction; false if the wait for a lock is given
        up. */
    method ExpireLapsed(ctx: Context, x: Id, ghost s0: Builds) returns (ok: bool)
      requires Inv(db) && Leads(s0, db) && At(db, x, Opened)
      modifies `db, ctx`broken
      ensures Inv(db) && Leads(s0, db) && (if ok then At(db, x, Swept) else ctx.broken)
    {
      hide Inv, Leads;
      if id :| id in db.rows && Lapsed(db.rows[id], db.claims[x].start) {
        if LockedByOther(db, x, id) {
          ctx.Break();
          return false;
        }
        Then(ExpireOne(x, id), db.(claims := db.claims[x := db.claims[x].(expired := Some(id), stage := Swept)]), s0);
      } else {
        Then(ExpireNone(x), SetStage(db, x, Swept), s0);
      }
      ok := true;
    }

    /** `LatestImageBuild` and the return of a ready or running build. */
    method LookAtLatest(x: Id, ghost s0: Builds) returns (c: Option<Claimed>)
      requires Inv(db) && Leads(s0, db) && At(db, x, Swept)
      modifies `db
      ensures Inv(db) && Leads(s0, db)
      ensures c.None? ==> At(db, x, MayInsert)
      ensures c.Some? ==> c.value.Current? && Says(db, c.value, false) && !c.value.row.status.BuildFailed?
      ensures c.None? <==> forall id :: IsLatest(old(Visible(db, x)), id) ==> old(Visible(db, x))[id].status.BuildFailed?
    {
      hide Inv, Leads;
      var visible := Visible(db, x);
      if id :| id in visible && IsLatest(visible, id) && !visible[id].status.BuildFailed? {
        var row := visible[id];
        Then(FoundCurrent(x, id), if row.status.Ready? then Return(Committed(db, x), row.artifact) else Committed(db, x), s0);
        return Some(Current(id, row));
      }
      Then(FoundNoCurrent(x), SetStage(db, x, MayInsert), s0);
      return None;
    }

    /** The check for a build that became ready while this one waited to insert its row. */
    method CheckReady(x: Id, id: Id, row: Row, ghost s0: Builds) returns (c: Claimed)
      requires Inv(db) && Leads(s0, db) && At(db, x, Inserted(id, row)) && row.status.Building?
      modifies `db
      ensures Inv(db) && Leads(s0, db)
      ensures ((c.Current? && c.row.status.Ready?) || c == Owned(id, row)) && Says(db, c, false)
    {
      hide Inv, Leads;
      if ready :| ready in db.rows && db.rows[ready].status.Ready? {
        ReadyVisible(db, x, ready);
        hide Visible;
        var found := db.rows[ready];
        Then(FoundReady(x, ready), Return(Committed(db, x), found.artifact), s0);
        return Current(ready, found);
      }
      hide Visible;
      Then(FoundNoReady(x), SetStage(db, x, Checked(id, row)), s0);
      Meanwhile(Some(x), s0);
      Then(CommitClaim(x), Committed(db, x), s0);
      return Owned(id, row);
    }

    /** `InsertImageBuild` and the check for a build that became ready while it waited. */
    method InsertAndCheck(ctx: Context, x: Id, id: Id, token: Id, ghost s0: Builds) returns (c: Claimed)
      requires Inv(db) && Leads(s0, db) && At(db, x, MayInsert)
      modifies `db, ctx`broken
      ensures Inv(db) && Leads(s0, db) && Says(db, c, ctx.broken)
      ensures c.Owned? ==> c.row.token == token
      ensures c.Current? ==> !c.row.status.BuildFailed?
    {
      hide Inv, Leads, Visible;
      if other :| other in db.rows && Taken(db, x, other) {
        if LockedByOther(db, x, other) {
          ctx.Break();
          return ClaimError;
        }
        TakenVisible(db, x, other);
        Then(InsertConflicts(x, other), Committed(db, x), s0);
        return NothingYet;
      }
      if InsertWaits(db, x) || id in db.rows {
        ctx.Break();
        return ClaimError;
      }
      var row := Row(Building, token, db.claims[x].start + LEASE, [], "", db.inserted);
      Then(Insert(x, id, token), SetStage(db, x, Inserted(id, row)).(inserted := db.inserted + 1), s0);
      Meanwhile(Some(x), s0);
      c := CheckReady(x, id, row, s0);
    }

    /** `claimImageBuild`. Others run between any two of its statements. */
    method ClaimImageBuild(ctx: Context, ghost s0: Builds) returns (c: Claimed)
      requires Inv(db) && Leads(s0, db)
      modifies `db, ctx`broken
      ensures Inv(db) && Leads(s0, db) && Says(db, c, ctx.broken)
      ensures c.Current? ==> !c.row.status.BuildFailed?
    {
      hide Inv, Leads;
      var x: Id, id: Id, token: Id := *, *, *;
      var breaks := ctx.MayBreak();
      if x in db.claims || breaks {
        ctx.Break();
        return ClaimError;
      }
      Then(BeginClaim(x), db.(claims := db.claims[x := Claim(db.now, None, Opened)]), s0);
      Meanwhile(Some(x), s0);
      var swept := ExpireLapsed(ctx, x, s0);
      if !swept {
        Rollback(x, s0);
        return ClaimError;
      }
      Meanwhile(Some(x), s0);
      var current := LookAtLatest(x, s0);
      if current.Some? { return current.value; }
      Meanwhile(Some(x), s0);
      c := InsertAndCheck(ctx, x, id, token, s0);
      if c.ClaimError? { Rollback(x, s0); }
    }

    method Rollback(x: Id, ghost s0: Builds)
      requires Inv(db) && Leads(s0, db)
      modifies `db
      ensures Inv(db) && Leads(s0, db) && x !in db.claims
    {
      hide Inv, Leads;
      Then(AbortClaim(x), db.(claims := db.claims - {x}), s0);
    }

    /** `buildImage`: the build runs while others act, and is published or failed exactly if the row
        is still this builder's then. A builder that comes too late changes nothing. */
    method BuildImage(ctx: Context, id: Id, token: Id, ghost s0: Builds) returns (r: Result)
      requires Inv(db) && Leads(s0, db)
      modifies `db, ctx`broken
      ensures Inv(db) && Leads(s0, db) && Leads(old(db), db)
      ensures r.Image? ==> r.artifact in db.returned && ReadyIn(db.rows, id) && db.rows[id].artifact == r.artifact
      ensures r.Failure? ==> id in db.rows && db.rows[id].status.BuildFailed? && db.rows[id].error == r.message
      ensures r.Image? || r.Failure? ==> db.rows[id].token == token && db.now < db.rows[id].leaseUntil
      ensures r.LeaseLost? ==>
                !(id in db.rows && db.rows[id].token == token && db.rows[id].status.Building? && db.now < db.rows[id].leaseUntil)
      ensures r.DatabaseError? ==> ctx.broken
      ensures !r.Canceled?
      ensures id in old(db).rows && old(db).rows[id].leaseUntil <= old(db).now ==> r.LeaseLost? || r.DatabaseError?
    {
      hide Inv, Leads;
      ghost var before := db;
      Meanwhile(None, s0);
      if id in before.rows { RowStays(before, db, id); }
      var built: bool, artifact: Bytes, error: string := *, *, *;
      var breaks := ctx.MayBreak();
      if breaks || Locked(db, id) || (built && artifact == []) {
        ctx.Break();
        return DatabaseError;
      }
      if !Held(db, id, token) { return LeaseLost; }
      if built {
        var ready := db.rows[id].(status := Ready, artifact := artifact, error := "");
        Finishes(Finish(id, token, artifact), Return(db.(rows := db.rows[id := ready]), artifact), before, s0);
        return Image(artifact);
      }
      var failed := db.rows[id].(status := BuildFailed, artifact := [], error := error);
      Finishes(FinishFailed(id, token, error), db.(rows := db.rows[id := failed]), before, s0);
      return Failure(error);
    }

    /** What a caller looks at: the build it has observed, or a claim. */
    method Look(ctx: Context, observed: Option<Id>, ghost s0: Builds) returns (c: Claimed)
      requires Inv(db) && Leads(s0, db) && (observed.Some? ==> observed.value in db.rows)
      modifies `db, `waits, `claims, ctx`broken
      ensures Inv(db) && Leads(s0, db) && Says(db, c, ctx.broken)
      ensures claims == old(claims) + if observed.None? then 1 else 0
      ensures observed.Some? && c.Current? ==> c.id == observed.value
      ensures waits == old(waits) + if c.NothingYet? || (c.Current? && Waits(c.row)) then 1 else 0
    {
      hide Inv, Leads;
      if observed.None? {
        claims := claims + 1;
        c := ClaimImageBuild(ctx, s0);
      } else {
        var breaks := ctx.MayBreak();
        if breaks { return ClaimError; }
        var row := db.rows[observed.value];
        if row.status.Ready? { Then(Observe(observed.value), Return(db, row.artifact), s0); }
        c := Current(observed.value, row);
      }
      if c.NothingYet? || (c.Current? && Waits(c.row)) { waits := waits + 1; }
    }

    /** `ensureImage`: an image it returns is the artifact of the ready row of the key, the one every
        other successful call returns. It ends otherwise only with the error of a failed build, with
        its own lease over, with a statement that failed, or when its context is over; until then it
        waits, each time for a build that is running or was expired, and claims the key anew only when
        the build it waited for is lost. */
    method EnsureImage(ctx: Context) returns (r: Result)
      requires Inv(db)
      modifies this, ctx
      ensures Moved()
      ensures r.Image? ==> r.artifact in db.returned
      ensures r.Image? ==> exists id: Id :: ReadyIn(db.rows, id) && db.rows[id].artifact == r.artifact
      ensures r.Image? ==> db.returned == {r.artifact}
      ensures r.Failure? ==> exists id: Id :: id in db.rows && db.rows[id].status.BuildFailed? && db.rows[id].error == r.message
      ensures r.LeaseLost? ==> exists id: Id :: id in db.rows && (BuildingIn(db.rows, id) ==> db.rows[id].leaseUntil <= db.now)
      ensures r.DatabaseError? ==> ctx.broken
      ensures r.Canceled? ==> ctx.lives == 0
      ensures waits == old(waits) + (old(ctx.lives) - ctx.lives) + if r.Canceled? then 1 else 0
      ensures claims <= old(claims) + 1 + (losses - old(losses)) && losses - old(losses) <= waits - old(waits)
    {
      hide Inv, Leads;
      ghost var s0, lives0 := db, ctx.lives;
      LeadsNowhere(s0);
      var observed: Option<Id> := None;
      while true
        invariant Inv(db) && Leads(s0, db) && (observed.Some? ==> observed.value in db.rows)
        invariant ctx.lives <= lives0 && waits == old(waits) + (lives0 - ctx.lives)
        invariant claims + (if observed.None? then 1 else 0) == old(claims) + 1 + (losses - old(losses))
        invariant old(losses) <= losses && losses - old(losses) <= waits - old(waits)
        decreases ctx.lives
      {
        ghost var before := db;
        Meanwhile(None, s0);
        if observed.Some? { RowStays(before, db, observed.value); }
        var c := Look(ctx, observed, s0);
        match c {
          case ClaimError => return DatabaseError;
          case Owned(id, row) =>
            before := db;
            r := BuildImage(ctx, id, row.token, s0);
            RowStays(before, db, id);
            if r.Image? { ReturnedIsReady(db, r.artifact); }
            return;
          case NothingYet => observed, losses := None, losses + 1;
          case Current(id, row) =>
            if row.status.Ready? {
              ReturnedIsReady(db, row.artifact);
              return Image(row.artifact);
            }
            if row.status.BuildFailed? && row.error != EXPIRED { return Failure(row.error); }
            var lapsed: bool := *;
            if row.status.BuildFailed? || lapsed {
              observed, losses := None, losses + 1;
            } else {
              observed := Some(id);
            }
        }
        if ctx.lives == 0 { return Canceled; }
        ctx.lives := ctx.lives - 1;
      }
    }
  }

  /** The steps of one claim transaction. */
  predicate Touches(step: Step, x: Id) {
    match step
    case BeginClaim(y) => y == x
    case ExpireOne(y, _) => y == x
    case ExpireNone(y) => y == x
    case FoundCurrent(y, _) => y == x
    case FoundNoCurrent(y) => y == x
    case Insert(y, _, _) => y == x
    case InsertConflicts(y, _) => y == x
    case FoundReady(y, _) => y == x
    case FoundNoReady(y) => y == x
    case CommitClaim(y) => y == x
    case AbortClaim(y) => y == x
    case _ => false
  }

  lemma UntouchedStays(s: Builds, step: Step, s': Builds, x: Id)
    requires Next(s, step, s') && !Touches(step, x)
    ensures x in s.claims ==> x in s'.claims && s'.claims[x] == s.claims[x]
  {
    hide Visible, IsLatest, Taken, InsertWaits, LockedByOther, Locked;
  }

  /** A key nobody builds is free: when no build is ready and the only one that runs, if any, is past
      its lease, a caller's transaction expires that one and inserts a build of its own. */
  lemma FreeKeyIsClaimed(s: Builds, x: Id, lapsed: Option<Id>, id: Id, token: Id)
    requires Inv(s) && s.claims == map[] && id !in s.rows && forall a: Id :: !ReadyIn(s.rows, a)
    requires forall a: Id :: BuildingIn(s.rows, a) <==> lapsed == Some(a)
    requires lapsed.Some? ==> lapsed.value in s.rows && s.rows[lapsed.value].leaseUntil <= s.now
    ensures Leads(s, s.(rows := Freed(s.rows, lapsed)[id := Row(Building, token, s.now + 30, [], "", s.inserted)], inserted := s.inserted + 1))
  {
    hide Inv, Leads;
    var s1 := s.(claims := map[x := Claim(s.now, None, Opened)]);
    var s2 := s.(claims := map[x := Claim(s.now, lapsed, Swept)]);
    var s3 := s.(claims := map[x := Claim(s.now, lapsed, MayInsert)]);
    Sweeps(s, s1, s2, x, lapsed);
    AllFailed(s, s2, x, lapsed);
    AllFailed(s, s3, x, lapsed);
    assert s3 == SetStage(s2, x, MayInsert);
    assert Next(s2, FoundNoCurrent(x), s3);
    var s5 := Inserts(s, s3, x, lapsed, id, token);
    assert Next(s, BeginClaim(x), s1);
    assert Next(s5, CommitClaim(x), Committed(s5, x));
    hide Next;
    LeadsNowhere(s);
    LeadsOn(s, s, BeginClaim(x), s1);
    LeadsOn(s, s1, if lapsed.Some? then ExpireOne(x, lapsed.value) else ExpireNone(x), s2);
    LeadsOn(s, s2, FoundNoCurrent(x), s3);
    LeadsTrans(s, s3, s5);
    LeadsOn(s, s5, CommitClaim(x), Committed(s5, x));
  }

  lemma Sweeps(s: Builds, s1: Builds, s2: Builds, x: Id, lapsed: Option<Id>)
    requires s1 == s.(claims := map[x := Claim(s.now, None, Opened)]) && s2 == s.(claims := map[x := Claim(s.now, lapsed, Swept)])
    requires forall a: Id :: BuildingIn(s.rows, a) <==> lapsed == Some(a)
    requires lapsed.Some? ==> lapsed.value in s.rows && s.rows[lapsed.value].leaseUntil <= s.now
    ensures Next(s1, if lapsed.Some? then ExpireOne(x, lapsed.value) else ExpireNone(x), s2)
  {
    if lapsed.None? {
      forall a: Id | a in s.rows ensures !Lapsed(s.rows[a], s.now) { assert !BuildingIn(s.rows, a); }
    } else {
      assert BuildingIn(s.rows, lapsed.value);
    }
  }

  lemma Inserts(s: Builds, s3: Builds, x: Id, lapsed: Option<Id>, id: Id, token: Id) returns (s5: Builds)
    requires s3 == s.(claims := map[x := Claim(s.now, lapsed, MayInsert)]) && id !in s.rows && forall a: Id :: !ReadyIn(s.rows, a)
    requires forall a: Id :: a in Visible(s3, x) ==> Visible(s3, x)[a].status.BuildFailed?
    ensures Leads(s3, s5)
    ensures s5 == s.(claims := map[x := Claim(s.now, lapsed, Checked(id, Row(Building, token, s.now + 30, [], "", s.inserted)))],
                     inserted := s.inserted + 1)
  {
    hide Visible, IsLatest;
    var row := Row(Building, token, s.now + 30, [], "", s.inserted);
    var s4 := s3.(claims := map[x := Claim(s.now, lapsed, Inserted(id, row))], inserted := s.inserted + 1);
    s5 := s4.(claims := map[x := Claim(s.now, lapsed, Checked(id, row))]);
    assert s4 == SetStage(s3, x, Inserted(id, row)).(inserted := s.inserted + 1) && s5 == SetStage(s4, x, Checked(id, row));
    forall a: Id | a in s.rows ensures !s.rows[a].status.Ready? { assert !ReadyIn(s.rows, a); }
    assert Next(s3, Insert(x, id, token), s4) && Next(s4, FoundNoReady(x), s5);
    hide Next;
    LeadsNowhere(s3);
    LeadsOn(s3, s3, Insert(x, id, token), s4);
    LeadsOn(s3, s4, FoundNoReady(x), s5);
  }

  /** The rows with the one that was past its lease failed. */
  function Freed(rows: map<Id, Row>, lapsed: Option<Id>): map<Id, Row>
    requires lapsed.Some? ==> lapsed.value in rows
  {
    if lapsed.None? then rows else rows[lapsed.value := rows[lapsed.value].(status := BuildFailed, error := "build lease expired")]
  }

  lemma AllFailed(s: Builds, m: Builds, x: Id, lapsed: Option<Id>)
    requires m.rows == s.rows && x in m.claims && m.claims[x].expired == lapsed
    requires forall a: Id :: !ReadyIn(s.rows, a)
    requires forall a: Id :: BuildingIn(s.rows, a) <==> lapsed == Some(a)
    ensures forall a: Id :: a in Visible(m, x) ==> Visible(m, x)[a].status.BuildFailed?
  {
    forall a: Id | a in Visible(m, x) ensures Visible(m, x)[a].status.BuildFailed? {
      assert !ReadyIn(s.rows, a) && (BuildingIn(s.rows, a) <==> lapsed == Some(a));
    }
  }

  lemma ReadyVisible(s: Builds, x: Id, id: Id)
    requires Inv(s) && x in s.claims && ReadyIn(s.rows, id) && s.claims[x].stage.Inserted?
    ensures id in Committed(s, x).rows && Committed(s, x).rows[id] == s.rows[id]
  {
    assert ClaimOk(s.rows, s.claims[x]);
  }

  /** A row in the way of an insert is building for everyone. */
  lemma TakenVisible(s: Builds, x: Id, id: Id)
    requires x in s.claims && Taken(s, x, id) && s.claims[x].stage.MayInsert?
    ensures BuildingIn(Committed(s, x).rows, id)
  {
  }

  lemma ReturnedIsReady(s: Builds, artifact: Bytes)
    requires Inv(s) && artifact in s.returned
    ensures exists id: Id :: ReadyIn(s.rows, id) && s.rows[id].artifact == artifact
    ensures s.returned == {artifact}
  {
    var id: Id :| ReadyIn(s.rows, id) && s.rows[id].artifact == artifact;
    forall a | a in s.returned ensures a == artifact {
      var other: Id :| ReadyIn(s.rows, other) && s.rows[other].artifact == a;
    }
  }
}
