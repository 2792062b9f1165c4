/** Builds of one image key: rows of `image_builds`, the claim transaction statement by
    statement, and the single-statement updates of builders and sweepers. */
module ImageBuild {
  import opened Base

  datatype Status = Building | Ready | BuildFailed

  datatype Row = Row(status: Status, token: Id, leaseUntil: Time, artifact: Bytes, error: string, order: nat)

  const EXPIRED := "build lease expired"
  const LEASE: nat := 30

  /** Where a claim transaction is. What it wrote so far is seen by no one else. */
  datatype Stage = Opened | Swept | MayInsert | Inserted(id: Id, row: Row) | Checked(id: Id, row: Row)

  /** A claim transaction: its start time, which is its `now()`, and the row it expired. */
  datatype Claim = Claim(start: Time, expired: Option<Id>, stage: Stage) {
    predicate HasRow() {
      stage.Inserted? || stage.Checked?
    }
  }

  /** The committed rows of the key, the open claim transactions, the artifacts that successful
      calls have returned, and a counter that orders insertions. */
  datatype Builds = Builds(now: Time, rows: map<Id, Row>, claims: map<Id, Claim>, returned: set<Bytes>, inserted: nat)

  // ---- Locks and what a transaction sees ------------------------------------

  /** Some other transaction than `x` has an uncommitted update of the row. */
  predicate LockedByOther(s: Builds, x: Id, id: Id) {
    exists y :: y in s.claims && y != x && s.claims[y].expired == Some(id)
  }

  predicate Locked(s: Builds, id: Id) {
    exists y :: y in s.claims && s.claims[y].expired == Some(id)
  }

  predicate Lapsed(row: Row, now: Time) {
    row.status.Building? && row.leaseUntil <= now
  }

  function Expired(row: Row): Row {
    row.(status := BuildFailed, error := EXPIRED)
  }

  /** The committed rows with the transaction's own update. */
  function Visible(s: Builds, x: Id): map<Id, Row>
    requires x in s.claims
  {
    match s.claims[x].expired
    case None => s.rows
    case Some(id) => if id in s.rows then s.rows[id := Expired(s.rows[id])] else s.rows
  }

  predicate IsLatest(rows: map<Id, Row>, id: Id) {
    id in rows && forall other :: other in rows ==> rows[other].order <= rows[id].order
  }

  /** What the transaction leaves when it commits. */
  function Committed(s: Builds, x: Id): Builds
    requires x in s.claims
  {
    var visible := Visible(s, x);
    var stage := s.claims[x].stage;
    s.(rows := if stage.Checked? then visible[stage.id := stage.row] else visible, claims := s.claims - {x})
  }

  function Return(s: Builds, artifact: Bytes): Builds {
    s.(returned := s.returned + {artifact})
  }

  function SetStage(s: Builds, x: Id, stage: Stage): Builds
    requires x in s.claims
  {
    s.(claims := s.claims[x := s.claims[x].(stage := stage)])
  }

  predicate At(s: Builds, x: Id, stage: Stage) {
    x in s.claims && s.claims[x].stage == stage
  }

  // ---- Steps ----------------------------------------------------------------

  datatype Step =
    | Tick(later: Time)
    | BeginClaim(x: Id)
    | ExpireOne(x: Id, id: Id)
    | ExpireNone(x: Id)
    | FoundCurrent(x: Id, id: Id)
    | FoundNoCurrent(x: Id)
    | Insert(x: Id, id: Id, token: Id)
    | InsertConflicts(x: Id, id: Id)
    | FoundReady(x: Id, id: Id)
    | FoundNoReady(x: Id)
    | CommitClaim(x: Id)
    | AbortClaim(x: Id)
    | Finish(id: Id, token: Id, artifact: Bytes)
    | FinishFailed(id: Id, token: Id, error: string)
    | Renew(id: Id, token: Id)
    | Sweep(id: Id)
    | Observe(id: Id)

  /** An update by a builder: its row, its token, still building, the lease not over, and no
      transaction in the way. */
  predicate Held(s: Builds, id: Id, token: Id) {
    && id in s.rows && s.rows[id].token == token && s.rows[id].status.Building? && s.now < s.rows[id].leaseUntil
    && !Locked(s, id)
  }

  /** An insert waits while another transaction may still change the unique index entry. */
  predicate InsertWaits(s: Builds, x: Id) {
    exists y :: y in s.claims && y != x && (s.claims[y].HasRow() || s.claims[y].expired.Some?)
  }

  predicate Taken(s: Builds, x: Id, id: Id)
    requires x in s.claims
  {
    id in Visible(s, x) && Visible(s, x)[id].status.Building?
  }

  predicate Next(s: Builds, step: Step, s': Builds) {
    match step
    case Tick(later) => s.now <= later && s' == s.(now := later)
    case BeginClaim(x) => x !in s.claims && s' == s.(claims := s.claims[x := Claim(s.now, None, Opened)])
    case ExpireOne(x, id) =>
      && At(s, x, Opened) && id in s.rows && Lapsed(s.rows[id], s.claims[x].start) && !LockedByOther(s, x, id)
      && s' == s.(claims := s.claims[x := s.claims[x].(expired := Some(id), stage := Swept)])
    case ExpireNone(x) =>
      && At(s, x, Opened) && (forall id :: id in s.rows ==> !Lapsed(s.rows[id], s.claims[x].start))
      && s' == SetStage(s, x, Swept)
    case FoundCurrent(x, id) =>
      && At(s, x, Swept) && IsLatest(Visible(s, x), id) && !Visible(s, x)[id].status.BuildFailed?
      && s' == (if Visible(s, x)[id].status.Ready? then Return(Committed(s, x), Visible(s, x)[id].artifact) else Committed(s, x))
    case FoundNoCurrent(x) =>
      && At(s, x, Swept)
      && (forall id :: id in Visible(s, x) && IsLatest(Visible(s, x), id) ==> Visible(s, x)[id].status.BuildFailed?)
      && s' == SetStage(s, x, MayInsert)
    case Insert(x, id, token) =>
      && At(s, x, MayInsert) && !InsertWaits(s, x) && id !in s.rows
      && (forall other :: other in s.rows ==> !Taken(s, x, other))
      && s' == SetStage(s, x, Inserted(id, Row(Building, token, s.claims[x].start + LEASE, [], "", s.inserted))).(inserted := s.inserted + 1)
    case InsertConflicts(x, id) => At(s, x, MayInsert) && Taken(s, x, id) && !LockedByOther(s, x, id) && s' == Committed(s, x)
    case FoundReady(x, id) =>
      && x in s.claims && s.claims[x].stage.Inserted? && id in s.rows && s.rows[id].status.Ready?
      && s' == Return(Committed(s, x), s.rows[id].artifact)
    case FoundNoReady(x) =>
      && x in s.claims && s.claims[x].stage.Inserted? && (forall id :: id in s.rows ==> !s.rows[id].status.Ready?)
      && s' == SetStage(s, x, Checked(s.claims[x].stage.id, s.claims[x].stage.row))
    case CommitClaim(x) => x in s.claims && s.claims[x].stage.Checked? && s' == Committed(s, x)
    case AbortClaim(x) => s' == s.(claims := s.claims - {x})
    case Finish(id, token, artifact) =>
      && Held(s, id, token) && artifact != []
      && s' == Return(s.(rows := s.rows[id := s.rows[id].(status := Ready, artifact := artifact, error := "")]), artifact)
    case FinishFailed(id, token, error) =>
      && Held(s, id, token)
      && s' == s.(rows := s.rows[id := s.rows[id].(status := BuildFailed, artifact := [], error := error)])
    case Renew(id, token) =>
      Held(s, id, token) && s' == s.(rows := s.rows[id := s.rows[id].(leaseUntil := s.now + LEASE)])
    case Sweep(id) =>
      id in s.rows && Lapsed(s.rows[id], s.now) && !Locked(s, id) && s' == s.(rows := s.rows[id := Expired(s.rows[id])])
    case Observe(id) => id in s.rows && s.rows[id].status.Ready? && s' == Return(s, s.rows[id].artifact)
  }

  const NO_BUILDS: Builds := Builds(0, map[], map[], {}, 0)

  ghost predicate IsRun(trace: seq<Builds>, steps: seq<Step>) {
    && |trace| == |steps| + 1 && trace[0] == NO_BUILDS.(now := trace[0].now)
    && forall i :: 0 <= i < |steps| ==> Next(trace[i], steps[i], trace[i + 1])
  }

  // ---- Invariants -----------------------------------------------------------

  /** What one open transaction may rely on: the row it expired is still building for everyone
      else; once it has inserted, there is no other building row; once it has checked, there
      is no ready row. */
  ghost predicate ClaimOk(rows: map<Id, Row>, c: Claim) {
    && (c.expired.Some? ==> BuildingIn(rows, c.expired.value))
    && (c.HasRow() ==>
          && c.stage.id !in rows && c.stage.row.status.Building?
          && forall id: Id :: BuildingIn(rows, id) ==> c.expired == Some(id))
    && (c.stage.Checked? ==> forall id: Id :: !ReadyIn(rows, id))
  }

  predicate BuildingIn(rows: map<Id, Row>, id: Id) {
    id in rows && rows[id].status.Building?
  }

  predicate ReadyIn(rows: map<Id, Row>, id: Id) {
    id in rows && rows[id].status.Ready?
  }

  /** Two transactions do not both insert, nor does one insert while another has an update open,
      nor do they update the same row. */
  predicate Compatible(c: Claim, d: Claim) {
    !(c.HasRow() && (d.HasRow() || d.expired.Some?)) && !(c.expired.Some? && c.expired == d.expired)
  }

  /** At most one row is building, at most one is ready, and not one of each. */
  ghost predicate RowsOk(rows: map<Id, Row>) {
    && (forall a: Id, b: Id :: BuildingIn(rows, a) && BuildingIn(rows, b) ==> a == b)
    && (forall a: Id, b: Id :: ReadyIn(rows, a) && ReadyIn(rows, b) ==> a == b)
    && (forall a: Id, b: Id :: BuildingIn(rows, a) ==> !ReadyIn(rows, b))
  }

  ghost predicate ClaimsOk(rows: map<Id, Row>, claims: map<Id, Claim>) {
    && (forall x :: x in claims ==> ClaimOk(rows, claims[x]))
    && (forall x, y :: x in claims && y in claims && x != y ==> Compatible(claims[x], claims[y]))
  }

  /** Every artifact returned is that of a ready row. */
  ghost predicate ReturnedOk(rows: map<Id, Row>, returned: set<Bytes>) {
    forall a :: a in returned ==> exists id: Id :: ReadyIn(rows, id) && rows[id].artifact == a
  }

  ghost predicate Inv(s: Builds) {
    RowsOk(s.rows) && ClaimsOk(s.rows, s.claims) && ReturnedOk(s.rows, s.returned)
  }

  lemma ReturnedKept(a: map<Id, Row>, b: map<Id, Row>, returned: set<Bytes>)
    requires ReturnedOk(a, returned)
    requires forall id: Id :: ReadyIn(a, id) ==> ReadyIn(b, id) && b[id].artifact == a[id].artifact
    ensures ReturnedOk(b, returned)
  {
    forall x | x in returned ensures exists id: Id :: ReadyIn(b, id) && b[id].artifact == x {
      var id :| ReadyIn(a, id) && a[id].artifact == x;
      assert ReadyIn(b, id);
    }
  }

  lemma ReturnedMore(rows: map<Id, Row>, returned: set<Bytes>, id: Id)
    requires ReturnedOk(rows, returned) && ReadyIn(rows, id)
    ensures ReturnedOk(rows, returned + {rows[id].artifact})
  {
  }

  /** One transaction moves on while the rows stay. */
  lemma ClaimMoves(rows: map<Id, Row>, claims: map<Id, Claim>, x: Id, c: Claim)
    requires ClaimsOk(rows, claims) && ClaimOk(rows, c)
    requires forall y :: y in claims && y != x ==> Compatible(claims[y], c) && Compatible(c, claims[y])
    ensures ClaimsOk(rows, claims[x := c])
  {
    hide ClaimOk, Compatible;
  }

  lemma ClaimEnds(rows: map<Id, Row>, claims: map<Id, Claim>, x: Id)
    requires ClaimsOk(rows, claims)
    ensures ClaimsOk(rows, claims - {x})
  {
    hide ClaimOk, Compatible;
  }

  // ---- One step at a time ---------------------------------------------------

  lemma StageInv(s: Builds, x: Id, stage: Stage, expired: Option<Id>)
    requires Inv(s) && x in s.claims && (stage.Swept? || stage.MayInsert?)
    requires expired == s.claims[x].expired
             || (expired.Some? && BuildingIn(s.rows, expired.value) && !LockedByOther(s, x, expired.value)
                 && forall y :: y in s.claims && s.claims[y].HasRow() ==> s.claims[y].expired == expired)
    ensures Inv(s.(claims := s.claims[x := s.claims[x].(expired := expired, stage := stage)]))
  {
    var c := s.claims[x].(expired := expired, stage := stage);
    assert ClaimOk(s.rows, s.claims[x]);
    forall y | y in s.claims && y != x ensures Compatible(s.claims[y], c) && Compatible(c, s.claims[y]) {
      assert Compatible(s.claims[y], s.claims[x]) && Compatible(s.claims[x], s.claims[y]);
      assert expired != s.claims[x].expired ==> s.claims[y].expired != expired;
    }
    ClaimMoves(s.rows, s.claims, x, c);
  }

  /** A transaction that has inserted owns the only update of the building row. */
  lemma ExpireInv(s: Builds, x: Id, id: Id)
    requires Inv(s) && At(s, x, Opened) && BuildingIn(s.rows, id) && !LockedByOther(s, x, id)
    ensures Inv(s.(claims := s.claims[x := s.claims[x].(expired := Some(id), stage := Swept)]))
  {
    forall y | y in s.claims && s.claims[y].HasRow() ensures s.claims[y].expired == Some(id) {
      assert ClaimOk(s.rows, s.claims[y]);
    }
    StageInv(s, x, Swept, Some(id));
  }

  lemma InsertInv(s: Builds, x: Id, id: Id, row: Row)
    requires Inv(s) && At(s, x, MayInsert) && !InsertWaits(s, x) && id !in s.rows && row.status.Building?
    requires forall other :: other in s.rows ==> !Taken(s, x, other)
    ensures ClaimsOk(s.rows, s.claims[x := s.claims[x].(stage := Inserted(id, row))])
  {
    var c := s.claims[x].(stage := Inserted(id, row));
    assert ClaimOk(s.rows, s.claims[x]);
    forall other: Id | BuildingIn(s.rows, other) ensures c.expired == Some(other) {
      assert !Taken(s, x, other);
    }
    forall y | y in s.claims && y != x ensures Compatible(s.claims[y], c) && Compatible(c, s.claims[y]) {
      assert !(s.claims[y].HasRow() || s.claims[y].expired.Some?);
    }
    ClaimMoves(s.rows, s.claims, x, c);
  }

  lemma CheckInv(s: Builds, x: Id)
    requires Inv(s) && x in s.claims && s.claims[x].stage.Inserted? && forall id :: id in s.rows ==> !s.rows[id].status.Ready?
    ensures ClaimsOk(s.rows, s.claims[x := s.claims[x].(stage := Checked(s.claims[x].stage.id, s.claims[x].stage.row))])
  {
    var c := s.claims[x].(stage := Checked(s.claims[x].stage.id, s.claims[x].stage.row));
    assert ClaimOk(s.rows, s.claims[x]);
    forall y | y in s.claims && y != x ensures Compatible(s.claims[y], c) && Compatible(c, s.claims[y]) {
      assert Compatible(s.claims[y], s.claims[x]) && Compatible(s.claims[x], s.claims[y]);
    }
    ClaimMoves(s.rows, s.claims, x, c);
  }

  /** What the others rely on when one transaction commits its update and its insert. */
  lemma CommitKeepsOther(s: Builds, x: Id, y: Id)
    requires Inv(s) && x in s.claims && y in s.claims && x != y
    ensures ClaimOk(Committed(s, x).rows, s.claims[y])
  {
    assert ClaimOk(s.rows, s.claims[x]) && ClaimOk(s.rows, s.claims[y]);
    assert Compatible(s.claims[x], s.claims[y]) && Compatible(s.claims[y], s.claims[x]);
    var rows := Committed(s, x).rows;
    if s.claims[y].HasRow() {
      forall id: Id | BuildingIn(rows, id) ensures s.claims[y].expired == Some(id) {
        assert BuildingIn(s.rows, id);
      }
      if s.claims[y].stage.Checked? {
        forall id: Id ensures !ReadyIn(rows, id) {
          assert !ReadyIn(s.rows, id);
        }
      }
    }
  }

  lemma CommitRows(s: Builds, x: Id)
    requires Inv(s) && x in s.claims
    ensures RowsOk(Committed(s, x).rows)
    ensures forall id: Id :: ReadyIn(s.rows, id) ==> ReadyIn(Committed(s, x).rows, id) && Committed(s, x).rows[id] == s.rows[id]
    ensures forall id: Id :: ReadyIn(Committed(s, x).rows, id) ==> ReadyIn(s.rows, id)
  {
    var c := s.claims[x];
    assert ClaimOk(s.rows, c);
    var rows := Committed(s, x).rows;
    forall id: Id | BuildingIn(rows, id) ensures if c.stage.Checked? then id == c.stage.id else BuildingIn(s.rows, id) {
      if c.stage.Checked? && id != c.stage.id { assert BuildingIn(s.rows, id); }
    }
    forall id: Id | ReadyIn(rows, id) ensures ReadyIn(s.rows, id) {
    }
  }

  lemma CommitInv(s: Builds, x: Id)
    requires Inv(s) && x in s.claims
    ensures Inv(Committed(s, x))
  {
    var s' := Committed(s, x);
    CommitRows(s, x);
    ReturnedKept(s.rows, s'.rows, s.returned);
    forall y | y in s'.claims ensures ClaimOk(s'.rows, s'.claims[y]) {
      CommitKeepsOther(s, x, y);
    }
  }

  /** A builder or a sweeper changes the one building row, which no transaction has touched. */
  lemma UpdateInv(s: Builds, id: Id, row: Row)
    requires Inv(s) && BuildingIn(s.rows, id) && !Locked(s, id)
    ensures RowsOk(s.rows[id := row]) && ClaimsOk(s.rows[id := row], s.claims) && ReturnedOk(s.rows[id := row], s.returned)
  {
    var rows := s.rows[id := row];
    assert forall other: Id :: other != id ==> (BuildingIn(rows, other) ==> BuildingIn(s.rows, other)) && (ReadyIn(rows, other) ==> ReadyIn(s.rows, other));
    forall x | x in s.claims ensures ClaimOk(rows, s.claims[x]) {
      assert ClaimOk(s.rows, s.claims[x]);
      assert s.claims[x].expired != Some(id);
    }
    ReturnedKept(s.rows, rows, s.returned);
  }

  lemma StepInv(s: Builds, step: Step, s': Builds)
    requires Inv(s) && Next(s, step, s')
    ensures Inv(s')
  {
    hide RowsOk, ClaimsOk, ReturnedOk, Committed, Visible, LockedByOther, Locked, InsertWaits, Taken;
    match step
    case Tick(_) =>
    case BeginClaim(x) => OpenInv(s, x);
    case ExpireOne(x, id) => ExpireInv(s, x, id);
    case ExpireNone(x) => StageInv(s, x, Swept, s.claims[x].expired);
    case FoundCurrent(x, id) => CurrentInv(s, x, id);
    case FoundNoCurrent(x) => StageInv(s, x, MayInsert, s.claims[x].expired);
    case Insert(x, id, token) => InsertInv(s, x, id, s'.claims[x].stage.row);
    case InsertConflicts(x, id) => CommitInv(s, x);
    case FoundReady(x, id) => CurrentReady(s, x, id);
    case FoundNoReady(x) => CheckInv(s, x);
    case CommitClaim(x) => CommitInv(s, x);
    case AbortClaim(x) => ClaimEnds(s.rows, s.claims, x);
    case Finish(id, token, artifact) =>
      UpdateInv(s, id, s'.rows[id]);
      ReturnedMore(s'.rows, s.returned, id);
    case FinishFailed(id, token, error) => UpdateInv(s, id, s'.rows[id]);
    case Renew(id, token) => UpdateInv(s, id, s'.rows[id]);
    case Sweep(id) => UpdateInv(s, id, s'.rows[id]);
    case Observe(id) => ReturnedMore(s.rows, s.returned, id);
  }

  lemma OpenInv(s: Builds, x: Id)
    requires Inv(s) && x !in s.claims
    ensures ClaimsOk(s.rows, s.claims[x := Claim(s.now, None, Opened)])
  {
    ClaimMoves(s.rows, s.claims, x, Claim(s.now, None, Opened));
  }

  lemma CurrentReady(s: Builds, x: Id, id: Id)
    requires Inv(s) && x in s.claims && ReadyIn(s.rows, id)
    ensures Inv(Return(Committed(s, x), s.rows[id].artifact))
  {
    CommitInv(s, x);
    CommitRows(s, x);
    ReturnedMore(Committed(s, x).rows, s.returned, id);
  }

  lemma CurrentInv(s: Builds, x: Id, id: Id)
    requires Inv(s) && x in s.claims && id in Visible(s, x)
    ensures Inv(Committed(s, x))
    ensures Visible(s, x)[id].status.Ready? ==> Inv(Return(Committed(s, x), Visible(s, x)[id].artifact))
  {
    CommitInv(s, x);
    if Visible(s, x)[id].status.Ready? { CurrentReady(s, x, id); }
  }

  lemma {:induction false} RunInv(trace: seq<Builds>, steps: seq<Step>, i: nat)
    requires IsRun(trace, steps) && i < |trace|
    ensures Inv(trace[i])
  {
    hide Next;
    if i > 0 {
      hide Inv;
      RunInv(trace, steps, i - 1);
      StepInv(trace[i - 1], steps[i - 1], trace[i]);
    }
  }

  // ---- What holds over runs -------------------------------------------------

  /** Agreement: at every moment at most one row of the key is building and at most one is
      ready, and all artifacts that calls have returned for the key so far are one and the
      same. */
  lemma BuildsAgree(trace: seq<Builds>, steps: seq<Step>, i: nat)
    requires IsRun(trace, steps) && i < |trace|
    ensures forall a: Id, b: Id :: BuildingIn(trace[i].rows, a) && BuildingIn(trace[i].rows, b) ==> a == b
    ensures forall a: Id, b: Id :: ReadyIn(trace[i].rows, a) && ReadyIn(trace[i].rows, b) ==> a == b
    ensures forall a, b :: a in trace[i].returned && b in trace[i].returned ==> a == b
  {
    hide Next;
    RunInv(trace, steps, i);
    forall a, b | a in trace[i].returned && b in trace[i].returned ensures a == b {
      var x: Id :| ReadyIn(trace[i].rows, x) && trace[i].rows[x].artifact == a;
      var y: Id :| ReadyIn(trace[i].rows, y) && trace[i].rows[y].artifact == b;
    }
  }

  /** A row that is no longer building never changes. */
  lemma SettledStays(s: Builds, step: Step, s': Builds, id: Id)
    requires Inv(s) && Next(s, step, s') && id in s.rows && !s.rows[id].status.Building?
    ensures id in s'.rows && s'.rows[id] == s.rows[id]
  {
    if step.FoundCurrent? || step.InsertConflicts? || step.FoundReady? || step.CommitClaim? {
      assert ClaimOk(s.rows, s.claims[step.x]);
    }
  }

  lemma {:induction false} SettledForever(trace: seq<Builds>, steps: seq<Step>, i: nat, j: nat, id: Id)
    requires IsRun(trace, steps) && i <= j < |trace| && id in trace[i].rows && !trace[i].rows[id].status.Building?
    ensures id in trace[j].rows && trace[j].rows[id] == trace[i].rows[id]
  {
    hide Next, Inv;
    if i < j {
      SettledForever(trace, steps, i, j - 1, id);
      RunInv(trace, steps, j - 1);
      SettledStays(trace[j - 1], steps[j - 1], trace[j], id);
    }
  }

  /** At most one row is ever ready, and it stays ready with its artifact. */
  lemma OneReadyEver(trace: seq<Builds>, steps: seq<Step>, i: nat, j: nat, a: Id, b: Id)
    requires IsRun(trace, steps) && i <= j < |trace| && ReadyIn(trace[i].rows, a) && ReadyIn(trace[j].rows, b)
    ensures a == b && trace[j].rows[b] == trace[i].rows[a]
  {
    hide Next;
    SettledForever(trace, steps, i, j, a);
    BuildsAgree(trace, steps, j);
    assert ReadyIn(trace[j].rows, a);
  }

  /** A builder whose row was expired or settled by anyone else does not publish: no later step
      finishes that row. */
  lemma SettledIsNotPublished(trace: seq<Builds>, steps: seq<Step>, i: nat, j: nat, id: Id)
    requires IsRun(trace, steps) && i <= j < |steps| && id in trace[i].rows && !trace[i].rows[id].status.Building?
    ensures !(steps[j].Finish? && steps[j].id == id) && !(steps[j].FinishFailed? && steps[j].id == id)
  {
    SettledForever(trace, steps, i, j, id);
    assert Next(trace[j], steps[j], trace[j + 1]);
  }

  // ---- Leases ---------------------------------------------------------------

  /** Step `i` gave the row its lease: 30 seconds from the start of the transaction that inserted it,
      or from its renewal. */
  predicate GivesLease(s: Builds, step: Step, id: Id, until: Time) {
    match step
    case Insert(x, y, _) => y == id && x in s.claims && until == s.claims[x].start + 30
    case Renew(y, _) => y == id && until == s.now + 30
    case _ => false
  }

  ghost predicate LeaseGiven(trace: seq<Builds>, steps: seq<Step>, j: nat, id: Id, until: Time)
    requires j <= |steps| <= |trace|
  {
    exists i :: 0 <= i < j && GivesLease(trace[i], steps[i], id, until)
  }

  predicate Inserts(step: Step, id: Id, token: Id) {
    step.Insert? && step.id == id && step.token == token
  }

  /** The row was inserted with this token. */
  ghost predicate InsertedWith(steps: seq<Step>, j: nat, id: Id, token: Id)
    requires j <= |steps|
  {
    exists i :: 0 <= i < j && Inserts(steps[i], id, token)
  }

  ghost predicate RowFrom(trace: seq<Builds>, steps: seq<Step>, j: nat, id: Id, row: Row)
    requires j <= |steps| <= |trace|
  {
    LeaseGiven(trace, steps, j, id, row.leaseUntil) && InsertedWith(steps, j, id, row.token)
  }

  /** Where leases and tokens come from, and that only rows past their lease are being expired. */
  ghost predicate LeasesOk(trace: seq<Builds>, steps: seq<Step>, j: nat)
    requires j <= |steps| < |trace|
  {
    var s := trace[j];
    && (forall id: Id :: id in s.rows ==> RowFrom(trace, steps, j, id, s.rows[id]))
    && (forall x :: x in s.claims ==> s.claims[x].start <= s.now)
    && (forall x :: x in s.claims && s.claims[x].HasRow() ==> RowFrom(trace, steps, j, s.claims[x].stage.id, s.claims[x].stage.row))
    && (forall x :: x in s.claims && s.claims[x].expired.Some? ==>
          s.claims[x].expired.value in s.rows && s.rows[s.claims[x].expired.value].leaseUntil <= s.now)
  }

  lemma RowStaysFrom(trace: seq<Builds>, steps: seq<Step>, j: nat, id: Id, row: Row)
    requires j < |steps| < |trace| && RowFrom(trace, steps, j, id, row)
    ensures RowFrom(trace, steps, j + 1, id, row)
  {
    hide GivesLease;
  }

  /** What a row after a step has of the rows and the open inserts before it: its lease and its
      token, unless the step is its insert or its renewal. */
  lemma RowBefore(s: Builds, step: Step, s': Builds, id: Id) returns (row: Row)
    requires Next(s, step, s') && id in s'.rows
    ensures s'.rows[id].token == row.token
    ensures if step == Renew(id, row.token) then id in s.rows && row == s.rows[id] && s'.rows[id].leaseUntil == s.now + 30
            else s'.rows[id].leaseUntil == row.leaseUntil
                 && ((id in s.rows && row == s.rows[id])
                     || exists x :: x in s.claims && s.claims[x].HasRow() && s.claims[x].stage.id == id && s.claims[x].stage.row == row)
  {
    hide IsLatest, Taken, InsertWaits, LockedByOther, Locked, Lapsed;
    if id in s.rows && (!step.CommitClaim? || !s.claims[step.x].stage.Checked? || s.claims[step.x].stage.id != id) {
      row := s.rows[id];
    } else {
      row := s'.rows[id];
    }
  }

  lemma RowIsFrom(trace: seq<Builds>, steps: seq<Step>, j: nat, id: Id)
    requires j < |steps| < |trace| && LeasesOk(trace, steps, j) && Next(trace[j], steps[j], trace[j + 1]) && id in trace[j + 1].rows
    ensures RowFrom(trace, steps, j + 1, id, trace[j + 1].rows[id])
  {
    var row := RowBefore(trace[j], steps[j], trace[j + 1], id);
    hide Next;
    assert RowFrom(trace, steps, j, id, row);
    RowStaysFrom(trace, steps, j, id, row);
    if steps[j] == Renew(id, row.token) { assert GivesLease(trace[j], steps[j], id, trace[j + 1].rows[id].leaseUntil); }
  }

  lemma ClaimBefore(s: Builds, step: Step, s': Builds, x: Id)
    requires Next(s, step, s') && x in s'.claims
    ensures s'.claims[x].start <= s.now || (x in s.claims && s'.claims[x].start == s.claims[x].start)
    ensures s'.claims[x].HasRow() ==>
              || (x in s.claims && s.claims[x].HasRow() && s'.claims[x].stage.id == s.claims[x].stage.id && s'.claims[x].stage.row == s.claims[x].stage.row)
              || (x in s.claims && step == Insert(x, s'.claims[x].stage.id, s'.claims[x].stage.row.token)
                  && s'.claims[x].stage.row.leaseUntil == s.claims[x].start + 30)
    ensures s'.claims[x].expired.Some? ==>
              || (x in s.claims && s'.claims[x].expired == s.claims[x].expired)
              || (x in s.claims && s'.claims[x].expired.value in s.rows && s.rows[s'.claims[x].expired.value].leaseUntil <= s.claims[x].start)
  {
    hide Visible, IsLatest, Taken, InsertWaits, LockedByOther, Locked;
  }

  lemma ClaimsFrom(trace: seq<Builds>, steps: seq<Step>, j: nat, x: Id)
    requires j < |steps| < |trace| && LeasesOk(trace, steps, j) && Next(trace[j], steps[j], trace[j + 1]) && x in trace[j + 1].claims
    ensures trace[j].now <= trace[j + 1].now && trace[j + 1].claims[x].start <= trace[j + 1].now
    ensures trace[j + 1].claims[x].HasRow() ==>
              RowFrom(trace, steps, j + 1, trace[j + 1].claims[x].stage.id, trace[j + 1].claims[x].stage.row)
  {
    ClockMoves(trace[j], steps[j], trace[j + 1]);
    ClaimBefore(trace[j], steps[j], trace[j + 1], x);
    hide Next;
    var c := trace[j + 1].claims[x];
    if c.HasRow() {
      if x in trace[j].claims && trace[j].claims[x].HasRow() && c.stage.id == trace[j].claims[x].stage.id && c.stage.row == trace[j].claims[x].stage.row {
        assert RowFrom(trace, steps, j, c.stage.id, c.stage.row);
        RowStaysFrom(trace, steps, j, c.stage.id, c.stage.row);
      } else {
        assert GivesLease(trace[j], steps[j], c.stage.id, c.stage.row.leaseUntil) && Inserts(steps[j], c.stage.id, c.stage.row.token);
      }
    }
  }

  lemma ClockMoves(s: Builds, step: Step, s': Builds)
    requires Next(s, step, s')
    ensures s.now <= s'.now
  {
    hide Visible, IsLatest, Taken, InsertWaits, LockedByOther, Locked, Lapsed, Held;
  }

  /** A lease that is over stays over: no step renews it. */
  lemma ExpiredStays(s: Builds, step: Step, s': Builds, id: Id)
    requires Inv(s) && Next(s, step, s') && id in s.rows && s.rows[id].leaseUntil <= s.now
    ensures id in s'.rows && s'.rows[id].leaseUntil <= s'.now
  {
    ClockMoves(s, step, s');
    hide IsLatest, Taken, InsertWaits, LockedByOther, Locked, RowsOk, ReturnedOk;
    if step.FoundCurrent? || step.InsertConflicts? || step.FoundReady? || step.CommitClaim? { assert ClaimOk(s.rows, s.claims[step.x]); }
  }

  /** A row stays, with its token. */
  lemma TokenStays(s: Builds, step: Step, s': Builds, id: Id)
    requires Inv(s) && Next(s, step, s') && id in s.rows
    ensures id in s'.rows && s'.rows[id].token == s.rows[id].token
  {
    hide IsLatest, Taken, InsertWaits, LockedByOther, Locked, RowsOk, ReturnedOk;
    if step.FoundCurrent? || step.InsertConflicts? || step.FoundReady? || step.CommitClaim? { assert ClaimOk(s.rows, s.claims[step.x]); }
  }

  lemma ExpiresOk(trace: seq<Builds>, steps: seq<Step>, j: nat, x: Id)
    requires j < |steps| < |trace| && Inv(trace[j]) && LeasesOk(trace, steps, j) && Next(trace[j], steps[j], trace[j + 1])
    requires x in trace[j + 1].claims && trace[j + 1].claims[x].expired.Some?
    ensures var id := trace[j + 1].claims[x].expired.value; id in trace[j + 1].rows && trace[j + 1].rows[id].leaseUntil <= trace[j + 1].now
  {
    ClaimBefore(trace[j], steps[j], trace[j + 1], x);
    ExpiredStays(trace[j], steps[j], trace[j + 1], trace[j + 1].claims[x].expired.value);
    hide Next, RowFrom, Inv;
  }

  lemma {:induction false} RunLeases(trace: seq<Builds>, steps: seq<Step>, j: nat)
    requires IsRun(trace, steps) && j <= |steps| < |trace|
    ensures LeasesOk(trace, steps, j)
  {
    hide Next, RowFrom, Inv;
    if j > 0 {
      RunLeases(trace, steps, j - 1);
      RunInv(trace, steps, j - 1);
      forall id: Id | id in trace[j].rows ensures RowFrom(trace, steps, j, id, trace[j].rows[id]) {
        RowIsFrom(trace, steps, j - 1, id);
      }
      forall x | x in trace[j].claims
        ensures trace[j].claims[x].start <= trace[j].now
        ensures trace[j].claims[x].HasRow() ==> RowFrom(trace, steps, j, trace[j].claims[x].stage.id, trace[j].claims[x].stage.row)
      {
        ClaimsFrom(trace, steps, j - 1, x);
      }
      forall x | x in trace[j].claims && trace[j].claims[x].expired.Some?
        ensures trace[j].claims[x].expired.value in trace[j].rows && trace[j].rows[trace[j].claims[x].expired.value].leaseUntil <= trace[j].now
      {
        ExpiresOk(trace, steps, j - 1, x);
      }
    }
  }

  /** A builder's update of its row: publishing, failing or renewing it. */
  predicate Updates(step: Step, id: Id) {
    (step.Finish? || step.FinishFailed? || step.Renew?) && step.id == id
  }

  /** A row is published, failed or renewed only with the token it was inserted with, and less than
      30 seconds after the start of the transaction that inserted it or after a renewal. */
  lemma UpdatedInTime(trace: seq<Builds>, steps: seq<Step>, j: nat, id: Id)
    requires IsRun(trace, steps) && j < |steps| && Updates(steps[j], id)
    ensures InsertedWith(steps, j, id, steps[j].token)
    ensures exists i, until :: 0 <= i < j && GivesLease(trace[i], steps[i], id, until) && trace[j].now < until
  {
    RunLeases(trace, steps, j);
    assert Next(trace[j], steps[j], trace[j + 1]);
    assert RowFrom(trace, steps, j, id, trace[j].rows[id]);
    hide GivesLease, IsRun;
  }

  /** So a builder that does not renew its row publishes nothing from 30 seconds after the start of
      its claim on, whether or not anyone has expired the row by then. */
  lemma LateBuilderIsRefused(trace: seq<Builds>, steps: seq<Step>, j: nat, id: Id)
    requires IsRun(trace, steps) && j < |steps|
    requires forall i :: 0 <= i < j ==>
               && !(steps[i].Renew? && steps[i].id == id)
               && (steps[i].Insert? && steps[i].id == id && steps[i].x in trace[i].claims ==>
                     trace[i].claims[steps[i].x].start + 30 <= trace[j].now)
    ensures !Updates(steps[j], id)
  {
    hide IsRun;
    if Updates(steps[j], id) { UpdatedInTime(trace, steps, j, id); }
  }

  /** Nobody else fails a build before its lease is over, and only its builder publishes it. */
  lemma ExpiredOnlyLate(trace: seq<Builds>, steps: seq<Step>, j: nat, id: Id)
    requires IsRun(trace, steps) && j < |steps| && BuildingIn(trace[j].rows, id) && !BuildingIn(trace[j + 1].rows, id)
    ensures if Updates(steps[j], id) then true
            else trace[j].rows[id].leaseUntil <= trace[j].now && id in trace[j + 1].rows && trace[j + 1].rows[id] == trace[j].rows[id].(status := BuildFailed, error := "build lease expired")
  {
    RunInv(trace, steps, j);
    RunLeases(trace, steps, j);
    assert Next(trace[j], steps[j], trace[j + 1]);
    hide RowFrom, IsRun, Next;
    SettledBy(trace[j], steps[j], trace[j + 1], id);
  }

  /** How a row that is building stops being so. */
  lemma SettledBy(s: Builds, step: Step, s': Builds, id: Id)
    requires Inv(s) && Next(s, step, s') && BuildingIn(s.rows, id) && !BuildingIn(s'.rows, id)
    ensures Updates(step, id)
            || (step == Sweep(id) && s.rows[id].leaseUntil <= s.now && id in s'.rows && s'.rows[id] == Expired(s.rows[id]))
            || (exists x :: x in s.claims && s.claims[x].expired == Some(id) && id in s'.rows && s'.rows[id] == Expired(s.rows[id]))
  {
    hide IsLatest, Taken, InsertWaits, LockedByOther, Locked, RowsOk, ReturnedOk;
    if step.FoundCurrent? || step.InsertConflicts? || step.FoundReady? || step.CommitClaim? {
      assert ClaimOk(s.rows, s.claims[step.x]);
      assert s.claims[step.x].expired == Some(id);
    }
  }
}
