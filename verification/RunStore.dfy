/** The rows of one run and the statements that workers, task calls and cancellations run
    against them. Each statement, or group of statements under the run's row lock, is atomic. */
module RunStore {
  import opened Base
  import opened Graph

  datatype Status = RowQueued | RowRunning | RowWaiting | RowSucceeded | RowFailed | RowCanceled {
    predicate Final() {
      RowSucceeded? || RowFailed? || RowCanceled?
    }
  }

  /** One row of `task_actions`, with the keys its environment and specification give it. */
  datatype Row = Row(
    caller: Option<Id>,
    limit: int,
    imageKey: Bytes,
    cacheKey: Bytes,
    status: Status,
    attempts: int,
    failures: int,
    output: Bytes,
    error: string,
    nextAttemptAt: Option<Time>)

  /** The run's row and its actions; `now` is the database clock. */
  datatype Database = Database(now: Time, root: Id, token: Option<Id>, leaseUntil: Time, rows: map<Id, Row>)

  // ---- Between nodes and rows -----------------------------------------------

  function GraphStatus(s: State): Status {
    match s
    case Running => RowRunning
    case Waiting => RowWaiting
    case Done => RowSucceeded
    case Failed => RowFailed
    case Canceled => RowCanceled
    case _ => RowQueued
  }

  function StateOf(status: Status): State {
    match status
    case RowSucceeded => Done
    case RowFailed => Failed
    case RowCanceled => Canceled
    case _ => Pending
  }

  /** A node rebuilt from its row. */
  function GraphNode(row: Row): Node {
    Node(Spec(row.caller, Max(row.limit, 1), row.imageKey, row.cacheKey, []), StateOf(row.status), NoReason,
         row.attempts, row.failures, if row.nextAttemptAt.Some? then row.nextAttemptAt.value else 0,
         Report(row.output, row.error, false))
  }

  /** What a transition writes; the zero time is stored as no time. */
  function Updated(row: Row, n: Node): Row {
    row.(status := GraphStatus(n.state), attempts := n.attempt, failures := n.failures, output := n.report.output,
         error := n.report.error, nextAttemptAt := if n.nextAttemptAt == 0 then None else Some(n.nextAttemptAt))
  }

  /** The row that stands for a node. */
  function RowOf(n: Node): Row {
    Updated(Row(n.spec.parent, n.spec.maxAttempts, n.spec.imageKey, n.spec.cacheKey, RowQueued, 0, 0, [], "", None), n)
  }

  /** A node as it comes out of a reload: progress is forgotten, results and counts are kept. */
  function Collapse(n: Node): Node {
    n.(state := if n.Terminal() then n.state else Pending, waitingOn := NoReason, report := n.report.(cacheHit := false))
  }

  /** The row stands for the node. A worker's nodes have no prerequisites, and a limit of at
      least one whatever the row says. */
  predicate Mirrors(row: Row, n: Node) {
    && n.spec.prerequisites == [] && n.spec.maxAttempts == Max(row.limit, 1)
    && row == RowOf(n).(limit := row.limit)
  }

  /** Reloading a stored node collapses it and changes nothing else: a crash costs no retry. */
  lemma ReloadCollapses(row: Row, n: Node)
    requires Mirrors(row, n)
    ensures GraphNode(row) == Collapse(n) && GraphNode(row).Restored()
    ensures GraphNode(row).attempt == n.attempt && GraphNode(row).failures == n.failures
    ensures GraphNode(row).report.output == n.report.output && GraphNode(row).nextAttemptAt == n.nextAttemptAt
  {
  }

  /** The status says of the node's state what it is called in the table; a node that has not been
      started is queued. */
  predicate Shows(status: Status, state: State) {
    && (status.RowRunning? <==> state.Running?) && (status.RowWaiting? <==> state.Waiting?)
    && (status.RowSucceeded? <==> state.Done?) && (status.RowFailed? <==> state.Failed?) && (status.RowCanceled? <==> state.Canceled?)
    && (status.RowQueued? <==> state.Pending? || state.Ready?)
  }

  /** The row holds all that is kept of the node. */
  predicate Stores(row: Row, n: Node) {
    && Shows(row.status, n.state) && row.attempts == n.attempt && row.failures == n.failures
    && row.output == n.report.output && row.error == n.report.error
    && (row.nextAttemptAt.None? <==> n.nextAttemptAt == 0) && (row.nextAttemptAt.Some? ==> row.nextAttemptAt.value == n.nextAttemptAt)
  }

  /** The node is what the row says: ended as it says, or pending; without prerequisites. */
  predicate Restores(n: Node, row: Row) {
    && n.spec == Spec(row.caller, Max(row.limit, 1), row.imageKey, row.cacheKey, [])
    && (n.state.Done? <==> row.status.RowSucceeded?) && (n.state.Failed? <==> row.status.RowFailed?)
    && (n.state.Canceled? <==> row.status.RowCanceled?) && (n.Terminal() || n.state.Pending?)
    && n.waitingOn == NoReason && n.attempt == row.attempts && n.failures == row.failures
    && n.report == Report(row.output, row.error, false)
    && n.nextAttemptAt == (if row.nextAttemptAt.Some? then row.nextAttemptAt.value else 0)
  }

  lemma LoadRestores(db: Database, id: Id)
    requires id in db.rows
    ensures id in LoadGraph(db) && Restores(LoadGraph(db)[id], db.rows[id])
  {
  }

  lemma MirrorStores(row: Row, n: Node)
    requires Mirrors(row, n)
    ensures Stores(row, n) && row.caller == n.spec.parent && row.imageKey == n.spec.imageKey && row.cacheKey == n.spec.cacheKey
  {
  }

  // ---- The statements -------------------------------------------------------

  /** The token is the run's and its lease has not run out. */
  predicate Active(db: Database, token: Id) {
    db.token == Some(token) && db.now < db.leaseUntil
  }

  predicate Unfinished(db: Database) {
    exists id :: id in db.rows && !db.rows[id].status.Final()
  }

  predicate CanClaim(db: Database) {
    (db.token.None? || db.leaseUntil <= db.now) && Unfinished(db)
  }

  function Claim(db: Database, token: Id, seconds: nat): Database {
    db.(token := Some(token), leaseUntil := db.now + seconds)
  }

  function Renew(db: Database, token: Id, seconds: nat): Database {
    if Active(db, token) then db.(leaseUntil := db.now + seconds) else db
  }

  function Release(db: Database, token: Id): Database {
    if db.token == Some(token) then db.(token := None) else db
  }

  function Requeued(row: Row): Row {
    if row.status.RowRunning? || row.status.RowWaiting? then row.(status := RowQueued) else row
  }

  function Reset(db: Database, token: Id): Database {
    if Active(db, token) then db.(rows := map id | id in db.rows :: Requeued(db.rows[id])) else db
  }

  /** The rows a worker rebuilds its graph from. */
  function LoadGraph(db: Database): Nodes {
    map id | id in db.rows :: GraphNode(db.rows[id])
  }

  /** The fence: the writer's lease is live, the row is where the writer believes it is. */
  predicate Fenced(db: Database, token: Id, id: Id, expected: int) {
    && Active(db, token)
    && id in db.rows && db.rows[id].attempts == expected && !db.rows[id].status.Final()
  }

  function Transition(db: Database, id: Id, next: Node): Database
    requires id in db.rows
  {
    db.(rows := db.rows[id := Updated(db.rows[id], next)])
  }

  predicate RootLive(db: Database) {
    db.root in db.rows && !db.rows[db.root].status.Final()
  }

  function CanceledRow(row: Row): Row {
    if row.status.Final() then row else row.(status := RowCanceled, error := "run canceled")
  }

  /** `CancelRun`: an unfinished run is canceled; the claim is cleared in any case. */
  function CancelRun(db: Database): Database {
    var canceled := if RootLive(db) then db.(rows := map id | id in db.rows :: CanceledRow(db.rows[id])) else db;
    canceled.(token := None)
  }

  predicate CanInsert(db: Database, token: Id, caller: Id, attempt: int) {
    && RootLive(db) && Active(db, token)
    && caller in db.rows && db.rows[caller].attempts == attempt
    && (db.rows[caller].status.RowRunning? || db.rows[caller].status.RowWaiting?)
  }

  /** A new action as `InsertTaskAction` stores it. */
  function NewRow(caller: Id, limit: int, imageKey: Bytes, cacheKey: Bytes): Row {
    Row(Some(caller), limit, imageKey, cacheKey, RowQueued, 0, 0, [], "", None)
  }

  // ---- What every statement keeps -------------------------------------------

  /** Rows only come; a finished row stays as it is; attempt numbers do not go down. */
  ghost predicate Forward(a: Database, b: Database) {
    && a.now <= b.now
    && forall id :: id in a.rows ==>
         && id in b.rows && a.rows[id].attempts <= b.rows[id].attempts
         && (a.rows[id].status.Final() ==> b.rows[id] == a.rows[id])
  }

  // ---- Workers --------------------------------------------------------------

  /** One claim of the run by some worker: its graph once loaded, and whether a write of it
      has failed, after which it writes nothing more. */
  datatype Session = Session(loaded: bool, memory: Nodes, failed: bool)

  /** The database, every session that has not crashed, the tokens used so far, and the graph
      as of the last committed transition, which no component of the system holds. */
  datatype Cluster = Cluster(db: Database, graph: Nodes, sessions: map<Id, Session>, used: set<Id>)

  /** How a transition transaction ends: committed and acknowledged, committed with the
      acknowledgement lost, or rolled back. */
  datatype Outcome = Acked | Unacked | RolledBack

  datatype Step =
    | Tick(later: Time)
    | Claims(token: Id, seconds: nat)
    | Renews(token: Id, seconds: nat)
    | Releases(token: Id)
    | Loads(token: Id)
    | Commits(token: Id, id: Id, next: Node, outcome: Outcome)
    | Inserts(token: Id, caller: Id, attempt: int, id: Id, row: Row)
    | Adds(token: Id, id: Id)
    | Cancels
    | Crashes(token: Id)

  predicate Working(c: Cluster, token: Id) {
    token in c.sessions && c.sessions[token].loaded && !c.sessions[token].failed
  }

  /** What an executor may ask to be written: a legal commit, or a failed node once more. */
  predicate Requested(n: Node, next: Node) {
    LegalCommit(n, next) || (next == n && n.state.Failed?)
  }

  function SetSession(c: Cluster, token: Id, s: Session): Cluster {
    c.(sessions := c.sessions[token := s])
  }

  /** A transition by a session. */
  function Committed(c: Cluster, token: Id, id: Id, next: Node, outcome: Outcome): Cluster
    requires token in c.sessions && (outcome.RolledBack? || id in c.db.rows)
  {
    var s := c.sessions[token];
    match outcome
    case RolledBack => SetSession(c, token, s.(failed := true))
    case Unacked => SetSession(c, token, s.(failed := true)).(db := Transition(c.db, id, next), graph := c.graph[id := next])
    case Acked =>
      SetSession(c, token, s.(memory := s.memory[id := next])).(db := Transition(c.db, id, next), graph := c.graph[id := next])
  }

  function CollapseAll(nodes: Nodes): Nodes {
    map id | id in nodes :: Collapse(nodes[id])
  }

  function Loaded(c: Cluster, token: Id): Cluster
    requires token in c.sessions
  {
    var db := Reset(c.db, token);
    SetSession(c, token, Session(true, LoadGraph(db), false)).(
      db := db, graph := if Active(c.db, token) then CollapseAll(c.graph) else c.graph)
  }

  function CanceledGraphNode(n: Node): Node {
    if n.Terminal() then n else n.(state := Canceled, report := n.report.(error := "run canceled"))
  }

  function CanceledGraph(c: Cluster): Nodes {
    if RootLive(c.db) then map id | id in c.graph :: CanceledGraphNode(c.graph[id]) else c.graph
  }

  ghost predicate Next(c: Cluster, step: Step, c': Cluster) {
    match step
    case Tick(later) => c.db.now <= later && c' == c.(db := c.db.(now := later))
    case Claims(token, seconds) =>
      && token !in c.used && CanClaim(c.db)
      && c' == SetSession(c, token, Session(false, map[], false)).(db := Claim(c.db, token, seconds), used := c.used + {token})
    case Renews(token, seconds) => token in c.sessions && c' == c.(db := Renew(c.db, token, seconds))
    case Releases(token) => token in c.used && c' == c.(db := Release(c.db, token))
    case Loads(token) => token in c.sessions && !c.sessions[token].loaded && c' == Loaded(c, token)
    case Commits(token, id, next, outcome) =>
      && Working(c, token) && id in c.sessions[token].memory && Requested(c.sessions[token].memory[id], next)
      && (!outcome.RolledBack? ==> Fenced(c.db, token, id, c.sessions[token].memory[id].attempt))
      && c' == Committed(c, token, id, next, outcome)
    case Inserts(token, caller, attempt, id, row) =>
      && CanInsert(c.db, token, caller, attempt) && id !in c.db.rows
      && row == NewRow(caller, row.limit, row.imageKey, row.cacheKey)
      && c' == c.(db := c.db.(rows := c.db.rows[id := row]), graph := c.graph[id := GraphNode(row)])
    case Adds(token, id) =>
      && Working(c, token) && id !in c.sessions[token].memory && id in c.db.rows
      && c' == SetSession(c, token, c.sessions[token].(memory := c.sessions[token].memory[id := GraphNode(c.db.rows[id])]))
    case Cancels => c' == c.(db := CancelRun(c.db), graph := CanceledGraph(c))
    case Crashes(token) => c' == c.(sessions := c.sessions - {token})
  }

  /** A run as `CreateRun` leaves it: one queued root and no claim. */
  ghost predicate Created(c: Cluster) {
    && c.sessions == map[] && c.used == {} && c.db.token.None?
    && c.db.rows.Keys == {c.db.root}
    && var row := c.db.rows[c.db.root];
       && row == Row(None, row.limit, row.imageKey, row.cacheKey, RowQueued, 0, 0, [], "", None)
       && c.graph == map[c.db.root := GraphNode(row)]
  }

  ghost predicate IsRun(trace: seq<Cluster>, steps: seq<Step>) {
    && |trace| == |steps| + 1 && Created(trace[0])
    && forall i :: 0 <= i < |steps| ==> Next(trace[i], steps[i], trace[i + 1])
  }
}
