/** The statements as they run against the tables, each of them one step of the cluster. */
module RunTables {
  import opened Base
  import opened Graph
  import opened RunStore
  import RunSafety
  import Validate

  /** The rows of one run in the database, with its sessions and its history as ghost state. */
  class Tables {
    const root: Id
    var now: Time
    var token: Option<Id>
    var leaseUntil: Time
    var rows: map<Id, Row>

    ghost var cluster: Cluster
    ghost var trace: seq<Cluster>
    ghost var steps: seq<Step>

    ghost function View(): Database
      reads this
    {
      Database(now, root, token, leaseUntil, rows)
    }

    /** The history of the tables is a run of the cluster. */
    ghost predicate Valid()
      reads this
    {
      IsRun(trace, steps) && trace[|steps|] == cluster && cluster.db == View()
    }

    /** The statement was one step of the cluster. */
    twostate predicate Took(step: Step)
      reads this
    {
      && Valid() && Next(old(cluster), step, cluster)
      && trace == old(trace) + [cluster] && steps == old(steps) + [step]
    }

    /** The statement changed nothing. */
    twostate predicate Stayed()
      reads this
    {
      Valid() && View() == old(View()) && cluster == old(cluster) && trace == old(trace) && steps == old(steps)
    }

    /** `InsertRun`, `InsertRootAction` and `UpdateRunRootAction`. */
    constructor (start: Time, root: Id, limit: int, imageKey: Bytes, cacheKey: Bytes)
      ensures Valid() && steps == [] && this.root == root && rows.Keys == {root} && token.None?
    {
      var row := Row(None, limit, imageKey, cacheKey, RowQueued, 0, 0, [], "", None);
      this.root, now, token, leaseUntil, rows := root, start, None, 0, map[root := row];
      cluster := Cluster(Database(start, root, None, 0, map[root := row]), map[root := GraphNode(row)], map[], {});
      trace, steps := [Cluster(Database(start, root, None, 0, map[root := row]), map[root := GraphNode(row)], map[], {})], [];
    }

    ghost method Record(step: Step, next: Cluster)
      requires IsRun(trace, steps) && trace[|steps|] == cluster && Next(cluster, step, next) && next.db == View()
      modifies this`cluster, this`trace, this`steps
      ensures Valid() && cluster == next && trace == old(trace) + [next] && steps == old(steps) + [step]
    {
      hide Next, Created;
      var t, u := trace + [next], steps + [step];
      forall i | 0 <= i < |u| ensures Next(t[i], u[i], t[i + 1]) {
        if i < |steps| { assert Next(trace[i], steps[i], trace[i + 1]); }
      }
      trace, steps, cluster := t, u, next;
    }

    lemma Invariants()
      requires Valid()
      ensures RunSafety.ClusterInv(cluster)
    {
      hide Next, Created, RunSafety.ClusterInv;
      RunSafety.RunInv(trace, steps, |steps|);
    }

    method LeaseLive(holder: Id) returns (live: bool)
      ensures live <==> Active(View(), holder)
    {
      live := token == Some(holder) && now < leaseUntil;
    }

    /** The database clock moves on. */
    method Tick(later: Time)
      requires Valid() && now <= later
      modifies this
      ensures Took(Step.Tick(later)) && now == later
    {
      hide IsRun;
      now := later;
      Record(Step.Tick(later), cluster.(db := cluster.db.(now := later)));
    }

    /** `ClaimRun` for this run. A claim fences every earlier claim. */
    method ClaimRun(claimant: Id, seconds: nat) returns (claimed: bool)
      requires Valid() && claimant !in cluster.used
      modifies this
      ensures claimed <==> (old(token).None? || old(leaseUntil) <= old(now)) && exists id :: id in old(rows) && !old(rows)[id].status.Final()
      ensures if claimed then Took(Claims(claimant, seconds)) else Stayed()
      ensures claimed ==> rows == old(rows) && now == old(now)
      ensures claimed ==> forall t :: now <= t ==> (t < now + seconds <==> Active(View().(now := t), claimant))
      ensures claimed ==> forall t :: t in old(cluster).used ==> RunSafety.Dead(cluster, t)
    {
      hide IsRun;
      if token.Some? && now < leaseUntil { return false; }
      var rest := rows.Keys;
      claimed := false;
      while rest != {} && !claimed
        invariant rest <= rows.Keys
        invariant claimed ==> Unfinished(View())
        invariant !claimed ==> forall id :: id in rows && id !in rest ==> rows[id].status.Final()
      {
        var id :| id in rest;
        rest := rest - {id};
        claimed := !rows[id].status.Final();
      }
      if claimed {
        token, leaseUntil := Some(claimant), now + seconds;
        Record(Claims(claimant, seconds), SetSession(cluster, claimant, Session(false, map[], false)).(
               db := Claim(cluster.db, claimant, seconds), used := cluster.used + {claimant}));
      }
    }

    /** `RenewRunLease`: the number of rows it updated. One means the lease goes on, zero that it
        is lost for good. */
    method RenewRunLease(holder: Id, seconds: nat) returns (updated: nat)
      requires Valid() && holder in cluster.sessions
      modifies this
      ensures Took(Renews(holder, seconds)) && rows == old(rows) && token == old(token)
      ensures updated <= 1 && (updated == 1 <==> old(Active(View(), holder)))
      ensures updated == 1 ==> forall t :: now <= t ==> (t < now + seconds <==> Active(View().(now := t), holder))
      ensures updated == 0 ==> RunSafety.Dead(cluster, holder) && View() == old(View())
    {
      hide IsRun;
      Invariants();
      var live := LeaseLive(holder);
      if live {
        leaseUntil := now + seconds;
        updated := 1;
      } else {
        updated := 0;
      }
      Record(Renews(holder, seconds), cluster.(db := Renew(cluster.db, holder, seconds)));
    }

    /** `ReleaseRunClaim`: the holder gives its own claim up for good and leaves any other alone; a
        run it held and that is not finished can be claimed at once. */
    method ReleaseRunClaim(holder: Id)
      requires Valid() && holder in cluster.used
      modifies this
      ensures Took(Releases(holder)) && rows == old(rows) && RunSafety.Dead(cluster, holder)
      ensures forall t :: t != holder ==> (Active(View(), t) <==> old(Active(View(), t)))
      ensures old(token) == Some(holder) ==> (CanClaim(View()) <==> Unfinished(View()))
    {
      hide IsRun, Unfinished;
      if token == Some(holder) { token := None; }
      Record(Releases(holder), cluster.(db := Release(cluster.db, holder)));
    }

    /** `ResetRunActions`. */
    method ResetRows(holder: Id)
      modifies this`rows
      ensures View() == Reset(old(View()), holder) && rows.Keys == old(rows).Keys
      ensures forall id :: id in rows ==>
                var row := old(rows)[id];
                rows[id] == if old(Active(View(), holder)) && (row.status.RowRunning? || row.status.RowWaiting?)
                            then row.(status := RowQueued) else row
    {
      hide Requeued;
      var live := LeaseLive(holder);
      if live {
        var rest := rows.Keys;
        while rest != {}
          invariant rest <= rows.Keys == old(rows).Keys
          invariant forall id :: id in rows ==> rows[id] == if id in rest then old(rows)[id] else Requeued(old(rows)[id])
        {
          var id :| id in rest;
          rest := rest - {id};
          var row := rows[id];
          RequeuedIs(row);
          if row.status.RowRunning? || row.status.RowWaiting? { rows := rows[id := row.(status := RowQueued)]; }
        }
        forall id | id in rows
          ensures rows[id] == var row := old(rows)[id]; if row.status.RowRunning? || row.status.RowWaiting? then row.(status := RowQueued) else row
        {
          RequeuedIs(old(rows)[id]);
        }
      }
    }

    lemma SnapshotRestores()
      ensures forall id :: id in rows ==> Restores(LoadGraph(View())[id], rows[id])
    {
      hide Restores, GraphNode;
      forall id | id in rows ensures Restores(LoadGraph(View())[id], rows[id]) { LoadRestores(View(), id); }
    }

    /** `ResetRunActions` followed by `LoadRunGraph` in one transaction: the graph as of the last
        committed transition, collapsed, which the executor will accept. */
    method ResetAndLoad(holder: Id) returns (snapshot: Nodes)
      requires Valid() && holder in cluster.sessions && !cluster.sessions[holder].loaded
      modifies this
      ensures Took(Loads(holder)) && View() == Reset(old(View()), holder)
      ensures holder in cluster.sessions && cluster.sessions[holder].memory == snapshot
      ensures snapshot == CollapseAll(old(cluster).graph) && Validate.Acceptable(snapshot) && Tree(snapshot, root)
      ensures snapshot.Keys == rows.Keys == old(rows).Keys && forall id :: id in rows ==> Restores(snapshot[id], rows[id])
      ensures forall id :: id in rows ==>
                var row := old(rows)[id];
                rows[id] == if old(Active(View(), holder)) && (row.status.RowRunning? || row.status.RowWaiting?)
                            then row.(status := RowQueued) else row
    {
      hide IsRun, GraphNode, Reset, RunSafety.ClusterInv, Restores;
      Invariants();
      LoadedIs(cluster, holder);
      ResetRows(holder);
      snapshot := map id | id in rows :: GraphNode(rows[id]);
      Record(Loads(holder), Loaded(cluster, holder));
      hide Next;
      SnapshotRestores();
      Accepted();
    }

    lemma Accepted()
      requires Valid()
      ensures Validate.Acceptable(LoadGraph(View())) && Tree(LoadGraph(View()), root)
    {
      hide Next, Created, LoadGraph, Tree, Validate.Acceptable;
      RunSafety.LoadedGraphsAreAccepted(trace, steps, |steps|);
    }

    /** `Transition`: a locked check and update, asked for by the executor of a session. The
        transaction may fail before it commits, and its acknowledgement may be lost; only an
        acknowledged one is a success. */
    method Transition(holder: Id, id: Id, expected: int, next: Node) returns (outcome: Outcome)
      requires Valid() && Working(cluster, holder) && id in cluster.sessions[holder].memory
      requires expected == cluster.sessions[holder].memory[id].attempt && Requested(cluster.sessions[holder].memory[id], next)
      modifies this
      ensures Took(Commits(holder, id, next, outcome))
      ensures !outcome.RolledBack? ==>
                && old(token) == Some(holder) && old(now) < old(leaseUntil)
                && id in old(rows) && old(rows)[id].attempts == expected && !old(rows)[id].status.Final()
      ensures if outcome.RolledBack? then View() == old(View())
              else rows.Keys == old(rows).Keys && id in rows && Stores(rows[id], next)
                   && forall x :: x in rows && x != id ==> rows[x] == old(rows)[x]
      ensures View() == if outcome.RolledBack? then old(View()) else RunStore.Transition(old(View()), id, next)
    {
      hide IsRun, Requested;
      var live := LeaseLive(holder);
      var commits, acked: bool := *, *;
      if !live || id !in rows || rows[id].attempts != expected || rows[id].status.Final() || !commits {
        outcome := RolledBack;
      } else {
        var row := rows[id];
        rows := rows[id := row.(
          status := GraphStatus(next.state), attempts := next.attempt, failures := next.failures,
          output := next.report.output, error := next.report.error,
          nextAttemptAt := if next.nextAttemptAt == 0 then None else Some(next.nextAttemptAt))];
        outcome := if acked then Acked else Unacked;
      }
      Record(Commits(holder, id, next, outcome), Committed(cluster, holder, id, next, outcome));
    }

    /** The guarded insert of `CreateTaskAction`, for an idempotency key not used before. While the
        lease is live it succeeds exactly if the worker's own graph has the root live and the
        caller at work under that attempt number; then a reload finds a pending child of the
        caller, and no other row has changed. */
    method CreateTaskAction(holder: Id, caller: Id, attempt: int, id: Id, limit: int, imageKey: Bytes, cacheKey: Bytes)
        returns (created: bool)
      requires Valid() && id !in rows
      modifies this
      ensures created ==> old(Active(View(), holder))
      ensures old(Active(View(), holder) && Working(cluster, holder)) ==>
                var memory := old(cluster).sessions[holder].memory;
                root in memory && caller in memory ==>
                  (created <==> !memory[root].Terminal() && memory[caller].attempt == attempt
                                && (memory[caller].state.Running? || memory[caller].state.Waiting?))
      ensures if created then Took(Inserts(holder, caller, attempt, id, NewRow(caller, limit, imageKey, cacheKey))) else Stayed()
      ensures created ==>
                && rows == old(rows)[id := Row(Some(caller), limit, imageKey, cacheKey, RowQueued, 0, 0, [], "", None)]
                && LoadGraph(View()) == LoadGraph(old(View()))[id := LoadGraph(View())[id]]
                && LoadGraph(View())[id].state.Pending? && ChildOf(LoadGraph(View()), id, caller)
    {
      hide IsRun;
      if Working(cluster, holder) { CallerAtWork(holder, caller, attempt); }
      var live := LeaseLive(holder);
      created := root in rows && !rows[root].status.Final() && live && caller in rows && rows[caller].attempts == attempt
                 && (rows[caller].status.RowRunning? || rows[caller].status.RowWaiting?);
      if created {
        var row := Row(Some(caller), limit, imageKey, cacheKey, RowQueued, 0, 0, [], "", None);
        rows := rows[id := row];
        Record(Inserts(holder, caller, attempt, id, row),
               cluster.(db := cluster.db.(rows := cluster.db.rows[id := row]), graph := cluster.graph[id := GraphNode(row)]));
      }
    }

    /** The guard of an insert in terms of the worker's graph. */
    lemma CallerAtWork(holder: Id, caller: Id, attempt: int)
      requires Valid() && Working(cluster, holder)
      ensures var memory := cluster.sessions[holder].memory;
              Active(View(), holder) && root in memory && caller in memory ==>
                (CanInsert(View(), holder, caller, attempt) <==>
                   !memory[root].Terminal() && memory[caller].attempt == attempt
                   && (memory[caller].state.Running? || memory[caller].state.Waiting?))
    {
      hide Next, Created;
      var memory := cluster.sessions[holder].memory;
      if Active(View(), holder) && root in memory && caller in memory {
        RunSafety.LiveMemoryIsStored(trace, steps, |steps|, holder, root);
        RunSafety.LiveMemoryIsStored(trace, steps, |steps|, holder, caller);
      }
    }

    /** The row of a child as a worker adds it to its graph. */
    method LoadChild(holder: Id, id: Id) returns (node: Node)
      requires Valid() && Working(cluster, holder) && id !in cluster.sessions[holder].memory && id in rows
      modifies this
      ensures Took(Adds(holder, id)) && View() == old(View())
      ensures holder in cluster.sessions && cluster.sessions[holder].memory == old(cluster).sessions[holder].memory[id := node]
      ensures Restores(node, rows[id])
      ensures Active(View(), holder) ==> node.Restored() && id in cluster.graph && node == cluster.graph[id]
    {
      hide IsRun;
      Invariants();
      NotTouched(cluster, holder, id);
      node := GraphNode(rows[id]);
      Record(Adds(holder, id), SetSession(cluster, holder, cluster.sessions[holder].(memory := cluster.sessions[holder].memory[id := node])));
    }

    /** `CancelRunIfActive`. */
    method CancelRows()
      modifies this`rows
      ensures View().(token := None) == RunStore.CancelRun(old(View()))
    {
      if root in rows && !rows[root].status.Final() {
        var rest := rows.Keys;
        while rest != {}
          invariant rest <= rows.Keys == old(rows).Keys
          invariant forall id :: id in rows ==> rows[id] == if id in rest then old(rows)[id] else CanceledRow(old(rows)[id])
        {
          var id :| id in rest;
          rest := rest - {id};
          if !rows[id].status.Final() { rows := rows[id := rows[id].(status := RowCanceled, error := "run canceled")]; }
        }
      }
    }

    /** `CancelRunIfActive` and `ClearRunClaim`: afterwards nobody holds the run, an unfinished run
        is finished and cannot be claimed again, and finished rows are as they were. */
    method CancelRun()
      requires Valid()
      modifies this
      ensures Took(Cancels) && View() == RunStore.CancelRun(old(View()))
      ensures forall t :: t in cluster.used ==> RunSafety.Dead(cluster, t)
      ensures old(RunStore.RootLive(View())) ==> !CanClaim(View())
      ensures rows.Keys == old(rows).Keys
      ensures forall id :: id in rows ==>
                rows[id] == if old(RunStore.RootLive(View())) && !old(rows)[id].status.Final()
                            then old(rows)[id].(status := RowCanceled, error := "run canceled") else old(rows)[id]
    {
      hide IsRun;
      CancelRows();
      token := None;
      Record(Cancels, cluster.(db := RunStore.CancelRun(cluster.db), graph := CanceledGraph(cluster)));
    }
  }

  lemma LoadedIs(c: Cluster, holder: Id)
    requires RunSafety.ClusterInv(c) && holder in c.sessions
    ensures LoadGraph(Reset(c.db, holder)) == CollapseAll(c.graph)
  {
    hide RunSafety.RowsMirror, RunSafety.MemoryAgrees, LoadGraph;
    RunSafety.LoadedMemory(c, holder);
  }

  lemma RequeuedIs(row: Row)
    ensures Requeued(row) == if row.status.RowRunning? || row.status.RowWaiting? then row.(status := RowQueued) else row
  {
  }

  /** What a worker has not added yet has not been touched by anyone. */
  lemma NotTouched(c: Cluster, holder: Id, id: Id)
    requires RunSafety.ClusterInv(c) && Working(c, holder) && id !in c.sessions[holder].memory && id in c.db.rows
    ensures Active(c.db, holder) ==>
              && id in c.graph && GraphNode(c.db.rows[id]) == c.graph[id]
              && (c.graph[id].state.Pending? || c.graph[id].Terminal())
  {
    assert RunSafety.MemoryAgrees(c, holder);
    ReloadCollapses(c.db.rows[id], c.graph[id]);
  }
}
