/** Watching a run: the server's two phases over one set of cursors, and the client that
    reconnects. */
module Watch {
  import opened Base
  import opened Prefix
  import opened RunLog
  import opened Tail
  import opened Subscriptions

  /** One served stretch after another, with a new bound in between and the log growing. */
  lemma ServedAcross(a: Log, b: Log, c0: Cursor, c1: Cursor, until: Option<int>, c2: Cursor,
                     s0: seq<Record>, s1: seq<Record>, s2: seq<Record>)
    requires Gapless(b) && Grows(a, b)
    requires Served(a, c0, c1, s0, s1) && Served(b, c1.(until := until), c2, s1, s2)
    ensures s2 == s0 + Select(b, c0.prefix, c0.inspect, c2.inspect)
    ensures c0.inspect <= c2.inspect && (c2.inspect == c0.inspect || c2.inspect <= |b|)
  {
    hide Select, Gapless;
    SelectStable(a, b, c0.prefix, c0.inspect, c1.inspect);
    SelectSplits(b, c0.prefix, c0.inspect, c1.inspect, c2.inspect);
  }

  /** The messages of the first cursor, which are the task log records. */
  method LogsOf(sent: seq<(nat, Record)>) returns (logs: seq<Record>)
    ensures logs == SentFor(sent, 0)
  {
    logs := [];
    for i := 0 to |sent|
      invariant logs == SentFor(sent[..i], 0)
    {
      assert sent[..i + 1][..i] == sent[..i];
      if sent[i].0 == 0 { logs := logs + [sent[i].1]; }
    }
    assert sent[..|sent|] == sent;
  }

  lemma ServedFirst(logs: map<string, Log>, starts: seq<Cursor>, cursors: seq<Cursor>, befores: seq<seq<Record>>, sent: seq<(nat, Record)>)
    requires ServedEach(logs, starts, cursors, befores, sent) && |starts| >= 1
    ensures Served(LogIn(logs, starts[0].stream), starts[0], cursors[0], befores[0], SentFor(sent, 0))
    ensures cursors[0] == starts[0].(inspect := cursors[0].inspect)
  {
    hide SentFor;
  }

  lemma GrewAt(a: map<string, Log>, b: map<string, Log>, name: string)
    requires AllGrew(a, b)
    ensures Grows(LogIn(a, name), LogIn(b, name)) && Gapless(LogIn(b, name))
  {
  }

  /** The run has ended, and the records up to `upTo` include all there were when it did: the end
      of the stream was read, as `logEnd`, only after that. */
  ghost predicate EndSeen(table: LogTable, upTo: int, logEnd: int)
    reads table
  {
    && table.ended.Some? && |LogIn(table.ended.value, TASK_LOG)| <= logEnd <= upTo
    && logEnd <= |table.LogOf(TASK_LOG)|
  }

  /** The first phase stops only at a final status, which is written when the run ends. */
  lemma StopMeansEnd(table: LogTable, sub: Subscription, cursors: array<Cursor>)
    requires table.Valid() && sub.table == table && sub.StoppedBy(cursors)
    requires cursors.Length == 2 && cursors[1].stream == STATUS
    requires forall i, r :: sub.stopsOn(i, r) ==> i == 1 && table.EndsRun(r)
    ensures table.ended.Some?
  {
    hide table.Sound, table.EndsRun;
  }

  lemma EndIsBefore(table: LogTable)
    requires table.Valid() && table.ended.Some?
    ensures |LogIn(table.ended.value, TASK_LOG)| <= |table.LogOf(TASK_LOG)|
  {
    assert Grows(LogIn(table.ended.value, TASK_LOG), LogIn(table.logs, TASK_LOG));
  }

  /** The first phase: both streams without a bound, while the run is live. It ends without an
      error only at the run's final status, and with one only if its context ended or a read or a
      send failed. */
  method FollowLive(table: LogTable, sub: Subscription, cursors: array<Cursor>, terminal: bool) returns (ok: bool)
    requires table.Valid() && sub.table == table && sub.size > 0 && sub.sent == []
    requires cursors.Length == 2 && cursors[1].stream == STATUS && (terminal ==> table.ended.Some?)
    requires forall i, r :: sub.stopsOn(i, r) ==> i == 1 && table.EndsRun(r)
    requires cursors[0].until.None?
    modifies sub`sent, sub`waits, sub`idleWaits, sub.ctx, cursors, table
    ensures table.Grown() && (ok ==> table.ended.Some?)
    ensures (!ok ==> sub.ctx.lives == 0 || sub.ctx.broken) && sub.ctx.lives <= old(sub.ctx.lives) && (terminal ==> ok)
    ensures Served(table.LogOf(old(cursors[0]).stream), old(cursors[0]), cursors[0], [], SentFor(sub.sent, 0))
    ensures cursors[0] == old(cursors[0]).(inspect := cursors[0].inspect)
  {
    hide Gapless, ServedEach, AllGrew, SentFor, Served, SentUntil, table.EndsRun, table.Sound;
    ghost var first := cursors[..];
    AllGrewHere(table);
    HereAtFirst(table, first);
    ok := true;
    if !terminal {
      var r, _ := sub.Run(cursors);
      ok := r.Stopped?;
      Unbounded(sub, first, cursors[..], r);
      if ok { StopMeansEnd(table, sub, cursors); }
    }
    ServedFirst(table.logs, first, cursors[..], SentForAll([], 2), sub.sent);
    EmptySent(0);
  }

  /** A run with an unbounded cursor never completes. */
  lemma Unbounded(sub: Subscription, first: seq<Cursor>, now: seq<Cursor>, r: Outcome)
    requires Advanced(first, now) && |first| > 0 && first[0].until.None?
    requires r.Complete? ==> forall i :: 0 <= i < |now| ==> sub.Finished(now[i])
    ensures !r.Complete?
  {
    assert now[0].until.None?;
  }

  lemma AllGrewHere(table: LogTable)
    requires table.Valid()
    ensures AllGrew(table.logs, table.logs)
  {
    AllGrewRefl(table.logs);
  }

  lemma HereAtFirst(table: LogTable, first: seq<Cursor>)
    requires table.Valid()
    ensures ServedEach(table.logs, first, first, SentForAll([], |first|), [])
  {
    ServedEachAtFirst(table.logs, first, []);
  }

  /** The second phase: what is left up to the current ends of the streams. */
  method FollowRest(table: LogTable, sub: Subscription, cursors: array<Cursor>) returns (complete: bool, ghost logEnd: int)
    requires table.Valid() && table.ended.Some? && sub.table == table && sub.size > 0
    requires cursors.Length == 2 && cursors[0].stream == TASK_LOG
    modifies sub, sub.ctx, cursors, table
    ensures table.Grown()
    ensures (!complete ==> sub.ctx.lives == 0 || sub.ctx.broken) && sub.ctx.lives <= old(sub.ctx.lives)
    ensures Served(table.LogOf(TASK_LOG), old(cursors[0]).(until := Some(logEnd)), cursors[0],
                   SentFor(old(sub.sent), 0), SentFor(sub.sent, 0))
    ensures complete ==> cursors[0].inspect >= logEnd
    ensures table.ended.Some? && |LogIn(table.ended.value, TASK_LOG)| <= logEnd <= |table.LogOf(TASK_LOG)|
  {
    hide Gapless, ServedEach, AllGrew, SentFor, Served, Advanced, WithinEnds, table.EndsRun, table.Sound;
    ghost var logs0, sent0 := table.logs, sub.sent;
    var end := table.StreamEnd(TASK_LOG);
    logEnd := end;
    EndIsBefore(table);
    ghost var logs1 := table.logs;
    cursors[0] := cursors[0].(until := Some(end));
    end := table.StreamEnd(STATUS);
    cursors[1] := cursors[1].(until := Some(end));
    sub.stopsOn := (_: nat, _: Record) => false;
    ghost var second, logs2 := cursors[..], table.logs;
    AllGrewTrans(logs0, logs1, logs2);
    var r, _ := sub.Run(cursors);
    AllGrewTrans(logs0, logs2, table.logs);
    AllGrewTrans(logs1, logs2, table.logs);
    GrewAt(logs1, table.logs, TASK_LOG);
    ServedFirst(table.logs, second, cursors[..], SentForAll(sent0, 2), sub.sent);
    complete := r.Complete?;
    if r.Stopped? { LastAsks(sub, sent0, sub.sent); }
  }

  lemma LastAsks(sub: Subscription, sent0: seq<(nat, Record)>, sent: seq<(nat, Record)>)
    requires SentUntil(sent0, sent, sub.stopsOn, true)
    ensures |sent| > 0 && sub.stopsOn(sent[|sent| - 1].0, sent[|sent| - 1].1)
  {
  }

  /** `watchRun` with a task log cursor. While the run is live, both streams are followed
      without a bound until its final status arrives; then what is left up to the current ends
      is sent from where the first phase stopped. However many records were appended in the
      meantime, the task log records sent are exactly the matching ones after `after`, in
      order, up to `upTo`. A normal end means that the run has ended, that the end of the stream
      was read after that, and that nothing up to there is missing. An end with an error means that
      the context ended or that a read or a send failed. */
  method WatchRun(table: LogTable, ctx: Context, size: nat, after: nat, prefix: Bytes)
      returns (logs: seq<Record>, ok: bool, ghost upTo: int, ghost logEnd: int)
    requires table.Valid() && size > 0
    modifies table, ctx
    ensures table.Grown() && (!ok ==> ctx.lives == 0 || ctx.broken)
    ensures logs == Select(table.LogOf(TASK_LOG), prefix, after, upTo)
    ensures after <= upTo && (upTo == after || upTo <= |table.LogOf(TASK_LOG)|)
    ensures ok ==> EndSeen(table, upTo, logEnd)
  {
    hide Select, Gapless, Served, AllGrew, SentFor, table.Sound;
    ghost var logs0 := table.logs;
    var terminal := table.ReadStatus();
    var snapshot := |table.LogOf(STATUS)|;
    var asks := (i: nat, r: Record) => i == 1 && r.seqNo > snapshot && table.EndsRun(r);
    var sub := new Subscription(table, size, ctx, asks);
    var cursors := new Cursor[2];
    cursors[0], cursors[1] := Cursor(TASK_LOG, prefix, after, None), Cursor(STATUS, [], 0, None);
    ghost var logs1, first := table.logs, cursors[0];
    ok := FollowLive(table, sub, cursors, terminal);
    ghost var logs2, second, sent2 := table.logs, cursors[0], sub.sent;
    AllGrewTrans(logs0, logs1, logs2);
    ServedFromNothing(table.LogOf(TASK_LOG), first, second, SentFor(sent2, 0));
    if !ok {
      logs := LogsOf(sub.sent);
      return logs, false, cursors[0].inspect, 0;
    }
    ok, logEnd := FollowRest(table, sub, cursors);
    AllGrewTrans(logs0, logs2, table.logs);
    GrewAt(logs2, table.logs, TASK_LOG);
    ServedAcross(LogIn(logs2, TASK_LOG), table.LogOf(TASK_LOG), first, second, Some(logEnd), cursors[0],
                 [], SentFor(sent2, 0), SentFor(sub.sent, 0));
    logs := LogsOf(sub.sent);
    return logs, ok, cursors[0].inspect, logEnd;
  }

  lemma EmptySent(i: nat)
    ensures SentFor([], i) == []
  {
  }

  lemma ServedFromNothing(log: Log, c0: Cursor, c: Cursor, sent: seq<Record>)
    requires Served(log, c0, c, [], sent)
    ensures sent == Select(log, c0.prefix, c0.inspect, c.inspect)
    ensures c0.inspect <= c.inspect && (c.inspect == c0.inspect || c.inspect <= |log|)
  {
  }

  // ---- The client -----------------------------------------------------------

  /** Where the client's cursor is after `k` of the records sent since `start`. */
  function CursorAfter(start: nat, sent: seq<Record>, k: nat): int
    requires k <= |sent|
  {
    if k == 0 then start else sent[k - 1].seqNo
  }

  lemma ReceivedSoFar(log: Log, prefix: Bytes, start: nat, upTo: int, sent: seq<Record>, k: nat)
    requires Gapless(log) && sent == Select(log, prefix, start, upTo) && k <= |sent| && start <= upTo
    ensures var at := CursorAfter(start, sent, k);
            && start <= at && (at == start || at <= |log|)
            && Select(log, prefix, 0, at) == Select(log, prefix, 0, start) + sent[..k]
            && (k < |sent| ==> at < sent[k].seqNo)
  {
    if k == 0 {
      if k < |sent| { SelectMembers(log, prefix, start, upTo, 0); }
    } else {
      SelectMembers(log, prefix, start, upTo, k - 1);
      SelectTake(log, prefix, start, upTo, k);
      SelectSplits(log, prefix, 0, start, sent[k - 1].seqNo);
      if k < |sent| { SelectSorted(log, prefix, start, upTo, k - 1, k); }
    }
  }

  /** One connection's records as the client takes them: those it has are skipped. */
  method Receive(logs: seq<Record>, start: nat, yielded: seq<Record>, ghost log: Log, ghost prefix: Bytes, ghost upTo: int,
                 ghost sent: seq<Record>)
      returns (cursor: nat, yielded': seq<Record>)
    requires Gapless(log) && sent == Select(log, prefix, start, upTo) && start <= upTo
    requires |logs| <= |sent| && logs == sent[..|logs|] && yielded == Select(log, prefix, 0, start)
    ensures cursor == CursorAfter(start, sent, |logs|) && yielded' == yielded + logs
    ensures yielded' == Select(log, prefix, 0, cursor) && (cursor == start || cursor <= |log|)
  {
    hide Select, Gapless;
    cursor, yielded' := start, yielded;
    for i := 0 to |logs|
      invariant cursor == CursorAfter(start, sent, i) && yielded' == yielded + sent[..i]
    {
      ReceivedSoFar(log, prefix, start, upTo, sent, i);
      if logs[i].seqNo <= cursor { continue; }
      cursor := logs[i].seqNo;
      yielded' := yielded' + [logs[i]];
    }
    ReceivedSoFar(log, prefix, start, upTo, sent, |logs|);
  }

  /** How a connection ended for the client: as the server meant it to, broken while the run seemed
      live, or broken after its final status. */
  datatype End = Clean | Dropped | Fatal

  /** The network: it may cut a connection anywhere. */
  class Link {
    ghost var ends: seq<End>

    constructor ()
      ensures ends == []
    {
      ends := [];
    }

    /** One connection from `cursor` on: what arrives is a beginning of what the server sends, and
        all of it if it ends cleanly. It ends cleanly unless it is cut or the server gives up. */
    method Connect(table: LogTable, ctx: Context, size: nat, cursor: nat, prefix: Bytes)
        returns (received: seq<Record>, end: End, ghost sent: seq<Record>, ghost cut: bool, ghost upTo: int, ghost logEnd: int)
      requires table.Valid() && size > 0
      modifies table, ctx, this
      ensures table.Grown() && ends == old(ends) + [end]
      ensures sent == Select(table.LogOf(TASK_LOG), prefix, cursor, upTo)
      ensures cursor <= upTo && (upTo == cursor || upTo <= |table.LogOf(TASK_LOG)|)
      ensures |received| <= |sent| && received == sent[..|received|]
      ensures end.Clean? ==> received == sent && EndSeen(table, upTo, logEnd)
      ensures !end.Clean? ==> cut || ctx.lives == 0 || ctx.broken
    {
      hide Select, Gapless, AllGrew;
      var logs, ok;
      logs, ok, upTo, logEnd := WatchRun(table, ctx, size, cursor, prefix);
      sent := logs;
      var got: nat, terminal: bool := *, *;
      var whole := got >= |logs|;
      cut := !whole;
      received := if whole then logs else logs[..got];
      end := if ok && whole then Clean else if terminal then Fatal else Dropped;
      ends := ends + [end];
    }
  }

  /** The client's `watchRun`: it reconnects from its cursor until a connection ends normally
      or it gives up. However often connections break, and wherever they break, it yields the
      matching task log records from the first on, each once and in order; when it ends
      normally the run has ended and none is missing that was there when it did. It ends normally
      with the first connection that does, and gives up only when one breaks after the final status
      or `tries` of them have ended otherwise. */
  method FollowRun(table: LogTable, link: Link, size: nat, prefix: Bytes, tries: nat)
      returns (yielded: seq<Record>, finished: bool, ghost upTo: int, ghost logEnd: int)
    requires table.Valid() && size > 0
    modifies table, link
    ensures table.Grown()
    ensures yielded == Select(table.LogOf(TASK_LOG), prefix, 0, upTo)
    ensures finished ==> EndSeen(table, upTo, logEnd)
    ensures |old(link.ends)| <= |link.ends| <= |old(link.ends)| + tries && link.ends[..|old(link.ends)|] == old(link.ends)
    ensures forall k :: |old(link.ends)| <= k < |link.ends| - 1 ==> link.ends[k].Dropped?
    ensures finished <==> |old(link.ends)| < |link.ends| && link.ends[|link.ends| - 1].Clean?
    ensures !finished ==> |link.ends| == |old(link.ends)| + tries
                           || (|old(link.ends)| < |link.ends| && link.ends[|link.ends| - 1].Fatal?)
  {
    hide Select, Gapless, AllGrew;
    ghost var logs0, end0, ends0 := table.logs, table.ended, link.ends;
    AllGrewRefl(logs0);
    var cursor: nat := 0;
    yielded, finished, upTo, logEnd := [], false, 0, 0;
    NothingYet(table, prefix);
    for left := tries downto 0
      invariant table.Valid() && AllGrew(logs0, table.logs) && SameEnd(end0, table.ended)
      invariant yielded == Select(table.LogOf(TASK_LOG), prefix, 0, cursor)
      invariant cursor == 0 || cursor <= |table.LogOf(TASK_LOG)|
      invariant |link.ends| == |ends0| + tries - left && link.ends[..|ends0|] == ends0 && !finished
      invariant forall k :: |ends0| <= k < |link.ends| ==> link.ends[k].Dropped?
    {
      ghost var logs1 := table.logs;
      var lives: nat := *;
      var ctx := new Context(lives);
      var received, end;
      ghost var sent, cut;
      received, end, sent, cut, upTo, logEnd := link.Connect(table, ctx, size, cursor, prefix);
      AllGrewTrans(logs0, logs1, table.logs);
      GrewAt(logs1, table.logs, TASK_LOG);
      GrewAt(logs0, logs1, TASK_LOG);
      ghost var log := table.LogOf(TASK_LOG);
      SelectStable(LogIn(logs1, TASK_LOG), log, prefix, 0, cursor);
      ghost var start := cursor;
      cursor, yielded := Receive(received, cursor, yielded, log, prefix, upTo, sent);
      if end.Clean? {
        SelectSplits(log, prefix, 0, start, upTo);
        return yielded, true, upTo, logEnd;
      }
      if end.Fatal? { break; }
    }
    upTo, logEnd := cursor, 0;
  }

  lemma NothingYet(table: LogTable, prefix: Bytes)
    requires table.Valid()
    ensures Select(table.LogOf(TASK_LOG), prefix, 0, 0) == []
  {
    SelectNothing(table.LogOf(TASK_LOG), prefix, 0, 0);
  }
}
