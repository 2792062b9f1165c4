/** The tail of a run's streams: it reads batches, sends them and waits for notifications. */
module Subscriptions {
  import opened Base
  import opened Prefix
  import opened RunLog
  import opened Tail

  datatype Cursor = Cursor(stream: string, prefix: Bytes, inspect: int, until: Option<int>)

  /** How the consumer answers a record. */
  datatype Reply = Took | Stop | Broken

  datatype Outcome = Complete | Stopped | SendFailed | ContextEnded

  const TASK_LOG := "task_log"
  const STATUS := "status"
  const STATUS_KEY: Bytes := [115, 116, 97, 116, 117, 115]

  // ---- The table that others append to --------------------------------------

  function LogIn(logs: map<string, Log>, name: string): Log {
    if name in logs then logs[name] else []
  }

  /** Every stream only grew. */
  ghost predicate AllGrew(a: map<string, Log>, b: map<string, Log>) {
    && (forall name :: name in b ==> Gapless(b[name]))
    && forall name :: Grows(LogIn(a, name), LogIn(b, name))
  }

  /** Once the run has ended, it has ended for good. */
  predicate SameEnd(a: Option<map<string, Log>>, b: Option<map<string, Log>>) {
    a.Some? ==> b == a
  }

  /** The streams of a run. `final` tells which status values, once decoded, are final; `ended`
      holds the streams as they were when the run ended. A final status is written to the status
      stream in the transaction that ends the run. */
  class LogTable {
    const final: Bytes -> bool
    var logs: map<string, Log>
    ghost var ended: Option<map<string, Log>>

    constructor (final: Bytes -> bool)
      ensures Valid() && logs == map[] && ended.None? && this.final == final
    {
      this.final, logs, ended := final, map[], None;
    }

    /** The record reports a final status. */
    predicate EndsRun(r: Record) {
      r.key == STATUS_KEY && final(r.value)
    }

    /** Streams have no gaps, and what was there when the run ended stays there. */
    ghost predicate Sound()
      reads this
    {
      && (forall name :: name in logs ==> Gapless(logs[name]))
      && (ended.Some? ==> forall name :: Grows(LogIn(ended.value, name), LogIn(logs, name)))
    }

    ghost predicate Valid()
      reads this
    {
      Sound() && forall r :: r in LogOf(STATUS) && EndsRun(r) ==> ended.Some?
    }

    function LogOf(name: string): Log
      reads this
    {
      LogIn(logs, name)
    }

    twostate predicate Grown()
      reads this
    {
      Valid() && AllGrew(old(logs), logs) && SameEnd(old(ended), ended)
    }

    /** A final status in the status stream comes with the end of the run. */
    ghost method NoteEnd(ends: bool)
      requires Sound()
      modifies this`ended
      ensures Valid() && SameEnd(old(ended), ended) && (ends ==> ended.Some?)
    {
      hide Gapless, EndsRun;
      if ended.None? && (ends || exists r :: r in LogOf(STATUS) && EndsRun(r)) { ended := Some(logs); }
    }

    /** Whatever the other writers append between two of our statements, and perhaps the end of
        the run. */
    method OthersAppend()
      requires Valid()
      modifies this
      ensures Grown()
    {
      var name: string := *;
      var more: Log := *;
      var ends: bool := *;
      var log := LogOf(name);
      AllGrewRefl(logs);
      if IsGapless(log + more) {
        AppendGrows(logs, name, more);
        EndStays(ended, logs, logs[name := log + more]);
        logs := logs[name := log + more];
      }
      hide Gapless, Grows;
      NoteEnd(ends);
    }

    /** The status of the run as a reader finds it. */
    method ReadStatus() returns (terminal: bool)
      requires Valid()
      modifies this
      ensures Grown() && (terminal ==> ended.Some?)
    {
      OthersAppend();
      var answer: bool := *;
      terminal := answer;
      NoteEnd(answer);
    }

    predicate IsGapless(log: Log) {
      forall i :: 0 <= i < |log| ==> log[i].seqNo == i + 1
    }

    method ReadFiltered(name: string, after: int, lower: Option<Bytes>, upper: Option<Bytes>, size: nat)
        returns (rows: seq<Found>)
      requires Valid() && size > 0
      modifies this
      ensures Grown() && rows == FilteredRows(LogOf(name), after, lower, upper, size)
    {
      OthersAppend();
      rows := FilteredRows(LogOf(name), after, lower, upper, size);
    }

    /** `LogStreamEnd`. */
    method StreamEnd(name: string) returns (end: int)
      requires Valid()
      modifies this
      ensures Grown() && end == |LogOf(name)|
    {
      OthersAppend();
      end := |LogOf(name)|;
    }
  }

  // ---- What a cursor has delivered ------------------------------------------

  /** What was sent for cursor `i`. */
  function SentFor(sent: seq<(nat, Record)>, i: nat): seq<Record> {
    if sent == [] then []
    else
      var last := sent[|sent| - 1];
      SentFor(sent[..|sent| - 1], i) + (if last.0 == i then [last.1] else [])
  }

  lemma SentOneMore(sent: seq<(nat, Record)>, j: nat, r: Record, i: nat)
    ensures SentFor(sent + [(j, r)], i) == SentFor(sent, i) + (if i == j then [r] else [])
  {
    assert (sent + [(j, r)])[..|sent|] == sent;
  }

  /** The cursor moved from `c0` to `c`, and what was sent for it in between is exactly what
      the log holds for its prefix between the two positions. */
  ghost predicate Served(log: Log, c0: Cursor, c: Cursor, before: seq<Record>, after: seq<Record>) {
    && c == c0.(inspect := c.inspect) && c0.inspect <= c.inspect
    && (c.inspect == c0.inspect || c.inspect <= |log|)
    && after == before + Select(log, c0.prefix, c0.inspect, c.inspect)
  }

  lemma ServedAtFirst(log: Log, c: Cursor, sent: seq<Record>)
    requires Gapless(log)
    ensures Served(log, c, c, sent, sent)
  {
    SelectNothing(log, c.prefix, c.inspect, c.inspect);
  }

  lemma ServedGrows(a: Log, b: Log, c0: Cursor, c: Cursor, before: seq<Record>, after: seq<Record>)
    requires Gapless(b) && Grows(a, b) && Served(a, c0, c, before, after)
    ensures Served(b, c0, c, before, after)
  {
    SelectStable(a, b, c0.prefix, c0.inspect, c.inspect);
  }

  lemma ServedComposes(log: Log, c0: Cursor, c1: Cursor, c2: Cursor, s0: seq<Record>, s1: seq<Record>, s2: seq<Record>)
    requires Gapless(log) && Served(log, c0, c1, s0, s1) && Served(log, c1, c2, s1, s2)
    ensures Served(log, c0, c2, s0, s2)
  {
    SelectSplits(log, c0.prefix, c0.inspect, c1.inspect, c2.inspect);
  }

  /** Stopping at the first record beyond a bound leaves exactly the records up to the bound. */
  lemma SelectBelow(log: Log, prefix: Bytes, after: int, end: int, k: nat, bound: int)
    requires Gapless(log) && k < |Select(log, prefix, after, end)| && after <= bound <= end
    requires var s := Select(log, prefix, after, end);
             s[k].seqNo > bound && (k > 0 ==> s[k - 1].seqNo <= bound)
    ensures Select(log, prefix, after, bound) == Select(log, prefix, after, end)[..k]
  {
    var s := Select(log, prefix, after, end);
    SelectSplits(log, prefix, after, bound, end);
    var low, high := Select(log, prefix, after, bound), Select(log, prefix, bound, end);
    assert s == low + high;
    if |low| > k {
      SelectMembers(log, prefix, after, bound, k);
    } else if |low| < k {
      SelectMembers(log, prefix, bound, end, k - 1 - |low|);
    }
  }

  // ---- When a run stops -----------------------------------------------------

  /** Records were sent one after the other, and sending ended with the first one, if any, at which
      the consumer asked to stop. */
  ghost predicate SentUntil(sent0: seq<(nat, Record)>, sent: seq<(nat, Record)>, stopsOn: (nat, Record) -> bool, stopped: bool) {
    && |sent0| <= |sent| && sent[..|sent0|] == sent0 && (stopped ==> |sent0| < |sent|)
    && forall k :: |sent0| <= k < |sent| ==> (stopsOn(sent[k].0, sent[k].1) <==> stopped && k == |sent| - 1)
  }

  lemma SentNothing(sent: seq<(nat, Record)>, stopsOn: (nat, Record) -> bool)
    ensures SentUntil(sent, sent, stopsOn, false)
  {
  }

  lemma SentOn(a: seq<(nat, Record)>, b: seq<(nat, Record)>, c: seq<(nat, Record)>, stopsOn: (nat, Record) -> bool, stopped: bool)
    requires SentUntil(a, b, stopsOn, false) && SentUntil(b, c, stopsOn, stopped)
    ensures SentUntil(a, c, stopsOn, stopped)
  {
    forall k | |a| <= k < |c| ensures stopsOn(c[k].0, c[k].1) <==> stopped && k == |c| - 1 {
      if k < |b| { assert c[k] == b[k]; }
    }
    assert c[..|b|][..|a|] == c[..|a|];
  }

  /** What was sent since `sent0` and why it ended, if it did: at a record that asks to stop, or
      because a read or a send failed. */
  ghost predicate EndsAs(sent0: seq<(nat, Record)>, broken0: bool, sent: seq<(nat, Record)>, broken: bool,
                         stopsOn: (nat, Record) -> bool, end: Option<Outcome>) {
    SentUntil(sent0, sent, stopsOn, end == Some(Stopped)) && broken == (broken0 || end == Some(SendFailed))
  }

  lemma EndsTrans(sent0: seq<(nat, Record)>, b0: bool, sent1: seq<(nat, Record)>, b1: bool, sent: seq<(nat, Record)>, b: bool,
                  stopsOn: (nat, Record) -> bool, end: Option<Outcome>)
    requires EndsAs(sent0, b0, sent1, b1, stopsOn, None) && EndsAs(sent1, b1, sent, b, stopsOn, end)
    ensures EndsAs(sent0, b0, sent, b, stopsOn, end)
  {
    hide SentUntil;
    SentOn(sent0, sent1, sent, stopsOn, end == Some(Stopped));
  }

  // ---- The subscription -----------------------------------------------------

  class Subscription {
    const table: LogTable
    const size: nat
    const ctx: Context
    var sent: seq<(nat, Record)>
    var waits: nat
    var stopsOn: (nat, Record) -> bool
    ghost var idleWaits: bool

    /** Nothing but the context limits a run. The consumer asks to stop at the records `stopsOn`
        tells. */
    constructor (table: LogTable, size: nat, ctx: Context, stopsOn: (nat, Record) -> bool)
      requires size > 0
      ensures this.table == table && this.size == size && this.ctx == ctx && this.stopsOn == stopsOn
      ensures sent == [] && waits == 0 && idleWaits
    {
      this.table, this.size, this.ctx, sent, waits, this.stopsOn, idleWaits := table, size, ctx, [], 0, stopsOn, true;
    }

    /** The consumer takes a record, takes it and asks to stop, or fails. */
    method Send(i: nat, r: Record) returns (reply: Reply)
      modifies this`sent, ctx`broken
      ensures sent == if reply.Broken? then old(sent) else old(sent) + [(i, r)]
      ensures !reply.Broken? ==> (reply.Stop? <==> stopsOn(i, r))
      ensures ctx.broken == (old(ctx.broken) || reply.Broken?)
    {
      var breaks := ctx.MayBreak();
      if breaks { return Broken; }
      sent := sent + [(i, r)];
      reply := if stopsOn(i, r) then Stop else Took;
    }

    /** Some record of the stream asks the consumer of cursor `i` to stop. */
    ghost predicate StopsIn(i: nat, log: Log)
      reads this
    {
      exists r :: r in log && stopsOn(i, r)
    }

    /** The consumer was asked to stop by a record of one of the streams. */
    ghost predicate StoppedBy(cursors: array<Cursor>)
      reads this, table, cursors
    {
      exists i: nat :: i < cursors.Length && StopsIn(i, table.LogOf(cursors[i].stream))
    }

    /** Everything sent so far for cursor `i` is what its log held up to where it is. */
    ghost predicate ServedSince(cursors: array<Cursor>, i: nat, c0: Cursor, before: seq<Record>)
      requires i < cursors.Length
      reads this, table, cursors
    {
      Served(table.LogOf(c0.stream), c0, cursors[i], before, SentFor(sent, i))
    }

    /** Nothing changed for the other cursors. */
    twostate predicate OthersKept(cursors: array<Cursor>, i: nat)
      reads this, cursors
    {
      KeptOthers(i, old(cursors[..]), old(sent), cursors[..], sent)
    }

    ghost predicate Ends(sent0: seq<(nat, Record)>, broken0: bool, end: Option<Outcome>)
      reads this, ctx
    {
      EndsAs(sent0, broken0, sent, ctx.broken, stopsOn, end)
    }

    lemma EndsWith(sent0: seq<(nat, Record)>, broken0: bool, end: Option<Outcome>)
      ensures Ends(sent0, broken0, None) ==> Ends(sent0, broken0, Some(Complete)) && Ends(sent0, broken0, Some(ContextEnded))
      ensures Ends(sent0, broken0, end) && end == Some(SendFailed) ==> ctx.broken
    {
    }

    lemma EndsAtFirst()
      ensures Ends(sent, ctx.broken, None)
    {
    }

    /** Fetches the value of one record and sends it; the cursor moves to what was taken. */
    method Deliver(cursors: array<Cursor>, i: nat, r: Record) returns (end: Option<Outcome>)
      requires i < cursors.Length
      modifies this`sent, cursors, ctx`broken
      ensures OthersKept(cursors, i)
      ensures Ends(old(sent), old(ctx.broken), end)
      ensures end == Some(SendFailed) ==> cursors[i] == old(cursors[i]) && SentFor(sent, i) == SentFor(old(sent), i)
      ensures end != Some(SendFailed) ==>
                cursors[i] == old(cursors[i]).(inspect := r.seqNo) && SentFor(sent, i) == SentFor(old(sent), i) + [r]
      ensures end.Some? ==> (end.value.Stopped? && stopsOn(i, r)) || end.value.SendFailed?
    {
      SentNothing(sent, stopsOn);
      var missing := ctx.MayBreak();
      if missing { return Some(SendFailed); }
      ghost var before := sent;
      var reply := Send(i, r);
      if reply.Broken? { return Some(SendFailed); }
      assert sent[..|before|] == before;
      forall j: nat ensures SentFor(sent, j) == SentFor(before, j) + (if j == i then [r] else []) {
        SentOneMore(before, i, r, j);
      }
      cursors[i] := cursors[i].(inspect := r.seqNo);
      end := if reply.Stop? then Some(Stopped) else None;
    }

    /** Cursor `i` has sent the first `k` of the records chosen for this batch. */
    ghost predicate SentFirst(cursors: array<Cursor>, i: nat, c0: Cursor, before: seq<Record>, chosen: seq<Record>, k: nat)
      requires i < cursors.Length
      reads this, cursors
    {
      && k <= |chosen| && SentFor(sent, i) == before + chosen[..k]
      && cursors[i] == c0.(inspect := Reached(c0, chosen, k))
      && (k > 0 && c0.until.Some? ==> chosen[k - 1].seqNo <= c0.until.value)
    }

    /** One row with a record: it is beyond the bound, or it is sent. */
    method VisitRecord(cursors: array<Cursor>, i: nat, c0: Cursor, r: Record,
                       ghost before: seq<Record>, ghost chosen: seq<Record>, ghost last: int, ghost k: nat)
        returns (end: Option<Outcome>, beyond: bool)
      requires i < cursors.Length && Chosen(table.LogOf(c0.stream), c0, chosen, last)
      requires k < |chosen| && r == chosen[k] && (c0.until.Some? ==> c0.inspect < c0.until.value)
      requires SentFirst(cursors, i, c0, before, chosen, k)
      modifies this`sent, cursors, ctx`broken
      ensures OthersKept(cursors, i)
      ensures Ends(old(sent), old(ctx.broken), end)
      ensures end.Some? ==> ((end.value.Stopped? && StopsIn(i, table.LogOf(c0.stream))) || end.value.SendFailed?) && !beyond
      ensures end.None? && !beyond ==> SentFirst(cursors, i, c0, before, chosen, k + 1)
      ensures end.Some? || beyond ==> ServedSince(cursors, i, c0, before)
      ensures beyond ==> c0.until.Some? && cursors[i].inspect == c0.until.value
    {
      ghost var log := table.LogOf(c0.stream);
      hide Select, Gapless;
      end, beyond := None, false;
      EndsAfter(log, c0, last, chosen, k);
      if c0.until.Some? && r.seqNo > c0.until.value {
        EndsAtBound(log, c0, last, chosen, k);
        SentNothing(sent, stopsOn);
        cursors[i] := c0.(inspect := c0.until.value);
        return None, true;
      }
      end := Deliver(cursors, i, r);
      SelectMembers(log, c0.prefix, c0.inspect, last, k);
      EndsAfter(log, c0, last, chosen, k + 1);
      assert chosen[..k + 1] == chosen[..k] + [chosen[k]];
    }

    /** The same in the middle of a batch that began with `cs0` and `sent0`. */
    method VisitNext(cursors: array<Cursor>, i: nat, c0: Cursor, r: Record, ghost before: seq<Record>, ghost chosen: seq<Record>,
                     ghost last: int, ghost k: nat, ghost cs0: seq<Cursor>, ghost sent0: seq<(nat, Record)>, ghost broken0: bool)
        returns (end: Option<Outcome>, beyond: bool)
      requires i < cursors.Length && Chosen(table.LogOf(c0.stream), c0, chosen, last)
      requires k < |chosen| && r == chosen[k] && (c0.until.Some? ==> c0.inspect < c0.until.value)
      requires SentFirst(cursors, i, c0, before, chosen, k)
      requires KeptOthers(i, cs0, sent0, cursors[..], sent) && Ends(sent0, broken0, None)
      modifies this`sent, cursors, ctx`broken
      ensures KeptOthers(i, cs0, sent0, cursors[..], sent) && Ends(sent0, broken0, end)
      ensures end.Some? ==> ((end.value.Stopped? && StopsIn(i, table.LogOf(c0.stream))) || end.value.SendFailed?) && !beyond
      ensures end.None? && !beyond ==> SentFirst(cursors, i, c0, before, chosen, k + 1)
      ensures end.Some? || beyond ==> ServedSince(cursors, i, c0, before)
      ensures beyond ==> c0.until.Some? && cursors[i].inspect == c0.until.value
    {
      hide Select, Gapless, Served, SentFor, KeptOthers, EndsAs;
      ghost var cs1, sent1, b1 := cursors[..], sent, ctx.broken;
      end, beyond := VisitRecord(cursors, i, c0, r, before, chosen, last, k);
      KeptTrans(i, cs0, sent0, cs1, sent1, cursors[..], sent);
      EndsTrans(sent0, broken0, sent1, b1, sent, ctx.broken, stopsOn, end);
    }

    /** Sends the rows of one batch of cursor `i`. */
    method SendRows(cursors: array<Cursor>, i: nat, rows: seq<Found>) returns (end: Option<Outcome>, progress: bool)
      requires i < cursors.Length && table.Valid() && size > 0
      requires var c := cursors[i];
               && (c.until.Some? ==> c.inspect < c.until.value)
               && rows == FilteredRows(table.LogOf(c.stream), c.inspect, LowerBound(c.prefix), Successor(c.prefix), size)
      modifies this`sent, cursors, ctx`broken
      ensures OthersKept(cursors, i)
      ensures Ends(old(sent), old(ctx.broken), end)
      ensures ServedSince(cursors, i, old(cursors[i]), SentFor(old(sent), i))
      ensures end.Some? ==> (end.value.Stopped? && StopsIn(i, table.LogOf(old(cursors[i]).stream))) || end.value.SendFailed?
      ensures end.None? && old(cursors[i]).inspect < |table.LogOf(old(cursors[i]).stream)| ==>
                cursors[i].inspect > old(cursors[i]).inspect
                && (progress || (cursors[i].until.Some? && cursors[i].inspect >= cursors[i].until.value))
    {
      var c0 := cursors[i];
      ghost var log, before := table.LogOf(c0.stream), SentFor(sent, i);
      hide Select, FilteredRows, Successor, LowerBound, Gapless, Served, SentFor, Candidates, KeptOthers, EndsAs, Chosen;
      ghost var cs0, sent0 := cursors[..], sent;
      EndsAtFirst();
      KeptAtFirst(i, cs0, sent0);
      ghost var chosen := BatchIs(log, c0, rows, size);
      ghost var last := rows[0].inspected;
      progress, end := false, None;
      var inspect := c0.inspect;
      var k := 0;
      while k < |rows|
        invariant 0 <= k <= |rows| && KeptOthers(i, cs0, sent0, cursors[..], sent) && end.None?
        invariant Ends(sent0, old(ctx.broken), None)
        invariant SentFirst(cursors, i, c0, before, chosen, if rows[0].record.None? then 0 else k)
        invariant inspect == if k == 0 then c0.inspect else Max(c0.inspect, last)
        invariant k > 0 && last > c0.inspect ==> progress
      {
        var row := rows[k];
        if row.record.Some? {
          var beyond;
          end, beyond := VisitNext(cursors, i, c0, row.record.value, before, chosen, last, k, cs0, sent0, old(ctx.broken));
          if beyond || end.Some? { return; }
        }
        if row.inspected > inspect { inspect, progress := row.inspected, true; }
        k := k + 1;
      }
      EndsWhole(log, c0, last, chosen);
      assert chosen[..|chosen|] == chosen;
      WholeServed(log, c0, chosen, inspect, before);
      KeptMoves(i, cs0, sent0, cursors[..], sent, c0.(inspect := inspect));
      ghost var cs2 := cursors[..];
      cursors[i] := c0.(inspect := inspect);
      assert cursors[..] == cs2[i := c0.(inspect := inspect)];
    }

    ghost predicate AllServed(cursors: array<Cursor>, starts: seq<Cursor>, befores: seq<seq<Record>>)
      reads this, table, cursors
    {
      ServedEach(table.logs, starts, cursors[..], befores, sent)
    }

    /** The streams a bounded cursor follows are at least as long as its bound. */
    ghost predicate InBounds(cursors: array<Cursor>)
      reads table, cursors
    {
      WithinEnds(table.logs, cursors[..])
    }

    predicate Finished(c: Cursor) {
      c.until.Some? && c.inspect >= c.until.value
    }

    /** The cursor is at its bound or has inspected all there was. */
    predicate CaughtUp(logs: map<string, Log>, c: Cursor) {
      Finished(c) || c.inspect >= |LogIn(logs, c.stream)|
    }

    lemma FinishedIsCaughtUp(logs: map<string, Log>, c: Cursor)
      ensures Finished(c) ==> CaughtUp(logs, c)
    {
    }

    lemma StillCaughtUp(a: map<string, Log>, b: map<string, Log>, c: Cursor)
      requires AllGrew(a, b)
      ensures CaughtUp(b, c) ==> CaughtUp(a, c)
    {
      assert Grows(LogIn(a, c.stream), LogIn(b, c.stream));
    }

    /** Reads and sends one batch for one unfinished cursor. */
    method VisitCursor(cursors: array<Cursor>, i: nat, ghost starts: seq<Cursor>, ghost befores: seq<seq<Record>>)
        returns (end: Option<Outcome>, progress: bool)
      requires i < cursors.Length && table.Valid() && size > 0 && !Finished(cursors[i])
      requires AllServed(cursors, starts, befores)
      modifies this`sent, cursors, table, ctx`broken
      ensures table.Grown() && AllServed(cursors, starts, befores)
      ensures Ends(old(sent), old(ctx.broken), end)
      ensures end.None? && !progress ==> CaughtUp(old(table.logs), cursors[i])
      ensures cursors[..] == old(cursors[..])[i := old(cursors[i]).(inspect := cursors[i].inspect)]
      ensures cursors[i].inspect >= old(cursors[i]).inspect
      ensures end.Some? ==> (end.value.Stopped? && StoppedBy(cursors)) || end.value.SendFailed?
      ensures end.None? && old(InBounds(cursors)) ==> cursors[i].inspect > old(cursors[i]).inspect && (progress || Finished(cursors[i]))
    {
      hide FilteredRows, Successor, LowerBound, Gapless, Served, SentFor, Candidates, ServedEach;
      var c := cursors[i];
      var unread := ctx.MayBreak();
      if unread {
        SentNothing(sent, stopsOn);
        AllGrewRefl(table.logs);
        return Some(SendFailed), false;
      }
      var upper := PrefixSuccessor(c.prefix);
      ghost var logs0, sent0, cs0 := table.logs, sent, cursors[..];
      var rows := table.ReadFiltered(c.stream, c.inspect, LowerBound(c.prefix), upper, size);
      ServedEachGrows(logs0, table.logs, starts, cs0, befores, sent0);
      end, progress := SendRows(cursors, i, rows);
      ServedParts(table.LogOf(c.stream), c, cursors[i], SentFor(sent0, i), SentFor(sent, i));
      ServedEachVisited(table.logs, starts, cs0, cursors[..], befores, sent0, sent, i);
    }

    /** One round: each unfinished cursor gets one batch. */
    method Round(cursors: array<Cursor>, ghost starts: seq<Cursor>, ghost befores: seq<seq<Record>>)
        returns (end: Option<Outcome>, progress: bool)
      requires table.Valid() && size > 0 && AllServed(cursors, starts, befores)
      modifies this`sent, ctx, cursors, table
      ensures table.Grown() && AllServed(cursors, starts, befores)
      ensures ctx.lives <= old(ctx.lives) <= ctx.lives + cursors.Length && (end == Some(ContextEnded) ==> ctx.lives == 0 && old(ctx.lives) < cursors.Length)
      ensures Ends(old(sent), old(ctx.broken), end)
      ensures end.None? && !progress ==> forall i :: 0 <= i < cursors.Length ==> CaughtUp(old(table.logs), cursors[i])
      ensures Advanced(old(cursors[..]), cursors[..])
      ensures end.Some? ==> !end.value.Complete? && (end.value.Stopped? ==> StoppedBy(cursors))
      ensures end.None? && cursors.Length > 0 ==> ctx.lives < old(ctx.lives)
      ensures end.None? && old(InBounds(cursors)) ==>
                (forall i :: 0 <= i < cursors.Length ==> Finished(cursors[i])) || (progress && MovedSome(old(cursors[..]), cursors[..]))
    {
      hide ServedEach, Gapless, EndsAs, CaughtUp, AllGrew;
      end, progress := None, false;
      ghost var cs0, sent0 := cursors[..], sent;
      EndsAtFirst();
      AllGrewRefl(table.logs);
      for i := 0 to cursors.Length
        invariant AllGrew(old(table.logs), table.logs) && AllServed(cursors, starts, befores)
        invariant table.Valid() && SameEnd(old(table.ended), table.ended)
        invariant ctx.lives == old(ctx.lives) - i && end.None? && Ends(sent0, old(ctx.broken), None)
        invariant !progress ==> forall j :: 0 <= j < i ==> CaughtUp(old(table.logs), cursors[j])
        invariant Advanced(cs0, cursors[..])
        invariant forall j :: i <= j < cursors.Length ==> cursors[j] == cs0[j]
        invariant old(InBounds(cursors)) && !progress ==> forall j :: 0 <= j < i ==> Finished(cursors[j])
        invariant old(InBounds(cursors)) && progress ==> MovedSome(cs0, cursors[..])
      {
        EndsWith(sent0, old(ctx.broken), None);
        if ctx.lives == 0 { return Some(ContextEnded), progress; }
        ctx.lives := ctx.lives - 1;
        FinishedIsCaughtUp(old(table.logs), cursors[i]);
        if !Finished(cursors[i]) {
          ghost var cs1, sent1, b1 := cursors[..], sent, ctx.broken;
          ghost var logs1 := table.logs;
          BoundsGrow(old(table.logs), table.logs, cs0, cursors[..]);
          var moved;
          end, moved := VisitCursor(cursors, i, starts, befores);
          if end.None? && !moved { StillCaughtUp(old(table.logs), logs1, cursors[i]); }
          AllGrewTrans(old(table.logs), logs1, table.logs);
          EndsTrans(sent0, old(ctx.broken), sent1, b1, sent, ctx.broken, stopsOn, end);
          if end.Some? { return; }
          progress := progress || moved;
        }
      }
    }

    /** The same in the middle of a run that began with `logs0`, `starts` and `sent0`. */
    method NextRound(cursors: array<Cursor>, ghost starts: seq<Cursor>, ghost befores: seq<seq<Record>>, ghost logs0: map<string, Log>,
                     ghost sent0: seq<(nat, Record)>, ghost broken0: bool)
        returns (end: Option<Outcome>, progress: bool)
      requires table.Valid() && size > 0 && AllServed(cursors, starts, befores) && AllGrew(logs0, table.logs)
      requires Advanced(starts, cursors[..]) && Ends(sent0, broken0, None)
      modifies this`sent, ctx, cursors, table
      ensures table.Valid() && SameEnd(old(table.ended), table.ended) && AllGrew(logs0, table.logs) && AllServed(cursors, starts, befores)
      ensures Advanced(starts, cursors[..])
      ensures if end.None? then Ends(sent0, broken0, None) && Ends(sent0, broken0, Some(Complete)) && Ends(sent0, broken0, Some(ContextEnded))
              else Ends(sent0, broken0, end)
      ensures ctx.lives <= old(ctx.lives) <= ctx.lives + cursors.Length && (end == Some(ContextEnded) ==> ctx.lives == 0 && old(ctx.lives) < cursors.Length)
      ensures end.None? && !progress ==> forall i :: 0 <= i < cursors.Length ==> CaughtUp(old(table.logs), cursors[i])
      ensures end.Some? ==> !end.value.Complete? && (end.value.Stopped? ==> StoppedBy(cursors)) && (end.value.SendFailed? ==> ctx.broken)
      ensures end.None? && cursors.Length > 0 ==> ctx.lives < old(ctx.lives)
      ensures Remaining(cursors[..]) <= Remaining(old(cursors[..]))
      ensures end.None? && WithinEnds(logs0, starts) ==>
                (forall i :: 0 <= i < cursors.Length ==> Finished(cursors[i])) || (progress && Remaining(cursors[..]) < Remaining(old(cursors[..])))
    {
      hide ServedEach, Gapless, Advanced, Remaining, MovedSome, EndsAs, CaughtUp, AllGrew, WithinEnds, Finished;
      ghost var logs1, cs1, sent1, b1 := table.logs, cursors[..], sent, ctx.broken;
      BoundsGrow(logs0, table.logs, starts, cs1);
      end, progress := Round(cursors, starts, befores);
      AllGrewTrans(logs0, logs1, table.logs);
      AdvancedTrans(starts, cs1, cursors[..]);
      RemainingShrinks(cs1, cursors[..]);
      EndsTrans(sent0, broken0, sent1, b1, sent, ctx.broken, stopsOn, end);
      EndsWith(sent0, broken0, end);
    }

    /** The wait for a notification, during which others append, unless the context is over. */
    method Await(cursors: array<Cursor>, ghost starts: seq<Cursor>, ghost befores: seq<seq<Record>>, ghost logs0: map<string, Log>,
                 ghost logs1: map<string, Log>)
        returns (over: bool)
      requires table.Valid() && AllServed(cursors, starts, befores) && AllGrew(logs0, table.logs)
      modifies table, this`waits, this`idleWaits
      ensures table.Valid() && SameEnd(old(table.ended), table.ended) && AllGrew(logs0, table.logs) && AllServed(cursors, starts, befores)
      ensures waits == old(waits) + 1 && (over <==> ctx.lives == 0)
      ensures old(idleWaits) && (forall i :: 0 <= i < cursors.Length ==> CaughtUp(logs1, cursors[i])) ==> idleWaits
    {
      hide ServedEach, Gapless, AllGrew, CaughtUp;
      idleWaits := idleWaits && forall i :: 0 <= i < cursors.Length ==> CaughtUp(logs1, cursors[i]);
      waits := waits + 1;
      if ctx.lives == 0 { return true; }
      table.OthersAppend();
      ServedEachGrows(old(table.logs), table.logs, starts, cursors[..], befores, sent);
      AllGrewTrans(logs0, old(table.logs), table.logs);
      return false;
    }

    /** Every cursor is at its bound. */
    method AllFinished(cursors: array<Cursor>) returns (complete: bool)
      ensures complete <==> forall i :: 0 <= i < cursors.Length ==> Finished(cursors[i])
    {
      complete := true;
      for i := 0 to cursors.Length
        invariant complete <==> forall j :: 0 <= j < i ==> Finished(cursors[j])
      {
        if !Finished(cursors[i]) { complete := false; }
      }
    }

    /** `Run`: rounds until every bounded cursor is at its bound, the consumer stops or fails,
        or the context ends. Whatever happens, each cursor has been sent exactly what its
        stream holds for its prefix between where it was and where it is. A run in which all
        cursors are bounded by the ends of their streams never waits for a notification, and
        takes no more rounds than there are records left.
        It does not end for nothing: it stops exactly at the first record that asks it to; it fails
        only if a read or a send did, and ends with its context only when that is found over. So
        with a context that lasts for these rounds and nothing failing, a bounded run completes
        unless it is stopped. It waits only after a round in which every cursor was at its bound or
        had inspected all its stream had when the round began. */
    method Run(cursors: array<Cursor>) returns (r: Outcome, ghost rounds: nat)
      requires table.Valid() && size > 0
      modifies this`sent, this`waits, this`idleWaits, ctx, cursors, table
      ensures Ends(old(sent), old(ctx.broken), Some(r)) && (r.ContextEnded? ==> ctx.lives == 0) && ctx.lives <= old(ctx.lives)
      ensures old(InBounds(cursors)) && old(ctx.lives) >= Uses(Remaining(old(cursors[..])) + 1, cursors.Length) && !ctx.broken ==>
                r.Complete? || r.Stopped?
      ensures old(idleWaits) ==> idleWaits
      ensures table.Grown() && Advanced(old(cursors[..]), cursors[..])
      ensures ServedEach(table.logs, old(cursors[..]), cursors[..], SentForAll(old(sent), cursors.Length), sent)
      ensures r.Complete? ==> forall i :: 0 <= i < cursors.Length ==> Finished(cursors[i])
      ensures r.Stopped? ==> StoppedBy(cursors)
      ensures old(InBounds(cursors)) ==> waits == old(waits) && rounds <= Remaining(old(cursors[..])) + 1
    {
      hide ServedEach, Gapless, SentForAll, Advanced, Remaining, MovedSome, EndsAs, CaughtUp, AllGrew, WithinEnds, Finished, Uses;
      ghost var starts, befores, logs0, end0 := cursors[..], SentForAll(sent, cursors.Length), table.logs, table.ended;
      ghost var sent0, lives0, n, bounded := sent, ctx.lives, cursors.Length, WithinEnds(table.logs, cursors[..]);
      rounds := 0;
      ServedEachAtFirst(table.logs, starts, sent);
      AllGrewRefl(table.logs);
      AdvancedRefl(starts);
      EndsAtFirst();
      LivesLast(0, Remaining(starts), n);
      while true
        invariant table.Valid() && SameEnd(end0, table.ended) && AllGrew(logs0, table.logs) && AllServed(cursors, starts, befores)
        invariant Advanced(starts, cursors[..]) && Ends(sent0, old(ctx.broken), None)
        invariant bounded ==> waits == old(waits) && rounds + Remaining(cursors[..]) <= Remaining(starts)
        invariant ctx.lives <= lives0 && (bounded ==> lives0 <= ctx.lives + Uses(rounds, n))
        invariant old(idleWaits) ==> idleWaits
        decreases ctx.lives
      {
        ghost var logs1 := table.logs;
        LivesLast(rounds, Remaining(starts), n);
        var progress;
        var end;
        end, progress := NextRound(cursors, starts, befores, logs0, sent0, old(ctx.broken));
        rounds := rounds + 1;
        if end.Some? { return end.value, rounds; }
        var complete := AllFinished(cursors);
        if complete { return Complete, rounds; }
        if progress { continue; }
        var over := Await(cursors, starts, befores, logs0, logs1);
        if over { return ContextEnded, rounds; }
      }
    }
  }

  /** How often `rounds` rounds over `n` cursors look whether the context is alive. */
  function Uses(rounds: nat, n: nat): nat {
    rounds * n
  }

  /** A context that lasts for all rounds lasts for the next. */
  lemma LivesLast(rounds: nat, most: nat, n: nat)
    ensures rounds <= most ==> Uses(rounds, n) + n <= Uses(most + 1, n)
    ensures Uses(rounds + 1, n) == Uses(rounds, n) + n && Uses(0, n) == 0
  {
    if rounds <= most { assert (most - rounds) * n >= 0; }
  }

  lemma AppendGrows(a: map<string, Log>, name: string, more: Log)
    requires (forall x :: x in a ==> Gapless(a[x])) && Gapless(LogIn(a, name) + more)
    ensures AllGrew(a, a[name := LogIn(a, name) + more])
  {
    forall x ensures Grows(LogIn(a, x), LogIn(a[name := LogIn(a, name) + more], x)) {
    }
  }

  /** What was there when the run ended stays there. */
  lemma EndStays(ended: Option<map<string, Log>>, a: map<string, Log>, b: map<string, Log>)
    requires AllGrew(a, b) && (ended.Some? ==> forall name :: Grows(LogIn(ended.value, name), LogIn(a, name)))
    ensures ended.Some? ==> forall name :: Grows(LogIn(ended.value, name), LogIn(b, name))
  {
    hide Gapless;
    if ended.Some? {
      forall name ensures Grows(LogIn(ended.value, name), LogIn(b, name)) {
        assert Grows(LogIn(ended.value, name), LogIn(a, name)) && Grows(LogIn(a, name), LogIn(b, name));
      }
    }
  }

  lemma AllGrewRefl(a: map<string, Log>)
    requires forall name :: name in a ==> Gapless(a[name])
    ensures AllGrew(a, a)
  {
  }

  lemma AllGrewTrans(a: map<string, Log>, b: map<string, Log>, c: map<string, Log>)
    requires AllGrew(a, b) && AllGrew(b, c)
    ensures AllGrew(a, c)
  {
    hide Gapless;
    forall name ensures Grows(LogIn(a, name), LogIn(c, name)) {
      assert Grows(LogIn(a, name), LogIn(b, name)) && Grows(LogIn(b, name), LogIn(c, name));
    }
  }

  /** Cursors only move forward, and keep their stream, prefix and bound. */
  ghost predicate Advanced(a: seq<Cursor>, b: seq<Cursor>) {
    |a| == |b| && forall i :: 0 <= i < |a| ==> b[i] == a[i].(inspect := b[i].inspect) && a[i].inspect <= b[i].inspect
  }

  lemma AdvancedRefl(a: seq<Cursor>)
    ensures Advanced(a, a)
  {
  }

  lemma AdvancedTrans(a: seq<Cursor>, b: seq<Cursor>, c: seq<Cursor>)
    requires Advanced(a, b) && Advanced(b, c)
    ensures Advanced(a, c)
  {
  }

  /** Some cursor moved. */
  ghost predicate MovedSome(a: seq<Cursor>, b: seq<Cursor>) {
    |a| == |b| && exists i :: 0 <= i < |a| && a[i].inspect < b[i].inspect && a[i].until.Some? && a[i].inspect < a[i].until.value
  }

  ghost predicate WithinEnds(logs: map<string, Log>, cursors: seq<Cursor>) {
    forall i :: 0 <= i < |cursors| ==>
      cursors[i].until.Some? && cursors[i].until.value <= |LogIn(logs, cursors[i].stream)|
  }

  lemma BoundsGrow(a: map<string, Log>, b: map<string, Log>, c0: seq<Cursor>, c1: seq<Cursor>)
    requires AllGrew(a, b) && Advanced(c0, c1)
    ensures WithinEnds(a, c0) ==> WithinEnds(b, c1)
  {
    hide Gapless;
    if WithinEnds(a, c0) {
      forall i | 0 <= i < |c1| ensures c1[i].until.Some? && c1[i].until.value <= |LogIn(b, c1[i].stream)| {
        assert Grows(LogIn(a, c0[i].stream), LogIn(b, c0[i].stream));
      }
    }
  }

  lemma ServedEachAtFirst(logs: map<string, Log>, starts: seq<Cursor>, sent: seq<(nat, Record)>)
    requires forall name :: name in logs ==> Gapless(logs[name])
    ensures ServedEach(logs, starts, starts, SentForAll(sent, |starts|), sent)
  {
    forall i | 0 <= i < |starts|
      ensures Served(LogIn(logs, starts[i].stream), starts[i], starts[i], SentForAll(sent, |starts|)[i], SentFor(sent, i))
    {
      ServedAtFirst(LogIn(logs, starts[i].stream), starts[i], SentFor(sent, i));
    }
  }

  ghost function SentForAll(sent: seq<(nat, Record)>, n: nat): (r: seq<seq<Record>>)
    ensures |r| == n
  {
    seq(n, i requires 0 <= i < n => SentFor(sent, i))
  }

  /** How many numbers the bounded cursors still have to inspect. */
  function Remaining(cursors: seq<Cursor>): nat {
    if cursors == [] then 0
    else
      var c := cursors[|cursors| - 1];
      Remaining(cursors[..|cursors| - 1]) + (if c.until.Some? then Max(c.until.value - c.inspect, 0) else 0)
  }

  lemma {:induction false} RemainingShrinks(a: seq<Cursor>, b: seq<Cursor>)
    requires Advanced(a, b)
    ensures Remaining(b) <= Remaining(a)
    ensures MovedSome(a, b) ==> Remaining(b) < Remaining(a)
    decreases |a|
  {
    if a != [] {
      var n := |a| - 1;
      RemainingShrinks(a[..n], b[..n]);
      if MovedSome(a, b) {
        var i :| 0 <= i < |a| && a[i].inspect < b[i].inspect && a[i].until.Some? && a[i].inspect < a[i].until.value;
        if i < n {
          assert a[..n][i].inspect < b[..n][i].inspect && a[..n][i].inspect < a[..n][i].until.value;
          assert MovedSome(a[..n], b[..n]);
        }
      }
    }
  }

  /** Every cursor has been served since it was at its start, where `befores` had been sent. */
  ghost predicate ServedEach(logs: map<string, Log>, starts: seq<Cursor>, cursors: seq<Cursor>,
                             befores: seq<seq<Record>>, sent: seq<(nat, Record)>) {
    && |starts| == |cursors| == |befores|
    && forall i :: 0 <= i < |starts| ==>
         Served(LogIn(logs, starts[i].stream), starts[i], cursors[i], befores[i], SentFor(sent, i))
  }

  lemma ServedEachGrows(a: map<string, Log>, b: map<string, Log>, starts: seq<Cursor>, cursors: seq<Cursor>,
                        befores: seq<seq<Record>>, sent: seq<(nat, Record)>)
    requires ServedEach(a, starts, cursors, befores, sent) && AllGrew(a, b)
    ensures ServedEach(b, starts, cursors, befores, sent)
  {
    hide Served, SentFor;
    forall i | 0 <= i < |starts|
      ensures Served(LogIn(b, starts[i].stream), starts[i], cursors[i], befores[i], SentFor(sent, i))
    {
      ServedGrows(LogIn(a, starts[i].stream), LogIn(b, starts[i].stream), starts[i], cursors[i], befores[i], SentFor(sent, i));
    }
  }

  lemma ServedEachVisited(logs: map<string, Log>, starts: seq<Cursor>, cs0: seq<Cursor>, cs1: seq<Cursor>,
                          befores: seq<seq<Record>>, sent0: seq<(nat, Record)>, sent1: seq<(nat, Record)>, i: nat)
    requires ServedEach(logs, starts, cs0, befores, sent0) && i < |cs0| == |cs1|
    requires forall name :: name in logs ==> Gapless(logs[name])
    requires forall j :: 0 <= j < |cs0| && j != i ==> cs1[j] == cs0[j] && SentFor(sent1, j) == SentFor(sent0, j)
    requires Served(LogIn(logs, cs0[i].stream), cs0[i], cs1[i], SentFor(sent0, i), SentFor(sent1, i))
    ensures ServedEach(logs, starts, cs1, befores, sent1)
  {
    var log := LogIn(logs, starts[i].stream);
    ServedParts(log, starts[i], cs0[i], befores[i], SentFor(sent0, i));
    ServedComposes(log, starts[i], cs0[i], cs1[i], befores[i], SentFor(sent0, i), SentFor(sent1, i));
    hide Served, SentFor;
  }

  lemma ServedParts(log: Log, c0: Cursor, c: Cursor, before: seq<Record>, after: seq<Record>)
    requires Served(log, c0, c, before, after)
    ensures c == c0.(inspect := c.inspect) && c0.inspect <= c.inspect
  {
  }

  ghost predicate KeptOthers(i: nat, cs0: seq<Cursor>, sent0: seq<(nat, Record)>, cs1: seq<Cursor>, sent1: seq<(nat, Record)>) {
    |cs0| == |cs1| && forall j :: 0 <= j < |cs0| && j != i ==> cs1[j] == cs0[j] && SentFor(sent1, j) == SentFor(sent0, j)
  }

  lemma KeptAtFirst(i: nat, cs: seq<Cursor>, sent: seq<(nat, Record)>)
    ensures KeptOthers(i, cs, sent, cs, sent)
  {
  }

  lemma KeptTrans(i: nat, cs0: seq<Cursor>, sent0: seq<(nat, Record)>, cs1: seq<Cursor>, sent1: seq<(nat, Record)>,
                  cs2: seq<Cursor>, sent2: seq<(nat, Record)>)
    requires KeptOthers(i, cs0, sent0, cs1, sent1) && KeptOthers(i, cs1, sent1, cs2, sent2)
    ensures KeptOthers(i, cs0, sent0, cs2, sent2)
  {
  }

  lemma KeptMoves(i: nat, cs0: seq<Cursor>, sent0: seq<(nat, Record)>, cs1: seq<Cursor>, sent1: seq<(nat, Record)>, c: Cursor)
    requires KeptOthers(i, cs0, sent0, cs1, sent1) && i < |cs1|
    ensures KeptOthers(i, cs0, sent0, cs1[i := c], sent1)
  {
  }

  /** Where a cursor is once it has sent the first `k` chosen records. */
  function Reached(c: Cursor, chosen: seq<Record>, k: nat): int
    requires k <= |chosen|
  {
    if k == 0 then c.inspect else chosen[k - 1].seqNo
  }

  /** The records a batch inspected up to `last` has for the cursor. */
  ghost predicate Chosen(log: Log, c: Cursor, chosen: seq<Record>, last: int) {
    Gapless(log) && last <= |log| && chosen == Select(log, c.prefix, c.inspect, last)
  }

  /** What the rows of a batch are for the cursor. */
  ghost predicate BatchOf(log: Log, c: Cursor, rows: seq<Found>, chosen: seq<Record>) {
    && |rows| >= 1 && Chosen(log, c, chosen, rows[0].inspected)
    && (c.inspect < |log| ==> c.inspect < rows[0].inspected)
    && (forall k :: 0 <= k < |rows| ==> rows[k].inspected == rows[0].inspected)
    && (if rows[0].record.None? then |rows| == 1 && chosen == []
        else |rows| == |chosen| && forall k :: 0 <= k < |rows| ==> rows[k].record == Some(chosen[k]))
  }

  lemma BatchIs(log: Log, c: Cursor, rows: seq<Found>, size: nat) returns (chosen: seq<Record>)
    requires Gapless(log) && size > 0 && rows == FilteredRows(log, c.inspect, LowerBound(c.prefix), Successor(c.prefix), size)
    ensures BatchOf(log, c, rows, chosen)
  {
    BatchSelects(log, c.prefix, c.inspect, size);
    chosen := Select(log, c.prefix, c.inspect, rows[0].inspected);
  }

  lemma WholeServed(log: Log, c: Cursor, chosen: seq<Record>, inspect: int, before: seq<Record>)
    requires Select(log, c.prefix, c.inspect, inspect) == chosen && c.inspect <= inspect && (inspect == c.inspect || inspect <= |log|)
    ensures Served(log, c, c.(inspect := inspect), before, before + chosen)
  {
  }

  lemma EndsAtBound(log: Log, c: Cursor, end: int, chosen: seq<Record>, k: nat)
    requires Gapless(log) && end <= |log| && chosen == Select(log, c.prefix, c.inspect, end) && k < |chosen|
    requires c.until.Some? && c.inspect <= c.until.value < chosen[k].seqNo && (k > 0 ==> chosen[k - 1].seqNo <= c.until.value)
    ensures Select(log, c.prefix, c.inspect, c.until.value) == chosen[..k] && c.until.value <= |log|
  {
    SelectMembers(log, c.prefix, c.inspect, end, k);
    SelectBelow(log, c.prefix, c.inspect, end, k, c.until.value);
  }

  lemma EndsAfter(log: Log, c: Cursor, end: int, chosen: seq<Record>, k: nat)
    requires Gapless(log) && end <= |log| && chosen == Select(log, c.prefix, c.inspect, end) && k <= |chosen|
    ensures var at := if k == 0 then c.inspect else chosen[k - 1].seqNo;
            && Select(log, c.prefix, c.inspect, at) == chosen[..k]
            && c.inspect <= at && (at == c.inspect || at <= |log|)
  {
    if k == 0 {
      SelectNothing(log, c.prefix, c.inspect, c.inspect);
    } else {
      SelectMembers(log, c.prefix, c.inspect, end, k - 1);
      SelectTake(log, c.prefix, c.inspect, end, k);
    }
  }

  lemma EndsWhole(log: Log, c: Cursor, end: int, chosen: seq<Record>)
    requires Gapless(log) && end <= |log| && (c.inspect < |log| ==> c.inspect < end)
    requires chosen == Select(log, c.prefix, c.inspect, end)
    ensures Select(log, c.prefix, c.inspect, Max(c.inspect, end)) == chosen
  {
    if end <= c.inspect {
      SelectNothing(log, c.prefix, c.inspect, end);
      SelectNothing(log, c.prefix, c.inspect, c.inspect);
    }
  }
}
