/** Following streams of a run: the filtered read and what a tail must deliver. */
module Tail {
  import opened Base
  import opened Prefix
  import opened RunLog

  type Log = seq<Record>

  /** Records are numbered from one, as appends leave them. */
  predicate Gapless(log: Log) {
    forall i :: 0 <= i < |log| ==> log[i].seqNo == i + 1
  }

  /** A stream only grows at its end. */
  predicate Grows(a: Log, b: Log) {
    |a| <= |b| && b[..|a|] == a
  }

  predicate Matches(r: Record, prefix: Bytes, after: int, until: int) {
    after < r.seqNo <= until && HasPrefix(r.key, prefix)
  }

  /** The reference: the records with the prefix, after one number and up to another. */
  function Select(log: Log, prefix: Bytes, after: int, until: int): seq<Record> {
    if log == [] then []
    else
      var last := log[|log| - 1];
      Select(log[..|log| - 1], prefix, after, until) + (if Matches(last, prefix, after, until) then [last] else [])
  }

  lemma {:induction false} SelectNothing(log: Log, prefix: Bytes, after: int, until: int)
    requires Gapless(log) && (until <= after || |log| <= after)
    ensures Select(log, prefix, after, until) == []
  {
    if log != [] { SelectNothing(log[..|log| - 1], prefix, after, until); }
  }

  /** What is selected up to `until` is what is selected up to `mid` and then from there. */
  lemma {:induction false} SelectSplits(log: Log, prefix: Bytes, after: int, mid: int, until: int)
    requires Gapless(log) && after <= mid <= until
    ensures Select(log, prefix, after, until) == Select(log, prefix, after, mid) + Select(log, prefix, mid, until)
  {
    if log != [] {
      SelectSplits(log[..|log| - 1], prefix, after, mid, until);
      if |log| <= mid { SelectNothing(log[..|log| - 1], prefix, mid, until); }
    }
  }

  /** Records appended later do not change what was selected among the earlier ones. */
  lemma {:induction false} SelectStable(a: Log, b: Log, prefix: Bytes, after: int, until: int)
    requires Gapless(b) && Grows(a, b) && (until <= |a| || until <= after)
    ensures Select(b, prefix, after, until) == Select(a, prefix, after, until)
    decreases |b|
  {
    if |b| > |a| {
      assert b[..|b| - 1][..|a|] == a;
      SelectStable(a, b[..|b| - 1], prefix, after, until);
    } else {
      assert a == b;
    }
  }

  lemma {:induction false} SelectMembers(log: Log, prefix: Bytes, after: int, until: int, k: nat)
    requires Gapless(log) && k < |Select(log, prefix, after, until)|
    ensures var r := Select(log, prefix, after, until)[k];
            Matches(r, prefix, after, until) && 1 <= r.seqNo <= |log| && r == log[r.seqNo - 1]
  {
    var n := |log| - 1;
    if k < |Select(log[..n], prefix, after, until)| { SelectMembers(log[..n], prefix, after, until, k); }
  }

  /** Selected records come in increasing order, so none comes twice. */
  lemma {:induction false} SelectSorted(log: Log, prefix: Bytes, after: int, until: int, i: nat, j: nat)
    requires Gapless(log) && i < j < |Select(log, prefix, after, until)|
    ensures Select(log, prefix, after, until)[i].seqNo < Select(log, prefix, after, until)[j].seqNo
  {
    var n := |log| - 1;
    if j < |Select(log[..n], prefix, after, until)| {
      SelectSorted(log[..n], prefix, after, until, i, j);
    } else {
      SelectMembers(log[..n], prefix, after, until, i);
    }
  }

  /** No matching record is left out. */
  lemma {:induction false} SelectComplete(log: Log, prefix: Bytes, after: int, until: int, i: nat)
    requires Gapless(log) && i < |log| && Matches(log[i], prefix, after, until)
    ensures log[i] in Select(log, prefix, after, until)
  {
    var n := |log| - 1;
    if i < n {
      SelectComplete(log[..n], prefix, after, until, i);
      assert log[..n][i] == log[i];
    }
  }

  /** The first `k` selected records are those up to the number of the `k`-th. */
  lemma {:induction false} SelectTake(log: Log, prefix: Bytes, after: int, until: int, k: nat)
    requires Gapless(log) && 0 < k <= |Select(log, prefix, after, until)|
    ensures var s := Select(log, prefix, after, until); s[..k] == Select(log, prefix, after, s[k - 1].seqNo)
  {
    var n := |log| - 1;
    var s := Select(log, prefix, after, until);
    var front := Select(log[..n], prefix, after, until);
    if k <= |front| {
      SelectTake(log[..n], prefix, after, until, k);
      SelectMembers(log[..n], prefix, after, until, k - 1);
      assert s[..k] == front[..k];
    } else {
      assert s[..k] == s;
      SelectCut(log[..n], prefix, after, until, log[n].seqNo);
    }
  }

  lemma {:induction false} SelectCut(log: Log, prefix: Bytes, after: int, until: int, cut: int)
    requires Gapless(log) && |log| <= cut <= until
    ensures Select(log, prefix, after, until) == Select(log, prefix, after, cut)
  {
    if log != [] { SelectCut(log[..|log| - 1], prefix, after, until, cut); }
  }

  // ---- The filtered read ----------------------------------------------------

  /** One branch of the union: records after `after` up to the end whose key passes. */
  function Branch(log: Log, after: int, passes: Bytes -> bool): seq<Record> {
    if log == [] then []
    else
      var last := log[|log| - 1];
      Branch(log[..|log| - 1], after, passes) + (if after < last.seqNo && passes(last.key) then [last] else [])
  }

  /** The three branches one after the other; the query orders them by number. */
  function Candidates(log: Log, after: int, lower: Option<Bytes>, upper: Option<Bytes>): seq<Record> {
    Branch(log, after, key => Unbounded(lower))
    + Branch(log, after, key => FromOn(lower, upper, key))
    + Branch(log, after, key => Between(lower, upper, key))
  }

  lemma {:induction false} BranchEmpty(log: Log, after: int, passes: Bytes -> bool)
    requires forall key :: !passes(key)
    ensures Branch(log, after, passes) == []
  {
    if log != [] { BranchEmpty(log[..|log| - 1], after, passes); }
  }

  lemma {:induction false} BranchSelects(log: Log, prefix: Bytes, after: int, passes: Bytes -> bool, until: int)
    requires Gapless(log) && |log| <= until && forall key :: passes(key) <==> HasPrefix(key, prefix)
    ensures Branch(log, after, passes) == Select(log, prefix, after, until)
  {
    if log != [] { BranchSelects(log[..|log| - 1], prefix, after, passes, until); }
  }

  /** Two branches of the union are always empty and the third selects exactly the records
      with the prefix, so the union is already in order. */
  lemma CandidatesSelect(log: Log, prefix: Bytes, after: int)
    requires Gapless(log)
    ensures Candidates(log, after, LowerBound(prefix), Successor(prefix)) == Select(log, prefix, after, |log|)
  {
    var lower, upper := LowerBound(prefix), Successor(prefix);
    forall key: Bytes
      ensures HasPrefix(key, prefix) <==> Unbounded(lower) || FromOn(lower, upper, key) || Between(lower, upper, key)
    {
      BranchesCoverPrefix(prefix, key);
    }
    hide HasPrefix, Less, Successor;
    if lower.None? {
      BranchSelects(log, prefix, after, key => Unbounded(lower), |log|);
      BranchEmpty(log, after, key => FromOn(lower, upper, key));
      BranchEmpty(log, after, key => Between(lower, upper, key));
    } else if upper.None? {
      BranchEmpty(log, after, key => Unbounded(lower));
      BranchSelects(log, prefix, after, key => FromOn(lower, upper, key), |log|);
      BranchEmpty(log, after, key => Between(lower, upper, key));
    } else {
      BranchEmpty(log, after, key => Unbounded(lower));
      BranchEmpty(log, after, key => FromOn(lower, upper, key));
      BranchSelects(log, prefix, after, key => Between(lower, upper, key), |log|);
    }
  }

  /** A result row: a record, or none when nothing matched, with the number inspected up to. */
  datatype Found = Found(record: Option<Record>, inspected: int)

  /** `ReadFilteredLogRecords`: the first `size` candidates. A full batch was inspected up to
      its last record, any other to the end of the stream. */
  function FilteredRows(log: Log, after: int, lower: Option<Bytes>, upper: Option<Bytes>, size: nat): (rows: seq<Found>)
    requires size > 0
    ensures |rows| >= 1
  {
    var all := Candidates(log, after, lower, upper);
    var matched := if |all| > size then all[..size] else all;
    var inspected := if |matched| == size then matched[size - 1].seqNo else |log|;
    if matched == [] then [Found(None, inspected)]
    else seq(|matched|, i requires 0 <= i < |matched| => Found(Some(matched[i]), inspected))
  }

  /** What a batch says: its records are exactly the matching ones up to where it inspected. */
  lemma BatchSelects(log: Log, prefix: Bytes, after: int, size: nat)
    requires Gapless(log) && size > 0
    ensures var rows := FilteredRows(log, after, LowerBound(prefix), Successor(prefix), size);
            var inspected := rows[0].inspected;
            && inspected <= |log|
            && (after < |log| ==> after < inspected)
            && (forall i :: 0 <= i < |rows| ==> rows[i].inspected == inspected)
            && (if rows[0].record.None? then |rows| == 1 && Select(log, prefix, after, inspected) == []
                else |rows| == |Select(log, prefix, after, inspected)|
                     && forall i :: 0 <= i < |rows| ==> rows[i].record == Some(Select(log, prefix, after, inspected)[i]))
  {
    CandidatesSelect(log, prefix, after);
    var all := Select(log, prefix, after, |log|);
    if |all| >= size {
      SelectTake(log, prefix, after, |log|, size);
      SelectMembers(log, prefix, after, |log|, size - 1);
      assert |all| == size ==> all[..size] == all;
    }
  }
}
