/** Appending batches to the numbered streams of a run. */
module RunLog {
  import opened Base

  datatype Entry = Entry(key: Bytes, value: Bytes)

  type Batch = seq<Entry>

  datatype Record = Record(seqNo: int, key: Bytes, value: Bytes)

  const MAX_KEY: nat := 1024
  const MAX_APPEND_ID: nat := 200
  const MAX_INT64: int := 0x7FFF_FFFF_FFFF_FFFF
  const TWO_TO_64: int := 0x1_0000_0000_0000_0000

  // ---- The digest of a batch ------------------------------------------------

  /** What goes into the hash for one value: its length in eight bytes, then the value. */
  function Framed(value: Bytes): Bytes {
    BigEndian(|value|, 8) + value
  }

  /** What goes into the hash for a batch. */
  function Preimage(batch: Batch): Bytes {
    if batch == [] then []
    else Preimage(batch[..|batch| - 1]) + (Framed(batch[|batch| - 1].key) + Framed(batch[|batch| - 1].value))
  }

  /** Lengths fit the eight bytes they are written in. */
  predicate Measurable(batch: Batch) {
    forall i :: 0 <= i < |batch| ==> |batch[i].key| < TWO_TO_64 && |batch[i].value| < TWO_TO_64
  }

  lemma Cut(front: Bytes, rest: Bytes)
    ensures (front + rest)[..|front|] == front && (front + rest)[|front|..] == rest
  {
  }

  lemma FramedParts(a: Bytes, rest: Bytes)
    ensures Framed(a) + rest == BigEndian(|a|, 8) + (a + rest)
  {
    hide BigEndian;
  }

  lemma FramedSplits(a: Bytes, b: Bytes, restA: Bytes, restB: Bytes)
    requires |a| < TWO_TO_64 && |b| < TWO_TO_64 && Framed(a) + restA == Framed(b) + restB
    ensures a == b && restA == restB
  {
    hide BigEndian, ValueOf, Pow256, Framed;
    var lengthA, lengthB := BigEndian(|a|, 8), BigEndian(|b|, 8);
    Widths();
    BigEndianRoundTrip(|a|, 8);
    BigEndianRoundTrip(|b|, 8);
    FramedParts(a, restA);
    FramedParts(b, restB);
    Cut(lengthA, a + restA);
    Cut(lengthB, b + restB);
    Cut(a, restA);
    Cut(b, restB);
  }

  lemma Regroup(key: Bytes, value: Bytes, middle: Bytes, last: Bytes)
    ensures (key + (value + middle)) + last == key + (value + (middle + last))
  {
  }

  lemma {:induction false} PreimageFromFront(batch: Batch)
    requires batch != []
    ensures Preimage(batch) == Framed(batch[0].key) + (Framed(batch[0].value) + Preimage(batch[1..]))
    decreases |batch|
  {
    hide Framed;
    var n := |batch| - 1;
    var last := Framed(batch[n].key) + Framed(batch[n].value);
    if n == 0 {
      assert batch[..0] == [] && batch[1..] == [];
      assert [] + last == last;
      assert Framed(batch[0].value) + [] == Framed(batch[0].value);
    } else {
      PreimageFromFront(batch[..n]);
      assert batch[..n][1..] == batch[1..][..n - 1];
      assert batch[1..][n - 1] == batch[n];
      Regroup(Framed(batch[0].key), Framed(batch[0].value), Preimage(batch[1..][..n - 1]), last);
    }
  }

  lemma PreimageEmpty(batch: Batch)
    ensures Preimage(batch) == [] <==> batch == []
  {
    hide BigEndian;
  }

  /** Different batches never have the same preimage: where a key or value ends is part of it. */
  lemma {:induction false} PreimageIsInjective(a: Batch, b: Batch)
    requires Measurable(a) && Measurable(b) && Preimage(a) == Preimage(b)
    ensures a == b
    decreases |a|
  {
    hide Framed, Preimage;
    PreimageEmpty(a);
    PreimageEmpty(b);
    if a != [] {
      PreimageFromFront(a);
      PreimageFromFront(b);
      FramedSplits(a[0].key, b[0].key, Framed(a[0].value) + Preimage(a[1..]), Framed(b[0].value) + Preimage(b[1..]));
      FramedSplits(a[0].value, b[0].value, Preimage(a[1..]), Preimage(b[1..]));
      PreimageIsInjective(a[1..], b[1..]);
      assert a == [a[0]] + a[1..] && b == [b[0]] + b[1..];
    }
  }

  /** The first `k` of two values, framed. */
  function FramedFirst(values: seq<Bytes>, k: nat): Bytes
    requires k <= |values| == 2
  {
    if k == 0 then [] else if k == 1 then Framed(values[0]) else Framed(values[0]) + Framed(values[1])
  }

  lemma NothingFramed(values: seq<Bytes>)
    requires |values| == 2
    ensures FramedFirst(values, 0) == []
  {
  }

  lemma FeedsValue(fed: Bytes, values: seq<Bytes>, k: nat, before: Bytes)
    requires k < |values| == 2 && fed == before + FramedFirst(values, k)
    ensures fed + BigEndian(|values[k]|, 8) + values[k] == before + FramedFirst(values, k + 1)
  {
    hide BigEndian;
  }

  lemma BatchNext(batch: Batch, i: nat)
    requires i < |batch|
    ensures Preimage(batch[..i + 1]) == Preimage(batch[..i]) + FramedFirst([batch[i].key, batch[i].value], 2)
  {
    hide Framed;
    assert batch[..i + 1][..i] == batch[..i];
  }

  /** `batchDigest`, up to the collision-free hash: the bytes fed to it, value by value. */
  method BatchDigest(batch: Batch) returns (fed: Bytes)
    ensures fed == Preimage(batch)
  {
    hide FramedFirst, BigEndian;
    fed := [];
    for i := 0 to |batch|
      invariant fed == Preimage(batch[..i])
    {
      NothingFramed([batch[i].key, batch[i].value]);
      var values := [batch[i].key, batch[i].value];
      ghost var before := fed;
      for k := 0 to 2
        invariant fed == before + FramedFirst(values, k)
      {
        var length := BigEndian(|values[k]|, 8);
        FeedsValue(fed, values, k, before);
        fed := fed + length;
        fed := fed + values[k];
      }
      BatchNext(batch, i);
    }
    assert batch[..|batch|] == batch;
  }

  // ---- Streams --------------------------------------------------------------

  /** What an append identifier was used for. */
  datatype Append = Append(digest: Bytes, first: int, last: int)

  datatype Stream = Stream(nextSeq: int, records: seq<Record>, appends: map<string, Append>)

  const EMPTY_STREAM: Stream := Stream(1, [], map[])

  function Numbered(batch: Batch, first: int): (r: seq<Record>)
    ensures |r| == |batch|
  {
    seq(|batch|, i requires 0 <= i < |batch| => Record(first + i, batch[i].key, batch[i].value))
  }

  function Concat(batches: seq<Batch>): Batch {
    if batches == [] then [] else Concat(batches[..|batches| - 1]) + batches[|batches| - 1]
  }

  /** The stream after an accepted batch. */
  function Appended(s: Stream, id: string, batch: Batch): Stream {
    Stream(s.nextSeq + |batch|, s.records + Numbered(batch, s.nextSeq),
           if id == "" then s.appends else s.appends[id := Append(Preimage(batch), s.nextSeq, s.nextSeq + |batch| - 1)])
  }

  function EntriesOf(records: seq<Record>): (r: Batch)
    ensures |r| == |records|
  {
    seq(|records|, i requires 0 <= i < |records| => Entry(records[i].key, records[i].value))
  }

  /** The records an append identifier's row points at are the batch it was used for. */
  predicate AppendHolds(s: Stream, id: string)
    requires id in s.appends
  {
    var a := s.appends[id];
    && 1 <= a.first <= a.last <= |s.records|
    && Preimage(EntriesOf(s.records[a.first - 1..a.last])) == a.digest
  }

  /** The stream is what the accepted batches make of it: numbered from one without a gap. */
  ghost predicate Holds(s: Stream, accepted: seq<Batch>) {
    && s.nextSeq == |s.records| + 1 && 1 <= s.nextSeq <= MAX_INT64
    && s.records == Numbered(Concat(accepted), 1)
    && forall id :: id in s.appends ==> AppendHolds(s, id)
  }

  lemma AppendedHolds(s: Stream, accepted: seq<Batch>, id: string, batch: Batch)
    requires Holds(s, accepted) && |batch| >= 1 && s.nextSeq + |batch| <= MAX_INT64
    ensures Holds(Appended(s, id, batch), accepted + [batch])
  {
    var s' := Appended(s, id, batch);
    hide Preimage;
    assert (accepted + [batch])[..|accepted|] == accepted;
    assert s'.records == Numbered(Concat(accepted + [batch]), 1);
    forall x | x in s'.appends ensures AppendHolds(s', x) {
      var a := s'.appends[x];
      if id != "" && x == id {
        assert s'.records[a.first - 1..a.last] == Numbered(batch, s.nextSeq);
        assert EntriesOf(Numbered(batch, s.nextSeq)) == batch;
      } else {
        assert AppendHolds(s, x);
        assert s'.records[a.first - 1..a.last] == s.records[a.first - 1..a.last];
      }
    }
  }

  // ---- The sequence check ---------------------------------------------------

  /** 64-bit addition wraps around. */
  function Wrap64(x: int): int {
    (x + MAX_INT64 + 1) % TWO_TO_64 - (MAX_INT64 + 1)
  }

  /** The check of `AppendTx` on the last number it would assign. */
  predicate Exhausted(first: int, count: int) {
    var last := Wrap64(Wrap64(first + count) - 1);
    last < first || last == MAX_INT64
  }

  /** The check refuses exactly the batches after which the next number would not fit. */
  lemma ExhaustedExactly(first: int, count: int)
    requires 1 <= first <= MAX_INT64 && 1 <= count <= MAX_INT64
    ensures Exhausted(first, count) <==> first + count > MAX_INT64
  {
  }

  // ---- AppendTx -------------------------------------------------------------

  datatype AppendError =
    | EmptyBatch | KeyTooLong | RecordTooLarge | NotCbor | BatchTooLarge
    | IdTooLong | IdTaken | SequenceExhausted

  datatype AppendResult = Range(first: int, last: int) | Refused(error: AppendError)

  function Size(batch: Batch): nat {
    if batch == [] then 0
    else Size(batch[..|batch| - 1]) + |batch[|batch| - 1].value| + |batch[|batch| - 1].key|
  }

  lemma {:induction false} SizeGrows(batch: Batch, i: nat)
    requires i <= |batch|
    ensures Size(batch[..i]) <= Size(batch)
    decreases |batch|
  {
    if i < |batch| {
      var n := |batch| - 1;
      SizeGrows(batch[..n], i);
      assert batch[..n][..i] == batch[..i];
    } else {
      assert batch[..i] == batch;
    }
  }

  /** The size of a batch is that of its keys and values: all that goes into its hash but the lengths. */
  lemma {:induction false} SizeIsBytes(batch: Batch)
    ensures Size(batch) + 16 * |batch| == |Preimage(batch)|
    decreases |batch|
  {
    if batch != [] { SizeIsBytes(batch[..|batch| - 1]); }
  }

  /** The log of one run. `accepted` lists, per stream, the batches in the order in which
      their transactions held the stream's row lock. */
  class Streams {
    const maxRecord: nat
    const maxBatch: nat
    const wellFormed: Bytes -> bool
    var streams: map<string, Stream>
    ghost var accepted: map<string, seq<Batch>>

    ghost predicate Valid()
      reads this
    {
      streams.Keys == accepted.Keys && forall name :: name in streams ==> Holds(streams[name], accepted[name])
    }

    constructor (maxRecord: nat, maxBatch: nat, wellFormed: Bytes -> bool)
      ensures Valid() && streams == map[]
      ensures this.maxRecord == maxRecord && this.maxBatch == maxBatch && this.wellFormed == wellFormed
    {
      this.maxRecord, this.maxBatch, this.wellFormed := maxRecord, maxBatch, wellFormed;
      streams, accepted := map[], map[];
    }

    function StreamOf(name: string): Stream
      reads this`streams
    {
      if name in streams then streams[name] else EMPTY_STREAM
    }

    predicate EntryOk(e: Entry) {
      |e.key| <= MAX_KEY && 0 < |e.value| && |e.value| + |e.key| <= maxRecord && wellFormed(e.value)
    }

    /** What a batch and its identifier must satisfy whatever the stream holds. */
    predicate Admissible(id: string, batch: Batch) {
      && batch != [] && (forall i :: 0 <= i < |batch| ==> EntryOk(batch[i])) && Size(batch) <= maxBatch
      && |id| <= MAX_APPEND_ID
    }

    /** The first `i` entries are within the limits. */
    ghost predicate GoodFirst(batch: Batch, i: nat)
      requires i <= |batch|
    {
      (forall k :: 0 <= k < i ==> EntryOk(batch[k])) && (i > 0 ==> Size(batch[..i]) <= maxBatch)
    }

    /** Why a batch is refused: the first thing found wrong with it, entry by entry, and the
        identifier last. */
    ghost predicate Because(id: string, batch: Batch, error: AppendError) {
      match error
      case EmptyBatch => batch == []
      case KeyTooLong => exists i :: 0 <= i < |batch| && GoodFirst(batch, i) && |batch[i].key| > 1024
      case RecordTooLarge =>
        exists i :: 0 <= i < |batch| && GoodFirst(batch, i) && |batch[i].key| <= 1024
                    && (batch[i].value == [] || |batch[i].value| + |batch[i].key| > maxRecord)
      case NotCbor =>
        exists i :: 0 <= i < |batch| && GoodFirst(batch, i) && |batch[i].key| <= 1024
                    && 0 < |batch[i].value| <= maxRecord - |batch[i].key| && !wellFormed(batch[i].value)
      case BatchTooLarge => exists i :: 0 <= i < |batch| && GoodFirst(batch, i) && EntryOk(batch[i]) && Size(batch[..i + 1]) > maxBatch
      case IdTooLong => batch != [] && GoodFirst(batch, |batch|) && |id| > 200
      case _ => false
    }

    /** The limits are checked entry by entry, as the running total grows. */
    method CheckLimits(id: string, batch: Batch) returns (error: Option<AppendError>)
      ensures error.None? <==> Admissible(id, batch)
      ensures error.Some? ==> Because(id, batch, error.value)
    {
      if |batch| == 0 { return Some(EmptyBatch); }
      var total := 0;
      for i := 0 to |batch|
        invariant total == Size(batch[..i]) && GoodFirst(batch, i)
      {
        var e := batch[i];
        if |e.key| > MAX_KEY { return Some(KeyTooLong); }
        if |e.value| == 0 || |e.value| + |e.key| > maxRecord { return Some(RecordTooLarge); }
        if !wellFormed(e.value) { return Some(NotCbor); }
        assert batch[..i + 1][..i] == batch[..i];
        total := total + |e.value| + |e.key|;
        if total > maxBatch {
          SizeGrows(batch, i + 1);
          return Some(BatchTooLarge);
        }
      }
      assert batch[..|batch|] == batch;
      if |id| > MAX_APPEND_ID { return Some(IdTooLong); }
      return None;
    }

    /** The records are inserted one at a time from the stream's next number on. */
    method InsertRecords(first: int, batch: Batch) returns (records: seq<Record>)
      ensures records == Numbered(batch, first)
    {
      records := [];
      for i := 0 to |batch|
        invariant records == Numbered(batch, first)[..i]
      {
        records := records + [Record(first + i, batch[i].key, batch[i].value)];
      }
    }

    /** The number of the last record, in 64-bit arithmetic. */
    method LastNumber(first: int, count: nat) returns (last: int)
      requires 1 <= first <= MAX_INT64 && 1 <= count <= MAX_INT64
      ensures (last < first || last == MAX_INT64) <==> first + count > MAX_INT64
      ensures first + count <= MAX_INT64 ==> last == first + count - 1
    {
      last := Wrap64(Wrap64(first + count) - 1);
      ExhaustedExactly(first, count);
    }

    /** Appends a batch whose identifier is new, unless the numbers would run out. */
    method AppendNew(name: string, id: string, batch: Batch, digest: Bytes) returns (r: AppendResult)
      requires Valid() && |batch| <= MAX_INT64 && Admissible(id, batch) && digest == Preimage(batch)
      requires id == "" || id !in StreamOf(name).appends
      modifies this
      ensures Valid()
      ensures var s := old(StreamOf(name));
              && (r == Refused(SequenceExhausted) <==> s.nextSeq + |batch| > MAX_INT64)
              && (r.Range? <==> s.nextSeq + |batch| <= MAX_INT64)
              && (r.Refused? ==> streams == old(streams) && accepted == old(accepted))
              && (r.Range? ==>
                    && r == Range(s.nextSeq, s.nextSeq + |batch| - 1)
                    && streams == old(streams)[name := Appended(s, id, batch)]
                    && accepted == old(accepted)[name := (if name in old(accepted) then old(accepted)[name] else []) + [batch]])
    {
      hide Holds, Preimage, Concat, Numbered, Appended, Wrap64;
      ghost var before := if name in accepted then accepted[name] else [];
      EmptyHolds();
      var s := StreamOf(name);
      HoldsBounds(s, before);
      var first := s.nextSeq;
      var last := LastNumber(first, |batch|);
      if last < first || last == MAX_INT64 { return Refused(SequenceExhausted); }
      var inserted := InsertRecords(first, batch);
      AppendedHolds(s, before, id, batch);
      AppendedIs(s, id, batch);
      streams := streams[name := Stream(first + |batch|, s.records + inserted,
        if id == "" then s.appends else s.appends[id := Append(digest, first, last)])];
      accepted := accepted[name := before + [batch]];
      return Range(first, last);
    }

    /** `AppendTx` and the commit of its transaction; a refused append changes nothing. An
        append under an identifier that already stands for the same batch changes nothing
        either and returns the numbers the batch got the first time. */
    method AppendTx(name: string, id: string, batch: Batch) returns (r: AppendResult)
      requires Valid() && |batch| <= MAX_INT64
      modifies this
      ensures Valid()
      ensures r.Refused? ==> streams == old(streams) && accepted == old(accepted)
      ensures !Admissible(id, batch) ==> r.Refused? && Because(id, batch, r.error)
      ensures r.Range? ==>
                && 0 < |batch| && Size(batch) <= maxBatch && |id| <= 200
                && forall i :: 0 <= i < |batch| ==>
                     |batch[i].key| <= 1024 && 0 < |batch[i].value| <= maxRecord - |batch[i].key| && wellFormed(batch[i].value)
      ensures r.Range? && id != "" ==> name in streams && id in streams[name].appends
                                       && streams[name].appends[id] == Append(Preimage(batch), r.first, r.last)
      ensures forall x :: x in old(StreamOf(name)).appends ==> x in StreamOf(name).appends && StreamOf(name).appends[x] == old(StreamOf(name)).appends[x]
      ensures Admissible(id, batch) && id != "" && id in old(StreamOf(name)).appends ==>
                var a := old(StreamOf(name)).appends[id];
                && r == (if a.digest == Preimage(batch) then Range(a.first, a.last) else Refused(IdTaken))
                && accepted == old(accepted) && streams == old(streams)
      ensures Admissible(id, batch) && (id == "" || id !in old(StreamOf(name)).appends) ==>
                var s := old(StreamOf(name));
                && (r == Refused(SequenceExhausted) <==> s.nextSeq + |batch| > MAX_INT64)
                && (r.Range? <==> s.nextSeq + |batch| <= MAX_INT64)
                && (r.Range? ==>
                      && r == Range(s.nextSeq, s.nextSeq + |batch| - 1)
                      && streams == old(streams)[name := Appended(s, id, batch)]
                      && accepted == old(accepted)[name := (if name in old(accepted) then old(accepted)[name] else []) + [batch]])
    {
      hide Holds, Preimage, Concat, Appended;
      var error := CheckLimits(id, batch);
      if error.Some? { return Refused(error.value); }
      var digest := BatchDigest(batch);
      EmptyHolds();
      var s := StreamOf(name);
      if id != "" && id in s.appends {
        var previous := s.appends[id];
        if previous.digest != digest { return Refused(IdTaken); }
        return Range(previous.first, previous.last);
      }
      AppendedIs(s, id, batch);
      r := AppendNew(name, id, batch, digest);
    }

    /** A range a stream once gave out for an identifier always holds exactly the batch that
        identifier is used with, so a retry gets the numbers of its own records. */
    lemma RetryFindsItsRecords(name: string, id: string, batch: Batch)
      requires Valid() && name in streams && id in streams[name].appends
      requires streams[name].appends[id].digest == Preimage(batch)
      requires Measurable(batch) && Measurable(EntriesOf(streams[name].records))
      ensures var a := streams[name].appends[id];
              && 1 <= a.first <= a.last <= |streams[name].records|
              && EntriesOf(streams[name].records[a.first - 1..a.last]) == batch
    {
      hide Preimage, Concat, Numbered;
      var s := streams[name];
      assert AppendHolds(s, id);
      var a := s.appends[id];
      var found := s.records[a.first - 1..a.last];
      forall i | 0 <= i < |found|
        ensures |EntriesOf(found)[i].key| < TWO_TO_64 && |EntriesOf(found)[i].value| < TWO_TO_64
      {
        assert found[i] == s.records[a.first - 1 + i];
        assert EntriesOf(s.records)[a.first - 1 + i] == Entry(found[i].key, found[i].value);
      }
      PreimageIsInjective(EntriesOf(found), batch);
    }
  }

  lemma EmptyHolds()
    ensures Holds(EMPTY_STREAM, [])
  {
  }

  lemma AppendedIs(s: Stream, id: string, batch: Batch)
    ensures Appended(s, id, batch)
            == Stream(s.nextSeq + |batch|, s.records + Numbered(batch, s.nextSeq),
                      if id == "" then s.appends else s.appends[id := Append(Preimage(batch), s.nextSeq, s.nextSeq + |batch| - 1)])
  {
    hide Preimage, Numbered;
  }

  lemma HoldsBounds(s: Stream, accepted: seq<Batch>)
    requires Holds(s, accepted)
    ensures 1 <= s.nextSeq <= MAX_INT64 && s.nextSeq == |s.records| + 1
  {
  }

  /** The records of a stream are numbered from one to the number before the next, and are the
      accepted batches one after the other. */
  lemma StreamIsGapless(s: Stream, accepted: seq<Batch>, i: nat)
    requires Holds(s, accepted) && i < |s.records|
    ensures |s.records| == s.nextSeq - 1 == |Concat(accepted)|
    ensures s.records[i] == Record(i + 1, Concat(accepted)[i].key, Concat(accepted)[i].value)
  {
    hide Concat;
  }
}
