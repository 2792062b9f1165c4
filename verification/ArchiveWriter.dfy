/** Writing an archive frame by frame, and reading back what was written. */
module ArchiveWriter {
  import opened Base
  import opened Archive
  import opened Paths

  /** A slice of a prefix is that slice of the whole. */
  lemma SameSlice(whole: Bytes, prefix: Bytes, low: int, high: int)
    requires |prefix| <= |whole| && whole[..|prefix|] == prefix && 0 <= low <= high <= |prefix|
    ensures whole[low..high] == prefix[low..high]
  {
    forall i | 0 <= i < high - low ensures whole[low..high][i] == prefix[low..high][i] {
      assert whole[..|prefix|][low + i] == prefix[low + i];
    }
  }

  // ---- The layout -----------------------------------------------------------

  /** How far the tar has been read, the frames so far, the manifest entries so far, and the
      pieces of the tar that the frames hold. */
  datatype Layout = Layout(cursor: nat, output: Bytes, items: seq<Item>, segments: seq<Bytes>)

  const START: Layout := Layout(0, [], [], [])

  /** The members come one after the other and lie within the tar; only files have data. */
  predicate Fits(raw: Bytes, members: seq<Member>) {
    && (forall i :: 0 <= i < |members| ==>
          members[i].offset + members[i].size <= |raw| && (members[i].kind != Reg ==> members[i].size == 0))
    && forall i :: 0 <= i < |members| - 1 ==> members[i].offset + members[i].size <= members[i + 1].offset
  }

  /** What precedes the data of a member gets a frame of its own. */
  function Skip(f: Format, raw: Bytes, l: Layout, offset: nat): Layout
    requires l.cursor <= offset <= |raw|
  {
    if l.cursor == offset then l
    else Layout(offset, l.output + f.compress(raw[l.cursor..offset]), l.items, l.segments + [raw[l.cursor..offset]])
  }

  function BareItem(m: Member): Item {
    Item(m.kind, m.name, m.mode, if m.kind == Symlink then m.link else "", 0, None, 0, 0)
  }

  function AddMember(f: Format, raw: Bytes, before: Layout, m: Member): Layout
    requires before.cursor <= m.offset && m.offset + m.size <= |raw|
  {
    var l := Skip(f, raw, before, m.offset);
    if m.kind == Reg && m.size > 0 then
      var content := raw[m.offset..m.offset + m.size];
      var frame := f.compress(content);
      Layout(m.offset + m.size, l.output + frame,
             l.items + [BareItem(m).(size := m.size, digest := Some(DigestOf(content)), offset := |l.output|, endOffset := |l.output| + |frame|)],
             l.segments + [content])
    else l.(items := l.items + [BareItem(m)])
  }

  function LayoutOf(f: Format, raw: Bytes, members: seq<Member>): (l: Layout)
    requires Fits(raw, members)
    ensures l.cursor == if members == [] then 0 else members[|members| - 1].offset + members[|members| - 1].size
    ensures l.cursor <= |raw| && |l.items| == |members|
  {
    if members == [] then START
    else
      var n := |members| - 1;
      assert n > 0 ==> members[n - 1].offset + members[n - 1].size <= members[n - 1 + 1].offset;
      AddMember(f, raw, LayoutOf(f, raw, members[..n]), members[n])
  }

  /** The frames, the last of which holds the rest of the tar. */
  function FramesOf(f: Format, raw: Bytes, members: seq<Member>): Bytes
    requires Fits(raw, members)
  {
    LayoutOf(f, raw, members).output + f.compress(raw[LayoutOf(f, raw, members).cursor..])
  }

  function Tail(f: Format, frames: Bytes, items: seq<Item>): Bytes {
    var manifest := f.print_(items);
    var compressed := f.compress(manifest);
    SkipHeader(|compressed|) + compressed + Footer(Location(|frames| + SKIP_HEADER_SIZE, |compressed|, |manifest|))
  }

  /** `_write_archive`. */
  function ArchiveOf(f: Format, raw: Bytes, members: seq<Member>): Result<Bytes>
    requires Fits(raw, members)
  {
    Finished(f, FramesOf(f, raw, members), LayoutOf(f, raw, members).items)
  }

  function Finished(f: Format, frames: Bytes, items: seq<Item>): Result<Bytes> {
    if |f.print_(items)| > MAX_METADATA || |f.compress(f.print_(items))| > MAX_SKIP_SIZE then Err(ArchiveError)
    else if |frames + Tail(f, frames, items)| > MAX_ARCHIVE_SIZE then Err(ArchiveError)
    else Ok(frames + Tail(f, frames, items))
  }

  // ---- Frames partition the tar ---------------------------------------------

  function Frames(f: Format, segments: seq<Bytes>): Bytes {
    if segments == [] then [] else Frames(f, segments[..|segments| - 1]) + f.compress(segments[|segments| - 1])
  }

  lemma OneMore(f: Format, segments: seq<Bytes>, segment: Bytes)
    ensures Join(segments + [segment]) == Join(segments) + segment
    ensures Frames(f, segments + [segment]) == Frames(f, segments) + f.compress(segment)
  {
    JoinMore(segments, segment);
    assert (segments + [segment])[..|segments|] == segments;
  }

  predicate Partitioned(f: Format, raw: Bytes, l: Layout) {
    l.cursor <= |raw| && l.output == Frames(f, l.segments) && Join(l.segments) == raw[..l.cursor]
  }

  lemma SegmentPartitions(f: Format, raw: Bytes, l: Layout, end: nat)
    requires Partitioned(f, raw, l) && l.cursor <= end <= |raw|
    ensures var piece := raw[l.cursor..end];
            Partitioned(f, raw, Layout(end, l.output + f.compress(piece), l.items, l.segments + [piece]))
  {
    hide Frames, Join;
    OneMore(f, l.segments, raw[l.cursor..end]);
    assert raw[..l.cursor] + raw[l.cursor..end] == raw[..end];
  }

  lemma AddPartitions(f: Format, raw: Bytes, l: Layout, m: Member)
    requires Partitioned(f, raw, l) && l.cursor <= m.offset && m.offset + m.size <= |raw|
    ensures Partitioned(f, raw, AddMember(f, raw, l, m))
  {
    SegmentPartitions(f, raw, l, m.offset);
    SegmentPartitions(f, raw, Skip(f, raw, l, m.offset), m.offset + m.size);
  }

  /** The layout grows by one member at a time. */
  lemma LayoutNext(f: Format, raw: Bytes, members: seq<Member>)
    requires Fits(raw, members) && members != []
    ensures var n := |members| - 1;
            && Fits(raw, members[..n]) && LayoutOf(f, raw, members[..n]).cursor <= members[n].offset
            && LayoutOf(f, raw, members) == AddMember(f, raw, LayoutOf(f, raw, members[..n]), members[n])
  {
    var n := |members| - 1;
    assert n > 0 ==> members[n - 1].offset + members[n - 1].size <= members[n - 1 + 1].offset;
    hide AddMember;
  }

  lemma {:induction false} LayoutPartitions(f: Format, raw: Bytes, members: seq<Member>)
    requires Fits(raw, members)
    ensures Partitioned(f, raw, LayoutOf(f, raw, members))
    decreases |members|
  {
    if members != [] {
      hide Partitioned, AddMember, LayoutOf;
      var n := |members| - 1;
      LayoutNext(f, raw, members);
      LayoutPartitions(f, raw, members[..n]);
      AddPartitions(f, raw, LayoutOf(f, raw, members[..n]), members[n]);
    }
  }

  /** The frames are the compressed pieces of a partition of the tar: decompressing them one
      after the other gives every byte of it, in order, with no gap and no overlap. */
  lemma FramesPartitionTheTar(f: Format, raw: Bytes, members: seq<Member>) returns (segments: seq<Bytes>)
    requires Fits(raw, members)
    ensures FramesOf(f, raw, members) == Frames(f, segments) && Join(segments) == raw
  {
    hide Frames, Join, LayoutOf, Fits;
    var l := LayoutOf(f, raw, members);
    LayoutPartitions(f, raw, members);
    OneMore(f, l.segments, raw[l.cursor..]);
    segments := l.segments + [raw[l.cursor..]];
    assert raw[..l.cursor] + raw[l.cursor..] == raw;
  }

  // ---- What the manifest says of each member --------------------------------

  /** Item `i` describes member `i`, and a file's range in the output is the frame of its data. */
  predicate ItemFits(f: Format, raw: Bytes, output: Bytes, m: Member, item: Item)
    requires m.offset + m.size <= |raw|
  {
    if m.kind == Reg && m.size > 0 then
      var content := raw[m.offset..m.offset + m.size];
      && item == BareItem(m).(size := m.size, digest := Some(DigestOf(content)), offset := item.offset, endOffset := item.endOffset)
      && 0 <= item.offset < item.endOffset <= |output|
      && output[item.offset..item.endOffset] == f.compress(content)
    else item == BareItem(m)
  }

  lemma ItemStaysFit(f: Format, raw: Bytes, output: Bytes, more: Bytes, m: Member, item: Item)
    requires m.offset + m.size <= |raw| && ItemFits(f, raw, output, m, item)
    ensures ItemFits(f, raw, output + more, m, item)
  {
    if m.kind == Reg && m.size > 0 {
      SameSlice(output + more, output, item.offset, item.endOffset);
    }
  }

  predicate IsRange(item: Item) {
    item.size > 0
  }

  /** All items fit, and the ranges of files follow each other. */
  ghost predicate ItemsFit(f: Format, raw: Bytes, members: seq<Member>, l: Layout) {
    && |l.items| == |members|
    && (forall i :: 0 <= i < |members| ==>
          members[i].offset + members[i].size <= |raw| && ItemFits(f, raw, l.output, members[i], l.items[i]))
    && forall i, j :: 0 <= i < j < |l.items| && IsRange(l.items[i]) && IsRange(l.items[j]) ==> l.items[i].endOffset <= l.items[j].offset
  }

  lemma SkipFits(f: Format, raw: Bytes, members: seq<Member>, l: Layout, offset: nat)
    requires ItemsFit(f, raw, members, l) && l.cursor <= offset <= |raw|
    ensures ItemsFit(f, raw, members, Skip(f, raw, l, offset))
  {
    var s := Skip(f, raw, l, offset);
    if l.cursor != offset {
      forall i | 0 <= i < |members| ensures ItemFits(f, raw, s.output, members[i], s.items[i]) {
        ItemStaysFit(f, raw, l.output, f.compress(raw[l.cursor..offset]), members[i], l.items[i]);
      }
    }
  }

  lemma {:induction false} LayoutItemsFit(f: Format, raw: Bytes, members: seq<Member>)
    requires Fits(raw, members) && Invertible(f)
    ensures ItemsFit(f, raw, members, LayoutOf(f, raw, members))
    decreases |members|
  {
    if members != [] {
      hide ItemsFit, AddMember, Invertible, LayoutOf;
      var n := |members| - 1;
      LayoutNext(f, raw, members);
      LayoutItemsFit(f, raw, members[..n]);
      AddFits(f, raw, members[..n], LayoutOf(f, raw, members[..n]), members[n]);
      assert members[..n] + [members[n]] == members;
    }
  }

  lemma AddFits(f: Format, raw: Bytes, members: seq<Member>, before: Layout, m: Member)
    requires ItemsFit(f, raw, members, before) && Invertible(f)
    requires before.cursor <= m.offset && m.offset + m.size <= |raw| && (m.kind != Reg ==> m.size == 0)
    ensures ItemsFit(f, raw, members + [m], AddMember(f, raw, before, m))
  {
    SkipFits(f, raw, members, before, m.offset);
    var l := Skip(f, raw, before, m.offset);
    var after := AddMember(f, raw, before, m);
    var ms := members + [m];
    if m.kind == Reg && m.size > 0 {
      var frame := f.compress(raw[m.offset..m.offset + m.size]);
      assert after.output[|l.output|..|l.output| + |frame|] == frame;
      forall i | 0 <= i < |ms| ensures ItemFits(f, raw, after.output, ms[i], after.items[i]) {
        if i < |members| { ItemStaysFit(f, raw, l.output, frame, members[i], l.items[i]); }
      }
      forall i | 0 <= i < |members| && IsRange(l.items[i]) ensures l.items[i].endOffset <= |l.output| {
        assert ItemFits(f, raw, l.output, members[i], l.items[i]);
      }
    }
  }

  // ---- Acceptance -----------------------------------------------------------

  /** What the tar writer makes of every member. */
  predicate Written(m: Member) {
    && SafeName(m.name) && (m.kind != Dir ==> m.name[|m.name| - 1] != '/')
    && 0 <= m.mode <= 4095 && (m.kind != Symlink ==> m.link == "")
  }

  predicate LinksOk(f: Format, members: seq<Member>) {
    forall i :: 0 <= i < |members| && members[i].kind == Symlink ==> ValidLink(members[i].name, members[i].link)
  }

  predicate DistinctNames(members: seq<Member>) {
    forall i, j :: 0 <= i < j < |members| ==> KeyOf(members[i].name) != KeyOf(members[j].name)
  }

  predicate AllWritten(members: seq<Member>) {
    forall i :: 0 <= i < |members| ==> Written(members[i])
  }

  function EntryFor(item: Item): Entry
    requires item.size >= 0 && item.offset >= 0 && item.endOffset >= 0
  {
    Entry(item.name, item.kind, item.size, item.offset, item.endOffset, item.digest)
  }

  lemma ItemParses(f: Format, raw: Bytes, output: Bytes, m: Member, item: Item, limit: int)
    requires m.offset + m.size <= |raw| <= MAX_ARCHIVE_SIZE && ItemFits(f, raw, output, m, item) && Written(m)
    requires |output| <= limit <= MAX_ARCHIVE_SIZE && (m.kind != Reg ==> m.size == 0)
    ensures item.size == m.size && item.offset >= 0 && item.endOffset >= 0 && item.name == m.name
    ensures ParseEntry(f, item, limit)
         == if m.kind == Symlink && !ValidLink(m.name, m.link) then Err(ArchiveError) else Ok(EntryFor(item))
  {
  }

  /** Item `i` is acceptable and entered under the name of its member. */
  predicate Entered(members: seq<Member>, items: seq<Item>, entries: map<string, Entry>, i: nat)
    requires i < |members| == |items|
  {
    && items[i].size >= 0 && items[i].offset >= 0 && items[i].endOffset >= 0
    && KeyOf(members[i].name) in entries && entries[KeyOf(members[i].name)] == EntryFor(items[i])
  }

  /** The entries gathered from the first `n` members. */
  ghost predicate EntriesOf(members: seq<Member>, items: seq<Item>, entries: map<string, Entry>, n: nat)
    requires n <= |members| == |items|
  {
    && (forall i :: 0 <= i < n ==> Entered(members, items, entries, i))
    && (forall key :: key in entries ==> exists i :: 0 <= i < n && KeyOf(members[i].name) == key)
  }

  /** The ranges gathered from the first `n` members: in order, and before those to come. */
  predicate RangesOf(items: seq<Item>, ranges: seq<(nat, nat)>, n: nat) {
    && Nonempty(ranges)
    && (forall i, j :: 0 <= i < j < |ranges| ==> ranges[i].1 <= ranges[j].0)
    && (forall i, k :: 0 <= i < |ranges| && n <= k < |items| && IsRange(items[k]) ==> ranges[i].1 <= items[k].offset)
  }

  ghost predicate GatheredFirst(members: seq<Member>, items: seq<Item>, g: Gathered, n: nat)
    requires n <= |members| == |items|
  {
    && g.total <= (if n == 0 then 0 else members[n - 1].offset + members[n - 1].size)
    && EntriesOf(members, items, g.entries, n) && RangesOf(items, g.ranges, n)
  }

  lemma NameIsNew(members: seq<Member>, items: seq<Item>, entries: map<string, Entry>, n: nat)
    requires n < |members| == |items| && EntriesOf(members, items, entries, n) && DistinctNames(members)
    ensures KeyOf(members[n].name) !in entries
  {
    hide KeyOf, EntryFor, Entered;
  }

  lemma EntriesNamed(members: seq<Member>, items: seq<Item>, entries: map<string, Entry>, n: nat)
    requires n < |members| == |items| && EntriesOf(members, items, entries, n)
    ensures forall k :: k in entries || k == KeyOf(members[n].name) ==> exists i :: 0 <= i < n + 1 && KeyOf(members[i].name) == k
  {
    hide KeyOf, EntryFor, Entered;
    forall k | k in entries || k == KeyOf(members[n].name) ensures exists i :: 0 <= i < n + 1 && KeyOf(members[i].name) == k {
      if k in entries {
        var i :| 0 <= i < n && KeyOf(members[i].name) == k;
      }
    }
  }

  lemma EntryStays(members: seq<Member>, items: seq<Item>, entries: map<string, Entry>, n: nat, i: nat)
    requires i <= n < |members| == |items| && EntriesOf(members, items, entries, n) && KeyOf(members[n].name) !in entries
    requires items[n].size >= 0 && items[n].offset >= 0 && items[n].endOffset >= 0
    ensures Entered(members, items, entries[KeyOf(members[n].name) := EntryFor(items[n])], i)
  {
    hide KeyOf, EntryFor;
    if i < n { assert Entered(members, items, entries, i); }
  }

  lemma EntryAdded(members: seq<Member>, items: seq<Item>, entries: map<string, Entry>, n: nat)
    requires n < |members| == |items| && EntriesOf(members, items, entries, n) && DistinctNames(members)
    requires items[n].size >= 0 && items[n].offset >= 0 && items[n].endOffset >= 0
    ensures KeyOf(members[n].name) !in entries
    ensures EntriesOf(members, items, entries[KeyOf(members[n].name) := EntryFor(items[n])], n + 1)
  {
    hide KeyOf, EntryFor, DistinctNames;
    NameIsNew(members, items, entries, n);
    EntriesNamed(members, items, entries, n);
    var after := entries[KeyOf(members[n].name) := EntryFor(items[n])];
    forall i | 0 <= i < n + 1 ensures Entered(members, items, after, i) {
      EntryStays(members, items, entries, n, i);
    }
  }

  lemma RangeAdded(items: seq<Item>, ranges: seq<(nat, nat)>, n: nat)
    requires n < |items| && RangesOf(items, ranges, n)
    requires IsRange(items[n]) ==> 0 <= items[n].offset < items[n].endOffset
    requires forall k :: n < k < |items| && IsRange(items[n]) && IsRange(items[k]) ==> items[n].endOffset <= items[k].offset
    ensures RangesOf(items, ranges, n + 1)
    ensures IsRange(items[n]) ==> RangesOf(items, ranges + [(items[n].offset, items[n].endOffset)], n + 1)
  {
  }

  /** The reader takes the entries one by one as long as links are acceptable and names new. */
  lemma {:induction false} GatherWritten(f: Format, raw: Bytes, members: seq<Member>, l: Layout, limit: int, n: nat) returns (g: Gathered)
    requires Fits(raw, members) && ItemsFit(f, raw, members, l) && n <= |members| && AllWritten(members)
    requires |raw| <= MAX_ARCHIVE_SIZE && |l.output| <= limit <= MAX_ARCHIVE_SIZE
    requires LinksOk(f, members) && DistinctNames(members)
    ensures GatherAll(f, l.items[..n], limit) == Ok(g) && GatheredFirst(members, l.items, g, n)
  {
    hide ItemFits, KeyOf, ParseEntry, Written, DistinctNames, GatherAll, EntriesOf, RangesOf;
    if n == 0 {
      g := NOTHING;
      GatherNone(f, limit);
      assert EntriesOf(members, l.items, map[], 0) && RangesOf(l.items, [], 0) by { NothingGathered(members, l.items); }
    } else {
      var before := GatherWritten(f, raw, members, l, limit, n - 1);
      var m, item := members[n - 1], l.items[n - 1];
      GatherNext(f, l.items, limit, n - 1);
      ItemParses(f, raw, l.output, m, item, limit);
      RangeNonempty(f, raw, l.output, m, item);
      assert n > 1 ==> members[n - 2].offset + members[n - 2].size <= members[n - 2 + 1].offset;
      EntryAdded(members, l.items, before.entries, n - 1);
      RangeAdded(l.items, before.ranges, n - 1);
      g := Gathered(before.entries[KeyOf(m.name) := EntryFor(item)],
                    if m.size > 0 then before.ranges + [(item.offset, item.endOffset)] else before.ranges, before.total + m.size);
    }
  }

  lemma NothingGathered(members: seq<Member>, items: seq<Item>)
    requires |members| == |items|
    ensures EntriesOf(members, items, map[], 0) && RangesOf(items, [], 0)
  {
  }

  lemma RangeNonempty(f: Format, raw: Bytes, output: Bytes, m: Member, item: Item)
    requires m.offset + m.size <= |raw| && ItemFits(f, raw, output, m, item) && (m.kind != Reg ==> m.size == 0)
    ensures IsRange(item) ==> 0 <= item.offset < item.endOffset
  {
  }

  // ---- Round trip -----------------------------------------------------------

  /** What the reader needs beyond what the writer checks. */
  predicate Readable(f: Format, raw: Bytes, members: seq<Member>)
    requires Fits(raw, members)
  {
    |f.compress(f.print_(LayoutOf(f, raw, members).items))| <= MAX_METADATA && LinksOk(f, members) && DistinctNames(members)
  }

  /** The manifest the writer put at the end is what the reader finds there. */
  lemma ManifestFound(f: Format, raw: Bytes, members: seq<Member>, b: Bytes)
    requires Fits(raw, members) && Invertible(f) && ArchiveOf(f, raw, members) == Ok(b)
    ensures var frames, items := FramesOf(f, raw, members), LayoutOf(f, raw, members).items;
            && |frames| <= |b| <= MAX_ARCHIVE_SIZE && b[..|frames|] == frames
            && ManifestOf(f, b) == (if |f.compress(f.print_(items))| <= MAX_METADATA then Accepted(f, items, |frames|) else Err(ArchiveError))
  {
    hide FramesOf, LayoutOf, Footer, SkipHeader, FooterLocation, Accepted;
    var frames, items := FramesOf(f, raw, members), LayoutOf(f, raw, members).items;
    var manifest := f.print_(items);
    var c := f.compress(manifest);
    var at := Location(|frames| + SKIP_HEADER_SIZE, |c|, |manifest|);
    var header := SkipHeader(|c|);
    var body := frames + (header + c);
    assert b == body + Footer(at);
    FooterRoundTrip(body, at);
    MetadataFound(f, b, frames, header, c, manifest, at);
  }

  lemma MetadataFound(f: Format, b: Bytes, frames: Bytes, header: Bytes, c: Bytes, manifest: Bytes, at: Location)
    requires Invertible(f) && c == f.compress(manifest) && header == SkipHeader(|c|)
    requires at == Location(|frames| + SKIP_HEADER_SIZE, |c|, |manifest|) && 0 < |manifest| <= MAX_METADATA
    requires b == frames + (header + c) + Footer(at)
    ensures ReadMetadata(f, b, at, |frames| + SKIP_HEADER_SIZE + |c|) == (if |c| <= MAX_METADATA then Ok(manifest) else Err(ArchiveError))
  {
    hide SkipHeader, Footer;
    assert b[|frames|..|frames| + SKIP_HEADER_SIZE] == header;
    assert b[at.offset..at.offset + |c|] == c;
    DecodesWhole(f, manifest);
  }

  lemma DecodesWhole(f: Format, data: Bytes)
    requires Invertible(f)
    ensures Decompress(f, f.compress(data), |data|) == Ok(data)
  {
    assert f.compress(data) + [] == f.compress(data);
  }

  lemma WrittenIsAccepted(f: Format, raw: Bytes, members: seq<Member>, limit: int) returns (entries: map<string, Entry>)
    requires Fits(raw, members) && Invertible(f) && AllWritten(members) && |members| <= MAX_ARCHIVE_ENTRIES
    requires |raw| <= MAX_ARCHIVE_SIZE && |LayoutOf(f, raw, members).output| <= limit <= MAX_ARCHIVE_SIZE
    requires LinksOk(f, members) && DistinctNames(members)
    ensures Accepted(f, LayoutOf(f, raw, members).items, limit) == Ok(entries)
    ensures EntriesOf(members, LayoutOf(f, raw, members).items, entries, |members|)
  {
    hide LayoutOf, EntriesOf, GatherAll, Sort;
    var l := LayoutOf(f, raw, members);
    LayoutItemsFit(f, raw, members);
    var g := GatherWritten(f, raw, members, l, limit, |members|);
    assert l.items[..|members|] == l.items;
    LaidOutPasses(g.ranges);
    entries := g.entries;
  }

  /** Round trip: an archive that was written, with a compressed manifest of at most 64 MiB,
      acceptable links and distinct names, gives back exactly the bytes of every file, and no
      other name is found in it. */
  lemma ArchiveRoundTrip(f: Format, raw: Bytes, members: seq<Member>, b: Bytes, i: nat)
    requires Fits(raw, members) && Invertible(f) && AllWritten(members) && |members| <= MAX_ARCHIVE_ENTRIES
    requires |raw| <= MAX_ARCHIVE_SIZE && ArchiveOf(f, raw, members) == Ok(b) && Readable(f, raw, members)
    requires i < |members| && members[i].kind == Reg
    ensures ReadArchive(f, b, members[i].name) == Ok(raw[members[i].offset..members[i].offset + members[i].size])
  {
    hide LayoutOf, FramesOf, ManifestOf, ArchiveOf, KeyOf, ReadArchive, Accepted, ItemFits, Footer, SkipHeader, Invertible;
    var l, frames := LayoutOf(f, raw, members), FramesOf(f, raw, members);
    var m := members[i];
    FramesBegin(f, raw, members);
    ManifestFound(f, raw, members, b);
    var entries := WrittenIsAccepted(f, raw, members, |frames|);
    LayoutItemsFit(f, raw, members);
    assert l.output == b[..|l.output|];
    ReadsItem(f, raw, l.output, b, m, l.items[i]);
    FileName(m);
    assert Entered(members, l.items, entries, i);
    ReadsEntry(f, b, entries, m, l.items[i], raw[m.offset..m.offset + m.size]);
  }

  lemma FramesBegin(f: Format, raw: Bytes, members: seq<Member>)
    requires Fits(raw, members)
    ensures |LayoutOf(f, raw, members).output| <= |FramesOf(f, raw, members)|
    ensures FramesOf(f, raw, members)[..|LayoutOf(f, raw, members).output|] == LayoutOf(f, raw, members).output
  {
    hide LayoutOf;
  }

  lemma FileName(m: Member)
    requires Written(m) && m.kind == Reg
    ensures KeyOf(m.name) == m.name && SafeName(m.name)
  {
  }

  lemma ReadsEntry(f: Format, b: Bytes, entries: map<string, Entry>, m: Member, item: Item, data: Bytes)
    requires ManifestOf(f, b) == Ok(entries) && SafeName(m.name) && m.name in entries && |data| == m.size
    requires item.size >= 0 && item.offset >= 0 && item.endOffset >= 0 && entries[m.name] == EntryFor(item)
    requires item.kind == Reg && item.size == m.size
    requires m.size > 0 ==>
               && item.offset <= item.endOffset <= |b|
               && Decompress(f, b[item.offset..item.endOffset], m.size) == Ok(data) && item.digest == Some(DigestOf(data))
    ensures ReadArchive(f, b, m.name) == Ok(data)
  {
    hide ManifestOf, SafeName, Decompress;
  }

  /** What reading the range of an item gives. */
  lemma ReadsItem(f: Format, raw: Bytes, output: Bytes, b: Bytes, m: Member, item: Item)
    requires m.offset + m.size <= |raw| && ItemFits(f, raw, output, m, item) && Invertible(f) && m.kind == Reg
    requires |output| <= |b| && b[..|output|] == output
    ensures item.kind == Reg && item.size == m.size && item.name == m.name
    ensures m.size == 0 ==> raw[m.offset..m.offset + m.size] == []
    ensures m.size > 0 ==>
              && 0 <= item.offset <= item.endOffset <= |b|
              && Decompress(f, b[item.offset..item.endOffset], m.size) == Ok(raw[m.offset..m.offset + m.size])
              && item.digest == Some(DigestOf(raw[m.offset..m.offset + m.size]))
  {
    if m.size > 0 {
      SameSlice(b, output, item.offset, item.endOffset);
      DecodesWhole(f, raw[m.offset..m.offset + m.size]);
    }
  }

  lemma OtherNamesAreAbsent(f: Format, raw: Bytes, members: seq<Member>, b: Bytes, name: string)
    requires Fits(raw, members) && Invertible(f) && AllWritten(members) && |members| <= MAX_ARCHIVE_ENTRIES
    requires |raw| <= MAX_ARCHIVE_SIZE && ArchiveOf(f, raw, members) == Ok(b) && Readable(f, raw, members)
    requires SafeName(name) && forall i :: 0 <= i < |members| ==> KeyOf(members[i].name) != name
    ensures ReadArchive(f, b, name) == Err(KeyError)
  {
    var frames := FramesOf(f, raw, members);
    ManifestFound(f, raw, members, b);
    var entries := WrittenIsAccepted(f, raw, members, |frames|);
    hide LayoutOf, FramesOf, ManifestOf, ArchiveOf, KeyOf, SafeName, Accepted;
  }

  lemma NoNames(f: Format)
    ensures LinksOk(f, []) && DistinctNames([])
  {
  }

  lemma OneMoreMember(f: Format, members: seq<Member>, m: Member)
    requires LinksOk(f, members) && DistinctNames(members) && (m.kind == Symlink ==> ValidLink(m.name, m.link))
    requires forall i :: 0 <= i < |members| ==> KeyOf(members[i].name) != KeyOf(m.name)
    ensures LinksOk(f, members + [m]) && DistinctNames(members + [m])
  {
    hide KeyOf;
  }

  /** Whatever the reader gathers has acceptable links and different names. */
  lemma {:induction false} GatheredMeans(f: Format, raw: Bytes, members: seq<Member>, l: Layout, limit: int, n: nat)
    requires Fits(raw, members) && ItemsFit(f, raw, members, l) && n <= |members| && AllWritten(members)
    requires |raw| <= MAX_ARCHIVE_SIZE && |l.output| <= limit <= MAX_ARCHIVE_SIZE && GatherAll(f, l.items[..n], limit).Ok?
    ensures LinksOk(f, members[..n]) && DistinctNames(members[..n])
    ensures forall i :: 0 <= i < n ==> KeyOf(members[i].name) in GatherAll(f, l.items[..n], limit).value.entries
  {
    hide ItemFits, KeyOf, ParseEntry, Written, GatherAll, LinksOk, DistinctNames;
    if n == 0 {
      assert members[..0] == [];
      NoNames(f);
    } else {
      GatherNext(f, l.items, limit, n - 1);
      GatheredMeans(f, raw, members, l, limit, n - 1);
      ItemParses(f, raw, l.output, members[n - 1], l.items[n - 1], limit);
      assert members[..n] == members[..n - 1] + [members[n - 1]];
      OneMoreMember(f, members[..n - 1], members[n - 1]);
    }
  }

  /** The writer does not check everything the reader does: what it wrote can be read exactly
      when the compressed manifest is at most 64 MiB, the links are acceptable and the names
      are distinct. */
  lemma ReadableExactly(f: Format, raw: Bytes, members: seq<Member>, b: Bytes)
    requires Fits(raw, members) && Invertible(f) && AllWritten(members) && |members| <= MAX_ARCHIVE_ENTRIES
    requires |raw| <= MAX_ARCHIVE_SIZE && ArchiveOf(f, raw, members) == Ok(b)
    ensures ManifestOf(f, b).Ok? <==> Readable(f, raw, members)
  {
    hide LayoutOf, FramesOf, ManifestOf, ArchiveOf, GatherAll, ItemsFit, LinksOk, DistinctNames, Footer, SkipHeader, Invertible;
    var l, frames := LayoutOf(f, raw, members), FramesOf(f, raw, members);
    FramesBegin(f, raw, members);
    ManifestFound(f, raw, members, b);
    LayoutItemsFit(f, raw, members);
    if Readable(f, raw, members) {
      var entries := WrittenIsAccepted(f, raw, members, |frames|);
    } else if ManifestOf(f, b).Ok? {
      assert l.items[..|members|] == l.items && members[..|members|] == members;
      GatheredMeans(f, raw, members, l, |frames|, |members|);
    }
  }

  /** An archive of one or two members without data. */
  function Bare(m: Member, twice: bool): seq<Member> {
    if twice then [m, m] else [m]
  }

  function BareItems(m: Member, twice: bool): seq<Item> {
    if twice then [BareItem(m), BareItem(m)] else [BareItem(m)]
  }

  lemma BareLayout(f: Format, m: Member, twice: bool)
    requires m.offset == 0 && m.size == 0
    ensures Fits([], Bare(m, twice)) && LayoutOf(f, [], Bare(m, twice)) == Layout(0, [], BareItems(m, twice), [])
  {
    var one := [m];
    assert one[..0] == [];
    assert LayoutOf(f, [], one) == Layout(0, [], [BareItem(m)], []);
    if twice {
      assert [m, m][..1] == one;
      assert [BareItem(m)] + [BareItem(m)] == BareItems(m, twice);
    }
  }

  /** Such archives exist: one member whose link the reader refuses, or any name twice, is written
      and cannot be read, whatever the codec. */
  lemma WrittenYetRefused(f: Format, m: Member, twice: bool)
    requires Invertible(f) && Written(m) && m.offset == 0 && m.size == 0 && (twice || (m.kind == Symlink && !ValidLink(m.name, m.link)))
    requires |f.print_(BareItems(m, twice))| <= MAX_METADATA && |f.compress(f.print_(BareItems(m, twice)))| <= MAX_METADATA
    requires |f.compress([])| <= MAX_METADATA
    ensures Fits([], Bare(m, twice)) && ArchiveOf(f, [], Bare(m, twice)).Ok?
    ensures ManifestOf(f, ArchiveOf(f, [], Bare(m, twice)).value).Err?
  {
    hide LayoutOf, Footer, SkipHeader, ManifestOf, KeyOf, SafeName, Invertible;
    BareLayout(f, m, twice);
    var members := Bare(m, twice);
    assert members[0] == m && (twice ==> members[1] == m);
    assert FramesOf(f, [], members) == f.compress([]);
    assert ArchiveOf(f, [], members).Ok?;
    ReadableExactly(f, [], members, ArchiveOf(f, [], members).value);
  }

  // ---- What the manifest lists ----------------------------------------------

  /** The entry of a member in the manifest: a file with content has its size, its digest and the
      range of `b` where one whole frame decodes to it, and anything else has none of these. */
  ghost predicate Listed(f: Format, raw: Bytes, b: Bytes, m: Member, item: Item) {
    && item.kind == m.kind && item.name == m.name && item.mode == m.mode
    && item.link == (if m.kind == Symlink then m.link else "")
    && m.offset + m.size <= |raw|
    && if m.kind == Reg && m.size > 0 then
         var content := raw[m.offset..m.offset + m.size];
         && item.size == m.size && item.digest == Some(DigestOf(content))
         && 0 <= item.offset < item.endOffset <= |b|
         && f.decode(b[item.offset..item.endOffset]) == Some((content, item.endOffset - item.offset))
       else item.size == 0 && item.digest == None && item.offset == 0 && item.endOffset == 0
  }

  /** The archive ends in a manifest of these entries. */
  ghost predicate EndsWith(f: Format, b: Bytes, at: Location, items: seq<Item>) {
    && |b| >= FOOTER_SIZE && LocationFits(at) && b[|b| - FOOTER_SIZE..] == Footer(at)
    && SKIP_HEADER_SIZE <= at.offset && at.offset + at.compressed + FOOTER_SIZE == |b|
    && b[at.offset - SKIP_HEADER_SIZE..at.offset] == SkipHeader(at.compressed)
    && f.decode(b[at.offset..at.offset + at.compressed]) == Some((f.print_(items), at.compressed)) && at.size == |f.print_(items)|
  }

  lemma ItemIsListed(f: Format, raw: Bytes, output: Bytes, b: Bytes, m: Member, item: Item)
    requires Invertible(f) && m.offset + m.size <= |raw| && ItemFits(f, raw, output, m, item)
    requires |output| <= |b| && b[..|output|] == output
    ensures Listed(f, raw, b, m, item)
  {
    if m.kind == Reg && m.size > 0 {
      SameSlice(b, output, item.offset, item.endOffset);
      var content := raw[m.offset..m.offset + m.size];
      assert f.compress(content) + [] == f.compress(content);
    }
  }

  /** Whatever archive is written, whether it can be read or not, ends in a manifest with one entry
      for each member, in order. */
  lemma ManifestLists(f: Format, raw: Bytes, members: seq<Member>, b: Bytes) returns (at: Location, items: seq<Item>)
    requires Fits(raw, members) && Invertible(f) && ArchiveOf(f, raw, members) == Ok(b)
    ensures EndsWith(f, b, at, items) && |items| == |members|
    ensures forall i :: 0 <= i < |members| ==> Listed(f, raw, b, members[i], items[i])
  {
    hide LayoutOf, FramesOf, Footer, SkipHeader, ItemFits, Listed, Invertible, EndsWith;
    var frames := FramesOf(f, raw, members);
    var l := LayoutOf(f, raw, members);
    items := l.items;
    FramesBegin(f, raw, members);
    LayoutItemsFit(f, raw, members);
    at := TailEnds(f, frames, items, b);
    forall i | 0 <= i < |members| ensures Listed(f, raw, b, members[i], items[i]) {
      assert b[..|l.output|] == l.output;
      ItemIsListed(f, raw, l.output, b, members[i], items[i]);
    }
  }

  lemma TailEnds(f: Format, frames: Bytes, items: seq<Item>, b: Bytes) returns (at: Location)
    requires Invertible(f) && Finished(f, frames, items) == Ok(b)
    ensures EndsWith(f, b, at, items) && |frames| <= |b| && b[..|frames|] == frames
  {
    hide Footer, SkipHeader;
    var c := f.compress(f.print_(items));
    at := Location(|frames| + SKIP_HEADER_SIZE, |c|, |f.print_(items)|);
    assert b == frames + SkipHeader(|c|) + c + Footer(at);
    assert b[at.offset - SKIP_HEADER_SIZE..at.offset] == SkipHeader(|c|);
    assert b[at.offset..at.offset + |c|] == c && c + [] == c;
  }

  /** An archive is written exactly if its manifest is at most 64 MiB long, fits its frame once
      compressed, and the whole is at most 2 GiB long. */
  lemma WrittenExactly(f: Format, raw: Bytes, members: seq<Member>)
    requires Fits(raw, members)
    ensures var frames, manifest := FramesOf(f, raw, members), f.print_(LayoutOf(f, raw, members).items);
            var r := ArchiveOf(f, raw, members);
            && (r.Ok? <==> |manifest| <= 67108864 && |f.compress(manifest)| <= 4294967295
                           && |frames| + 8 + |f.compress(manifest)| + 72 <= 2147483648)
            && (r.Ok? ==> |r.value| == |frames| + 8 + |f.compress(manifest)| + 72)
            && (r.Err? ==> r.error == ArchiveError)
  {
    hide LayoutOf, FramesOf, Footer, SkipHeader;
  }

  // ---- The writer's loops ---------------------------------------------------

  /** `_frame`: reads `length` bytes of the tar in chunks and compresses them as one frame. */
  method Frame(f: Format, raw: Bytes, position: nat, length: nat) returns (frame: Result<Bytes>)
    requires position <= |raw|
    ensures frame == if position + length <= |raw| then Ok(f.compress(raw[position..position + length])) else Err(ArchiveError)
  {
    var data: Bytes, remaining := [], length;
    while remaining > 0
      invariant 0 <= remaining <= length && position + (length - remaining) <= |raw|
      invariant data == raw[position..position + (length - remaining)]
    {
      var at := position + (length - remaining);
      var amount := Min(Min(1048576, remaining), |raw| - at);
      if amount == 0 { return Err(ArchiveError); }
      data := data + raw[at..at + amount];
      remaining := remaining - amount;
    }
    assert data == raw[position..position + length];
    return Ok(f.compress(data));
  }

  /** `_write_archive`: one frame before each file's data, one for the data, one for the rest of
      the tar, then the manifest and the footer. */
  method WriteArchive(f: Format, raw: Bytes, members: seq<Member>) returns (r: Result<Bytes>)
    requires Fits(raw, members)
    ensures r == ArchiveOf(f, raw, members)
  {
    hide LayoutOf, Footer, SkipHeader;
    var cursor, output: Bytes, items: seq<Item> := 0, [], [];
    ghost var l := START;
    NoMembers(f, raw);
    assert members[..0] == [];
    for i := 0 to |members|
      invariant Fits(raw, members[..i]) && l == LayoutOf(f, raw, members[..i])
      invariant cursor == l.cursor && output == l.output && items == l.items
    {
      var m := members[i];
      FitsNext(f, raw, members, i);
      if m.offset > cursor {
        var gap := Frame(f, raw, cursor, m.offset - cursor);
        output := output + gap.value;
      }
      cursor := m.offset;
      var item := BareItem(m);
      if m.kind == Reg && m.size > 0 {
        var start := |output|;
        var frame := Frame(f, raw, cursor, m.size);
        output := output + frame.value;
        item := item.(size := m.size, digest := Some(DigestOf(raw[cursor..cursor + m.size])), offset := start, endOffset := |output|);
        cursor := cursor + m.size;
      }
      items := items + [item];
      l := AddMember(f, raw, l, m);
    }
    assert members[..|members|] == members;
    var last := Frame(f, raw, cursor, |raw| - cursor);
    assert raw[cursor..|raw|] == raw[cursor..];
    output := output + last.value;
    r := Finish(f, output, items);
  }

  /** `_metadata` and the footer. */
  method Finish(f: Format, frames: Bytes, items: seq<Item>) returns (r: Result<Bytes>)
    ensures r == Finished(f, frames, items)
  {
    hide Footer, SkipHeader;
    var manifest := f.print_(items);
    if |manifest| > MAX_METADATA { return Err(ArchiveError); }
    var compressed := f.compress(manifest);
    if |compressed| > MAX_SKIP_SIZE { return Err(ArchiveError); }
    var output := frames + SkipHeader(|compressed|);
    var offset := |output|;
    output := output + compressed;
    output := output + Footer(Location(offset, |compressed|, |manifest|));
    assert output == frames + Tail(f, frames, items);
    if |output| > MAX_ARCHIVE_SIZE { return Err(ArchiveError); }
    return Ok(output);
  }

  lemma NoMembers(f: Format, raw: Bytes)
    ensures LayoutOf(f, raw, []) == START
  {
  }

  lemma FitsNext(f: Format, raw: Bytes, members: seq<Member>, i: nat)
    requires Fits(raw, members) && i < |members|
    ensures Fits(raw, members[..i]) && Fits(raw, members[..i + 1])
    ensures LayoutOf(f, raw, members[..i]).cursor <= members[i].offset
    ensures members[i].offset + members[i].size <= |raw|
    ensures LayoutOf(f, raw, members[..i + 1]) == AddMember(f, raw, LayoutOf(f, raw, members[..i]), members[i])
  {
    assert members[..i + 1][..i] == members[..i];
    assert i > 0 ==> members[i - 1].offset + members[i - 1].size <= members[i - 1 + 1].offset;
    hide AddMember;
  }

  // ---- The tar --------------------------------------------------------------

  /** A file to archive: its name, kind, mode, data and link target. */
  datatype Source = Source(name: string, kind: Kind, executable: bool, data: Bytes, link: string)

  const RECORD: nat := 10240

  function Zeros(n: nat): (r: Bytes)
    ensures |r| == n
  {
    seq(n, _ => 0)
  }

  function Padding(size: nat, unit: nat): nat
    requires unit > 0
  {
    (unit - size % unit) % unit
  }

  /** Directories and executable files get 0o755, anything else 0o644. */
  function ModeOf(s: Source): int {
    if s.kind == Dir then 493 else if s.kind == Reg && s.executable then 493 else 420
  }

  function DataOf(s: Source): Bytes {
    if s.kind == Reg then s.data else []
  }

  /** How many blocks hold so many bytes. */
  function BlocksFor(size: nat): nat {
    (size + (BLOCK - 1)) / BLOCK
  }

  lemma PaddedIsBlocks(size: nat)
    ensures size + Padding(size, BLOCK) == BLOCK * BlocksFor(size)
  {
  }

  /** How long the tar is behind these files: each has its header and its data in whole blocks. */
  function TarLength(sources: seq<Source>, header: Source -> Bytes): nat {
    if sources == [] then 0
    else
      var s := sources[|sources| - 1];
      TarLength(sources[..|sources| - 1], header) + |header(s)| + BLOCK * BlocksFor(|DataOf(s)|)
  }

  /** Member and source agree, and the tar holds the source's data where the member says. */
  predicate Holds(raw: Bytes, m: Member, s: Source) {
    && m.name == s.name + (if s.kind == Dir then "/" else "") && m.kind == s.kind && m.mode == ModeOf(s)
    && m.link == (if s.kind == Symlink then s.link else "")
    && m.offset + m.size <= |raw|
    && raw[m.offset..m.offset + m.size] == DataOf(s)
  }

  /** The stretch of the tar from `start` on: the header, the data, and zeros up to the end of the
      last block. */
  predicate Placed(raw: Bytes, m: Member, s: Source, start: nat, head: Bytes) {
    && m.offset == start + |head| && m.size == |DataOf(s)| && m.offset + BLOCK * BlocksFor(m.size) <= |raw|
    && raw[start..m.offset] == head && raw[m.offset..m.offset + m.size] == DataOf(s)
    && forall k :: m.offset + m.size <= k < m.offset + BLOCK * BlocksFor(m.size) ==> raw[k] == 0
  }

  /** `addfile`: the header, the data and the padding of the last block. */
  method AppendMember(raw: Bytes, s: Source, head: Bytes) returns (longer: Bytes, m: Member)
    ensures |raw| <= |longer| && longer[..|raw|] == raw && Holds(longer, m, s)
    ensures Placed(longer, m, s, |raw|, head) && |longer| == |raw| + |head| + BLOCK * BlocksFor(|DataOf(s)|)
    ensures |raw| <= m.offset && m.offset + m.size <= |longer| && (m.kind != Reg ==> m.size == 0)
  {
    var data := if s.kind == Reg then s.data else [];
    var offset := |raw| + |head|;
    m := Member(s.name + (if s.kind == Dir then "/" else ""), s.kind, ModeOf(s), |data|, if s.kind == Symlink then s.link else "", offset);
    longer := raw + (head + (data + Zeros(Padding(|data|, BLOCK))));
    PaddedIsBlocks(|data|);
    assert longer[|raw|..offset] == head;
    assert longer[offset..offset + |data|] == data;
  }

  /** Closing the tar: two zero blocks and the padding of the last record. */
  method CloseTar(raw: Bytes) returns (whole: Bytes)
    ensures |raw| + 2 * BLOCK <= |whole| < |raw| + 2 * BLOCK + RECORD && |whole| % RECORD == 0
    ensures whole[..|raw|] == raw && forall k :: |raw| <= k < |whole| ==> whole[k] == 0
  {
    var unpadded := raw + Zeros(2 * BLOCK);
    whole := unpadded + Zeros(Padding(|unpadded|, RECORD));
  }

  /** The files fit into a tar: their names are safe, there are not too many, and none is added
      that could take the tar over the limit. */
  ghost predicate TarFits(sources: seq<Source>, header: Source -> Bytes) {
    |sources| <= MAX_ARCHIVE_ENTRIES && forall i :: 0 <= i < |sources| ==> FileFits(sources, header, i)
  }

  ghost predicate FileFits(sources: seq<Source>, header: Source -> Bytes, i: nat)
    requires i < |sources|
  {
    SafePath(sources[i].name) && TarLength(sources[..i], header) + |DataOf(sources[i])| + 1024 <= MAX_ARCHIVE_SIZE
  }

  lemma FileFitsExactly(sources: seq<Source>, header: Source -> Bytes, i: nat)
    requires i < |sources|
    ensures var s := sources[i];
            FileFits(sources, header, i) <==>
              SafeName(s.name) && TarLength(sources[..i], header) + (if s.kind == Reg then |s.data| else 0) + 1024 <= MAX_ARCHIVE_SIZE
  {
    hide SafeName, SafePath, TarLength;
    SafeNameIsSafe(sources[i].name);
  }

  /** The tar of these files, byte by byte: one stretch for each, and zeros for at least two blocks
      and up to the end of the record. */
  ghost predicate IsTar(raw: Bytes, members: seq<Member>, sources: seq<Source>, header: Source -> Bytes) {
    && |members| == |sources| && Fits(raw, members)
    && (forall i :: 0 <= i < |sources| ==>
          Holds(raw, members[i], sources[i]) && Placed(raw, members[i], sources[i], TarLength(sources[..i], header), header(sources[i])))
    && var length := TarLength(sources, header);
       && length + 1024 <= |raw| < length + 1024 + RECORD && |raw| % RECORD == 0
       && forall k :: length <= k < |raw| ==> raw[k] == 0
  }

  /** `_write_tar`: headers and padded data one after the other, then two zero blocks and the
      padding of the last record. The headers themselves are given; each is whole blocks. */
  method WriteTar(sources: seq<Source>, header: Source -> Bytes) returns (r: Result<(Bytes, seq<Member>)>)
    ensures r.Ok? <==> TarFits(sources, header)
    ensures r.Ok? ==> IsTar(r.value.0, r.value.1, sources, header)
    ensures r.Err? ==> r.error == ArchiveError
  {
    hide SafeName, TarHolds, IsTar, Holds, Placed, BlocksFor, TarLength, FileFits;
    var raw: Bytes, members: seq<Member> := [], [];
    EmptyTar(header);
    for i := 0 to |sources|
      invariant |members| == i <= MAX_ARCHIVE_ENTRIES && TarHolds(raw, members, sources[..i], header)
      invariant |raw| == TarLength(sources[..i], header)
      invariant forall k :: 0 <= k < i ==> FileFits(sources, header, k)
    {
      var s := sources[i];
      FileFitsExactly(sources, header, i);
      if !SafeName(s.name) { return Err(ArchiveError); }
      var size := if s.kind == Reg then |s.data| else 0;
      if |raw| + size + 1024 > MAX_ARCHIVE_SIZE || |members| >= MAX_ARCHIVE_ENTRIES { return Err(ArchiveError); }
      var before := raw;
      var m;
      raw, m := AppendMember(raw, s, header(s));
      TarGrows(before, raw, members, sources[..i], m, s, header);
      assert sources[..i] + [s] == sources[..i + 1];
      members := members + [m];
    }
    var whole := CloseTar(raw);
    assert sources[..|sources|] == sources;
    TarCloses(raw, whole, members, sources, header);
    return Ok((whole, members));
  }

  /** The tar so far holds the data of these members. */
  ghost predicate TarHolds(raw: Bytes, members: seq<Member>, sources: seq<Source>, header: Source -> Bytes) {
    && |members| == |sources| && Fits(raw, members)
    && (members != [] ==> members[|members| - 1].offset + members[|members| - 1].size <= |raw|)
    && forall i :: 0 <= i < |sources| ==>
         Holds(raw, members[i], sources[i]) && Placed(raw, members[i], sources[i], TarLength(sources[..i], header), header(sources[i]))
  }

  lemma EmptyTar(header: Source -> Bytes)
    ensures TarHolds([], [], [], header) && TarLength([], header) == 0
  {
  }

  lemma HoldsInLonger(raw: Bytes, longer: Bytes, m: Member, s: Source, start: nat, head: Bytes)
    requires |raw| <= |longer| && longer[..|raw|] == raw && Holds(raw, m, s) && Placed(raw, m, s, start, head)
    ensures Holds(longer, m, s) && Placed(longer, m, s, start, head)
  {
    SameSlice(longer, raw, m.offset, m.offset + m.size);
    SameSlice(longer, raw, start, m.offset);
    forall k | m.offset + m.size <= k < m.offset + BLOCK * BlocksFor(m.size) ensures longer[k] == 0 {
      assert longer[..|raw|][k] == raw[k];
    }
  }

  lemma TarIsPrefix(raw: Bytes, longer: Bytes, members: seq<Member>, sources: seq<Source>, header: Source -> Bytes)
    requires TarHolds(raw, members, sources, header) && |raw| <= |longer| && longer[..|raw|] == raw
    ensures TarHolds(longer, members, sources, header)
  {
    hide Holds, Placed;
    forall i | 0 <= i < |sources|
      ensures Holds(longer, members[i], sources[i])
              && Placed(longer, members[i], sources[i], TarLength(sources[..i], header), header(sources[i]))
    {
      HoldsInLonger(raw, longer, members[i], sources[i], TarLength(sources[..i], header), header(sources[i]));
    }
  }

  lemma TarCloses(raw: Bytes, longer: Bytes, members: seq<Member>, sources: seq<Source>, header: Source -> Bytes)
    requires TarHolds(raw, members, sources, header) && |raw| == TarLength(sources, header)
    requires |raw| + 2 * BLOCK <= |longer| < |raw| + 2 * BLOCK + RECORD && |longer| % RECORD == 0
    requires longer[..|raw|] == raw && forall k :: |raw| <= k < |longer| ==> longer[k] == 0
    ensures IsTar(longer, members, sources, header)
  {
    hide Holds, Placed;
    TarIsPrefix(raw, longer, members, sources, header);
  }

  lemma LengthGrows(sources: seq<Source>, s: Source, header: Source -> Bytes)
    ensures TarLength(sources + [s], header) == TarLength(sources, header) + |header(s)| + BLOCK * BlocksFor(|DataOf(s)|)
  {
    hide BlocksFor;
    assert (sources + [s])[..|sources|] == sources;
  }

  lemma FitsGrows(raw: Bytes, longer: Bytes, members: seq<Member>, m: Member)
    requires Fits(raw, members) && |raw| <= m.offset && m.offset + m.size <= |longer| && (m.kind != Reg ==> m.size == 0)
    ensures Fits(longer, members + [m])
  {
    forall i | 0 <= i < |members| ensures members[i].offset + members[i].size <= (members + [m])[i + 1].offset {
      if i + 1 < |members| { assert (members + [m])[i + 1] == members[i + 1]; }
    }
  }

  lemma TarGrows(raw: Bytes, longer: Bytes, members: seq<Member>, sources: seq<Source>, m: Member, s: Source, header: Source -> Bytes)
    requires TarHolds(raw, members, sources, header) && |raw| == TarLength(sources, header)
    requires |raw| <= |longer| && longer[..|raw|] == raw && Holds(longer, m, s) && Placed(longer, m, s, |raw|, header(s))
    requires |raw| <= m.offset && m.offset + m.size <= |longer| && (m.kind != Reg ==> m.size == 0)
    requires |longer| == |raw| + |header(s)| + BLOCK * BlocksFor(|DataOf(s)|)
    ensures TarHolds(longer, members + [m], sources + [s], header) && |longer| == TarLength(sources + [s], header)
  {
    hide Holds, Placed, TarLength, BlocksFor, DataOf, Fits;
    LengthGrows(sources, s, header);
    FitsGrows(raw, longer, members, m);
    TarIsPrefix(raw, longer, members, sources, header);
    var all := sources + [s];
    forall i | 0 <= i < |all|
      ensures Holds(longer, (members + [m])[i], all[i])
              && Placed(longer, (members + [m])[i], all[i], TarLength(all[..i], header), header(all[i]))
    {
      assert all[..i] == sources[..i];
      if i == |sources| { assert sources[..i] == sources; }
    }
  }

  // ---- From files to files --------------------------------------------------

  /** A path relative to the source directory does not end in a slash. */
  predicate PlainName(name: string) {
    name != "" ==> name[|name| - 1] != '/'
  }

  lemma HeldIsWritten(raw: Bytes, m: Member, s: Source)
    requires Holds(raw, m, s) && SafeName(s.name) && PlainName(s.name)
    ensures Written(m)
  {
    assert Stripped(s.name) == s.name;
    if s.kind == Dir {
      assert m.name[0] == s.name[0] && Stripped(m.name) == s.name;
    } else {
      assert m.name == s.name;
    }
  }

  /** The entry of a file in the manifest, with the mode it gets. */
  ghost predicate FileListed(f: Format, b: Bytes, s: Source, item: Item) {
    && item.kind == s.kind && item.name == s.name + (if s.kind == Dir then "/" else "")
    && item.mode == (if s.kind == Dir || (s.kind == Reg && s.executable) then 493 else 420)
    && item.link == (if s.kind == Symlink then s.link else "")
    && if s.kind == Reg && s.data != [] then
         && item.size == |s.data| && item.digest == Some(DigestOf(s.data))
         && 0 <= item.offset < item.endOffset <= |b|
         && f.decode(b[item.offset..item.endOffset]) == Some((s.data, item.endOffset - item.offset))
       else item.size == 0 && item.digest == None && item.offset == 0 && item.endOffset == 0
  }

  lemma MemberIsFile(f: Format, raw: Bytes, b: Bytes, m: Member, s: Source, item: Item)
    requires Holds(raw, m, s) && Listed(f, raw, b, m, item)
    ensures FileListed(f, b, s, item)
  {
  }

  lemma FilesAreListed(f: Format, raw: Bytes, members: seq<Member>, sources: seq<Source>, header: Source -> Bytes, b: Bytes)
    requires IsTar(raw, members, sources, header) && Invertible(f) && ArchiveOf(f, raw, members) == Ok(b)
    ensures exists at, items :: EndsWith(f, b, at, items) && |items| == |sources|
                                && forall i :: 0 <= i < |sources| ==> FileListed(f, b, sources[i], items[i])
  {
    hide EndsWith, Holds, Placed, Listed, FileListed, ArchiveOf, Invertible;
    var at, items := ManifestLists(f, raw, members, b);
    forall i | 0 <= i < |sources| ensures FileListed(f, b, sources[i], items[i]) {
      MemberIsFile(f, raw, b, members[i], sources[i], items[i]);
    }
  }

  /** The tar of the files, or the archive around it, would be too big. */
  ghost predicate TooBig(f: Format, sources: seq<Source>, header: Source -> Bytes) {
    exists raw, members :: IsTar(raw, members, sources, header) && (|raw| > MAX_ARCHIVE_SIZE || ArchiveOf(f, raw, members).Err?)
  }

  /** `create_archive`: it fails only if the files do not fit into a tar or into an archive. What it
      writes lists every file in order, and if the reader accepts it, every file is read back byte
      for byte under its own name. */
  method CreateArchive(f: Format, sources: seq<Source>, header: Source -> Bytes) returns (r: Result<Bytes>)
    requires forall i :: 0 <= i < |sources| ==> PlainName(sources[i].name)
    ensures r.Ok? ==> TarFits(sources, header)
    ensures r.Err? ==> r.error == ArchiveError && (TarFits(sources, header) ==> TooBig(f, sources, header))
    ensures r.Ok? && Invertible(f) ==>
              exists at, items :: EndsWith(f, r.value, at, items) && |items| == |sources|
                                  && forall i :: 0 <= i < |sources| ==> FileListed(f, r.value, sources[i], items[i])
    ensures r.Ok? && Invertible(f) && ManifestOf(f, r.value).Ok? ==>
              forall i :: 0 <= i < |sources| && sources[i].kind == Reg ==> ReadArchive(f, r.value, sources[i].name) == Ok(sources[i].data)
  {
    hide ArchiveOf, ReadArchive, ManifestOf, EndsWith, FileListed, TarFits, Invertible;
    var tar := WriteTar(sources, header);
    if tar.Err? { return Err(tar.error); }
    var (raw, members) := tar.value;
    if |raw| > MAX_ARCHIVE_SIZE { return Err(ArchiveError); }
    r := WriteArchive(f, raw, members);
    WrittenExactly(f, raw, members);
    if r.Ok? && Invertible(f) {
      FilesAreListed(f, raw, members, sources, header, r.value);
      if ManifestOf(f, r.value).Ok? { FilesAreRead(f, raw, members, sources, header, r.value); }
    }
  }

  lemma FilesAreWritten(raw: Bytes, members: seq<Member>, sources: seq<Source>, header: Source -> Bytes)
    requires IsTar(raw, members, sources, header) && TarFits(sources, header)
    requires forall i :: 0 <= i < |sources| ==> PlainName(sources[i].name)
    ensures AllWritten(members)
  {
    hide SafeName, SafePath, Written, Placed, Holds, Fits, TarLength, BlocksFor, DataOf, PlainName;
    forall i | 0 <= i < |members| ensures Written(members[i]) {
      assert FileFits(sources, header, i);
      SafeNameIsSafe(sources[i].name);
      HeldIsWritten(raw, members[i], sources[i]);
    }
  }

  lemma FilesAreRead(f: Format, raw: Bytes, members: seq<Member>, sources: seq<Source>, header: Source -> Bytes, b: Bytes)
    requires IsTar(raw, members, sources, header) && TarFits(sources, header) && |raw| <= MAX_ARCHIVE_SIZE
    requires forall i :: 0 <= i < |sources| ==> PlainName(sources[i].name)
    requires Invertible(f) && ArchiveOf(f, raw, members) == Ok(b) && ManifestOf(f, b).Ok?
    ensures forall i :: 0 <= i < |sources| && sources[i].kind == Reg ==> ReadArchive(f, b, sources[i].name) == Ok(sources[i].data)
  {
    hide ArchiveOf, ReadArchive, ManifestOf, Readable, Written, Placed, Invertible, Fits, FileFits, TarLength, BlocksFor;
    FilesAreWritten(raw, members, sources, header);
    ReadableExactly(f, raw, members, b);
    forall i | 0 <= i < |sources| && sources[i].kind == Reg ensures ReadArchive(f, b, sources[i].name) == Ok(sources[i].data) {
      assert Holds(raw, members[i], sources[i]) && members[i].name == sources[i].name;
      ArchiveRoundTrip(f, raw, members, b, i);
    }
  }
}
