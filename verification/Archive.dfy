/** zstd:chunked archives: what the writer lays out and what the reader accepts. The compressor
    and the manifest's text format are parameters. */
module Archive {
  import opened Base
  import opened Paths

  const SKIP_MAGIC: nat := 0x184D2A50
  const FOOTER_MAGIC: nat := 0x78556E496C554E47
  const FOOTER_SIZE: nat := 72
  const SKIP_HEADER_SIZE: nat := 8
  const MAX_METADATA: nat := 67108864
  const MAX_SKIP_SIZE: nat := 4294967295
  const MAX_ARCHIVE_SIZE: nat := 2147483648
  const MAX_ARCHIVE_ENTRIES: nat := 100000
  const BLOCK: nat := 512

  datatype Kind = Reg | Dir | Symlink

  /** A tar member and where its data starts in the tar. */
  datatype Member = Member(name: string, kind: Kind, mode: int, size: nat, link: string, offset: nat)

  /** One entry of the manifest; what the text leaves out is zero or empty. */
  datatype Item = Item(kind: Kind, name: string, mode: int, link: string, size: int, digest: Option<Digest>, offset: int, endOffset: int)

  /** The compressor, a decoder that says how much of its input one frame takes, and the text form
      of the manifest. */
  datatype Format = Format(
    compress: Bytes -> Bytes,
    decode: Bytes -> Option<(Bytes, nat)>,
    print_: seq<Item> -> Bytes,
    parse: Bytes -> Option<seq<Item>>)

  /** Frames are not empty, say where they end and can be decoded whatever follows them, and
      manifests can be read back. */
  ghost predicate Invertible(f: Format) {
    && (forall data :: |f.compress(data)| > 0)
    && (forall data, rest :: f.decode(f.compress(data) + rest) == Some((data, |f.compress(data)|)))
    && (forall items :: |f.print_(items)| > 0 && f.parse(f.print_(items)) == Some(items))
  }

  datatype Error = ArchiveError | KeyError

  datatype Result<T> = Ok(value: T) | Err(error: Error)

  // ---- The footer -----------------------------------------------------------

  /** Where the manifest is: its first byte, its compressed and its plain size. */
  datatype Location = Location(offset: nat, compressed: nat, size: nat)

  function SkipHeader(length: nat): (r: Bytes)
    ensures |r| == SKIP_HEADER_SIZE
  {
    LittleEndian(SKIP_MAGIC, 4) + LittleEndian(length, 4)
  }

  function Footer(at: Location): (r: Bytes)
    ensures |r| == FOOTER_SIZE
  {
    SkipHeader(64)
    + (LittleEndian(at.offset, 8) + (LittleEndian(at.compressed, 8) + (LittleEndian(at.size, 8)
    + (LittleEndian(1, 8) + (LittleEndian(0, 24) + LittleEndian(FOOTER_MAGIC, 8))))))
  }

  /** `_footer_locations`: the location in the footer and where the footer starts. */
  function FooterLocation(b: Bytes): Result<(Location, nat)> {
    if !(FOOTER_SIZE <= |b| <= MAX_ARCHIVE_SIZE) then Err(ArchiveError)
    else
      var end := |b| - FOOTER_SIZE;
      var footer := b[end..];
      if footer[..SKIP_HEADER_SIZE] != SkipHeader(64) || LittleValueOf(footer[32..40]) != 1 || LittleValueOf(footer[64..72]) != FOOTER_MAGIC
      then Err(ArchiveError)
      else if LittleValueOf(footer[40..64]) != 0 then Err(ArchiveError)
      else Ok((Location(LittleValueOf(footer[8..16]), LittleValueOf(footer[16..24]), LittleValueOf(footer[24..32])), end))
  }

  lemma {:induction false} ZeroValue(width: nat)
    ensures LittleValueOf(LittleEndian(0, width)) == 0
  {
    if width > 0 { ZeroValue(width - 1); }
  }

  predicate LocationFits(at: Location) {
    at.offset < 0x1_0000_0000_0000_0000 && at.compressed < 0x1_0000_0000_0000_0000 && at.size < 0x1_0000_0000_0000_0000
  }

  lemma FooterRoundTrip(body: Bytes, at: Location)
    requires LocationFits(at) && |body| + FOOTER_SIZE <= MAX_ARCHIVE_SIZE
    ensures FooterLocation(body + Footer(at)) == Ok((at, |body|))
  {
    Widths();
    LittleEndianRoundTrip(at.offset, 8);
    LittleEndianRoundTrip(at.compressed, 8);
    LittleEndianRoundTrip(at.size, 8);
    LittleEndianRoundTrip(1, 8);
    LittleEndianRoundTrip(FOOTER_MAGIC, 8);
    ZeroValue(24);
    hide LittleEndian, LittleValueOf, Pow256, SkipHeader;
    var b := body + Footer(at);
    var footer := b[|body|..];
    assert footer == Footer(at);
    FooterFields(at);
  }

  lemma FooterFields(at: Location)
    ensures var f := Footer(at);
            && f[..8] == SkipHeader(64) && f[8..16] == LittleEndian(at.offset, 8) && f[16..24] == LittleEndian(at.compressed, 8)
            && f[24..32] == LittleEndian(at.size, 8) && f[32..40] == LittleEndian(1, 8) && f[40..64] == LittleEndian(0, 24)
            && f[64..72] == LittleEndian(FOOTER_MAGIC, 8)
  {
    hide LittleEndian, SkipHeader;
  }

  /** The footer byte by byte: a skippable frame of 64 bytes, where the manifest is, how long it is
      compressed and plain, version 1, no tar-split data and the closing magic. */
  lemma FooterBytes(at: Location)
    requires LocationFits(at)
    ensures var r := Footer(at);
            && r[..8] == [0x50, 0x2A, 0x4D, 0x18, 64, 0, 0, 0]
            && LittleValueOf(r[8..16]) == at.offset && LittleValueOf(r[16..24]) == at.compressed && LittleValueOf(r[24..32]) == at.size
            && r[32..40] == [1, 0, 0, 0, 0, 0, 0, 0] && (forall k :: 40 <= k < 64 ==> r[k] == 0)
            && r[64..] == [0x47, 0x4E, 0x55, 0x6C, 0x49, 0x6E, 0x55, 0x78]
  {
    FooterFields(at);
    Widths();
    LittleEndianRoundTrip(at.offset, 8);
    LittleEndianRoundTrip(at.compressed, 8);
    LittleEndianRoundTrip(at.size, 8);
    ZeroBytes(24);
    ConstantBytes();
    hide LittleEndian, LittleValueOf, Pow256, SkipHeader;
    var r := Footer(at);
    forall k | 40 <= k < 64 ensures r[k] == 0 {
      assert r[40..64][k - 40] == 0;
    }
    assert r[64..] == r[64..72];
  }

  lemma {:induction false} ZeroBytes(width: nat)
    ensures forall k :: 0 <= k < width ==> LittleEndian(0, width)[k] == 0
  {
    if width > 0 { ZeroBytes(width - 1); }
  }

  lemma LowByte(n: nat, low: Byte, high: nat, width: nat)
    requires n == low + 256 * high && width > 0
    ensures LittleEndian(n, width) == [low] + LittleEndian(high, width - 1)
  {
    LowAndHigh(n, low, high);
    var digits := [n % 256] + LittleEndian(n / 256, width - 1);
    assert LittleEndian(n, width) == digits;
    hide LittleEndian;
  }

  lemma LowAndHigh(n: nat, low: Byte, high: nat)
    requires n == low + 256 * high
    ensures n % 256 == low && n / 256 == high
  {
  }

  lemma ConstantBytes()
    ensures SkipHeader(64) == [0x50, 0x2A, 0x4D, 0x18, 64, 0, 0, 0]
    ensures LittleEndian(1, 8) == [1, 0, 0, 0, 0, 0, 0, 0]
    ensures LittleEndian(FOOTER_MAGIC, 8) == [0x47, 0x4E, 0x55, 0x6C, 0x49, 0x6E, 0x55, 0x78]
  {
    hide LittleEndian;
    ZeroBytes(3);
    ZeroBytes(7);
    SkipMagicBytes();
    FooterMagicBytes();
    LowByte(64, 64, 0, 4);
    LowByte(1, 1, 0, 8);
  }

  lemma SkipMagicBytes()
    ensures LittleEndian(SKIP_MAGIC, 4) == [0x50, 0x2A, 0x4D, 0x18]
  {
    hide LittleEndian;
    LowByte(0x184d2a50, 0x50, 0x184d2a, 4);
    LowByte(0x184d2a, 0x2a, 0x184d, 3);
    LowByte(0x184d, 0x4d, 0x18, 2);
    LowByte(0x18, 0x18, 0, 1);
  }

  lemma FooterMagicBytes()
    ensures LittleEndian(FOOTER_MAGIC, 8) == [0x47, 0x4E, 0x55, 0x6C, 0x49, 0x6E, 0x55, 0x78]
  {
    hide LittleEndian;
    LowByte(0x78556e496c554e47, 0x47, 0x78556e496c554e, 8);
    LowByte(0x78556e496c554e, 0x4e, 0x78556e496c55, 7);
    LowByte(0x78556e496c55, 0x55, 0x78556e496c, 6);
    LowByte(0x78556e496c, 0x6c, 0x78556e49, 5);
    LowByte(0x78556e49, 0x49, 0x78556e, 4);
    LowByte(0x78556e, 0x6e, 0x7855, 3);
    LowByte(0x7855, 0x55, 0x78, 2);
    LowByte(0x78, 0x78, 0, 1);
  }

  // ---- Reading --------------------------------------------------------------

  datatype Entry = Entry(name: string, kind: Kind, size: nat, start: nat, end: nat, digest: Option<Digest>)

  predicate InLimit(value: int, maximum: int) {
    0 <= value <= maximum
  }

  /** `_parse_entry`, for an archive whose frames end at `limit`. */
  function ParseEntry(f: Format, item: Item, limit: int): Result<Entry> {
    if !SafeName(item.name) || (item.kind != Dir && item.name[|item.name| - 1] == '/') then Err(ArchiveError)
    else if !InLimit(item.mode, 4095) || !InLimit(item.size, MAX_ARCHIVE_SIZE) || !InLimit(item.offset, MAX_ARCHIVE_SIZE)
            || !InLimit(item.endOffset, MAX_ARCHIVE_SIZE) then Err(ArchiveError)
    else if item.kind == Reg && item.size != 0 && (item.endOffset <= item.offset || item.endOffset > limit || item.digest.None?)
    then Err(ArchiveError)
    else if !(item.kind == Reg && item.size != 0) && (item.size != 0 || item.offset != 0 || item.endOffset != 0 || item.digest.Some?)
    then Err(ArchiveError)
    else if item.kind == Symlink && !ValidLink(item.name, item.link) then Err(ArchiveError)
    else if item.kind != Symlink && item.link != "" then Err(ArchiveError)
    else Ok(Entry(item.name, item.kind, item.size, item.offset, item.endOffset, item.digest))
  }

  /** What the loop over the manifest has gathered. */
  datatype Gathered = Gathered(entries: map<string, Entry>, ranges: seq<(nat, nat)>, total: nat)

  const NOTHING: Gathered := Gathered(map[], [], 0)

  function Gather(f: Format, g: Gathered, item: Item, limit: int): Result<Gathered> {
    match ParseEntry(f, item, limit)
    case Err(e) => Err(e)
    case Ok(entry) =>
      var key := KeyOf(entry.name);
      if key in g.entries || g.total + entry.size > MAX_ARCHIVE_SIZE then Err(ArchiveError)
      else Ok(Gathered(g.entries[key := entry], if entry.size > 0 then g.ranges + [(entry.start, entry.end)] else g.ranges,
                       g.total + entry.size))
  }

  function GatherAll(f: Format, items: seq<Item>, limit: int): Result<Gathered> {
    if items == [] then Ok(NOTHING)
    else
      match GatherAll(f, items[..|items| - 1], limit)
      case Err(e) => Err(e)
      case Ok(g) => Gather(f, g, items[|items| - 1], limit)
  }

  /** `a` is sorted after `b` in the order of `sorted`. */
  predicate Before(a: (nat, nat), b: (nat, nat)) {
    a.0 < b.0 || (a.0 == b.0 && a.1 <= b.1)
  }

  function Insert(r: (nat, nat), sorted: seq<(nat, nat)>): seq<(nat, nat)> {
    if sorted == [] then [r]
    else if Before(r, sorted[0]) then [r] + sorted
    else [sorted[0]] + Insert(r, sorted[1..])
  }

  function Sort(ranges: seq<(nat, nat)>): seq<(nat, nat)> {
    if ranges == [] then [] else Insert(ranges[|ranges| - 1], Sort(ranges[..|ranges| - 1]))
  }

  /** The scan over the sorted ranges. */
  predicate Scan(sorted: seq<(nat, nat)>, previousEnd: nat) {
    sorted == [] || (sorted[0].0 >= previousEnd && Scan(sorted[1..], sorted[0].1))
  }

  predicate Nonempty(ranges: seq<(nat, nat)>) {
    forall i :: 0 <= i < |ranges| ==> ranges[i].0 < ranges[i].1
  }

  predicate Ordered(sorted: seq<(nat, nat)>) {
    forall i, j :: 0 <= i < j < |sorted| ==> Before(sorted[i], sorted[j])
  }

  lemma {:induction false} InsertKeeps(r: (nat, nat), sorted: seq<(nat, nat)>)
    ensures multiset(Insert(r, sorted)) == multiset(sorted) + multiset{r}
    decreases |sorted|
  {
    if sorted != [] && !Before(r, sorted[0]) {
      InsertKeeps(r, sorted[1..]);
      assert sorted == [sorted[0]] + sorted[1..];
    }
  }

  lemma {:induction false} InsertOrdered(r: (nat, nat), sorted: seq<(nat, nat)>)
    requires Ordered(sorted)
    ensures Ordered(Insert(r, sorted))
    decreases |sorted|
  {
    if sorted != [] && !Before(r, sorted[0]) {
      InsertOrdered(r, sorted[1..]);
      InsertedAfter(r, sorted);
      Prepended(sorted[0], Insert(r, sorted[1..]));
    } else if sorted != [] {
      forall i | 0 <= i < |sorted| ensures Before(r, sorted[i]) {
        if i > 0 { assert Before(sorted[0], sorted[i]); }
      }
      Prepended(r, sorted);
    }
  }

  lemma Prepended(r: (nat, nat), sorted: seq<(nat, nat)>)
    requires Ordered(sorted) && AllAfter(r, sorted)
    ensures Ordered([r] + sorted)
  {
  }

  predicate AllAfter(r: (nat, nat), sorted: seq<(nat, nat)>) {
    forall i :: 0 <= i < |sorted| ==> Before(r, sorted[i])
  }

  lemma InsertedAfter(r: (nat, nat), sorted: seq<(nat, nat)>)
    requires Ordered(sorted) && sorted != [] && !Before(r, sorted[0])
    ensures AllAfter(sorted[0], Insert(r, sorted[1..]))
  {
    var least := sorted[0];
    hide Insert, Ordered;
    var rest := Insert(r, sorted[1..]);
    InsertKeeps(r, sorted[1..]);
    forall i | 0 <= i < |rest| ensures Before(least, rest[i]) {
      assert rest[i] in multiset(rest);
      if rest[i] != r {
        assert rest[i] in multiset(sorted[1..]);
        LeastBefore(sorted, rest[i]);
      }
    }
  }

  lemma LeastBefore(sorted: seq<(nat, nat)>, x: (nat, nat))
    requires Ordered(sorted) && sorted != [] && x in sorted[1..]
    ensures Before(sorted[0], x)
  {
    var i :| 0 <= i < |sorted[1..]| && sorted[1..][i] == x;
    assert sorted[i + 1] == x;
  }

  lemma {:induction false} SortOrdered(ranges: seq<(nat, nat)>)
    ensures Ordered(Sort(ranges)) && multiset(Sort(ranges)) == multiset(ranges)
    decreases |ranges|
  {
    if ranges != [] {
      var n := |ranges| - 1;
      SortOrdered(ranges[..n]);
      InsertOrdered(ranges[n], Sort(ranges[..n]));
      InsertKeeps(ranges[n], Sort(ranges[..n]));
      assert ranges == ranges[..n] + [ranges[n]];
    }
  }

  /** Scanning sorted ranges finds exactly whether any two of them overlap. */
  lemma {:induction false} ScanIsApart(sorted: seq<(nat, nat)>, previousEnd: nat)
    requires Ordered(sorted) && Nonempty(sorted)
    ensures Scan(sorted, previousEnd) <==>
              (forall i :: 0 <= i < |sorted| ==> previousEnd <= sorted[i].0)
              && (forall i, j :: 0 <= i < j < |sorted| ==> sorted[i].1 <= sorted[j].0)
    decreases |sorted|
  {
    if sorted != [] {
      var rest := sorted[1..];
      assert forall i :: 0 <= i < |rest| ==> rest[i] == sorted[i + 1];
      ScanIsApart(rest, sorted[0].1);
      if Scan(sorted, previousEnd) {
        forall i, j | 0 <= i < j < |sorted| ensures sorted[i].1 <= sorted[j].0 {
          if i == 0 { assert sorted[j] == rest[j - 1]; } else { assert sorted[i] == rest[i - 1] && sorted[j] == rest[j - 1]; }
        }
        forall i | 0 <= i < |sorted| ensures previousEnd <= sorted[i].0 {
          if i > 0 { assert sorted[i] == rest[i - 1]; }
        }
      }
    }
  }

  /** The reader accepts file ranges exactly when, put in order, none begins before the one in
      front of it has ended. */
  lemma AcceptedRangesDoNotOverlap(ranges: seq<(nat, nat)>)
    requires Nonempty(ranges)
    ensures var s := Sort(ranges);
            && multiset(s) == multiset(ranges)
            && (Scan(s, 0) <==> forall i, j :: 0 <= i < j < |s| ==> s[i].1 <= s[j].0)
  {
    SortOrdered(ranges);
    var s := Sort(ranges);
    forall i | 0 <= i < |s| ensures s[i].0 < s[i].1 {
      assert s[i] in multiset(s);
    }
    ScanIsApart(s, 0);
  }

  /** Ranges in increasing order with no overlap pass the scan: what the writer lays out. */
  lemma LaidOutPasses(ranges: seq<(nat, nat)>)
    requires Nonempty(ranges) && forall i, j :: 0 <= i < j < |ranges| ==> ranges[i].1 <= ranges[j].0
    ensures Scan(Sort(ranges), 0)
  {
    SortedIsSorted(ranges);
    ScanIsApart(ranges, 0);
  }

  lemma {:induction false} SortedIsSorted(ranges: seq<(nat, nat)>)
    requires Nonempty(ranges) && forall i, j :: 0 <= i < j < |ranges| ==> ranges[i].1 <= ranges[j].0
    ensures Sort(ranges) == ranges && Ordered(ranges)
    decreases |ranges|
  {
    if ranges != [] {
      var n := |ranges| - 1;
      SortedIsSorted(ranges[..n]);
      InsertLast(ranges[n], ranges[..n]);
      assert ranges == ranges[..n] + [ranges[n]];
    }
  }

  lemma {:induction false} InsertLast(r: (nat, nat), sorted: seq<(nat, nat)>)
    requires forall i :: 0 <= i < |sorted| ==> !Before(r, sorted[i])
    ensures Insert(r, sorted) == sorted + [r]
    decreases |sorted|
  {
    if sorted != [] {
      InsertLast(r, sorted[1..]);
      assert sorted == [sorted[0]] + sorted[1..];
    }
  }

  /** `_decompress_frame`: one whole frame that decodes to exactly `size` bytes. */
  function Decompress(f: Format, frame: Bytes, size: nat): Result<Bytes> {
    match f.decode(frame)
    case None => Err(ArchiveError)
    case Some((data, taken)) => if taken == |frame| && |data| == size then Ok(data) else Err(ArchiveError)
  }

  function ReadMetadata(f: Format, b: Bytes, at: Location, end: nat): Result<Bytes>
    requires end <= |b|
  {
    if !(0 < at.size <= MAX_METADATA) || !(0 < at.compressed <= MAX_METADATA) || at.offset < SKIP_HEADER_SIZE
       || at.offset + at.compressed != end || b[at.offset - SKIP_HEADER_SIZE..at.offset] != SkipHeader(at.compressed)
    then Err(ArchiveError)
    else Decompress(f, b[at.offset..end], at.size)
  }

  function Accepted(f: Format, items: seq<Item>, limit: int): Result<map<string, Entry>> {
    if |items| > MAX_ARCHIVE_ENTRIES then Err(ArchiveError)
    else
      match GatherAll(f, items, limit)
      case Err(e) => Err(e)
      case Ok(g) => if Scan(Sort(g.ranges), 0) then Ok(g.entries) else Err(ArchiveError)
  }

  /** `_manifest`. */
  function ManifestOf(f: Format, b: Bytes): Result<map<string, Entry>> {
    match FooterLocation(b)
    case Err(e) => Err(e)
    case Ok((at, end)) =>
      match ReadMetadata(f, b, at, end)
      case Err(e) => Err(e)
      case Ok(data) =>
        match f.parse(data)
        case None => Err(ArchiveError)
        case Some(items) => Accepted(f, items, at.offset - SKIP_HEADER_SIZE)
  }

  // ---- What is accepted -----------------------------------------------------

  /** An entry of the manifest that may be there, whoever wrote it: its path is safe, its numbers
      are in range, a file with content has a range before `limit` and a digest, anything else has
      neither, and only links have targets, which are checked. */
  ghost predicate ItemOk(f: Format, item: Item, limit: int) {
    && SafePath(item.name) && (item.kind != Dir ==> item.name[|item.name| - 1] != '/')
    && 0 <= item.mode <= 4095 && 0 <= item.size <= MAX_ARCHIVE_SIZE
    && (if item.kind == Reg && item.size > 0
        then 0 <= item.offset < item.endOffset <= Min(limit, MAX_ARCHIVE_SIZE) && item.digest.Some?
        else item.size == 0 && item.offset == 0 && item.endOffset == 0 && item.digest.None?)
    && (if item.kind == Symlink then ValidLink(item.name, item.link) else item.link == "")
  }

  function TotalSize(items: seq<Item>): int {
    if items == [] then 0 else TotalSize(items[..|items| - 1]) + items[|items| - 1].size
  }

  predicate Apart(a: Item, b: Item) {
    a.size > 0 && b.size > 0 ==> a.endOffset <= b.offset || b.endOffset <= a.offset
  }

  /** A manifest that may be accepted: not too many entries, each of them allowed, no two of one
      name, not too much content, and no two files in one place. */
  ghost predicate ManifestOk(f: Format, items: seq<Item>, limit: int) {
    && |items| <= MAX_ARCHIVE_ENTRIES && (forall i :: 0 <= i < |items| ==> ItemOk(f, items[i], limit))
    && (forall i, j :: 0 <= i < j < |items| ==> Stripped(items[i].name) != Stripped(items[j].name))
    && TotalSize(items) <= MAX_ARCHIVE_SIZE
    && (forall i, j :: 0 <= i < j < |items| ==> Apart(items[i], items[j]))
  }

  /** The entries are those of the manifest, each under its name without a slash at the end. */
  ghost predicate EntriesFor(items: seq<Item>, entries: map<string, Entry>) {
    && (forall i :: 0 <= i < |items| ==> Stripped(items[i].name) in entries)
    && forall key :: key in entries ==>
         exists i :: 0 <= i < |items| && Stripped(items[i].name) == key && Describes(entries[key], items[i])
  }

  predicate Describes(e: Entry, item: Item) {
    && e.name == item.name && e.kind == item.kind && e.size == item.size && e.start == item.offset && e.end == item.endOffset
    && e.digest == item.digest
  }

  lemma ParsedExactly(f: Format, item: Item, limit: int)
    ensures ParseEntry(f, item, limit).Ok? <==> ItemOk(f, item, limit)
    ensures ParseEntry(f, item, limit).Ok? ==>
              Describes(ParseEntry(f, item, limit).value, item) && (item.size > 0 ==> item.offset < item.endOffset)
  {
    SafeNameIsSafe(item.name);
    hide SafeName, SafePath;
  }

  predicate RangesApart(a: (nat, nat), b: (nat, nat)) {
    a.1 <= b.0 || b.1 <= a.0
  }

  predicate AllApart(r: (nat, nat), ranges: seq<(nat, nat)>) {
    forall i :: 0 <= i < |ranges| ==> RangesApart(ranges[i], r)
  }

  predicate EachApart(ranges: seq<(nat, nat)>) {
    forall i, j :: 0 <= i < j < |ranges| ==> RangesApart(ranges[i], ranges[j])
  }

  lemma ApartInserted(r: (nat, nat), x: (nat, nat), sorted: seq<(nat, nat)>)
    ensures AllApart(x, Insert(r, sorted)) <==> AllApart(x, sorted) && RangesApart(r, x)
  {
    InsertKeeps(r, sorted);
    ApartByMembers(x, Insert(r, sorted));
    ApartByMembers(x, sorted);
  }

  lemma ApartByMembers(x: (nat, nat), ranges: seq<(nat, nat)>)
    ensures AllApart(x, ranges) <==> forall y :: y in multiset(ranges) ==> RangesApart(y, x)
  {
    if forall y :: y in multiset(ranges) ==> RangesApart(y, x) {
      forall i | 0 <= i < |ranges| ensures RangesApart(ranges[i], x) { assert ranges[i] in multiset(ranges); }
    }
  }

  lemma EachApartSplits(r: (nat, nat), ranges: seq<(nat, nat)>)
    ensures EachApart([r] + ranges) <==> AllApart(r, ranges) && EachApart(ranges)
  {
    var all := [r] + ranges;
    assert forall i :: 0 <= i < |ranges| ==> all[i + 1] == ranges[i];
    if EachApart(all) {
      forall i | 0 <= i < |ranges| ensures RangesApart(ranges[i], r) { assert RangesApart(all[0], all[i + 1]); }
      forall i, j | 0 <= i < j < |ranges| ensures RangesApart(ranges[i], ranges[j]) { assert RangesApart(all[i + 1], all[j + 1]); }
    }
  }

  lemma {:induction false} InsertApart(r: (nat, nat), sorted: seq<(nat, nat)>)
    ensures EachApart(Insert(r, sorted)) <==> AllApart(r, sorted) && EachApart(sorted)
    decreases |sorted|
  {
    hide EachApart, AllApart;
    if sorted == [] {
      EachApartSplits(r, []);
      assert [r] + [] == [r];
    } else if Before(r, sorted[0]) {
      EachApartSplits(r, sorted);
    } else {
      InsertApart(r, sorted[1..]);
      EachApartSplits(sorted[0], Insert(r, sorted[1..]));
      EachApartSplits(sorted[0], sorted[1..]);
      ApartInserted(r, sorted[0], sorted[1..]);
      HeadApart(r, sorted);
      assert sorted == [sorted[0]] + sorted[1..];
    }
  }

  lemma HeadApart(r: (nat, nat), sorted: seq<(nat, nat)>)
    requires sorted != []
    ensures AllApart(r, sorted) <==> RangesApart(sorted[0], r) && AllApart(r, sorted[1..])
    ensures RangesApart(sorted[0], r) <==> RangesApart(r, sorted[0])
  {
    assert forall i :: 0 <= i < |sorted[1..]| ==> sorted[1..][i] == sorted[i + 1];
    if RangesApart(sorted[0], r) && AllApart(r, sorted[1..]) {
      forall i | 0 <= i < |sorted| ensures RangesApart(sorted[i], r) {
        if i > 0 { assert sorted[i] == sorted[1..][i - 1]; }
      }
    }
  }

  lemma {:induction false} SortApart(ranges: seq<(nat, nat)>)
    ensures EachApart(Sort(ranges)) <==> EachApart(ranges)
    decreases |ranges|
  {
    if ranges != [] {
      hide EachApart;
      var n := |ranges| - 1;
      SortApart(ranges[..n]);
      InsertApart(ranges[n], Sort(ranges[..n]));
      SortOrdered(ranges[..n]);
      ApartByMembers(ranges[n], Sort(ranges[..n]));
      ApartByMembers(ranges[n], ranges[..n]);
      EachApartLast(ranges);
    }
  }

  lemma EachApartLast(ranges: seq<(nat, nat)>)
    requires ranges != []
    ensures var n := |ranges| - 1; EachApart(ranges) <==> EachApart(ranges[..n]) && AllApart(ranges[n], ranges[..n])
  {
  }

  /** The scan of the sorted ranges finds exactly whether any two of them overlap. */
  lemma ScanExactly(ranges: seq<(nat, nat)>)
    requires Nonempty(ranges)
    ensures Scan(Sort(ranges), 0) <==> EachApart(ranges)
  {
    hide Sort, Scan;
    var s := Sort(ranges);
    SortOrdered(ranges);
    SortApart(ranges);
    AcceptedRangesDoNotOverlap(ranges);
    forall i | 0 <= i < |s| ensures s[i].0 < s[i].1 { assert s[i] in multiset(s); }
    if EachApart(s) {
      forall i, j | 0 <= i < j < |s| ensures s[i].1 <= s[j].0 { assert RangesApart(s[i], s[j]) && Before(s[i], s[j]); }
    }
  }

  /** The ranges of the files with content. */
  function RangesOf(items: seq<Item>): seq<(int, int)> {
    if items == [] then []
    else
      var item := items[|items| - 1];
      RangesOf(items[..|items| - 1]) + (if item.size > 0 then [(item.offset, item.endOffset)] else [])
  }

  predicate SameRanges(a: seq<(nat, nat)>, b: seq<(int, int)>) {
    |a| == |b| && forall i :: 0 <= i < |a| ==> a[i].0 == b[i].0 && a[i].1 == b[i].1
  }

  lemma {:induction false} RangesMean(items: seq<Item>, ranges: seq<(nat, nat)>)
    requires SameRanges(ranges, RangesOf(items))
    ensures EachApart(ranges) <==> forall i, j :: 0 <= i < j < |items| ==> Apart(items[i], items[j])
    decreases |items|
  {
    if items != [] {
      var n := |items| - 1;
      var last := items[n];
      if last.size > 0 {
        var m := |ranges| - 1;
        RangesMean(items[..n], ranges[..m]);
        LastApart(items[..n], ranges[..m], last, ranges[m]);
        EachApartLast(ranges);
      } else {
        RangesMean(items[..n], ranges);
      }
      hide EachApart, AllApart;
      assert forall i, j :: 0 <= i < j < n ==> items[..n][i] == items[i] && items[..n][j] == items[j];
      assert forall i :: 0 <= i < n ==> items[..n][i] == items[i];
    }
  }

  lemma {:induction false} LastApart(items: seq<Item>, ranges: seq<(nat, nat)>, last: Item, r: (nat, nat))
    requires SameRanges(ranges, RangesOf(items)) && last.size > 0 && r.0 == last.offset && r.1 == last.endOffset
    ensures AllApart(r, ranges) <==> forall i :: 0 <= i < |items| ==> Apart(items[i], last)
    decreases |items|
  {
    if items != [] {
      var n := |items| - 1;
      if items[n].size > 0 {
        var m := |ranges| - 1;
        LastApart(items[..n], ranges[..m], last, r);
        assert AllApart(r, ranges) <==> AllApart(r, ranges[..m]) && RangesApart(ranges[m], r);
      } else {
        LastApart(items[..n], ranges, last, r);
      }
      assert forall i :: 0 <= i < n ==> items[..n][i] == items[i];
    }
  }

  /** What the loop over the entries has if it has accepted them all. */
  ghost predicate GatheredIs(items: seq<Item>, g: Gathered) {
    g.total == TotalSize(items) && EntriesFor(items, g.entries) && SameRanges(g.ranges, RangesOf(items)) && Nonempty(g.ranges)
  }

  ghost predicate EachOk(f: Format, items: seq<Item>, limit: int) {
    && (forall i :: 0 <= i < |items| ==> ItemOk(f, items[i], limit))
    && (forall i, j :: 0 <= i < j < |items| ==> Stripped(items[i].name) != Stripped(items[j].name))
    && TotalSize(items) <= MAX_ARCHIVE_SIZE
  }

  lemma EachOkLast(f: Format, items: seq<Item>, limit: int)
    requires items != []
    ensures var n := |items| - 1;
            EachOk(f, items, limit) <==>
              EachOk(f, items[..n], limit) && ItemOk(f, items[n], limit) && TotalSize(items[..n]) + items[n].size <= MAX_ARCHIVE_SIZE
              && forall i :: 0 <= i < n ==> Stripped(items[i].name) != Stripped(items[n].name)
  {
    var n := |items| - 1;
    assert ItemOk(f, items[n], limit) ==> items[n].size >= 0;
    hide Stripped, ItemOk;
    assert forall i :: 0 <= i < n ==> items[..n][i] == items[i];
    if EachOk(f, items, limit) {
      forall i, j | 0 <= i < j < n ensures Stripped(items[..n][i].name) != Stripped(items[..n][j].name) {
        assert Stripped(items[i].name) != Stripped(items[j].name);
      }
    }
    if EachOk(f, items[..n], limit) {
      forall i, j | 0 <= i < j < n ensures Stripped(items[i].name) != Stripped(items[j].name) {
        assert Stripped(items[..n][i].name) != Stripped(items[..n][j].name);
      }
    }
  }

  /** One more entry under a new name. */
  lemma OneMoreEntry(items: seq<Item>, item: Item, entries: map<string, Entry>, e: Entry)
    requires EntriesFor(items, entries) && Describes(e, item) && Stripped(item.name) !in entries
    ensures EntriesFor(items + [item], entries[Stripped(item.name) := e])
  {
    hide Stripped, Describes;
    var all, more := items + [item], entries[Stripped(item.name) := e];
    assert forall i :: 0 <= i < |items| ==> all[i] == items[i];
    forall key | key in more ensures exists i :: 0 <= i < |all| && Stripped(all[i].name) == key && Describes(more[key], all[i]) {
      if key == Stripped(item.name) {
        assert all[|items|] == item;
      } else {
        var i :| 0 <= i < |items| && Stripped(items[i].name) == key && Describes(entries[key], items[i]);
        assert all[i] == items[i];
      }
    }
  }

  lemma RangeJoins(items: seq<Item>, item: Item, g: Gathered, e: Entry)
    requires GatheredIs(items, g) && Describes(e, item) && (item.size > 0 ==> e.start < e.end)
    ensures var ranges := if e.size > 0 then g.ranges + [(e.start, e.end)] else g.ranges;
            SameRanges(ranges, RangesOf(items + [item])) && Nonempty(ranges)
    ensures TotalSize(items + [item]) == g.total + e.size
  {
    hide EntriesFor;
    assert (items + [item])[..|items|] == items;
  }

  lemma GatherOne(f: Format, items: seq<Item>, item: Item, g: Gathered, limit: int)
    requires GatheredIs(items, g)
    ensures Gather(f, g, item, limit).Ok? <==>
              && ItemOk(f, item, limit) && TotalSize(items) + item.size <= MAX_ARCHIVE_SIZE
              && forall i :: 0 <= i < |items| ==> Stripped(items[i].name) != Stripped(item.name)
    ensures Gather(f, g, item, limit).Ok? ==> GatheredIs(items + [item], Gather(f, g, item, limit).value)
  {
    ParsedExactly(f, item, limit);
    hide ParseEntry, Stripped, ItemOk, EntriesFor;
    if ItemOk(f, item, limit) {
      var e := ParseEntry(f, item, limit).value;
      hide Describes;
      NameTaken(items, item, g.entries);
      if Stripped(item.name) !in g.entries {
        OneMoreEntry(items, item, g.entries, e);
        RangeJoins(items, item, g, e);
      }
    }
  }

  lemma NameTaken(items: seq<Item>, item: Item, entries: map<string, Entry>)
    requires EntriesFor(items, entries)
    ensures Stripped(item.name) in entries <==> exists i :: 0 <= i < |items| && Stripped(items[i].name) == Stripped(item.name)
  {
    hide Stripped, Describes;
  }

  lemma {:induction false} GatherExactly(f: Format, items: seq<Item>, limit: int)
    ensures GatherAll(f, items, limit).Ok? <==> EachOk(f, items, limit)
    ensures GatherAll(f, items, limit).Ok? ==> GatheredIs(items, GatherAll(f, items, limit).value)
    decreases |items|
  {
    if items != [] {
      hide GatheredIs, EachOk, ItemOk, Gather, Stripped;
      var n := |items| - 1;
      GatherExactly(f, items[..n], limit);
      EachOkLast(f, items, limit);
      assert items[..n] + [items[n]] == items;
      assert forall i :: 0 <= i < n ==> items[..n][i] == items[i];
      if GatherAll(f, items[..n], limit).Ok? { GatherOne(f, items[..n], items[n], GatherAll(f, items[..n], limit).value, limit); }
    }
  }

  /** The manifests that are accepted, whoever wrote them, are exactly the good ones, and the entries
      are those they list. */
  lemma AcceptedExactly(f: Format, items: seq<Item>, limit: int)
    ensures Accepted(f, items, limit).Ok? <==> ManifestOk(f, items, limit)
    ensures Accepted(f, items, limit).Ok? ==> EntriesFor(items, Accepted(f, items, limit).value)
  {
    GatherExactly(f, items, limit);
    hide GatherAll, ItemOk, EntriesFor, Apart, Sort, Scan, RangesOf, Stripped, TotalSize;
    if GatherAll(f, items, limit).Ok? {
      var g := GatherAll(f, items, limit).value;
      ScanExactly(g.ranges);
      RangesMean(items, g.ranges);
    }
  }

  /** `read_archive`. */
  function ReadArchive(f: Format, b: Bytes, name: string): Result<Bytes> {
    if !SafeName(name) then Err(ArchiveError)
    else
      match ManifestOf(f, b)
      case Err(e) => Err(e)
      case Ok(entries) =>
        if name !in entries || entries[name].kind != Reg then Err(KeyError)
        else
          var e := entries[name];
          if e.size == 0 then Ok([])
          else if !(e.start <= e.end <= |b|) then Err(ArchiveError)
          else
            match Decompress(f, b[e.start..e.end], e.size)
            case Err(x) => Err(x)
            case Ok(data) => if e.digest == Some(DigestOf(data)) then Ok(data) else Err(ArchiveError)
  }

  // ---- What is read ---------------------------------------------------------

  /** Only what `Footer` writes is taken for a footer. */
  lemma OnlyFooters(b: Bytes)
    requires FooterLocation(b).Ok?
    ensures var (at, end) := FooterLocation(b).value;
            end + FOOTER_SIZE == |b| <= MAX_ARCHIVE_SIZE && b[end..] == Footer(at) && LocationFits(at)
  {
    var footer := b[|b| - FOOTER_SIZE..];
    Widths();
    LittleValueRoundTrip(footer[8..16]);
    LittleValueRoundTrip(footer[16..24]);
    LittleValueRoundTrip(footer[24..32]);
    LittleValueRoundTrip(footer[32..40]);
    LittleValueRoundTrip(footer[40..64]);
    LittleValueRoundTrip(footer[64..72]);
    hide LittleEndian, LittleValueOf, Pow256, SkipHeader;
    FooterFields(FooterLocation(b).value.0);
    Fields(footer);
    Fields(Footer(FooterLocation(b).value.0));
  }

  lemma Fields(f: Bytes)
    requires |f| == FOOTER_SIZE
    ensures f == f[..8] + f[8..16] + f[16..24] + f[24..32] + f[32..40] + f[40..64] + f[64..72]
  {
  }

  /** The archive ends in a manifest: its header, one frame that holds it, and the footer that says
      where it is; and the manifest is a good one. */
  ghost predicate HasManifest(f: Format, b: Bytes, at: Location, data: Bytes, items: seq<Item>) {
    && FOOTER_SIZE <= |b| <= MAX_ARCHIVE_SIZE && b[|b| - FOOTER_SIZE..] == Footer(at) && LocationFits(at)
    && 0 < at.compressed <= MAX_METADATA && 0 < at.size <= MAX_METADATA
    && SKIP_HEADER_SIZE <= at.offset && at.offset + at.compressed + FOOTER_SIZE == |b|
    && b[at.offset - SKIP_HEADER_SIZE..at.offset] == SkipHeader(at.compressed)
    && f.decode(b[at.offset..at.offset + at.compressed]) == Some((data, at.compressed)) && |data| == at.size
    && f.parse(data) == Some(items) && ManifestOk(f, items, at.offset - SKIP_HEADER_SIZE)
  }

  lemma FooterIsRead(b: Bytes, at: Location)
    requires FOOTER_SIZE <= |b| <= MAX_ARCHIVE_SIZE && b[|b| - FOOTER_SIZE..] == Footer(at) && LocationFits(at)
    ensures FooterLocation(b) == Ok((at, |b| - FOOTER_SIZE))
  {
    var body := b[..|b| - FOOTER_SIZE];
    hide Footer;
    FooterRoundTrip(body, at);
    assert body + Footer(at) == b;
  }

  /** An archive is accepted exactly if it ends in a good manifest, and its entries are those listed
      there. */
  lemma ManifestExactly(f: Format, b: Bytes)
    ensures ManifestOf(f, b).Ok? <==> exists at, data, items :: HasManifest(f, b, at, data, items)
    ensures ManifestOf(f, b).Ok? ==> exists at, data, items :: HasManifest(f, b, at, data, items) && EntriesFor(items, ManifestOf(f, b).value)
  {
    hide ManifestOk, EntriesFor, Accepted, FooterLocation, Footer, SkipHeader;
    if ManifestOf(f, b).Ok? {
      OnlyFooters(b);
      var at := FooterLocation(b).value.0;
      var data := ReadMetadata(f, b, at, |b| - FOOTER_SIZE).value;
      var items := f.parse(data).value;
      AcceptedExactly(f, items, at.offset - SKIP_HEADER_SIZE);
      assert HasManifest(f, b, at, data, items);
    }
    if at, data, items :| HasManifest(f, b, at, data, items) {
      FooterIsRead(b, at);
      assert ReadMetadata(f, b, at, |b| - FOOTER_SIZE) == Ok(data);
      AcceptedExactly(f, items, at.offset - SKIP_HEADER_SIZE);
    }
  }

  /** Whatever is read, from whatever archive, is the content its entry describes: it has the size
      and, unless it is empty, the digest recorded there, and one whole frame of the archive decodes
      to it. */
  lemma ReadIsVerified(f: Format, b: Bytes, name: string)
    requires ReadArchive(f, b, name).Ok?
    ensures SafePath(name) && ManifestOf(f, b).Ok? && name in ManifestOf(f, b).value
    ensures var e, data := ManifestOf(f, b).value[name], ReadArchive(f, b, name).value;
            && e.kind == Reg && |data| == e.size
            && (e.size > 0 ==>
                  && e.digest == Some(DigestOf(data)) && e.start <= e.end <= |b|
                  && f.decode(b[e.start..e.end]) == Some((data, e.end - e.start)))
  {
    hide ManifestOf, SafeName;
    SafeNameIsSafe(name);
  }

  /** The file is reported missing exactly if the archive is good and lists no regular file of that
      name. */
  lemma MissingExactly(f: Format, b: Bytes, name: string)
    ensures ReadArchive(f, b, name) == Err(KeyError) <==>
              && SafePath(name) && ManifestOf(f, b).Ok?
              && (name !in ManifestOf(f, b).value || ManifestOf(f, b).value[name].kind != Reg)
  {
    ManifestErrors(f, b);
    hide ManifestOf, SafeName, SafePath;
    SafeNameIsSafe(name);
  }

  lemma FooterErrors(b: Bytes)
    ensures FooterLocation(b).Err? ==> FooterLocation(b).error == ArchiveError
  {
  }

  lemma MetadataErrors(f: Format, b: Bytes, at: Location, end: nat)
    requires end <= |b|
    ensures ReadMetadata(f, b, at, end).Err? ==> ReadMetadata(f, b, at, end).error == ArchiveError
  {
    hide SkipHeader;
  }

  lemma AcceptErrors(f: Format, items: seq<Item>, limit: int)
    ensures Accepted(f, items, limit).Err? ==> Accepted(f, items, limit).error == ArchiveError
  {
    GatherErrors(f, items, limit);
    hide GatherAll, Sort, Scan;
  }

  lemma ManifestErrors(f: Format, b: Bytes)
    ensures ManifestOf(f, b).Err? ==> ManifestOf(f, b).error == ArchiveError
  {
    hide FooterLocation, ReadMetadata, Accepted;
    FooterErrors(b);
    if FooterLocation(b).Ok? {
      var (at, end) := FooterLocation(b).value;
      EndInside(b);
      MetadataErrors(f, b, at, end);
      if ReadMetadata(f, b, at, end).Ok? {
        var parsed := f.parse(ReadMetadata(f, b, at, end).value);
        if parsed.Some? { AcceptErrors(f, parsed.value, at.offset - SKIP_HEADER_SIZE); }
      }
    }
  }

  lemma EndInside(b: Bytes)
    requires FooterLocation(b).Ok?
    ensures FooterLocation(b).value.1 <= |b|
  {
  }

  lemma {:induction false} GatherErrors(f: Format, items: seq<Item>, limit: int)
    ensures GatherAll(f, items, limit).Err? ==> GatherAll(f, items, limit).error == ArchiveError
    decreases |items|
  {
    hide ParseEntry;
    if items != [] {
      GatherErrors(f, items[..|items| - 1], limit);
      ParseErrors(f, items[|items| - 1], limit);
    }
  }

  lemma ParseErrors(f: Format, item: Item, limit: int)
    ensures ParseEntry(f, item, limit).Err? ==> ParseEntry(f, item, limit).error == ArchiveError
  {
    hide SafeName;
  }

  /** The loop of `_manifest` over the entries. */
  method GatherEntries(f: Format, items: seq<Item>, limit: int) returns (r: Result<Gathered>)
    ensures r == GatherAll(f, items, limit)
  {
    hide ParseEntry, GatherAll;
    GatherNone(f, limit);
    var entries: map<string, Entry>, ranges: seq<(nat, nat)>, total: nat := map[], [], 0;
    for i := 0 to |items|
      invariant GatherAll(f, items[..i], limit) == Ok(Gathered(entries, ranges, total))
    {
      GatherNext(f, items, limit, i);
      var parsed := ParseEntry(f, items[i], limit);
      if parsed.Err? {
        RejectedStays(f, items, limit, i + 1);
        return Err(parsed.error);
      }
      var entry := parsed.value;
      var key := KeyOf(entry.name);
      if key in entries || total + entry.size > MAX_ARCHIVE_SIZE {
        RejectedStays(f, items, limit, i + 1);
        return Err(ArchiveError);
      }
      entries := entries[key := entry];
      total := total + entry.size;
      if entry.size > 0 { ranges := ranges + [(entry.start, entry.end)]; }
    }
    assert items[..|items|] == items;
    return Ok(Gathered(entries, ranges, total));
  }

  lemma GatherNone(f: Format, limit: int)
    ensures GatherAll(f, [], limit) == Ok(NOTHING)
  {
  }

  lemma GatherNext(f: Format, items: seq<Item>, limit: int, i: nat)
    requires i < |items|
    ensures var before := GatherAll(f, items[..i], limit);
            GatherAll(f, items[..i + 1], limit) == if before.Err? then before else Gather(f, before.value, items[i], limit)
  {
    assert items[..i + 1][..i] == items[..i];
    hide Gather;
  }

  /** Its loop over the sorted ranges. */
  method CheckRanges(ranges: seq<(nat, nat)>) returns (ok: bool)
    ensures ok <==> Scan(Sort(ranges), 0)
  {
    var sorted, previousEnd := Sort(ranges), 0;
    for i := 0 to |sorted|
      invariant Scan(sorted, 0) <==> Scan(sorted[i..], previousEnd)
    {
      if sorted[i].0 < previousEnd { return false; }
      previousEnd := sorted[i].1;
      assert sorted[i..][1..] == sorted[i + 1..];
    }
    return true;
  }

  method CheckManifest(f: Format, items: seq<Item>, limit: int) returns (r: Result<map<string, Entry>>)
    ensures r == Accepted(f, items, limit)
    ensures r.Ok? <==> ManifestOk(f, items, limit)
    ensures r.Ok? ==> EntriesFor(items, r.value)
  {
    hide ManifestOk, EntriesFor;
    AcceptedExactly(f, items, limit);
    if |items| > MAX_ARCHIVE_ENTRIES { return Err(ArchiveError); }
    var gathered := GatherEntries(f, items, limit);
    if gathered.Err? { return Err(gathered.error); }
    var ok := CheckRanges(gathered.value.ranges);
    r := if ok then Ok(gathered.value.entries) else Err(ArchiveError);
  }

  lemma {:induction false} RejectedStays(f: Format, items: seq<Item>, limit: int, i: nat)
    requires i <= |items| && GatherAll(f, items[..i], limit).Err?
    ensures GatherAll(f, items, limit) == GatherAll(f, items[..i], limit)
    decreases |items|
  {
    if i < |items| {
      assert items[..|items| - 1][..i] == items[..i];
      RejectedStays(f, items[..|items| - 1], limit, i);
    } else {
      assert items[..i] == items;
    }
  }
}
