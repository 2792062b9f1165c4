/** Names and link targets inside an archive: the reader's checks, and what they mean. */
module Paths {

  /** The parts of a name between slashes. */
  function Split(name: string): (parts: seq<string>)
    ensures |parts| >= 1
  {
    if name == "" then [""]
    else
      var rest := Split(name[1..]);
      if name[0] == '/' then [""] + rest else [[name[0]] + rest[0]] + rest[1..]
  }

  function JoinNames(parts: seq<string>): string
    requires |parts| >= 1
  {
    if |parts| == 1 then parts[0] else parts[0] + "/" + JoinNames(parts[1..])
  }

  lemma Regroup(a: string, b: string, c: string, d: string)
    ensures (a + b) + c + d == a + (b + c + d)
  {
  }

  lemma JoinHead(c: char, parts: seq<string>)
    requires |parts| >= 1
    ensures JoinNames([[c] + parts[0]] + parts[1..]) == [c] + JoinNames(parts)
  {
    var longer := [[c] + parts[0]] + parts[1..];
    assert longer[1..] == parts[1..];
    if |parts| > 1 {
      Regroup([c], parts[0], "/", JoinNames(parts[1..]));
    }
  }

  lemma SplitEmpty()
    ensures JoinNames(Split("")) == ""
  {
  }

  lemma SplitFirst(name: string)
    requires name != ""
    ensures var rest := Split(name[1..]);
            && |rest| >= 1
            && Split(name) == if name[0] == '/' then [""] + rest else [[name[0]] + rest[0]] + rest[1..]
  {
  }

  lemma JoinFresh(parts: seq<string>)
    requires |parts| >= 1
    ensures JoinNames([""] + parts) == "/" + JoinNames(parts)
  {
    assert ([""] + parts)[1..] == parts && "" + "/" + JoinNames(parts) == "/" + JoinNames(parts);
  }

  lemma {:induction false} JoinSplit(name: string)
    ensures JoinNames(Split(name)) == name
  {
    hide Split, JoinNames;
    if name == "" {
      SplitEmpty();
    } else {
      JoinSplit(name[1..]);
      SplitFirst(name);
      var rest := Split(name[1..]);
      assert name == [name[0]] + name[1..];
      if name[0] == '/' { JoinFresh(rest); } else { JoinHead(name[0], rest); }
    }
  }

  function Stripped(name: string): string {
    if name != "" && name[|name| - 1] == '/' then name[..|name| - 1] else name
  }

  /** `_safe_name`. */
  predicate SafeName(name: string) {
    && name != "" && name[0] != '/' && '\\' !in name && '\0' !in name
    && forall i :: 0 <= i < |Split(Stripped(name))| ==> Split(Stripped(name))[i] !in ["", ".", ".."]
  }

  /** What lies between two slashes, or between a slash and an end of the path. */
  predicate IsPart(path: string, i: nat, j: nat) {
    && i <= j <= |path| && '/' !in path[i..j]
    && (i == 0 || path[i - 1] == '/') && (j == |path| || path[j] == '/')
  }

  /** A path below where it is taken: relative, no part of it empty or a dot or two, no backslash
      and no NUL. One slash at its end is allowed. */
  ghost predicate SafePath(name: string) {
    && name != "" && name[0] != '/' && '\\' !in name && '\0' !in name
    && forall i: nat, j: nat :: IsPart(Stripped(name), i, j) ==>
         i < j && Stripped(name)[i..j] != "." && Stripped(name)[i..j] != ".."
  }

  function FirstSlash(path: string): (i: nat)
    ensures i <= |path| && '/' !in path[..i] && (i < |path| ==> path[i] == '/')
  {
    if path == "" || path[0] == '/' then 0
    else
      assert path[..1 + FirstSlash(path[1..])] == [path[0]] + path[1..][..FirstSlash(path[1..])];
      1 + FirstSlash(path[1..])
  }

  lemma PartOfRest(path: string, i: nat, j: nat)
    requires path != "" && 0 < i <= j <= |path| && (i == 1 ==> path[0] == '/')
    ensures IsPart(path, i, j) <==> IsPart(path[1..], i - 1, j - 1)
    ensures path[1..][i - 1..j - 1] == path[i..j]
  {
    assert path[1..][i - 1..j - 1] == path[i..j];
  }

  lemma NoSlashBefore(path: string, k: nat)
    requires k <= |path| && '/' !in path[..k]
    ensures forall j :: 0 <= j < k ==> path[j] != '/'
  {
    assert forall j :: 0 <= j < k ==> path[..k][j] in path[..k];
  }

  lemma PartAtStart(path: string, j: nat)
    requires IsPart(path, 0, j)
    ensures j == FirstSlash(path)
  {
    var k := FirstSlash(path);
    assert path[0..j] == path[..j];
    NoSlashBefore(path, k);
    NoSlashBefore(path, j);
  }

  /** The first part is what lies before the first slash. */
  lemma {:induction false} SplitHead(path: string)
    ensures Split(path)[0] == path[..FirstSlash(path)] && IsPart(path, 0, FirstSlash(path))
  {
    if path != "" && path[0] != '/' {
      SplitHead(path[1..]);
      assert path[..FirstSlash(path)] == [path[0]] + path[1..][..FirstSlash(path[1..])];
    }
  }

  /** Every part between slashes is one of the split. */
  lemma {:induction false} PartIsSplit(path: string, i: nat, j: nat)
    requires IsPart(path, i, j)
    ensures if i == 0 then path[i..j] == Split(path)[0] else path[i..j] in Split(path)[1..]
    decreases |path|
  {
    SplitHead(path);
    if i == 0 {
      PartAtStart(path, j);
    } else {
      var rest := Split(path[1..]);
      if path[0] == '/' {
        PartOfRest(path, i, j);
        PartIsSplit(path[1..], i - 1, j - 1);
        assert Split(path)[1..] == rest;
      } else {
        PartOfRest(path, i, j);
        PartIsSplit(path[1..], i - 1, j - 1);
        assert Split(path)[1..] == rest[1..];
      }
    }
  }

  /** Every part of the split lies between slashes. */
  lemma {:induction false} SplitIsPart(path: string, k: nat) returns (i: nat, j: nat)
    requires k < |Split(path)|
    ensures IsPart(path, i, j) && path[i..j] == Split(path)[k] && (k == 0 <==> i == 0)
    decreases |path|
  {
    SplitHead(path);
    if k == 0 {
      i, j := 0, FirstSlash(path);
    } else {
      var rest := Split(path[1..]);
      if path[0] == '/' {
        i, j := SplitIsPart(path[1..], k - 1);
        assert Split(path)[k] == rest[k - 1];
      } else {
        i, j := SplitIsPart(path[1..], k);
        assert Split(path)[k] == rest[k];
      }
      PartOfRest(path, i + 1, j + 1);
      i, j := i + 1, j + 1;
    }
  }

  /** The check by parts accepts exactly the safe paths. */
  lemma SafeNameIsSafe(name: string)
    ensures SafeName(name) <==> SafePath(name)
  {
    var path := Stripped(name);
    if SafeName(name) {
      forall i: nat, j: nat | IsPart(path, i, j) ensures i < j && path[i..j] != "." && path[i..j] != ".." {
        PartIsSplit(path, i, j);
        assert path[i..j] in Split(path);
      }
    }
    if SafePath(name) {
      forall k | 0 <= k < |Split(path)| ensures Split(path)[k] !in ["", ".", ".."] {
        var i, j := SplitIsPart(path, k);
      }
    }
  }

  /** The key an entry is found under: its parts put together again. */
  function KeyOf(name: string): (key: string)
    ensures key == Stripped(name)
  {
    JoinSplit(Stripped(name));
    JoinNames(Split(Stripped(name)))
  }

  // ---- Link targets ---------------------------------------------------------

  /** The text occurs in the string. */
  predicate Holds(s: string, text: string) {
    exists i, j :: 0 <= i <= j <= |s| && s[i..j] == text
  }

  /** One component of a path that is being normalised: nothing and a dot are dropped, and two dots
      take the component in front of them away, unless there is none to take away. */
  function Push(comps: seq<string>, comp: string, rooted: bool): seq<string> {
    if comp == "" || comp == "." then comps
    else if comp != ".." || (!rooted && comps == []) || (comps != [] && comps[|comps| - 1] == "..") then comps + [comp]
    else if comps != [] then comps[..|comps| - 1]
    else comps
  }

  /** The components that `posixpath.normpath` leaves of a path that does or does not start at the
      root. */
  function Normal(parts: seq<string>, rooted: bool): seq<string> {
    if parts == [] then [] else Push(Normal(parts[..|parts| - 1], rooted), parts[|parts| - 1], rooted)
  }

  /** A path with exactly two slashes in front keeps both of them and lies under neither root. */
  predicate DoubleRoot(path: string) {
    |path| >= 2 && path[0] == '/' && path[1] == '/' && (|path| == 2 || path[2] != '/')
  }

  /** The directory of a name. */
  function Directory(name: string): (dir: seq<string>)
    ensures |dir| == |Split(Stripped(name))| - 1
  {
    Split(Stripped(name))[..|Split(Stripped(name))| - 1]
  }

  /** A path as text. */
  function Printed(comps: seq<string>): string {
    if comps == [] then "." else JoinNames(comps)
  }

  predicate StartsWith(s: string, text: string) {
    |text| <= |s| && s[..|text|] == text
  }

  /** `_validate_link`. */
  predicate ValidLink(name: string, link: string) {
    && link != "" && !Holds(link, "\\x00") && !Holds(link, "\\\\")
    && if link[0] == '/' then
         var resolved := Normal(Split(link), true);
         !DoubleRoot(link) && (["nix", "store"] <= resolved || ["usr"] <= resolved)
       else
         var resolved := Printed(Normal(Directory(name) + Split(link), false));
         resolved != ".." && !StartsWith(resolved, "../")
  }

  /** How far down a path leads, counting up as less than nothing. */
  function Climb(parts: seq<string>): int {
    if parts == [] then 0
    else
      var last := parts[|parts| - 1];
      Climb(parts[..|parts| - 1]) + (if last == "" || last == "." then 0 else if last == ".." then -1 else 1)
  }

  /** The highest place on the way, at most 0. */
  function Highest(parts: seq<string>): int {
    if parts == [] then 0
    else
      var before := Highest(parts[..|parts| - 1]);
      if Climb(parts) < before then Climb(parts) else before
  }

  lemma {:induction false} HighestIs(parts: seq<string>)
    ensures Highest(parts) <= 0 && Highest(parts) <= Climb(parts)
    ensures Highest(parts) == 0 <==> forall k :: 0 <= k <= |parts| ==> Climb(parts[..k]) >= 0
  {
    assert parts[..|parts|] == parts;
    if parts != [] {
      var front := parts[..|parts| - 1];
      HighestIs(front);
      forall k | 0 <= k < |parts| ensures Climb(front[..k]) == Climb(parts[..k]) { assert front[..k] == parts[..k]; }
    }
  }

  /** A normalised relative path goes up as far as its highest place and down from there. */
  lemma {:induction false} NormalGoesUpFirst(parts: seq<string>)
    ensures var n := Normal(parts, false);
            && |n| == Climb(parts) - 2 * Highest(parts)
            && forall i :: 0 <= i < |n| ==> (n[i] == ".." <==> i < -Highest(parts))
  {
    if parts != [] {
      NormalGoesUpFirst(parts[..|parts| - 1]);
      HighestIs(parts[..|parts| - 1]);
    }
  }

  lemma {:induction false} NoSlashes(path: string)
    ensures forall i :: 0 <= i < |Split(path)| ==> '/' !in Split(path)[i]
  {
    if path != "" {
      NoSlashes(path[1..]);
    }
  }

  lemma {:induction false} NormalFrom(parts: seq<string>, rooted: bool)
    requires forall i :: 0 <= i < |parts| ==> '/' !in parts[i]
    ensures forall i :: 0 <= i < |Normal(parts, rooted)| ==> '/' !in Normal(parts, rooted)[i]
  {
    if parts != [] { NormalFrom(parts[..|parts| - 1], rooted); }
  }

  lemma PrintedUp(comps: seq<string>)
    requires forall i :: 0 <= i < |comps| ==> '/' !in comps[i]
    ensures Printed(comps) == ".." || StartsWith(Printed(comps), "../") <==> comps != [] && comps[0] == ".."
  {
    if |comps| > 1 {
      var first, text := comps[0], Printed(comps);
      assert text == first + "/" + JoinNames(comps[1..]);
      assert text[|first|] == '/' && forall i :: 0 <= i < |first| ==> text[i] == first[i] != '/';
      if first == ".." { assert text[..3] == "../"; }
      if text == ".." || StartsWith(text, "../") {
        assert text[0] == '.' && text[1] == '.' && (|text| > 2 ==> text[..3][2] == '/');
        assert |first| == 2;
      }
    } else if |comps| == 1 {
      assert |comps[0]| >= 3 ==> comps[0][..3][2] == comps[0][2];
    }
  }

  lemma {:induction false} ClimbAdds(a: seq<string>, b: seq<string>)
    ensures Climb(a + b) == Climb(a) + Climb(b)
    decreases |b|
  {
    if b == [] {
      assert a + b == a;
    } else {
      ClimbAdds(a, b[..|b| - 1]);
      assert (a + b)[..|a + b| - 1] == a + b[..|b| - 1];
    }
  }

  lemma {:induction false} PlainClimbs(parts: seq<string>)
    requires forall i :: 0 <= i < |parts| ==> parts[i] !in ["", ".", ".."]
    ensures Climb(parts) == |parts|
  {
    if parts != [] { PlainClimbs(parts[..|parts| - 1]); }
  }

  /** Down plain directories and on, a path is nowhere above its start exactly if what follows never
      climbs further than they led down. */
  lemma HighestBelow(dir: seq<string>, parts: seq<string>)
    requires forall i :: 0 <= i < |dir| ==> dir[i] !in ["", ".", ".."]
    ensures Highest(dir + parts) == 0 <==> forall k :: 0 <= k <= |parts| ==> |dir| + Climb(parts[..k]) >= 0
  {
    var all := dir + parts;
    HighestIs(all);
    hide Highest, Climb;
    forall k | 0 <= k <= |dir| ensures Climb(all[..k]) == k {
      assert all[..k] == dir[..k];
      PlainClimbs(dir[..k]);
    }
    forall k | 0 <= k <= |parts| ensures Climb(all[..|dir| + k]) == |dir| + Climb(parts[..k]) {
      assert all[..|dir| + k] == dir + parts[..k];
      ClimbAdds(dir, parts[..k]);
      PlainClimbs(dir);
    }
    if forall k :: 0 <= k <= |parts| ==> |dir| + Climb(parts[..k]) >= 0 {
      forall k | 0 <= k <= |all| ensures Climb(all[..k]) >= 0 {
        if k > |dir| { assert Climb(all[..|dir| + (k - |dir|)]) == |dir| + Climb(parts[..k - |dir|]); }
      }
    }
  }

  lemma PrintedIsUp(parts: seq<string>)
    requires forall i :: 0 <= i < |parts| ==> '/' !in parts[i]
    ensures Printed(Normal(parts, false)) == ".." || StartsWith(Printed(Normal(parts, false)), "../") <==> Highest(parts) < 0
  {
    NormalFrom(parts, false);
    NormalGoesUpFirst(parts);
    HighestIs(parts);
    hide Normal, Highest, Climb, Printed, StartsWith;
    PrintedUp(Normal(parts, false));
  }

  /** A relative link of a safe name is accepted exactly if, followed from the directory of its name,
      it is nowhere above the archive's root, and neither of two texts is in it. */
  lemma RelativeLinkStays(name: string, link: string)
    requires SafePath(name) && link != "" && link[0] != '/'
    ensures ValidLink(name, link) <==>
              && !Holds(link, "\\x00") && !Holds(link, "\\\\")
              && forall k :: 0 <= k <= |Split(link)| ==> |Directory(name)| + Climb(Split(link)[..k]) >= 0
  {
    SafeNameIsSafe(name);
    var dir, parts := Directory(name), Split(link);
    assert forall i :: 0 <= i < |dir| ==> dir[i] !in ["", ".", ".."];
    NoSlashes(Stripped(name));
    NoSlashes(link);
    hide SafePath, SafeName, Holds, Split, Stripped, Directory, Climb, Highest, Normal, Printed, StartsWith;
    HighestBelow(dir, parts);
    HighestIs(dir + parts);
    PrintedIsUp(dir + parts);
  }

  /** What normalising is: plain components stay, nothing and a dot are dropped, a component and the
      two dots after it cancel, and two dots at the root are dropped. */
  lemma {:induction false} NormalOfPlain(parts: seq<string>, rooted: bool)
    requires forall i :: 0 <= i < |parts| ==> parts[i] !in ["", ".", ".."]
    ensures Normal(parts, rooted) == parts
  {
    if parts != [] { NormalOfPlain(parts[..|parts| - 1], rooted); }
  }

  lemma NormalNext(parts: seq<string>, last: string, rooted: bool)
    ensures Normal(parts + [last], rooted) == Push(Normal(parts, rooted), last, rooted)
  {
    hide Push;
    assert (parts + [last])[..|parts|] == parts;
  }

  /** Parts of a path behind `a` that name nothing: an empty one or a dot, a component with two dots
      after it, or two dots at the root. */
  predicate Droppable(a: seq<string>, dropped: seq<string>, rooted: bool) {
    || dropped == [""] || dropped == ["."] || (rooted && a == [] && dropped == [".."])
    || (|dropped| == 2 && dropped[0] !in ["", ".", ".."] && dropped[1] == "..")
  }

  lemma NormalDropsLast(a: seq<string>, dropped: seq<string>, rooted: bool)
    requires Droppable(a, dropped, rooted)
    ensures Normal(a + dropped, rooted) == Normal(a, rooted)
  {
    if |dropped| == 2 {
      CancelsLast(a, dropped[0], rooted);
      hide Normal, Push;
      assert a + dropped == a + [dropped[0]] + [".."];
    } else {
      var comp := dropped[0];
      NormalNext(a, comp, rooted);
      assert a == [] ==> Normal(a, rooted) == [];
      hide Normal;
      assert dropped == [comp];
    }
  }

  lemma CancelsLast(a: seq<string>, comp: string, rooted: bool)
    requires comp !in ["", ".", ".."]
    ensures Normal(a + [comp] + [".."], rooted) == Normal(a, rooted)
  {
    PushPop(Normal(a, rooted), comp, rooted);
    hide Normal, Push;
    NormalNext(a, comp, rooted);
    NormalNext(a + [comp], "..", rooted);
  }

  lemma PushPop(comps: seq<string>, comp: string, rooted: bool)
    requires comp !in ["", ".", ".."]
    ensures Push(Push(comps, comp, rooted), "..", rooted) == comps
  {
    assert Push(comps, comp, rooted) == comps + [comp];
    assert (comps + [comp])[..|comps|] == comps;
  }

  lemma {:induction false} NormalDrops(a: seq<string>, dropped: seq<string>, b: seq<string>, rooted: bool)
    requires Droppable(a, dropped, rooted)
    ensures Normal(a + dropped + b, rooted) == Normal(a + b, rooted)
    decreases |b|
  {
    hide Normal, Push;
    var n := |b| - 1;
    if b == [] {
      assert a + dropped + b == a + dropped && a + b == a;
      NormalDropsLast(a, dropped, rooted);
    } else {
      NormalDrops(a, dropped, b[..n], rooted);
      assert a + dropped + b == (a + dropped + b[..n]) + [b[n]] && a + b == (a + b[..n]) + [b[n]];
      NormalNext(a + dropped + b[..n], b[n], rooted);
      NormalNext(a + b[..n], b[n], rooted);
    }
  }

  /** An absolute link is accepted exactly if it names something at or below one of the two runtime
      roots, does not start with exactly two slashes, and neither of the two texts is in it. */
  lemma AbsoluteLinkStays(name: string, link: string, below: seq<string>)
    requires link != "" && link[0] == '/' && Normal(Split(link), true) == below
    ensures ValidLink(name, link) <==>
              && !DoubleRoot(link) && !Holds(link, "\\x00") && !Holds(link, "\\\\")
              && ((|below| >= 2 && below[0] == "nix" && below[1] == "store") || (|below| >= 1 && below[0] == "usr"))
  {
    if |below| >= 2 { assert below[..2] == [below[0], below[1]]; }
    if |below| >= 1 { assert below[..1] == [below[0]]; }
  }

  /** The two texts are the ones written `\\x00` and `\\\\`, four characters and two: a NUL or a single
      backslash in a link is not refused. */
  lemma SomeBadLinksPass(name: string)
    requires SafePath(name)
    ensures ValidLink(name, "\\") && ValidLink(name, ['\0'])
  {
    SplitOne('\\');
    SplitOne('\0');
    hide Split, SafePath, ValidLink, Directory;
    RelativeLinkStays(name, ['\\']);
    RelativeLinkStays(name, ['\0']);
  }

  lemma SplitOne(c: char)
    requires c != '/'
    ensures Split([c]) == [[c]]
    ensures c != '.' ==> Climb([[c]][..0]) == 0 && Climb([[c]][..1]) == 1
  {
    assert [c][1..] == "" && Split([c][1..]) == [""];
    assert [c] + "" == [c] && [[c]] + [""][1..] == [[c]];
    assert [[c]][..0] == [] && [[c]][..1] == [[c]] && |[c]| != |".."|;
    assert c != '.' ==> [c] != "." && Climb([[c]]) == Climb([[c]][..0]) + 1;
  }
}
