/**
 * services/file_processor.py: listing the downloaded files and packing them
 * into numbered ZIP parts that each stay under a byte ceiling.
 *
 * Files are records of their name, size, whether they are regular files and
 * whether they are readable; a part is judged on the summed sizes of its
 * input files (compression is not modelled).
 */
module FileProcessor {
  import opened Text

  datatype FileEntry = FileEntry(name: string, size: nat, isFile: bool, readable: bool)

  /** A directory on disk: absent, or present with its listing in `os.listdir` order. */
  datatype Directory = Missing | Existing(entries: seq<FileEntry>)

  /** One archive part: its path and the files written into it, in order. */
  datatype ZipPart = ZipPart(path: string, members: seq<FileEntry>)

  /** The regular files of a listing, in listing order. */
  function RegularFiles(entries: seq<FileEntry>): (r: seq<FileEntry>)
    ensures |r| <= |entries|
    ensures forall e :: e in r <==> e in entries && e.isFile
  {
    if entries == [] then []
    else
      var last := entries[|entries| - 1];
      RegularFiles(entries[..|entries| - 1]) + (if last.isFile then [last] else [])
  }

  function Names(entries: seq<FileEntry>): (r: seq<string>)
    ensures |r| == |entries|
    ensures forall i :: 0 <= i < |entries| ==> r[i] == entries[i].name
  {
    seq(|entries|, i requires 0 <= i < |entries| => entries[i].name)
  }

  /** Appending an entry appends its name. */
  lemma NamesSnoc(entries: seq<FileEntry>, e: FileEntry)
    ensures Names(entries + [e]) == Names(entries) + [e.name]
  {
    var r := Names(entries + [e]);
    assert forall i :: 0 <= i < |entries| ==> r[i] == (Names(entries) + [e.name])[i];
  }

  /** Reading one more entry keeps it exactly when it is a regular file. */
  lemma RegularFilesStep(entries: seq<FileEntry>, i: nat)
    requires i < |entries|
    ensures RegularFiles(entries[..i + 1]) == RegularFiles(entries[..i]) + (if entries[i].isFile then [entries[i]] else [])
  {
    assert entries[..i + 1][..i] == entries[..i];
  }

  /** `get_files_in_directory`: the names of the regular files, or nothing for a missing directory. */
  method GetFilesInDirectory(dir: Directory) returns (files: seq<string>)
    ensures dir.Missing? ==> files == []
    ensures dir.Existing? ==> files == Names(RegularFiles(dir.entries))
  {
    files := [];
    if dir.Missing? {
      return;
    }
    var entries := dir.entries;
    for i := 0 to |entries|
      invariant files == Names(RegularFiles(entries[..i]))
    {
      ghost var before := RegularFiles(entries[..i]);
      RegularFilesStep(entries, i);
      if entries[i].isFile {
        NamesSnoc(before, entries[i]);
        files := files + [entries[i].name];
      }
    }
    assert entries[..|entries|] == entries;
  }

  /** The walk in `create_zip_parts` that gathers the regular files to archive. */
  method CollectFiles(entries: seq<FileEntry>) returns (files: seq<FileEntry>)
    ensures files == RegularFiles(entries)
  {
    files := [];
    for i := 0 to |entries|
      invariant files == RegularFiles(entries[..i])
    {
      assert entries[..i + 1][..i] == entries[..i];
      if entries[i].isFile {
        files := files + [entries[i]];
      }
    }
    assert entries[..|entries|] == entries;
  }

  // ---------------------------------------------------------------- sorting

  predicate SortedBySize(s: seq<FileEntry>)
  {
    forall i, j :: 0 <= i < j < |s| ==> s[i].size <= s[j].size
  }

  /** Inserts `x` after every leading element no larger than it, which keeps equal sizes in arrival order. */
  function InsertBySize(x: FileEntry, s: seq<FileEntry>): seq<FileEntry>
  {
    if s == [] then [x]
    else if x.size < s[0].size then [x] + s
    else [s[0]] + InsertBySize(x, s[1..])
  }

  /** Insertion adds `x` and loses nothing. */
  lemma {:induction false} InsertBySizePermutes(x: FileEntry, s: seq<FileEntry>)
    ensures multiset(InsertBySize(x, s)) == multiset(s) + multiset{x}
  {
    if s != [] && x.size >= s[0].size {
      InsertBySizePermutes(x, s[1..]);
      assert s == [s[0]] + s[1..];
    }
  }

  /**
   * Inserting into a list sorted by size keeps it sorted; the first element
   * is then `x` or the old first element, whichever insertion puts first.
   */
  lemma {:induction false} InsertBySizeSorted(x: FileEntry, s: seq<FileEntry>)
    requires SortedBySize(s)
    ensures SortedBySize(InsertBySize(x, s))
    ensures |InsertBySize(x, s)| == |s| + 1
    ensures InsertBySize(x, s)[0].size == if s == [] || x.size < s[0].size then x.size else s[0].size
  {
    if s != [] && x.size >= s[0].size {
      InsertBySizeSorted(x, s[1..]);
      var rest := InsertBySize(x, s[1..]);
      var r := [s[0]] + rest;
      assert InsertBySize(x, s) == r;
      forall i, j | 0 <= i < j < |r|
        ensures r[i].size <= r[j].size
      {
        assert r[j].size == rest[j - 1].size;
        if i > 0 {
          assert r[i].size == rest[i - 1].size;
        }
      }
    }
  }

  /** `all_files.sort(key=size)`: ascending by size, and stable (`SortBySizeStable`). */
  function SortBySize(s: seq<FileEntry>): (r: seq<FileEntry>)
    ensures SortedBySize(r)
    ensures multiset(r) == multiset(s)
  {
    if s == [] then []
    else
      assert s == s[..|s| - 1] + [s[|s| - 1]];
      var sorted := SortBySize(s[..|s| - 1]);
      InsertBySizeSorted(s[|s| - 1], sorted);
      InsertBySizePermutes(s[|s| - 1], sorted);
      InsertBySize(s[|s| - 1], sorted)
  }

  /** The entries of size `v`, in their order in `s`. */
  function WithSize(s: seq<FileEntry>, v: nat): seq<FileEntry>
  {
    if s == [] then [] else (if s[0].size == v then [s[0]] else []) + WithSize(s[1..], v)
  }

  lemma {:induction false} WithSizeAppend(a: seq<FileEntry>, b: seq<FileEntry>, v: nat)
    ensures WithSize(a + b, v) == WithSize(a, v) + WithSize(b, v)
  {
    if a == [] {
      assert a + b == b;
    } else {
      assert (a + b)[1..] == a[1..] + b;
      WithSizeAppend(a[1..], b, v);
    }
  }

  lemma {:induction false} NoneOfSize(s: seq<FileEntry>, v: nat)
    requires forall k :: 0 <= k < |s| ==> s[k].size > v
    ensures WithSize(s, v) == []
  {
    if s != [] {
      NoneOfSize(s[1..], v);
    }
  }

  /** Inserting into a sorted list puts `x` after the entries of its own size, as appending it would. */
  lemma {:induction false} InsertBySizeStable(x: FileEntry, s: seq<FileEntry>, v: nat)
    requires SortedBySize(s)
    ensures WithSize(InsertBySize(x, s), v) == WithSize(s + [x], v)
  {
    if s == [] {
    } else if x.size < s[0].size {
      if v == x.size {
        NoneOfSize(s, v);
      }
      WithSizeAppend([x], s, v);
      WithSizeAppend(s, [x], v);
    } else {
      InsertBySizeStable(x, s[1..], v);
      assert ([s[0]] + InsertBySize(x, s[1..]))[1..] == InsertBySize(x, s[1..]);
      assert (s + [x])[1..] == s[1..] + [x];
    }
  }

  /** The sort is stable: for every size, the files of that size keep their input order. */
  lemma {:induction false} SortBySizeStable(s: seq<FileEntry>, v: nat)
    ensures WithSize(SortBySize(s), v) == WithSize(s, v)
  {
    if s != [] {
      var init, last := s[..|s| - 1], s[|s| - 1];
      assert s == init + [last];
      SortBySizeStable(init, v);
      InsertBySizeStable(last, SortBySize(init), v);
      WithSizeAppend(SortBySize(init), [last], v);
      WithSizeAppend(init, [last], v);
    }
  }

  // ---------------------------------------------------------------- packing

  function SizeSum(s: seq<FileEntry>): nat
  {
    if s == [] then 0 else SizeSum(s[..|s| - 1]) + s[|s| - 1].size
  }

  /** A file that `create_zip_parts` writes: readable and no larger than a whole part. */
  predicate Packable(f: FileEntry, maxPartSize: nat)
  {
    f.readable && f.size <= maxPartSize
  }

  /** The files that survive the two skip rules, in their original order. */
  function Kept(files: seq<FileEntry>, maxPartSize: nat): seq<FileEntry>
  {
    if files == [] then []
    else
      var last := files[|files| - 1];
      Kept(files[..|files| - 1], maxPartSize) + (if Packable(last, maxPartSize) then [last] else [])
  }

  function Flatten(parts: seq<seq<FileEntry>>): seq<FileEntry>
  {
    if parts == [] then [] else Flatten(parts[..|parts| - 1]) + parts[|parts| - 1]
  }

  /** One iteration of the packing loop, on the member lists of the parts made so far. */
  function PackStep(parts: seq<seq<FileEntry>>, f: FileEntry, maxPartSize: nat): seq<seq<FileEntry>>
  {
    if !Packable(f, maxPartSize) then parts
    else if parts == [] || SizeSum(parts[|parts| - 1]) + f.size > maxPartSize then parts + [[f]]
    else parts[..|parts| - 1] + [parts[|parts| - 1] + [f]]
  }

  /** The member lists of the parts after the loop has run over `files`. */
  function Pack(files: seq<FileEntry>, maxPartSize: nat): seq<seq<FileEntry>>
  {
    if files == [] then []
    else PackStep(Pack(files[..|files| - 1], maxPartSize), files[|files| - 1], maxPartSize)
  }

  lemma SizeSumAppend(s: seq<FileEntry>, f: FileEntry)
    ensures SizeSum(s + [f]) == SizeSum(s) + f.size
  {
    assert (s + [f])[..|s|] == s;
  }

  lemma MembersOfLastPart(parts: seq<seq<FileEntry>>, f: FileEntry)
    requires parts != []
    ensures (parts[..|parts| - 1] + [parts[|parts| - 1] + [f]])[..|parts| - 1] == parts[..|parts| - 1]
    ensures parts == parts[..|parts| - 1] + [parts[|parts| - 1]]
  {
  }

  /** Every part the loop makes is non-empty and within the ceiling. */
  lemma {:induction false} PackWithinCeiling(files: seq<FileEntry>, maxPartSize: nat)
    ensures forall k :: 0 <= k < |Pack(files, maxPartSize)| ==>
              Pack(files, maxPartSize)[k] != [] && SizeSum(Pack(files, maxPartSize)[k]) <= maxPartSize
  {
    if files != [] {
      var f := files[|files| - 1];
      var parts := Pack(files[..|files| - 1], maxPartSize);
      PackWithinCeiling(files[..|files| - 1], maxPartSize);
      if Packable(f, maxPartSize) {
        if parts == [] || SizeSum(parts[|parts| - 1]) + f.size > maxPartSize {
          SizeSumAppend([], f);
          assert [] + [f] == [f];
        } else {
          SizeSumAppend(parts[|parts| - 1], f);
          MembersOfLastPart(parts, f);
        }
      }
    }
  }

  /** The parts laid end to end are exactly the kept files, each once and in order. */
  lemma {:induction false} PackFlatten(files: seq<FileEntry>, maxPartSize: nat)
    ensures Flatten(Pack(files, maxPartSize)) == Kept(files, maxPartSize)
  {
    if files != [] {
      var f := files[|files| - 1];
      var parts := Pack(files[..|files| - 1], maxPartSize);
      PackFlatten(files[..|files| - 1], maxPartSize);
      if Packable(f, maxPartSize) {
        if parts == [] || SizeSum(parts[|parts| - 1]) + f.size > maxPartSize {
          assert (parts + [[f]])[..|parts|] == parts;
        } else {
          var n := |parts|;
          var last := parts[n - 1];
          MembersOfLastPart(parts, f);
          assert Flatten(parts) == Flatten(parts[..n - 1]) + last;
        }
      }
    }
  }

  /** A part is closed only when the next kept file would push it over the ceiling. */
  lemma {:induction false} PackGreedy(files: seq<FileEntry>, maxPartSize: nat)
    ensures forall k :: 1 <= k < |Pack(files, maxPartSize)| ==>
              Pack(files, maxPartSize)[k] != [] &&
              SizeSum(Pack(files, maxPartSize)[k - 1]) + Pack(files, maxPartSize)[k][0].size > maxPartSize
  {
    if files != [] {
      var f := files[|files| - 1];
      var parts := Pack(files[..|files| - 1], maxPartSize);
      PackGreedy(files[..|files| - 1], maxPartSize);
      PackWithinCeiling(files[..|files| - 1], maxPartSize);
      if Packable(f, maxPartSize) {
        if parts == [] || SizeSum(parts[|parts| - 1]) + f.size > maxPartSize {
          assert (parts + [[f]])[..|parts|] == parts;
        } else {
          MembersOfLastPart(parts, f);
          assert (parts[|parts| - 1] + [f])[0] == parts[|parts| - 1][0];
        }
      }
    }
  }

  /** Keeping only some files of a sorted list leaves it sorted, so the parts follow ascending size. */
  lemma {:induction false} KeptSorted(files: seq<FileEntry>, maxPartSize: nat)
    requires SortedBySize(files)
    ensures SortedBySize(Kept(files, maxPartSize))
    ensures forall f :: f in Kept(files, maxPartSize) <==> f in files && Packable(f, maxPartSize)
  {
    if files != [] {
      var init := files[..|files| - 1];
      var last := files[|files| - 1];
      assert files == init + [last];
      KeptSorted(init, maxPartSize);
      var ks := Kept(init, maxPartSize);
      if Packable(last, maxPartSize) {
        var r := ks + [last];
        forall i, j | 0 <= i < j < |r| ensures r[i].size <= r[j].size {
          if j == |ks| {
            assert ks[i] in init;
            var k :| 0 <= k < |init| && init[k] == ks[i];
            assert files[k] == init[k];
          }
        }
      }
    }
  }

  // ---------------------------------------------------------------- part names

  /** `f"{zip_base_path}.part{part_num:03d}.zip"` */
  function PartPath(base: string, partNum: nat): string
  {
    base + PartSuffix(partNum)
  }

  /** Distinct part numbers give distinct part paths, so no part overwrites another. */
  lemma PartPathsDistinct(base: string, m: nat, n: nat)
    requires m != n
    ensures PartPath(base, m) != PartPath(base, n)
  {
    if PartPath(base, m) == PartPath(base, n) {
      var sm, sn := PartSuffix(m), PartSuffix(n);
      assert sm == (base + sm)[|base|..] == (base + sn)[|base|..] == sn;
      var a, b := ZeroPad(m, 3), ZeroPad(n, 3);
      assert sm == ".part" + a + ".zip" && sn == ".part" + b + ".zip";
      assert |a| == |b|;
      assert sm[5..5 + |a|] == a && sn[5..5 + |b|] == b;
      ZeroPadValue(m, 3);
      ZeroPadValue(n, 3);
    }
  }

  /** The length of `path` up to and including its last '/', or 0 when it has none. */
  function SlashEnd(path: string): (n: nat)
    ensures n <= |path|
    ensures n > 0 ==> path[n - 1] == '/'
    ensures forall k :: n <= k < |path| ==> path[k] != '/'
  {
    if path == [] then 0
    else if path[|path| - 1] == '/' then |path|
    else SlashEnd(path[..|path| - 1])
  }

  /** `head.rstrip('/')` */
  function TrimSlashes(head: string): (r: string)
    ensures r <= head && (r == [] || r[|r| - 1] != '/')
    ensures forall k :: |r| <= k < |head| ==> head[k] == '/'
  {
    if head != [] && head[|head| - 1] == '/' then TrimSlashes(head[..|head| - 1]) else head
  }

  /**
   * `os.path.dirname(path)`: what precedes the last '/', with trailing
   * slashes removed unless it is made of slashes only.
   */
  function DirName(path: string): string
  {
    HeadDir(path[..SlashEnd(path)])
  }

  /** The directory named by everything up to the last '/'. */
  function HeadDir(head: string): string
  {
    if forall k :: 0 <= k < |head| ==> head[k] == '/' then head else TrimSlashes(head)
  }

  /** Appending text without a '/' leaves the last '/' where it was. */
  lemma {:induction false} SlashEndAppend(path: string, tail: string)
    requires forall k :: 0 <= k < |tail| ==> tail[k] != '/'
    ensures SlashEnd(path + tail) == SlashEnd(path)
  {
    if tail != [] {
      var init := tail[..|tail| - 1];
      assert (path + tail)[..|path + tail| - 1] == path + init;
      SlashEndAppend(path, init);
    } else {
      assert path + tail == path;
    }
  }

  /** Every part file lands in the directory of the base path, so all parts share one directory. */
  lemma PartsShareDirectory(base: string, partNum: nat)
    ensures DirName(PartPath(base, partNum)) == DirName(base)
  {
    var tail := PartSuffix(partNum);
    SlashEndAppend(base, tail);
    assert (base + tail)[..SlashEnd(base)] == base[..SlashEnd(base)];
  }

  /** What `PartPath` appends to the base: `.partNNN.zip`, which holds no '/'. */
  function PartSuffix(partNum: nat): (tail: string)
    ensures forall k :: 0 <= k < |tail| ==> tail[k] != '/'
  {
    var digits := ZeroPad(partNum, 3);
    var tail := ".part" + digits + ".zip";
    assert forall k :: 5 <= k < 5 + |digits| ==> tail[k] == digits[k - 5];
    tail
  }

  function Members(parts: seq<ZipPart>): (r: seq<seq<FileEntry>>)
    ensures |r| == |parts|
    ensures forall k :: 0 <= k < |parts| ==> r[k] == parts[k].members
  {
    seq(|parts|, k requires 0 <= k < |parts| => parts[k].members)
  }

  /** Part `k` (from 0) carries the path of part number `k + 1`. */
  predicate Numbered(parts: seq<ZipPart>, base: string)
  {
    forall k :: 0 <= k < |parts| ==> parts[k].path == PartPath(base, k + 1)
  }

  lemma NumberedSnoc(parts: seq<ZipPart>, base: string, p: ZipPart)
    requires Numbered(parts, base) && p.path == PartPath(base, |parts| + 1)
    ensures Numbered(parts + [p], base)
  {
  }

  lemma NumberedReplaceLast(parts: seq<ZipPart>, base: string, p: ZipPart)
    requires Numbered(parts, base) && parts != [] && p.path == parts[|parts| - 1].path
    ensures Numbered(parts[..|parts| - 1] + [p], base)
  {
  }

  lemma PackSnoc(files: seq<FileEntry>, f: FileEntry, maxPartSize: nat)
    ensures Pack(files + [f], maxPartSize) == PackStep(Pack(files, maxPartSize), f, maxPartSize)
  {
    assert (files + [f])[..|files|] == files;
  }

  lemma MembersSnoc(parts: seq<ZipPart>, p: ZipPart)
    ensures Members(parts + [p]) == Members(parts) + [p.members]
  {
  }

  lemma MembersReplaceLast(parts: seq<ZipPart>, p: ZipPart)
    requires parts != []
    ensures Members(parts[..|parts| - 1] + [p]) == Members(parts)[..|parts| - 1] + [p.members]
  {
  }

  /** A file that does not fit (or nothing is open) opens the next numbered part, holding just that file. */
  lemma OpenPartStep(parts: seq<ZipPart>, done: seq<FileEntry>, f: FileEntry, base: string, maxPartSize: nat)
    requires Members(parts) == Pack(done, maxPartSize) && Numbered(parts, base)
    requires Packable(f, maxPartSize)
    requires parts == [] || SizeSum(parts[|parts| - 1].members) + f.size > maxPartSize
    ensures var next := parts + [ZipPart(PartPath(base, |parts| + 1), [f])];
      && Members(next) == Pack(done + [f], maxPartSize)
      && Numbered(next, base)
      && SizeSum(next[|next| - 1].members) == f.size
  {
    var np := ZipPart(PartPath(base, |parts| + 1), [f]);
    PackSnoc(done, f, maxPartSize);
    MembersSnoc(parts, np);
    NumberedSnoc(parts, base, np);
    SizeSumAppend([], f);
    assert [] + [f] == [f];
  }

  /** A file that fits is appended to the open part, which keeps its path. */
  lemma GrowPartStep(parts: seq<ZipPart>, done: seq<FileEntry>, f: FileEntry, base: string, maxPartSize: nat)
    requires Members(parts) == Pack(done, maxPartSize) && Numbered(parts, base)
    requires Packable(f, maxPartSize)
    requires parts != [] && SizeSum(parts[|parts| - 1].members) + f.size <= maxPartSize
    ensures var last := parts[|parts| - 1];
      var next := parts[..|parts| - 1] + [ZipPart(last.path, last.members + [f])];
      && Members(next) == Pack(done + [f], maxPartSize)
      && Numbered(next, base)
      && SizeSum(next[|next| - 1].members) == SizeSum(last.members) + f.size
  {
    var last := parts[|parts| - 1];
    var grown := ZipPart(last.path, last.members + [f]);
    PackSnoc(done, f, maxPartSize);
    MembersReplaceLast(parts, grown);
    NumberedReplaceLast(parts, base, grown);
    SizeSumAppend(last.members, f);
  }

  /** The packing loop of `create_zip_parts`, over files already sorted by size. */
  method PackFiles(sorted: seq<FileEntry>, base: string, maxPartSize: nat) returns (parts: seq<ZipPart>)
    ensures Members(parts) == Pack(sorted, maxPartSize)
    ensures Numbered(parts, base)
  {
    parts := [];
    var partNum := 1;
    var currentPartSize := 0;
    var open := false;
    for i := 0 to |sorted|
      invariant Members(parts) == Pack(sorted[..i], maxPartSize)
      invariant Numbered(parts, base)
      invariant partNum == |parts| + 1
      invariant open <==> parts != []
      invariant open ==> currentPartSize == SizeSum(parts[|parts| - 1].members)
    {
      var f := sorted[i];
      assert sorted[..i + 1] == sorted[..i] + [f];
      if Packable(f, maxPartSize) {
        if !open || currentPartSize + f.size > maxPartSize {
          // close the current part (if any), open the next one and write `f` into it
          OpenPartStep(parts, sorted[..i], f, base, maxPartSize);
          parts := parts + [ZipPart(PartPath(base, partNum), [f])];
          open := true;
          currentPartSize := f.size;
          partNum := partNum + 1;
        } else {
          GrowPartStep(parts, sorted[..i], f, base, maxPartSize);
          var last := parts[|parts| - 1];
          parts := parts[..|parts| - 1] + [ZipPart(last.path, last.members + [f])];
          currentPartSize := currentPartSize + f.size;
        }
      } else {
        PackSnoc(sorted[..i], f, maxPartSize);
      }
    }
    assert sorted[..|sorted|] == sorted;
  }

  /** The parts `create_zip_parts` makes from a directory: member lists from `Pack`, numbered paths. */
  function ZipPlan(dir: Directory, base: string, maxPartSize: nat): (parts: seq<ZipPart>)
    ensures dir.Missing? ==> parts == []
    ensures dir.Existing? ==> Members(parts) == Pack(SortBySize(RegularFiles(dir.entries)), maxPartSize)
    ensures Numbered(parts, base)
  {
    if dir.Missing? then []
    else
      var p := Pack(SortBySize(RegularFiles(dir.entries)), maxPartSize);
      seq(|p|, k requires 0 <= k < |p| => ZipPart(PartPath(base, k + 1), p[k]))
  }

  /** A packing result with the right member lists and numbered paths is the plan. */
  lemma PlanOfParts(parts: seq<ZipPart>, dir: Directory, base: string, maxPartSize: nat)
    requires dir.Existing?
    requires Members(parts) == Pack(SortBySize(RegularFiles(dir.entries)), maxPartSize)
    requires Numbered(parts, base)
    ensures parts == ZipPlan(dir, base, maxPartSize)
  {
    var plan := ZipPlan(dir, base, maxPartSize);
    assert |parts| == |Members(parts)| == |Members(plan)| == |plan|;
    forall k | 0 <= k < |parts| ensures parts[k] == plan[k] {
      assert parts[k].members == Members(parts)[k] == Members(plan)[k] == plan[k].members;
    }
  }

  /**
   * What the plan promises: nothing for a missing or file-less directory;
   * otherwise non-empty parts within the ceiling, numbered from 1, holding
   * exactly the kept files, each once, in ascending order of size.
   */
  lemma ZipPlanMeaning(dir: Directory, base: string, maxPartSize: nat)
    ensures dir.Missing? || RegularFiles(dir.entries) == [] ==> ZipPlan(dir, base, maxPartSize) == []
    ensures forall k :: 0 <= k < |ZipPlan(dir, base, maxPartSize)| ==>
              ZipPlan(dir, base, maxPartSize)[k].path == PartPath(base, k + 1)
    ensures forall k :: 0 <= k < |ZipPlan(dir, base, maxPartSize)| ==>
              ZipPlan(dir, base, maxPartSize)[k].members != [] &&
              SizeSum(ZipPlan(dir, base, maxPartSize)[k].members) <= maxPartSize
    ensures dir.Existing? ==>
              var kept := Kept(SortBySize(RegularFiles(dir.entries)), maxPartSize);
              Flatten(Members(ZipPlan(dir, base, maxPartSize))) == kept && SortedBySize(kept)
  {
    var plan := ZipPlan(dir, base, maxPartSize);
    if dir.Existing? {
      var sorted := SortBySize(RegularFiles(dir.entries));
      PackWithinCeiling(sorted, maxPartSize);
      PackFlatten(sorted, maxPartSize);
      KeptSorted(sorted, maxPartSize);
      forall k | 0 <= k < |plan| ensures plan[k].members != [] && SizeSum(plan[k].members) <= maxPartSize {
        assert plan[k].members == Members(plan)[k];
      }
    }
  }

  /**
   * What `create_zip_parts` returns when `dirs` are the directories in which
   * a part file can be created: the plan when the base path's directory is
   * one of them, and nothing otherwise, since every `zipfile.ZipFile(...)`
   * then raises and each file is skipped.
   */
  function ZipResult(dir: Directory, base: string, maxPartSize: nat, dirs: set<string>): seq<ZipPart>
  {
    if DirName(base) in dirs then ZipPlan(dir, base, maxPartSize) else []
  }

  /**
   * `create_zip_parts`: the regular files, sorted by size, packed greedily
   * into parts named `.part001.zip`, `.part002.zip`, …; unreadable files and
   * files larger than a part are skipped. `dirs` are the directories in
   * which a file can be created. When the parts' directory is one of them
   * the result is the plan, with the properties proved for `ZipPlan`;
   * otherwise creating the first part raises, and so does every later
   * attempt (they all go to that directory, `PartsShareDirectory`), so
   * every file is skipped and no part is returned.
   */
  method CreateZipParts(dir: Directory, base: string, maxPartSize: nat, dirs: set<string>) returns (parts: seq<ZipPart>)
    ensures DirName(base) in dirs ==> parts == ZipPlan(dir, base, maxPartSize)
    ensures DirName(base) !in dirs ==> parts == []
  {
    parts := [];
    if dir.Missing? {
      return;
    }
    var allFiles := CollectFiles(dir.entries);
    if allFiles == [] {
      return;
    }
    var sorted := SortBySize(allFiles);
    if DirName(base) !in dirs {
      return;
    }
    parts := PackFiles(sorted, base, maxPartSize);
    PlanOfParts(parts, dir, base, maxPartSize);
  }

  /**
   * `cleanup_zip_parts`: every listed path that exists is removed; the
   * others are ignored. `existing` is the set of paths present on disk.
   */
  method CleanupZipParts(paths: seq<string>, existing: set<string>) returns (remaining: set<string>)
    ensures remaining == existing - set p | p in paths
  {
    remaining := existing;
    for i := 0 to |paths|
      invariant remaining == existing - set p | p in paths[..i]
    {
      assert paths[..i + 1] == paths[..i] + [paths[i]];
      if paths[i] in remaining {
        remaining := remaining - {paths[i]};
      }
    }
    assert paths[..|paths|] == paths;
  }
}
