/**
  Extraction of an admitted archive into an empty directory, in archive order, with parents created on
  the way and every file created exclusively. `disk` says which segment names the file system holds to be
  the same; it may fold case or not, as long as it equates no names that admission keeps apart.
  */
module Extraction {
  import opened Archives
  import opened Results

  datatype Node = Dir | File(size: nat)

  type Fs = map<Path, Node>

  datatype Failure = Collision | Late | WrongSize | Nothing

  function DiskPath(parts: Path, disk: string -> string): Path {
    seq(|parts|, k requires 0 <= k < |parts| => disk(parts[k]))
  }

  /** The file system distinguishes no fewer names than admission does. */
  ghost predicate Distinguishes(disk: string -> string, unicode: Unicode) {
    forall a, b :: disk(a) == disk(b) ==> unicode.fold(a) == unicode.fold(b)
  }

  /** mkdir with parents: existing directories are fine, an existing file is not. */
  function EnsureDirectory(fs: Fs, p: Path): Result<Fs, Failure>
    decreases |p|
  {
    if p in fs then if fs[p].Dir? then Ok(fs) else Err(Collision)
    else if |p| == 0 then Ok(fs[p := Dir])
    else
      match EnsureDirectory(fs, p[..|p| - 1])
      case Err(e) => Err(e)
      case Ok(parents) => Ok(parents[p := Dir])
  }

  /** open with O_CREAT and O_EXCL: nothing may be there, and the parent must be a directory. */
  function CreateFile(fs: Fs, p: Path, size: nat): Result<Fs, Failure> {
    if p in fs || |p| == 0 || p[..|p| - 1] !in fs || fs[p[..|p| - 1]].File? then Err(Collision)
    else Ok(fs[p := File(size)])
  }

  lemma {:induction false} EnsureDirectoryWorks(fs: Fs, p: Path)
    requires forall n :: 0 <= n <= |p| && p[..n] in fs ==> fs[p[..n]].Dir?
    requires forall q, n :: q in fs && 0 <= n <= |q| ==> q[..n] in fs
    ensures EnsureDirectory(fs, p).Ok?
    ensures var after := EnsureDirectory(fs, p).value;
            && (forall q :: q in after <==> q in fs || exists n :: 0 <= n <= |p| && q == p[..n])
            && (forall q :: q in after ==> after[q] == if q in fs then fs[q] else Dir)
    decreases |p|
  {
    assert p[..|p|] == p;
    if p !in fs && |p| > 0 {
      var parent := p[..|p| - 1];
      assert forall n :: 0 <= n <= |parent| ==> parent[..n] == p[..n];
      EnsureDirectoryWorks(fs, parent);
      var after := EnsureDirectory(fs, p).value;
      var before := EnsureDirectory(fs, parent).value;
      forall q | q in after
        ensures q in fs || exists n :: 0 <= n <= |p| && q == p[..n]
      {
        if q == p {
          assert q == p[..|p|];
        } else if q !in fs {
          var n :| 0 <= n <= |parent| && q == parent[..n];
          assert q == p[..n];
        }
      }
      forall n | 0 <= n <= |p|
        ensures p[..n] in after
      {
        assert n < |p| ==> p[..n] == parent[..n] && parent[..n] in before;
      }
    } else {
      assert forall n :: 0 <= n <= |p| && p in fs ==> p[..n] in fs;
    }
  }

  ghost predicate Extends(fs: Fs, fs': Fs) { forall q :: q in fs ==> q in fs' && fs'[q] == fs[q] }

  /** Neither replaces anything: what was there stays as it was, and the path holds what was asked for. */
  lemma {:induction false} NothingIsReplaced(fs: Fs, p: Path, size: nat)
    decreases |p|
    ensures var made := EnsureDirectory(fs, p);
            made.Ok? ==> p in made.value && made.value[p].Dir? && Extends(fs, made.value)
    ensures var made := CreateFile(fs, p, size);
            made.Ok? ==> p !in fs && made.value == fs[p := File(size)]
  {
    if p !in fs && |p| > 0 {
      NothingIsReplaced(fs, p[..|p| - 1], size);
    }
  }

  // ---------- The tree after the first entries ----------

  ghost predicate IsAncestorOrSelf(p: Path, q: Path) { |p| <= |q| && q[..|p|] == p }

  function Target(planned: seq<Planned>, disk: string -> string, j: nat): Path
    requires j < |planned|
  {
    DiskPath(planned[j].parts, disk)
  }

  /** `p` is the path, or an ancestor of the path, of one of the first `n` entries. */
  ghost predicate Covered(p: Path, planned: seq<Planned>, disk: string -> string, n: nat)
    requires n <= |planned|
  {
    exists j :: 0 <= j < n && IsAncestorOrSelf(p, Target(planned, disk, j))
  }

  /** `p` is the path of a file among the first `n` entries. */
  ghost predicate PlannedFile(p: Path, planned: seq<Planned>, disk: string -> string, n: nat)
    requires n <= |planned|
  {
    exists j :: 0 <= j < n && !planned[j].entry.directory && p == Target(planned, disk, j)
  }

  /**
    The directory holds the root and the paths of the first `n` entries with all their ancestors; the
    files are exactly the planned files, with their declared sizes.
    */
  ghost predicate Tree(fs: Fs, planned: seq<Planned>, disk: string -> string, n: nat)
    requires n <= |planned|
  {
    && (forall p :: p in fs <==> p == [] || Covered(p, planned, disk, n))
    && (forall p :: p in fs ==> (fs[p].File? <==> PlannedFile(p, planned, disk, n)))
    && Sized(fs, planned, disk, n)
  }

  /** Every planned file is there with its declared size. */
  ghost predicate Sized(fs: Fs, planned: seq<Planned>, disk: string -> string, n: nat)
    requires n <= |planned|
  {
    forall j :: 0 <= j < n && !planned[j].entry.directory ==>
      var p := Target(planned, disk, j); p in fs && fs[p] == File(planned[j].entry.fileSize)
  }

  lemma TreeIsClosed(fs: Fs, planned: seq<Planned>, disk: string -> string, n: nat)
    requires n <= |planned| && Tree(fs, planned, disk, n)
    ensures forall q, k :: q in fs && 0 <= k <= |q| ==> q[..k] in fs
  {
    forall q, k | q in fs && 0 <= k <= |q|
      ensures q[..k] in fs
    {
      if q != [] {
        var j :| 0 <= j < n && IsAncestorOrSelf(q, Target(planned, disk, j));
        assert IsAncestorOrSelf(q[..k], Target(planned, disk, j));
      }
    }
  }

  lemma FoldOfDisk(p: Path, q: Path, disk: string -> string, unicode: Unicode)
    requires Distinguishes(disk, unicode) && IsAncestorOrSelf(DiskPath(p, disk), DiskPath(q, disk))
    ensures IsAncestorOrSelf(FoldPath(p, unicode), FoldPath(q, unicode))
  {
    var dp, dq := DiskPath(p, disk), DiskPath(q, disk);
    forall k | 0 <= k < |p| ensures FoldPath(p, unicode)[k] == FoldPath(q, unicode)[k] {
      assert dq[..|p|][k] == dp[k];
    }
    assert FoldPath(q, unicode)[..|p|] == FoldPath(p, unicode);
  }

  /** A planned file is not on the way to another entry, on the disk. */
  lemma NotOnTheWay(planned: seq<Planned>, unicode: Unicode, disk: string -> string, i: nat, j: nat)
    requires i < |planned| && j < |planned| && i != j && !planned[i].entry.directory
    requires Distinguishes(disk, unicode) && DistinctPaths(planned, unicode) && FilesAreLeaves(planned, unicode)
    ensures !IsAncestorOrSelf(DiskPath(planned[i].parts, disk), DiskPath(planned[j].parts, disk))
  {
    var p, q := FoldPath(planned[i].parts, unicode), FoldPath(planned[j].parts, unicode);
    assert p != q && !ProperPrefix(p, q);
    assert !IsAncestorOrSelf(p, q);
    if IsAncestorOrSelf(DiskPath(planned[i].parts, disk), DiskPath(planned[j].parts, disk)) {
      FoldOfDisk(planned[i].parts, planned[j].parts, disk, unicode);
    }
  }

  /** Nothing on the way to entry `n`, and not the entry itself, is in the way. */
  lemma WayIsClear(fs: Fs, planned: seq<Planned>, unicode: Unicode, disk: string -> string, n: nat)
    requires n < |planned| && Tree(fs, planned, disk, n) && |planned[n].parts| > 0
    requires Distinguishes(disk, unicode) && DistinctPaths(planned, unicode) && FilesAreLeaves(planned, unicode)
    ensures Clear(fs, DiskPath(planned[n].parts, disk), planned[n].entry.directory)
  {
    var target := DiskPath(planned[n].parts, disk);
    forall j | 0 <= j < n
      ensures !planned[j].entry.directory ==> !IsAncestorOrSelf(DiskPath(planned[j].parts, disk), target)
      ensures !planned[n].entry.directory ==> !IsAncestorOrSelf(target, DiskPath(planned[j].parts, disk))
    {
      if !planned[j].entry.directory {
        NotOnTheWay(planned, unicode, disk, j, n);
      }
      if !planned[n].entry.directory {
        NotOnTheWay(planned, unicode, disk, n, j);
      }
    }
    forall k | 0 <= k <= |target| && target[..k] in fs
      ensures fs[target[..k]].Dir?
    {
      assert IsAncestorOrSelf(target[..k], target);
      assert !PlannedFile(target[..k], planned, disk, n);
    }
    assert |target| > 0;
  }

  ghost predicate Clear(fs: Fs, target: Path, directory: bool) {
    && (forall k :: 0 <= k <= |target| && target[..k] in fs ==> fs[target[..k]].Dir?)
    && (!directory ==> target !in fs)
  }

  /** The file system after one entry. */
  function PlaceEntry(fs: Fs, planned: Planned, disk: string -> string): Result<Fs, Failure>
    requires |planned.parts| > 0
  {
    var target := DiskPath(planned.parts, disk);
    if planned.entry.directory then EnsureDirectory(fs, target)
    else
      match EnsureDirectory(fs, target[..|target| - 1])
      case Err(e) => Err(e)
      case Ok(parents) => CreateFile(parents, target, planned.entry.fileSize)
  }

  /** What placing an entry adds: the entry, and the missing directories above it. */
  lemma PlacedShape(fs: Fs, planned: Planned, disk: string -> string)
    requires |planned.parts| > 0 && Clear(fs, DiskPath(planned.parts, disk), planned.entry.directory)
    requires forall q, k :: q in fs && 0 <= k <= |q| ==> q[..k] in fs
    ensures PlaceEntry(fs, planned, disk).Ok?
    ensures var after, target := PlaceEntry(fs, planned, disk).value, DiskPath(planned.parts, disk);
            Grown(fs, after, planned, target)
  {
    var target := DiskPath(planned.parts, disk);
    var p := if planned.entry.directory then target else target[..|target| - 1];
    assert target[..|target|] == target;
    assert forall k :: 0 <= k <= |p| ==> p[..k] == target[..k];
    EnsureDirectoryWorks(fs, p);
    forall q
      ensures (exists k :: 0 <= k <= |p| && q == p[..k]) <==> IsAncestorOrSelf(q, target) && |q| <= |p|
    {
      if IsAncestorOrSelf(q, target) && |q| <= |p| {
        assert q == p[..|q|];
      }
    }
    if !planned.entry.directory {
      assert p == p[..|p|];
      assert forall q :: IsAncestorOrSelf(q, target) && |q| > |p| ==> q == target;
    }
  }

  lemma EntryIsPlaced(fs: Fs, planned: seq<Planned>, unicode: Unicode, disk: string -> string, n: nat)
    requires n < |planned| && Tree(fs, planned, disk, n) && |planned[n].parts| > 0
    requires Distinguishes(disk, unicode) && DistinctPaths(planned, unicode) && FilesAreLeaves(planned, unicode)
    ensures PlaceEntry(fs, planned[n], disk).Ok?
    ensures Tree(PlaceEntry(fs, planned[n], disk).value, planned, disk, n + 1)
  {
    WayIsClear(fs, planned, unicode, disk, n);
    TreeIsClosed(fs, planned, disk, n);
    PlacedShape(fs, planned[n], disk);
    TreeGrows(fs, PlaceEntry(fs, planned[n], disk).value, planned, disk, n);
  }

  /** `after` is `fs` with the entry and the missing directories above it. */
  ghost predicate Grown(fs: Fs, after: Fs, planned: Planned, target: Path) {
    && (forall q :: q in after <==> q in fs || IsAncestorOrSelf(q, target))
    && (forall q :: q in after ==>
          after[q] == if q == target && !planned.entry.directory then File(planned.entry.fileSize)
                      else if q in fs then fs[q] else Dir)
  }

  lemma SizesStay(fs: Fs, after: Fs, planned: seq<Planned>, disk: string -> string, n: nat)
    requires n < |planned| && Sized(fs, planned, disk, n)
    requires !planned[n].entry.directory ==> Target(planned, disk, n) !in fs
    requires Grown(fs, after, planned[n], Target(planned, disk, n))
    ensures Sized(after, planned, disk, n + 1)
  {
    assert IsAncestorOrSelf(Target(planned, disk, n), Target(planned, disk, n));
  }

  lemma TreeGrows(fs: Fs, after: Fs, planned: seq<Planned>, disk: string -> string, n: nat)
    requires n < |planned| && Tree(fs, planned, disk, n) && |planned[n].parts| > 0
    requires !planned[n].entry.directory ==> Target(planned, disk, n) !in fs
    requires Grown(fs, after, planned[n], Target(planned, disk, n))
    ensures Tree(after, planned, disk, n + 1)
  {
    SizesStay(fs, after, planned, disk, n);
    forall p
      ensures p in after <==> p == [] || Covered(p, planned, disk, n + 1)
      ensures p in after ==> (after[p].File? <==> PlannedFile(p, planned, disk, n + 1))
    {
      OneMoreEntry(p, planned, disk, n);
    }
  }

  lemma OneMoreEntry(p: Path, planned: seq<Planned>, disk: string -> string, n: nat)
    requires n < |planned|
    ensures Covered(p, planned, disk, n + 1) <==>
            Covered(p, planned, disk, n) || IsAncestorOrSelf(p, Target(planned, disk, n))
    ensures PlannedFile(p, planned, disk, n + 1) <==>
            PlannedFile(p, planned, disk, n) || (p == Target(planned, disk, n) && !planned[n].entry.directory)
  {
  }

  // ---------- Extraction ----------

  function Sum(chunks: seq<nat>, n: nat): nat
    requires n <= |chunks|
  {
    if n == 0 then 0 else Sum(chunks, n - 1) + chunks[n - 1]
  }

  /** Copies one file; `chunks` is what the archive delivers until it delivers nothing more. */
  method ExtractFile(chunks: seq<nat>, info: Entry, maxEntryBytes: int) returns (r: Result<nat, Failure>)
    requires info.fileSize <= maxEntryBytes
    ensures r.Ok? ==> r.value == info.fileSize == Sum(chunks, |chunks|)
    ensures r.Err? ==> r.error == WrongSize && Sum(chunks, |chunks|) != info.fileSize
  {
    var size := 0;
    for k := 0 to |chunks|
      invariant size == Sum(chunks, k) <= info.fileSize
    {
      size := size + chunks[k];
      if size > maxEntryBytes || size > info.fileSize {
        SumGrows(chunks, k + 1, |chunks|);
        return Err(WrongSize);
      }
    }
    if size != info.fileSize {
      return Err(WrongSize);
    }
    r := Ok(size);
  }

  lemma {:induction false} SumGrows(chunks: seq<nat>, m: nat, n: nat)
    requires m <= n <= |chunks|
    ensures Sum(chunks, m) <= Sum(chunks, n)
  {
    if m < n {
      SumGrows(chunks, m, n - 1);
    }
  }

  datatype ManifestRow = ManifestRow(path: Path, size: int)

  function Row(planned: Planned): seq<ManifestRow> {
    if planned.entry.directory then [] else [ManifestRow(planned.parts, planned.entry.fileSize)]
  }

  /** The manifest: paths and sizes of the files among the first `n` entries, in order. */
  function Manifest(planned: seq<Planned>, n: nat): seq<ManifestRow>
    requires n <= |planned|
  {
    if n == 0 then [] else Manifest(planned, n - 1) + Row(planned[n - 1])
  }

  function PlannedBytes(planned: seq<Planned>, n: nat): int
    requires n <= |planned|
  {
    if n == 0 then 0
    else PlannedBytes(planned, n - 1) + if planned[n - 1].entry.directory then 0 else planned[n - 1].entry.fileSize
  }

  /** What extraction relies on. */
  ghost predicate Extractable(planned: seq<Planned>, limits: Limits, unicode: Unicode) {
    && DistinctPaths(planned, unicode) && FilesAreLeaves(planned, unicode)
    && (forall j :: 0 <= j < |planned| ==> |planned[j].parts| > 0 && planned[j].entry.fileSize <= limits.maxEntryBytes)
    && PlannedBytes(planned, |planned|) <= limits.maxTotalBytes
  }

  lemma {:induction false} SameBytes(entries: seq<Entry>, planned: seq<Planned>, n: nat)
    requires |entries| == |planned| && n <= |planned|
    requires forall j :: 0 <= j < |planned| ==> planned[j].entry == entries[j]
    ensures PlannedBytes(planned, n) == FileBytes(entries, n)
  {
    if n > 0 {
      SameBytes(entries, planned, n - 1);
    }
  }

  /** What admission accepts, extraction can rely on. */
  lemma AdmissibleIsExtractable(entries: seq<Entry>, limits: Limits, unicode: Unicode)
    requires Admissible(entries, limits, EntryCheck(limits, unicode), unicode)
    ensures Extractable(Plan(entries, EntryCheck(limits, unicode), |entries|), limits, unicode)
  {
    var check := EntryCheck(limits, unicode);
    EntryCheckBounds(limits, unicode);
    var planned := Plan(entries, check, |entries|);
    SameBytes(entries, planned, |entries|);
    forall j | 0 <= j < |planned|
      ensures |planned[j].parts| > 0 && planned[j].entry.fileSize <= limits.maxEntryBytes
    {
      assert check(entries[j]).Ok?;
    }
  }

  /** Entry `j` delivers the bytes that its record declares. */
  predicate Honest(planned: Planned, chunks: seq<nat>) {
    planned.entry.directory || Sum(chunks, |chunks|) == planned.entry.fileSize
  }

  ghost predicate AllHonest(planned: seq<Planned>, content: seq<seq<nat>>, n: nat)
    requires n <= |planned| && n <= |content|
  {
    forall j :: 0 <= j < n ==> Honest(planned[j], content[j])
  }

  lemma HonestSoFar(planned: seq<Planned>, content: seq<seq<nat>>, n: nat)
    requires n < |planned| && n < |content| && AllHonest(planned, content, n) && Honest(planned[n], content[n])
    ensures AllHonest(planned, content, n + 1)
  {
  }

  /** The first `n` entries are in the tree, in the manifest and in the running total. */
  ghost predicate Extracted(planned: seq<Planned>, disk: string -> string, content: seq<seq<nat>>, n: nat,
                            fs: Fs, result: seq<ManifestRow>, actualTotal: int)
  {
    && n <= |planned| == |content|
    && Tree(fs, planned, disk, n)
    && result == Manifest(planned, n) && actualTotal == PlannedBytes(planned, n)
    && AllHonest(planned, content, n)
  }

  /**
    Extraction never collides and yields exactly the planned tree; it fails only when time runs out, when an
    entry does not deliver its declared size, or when there is no file at all.
    */
  method ExtractZip(planned: seq<Planned>, limits: Limits, ghost unicode: Unicode, disk: string -> string,
                    content: seq<seq<nat>>, deadline: nat)
    returns (r: Result<seq<ManifestRow>, Failure>, fs: Fs)
    requires Extractable(planned, limits, unicode) && Distinguishes(disk, unicode) && |content| == |planned|
    ensures r.Ok? ==> r.value == Manifest(planned, |planned|) != [] && Tree(fs, planned, disk, |planned|)
    ensures r.Ok? ==> AllHonest(planned, content, |planned|)
    ensures r.Err? ==> r.error != Collision
    ensures r == Err(Late) ==> deadline < |planned|
    ensures r == Err(WrongSize) ==> !AllHonest(planned, content, |planned|)
    ensures r == Err(Nothing) ==> Manifest(planned, |planned|) == []
  {
    fs := map[[] := Dir];
    var result: seq<ManifestRow> := [];
    var actualTotal := 0;
    var failure: Option<Failure>;
    for i := 0 to |planned|
      invariant Extracted(planned, disk, content, i, fs, result, actualTotal)
    {
      if i >= deadline {
        return Err(Late), fs;
      }
      failure, fs, result, actualTotal :=
        ExtractEntry(planned, limits, unicode, disk, content, i, fs, result, actualTotal);
      if failure.Some? {
        return Err(failure.value), fs;
      }
    }
    if result == [] {
      return Err(Nothing), fs;
    }
    r := Ok(result);
  }

  /** One round of the loop. */
  method ExtractEntry(planned: seq<Planned>, limits: Limits, ghost unicode: Unicode, disk: string -> string,
                      content: seq<seq<nat>>, n: nat, fs: Fs, result: seq<ManifestRow>, actualTotal: int)
    returns (failure: Option<Failure>, fs': Fs, result': seq<ManifestRow>, actualTotal': int)
    requires Extractable(planned, limits, unicode) && Distinguishes(disk, unicode)
    requires n < |planned| && Extracted(planned, disk, content, n, fs, result, actualTotal)
    ensures failure.None? ==> Extracted(planned, disk, content, n + 1, fs', result', actualTotal')
    ensures failure.Some? ==> failure == Some(WrongSize) && !AllHonest(planned, content, |planned|)
  {
    fs', result', actualTotal' := fs, result, actualTotal;
    var placed := PlaceNext(fs, planned, unicode, disk, n);
    var rows := CopyEntry(planned, n, content[n], limits, actualTotal);
    if rows.Err? {
      failure := Some(rows.error);
    } else {
      HonestSoFar(planned, content, n);
      failure, fs', result', actualTotal' := None, placed, result + rows.value, actualTotal + Bytes(rows.value);
    }
  }

  function Bytes(rows: seq<ManifestRow>): int {
    if |rows| == 0 then 0 else Bytes(rows[..|rows| - 1]) + rows[|rows| - 1].size
  }

  /** Copies the file of entry `n`, if it is one, and keeps the running total in bounds. */
  method CopyEntry(planned: seq<Planned>, n: nat, chunks: seq<nat>, limits: Limits, actualTotal: int)
    returns (r: Result<seq<ManifestRow>, Failure>)
    requires n < |planned| && actualTotal == PlannedBytes(planned, n)
    requires planned[n].entry.fileSize <= limits.maxEntryBytes
    requires PlannedBytes(planned, |planned|) <= limits.maxTotalBytes
    ensures r.Ok? ==>
              && r.value == Row(planned[n]) && Honest(planned[n], chunks)
              && actualTotal + Bytes(r.value) == PlannedBytes(planned, n + 1)
    ensures r.Err? ==> r.error == WrongSize && !Honest(planned[n], chunks)
  {
    if planned[n].entry.directory {
      return Ok([]);
    }
    var size := ExtractFile(chunks, planned[n].entry, limits.maxEntryBytes);
    if size.Err? {
      return Err(size.error);
    }
    BytesGrow(planned, n + 1, |planned|);
    if actualTotal + size.value > limits.maxTotalBytes {
      assert false;  // the declared total already excludes this
    }
    var row := ManifestRow(planned[n].parts, size.value);
    assert [row][..0] == [];
    r := Ok([row]);
  }

  /** Creates the parents of entry `n` and the entry; nothing is ever in the way. */
  method PlaceNext(fs: Fs, planned: seq<Planned>, ghost unicode: Unicode, disk: string -> string,
                   n: nat) returns (after: Fs)
    requires n < |planned| && Tree(fs, planned, disk, n) && |planned[n].parts| > 0
    requires Distinguishes(disk, unicode) && DistinctPaths(planned, unicode) && FilesAreLeaves(planned, unicode)
    ensures PlaceEntry(fs, planned[n], disk) == Ok(after) && Tree(after, planned, disk, n + 1)
  {
    EntryIsPlaced(fs, planned, unicode, disk, n);
    after := PlaceEntry(fs, planned[n], disk).value;
  }

  /** The running total of what was written stays within the declared total. */
  lemma {:induction false} BytesGrow(planned: seq<Planned>, m: nat, n: nat)
    requires m <= n <= |planned|
    ensures PlannedBytes(planned, m) <= PlannedBytes(planned, n)
  {
    if m < n {
      BytesGrow(planned, m, n - 1);
    }
  }

  // ---------- From the archive to the tree ----------

  datatype ArchiveError = Rejected(refusal: Refusal) | Broken(failure: Failure)

  /** The check of the entries, as one function. */
  ghost function PlanOf(entries: seq<Entry>, limits: Limits, unicode: Unicode): seq<Planned>
    requires AllAccepted(entries, EntryCheck(limits, unicode), |entries|)
  {
    Plan(entries, EntryCheck(limits, unicode), |entries|)
  }

  ghost predicate Sound(entries: seq<Entry>, limits: Limits, unicode: Unicode) {
    Admissible(entries, limits, EntryCheck(limits, unicode), unicode)
  }

  /** A sound archive with a file, whose entries deliver their declared sizes. */
  ghost predicate Delivers(entries: seq<Entry>, limits: Limits, unicode: Unicode, content: seq<seq<nat>>)
    requires |content| == |entries|
  {
    && Sound(entries, limits, unicode)
    && AllHonest(PlanOf(entries, limits, unicode), content, |entries|)
    && Manifest(PlanOf(entries, limits, unicode), |entries|) != []
  }

  /**
    Admission and extraction of one archive; `scan` and `copy` are the numbers of entries that are scanned and
    extracted in time. It succeeds exactly for a sound archive with a file whose entries deliver their
    declared sizes, when there is time enough, and then the tree is the planned one.
    */
  method MaterializeArchive(entries: seq<Entry>, limits: Limits, unicode: Unicode, disk: string -> string,
                            content: seq<seq<nat>>, scan: nat, copy: nat)
    returns (r: Result<seq<ManifestRow>, ArchiveError>, fs: Fs)
    requires limits.Valid() && Distinguishes(disk, unicode) && |content| == |entries|
    ensures r.Ok? ==>
              && Delivers(entries, limits, unicode, content)
              && r.value == Manifest(PlanOf(entries, limits, unicode), |entries|)
              && Tree(fs, PlanOf(entries, limits, unicode), disk, |entries|)
    ensures Delivers(entries, limits, unicode, content) && scan >= |entries| && copy >= |entries| ==> r.Ok?
    ensures r.Err? && r.error.Broken? ==> Sound(entries, limits, unicode) && r.error.failure != Collision
  {
    fs := map[[] := Dir];
    var planned := ValidateZip(entries, limits, unicode, scan);
    if planned.Err? {
      return Err(Rejected(planned.error)), fs;
    }
    AdmissibleIsExtractable(entries, limits, unicode);
    var extracted;
    extracted, fs := ExtractZip(planned.value, limits, unicode, disk, content, copy);
    r := if extracted.Ok? then Ok(extracted.value) else Err(Broken(extracted.error));
  }
}
