/**
  Admission of a ZIP archive and its extraction. The zip reader, Unicode normalisation, case folding and
  the disk are parameters; sizes are exact.
  */
module Archives {
  import opened Results
  import opened Texts
  import Utf8Chunks

  type Path = seq<string>

  datatype Limits = Limits(maxEntries: int, maxEntryBytes: int, maxTotalBytes: int, maxRatio: int,
                           maxPathDepth: int, maxPathChars: int)
  {
    predicate Valid() {
      && maxEntries > 0 && 0 < maxEntryBytes <= maxTotalBytes && maxRatio > 0
      && maxPathDepth > 0 && maxPathChars > 0
    }
  }

  datatype FileType = Unspecified | Regular | Directory | Special

  /** A central directory record; `directory` says that its name ends in a slash. */
  datatype Entry = Entry(name: string, directory: bool, fileType: FileType, encrypted: bool, supported: bool,
                         fileSize: nat, compressSize: nat)

  datatype Planned = Planned(entry: Entry, parts: Path)

  datatype Refusal = TooManyEntries | Encrypted | Unsupported | UnsafePath | TooLarge | EmptyFile | UnsafeRatio
                   | TimedOut | SizeMismatch | NoFiles

  /** What Python's Unicode database contributes. `fold` is NFC followed by case folding of one segment. */
  datatype Unicode = Unicode(nfc: string -> string, unsafe: char -> bool, casefold: string -> string,
                             fold: string -> string)

  // ---------- Paths ----------

  const RESERVED_NAMES: set<string> :=
    {"aux", "con", "nul", "prn", "com1", "com2", "com3", "com4", "com5", "com6", "com7", "com8", "com9",
     "lpt1", "lpt2", "lpt3", "lpt4", "lpt5", "lpt6", "lpt7", "lpt8", "lpt9"}

  const FORBIDDEN: set<char> := {'<', '>', ':', '"', '|', '?', '*'}

  predicate Letter(c: char) { 'A' <= c <= 'Z' || 'a' <= c <= 'z' }

  predicate PortablePart(part: string, unicode: Unicode) {
    && !(|part| > 0 && part[|part| - 1] in {' ', '.'})
    && (forall i :: 0 <= i < |part| ==> part[i] !in FORBIDDEN)
    && |Utf8Chunks.EncodeAll(part)| <= 255
    && unicode.casefold(part[..IndexOf(part, '.')]) !in RESERVED_NAMES
  }

  predicate AcceptablePart(part: string, unicode: Unicode) {
    part !in {"", ".", ".."} && PortablePart(part, unicode)
  }

  function Trimmed(normalized: string): string
    requires |normalized| > 0
  {
    if normalized[|normalized| - 1] == '/' then normalized[..|normalized| - 1] else normalized
  }

  function SafeParts(name: string, limits: Limits, unicode: Unicode): (r: Result<Path, Refusal>)
    ensures r.Ok? ==> forall k :: 0 <= k < |r.value| ==> AcceptablePart(r.value[k], unicode)
  {
    var normalized := unicode.nfc(name);
    if || |normalized| == 0
       || '\0' in normalized || '\\' in normalized
       || normalized[0] == '/'
       || (|normalized| > 1 && Letter(normalized[0]) && normalized[1] == ':')
       || |normalized| > limits.maxPathChars
       || (exists i :: 0 <= i < |normalized| && unicode.unsafe(normalized[i])) then
      Err(UnsafePath)
    else
      var parts := Split('/', Trimmed(normalized));
      if || |parts| > limits.maxPathDepth
         || !(forall k :: 0 <= k < |parts| ==> AcceptablePart(parts[k], unicode)) then
        Err(UnsafePath)
      else
        Ok(parts)
  }

  /** A path that names something strictly below the extraction root, on every system. */
  ghost predicate Safe(parts: Path) {
    |parts| > 0 && forall k :: 0 <= k < |parts| ==> SafePart(parts[k])
  }

  predicate SafePart(part: string) {
    part !in {"", ".", ".."} && '/' !in part && '\\' !in part && ':' !in part && '\0' !in part
  }

  lemma PartIsSafe(trimmed: string, k: nat, unicode: Unicode)
    requires '\\' !in trimmed && '\0' !in trimmed && k < |Split('/', trimmed)|
    requires AcceptablePart(Split('/', trimmed)[k], unicode)
    ensures SafePart(Split('/', trimmed)[k])
  {
    SplitJoins('/', trimmed);
    PartCharacters('/', trimmed, '\\', k);
    PartCharacters('/', trimmed, '\0', k);
  }

  lemma TrimmedSlash(normalized: string)
    requires |normalized| > 0
    ensures normalized == Trimmed(normalized) || normalized == Trimmed(normalized) + "/"
  {
  }

  /** An accepted name is its parts joined by slashes, with at most one trailing slash, and the parts are safe. */
  lemma AcceptedPathsAreSafe(name: string, limits: Limits, unicode: Unicode)
    requires SafeParts(name, limits, unicode).Ok?
    ensures var parts := SafeParts(name, limits, unicode).value;
            && Safe(parts) && |parts| <= limits.maxPathDepth
            && unicode.nfc(name) in {Join('/', parts), Join('/', parts) + "/"}
  {
    var normalized := unicode.nfc(name);
    var trimmed, parts := Trimmed(normalized), SafeParts(name, limits, unicode).value;
    SplitJoins('/', trimmed);
    forall k | 0 <= k < |parts|
      ensures SafePart(parts[k])
    {
      PartIsSafe(trimmed, k, unicode);
    }
    TrimmedSlash(normalized);
  }

  /** The text of a path in an archive: its parts joined by slashes, with one more slash or without. */
  predicate Writes(parts: Path, normalized: string) {
    |parts| > 0 && normalized in {Join('/', parts), Join('/', parts) + "/"}
  }

  /** Nothing in the whole name speaks against it. */
  predicate PlainName(normalized: string, limits: Limits, unicode: Unicode) {
    && |normalized| <= limits.maxPathChars && '\0' !in normalized && '\\' !in normalized
    && forall i :: 0 <= i < |normalized| ==> !unicode.unsafe(normalized[i])
  }

  lemma JoinStartsWith(parts: Path)
    requires |parts| > 0 && parts[0] != ""
    ensures |Join('/', parts)| > 0 && Join('/', parts)[0] == parts[0][0]
    ensures |parts[0]| > 1 ==> |Join('/', parts)| > 1 && Join('/', parts)[1] == parts[0][1]
    ensures |parts[0]| == 1 && |Join('/', parts)| > 1 ==> Join('/', parts)[1] == '/'
  {
  }

  lemma {:induction false} JoinEndsWith(parts: Path)
    requires |parts| > 0 && forall k :: 0 <= k < |parts| ==> parts[k] != "" && '/' !in parts[k]
    ensures |Join('/', parts)| > 0 && Join('/', parts)[|Join('/', parts)| - 1] != '/'
  {
    if |parts| > 1 {
      JoinEndsWith(parts[1..]);
    }
  }

  /** What is written from acceptable parts is read back as these parts. */
  lemma WrittenIsRead(name: string, parts: Path, limits: Limits, unicode: Unicode)
    requires PlainName(unicode.nfc(name), limits, unicode) && Writes(parts, unicode.nfc(name))
    requires |parts| <= limits.maxPathDepth
    requires forall k :: 0 <= k < |parts| ==> AcceptablePart(parts[k], unicode) && '/' !in parts[k]
    ensures SafeParts(name, limits, unicode) == Ok(parts)
  {
    var normalized := unicode.nfc(name);
    JoinStartsWith(parts);
    JoinEndsWith(parts);
    JoinSplits('/', parts);
    assert Trimmed(normalized) == Join('/', parts);
    assert PortablePart(parts[0], unicode);
    assert forall i :: 0 <= i < |parts[0]| ==> parts[0][i] != ':';
  }

  /** A name is accepted exactly when it is plain and written from acceptable parts, and gives these parts. */
  lemma PathsAcceptedExactly(name: string, parts: Path, limits: Limits, unicode: Unicode)
    ensures SafeParts(name, limits, unicode) == Ok(parts)
            <==> && PlainName(unicode.nfc(name), limits, unicode) && Writes(parts, unicode.nfc(name))
                 && |parts| <= limits.maxPathDepth
                 && forall k :: 0 <= k < |parts| ==> AcceptablePart(parts[k], unicode) && '/' !in parts[k]
  {
    if SafeParts(name, limits, unicode) == Ok(parts) {
      AcceptedPathsAreSafe(name, limits, unicode);
      SplitJoins('/', Trimmed(unicode.nfc(name)));
    } else if && PlainName(unicode.nfc(name), limits, unicode) && Writes(parts, unicode.nfc(name))
              && |parts| <= limits.maxPathDepth
              && forall k :: 0 <= k < |parts| ==> AcceptablePart(parts[k], unicode) && '/' !in parts[k] {
      WrittenIsRead(name, parts, limits, unicode);
    }
  }

  // ---------- Admission ----------

  function FoldPath(parts: Path, unicode: Unicode): Path {
    seq(|parts|, k requires 0 <= k < |parts| => unicode.fold(parts[k]))
  }

  function Max(a: int, b: int): int { if a < b then b else a }

  /** The first reason to refuse a single entry. */
  function CheckEntry(e: Entry, limits: Limits, unicode: Unicode): Result<Path, Refusal> {
    if e.encrypted then Err(Encrypted)
    else if !e.supported then Err(Unsupported)
    else
      match SafeParts(e.name, limits, unicode)
      case Err(error) => Err(error)
      case Ok(parts) =>
        if e.fileType == Special then Err(UnsafePath)
        else if (e.fileType == Directory) != e.directory && e.fileType != Unspecified then Err(UnsafePath)
        else if e.fileSize > limits.maxEntryBytes then Err(TooLarge)
        else if !e.directory && e.fileSize == 0 then Err(EmptyFile)
        else if e.fileSize > 0 && e.compressSize == 0 then Err(UnsafeRatio)
        else if e.fileSize > limits.maxRatio * Max(1, e.compressSize) then Err(UnsafeRatio)
        else Ok(parts)
  }

  /** An entry is accepted exactly when it is none of the things that are refused. */
  lemma EntryAcceptedExactly(e: Entry, limits: Limits, unicode: Unicode)
    requires limits.Valid()
    ensures CheckEntry(e, limits, unicode).Ok?
            <==> && !e.encrypted && e.supported && SafeParts(e.name, limits, unicode).Ok?
                 && (e.fileType == Unspecified || e.fileType == if e.directory then Directory else Regular)
                 && e.fileSize <= limits.maxEntryBytes
                 && (e.directory || e.fileSize > 0)
                 && (e.fileSize == 0 || (e.compressSize > 0 && e.fileSize <= limits.maxRatio * e.compressSize))
    ensures CheckEntry(e, limits, unicode).Ok? ==>
              CheckEntry(e, limits, unicode) == SafeParts(e.name, limits, unicode)
  {
  }

  /** The check of one entry, and what the archive checks need to know of it. */
  type Check = Entry -> Result<Path, Refusal>

  function EntryCheck(limits: Limits, unicode: Unicode): Check { e => CheckEntry(e, limits, unicode) }

  ghost predicate Bounding(check: Check, limits: Limits) {
    forall e :: check(e).Ok? ==>
      && |check(e).value| > 0
      && e.fileSize <= limits.maxEntryBytes
      && (!e.directory ==> e.fileSize <= limits.maxRatio * e.compressSize)
  }

  lemma EntryCheckBounds(limits: Limits, unicode: Unicode)
    ensures Bounding(EntryCheck(limits, unicode), limits)
    ensures forall e :: EntryCheck(limits, unicode)(e) != Err(TimedOut)
  {
    forall e | EntryCheck(limits, unicode)(e).Ok?
      ensures |EntryCheck(limits, unicode)(e).value| > 0
      ensures e.fileSize <= limits.maxEntryBytes
      ensures !e.directory ==> e.fileSize <= limits.maxRatio * e.compressSize
    {
      assert !e.directory ==> Max(1, e.compressSize) == e.compressSize;
    }
  }

  ghost predicate AllAccepted(entries: seq<Entry>, check: Check, n: nat)
    requires n <= |entries|
  {
    forall i :: 0 <= i < n ==> check(entries[i]).Ok?
  }

  ghost function Plan(entries: seq<Entry>, check: Check, n: nat): (planned: seq<Planned>)
    requires n <= |entries| && AllAccepted(entries, check, n)
    ensures |planned| == n
    ensures forall i :: 0 <= i < n ==> planned[i] == Planned(entries[i], check(entries[i]).value)
  {
    seq(n, i requires 0 <= i < n => Planned(entries[i], check(entries[i]).value))
  }

  /** Bytes of the files among the first `n` entries. */
  function FileBytes(entries: seq<Entry>, n: nat): nat
    requires n <= |entries|
  {
    if n == 0 then 0 else FileBytes(entries, n - 1) + if entries[n - 1].directory then 0 else entries[n - 1].fileSize
  }

  function PackedBytes(entries: seq<Entry>, n: nat): nat
    requires n <= |entries|
  {
    if n == 0 then 0
    else PackedBytes(entries, n - 1) + if entries[n - 1].directory then 0 else entries[n - 1].compressSize
  }

  ghost predicate ProperPrefix(p: Path, q: Path) { |p| < |q| && q[..|p|] == p }

  /** No two entries fold to the same path. */
  ghost predicate DistinctPaths(planned: seq<Planned>, unicode: Unicode) {
    forall i, j :: 0 <= i < j < |planned| ==> FoldPath(planned[i].parts, unicode) != FoldPath(planned[j].parts, unicode)
  }

  /** No file is a proper ancestor of an entry. */
  ghost predicate FilesAreLeaves(planned: seq<Planned>, unicode: Unicode) {
    forall i, j :: 0 <= i < |planned| && 0 <= j < |planned| && !planned[i].entry.directory ==>
      !ProperPrefix(FoldPath(planned[i].parts, unicode), FoldPath(planned[j].parts, unicode))
  }

  /** What an archive must be like to be extracted. */
  ghost predicate Admissible(entries: seq<Entry>, limits: Limits, check: Check, unicode: Unicode) {
    && |entries| <= limits.maxEntries
    && AllAccepted(entries, check, |entries|)
    && FileBytes(entries, |entries|) <= limits.maxTotalBytes
    && DistinctPaths(Plan(entries, check, |entries|), unicode)
    && FilesAreLeaves(Plan(entries, check, |entries|), unicode)
  }

  lemma MulSum(r: nat, a: nat, b: nat)
    ensures r * (a + b) == r * a + r * b
  {
  }

  /** The entries' own ratio checks imply the ratio check over the whole archive. */
  lemma {:induction false} AggregateRatioHolds(entries: seq<Entry>, limits: Limits, check: Check, n: nat)
    requires limits.Valid() && Bounding(check, limits)
    requires n <= |entries| && AllAccepted(entries, check, n)
    ensures FileBytes(entries, n) <= limits.maxRatio * PackedBytes(entries, n)
  {
    if n > 0 {
      AggregateRatioHolds(entries, limits, check, n - 1);
      var e := entries[n - 1];
      assert check(e).Ok?;
      MulSum(limits.maxRatio, PackedBytes(entries, n - 1), e.compressSize);
    }
  }

  lemma RatioOverMax(limits: Limits, total: nat, packed: nat)
    requires limits.Valid() && total <= limits.maxRatio * packed
    ensures total <= limits.maxRatio * Max(1, packed)
  {
  }

  /**
    Admission decides `Admissible`, apart from the deadline, which is checked before each entry;
    `deadline` is the number of entries that are looked at in time.
    */
  method ValidateZip(entries: seq<Entry>, limits: Limits, unicode: Unicode, deadline: nat)
    returns (r: Result<seq<Planned>, Refusal>)
    requires limits.Valid()
    ensures r.Ok? ==>
              && Admissible(entries, limits, EntryCheck(limits, unicode), unicode)
              && r.value == Plan(entries, EntryCheck(limits, unicode), |entries|)
    ensures r.Err? && r.error != TimedOut ==> !Admissible(entries, limits, EntryCheck(limits, unicode), unicode)
    ensures r == Err(TimedOut) ==> deadline < |entries|
  {
    EntryCheckBounds(limits, unicode);
    r := ValidateWith(entries, limits, EntryCheck(limits, unicode), unicode, deadline);
  }

  method ValidateWith(entries: seq<Entry>, limits: Limits, check: Check, unicode: Unicode, deadline: nat)
    returns (r: Result<seq<Planned>, Refusal>)
    requires limits.Valid() && Bounding(check, limits)
    requires forall e :: check(e) != Err(TimedOut)
    ensures r.Ok? ==> Admissible(entries, limits, check, unicode) && r.value == Plan(entries, check, |entries|)
    ensures r.Err? && r.error != TimedOut ==> !Admissible(entries, limits, check, unicode)
    ensures r == Err(TimedOut) ==> deadline < |entries|
  {
    if |entries| > limits.maxEntries {
      return Err(TooManyEntries);
    }
    var scanned, identities, totalUncompressed, totalCompressed :=
      ScanEntries(entries, limits, check, unicode, deadline);
    if scanned.Err? {
      return scanned;
    }
    if totalUncompressed > limits.maxTotalBytes {
      return Err(TooLarge);
    }
    AggregateRatioHolds(entries, limits, check, |entries|);
    RatioOverMax(limits, totalUncompressed, totalCompressed);
    if totalUncompressed > limits.maxRatio * Max(1, totalCompressed) {
      assert false;  // the entries' own checks already exclude this
    }
    ConflictIsReal(scanned.value, unicode, identities);
    if HasConflict(identities) {
      return Err(UnsafePath);
    }
    r := scanned;
  }

  /** The loop over the entries. */
  method ScanEntries(entries: seq<Entry>, ghost limits: Limits, check: Check, unicode: Unicode, deadline: nat)
    returns (r: Result<seq<Planned>, Refusal>, identities: map<Path, bool>,
             totalUncompressed: nat, totalCompressed: nat)
    requires forall e :: check(e) != Err(TimedOut)
    ensures r.Ok? ==> Scanned(entries, check, unicode, |entries|, r.value, identities)
    ensures r.Ok? ==> Totalled(entries, |entries|, totalUncompressed, totalCompressed)
    ensures r.Err? && r.error != TimedOut ==> !Admissible(entries, limits, check, unicode)
    ensures r == Err(TimedOut) ==> deadline < |entries|
  {
    var planned: seq<Planned> := [];
    identities := map[];
    totalUncompressed, totalCompressed := 0, 0;
    for i := 0 to |entries|
      invariant Scanned(entries, check, unicode, i, planned, identities)
      invariant Totalled(entries, i, totalUncompressed, totalCompressed)
    {
      if i >= deadline {
        r := Err(TimedOut);
        return;
      }
      var refusal: Option<Refusal>;
      refusal, planned, identities := ScanEntry(entries, limits, check, unicode, i, planned, identities);
      if refusal.Some? {
        r := Err(refusal.value);
        return;
      }
      totalUncompressed, totalCompressed := AddEntry(entries, i, totalUncompressed, totalCompressed);
    }
    r := Ok(planned);
  }

  ghost predicate Totalled(entries: seq<Entry>, n: nat, totalUncompressed: nat, totalCompressed: nat) {
    n <= |entries| && totalUncompressed == FileBytes(entries, n) && totalCompressed == PackedBytes(entries, n)
  }

  method AddEntry(entries: seq<Entry>, n: nat, totalUncompressed: nat, totalCompressed: nat)
    returns (totalUncompressed': nat, totalCompressed': nat)
    requires n < |entries| && Totalled(entries, n, totalUncompressed, totalCompressed)
    ensures Totalled(entries, n + 1, totalUncompressed', totalCompressed')
  {
    totalUncompressed', totalCompressed' := totalUncompressed, totalCompressed;
    if !entries[n].directory {
      totalUncompressed' := totalUncompressed + entries[n].fileSize;
      totalCompressed' := totalCompressed + entries[n].compressSize;
    }
  }

  ghost predicate Scanned(entries: seq<Entry>, check: Check, unicode: Unicode, n: nat,
                          planned: seq<Planned>, identities: map<Path, bool>)
  {
    && n <= |entries| && AllAccepted(entries, check, n)
    && planned == Plan(entries, check, n)
    && Identified(planned, unicode, identities)
  }

  /** One round of the loop, apart from the totals. */
  method ScanEntry(entries: seq<Entry>, ghost limits: Limits, check: Check, unicode: Unicode, n: nat,
                   planned: seq<Planned>, identities: map<Path, bool>)
    returns (refusal: Option<Refusal>, planned': seq<Planned>, identities': map<Path, bool>)
    requires n < |entries| && Scanned(entries, check, unicode, n, planned, identities)
    requires forall e :: check(e) != Err(TimedOut)
    ensures refusal.None? ==> Scanned(entries, check, unicode, n + 1, planned', identities')
    ensures refusal.Some? ==> refusal.value != TimedOut && !Admissible(entries, limits, check, unicode)
  {
    planned', identities' := planned, identities;
    var admitted, after := AdmitEntry(entries, limits, check, unicode, n, planned, identities);
    if admitted.Err? {
      refusal := Some(admitted.error);
    } else {
      refusal, planned', identities' := None, planned + [admitted.value], after;
    }
  }

  /** Checks entry `n` and enters its folded path among the identities. */
  method AdmitEntry(entries: seq<Entry>, ghost limits: Limits, check: Check, unicode: Unicode, n: nat,
                    ghost planned: seq<Planned>, identities: map<Path, bool>)
    returns (r: Result<Planned, Refusal>, identities': map<Path, bool>)
    requires n < |entries| && Scanned(entries, check, unicode, n, planned, identities)
    requires forall e :: check(e) != Err(TimedOut)
    ensures r.Ok? ==> Scanned(entries, check, unicode, n + 1, planned + [r.value], identities')
    ensures r.Err? ==> r.error != TimedOut && !Admissible(entries, limits, check, unicode)
  {
    identities' := identities;
    var info := entries[n];
    var checked := check(info);
    if checked.Err? {
      return Err(checked.error), identities';
    }
    var identity := FoldPath(checked.value, unicode);
    if identity in identities {
      CollisionIsReal(entries, limits, check, unicode, planned, identities, n);
      return Err(UnsafePath), identities';
    }
    IdentifyNext(planned, unicode, identities, Planned(info, checked.value));
    identities' := identities[identity := info.directory];
    r := Ok(Planned(info, checked.value));
    assert planned + [r.value] == Plan(entries, check, n + 1);
  }

  /** Some identity has a file for a parent directory. */
  predicate HasConflict(identities: map<Path, bool>) {
    exists identity, n | identity in identities && 0 < n < |identity| ::
      identity[..n] in identities && !identities[identity[..n]]
  }

  /** The identities seen so far are those of the planned entries, all different. */
  ghost predicate Identified(planned: seq<Planned>, unicode: Unicode, identities: map<Path, bool>) {
    && DistinctPaths(planned, unicode)
    && (forall i :: 0 <= i < |planned| ==>
          && FoldPath(planned[i].parts, unicode) in identities
          && identities[FoldPath(planned[i].parts, unicode)] == planned[i].entry.directory)
    && (forall p :: p in identities ==> exists i :: 0 <= i < |planned| && FoldPath(planned[i].parts, unicode) == p)
  }

  lemma IdentifyNext(planned: seq<Planned>, unicode: Unicode, identities: map<Path, bool>, next: Planned)
    requires Identified(planned, unicode, identities)
    requires FoldPath(next.parts, unicode) !in identities
    ensures Identified(planned + [next], unicode, identities[FoldPath(next.parts, unicode) := next.entry.directory])
  {
    var after := planned + [next];
    assert after[|planned|] == next;
    forall p | p in identities
      ensures exists i :: 0 <= i < |after| && FoldPath(after[i].parts, unicode) == p
    {
      var i :| 0 <= i < |planned| && FoldPath(planned[i].parts, unicode) == p;
      assert after[i] == planned[i];
    }
  }

  lemma CollisionIsReal(entries: seq<Entry>, limits: Limits, check: Check, unicode: Unicode, planned: seq<Planned>,
                        identities: map<Path, bool>, n: nat)
    requires n < |entries| && AllAccepted(entries, check, n + 1)
    requires planned == Plan(entries, check, n) && Identified(planned, unicode, identities)
    requires FoldPath(check(entries[n]).value, unicode) in identities
    ensures !Admissible(entries, limits, check, unicode)
  {
    var identity := FoldPath(check(entries[n]).value, unicode);
    var i :| 0 <= i < n && FoldPath(planned[i].parts, unicode) == identity;
    if AllAccepted(entries, check, |entries|) {
      var whole := Plan(entries, check, |entries|);
      assert whole[i] == planned[i];
      assert FoldPath(whole[i].parts, unicode) == FoldPath(whole[n].parts, unicode);
    }
  }

  lemma ConflictIsReal(planned: seq<Planned>, unicode: Unicode, identities: map<Path, bool>)
    requires Identified(planned, unicode, identities)
    requires forall i :: 0 <= i < |planned| ==> |planned[i].parts| > 0
    ensures FilesAreLeaves(planned, unicode) <==> !HasConflict(identities)
  {
    forall identity, n | identity in identities && 0 < n < |identity| && FilesAreLeaves(planned, unicode)
      ensures !(identity[..n] in identities && !identities[identity[..n]])
    {
      var j :| 0 <= j < |planned| && FoldPath(planned[j].parts, unicode) == identity;
      if identity[..n] in identities {
        var i :| 0 <= i < |planned| && FoldPath(planned[i].parts, unicode) == identity[..n];
        assert ProperPrefix(identity[..n], identity);
      }
    }
    forall i, j | && 0 <= i < |planned| && 0 <= j < |planned| && !planned[i].entry.directory
                  && ProperPrefix(FoldPath(planned[i].parts, unicode), FoldPath(planned[j].parts, unicode))
      ensures HasConflict(identities)
    {
      var identity, n := FoldPath(planned[j].parts, unicode), |planned[i].parts|;
      assert identity[..n] == FoldPath(planned[i].parts, unicode);
    }
  }
}
