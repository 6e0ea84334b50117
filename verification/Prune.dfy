/**
  Prune: the removal of kernels, images and left-over downloads that no virtual machine refers to, and the
  preview of it.

  What the outside world does is `Weather`: before each candidate other tasks may change the files, the target
  lock may be held, the file system may fail, and the repository may refuse to drop the row.
*/
module Prune {
  import opened Wrappers
  import opened Bounds
  import opened Ordering
  import opened Keys
  import Cache

  /** A kernel or image with its download row. */
  datatype Listed = Listed(artifact: Artifact, path: string, belowHome: bool, size: nat)

  /** A download row without the kernel or image it was for. */
  datatype Orphan = Orphan(artifactType: ArtifactType, key: string, path: string, belowHome: bool, size: nat)

  /** What the repository lists. */
  datatype Inventory = Inventory(kernels: seq<Listed>, images: seq<Listed>, orphans: seq<Orphan>)

  /** What prune considers; only an orphan may be without identity. */
  datatype Candidate = Candidate(artifact: Option<Artifact>, key: string, path: string, belowHome: bool, size: nat)

  function FromListed(row: Listed): Candidate {
    Candidate(Some(row.artifact), KeyOf(row.artifact), row.path, row.belowHome, row.size)
  }

  /** An orphan is whatever its key can be parsed as. */
  function FromOrphan(row: Orphan): Candidate {
    Candidate(ParseIdentity(row.artifactType, row.key), row.key, row.path, row.belowHome, row.size)
  }

  /** The candidates in the order prune takes them: kernels, images, orphans. */
  function CandidatesOf(inv: Inventory): (cs: seq<Candidate>)
    ensures |cs| == |inv.kernels| + |inv.images| + |inv.orphans|
  {
    seq(|inv.kernels|, i requires 0 <= i < |inv.kernels| => FromListed(inv.kernels[i]))
    + seq(|inv.images|, i requires 0 <= i < |inv.images| => FromListed(inv.images[i]))
    + seq(|inv.orphans|, i requires 0 <= i < |inv.orphans| => FromOrphan(inv.orphans[i]))
  }

  /** The candidates are the rows, one by one and in order, with what each row says. */
  lemma CandidatesAreTheRows(inv: Inventory, i: nat)
    requires i < |CandidatesOf(inv)|
    ensures var c, k, l := CandidatesOf(inv)[i], |inv.kernels|, |inv.kernels| + |inv.images|;
            if i < k then IsListed(c, inv.kernels[i]) else if i < l then IsListed(c, inv.images[i - k])
            else
              var o := inv.orphans[i - l];
              && c.artifact == ParseIdentity(o.artifactType, o.key) && c.key == o.key
              && (c.path, c.belowHome, c.size) == (o.path, o.belowHome, o.size)
  {
  }

  ghost predicate IsListed(c: Candidate, row: Listed) {
    && c.artifact == Some(row.artifact) && c.key == KeyOf(row.artifact)
    && (c.path, c.belowHome, c.size) == (row.path, row.belowHome, row.size)
  }

  datatype Entry = RegularFile(size: nat) | OtherEntry

  type Files = map<string, Entry>

  datatype Trouble = Calm | LockHeld | IoFailure

  /** What `delete_*_if_unreferenced` answers. */
  datatype RowReply = Dropped | StillReferenced | RowFailure

  datatype Weather = Weather(others: int -> Option<Files>, trouble: int -> Trouble, rows: int -> RowReply)

  /** What became of a candidate. */
  datatype Fate =
    | Protected
    | Removed(artifact: Artifact, freed: nat)
    | Untouched
    | Skipped(key: string)
    | Failed(key: string)

  datatype FileOutcome = FileSkipped | FileFailure | FileAbsent | FileRemoved(freed: nat)

  // ---------------------------------------------------------------------------------------------------
  // One candidate
  // ---------------------------------------------------------------------------------------------------

  class Disk {
    var files: Files

    constructor (files: Files)
      ensures this.files == files
    {
      this.files := files;
    }

    /** `delete_prune_file`. */
    method Delete(c: Candidate, trouble: Trouble) returns (r: FileOutcome)
      modifies this
      ensures r.FileRemoved? <==>
        c.belowHome && trouble == Calm && c.path in old(files) && old(files)[c.path].RegularFile?
      ensures r.FileRemoved? ==> old(files)[c.path] == RegularFile(r.freed) && files == old(files) - {c.path}
      ensures r.FileAbsent? <==> c.belowHome && trouble == Calm && c.path !in old(files)
      ensures r.FileSkipped? <==> c.belowHome && trouble == LockHeld
      ensures !r.FileRemoved? ==> files == old(files)
    {
      if !c.belowHome { return FileFailure; }
      if trouble == LockHeld { return FileSkipped; }
      if trouble == IoFailure { return FileFailure; }
      if c.path !in files { return FileAbsent; }
      if files[c.path].OtherEntry? { return FileFailure; }
      r := FileRemoved(files[c.path].size);
      files := files - {c.path};
    }
  }

  function OutcomeOf(c: Candidate, trouble: Trouble, files: Files): FileOutcome {
    if !c.belowHome then FileFailure
    else if trouble == LockHeld then FileSkipped
    else if trouble == IoFailure then FileFailure
    else if c.path !in files then FileAbsent
    else if files[c.path].OtherEntry? then FileFailure
    else FileRemoved(files[c.path].size)
  }

  function FateOf(c: Candidate, references: set<Artifact>, trouble: Trouble, row: RowReply, files: Files): Fate {
    if c.artifact.None? then Failed(c.key)
    else if c.artifact.value in references then Protected
    else match OutcomeOf(c, trouble, files)
      case FileSkipped => Skipped(c.key)
      case FileFailure => Failed(c.key)
      case FileAbsent =>
        (match row
         case Dropped => Removed(c.artifact.value, 0)
         case StillReferenced => Untouched
         case RowFailure => Failed(c.key))
      case FileRemoved(freed) =>
        if row == Dropped then Removed(c.artifact.value, freed) else Failed(c.key)
  }

  /** The files after a candidate was dealt with. */
  function FilesAfter(c: Candidate, references: set<Artifact>, trouble: Trouble, files: Files): Files {
    if c.artifact.Some? && c.artifact.value !in references && OutcomeOf(c, trouble, files).FileRemoved?
    then files - {c.path} else files
  }

  // ---------------------------------------------------------------------------------------------------
  // The summary
  // ---------------------------------------------------------------------------------------------------

  function RemovedKernels(log: seq<Fate>): seq<string> {
    if log == [] then []
    else
      var last := log[|log| - 1];
      RemovedKernels(log[..|log| - 1])
        + if last.Removed? && last.artifact.KernelId? then [last.artifact.id] else []
  }

  function RemovedImages(log: seq<Fate>): seq<(string, string)> {
    if log == [] then []
    else
      var last := log[|log| - 1];
      RemovedImages(log[..|log| - 1])
        + if last.Removed? && last.artifact.ImageId? then [last.artifact.pair] else []
  }

  function SkippedKeys(log: seq<Fate>): seq<string> {
    if log == [] then []
    else SkippedKeys(log[..|log| - 1]) + if log[|log| - 1].Skipped? then [log[|log| - 1].key] else []
  }

  function FailedKeys(log: seq<Fate>): seq<string> {
    if log == [] then []
    else FailedKeys(log[..|log| - 1]) + if log[|log| - 1].Failed? then [log[|log| - 1].key] else []
  }

  /** The bytes freed for removed kernels, or for removed images. */
  function Freed(log: seq<Fate>, kernels: bool): nat {
    if log == [] then 0
    else
      var last := log[|log| - 1];
      Freed(log[..|log| - 1], kernels)
        + if last.Removed? && last.artifact.KernelId? == kernels then last.freed else 0
  }

  function SaturatingAdd(a: nat, b: nat): nat {
    Saturated(a + b)
  }

  class Summary {
    var removedKernels: seq<string>
    var removedImages: seq<(string, string)>
    var skipped: seq<string>
    var failures: seq<string>
    var freedKernels: nat
    var freedImages: nat
    ghost var log: seq<Fate>

    /** Every entry comes from exactly one fate, in order. */
    ghost predicate Valid()
      reads this
    {
      && removedKernels == RemovedKernels(log) && removedImages == RemovedImages(log)
      && skipped == SkippedKeys(log) && failures == FailedKeys(log)
      && freedKernels == Saturated(Freed(log, true)) && freedImages == Saturated(Freed(log, false))
    }

    constructor ()
      ensures Valid() && log == []
    {
      removedKernels, removedImages, skipped, failures := [], [], [], [];
      freedKernels, freedImages, log := 0, 0, [];
    }

    method Skip(key: string)
      requires Valid()
      modifies this
      ensures Valid() && log == old(log) + [Fate.Skipped(key)]
    {
      log := log + [Fate.Skipped(key)];
      assert log[..|log| - 1] == old(log);
      skipped := skipped + [key];
    }

    method Fail(key: string)
      requires Valid()
      modifies this
      ensures Valid() && log == old(log) + [Fate.Failed(key)]
    {
      log := log + [Fate.Failed(key)];
      assert log[..|log| - 1] == old(log);
      failures := failures + [key];
    }

    method Remove(artifact: Artifact, freed: nat)
      requires Valid()
      modifies this
      ensures Valid() && log == old(log) + [Removed(artifact, freed)]
    {
      log := log + [Removed(artifact, freed)];
      assert log[..|log| - 1] == old(log);
      match artifact
      case KernelId(id) =>
        removedKernels, freedKernels := removedKernels + [id], SaturatingAdd(freedKernels, freed);
      case ImageId(pair) =>
        removedImages, freedImages := removedImages + [pair], SaturatingAdd(freedImages, freed);
    }

    /** A candidate that leaves no trace in the summary. */
    ghost method Pass(fate: Fate)
      requires Valid() && (fate.Protected? || fate.Untouched?)
      modifies this`log
      ensures Valid() && log == old(log) + [fate]
    {
      log := log + [fate];
      assert log[..|log| - 1] == old(log);
    }
  }

  /** `prune_kernel_candidate`, `prune_image_candidate` and `prune_orphan_candidate`. */
  method PruneCandidate(c: Candidate, references: set<Artifact>, trouble: Trouble, row: RowReply, disk: Disk,
                        s: Summary)
    requires s.Valid()
    modifies disk, s
    ensures s.Valid() && s.log == old(s.log) + [FateOf(c, references, trouble, row, old(disk.files))]
    ensures disk.files == FilesAfter(c, references, trouble, old(disk.files))
  {
    if c.artifact.None? {
      s.Fail(c.key);
      return;
    }
    if c.artifact.value in references {
      s.Pass(Protected);
      return;
    }
    var outcome := disk.Delete(c, trouble);
    match outcome
    case FileSkipped => s.Skip(c.key);
    case FileFailure => s.Fail(c.key);
    case FileAbsent =>
      match row {
        case Dropped => s.Remove(c.artifact.value, 0);
        case StillReferenced => s.Pass(Untouched);
        case RowFailure => s.Fail(c.key);
      }
    case FileRemoved(freed) =>
      if row == Dropped { s.Remove(c.artifact.value, freed); } else { s.Fail(c.key); }
  }

  // ---------------------------------------------------------------------------------------------------
  // The whole operation
  // ---------------------------------------------------------------------------------------------------

  /** The files as candidate `i` finds them. */
  ghost function FilesAt(cs: seq<Candidate>, references: set<Artifact>, w: Weather, files: Files, i: nat): Files
    requires i <= |cs|
  {
    var before := if i == 0 then files
                  else FilesAfter(cs[i - 1], references, w.trouble(i - 1), FilesAt(cs, references, w, files, i - 1));
    if w.others(i).Some? then w.others(i).value else before
  }

  ghost function FateAt(cs: seq<Candidate>, references: set<Artifact>, w: Weather, files: Files, i: nat): Fate
    requires i < |cs|
  {
    FateOf(cs[i], references, w.trouble(i), w.rows(i), FilesAt(cs, references, w, files, i))
  }

  ghost function FatesUpTo(cs: seq<Candidate>, references: set<Artifact>, w: Weather, files: Files, n: nat): seq<Fate>
    requires n <= |cs|
  {
    if n == 0 then []
    else FatesUpTo(cs, references, w, files, n - 1) + [FateAt(cs, references, w, files, n - 1)]
  }

  /** The fates of the first `n` candidates. */
  ghost predicate FatesAre(cs: seq<Candidate>, references: set<Artifact>, w: Weather, files: Files, n: nat,
                           log: seq<Fate>) {
    n <= |cs| && log == FatesUpTo(cs, references, w, files, n)
  }

  lemma {:induction false} FateIsLogged(cs: seq<Candidate>, references: set<Artifact>, w: Weather, files: Files, n: nat,
                                        i: nat)
    requires i < n <= |cs|
    ensures var log := FatesUpTo(cs, references, w, files, n);
            |log| == n && log[i] == FateAt(cs, references, w, files, i)
  {
    if n > 1 {
      FateIsLogged(cs, references, w, files, n - 1, if i < n - 1 then i else 0);
    }
  }

  lemma {:induction false} LogIsComplete(cs: seq<Candidate>, references: set<Artifact>, w: Weather, files: Files,
                                         log: seq<Fate>)
    requires FatesAre(cs, references, w, files, |cs|, log)
    ensures |log| == |cs| && forall i | 0 <= i < |cs| :: log[i] == FateAt(cs, references, w, files, i)
  {
    forall i | 0 <= i < |cs| ensures |log| == |cs| && log[i] == FateAt(cs, references, w, files, i) {
      FateIsLogged(cs, references, w, files, |cs|, i);
    }
  }

  datatype PruneResult =
    | Pruned(kernels: seq<string>, images: seq<(string, string)>, skipped: seq<string>, freed: nat)
    | Incomplete(kernels: seq<string>, images: seq<(string, string)>, skipped: seq<string>, freed: nat,
                 failures: seq<string>)
    | BytesOverflow

  /** What the caller is told, given the fates of the candidates. */
  ghost predicate Tells(r: PruneResult, log: seq<Fate>) {
    var freed := Saturated(Freed(log, true)) + Saturated(Freed(log, false));
    && (r.BytesOverflow? <==> freed > U64_MAX)
    && (!r.BytesOverflow? ==>
          && r.freed == freed
          && r.kernels == SortBy(RemovedKernels(log), Less)
          && r.images == SortBy(RemovedImages(log), PairLess)
          && r.skipped == SortBy(SkippedKeys(log), Less)
          && (r.Pruned? <==> FailedKeys(log) == [])
          && (r.Incomplete? ==> r.failures == FailedKeys(log)))
  }

  /**
    `prune_unused_artifacts`. When the freed bytes of the two kinds do not fit 64 bits together, the caller is told
    nothing else.
  */
  method PruneUnused(inv: Inventory, references: set<Artifact>, w: Weather, disk: Disk)
    returns (r: PruneResult, ghost log: seq<Fate>)
    modifies disk
    ensures FatesAre(CandidatesOf(inv), references, w, old(disk.files), |CandidatesOf(inv)|, log)
    ensures disk.files == FilesAt(CandidatesOf(inv), references, w, old(disk.files), |CandidatesOf(inv)|)
    ensures Tells(r, log)
  {
    r, log := PruneCandidates(CandidatesOf(inv), |inv.kernels|, |inv.images|, references, w, disk);
  }

  method PruneCandidates(cs: seq<Candidate>, k: nat, i: nat, references: set<Artifact>, w: Weather, disk: Disk)
    returns (r: PruneResult, ghost log: seq<Fate>)
    requires k + i <= |cs|
    modifies disk
    ensures FatesAre(cs, references, w, old(disk.files), |cs|, log)
    ensures disk.files == FilesAt(cs, references, w, old(disk.files), |cs|)
    ensures Tells(r, log)
  {
    var s := new Summary();
    PruneLoops(cs, k, i, references, w, disk, s);
    log := s.log;
    r := Conclude(s);
  }

  /** The three loops, over `k` kernels, then `i` images, then the orphans. */
  method PruneLoops(cs: seq<Candidate>, k: nat, i: nat, references: set<Artifact>, w: Weather, disk: Disk, s: Summary)
    requires k + i <= |cs| && s.Valid() && s.log == []
    modifies disk, s
    ensures s.Valid() && FatesAre(cs, references, w, old(disk.files), |cs|, s.log)
    ensures disk.files == FilesAt(cs, references, w, old(disk.files), |cs|)
  {
    ghost var files := disk.files;
    if w.others(0).Some? { disk.files := w.others(0).value; }
    PruneRange(cs, 0, k, references, w, disk, s, files);
    PruneRange(cs, k, k + i, references, w, disk, s, files);
    PruneRange(cs, k + i, |cs|, references, w, disk, s, files);
  }

  /** One of the three loops. */
  method PruneRange(cs: seq<Candidate>, from: nat, to: nat, references: set<Artifact>, w: Weather, disk: Disk,
                    s: Summary, ghost files: Files)
    requires from <= to <= |cs|
    requires s.Valid() && FatesAre(cs, references, w, files, from, s.log)
    requires disk.files == FilesAt(cs, references, w, files, from)
    modifies disk, s
    ensures s.Valid() && FatesAre(cs, references, w, files, to, s.log)
    ensures disk.files == FilesAt(cs, references, w, files, to)
  {
    for i := from to to
      invariant s.Valid() && FatesAre(cs, references, w, files, i, s.log)
      invariant disk.files == FilesAt(cs, references, w, files, i)
    {
      PruneNth(cs, i, references, w, disk, s, files);
    }
  }

  method PruneNth(cs: seq<Candidate>, i: nat, references: set<Artifact>, w: Weather, disk: Disk, s: Summary,
                  ghost files: Files)
    requires i < |cs| && s.Valid() && FatesAre(cs, references, w, files, i, s.log)
    requires disk.files == FilesAt(cs, references, w, files, i)
    modifies disk, s
    ensures s.Valid() && FatesAre(cs, references, w, files, i + 1, s.log)
    ensures disk.files == FilesAt(cs, references, w, files, i + 1)
  {
    PruneCandidate(cs[i], references, w.trouble(i), w.rows(i), disk, s);
    if w.others(i + 1).Some? { disk.files := w.others(i + 1).value; }
  }

  /** Its end: sort, add up, and choose between the summary and an error. */
  method Conclude(s: Summary) returns (r: PruneResult)
    requires s.Valid()
    ensures Tells(r, s.log)
  {
    var kernels, images := SortBy(s.removedKernels, Less), SortBy(s.removedImages, PairLess);
    var skipped := SortBy(s.skipped, Less);
    var freed := s.freedKernels + s.freedImages;
    if freed > U64_MAX { return BytesOverflow; }
    if s.failures == [] { return Pruned(kernels, images, skipped, freed); }
    return Incomplete(kernels, images, skipped, freed, s.failures);
  }

  // ---------------------------------------------------------------------------------------------------
  // The preview
  // ---------------------------------------------------------------------------------------------------

  predicate Prunable(c: Candidate, references: set<Artifact>) {
    c.artifact.Some? && c.artifact.value !in references
  }

  function Estimate(cs: seq<Candidate>, references: set<Artifact>): nat {
    if cs == [] then 0
    else
      var last := cs[|cs| - 1];
      Estimate(cs[..|cs| - 1], references) + if Prunable(last, references) then last.size else 0
  }

  ghost predicate Offers(cs: seq<Candidate>, references: set<Artifact>, a: Artifact) {
    exists c | c in cs :: Prunable(c, references) && c.artifact == Some(a)
  }

  /** `list_prune_candidates`: only an orphan is checked against what is already listed. */
  method ListPruneCandidates(inv: Inventory, references: set<Artifact>)
    returns (kernels: seq<string>, images: seq<(string, string)>, estimate: nat)
    ensures forall id :: id in kernels <==> Offers(CandidatesOf(inv), references, KernelId(id))
    ensures forall pair :: pair in images <==> Offers(CandidatesOf(inv), references, ImageId(pair))
    ensures estimate == Saturated(Estimate(CandidatesOf(inv), references))
    ensures Sorted(kernels, Less) && Sorted(images, PairLess)
  {
    kernels, images, estimate := Preview(CandidatesOf(inv), |inv.kernels| + |inv.images|, references);
  }

  method Preview(cs: seq<Candidate>, listed: nat, references: set<Artifact>)
    returns (kernels: seq<string>, images: seq<(string, string)>, estimate: nat)
    ensures forall id :: id in kernels <==> Offers(cs, references, KernelId(id))
    ensures forall pair :: pair in images <==> Offers(cs, references, ImageId(pair))
    ensures estimate == Saturated(Estimate(cs, references))
    ensures Sorted(kernels, Less) && Sorted(images, PairLess)
  {
    kernels, images, estimate := [], [], 0;
    for i := 0 to |cs|
      invariant forall id :: id in kernels <==> Offers(cs[..i], references, KernelId(id))
      invariant forall pair :: pair in images <==> Offers(cs[..i], references, ImageId(pair))
      invariant estimate == Saturated(Estimate(cs[..i], references))
    {
      assert cs[..i + 1] == cs[..i] + [cs[i]];
      assert cs[..i + 1][..i] == cs[..i];
      forall a ensures Offers(cs[..i + 1], references, a) <==>
                       Offers(cs[..i], references, a) || (Prunable(cs[i], references) && cs[i].artifact == Some(a)) {
        OffersGrows(cs[..i], cs[i], references, a);
      }
      if Prunable(cs[i], references) {
        estimate := SaturatingAdd(estimate, cs[i].size);
        match cs[i].artifact.value {
          case KernelId(id) => if i < listed || id !in kernels { kernels := kernels + [id]; }
          case ImageId(pair) => if i < listed || pair !in images { images := images + [pair]; }
        }
      }
    }
    assert cs[..|cs|] == cs;
    SortKeepsStrings(kernels);
    SortKeepsPairs(images);
    kernels, images := SortBy(kernels, Less), SortBy(images, PairLess);
  }

  lemma OffersGrows(cs: seq<Candidate>, c: Candidate, references: set<Artifact>, a: Artifact)
    ensures Offers(cs + [c], references, a) <==>
            Offers(cs, references, a) || (Prunable(c, references) && c.artifact == Some(a))
  {
    assert c in cs + [c];
  }

  lemma SortKeepsStrings(s: seq<string>)
    ensures |SortBy(s, Less)| == |s| && SameElements(SortBy(s, Less), s)
    ensures Sorted(SortBy(s, Less), Less)
  {
    LessIsTotal();
    SortBySorts(s, Less);
    SortKeepsElements(s, Less);
  }

  lemma SortKeepsPairs(s: seq<(string, string)>)
    ensures |SortBy(s, PairLess)| == |s| && SameElements(SortBy(s, PairLess), s)
    ensures Sorted(SortBy(s, PairLess), PairLess)
  {
    PairLessIsTotal();
    SortBySorts(s, PairLess);
    SortKeepsElements(s, PairLess);
  }

  lemma SortKeepsElements<T(!new)>(s: seq<T>, less: (T, T) -> bool)
    requires StrictWeak(less)
    ensures |SortBy(s, less)| == |s| && forall x :: x in SortBy(s, less) <==> x in s
  {
    SortBySorts(s, less);
    assert |SortBy(s, less)| == |multiset(SortBy(s, less))| == |multiset(s)| == |s|;
    assert forall x :: x in SortBy(s, less) <==> x in multiset(s);
  }

  // ---------------------------------------------------------------------------------------------------
  // What prune promises
  // ---------------------------------------------------------------------------------------------------

  /** No trouble, and the path holds nothing or a regular file. */
  ghost predicate Deletable(c: Candidate, trouble: Trouble, found: Files) {
    c.belowHome && trouble == Calm && (c.path in found ==> found[c.path].RegularFile?)
  }

  /** Candidate `i` was not referred to, its file could go, and its row was dropped. */
  ghost predicate GoesAway(cs: seq<Candidate>, references: set<Artifact>, w: Weather, files: Files, i: int) {
    && 0 <= i < |cs| && Prunable(cs[i], references)
    && Deletable(cs[i], w.trouble(i), FilesAt(cs, references, w, files, i)) && w.rows(i) == Dropped
  }

  /** Another task held its lock. */
  ghost predicate StaysLocked(cs: seq<Candidate>, references: set<Artifact>, w: Weather, i: int) {
    && 0 <= i < |cs| && Prunable(cs[i], references) && cs[i].belowHome && w.trouble(i) == LockHeld
  }

  /** It has no identity; or it is not referred to and its file or, once there was one to delete, its row resisted. */
  ghost predicate Resists(cs: seq<Candidate>, references: set<Artifact>, w: Weather, files: Files, i: int) {
    && 0 <= i < |cs| && !StaysLocked(cs, references, w, i)
    && (|| cs[i].artifact.None?
        || (Prunable(cs[i], references)
            && var found := FilesAt(cs, references, w, files, i);
               || !Deletable(cs[i], w.trouble(i), found)
               || w.rows(i) == RowFailure
               || (w.rows(i) == StillReferenced && cs[i].path in found)))
  }

  /** The size of the file that candidate `i` found at its path, if it found one. */
  ghost function ObservedSize(cs: seq<Candidate>, references: set<Artifact>, w: Weather, files: Files, i: nat): nat
    requires i < |cs|
  {
    var found := FilesAt(cs, references, w, files, i);
    if cs[i].path in found && found[cs[i].path].RegularFile? then found[cs[i].path].size else 0
  }

  lemma {:induction false} FateMeans(cs: seq<Candidate>, references: set<Artifact>, w: Weather, files: Files, i: nat)
    requires i < |cs|
    ensures var fate := FateAt(cs, references, w, files, i);
            && (fate.Removed? <==> GoesAway(cs, references, w, files, i))
            && (fate.Removed? ==>
                  cs[i].artifact == Some(fate.artifact) && fate.freed == ObservedSize(cs, references, w, files, i))
            && (fate.Skipped? <==> StaysLocked(cs, references, w, i))
            && (fate.Failed? <==> Resists(cs, references, w, files, i))
            && (fate.Skipped? || fate.Failed? ==> fate.key == cs[i].key)
  {
  }

  /** How many of the numbers below `n` satisfy `p`. */
  ghost function Tally(n: nat, p: int -> bool): nat {
    if n == 0 then 0 else Tally(n - 1, p) + if p(n - 1) then 1 else 0
  }

  /** The sum of `size` over those. */
  ghost function SumOver(n: nat, p: int -> bool, size: int -> nat): nat {
    if n == 0 then 0 else SumOver(n - 1, p, size) + if p(n - 1) then size(n - 1) else 0
  }

  lemma {:induction false} EntriesAreTallied(log: seq<Fate>, removed: int -> bool, skipped: int -> bool,
                                             failed: int -> bool)
    requires forall i | 0 <= i < |log| :: removed(i) == log[i].Removed?
    requires forall i | 0 <= i < |log| :: skipped(i) == log[i].Skipped?
    requires forall i | 0 <= i < |log| :: failed(i) == log[i].Failed?
    ensures |RemovedKernels(log)| + |RemovedImages(log)| == Tally(|log|, removed)
    ensures |SkippedKeys(log)| == Tally(|log|, skipped)
    ensures |FailedKeys(log)| == Tally(|log|, failed)
  {
    if log != [] {
      EntriesAreTallied(log[..|log| - 1], removed, skipped, failed);
    }
  }

  lemma {:induction false} FreedIsSummed(log: seq<Fate>, kernels: bool, removed: int -> bool, size: int -> nat)
    requires forall i | 0 <= i < |log| ::
               removed(i) == (log[i].Removed? && log[i].artifact.KernelId? == kernels)
    requires forall i | 0 <= i < |log| && log[i].Removed? :: size(i) == log[i].freed
    ensures Freed(log, kernels) == SumOver(|log|, removed, size)
  {
    if log != [] {
      FreedIsSummed(log[..|log| - 1], kernels, removed, size);
    }
  }

  lemma {:induction false} KeysMean(log: seq<Fate>)
    ensures forall key :: key in SkippedKeys(log) <==> exists i | 0 <= i < |log| :: log[i] == Fate.Skipped(key)
    ensures forall key :: key in FailedKeys(log) <==> exists i | 0 <= i < |log| :: log[i] == Fate.Failed(key)
  {
    if log != [] {
      KeysMean(log[..|log| - 1]);
    }
  }

  lemma {:induction false} RemovedMeans(log: seq<Fate>)
    ensures forall id :: id in RemovedKernels(log) <==>
              exists i | 0 <= i < |log| :: log[i].Removed? && log[i].artifact == KernelId(id)
    ensures forall pair :: pair in RemovedImages(log) <==>
              exists i | 0 <= i < |log| :: log[i].Removed? && log[i].artifact == ImageId(pair)
  {
    if log != [] {
      RemovedMeans(log[..|log| - 1]);
    }
  }

  ghost function WhoGoes(cs: seq<Candidate>, references: set<Artifact>, w: Weather, files: Files): int -> bool {
    i => GoesAway(cs, references, w, files, i)
  }

  /** Those that go as kernels, or as images. */
  ghost function WhoGoesAs(cs: seq<Candidate>, references: set<Artifact>, w: Weather, files: Files, kernels: bool)
    : int -> bool
  {
    i => GoesAway(cs, references, w, files, i) && cs[i].artifact.value.KernelId? == kernels
  }

  /** The bytes found at the paths of those. */
  ghost function BytesOf(cs: seq<Candidate>, references: set<Artifact>, w: Weather, files: Files, kernels: bool): nat {
    SumOver(|cs|, WhoGoesAs(cs, references, w, files, kernels), SizesSeen(cs, references, w, files))
  }

  ghost function WhoIsLocked(cs: seq<Candidate>, references: set<Artifact>, w: Weather): int -> bool {
    i => StaysLocked(cs, references, w, i)
  }

  ghost function WhoResists(cs: seq<Candidate>, references: set<Artifact>, w: Weather, files: Files): int -> bool {
    i => Resists(cs, references, w, files, i)
  }

  ghost function SizesSeen(cs: seq<Candidate>, references: set<Artifact>, w: Weather, files: Files): int -> nat {
    i => if 0 <= i < |cs| then ObservedSize(cs, references, w, files, i) else 0
  }

  /** An artifact is reported as removed exactly when a candidate of that identity went away. */
  ghost predicate Vanished(cs: seq<Candidate>, references: set<Artifact>, w: Weather, files: Files, a: Artifact) {
    exists i | 0 <= i < |cs| :: GoesAway(cs, references, w, files, i) && cs[i].artifact == Some(a)
  }

  lemma {:induction false} VanishedMeans(cs: seq<Candidate>, references: set<Artifact>, w: Weather, files: Files,
                                         log: seq<Fate>, a: Artifact)
    requires FatesAre(cs, references, w, files, |cs|, log)
    ensures Vanished(cs, references, w, files, a) <==>
            exists i | 0 <= i < |log| :: log[i].Removed? && log[i].artifact == a
  {
    LogIsComplete(cs, references, w, files, log);
    forall i | 0 <= i < |cs|
      ensures log[i].Removed? <==> GoesAway(cs, references, w, files, i)
      ensures log[i].Removed? ==> cs[i].artifact == Some(log[i].artifact)
    {
      FateMeans(cs, references, w, files, i);
    }
  }

  /** A candidate of this key was locked, or resisted. */
  ghost predicate LockedUnder(cs: seq<Candidate>, references: set<Artifact>, w: Weather, key: string) {
    exists i | 0 <= i < |cs| :: StaysLocked(cs, references, w, i) && cs[i].key == key
  }

  ghost predicate ResistedUnder(cs: seq<Candidate>, references: set<Artifact>, w: Weather, files: Files, key: string) {
    exists i | 0 <= i < |cs| :: Resists(cs, references, w, files, i) && cs[i].key == key
  }

  lemma {:induction false} KeysAreReported(cs: seq<Candidate>, references: set<Artifact>, w: Weather, files: Files,
                                           log: seq<Fate>, key: string)
    requires FatesAre(cs, references, w, files, |cs|, log)
    ensures key in SkippedKeys(log) <==> LockedUnder(cs, references, w, key)
    ensures key in FailedKeys(log) <==> ResistedUnder(cs, references, w, files, key)
  {
    LogIsComplete(cs, references, w, files, log);
    KeysMean(log);
    forall i | 0 <= i < |cs|
      ensures log[i] == Fate.Skipped(key) <==> StaysLocked(cs, references, w, i) && cs[i].key == key
      ensures log[i] == Fate.Failed(key) <==> Resists(cs, references, w, files, i) && cs[i].key == key
    {
      FateMeans(cs, references, w, files, i);
    }
  }

  /** The freed bytes of each kind are those found at the paths of the candidates of that kind that went away. */
  lemma {:induction false} FreedIsFound(cs: seq<Candidate>, references: set<Artifact>, w: Weather, files: Files,
                                        log: seq<Fate>, kernels: bool)
    requires FatesAre(cs, references, w, files, |cs|, log)
    ensures Freed(log, kernels) == BytesOf(cs, references, w, files, kernels)
  {
    var goes, size := WhoGoesAs(cs, references, w, files, kernels), SizesSeen(cs, references, w, files);
    LogIsComplete(cs, references, w, files, log);
    forall i | 0 <= i < |cs|
      ensures goes(i) == (log[i].Removed? && log[i].artifact.KernelId? == kernels)
      ensures log[i].Removed? ==> size(i) == log[i].freed
    {
      FateMeans(cs, references, w, files, i);
    }
    FreedIsSummed(log, kernels, goes, size);
  }

  /** Prune answers with the overflow, and nothing else, exactly when the bytes of the two kinds do not fit together. */
  lemma {:induction false} OverflowExactly(cs: seq<Candidate>, references: set<Artifact>, w: Weather, files: Files,
                                           log: seq<Fate>, r: PruneResult)
    requires FatesAre(cs, references, w, files, |cs|, log) && Tells(r, log)
    ensures r.BytesOverflow? <==>
            Saturated(BytesOf(cs, references, w, files, true)) + Saturated(BytesOf(cs, references, w, files, false))
            > U64_MAX
  {
    FreedIsFound(cs, references, w, files, log, true);
    FreedIsFound(cs, references, w, files, log, false);
  }

  lemma {:induction false} EntriesAreCounted(cs: seq<Candidate>, references: set<Artifact>, w: Weather, files: Files,
                                             log: seq<Fate>)
    requires FatesAre(cs, references, w, files, |cs|, log)
    ensures |RemovedKernels(log)| + |RemovedImages(log)| == Tally(|cs|, WhoGoes(cs, references, w, files))
    ensures |SkippedKeys(log)| == Tally(|cs|, WhoIsLocked(cs, references, w))
    ensures |FailedKeys(log)| == Tally(|cs|, WhoResists(cs, references, w, files))
  {
    LogIsComplete(cs, references, w, files, log);
    forall i | 0 <= i < |cs|
      ensures WhoGoes(cs, references, w, files)(i) == log[i].Removed?
      ensures WhoIsLocked(cs, references, w)(i) == log[i].Skipped?
      ensures WhoResists(cs, references, w, files)(i) == log[i].Failed?
    {
      FateMeans(cs, references, w, files, i);
    }
    EntriesAreTallied(log, WhoGoes(cs, references, w, files), WhoIsLocked(cs, references, w),
                      WhoResists(cs, references, w, files));
  }

  /** The failures a caller is told of. */
  function FailuresOf(r: PruneResult): seq<string> {
    if r.Incomplete? then r.failures else []
  }

  /**
    What the caller of prune is told is what happened to the candidates: the reported artifacts are those of the
    candidates that went away, the skipped keys those of the locked ones and the failed keys those of the ones that
    resisted, with one entry for each of them; and the freed bytes are the exact sum of the sizes found at the paths
    of those that went away, unless that sum does not fit 64 bits.
  */
  lemma {:induction false} PruneIsHonest(cs: seq<Candidate>, references: set<Artifact>, w: Weather, files: Files,
                                         log: seq<Fate>, r: PruneResult)
    requires FatesAre(cs, references, w, files, |cs|, log) && Tells(r, log) && !r.BytesOverflow?
    ensures forall id :: id in r.kernels <==> Vanished(cs, references, w, files, KernelId(id))
    ensures forall pair :: pair in r.images <==> Vanished(cs, references, w, files, ImageId(pair))
    ensures forall key :: key in r.skipped <==> LockedUnder(cs, references, w, key)
    ensures forall key :: key in FailuresOf(r) <==> ResistedUnder(cs, references, w, files, key)
    ensures |r.kernels| + |r.images| == Tally(|cs|, WhoGoes(cs, references, w, files))
    ensures |r.skipped| == Tally(|cs|, WhoIsLocked(cs, references, w))
    ensures |FailuresOf(r)| == Tally(|cs|, WhoResists(cs, references, w, files))
    ensures r.freed == Saturated(BytesOf(cs, references, w, files, true) + BytesOf(cs, references, w, files, false))
  {
    EntriesAreCounted(cs, references, w, files, log);
    FreedIsFound(cs, references, w, files, log, true);
    FreedIsFound(cs, references, w, files, log, false);
    ToldIsLogged(r, log);
    RemovedMeans(log);
    forall a ensures Vanished(cs, references, w, files, a) <==>
                     exists i | 0 <= i < |log| :: log[i].Removed? && log[i].artifact == a {
      VanishedMeans(cs, references, w, files, log, a);
    }
    forall key
      ensures key in SkippedKeys(log) <==> LockedUnder(cs, references, w, key)
      ensures key in FailedKeys(log) <==> ResistedUnder(cs, references, w, files, key)
    {
      KeysAreReported(cs, references, w, files, log, key);
    }
  }

  /** Two saturated sums that fit 64 bits together are the saturated whole. */
  lemma SaturationIsShared(a: nat, b: nat)
    requires Saturated(a) + Saturated(b) <= U64_MAX
    ensures Saturated(a) + Saturated(b) == Saturated(a + b)
  {
  }

  /** What is told is what was logged: sorting loses nothing. */
  lemma {:induction false} ToldIsLogged(r: PruneResult, log: seq<Fate>)
    requires Tells(r, log) && !r.BytesOverflow?
    ensures SameElements(r.kernels, RemovedKernels(log)) && |r.kernels| == |RemovedKernels(log)|
    ensures SameElements(r.images, RemovedImages(log)) && |r.images| == |RemovedImages(log)|
    ensures SameElements(r.skipped, SkippedKeys(log)) && |r.skipped| == |SkippedKeys(log)|
    ensures FailuresOf(r) == FailedKeys(log)
    ensures r.freed == Saturated(Freed(log, true) + Freed(log, false))
  {
    SortKeepsStrings(RemovedKernels(log));
    SortKeepsPairs(RemovedImages(log));
    SortKeepsStrings(SkippedKeys(log));
    SaturationIsShared(Freed(log, true), Freed(log, false));
  }

  /** The entries of a summary. */
  datatype Entries = Entries(kernels: seq<string>, images: seq<(string, string)>, skipped: seq<string>,
                             failed: seq<string>)

  function EntriesOf(log: seq<Fate>): Entries {
    Entries(RemovedKernels(log), RemovedImages(log), SkippedKeys(log), FailedKeys(log))
  }

  /**
    What one candidate adds to the summary: its identity if it went away, its key if it was locked or resisted, in
    that one list and nowhere else; and otherwise nothing. One that went away leaves nothing at its path.
  */
  lemma {:induction false} OneEntryEach(cs: seq<Candidate>, references: set<Artifact>, w: Weather, files: Files, i: nat)
    requires i < |cs|
    ensures var before := EntriesOf(FatesUpTo(cs, references, w, files, i));
            var after := EntriesOf(FatesUpTo(cs, references, w, files, i + 1));
            && (GoesAway(cs, references, w, files, i) ==>
                  after == match cs[i].artifact.value
                           case KernelId(id) => before.(kernels := before.kernels + [id])
                           case ImageId(pair) => before.(images := before.images + [pair]))
            && (StaysLocked(cs, references, w, i) ==> after == before.(skipped := before.skipped + [cs[i].key]))
            && (Resists(cs, references, w, files, i) ==> after == before.(failed := before.failed + [cs[i].key]))
            && (|| GoesAway(cs, references, w, files, i) || StaysLocked(cs, references, w, i)
                || Resists(cs, references, w, files, i) || after == before)
    ensures GoesAway(cs, references, w, files, i) && w.others(i + 1).None? ==>
              cs[i].path !in FilesAt(cs, references, w, files, i + 1)
  {
    FateMeans(cs, references, w, files, i);
    EntryOfFate(FatesUpTo(cs, references, w, files, i), FateAt(cs, references, w, files, i));
  }

  lemma {:induction false} EntryOfFate(log: seq<Fate>, fate: Fate)
    ensures var before, after := EntriesOf(log), EntriesOf(log + [fate]);
            match fate
            case Removed(KernelId(id), _) => after == before.(kernels := before.kernels + [id])
            case Removed(ImageId(pair), _) => after == before.(images := before.images + [pair])
            case Skipped(key) => after == before.(skipped := before.skipped + [key])
            case Failed(key) => after == before.(failed := before.failed + [key])
            case _ => after == before
  {
    assert (log + [fate])[..|log|] == log;
  }

  /** Nothing else changes the files, and the file of a protected candidate stays. */
  lemma {:induction false} OtherFilesStay(cs: seq<Candidate>, references: set<Artifact>, w: Weather, files: Files,
                                          n: nat, path: string)
    requires n <= |cs| && forall i | 0 <= i <= n :: w.others(i).None?
    requires forall i | 0 <= i < n && cs[i].path == path :: !Prunable(cs[i], references)
    requires path in files
    ensures path in FilesAt(cs, references, w, files, n) && FilesAt(cs, references, w, files, n)[path] == files[path]
  {
    if n > 0 {
      OtherFilesStay(cs, references, w, files, n - 1, path);
    }
  }

  /** No concurrent change, no held lock, no failure, and every row can be dropped. */
  ghost predicate IsCalm(w: Weather) {
    forall i :: w.others(i).None? && w.trouble(i) == Calm && w.rows(i) == Dropped
  }

  /**
    Every prunable candidate's file is there, with its recorded size, no two of them share a path, and every
    orphan has an identity.
  */
  ghost predicate InOrder(cs: seq<Candidate>, references: set<Artifact>, files: Files) {
    && (forall c | c in cs && Prunable(c, references) ::
          c.belowHome && c.path in files && files[c.path] == RegularFile(c.size))
    && (forall i, j | 0 <= i < j < |cs| && Prunable(cs[i], references) && Prunable(cs[j], references) ::
          cs[i].path != cs[j].path)
    && (forall c | c in cs :: c.artifact.Some?)
  }

  lemma CalmFate(cs: seq<Candidate>, references: set<Artifact>, w: Weather, files: Files, i: nat)
    requires IsCalm(w) && InOrder(cs, references, files) && i < |cs|
    ensures FateAt(cs, references, w, files, i) ==
            if Prunable(cs[i], references) then Removed(cs[i].artifact.value, cs[i].size) else Protected
  {
    assert cs[i] in cs;
    if Prunable(cs[i], references) {
      OtherFilesStay(cs, references, w, files, i, cs[i].path);
    }
  }

  lemma {:induction false} CalmFreesTheEstimate(cs: seq<Candidate>, references: set<Artifact>, log: seq<Fate>)
    requires |log| == |cs|
    requires forall i | 0 <= i < |cs| ::
               log[i] == if Prunable(cs[i], references) then Removed(cs[i].artifact.value, cs[i].size) else Protected
    ensures Freed(log, true) + Freed(log, false) == Estimate(cs, references)
    ensures FailedKeys(log) == [] && SkippedKeys(log) == []
  {
    if cs != [] {
      CalmFreesTheEstimate(cs[..|cs| - 1], references, log[..|log| - 1]);
    }
  }

  /**
    With every file in its place and nothing in the way, prune removes exactly what the preview lists and frees
    exactly what the preview estimates, unless the bytes of the two kinds do not fit 64 bits together.
  */
  lemma {:induction false} CalmPruneIsThePreview(cs: seq<Candidate>, references: set<Artifact>, w: Weather,
                                                 files: Files, log: seq<Fate>, r: PruneResult)
    requires IsCalm(w) && InOrder(cs, references, files)
    requires FatesAre(cs, references, w, files, |cs|, log) && Tells(r, log)
    ensures !r.Incomplete?
    ensures r.BytesOverflow? ==> Estimate(cs, references) > U64_MAX
    ensures r.Pruned? ==>
      && r.skipped == [] && r.freed == Saturated(Estimate(cs, references))
      && (forall id :: id in r.kernels <==> Offers(cs, references, KernelId(id)))
      && (forall pair :: pair in r.images <==> Offers(cs, references, ImageId(pair)))
  {
    LogIsComplete(cs, references, w, files, log);
    forall i | 0 <= i < |cs|
      ensures log[i] == if Prunable(cs[i], references) then Removed(cs[i].artifact.value, cs[i].size) else Protected
    {
      CalmFate(cs, references, w, files, i);
    }
    CalmFreesTheEstimate(cs, references, log);
    if r.Pruned? {
      ToldIsLogged(r, log);
      RemovedMeans(log);
      forall a ensures Offers(cs, references, a) <==>
                       exists i | 0 <= i < |log| :: log[i].Removed? && log[i].artifact == a {
        OffersMeans(cs, references, log, a);
      }
    }
  }

  /**
    Such an overflow, of files as large as a file can be: two kernels and an image. Prune deletes all three, and then
    reports nothing.
  */
  lemma {:induction false} OverflowLosesTheSummary(k: Candidate, l: Candidate, i: Candidate, w: Weather,
                                                   log: seq<Fate>, r: PruneResult)
    requires IsCalm(w) && k.path != l.path && k.path != i.path && l.path != i.path
    requires forall c | c in [k, l, i] :: c.belowHome && c.artifact.Some? && c.size == I64_MAX
    requires k.artifact.value.KernelId? && l.artifact.value.KernelId? && i.artifact.value.ImageId?
    requires FatesAre([k, l, i], {}, w, ThreeLargeFiles(k, l, i), 3, log) && Tells(r, log)
    ensures r == BytesOverflow
    ensures log == [Removed(k.artifact.value, I64_MAX), Removed(l.artifact.value, I64_MAX),
                    Removed(i.artifact.value, I64_MAX)]
  {
    ThreeGo(k, l, i, w, log);
    ThreeAreFreed(log[0], log[1], log[2]);
  }

  lemma {:induction false} ThreeGo(k: Candidate, l: Candidate, i: Candidate, w: Weather, log: seq<Fate>)
    requires IsCalm(w) && k.path != l.path && k.path != i.path && l.path != i.path
    requires forall c | c in [k, l, i] :: c.belowHome && c.artifact.Some? && c.size == I64_MAX
    requires FatesAre([k, l, i], {}, w, ThreeLargeFiles(k, l, i), 3, log)
    ensures k.artifact.Some? && l.artifact.Some? && i.artifact.Some?
    ensures log == [Removed(k.artifact.value, I64_MAX), Removed(l.artifact.value, I64_MAX),
                    Removed(i.artifact.value, I64_MAX)]
  {
    var cs, files := [k, l, i], ThreeLargeFiles(k, l, i);
    assert cs[0] in cs && cs[1] in cs && cs[2] in cs;
    ThreeAreInOrder(k, l, i);
    CalmFate(cs, {}, w, files, 0);
    CalmFate(cs, {}, w, files, 1);
    CalmFate(cs, {}, w, files, 2);
    LogIsComplete(cs, {}, w, files, log);
  }

  lemma {:induction false} ThreeAreInOrder(k: Candidate, l: Candidate, i: Candidate)
    requires k.path != l.path && k.path != i.path && l.path != i.path
    requires forall c | c in [k, l, i] :: c.belowHome && c.artifact.Some? && c.size == I64_MAX
    ensures InOrder([k, l, i], {}, ThreeLargeFiles(k, l, i))
  {
  }

  function ThreeLargeFiles(k: Candidate, l: Candidate, i: Candidate): Files {
    map[k.path := RegularFile(I64_MAX), l.path := RegularFile(I64_MAX), i.path := RegularFile(I64_MAX)]
  }

  lemma {:induction false} FreedGrows(log: seq<Fate>, fate: Fate, kernels: bool)
    requires fate.Removed?
    ensures Freed(log + [fate], kernels)
            == Freed(log, kernels) + if fate.artifact.KernelId? == kernels then fate.freed else 0
  {
    assert (log + [fate])[..|log|] == log;
  }

  lemma {:induction false} ThreeAreFreed(a: Fate, b: Fate, c: Fate)
    requires a.Removed? && a.artifact.KernelId? && b.Removed? && b.artifact.KernelId?
    requires c.Removed? && c.artifact.ImageId?
    ensures Freed([a, b, c], true) == a.freed + b.freed && Freed([a, b, c], false) == c.freed
  {
    assert [] + [a] == [a] && [a] + [b] == [a, b] && [a, b] + [c] == [a, b, c];
    forall kernels ensures Freed([a, b, c], kernels) == if kernels then a.freed + b.freed else c.freed {
      FreedGrows([], a, kernels);
      FreedGrows([a], b, kernels);
      FreedGrows([a, b], c, kernels);
    }
  }

  lemma {:induction false} OffersMeans(cs: seq<Candidate>, references: set<Artifact>, log: seq<Fate>, a: Artifact)
    requires |log| == |cs|
    requires forall i | 0 <= i < |cs| ::
               log[i] == if Prunable(cs[i], references) then Removed(cs[i].artifact.value, cs[i].size) else Protected
    ensures Offers(cs, references, a) <==> exists i | 0 <= i < |log| :: log[i].Removed? && log[i].artifact == a
  {
    if Offers(cs, references, a) {
      var c :| c in cs && Prunable(c, references) && c.artifact == Some(a);
      var i :| 0 <= i < |cs| && cs[i] == c;
      assert log[i].Removed? && log[i].artifact == a;
    }
    if i :| 0 <= i < |log| && log[i].Removed? && log[i].artifact == a {
      assert cs[i] in cs;
    }
  }

  // ---------------------------------------------------------------------------------------------------
  // Orphans of artifacts that are still referred to
  // ---------------------------------------------------------------------------------------------------

  /** The orphan is the download row of this artifact. */
  predicate IsRowOf(row: Orphan, a: Artifact) {
    row.artifactType == TypeOf(a) && row.key == KeyOf(a)
  }

  /** The orphan of an artifact that a machine refers to is protected, if the artifact can be named. */
  lemma ReferencedOrphanIsProtected(row: Orphan, a: Artifact, references: set<Artifact>, trouble: Trouble,
                                    reply: RowReply, files: Files)
    requires IsRowOf(row, a) && a in references && Nameable(a)
    ensures FateOf(FromOrphan(row), references, trouble, reply, files) == Protected
    ensures FilesAfter(FromOrphan(row), references, trouble, files) == files
  {
    ParseInvertsKey(a);
  }

  /** Exactly the artifacts whose key is that of another may lose their file while a machine refers to them. */
  lemma ReferencedOrphanIsSafeExactly(row: Orphan, a: Artifact)
    requires IsRowOf(row, a) && row.belowHome
    ensures (forall references: set<Artifact>, trouble, files | a in references ::
               FilesAfter(FromOrphan(row), references, trouble, files) == files) <==> !Misread(a)
  {
    MisreadExactly(a);
    if Misread(a) {
      var files: Files := map[row.path := RegularFile(0)];
      assert row.path !in FilesAfter(FromOrphan(row), {a}, Calm, files);
    }
  }

  /** For instance: a machine refers to image `c` of distribution `a:b`, and the file of its orphan goes. */
  lemma ColonCostsTheFile(path: string, size: nat)
    ensures var a := ImageId(("a:b", "c"));
            var c := FromOrphan(Orphan(ImageType, KeyOf(a), path, true, size));
            && FilesAfter(c, {a}, Calm, map[path := RegularFile(size)]) == map[]
            && FateOf(c, {a}, Calm, Dropped, map[path := RegularFile(size)]) == Removed(ImageId(("a", "b:c")), size)
  {
    ColonMisleads();
    assert ("a:b", "c").0[1] == ':';
    assert ("a", "b:c") != ("a:b", "c");
  }

  // ---------------------------------------------------------------------------------------------------
  // The same deletion, step by step
  // ---------------------------------------------------------------------------------------------------

  /** The table of files and the cache's single target show the same at a path. */
  ghost predicate Matches(target: Cache.Target, files: Files, path: string) {
    match target
    case Absent => path !in files
    case Regular(integrity) => path in files && files[path] == RegularFile(integrity.size)
    case Irregular => path in files && files[path] == OtherEntry
  }

  /** A deletion at once and a prune task of the cache, which takes it in steps, decide alike. */
  lemma StepsAgreeWithDeletion(c: Candidate, files: Files, id: nat, w: Cache.Shared)
    requires c.belowHome && Matches(w.target, files, c.path)
    ensures OutcomeOf(c, LockHeld, files).FileSkipped?
    ensures w.lock.Some? ==> Cache.PruneWorks(id, Cache.Pruning, w, Cache.Pruned(Cache.Skipped), w)
    ensures OutcomeOf(c, Calm, files).FileAbsent? <==>
            Cache.PruneWorks(id, Cache.PruneLocked, w, Cache.PruneUnlocked(None), w.(lock := None))
    ensures forall n: nat :: OutcomeOf(c, Calm, files) == FileRemoved(n) <==>
                             Cache.PruneWorks(id, Cache.PruneLocked, w, Cache.PruneSeen(n), w)
    ensures OutcomeOf(c, Calm, files).FileRemoved? ==> Matches(Cache.Absent, files - {c.path}, c.path)
  {
  }
}
