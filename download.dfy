/** The download of internal/download.go: a HEAD request fixes the content
    length and whether ranges are accepted, downloadParts launches one ranged
    GET per part into a `.part` file named after its range, and mergeParts
    appends those files to the output file in index order, deleting each.
    The file system is the set of `.part` names present on disk. */
module Download {
  import opened Common
  import opened Decimal

  /** Parts used when the server accepts byte ranges (internal/download.go:14). */
  const NumberOfParts: int := 5

  /** One ranged GET launched by downloadParts; end is inclusive, as in the Range header. */
  datatype PartJob = PartJob(index: int, start: int, end: int)

  /** Outcome of the HEAD request: failure (request error or a status other
      than 200 OK), or the content length and the Accept-Ranges header
      (empty when absent). */
  datatype HeadResult = HeadFailed | HeadOk(contentLength: int, acceptRanges: string)

  /** How mergeParts ends: the part files appended, in order, the `.part` files
      left on disk, and whether it got through every part. */
  datatype MergeEnd = MergeEnd(copied: seq<string>, left: set<string>, ok: bool)

  /** The merge's I/O failures: part files whose io.Copy into the output
      fails, and part files whose os.Remove fails after a good copy. */
  datatype MergeFaults = MergeFaults(copyFails: set<string>, removeFails: set<string>)

  /** supportsPartialDownload. */
  predicate SupportsPartialDownload(acceptRanges: string)
  {
    !(acceptRanges == "" || acceptRanges == "none")
  }

  /** The part count Start chooses. */
  function PartCount(acceptRanges: string): (k: int)
    ensures k == NumberOfParts <==> SupportsPartialDownload(acceptRanges)
    ensures k == 1 <==> !SupportsPartialDownload(acceptRanges)
  {
    if SupportsPartialDownload(acceptRanges) then NumberOfParts else 1
  }

  function PartSize(contentLength: int, parts: int): (size: int)
    requires parts >= 1
  {
    GoDiv(contentLength, parts)
  }

  /** Range of part i, as computed by both downloadParts and mergeParts. */
  function RangeOf(contentLength: int, parts: int, i: int): (job: PartJob)
    requires parts >= 1
  {
    var partSize := PartSize(contentLength, parts);
    PartJob(i, i * partSize, if i == parts - 1 then contentLength - 1 else (i + 1) * partSize)
  }

  /** The ranges of all parts, in index order. */
  function PartJobs(contentLength: int, parts: int): (jobs: seq<PartJob>)
    requires parts >= 1
    ensures |jobs| == parts
  {
    seq(parts, i requires 0 <= i < parts => RangeOf(contentLength, parts, i))
  }

  /** Part i starts at i * partSize, so part 0 at 0; each part ends where the
      next one starts (the boundary byte is shared); the last part ends at
      contentLength - 1; a single part is the whole file. */
  lemma PartJobsShape(contentLength: int, parts: int)
    requires parts >= 1
    ensures var jobs := PartJobs(contentLength, parts);
      && jobs[0].start == 0 && jobs[parts - 1].end == contentLength - 1
      && (forall i :: 0 <= i < parts ==> jobs[i].index == i && jobs[i].start == i * PartSize(contentLength, parts))
      && (forall i :: 0 <= i < parts - 1 ==> jobs[i].end == jobs[i + 1].start)
      && (parts == 1 ==> jobs == [PartJob(0, 0, contentLength - 1)])
  {
  }

  /** The `.part` file of a range: Destination/OutputFileName<start>-<end>.part. */
  function PartFilePath(destination: string, outputFileName: string, start: int, end: int): (path: string)
  {
    destination + "/" + outputFileName + Itoa(start) + "-" + Itoa(end) + ".part"
  }

  /** The `.part` file of each range, in index order. */
  function PartPaths(destination: string, outputFileName: string, jobs: seq<PartJob>): (paths: seq<string>)
  {
    seq(|jobs|, i requires 0 <= i < |jobs| => PartFilePath(destination, outputFileName, jobs[i].start, jobs[i].end))
  }

  function SetOf(s: seq<string>): (xs: set<string>)
  {
    set x | x in s
  }

  lemma SetOfPrefix(s: seq<string>, i: nat)
    requires i < |s|
    ensures SetOf(s[..i + 1]) == SetOf(s[..i]) + {s[i]}
  {
    TakeSnoc(s, i);
  }

  /** mergeParts visiting `paths` in order after appending `copied` to the
      output: a missing file or a failed copy stops the merge with an error
      and nothing of that file appended; a failed removal stops it with an
      error after the file was appended, leaving the file on disk; every
      other file is appended to the output and deleted. */
  function MergeWalk(copied: seq<string>, files: set<string>, paths: seq<string>, failing: MergeFaults): (w: MergeEnd)
    decreases |paths|
  {
    if paths == [] then MergeEnd(copied, files, true)
    else if paths[0] !in files || paths[0] in failing.copyFails then MergeEnd(copied, files, false)
    else if paths[0] in failing.removeFails then MergeEnd(copied + [paths[0]], files, false)
    else MergeWalk(copied + [paths[0]], files - {paths[0]}, paths[1..], failing)
  }

  /** When every name is distinct, present and without I/O failure, the merge
      appends all of them in the given order and leaves exactly the other files. */
  lemma {:induction false} MergeOfDistinctPresentParts(copied: seq<string>, files: set<string>, paths: seq<string>, failing: MergeFaults)
    requires forall i, j :: 0 <= i < j < |paths| ==> paths[i] != paths[j]
    requires forall i :: 0 <= i < |paths| ==>
      paths[i] in files && paths[i] !in failing.copyFails && paths[i] !in failing.removeFails
    ensures MergeWalk(copied, files, paths, failing) == MergeEnd(copied + paths, files - SetOf(paths), true)
    decreases |paths|
  {
    if paths != [] {
      var rest := paths[1..];
      forall i | 0 <= i < |rest| ensures rest[i] in files - {paths[0]} {
        assert rest[i] == paths[i + 1];
      }
      MergeOfDistinctPresentParts(copied + [paths[0]], files - {paths[0]}, rest, failing);
      assert files - {paths[0]} - SetOf(rest) == files - SetOf(paths);
      assert copied + [paths[0]] + rest == copied + paths;
    }
  }

  /** If two consecutive parts k and k+1 share a file name, the merge fails:
      either it stops earlier, or it deletes that file after visiting part k
      and fails to open it for part k+1. */
  lemma {:induction false} MergeFailsOnRepeatedName(copied: seq<string>, files: set<string>, paths: seq<string>,
                                                    failing: MergeFaults, k: nat)
    requires k + 1 < |paths| && paths[k] == paths[k + 1]
    ensures !MergeWalk(copied, files, paths, failing).ok
    decreases k
  {
    if paths[0] in files && paths[0] !in failing.copyFails && paths[0] !in failing.removeFails {
      if k == 0 {
        assert paths[1..][0] == paths[0];
      } else {
        MergeFailsOnRepeatedName(copied + [paths[0]], files - {paths[0]}, paths[1..], failing, k - 1);
      }
    }
  }

  /** When the first k distinct part files merge cleanly and the removal of
      part k fails after its copy, the output holds parts 0..k in order, the
      merge reports an error, and part k's file stays on disk. */
  lemma {:induction false} RemoveFailureKeepsCopiedPart(copied: seq<string>, files: set<string>, paths: seq<string>,
                                                        failing: MergeFaults, k: nat)
    requires k < |paths|
    requires forall i, j :: 0 <= i < j <= k ==> paths[i] != paths[j]
    requires forall i :: 0 <= i < k ==>
      paths[i] in files && paths[i] !in failing.copyFails && paths[i] !in failing.removeFails
    requires paths[k] in files && paths[k] !in failing.copyFails && paths[k] in failing.removeFails
    ensures var w := MergeWalk(copied, files, paths, failing);
      && !w.ok && w.copied == copied + paths[..k + 1]
      && paths[k] in w.left && w.left == files - SetOf(paths[..k])
    decreases k
  {
    if k == 0 {
      assert paths[..1] == [paths[0]];
      assert SetOf(paths[..0]) == {};
    } else {
      var rest := paths[1..];
      forall i | 0 <= i < k - 1 ensures rest[i] in files - {paths[0]} {
        assert rest[i] == paths[i + 1];
      }
      assert rest[k - 1] == paths[k];
      RemoveFailureKeepsCopiedPart(copied + [paths[0]], files - {paths[0]}, rest, failing, k - 1);
      assert copied + [paths[0]] + rest[..k] == copied + paths[..k + 1];
      assert SetOf(paths[..k]) == {paths[0]} + SetOf(rest[..k - 1]);
    }
  }

  lemma MulMonotone(a: int, b: int, c: int)
    requires a <= b && c >= 0
    ensures a * c <= b * c
  {
  }

  /** With at least one byte per part, every range lies in [0, contentLength-1],
      is non-empty (start <= end, the end being inclusive), and starts strictly
      after the previous one. */
  lemma RangesWithinFile(contentLength: int, parts: int)
    requires 1 <= parts <= contentLength
    ensures var jobs := PartJobs(contentLength, parts);
      && (forall i :: 0 <= i < parts ==> 0 <= jobs[i].start <= jobs[i].end <= contentLength - 1)
      && (forall i :: 0 <= i < parts - 1 ==> jobs[i].start < jobs[i + 1].start)
  {
    var ps := PartSize(contentLength, parts);
    var jobs := PartJobs(contentLength, parts);
    assert ps >= 1 && ps * parts <= contentLength;
    forall i | 0 <= i < parts
      ensures 0 <= jobs[i].start <= jobs[i].end <= contentLength - 1
    {
      MulMonotone(0, i, ps);
      MulMonotone(i + 1, parts, ps);
      assert (i + 1) * ps == i * ps + ps;
      assert parts * ps == (parts - 1) * ps + ps;
    }
    forall i | 0 <= i < parts - 1 ensures jobs[i].start < jobs[i + 1].start {
      assert (i + 1) * ps == i * ps + ps;
    }
  }

  /** Bytes a sequence of inclusive ranges asks for. */
  function RequestedBytes(jobs: seq<PartJob>): (total: int)
  {
    if jobs == [] then 0 else (jobs[0].end - jobs[0].start + 1) + RequestedBytes(jobs[1..])
  }

  /** Sum of end - start: what the clamp of internal/part.go would allow each
      range, were these ranges given to that generation of parts. */
  function ClampBounds(jobs: seq<PartJob>): (total: int)
  {
    if jobs == [] then 0 else (jobs[0].end - jobs[0].start) + ClampBounds(jobs[1..])
  }

  lemma {:induction false} ChainTelescopes(jobs: seq<PartJob>)
    requires |jobs| >= 1
    requires forall i :: 0 <= i < |jobs| - 1 ==> jobs[i].end == jobs[i + 1].start
    ensures ClampBounds(jobs) == jobs[|jobs| - 1].end - jobs[0].start
    ensures RequestedBytes(jobs) == jobs[|jobs| - 1].end - jobs[0].start + |jobs|
    decreases |jobs|
  {
    if |jobs| > 1 {
      var rest := jobs[1..];
      forall i | 0 <= i < |rest| - 1 ensures rest[i].end == rest[i + 1].start {
        assert rest[i] == jobs[i + 1] && rest[i + 1] == jobs[i + 2];
      }
      ChainTelescopes(rest);
    }
  }

  /** Because neighbouring ranges share their boundary byte, the parts together
      request contentLength + parts - 1 bytes (each shared byte twice). The
      second clause pairs these ranges with the clamp of internal/part.go,
      whose bounds end - start would add up to contentLength - 1; the source
      does not connect the two files, since downloadThisPart copies each body
      with io.Copy and never runs that clamp. */
  lemma RequestedBytesOfParts(contentLength: int, parts: int)
    requires parts >= 1
    ensures RequestedBytes(PartJobs(contentLength, parts)) == contentLength + parts - 1
    ensures ClampBounds(PartJobs(contentLength, parts)) == contentLength - 1
  {
    PartJobsShape(contentLength, parts);
    ChainTelescopes(PartJobs(contentLength, parts));
  }

  /** Number of leading digits of a text. */
  function LeadingDigits(t: string): (count: nat)
  {
    if t == [] || !IsDigit(t[0]) then 0 else 1 + LeadingDigits(t[1..])
  }

  lemma {:induction false} LeadingDigitsBeforeDash(a: string, c: string)
    requires AllDigits(a)
    ensures LeadingDigits(a + "-" + c) == |a|
    decreases |a|
  {
    if a != [] {
      assert (a + "-" + c)[1..] == a[1..] + "-" + c;
      LeadingDigitsBeforeDash(a[1..], c);
    }
  }

  /** Two digit strings each followed by a dash: equal texts have equal digit strings. */
  lemma DigitsBeforeDash(a: string, b: string, c: string, d: string)
    requires AllDigits(a) && AllDigits(b)
    requires a + "-" + c == b + "-" + d
    ensures a == b
  {
    LeadingDigitsBeforeDash(a, c);
    LeadingDigitsBeforeDash(b, d);
    var t := a + "-" + c;
    assert a == t[..|a|];
    assert b == (b + "-" + d)[..|b|];
  }

  lemma CancelPrefix(p: string, t1: string, t2: string)
    requires p + t1 == p + t2
    ensures t1 == t2
  {
    assert t1 == (p + t1)[|p|..] && t2 == (p + t2)[|p|..];
  }

  /** A part file path is a fixed prefix, then the start offset, a dash and the rest. */
  lemma PartFilePathSplit(destination: string, outputFileName: string, start: int, end: int)
    ensures PartFilePath(destination, outputFileName, start, end)
         == (destination + "/" + outputFileName) + (Itoa(start) + "-" + (Itoa(end) + ".part"))
  {
  }

  /** The part file name determines its start offset, for non-negative offsets. */
  lemma PartFilePathInjective(destination: string, outputFileName: string, s1: nat, e1: int, s2: nat, e2: int)
    requires PartFilePath(destination, outputFileName, s1, e1) == PartFilePath(destination, outputFileName, s2, e2)
    ensures s1 == s2
  {
    var c1, c2 := Itoa(e1) + ".part", Itoa(e2) + ".part";
    PartFilePathSplit(destination, outputFileName, s1, e1);
    PartFilePathSplit(destination, outputFileName, s2, e2);
    CancelPrefix(destination + "/" + outputFileName, Itoa(s1) + "-" + c1, Itoa(s2) + "-" + c2);
    NatDigitsValue(s1);
    NatDigitsValue(s2);
    DigitsBeforeDash(Itoa(s1), Itoa(s2), c1, c2);
    ItoaInjective(s1, s2);
  }

  /** With at least one byte per part, the parts write to distinct files. */
  lemma PartPathsDistinct(destination: string, outputFileName: string, contentLength: int, parts: int)
    requires 1 <= parts <= contentLength
    ensures var paths := PartPaths(destination, outputFileName, PartJobs(contentLength, parts));
      forall i, j :: 0 <= i < j < parts ==> paths[i] != paths[j]
  {
    var jobs := PartJobs(contentLength, parts);
    var paths := PartPaths(destination, outputFileName, jobs);
    RangesWithinFile(contentLength, parts);
    forall i, j | 0 <= i < j < parts ensures paths[i] != paths[j] {
      var ps := PartSize(contentLength, parts);
      MulMonotone(i + 1, j, ps);
      assert (i + 1) * ps == i * ps + ps;
      assert jobs[i].start < jobs[j].start;
      if paths[i] == paths[j] {
        PartFilePathInjective(destination, outputFileName, jobs[i].start, jobs[i].end, jobs[j].start, jobs[j].end);
      }
    }
  }

  /** With fewer bytes than parts (and at least three parts) the part size is 0:
      parts 0 and 1 both have range 0-0 and the same file name. */
  lemma ShortContentSharesPartFile(destination: string, outputFileName: string, contentLength: int, parts: int)
    requires parts >= 3 && 0 <= contentLength < parts
    ensures var paths := PartPaths(destination, outputFileName, PartJobs(contentLength, parts));
      paths[0] == paths[1] == PartFilePath(destination, outputFileName, 0, 0)
  {
    assert PartSize(contentLength, parts) == 0;
    var jobs := PartJobs(contentLength, parts);
    assert jobs[0] == RangeOf(contentLength, parts, 0) == PartJob(0, 0, 0);
    assert jobs[1] == RangeOf(contentLength, parts, 1) == PartJob(1, 0, 0);
  }

  /** One launch extends the launched jobs and the created files by part i. */
  lemma LaunchStep(launched: seq<PartJob>, files: set<string>, jobs: seq<PartJob>, paths: seq<string>, i: nat)
    requires i < |jobs| == |paths|
    ensures launched + jobs[..i] + [jobs[i]] == launched + jobs[..i + 1]
    ensures files + SetOf(paths[..i]) + {paths[i]} == files + SetOf(paths[..i + 1])
  {
    TakeSnoc(jobs, i);
    SetOfPrefix(paths, i);
  }

  class Download {
    var url: string
    var destination: string
    var outputFileName: string
    var status: Status
    var contentLength: int
    var numberOfParts: int
    var launched: seq<PartJob>    // ranged GETs started by downloadParts, in launch order
    var partFiles: set<string>    // `.part` files on disk
    var merged: seq<string>       // part files appended to the output file, in order

    constructor (url: string, destination: string, outputFileName: string)
      ensures this.url == url && this.destination == destination && this.outputFileName == outputFileName
      ensures status == Pending && contentLength == 0 && numberOfParts == 0
      ensures launched == [] && partFiles == {} && merged == []
    {
      this.url, this.destination, this.outputFileName := url, destination, outputFileName;
      status := Pending;
      contentLength, numberOfParts := 0, 0;
      launched, partFiles, merged := [], {}, [];
    }

    /** downloadParts: one GET per part; each creates the file named after its range. */
    method DownloadParts()
      requires numberOfParts >= 1
      modifies this`launched, this`partFiles
      ensures launched == old(launched) + PartJobs(contentLength, numberOfParts)
      ensures partFiles == old(partFiles) + SetOf(PartPaths(destination, outputFileName, PartJobs(contentLength, numberOfParts)))
    {
      ghost var jobs := PartJobs(contentLength, numberOfParts);
      ghost var paths := PartPaths(destination, outputFileName, jobs);
      for i := 0 to numberOfParts
        invariant launched == old(launched) + jobs[..i]
        invariant partFiles == old(partFiles) + SetOf(paths[..i])
      {
        var job := RangeOf(contentLength, numberOfParts, i);
        var path := PartFilePath(destination, outputFileName, job.start, job.end);
        LaunchStep(old(launched), old(partFiles), jobs, paths, i);
        launched := launched + [job];
        partFiles := partFiles + {path};
      }
      assert jobs[..numberOfParts] == jobs;
      assert paths[..numberOfParts] == paths;
    }

    /** mergeParts: createOk is the outcome of creating the output file, failing
        the part files whose copy or removal fails. The ranges are recomputed,
        so the names visited are those downloadParts created, in index order. */
    method MergeParts(createOk: bool, failing: MergeFaults) returns (ok: bool)
      requires numberOfParts >= 1
      modifies this`merged, this`partFiles
      ensures !createOk ==> !ok && merged == old(merged) && partFiles == old(partFiles)
      ensures createOk ==>
        var w := MergeWalk([], old(partFiles), PartPaths(destination, outputFileName, PartJobs(contentLength, numberOfParts)), failing);
        ok == w.ok && merged == w.copied && partFiles == w.left
    {
      if !createOk {
        return false;
      }
      merged := [];
      ghost var paths := PartPaths(destination, outputFileName, PartJobs(contentLength, numberOfParts));
      ghost var walk := MergeWalk([], partFiles, paths, failing);
      for i := 0 to numberOfParts
        invariant MergeWalk(merged, partFiles, paths[i..], failing) == walk
      {
        var job := RangeOf(contentLength, numberOfParts, i);
        var filePath := PartFilePath(destination, outputFileName, job.start, job.end);
        DropCons(paths, i);
        if filePath !in partFiles || filePath in failing.copyFails {
          return false;
        }
        merged := merged + [filePath];
        if filePath in failing.removeFails {
          return false;
        }
        partFiles := partFiles - {filePath};
      }
      assert paths[numberOfParts..] == [];
      ok := true;
    }

    /** Start: the HEAD request, the zero-length guard, the part count, the
        parts and the merge; createOk and failing are the merge's I/O outcomes. */
    method Start(head: HeadResult, createOk: bool, failing: MergeFaults) returns (ok: bool)
      modifies this
      ensures url == old(url) && destination == old(destination) && outputFileName == old(outputFileName)
      ensures head.HeadFailed? ==> !ok && unchanged(this)
      ensures head.HeadOk? && head.contentLength == 0 ==>
        && !ok && status == Cancelled && contentLength == 0 && numberOfParts == old(numberOfParts)
        && launched == old(launched) && partFiles == old(partFiles) && merged == old(merged)
      ensures head.HeadOk? && head.contentLength != 0 ==>
        var jobs := PartJobs(head.contentLength, PartCount(head.acceptRanges));
        var created := old(partFiles) + SetOf(PartPaths(destination, outputFileName, jobs));
        var w := MergeWalk([], created, PartPaths(destination, outputFileName, jobs), failing);
        && contentLength == head.contentLength
        && numberOfParts == PartCount(head.acceptRanges)
        && launched == old(launched) + jobs
        && ok == (createOk && w.ok)
        && status == (if ok then Completed else InProgress)
        && (createOk ==> merged == w.copied && partFiles == w.left)
        && (!createOk ==> merged == old(merged) && partFiles == created)
    {
      if head.HeadFailed? {
        return false;
      }
      contentLength := head.contentLength;
      if contentLength == 0 {
        status := Cancelled;
        return false;
      }
      status := InProgress;
      if SupportsPartialDownload(head.acceptRanges) {
        numberOfParts := NumberOfParts;
      } else {
        numberOfParts := 1;
      }
      DownloadParts();
      ok := MergeParts(createOk, failing);
      if !ok {
        return false;
      }
      status := Completed;
    }
  }

  /** A fresh download of a file at least as long as its part count, with every
      I/O step succeeding, completes, merges every part file in index order and
      leaves no `.part` file behind. */
  method CompleteDownloadScenario(contentLength: int, acceptRanges: string)
    requires contentLength >= NumberOfParts
  {
    var d := new Download("http://host/file", "/tmp", "file");
    var none := MergeFaults({}, {});
    var ok := d.Start(HeadOk(contentLength, acceptRanges), true, none);
    var k := PartCount(acceptRanges);
    var paths := PartPaths("/tmp", "file", PartJobs(contentLength, k));
    PartPathsDistinct("/tmp", "file", contentLength, k);
    assert {} + SetOf(paths) == SetOf(paths);
    MergeOfDistinctPresentParts([], SetOf(paths), paths, none);
    assert ok && d.status == Completed;
    assert d.merged == paths && d.partFiles == {};
  }
}
