/** The part transfer of internal/models/part.go: one ranged GET read into a
    `.part` file, interrupted through the part's private control channel.
    The HTTP response body is a finite sequence of loop iterations (Step);
    a status waiting on the control channel at the top of an iteration is an
    Interrupt step. */
module ModelsPart {
  import opened Common
  import opened Decimal

  /** The error returned by one Body.Read besides the byte count. */
  datatype ReadError = NoError | EOF | ReadFailure

  /** What one iteration of the read loop finds. */
  datatype Step =
    | Interrupt(signal: Status)                     // a status received on the control channel
    | Read(n: nat, written: bool, err: ReadError)   // Body.Read gave n bytes and err; written: file.Write of them succeeded

  /** connectionWithPart: whether an error accompanies the report, and the status reported. */
  datatype Report = Report(isError: bool, status: Status)

  /** How a run of the read loop ends: a report is sent, or the sequence of
      steps runs out and the goroutine is still waiting on the body. */
  datatype Exit = Reported(report: Report) | Blocked

  datatype LoopEnd = LoopEnd(downloaded: int, status: Status, exit: Exit)

  /** Byte count after one read: only a positive read is added. */
  function AfterRead(downloaded: int, n: nat): (d: int)
  {
    if n > 0 then downloaded + n else downloaded
  }

  /** The read loop, entered with Status == InProgress and `downloaded` bytes counted. */
  function ReadLoop(downloaded: int, body: seq<Step>): (e: LoopEnd)
    decreases |body|
  {
    if body == [] then LoopEnd(downloaded, InProgress, Blocked)
    else match body[0]
      case Interrupt(s) => LoopEnd(downloaded, InProgress, Reported(Report(true, s)))
      case Read(n, written, err) =>
        if n > 0 && !written then LoopEnd(downloaded, Failed, Reported(Report(true, Failed)))
        else
          var d := AfterRead(downloaded, n);
          if err == EOF then LoopEnd(d, Completed, Reported(Report(false, Completed)))
          else if err == ReadFailure then LoopEnd(d, Failed, Reported(Report(true, Failed)))
          else ReadLoop(d, body[1..])
  }

  /** A step after which the loop goes on to the next iteration. */
  predicate CleanRead(st: Step)
  {
    st.Read? && st.err == NoError && (st.n == 0 || st.written)
  }

  /** Total bytes of the read steps of a sequence. */
  function ReadBytes(body: seq<Step>): (total: nat)
  {
    if body == [] then 0 else (if body[0].Read? then body[0].n else 0) + ReadBytes(body[1..])
  }

  /** Byte counting never goes down, and the status left and the report sent agree:
      Completed exactly with the success report, Failed only with a Failed error
      report, InProgress (nothing set by the loop) when it blocks, and an error
      report whenever the loop ends InProgress; that an interrupt is such an
      exit is InterruptAfterReads. */
  lemma {:induction false} ReadLoopOutcome(downloaded: int, body: seq<Step>)
    ensures var e := ReadLoop(downloaded, body);
      && e.downloaded >= downloaded
      && (e.status == Completed <==> e.exit == Reported(Report(false, Completed)))
      && (e.status == Failed ==> e.exit == Reported(Report(true, Failed)))
      && (e.exit.Blocked? ==> e.status == InProgress)
      && (e.status == InProgress && e.exit.Reported? ==> e.exit.report.isError)
      && e.status in {InProgress, Completed, Failed}
      && (e.exit.Reported? && !e.exit.report.isError ==> e.status == Completed)
    decreases |body|
  {
    if body != [] && CleanRead(body[0]) {
      ReadLoopOutcome(AfterRead(downloaded, body[0].n), body[1..]);
    }
  }

  /** Running through k clean reads adds exactly their bytes and leaves the rest of the loop. */
  lemma {:induction false} ReadLoopPrefix(downloaded: int, body: seq<Step>, k: nat)
    requires k <= |body|
    requires forall j :: 0 <= j < k ==> CleanRead(body[j])
    ensures ReadLoop(downloaded, body) == ReadLoop(downloaded + ReadBytes(body[..k]), body[k..])
    decreases k
  {
    if k > 0 {
      var d := AfterRead(downloaded, body[0].n);
      assert body[1..][..k - 1] == body[..k][1..];
      assert body[1..][k - 1..] == body[k..];
      ReadLoopPrefix(d, body[1..], k - 1);
    }
  }

  /** An interrupt met after k clean reads ends the loop reporting the received
      status, with the byte count those k reads left and the status untouched. */
  lemma InterruptAfterReads(downloaded: int, body: seq<Step>, k: nat)
    requires k < |body| && body[k].Interrupt?
    requires forall j :: 0 <= j < k ==> CleanRead(body[j])
    ensures ReadLoop(downloaded, body)
         == LoopEnd(downloaded + ReadBytes(body[..k]), InProgress, Reported(Report(true, body[k].signal)))
  {
    ReadLoopPrefix(downloaded, body, k);
  }

  /** EOF met after k clean reads completes the part with every byte of those
      reads and of the final read counted. */
  lemma EofAfterReads(downloaded: int, body: seq<Step>, k: nat)
    requires k < |body| && body[k].Read? && body[k].err == EOF && (body[k].n == 0 || body[k].written)
    requires forall j :: 0 <= j < k ==> CleanRead(body[j])
    ensures ReadLoop(downloaded, body)
         == LoopEnd(downloaded + ReadBytes(body[..k + 1]), Completed, Reported(Report(false, Completed)))
  {
    ReadLoopPrefix(downloaded, body, k);
    assert body[..k + 1] == body[..k] + [body[k]];
    ReadBytesAppend(body[..k], body[k]);
  }

  /** After k clean reads, a failed write of a positive count fails the part
      without counting it, and a read error after a good write fails it with
      the bytes counted; either way a Failed error is reported. */
  lemma FailureAfterReads(downloaded: int, body: seq<Step>, k: nat)
    requires k < |body| && body[k].Read?
    requires (body[k].n > 0 && !body[k].written) || body[k].err == ReadFailure
    requires forall j :: 0 <= j < k ==> CleanRead(body[j])
    ensures var c := downloaded + ReadBytes(body[..k]);
      ReadLoop(downloaded, body)
        == LoopEnd(if body[k].n > 0 && !body[k].written then c else c + body[k].n, Failed, Reported(Report(true, Failed)))
  {
    ReadLoopPrefix(downloaded, body, k);
  }

  lemma {:induction false} ReadBytesAppend(s: seq<Step>, st: Step)
    ensures ReadBytes(s + [st]) == ReadBytes(s) + (if st.Read? then st.n else 0)
  {
    if s != [] {
      assert (s + [st])[1..] == s[1..] + [st];
      ReadBytesAppend(s[1..], st);
    }
  }

  /** The `Range` request header value for a resume from byte `from` to `end` (inclusive). */
  function RangeText(from: int, end: int): (text: string)
  {
    Itoa(from) + "-" + Itoa(end)
  }

  class Part {
    var partIndex: int
    var startIndex: int
    var endIndex: int
    var downloadedBytes: int
    var rangeOfDownload: string
    var rangeHeader: string     // the Range header set on the part's request
    var status: Status

    constructor (index: int, start: int, end: int)
      ensures partIndex == index && startIndex == start && endIndex == end
      ensures downloadedBytes == 0 && status == Pending
      ensures rangeOfDownload == "" && rangeHeader == ""
    {
      partIndex, startIndex, endIndex := index, start, end;
      downloadedBytes := 0;
      status := Pending;
      rangeOfDownload, rangeHeader := "", "";
    }

    method SetStatus(s: Status)
      modifies this`status
      ensures status == s
    {
      status := s;
    }

    method AddToDownloadedBytes(n: int)
      modifies this`downloadedBytes
      ensures downloadedBytes == old(downloadedBytes) + n
    {
      downloadedBytes := downloadedBytes + n;
    }

    /** Part.start: requestOk is the outcome of client.Do, openOk that of
        os.OpenFile, body the iterations of the read loop. */
    method Start(requestOk: bool, openOk: bool, body: seq<Step>) returns (exit: Exit)
      modifies this`status, this`downloadedBytes, this`rangeOfDownload, this`rangeHeader
      ensures old(status) == Completed ==>
        exit == Reported(Report(false, Completed)) && unchanged(this)
      ensures old(status) != Completed ==>
        && rangeOfDownload == RangeText(old(startIndex + downloadedBytes), endIndex)
        && rangeHeader == "bytes=" + rangeOfDownload
      ensures old(status) != Completed && !(requestOk && openOk) ==>
        && status == Failed && exit == Reported(Report(true, Failed))
        && downloadedBytes == old(downloadedBytes)
      ensures old(status) != Completed && requestOk && openOk ==>
        var e := ReadLoop(old(downloadedBytes), body);
        downloadedBytes == e.downloaded && status == e.status && exit == e.exit
    {
      if status == Completed {
        return Reported(Report(false, Completed));
      }
      SetStatus(InProgress);
      rangeOfDownload := RangeText(startIndex + downloadedBytes, endIndex);
      rangeHeader := "bytes=" + rangeOfDownload;
      if !requestOk {
        SetStatus(Failed);
        return Reported(Report(true, Failed));
      }
      if !openOk {
        // the source calls fail() here, which would send on the part's own
        // channel while InProgress; the intended effect is status Failed
        SetStatus(Failed);
        return Reported(Report(true, Failed));
      }
      var i := 0;
      while i < |body|
        invariant 0 <= i <= |body|
        invariant status == InProgress
        invariant ReadLoop(downloadedBytes, body[i..]) == ReadLoop(old(downloadedBytes), body)
        invariant rangeOfDownload == RangeText(old(startIndex + downloadedBytes), endIndex)
        invariant rangeHeader == "bytes=" + rangeOfDownload
      {
        assert body[i..][1..] == body[i + 1..];
        match body[i] {
          case Interrupt(s) =>
            return Reported(Report(true, s));
          case Read(n, written, err) =>
            if n > 0 {
              if !written {
                SetStatus(Failed);
                return Reported(Report(true, Failed));
              }
              AddToDownloadedBytes(n);
            }
            if err == EOF {
              SetStatus(Completed);
              return Reported(Report(false, Completed));
            }
            if err == ReadFailure {
              SetStatus(Failed);
              return Reported(Report(true, Failed));
            }
        }
        i := i + 1;
      }
      exit := Blocked;
    }

    /** Shared body of pause, pend, cancel and fail: the target status is sent on
        the control channel only when a read loop is running (status InProgress);
        the result is what was sent, if anything. */
    method RequestStatus(target: Status) returns (sent: Option<Status>)
      modifies this`status
      ensures status == target
      ensures sent == (if old(status) == InProgress then Some(target) else None)
    {
      sent := if status == InProgress then Some(target) else None;
      SetStatus(target);
    }

    method Pause() returns (sent: Option<Status>)
      modifies this`status
      ensures status == Paused
      ensures sent == (if old(status) == InProgress then Some(Paused) else None)
    {
      sent := RequestStatus(Paused);
    }

    method Pend() returns (sent: Option<Status>)
      modifies this`status
      ensures status == Pending
      ensures sent == (if old(status) == InProgress then Some(Pending) else None)
    {
      sent := RequestStatus(Pending);
    }

    method Cancel() returns (sent: Option<Status>)
      modifies this`status
      ensures status == Cancelled
      ensures sent == (if old(status) == InProgress then Some(Cancelled) else None)
    {
      sent := RequestStatus(Cancelled);
    }

    method Fail() returns (sent: Option<Status>)
      modifies this`status
      ensures status == Failed
      ensures sent == (if old(status) == InProgress then Some(Failed) else None)
    {
      sent := RequestStatus(Failed);
    }
  }

  /** A pause in the middle of a transfer followed by a resume: the second
      request starts right after the bytes the first run counted. */
  method PauseResumeScenario(body1: seq<Step>, body2: seq<Step>)
    requires |body1| == 2 && body1[0] == Read(100, true, NoError) && body1[1] == Interrupt(Paused)
  {
    var p := new Part(0, 1000, 1999);
    var exit := p.Start(true, true, body1);
    assert body1[1..][1..] == [];
    assert exit == Reported(Report(true, Paused)) && p.downloadedBytes == 100;
    var sent := p.Pause();
    assert p.status == Paused && p.downloadedBytes == 100;
    exit := p.Start(true, true, body2);
    assert p.rangeOfDownload == RangeText(1100, 1999);
  }
}
