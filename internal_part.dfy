/** The part transfer of internal/part.go: the read loop polls the part's
    status at the top of every iteration, and each read is clamped to the
    bytes still missing from the range. Another task changes the status
    (pause, pend, cancel) between iterations; such a change is a StatusSet
    step of the loop. */
module InternalPart {
  import opened Common
  import opened Decimal

  datatype ReadError = NoError | EOF | ReadFailure

  datatype Step =
    | StatusSet(status: Status)                    // the status was set by another task since the last poll
    | Read(n: nat, written: bool, err: ReadError)  // Body.Read gave n bytes and err; written: file.Write succeeded

  /** The error sent on the result channel: an interruption carrying the status
      found by the poll, or an I/O error. */
  datatype PartError = NotInProgress(status: Status) | IoError

  /** How a run of the loop ends: it returns without sending (the poll found
      Completed), sends nil or an error, or is still waiting on the body. */
  datatype Exit = Silent | Sent(err: Option<PartError>) | Blocked

  datatype LoopEnd = LoopEnd(downloaded: int, status: Status, exit: Exit)

  /** The clamp of line 71: a read never counts more than `limit - downloaded` bytes. */
  function Clamp(n: nat, limit: int, downloaded: int): (m: int)
  {
    Min(n, limit - downloaded)
  }

  /** Byte count after a read of n bytes: only a positive clamped count is added. */
  function AfterPoll(downloaded: int, limit: int, n: nat): (d: int)
  {
    var m := Clamp(n, limit, downloaded);
    if m > 0 then downloaded + m else downloaded
  }

  /** The polling read loop; limit is endIndex - startIndex. */
  function PollLoop(downloaded: int, limit: int, status: Status, body: seq<Step>): (e: LoopEnd)
    decreases |body|
  {
    if status == Completed then LoopEnd(downloaded, status, Silent)
    else if status != InProgress then LoopEnd(downloaded, status, Sent(Some(NotInProgress(status))))
    else if body == [] then LoopEnd(downloaded, status, Blocked)
    else match body[0]
      case StatusSet(s) => PollLoop(downloaded, limit, s, body[1..])
      case Read(n, written, err) =>
        if Clamp(n, limit, downloaded) > 0 && !written then LoopEnd(downloaded, Failed, Sent(Some(IoError)))
        else
          var d := AfterPoll(downloaded, limit, n);
          if err == EOF then LoopEnd(d, Completed, Sent(None))
          else if err == ReadFailure then LoopEnd(d, Failed, Sent(Some(IoError)))
          else PollLoop(d, limit, InProgress, body[1..])
  }

  /** The count never decreases, and never passes the clamp bound once within it. */
  lemma {:induction false} PollLoopBounds(downloaded: int, limit: int, status: Status, body: seq<Step>)
    ensures var e := PollLoop(downloaded, limit, status, body);
      && e.downloaded >= downloaded
      && (downloaded <= limit ==> e.downloaded <= limit)
    decreases |body|
  {
    if status == InProgress && body != [] {
      match body[0]
      case StatusSet(s) => PollLoopBounds(downloaded, limit, s, body[1..]);
      case Read(n, written, err) =>
        PollLoopBounds(AfterPoll(downloaded, limit, n), limit, InProgress, body[1..]);
    }
  }

  /** The status left behind and what is sent agree on every exit path:
      nil only with Completed, an I/O error only with Failed, an interruption
      with the non-InProgress, non-Completed status that the poll found, a
      silent return only when the poll found Completed. */
  lemma {:induction false} PollLoopOutcome(downloaded: int, limit: int, status: Status, body: seq<Step>)
    ensures var e := PollLoop(downloaded, limit, status, body);
      && (e.exit == Silent ==> e.status == Completed)
      && (e.exit == Sent(None) ==> e.status == Completed)
      && (e.exit == Sent(Some(IoError)) ==> e.status == Failed)
      && (e.exit.Sent? && e.exit.err.Some? && e.exit.err.value.NotInProgress? ==>
            e.status == e.exit.err.value.status && e.status !in {InProgress, Completed})
      && (e.exit == Blocked <==> e.status == InProgress)
    decreases |body|
  {
    if status == InProgress && body != [] {
      match body[0]
      case StatusSet(s) => PollLoopOutcome(downloaded, limit, s, body[1..]);
      case Read(n, written, err) =>
        PollLoopOutcome(AfterPoll(downloaded, limit, n), limit, InProgress, body[1..]);
    }
  }

  /** If the server sends at least the missing bytes before EOF with every
      write succeeding and no status change, the part ends Completed holding
      exactly `limit` bytes: the clamp drops the surplus. */
  lemma {:induction false} PollLoopFillsToLimit(downloaded: int, limit: int, body: seq<Step>)
    requires downloaded <= limit
    requires |body| > 0 && body[|body| - 1].Read? && body[|body| - 1].err == EOF
    requires forall j :: 0 <= j < |body| ==> body[j].Read? && body[j].written
    requires forall j :: 0 <= j < |body| - 1 ==> body[j].err == NoError
    requires Sum(body) >= limit - downloaded
    ensures PollLoop(downloaded, limit, InProgress, body) == LoopEnd(limit, Completed, Sent(None))
    decreases |body|
  {
    if |body| > 1 {
      PollLoopFillsToLimit(AfterPoll(downloaded, limit, body[0].n), limit, body[1..]);
    }
  }

  /** A read after which the loop polls again: no read error, and the write
      succeeded whenever there was something to write. */
  predicate CleanPoll(st: Step)
  {
    st.Read? && st.err == NoError && (st.n == 0 || st.written)
  }

  /** The byte count after a run of reads, each clamped in turn. */
  function Polled(downloaded: int, limit: int, steps: seq<Step>): (d: int)
    decreases |steps|
  {
    if steps == [] then downloaded
    else Polled(if steps[0].Read? then AfterPoll(downloaded, limit, steps[0].n) else downloaded, limit, steps[1..])
  }

  /** Running through k clean reads counts their clamped bytes and leaves the
      rest of the loop, still InProgress. */
  lemma {:induction false} PollLoopPrefix(downloaded: int, limit: int, body: seq<Step>, k: nat)
    requires k <= |body|
    requires forall j :: 0 <= j < k ==> CleanPoll(body[j])
    ensures PollLoop(downloaded, limit, InProgress, body)
         == PollLoop(Polled(downloaded, limit, body[..k]), limit, InProgress, body[k..])
    decreases k
  {
    if k > 0 {
      assert body[1..][..k - 1] == body[..k][1..];
      assert body[1..][k - 1..] == body[k..];
      PollLoopPrefix(AfterPoll(downloaded, limit, body[0].n), limit, body[1..], k - 1);
    }
  }

  /** EOF after k clean reads, with the last write succeeding, completes the
      part and sends nil, whatever the number of bytes received. */
  lemma EofAfterPolls(downloaded: int, limit: int, body: seq<Step>, k: nat)
    requires k < |body| && body[k].Read? && body[k].err == EOF && (body[k].n == 0 || body[k].written)
    requires forall j :: 0 <= j < k ==> CleanPoll(body[j])
    ensures var c := Polled(downloaded, limit, body[..k]);
      PollLoop(downloaded, limit, InProgress, body) == LoopEnd(AfterPoll(c, limit, body[k].n), Completed, Sent(None))
  {
    PollLoopPrefix(downloaded, limit, body, k);
  }

  /** After k clean reads, a failed write of a positive clamped count fails the
      part without counting it; a read error after a good write fails it with
      the bytes counted. Either way an I/O error is sent. */
  lemma FailureAfterPolls(downloaded: int, limit: int, body: seq<Step>, k: nat)
    requires k < |body| && body[k].Read?
    requires forall j :: 0 <= j < k ==> CleanPoll(body[j])
    ensures var c := Polled(downloaded, limit, body[..k]);
      var st := body[k];
      var e := PollLoop(downloaded, limit, InProgress, body);
      && (Clamp(st.n, limit, c) > 0 && !st.written ==> e == LoopEnd(c, Failed, Sent(Some(IoError))))
      && ((Clamp(st.n, limit, c) <= 0 || st.written) && st.err == ReadFailure ==>
            e == LoopEnd(AfterPoll(c, limit, st.n), Failed, Sent(Some(IoError))))
  {
    PollLoopPrefix(downloaded, limit, body, k);
  }

  /** A status set after k clean reads is found by the next poll: Completed
      ends the loop silently, any other status but InProgress is sent back as
      an interruption; the count keeps exactly the bytes read before. */
  lemma StatusAfterPolls(downloaded: int, limit: int, body: seq<Step>, k: nat)
    requires k < |body| && body[k].StatusSet? && body[k].status != InProgress
    requires forall j :: 0 <= j < k ==> CleanPoll(body[j])
    ensures var c := Polled(downloaded, limit, body[..k]);
      var s := body[k].status;
      PollLoop(downloaded, limit, InProgress, body)
        == if s == Completed then LoopEnd(c, Completed, Silent) else LoopEnd(c, s, Sent(Some(NotInProgress(s))))
  {
    PollLoopPrefix(downloaded, limit, body, k);
    assert body[k..][1..] == body[k + 1..];
  }

  /** Bytes offered by a sequence of reads. */
  function Sum(body: seq<Step>): (total: nat)
  {
    if body == [] then 0 else (if body[0].Read? then body[0].n else 0) + Sum(body[1..])
  }

  class Part {
    var partIndex: int
    var startIndex: int
    var endIndex: int
    var downloadedBytes: int
    var rangeOfDownload: string
    var rangeHeader: string
    var status: Status

    constructor (index: int, start: int, end: int)
      ensures partIndex == index && startIndex == start && endIndex == end
      ensures downloadedBytes == 0 && status == Pending
      ensures rangeOfDownload == "" && rangeHeader == ""
    {
      partIndex, startIndex, endIndex := index, start, end;
      downloadedBytes := 0;
      status := Pending;
      rangeOfDownload, rangeHeader := "", "";
    }

    method SetStatus(s: Status)
      modifies this`status
      ensures status == s
    {
      status := s;
    }

    method AddToDownloadedBytes(n: int)
      modifies this`downloadedBytes
      ensures downloadedBytes == old(downloadedBytes) + n
    {
      downloadedBytes := downloadedBytes + n;
    }

    /** Part.start: requestOk is the outcome of client.Do, openOk that of
        os.OpenFile, body the iterations of the loop. */
    method Start(requestOk: bool, openOk: bool, body: seq<Step>) returns (exit: Exit)
      modifies this`status, this`downloadedBytes, this`rangeOfDownload, this`rangeHeader
      ensures old(status) == Completed ==> exit == Sent(None) && unchanged(this)
      ensures old(status) != Completed ==>
        && rangeOfDownload == Itoa(old(startIndex + downloadedBytes)) + "-" + Itoa(endIndex)
        && rangeHeader == "bytes=" + rangeOfDownload
      ensures old(status) != Completed && !(requestOk && openOk) ==>
        status == Failed && exit == Sent(Some(IoError)) && downloadedBytes == old(downloadedBytes)
      ensures old(status) != Completed && requestOk && openOk ==>
        var e := PollLoop(old(downloadedBytes), endIndex - startIndex, InProgress, body);
        downloadedBytes == e.downloaded && status == e.status && exit == e.exit
    {
      if status == Completed {
        return Sent(None);
      }
      SetStatus(InProgress);
      rangeOfDownload := Itoa(startIndex + downloadedBytes) + "-" + Itoa(endIndex);
      rangeHeader := "bytes=" + rangeOfDownload;
      if !requestOk || !openOk {
        SetStatus(Failed);
        return Sent(Some(IoError));
      }
      exit := PollingLoop(body);
    }

    /** The `for` loop of Part.start, entered with the status InProgress. */
    method PollingLoop(body: seq<Step>) returns (exit: Exit)
      requires status == InProgress
      modifies this`status, this`downloadedBytes
      ensures var e := PollLoop(old(downloadedBytes), endIndex - startIndex, InProgress, body);
        downloadedBytes == e.downloaded && status == e.status && exit == e.exit
    {
      ghost var limit := endIndex - startIndex;
      var i := 0;
      while true
        invariant 0 <= i <= |body|
        invariant PollLoop(downloadedBytes, limit, status, body[i..])
               == PollLoop(old(downloadedBytes), limit, InProgress, body)
        decreases |body| - i
      {
        if status == Completed {
          return Silent;
        }
        if status != InProgress {
          return Sent(Some(NotInProgress(status)));
        }
        if i == |body| {
          return Blocked;
        }
        assert body[i..][1..] == body[i + 1..];
        match body[i] {
          case StatusSet(s) =>
            SetStatus(s);
          case Read(read, written, err) =>
            var n := Min(read, endIndex - startIndex - downloadedBytes);
            if n > 0 {
              if !written {
                SetStatus(Failed);
                return Sent(Some(IoError));
              }
              AddToDownloadedBytes(n);
            }
            if err == EOF {
              SetStatus(Completed);
              return Sent(None);
            }
            if err == ReadFailure {
              SetStatus(Failed);
              return Sent(Some(IoError));
            }
        }
        i := i + 1;
      }
    }

    /** pause, pend and cancel of this generation only set the status; the
        running loop notices at its next poll. */
    method Pause()
      modifies this`status
      ensures status == Paused
    {
      SetStatus(Paused);
    }

    method Pend()
      modifies this`status
      ensures status == Pending
    {
      SetStatus(Pending);
    }

    method Cancel()
      modifies this`status
      ensures status == Cancelled
    {
      SetStatus(Cancelled);
    }
  }
}
