/** The downloads table of internal/tui/downloads_tab.go: how a transfer rate
    and a status are shown, the row built for each download, and which manager
    call the Pause, Retry and Delete keys make for the row under the cursor. */
module DownloadsView {
  import opened Common
  import opened Decimal

  const KiB := 1024
  const MiB := 1024 * 1024

  /** speedString: bytes per second in B/s, KB/s or MB/s, the number
      truncated by integer division. */
  function SpeedString(speed: int): (text: string)
  {
    if speed < KiB then Itoa(speed) + " B/s"
    else if speed < MiB then Itoa(speed / KiB) + " KB/s"
    else Itoa(speed / KiB / KiB) + " MB/s"
  }

  /** Reads a shown rate back as the half-open range [lo, hi) of rates that
      display as that text. */
  function ReadSpeed(s: string): (range: Option<(int, int)>)
  {
    if |s| >= 5 && s[|s| - 5..] == " MB/s" && ParseDecimal(s[..|s| - 5]).Some? then
      var v := ParseDecimal(s[..|s| - 5]).value;
      Some((v * MiB, (v + 1) * MiB))
    else if |s| >= 5 && s[|s| - 5..] == " KB/s" && ParseDecimal(s[..|s| - 5]).Some? then
      var v := ParseDecimal(s[..|s| - 5]).value;
      Some((v * KiB, (v + 1) * KiB))
    else if |s| >= 4 && s[|s| - 4..] == " B/s" && ParseDecimal(s[..|s| - 4]).Some? then
      var v := ParseDecimal(s[..|s| - 4]).value;
      Some((v, v + 1))
    else None
  }

  lemma DivBounds(speed: int, unit: int)
    requires unit > 0 && speed >= 0
    ensures (speed / unit) * unit <= speed < (speed / unit + 1) * unit
  {
  }

  /** The shown text names the unit and the truncated count: every rate reads
      back as the unit-wide range that contains it, so the text is exact below
      1024 (negative rates included) and never overstates the rate. */
  lemma SpeedStringReadsBack(speed: int)
    ensures ReadSpeed(SpeedString(speed)).Some?
    ensures var (lo, hi) := ReadSpeed(SpeedString(speed)).value;
      lo <= speed < hi
      && (speed < KiB ==> lo == speed && hi == speed + 1)
      && (KiB <= speed < MiB ==> hi - lo == KiB && lo >= KiB)
      && (MiB <= speed ==> hi - lo == MiB && lo >= MiB)
  {
    var s := SpeedString(speed);
    if speed < KiB {
      ItoaRoundTrip(speed);
      assert s[..|s| - 4] == Itoa(speed);
      assert s[|s| - 5..] != " MB/s" && s[|s| - 5..] != " KB/s" by {
        if |s| >= 5 { assert s[|s| - 5..][1] == ' '; }
      }
    } else if speed < MiB {
      var v := speed / KiB;
      ItoaRoundTrip(v);
      assert s[..|s| - 5] == Itoa(v);
      assert s[|s| - 5..] == " KB/s";
      DivBounds(speed, KiB);
    } else {
      var v := speed / KiB / KiB;
      assert v == speed / MiB;
      ItoaRoundTrip(v);
      assert s[..|s| - 5] == Itoa(v);
      assert s[|s| - 5..] == " MB/s";
      DivBounds(speed, MiB);
    }
  }

  /** The status column: the four labelled statuses, blank for the others. */
  function StatusLabel(status: Status): (text: string)
    ensures text == "" <==> status == Pending || status == Cancelled
  {
    match status
    case InProgress => "Downloading"
    case Paused => "Paused"
    case Completed => "Completed"
    case Failed => "Failed"
    case _ => ""
  }

  /** Distinct labelled statuses get distinct labels. */
  lemma StatusLabelInjective(a: Status, b: Status)
    requires StatusLabel(a) == StatusLabel(b) != ""
    ensures a == b
  {
  }

  /** One table row: URL, queue, status label and rate (the progress column,
      a float, is not part of this model). */
  datatype Row = Row(url: string, queue: string, status: string, rate: string)

  function RowOf(d: DownloadInfo): (row: Row)
  {
    Row(d.url, d.queueName, StatusLabel(d.status), SpeedString(d.transferRate))
  }

  /** What a key press asks of the manager. */
  datatype Action = NoAction | Quit | PauseDownload(id: int) | ResumeDownload(id: int) | RemoveDownload(id: int)

  /** The dispatch of Update for one key: Pause toggles an in-progress or a
      paused download, Retry resumes a failed one, Delete removes any; each
      only when the cursor is on a row. */
  function KeyAction(key: string, cursor: int, downloads: seq<DownloadInfo>): (a: Action)
    ensures a.PauseDownload? || a.ResumeDownload? || a.RemoveDownload? ==>
      0 <= cursor < |downloads| && a.id == downloads[cursor].id
    ensures a.PauseDownload? <==> key == "p" && 0 <= cursor < |downloads| && downloads[cursor].status == InProgress
    ensures a.ResumeDownload? <==>
      0 <= cursor < |downloads|
      && ((key == "p" && downloads[cursor].status == Paused) || (key == "r" && downloads[cursor].status == Failed))
    ensures a.RemoveDownload? <==> key == "d" && 0 <= cursor < |downloads|
    ensures a == Quit <==> key == "ctrl+c" || key == "esc"
  {
    var onRow := 0 <= cursor < |downloads|;
    if key == "p" then
      if onRow && downloads[cursor].status == InProgress then PauseDownload(downloads[cursor].id)
      else if onRow && downloads[cursor].status == Paused then ResumeDownload(downloads[cursor].id)
      else NoAction
    else if key == "r" then
      if onRow && downloads[cursor].status == Failed then ResumeDownload(downloads[cursor].id)
      else NoAction
    else if key == "d" then
      if onRow then RemoveDownload(downloads[cursor].id) else NoAction
    else if key == "ctrl+c" || key == "esc" then Quit
    else NoAction
  }

  class DownloadsTab {
    var downloads: seq<DownloadInfo>
    var rows: seq<Row>
    var footer: string

    /** The table shows one row per download, in list order. */
    ghost predicate Valid()
      reads this
    {
      |rows| == |downloads| && forall i :: 0 <= i < |rows| ==> rows[i] == RowOf(downloads[i])
    }

    /** NewDownloadsTab, which fills the table from the manager's list. */
    constructor (list: seq<DownloadInfo>)
      ensures Valid() && downloads == list && footer == "."
    {
      downloads, rows, footer := [], [], "";
      new;
      UpdateRows(list);
    }

    /** updateRows: re-reads the manager's list (passed in) and rebuilds the
        rows, appending a dot to the footer. */
    method UpdateRows(list: seq<DownloadInfo>)
      modifies this
      ensures Valid() && downloads == list && footer == old(footer) + "."
    {
      var built: seq<Row> := [];
      for i := 0 to |list|
        invariant |built| == i
        invariant forall j :: 0 <= j < i ==> built[j] == RowOf(list[j])
      {
        built := built + [RowOf(list[i])];
      }
      footer := footer + ".";
      downloads, rows := list, built;
    }

    /** Update for a key press: refresh from the manager's list, work out the
        call the key makes, and refresh again from the list the manager holds
        after that call when one was made. */
    method Update(key: string, cursor: int, list: seq<DownloadInfo>, listAfterCall: seq<DownloadInfo>)
      returns (action: Action)
      modifies this
      ensures Valid()
      ensures action == KeyAction(key, cursor, list)
      ensures action.PauseDownload? || action.ResumeDownload? || action.RemoveDownload? ==>
        downloads == listAfterCall && footer == old(footer) + ".."
      ensures !(action.PauseDownload? || action.ResumeDownload? || action.RemoveDownload?) ==>
        downloads == list && footer == old(footer) + "."
    {
      UpdateRows(list);
      action := KeyAction(key, cursor, downloads);
      if action.PauseDownload? || action.ResumeDownload? || action.RemoveDownload? {
        UpdateRows(listAfterCall);
      }
    }
  }
}
