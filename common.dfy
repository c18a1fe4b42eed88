/** Vocabulary shared by the download engine, the scheduler and the terminal UI. */
module Common {

  datatype Option<T> = None | Some(value: T)

  /** Lifecycle of a download and of each of its parts, in the order of the
      iota constants of internal/download.go (Pending = 0 ... Completed = 5). */
  datatype Status = Pending | InProgress | Paused | Cancelled | Failed | Completed

  /** A clock time of day with minute resolution, as the queue editor keeps it ("15:04"). */
  datatype Clock = Clock(hour: int, minute: int)

  /** What the manager and the UI know about one download. Two entries are the
      same download exactly when they are equal (the id makes them distinct). */
  datatype DownloadInfo = DownloadInfo(id: int, url: string, queueName: string, status: Status, transferRate: int)

  /** Go's integer division, which truncates toward zero (Dafny's rounds toward
      minus infinity for a negative dividend). */
  function GoDiv(a: int, b: int): (q: int)
    requires b > 0
  {
    if a >= 0 then a / b else -((-a) / b)
  }

  lemma TakeSnoc<T>(s: seq<T>, i: nat)
    requires i < |s|
    ensures s[..i + 1] == s[..i] + [s[i]]
  {
  }

  lemma DropCons<T>(s: seq<T>, i: nat)
    requires i < |s|
    ensures s[i..][0] == s[i] && s[i..][1..] == s[i + 1..]
  {
  }

  function Min(a: int, b: int): (m: int)
    ensures m <= a && m <= b && (m == a || m == b)
  {
    if a <= b then a else b
  }

  function Max(a: int, b: int): (m: int)
    ensures m >= a && m >= b && (m == a || m == b)
  {
    if a >= b then a else b
  }
}
