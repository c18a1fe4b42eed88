/** The registry of internal/manager.go: the list of downloads in insertion
    order, the queues by name, and one tick of the active-hours monitor.
    The manager's mutex only serialises these operations and is left out. */
module DownloadManager {
  import opened Common
  import opened ModelsQueue

  /** The downloads of a queue that are still Pending, in list order. */
  function PendingOf(downloads: seq<DownloadInfo>, queueName: string): (queued: seq<DownloadInfo>)
    decreases |downloads|
  {
    if downloads == [] then []
    else
      var last := downloads[|downloads| - 1];
      PendingOf(downloads[..|downloads| - 1], queueName)
        + (if last.queueName == queueName && last.status == Pending then [last] else [])
  }

  /** The filter keeps exactly the pending downloads of the queue. */
  lemma {:induction false} PendingOfMembers(downloads: seq<DownloadInfo>, queueName: string, d: DownloadInfo)
    ensures d in PendingOf(downloads, queueName) <==> d in downloads && d.queueName == queueName && d.status == Pending
    decreases |downloads|
  {
    if downloads != [] {
      var init := downloads[..|downloads| - 1];
      PendingOfMembers(init, queueName, d);
      assert downloads == init + [downloads[|downloads| - 1]];
    }
  }

  /** The filter distributes over concatenation, so it keeps list order. */
  lemma {:induction false} PendingOfAppend(a: seq<DownloadInfo>, b: seq<DownloadInfo>, queueName: string)
    ensures PendingOf(a + b, queueName) == PendingOf(a, queueName) + PendingOf(b, queueName)
    decreases |b|
  {
    if b != [] {
      var initB := b[..|b| - 1];
      assert (a + b)[..|a + b| - 1] == a + initB;
      PendingOfAppend(a, initB, queueName);
    } else {
      assert a + b == a;
    }
  }

  /** The first index holding d, if any. */
  method IndexOf(downloads: seq<DownloadInfo>, d: DownloadInfo) returns (index: Option<nat>)
    ensures index.None? <==> d !in downloads
    ensures index.Some? ==> index.value < |downloads| && downloads[index.value] == d && d !in downloads[..index.value]
  {
    var i := 0;
    while i < |downloads|
      invariant 0 <= i <= |downloads|
      invariant d !in downloads[..i]
    {
      if downloads[i] == d {
        return Some(i);
      }
      TakeSnoc(downloads, i);
      i := i + 1;
    }
    assert downloads[..i] == downloads;
    return None;
  }

  /** What one monitor tick does to a queue. */
  datatype TickAction = StopQueue | StartQueue | KeepQueue

  /** Stop a queue active outside its window, start one inactive inside it. */
  function TickDecision(isActive: bool, inWindow: bool): (a: TickAction)
    ensures a == KeepQueue <==> isActive == inWindow
    ensures a == StopQueue ==> isActive && !inWindow
    ensures a == StartQueue ==> !isActive && inWindow
  {
    if isActive && !inWindow then StopQueue
    else if !isActive && inWindow then StartQueue
    else KeepQueue
  }

  /** The part of a queue's state that a monitor tick may change. */
  datatype Snapshot = Snapshot(active: bool, downloadChan: seq<DownloadInfo>, chanCapacity: nat, feed: seq<DownloadInfo>)

  function SnapshotOf(q: Queue): (snap: Snapshot)
    reads q
  {
    Snapshot(q.active, q.downloadChan, q.chanCapacity, q.feed)
  }

  class Manager {
    var downloads: seq<DownloadInfo>
    var queues: map<string, Queue>

    /** Each queue is registered under its own name (so distinct names are
        distinct queues), and each queue is consistent. */
    ghost predicate Valid()
      reads this, queues.Values
    {
      forall n :: n in queues ==> queues[n].name == n && queues[n].Valid()
    }

    /** NewManager. */
    constructor ()
      ensures Valid() && downloads == [] && queues == map[]
    {
      downloads := [];
      queues := map[];
    }

    /** addDownload: an unknown queue is an error; an active queue whose
        channel is full rejects the download; otherwise it is appended to the
        list (and sent to the queue when the queue is active). Only the list
        and the channels are in the frame, so every queue keeps its
        configuration, flag, capacity and feed. */
    method AddDownload(d: DownloadInfo) returns (err: bool)
      requires Valid()
      modifies this`downloads, queues.Values`downloadChan
      ensures Valid()
      ensures d.queueName !in queues ==> err && downloads == old(downloads)
      ensures d.queueName in queues ==>
        var q := queues[d.queueName];
        var full := old(q.active) && |old(q.downloadChan)| >= q.chanCapacity;
        && (full ==> err && downloads == old(downloads) && q.downloadChan == old(q.downloadChan))
        && (!full ==> !err && downloads == old(downloads) + [d]
                      && q.downloadChan == (if old(q.active) then old(q.downloadChan) + [d] else old(q.downloadChan)))
      ensures forall n :: n in queues ==>
        queues[n].active == old(queues[n].active) && queues[n].feed == old(queues[n].feed)
        && queues[n].chanCapacity == old(queues[n].chanCapacity)
        && (n != d.queueName ==> queues[n].downloadChan == old(queues[n].downloadChan))
    {
      if d.queueName !in queues {
        return true;
      }
      var q := queues[d.queueName];
      if q.IsActive() {
        err := q.AddDownload(d);
        if err {
          return true;
        }
      }
      downloads := downloads + [d];
      err := false;
    }

    /** removeDownload: deletes the first entry equal to d, keeping the others
        in order; an absent d leaves the list as it is. It never fails. */
    method RemoveDownload(d: DownloadInfo) returns (err: bool)
      modifies this`downloads
      ensures !err
      ensures d !in old(downloads) ==> downloads == old(downloads)
      ensures d in old(downloads) ==>
        exists i :: 0 <= i < |old(downloads)| && old(downloads)[i] == d && d !in old(downloads)[..i]
          && downloads == old(downloads)[..i] + old(downloads)[i + 1..]
      ensures multiset(downloads) == multiset(old(downloads)) - multiset{d}
    {
      var index := IndexOf(downloads, d);
      if index.Some? {
        var i := index.value;
        assert downloads == downloads[..i] + [d] + downloads[i + 1..];
        downloads := downloads[..i] + downloads[i + 1..];
      }
      return false;
    }

    /** addQueue: a name already present is an error; otherwise the queue is
        registered under its name. */
    method AddQueue(q: Queue) returns (err: bool)
      requires Valid() && q.Valid()
      modifies this`queues
      ensures Valid()
      ensures q.name in old(queues) ==> err && queues == old(queues)
      ensures q.name !in old(queues) ==> !err && queues == old(queues)[q.name := q]
    {
      if q.name in queues {
        return true;
      }
      queues := queues[q.name := q];
      err := false;
    }

    /** removeQueue: a missing name is an error; otherwise the queue is
        stopped and exactly its key is deleted. Only the run state of the
        queues is in the frame, and only the removed queue's changes. */
    method RemoveQueue(queueName: string) returns (err: bool)
      requires Valid()
      modifies this`queues, queues.Values`active, queues.Values`downloadChan, queues.Values`feed
      ensures Valid()
      ensures queueName !in old(queues) ==> err && queues == old(queues)
      ensures queueName in old(queues) ==>
        var q := old(queues)[queueName];
        !err && queues == old(queues) - {queueName} && !q.active && q.downloadChan == [] && q.feed == []
      ensures forall n :: n in queues ==>
        queues[n].active == old(queues[n].active) && queues[n].downloadChan == old(queues[n].downloadChan)
        && queues[n].feed == old(queues[n].feed)
    {
      if queueName !in queues {
        return true;
      }
      var q := queues[queueName];
      q.Stop();
      queues := queues - {queueName};
      err := false;
    }

    /** getQueuePendingDownloads: the accumulating filter loop. */
    method GetQueuePendingDownloads(queueName: string) returns (queued: seq<DownloadInfo>)
      ensures queued == PendingOf(downloads, queueName)
    {
      queued := [];
      for i := 0 to |downloads|
        invariant queued == PendingOf(downloads[..i], queueName)
      {
        var d := downloads[i];
        TakeSnoc(downloads, i);
        assert downloads[..i + 1][..i] == downloads[..i];
        if d.queueName == queueName && d.status == Pending {
          queued := queued + [d];
        }
      }
      assert downloads[..|downloads|] == downloads;
    }

    /** A queue's state after its tick, given its state before it. */
    ghost predicate Ticked(n: string, before: Snapshot, inWindow: bool, capacity: nat)
      requires n in queues
      reads this, queues[n]
    {
      var q := queues[n];
      && q.active == inWindow
      && (TickDecision(before.active, inWindow) == StartQueue ==>
            q.feed == PendingOf(downloads, n) && q.downloadChan == [] && q.chanCapacity == capacity)
      && (TickDecision(before.active, inWindow) != StartQueue ==> q.chanCapacity == before.chanCapacity)
      && (TickDecision(before.active, inWindow) == KeepQueue ==>
            q.downloadChan == before.downloadChan && q.feed == before.feed)
    }

    /** The body of monitorActiveHours for one queue: stop it when it is
        active outside its window, start it with the pending downloads of its
        name when it is inactive inside it, otherwise leave it as it is. */
    method TickQueue(q: Queue, inWindow: bool, capacity: nat)
      requires q.Valid()
      modifies q`active, q`downloadChan, q`chanCapacity, q`feed
      ensures q.Valid() && q.active == inWindow
      ensures TickDecision(old(q.active), inWindow) == StartQueue ==>
        q.feed == PendingOf(downloads, q.name) && q.downloadChan == [] && q.chanCapacity == capacity
      ensures TickDecision(old(q.active), inWindow) != StartQueue ==> q.chanCapacity == old(q.chanCapacity)
      ensures TickDecision(old(q.active), inWindow) == KeepQueue ==>
        q.downloadChan == old(q.downloadChan) && q.feed == old(q.feed)
    {
      match TickDecision(q.IsActive(), inWindow) {
        case StopQueue =>
          q.Stop();
        case StartQueue =>
          var queued := GetQueuePendingDownloads(q.name);
          q.Start(queued, capacity);
        case KeepQueue =>
      }
    }

    /** Partway through a tick: the queues still to visit are as they were,
        the visited ones have settled. */
    ghost predicate Progress(was: map<string, Snapshot>, remaining: set<string>, inWindow: string -> bool, capacity: nat)
      reads this, queues.Values
    {
      && remaining <= queues.Keys == was.Keys
      && Valid()
      && (forall n :: n in remaining ==> SnapshotOf(queues[n]) == was[n])
      && (forall n :: n in queues && n !in remaining ==> Ticked(n, was[n], inWindow(n), capacity))
    }

    /** One iteration of the monitor loop. */
    method TickStep(name: string, ghost was: map<string, Snapshot>, ghost remaining: set<string>,
                    inWindow: string -> bool, capacity: nat)
      requires Progress(was, remaining, inWindow, capacity) && name in remaining
      modifies queues.Values`active, queues.Values`downloadChan, queues.Values`chanCapacity, queues.Values`feed
      ensures Progress(was, remaining - {name}, inWindow, capacity)
    {
      var q := queues[name];
      assert forall m :: m in queues && m != name ==> queues[m] != q;
      label before:
      TickQueue(q, inWindow(name), capacity);
      assert Ticked(name, was[name], inWindow(name), capacity);
      assert q.name == name && q.Valid();
      forall m | m in queues && m != name
        ensures queues[m].name == m && queues[m].Valid()
        ensures Ticked(m, was[m], inWindow(m), capacity) <==> old@before(Ticked(m, was[m], inWindow(m), capacity))
        ensures SnapshotOf(queues[m]) == old@before(SnapshotOf(queues[m]))
      {
        assert queues[m] != q;
      }
    }

    /** One tick of monitorActiveHours over every queue. inWindow(name) is
        what that queue's CheckActiveTime answers for the current time;
        capacity is the buffer size a started queue gets. Afterwards every
        queue is active exactly when it is inside its window; a queue that was
        started holds the pending downloads of its name and a fresh channel of
        the given capacity; a queue already in the right state keeps its
        channel, capacity and feed. Only the run state of the queues is in the
        frame, so their configuration is untouched. */
    method MonitorTick(inWindow: string -> bool, capacity: nat)
      requires Valid()
      modifies queues.Values`active, queues.Values`downloadChan, queues.Values`chanCapacity, queues.Values`feed
      ensures Valid()
      ensures forall n :: n in queues ==> queues[n].active == inWindow(n)
      ensures forall n :: n in queues && TickDecision(old(queues[n].active), inWindow(n)) == StartQueue ==>
        queues[n].feed == PendingOf(downloads, n) && queues[n].downloadChan == [] && queues[n].chanCapacity == capacity
      ensures forall n :: n in queues && TickDecision(old(queues[n].active), inWindow(n)) != StartQueue ==>
        queues[n].chanCapacity == old(queues[n].chanCapacity)
      ensures forall n :: n in queues && TickDecision(old(queues[n].active), inWindow(n)) == KeepQueue ==>
        queues[n].downloadChan == old(queues[n].downloadChan) && queues[n].feed == old(queues[n].feed)
    {
      ghost var was := map n | n in queues :: SnapshotOf(queues[n]);
      var remaining := queues.Keys;
      while remaining != {}
        invariant Progress(was, remaining, inWindow, capacity)
        decreases |remaining|
      {
        var name :| name in remaining;
        TickStep(name, was, remaining, inWindow, capacity);
        remaining := remaining - {name};
      }
    }
  }
}
