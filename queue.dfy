/** The queue of internal/models/queue.go: configuration fields, an active
    flag and the buffered dispatch channel, a bounded FIFO of downloads. */
module ModelsQueue {
  import opened Common

  class Queue {
    var name: string
    var savePath: string
    var numConcurrent: int
    var numRetries: int
    var startTime: Clock
    var endTime: Clock
    var maxBandwidth: int
    var active: bool
    var downloadChan: seq<DownloadInfo>   // buffered dispatch channel, oldest first
    var chanCapacity: nat                 // its buffer size
    var feed: seq<DownloadInfo>           // pending downloads handed to the last Start

    /** The channel never holds more than its buffer size, and an inactive
        queue has nothing buffered and nothing to feed. */
    ghost predicate Valid()
      reads this
    {
      |downloadChan| <= chanCapacity && (!active ==> downloadChan == [] && feed == [])
    }

    /** NewQueue: an inactive queue holding the given configuration. */
    constructor (name: string, savePath: string, numConcurrent: int, numRetries: int,
                 startTime: Clock, endTime: Clock, maxBandwidth: int)
      ensures Valid()
      ensures this.name == name && this.savePath == savePath
      ensures this.numConcurrent == numConcurrent && this.numRetries == numRetries
      ensures this.startTime == startTime && this.endTime == endTime && this.maxBandwidth == maxBandwidth
      ensures !active && downloadChan == [] && feed == []
    {
      this.name, this.savePath := name, savePath;
      this.numConcurrent, this.numRetries := numConcurrent, numRetries;
      this.startTime, this.endTime, this.maxBandwidth := startTime, endTime, maxBandwidth;
      active := false;
      downloadChan, chanCapacity, feed := [], 0, [];
    }

    predicate IsActive()
      reads this
    {
      active
    }

    /** UpdateConfig overwrites the six configuration fields; the name, the
        active flag and the channel are outside its frame. */
    method UpdateConfig(savePath: string, numConcurrent: int, numRetries: int,
                        startTime: Clock, endTime: Clock, maxBandwidth: int)
      modifies this`savePath, this`numConcurrent, this`numRetries, this`startTime, this`endTime, this`maxBandwidth
      ensures this.savePath == savePath && this.numConcurrent == numConcurrent && this.numRetries == numRetries
      ensures this.startTime == startTime && this.endTime == endTime && this.maxBandwidth == maxBandwidth
    {
      this.savePath, this.numConcurrent, this.numRetries := savePath, numConcurrent, numRetries;
      this.startTime, this.endTime, this.maxBandwidth := startTime, endTime, maxBandwidth;
    }

    /** AddDownload: a non-blocking send. An inactive queue ignores the download
        without error; an active one appends it at the back of the channel, or
        reports an error when the buffer is full. Only the channel can change. */
    method AddDownload(d: DownloadInfo) returns (err: bool)
      requires Valid()
      modifies this`downloadChan
      ensures Valid()
      ensures !active ==> !err && downloadChan == old(downloadChan)
      ensures active && |old(downloadChan)| < chanCapacity ==> !err && downloadChan == old(downloadChan) + [d]
      ensures active && |old(downloadChan)| >= chanCapacity ==> err && downloadChan == old(downloadChan)
    {
      if !active {
        return false;
      }
      if |downloadChan| < chanCapacity {
        downloadChan := downloadChan + [d];
        err := false;
      } else {
        err := true;
      }
    }

    /** Queue.Start is not part of the shown source; this is its specification
        as the scheduler relies on it: an inactive queue becomes active with a
        fresh, empty channel of the given capacity and takes the pending
        downloads to feed; an active queue is left as it is. */
    method Start(pending: seq<DownloadInfo>, capacity: nat)
      requires Valid()
      modifies this`active, this`downloadChan, this`chanCapacity, this`feed
      ensures Valid() && active
      ensures !old(active) ==> downloadChan == [] && chanCapacity == capacity && feed == pending
      ensures old(active) ==> downloadChan == old(downloadChan) && chanCapacity == old(chanCapacity) && feed == old(feed)
    {
      if active {
        return;
      }
      active := true;
      downloadChan, chanCapacity, feed := [], capacity, pending;
    }

    /** Queue.Stop, likewise not shown: an active queue becomes inactive and
        its channel is closed, dropping what was still buffered; an inactive
        queue is left as it is. */
    method Stop()
      requires Valid()
      modifies this`active, this`downloadChan, this`feed
      ensures Valid() && !active && downloadChan == [] && feed == []
    {
      if !active {
        return;
      }
      active := false;
      downloadChan, feed := [], [];
    }
  }
}
