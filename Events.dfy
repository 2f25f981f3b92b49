/**
  File-system events and the queue that carries them between the management service,
  a consumer and an action (a java.util.Queue of FileSystemEvent in the system).
*/
module Events {
  import opened Wrappers

  /** The change kind tag of an event. */
  datatype EventKind = FileAdded | FileModified | FileRemoved

  /** One unit of input: the path of a file and what happened to it. */
  datatype FileEvent = FileEvent(source: string, kind: EventKind)

  /** A FIFO queue of events that actions read and clear in place. */
  class EventQueue {
    var items: seq<FileEvent>

    constructor (items: seq<FileEvent>)
      ensures this.items == items
    {
      this.items := items;
    }

    /** `Queue.peek`: the head without removing it, or null on an empty queue. */
    method Peek() returns (head: Option<FileEvent>)
      ensures head.None? <==> items == []
      ensures head.Some? ==> head.value == items[0]
    {
      if items == [] {
        head := None;
      } else {
        head := Some(items[0]);
      }
    }

    /** `Queue.add`: append at the tail. */
    method Add(e: FileEvent)
      modifies this
      ensures items == old(items) + [e]
    {
      items := items + [e];
    }

    /** `Queue.clear`. */
    method Clear()
      modifies this
      ensures items == []
    {
      items := [];
    }
  }
}
