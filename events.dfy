/**
 * The daemon's event queues: request handlers append entry events for the
 * watcher thread, and the watcher drains them. Each queue sits behind a
 * lock that is only tried, never waited for; whether another thread holds
 * it at that moment is an input (`busy`).
 */
module Events {
  import opened Wrappers
  import opened Text

  /** Paths that started, or stopped, being registry entries. */
  datatype EntryEvent = Add(added: seq<Text>) | Remove(removed: seq<Text>)

  /** A lock-protected vector of pending events. */
  class Queue<T> {
    var items: seq<T>

    constructor ()
      ensures items == []
    {
      items := [];
    }

    /**
     * `try_write` then push: the event is appended when the lock is free
     * and dropped (the source only logs) when it is not.
     */
    method Push(event: T, busy: bool)
      modifies this
      ensures items == if busy then old(items) else old(items) + [event]
    {
      if !busy {
        items := items + [event];
      }
    }

    /**
     * `try_write` then `mem::take`: the pending events are handed over and
     * the queue is left empty; a busy lock takes nothing.
     */
    method Take(busy: bool) returns (r: Option<seq<T>>)
      modifies this
      ensures busy ==> r.None? && items == old(items)
      ensures !busy ==> r == Some(old(items)) && items == []
    {
      if busy {
        return None;
      }
      r := Some(items);
      items := [];
    }
  }
}
