/**
 * The `notify`-crate watcher of the daemon: a callback queues removal
 * events, a drain loop clears the registry entries of removed paths, and
 * the entry events of the request handlers start and stop watches.
 *
 * The watcher's own state is modelled as the set of watched paths, and
 * whether a watch or an unwatch succeeds is an input.
 */
module Notifyd {
  import opened Wrappers
  import opened Text
  import opened Io
  import opened Registry
  import Events
  import Daemon
  import Colors

  datatype RemoveKind = Any | File | Folder | Other

  /** The kinds of file-system event the watcher reports. */
  datatype EventKind = AnyKind | Access | Create | Modify | Remove(RemoveKind) | OtherKind

  datatype NotifyEvent = NotifyEvent(kind: EventKind, paths: seq<Path>)

  /** Why a watch or an unwatch failed: an I/O error of some kind, or the watcher's own. */
  datatype WatchError = IoFailure(kind: ErrorKind) | WatcherFailure(message: Text)

  const LOCK_NOTIFY_FAILED: Text := "failed to lock notify events, reason: "
  const LOCK_ENTRIES_FAILED: Text := "failed to lock entries events, reason: "

  /** Whether the callback keeps an event: a read error is dropped, and so is every kind but removal. */
  function Kept(event: Result<NotifyEvent, Text>): (r: bool)
    ensures r <==> event.Ok? && event.value.kind.Remove?
  {
    match event
    case Err(_) => false
    case Ok(e) =>
      match e.kind
      case Remove(File) | Remove(Any) | Remove(Folder) | Remove(Other) => true
      case _ => false
  }

  /** `Handler::handle_event`: a removal is queued when the queue's lock is free. */
  method HandleEvent(queue: Events.Queue<NotifyEvent>, event: Result<NotifyEvent, Text>, busy: bool)
    modifies queue
    ensures queue.items == old(queue.items) + if Kept(event) && !busy then [event.value] else []
  {
    if event.Ok? && event.value.kind.Remove? {
      queue.Push(event.value, busy);
    }
  }

  /* ---------------------------------------------------------------------- */
  /* Specification of the drain loops                                        */
  /* ---------------------------------------------------------------------- */

  /** A watch that failed because the path no longer exists. */
  predicate Missing(outcome: Option<WatchError>)
  {
    outcome.Some? && outcome.value.IoFailure? && outcome.value.kind == NotFound
  }

  /**
   * `rebuild_watch_descriptors`' effect on the registry: the entries whose
   * watch failed with a not-found error go; tag sets are left alone.
   */
  function Pruned(s: Snapshot, watch: Path -> Option<WatchError>): (r: Snapshot)
    ensures r.tags == s.tags
    ensures forall e :: e in r.entries <==> e in s.entries && !Missing(watch(s.entries[e].path))
    ensures forall e | e in r.entries :: r.entries[e] == s.entries[e]
  {
    s.(entries := map e | e in s.entries && !Missing(watch(s.entries[e].path)) :: s.entries[e])
  }

  lemma PrunedKeepsValid(s: Snapshot, watch: Path -> Option<WatchError>)
    requires Valid(s)
    ensures Valid(Pruned(s, watch))
  {
    Daemon.ShrinkKeepsPathsUnique(s, Pruned(s, watch));
  }

  /** Every path of the events, in order. */
  function Paths(events: seq<NotifyEvent>): (r: seq<Path>)
    ensures forall p :: p in r <==> exists i | 0 <= i < |events| :: p in events[i].paths
    decreases |events|
  {
    if events == [] then []
    else
      var k := |events| - 1;
      assert forall i | 0 <= i < k :: events[..k][i] == events[i];
      Paths(events[..k]) + events[k].paths
  }

  /** The entry of the path, if any, is cleared. */
  function ClearedPath(s: Snapshot, path: Path): Snapshot
  {
    match Daemon.Lookup(s, path)
    case None => s
    case Some(id) => Cleared(s, id)
  }

  /** `handle_notify_events`' effect: each path's entry is cleared, in order. */
  function ClearedPaths(s: Snapshot, paths: seq<Path>): (r: Snapshot)
    ensures Daemon.EntriesShrink(s, r)
    decreases |paths|
  {
    if paths == [] then s
    else ClearedPath(ClearedPaths(s, paths[..|paths| - 1]), paths[|paths| - 1])
  }

  lemma ClearedPathsStep(s: Snapshot, done: seq<Path>, paths: seq<Path>, j: nat)
    requires j < |paths|
    ensures ClearedPaths(s, done + paths[..j + 1]) == ClearedPath(ClearedPaths(s, done + paths[..j]), paths[j])
  {
    assert (done + paths[..j + 1])[..|done + paths[..j + 1]| - 1] == done + paths[..j];
  }

  /**
   * After the drain, no drained path has an entry, and every entry whose
   * path was not drained is kept as it was.
   */
  lemma {:induction false} ClearedPathsAreGone(s: Snapshot, paths: seq<Path>)
    requires PathsUnique(s)
    ensures forall p | p in paths :: Daemon.Gone(ClearedPaths(s, paths), p)
    ensures forall e | e in s.entries && s.entries[e].path !in paths ::
      e in ClearedPaths(s, paths).entries && ClearedPaths(s, paths).entries[e] == s.entries[e]
    decreases |paths|
  {
    if paths != [] {
      var k := |paths| - 1;
      ClearedPathsAreGone(s, paths[..k]);
      var mid := ClearedPaths(s, paths[..k]);
      var r := ClearedPaths(s, paths);
      Daemon.ShrinkKeepsPathsUnique(s, mid);
      forall p | p in paths
        ensures Daemon.Gone(r, p)
      {
        if p in paths[..k] {
          Daemon.ShrinkKeepsGone(mid, r, p);
        } else {
          var l := Daemon.Lookup(mid, p);
          if l.Some? {
            forall e | e in r.entries
              ensures r.entries[e].path != p
            {
              assert e in mid.entries && e != l.value;
            }
          }
        }
      }
      forall e | e in s.entries && s.entries[e].path !in paths
        ensures e in r.entries && r.entries[e] == s.entries[e]
      {
        assert s.entries[e].path !in paths[..k];
        assert s.entries[e].path != paths[k];
      }
    }
  }

  lemma {:induction false} ClearedPathsKeepsValid(s: Snapshot, paths: seq<Path>)
    requires Valid(s)
    ensures Valid(ClearedPaths(s, paths))
    decreases |paths|
  {
    if paths != [] {
      var k := |paths| - 1;
      ClearedPathsKeepsValid(s, paths[..k]);
      var mid := ClearedPaths(s, paths[..k]);
      if id :| Daemon.Lookup(mid, paths[k]) == Some(id) {
        ClearedKeepsValid(mid, id);
      }
    }
  }

  /** The paths the events add, or remove. */
  function EventPaths(events: seq<Events.EntryEvent>, adds: bool): (r: set<Path>)
    ensures forall p :: p in r <==> exists i | 0 <= i < |events| ::
      (if adds then events[i].Add? && p in events[i].added else events[i].Remove? && p in events[i].removed)
    decreases |events|
  {
    if events == [] then {}
    else
      var k := |events| - 1;
      assert forall i | 0 <= i < k :: events[..k][i] == events[i];
      var e := events[k];
      EventPaths(events[..k], adds) + if adds && e.Add? then set p | p in e.added else if !adds && e.Remove? then set p | p in e.removed else {}
  }

  /**
   * One entry event's effect on the watched set: each path of an `Add` is
   * watched when its watch succeeds, each path of a `Remove` unwatched when
   * its unwatch succeeds; `outcome(j)` answers for the j-th path.
   */
  function Replayed(watched: set<Path>, paths: seq<Path>, add: bool, outcome: nat -> Option<WatchError>): (r: set<Path>)
    ensures add ==> watched <= r && forall p | p in r :: p in watched || p in paths
    ensures !add ==> r <= watched && forall p | p in watched && p !in paths :: p in r
    ensures add ==> forall j | 0 <= j < |paths| && outcome(j).None? :: paths[j] in r
    ensures !add ==> forall j | 0 <= j < |paths| && outcome(j).None? :: paths[j] !in r
    ensures add ==> forall p | p in r && p !in watched :: Succeeds(paths, outcome, p)
    ensures !add ==> forall p | p in watched && p !in r :: Succeeds(paths, outcome, p)
    decreases |paths|
  {
    if paths == [] then watched
    else
      var k := |paths| - 1;
      var before := Replayed(watched, paths[..k], add, outcome);
      assert forall p | p in paths[..k] :: p in paths;
      assert forall j | 0 <= j < k :: paths[..k][j] == paths[j];
      assert forall p | Succeeds(paths[..k], outcome, p) :: Succeeds(paths, outcome, p);
      if outcome(k).Some? then before
      else if add then before + {paths[k]}
      else before - {paths[k]}
  }

  /** Some path of the list is `p` and its watch (or unwatch) succeeds. */
  predicate Succeeds(paths: seq<Path>, outcome: nat -> Option<WatchError>, p: Path)
  {
    exists j | 0 <= j < |paths| :: paths[j] == p && outcome(j).None?
  }

  /** The j-th path of event i is watched (`Add`) or unwatched (`Remove`) without error. */
  predicate SucceedsAt(events: seq<Events.EntryEvent>, outcome: (nat, nat) -> Option<WatchError>, i: nat, p: Path)
    requires i < |events|
  {
    Succeeds(if events[i].Add? then events[i].added else events[i].removed, (n: nat) => outcome(i, n), p)
  }

  lemma ReplayedAllStep(watched: set<Path>, events: seq<Events.EntryEvent>, i: nat, outcome: (nat, nat) -> Option<WatchError>)
    requires i < |events|
    ensures ReplayedAll(watched, events[..i + 1], outcome) ==
      Replayed(ReplayedAll(watched, events[..i], outcome),
        if events[i].Add? then events[i].added else events[i].removed, events[i].Add?, (n: nat) => outcome(i, n))
  {
    assert events[..i + 1][..i] == events[..i];
  }

  /** The effect of a drained queue of entry events, event by event. */
  function ReplayedAll(watched: set<Path>, events: seq<Events.EntryEvent>, outcome: (nat, nat) -> Option<WatchError>): (r: set<Path>)
    ensures forall p | p in r :: p in watched || p in EventPaths(events, true)
    ensures forall p | p in watched && p !in EventPaths(events, false) :: p in r
    decreases |events|
  {
    if events == [] then watched
    else
      var k := |events| - 1;
      var before := ReplayedAll(watched, events[..k], outcome);
      assert forall p | p in EventPaths(events[..k], true) :: p in EventPaths(events, true);
      assert forall p | p !in EventPaths(events, false) :: p !in EventPaths(events[..k], false);
      match events[k]
      case Add(paths) => Replayed(before, paths, true, (j: nat) => outcome(k, j))
      case Remove(paths) => Replayed(before, paths, false, (j: nat) => outcome(k, j))
  }

  /**
   * A path is watched after one event as before it, unless the event's own
   * watch (for an `Add`) or unwatch (for a `Remove`) of it succeeds.
   */
  lemma ReplayedKeeps(watched: set<Path>, paths: seq<Path>, add: bool, outcome: nat -> Option<WatchError>, p: Path)
    requires !Succeeds(paths, outcome, p)
    ensures p in Replayed(watched, paths, add, outcome) <==> p in watched
  {
  }

  /** A path the event watches (or unwatches) without error is watched (or not) afterwards. */
  lemma ReplayedSucceeds(watched: set<Path>, paths: seq<Path>, add: bool, outcome: nat -> Option<WatchError>, p: Path)
    requires Succeeds(paths, outcome, p)
    ensures p in Replayed(watched, paths, add, outcome) <==> add
  {
    var j :| 0 <= j < |paths| && paths[j] == p && outcome(j).None?;
  }

  /**
   * The last successful operation on a path decides: a path an event adds
   * without error stays watched unless a later event removes it without
   * error.
   */
  lemma {:induction false} ReplayedAllKeepsAdded(watched: set<Path>, events: seq<Events.EntryEvent>, outcome: (nat, nat) -> Option<WatchError>, i: nat, p: Path)
    requires i < |events| && events[i].Add? && SucceedsAt(events, outcome, i, p)
    requires forall l | i < l < |events| :: !(events[l].Remove? && SucceedsAt(events, outcome, l, p))
    ensures p in ReplayedAll(watched, events, outcome)
    decreases |events|
  {
    var k := |events| - 1;
    ReplayedAllStep(watched, events, k, outcome);
    assert events[..k + 1] == events;
    var before := ReplayedAll(watched, events[..k], outcome);
    var paths := if events[k].Add? then events[k].added else events[k].removed;
    var f := (n: nat) => outcome(k, n);
    assert ReplayedAll(watched, events, outcome) == Replayed(before, paths, events[k].Add?, f);
    if i < k {
      assert forall l | i < l < k :: events[..k][l] == events[l];
      ReplayedAllKeepsAdded(watched, events[..k], outcome, i, p);
      if events[k].Remove? {
        assert !SucceedsAt(events, outcome, k, p);
        ReplayedKeeps(before, paths, false, f, p);
      }
    } else {
      ReplayedSucceeds(before, paths, events[k].Add?, f, p);
    }
  }

  /**
   * The mirror image: a path an event removes without error stays unwatched
   * unless a later event adds it without error.
   */
  lemma {:induction false} ReplayedAllKeepsRemoved(watched: set<Path>, events: seq<Events.EntryEvent>, outcome: (nat, nat) -> Option<WatchError>, i: nat, p: Path)
    requires i < |events| && events[i].Remove? && SucceedsAt(events, outcome, i, p)
    requires forall l | i < l < |events| :: !(events[l].Add? && SucceedsAt(events, outcome, l, p))
    ensures p !in ReplayedAll(watched, events, outcome)
    decreases |events|
  {
    var k := |events| - 1;
    ReplayedAllStep(watched, events, k, outcome);
    assert events[..k + 1] == events;
    var before := ReplayedAll(watched, events[..k], outcome);
    var paths := if events[k].Add? then events[k].added else events[k].removed;
    var f := (n: nat) => outcome(k, n);
    assert ReplayedAll(watched, events, outcome) == Replayed(before, paths, events[k].Add?, f);
    if i < k {
      assert forall l | i < l < k :: events[..k][l] == events[l];
      ReplayedAllKeepsRemoved(watched, events[..k], outcome, i, p);
      if events[k].Add? {
        assert !SucceedsAt(events, outcome, k, p);
        ReplayedKeeps(before, paths, true, f, p);
      }
    } else {
      ReplayedSucceeds(before, paths, events[k].Add?, f, p);
    }
  }

  /* ---------------------------------------------------------------------- */
  /* The watcher                                                             */
  /* ---------------------------------------------------------------------- */

  class NotifyDaemon {
    /** The paths the watcher is watching. */
    var watched: set<Path>

    constructor ()
      ensures watched == {}
    {
      watched := {};
    }

    /** `add_watch_entry`. */
    method AddWatchEntry(path: Path, outcome: Option<WatchError>) returns (r: Result<(), WatchError>)
      modifies this
      ensures outcome.None? ==> r.Ok? && watched == old(watched) + {path}
      ensures outcome.Some? ==> r == Err(outcome.value) && watched == old(watched)
    {
      if outcome.Some? {
        return Err(outcome.value);
      }
      watched := watched + {path};
      r := Ok(());
    }

    /** `remove_watch_entry`. */
    method RemoveWatchEntry(path: Path, outcome: Option<WatchError>) returns (r: Result<(), WatchError>)
      modifies this
      ensures outcome.None? ==> r.Ok? && watched == old(watched) - {path}
      ensures outcome.Some? ==> r == Err(outcome.value) && watched == old(watched)
    {
      if outcome.Some? {
        return Err(outcome.value);
      }
      watched := watched - {path};
      r := Ok(());
    }

    /**
     * `rebuild_watch_descriptors`: every entry is watched again, in hash
     * order; the entries whose path is gone are then removed by path.
     */
    method RebuildWatchDescriptors(reg: TagRegistry, watch: Path -> Option<WatchError>)
      modifies this, reg
      requires Valid(reg.State())
      ensures reg.State() == Pruned(old(reg.State()), watch)
      ensures watched == old(watched) + set d | d in old(reg.entries).Values && watch(d.path).None? :: d.path
    {
      ghost var s0 := reg.State();
      var toRemove := WatchEntries(reg.entries, watch);
      RemoveEntries(reg, toRemove);
      forall e | e in s0.entries
        ensures s0.entries[e] in toRemove <==> Missing(watch(s0.entries[e].path))
      {
        assert s0.entries[e] in s0.entries.Values;
      }
    }

    /** The first pass: each entry is watched, and those whose path is missing are noted. */
    method WatchEntries(entries: map<EntryId, EntryData>, watch: Path -> Option<WatchError>) returns (toRemove: seq<EntryData>)
      modifies this
      ensures forall d :: d in toRemove <==> d in entries.Values && Missing(watch(d.path))
      ensures watched == old(watched) + set d | d in entries.Values && watch(d.path).None? :: d.path
    {
      var todo := entries.Values;
      ghost var done: set<EntryData> := {};
      toRemove := [];
      while todo != {}
        invariant todo + done == entries.Values
        invariant forall d :: d in toRemove <==> d in done && Missing(watch(d.path))
        invariant watched == old(watched) + set d | d in done && watch(d.path).None? :: d.path
        decreases todo
      {
        var d :| d in todo;
        var _ := AddWatchEntry(d.path, watch(d.path));
        if Missing(watch(d.path)) {
          toRemove := toRemove + [d];
        }
        todo, done := todo - {d}, done + {d};
      }
    }

    /**
     * `handle_entries_events`: a busy queue is an error and consumes
     * nothing; an empty one changes nothing; otherwise the queue is
     * drained and each event's paths are watched or unwatched, failures
     * skipped.
     */
    method HandleEntriesEvents(queue: Events.Queue<Events.EntryEvent>, lockFault: Option<Text>, outcome: (nat, nat) -> Option<WatchError>)
      returns (r: Result<(), Text>)
      modifies this, queue
      ensures lockFault.Some? ==> r == Err(LOCK_ENTRIES_FAILED + lockFault.value) && watched == old(watched) && queue.items == old(queue.items)
      ensures lockFault.None? ==> r.Ok? && queue.items == [] && watched == ReplayedAll(old(watched), old(queue.items), outcome)
    {
      if lockFault.Some? {
        return Err(LOCK_ENTRIES_FAILED + lockFault.value);
      }
      if queue.items == [] {
        return Ok(());
      }
      var taken := queue.Take(false);
      var events := taken.value;
      ghost var w0 := watched;
      var i := 0;
      while i < |events|
        invariant 0 <= i <= |events|
        invariant watched == ReplayedAll(w0, events[..i], outcome)
        invariant queue.items == []
      {
        var paths, add := if events[i].Add? then events[i].added else events[i].removed, events[i].Add?;
        ReplayedAllStep(w0, events, i, outcome);
        ReplayPaths(paths, add, (n: nat) => outcome(i, n));
        i := i + 1;
      }
      assert events[..i] == events;
      r := Ok(());
    }

    /**
     * One drained event: each of its paths watched, or unwatched, in order,
     * failures only logged.
     */
    method ReplayPaths(paths: seq<Path>, add: bool, outcome: nat -> Option<WatchError>)
      modifies this
      ensures watched == Replayed(old(watched), paths, add, outcome)
    {
      var j := 0;
      while j < |paths|
        invariant 0 <= j <= |paths|
        invariant watched == Replayed(old(watched), paths[..j], add, outcome)
      {
        if add {
          var _ := AddWatchEntry(paths[j], outcome(j));
        } else {
          var _ := RemoveWatchEntry(paths[j], outcome(j));
        }
        assert paths[..j + 1][..j] == paths[..j];
        j := j + 1;
      }
      assert paths[..j] == paths;
    }
  }


  /** The second pass: each noted entry is found by its path and removed. */
  method RemoveEntries(reg: TagRegistry, toRemove: seq<EntryData>)
    modifies reg
    requires Valid(reg.State())
    ensures reg.tags == old(reg.tags)
    ensures reg.entries == map e | e in old(reg.entries) && old(reg.entries)[e] !in toRemove :: old(reg.entries)[e]
    ensures Valid(reg.State())
  {
    ghost var s0 := reg.State();
    var k := 0;
    while k < |toRemove|
      invariant 0 <= k <= |toRemove|
      invariant reg.tags == s0.tags
      invariant reg.entries == map e | e in s0.entries && s0.entries[e] !in toRemove[..k] :: s0.entries[e]
      invariant Valid(reg.State())
    {
      ghost var before := reg.State();
      var found := reg.FindEntry(toRemove[k].path);
      Daemon.FindEntryIsLookup(before, toRemove[k].path, found);
      if found.Some? {
        var _ := reg.RemoveEntry(found.value);
        RemoveAndRecolorKeepValid(before, found.value, [], Colors.Color.White);
      }
      PruneStep(s0, before, toRemove, k, found);
      k := k + 1;
    }
    assert toRemove[..k] == toRemove;
  }

  lemma PruneStep(s0: Snapshot, before: Snapshot, toRemove: seq<EntryData>, k: nat, found: Option<EntryId>)
    requires k < |toRemove|
    requires before.entries == map e | e in s0.entries && s0.entries[e] !in toRemove[..k] :: s0.entries[e]
    requires PathsUnique(before)
    requires found == Daemon.Lookup(before, toRemove[k].path)
    ensures (if found.Some? then EntryRemoved(before, found.value).0.entries else before.entries)
      == map e | e in s0.entries && s0.entries[e] !in toRemove[..k + 1] :: s0.entries[e]
  {
    assert toRemove[..k + 1] == toRemove[..k] + [toRemove[k]];
    assert forall d :: d in toRemove[..k + 1] <==> d in toRemove[..k] || d == toRemove[k];
    if found.Some? {
      assert before.entries[found.value] == toRemove[k];
    }
  }

  /**
   * `handle_notify_events`: a busy queue is an error and consumes nothing;
   * an empty one changes nothing; otherwise the queue is drained first and
   * then every path of every event has its entry cleared.
   */
  method HandleNotifyEvents(reg: TagRegistry, queue: Events.Queue<NotifyEvent>, lockFault: Option<Text>)
    returns (r: Result<(), Text>)
    modifies reg, queue
    requires Valid(reg.State())
    ensures lockFault.Some? ==> r == Err(LOCK_NOTIFY_FAILED + lockFault.value) && reg.State() == old(reg.State()) && queue.items == old(queue.items)
    ensures lockFault.None? ==> r.Ok? && queue.items == [] && reg.State() == ClearedPaths(old(reg.State()), Paths(old(queue.items)))
    ensures Valid(reg.State())
  {
    if lockFault.Some? {
      return Err(LOCK_NOTIFY_FAILED + lockFault.value);
    }
    if queue.items == [] {
      return Ok(());
    }
    var taken := queue.Take(false);
    var events := taken.value;
    ghost var s0 := reg.State();
    var i := 0;
    while i < |events|
      invariant 0 <= i <= |events|
      invariant reg.State() == ClearedPaths(s0, Paths(events[..i]))
      invariant Valid(reg.State())
      invariant queue.items == []
    {
      ClearEventPaths(reg, s0, Paths(events[..i]), events[i].paths);
      assert events[..i + 1][..i] == events[..i];
      i := i + 1;
    }
    assert events[..i] == events;
    r := Ok(());
  }

  /** The inner loop of the drain: the entry of each path of one event is cleared. */
  method ClearEventPaths(reg: TagRegistry, ghost s0: Snapshot, ghost done: seq<Path>, paths: seq<Path>)
    modifies reg
    requires reg.State() == ClearedPaths(s0, done) && Valid(reg.State())
    ensures reg.State() == ClearedPaths(s0, done + paths) && Valid(reg.State())
  {
    var j := 0;
    assert done + paths[..j] == done;
    while j < |paths|
      invariant 0 <= j <= |paths|
      invariant reg.State() == ClearedPaths(s0, done + paths[..j])
      invariant Valid(reg.State())
    {
      ghost var before := reg.State();
      var found := reg.FindEntry(paths[j]);
      Daemon.FindEntryIsLookup(before, paths[j], found);
      if found.Some? {
        reg.ClearEntry(found.value);
        ClearedKeepsValid(before, found.value);
      }
      ClearedPathsStep(s0, done, paths, j);
      j := j + 1;
    }
    assert paths[..j] == paths;
  }
}
