/**
 * The inotify watcher of the daemon. It keeps a table from watch
 * descriptor to the watched path; a self-move or self-delete of a watched
 * path drops its descriptor and its registry entry, and the entry events
 * of the request handlers add and drop descriptors.
 *
 * The kernel's answers (the descriptor a watch gets, the events a read
 * returns) are inputs.
 */
module Inotifyd {
  import opened Wrappers
  import opened Text
  import opened Io
  import opened Registry
  import Events
  import Daemon

  /** A watch descriptor. */
  type Wd = nat

  /** An inotify event: its descriptor and the two mask bits the watcher asks for. */
  datatype InotifyEvent = InotifyEvent(wd: Wd, moveSelf: bool, deleteSelf: bool)

  const LOCK_ENTRIES_FAILED: Text := "failed to lock entries events, reason: "
  const READ_FAILED: Text := "error while reading event, reason: "
  // Written in two pieces: the verifier checks the bytes of each piece on its own.
  const UNKNOWN_WD: Text := "failed to match watch descriptor" + " to an entry"

  function AddWatchFailed(path: Path): Text
  {
    "failed to add watch descriptor for `" + path + "`"
  }

  function NotInRegistry(path: Path): Text
  {
    "failed to find entry `" + path + "` in registry"
  }

  /** No two descriptors watch the same path. */
  predicate Injective(wds: map<Wd, Path>)
  {
    forall a, b | a in wds && b in wds && wds[a] == wds[b] :: a == b
  }

  /**
   * `remove_watch_entry`: one descriptor watching the path is dropped
   * (`true`), or nothing changes when none does (`false`). The source
   * drops the first one in hash order; the model drops the smallest.
   */
  function Unwatched(wds: map<Wd, Path>, path: Path): (r: (map<Wd, Path>, bool))
    ensures r.1 <==> path in wds.Values
    ensures !r.1 ==> r.0 == wds
    ensures r.1 ==> exists k | k in wds && wds[k] == path :: r.0 == wds - {k}
  {
    var ks := set k | k in wds && wds[k] == path;
    if ks == {} then
      assert path !in wds.Values by {
        forall k | k in wds
          ensures wds[k] != path
        {
          assert k !in ks;
        }
      }
      (wds, false)
    else
      var k := Min(ks);
      (wds - {k}, true)
  }

  /** When no two descriptors share a path, which one is dropped is settled. */
  lemma UnwatchedUnique(wds: map<Wd, Path>, k: Wd)
    requires Injective(wds) && k in wds
    ensures Unwatched(wds, wds[k]) == (wds - {k}, true)
  {
  }

  /** Watching a fresh path under a fresh descriptor and unwatching it is a round trip. */
  lemma WatchThenUnwatch(wds: map<Wd, Path>, wd: Wd, path: Path)
    requires wd !in wds && path !in wds.Values
    ensures Unwatched(wds[wd := path], path) == (wds, true)
  {
    var w := wds[wd := path];
    forall k | k in w && k != wd
      ensures w[k] != path
    {
      assert wds[k] in wds.Values;
    }
    assert (set k | k in w && w[k] == path) == {wd};
    assert w - {wd} == wds;
  }

  /** `add_watch_entry`'s effect: a granted descriptor now watches the path. */
  function Watched(wds: map<Wd, Path>, path: Path, outcome: Result<Wd, IoError>): (r: map<Wd, Path>)
    ensures outcome.Ok? ==> r.Keys == wds.Keys + {outcome.value} && r[outcome.value] == path
    ensures outcome.Ok? ==> forall k | k in wds && k != outcome.value :: r[k] == wds[k]
    ensures outcome.Err? ==> r == wds
  {
    if outcome.Ok? then wds[outcome.value := path] else wds
  }

  /** One entry event's effect on the table; `outcome(j)` answers the j-th path's watch. */
  function Replayed(wds: map<Wd, Path>, event: Events.EntryEvent, outcome: nat -> Result<Wd, IoError>, n: nat): (r: map<Wd, Path>)
    requires n <= |if event.Add? then event.added else event.removed|
    ensures event.Remove? ==> r.Keys <= wds.Keys && forall k | k in r :: r[k] == wds[k]
    ensures event.Add? ==> forall k | k in r :: (k in wds && r[k] == wds[k]) || r[k] in event.added[..n]
    ensures event.Add? ==> forall j | 0 <= j < n && outcome(j).Ok? :: outcome(j).value in r
    decreases n
  {
    if n == 0 then wds
    else
      var before := Replayed(wds, event, outcome, n - 1);
      match event
      case Add(paths) =>
        assert forall p | p in paths[..n - 1] :: p in paths[..n];
        Watched(before, paths[n - 1], outcome(n - 1))
      case Remove(paths) => Unwatched(before, paths[n - 1]).0
  }

  /** One more path of the event: its watch, or its unwatch. */
  lemma ReplayedStep(wds: map<Wd, Path>, event: Events.EntryEvent, outcome: nat -> Result<Wd, IoError>, n: nat)
    requires n < |if event.Add? then event.added else event.removed|
    ensures Replayed(wds, event, outcome, n + 1) ==
      if event.Add? then Watched(Replayed(wds, event, outcome, n), event.added[n], outcome(n))
      else Unwatched(Replayed(wds, event, outcome, n), event.removed[n]).0
  {
  }

  /** `ReplayedStep` for an `Add`. */
  lemma ReplayedWatchStep(wds: map<Wd, Path>, event: Events.EntryEvent, outcome: nat -> Result<Wd, IoError>, n: nat)
    requires event.Add? && n < |event.added|
    ensures Replayed(wds, event, outcome, n + 1) == Watched(Replayed(wds, event, outcome, n), event.added[n], outcome(n))
  {
  }

  /** What the first `n` unwatches of a `Remove` have made of `wds`. */
  predicate RemoveFacts(wds: map<Wd, Path>, paths: seq<Path>, n: nat, r: map<Wd, Path>)
    requires n <= |paths|
  {
    && r.Keys <= wds.Keys && (forall k | k in r :: r[k] == wds[k])
    && (forall k | k in wds && wds[k] !in paths[..n] :: k in r)
    && (Injective(wds) ==> Injective(r) && forall j | 0 <= j < n :: paths[j] !in r.Values)
  }

  lemma UnwatchedStep(wds: map<Wd, Path>, paths: seq<Path>, n: nat, before: map<Wd, Path>)
    requires 0 < n <= |paths| && RemoveFacts(wds, paths, n - 1, before)
    ensures RemoveFacts(wds, paths, n, Unwatched(before, paths[n - 1]).0)
  {
    assert forall p | p in paths[..n - 1] :: p in paths[..n];
    if Injective(wds) {
      UnwatchedInjective(before, paths[n - 1]);
    }
  }

  /**
   * What the first `n` unwatches of a `Remove` leave: only descriptors of
   * wds, each on its old path; every descriptor whose path none of them
   * names; and, when no two descriptors shared a path, still no two, with
   * none left on a path they name.
   */
  lemma {:induction false} ReplayedRemoves(wds: map<Wd, Path>, event: Events.EntryEvent, outcome: nat -> Result<Wd, IoError>, n: nat)
    requires event.Remove? && n <= |event.removed|
    ensures var r := Replayed(wds, event, outcome, n);
      && r.Keys <= wds.Keys && (forall k | k in r :: r[k] == wds[k])
      && (forall k | k in wds && wds[k] !in event.removed[..n] :: k in r)
      && (Injective(wds) ==> Injective(r) && forall j | 0 <= j < n :: event.removed[j] !in r.Values)
    decreases n
  {
    if n > 0 {
      ReplayedRemoves(wds, event, outcome, n - 1);
      ReplayedStep(wds, event, outcome, n - 1);
      UnwatchedStep(wds, event.removed, n, Replayed(wds, event, outcome, n - 1));
    }
  }

  /** One of the first `n` watches was of path `p` and was granted descriptor `w`. */
  predicate WatchedAs(outcome: nat -> Result<Wd, IoError>, paths: seq<Path>, n: nat, w: Wd, p: Path)
    requires n <= |paths|
  {
    exists j | 0 <= j < n :: outcome(j) == Ok(w) && paths[j] == p
  }

  /**
   * After the first `n` watches of an `Add`, a descriptor maps as before or
   * was granted to one of those watches, for that watch's path.
   */
  lemma {:induction false} ReplayedOrigin(wds: map<Wd, Path>, event: Events.EntryEvent, outcome: nat -> Result<Wd, IoError>, n: nat, k: Wd)
    requires event.Add? && n <= |event.added|
    requires k in Replayed(wds, event, outcome, n)
    ensures var r := Replayed(wds, event, outcome, n);
      (k in wds && r[k] == wds[k]) || WatchedAs(outcome, event.added, n, k, r[k])
    decreases n
  {
    if n > 0 {
      ReplayedStep(wds, event, outcome, n - 1);
      var before, r := Replayed(wds, event, outcome, n - 1), Replayed(wds, event, outcome, n);
      if outcome(n - 1) == Ok(k) {
        assert outcome(n - 1) == Ok(k) && event.added[n - 1] == r[k];
      } else {
        assert k in before && r[k] == before[k];
        ReplayedOrigin(wds, event, outcome, n - 1, k);
        if !(k in wds && r[k] == wds[k]) {
          var j :| 0 <= j < n - 1 && outcome(j) == Ok(k) && event.added[j] == before[k];
          assert 0 <= j < n && outcome(j) == Ok(k) && event.added[j] == r[k];
        }
      }
    }
  }

  /**
   * A watch among the first `n` of an `Add` that was granted a descriptor no
   * later one of them is granted leaves that descriptor on its path.
   */
  lemma {:induction false} ReplayedLastGrant(wds: map<Wd, Path>, event: Events.EntryEvent, outcome: nat -> Result<Wd, IoError>, n: nat, j: nat, w: Wd)
    requires event.Add? && n <= |event.added|
    requires j < n && outcome(j) == Ok(w) && LastGrant(outcome, j, n)
    ensures var r := Replayed(wds, event, outcome, n); w in r && r[w] == event.added[j]
    decreases n
  {
    ReplayedWatchStep(wds, event, outcome, n - 1);
    var before, r := Replayed(wds, event, outcome, n - 1), Replayed(wds, event, outcome, n);
    if j < n - 1 {
      assert outcome(n - 1) != Ok(w);
      assert LastGrant(outcome, j, n - 1);
      ReplayedLastGrant(wds, event, outcome, n - 1, j, w);
      assert w in before && before[w] == event.added[j];
      WatchedKeeps(before, event.added[n - 1], outcome(n - 1), w);
    }
  }

  /** A watch granted another descriptor, or none, leaves descriptor `w` as it was. */
  lemma WatchedKeeps(wds: map<Wd, Path>, path: Path, outcome: Result<Wd, IoError>, w: Wd)
    requires w in wds && outcome != Ok(w)
    ensures var r := Watched(wds, path, outcome); w in r && r[w] == wds[w]
  {
  }

  /** A descriptor none of the first `n` watches of an `Add` is granted keeps its path. */
  lemma {:induction false} ReplayedUngranted(wds: map<Wd, Path>, event: Events.EntryEvent, outcome: nat -> Result<Wd, IoError>, n: nat)
    requires event.Add? && n <= |event.added|
    ensures var r := Replayed(wds, event, outcome, n);
      forall k | k in wds && !Grants(outcome, n, k) :: k in r && r[k] == wds[k]
    decreases n
  {
    if n > 0 {
      ReplayedUngranted(wds, event, outcome, n - 1);
      ReplayedStep(wds, event, outcome, n - 1);
      assert forall k | !Grants(outcome, n, k) :: !Grants(outcome, n - 1, k);
    }
  }

  /** Some of the first `n` watches was granted descriptor `w`. */
  predicate Grants(outcome: nat -> Result<Wd, IoError>, n: nat, w: Wd)
  {
    exists j | 0 <= j < n :: outcome(j) == Ok(w)
  }

  /** No watch after the j-th, among the first `n`, was granted the j-th one's descriptor. */
  predicate LastGrant(outcome: nat -> Result<Wd, IoError>, j: nat, n: nat)
  {
    forall i | j < i < n :: outcome(i) != outcome(j)
  }

  /**
   * On a table where no two descriptors share a path, an unwatch leaves it
   * so and leaves the path unwatched; paths already unwatched stay so.
   */
  lemma UnwatchedInjective(wds: map<Wd, Path>, path: Path)
    requires Injective(wds)
    ensures Injective(Unwatched(wds, path).0)
    ensures path !in Unwatched(wds, path).0.Values
    ensures forall q | q !in wds.Values :: q !in Unwatched(wds, path).0.Values
  {
    var r := Unwatched(wds, path).0;
    forall q | q in r.Values
      ensures q in wds.Values && q != path
    {
      var k :| k in r && r[k] == q;
    }
  }

  /** The number of paths an entry event carries. */
  function Width(e: Events.EntryEvent): nat
  {
    if e.Add? then |e.added| else |e.removed|
  }

  /**
   * The effect of a drained queue of entry events, event by event. Its
   * contract covers batches of removals; `ReplayedAllKeepsGranted` and
   * `ReplayedAllKeepsRemoved` state what a successful watch or a removal
   * leaves at the end of any batch.
   */
  function ReplayedAll(wds: map<Wd, Path>, events: seq<Events.EntryEvent>, outcome: (nat, nat) -> Result<Wd, IoError>): (r: map<Wd, Path>)
    ensures (forall i | 0 <= i < |events| :: events[i].Remove?) ==> r.Keys <= wds.Keys && forall k | k in r :: r[k] == wds[k]
    decreases |events|
  {
    if events == [] then wds
    else
      var k := |events| - 1;
      var e := events[k];
      var before := ReplayedAll(wds, events[..k], outcome);
      Replayed(before, e, (j: nat) => outcome(k, j), Width(e))
  }

  lemma ReplayedAllStep(wds: map<Wd, Path>, events: seq<Events.EntryEvent>, i: nat, outcome: (nat, nat) -> Result<Wd, IoError>)
    requires i < |events|
    ensures ReplayedAll(wds, events[..i + 1], outcome) ==
      Replayed(ReplayedAll(wds, events[..i], outcome), events[i], (n: nat) => outcome(i, n), Width(events[i]))
  {
    assert events[..i + 1][..i] == events[..i];
  }

  /** Event `l` watches some path and is granted descriptor `w` for it. */
  predicate GrantsAt(events: seq<Events.EntryEvent>, outcome: (nat, nat) -> Result<Wd, IoError>, l: nat, w: Wd)
    requires l < |events|
  {
    events[l].Add? && exists m | 0 <= m < |events[l].added| :: outcome(l, m) == Ok(w)
  }


  /** An event that grants `w` to no watch and does not remove `p` keeps `w` on `p`. */
  lemma GrantSurvives(before: map<Wd, Path>, e: Events.EntryEvent, f: nat -> Result<Wd, IoError>, w: Wd, p: Path)
    requires w in before && before[w] == p
    requires e.Add? ==> !Grants(f, |e.added|, w)
    requires e.Remove? ==> p !in e.removed
    ensures var r := Replayed(before, e, f, Width(e));
      w in r && r[w] == p
  {
    if e.Remove? {
      ReplayedRemoves(before, e, f, |e.removed|);
      assert e.removed[..Width(e)] == e.removed;
    } else {
      ReplayedUngranted(before, e, f, |e.added|);
    }
  }

  /** A `Remove` of `p` on a table where no two descriptors share a path leaves `p` unwatched. */
  lemma RemovedAbsent(before: map<Wd, Path>, e: Events.EntryEvent, f: nat -> Result<Wd, IoError>, p: Path)
    requires Injective(before) && e.Remove? && p in e.removed
    ensures p !in Replayed(before, e, f, Width(e)).Values
  {
    ReplayedRemoves(before, e, f, |e.removed|);
    var j :| 0 <= j < |e.removed| && e.removed[j] == p;
  }

  /** An event with no successful watch of `p` leaves an unwatched `p` unwatched. */
  lemma AbsentSurvives(before: map<Wd, Path>, e: Events.EntryEvent, f: nat -> Result<Wd, IoError>, p: Path)
    requires p !in before.Values
    requires e.Add? ==> forall m | 0 <= m < |e.added| && e.added[m] == p :: f(m).Err?
    ensures p !in Replayed(before, e, f, Width(e)).Values
  {
    var r := Replayed(before, e, f, Width(e));
    forall q | q in r.Values
      ensures q != p
    {
      var w :| w in r && r[w] == q;
      if e.Add? {
        ReplayedOrigin(before, e, f, |e.added|, w);
        if !(w in before && r[w] == before[w]) {
          var j :| 0 <= j < |e.added| && f(j) == Ok(w) && e.added[j] == q;
        }
      }
    }
  }

  lemma GrantsAtStep(events: seq<Events.EntryEvent>, outcome: (nat, nat) -> Result<Wd, IoError>, k: nat, w: Wd)
    requires k < |events|
    ensures GrantsAt(events, outcome, k, w) <==> events[k].Add? && Grants((n: nat) => outcome(k, n), |events[k].added|, w)
  {
    var step := (n: nat) => outcome(k, n);
    if GrantsAt(events, outcome, k, w) {
      var m :| 0 <= m < |events[k].added| && outcome(k, m) == Ok(w);
      assert step(m) == Ok(w);
    }
    if events[k].Add? && Grants(step, |events[k].added|, w) {
      var j :| 0 <= j < |events[k].added| && step(j) == Ok(w);
      assert outcome(k, j) == Ok(w);
    }
  }

  /**
   * A watch that succeeds keeps its descriptor on its path unless a later
   * watch is granted the same descriptor or a later event removes the path:
   * the path stays watched.
   */
  lemma {:induction false} ReplayedAllKeepsGranted(wds: map<Wd, Path>, events: seq<Events.EntryEvent>, outcome: (nat, nat) -> Result<Wd, IoError>, i: nat, m: nat)
    requires i < |events| && events[i].Add? && m < |events[i].added| && outcome(i, m).Ok?
    requires forall m' | m < m' < |events[i].added| :: outcome(i, m') != outcome(i, m)
    requires forall l | i < l < |events| :: !GrantsAt(events, outcome, l, outcome(i, m).value)
    requires forall l | i < l < |events| :: !(events[l].Remove? && events[i].added[m] in events[l].removed)
    ensures var r := ReplayedAll(wds, events, outcome);
      outcome(i, m).value in r && r[outcome(i, m).value] == events[i].added[m]
    decreases |events|
  {
    var k := |events| - 1;
    ReplayedAllStep(wds, events, k, outcome);
    assert events[..k + 1] == events;
    var step := (n: nat) => outcome(k, n);
    var before := ReplayedAll(wds, events[..k], outcome);
    if i == k {
      assert LastGrant(step, m, |events[i].added|);
      ReplayedLastGrant(before, events[k], step, |events[k].added|, m, step(m).value);
    } else {
      assert forall l | i < l < k :: events[..k][l] == events[l];
      assert forall l | i < l < k :: GrantsAt(events[..k], outcome, l, outcome(i, m).value) == GrantsAt(events, outcome, l, outcome(i, m).value);
      ReplayedAllKeepsGranted(wds, events[..k], outcome, i, m);
      GrantsAtStep(events, outcome, k, outcome(i, m).value);
      GrantSurvives(before, events[k], step, outcome(i, m).value, events[i].added[m]);
    }
  }

  /**
   * A path that an event removes from a table where no two descriptors share
   * a path stays unwatched unless a later watch of it succeeds.
   */
  lemma {:induction false} ReplayedAllKeepsRemoved(wds: map<Wd, Path>, events: seq<Events.EntryEvent>, outcome: (nat, nat) -> Result<Wd, IoError>, i: nat, p: Path)
    requires i < |events| && events[i].Remove? && p in events[i].removed
    requires Injective(ReplayedAll(wds, events[..i], outcome))
    requires forall l, m | i < l < |events| && events[l].Add? && 0 <= m < |events[l].added| && events[l].added[m] == p :: outcome(l, m).Err?
    ensures p !in ReplayedAll(wds, events, outcome).Values
    decreases |events|
  {
    var k := |events| - 1;
    ReplayedAllStep(wds, events, k, outcome);
    assert events[..k + 1] == events;
    var step := (n: nat) => outcome(k, n);
    var before := ReplayedAll(wds, events[..k], outcome);
    if i == k {
      RemovedAbsent(before, events[k], step, p);
    } else {
      var front := events[..k];
      assert forall l | i < l < k :: front[l] == events[l];
      assert front[..i] == events[..i];
      assert front[i] == events[i];
      ReplayedAllKeepsRemoved(wds, front, outcome, i, p);
      AbsentSurvives(before, events[k], step, p);
    }
  }

  /** A self-move or self-delete: the only events the watcher acts on. */
  predicate Gone(event: InotifyEvent)
  {
    event.moveSelf || event.deleteSelf
  }

  /**
   * `handle_event`'s effect on the table and the registry, and its answer:
   * for a watched path that went, its descriptor is dropped (and one more
   * watching the same path, if any) and so is its registry entry.
   */
  function AfterEvent(wds: map<Wd, Path>, s: Snapshot, event: InotifyEvent): (r: (map<Wd, Path>, Snapshot, Result<(), Text>))
    ensures !Gone(event) ==> r == (wds, s, Ok(()))
    ensures Gone(event) && event.wd !in wds ==> r == (wds, s, Err(UNKNOWN_WD))
    ensures r.0.Keys <= wds.Keys && r.1.tags == s.tags && Daemon.EntriesShrink(s, r.1)
    ensures Gone(event) && event.wd in wds ==> event.wd !in r.0 && (r.2.Ok? <==> !Daemon.Gone(s, wds[event.wd]))
  {
    if !Gone(event) then (wds, s, Ok(()))
    else if event.wd !in wds then (wds, s, Err(UNKNOWN_WD))
    else
      var path := wds[event.wd];
      var table := Unwatched(wds - {event.wd}, path).0;
      match Daemon.Lookup(s, path)
      case None => (table, s, Err(NotInRegistry(path)))
      case Some(id) => (table, EntryRemoved(s, id).0, Ok(()))
  }

  /**
   * A watched path that went has no registry entry afterwards, its
   * descriptor is no longer in the table, and every other entry is kept.
   */
  lemma AfterEventRemovesEntry(wds: map<Wd, Path>, s: Snapshot, event: InotifyEvent)
    requires PathsUnique(s) && Gone(event) && event.wd in wds
    ensures Daemon.Gone(AfterEvent(wds, s, event).1, wds[event.wd])
    ensures forall e | e in s.entries && s.entries[e].path != wds[event.wd] ::
      e in AfterEvent(wds, s, event).1.entries
  {
    var path := wds[event.wd];
    var t := AfterEvent(wds, s, event).1;
    var l := Daemon.Lookup(s, path);
    if l.Some? {
      forall e | e in t.entries
        ensures t.entries[e].path != path
      {
        assert e in s.entries && e != l.value;
      }
    }
  }

  lemma AfterEventKeepsValid(wds: map<Wd, Path>, s: Snapshot, event: InotifyEvent)
    requires Valid(s)
    ensures Valid(AfterEvent(wds, s, event).1)
  {
    Daemon.ShrinkKeepsPathsUnique(s, AfterEvent(wds, s, event).1);
  }

  /** The effect of a batch of events; each event's error is only logged. */
  function AfterEvents(wds: map<Wd, Path>, s: Snapshot, events: seq<InotifyEvent>): (r: (map<Wd, Path>, Snapshot))
    ensures r.0.Keys <= wds.Keys && r.1.tags == s.tags && Daemon.EntriesShrink(s, r.1)
    decreases |events|
  {
    if events == [] then (wds, s)
    else
      var k := |events| - 1;
      var before := AfterEvents(wds, s, events[..k]);
      var after := AfterEvent(before.0, before.1, events[k]);
      (after.0, after.1)
  }

  lemma AfterEventsKeepsValid(wds: map<Wd, Path>, s: Snapshot, events: seq<InotifyEvent>)
    requires Valid(s)
    ensures Valid(AfterEvents(wds, s, events).1)
  {
    Daemon.ShrinkKeepsPathsUnique(s, AfterEvents(wds, s, events).1);
  }

  /** Events that are neither a self-move nor a self-delete change nothing. */
  lemma {:induction false} OtherEventsIgnored(wds: map<Wd, Path>, s: Snapshot, events: seq<InotifyEvent>)
    requires forall i | 0 <= i < |events| :: !Gone(events[i])
    ensures AfterEvents(wds, s, events) == (wds, s)
    decreases |events|
  {
    if events != [] {
      OtherEventsIgnored(wds, s, events[..|events| - 1]);
    }
  }

  class InotifyDaemon {
    var watchDescriptors: map<Wd, Path>

    constructor ()
      ensures watchDescriptors == map[]
    {
      watchDescriptors := map[];
    }

    /** `add_watch_entry`: a granted descriptor is recorded; a refusal is an error. */
    method AddWatchEntry(path: Path, outcome: Result<Wd, IoError>) returns (r: Result<(), Text>)
      modifies this
      ensures watchDescriptors == Watched(old(watchDescriptors), path, outcome)
      ensures r.Ok? <==> outcome.Ok?
      ensures outcome.Err? ==> r == Err(AddWatchFailed(path))
    {
      if outcome.Err? {
        return Err(AddWatchFailed(path));
      }
      watchDescriptors := watchDescriptors[outcome.value := path];
      r := Ok(());
    }

    /** `remove_watch_entry`: a descriptor watching the path is looked for and dropped. */
    method RemoveWatchEntry(path: Path) returns (r: Option<()>)
      modifies this
      ensures (watchDescriptors, r.Some?) == Unwatched(old(watchDescriptors), path)
    {
      var ks := set k | k in watchDescriptors && watchDescriptors[k] == path;
      if ks == {} {
        return None;
      }
      var k := Min(ks);
      watchDescriptors := watchDescriptors - {k};
      r := Some(());
    }

    /**
     * `rebuild_watch_descriptors`: every entry is watched, in hash order;
     * refusals are only logged. Each descriptor afterwards either kept its
     * path or was granted to an entry with that path.
     */
    method RebuildWatchDescriptors(reg: TagRegistry, outcome: Path -> Result<Wd, IoError>)
      modifies this
      ensures forall k :: k in watchDescriptors <==> k in old(watchDescriptors) || exists d | d in reg.entries.Values :: outcome(d.path) == Ok(k)
      ensures forall k | k in watchDescriptors ::
        (k in old(watchDescriptors) && watchDescriptors[k] == old(watchDescriptors)[k]) ||
        (exists d | d in reg.entries.Values :: outcome(d.path) == Ok(k) && watchDescriptors[k] == d.path)
    {
      var todo := reg.entries.Values;
      ghost var done: set<EntryData> := {};
      while todo != {}
        invariant todo + done == reg.entries.Values
        invariant forall k :: k in watchDescriptors <==> k in old(watchDescriptors) || exists d | d in done :: outcome(d.path) == Ok(k)
        invariant forall k | k in watchDescriptors ::
          (k in old(watchDescriptors) && watchDescriptors[k] == old(watchDescriptors)[k]) ||
          (exists d | d in done :: outcome(d.path) == Ok(k) && watchDescriptors[k] == d.path)
        decreases todo
      {
        var d :| d in todo;
        var _ := AddWatchEntry(d.path, outcome(d.path));
        todo, done := todo - {d}, done + {d};
      }
    }

    /**
     * `handle_entries_events`: a busy queue is an error and consumes
     * nothing; an empty one changes nothing; otherwise the queue is
     * drained, each added path is watched and each removed path unwatched,
     * failures only logged.
     */
    method HandleEntriesEvents(queue: Events.Queue<Events.EntryEvent>, lockFault: Option<Text>, outcome: (nat, nat) -> Result<Wd, IoError>)
      returns (r: Result<(), Text>)
      modifies this, queue
      ensures lockFault.Some? ==> r == Err(LOCK_ENTRIES_FAILED + lockFault.value) && watchDescriptors == old(watchDescriptors) && queue.items == old(queue.items)
      ensures lockFault.None? ==> r.Ok? && queue.items == [] && watchDescriptors == ReplayedAll(old(watchDescriptors), old(queue.items), outcome)
    {
      if lockFault.Some? {
        return Err(LOCK_ENTRIES_FAILED + lockFault.value);
      }
      if queue.items == [] {
        return Ok(());
      }
      var taken := queue.Take(false);
      var events := taken.value;
      ghost var w0 := watchDescriptors;
      var i := 0;
      while i < |events|
        invariant 0 <= i <= |events|
        invariant watchDescriptors == ReplayedAll(w0, events[..i], outcome)
        invariant queue.items == []
      {
        ReplayEntryEvent(events[i], (n: nat) => outcome(i, n));
        assert events[..i + 1][..i] == events[..i];
        i := i + 1;
      }
      assert events[..i] == events;
      r := Ok(());
    }

    /**
     * One drained event: each added path is watched, or each removed path
     * unwatched, in order, failures only logged.
     */
    method ReplayEntryEvent(event: Events.EntryEvent, outcome: nat -> Result<Wd, IoError>)
      modifies this
      ensures watchDescriptors == Replayed(old(watchDescriptors), event, outcome, if event.Add? then |event.added| else |event.removed|)
    {
      ghost var w0 := watchDescriptors;
      var j := 0;
      match event
      case Add(paths) =>
        while j < |paths|
          invariant 0 <= j <= |paths|
          invariant watchDescriptors == Replayed(w0, event, outcome, j)
        {
          ReplayedStep(w0, event, outcome, j);
          var _ := AddWatchEntry(paths[j], outcome(j));
          j := j + 1;
        }
      case Remove(paths) =>
        while j < |paths|
          invariant 0 <= j <= |paths|
          invariant watchDescriptors == Replayed(w0, event, outcome, j)
        {
          ReplayedStep(w0, event, outcome, j);
          var _ := RemoveWatchEntry(paths[j]);
          j := j + 1;
        }
    }

    /** `handle_event`. */
    method HandleEvent(reg: TagRegistry, event: InotifyEvent) returns (r: Result<(), Text>)
      modifies this, reg
      requires Valid(reg.State())
      ensures (watchDescriptors, reg.State(), r) == AfterEvent(old(watchDescriptors), old(reg.State()), event)
      ensures Valid(reg.State())
    {
      AfterEventKeepsValid(watchDescriptors, reg.State(), event);
      if !(event.moveSelf || event.deleteSelf) {
        return Ok(());
      }
      if event.wd !in watchDescriptors {
        return Err(UNKNOWN_WD);
      }
      var path := watchDescriptors[event.wd];
      watchDescriptors := watchDescriptors - {event.wd};
      var _ := RemoveWatchEntry(path);
      ghost var s := reg.State();
      var found := reg.FindEntry(path);
      Daemon.FindEntryIsLookup(s, path, found);
      if found.None? {
        return Err(NotInRegistry(path));
      }
      var _ := reg.RemoveEntry(found.value);
      r := Ok(());
    }

    /**
     * `handle_inotify_events`: nothing to read is not an error, a failed
     * read is; otherwise every event is handled in turn, its error only
     * logged.
     */
    method HandleInotifyEvents(reg: TagRegistry, read: Result<seq<InotifyEvent>, IoError>) returns (r: Result<(), Text>)
      modifies this, reg
      requires Valid(reg.State())
      ensures read.Err? ==> watchDescriptors == old(watchDescriptors) && reg.State() == old(reg.State())
      ensures read.Err? && read.error.kind == WouldBlock ==> r.Ok?
      ensures read.Err? && read.error.kind != WouldBlock ==> r == Err(READ_FAILED + read.error.message)
      ensures read.Ok? ==> r.Ok? && (watchDescriptors, reg.State()) == AfterEvents(old(watchDescriptors), old(reg.State()), read.value)
      ensures Valid(reg.State())
    {
      if read.Err? {
        if read.error.kind == WouldBlock {
          return Ok(());
        }
        return Err(READ_FAILED + read.error.message);
      }
      var events := read.value;
      ghost var w0, s0 := watchDescriptors, reg.State();
      var i := 0;
      while i < |events|
        invariant 0 <= i <= |events|
        invariant (watchDescriptors, reg.State()) == AfterEvents(w0, s0, events[..i])
        invariant Valid(reg.State())
      {
        var _ := HandleEvent(reg, events[i]);
        assert events[..i + 1][..i] == events[..i];
        i := i + 1;
      }
      assert events[..i] == events;
      r := Ok(());
    }
  }
}
