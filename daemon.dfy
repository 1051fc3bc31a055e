/**
 * The daemon's request handlers: each one runs a batch over the files of a
 * request, touching the files' extended attributes first and the registry
 * only where that succeeded, collects one message per failure, and queues
 * an entry event for the watcher.
 *
 * What the file system answers is an input: `Env` says, call by call,
 * whether writing, removing or clearing tags succeeded, what a file's
 * tags are, and which id the clock mints for the i-th file of a batch.
 */
module Daemon {
  import opened Wrappers
  import opened Text
  import opened Colors
  import opened CoreErrors
  import CoreTag
  import Payload
  import Events
  import opened Registry

  type Tag = CoreTag.Tag
  type PayloadResult<T, E> = Payload.PayloadResult<T, E>

  /** The answers of everything outside the registry, call by call. */
  datatype Env = Env(
    save: (nat, nat) -> Option<Error>,
    remove: (nat, nat) -> Option<Error>,
    clear: nat -> Option<Error>,
    list: Path -> Result<seq<Tag>, Error>,
    mint: nat -> EntryId)

  /** The requests the daemon serves here. */
  datatype Request =
    | TagFiles(files: seq<Path>, tags: seq<Tag>)
    | UntagFiles(files: seq<Path>, tags: seq<Tag>)
    | EditTag(tag: Text, color: Color)
    | ClearFiles(files: seq<Path>)
    | CopyTags(source: Path, target: seq<Path>)
    | InspectFiles(files: seq<Path>)
    | Search(names: seq<Text>, any: bool)
    | Ping
    | CleanCache

  /** A response as the daemon builds it. */
  datatype Response =
    | TagFiles(PayloadResult<(), seq<Text>>)
    | UntagFiles(PayloadResult<(), seq<Text>>)
    | EditTag(PayloadResult<(), Text>)
    | CopyTags(PayloadResult<(), seq<Text>>)
    | ClearFiles(PayloadResult<(), seq<Text>>)
    | InspectFiles(PayloadResult<seq<(EntryData, set<Tag>)>, Text>)
    | Search(PayloadResult<seq<EntryData>, Text>)
    | Ping(PayloadResult<(), Text>)
    | CleanCache(PayloadResult<(), Text>)

  const NO_FILES_TO_TAG: Text := "no files to tag"
  const NO_TAGS_PROVIDED: Text := "no tags provided"
  const NO_FILES_TO_UNTAG: Text := "no files to untag"
  const NO_FILES_TO_CLEAR: Text := "no files to clear"
  const NO_FILES_TO_INSPECT: Text := "no files to inspect"
  const NO_TAGS_TO_SEARCH: Text := "no tags to search for"
  const COPY_FAILED: Text := "faile to copy tags - "

  /** How a failed tag write is reported. */
  type Report = (Path, Tag, Error) -> Text

  /** `tag_files`' message for a tag that could not be written. */
  function TagFailure(file: Path, tag: Tag, e: Error): Text
  {
    "Error for `" + file + "` tag: `" + tag.name + "`, reason: " + Message(e)
  }

  /** `copy_tags`' message: the error's own text. */
  function CopyFailure(file: Path, tag: Tag, e: Error): Text
  {
    Message(e)
  }

  /** `untag_files`' message for a tag that could not be removed. */
  function UntagFailure(file: Path, tag: Tag, e: Error): Text
  {
    file + " tag: " + tag.name + ", error: " + Message(e)
  }

  /** `clear_files`' message for a file whose tags could not be cleared. */
  function ClearFailure(path: Path, e: Error): Text
  {
    "failed to clear tags from `" + path + "`, reason: " + Message(e)
  }

  /** `edit_tag`'s message for an unknown tag. */
  function UnknownTag(name: Text): Text
  {
    "tag " + name + " doesn't exist"
  }

  /* ---------------------------------------------------------------------- */
  /* Finding and registering entries                                         */
  /* ---------------------------------------------------------------------- */

  /**
   * The entry of a path, as `find_entry` answers on a registry whose paths
   * are unique (when they are not, the smallest id stands in for the
   * first one in hash order).
   */
  function Lookup(s: Snapshot, path: Path): (r: Option<EntryId>)
    ensures r.Some? ==> r.value in s.entries && s.entries[r.value].path == path
    ensures r.None? ==> Gone(s, path)
  {
    var ids := set e | e in s.entries && s.entries[e].path == path;
    if ids == {} then
      assert forall e | e in s.entries :: s.entries[e].path != path by {
        forall e | e in s.entries ensures s.entries[e].path != path {
          assert e !in ids;
        }
      }
      None
    else Some(Min(ids))
  }

  /** No entry has this path. */
  predicate Gone(s: Snapshot, path: Path)
  {
    forall e | e in s.entries :: s.entries[e].path != path
  }

  /** On a registry with unique paths, `find_entry` has one answer: `Lookup`. */
  lemma FindEntryIsLookup(s: Snapshot, path: Path, r: Option<EntryId>)
    requires PathsUnique(s)
    requires r.Some? ==> r.value in s.entries && s.entries[r.value].path == path
    requires r.None? ==> forall e | e in s.entries :: s.entries[e].path != path
    ensures r == Lookup(s, path)
  {
    var l := Lookup(s, path);
    if r.Some? && l.Some? {
      assert s.entries[r.value] == s.entries[l.value];
    }
  }

  /** `add_or_update_entry` on a registry with unique paths. */
  function Registered(s: Snapshot, entry: EntryData, newId: EntryId): (r: (Snapshot, EntryId, bool))
    ensures Added(s, entry, newId, r.0, r.1, r.2)
  {
    match Lookup(s, entry.path)
    case Some(id) => (s, id, false)
    case None => (s.(entries := s.entries[newId := entry]), newId, true)
  }

  /** Every outcome `add_or_update_entry` allows is `Registered`'s. */
  lemma AddedIsRegistered(s: Snapshot, entry: EntryData, newId: EntryId, s': Snapshot, id: EntryId, added: bool)
    requires PathsUnique(s) && Added(s, entry, newId, s', id, added)
    ensures (s', id, added) == Registered(s, entry, newId)
  {
    var l := Lookup(s, entry.path);
    if l.Some? {
      assert s.entries[l.value] == entry;
      assert s.entries[id] == s.entries[l.value];
    }
  }

  /* ---------------------------------------------------------------------- */
  /* Tagging: shared by `tag_files` and `copy_tags`                          */
  /* ---------------------------------------------------------------------- */

  /** Whether some tag of this name was written to the i-th file. */
  predicate Saved(tags: seq<Tag>, i: nat, env: Env, n: Text)
  {
    exists j | 0 <= j < |tags| :: env.save(i, j).None? && tags[j].name == n
  }

  lemma SavedPrefix(tags: seq<Tag>, i: nat, env: Env, n: Text)
    requires |tags| > 0
    ensures Saved(tags, i, env, n) <==>
      Saved(tags[..|tags| - 1], i, env, n) || (env.save(i, |tags| - 1).None? && tags[|tags| - 1].name == n)
  {
    var k := |tags| - 1;
    if Saved(tags, i, env, n) {
      var j :| 0 <= j < |tags| && env.save(i, j).None? && tags[j].name == n;
      if j < k {
        assert tags[..k][j] == tags[j];
      }
    }
    if Saved(tags[..k], i, env, n) {
      var j :| 0 <= j < k && env.save(i, j).None? && tags[..k][j].name == n;
      assert tags[j] == tags[..k][j];
    }
  }

  /**
   * The tag loop of one file: each tag is written to the file and, only if
   * that succeeded, recorded for the entry; each failure adds one message.
   */
  function SavedTags(s: Snapshot, file: Path, i: nat, tags: seq<Tag>, id: EntryId, env: Env, report: Report): (r: (Snapshot, seq<Text>))
    ensures r.0.entries == s.entries
    ensures r.1 == [] <==> forall j | 0 <= j < |tags| :: env.save(i, j).None?
    decreases |tags|
  {
    if tags == [] then (s, [])
    else
      var k := |tags| - 1;
      var prev := SavedTags(s, file, i, tags[..k], id, env, report);
      assert forall j | 0 <= j < k :: tags[..k][j] == tags[j];
      match env.save(i, k)
      case Some(e) => (prev.0, prev.1 + [report(file, tags[k], e)])
      case None => (Tagged(prev.0, tags[k], id).0, prev.1)
  }

  /**
   * What the tag loop does to one tag name: it exists afterwards if it did
   * before or a tag of that name was written, it marks the entry exactly
   * when such a write succeeded, and a known tag keeps its colour.
   */
  lemma {:induction false} SavedTagsAt(s: Snapshot, file: Path, i: nat, tags: seq<Tag>, id: EntryId, env: Env, report: Report, n: Text)
    ensures var r := SavedTags(s, file, i, tags, id, env, report).0;
      && (n in r.tags <==> n in s.tags || Saved(tags, i, env, n))
      && (n in r.tags ==> r.tags[n].ids == IdsOf(s, n) + (if Saved(tags, i, env, n) then {id} else {}))
      && (n in s.tags ==> r.tags[n].color == s.tags[n].color)
    decreases |tags|
  {
    if tags != [] {
      var k := |tags| - 1;
      SavedTagsAt(s, file, i, tags[..k], id, env, report, n);
      SavedPrefix(tags, i, env, n);
    }
  }

  lemma SavedTagsRecords(s: Snapshot, file: Path, i: nat, tags: seq<Tag>, id: EntryId, env: Env, report: Report)
    ensures var r := SavedTags(s, file, i, tags, id, env, report).0;
      && (forall n :: n in r.tags <==> n in s.tags || Saved(tags, i, env, n))
      && (forall n | n in r.tags :: r.tags[n].ids == IdsOf(s, n) + (if Saved(tags, i, env, n) then {id} else {}))
      && (forall n | n in s.tags :: r.tags[n].color == s.tags[n].color)
  {
    forall n {
      SavedTagsAt(s, file, i, tags, id, env, report, n);
    }
  }

  /**
   * One file of `tag_files`: the entry is found or added, the tags are
   * written, and an entry that ends up with no tag is removed again. The
   * third part says whether the entry was new.
   */
  function TaggedFile(s: Snapshot, file: Path, i: nat, tags: seq<Tag>, env: Env, report: Report): (r: (Snapshot, seq<Text>, bool))
    ensures r.1 == [] <==> forall j | 0 <= j < |tags| :: env.save(i, j).None?
    ensures r.2 <==> Lookup(s, file).None?
  {
    var (s1, id, added) := Registered(s, EntryData(file), env.mint(i));
    var (s2, errors) := SavedTags(s1, file, i, tags, id, env, report);
    (if ListEntryTags(s2, id).None? then EntryRemoved(s2, id).0 else s2, errors, added)
  }

  /**
   * The file loop of `tag_files`: the registry after the batch, every
   * failure message in order, and the files that became new entries.
   */
  function TaggedFiles(s: Snapshot, files: seq<Path>, tags: seq<Tag>, env: Env, report: Report): (r: (Snapshot, seq<Text>, seq<Path>))
    ensures r.1 == [] <==> forall i, j | 0 <= i < |files| && 0 <= j < |tags| :: env.save(i, j).None?
    ensures forall p | p in r.2 :: p in files
    decreases |files|
  {
    if files == [] then (s, [], [])
    else
      var k := |files| - 1;
      var prev := TaggedFiles(s, files[..k], tags, env, report);
      var (s', errors, added) := TaggedFile(prev.0, files[k], k, tags, env, report);
      SavesUpTo(env, k, |tags|);
      PrefixWithin(files, k, prev.2);
      (s', prev.1 + errors, prev.2 + (if added then [files[k]] else []))
  }

  /** Paths drawn from a prefix of the files are among the files. */
  lemma PrefixWithin(files: seq<Path>, k: nat, found: seq<Path>)
    requires k <= |files|
    requires forall p | p in found :: p in files[..k]
    ensures forall p | p in found :: p in files
  {
    forall p | p in found ensures p in files {
      var i :| 0 <= i < k && files[..k][i] == p;
      assert files[i] == p;
    }
  }

  /** Every save of the first `k + 1` files succeeds exactly when those of the first `k` and of file `k` do. */
  lemma SavesUpTo(env: Env, k: nat, m: nat)
    ensures (forall i, j | 0 <= i < k + 1 && 0 <= j < m :: env.save(i, j).None?) <==>
      (forall i, j | 0 <= i < k && 0 <= j < m :: env.save(i, j).None?) && forall j | 0 <= j < m :: env.save(k, j).None?
  {
  }

  lemma SavedTagsKeepsValid(s: Snapshot, file: Path, i: nat, tags: seq<Tag>, id: EntryId, env: Env, report: Report)
    requires Valid(s)
    ensures Valid(SavedTags(s, file, i, tags, id, env, report).0)
  {
    var r := SavedTags(s, file, i, tags, id, env, report).0;
    SavedTagsRecords(s, file, i, tags, id, env, report);
    forall n | n in r.tags
      ensures r.tags[n].ids != {}
    {
      if n in s.tags {
        assert s.tags[n].ids <= r.tags[n].ids;
      } else {
        assert id in r.tags[n].ids;
      }
    }
  }

  /** One file of `tag_files` keeps the registry invariant. */
  lemma TaggedFileKeepsValid(s: Snapshot, file: Path, i: nat, tags: seq<Tag>, env: Env, report: Report)
    requires Valid(s)
    ensures Valid(TaggedFile(s, file, i, tags, env, report).0)
  {
    var (s1, id, added) := Registered(s, EntryData(file), env.mint(i));
    AddedKeepsValid(s, EntryData(file), env.mint(i), s1, id, added);
    SavedTagsKeepsValid(s1, file, i, tags, id, env, report);
    var s2 := SavedTags(s1, file, i, tags, id, env, report).0;
    RemoveAndRecolorKeepValid(s2, id, [], Color.White);
  }

  /** The whole batch keeps the registry invariant. */
  lemma {:induction false} TaggedFilesKeepsValid(s: Snapshot, files: seq<Path>, tags: seq<Tag>, env: Env, report: Report)
    requires Valid(s)
    ensures Valid(TaggedFiles(s, files, tags, env, report).0)
    decreases |files|
  {
    if files != [] {
      var k := |files| - 1;
      TaggedFilesKeepsValid(s, files[..k], tags, env, report);
      TaggedFileKeepsValid(TaggedFiles(s, files[..k], tags, env, report).0, files[k], k, tags, env, report);
    }
  }

  /**
   * After one file of `tag_files`, its entry carries every tag whose write
   * succeeded; it is still in the registry exactly when some tag marks it,
   * and no other entry changed.
   */
  lemma TaggedFileCarries(s: Snapshot, file: Path, i: nat, tags: seq<Tag>, env: Env, report: Report)
    requires Valid(s)
    ensures var id := Registered(s, EntryData(file), env.mint(i)).1;
      var r := TaggedFile(s, file, i, tags, env, report).0;
      && (forall j | 0 <= j < |tags| && env.save(i, j).None? :: tags[j].name in r.tags && id in r.tags[tags[j].name].ids)
      && (id in r.entries <==> IsTagged(r, id))
      && (id in r.entries ==> r.entries[id] == EntryData(file))
      && (forall e | e != id :: (e in r.entries <==> e in s.entries) && (e in s.entries ==> r.entries[e] == s.entries[e]))
  {
    var (s1, id, added) := Registered(s, EntryData(file), env.mint(i));
    var s2 := SavedTags(s1, file, i, tags, id, env, report).0;
    var r := TaggedFile(s, file, i, tags, env, report).0;
    assert s1.entries[id] == EntryData(file);
    SavedTagsRecords(s1, file, i, tags, id, env, report);
    forall j | 0 <= j < |tags| && env.save(i, j).None?
      ensures tags[j].name in r.tags && id in r.tags[tags[j].name].ids
    {
      assert Saved(tags, i, env, tags[j].name);
    }
  }

  /** Tagging with every write refused leaves a known file's registry alone. */
  lemma TaggedFileRefused(s: Snapshot, file: Path, i: nat, tags: seq<Tag>, env: Env, report: Report)
    requires Valid(s) && Lookup(s, file).Some? && IsTagged(s, Lookup(s, file).value)
    requires forall j | 0 <= j < |tags| :: env.save(i, j).Some?
    ensures TaggedFile(s, file, i, tags, env, report).0 == s
  {
    var id := Lookup(s, file).value;
    var s2 := SavedTags(s, file, i, tags, id, env, report).0;
    SavedTagsRecords(s, file, i, tags, id, env, report);
    assert forall n :: !Saved(tags, i, env, n);
    assert forall n | n in s.tags :: s2.tags[n] == s.tags[n];
    assert s2.tags == s.tags;
  }

  /* ---------------------------------------------------------------------- */
  /* Untagging                                                               */
  /* ---------------------------------------------------------------------- */

  /** The entries of `t` are some of those of `s`, unchanged. */
  predicate EntriesShrink(s: Snapshot, t: Snapshot)
  {
    t.entries.Keys <= s.entries.Keys && forall e | e in t.entries :: t.entries[e] == s.entries[e]
  }

  /**
   * The tag loop of `untag_files` for a file with an entry: each tag is
   * removed from the file and, only if that succeeded, from the entry; an
   * entry that loses its last tag leaves the registry and its path is
   * reported, once.
   */
  function RemovedTags(s: Snapshot, file: Path, i: nat, tags: seq<Tag>, id: EntryId, env: Env): (r: (Snapshot, seq<Text>, seq<Path>))
    ensures EntriesShrink(s, r.0)
    ensures r.1 == [] <==> forall j | 0 <= j < |tags| :: env.remove(i, j).None?
    ensures |r.2| <= 1
    ensures r.2 != [] ==> id in s.entries && r.2 == [s.entries[id].path] && id !in r.0.entries
    ensures (forall j | 0 <= j < |tags| :: env.remove(i, j).Some?) ==> r.0 == s && r.2 == []
    decreases |tags|
  {
    if tags == [] then (s, [], [])
    else
      var k := |tags| - 1;
      var prev := RemovedTags(s, file, i, tags[..k], id, env);
      assert forall j | 0 <= j < k :: tags[..k][j] == tags[j];
      RemovedTag(prev, file, i, k, tags[k], id, env)
  }

  /** The j-th tag of `RemovedTags`: its failure, or its removal. */
  function RemovedTag(prev: (Snapshot, seq<Text>, seq<Path>), file: Path, i: nat, j: nat, tag: Tag, id: EntryId, env: Env): (Snapshot, seq<Text>, seq<Path>)
  {
    match env.remove(i, j)
    case Some(e) => (prev.0, prev.1 + [UntagFailure(file, tag, e)], prev.2)
    case None =>
      var (s', entry) := Untagged(prev.0, tag, id);
      (s', prev.1, prev.2 + if entry.Some? then [entry.value.path] else [])
  }

  /** One more tag of `RemovedTags`. */
  lemma RemovedTagsStep(s: Snapshot, file: Path, i: nat, tags: seq<Tag>, j: nat, id: EntryId, env: Env)
    requires j < |tags|
    ensures RemovedTags(s, file, i, tags[..j + 1], id, env) ==
      RemovedTag(RemovedTags(s, file, i, tags[..j], id, env), file, i, j, tags[j], id, env)
  {
    assert tags[..j + 1][..j] == tags[..j];
  }

  /** One file of `untag_files`: a file without an entry is skipped. */
  function UntaggedFile(s: Snapshot, file: Path, i: nat, tags: seq<Tag>, env: Env): (r: (Snapshot, seq<Text>, seq<Path>))
    ensures EntriesShrink(s, r.0)
    ensures |r.2| <= 1
    ensures r.2 != [] ==> r.2 == [file] && Lookup(s, file).Some? && Lookup(s, file).value !in r.0.entries
    ensures (forall j | 0 <= j < |tags| :: env.remove(i, j).None?) ==> r.1 == []
    ensures (forall j | 0 <= j < |tags| :: env.remove(i, j).Some?) ==> r.0 == s && r.2 == []
  {
    match Lookup(s, file)
    case None => (s, [], [])
    case Some(id) => RemovedTags(s, file, i, tags, id, env)
  }

  /** The file loop of `untag_files`. */
  function UntaggedFiles(s: Snapshot, files: seq<Path>, tags: seq<Tag>, env: Env): (r: (Snapshot, seq<Text>, seq<Path>))
    ensures EntriesShrink(s, r.0)
    ensures forall p | p in r.2 :: p in files
    ensures (forall i, j | 0 <= i < |files| && 0 <= j < |tags| :: env.remove(i, j).None?) ==> r.1 == []
    ensures (forall i, j | 0 <= i < |files| && 0 <= j < |tags| :: env.remove(i, j).Some?) ==> r.0 == s && r.2 == []
    decreases |files|
  {
    if files == [] then (s, [], [])
    else
      var k := |files| - 1;
      var prev := UntaggedFiles(s, files[..k], tags, env);
      var (s', errors, removed) := UntaggedFile(prev.0, files[k], k, tags, env);
      PrefixWithin(files, k, prev.2);
      (s', prev.1 + errors, prev.2 + removed)
  }

  lemma ShrinkKeepsPathsUnique(s: Snapshot, t: Snapshot)
    requires PathsUnique(s) && EntriesShrink(s, t)
    ensures PathsUnique(t)
  {
    forall a, b | a in t.entries && b in t.entries && t.entries[a] == t.entries[b]
      ensures a == b
    {
      assert s.entries[a] == s.entries[b];
    }
  }

  /** A path with no entry gets none by removing entries. */
  lemma ShrinkKeepsGone(s: Snapshot, t: Snapshot, p: Path)
    requires EntriesShrink(s, t) && Gone(s, p)
    ensures Gone(t, p)
  {
    forall e | e in t.entries
      ensures t.entries[e].path != p
    {
      assert e in s.entries;
    }
  }

  lemma {:induction false} RemovedTagsKeepsValid(s: Snapshot, file: Path, i: nat, tags: seq<Tag>, id: EntryId, env: Env)
    requires Valid(s)
    ensures Valid(RemovedTags(s, file, i, tags, id, env).0)
    decreases |tags|
  {
    if tags != [] {
      var k := |tags| - 1;
      RemovedTagsKeepsValid(s, file, i, tags[..k], id, env);
      UntaggedKeepsValid(RemovedTags(s, file, i, tags[..k], id, env).0, tags[k], id);
    }
  }

  /** `untag_files` keeps the registry invariant. */
  lemma {:induction false} UntaggedFilesKeepsValid(s: Snapshot, files: seq<Path>, tags: seq<Tag>, env: Env)
    requires Valid(s)
    ensures Valid(UntaggedFiles(s, files, tags, env).0)
    decreases |files|
  {
    if files != [] {
      var k := |files| - 1;
      UntaggedFilesKeepsValid(s, files[..k], tags, env);
      var mid := UntaggedFiles(s, files[..k], tags, env).0;
      if id :| Lookup(mid, files[k]) == Some(id) {
        RemovedTagsKeepsValid(mid, files[k], k, tags, id, env);
      }
    }
  }

  /** No path reported as removed has an entry in the registry after. */
  predicate RemovedAreGone(r: (Snapshot, seq<Text>, seq<Path>))
  {
    forall p | p in r.2 :: Gone(r.0, p)
  }

  /**
   * Every path `untag_files` reports as removed has no entry afterwards:
   * its entry lost its last tag, and nothing re-adds one.
   */
  lemma {:induction false} UntaggedFilesRemovedAreGone(s: Snapshot, files: seq<Path>, tags: seq<Tag>, env: Env)
    requires PathsUnique(s)
    ensures RemovedAreGone(UntaggedFiles(s, files, tags, env))
    decreases |files|
  {
    if files != [] {
      var k := |files| - 1;
      UntaggedFilesRemovedAreGone(s, files[..k], tags, env);
      var prev := UntaggedFiles(s, files[..k], tags, env);
      var last := UntaggedFile(prev.0, files[k], k, tags, env);
      var r := UntaggedFiles(s, files, tags, env);
      assert r.0 == last.0 && r.2 == prev.2 + last.2;
      ShrinkKeepsPathsUnique(s, prev.0);
      forall p | p in r.2
        ensures Gone(r.0, p)
      {
        if p in prev.2 {
          assert Gone(prev.0, p);
          ShrinkKeepsGone(prev.0, r.0, p);
        } else {
          var id := Lookup(prev.0, files[k]).value;
          forall e | e in r.0.entries
            ensures r.0.entries[e].path != p
          {
            assert e in prev.0.entries && e != id;
          }
        }
      }
    }
  }

  /* ---------------------------------------------------------------------- */
  /* Clearing                                                                */
  /* ---------------------------------------------------------------------- */

  /**
   * One file of `clear_files`: a file with an entry has its on-disk tags
   * cleared and, only if that succeeded, its entry cleared from the
   * registry; a failure gives one message.
   */
  function ClearedFile(s: Snapshot, file: Path, i: nat, env: Env): (r: (Snapshot, seq<Text>))
    ensures EntriesShrink(s, r.0)
    ensures |r.1| <= 1 && (r.1 != [] ==> env.clear(i).Some?)
    ensures env.clear(i).Some? ==> r.0 == s
    ensures env.clear(i).None? ==> Lookup(s, file).None? || Lookup(s, file).value !in r.0.entries
  {
    match Lookup(s, file)
    case None => (s, [])
    case Some(id) =>
      match env.clear(i)
      case Some(e) => (s, [ClearFailure(s.entries[id].path, e)])
      case None => (Cleared(s, id), [])
  }

  /** The file loop of `clear_files`. */
  function ClearedFiles(s: Snapshot, files: seq<Path>, env: Env): (r: (Snapshot, seq<Text>))
    ensures EntriesShrink(s, r.0)
    ensures |r.1| <= |files|
    ensures (forall i | 0 <= i < |files| :: env.clear(i).None?) ==> r.1 == []
    ensures (forall i | 0 <= i < |files| :: env.clear(i).Some?) ==> r.0 == s
    decreases |files|
  {
    if files == [] then (s, [])
    else
      var k := |files| - 1;
      var prev := ClearedFiles(s, files[..k], env);
      var (s', errors) := ClearedFile(prev.0, files[k], k, env);
      (s', prev.1 + errors)
  }

  /** `clear_files` keeps the registry invariant. */
  lemma {:induction false} ClearedFilesKeepsValid(s: Snapshot, files: seq<Path>, env: Env)
    requires Valid(s)
    ensures Valid(ClearedFiles(s, files, env).0)
    decreases |files|
  {
    if files != [] {
      var k := |files| - 1;
      ClearedFilesKeepsValid(s, files[..k], env);
      var mid := ClearedFiles(s, files[..k], env).0;
      if id :| Lookup(mid, files[k]) == Some(id) {
        ClearedKeepsValid(mid, id);
      }
    }
  }

  /** After `clear_files`, no file whose clear succeeded has an entry. */
  lemma {:induction false} ClearedFilesAreGone(s: Snapshot, files: seq<Path>, env: Env)
    requires PathsUnique(s)
    ensures var r := ClearedFiles(s, files, env).0;
      forall i | 0 <= i < |files| && env.clear(i).None? :: Gone(r, files[i])
    decreases |files|
  {
    if files != [] {
      var k := |files| - 1;
      ClearedFilesAreGone(s, files[..k], env);
      var mid := ClearedFiles(s, files[..k], env).0;
      var r := ClearedFiles(s, files, env).0;
      assert r == ClearedFile(mid, files[k], k, env).0;
      ShrinkKeepsPathsUnique(s, mid);
      forall i | 0 <= i < |files| && env.clear(i).None?
        ensures Gone(r, files[i])
      {
        if i < k {
          assert files[..k][i] == files[i];
          ShrinkKeepsGone(mid, r, files[i]);
        } else {
          ClearedFileIsGone(mid, files[k], k, env);
        }
      }
    }
  }

  lemma ClearedFileIsGone(s: Snapshot, file: Path, i: nat, env: Env)
    requires PathsUnique(s) && env.clear(i).None?
    ensures Gone(ClearedFile(s, file, i, env).0, file)
  {
    var r := ClearedFile(s, file, i, env).0;
    var l := Lookup(s, file);
    if l.Some? {
      forall e | e in r.entries
        ensures r.entries[e].path != file
      {
        assert e in s.entries && e != l.value;
      }
    }
  }

  /** `clear_files` keeps, as it was, every entry whose path it was not given. */
  lemma {:induction false} ClearedFilesKeepUnnamed(s: Snapshot, files: seq<Path>, env: Env)
    ensures var r := ClearedFiles(s, files, env).0;
      forall e | e in s.entries && s.entries[e].path !in files :: e in r.entries && r.entries[e] == s.entries[e]
    decreases |files|
  {
    if files != [] {
      var k := |files| - 1;
      ClearedFilesKeepUnnamed(s, files[..k], env);
      var r := ClearedFiles(s, files, env).0;
      forall e | e in s.entries && s.entries[e].path !in files
        ensures e in r.entries && r.entries[e] == s.entries[e]
      {
        assert s.entries[e].path !in files[..k];
        assert s.entries[e].path != files[k];
      }
    }
  }

  /* ---------------------------------------------------------------------- */
  /* Queries                                                                 */
  /* ---------------------------------------------------------------------- */

  /** The tags marking an entry, none when `list_entry_tags` has nothing. */
  function TagsOf(s: Snapshot, id: EntryId): (r: set<Tag>)
    ensures forall t :: t in r <==> t.name in s.tags && id in s.tags[t.name].ids && t.color == s.tags[t.name].color
  {
    match ListEntryTags(s, id)
    case None => {}
    case Some(tags) => tags
  }

  /**
   * The loop of `inspect_files`: for each file with an entry, in order,
   * the entry and its tags; files without one are skipped.
   */
  function Inspected(s: Snapshot, files: seq<Path>): (r: seq<(EntryData, set<Tag>)>)
    ensures |r| <= |files|
    ensures forall x | x in r :: x.0.path in files && exists id | id in s.entries :: x == (s.entries[id], TagsOf(s, id))
    ensures forall i | 0 <= i < |files| && Lookup(s, files[i]).Some? ::
      (s.entries[Lookup(s, files[i]).value], TagsOf(s, Lookup(s, files[i]).value)) in r
    decreases |files|
  {
    if files == [] then []
    else
      var k := |files| - 1;
      var prev := Inspected(s, files[..k]);
      assert forall i | 0 <= i < k :: files[..k][i] == files[i];
      match Lookup(s, files[k])
      case None => prev
      case Some(id) => prev + [(s.entries[id], TagsOf(s, id))]
  }

  /** `inspect_files`' answer: an empty request is refused. */
  function InspectedFiles(s: Snapshot, files: seq<Path>): (r: PayloadResult<seq<(EntryData, set<Tag>)>, Text>)
    ensures files == [] <==> r == Payload.Error(NO_FILES_TO_INSPECT)
  {
    if files == [] then Payload.Error(NO_FILES_TO_INSPECT) else Payload.Ok(Inspected(s, files))
  }

  /** The loop of `search`: the entry of each id, in order, skipping ids without one. */
  function Found(s: Snapshot, ids: seq<EntryId>): (r: seq<EntryData>)
    ensures |r| <= |ids|
    ensures forall d :: d in r <==> exists k | 0 <= k < |ids| :: ids[k] in s.entries && s.entries[ids[k]] == d
    decreases |ids|
  {
    if ids == [] then []
    else
      var k := |ids| - 1;
      var prev := Found(s, ids[..k]);
      assert forall j | 0 <= j < k :: ids[..k][j] == ids[j];
      match GetEntry(s, ids[k])
      case None => prev
      case Some(d) => prev + [d]
  }

  /** The entries found for a list of ids are those of the listed ids that have one. */
  lemma FoundOf(s: Snapshot, ids: seq<EntryId>, d: EntryData)
    ensures d in Found(s, ids) <==> exists id | id in s.entries && s.entries[id] == d :: id in ids
  {
    if d in Found(s, ids) {
      var k :| 0 <= k < |ids| && ids[k] in s.entries && s.entries[ids[k]] == d;
      assert ids[k] in ids;
    }
    if exists id | id in s.entries && s.entries[id] == d :: id in ids {
      var id :| id in s.entries && s.entries[id] == d && id in ids;
      var k :| 0 <= k < |ids| && ids[k] == id;
    }
  }

  /**
   * `search`'s answer: with `any` the union query, otherwise the all-tags
   * query as the registry runs it, restart included.
   */
  function Searched(s: Snapshot, names: seq<Text>, any: bool): (r: PayloadResult<seq<EntryData>, Text>)
    ensures names == [] <==> r == Payload.Error(NO_TAGS_TO_SEARCH)
  {
    if names == [] then Payload.Error(NO_TAGS_TO_SEARCH)
    else Payload.Ok(Found(s, if any then ListEntriesWithAnyTags(s, names) else ListEntriesWithAllTagsAsWritten(s, names)))
  }

  /** A search for any of the names finds the entries some named tag marks. */
  lemma SearchAnyFinds(s: Snapshot, names: seq<Text>, d: EntryData)
    requires names != []
    ensures d in Searched(s, names, true).value <==>
      exists id | id in s.entries && s.entries[id] == d :: exists i | 0 <= i < |names| :: names[i] in s.tags && id in s.tags[names[i]].ids
  {
    var ids := ListEntriesWithAnyTags(s, names);
    FoundOf(s, ids, d);
  }

  /**
   * A search for all the names finds the entries the fold as written
   * yields; whenever some entry is marked by every known named tag, that
   * is exactly those entries.
   */
  lemma SearchAllFinds(s: Snapshot, names: seq<Text>, d: EntryData)
    requires names != []
    ensures d in Searched(s, names, false).value <==>
      exists id | id in s.entries && s.entries[id] == d :: id in AllTagsAsWritten(s, names, {})
    ensures AllTags(s, names) != {} ==>
      (d in Searched(s, names, false).value <==>
        exists id | id in s.entries && s.entries[id] == d ::
          (exists i | 0 <= i < |names| :: names[i] in s.tags)
          && forall i | 0 <= i < |names| && names[i] in s.tags :: id in s.tags[names[i]].ids)
  {
    var ids := ListEntriesWithAllTagsAsWritten(s, names);
    FoundOf(s, ids, d);
    if AllTags(s, names) != {} {
      AllTagsAsWrittenAgrees(s, names);
      forall id | id in s.entries && s.entries[id] == d
        ensures id in ids <==>
          ((exists i | 0 <= i < |names| :: names[i] in s.tags)
           && forall i | 0 <= i < |names| && names[i] in s.tags :: id in s.tags[names[i]].ids)
      {
        AllTagsMembers(s, names, id);
      }
    }
  }

  /* ---------------------------------------------------------------------- */
  /* The handlers                                                            */
  /* ---------------------------------------------------------------------- */

  /** A batch answers `Ok` when no message was collected. */
  function Outcome(errors: seq<Text>): (r: PayloadResult<(), seq<Text>>)
    ensures r.Ok? <==> errors == []
    ensures r.Error? ==> r.error == errors
  {
    if errors == [] then Payload.Ok(()) else Payload.Error(errors)
  }

  /** The event a batch queues, if it has any path to report. */
  function EventOf(paths: seq<Path>, make: seq<Path> -> Events.EntryEvent): (r: seq<Events.EntryEvent>)
    ensures |r| <= 1 && (r != [] <==> paths != [])
  {
    if paths == [] then [] else [make(paths)]
  }

  /** `edit_tag`. */
  function EditedTag(s: Snapshot, name: Text, color: Color): (r: (Snapshot, Response))
    ensures name !in s.tags ==> r == (s, Response.EditTag(Payload.Error(UnknownTag(name))))
    ensures name in s.tags ==> (r.1 == Response.EditTag(Payload.Ok(())) &&
      r.0.entries == s.entries && r.0.tags.Keys == s.tags.Keys && r.0.tags[name] == TagData(color, s.tags[name].ids) &&
      forall n | n in s.tags && n != name :: r.0.tags[n] == s.tags[n])
  {
    if GetTag(s, name).None? then (s, Response.EditTag(Payload.Error(UnknownTag(name))))
    else (ColorUpdated(s, name, color).0, Response.EditTag(Payload.Ok(())))
  }

  /** `copy_tags`: the source's tags go to every target, as `tag_files` does it. */
  function CopiedTags(s: Snapshot, source: Path, target: seq<Path>, env: Env): (r: (Snapshot, Response, seq<Events.EntryEvent>))
    ensures env.list(source).Err? ==> r == (s, Response.CopyTags(Payload.Error([COPY_FAILED + Message(env.list(source).error)])), [])
    ensures env.list(source) == Ok([]) ==> r == (s, Response.CopyTags(Payload.Ok(())), [])
  {
    match env.list(source)
    case Err(e) => (s, Response.CopyTags(Payload.Error([COPY_FAILED + Message(e)])), [])
    case Ok(tags) =>
      if tags == [] then (s, Response.CopyTags(Payload.Ok(())), [])
      else
        var (s', errors, added) := TaggedFiles(s, target, tags, env, CopyFailure);
        (s', Response.CopyTags(Outcome(errors)), EventOf(added, paths => Events.Add(paths)))
  }

  /** Whether the response is the one of the request's kind. */
  predicate Answers(req: Request, r: Response)
  {
    match req
    case TagFiles(_, _) => r.TagFiles?
    case UntagFiles(_, _) => r.UntagFiles?
    case EditTag(_, _) => r.EditTag?
    case ClearFiles(_) => r.ClearFiles?
    case CopyTags(_, _) => r.CopyTags?
    case InspectFiles(_) => r.InspectFiles?
    case Search(_, _) => r.Search?
    case Ping => r.Ping?
    case CleanCache => r.CleanCache?
  }

  /**
   * `process_request`: the registry after the request, the response, and
   * the entry events the handler queues.
   */
  function Handled(s: Snapshot, req: Request, env: Env): (r: (Snapshot, Response, seq<Events.EntryEvent>))
    ensures Answers(req, r.1)
    ensures req.InspectFiles? || req.Search? || req.Ping? ==> r.0 == s && r.2 == []
    ensures |r.2| <= 1
  {
    match req
    case TagFiles(files, tags) =>
      if files == [] then (s, Response.TagFiles(Payload.Error([NO_FILES_TO_TAG])), [])
      else if tags == [] then (s, Response.TagFiles(Payload.Error([NO_TAGS_PROVIDED])), [])
      else
        var (s', errors, added) := TaggedFiles(s, files, tags, env, TagFailure);
        (s', Response.TagFiles(Outcome(errors)), EventOf(added, paths => Events.Add(paths)))
    case UntagFiles(files, tags) =>
      if files == [] then (s, Response.UntagFiles(Payload.Error([NO_FILES_TO_UNTAG])), [])
      else if tags == [] then (s, Response.UntagFiles(Payload.Error([NO_TAGS_PROVIDED])), [])
      else
        var (s', errors, removed) := UntaggedFiles(s, files, tags, env);
        (s', Response.UntagFiles(Outcome(errors)), EventOf(removed, paths => Events.Remove(paths)))
    case EditTag(name, color) =>
      var (s', resp) := EditedTag(s, name, color);
      (s', resp, [])
    case ClearFiles(files) =>
      if files == [] then (s, Response.ClearFiles(Payload.Error([NO_FILES_TO_CLEAR])), [])
      else
        var (s', errors) := ClearedFiles(s, files, env);
        (s', Response.ClearFiles(Outcome(errors)), [Events.Remove(files)])
    case CopyTags(source, target) => CopiedTags(s, source, target, env)
    case InspectFiles(files) => (s, Response.InspectFiles(InspectedFiles(s, files)), [])
    case Search(names, any) => (s, Response.Search(Searched(s, names, any)), [])
    case Ping => (s, Response.Ping(Payload.Ok(())), [])
    case CleanCache => (Snapshot(map[], map[]), Response.CleanCache(Payload.Ok(())), [])
  }

  /** Every request keeps the registry invariant. */
  lemma HandledKeepsValid(s: Snapshot, req: Request, env: Env)
    requires Valid(s)
    ensures Valid(Handled(s, req, env).0)
  {
    match req
    case TagFiles(files, tags) => TaggedFilesKeepsValid(s, files, tags, env, TagFailure);
    case UntagFiles(files, tags) => UntaggedFilesKeepsValid(s, files, tags, env);
    case EditTag(name, color) => RemoveAndRecolorKeepValid(s, 0, name, color);
    case ClearFiles(files) => ClearedFilesKeepsValid(s, files, env);
    case CopyTags(source, target) =>
      if env.list(source).Ok? {
        TaggedFilesKeepsValid(s, target, env.list(source).value, env, CopyFailure);
      }
    case InspectFiles(_) =>
    case Search(_, _) =>
    case Ping =>
    case CleanCache =>
  }

  /**
   * A batch with no files, or (for tagging and untagging) no tags, is
   * refused with its message and changes nothing.
   */
  lemma EmptyBatchesRefused(s: Snapshot, files: seq<Path>, tags: seq<Tag>, env: Env)
    ensures files == [] ==>
      && Handled(s, Request.TagFiles(files, tags), env) == (s, Response.TagFiles(Payload.Error([NO_FILES_TO_TAG])), [])
      && Handled(s, Request.UntagFiles(files, tags), env) == (s, Response.UntagFiles(Payload.Error([NO_FILES_TO_UNTAG])), [])
      && Handled(s, Request.ClearFiles(files), env) == (s, Response.ClearFiles(Payload.Error([NO_FILES_TO_CLEAR])), [])
      && Handled(s, Request.InspectFiles(files), env) == (s, Response.InspectFiles(Payload.Error(NO_FILES_TO_INSPECT)), [])
    ensures files != [] && tags == [] ==>
      && Handled(s, Request.TagFiles(files, tags), env) == (s, Response.TagFiles(Payload.Error([NO_TAGS_PROVIDED])), [])
      && Handled(s, Request.UntagFiles(files, tags), env) == (s, Response.UntagFiles(Payload.Error([NO_TAGS_PROVIDED])), [])
  {
  }

  /** `tag_files` answers `Ok` exactly when every tag was written to every file. */
  lemma TagFilesOkIffAllSaved(s: Snapshot, files: seq<Path>, tags: seq<Tag>, env: Env)
    requires files != [] && tags != []
    ensures Handled(s, Request.TagFiles(files, tags), env).1 == Response.TagFiles(Payload.Ok(())) <==>
      forall i, j | 0 <= i < |files| && 0 <= j < |tags| :: env.save(i, j).None?
  {
  }

  /** `untag_files` whose every removal the file system refused changes nothing. */
  lemma UntagRefusedChangesNothing(s: Snapshot, files: seq<Path>, tags: seq<Tag>, env: Env)
    requires files != [] && tags != []
    requires forall i, j | 0 <= i < |files| && 0 <= j < |tags| :: env.remove(i, j).Some?
    ensures Handled(s, Request.UntagFiles(files, tags), env).0 == s
    ensures Handled(s, Request.UntagFiles(files, tags), env).2 == []
  {
  }

  /* ---------------------------------------------------------------------- */
  /* The handlers as the daemon runs them                                    */
  /* ---------------------------------------------------------------------- */

  /** The events that reach the queue: none when its lock was busy. */
  function Queued(events: seq<Events.EntryEvent>, busy: bool): seq<Events.EntryEvent>
  {
    if busy then [] else events
  }

  /** One file of `tag_files` and `copy_tags`, with its tag loop. */
  method TagFile(reg: TagRegistry, file: Path, i: nat, tags: seq<Tag>, env: Env, report: Report)
    returns (errors: seq<Text>, added: bool)
    modifies reg
    requires Valid(reg.State())
    ensures (reg.State(), errors, added) == TaggedFile(old(reg.State()), file, i, tags, env, report)
    ensures Valid(reg.State())
  {
    ghost var before := reg.State();
    var id;
    id, added := reg.AddOrUpdateEntry(EntryData(file), env.mint(i));
    AddedIsRegistered(before, EntryData(file), env.mint(i), reg.State(), id, added);
    errors := SaveTags(reg, file, i, tags, id, env, report);
    if ListEntryTags(reg.State(), id).None? {
      var _ := reg.RemoveEntry(id);
    }
    TaggedFileKeepsValid(before, file, i, tags, env, report);
  }

  /** The tag loop of one file. */
  method SaveTags(reg: TagRegistry, file: Path, i: nat, tags: seq<Tag>, id: EntryId, env: Env, report: Report)
    returns (errors: seq<Text>)
    modifies reg
    ensures (reg.State(), errors) == SavedTags(old(reg.State()), file, i, tags, id, env, report)
  {
    errors := [];
    var j := 0;
    while j < |tags|
      invariant 0 <= j <= |tags|
      invariant (reg.State(), errors) == SavedTags(old(reg.State()), file, i, tags[..j], id, env, report)
    {
      var outcome := env.save(i, j);
      if outcome.Some? {
        errors := errors + [report(file, tags[j], outcome.value)];
      } else {
        var _ := reg.TagEntry(tags[j], id);
      }
      assert tags[..j + 1][..j] == tags[..j];
      j := j + 1;
    }
    assert tags[..j] == tags;
  }

  lemma TaggedFilesStep(s: Snapshot, files: seq<Path>, i: nat, tags: seq<Tag>, env: Env, report: Report)
    requires i < |files|
    ensures var prev := TaggedFiles(s, files[..i], tags, env, report);
      var f := TaggedFile(prev.0, files[i], i, tags, env, report);
      TaggedFiles(s, files[..i + 1], tags, env, report) == (f.0, prev.1 + f.1, prev.2 + if f.2 then [files[i]] else [])
  {
    assert files[..i + 1][..i] == files[..i];
  }

  /** The file loop shared by `tag_files` and `copy_tags`. */
  method TagEach(reg: TagRegistry, files: seq<Path>, tags: seq<Tag>, env: Env, report: Report)
    returns (errors: seq<Text>, newEntries: seq<Path>)
    modifies reg
    requires Valid(reg.State())
    ensures (reg.State(), errors, newEntries) == TaggedFiles(old(reg.State()), files, tags, env, report)
    ensures Valid(reg.State())
  {
    ghost var s0 := reg.State();
    errors, newEntries := [], [];
    var i := 0;
    while i < |files|
      invariant 0 <= i <= |files|
      invariant (reg.State(), errors, newEntries) == TaggedFiles(s0, files[..i], tags, env, report)
    {
      TaggedFilesKeepsValid(s0, files[..i], tags, env, report);
      TaggedFilesStep(s0, files, i, tags, env, report);
      ghost var prev := TaggedFiles(s0, files[..i], tags, env, report);
      ghost var f := TaggedFile(prev.0, files[i], i, tags, env, report);
      ghost var next := TaggedFiles(s0, files[..i + 1], tags, env, report);
      var fileErrors, added := TagFile(reg, files[i], i, tags, env, report);
      assert reg.State() == f.0 && fileErrors == f.1 && added == f.2;
      errors := errors + fileErrors;
      if added {
        newEntries := newEntries + [files[i]];
      }
      assert errors == next.1 && newEntries == next.2 && reg.State() == next.0;
      assert (reg.State(), errors, newEntries) == next;
      i := i + 1;
    }
    assert files[..i] == files;
    TaggedFilesKeepsValid(s0, files, tags, env, report);
  }

  /** `tag_files`. */
  method TagFiles(reg: TagRegistry, queue: Events.Queue<Events.EntryEvent>, files: seq<Path>, tags: seq<Tag>, env: Env, busy: bool)
    returns (r: Response)
    modifies reg, queue
    requires Valid(reg.State())
    ensures var h := Handled(old(reg.State()), Request.TagFiles(files, tags), env);
      reg.State() == h.0 && r == h.1 && queue.items == old(queue.items) + Queued(h.2, busy)
  {
    if files == [] {
      return Response.TagFiles(Payload.Error([NO_FILES_TO_TAG]));
    }
    if tags == [] {
      return Response.TagFiles(Payload.Error([NO_TAGS_PROVIDED]));
    }
    var errors, newEntries := TagEach(reg, files, tags, env, TagFailure);
    if newEntries != [] {
      queue.Push(Events.Add(newEntries), busy);
    }
    r := Response.TagFiles(Outcome(errors));
  }

  /** `copy_tags`. */
  method CopyTags(reg: TagRegistry, queue: Events.Queue<Events.EntryEvent>, source: Path, target: seq<Path>, env: Env, busy: bool)
    returns (r: Response)
    modifies reg, queue
    requires Valid(reg.State())
    ensures var h := Handled(old(reg.State()), Request.CopyTags(source, target), env);
      reg.State() == h.0 && r == h.1 && queue.items == old(queue.items) + Queued(h.2, busy)
  {
    var listed := env.list(source);
    if listed.Err? {
      return Response.CopyTags(Payload.Error([COPY_FAILED + Message(listed.error)]));
    }
    var tags := listed.value;
    if tags == [] {
      return Response.CopyTags(Payload.Ok(()));
    }
    var errors, newEntries := TagEach(reg, target, tags, env, CopyFailure);
    if newEntries != [] {
      queue.Push(Events.Add(newEntries), busy);
    }
    r := Response.CopyTags(Outcome(errors));
  }

  /** One file of `untag_files`, with its tag loop. */
  method UntagFile(reg: TagRegistry, file: Path, i: nat, tags: seq<Tag>, env: Env)
    returns (errors: seq<Text>, removed: seq<Path>)
    modifies reg
    requires Valid(reg.State())
    ensures (reg.State(), errors, removed) == UntaggedFile(old(reg.State()), file, i, tags, env)
    ensures Valid(reg.State())
  {
    ghost var before := reg.State();
    var found := reg.FindEntry(file);
    FindEntryIsLookup(before, file, found);
    errors, removed := [], [];
    if found.None? {
      return;
    }
    var id := found.value;
    var j := 0;
    while j < |tags|
      invariant 0 <= j <= |tags|
      invariant (reg.State(), errors, removed) == RemovedTags(before, file, i, tags[..j], id, env)
    {
      RemovedTagsStep(before, file, i, tags, j, id, env);
      ghost var prev := (reg.State(), errors, removed);
      var outcome := env.remove(i, j);
      if outcome.Some? {
        errors := errors + [UntagFailure(file, tags[j], outcome.value)];
      } else {
        var entry := reg.UntagEntry(tags[j], id);
        if entry.Some? {
          removed := removed + [entry.value.path];
        }
      }
      assert (reg.State(), errors, removed) == RemovedTag(prev, file, i, j, tags[j], id, env);
      j := j + 1;
    }
    assert tags[..j] == tags;
    RemovedTagsKeepsValid(before, file, i, tags, id, env);
  }

  /** `untag_files`. */
  method UntagFiles(reg: TagRegistry, queue: Events.Queue<Events.EntryEvent>, files: seq<Path>, tags: seq<Tag>, env: Env, busy: bool)
    returns (r: Response)
    modifies reg, queue
    requires Valid(reg.State())
    ensures var h := Handled(old(reg.State()), Request.UntagFiles(files, tags), env);
      reg.State() == h.0 && r == h.1 && queue.items == old(queue.items) + Queued(h.2, busy)
  {
    if files == [] {
      return Response.UntagFiles(Payload.Error([NO_FILES_TO_UNTAG]));
    }
    if tags == [] {
      return Response.UntagFiles(Payload.Error([NO_TAGS_PROVIDED]));
    }
    var errors, removed := UntagEach(reg, files, tags, env);
    assert EventOf(removed, paths => Events.Remove(paths)) == if removed == [] then [] else [Events.Remove(removed)];
    if removed != [] {
      queue.Push(Events.Remove(removed), busy);
    }
    r := Response.UntagFiles(Outcome(errors));
  }

  lemma UntaggedFilesStep(s: Snapshot, files: seq<Path>, i: nat, tags: seq<Tag>, env: Env)
    requires i < |files|
    ensures var prev := UntaggedFiles(s, files[..i], tags, env);
      var f := UntaggedFile(prev.0, files[i], i, tags, env);
      UntaggedFiles(s, files[..i + 1], tags, env) == (f.0, prev.1 + f.1, prev.2 + f.2)
  {
    assert files[..i + 1][..i] == files[..i];
  }

  /** The file loop of `untag_files`. */
  method UntagEach(reg: TagRegistry, files: seq<Path>, tags: seq<Tag>, env: Env)
    returns (errors: seq<Text>, removed: seq<Path>)
    modifies reg
    requires Valid(reg.State())
    ensures (reg.State(), errors, removed) == UntaggedFiles(old(reg.State()), files, tags, env)
    ensures Valid(reg.State())
  {
    errors, removed := [], [];
    var i := 0;
    while i < |files|
      invariant 0 <= i <= |files|
      invariant (reg.State(), errors, removed) == UntaggedFiles(old(reg.State()), files[..i], tags, env)
      invariant Valid(reg.State())
    {
      UntaggedFilesStep(old(reg.State()), files, i, tags, env);
      var fileErrors, fileRemoved := UntagFile(reg, files[i], i, tags, env);
      errors := errors + fileErrors;
      removed := removed + fileRemoved;
      i := i + 1;
    }
    assert files[..i] == files;
  }

  /** One file of `clear_files`. */
  method ClearFile(reg: TagRegistry, file: Path, i: nat, env: Env) returns (errors: seq<Text>)
    modifies reg
    requires Valid(reg.State())
    ensures (reg.State(), errors) == ClearedFile(old(reg.State()), file, i, env)
    ensures Valid(reg.State())
  {
    ghost var before := reg.State();
    var found := reg.FindEntry(file);
    FindEntryIsLookup(before, file, found);
    errors := [];
    if found.Some? {
      var entry := GetEntry(reg.State(), found.value).value;
      var outcome := env.clear(i);
      if outcome.Some? {
        errors := [ClearFailure(entry.path, outcome.value)];
      } else {
        reg.ClearEntry(found.value);
        ClearedKeepsValid(before, found.value);
      }
    }
  }

  lemma ClearedFilesStep(s: Snapshot, files: seq<Path>, i: nat, env: Env)
    requires i < |files|
    ensures var prev := ClearedFiles(s, files[..i], env);
      var f := ClearedFile(prev.0, files[i], i, env);
      ClearedFiles(s, files[..i + 1], env) == (f.0, prev.1 + f.1)
  {
    assert files[..i + 1][..i] == files[..i];
  }

  /** The file loop of `clear_files`. */
  method ClearEach(reg: TagRegistry, files: seq<Path>, env: Env) returns (errors: seq<Text>)
    modifies reg
    requires Valid(reg.State())
    ensures (reg.State(), errors) == ClearedFiles(old(reg.State()), files, env)
    ensures Valid(reg.State())
  {
    errors := [];
    var i := 0;
    while i < |files|
      invariant 0 <= i <= |files|
      invariant (reg.State(), errors) == ClearedFiles(old(reg.State()), files[..i], env)
      invariant Valid(reg.State())
    {
      ClearedFilesStep(old(reg.State()), files, i, env);
      var fileErrors := ClearFile(reg, files[i], i, env);
      errors := errors + fileErrors;
      i := i + 1;
    }
    assert files[..i] == files;
  }

  /** `clear_files`. */
  method ClearFiles(reg: TagRegistry, queue: Events.Queue<Events.EntryEvent>, files: seq<Path>, env: Env, busy: bool)
    returns (r: Response)
    modifies reg, queue
    requires Valid(reg.State())
    ensures var h := Handled(old(reg.State()), Request.ClearFiles(files), env);
      reg.State() == h.0 && r == h.1 && queue.items == old(queue.items) + Queued(h.2, busy)
  {
    if files == [] {
      return Response.ClearFiles(Payload.Error([NO_FILES_TO_CLEAR]));
    }
    var errors := ClearEach(reg, files, env);
    queue.Push(Events.Remove(files), busy);
    r := Response.ClearFiles(Outcome(errors));
  }

  /** `edit_tag`. */
  method EditTag(reg: TagRegistry, name: Text, color: Color) returns (r: Response)
    modifies reg
    ensures (reg.State(), r) == EditedTag(old(reg.State()), name, color)
  {
    if GetTag(reg.State(), name).None? {
      return Response.EditTag(Payload.Error(UnknownTag(name)));
    }
    var _ := reg.UpdateTagColor(name, color);
    r := Response.EditTag(Payload.Ok(()));
  }

  /** `inspect_files`. */
  method InspectFiles(reg: TagRegistry, files: seq<Path>) returns (r: Response)
    requires Valid(reg.State())
    ensures r == Response.InspectFiles(InspectedFiles(reg.State(), files))
  {
    if files == [] {
      return Response.InspectFiles(Payload.Error(NO_FILES_TO_INSPECT));
    }
    var entries: seq<(EntryData, set<Tag>)> := [];
    var i := 0;
    while i < |files|
      invariant 0 <= i <= |files|
      invariant entries == Inspected(reg.State(), files[..i])
    {
      var found := reg.FindEntry(files[i]);
      FindEntryIsLookup(reg.State(), files[i], found);
      if found.Some? {
        var tags := TagsOf(reg.State(), found.value);
        var entry := GetEntry(reg.State(), found.value).value;
        entries := entries + [(entry, tags)];
      }
      assert files[..i + 1][..i] == files[..i];
      i := i + 1;
    }
    assert files[..i] == files;
    r := Response.InspectFiles(Payload.Ok(entries));
  }

  /** The entry loop of `search`. */
  method Collect(reg: TagRegistry, ids: seq<EntryId>) returns (found: seq<EntryData>)
    ensures found == Found(reg.State(), ids)
  {
    found := [];
    var i := 0;
    while i < |ids|
      invariant 0 <= i <= |ids|
      invariant found == Found(reg.State(), ids[..i])
    {
      var entry := GetEntry(reg.State(), ids[i]);
      if entry.Some? {
        found := found + [entry.value];
      }
      assert ids[..i + 1][..i] == ids[..i];
      i := i + 1;
    }
    assert ids[..i] == ids;
  }

  /** `search`. */
  method Search(reg: TagRegistry, names: seq<Text>, any: bool) returns (r: Response)
    ensures r == Response.Search(Searched(reg.State(), names, any))
  {
    if names == [] {
      return Response.Search(Payload.Error(NO_TAGS_TO_SEARCH));
    }
    var ids := if any then ListEntriesWithAnyTags(reg.State(), names) else ListEntriesWithAllTagsAsWritten(reg.State(), names);
    var found := Collect(reg, ids);
    r := Response.Search(Payload.Ok(found));
  }

  /** `clean_cache`: the registry is emptied. */
  method CleanCache(reg: TagRegistry) returns (r: Response)
    modifies reg
    ensures reg.State() == Snapshot(map[], map[]) && r == Response.CleanCache(Payload.Ok(()))
  {
    reg.Clear();
    r := Response.CleanCache(Payload.Ok(()));
  }

  /**
   * `process_request`: each request goes to its handler; the registry
   * invariant holds after every one.
   */
  method ProcessRequest(reg: TagRegistry, queue: Events.Queue<Events.EntryEvent>, req: Request, env: Env, busy: bool)
    returns (r: Response)
    modifies reg, queue
    requires Valid(reg.State())
    ensures var h := Handled(old(reg.State()), req, env);
      reg.State() == h.0 && r == h.1 && queue.items == old(queue.items) + Queued(h.2, busy)
    ensures Valid(reg.State())
  {
    HandledKeepsValid(reg.State(), req, env);
    match req
    case TagFiles(files, tags) => r := TagFiles(reg, queue, files, tags, env, busy);
    case UntagFiles(files, tags) => r := UntagFiles(reg, queue, files, tags, env, busy);
    case EditTag(name, color) => r := EditTag(reg, name, color);
    case ClearFiles(files) => r := ClearFiles(reg, queue, files, env, busy);
    case CopyTags(source, target) => r := CopyTags(reg, queue, source, target, env, busy);
    case InspectFiles(files) => r := InspectFiles(reg, files);
    case Search(names, any) => r := Search(reg, names, any);
    case Ping => r := Response.Ping(Payload.Ok(()));
    case CleanCache => r := CleanCache(reg);
  }
}
