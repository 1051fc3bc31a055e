/**
 * The tag registry of `wutag_core`: which tags exist (by name, with a
 * colour) and which entries each one marks, plus the path of every entry.
 *
 * A `Tag` compares, orders and hashes by name alone, so the map from tags
 * to entry sets is a map from names to a colour and a set. Entry ids are
 * minted from the clock in the source; here the caller passes the id.
 */
module Registry {
  import opened Wrappers
  import opened Text
  import opened Colors
  import CoreTag

  type EntryId = nat
  type Path = Text

  datatype EntryData = EntryData(path: Path)

  /** What the registry keeps for one tag: its colour and the entries it marks. */
  datatype TagData = TagData(color: Color, ids: set<EntryId>)

  /** The registry's two maps as a value. */
  datatype Snapshot = Snapshot(tags: map<Text, TagData>, entries: map<EntryId, EntryData>)

  /* ---------------------------------------------------------------------- */
  /* Invariants                                                              */
  /* ---------------------------------------------------------------------- */

  /** No tag is kept with an empty entry set. */
  predicate NoEmptyTag(s: Snapshot)
  {
    forall n | n in s.tags :: s.tags[n].ids != {}
  }

  /** No two entries have the same path. */
  predicate PathsUnique(s: Snapshot)
  {
    forall a, b | a in s.entries && b in s.entries && s.entries[a] == s.entries[b] :: a == b
  }

  predicate Valid(s: Snapshot)
  {
    NoEmptyTag(s) && PathsUnique(s)
  }

  /** Whether some tag marks the entry. */
  predicate IsTagged(s: Snapshot, id: EntryId)
  {
    exists n | n in s.tags :: id in s.tags[n].ids
  }

  /* ---------------------------------------------------------------------- */
  /* What each mutator does to the maps                                      */
  /* ---------------------------------------------------------------------- */

  /**
   * `add_or_update_entry`: an entry equal to `entry` keeps its id and
   * nothing is added; otherwise `entry` goes in under `newId`.
   */
  predicate Added(s: Snapshot, entry: EntryData, newId: EntryId, s': Snapshot, id: EntryId, added: bool)
  {
    if exists e | e in s.entries :: s.entries[e] == entry then
      s' == s && !added && id in s.entries && s.entries[id] == entry
    else
      s' == s.(entries := s.entries[newId := entry]) && added && id == newId
  }

  /**
   * `tag_entry`: the tag's set gains the id (a new tag keeps the given
   * colour, a known one keeps its own); the answer is `Some(id)` exactly
   * when the id was already there.
   */
  function Tagged(s: Snapshot, tag: CoreTag.Tag, id: EntryId): (r: (Snapshot, Option<EntryId>))
    ensures r.0.entries == s.entries
    ensures r.0.tags.Keys == s.tags.Keys + {tag.name}
    ensures r.0.tags[tag.name].ids == (if tag.name in s.tags then s.tags[tag.name].ids else {}) + {id}
    ensures r.0.tags[tag.name].color == (if tag.name in s.tags then s.tags[tag.name].color else tag.color)
    ensures forall n | n in s.tags && n != tag.name :: r.0.tags[n] == s.tags[n]
    ensures r.1 == (if tag.name in s.tags && id in s.tags[tag.name].ids then Some(id) else None)
  {
    var old_ := if tag.name in s.tags then s.tags[tag.name] else TagData(tag.color, {});
    var present := id in old_.ids;
    (s.(tags := s.tags[tag.name := old_.(ids := old_.ids + {id})]), if present then Some(id) else None)
  }

  /**
   * `untag_entry`: the tag's set loses the id and the tag goes when its
   * set is empty; then, if no tag marks the id any more, the entry is
   * removed and returned.
   */
  function Untagged(s: Snapshot, tag: CoreTag.Tag, id: EntryId): (r: (Snapshot, Option<EntryData>))
    ensures tag.name in r.0.tags <==> tag.name in s.tags && s.tags[tag.name].ids - {id} != {}
    ensures tag.name in r.0.tags ==> r.0.tags[tag.name] == s.tags[tag.name].(ids := s.tags[tag.name].ids - {id})
    ensures forall n | n != tag.name :: (n in r.0.tags <==> n in s.tags) && (n in s.tags ==> r.0.tags[n] == s.tags[n])
    ensures IsTagged(r.0, id) ==> r.0.entries == s.entries && r.1 == None
    ensures !IsTagged(r.0, id) ==>
      r.0.entries == s.entries - {id} && r.1 == (if id in s.entries then Some(s.entries[id]) else None)
  {
    var tags :=
      if tag.name in s.tags && s.tags[tag.name].ids - {id} != {} then
        s.tags[tag.name := s.tags[tag.name].(ids := s.tags[tag.name].ids - {id})]
      else s.tags - {tag.name};
    var t := Snapshot(tags, s.entries);
    if IsTagged(t, id) then (t, None)
    else (t.(entries := s.entries - {id}), if id in s.entries then Some(s.entries[id]) else None)
  }

  /** `clear_entry`: every set loses the id, tags left empty go, and the entry goes. */
  function Cleared(s: Snapshot, id: EntryId): (r: Snapshot)
    ensures r.entries == s.entries - {id}
    ensures forall n :: n in r.tags <==> n in s.tags && s.tags[n].ids - {id} != {}
    ensures forall n | n in r.tags :: r.tags[n] == s.tags[n].(ids := s.tags[n].ids - {id})
  {
    Snapshot(
      map n | n in s.tags && s.tags[n].ids - {id} != {} :: s.tags[n].(ids := s.tags[n].ids - {id}),
      s.entries - {id})
  }

  /** `remove_entry`: the entry goes; tag sets are left as they are. */
  function EntryRemoved(s: Snapshot, id: EntryId): (r: (Snapshot, Option<EntryData>))
    ensures r.0.tags == s.tags && r.0.entries == s.entries - {id}
    ensures r.1.Some? <==> id in s.entries
    ensures r.1.Some? ==> r.1.value == s.entries[id]
  {
    (s.(entries := s.entries - {id}), if id in s.entries then Some(s.entries[id]) else None)
  }

  /**
   * `update_tag_color`: `false` and no change for an unknown name;
   * otherwise the colour is replaced and the entry set kept.
   */
  function ColorUpdated(s: Snapshot, name: Text, color: Color): (r: (Snapshot, bool))
    ensures r.1 <==> name in s.tags
    ensures !r.1 ==> r.0 == s
    ensures r.1 ==>
      r.0.entries == s.entries && r.0.tags.Keys == s.tags.Keys && r.0.tags[name] == TagData(color, s.tags[name].ids)
      && forall n | n in s.tags && n != name :: r.0.tags[n] == s.tags[n]
  {
    if name in s.tags then (s.(tags := s.tags[name := s.tags[name].(color := color)]), true)
    else (s, false)
  }

  /** A tag's data with one id dropped from its set. */
  function Stripped(data: TagData, id: EntryId): TagData
  {
    data.(ids := data.ids - {id})
  }

  /* ---------------------------------------------------------------------- */
  /* Queries                                                                 */
  /* ---------------------------------------------------------------------- */

  /** `get_tag`. */
  function GetTag(s: Snapshot, name: Text): (r: Option<CoreTag.Tag>)
    ensures r.Some? <==> name in s.tags
    ensures r.Some? ==> r.value == CoreTag.Tag(name, s.tags[name].color)
  {
    if name in s.tags then Some(CoreTag.Tag(name, s.tags[name].color)) else None
  }

  /** `get_entry`. */
  function GetEntry(s: Snapshot, id: EntryId): (r: Option<EntryData>)
    ensures r.Some? <==> id in s.entries
    ensures r.Some? ==> r.value == s.entries[id]
  {
    if id in s.entries then Some(s.entries[id]) else None
  }

  /**
   * `list_entry_tags`: the tags that mark the entry, or `None` when there
   * are none (the source returns them in hash order; here as a set).
   */
  function ListEntryTags(s: Snapshot, id: EntryId): (r: Option<set<CoreTag.Tag>>)
    ensures r.None? <==> !IsTagged(s, id)
    ensures r.Some? ==> forall t :: t in r.value <==> t.name in s.tags && id in s.tags[t.name].ids && t.color == s.tags[t.name].color
  {
    if !IsTagged(s, id) then None
    else Some(set n | n in s.tags && id in s.tags[n].ids :: CoreTag.Tag(n, s.tags[n].color))
  }

  /** The ids the tag of this name marks, none for an unknown name. */
  function IdsOf(s: Snapshot, name: Text): set<EntryId>
  {
    if name in s.tags then s.tags[name].ids else {}
  }

  /** The union fold of `list_entries_with_any_tags`. */
  function AnyTags(s: Snapshot, names: seq<Text>): (r: set<EntryId>)
    ensures forall x :: x in r <==> exists i | 0 <= i < |names| :: x in IdsOf(s, names[i])
    decreases |names|
  {
    if names == [] then {}
    else
      var rest := AnyTags(s, names[1..]);
      assert forall i | 1 <= i < |names| :: names[i] == names[1..][i - 1];
      IdsOf(s, names[0]) + rest
  }

  /** The smallest member of a non-empty set. */
  function Min(ids: set<EntryId>): (m: EntryId)
    requires ids != {}
    ensures m in ids && forall x | x in ids :: m <= x
  {
    MinExists(ids);
    var m :| m in ids && forall x | x in ids :: m <= x;
    m
  }

  lemma MinExists(ids: set<EntryId>)
    requires ids != {}
    ensures exists m :: m in ids && forall x | x in ids :: m <= x
  {
    var m := MinWitness(ids);
  }

  lemma MinWitness(ids: set<EntryId>) returns (m: EntryId)
    requires ids != {}
    ensures m in ids && forall x | x in ids :: m <= x
    decreases |ids|
  {
    var y :| y in ids;
    var rest := ids - {y};
    if rest == {} {
      m := y;
    } else {
      var low := MinWitness(rest);
      m := if y < low then y else low;
    }
    forall x | x in ids
      ensures m <= x
    {
      if x != y {
        assert x in rest;
      }
    }
  }

  /** A set of ids in ascending order, as a `BTreeSet` iterates. */
  function Ascending(ids: set<EntryId>): (r: seq<EntryId>)
    ensures |r| == |ids|
    ensures forall x :: x in r <==> x in ids
    ensures forall i, j | 0 <= i < j < |r| :: r[i] < r[j]
    decreases |ids|
  {
    if ids == {} then []
    else
      var m := Min(ids);
      var rest := Ascending(ids - {m});
      PrependLeast(ids, m, rest);
      [m] + rest
  }

  /** The least id before an ascending listing of the others lists them all in order. */
  lemma PrependLeast(ids: set<EntryId>, m: EntryId, rest: seq<EntryId>)
    requires m in ids && forall x | x in ids :: m <= x
    requires |rest| == |ids - {m}|
    requires forall x :: x in rest <==> x in ids - {m}
    requires forall i, j | 0 <= i < j < |rest| :: rest[i] < rest[j]
    ensures |[m] + rest| == |ids|
    ensures forall x :: x in [m] + rest <==> x in ids
    ensures forall i, j | 0 <= i < j < |[m] + rest| :: ([m] + rest)[i] < ([m] + rest)[j]
  {
    forall j | 0 <= j < |rest| ensures m < rest[j] {
      assert rest[j] in ids - {m};
    }
  }

  /**
   * `list_entries_with_any_tags`: ascending and without repeats, every id
   * that some named tag marks; unknown names add nothing.
   */
  function ListEntriesWithAnyTags(s: Snapshot, names: seq<Text>): (r: seq<EntryId>)
    ensures forall i, j | 0 <= i < j < |r| :: r[i] < r[j]
    ensures forall x :: x in r <==> exists i | 0 <= i < |names| :: names[i] in s.tags && x in s.tags[names[i]].ids
  {
    Ascending(AnyTags(s, names))
  }

  /**
   * The fold of `list_entries_with_all_tags` as written: unknown names are
   * skipped, and whenever the accumulator is empty the next known set
   * replaces it instead of being intersected with it.
   */
  function AllTagsAsWritten(s: Snapshot, names: seq<Text>, acc: set<EntryId>): (r: set<EntryId>)
    ensures (forall i | 0 <= i < |names| :: names[i] !in s.tags) ==> r == acc
    decreases |names|
  {
    if names == [] then acc
    else if names[0] !in s.tags then AllTagsAsWritten(s, names[1..], acc)
    else if acc == {} then AllTagsAsWritten(s, names[1..], s.tags[names[0]].ids)
    else AllTagsAsWritten(s, names[1..], acc * s.tags[names[0]].ids)
  }

  /**
   * The same fold with the evidently intended accumulator: `None` until
   * the first known name, the intersection of the known names' sets after.
   */
  function AllTagsFold(s: Snapshot, names: seq<Text>, acc: Option<set<EntryId>>): (r: Option<set<EntryId>>)
    ensures acc.Some? ==> r.Some? && r.value <= acc.value
    decreases |names|
  {
    if names == [] then acc
    else if names[0] !in s.tags then AllTagsFold(s, names[1..], acc)
    else match acc
      case None => AllTagsFold(s, names[1..], Some(s.tags[names[0]].ids))
      case Some(a) => AllTagsFold(s, names[1..], Some(a * s.tags[names[0]].ids))
  }

  function AllTags(s: Snapshot, names: seq<Text>): set<EntryId>
  {
    match AllTagsFold(s, names, None)
    case None => {}
    case Some(ids) => ids
  }

  /** `list_entries_with_all_tags` as written, ascending. */
  function ListEntriesWithAllTagsAsWritten(s: Snapshot, names: seq<Text>): (r: seq<EntryId>)
    ensures forall i, j | 0 <= i < j < |r| :: r[i] < r[j]
    ensures forall x :: x in r <==> x in AllTagsAsWritten(s, names, {})
  {
    Ascending(AllTagsAsWritten(s, names, {}))
  }

  /** `list_entries_with_all_tags` with the intended fold, ascending. */
  function ListEntriesWithAllTags(s: Snapshot, names: seq<Text>): (r: seq<EntryId>)
    ensures forall i, j | 0 <= i < j < |r| :: r[i] < r[j]
    ensures forall x :: x in r <==> x in AllTags(s, names)
  {
    Ascending(AllTags(s, names))
  }

  /**
   * Dropping, from the stripped tags, those whose set became empty gives
   * the tags of `Cleared`.
   */
  lemma DropEmptyIsCleared(s: Snapshot, stripped: map<Text, TagData>, empty: set<Text>, id: EntryId)
    requires stripped.Keys == s.tags.Keys
    requires forall n | n in stripped :: stripped[n] == Stripped(s.tags[n], id)
    requires forall n | n in empty :: n in stripped && stripped[n].ids == {}
    requires forall n | n in stripped && stripped[n].ids == {} :: n in empty
    ensures stripped - empty == Cleared(s, id).tags
  {
  }

  /**
   * Part way through `clear_entry`'s pass: the tags still to visit are as
   * they were, the visited ones are stripped of the id, and `empty` holds
   * exactly the visited tags left without entries.
   */
  ghost predicate ClearProgress(start: map<Text, TagData>, cur: map<Text, TagData>, todo: set<Text>, empty: set<Text>, id: EntryId)
  {
    && todo <= cur.Keys && cur.Keys == start.Keys
    && (forall n | n in todo :: cur[n] == start[n])
    && (forall n | n in cur && n !in todo :: cur[n] == Stripped(start[n], id))
    && (forall n | n in empty :: n in cur && n !in todo && cur[n].ids == {})
    && (forall n | n in cur && n !in todo && cur[n].ids == {} :: n in empty)
  }

  /** Visiting one more tag keeps `ClearProgress`. */
  lemma ClearStep(start: map<Text, TagData>, cur: map<Text, TagData>, todo: set<Text>, empty: set<Text>, id: EntryId, n: Text)
    requires ClearProgress(start, cur, todo, empty, id) && n in todo
    ensures var next := cur[n := Stripped(cur[n], id)];
      ClearProgress(start, next, todo - {n}, if next[n].ids == {} then empty + {n} else empty, id)
  {
  }

  /* ---------------------------------------------------------------------- */
  /* Properties                                                              */
  /* ---------------------------------------------------------------------- */

  /** `tag_entry` keeps the invariant. */
  lemma TaggedKeepsValid(s: Snapshot, tag: CoreTag.Tag, id: EntryId)
    requires Valid(s)
    ensures Valid(Tagged(s, tag, id).0)
  {
  }

  /** `untag_entry` keeps the invariant: the tag it empties is dropped. */
  lemma UntaggedKeepsValid(s: Snapshot, tag: CoreTag.Tag, id: EntryId)
    requires Valid(s)
    ensures Valid(Untagged(s, tag, id).0)
  {
    var r := Untagged(s, tag, id).0;
    forall a, b | a in r.entries && b in r.entries && r.entries[a] == r.entries[b]
      ensures a == b
    {
      assert a in s.entries && b in s.entries;
    }
  }

  /** `clear_entry` keeps the invariant. */
  lemma ClearedKeepsValid(s: Snapshot, id: EntryId)
    requires Valid(s)
    ensures Valid(Cleared(s, id))
  {
    var r := Cleared(s, id);
    forall a, b | a in r.entries && b in r.entries && r.entries[a] == r.entries[b]
      ensures a == b
    {
      assert a in s.entries && b in s.entries;
    }
  }

  /** `remove_entry` and `update_tag_color` keep the invariant. */
  lemma RemoveAndRecolorKeepValid(s: Snapshot, id: EntryId, name: Text, color: Color)
    requires Valid(s)
    ensures Valid(EntryRemoved(s, id).0)
    ensures Valid(ColorUpdated(s, name, color).0)
  {
    var r := EntryRemoved(s, id).0;
    forall a, b | a in r.entries && b in r.entries && r.entries[a] == r.entries[b]
      ensures a == b
    {
      assert a in s.entries && b in s.entries;
    }
  }

  /**
   * `add_or_update_entry` keeps the invariant (a new entry may even
   * overwrite an id in use), and an existing entry is the only one with
   * its path.
   */
  lemma AddedKeepsValid(s: Snapshot, entry: EntryData, newId: EntryId, s': Snapshot, id: EntryId, added: bool)
    requires Valid(s) && Added(s, entry, newId, s', id, added)
    ensures Valid(s')
    ensures s'.entries[id] == entry
    ensures !added ==> forall e | e in s.entries && s.entries[e] == entry :: e == id
  {
    if added {
      forall a, b | a in s'.entries && b in s'.entries && s'.entries[a] == s'.entries[b]
        ensures a == b
      {
        if a != newId && b != newId {
          assert a in s.entries && b in s.entries;
        }
      }
    }
  }

  /**
   * Tagging twice is tagging once: the repeat answers `Some(id)` and
   * changes nothing, whatever colour it carries.
   */
  lemma TagIdempotent(s: Snapshot, tag: CoreTag.Tag, color: Color, id: EntryId)
    ensures var s1 := Tagged(s, tag, id).0;
      Tagged(s1, tag.(color := color), id) == (s1, Some(id))
  {
    var s1 := Tagged(s, tag, id).0;
    var d := s1.tags[tag.name];
    assert d.ids + {id} == d.ids;
    assert s1.tags[tag.name := d.(ids := d.ids + {id})] == s1.tags;
  }

  /**
   * Untagging undoes tagging: when the id was not marked by the tag, the
   * tags come back to what they were (the entry itself may go).
   */
  lemma UntagUndoesTag(s: Snapshot, tag: CoreTag.Tag, id: EntryId)
    requires NoEmptyTag(s)
    requires tag.name !in s.tags || id !in s.tags[tag.name].ids
    ensures Untagged(Tagged(s, tag, id).0, tag, id).0.tags == s.tags
  {
    var s1 := Tagged(s, tag, id).0;
    var r := Untagged(s1, tag, id).0;
    if tag.name in s.tags {
      assert s1.tags[tag.name].ids - {id} == s.tags[tag.name].ids;
    }
  }

  /**
   * After `clear_entry` no tag marks the id, and every other id is marked
   * by exactly the tags that marked it before.
   */
  lemma ClearedOnlyTouchesId(s: Snapshot, id: EntryId, other: EntryId, name: Text)
    requires other != id
    ensures !IsTagged(Cleared(s, id), id)
    ensures other in IdsOf(Cleared(s, id), name) <==> other in IdsOf(s, name)
  {
  }

  /**
   * What the intended all-tags fold computes, for any accumulator: a set
   * once the accumulator or some name is known, holding what the
   * accumulator holds and every known name's set holds.
   */
  lemma {:induction false} AllTagsFoldMembers(s: Snapshot, names: seq<Text>, acc: Option<set<EntryId>>, x: EntryId)
    ensures var r := AllTagsFold(s, names, acc);
      (r.Some? <==> acc.Some? || exists i | 0 <= i < |names| :: names[i] in s.tags)
      && (r.Some? ==>
            (x in r.value <==> (acc.Some? ==> x in acc.value) && forall i | 0 <= i < |names| && names[i] in s.tags :: x in s.tags[names[i]].ids))
    decreases |names|
  {
    if names != [] {
      var acc' :=
        if names[0] !in s.tags then acc
        else match acc
          case None => Some(s.tags[names[0]].ids)
          case Some(a) => Some(a * s.tags[names[0]].ids);
      assert AllTagsFold(s, names, acc) == AllTagsFold(s, names[1..], acc');
      AllTagsFoldMembers(s, names[1..], acc', x);
      assert forall i | 1 <= i < |names| :: names[i] == names[1..][i - 1];
      assert forall i | 0 <= i < |names[1..]| :: names[1..][i] == names[i + 1];
    }
  }

  /**
   * The intended `list_entries_with_all_tags`: the ids that every known
   * name marks, and none when no name is known.
   */
  lemma AllTagsMembers(s: Snapshot, names: seq<Text>, x: EntryId)
    ensures x in AllTags(s, names) <==>
      (exists i | 0 <= i < |names| :: names[i] in s.tags)
      && forall i | 0 <= i < |names| && names[i] in s.tags :: x in s.tags[names[i]].ids
  {
    AllTagsFoldMembers(s, names, None, x);
  }

  lemma {:induction false} AgreeFrom(s: Snapshot, names: seq<Text>, a: set<EntryId>)
    requires AllTagsFold(s, names, Some(a)).value != {}
    ensures AllTagsAsWritten(s, names, a) == AllTagsFold(s, names, Some(a)).value
    decreases |names|
  {
    if names != [] {
      if names[0] !in s.tags {
        AgreeFrom(s, names[1..], a);
      } else {
        var a' := a * s.tags[names[0]].ids;
        assert AllTagsFold(s, names, Some(a)) == AllTagsFold(s, names[1..], Some(a'));
        assert a != {};
        AgreeFrom(s, names[1..], a');
      }
    }
  }

  /**
   * The fold as written agrees with the intended one whenever the
   * intended answer is not empty: the restart only matters once the
   * running intersection has run dry.
   */
  lemma {:induction false} AllTagsAsWrittenAgrees(s: Snapshot, names: seq<Text>)
    requires AllTags(s, names) != {}
    ensures AllTagsAsWritten(s, names, {}) == AllTags(s, names)
    decreases |names|
  {
    if names != [] {
      if names[0] !in s.tags {
        AllTagsAsWrittenAgrees(s, names[1..]);
      } else {
        var ids := s.tags[names[0]].ids;
        assert AllTagsFold(s, names, None) == AllTagsFold(s, names[1..], Some(ids));
        AgreeFrom(s, names[1..], ids);
      }
    }
  }

  /** For two known tags the query as written gives exactly the ids both mark. */
  lemma AllTagsAsWrittenPair(s: Snapshot, a: Text, b: Text)
    requires NoEmptyTag(s) && a in s.tags && b in s.tags
    ensures AllTagsAsWritten(s, [a, b], {}) == s.tags[a].ids * s.tags[b].ids
  {
    var ia, ib := s.tags[a].ids, s.tags[b].ids;
    assert [a, b][1..] == [b] && [b][1..] == [];
    assert ia != {};
    calc {
      AllTagsAsWritten(s, [a, b], {});
      AllTagsAsWritten(s, [b], ia);
      AllTagsAsWritten(s, [], ia * ib);
    }
  }

  const NAME_A: Text := "a"
  const NAME_B: Text := "b"
  const NAME_C: Text := "c"

  /**
   * The restart in the query as written: three tags marking one entry
   * each, none in common, and the query returns the last tag's entry.
   */
  lemma AllTagsAsWrittenRestarts()
    ensures var s := Snapshot(map[NAME_A := TagData(Black, {1}), NAME_B := TagData(Black, {2}), NAME_C := TagData(Black, {3})], map[]);
      Valid(s) && AllTagsAsWritten(s, [NAME_A, NAME_B, NAME_C], {}) == {3} && AllTags(s, [NAME_A, NAME_B, NAME_C]) == {}
  {
    var s := Snapshot(map[NAME_A := TagData(Black, {1}), NAME_B := TagData(Black, {2}), NAME_C := TagData(Black, {3})], map[]);
    var names := [NAME_A, NAME_B, NAME_C];
    assert names[1..] == [NAME_B, NAME_C] && names[1..][1..] == [NAME_C] && [NAME_C][1..] == [];
    assert NAME_A != NAME_B && NAME_B != NAME_C && NAME_A != NAME_C;
    var one: set<EntryId> := {1};
    var two: set<EntryId> := {2};
    assert one * two == {};
    calc {
      AllTagsAsWritten(s, names, {});
      AllTagsAsWritten(s, [NAME_B, NAME_C], {1});
      AllTagsAsWritten(s, [NAME_C], one * two);
      AllTagsAsWritten(s, [NAME_C], {});
      AllTagsAsWritten(s, [], {3});
    }
    calc {
      AllTagsFold(s, names, None);
      AllTagsFold(s, [NAME_B, NAME_C], Some({1}));
      AllTagsFold(s, [NAME_C], Some(one * two));
      AllTagsFold(s, [], Some(one * two * {3}));
    }
  }

  /**
   * The unit test scenario: an entry tagged once and then untagged is
   * returned, and the registry is left with neither tags nor entries.
   */
  lemma UntagLastTagRemovesEntry(tag: CoreTag.Tag, id: EntryId, entry: EntryData)
    ensures var s := Snapshot(map[], map[id := entry]);
      Untagged(Tagged(s, tag, id).0, tag, id) == (Snapshot(map[], map[]), Some(entry))
  {
    var s := Snapshot(map[], map[id := entry]);
    var s1 := Tagged(s, tag, id).0;
    var none: set<EntryId> := {};
    assert none + {id} == {id};
    assert s1.tags == map[tag.name := TagData(tag.color, {id})];
    var r := Untagged(s1, tag, id);
    assert r.0.tags == map[];
    assert !IsTagged(r.0, id);
    assert r.0.entries == map[];
  }

  /* ---------------------------------------------------------------------- */
  /* The registry object                                                     */
  /* ---------------------------------------------------------------------- */

  class TagRegistry {
    var tags: map<Text, TagData>
    var entries: map<EntryId, EntryData>

    function State(): Snapshot
      reads this
    {
      Snapshot(tags, entries)
    }

    constructor ()
      ensures State() == Snapshot(map[], map[])
    {
      tags := map[];
      entries := map[];
    }

    /** `clear`. */
    method Clear()
      modifies this
      ensures State() == Snapshot(map[], map[])
    {
      tags := map[];
      entries := map[];
    }

    /**
     * `find_entry`: an entry with this path, found by walking the entries
     * in an order the model leaves open (the source's hash order).
     */
    method FindEntry(path: Path) returns (r: Option<EntryId>)
      ensures r.Some? ==> r.value in entries && entries[r.value].path == path
      ensures r.None? ==> forall id | id in entries :: entries[id].path != path
    {
      var todo := entries.Keys;
      while todo != {}
        invariant todo <= entries.Keys
        invariant forall id | id in entries && id !in todo :: entries[id].path != path
        decreases |todo|
      {
        var id :| id in todo;
        if entries[id].path == path {
          return Some(id);
        }
        todo := todo - {id};
      }
      r := None;
    }

    /** `add_or_update_entry`, with `newId` standing for the clock-minted id. */
    method AddOrUpdateEntry(entry: EntryData, newId: EntryId) returns (id: EntryId, added: bool)
      modifies this
      ensures Added(old(State()), entry, newId, State(), id, added)
    {
      var pos := FindEntry(entry.path);
      if pos.Some? {
        entries := entries[pos.value := entry];
        assert entries == old(entries);
        id, added := pos.value, false;
      } else {
        entries := entries[newId := entry];
        id, added := newId, true;
      }
    }

    /** `tag_entry`. */
    method TagEntry(tag: CoreTag.Tag, id: EntryId) returns (r: Option<EntryId>)
      modifies this
      ensures (State(), r) == Tagged(old(State()), tag, id)
    {
      if tag.name !in tags {
        tags := tags[tag.name := TagData(tag.color, {})];
      }
      var data := tags[tag.name];
      if id in data.ids {
        assert data.ids + {id} == data.ids;
        assert tags == old(tags)[tag.name := data.(ids := data.ids + {id})];
        return Some(id);
      }
      tags := tags[tag.name := data.(ids := data.ids + {id})];
      assert tags == old(tags)[tag.name := data.(ids := data.ids + {id})];
      r := None;
    }

    /** `untag_entry`. */
    method UntagEntry(tag: CoreTag.Tag, id: EntryId) returns (r: Option<EntryData>)
      modifies this
      ensures (State(), r) == Untagged(old(State()), tag, id)
    {
      if tag.name !in tags {
        tags := tags[tag.name := TagData(tag.color, {})];
      }
      var data := tags[tag.name];
      tags := tags[tag.name := data.(ids := data.ids - {id})];
      if tags[tag.name].ids == {} {
        tags := tags - {tag.name};
      }
      assert tags == Untagged(old(State()), tag, id).0.tags;
      if ListEntryTags(State(), id).None? {
        r := if id in entries then Some(entries[id]) else None;
        entries := entries - {id};
        return;
      }
      r := None;
    }

    /** `untag_by_name`: `None` and no change for an unknown name. */
    method UntagByName(name: Text, id: EntryId) returns (r: Option<EntryData>)
      modifies this
      ensures name !in old(tags) ==> r.None? && State() == old(State())
      ensures name in old(tags) ==> (State(), r) == Untagged(old(State()), CoreTag.Tag(name, old(tags)[name].color), id)
    {
      var tag := GetTag(State(), name);
      if tag.None? {
        return None;
      }
      r := UntagEntry(tag.value, id);
    }

    /**
     * `clear_entry`: a pass over every tag that drops the id and notes the
     * tags left empty, then their removal and the entry's.
     */
    method ClearEntry(id: EntryId)
      modifies this
      ensures State() == Cleared(old(State()), id)
    {
      var todo := tags.Keys;
      var toRemove: set<Text> := {};
      while todo != {}
        invariant ClearProgress(old(tags), tags, todo, toRemove, id)
        invariant entries == old(entries)
        decreases |todo|
      {
        var n :| n in todo;
        ClearStep(old(tags), tags, todo, toRemove, id, n);
        tags := tags[n := Stripped(tags[n], id)];
        if tags[n].ids == {} {
          toRemove := toRemove + {n};
        }
        todo := todo - {n};
      }
      DropEmptyIsCleared(old(State()), tags, toRemove, id);
      tags := tags - toRemove;
      entries := entries - {id};
    }

    /** `remove_entry`. */
    method RemoveEntry(id: EntryId) returns (r: Option<EntryData>)
      modifies this
      ensures (State(), r) == EntryRemoved(old(State()), id)
    {
      r := if id in entries then Some(entries[id]) else None;
      entries := entries - {id};
    }

    /** `update_tag_color`: the tag is taken out, recoloured and put back. */
    method UpdateTagColor(name: Text, color: Color) returns (r: bool)
      modifies this
      ensures (State(), r) == ColorUpdated(old(State()), name, color)
    {
      var tag := GetTag(State(), name);
      if tag.None? {
        return false;
      }
      var data := tags[name];
      tags := tags - {name};
      var recoloured := CoreTag.SetColor(tag.value, color);
      tags := tags[recoloured.name := data.(color := recoloured.color)];
      assert tags == old(tags)[name := old(tags)[name].(color := color)];
      r := true;
    }
  }
}
