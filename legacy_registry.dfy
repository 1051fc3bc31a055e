/**
 * The first generation's tag registry: each tag (by name, keeping the whole
 * timestamped tag) maps to a vector of entry ids, and each entry id to its
 * path. Unlike the later registry, lists are vectors, a tag's key is never
 * deleted once made, and the multi-tag query concatenates.
 */
module LegacyRegistry {
  import opened Wrappers
  import opened Text
  import opened Colors
  import CborTag
  import Registry

  type EntryId = Registry.EntryId
  type EntryData = Registry.EntryData
  type Path = Registry.Path

  /** What the registry keeps for one tag: the tag itself and its id vector. */
  datatype TagList = TagList(tag: CborTag.Tag, ids: seq<EntryId>)

  datatype Snapshot = Snapshot(tags: map<Text, TagList>, entries: map<EntryId, EntryData>)

  /** No id is listed twice under one tag. */
  predicate NoDuplicates(s: Snapshot)
  {
    forall n | n in s.tags :: Distinct(s.tags[n].ids)
  }

  /** No id occurs twice in the vector. */
  predicate Distinct(ids: seq<EntryId>)
  {
    forall i, j | 0 <= i < j < |ids| :: ids[i] != ids[j]
  }

  /** Every vector sits under its own tag's name. */
  predicate KeysMatch(s: Snapshot)
  {
    forall n | n in s.tags :: s.tags[n].tag.name == n
  }

  predicate IsTagged(s: Snapshot, id: EntryId)
  {
    exists n | n in s.tags :: id in s.tags[n].ids
  }

  /** `position`: where the id first occurs in a vector. */
  function Position(ids: seq<EntryId>, id: EntryId): (r: Option<nat>)
    ensures r.Some? ==> r.value < |ids| && ids[r.value] == id && id !in ids[..r.value]
    ensures r.None? <==> id !in ids
    decreases |ids|
  {
    if ids == [] then None
    else if ids[0] == id then Some(0)
    else match Position(ids[1..], id)
      case None => None
      case Some(i) =>
        assert ids[..i + 1] == [ids[0]] + ids[1..][..i];
        Some(i + 1)
  }

  /** `Vec::remove` at the first occurrence of the id, if there is one. */
  function RemoveFirst(ids: seq<EntryId>, id: EntryId): (r: seq<EntryId>)
    ensures id !in ids ==> r == ids
    ensures id in ids ==> |r| == |ids| - 1
  {
    match Position(ids, id)
    case None => ids
    case Some(i) =>
      assert ids == ids[..i] + [ids[i]] + ids[i + 1..];
      ids[..i] + ids[i + 1..]
  }

  /** One tag's vector without the id's first occurrence. */
  function Unlisted(list: TagList, id: EntryId): TagList
  {
    list.(ids := RemoveFirst(list.ids, id))
  }

  /** Removing the first occurrence takes exactly one copy of the id away. */
  lemma RemoveFirstDropsOne(ids: seq<EntryId>, id: EntryId)
    ensures multiset(RemoveFirst(ids, id)) == multiset(ids) - multiset{id}
  {
    if id in ids {
      var p := Position(ids, id).value;
      DropOne(ids, p);
    }
  }

  /** Dropping one position takes one copy of its element away. */
  lemma DropOne(ids: seq<EntryId>, p: nat)
    requires p < |ids|
    ensures multiset(ids[..p] + ids[p + 1..]) == multiset(ids) - multiset{ids[p]}
  {
    var front, back := ids[..p], ids[p + 1..];
    assert ids == front + [ids[p]] + back;
    assert multiset(ids) == multiset(front) + multiset{ids[p]} + multiset(back);
  }

  /** `mut_tag_entries`: the tag's vector, made empty for an unknown tag. */
  function ListOf(s: Snapshot, tag: CborTag.Tag): TagList
  {
    if tag.name in s.tags then s.tags[tag.name] else TagList(tag, [])
  }

  /**
   * `tag_entry`: the id is pushed unless already listed; the answer is
   * `Some(id)` exactly when it was.
   */
  function Tagged(s: Snapshot, tag: CborTag.Tag, id: EntryId): (r: (Snapshot, Option<EntryId>))
    ensures r.0.entries == s.entries
    ensures r.0.tags.Keys == s.tags.Keys + {tag.name}
    ensures r.1.Some? <==> id in ListOf(s, tag).ids
    ensures r.1.Some? ==> r.1.value == id
    ensures r.0.tags[tag.name].ids == if r.1.Some? then ListOf(s, tag).ids else ListOf(s, tag).ids + [id]
    ensures forall n | n in s.tags && n != tag.name :: r.0.tags[n] == s.tags[n]
  {
    var list := ListOf(s, tag);
    if id in list.ids then (s.(tags := s.tags[tag.name := list]), Some(id))
    else (s.(tags := s.tags[tag.name := list.(ids := list.ids + [id])]), None)
  }

  /**
   * `untag_entry`: the tag's vector (made if missing) loses the first
   * occurrence of the id; only when there was one, and no tag lists the id
   * any more, is the entry removed and returned.
   */
  function Untagged(s: Snapshot, tag: CborTag.Tag, id: EntryId): (r: (Snapshot, Option<EntryData>))
    ensures r.0.tags.Keys == s.tags.Keys + {tag.name}
    ensures r.0.tags[tag.name].ids == RemoveFirst(ListOf(s, tag).ids, id)
    ensures forall n | n in s.tags && n != tag.name :: r.0.tags[n] == s.tags[n]
    ensures r.0.entries == if id in ListOf(s, tag).ids && !IsTagged(r.0, id) then s.entries - {id} else s.entries
    ensures r.1.Some? <==> id in ListOf(s, tag).ids && !IsTagged(r.0, id) && id in s.entries
    ensures r.1.Some? ==> r.1.value == s.entries[id]
  {
    var list := ListOf(s, tag);
    var t := s.(tags := s.tags[tag.name := list.(ids := RemoveFirst(list.ids, id))]);
    if id in list.ids && !IsTagged(t, id) then
      (t.(entries := s.entries - {id}), if id in s.entries then Some(s.entries[id]) else None)
    else (t, None)
  }

  /** `clear_entry`: every vector loses the first occurrence of the id; no key goes. */
  function Cleared(s: Snapshot, id: EntryId): (r: Snapshot)
    ensures r.entries == s.entries - {id}
    ensures r.tags.Keys == s.tags.Keys
    ensures forall n | n in r.tags :: r.tags[n] == Unlisted(s.tags[n], id)
  {
    Snapshot(map n | n in s.tags :: Unlisted(s.tags[n], id), s.entries - {id})
  }

  /** A map holding every vector of `s` without the id is the cleared one. */
  lemma ClearedFrom(s: Snapshot, m: map<Text, TagList>, id: EntryId)
    requires m.Keys == s.tags.Keys
    requires forall n | n in m :: m[n] == Unlisted(s.tags[n], id)
    ensures m == Cleared(s, id).tags
  {
  }

  /**
   * `update_tag_color`: for a known name the tag is recoloured (which also
   * restamps it with `now`) and keeps its vector; otherwise nothing changes.
   */
  function ColorUpdated(s: Snapshot, name: Text, color: Color, now: CborTag.Timestamp): (r: (Snapshot, bool))
    ensures r.1 <==> name in s.tags
    ensures !r.1 ==> r.0 == s
    ensures r.1 ==>
      r.0.entries == s.entries && r.0.tags.Keys == s.tags.Keys
      && r.0.tags[name] == TagList(CborTag.SetColor(s.tags[name].tag, color, now), s.tags[name].ids)
      && forall n | n in s.tags && n != name :: r.0.tags[n] == s.tags[n]
  {
    if name in s.tags then
      var list := s.tags[name];
      (s.(tags := s.tags[name := list.(tag := CborTag.SetColor(list.tag, color, now))]), true)
    else (s, false)
  }

  /** `get_tag`. */
  function GetTag(s: Snapshot, name: Text): (r: Option<CborTag.Tag>)
    ensures r.Some? <==> name in s.tags
    ensures r.Some? ==> r.value == s.tags[name].tag
  {
    if name in s.tags then Some(s.tags[name].tag) else None
  }

  /** `list_entry_tags`: the tags listing the entry, `None` when there are none. */
  function ListEntryTags(s: Snapshot, id: EntryId): (r: Option<set<CborTag.Tag>>)
    ensures r.None? <==> !IsTagged(s, id)
    ensures r.Some? ==> forall n | n in s.tags :: id in s.tags[n].ids ==> s.tags[n].tag in r.value
    ensures r.Some? ==> forall t | t in r.value :: exists n | n in s.tags :: id in s.tags[n].ids && s.tags[n].tag == t
  {
    if !IsTagged(s, id) then None
    else Some(set n | n in s.tags && id in s.tags[n].ids :: s.tags[n].tag)
  }

  /** The vectors of the known names, concatenated in argument order. */
  function Gathered(s: Snapshot, names: seq<Text>): (r: seq<EntryId>)
    ensures forall x :: x in r <==> exists i | 0 <= i < |names| :: names[i] in s.tags && x in s.tags[names[i]].ids
    decreases |names|
  {
    if names == [] then []
    else
      var rest := Gathered(s, names[1..]);
      assert forall i | 1 <= i < |names| :: names[i] == names[1..][i - 1];
      (if names[0] in s.tags then s.tags[names[0]].ids else []) + rest
  }

  /** `Vec::dedup`: runs of equal neighbours collapse to one. */
  function Dedup(ids: seq<EntryId>): (r: seq<EntryId>)
    ensures forall x :: x in r <==> x in ids
    ensures forall i | 0 <= i < |r| - 1 :: r[i] != r[i + 1]
    ensures |r| <= |ids|
    ensures ids != [] ==> r != [] && r[0] == ids[0]
    decreases |ids|
  {
    if |ids| <= 1 then ids
    else
      var rest := Dedup(ids[1..]);
      if ids[0] == ids[1] then rest
      else [ids[0]] + rest
  }

  /**
   * `list_entries_with_tags`: the known names' vectors one after another,
   * with neighbouring repeats dropped; an id can still appear twice.
   */
  function ListEntriesWithTags(s: Snapshot, names: seq<Text>): (r: seq<EntryId>)
    ensures forall x :: x in r <==> exists i | 0 <= i < |names| :: names[i] in s.tags && x in s.tags[names[i]].ids
    ensures forall i | 0 <= i < |r| - 1 :: r[i] != r[i + 1]
  {
    Dedup(Gathered(s, names))
  }

  /* ---------------------------------------------------------------------- */
  /* Properties                                                              */
  /* ---------------------------------------------------------------------- */

  lemma DropKeepsDistinct(ids: seq<EntryId>, p: nat)
    requires p < |ids|
    requires Distinct(ids)
    ensures var r := ids[..p] + ids[p + 1..];
      ids[p] !in r && Distinct(r)
  {
    var r := ids[..p] + ids[p + 1..];
    assert forall k | 0 <= k < |r| :: r[k] == ids[if k < p then k else k + 1];
  }

  lemma RemoveFirstKeepsDistinct(ids: seq<EntryId>, id: EntryId)
    requires Distinct(ids)
    ensures var r := RemoveFirst(ids, id);
      id !in r && Distinct(r)
  {
    if id in ids {
      DropKeepsDistinct(ids, Position(ids, id).value);
    }
  }

  /** `tag_entry` never lists an id twice. */
  lemma TaggedKeepsNoDuplicates(s: Snapshot, tag: CborTag.Tag, id: EntryId)
    requires NoDuplicates(s)
    ensures NoDuplicates(Tagged(s, tag, id).0)
  {
  }

  /** `untag_entry` keeps the vectors free of repeats. */
  lemma UntaggedKeepsNoDuplicates(s: Snapshot, tag: CborTag.Tag, id: EntryId)
    requires NoDuplicates(s)
    ensures NoDuplicates(Untagged(s, tag, id).0)
  {
    RemoveFirstKeepsDistinct(ListOf(s, tag).ids, id);
  }

  /**
   * With no repeats, `clear_entry` leaves no tag listing the id; the
   * emptied vectors stay, and other entries keep their data.
   */
  lemma ClearedUnlists(s: Snapshot, id: EntryId)
    requires NoDuplicates(s)
    ensures NoDuplicates(Cleared(s, id)) && !IsTagged(Cleared(s, id), id)
    ensures Cleared(s, id).tags.Keys == s.tags.Keys
  {
    var r := Cleared(s, id);
    forall n | n in r.tags
      ensures Distinct(r.tags[n].ids) && id !in r.tags[n].ids
    {
      RemoveFirstKeepsDistinct(s.tags[n].ids, id);
    }
  }

  /** Every mutator keeps each vector under its own tag's name. */
  lemma TaggedKeepsKeysMatch(s: Snapshot, tag: CborTag.Tag, id: EntryId)
    requires KeysMatch(s)
    ensures KeysMatch(Tagged(s, tag, id).0)
  {
  }

  lemma UntaggedKeepsKeysMatch(s: Snapshot, tag: CborTag.Tag, id: EntryId)
    requires KeysMatch(s)
    ensures KeysMatch(Untagged(s, tag, id).0)
  {
    var r := Untagged(s, tag, id).0;
    forall n | n in r.tags
      ensures r.tags[n].tag.name == n
    {
      if n != tag.name {
        assert r.tags[n] == s.tags[n];
      }
    }
  }

  lemma ClearedAndRecolorKeepKeysMatch(s: Snapshot, id: EntryId, name: Text, color: Color, now: CborTag.Timestamp)
    requires KeysMatch(s)
    ensures KeysMatch(Cleared(s, id))
    ensures KeysMatch(ColorUpdated(s, name, color, now).0)
  {
  }

  /** Tagging twice is tagging once, and the repeat answers `Some(id)`. */
  lemma TagIdempotent(s: Snapshot, tag: CborTag.Tag, id: EntryId)
    ensures var s1 := Tagged(s, tag, id).0;
      Tagged(s1, tag, id) == (s1, Some(id))
  {
    var s1 := Tagged(s, tag, id).0;
    assert s1.tags[tag.name := s1.tags[tag.name]] == s1.tags;
  }

  /** Untagging an id the tag does not list changes only the (possibly new) key. */
  lemma UntagAbsentKeepsEntries(s: Snapshot, tag: CborTag.Tag, id: EntryId)
    requires id !in ListOf(s, tag).ids
    ensures Untagged(s, tag, id).1 == None
    ensures Untagged(s, tag, id).0 == s.(tags := s.tags[tag.name := ListOf(s, tag)])
  {
  }

  /** No mutator deletes a tag's key. */
  lemma KeysNeverShrink(s: Snapshot, tag: CborTag.Tag, id: EntryId, name: Text, color: Color, now: CborTag.Timestamp)
    ensures s.tags.Keys <= Tagged(s, tag, id).0.tags.Keys
    ensures s.tags.Keys <= Untagged(s, tag, id).0.tags.Keys
    ensures s.tags.Keys <= Cleared(s, id).tags.Keys
    ensures s.tags.Keys <= ColorUpdated(s, name, color, now).0.tags.Keys
  {
  }

  /** A vector without neighbouring repeats is left as it is by `dedup`. */
  lemma {:induction false} DedupKeeps(ids: seq<EntryId>)
    requires forall i | 0 <= i < |ids| - 1 :: ids[i] != ids[i + 1]
    ensures Dedup(ids) == ids
    decreases |ids|
  {
    if |ids| > 1 {
      DedupKeeps(ids[1..]);
    }
  }

  /**
   * `dedup` collapses a pair of equal neighbours wherever it sits; with
   * `DedupKeeps` this determines the result on every vector.
   */
  lemma {:induction false} DedupCollapse(a: seq<EntryId>, x: EntryId, b: seq<EntryId>)
    ensures Dedup(a + [x, x] + b) == Dedup(a + [x] + b)
    decreases |a|
  {
    var l, m := a + [x, x] + b, a + [x] + b;
    if a == [] {
      assert l[1..] == m;
    } else {
      assert l[0] == m[0] && l[1] == m[1];
      assert l[1..] == a[1..] + [x, x] + b && m[1..] == a[1..] + [x] + b;
      DedupCollapse(a[1..], x, b);
    }
  }

  /** Gathering over two lists of names is gathering over each, in order. */
  lemma {:induction false} GatheredConcat(s: Snapshot, a: seq<Text>, b: seq<Text>)
    ensures Gathered(s, a + b) == Gathered(s, a) + Gathered(s, b)
    decreases |a|
  {
    if a == [] {
      assert a + b == b;
    } else {
      assert (a + b)[0] == a[0] && (a + b)[1..] == a[1..] + b;
      GatheredConcat(s, a[1..], b);
    }
  }

  /**
   * The source's fold: each further name extends what was gathered so far
   * by its vector, and an unknown name by nothing.
   */
  lemma GatheredFold(s: Snapshot, names: seq<Text>, n: Text)
    ensures Gathered(s, names + [n]) == Gathered(s, names) + (if n in s.tags then s.tags[n].ids else [])
  {
    GatheredConcat(s, names, [n]);
    assert [n][1..] == [];
  }

  const NAME_A: Text := "a"
  const NAME_B: Text := "b"

  /**
   * The query is a union with repeats: an entry listed by two tags appears
   * twice when something else sits between its two occurrences.
   */
  lemma ListEntriesWithTagsRepeats(ta: CborTag.Tag, tb: CborTag.Tag)
    ensures var s := Snapshot(map[NAME_A := TagList(ta, [1, 2]), NAME_B := TagList(tb, [1])], map[]);
      ListEntriesWithTags(s, [NAME_A, NAME_B]) == [1, 2, 1]
  {
    var s := Snapshot(map[NAME_A := TagList(ta, [1, 2]), NAME_B := TagList(tb, [1])], map[]);
    assert NAME_A != NAME_B;
    assert [NAME_A, NAME_B][1..] == [NAME_B] && [NAME_B][1..] == [];
    assert Gathered(s, []) == [];
    assert Gathered(s, [NAME_B]) == [1] + Gathered(s, []);
    assert Gathered(s, [NAME_A, NAME_B]) == [1, 2] + Gathered(s, [NAME_B]);
    assert Gathered(s, [NAME_A, NAME_B]) == [1, 2, 1];
    var g: seq<EntryId> := [1, 2, 1];
    assert g[0] != g[1] && g[1] != g[2];
    DedupKeeps(g);
  }

  /* ---------------------------------------------------------------------- */
  /* The registry object                                                     */
  /* ---------------------------------------------------------------------- */

  class TagRegistry {
    var tags: map<Text, TagList>
    var entries: map<EntryId, EntryData>

    function State(): Snapshot
      reads this
    {
      Snapshot(tags, entries)
    }

    constructor ()
      ensures State() == Snapshot(map[], map[])
    {
      tags := map[];
      entries := map[];
    }

    /** `find_entry`, walking the entries in an order the model leaves open. */
    method FindEntry(path: Path) returns (r: Option<EntryId>)
      ensures r.Some? ==> r.value in entries && entries[r.value].path == path
      ensures r.None? ==> forall id | id in entries :: entries[id].path != path
    {
      var todo := entries.Keys;
      while todo != {}
        invariant todo <= entries.Keys
        invariant forall id | id in entries && id !in todo :: entries[id].path != path
        decreases |todo|
      {
        var id :| id in todo;
        if entries[id].path == path {
          return Some(id);
        }
        todo := todo - {id};
      }
      r := None;
    }

    /** `add_or_update_entry`, with `newId` standing for the clock-minted id. */
    method AddOrUpdateEntry(entry: EntryData, newId: EntryId) returns (id: EntryId)
      modifies this
      ensures tags == old(tags)
      ensures (exists e | e in old(entries) :: old(entries)[e] == entry) ==>
        entries == old(entries) && id in entries && entries[id] == entry
      ensures !(exists e | e in old(entries) :: old(entries)[e] == entry) ==>
        entries == old(entries)[newId := entry] && id == newId
    {
      var pos := FindEntry(entry.path);
      if pos.Some? {
        entries := entries[pos.value := entry];
        assert entries == old(entries);
        id := pos.value;
      } else {
        entries := entries[newId := entry];
        id := newId;
      }
    }

    /** `tag_entry`. */
    method TagEntry(tag: CborTag.Tag, id: EntryId) returns (r: Option<EntryId>)
      modifies this
      ensures (State(), r) == Tagged(old(State()), tag, id)
    {
      if tag.name !in tags {
        tags := tags[tag.name := TagList(tag, [])];
      }
      var list := tags[tag.name];
      if id in list.ids {
        assert tags == old(tags)[tag.name := list];
        return Some(id);
      }
      assert list == ListOf(old(State()), tag);
      tags := tags[tag.name := list.(ids := list.ids + [id])];
      assert tags == old(tags)[tag.name := list.(ids := list.ids + [id])];
      r := None;
    }

    /** `untag_entry`. */
    method UntagEntry(tag: CborTag.Tag, id: EntryId) returns (r: Option<EntryData>)
      modifies this
      ensures (State(), r) == Untagged(old(State()), tag, id)
    {
      if tag.name !in tags {
        tags := tags[tag.name := TagList(tag, [])];
      }
      var list := tags[tag.name];
      assert list == ListOf(old(State()), tag);
      var pos := Position(list.ids, id);
      tags := tags[tag.name := list.(ids := RemoveFirst(list.ids, id))];
      assert tags == old(tags)[tag.name := list.(ids := RemoveFirst(list.ids, id))];
      if pos.Some? && ListEntryTags(State(), id).None? {
        r := if id in entries then Some(entries[id]) else None;
        entries := entries - {id};
        return;
      }
      r := None;
    }

    /** `untag_by_name`: `None` and no change for an unknown name. */
    method UntagByName(name: Text, id: EntryId) returns (r: Option<EntryData>)
      requires KeysMatch(State())
      modifies this
      ensures name !in old(tags) ==> r.None? && State() == old(State())
      ensures name in old(tags) ==> (State(), r) == Untagged(old(State()), old(tags)[name].tag, id)
    {
      var tag := GetTag(State(), name);
      if tag.None? {
        return None;
      }
      r := UntagEntry(tag.value, id);
    }

    /** `clear_entry`: a pass over every vector that drops the id's first occurrence. */
    method ClearEntry(id: EntryId)
      modifies this
      ensures State() == Cleared(old(State()), id)
    {
      var todo := tags.Keys;
      while todo != {}
        invariant todo <= tags.Keys && tags.Keys == old(tags).Keys
        invariant forall n | n in todo :: tags[n] == old(tags)[n]
        invariant forall n | n in tags && n !in todo :: tags[n] == Unlisted(old(tags)[n], id)
        invariant entries == old(entries)
        decreases |todo|
      {
        var n :| n in todo;
        tags := tags[n := Unlisted(tags[n], id)];
        todo := todo - {n};
      }
      ClearedFrom(old(State()), tags, id);
      entries := entries - {id};
    }

    /** `update_tag_color`, with `now` standing for the clock read of `set_color`. */
    method UpdateTagColor(name: Text, color: Color, now: CborTag.Timestamp) returns (r: bool)
      modifies this
      ensures (State(), r) == ColorUpdated(old(State()), name, color, now)
    {
      var tag := GetTag(State(), name);
      if tag.None? {
        return false;
      }
      var list := tags[name];
      tags := tags - {name};
      tags := tags[name := TagList(CborTag.SetColor(tag.value, color, now), list.ids)];
      assert tags == old(tags)[name := old(tags)[name].(tag := CborTag.SetColor(old(tags)[name].tag, color, now))];
      r := true;
    }
  }
}
