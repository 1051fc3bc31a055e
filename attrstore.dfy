/**
 * The extended attributes of one file, as the three generations of tag code
 * see them through `list_xattrs`, `set_xattr` and `remove_xattr`.
 *
 * A file's attributes are a sequence of (key, value) pairs with distinct keys
 * in the order the kernel lists them. The operating system's refusals are
 * inputs: a failed listing, and the I/O error a set or a removal of a given
 * key would meet.
 */
module AttrStore {
  import opened Wrappers
  import opened Text
  import opened Io
  import opened CoreErrors
  import Numbers

  type Attr = (Text, Text)

  predicate UniqueKeys(attrs: seq<Attr>)
  {
    forall i, j | 0 <= i < j < |attrs| :: attrs[i].0 != attrs[j].0
  }

  /** Whether an attribute belongs to wutag: its key starts with `user.wutag`. */
  predicate InNamespace(a: Attr)
  {
    WUTAG_NAMESPACE <= a.0
  }

  /** What the operating system will refuse during one operation. */
  datatype Faults = Faults(
    list: Option<Error>,
    write: Option<IoError>,
    remove: Text -> Option<IoError>)

  const EEXIST: int := 17
  const MSG_EXISTS: Text := "File exists"
  const MSG_NO_DATA: Text := "No data available"

  /* ---------------------------------------------------------------------- */
  /* Single calls                                                            */
  /* ---------------------------------------------------------------------- */

  function IndexOfKey(attrs: seq<Attr>, key: Text): (r: Option<nat>)
    ensures r.Some? ==> r.value < |attrs| && attrs[r.value].0 == key
    ensures r.Some? ==> forall j | 0 <= j < r.value :: attrs[j].0 != key
    ensures r.None? ==> forall j | 0 <= j < |attrs| :: attrs[j].0 != key
    decreases |attrs|
  {
    if attrs == [] then None
    else if attrs[0].0 == key then Some(0)
    else match IndexOfKey(attrs[1..], key)
      case None => None
      case Some(i) => Some(i + 1)
  }

  /**
   * `NulError`'s text, before the position of the offending byte; written in
   * two pieces, as the verifier checks the bytes of each piece on its own.
   */
  const MSG_NUL_FOUND: Text := "nul byte found in provided data" + " at position: "

  /** The position of the first NUL of `s`, if any. */
  function FirstNul(s: Text): (r: Option<nat>)
    ensures r.None? <==> NUL !in s
    ensures r.Some? ==> r.value < |s| && s[r.value] == NUL && NUL !in s[..r.value]
    decreases |s|
  {
    if s == [] then None
    else if s[0] == NUL then Some(0)
    else match FirstNul(s[1..])
      case None => None
      case Some(i) =>
        assert s[..i + 1] == [s[0]] + s[1..][..i];
        Some(i + 1)
  }

  /**
   * `CString::new` on bytes holding a NUL: the error names the position of
   * the first one.
   */
  function NulRefusal(s: Text): (e: Error)
    requires NUL in s
    ensures e.InvalidString? && MSG_NUL_FOUND <= e.detail
    ensures var digits := e.detail[|MSG_NUL_FOUND|..];
      Numbers.AllDigits(digits) && Numbers.DigitsValue(digits) == FirstNul(s).value
  {
    var digits := Numbers.DecimalText(FirstNul(s).value);
    assert (MSG_NUL_FOUND + digits)[|MSG_NUL_FOUND|..] == digits;
    InvalidString(MSG_NUL_FOUND + digits)
  }

  /**
   * `set_xattr` with `XATTR_CREATE`: a name or value holding a NUL is refused
   * by `CString::new` before any system call, the name first; then an
   * existing key is refused with `EEXIST`, which classifies as `TagExists`;
   * otherwise the pair is added unless the system refuses.
   */
  function SetOutcome(attrs: seq<Attr>, key: Text, value: Text, fault: Option<IoError>): (r: (seq<Attr>, Result<(), Error>))
    ensures r.1.Ok? <==> NUL !in key && NUL !in value && IndexOfKey(attrs, key).None? && fault.None?
    ensures r.1.Ok? ==> r.0 == attrs + [(key, value)]
    ensures r.1.Err? ==> r.0 == attrs
    ensures NUL in key ==> r.1 == Err(NulRefusal(key))
    ensures NUL !in key && NUL in value ==> r.1 == Err(NulRefusal(value))
    ensures NUL !in key && NUL !in value && IndexOfKey(attrs, key).Some? ==> r.1 == Err(TagExists)
  {
    if NUL in key then (attrs, Err(NulRefusal(key)))
    else if NUL in value then (attrs, Err(NulRefusal(value)))
    else if IndexOfKey(attrs, key).Some? then
      (attrs, Err(FromIoError(IoError(AlreadyExists, Some(EEXIST), MSG_EXISTS))))
    else match fault
      case Some(e) => (attrs, Err(FromIoError(e)))
      case None => (attrs + [(key, value)], Ok(()))
  }

  /**
   * `remove_xattr`: an absent key is refused with `ENODATA`, which classifies
   * as `TagNotFound("")`; otherwise the pair is removed unless the system
   * refuses.
   */
  function RemoveOutcome(attrs: seq<Attr>, key: Text, fault: Option<IoError>): (r: (seq<Attr>, Result<(), Error>))
    ensures r.1.Ok? <==> IndexOfKey(attrs, key).Some? && fault.None?
    ensures r.1.Ok? ==> var i := IndexOfKey(attrs, key).value; r.0 == attrs[..i] + attrs[i + 1..]
    ensures r.1.Err? ==> r.0 == attrs
    ensures IndexOfKey(attrs, key).None? ==> r.1 == Err(TagNotFound([]))
  {
    match IndexOfKey(attrs, key)
    case None => (attrs, Err(FromIoError(IoError(OtherKind, Some(ENODATA), MSG_NO_DATA))))
    case Some(i) =>
      match fault
      case Some(e) => (attrs, Err(FromIoError(e)))
      case None => (attrs[..i] + attrs[i + 1..], Ok(()))
  }

  /** A set keeps keys distinct, and a successful one makes the key carry the value. */
  lemma SetKeepsKeysUnique(attrs: seq<Attr>, key: Text, value: Text, fault: Option<IoError>)
    requires UniqueKeys(attrs)
    ensures UniqueKeys(SetOutcome(attrs, key, value, fault).0)
    ensures SetOutcome(attrs, key, value, fault).1.Ok? ==>
      IndexOfKey(SetOutcome(attrs, key, value, fault).0, key) == Some(|attrs|)
  {
    if SetOutcome(attrs, key, value, fault).1.Ok? {
      assert IndexOfKey(attrs, key).None?;
      var s := attrs + [(key, value)];
      assert forall j | 0 <= j < |attrs| :: s[j].0 != key;
      IndexOfKeyFirst(s, key, |attrs|);
    }
  }

  /** A key found at `i` and at no earlier position is found at `i`. */
  lemma {:induction false} IndexOfKeyFirst(attrs: seq<Attr>, key: Text, i: nat)
    requires i < |attrs| && attrs[i].0 == key
    requires forall j | 0 <= j < i :: attrs[j].0 != key
    ensures IndexOfKey(attrs, key) == Some(i)
    decreases i
  {
    if i > 0 {
      IndexOfKeyFirst(attrs[1..], key, i - 1);
    }
  }

  /** A successful removal deletes exactly that key and keeps keys distinct. */
  lemma RemoveDeletesKey(attrs: seq<Attr>, key: Text, fault: Option<IoError>)
    requires UniqueKeys(attrs)
    ensures UniqueKeys(RemoveOutcome(attrs, key, fault).0)
    ensures RemoveOutcome(attrs, key, fault).1.Ok? ==> IndexOfKey(RemoveOutcome(attrs, key, fault).0, key).None?
  {
    var r := RemoveOutcome(attrs, key, fault);
    if r.1.Ok? {
      var i := IndexOfKey(attrs, key).value;
      var s := attrs[..i] + attrs[i + 1..];
      assert forall j | 0 <= j < |s| :: s[j] == (if j < i then attrs[j] else attrs[j + 1]);
    }
  }

  /* ---------------------------------------------------------------------- */
  /* Listing                                                                 */
  /* ---------------------------------------------------------------------- */

  /** The attributes in the namespace that decode, decoded, in listing order. */
  function Listed<T>(attrs: seq<Attr>, decode: Attr -> Result<T, Error>): (tags: seq<T>)
    ensures |tags| <= |attrs|
    decreases |attrs|
  {
    if attrs == [] then []
    else
      var last := attrs[|attrs| - 1];
      Listed(attrs[..|attrs| - 1], decode)
        + (if InNamespace(last) && decode(last).Ok? then [decode(last).value] else [])
  }

  /** Every attribute that decodes, decoded, in listing order, whatever its namespace. */
  function Decoded<T>(attrs: seq<Attr>, decode: Attr -> Result<T, Error>): (tags: seq<T>)
    ensures |tags| <= |attrs|
    decreases |attrs|
  {
    if attrs == [] then []
    else
      var last := attrs[|attrs| - 1];
      Decoded(attrs[..|attrs| - 1], decode) + (if decode(last).Ok? then [decode(last).value] else [])
  }

  /** A tag is listed exactly when some attribute in the namespace decodes to it. */
  lemma {:induction false} ListedMembers<T>(attrs: seq<Attr>, decode: Attr -> Result<T, Error>, t: T)
    ensures t in Listed(attrs, decode) <==>
      exists i | 0 <= i < |attrs| :: InNamespace(attrs[i]) && decode(attrs[i]) == Ok(t)
    decreases |attrs|
  {
    if attrs != [] {
      var init := attrs[..|attrs| - 1];
      ListedMembers(init, decode, t);
      if exists i | 0 <= i < |init| :: InNamespace(init[i]) && decode(init[i]) == Ok(t) {
        var i :| 0 <= i < |init| && InNamespace(init[i]) && decode(init[i]) == Ok(t);
        assert attrs[i] == init[i];
      }
      if exists i | 0 <= i < |attrs| :: InNamespace(attrs[i]) && decode(attrs[i]) == Ok(t) {
        var i :| 0 <= i < |attrs| && InNamespace(attrs[i]) && decode(attrs[i]) == Ok(t);
        if i < |init| {
          assert init[i] == attrs[i];
        }
      }
    }
  }

  /* ---------------------------------------------------------------------- */
  /* Clearing                                                                */
  /* ---------------------------------------------------------------------- */

  /** The keys of the attributes in the namespace, in listing order. */
  function NamespacedKeys(attrs: seq<Attr>): (keys: seq<Text>)
    ensures |keys| <= |attrs|
    decreases |attrs|
  {
    if attrs == [] then []
    else (if InNamespace(attrs[0]) then [attrs[0].0] else []) + NamespacedKeys(attrs[1..])
  }

  /** The attributes outside the namespace, in listing order. */
  function Foreign(attrs: seq<Attr>): (r: seq<Attr>)
    ensures |r| <= |attrs|
    ensures forall a | a in r :: a in attrs && !InNamespace(a)
    decreases |attrs|
  {
    if attrs == [] then []
    else (if InNamespace(attrs[0]) then [] else [attrs[0]]) + Foreign(attrs[1..])
  }

  /**
   * Removing `keys` one after another, stopping at the first refusal: the
   * attributes left and the outcome.
   */
  function ClearOutcome(attrs: seq<Attr>, keys: seq<Text>, fault: Text -> Option<IoError>): (r: (seq<Attr>, Result<(), Error>))
    ensures |r.0| <= |attrs|
    ensures r.1.Ok? ==> |r.0| + |keys| == |attrs|
    decreases |keys|
  {
    if keys == [] then (attrs, Ok(()))
    else
      var step := RemoveOutcome(attrs, keys[0], fault(keys[0]));
      if step.1.Err? then step else ClearOutcome(step.0, keys[1..], fault)
  }

  /** The attributes in the namespace are those whose keys `NamespacedKeys` lists. */
  lemma {:induction false} NamespacedKeysSpec(attrs: seq<Attr>, key: Text)
    ensures key in NamespacedKeys(attrs) <==> exists i | 0 <= i < |attrs| :: attrs[i].0 == key && InNamespace(attrs[i])
    decreases |attrs|
  {
    if attrs != [] {
      NamespacedKeysSpec(attrs[1..], key);
      if exists i | 0 <= i < |attrs| :: attrs[i].0 == key && InNamespace(attrs[i]) {
        var i :| 0 <= i < |attrs| && attrs[i].0 == key && InNamespace(attrs[i]);
        if i > 0 {
          assert attrs[1..][i - 1] == attrs[i];
        }
      }
      if exists i | 0 <= i < |attrs[1..]| :: attrs[1..][i].0 == key && InNamespace(attrs[1..][i]) {
        var i :| 0 <= i < |attrs[1..]| && attrs[1..][i].0 == key && InNamespace(attrs[1..][i]);
        assert attrs[i + 1] == attrs[1..][i];
      }
    }
  }

  /**
   * With no refusal, clearing removes every attribute in the namespace and
   * keeps every other one, in order.
   */
  lemma {:induction false} ClearRemovesNamespace(attrs: seq<Attr>, fault: Text -> Option<IoError>)
    requires UniqueKeys(attrs)
    requires forall k | k in NamespacedKeys(attrs) :: fault(k).None?
    ensures ClearOutcome(attrs, NamespacedKeys(attrs), fault) == (Foreign(attrs), Ok(()))
    decreases |attrs|
  {
    if attrs != [] {
      var rest := attrs[1..];
      UniqueKeysTail(attrs);
      assert forall k | k in NamespacedKeys(rest) :: k in NamespacedKeys(attrs);
      ClearRemovesNamespace(rest, fault);
      if InNamespace(attrs[0]) {
        ClearNamespacedHead(attrs, fault);
      } else {
        ClearForeignHead(attrs, fault);
      }
    }
  }

  /**
   * What clearing a file first buys its later writes: once a clear has met
   * no refusal, nothing in the namespace is listed, and writing any
   * NUL-free key in the namespace can be refused only by the system itself
   * (never with `TagExists`).
   */
  lemma ClearedFileTakesAnyKey<T>(attrs: seq<Attr>, fault: Text -> Option<IoError>,
                                  decode: Attr -> Result<T, Error>, key: Text, value: Text)
    requires UniqueKeys(attrs)
    requires forall k | k in NamespacedKeys(attrs) :: fault(k).None?
    requires WUTAG_NAMESPACE <= key && NUL !in key && NUL !in value
    ensures var cleared := ClearOutcome(attrs, NamespacedKeys(attrs), fault);
      cleared.1 == Ok(()) && Listed(cleared.0, decode) == [] &&
      SetOutcome(cleared.0, key, value, None).1 == Ok(())
  {
    ClearRemovesNamespace(attrs, fault);
    var rest := Foreign(attrs);
    forall i | 0 <= i < |rest| ensures !InNamespace(rest[i]) {
      assert rest[i] in rest;
    }
    if Listed(rest, decode) != [] {
      ListedMembers(rest, decode, Listed(rest, decode)[0]);
      assert false;
    }
  }

  /** The attributes after the first keep unique keys, none of them the first's. */
  lemma UniqueKeysTail(attrs: seq<Attr>)
    requires attrs != [] && UniqueKeys(attrs)
    ensures UniqueKeys(attrs[1..])
    ensures forall i | 0 <= i < |attrs[1..]| :: attrs[1..][i].0 != attrs[0].0
  {
    var rest := attrs[1..];
    forall i, j | 0 <= i < j < |rest| ensures rest[i].0 != rest[j].0 {
      assert rest[i] == attrs[i + 1] && rest[j] == attrs[j + 1];
    }
    forall i | 0 <= i < |rest| ensures rest[i].0 != attrs[0].0 {
      assert rest[i] == attrs[i + 1];
    }
  }

  /** Clearing a namespaced first attribute removes it, then clears the rest. */
  lemma ClearNamespacedHead(attrs: seq<Attr>, fault: Text -> Option<IoError>)
    requires attrs != [] && InNamespace(attrs[0]) && fault(attrs[0].0).None?
    requires ClearOutcome(attrs[1..], NamespacedKeys(attrs[1..]), fault) == (Foreign(attrs[1..]), Ok(()))
    ensures ClearOutcome(attrs, NamespacedKeys(attrs), fault) == (Foreign(attrs), Ok(()))
  {
    var rest := attrs[1..];
    var keys := NamespacedKeys(attrs);
    assert keys[0] == attrs[0].0 && keys[1..] == NamespacedKeys(rest);
    IndexOfKeyFirst(attrs, attrs[0].0, 0);
    assert keys[0] in keys;
    assert attrs[..0] + attrs[1..] == rest;
    assert RemoveOutcome(attrs, keys[0], fault(keys[0])) == (rest, Ok(()));
    assert ClearOutcome(attrs, keys, fault) == ClearOutcome(rest, keys[1..], fault);
    assert Foreign(attrs) == Foreign(rest);
  }

  /** Clearing passes over a first attribute outside the namespace and clears the rest. */
  lemma ClearForeignHead(attrs: seq<Attr>, fault: Text -> Option<IoError>)
    requires attrs != [] && !InNamespace(attrs[0])
    requires forall i | 0 <= i < |attrs[1..]| :: attrs[1..][i].0 != attrs[0].0
    requires ClearOutcome(attrs[1..], NamespacedKeys(attrs[1..]), fault) == (Foreign(attrs[1..]), Ok(()))
    ensures ClearOutcome(attrs, NamespacedKeys(attrs), fault) == (Foreign(attrs), Ok(()))
  {
    var rest := attrs[1..];
    NamespacedKeysSpec(rest, attrs[0].0);
    ClearSkipsForeign(attrs[0], rest, NamespacedKeys(rest), fault);
    assert [attrs[0]] + rest == attrs;
    assert NamespacedKeys(attrs) == NamespacedKeys(rest);
    assert Foreign(attrs) == [attrs[0]] + Foreign(rest);
  }

  /**
   * An attribute in front whose key is none of those removed stays in front,
   * and the rest is cleared as if it were absent.
   */
  lemma {:induction false} ClearSkipsForeign(a: Attr, rest: seq<Attr>, keys: seq<Text>, fault: Text -> Option<IoError>)
    requires a.0 !in keys
    ensures var r := ClearOutcome(rest, keys, fault);
      ClearOutcome([a] + rest, keys, fault) == ([a] + r.0, r.1)
    decreases |keys|
  {
    if keys != [] {
      var k := keys[0];
      RemoveSkipsForeign(a, rest, k, fault(k));
      var step := RemoveOutcome(rest, k, fault(k));
      if step.1.Ok? {
        ClearSkipsForeign(a, step.0, keys[1..], fault);
      }
    }
  }

  /** Removing a key other than the first attribute's leaves that attribute in front. */
  lemma RemoveSkipsForeign(a: Attr, rest: seq<Attr>, k: Text, fault: Option<IoError>)
    requires a.0 != k
    ensures var r := RemoveOutcome(rest, k, fault);
      RemoveOutcome([a] + rest, k, fault) == ([a] + r.0, r.1)
  {
    var s := [a] + rest;
    assert s[0] == a && s[1..] == rest;
    assert IndexOfKey(s, k) == (match IndexOfKey(rest, k) case None => None case Some(i) => Some(i + 1));
    if IndexOfKey(rest, k).Some? {
      var i := IndexOfKey(rest, k).value;
      assert s[..i + 1] + s[i + 2..] == [a] + (rest[..i] + rest[i + 1..]);
    }
  }

  /* ---------------------------------------------------------------------- */
  /* The file                                                                */
  /* ---------------------------------------------------------------------- */

  /** One file's extended attributes, changed in place by the tag operations. */
  class AttrFile {
    var attrs: seq<Attr>

    predicate Valid()
      reads this
    {
      UniqueKeys(attrs)
    }

    constructor (attrs: seq<Attr>)
      requires UniqueKeys(attrs)
      ensures Valid() && this.attrs == attrs
    {
      this.attrs := attrs;
    }

    /**
     * `list_tags`: the listing filtered to the namespace, each attribute
     * decoded, and those that fail to decode skipped.
     */
    method ListTags<T>(decode: Attr -> Result<T, Error>, fault: Option<Error>) returns (r: Result<seq<T>, Error>)
      ensures fault.Some? ==> r == Err(fault.value)
      ensures fault.None? ==> r == Ok(Listed(attrs, decode))
    {
      if fault.Some? {
        return Err(fault.value);
      }
      var tags := [];
      var i := 0;
      while i < |attrs|
        invariant 0 <= i <= |attrs|
        invariant tags == Listed(attrs[..i], decode)
      {
        assert attrs[..i + 1][..i] == attrs[..i];
        var a := attrs[i];
        if InNamespace(a) {
          var item := decode(a);
          if item.Ok? {
            tags := tags + [item.value];
          }
        }
        i := i + 1;
      }
      assert attrs[..i] == attrs;
      r := Ok(tags);
    }

    /** `has_tags`: whether `list_tags` finds any tag. */
    method HasTags<T>(decode: Attr -> Result<T, Error>, fault: Option<Error>) returns (r: Result<bool, Error>)
      ensures fault.Some? ==> r == Err(fault.value)
      ensures fault.None? ==> r == Ok(|Listed(attrs, decode)| > 0)
    {
      var tags := ListTags(decode, fault);
      match tags
      case Err(e) => r := Err(e);
      case Ok(ts) => r := Ok(|ts| > 0);
    }

    /**
     * `save_to`: refuses with `TagExists` when a listed tag has the same
     * name, and otherwise sets `key` to `value`; a key that could not be
     * built is reported only after the listing has been checked.
     */
    method SaveTo<T>(name: Text, tagName: T -> Text, key: Result<Text, Error>, value: Text,
                     decode: Attr -> Result<T, Error>, faults: Faults) returns (r: Result<(), Error>)
      requires Valid()
      modifies this
      ensures Valid()
      ensures faults.list.Some? ==> r == Err(faults.list.value) && attrs == old(attrs)
      ensures faults.list.None? && (exists t | t in Listed(old(attrs), decode) :: tagName(t) == name) ==>
        r == Err(TagExists) && attrs == old(attrs)
      ensures faults.list.None? && !(exists t | t in Listed(old(attrs), decode) :: tagName(t) == name) && key.Err? ==>
        r == Err(key.error) && attrs == old(attrs)
      ensures faults.list.None? && !(exists t | t in Listed(old(attrs), decode) :: tagName(t) == name) && key.Ok? ==>
        (attrs, r) == SetOutcome(old(attrs), key.value, value, faults.write)
    {
      var listed := ListTags(decode, faults.list);
      if listed.Err? {
        return Err(listed.error);
      }
      var tags := listed.value;
      var i := 0;
      while i < |tags|
        invariant 0 <= i <= |tags|
        invariant forall j | 0 <= j < i :: tagName(tags[j]) != name
      {
        if tagName(tags[i]) == name {
          return Err(TagExists);
        }
        i := i + 1;
      }
      if key.Err? {
        return Err(key.error);
      }
      var outcome := SetOutcome(attrs, key.value, value, faults.write);
      SetKeepsKeysUnique(attrs, key.value, value, faults.write);
      attrs := outcome.0;
      r := outcome.1;
    }

    /**
     * The removal loop shared by every `remove_from`: the first listed
     * attribute that `matches` is removed by key; when none matches the
     * answer is `notFound`.
     */
    method RemoveFirst(matches: Attr -> bool, notFound: Error, faults: Faults) returns (r: Result<(), Error>)
      requires Valid()
      modifies this
      ensures Valid()
      ensures faults.list.Some? ==> r == Err(faults.list.value) && attrs == old(attrs)
      ensures faults.list.None? && FirstMatch(old(attrs), matches).None? ==> r == Err(notFound) && attrs == old(attrs)
      ensures faults.list.None? && FirstMatch(old(attrs), matches).Some? ==>
        var key := old(attrs)[FirstMatch(old(attrs), matches).value].0;
        (attrs, r) == RemoveOutcome(old(attrs), key, faults.remove(key))
    {
      if faults.list.Some? {
        return Err(faults.list.value);
      }
      var i := 0;
      while i < |attrs|
        invariant 0 <= i <= |attrs|
        invariant forall j | 0 <= j < i :: !matches(attrs[j])
      {
        if matches(attrs[i]) {
          var key := attrs[i].0;
          FirstMatchIs(attrs, matches, i);
          var outcome := RemoveOutcome(attrs, key, faults.remove(key));
          RemoveDeletesKey(attrs, key, faults.remove(key));
          attrs := outcome.0;
          return outcome.1;
        }
        i := i + 1;
      }
      r := Err(notFound);
    }

    /**
     * `clear_tags`: every key of the namespace in the listing is removed in
     * turn; the first refusal ends the loop and is returned.
     */
    method ClearTags(faults: Faults) returns (r: Result<(), Error>)
      requires Valid()
      modifies this
      ensures Valid()
      ensures faults.list.Some? ==> r == Err(faults.list.value) && attrs == old(attrs)
      ensures faults.list.None? ==> (attrs, r) == ClearOutcome(old(attrs), NamespacedKeys(old(attrs)), faults.remove)
    {
      if faults.list.Some? {
        return Err(faults.list.value);
      }
      var keys := NamespacedKeys(attrs);
      var i := 0;
      while i < |keys|
        invariant 0 <= i <= |keys|
        invariant Valid()
        invariant ClearOutcome(attrs, keys[i..], faults.remove) == ClearOutcome(old(attrs), keys, faults.remove)
      {
        var key := keys[i];
        var step := RemoveOutcome(attrs, key, faults.remove(key));
        RemoveDeletesKey(attrs, key, faults.remove(key));
        assert keys[i..][0] == key && keys[i..][1..] == keys[i + 1..];
        if step.1.Err? {
          return step.1;
        }
        attrs := step.0;
        i := i + 1;
      }
      r := Ok(());
    }
  }

  /** The position of the first attribute that `matches`. */
  function FirstMatch(attrs: seq<Attr>, matches: Attr -> bool): (r: Option<nat>)
    ensures r.Some? ==> r.value < |attrs| && matches(attrs[r.value])
    ensures r.Some? ==> forall j | 0 <= j < r.value :: !matches(attrs[j])
    ensures r.None? ==> forall j | 0 <= j < |attrs| :: !matches(attrs[j])
    decreases |attrs|
  {
    if attrs == [] then None
    else if matches(attrs[0]) then Some(0)
    else match FirstMatch(attrs[1..], matches)
      case None => None
      case Some(i) => Some(i + 1)
  }

  lemma {:induction false} FirstMatchIs(attrs: seq<Attr>, matches: Attr -> bool, i: nat)
    requires i < |attrs| && matches(attrs[i])
    requires forall j | 0 <= j < i :: !matches(attrs[j])
    ensures FirstMatch(attrs, matches) == Some(i)
    decreases i
  {
    if i > 0 {
      FirstMatchIs(attrs[1..], matches, i - 1);
    }
  }

  /** The first of `tags` with the given name. */
  function FirstNamed<T>(tags: seq<T>, tagName: T -> Text, name: Text): (r: Option<T>)
    ensures r.Some? ==> exists i | 0 <= i < |tags| ::
      (tags[i] == r.value && tagName(tags[i]) == name && forall j | 0 <= j < i :: tagName(tags[j]) != name)
    ensures r.None? ==> forall t | t in tags :: tagName(t) != name
    decreases |tags|
  {
    if tags == [] then None
    else if tagName(tags[0]) == name then Some(tags[0])
    else
      var r := FirstNamed(tags[1..], tagName, name);
      if r.Some? then FirstAfterHead(tags, tagName, name, r.value); r else r
  }

  /** A first match in the tail is the first match overall when the head does not match. */
  lemma FirstAfterHead<T>(tags: seq<T>, tagName: T -> Text, name: Text, v: T)
    requires tags != [] && tagName(tags[0]) != name
    requires exists i | 0 <= i < |tags[1..]| ::
      (tags[1..][i] == v && tagName(tags[1..][i]) == name && forall j | 0 <= j < i :: tagName(tags[1..][j]) != name)
    ensures exists i | 0 <= i < |tags| ::
      (tags[i] == v && tagName(tags[i]) == name && forall j | 0 <= j < i :: tagName(tags[j]) != name)
  {
    var i :| 0 <= i < |tags[1..]| && tags[1..][i] == v && tagName(tags[1..][i]) == name
      && forall j | 0 <= j < i :: tagName(tags[1..][j]) != name;
    assert tags[i + 1] == v;
    forall j | 0 <= j < i + 1 ensures tagName(tags[j]) != name {
      if j > 0 {
        assert tags[j] == tags[1..][j - 1];
      }
    }
  }

  /** Whether the attribute decodes to a tag with the given name. */
  predicate DecodesNamed<T>(a: Attr, decode: Attr -> Result<T, Error>, tagName: T -> Text, name: Text)
  {
    decode(a).Ok? && tagName(decode(a).value) == name
  }

  /** In a concatenation the first part's match wins, and the second part is searched only when there is none. */
  lemma FirstNamedAppend<T>(x: seq<T>, y: seq<T>, tagName: T -> Text, name: Text)
    ensures FirstNamed(x + y, tagName, name) ==
      if FirstNamed(x, tagName, name).Some? then FirstNamed(x, tagName, name) else FirstNamed(y, tagName, name)
    decreases |x|
  {
    if x != [] {
      assert (x + y)[0] == x[0];
      assert (x + y)[1..] == x[1..] + y;
      FirstNamedAppend(x[1..], y, tagName, name);
    } else {
      assert x + y == y;
    }
  }

  /** Attribute `i` is the first that decodes to a tag of that name, and it decodes to `v`. */
  ghost predicate FirstDecodesTo<T>(attrs: seq<Attr>, i: int, decode: Attr -> Result<T, Error>, tagName: T -> Text, name: Text, v: T)
  {
    0 <= i < |attrs| && decode(attrs[i]) == Ok(v) && tagName(v) == name
    && forall j | 0 <= j < i :: !DecodesNamed(attrs[j], decode, tagName, name)
  }

  /**
   * The first decoded tag with a name comes from the first attribute that
   * decodes to a tag of that name, and there is none exactly when no
   * attribute does.
   */
  lemma {:induction false} FirstNamedDecoded<T>(attrs: seq<Attr>, decode: Attr -> Result<T, Error>, tagName: T -> Text, name: Text)
    ensures var r := FirstNamed(Decoded(attrs, decode), tagName, name);
      (r.Some? ==> exists i :: FirstDecodesTo(attrs, i, decode, tagName, name, r.value))
      && (r.None? <==> forall i | 0 <= i < |attrs| :: !DecodesNamed(attrs[i], decode, tagName, name))
    decreases |attrs|
  {
    if attrs != [] {
      var n := |attrs| - 1;
      var init, last := attrs[..n], attrs[n];
      assert attrs == init + [last];
      var tail := if decode(last).Ok? then [decode(last).value] else [];
      assert Decoded(attrs, decode) == Decoded(init, decode) + tail;
      FirstNamedDecoded(init, decode, tagName, name);
      FirstNamedAppend(Decoded(init, decode), tail, tagName, name);
      var r0 := FirstNamed(Decoded(init, decode), tagName, name);
      if r0.Some? {
        var i :| FirstDecodesTo(init, i, decode, tagName, name, r0.value);
        FirstDecodesExtends(init, last, i, decode, tagName, name, r0.value);
      } else {
        DecodesAtEnd(init, last, decode, tagName, name);
      }
    }
  }

  lemma FirstDecodesExtends<T>(init: seq<Attr>, last: Attr, i: int, decode: Attr -> Result<T, Error>, tagName: T -> Text, name: Text, v: T)
    requires FirstDecodesTo(init, i, decode, tagName, name, v)
    ensures FirstDecodesTo(init + [last], i, decode, tagName, name, v)
  {
    assert forall j | 0 <= j <= i :: (init + [last])[j] == init[j];
  }

  /** With no earlier attribute decoding to the name, the search depends on the last one alone. */
  lemma DecodesAtEnd<T>(init: seq<Attr>, last: Attr, decode: Attr -> Result<T, Error>, tagName: T -> Text, name: Text)
    requires forall i | 0 <= i < |init| :: !DecodesNamed(init[i], decode, tagName, name)
    ensures var tail := if decode(last).Ok? then [decode(last).value] else [];
      var r := FirstNamed(tail, tagName, name);
      (r.Some? ==> FirstDecodesTo(init + [last], |init|, decode, tagName, name, r.value))
      && (r.None? <==> forall i | 0 <= i < |init| + 1 :: !DecodesNamed((init + [last])[i], decode, tagName, name))
  {
    var a := init + [last];
    assert forall j | 0 <= j < |init| :: a[j] == init[j];
    assert a[|init|] == last;
  }

}
