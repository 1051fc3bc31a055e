/**
 * Tags of the `wutag_core` crate: a name and a colour, stored on a file as
 * an empty-valued extended attribute whose key is `user.wutag.` followed by
 * the standard base64 (section 4 of RFC 4648) of the name.
 *
 * Reading a key back goes through a CBOR decoder of whole tags, which is
 * foreign code and an input here.
 */
module CoreTag {
  import opened Wrappers
  import opened Text
  import opened CoreErrors
  import opened Colors
  import opened AttrStore
  import Base64

  const DEFAULT_COLOR: Color := BrightWhite

  datatype Tag = Tag(name: Text, color: Color)

  /** `PartialEq`: two tags are equal when their names are. */
  predicate Equals(a: Tag, b: Tag)
    ensures Equals(a, b) <==> a.(color := b.color) == b
  {
    a.name == b.name
  }

  /** `Ord`: tags are ordered by name alone. */
  function Cmp(a: Tag, b: Tag): (r: Ordering)
    ensures r == Equal <==> Equals(a, b)
    ensures Compare(b.name, a.name) == r.Reverse()
  {
    CompareEqual(a.name, b.name);
    CompareAntisymmetric(a.name, b.name);
    Compare(a.name, b.name)
  }

  /** `Hash`: only the name is fed to the hasher. */
  function HashInput(t: Tag): Text
  {
    t.name
  }

  /**
   * Ordering agrees with equality, and tags that are equal hash alike; none
   * of the three looks at the colour.
   */
  lemma IdentityIsTheName(a: Tag, b: Tag, c: Color)
    ensures Cmp(a, b) == Equal <==> Equals(a, b)
    ensures Equals(a, b) ==> HashInput(a) == HashInput(b)
    ensures Equals(a.(color := c), b) == Equals(a, b) && Cmp(a.(color := c), b) == Cmp(a, b)
  {
  }

  /** `set_color`, on a value: the colour is replaced and the tag stays equal to itself. */
  function SetColor(t: Tag, color: Color): (r: Tag)
    ensures r.color == color && Equals(r, t)
  {
    t.(color := color)
  }

  const DOT: byte := '.'
  /** What the key parser splits on. */
  const KEY_SEPARATOR: Text := "wutag."
  /** What comes before the first separator in a valid key. */
  const USER_PREFIX: Text := "user."

  const MSG_MISSING_TAG: Text := "missing tag"
  const MSG_BAD_NAMESPACE: Text := "invalid namespace `"
  const MSG_VALID_NAMESPACE: Text := "`, valid namespace is `user`"

  /** `hash`: the attribute key of a tag. */
  function Key(t: Tag): (k: Text)
    ensures WUTAG_NAMESPACE + [DOT] <= k
  {
    WUTAG_NAMESPACE + [DOT] + Base64.Encode(t.name)
  }

  /** Keys identify names: two tags share a key exactly when they share a name. */
  lemma KeyIdentifiesName(a: Tag, b: Tag)
    ensures Key(a) == Key(b) <==> a.name == b.name
  {
    if Key(a) == Key(b) {
      var p := WUTAG_NAMESPACE + [DOT];
      assert Base64.Encode(a.name) == Key(a)[|p|..];
      Base64.EncodeInjective(a.name, b.name);
    }
  }

  /**
   * `TryFrom<Xattr>`: the key is split on `wutag.`; the first piece must be
   * `user.` and the second is base64 of a CBOR-encoded tag. A bad piece is
   * `InvalidTagKey`, bad base64 `Base64DecodeError`, bad CBOR `TagSerDeError`.
   */
  function TryFrom<T>(a: Attr, cbor: Text -> Option<T>): (r: Result<T, Error>)
    ensures Split(a.0, KEY_SEPARATOR)[0] != USER_PREFIX ==> r.Err? && r.error.InvalidTagKey?
    ensures Split(a.0, KEY_SEPARATOR)[0] == USER_PREFIX && |Split(a.0, KEY_SEPARATOR)| == 1 ==>
      r == Err(InvalidTagKey(MSG_MISSING_TAG))
    ensures r.Ok? ==> exists bytes :: Base64.Decode(Split(a.0, KEY_SEPARATOR)[1]) == Some(bytes) && cbor(bytes) == Some(r.value)
  {
    var elems := Split(a.0, KEY_SEPARATOR);
    var ns := elems[0];
    if ns != USER_PREFIX then Err(InvalidTagKey(MSG_BAD_NAMESPACE + ns + MSG_VALID_NAMESPACE))
    else if |elems| < 2 then Err(InvalidTagKey(MSG_MISSING_TAG))
    else match Base64.Decode(elems[1])
      case None => Err(Base64DecodeError([]))
      case Some(bytes) =>
        match cbor(bytes)
        case None => Err(TagSerDeError([]))
        case Some(t) => Ok(t)
  }

  /** A key built from any bytes splits into `user.` and their base64. */
  lemma EncodedKeySplits(bytes: Text)
    ensures Split(WUTAG_NAMESPACE + [DOT] + Base64.Encode(bytes), KEY_SEPARATOR) == [USER_PREFIX, Base64.Encode(bytes)]
  {
    var e := Base64.Encode(bytes);
    var k := WUTAG_NAMESPACE + [DOT] + e;
    Base64.EncodeWithout(bytes, DOT);
    assert k == USER_PREFIX + KEY_SEPARATOR + e;
    assert k[5..11] == KEY_SEPARATOR;
    forall j | 0 <= j < 5
      ensures !OccursAt(k, KEY_SEPARATOR, j)
    {
      assert k[j] != KEY_SEPARATOR[0];
    }
    SplitAt(k, KEY_SEPARATOR, 5);
    assert k[..5] == USER_PREFIX && k[11..] == e;
    SplitWithoutByte(e, KEY_SEPARATOR, 5);
  }

  /**
   * Decoding a key built from `bytes` hands exactly `bytes` to the decoder;
   * the attribute value is ignored.
   */
  lemma TryFromEncodedKey<T>(bytes: Text, value: Text, cbor: Text -> Option<T>)
    ensures TryFrom((WUTAG_NAMESPACE + [DOT] + Base64.Encode(bytes), value), cbor)
         == (match cbor(bytes) case Some(x) => Ok(x) case None => Err(TagSerDeError([])))
  {
    EncodedKeySplits(bytes);
    Base64.DecodeEncode(bytes);
  }

  /**
   * Reading back the key written for a tag hands the CBOR decoder the raw
   * name bytes, not a CBOR encoding: the writer and the reader of this
   * generation disagree, and a tag is read back only if its name happens to
   * decode as CBOR.
   */
  lemma TryFromKey(t: Tag, value: Text, cbor: Text -> Option<Tag>)
    ensures TryFrom((Key(t), value), cbor) == (match cbor(t.name) case Some(x) => Ok(x) case None => Err(TagSerDeError([])))
  {
    TryFromEncodedKey(t.name, value, cbor);
  }

  /** The listing decoder of this generation. */
  function Decoder(cbor: Text -> Option<Tag>): Attr -> Result<Tag, Error>
  {
    (a: Attr) => TryFrom(a, cbor)
  }

  function TagName(t: Tag): Text
  {
    t.name
  }

  /** Whether an attribute has exactly `key`. */
  function HasKey(key: Text): Attr -> bool
  {
    (a: Attr) => a.0 == key
  }

  /** `list_tags`. */
  method ListTags(file: AttrFile, cbor: Text -> Option<Tag>, fault: Option<Error>) returns (r: Result<seq<Tag>, Error>)
    ensures fault.Some? ==> r == Err(fault.value)
    ensures fault.None? ==> r == Ok(Listed(file.attrs, Decoder(cbor)))
  {
    r := file.ListTags(Decoder(cbor), fault);
  }

  /** `has_tags`. */
  method HasTags(file: AttrFile, cbor: Text -> Option<Tag>, fault: Option<Error>) returns (r: Result<bool, Error>)
    ensures fault.Some? ==> r == Err(fault.value)
    ensures fault.None? ==> r == Ok(|Listed(file.attrs, Decoder(cbor))| > 0)
  {
    r := file.HasTags(Decoder(cbor), fault);
  }

  /**
   * `save_to`: `TagExists` when a listed tag has the same name; otherwise
   * the tag's key is created with an empty value.
   */
  method SaveTo(file: AttrFile, t: Tag, cbor: Text -> Option<Tag>, faults: Faults) returns (r: Result<(), Error>)
    requires file.Valid()
    modifies file
    ensures file.Valid()
    ensures faults.list.Some? ==> r == Err(faults.list.value) && file.attrs == old(file.attrs)
    ensures faults.list.None? && (exists u | u in Listed(old(file.attrs), Decoder(cbor)) :: Equals(u, t)) ==>
      r == Err(TagExists) && file.attrs == old(file.attrs)
    ensures faults.list.None? && !(exists u | u in Listed(old(file.attrs), Decoder(cbor)) :: Equals(u, t)) ==>
      (file.attrs, r) == SetOutcome(old(file.attrs), Key(t), [], faults.write)
  {
    r := file.SaveTo(t.name, TagName, Ok(Key(t)), [], Decoder(cbor), faults);
  }

  /**
   * `remove_from`: the first attribute whose key is the tag's key is
   * removed; when there is none the answer is `TagNotFound(name)`.
   */
  method RemoveFrom(file: AttrFile, t: Tag, faults: Faults) returns (r: Result<(), Error>)
    requires file.Valid()
    modifies file
    ensures file.Valid()
    ensures faults.list.Some? ==> r == Err(faults.list.value) && file.attrs == old(file.attrs)
    ensures faults.list.None? && IndexOfKey(old(file.attrs), Key(t)).None? ==>
      r == Err(TagNotFound(t.name)) && file.attrs == old(file.attrs)
    ensures faults.list.None? && IndexOfKey(old(file.attrs), Key(t)).Some? ==>
      (file.attrs, r) == RemoveOutcome(old(file.attrs), Key(t), faults.remove(Key(t)))
  {
    FirstMatchIsIndexOfKey(file.attrs, Key(t));
    r := file.RemoveFirst(HasKey(Key(t)), TagNotFound(t.name), faults);
  }

  /** Looking for the first attribute with a key is looking up the key. */
  lemma {:induction false} FirstMatchIsIndexOfKey(attrs: seq<Attr>, key: Text)
    ensures FirstMatch(attrs, HasKey(key)) == IndexOfKey(attrs, key)
    decreases |attrs|
  {
    if attrs != [] {
      FirstMatchIsIndexOfKey(attrs[1..], key);
    }
  }

  /** `clear_tags`. */
  method ClearTags(file: AttrFile, faults: Faults) returns (r: Result<(), Error>)
    requires file.Valid()
    modifies file
    ensures file.Valid()
    ensures faults.list.Some? ==> r == Err(faults.list.value) && file.attrs == old(file.attrs)
    ensures faults.list.None? ==> (file.attrs, r) == ClearOutcome(old(file.attrs), NamespacedKeys(old(file.attrs)), faults.remove)
  {
    r := file.ClearTags(faults);
  }

  /**
   * `get_tag`: the first attribute of any namespace that decodes to a tag
   * of that name; `TagNotFound(name)` when there is none.
   */
  function GetTag(attrs: seq<Attr>, fault: Option<Error>, name: Text, cbor: Text -> Option<Tag>): (r: Result<Tag, Error>)
    ensures fault.Some? ==> r == Err(fault.value)
    ensures fault.None? && r.Ok? ==> r.value.name == name && r.value in Decoded(attrs, Decoder(cbor))
    ensures fault.None? && r.Ok? ==> exists i | 0 <= i < |attrs| ::
      (Decoder(cbor)(attrs[i]) == Ok(r.value)
       && forall j | 0 <= j < i :: !DecodesNamed(attrs[j], Decoder(cbor), TagName, name))
    ensures fault.None? && r.Err? ==>
      r.error == TagNotFound(name) && forall u | u in Decoded(attrs, Decoder(cbor)) :: u.name != name
    ensures fault.None? && r.Err? ==> forall i | 0 <= i < |attrs| :: !DecodesNamed(attrs[i], Decoder(cbor), TagName, name)
  {
    FirstNamedDecoded(attrs, Decoder(cbor), TagName, name);
    if fault.Some? then Err(fault.value)
    else match FirstNamed(Decoded(attrs, Decoder(cbor)), TagName, name)
      case Some(t) => Ok(t)
      case None => Err(TagNotFound(name))
  }
}
