/**
 * The earlier `wutag_core` tag: a timestamp, a name and a colour, stored on
 * a file as an empty-valued attribute whose key is `user.wutag.` followed
 * by the base64 of the CBOR encoding of the whole tag.
 *
 * The CBOR encoder and decoder are foreign code and inputs here; the clock
 * that refreshes a timestamp is an input too.
 */
module CborTag {
  import opened Wrappers
  import opened Text
  import opened CoreErrors
  import opened Colors
  import opened AttrStore
  import Base64
  import CoreTag

  /** A point in time, as the tag stores it. */
  type Timestamp = int

  datatype Tag = Tag(timestamp: Timestamp, name: Text, color: Color)

  /** The foreign serialiser of whole tags. */
  type Encoder = Tag -> Option<Text>
  /** The foreign deserialiser of whole tags. */
  type Decoding = Text -> Option<Tag>

  /** `PartialEq`: names alone decide. */
  predicate Equals(a: Tag, b: Tag)
    ensures Equals(a, b) <==> a.(timestamp := b.timestamp, color := b.color) == b
  {
    a.name == b.name
  }

  /** `Ord`: names alone decide. */
  function Cmp(a: Tag, b: Tag): (r: Ordering)
    ensures r == Equal <==> Equals(a, b)
    ensures Compare(b.name, a.name) == r.Reverse()
  {
    CompareEqual(a.name, b.name);
    CompareAntisymmetric(a.name, b.name);
    Compare(a.name, b.name)
  }

  /** Ordering agrees with equality; neither looks at the timestamp or colour. */
  lemma IdentityIsTheName(a: Tag, b: Tag, ts: Timestamp, c: Color)
    ensures Cmp(a, b) == Equal <==> Equals(a, b)
    ensures Equals(a.(timestamp := ts, color := c), b) == Equals(a, b)
    ensures Cmp(a.(timestamp := ts, color := c), b) == Cmp(a, b)
  {
  }

  /** `set_color`: the colour is replaced and the timestamp set to `now`. */
  function SetColor(t: Tag, color: Color, now: Timestamp): (r: Tag)
    ensures r.name == t.name && r.color == color && r.timestamp == now
    ensures Equals(r, t)
  {
    t.(timestamp := now, color := color)
  }

  /** `hash`: the key, or `TagSerDeError` when the tag cannot be serialised. */
  function Key(t: Tag, encode: Encoder): (r: Result<Text, Error>)
    ensures encode(t).None? <==> r.Err?
    ensures r.Err? ==> r.error.TagSerDeError?
    ensures r.Ok? ==> r.value == WUTAG_NAMESPACE + [CoreTag.DOT] + Base64.Encode(encode(t).value)
  {
    match encode(t)
    case None => Err(TagSerDeError([]))
    case Some(bytes) => Ok(WUTAG_NAMESPACE + [CoreTag.DOT] + Base64.Encode(bytes))
  }

  /** Keys identify encodings: two tags share a key exactly when they share an encoding. */
  lemma KeyIdentifiesEncoding(a: Tag, b: Tag, encode: Encoder)
    requires encode(a).Some? && encode(b).Some?
    ensures Key(a, encode) == Key(b, encode) <==> encode(a) == encode(b)
  {
    if Key(a, encode) == Key(b, encode) {
      var p := WUTAG_NAMESPACE + [CoreTag.DOT];
      assert Base64.Encode(encode(a).value) == Key(a, encode).value[|p|..];
      Base64.EncodeInjective(encode(a).value, encode(b).value);
    }
  }

  /** `TryFrom<(String, String)>`: the same key parser as the later tag, decoding whole tags. */
  function Decoder(decode: Decoding): Attr -> Result<Tag, Error>
  {
    (a: Attr) => CoreTag.TryFrom(a, decode)
  }

  /**
   * Round trip: when the decoder undoes the encoder on a tag, the attribute
   * written for it reads back as that very tag, whatever its value.
   */
  lemma KeyRoundTrip(t: Tag, value: Text, encode: Encoder, decode: Decoding)
    requires encode(t).Some? && decode(encode(t).value) == Some(t)
    ensures Key(t, encode).Ok?
    ensures Decoder(decode)((Key(t, encode).value, value)) == Ok(t)
  {
    CoreTag.TryFromEncodedKey(encode(t).value, value, decode);
  }

  function TagName(t: Tag): Text
  {
    t.name
  }

  /** `list_tags`. */
  method ListTags(file: AttrFile, decode: Decoding, fault: Option<Error>) returns (r: Result<seq<Tag>, Error>)
    ensures fault.Some? ==> r == Err(fault.value)
    ensures fault.None? ==> r == Ok(Listed(file.attrs, Decoder(decode)))
  {
    r := file.ListTags(Decoder(decode), fault);
  }

  /** `has_tags`. */
  method HasTags(file: AttrFile, decode: Decoding, fault: Option<Error>) returns (r: Result<bool, Error>)
    ensures fault.Some? ==> r == Err(fault.value)
    ensures fault.None? ==> r == Ok(|Listed(file.attrs, Decoder(decode))| > 0)
  {
    r := file.HasTags(Decoder(decode), fault);
  }

  /**
   * `save_to`: `TagExists` when a listed tag has the same name; otherwise
   * the key is built (which may fail) and created with an empty value.
   */
  method SaveTo(file: AttrFile, t: Tag, encode: Encoder, decode: Decoding, faults: Faults) returns (r: Result<(), Error>)
    requires file.Valid()
    modifies file
    ensures file.Valid()
    ensures faults.list.Some? ==> r == Err(faults.list.value) && file.attrs == old(file.attrs)
    ensures faults.list.None? && (exists u | u in Listed(old(file.attrs), Decoder(decode)) :: Equals(u, t)) ==>
      r == Err(TagExists) && file.attrs == old(file.attrs)
    ensures faults.list.None? && !(exists u | u in Listed(old(file.attrs), Decoder(decode)) :: Equals(u, t)) ==>
      if encode(t).None? then r == Err(TagSerDeError([])) && file.attrs == old(file.attrs)
      else (file.attrs, r) == SetOutcome(old(file.attrs), Key(t, encode).value, [], faults.write)
  {
    r := file.SaveTo(t.name, TagName, Key(t, encode), [], Decoder(decode), faults);
  }

  /**
   * `remove_from`: the key is built first; then the first attribute with
   * exactly that key is removed, and `TagNotFound(name)` answers when none
   * has it.
   */
  method RemoveFrom(file: AttrFile, t: Tag, encode: Encoder, faults: Faults) returns (r: Result<(), Error>)
    requires file.Valid()
    modifies file
    ensures file.Valid()
    ensures encode(t).None? ==> r == Err(TagSerDeError([])) && file.attrs == old(file.attrs)
    ensures encode(t).Some? && faults.list.Some? ==> r == Err(faults.list.value) && file.attrs == old(file.attrs)
    ensures encode(t).Some? && faults.list.None? && IndexOfKey(old(file.attrs), Key(t, encode).value).None? ==>
      r == Err(TagNotFound(t.name)) && file.attrs == old(file.attrs)
    ensures encode(t).Some? && faults.list.None? && IndexOfKey(old(file.attrs), Key(t, encode).value).Some? ==>
      var k := Key(t, encode).value;
      (file.attrs, r) == RemoveOutcome(old(file.attrs), k, faults.remove(k))
  {
    var key := Key(t, encode);
    if key.Err? {
      return Err(key.error);
    }
    CoreTag.FirstMatchIsIndexOfKey(file.attrs, key.value);
    r := file.RemoveFirst(CoreTag.HasKey(key.value), TagNotFound(t.name), faults);
  }

  /**
   * A tag of the same name whose encoding differs (another colour or
   * timestamp, say) is not removed: the file keeps its attributes and the
   * answer is `TagNotFound`.
   */
  lemma RemoveNeedsSameEncoding(t: Tag, stored: Tag, encode: Encoder, value: Text)
    requires encode(t).Some? && encode(stored).Some? && encode(t) != encode(stored)
    ensures IndexOfKey([(Key(stored, encode).value, value)], Key(t, encode).value).None?
  {
    KeyIdentifiesEncoding(t, stored, encode);
  }

  /** `clear_tags`. */
  method ClearTags(file: AttrFile, faults: Faults) returns (r: Result<(), Error>)
    requires file.Valid()
    modifies file
    ensures file.Valid()
    ensures faults.list.Some? ==> r == Err(faults.list.value) && file.attrs == old(file.attrs)
    ensures faults.list.None? ==> (file.attrs, r) == ClearOutcome(old(file.attrs), NamespacedKeys(old(file.attrs)), faults.remove)
  {
    r := file.ClearTags(faults);
  }

  /**
   * `get_tag`: the first attribute of any namespace that decodes to a tag
   * of that name; `TagNotFound(name)` when there is none.
   */
  function GetTag(attrs: seq<Attr>, fault: Option<Error>, name: Text, decode: Decoding): (r: Result<Tag, Error>)
    ensures fault.Some? ==> r == Err(fault.value)
    ensures fault.None? && r.Ok? ==> r.value.name == name && r.value in Decoded(attrs, Decoder(decode))
    ensures fault.None? && r.Ok? ==> exists i | 0 <= i < |attrs| ::
      (Decoder(decode)(attrs[i]) == Ok(r.value)
       && forall j | 0 <= j < i :: !DecodesNamed(attrs[j], Decoder(decode), TagName, name))
    ensures fault.None? && r.Err? ==>
      r.error == TagNotFound(name) && forall u | u in Decoded(attrs, Decoder(decode)) :: u.name != name
    ensures fault.None? && r.Err? ==> forall i | 0 <= i < |attrs| :: !DecodesNamed(attrs[i], Decoder(decode), TagName, name)
  {
    FirstNamedDecoded(attrs, Decoder(decode), TagName, name);
    if fault.Some? then Err(fault.value)
    else match FirstNamed(Decoded(attrs, Decoder(decode)), TagName, name)
      case Some(t) => Ok(t)
      case None => Err(TagNotFound(name))
  }
}
