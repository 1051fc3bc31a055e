/**
 * The first generation's tag: a timestamp, a name and a colour, stored on a
 * file as an attribute whose key is
 * `user.wutag.<seconds>.<hash of the name>.<foreground code>` and whose
 * value is the name.
 *
 * The name hasher (`DefaultHasher`) is foreign code and an input here; the
 * foreground code of a colour is the one `Colors.FgCode` defines.
 */
module LegacyTag {
  import opened Wrappers
  import opened Text
  import opened Numbers
  import opened CoreErrors
  import opened Colors
  import opened AttrStore

  /** Whole seconds since the Unix epoch. */
  type Seconds = int

  datatype Tag = Tag(timestamp: Seconds, name: Text, color: Color)

  /** `calculate_hash` over a name. */
  type Hasher = Text -> u64

  const DOT: byte := '.'
  const USER: Text := "user"
  const WUTAG: Text := "wutag"

  const MSG_INVALID_NAMESPACE: Text := "invalid namespace `"
  const MSG_VALID_USER: Text := "`, valid namespace is `user`"
  const MSG_VALID_WUTAG: Text := "`, valid namespace is `wutag`"
  const MSG_MISSING_WUTAG: Text := "missing namespace `wutag`"
  const MSG_MISSING_TIMESTAMP: Text := "missing timestamp"
  const MSG_INVALID_TIMESTAMP: Text := "invalid timestamp - "
  const MSG_MISSING_HASH: Text := "missing hash"
  const MSG_MISSING_COLOR: Text := "missing color"
  const MSG_INVALID_COLOR: Text := "invalid color "

  /** `PartialEq`: names alone decide. */
  predicate Equals(a: Tag, b: Tag)
    ensures Equals(a, b) <==> a.(timestamp := b.timestamp, color := b.color) == b
  {
    a.name == b.name
  }

  /** `Ord`: names alone decide. */
  function Cmp(a: Tag, b: Tag): (r: Ordering)
    ensures r == Equal <==> Equals(a, b)
    ensures Compare(b.name, a.name) == r.Reverse()
  {
    CompareEqual(a.name, b.name);
    CompareAntisymmetric(a.name, b.name);
    Compare(a.name, b.name)
  }

  /** Ordering agrees with equality; neither looks at the timestamp or colour. */
  lemma IdentityIsTheName(a: Tag, b: Tag, ts: Seconds, c: Color)
    ensures Cmp(a, b) == Equal <==> Equals(a, b)
    ensures Equals(a.(timestamp := ts, color := c), b) == Equals(a, b)
    ensures Cmp(a.(timestamp := ts, color := c), b) == Cmp(a, b)
  {
  }

  /** `xattr_name`: the attribute key of a tag. */
  function XattrName(t: Tag, hash: Hasher): (k: Text)
    ensures WUTAG_NAMESPACE + [DOT] <= k
  {
    WUTAG_NAMESPACE + [DOT] + SignedText(t.timestamp) + [DOT] + DecimalText(hash(t.name)) + [DOT] + FgCode(t.color)
  }

  /**
   * `TryFrom<(String, String)>`: the key split on `.` must give `user`,
   * `wutag`, an `i64` number of seconds, a `u64` hash and a foreground
   * code, in that order; later pieces are ignored, the hash is not checked
   * against anything, and the name is the attribute's value. Every failure
   * is `InvalidTagKey`.
   */
  function TryFrom(a: Attr): (r: Result<Tag, Error>)
    ensures r.Err? ==> r.error.InvalidTagKey?
    ensures var f := Split(a.0, [DOT]);
      r.Ok? <==>
        |f| >= 5 && f[0] == USER && f[1] == WUTAG && ParseSigned(f[2], I64_MIN, I64_MAX).Some?
        && ParseUnsigned(f[3], U64_MAX).Some? && ColorFromFgStr(f[4]).Some?
    ensures var f := Split(a.0, [DOT]);
      r.Ok? ==> r.value == Tag(ParseSigned(f[2], I64_MIN, I64_MAX).value, a.1, ColorFromFgStr(f[4]).value)
    ensures var f := Split(a.0, [DOT]);
      |f| >= 3 && f[0] == USER && f[1] == WUTAG && SignedError(f[2], I64_MIN, I64_MAX).Some? ==>
        r == Err(InvalidTagKey(MSG_INVALID_TIMESTAMP + IntErrorText(SignedError(f[2], I64_MIN, I64_MAX).value)))
    ensures var f := Split(a.0, [DOT]);
      |f| >= 4 && f[0] == USER && f[1] == WUTAG && SignedError(f[2], I64_MIN, I64_MAX).None?
        && UnsignedError(f[3], U64_MAX).Some? ==>
        r == Err(InvalidTagKey(IntErrorText(UnsignedError(f[3], U64_MAX).value)))
  {
    var elems := Split(a.0, [DOT]);
    if elems[0] != USER then Err(InvalidTagKey(MSG_INVALID_NAMESPACE + elems[0] + MSG_VALID_USER))
    else if |elems| < 2 then Err(InvalidTagKey(MSG_MISSING_WUTAG))
    else if elems[1] != WUTAG then Err(InvalidTagKey(MSG_INVALID_NAMESPACE + elems[1] + MSG_VALID_WUTAG))
    else if |elems| < 3 then Err(InvalidTagKey(MSG_MISSING_TIMESTAMP))
    else match ParseSigned(elems[2], I64_MIN, I64_MAX)
      case None => Err(InvalidTagKey(MSG_INVALID_TIMESTAMP + IntErrorText(SignedError(elems[2], I64_MIN, I64_MAX).value)))
      case Some(seconds) =>
        if |elems| < 4 then Err(InvalidTagKey(MSG_MISSING_HASH))
        else if ParseUnsigned(elems[3], U64_MAX).None? then Err(InvalidTagKey(IntErrorText(UnsignedError(elems[3], U64_MAX).value)))
        else if |elems| < 5 then Err(InvalidTagKey(MSG_MISSING_COLOR))
        else match ColorFromFgStr(elems[4])
          case None => Err(InvalidTagKey(MSG_INVALID_COLOR + elems[4]))
          case Some(color) => Ok(Tag(seconds, a.1, color))
  }

  /** No foreground code contains a dot. */
  lemma FgCodeHasNoDot(c: Color)
    ensures DOT !in FgCode(c)
  {
    if c.TrueColor? {
      DecimalTextHasNoSeparators(c.r, DOT);
      DecimalTextHasNoSeparators(c.g, DOT);
      DecimalTextHasNoSeparators(c.b, DOT);
      assert FgCode(c) == DIRECT_PREFIX + DecimalText(c.r) + [SEMICOLON] + DecimalText(c.g) + [SEMICOLON] + DecimalText(c.b);
    }
  }

  /** A signed number has no dot. */
  lemma SignedTextHasNoDot(n: int)
    ensures DOT !in SignedText(n)
  {
    if n < 0 {
      DecimalTextHasNoSeparators(-n, DOT);
      assert SignedText(n) == "-" + DecimalText(-n);
    } else {
      DecimalTextHasNoSeparators(n, DOT);
    }
  }

  /** The key is its five fields joined by dots. */
  lemma XattrNamePieces(t: Tag, hash: Hasher)
    ensures XattrName(t, hash) == USER + [DOT] + WUTAG + [DOT] + SignedText(t.timestamp) + [DOT]
      + DecimalText(hash(t.name)) + [DOT] + FgCode(t.color) + []
  {
    assert WUTAG_NAMESPACE == USER + [DOT] + WUTAG;
  }

  /** The key splits on dots into exactly its five fields. */
  lemma XattrNameFields(t: Tag, hash: Hasher)
    ensures var f := Split(XattrName(t, hash), [DOT]);
      |f| >= 5 && f[0] == USER && f[1] == WUTAG && f[2] == SignedText(t.timestamp)
      && f[3] == DecimalText(hash(t.name)) && f[4] == FgCode(t.color)
  {
    var ts, h, fg := SignedText(t.timestamp), DecimalText(hash(t.name)), FgCode(t.color);
    DecimalTextHasNoSeparators(hash(t.name), DOT);
    SignedTextHasNoDot(t.timestamp);
    FgCodeHasNoDot(t.color);
    XattrNamePieces(t, hash);
    SplitFive(USER, WUTAG, ts, h, fg, DOT, []);
  }

  /**
   * A timestamp field that is not a number: the message ends with Rust's
   * reason, as in `user.wutag.x.1.31`.
   */
  lemma TryFromReportsBadTimestamp(value: Text)
    ensures var key := USER + [DOT] + WUTAG + [DOT] + "x" + [DOT] + "1" + [DOT] + "31";
      TryFrom((key, value)) == Err(InvalidTagKey(MSG_INVALID_TIMESTAMP + MSG_INVALID_DIGIT))
  {
    var x: Text, one: Text, code: Text := "x", "1", "31";
    var key := USER + [DOT] + WUTAG + [DOT] + x + [DOT] + one + [DOT] + code;
    assert key + [] == key;
    SplitFive(USER, WUTAG, x, one, code, DOT, []);
    assert SignedError(x, I64_MIN, I64_MAX) == Some(InvalidDigit);
  }

  /** An empty hash field, as in `user.wutag.5..31`: Rust's empty-string reason. */
  lemma TryFromReportsEmptyHash(value: Text)
    ensures var key := USER + [DOT] + WUTAG + [DOT] + "5" + [DOT] + [] + [DOT] + "31";
      TryFrom((key, value)) == Err(InvalidTagKey(MSG_EMPTY))
  {
    var five: Text, code: Text := "5", "31";
    var key := USER + [DOT] + WUTAG + [DOT] + five + [DOT] + [] + [DOT] + code;
    assert key + [] == key;
    SplitFive(USER, WUTAG, five, [], code, DOT, []);
    assert ParseSigned(five, I64_MIN, I64_MAX) == Some(5);
  }

  /**
   * A key decodes to its seconds and colour with the attribute's value as
   * the name: the hash field is parsed but never compared with the name.
   */
  lemma XattrNameDecodes(t: Tag, hash: Hasher, value: Text)
    requires I64_MIN <= t.timestamp <= I64_MAX
    ensures TryFrom((XattrName(t, hash), value)) == Ok(Tag(t.timestamp, value, t.color))
  {
    XattrNameFields(t, hash);
    ParseSignedText(t.timestamp, I64_MIN, I64_MAX);
    ParseUnsignedDecimal(hash(t.name), U64_MAX);
    FgCodeRoundTrip(t.color);
  }

  /**
   * Round trip: the attribute written for a tag reads back as that tag,
   * provided its seconds fit an `i64`.
   */
  lemma XattrRoundTrip(t: Tag, hash: Hasher)
    requires I64_MIN <= t.timestamp <= I64_MAX
    ensures TryFrom((XattrName(t, hash), t.name)) == Ok(t)
  {
    XattrNameDecodes(t, hash, t.name);
  }

  function TryFromAttr(): Attr -> Result<Tag, Error>
  {
    (a: Attr) => TryFrom(a)
  }

  function TagName(t: Tag): Text
  {
    t.name
  }

  /** An attribute of the namespace whose value is `name`. */
  function NamedInNamespace(name: Text): Attr -> bool
  {
    (a: Attr) => a.1 == name && InNamespace(a)
  }

  /** An attribute, of any namespace, whose value is `name`. */
  function HasValue(name: Text): Attr -> bool
  {
    (a: Attr) => a.1 == name
  }

  /** `list_tags`. */
  method ListTags(file: AttrFile, fault: Option<Error>) returns (r: Result<seq<Tag>, Error>)
    ensures fault.Some? ==> r == Err(fault.value)
    ensures fault.None? ==> r == Ok(Listed(file.attrs, TryFromAttr()))
  {
    r := file.ListTags(TryFromAttr(), fault);
  }

  /** `has_tags`. */
  method HasTags(file: AttrFile, fault: Option<Error>) returns (r: Result<bool, Error>)
    ensures fault.Some? ==> r == Err(fault.value)
    ensures fault.None? ==> r == Ok(|Listed(file.attrs, TryFromAttr())| > 0)
  {
    r := file.HasTags(TryFromAttr(), fault);
  }

  /**
   * `save_to`: `TagExists` when a listed tag has the same name; otherwise
   * the tag's key is created with the name as its value.
   */
  method SaveTo(file: AttrFile, t: Tag, hash: Hasher, faults: Faults) returns (r: Result<(), Error>)
    requires file.Valid()
    modifies file
    ensures file.Valid()
    ensures faults.list.Some? ==> r == Err(faults.list.value) && file.attrs == old(file.attrs)
    ensures faults.list.None? && (exists u | u in Listed(old(file.attrs), TryFromAttr()) :: Equals(u, t)) ==>
      r == Err(TagExists) && file.attrs == old(file.attrs)
    ensures faults.list.None? && !(exists u | u in Listed(old(file.attrs), TryFromAttr()) :: Equals(u, t)) ==>
      (file.attrs, r) == SetOutcome(old(file.attrs), XattrName(t, hash), t.name, faults.write)
  {
    r := file.SaveTo(t.name, TagName, Ok(XattrName(t, hash)), t.name, TryFromAttr(), faults);
  }

  /**
   * A tag whose name holds a NUL is never written: `CString::new` refuses the
   * name as a value, and the file keeps its attributes.
   */
  lemma SaveRefusesNulName(attrs: seq<Attr>, t: Tag, hash: Hasher, fault: Option<Io.IoError>)
    requires NUL in t.name
    ensures var r := SetOutcome(attrs, XattrName(t, hash), t.name, fault);
      r.0 == attrs && r.1.Err? && r.1.error.InvalidString?
  {
  }

  /**
   * `remove_from`: the first attribute of the namespace whose value is the
   * name is removed, whatever its key says; `TagNotFound(name)` when there
   * is none.
   */
  method RemoveFrom(file: AttrFile, t: Tag, faults: Faults) returns (r: Result<(), Error>)
    requires file.Valid()
    modifies file
    ensures file.Valid()
    ensures faults.list.Some? ==> r == Err(faults.list.value) && file.attrs == old(file.attrs)
    ensures faults.list.None? && FirstMatch(old(file.attrs), NamedInNamespace(t.name)).None? ==>
      r == Err(TagNotFound(t.name)) && file.attrs == old(file.attrs)
    ensures faults.list.None? && FirstMatch(old(file.attrs), NamedInNamespace(t.name)).Some? ==>
      var key := old(file.attrs)[FirstMatch(old(file.attrs), NamedInNamespace(t.name)).value].0;
      (file.attrs, r) == RemoveOutcome(old(file.attrs), key, faults.remove(key))
  {
    r := file.RemoveFirst(NamedInNamespace(t.name), TagNotFound(t.name), faults);
  }

  /** `clear_tags`. */
  method ClearTags(file: AttrFile, faults: Faults) returns (r: Result<(), Error>)
    requires file.Valid()
    modifies file
    ensures file.Valid()
    ensures faults.list.Some? ==> r == Err(faults.list.value) && file.attrs == old(file.attrs)
    ensures faults.list.None? ==> (file.attrs, r) == ClearOutcome(old(file.attrs), NamespacedKeys(old(file.attrs)), faults.remove)
  {
    r := file.ClearTags(faults);
  }

  /**
   * `get_tag`: the first attribute of any namespace whose value is the name
   * is decoded, and its decoding error, if any, is the answer;
   * `TagNotFound(name)` when no attribute has that value.
   */
  function GetTag(attrs: seq<Attr>, fault: Option<Error>, name: Text): (r: Result<Tag, Error>)
    ensures fault.Some? ==> r == Err(fault.value)
    ensures fault.None? && r.Ok? ==> r.value.name == name
    ensures fault.None? ==>
      (r == Err(TagNotFound(name)) && forall a | a in attrs :: a.1 != name)
      || exists i | 0 <= i < |attrs| :: attrs[i].1 == name && r == TryFrom(attrs[i])
           && forall j | 0 <= j < i :: attrs[j].1 != name
  {
    if fault.Some? then Err(fault.value)
    else match FirstMatch(attrs, HasValue(name))
      case None => Err(TagNotFound(name))
      case Some(i) => TryFrom(attrs[i])
  }
}
