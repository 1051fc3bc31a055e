/**
 * Operating-system errors as the standard library reports them: a kind, the
 * raw `errno` when there is one, and the text `to_string` gives.
 */
module Io {
  import opened Wrappers
  import opened Text

  datatype ErrorKind = NotFound | AlreadyExists | PermissionDenied | WouldBlock | OtherKind

  datatype IoError = IoError(kind: ErrorKind, raw: Option<int>, message: Text)

  /** `ENOSPC`: no room left for another extended attribute. */
  const ENOSPC: int := 28
  /** `ENODATA` (Linux) / `ENOATTR`: the attribute does not exist. */
  const ENODATA: int := 61
}

/** The error type of the `wutag_core` crate and its classification of I/O errors. */
module CoreErrors {
  import opened Wrappers
  import opened Text
  import opened Io

  /** Prefix of every extended attribute that wutag writes. */
  const WUTAG_NAMESPACE: Text := "user.wutag"

  datatype Error =
    | TagExists
    | TagNotFound(name: Text)
    | InvalidTagKey(key: Text)
    | Other(message: Text)
    | InvalidString(detail: Text)
    | Utf8ConversionFailed
    | AttrsChanged
    | InvalidColor(color: Text)
    | TagSerDeError(detail: Text)
    | YamlSerDeError(detail: Text)
    | Base64DecodeError(detail: Text)
    | TagListFull(io: IoError)

  /**
   * The `Display` text of each error. Every text is non-empty, and the text a
   * variant carries follows that variant's fixed prefix.
   */
  function Message(e: Error): (r: Text)
    ensures |r| > 0
    ensures e.TagNotFound? ==> Carries(r, MSG_TAG + "`", e.name)
    ensures e.InvalidTagKey? ==> Carries(r, MSG_INVALID_KEY, e.key)
    ensures e.Other? ==> Carries(r, MSG_ERROR, e.message)
    ensures e.InvalidString? ==> Carries(r, MSG_INVALID_STRING, e.detail)
  {
    match e
    case TagExists => MSG_TAG_EXISTS
    case TagNotFound(name) => Quoted(MSG_TAG, name, MSG_DOES_NOT_EXIST)
    case InvalidTagKey(key) => MSG_INVALID_KEY + key
    case Other(message) => MSG_ERROR + message
    case InvalidString(detail) => MSG_INVALID_STRING + detail
    case Utf8ConversionFailed => MSG_NOT_UTF8
    case AttrsChanged => MSG_ATTRS_CHANGED
    case InvalidColor(color) => Quoted(MSG_COLOR, color, MSG_NOT_HEX)
    case TagSerDeError(detail) => Quoted(MSG_TAG_SERDE, detail, [])
    case YamlSerDeError(detail) => Quoted(MSG_YAML_SERDE, detail, [])
    case Base64DecodeError(detail) => Quoted(MSG_BASE64, detail, [])
    case TagListFull(io) => Quoted(MSG_LIST_FULL, io.message, [])
  }

  const MSG_TAG_EXISTS: Text := "tag already exists"
  const MSG_TAG: Text := "tag "
  const MSG_DOES_NOT_EXIST: Text := " doesn't exist"
  const MSG_INVALID_KEY: Text := "tag key was invalid - "
  const MSG_ERROR: Text := "error: "
  const MSG_INVALID_STRING: Text := "provided string was invalid - "
  const MSG_NOT_UTF8: Text := "provided string was not valid UTF-8"
  const MSG_ATTRS_CHANGED: Text := "xattrs changed while getting their size"
  const MSG_COLOR: Text := "provided color "
  const MSG_NOT_HEX: Text := " is not a valid hex color"
  const MSG_TAG_SERDE: Text := "failed to serialize or deserialize tag - "
  const MSG_YAML_SERDE: Text := "failed to serialize or deserialize yaml - "
  const MSG_BASE64: Text := "failed to decode data with base64 - "
  const MSG_LIST_FULL: Text := "xattributes limit reached on the file - "

  /** `text` starts with `prefix`, and `payload` comes right after it. */
  predicate Carries(text: Text, prefix: Text, payload: Text)
  {
    prefix <= text && payload <= text[|prefix|..]
  }

  /** `before` followed by `inner` in backticks and then `after`. */
  function Quoted(before: Text, inner: Text, after: Text): Text
  {
    before + "`" + inner + "`" + after
  }

  /**
   * `From<io::Error>`: the kind is looked at first, and only then the raw
   * operating-system code.
   */
  function FromIoError(err: IoError): (e: Error)
    ensures e == TagExists <==> err.kind == AlreadyExists
    ensures e.TagNotFound? <==> err.kind != AlreadyExists && err.raw == Some(ENODATA)
    ensures e.TagNotFound? ==> e.name == []
    ensures e.TagListFull? <==> err.kind != AlreadyExists && err.raw == Some(ENOSPC)
    ensures e.TagListFull? ==> e.io == err
    ensures e.Other? <==> err.kind != AlreadyExists && err.raw != Some(ENODATA) && err.raw != Some(ENOSPC)
    ensures e.Other? ==> e.message == err.message
  {
    if err.kind == AlreadyExists then TagExists
    else match err.raw
      case Some(61) => TagNotFound("")
      case Some(28) => TagListFull(err)
      case _ => Other(err.message)
  }
}

/** The error type of the original `wutag` crate and its classification of I/O errors. */
module LegacyErrors {
  import opened Wrappers
  import opened Text
  import opened Io

  datatype Error =
    | TagExists
    | TagNotFound
    | FileNotFound
    | Other(message: Text)
    | InvalidString(detail: Text)
    | Utf8ConversionFailed
    | AttrsChanged

  /** `From<io::Error>`: `NotFound` first, then `AlreadyExists`, then the raw code. */
  function FromIoError(err: IoError): (e: Error)
    ensures e == FileNotFound <==> err.kind == NotFound
    ensures e == TagExists <==> err.kind == AlreadyExists
    ensures e == TagNotFound <==> err.kind != NotFound && err.kind != AlreadyExists && err.raw == Some(ENODATA)
    ensures e.Other? <==> err.kind != NotFound && err.kind != AlreadyExists && err.raw != Some(ENODATA)
    ensures e.Other? ==> e.message == err.message
  {
    match err.kind
    case NotFound => FileNotFound
    case AlreadyExists => TagExists
    case _ =>
      match err.raw
      case Some(61) => TagNotFound
      case _ => Other(err.message)
  }
}
