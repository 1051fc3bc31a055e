/**
 * The extended-attribute layer on Unix, in both the `wutag_core` crate and
 * the original crate (the two `xattr/unix.rs` files share their logic).
 *
 * System calls are not executed: each call's outcome is an input. The kernel
 * lists attribute names as one buffer of NUL-terminated names; the value and
 * the list are fetched by a size query followed by a fill of that size.
 */
module Xattr {
  import opened Wrappers
  import opened Text
  import opened Io
  import CoreErrors
  import LegacyErrors

  /* ---------------------------------------------------------------------- */
  /* Parsing the name list                                                   */
  /* ---------------------------------------------------------------------- */

  /** The position just after the last NUL of `s`, or 0 when `s` has none. */
  function LastStart(s: Text): (start: nat)
    ensures start <= |s|
    ensures NUL !in s[start..]
    ensures start > 0 ==> s[start - 1] == NUL
    decreases |s|
  {
    if s == [] then 0
    else if s[|s| - 1] == NUL then |s|
    else
      var start := LastStart(s[..|s| - 1]);
      assert s[start..] == s[..|s| - 1][start..] + [s[|s| - 1]];
      start
  }

  /**
   * The names in a raw list: one per NUL, each being the bytes since the
   * previous NUL (or the start). Bytes after the last NUL are not a name.
   */
  function NulKeys(s: Text): (keys: seq<Text>)
    ensures NUL !in s ==> keys == []
    decreases |s|
  {
    if s == [] then []
    else
      var front := s[..|s| - 1];
      if s[|s| - 1] == NUL then NulKeys(front) + [front[LastStart(front)..]]
      else NulKeys(front)
  }

  /** The number of NUL bytes in `s`. */
  function CountNul(s: Text): nat
    decreases |s|
  {
    if s == [] then 0
    else CountNul(s[..|s| - 1]) + (if s[|s| - 1] == NUL then 1 else 0)
  }

  /** A name list as the kernel writes it: every name followed by a NUL. */
  function JoinNul(keys: seq<Text>): Text
    decreases |keys|
  {
    if keys == [] then [] else JoinNul(keys[..|keys| - 1]) + keys[|keys| - 1] + [NUL]
  }

  /**
   * `parse_xattrs` in `wutag_core`: a scan of the buffer that cuts a name at
   * every NUL and moves `start` past it.
   */
  method ParseXattrs(input: Text) returns (keys: seq<Text>)
    ensures keys == NulKeys(input)
  {
    keys := [];
    var start := 0;
    var i := 0;
    while i < |input|
      invariant 0 <= i <= |input|
      invariant start == LastStart(input[..i])
      invariant keys == NulKeys(input[..i])
    {
      assert input[..i + 1][..i] == input[..i];
      if input[i] == NUL {
        keys := keys + [input[start..i]];
        start := start + (i - start + 1);
      }
      i := i + 1;
    }
    assert input[..i] == input;
  }

  /**
   * `parse_xattrs` in the original crate: the same scan, written as a
   * `while let` over the enumerated buffer; it never fails.
   */
  method ParseXattrsLegacy(input: Text) returns (r: Result<seq<Text>, LegacyErrors.Error>)
    ensures r == Ok(NulKeys(input))
  {
    var keys := ParseXattrs(input);
    r := Ok(keys);
  }

  /** There is one name per NUL byte. */
  lemma {:induction false} NulKeysCount(s: Text)
    ensures |NulKeys(s)| == CountNul(s)
    decreases |s|
  {
    if s != [] {
      NulKeysCount(s[..|s| - 1]);
    }
  }

  /** No name contains a NUL. */
  lemma {:induction false} NulKeysHaveNoNul(s: Text)
    ensures forall k | k in NulKeys(s) :: NUL !in k
    decreases |s|
  {
    if s != [] {
      NulKeysHaveNoNul(s[..|s| - 1]);
    }
  }

  /**
   * The names, each with its NUL put back, give the input up to and
   * including its last NUL: nothing is lost but the unterminated tail.
   */
  lemma {:induction false} NulKeysRebuild(s: Text)
    ensures JoinNul(NulKeys(s)) == s[..LastStart(s)]
    decreases |s|
  {
    if s != [] {
      var front, c := s[..|s| - 1], s[|s| - 1];
      NulKeysRebuild(front);
      assert s == front + [c];
      if c == NUL {
        RebuildAtNul(front);
      } else {
        RebuildPlain(front, c);
      }
    }
  }

  /** A byte other than NUL adds no name and leaves the rebuilt text alone. */
  lemma RebuildPlain(front: Text, c: byte)
    requires c != NUL
    requires JoinNul(NulKeys(front)) == front[..LastStart(front)]
    ensures JoinNul(NulKeys(front + [c])) == (front + [c])[..LastStart(front + [c])]
  {
    var s := front + [c];
    assert s[..|s| - 1] == front && s[|s| - 1] == c;
    assert NulKeys(s) == NulKeys(front) && LastStart(s) == LastStart(front);
    assert s[..LastStart(s)] == front[..LastStart(front)];
  }

  /** A NUL closes the name since the last start, and the rebuilt text reaches it. */
  lemma RebuildAtNul(front: Text)
    requires JoinNul(NulKeys(front)) == front[..LastStart(front)]
    ensures JoinNul(NulKeys(front + [NUL])) == front + [NUL]
  {
    NulKeysAtNul(front);
    JoinNulSnoc(NulKeys(front), front[LastStart(front)..]);
    RejoinAt(front, LastStart(front));
  }

  lemma RejoinAt(t: Text, k: nat)
    requires k <= |t|
    ensures t[..k] + t[k..] + [NUL] == t + [NUL]
  {
    assert t[..k] + t[k..] == t;
  }

  lemma NulKeysAtNul(front: Text)
    ensures NulKeys(front + [NUL]) == NulKeys(front) + [front[LastStart(front)..]]
  {
    var s := front + [NUL];
    assert s[..|s| - 1] == front && s[|s| - 1] == NUL;
  }

  lemma JoinNulSnoc(keys: seq<Text>, k: Text)
    ensures JoinNul(keys + [k]) == JoinNul(keys) + k + [NUL]
  {
    var ks := keys + [k];
    assert ks[..|ks| - 1] == keys && ks[|ks| - 1] == k;
  }

  /** Appending bytes without a NUL adds no name and does not move the last start. */
  lemma {:induction false} NulKeysAppendPlain(u: Text, t: Text)
    requires NUL !in t
    ensures NulKeys(u + t) == NulKeys(u)
    ensures LastStart(u + t) == LastStart(u)
    decreases |t|
  {
    if t != [] {
      var front := u + t[..|t| - 1];
      assert (u + t)[..|u + t| - 1] == front;
      assert (u + t)[|u + t| - 1] == t[|t| - 1];
      NulKeysAppendPlain(u, t[..|t| - 1]);
    } else {
      assert u + t == u;
    }
  }

  /** A list the kernel could have written ends at its last NUL. */
  lemma JoinNulLastStart(keys: seq<Text>)
    ensures LastStart(JoinNul(keys)) == |JoinNul(keys)|
  {
  }

  /** Parsing a list written from NUL-free names gives those names back. */
  lemma {:induction false} NulKeysOfJoin(keys: seq<Text>)
    requires forall k | k in keys :: NUL !in k
    ensures NulKeys(JoinNul(keys)) == keys
    decreases |keys|
  {
    if keys != [] {
      var init, last := keys[..|keys| - 1], keys[|keys| - 1];
      assert forall k | k in init :: k in keys;
      NulKeysOfJoin(init);
      assert keys == init + [last];
      JoinStep(init, last);
    }
  }

  /** Writing one more NUL-free name adds it to what is parsed back. */
  lemma JoinStep(init: seq<Text>, last: Text)
    requires NUL !in last && NulKeys(JoinNul(init)) == init
    ensures NulKeys(JoinNul(init + [last])) == init + [last]
  {
    var keys := init + [last];
    assert keys[..|keys| - 1] == init && keys[|keys| - 1] == last;
    var j := JoinNul(init);
    var front := j + last;
    var s := JoinNul(keys);
    assert s == front + [NUL];
    assert s[..|s| - 1] == front && s[|s| - 1] == NUL;
    NulKeysAppendPlain(j, last);
    JoinNulLastStart(init);
    assert front[|j|..] == last;
    assert NulKeys(s) == NulKeys(front) + [front[LastStart(front)..]];
  }

  /** The names of the crates' own parser test, written as the kernel lists them. */
  lemma ParseXattrsExample()
    ensures NulKeys(JoinNul(["user.key1", "user.key2", "user.key3", "security.testing"]))
      == ["user.key1", "user.key2", "user.key3", "security.testing"]
  {
    NulKeysOfJoin(["user.key1", "user.key2", "user.key3", "security.testing"]);
  }

  /* ---------------------------------------------------------------------- */
  /* Size query and fill                                                     */
  /* ---------------------------------------------------------------------- */

  /** A size query's outcome: -1 with the OS error, or the size the data needs. */
  datatype SizeQuery = SizeFailed(error: IoError) | Size(size: nat)

  /** A fill's outcome: -1 with the OS error, or the bytes the kernel wrote. */
  datatype Fill = FillFailed(error: IoError) | Filled(data: Text)

  /**
   * `list_xattrs_raw` and `_get_xattr` (identical in both crates): query the
   * size, fill a buffer of that size, and give up with `changed` when the
   * fill returned a different count, since the data changed in between.
   * `fromIo` is the crate's `From<io::Error>`.
   */
  function SizedRead<E>(query: SizeQuery, fill: Fill, fromIo: IoError -> E, changed: E): (r: Result<Text, E>)
    ensures query.SizeFailed? ==> r == Err(fromIo(query.error))
    ensures query.Size? && fill.FillFailed? ==> r == Err(fromIo(fill.error))
    ensures r.Ok? <==> query.Size? && fill.Filled? && |fill.data| == query.size
    ensures r.Ok? ==> r.value == fill.data && |r.value| == query.size
    ensures query.Size? && fill.Filled? && |fill.data| != query.size ==> r == Err(changed)
  {
    match query
    case SizeFailed(e) => Err(fromIo(e))
    case Size(size) =>
      match fill
      case FillFailed(e) => Err(fromIo(e))
      case Filled(data) => if |data| != size then Err(changed) else Ok(data)
  }

  /** `list_xattrs_raw` / `_get_xattr` of `wutag_core`. */
  function CoreSizedRead(query: SizeQuery, fill: Fill): (r: Result<Text, CoreErrors.Error>)
    ensures query.SizeFailed? ==> r == Err(CoreErrors.FromIoError(query.error))
    ensures query.Size? && fill.Filled? && |fill.data| != query.size ==> r == Err(CoreErrors.AttrsChanged)
    ensures r.Ok? <==> query.Size? && fill.Filled? && |fill.data| == query.size
  {
    SizedRead(query, fill, CoreErrors.FromIoError, CoreErrors.AttrsChanged)
  }

  /** `list_xattrs_raw` / `_get_xattr` of the original crate. */
  function LegacySizedRead(query: SizeQuery, fill: Fill): (r: Result<Text, LegacyErrors.Error>)
    ensures query.SizeFailed? ==> r == Err(LegacyErrors.FromIoError(query.error))
    ensures query.Size? && fill.Filled? && |fill.data| != query.size ==> r == Err(LegacyErrors.AttrsChanged)
    ensures r.Ok? <==> query.Size? && fill.Filled? && |fill.data| == query.size
  {
    SizedRead(query, fill, LegacyErrors.FromIoError, LegacyErrors.AttrsChanged)
  }

  /** A fill that disagrees with its size query is reported as `AttrsChanged` in both crates. */
  lemma SizeMismatchIsAttrsChanged(size: nat, data: Text)
    requires |data| != size
    ensures CoreSizedRead(Size(size), Filled(data)) == Err(CoreErrors.AttrsChanged)
    ensures LegacySizedRead(Size(size), Filled(data)) == Err(LegacyErrors.AttrsChanged)
  {
  }

  /* ---------------------------------------------------------------------- */
  /* Listing names with their values                                         */
  /* ---------------------------------------------------------------------- */

  /**
   * Each name paired with its value, in order; the first name whose value
   * cannot be read makes the whole listing fail with that error.
   */
  function Pairs<E>(keys: seq<Text>, value: Text -> Result<Text, E>): (r: Result<seq<(Text, Text)>, E>)
    ensures r.Ok? ==> |r.value| == |keys|
    decreases |keys|
  {
    if keys == [] then Ok([])
    else
      match Pairs(keys[..|keys| - 1], value)
      case Err(e) => Err(e)
      case Ok(init) =>
        match value(keys[|keys| - 1])
        case Err(e) => Err(e)
        case Ok(v) => Ok(init + [(keys[|keys| - 1], v)])
  }

  /** A successful listing pairs every name with the value read for it. */
  lemma {:induction false} PairsOk<E>(keys: seq<Text>, value: Text -> Result<Text, E>, i: nat)
    requires Pairs(keys, value).Ok? && i < |keys|
    ensures value(keys[i]).Ok?
    ensures Pairs(keys, value).value[i] == (keys[i], value(keys[i]).value)
    decreases |keys|
  {
    if i < |keys| - 1 {
      PairsOk(keys[..|keys| - 1], value, i);
    }
  }

  /** The listing fails exactly when some value cannot be read, and with the first such error. */
  lemma {:induction false} PairsErr<E>(keys: seq<Text>, value: Text -> Result<Text, E>)
    ensures Pairs(keys, value).Err? <==> exists i | 0 <= i < |keys| :: value(keys[i]).Err?
    ensures Pairs(keys, value).Err? ==> exists i | 0 <= i < |keys| ::
      value(keys[i]).Err? && Pairs(keys, value).error == value(keys[i]).error
      && forall j | 0 <= j < i :: value(keys[j]).Ok?
    decreases |keys|
  {
    if keys != [] {
      var init := keys[..|keys| - 1];
      PairsErr(init, value);
      if Pairs(init, value).Err? {
        var i :| 0 <= i < |init| && value(init[i]).Err? && Pairs(init, value).error == value(init[i]).error
          && forall j | 0 <= j < i :: value(init[j]).Ok?;
        assert keys[i] == init[i];
        assert forall j | 0 <= j < i :: keys[j] == init[j];
      } else {
        assert forall i | 0 <= i < |init| :: keys[i] == init[i];
        if value(keys[|keys| - 1]).Err? {
          var i := |keys| - 1;
          assert forall j | 0 <= j < i :: keys[j] == init[j];
        }
      }
    }
  }

  /**
   * `_list_xattrs` (identical in both crates): the raw list is read, parsed,
   * and each name looked up in turn; the first failure is returned at once.
   */
  method ListXattrs<E>(raw: Result<Text, E>, value: Text -> Result<Text, E>) returns (r: Result<seq<(Text, Text)>, E>)
    ensures raw.Err? ==> r == Err(raw.error)
    ensures raw.Ok? ==> r == Pairs(NulKeys(raw.value), value)
  {
    if raw.Err? {
      return Err(raw.error);
    }
    var keys := ParseXattrs(raw.value);
    var attrs := [];
    var i := 0;
    while i < |keys|
      invariant 0 <= i <= |keys|
      invariant Pairs(keys[..i], value) == Ok(attrs)
    {
      assert keys[..i + 1][..i] == keys[..i];
      var v := value(keys[i]);
      if v.Err? {
        PairsStop(keys, value, i);
        return Err(v.error);
      }
      attrs := attrs + [(keys[i], v.value)];
      i := i + 1;
    }
    assert keys[..i] == keys;
    r := Ok(attrs);
  }

  /** Once the value of name `i` fails after `i` successes, the listing fails with it. */
  lemma {:induction false} PairsStop<E>(keys: seq<Text>, value: Text -> Result<Text, E>, i: nat)
    requires i < |keys| && Pairs(keys[..i], value).Ok? && value(keys[i]).Err?
    ensures Pairs(keys, value) == Err(value(keys[i]).error)
    decreases |keys|
  {
    if i == |keys| - 1 {
      assert keys[..|keys| - 1] == keys[..i];
    } else {
      assert keys[..|keys| - 1][..i] == keys[..i];
      PairsStop(keys[..|keys| - 1], value, i);
    }
  }

  /* ---------------------------------------------------------------------- */
  /* Which file a call affects                                               */
  /* ---------------------------------------------------------------------- */

  /** A file-system entry: a symbolic link names the path it points to. */
  datatype Node = RegularFile | Directory | Symlink(target: Text)

  /** The file system seen by the calls: the entry at each existing path. */
  type FileSystem = map<Text, Node>

  /** Links followed before the kernel gives up with `ELOOP` (Linux `MAXSYMLINKS`). */
  const MAX_HOPS: nat := 40
  const ENOENT: int := 2
  const ELOOP: int := 40
  const MSG_NOT_FOUND: Text := "No such file or directory"
  const MSG_LOOP: Text := "Too many levels of symbolic links"

  /** The path reached by following links from `path`, at most `hops` of them. */
  function Resolve(fs: FileSystem, path: Text, hops: nat): (r: Result<Text, IoError>)
    ensures r.Ok? ==> r.value in fs && !fs[r.value].Symlink?
    ensures path !in fs ==> r.Err? && r.error.kind == NotFound
    decreases hops
  {
    if path !in fs then Err(IoError(NotFound, Some(ENOENT), MSG_NOT_FOUND))
    else match fs[path]
      case Symlink(target) =>
        if hops == 0 then Err(IoError(OtherKind, Some(ELOOP), MSG_LOOP))
        else Resolve(fs, target, hops - 1)
      case _ => Ok(path)
  }

  /** `fs::metadata`: the entry reached after following every link. */
  function Metadata(fs: FileSystem, path: Text): (r: Result<Node, IoError>)
    ensures r.Ok? ==> !r.value.Symlink?
  {
    match Resolve(fs, path, MAX_HOPS)
    case Ok(p) => Ok(fs[p])
    case Err(e) => Err(e)
  }

  /** `fs::symlink_metadata`: the entry at the path itself, a link included. */
  function SymlinkMetadata(fs: FileSystem, path: Text): (r: Result<Node, IoError>)
    ensures r.Ok? <==> path in fs
    ensures r.Ok? ==> r.value == fs[path]
  {
    if path in fs then Ok(fs[path]) else Err(IoError(NotFound, Some(ENOENT), MSG_NOT_FOUND))
  }

  /**
   * `is_symlink` as `wutag_core` writes it: the file type from `fs::metadata`,
   * or `false` when that lookup fails. `fs::metadata` follows links, so it
   * never reports one, and every public call of `wutag_core`, which passes
   * this flag as its no-follow flag, follows a link to the file behind it.
   */
  function IsSymlinkAsWritten(fs: FileSystem, path: Text): (b: bool)
    ensures !b
  {
    match Metadata(fs, path)
    case Ok(node) => node.Symlink?
    case Err(_) => false
  }

  /**
   * `is_symlink` reading the entry itself, as the flag's name and comments
   * intend: the no-follow flag the public calls of `wutag_core` are meant to
   * pass.
   */
  function IsSymlink(fs: FileSystem, path: Text): (b: bool)
    ensures b <==> path in fs && fs[path].Symlink?
  {
    match SymlinkMetadata(fs, path)
    case Ok(node) => node.Symlink?
    case Err(_) => false
  }

  /**
   * The path whose attributes a call reaches: the path itself for the
   * no-follow calls (`lgetxattr` and friends, `XATTR_NOFOLLOW`), otherwise
   * the end of its chain of links.
   */
  function Affected(fs: FileSystem, path: Text, nofollow: bool): (r: Result<Text, IoError>)
    ensures r.Ok? ==> r.value in fs
  {
    if nofollow then
      if path in fs then Ok(path) else Err(IoError(NotFound, Some(ENOENT), MSG_NOT_FOUND))
    else Resolve(fs, path, MAX_HOPS)
  }

  /**
   * With the flag computed from the entry itself, a call of `wutag_core`
   * reaches the path it was given, link or not.
   */
  lemma CoreAffectsPathItself(fs: FileSystem, path: Text)
    requires path in fs
    ensures Affected(fs, path, IsSymlink(fs, path)) == Ok(path)
  {
  }

  /** With the flag as written, a link to a file is followed: its target is affected. */
  lemma CoreFollowsLinkAsWritten()
    ensures var fs := map["link" := Symlink("file"), "file" := RegularFile];
      Affected(fs, "link", IsSymlinkAsWritten(fs, "link")) == Ok("file")
  {
    var fs := map["link" := Symlink("file"), "file" := RegularFile];
    assert !IsSymlinkAsWritten(fs, "link");
  }

  /**
   * The original crate's two families of public functions: the `*_link_*`
   * ones pass `true` as the no-follow flag and reach the link itself; the
   * plain ones pass `false` and follow it.
   */
  lemma LegacyVariants(fs: FileSystem, path: Text)
    ensures Affected(fs, path, true) == (if path in fs then Ok(path) else Affected(fs, path, false))
    ensures Affected(fs, path, false) == Resolve(fs, path, MAX_HOPS)
  {
  }
}
