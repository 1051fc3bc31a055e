/** Where the daemon's local socket lives. */
module Ipc {
  import opened Wrappers
  import opened Text

  /** Which local-socket names the platform supports. */
  datatype NameTypeSupport = OnlyPaths | OnlyNamespaced | Both

  const SLASH: byte := '/'
  const AT: byte := '@'
  const SOCKET_PREFIX: Text := "wutag-"
  const SOCKET_SUFFIX: Text := ".sock"
  const TMP: Text := "/tmp"

  /**
   * `Path::join`: an absolute name replaces the base; otherwise a separator
   * is put between the two unless the base is empty or already ends in one.
   */
  function JoinPath(base: Text, name: Text): (r: Text)
    ensures |r| >= |name| && r[|r| - |name|..] == name
    ensures (|name| == 0 || name[0] != SLASH) ==> |r| >= |base| && r[..|base|] == base
    ensures |name| > 0 && name[0] == SLASH ==> r == name
  {
    if |name| > 0 && name[0] == SLASH then name
    else if base == [] || base[|base| - 1] == SLASH then base + name
    else base + [SLASH] + name
  }

  /** `socket_name`: a path under the base, or an abstract `@name`. */
  function SocketName(support: NameTypeSupport, base: Text, name: Text): (r: Text)
    ensures support == OnlyPaths ==> r == JoinPath(base, name)
    ensures support != OnlyPaths ==> |r| == |name| + 1 && r[0] == AT && r[1..] == name
  {
    match support
    case OnlyPaths => JoinPath(base, name)
    case _ => [AT] + name
  }

  /** The socket file name of a user. */
  function SocketFile(username: Text): Text
  {
    SOCKET_PREFIX + username + SOCKET_SUFFIX
  }

  /** The runtime directory, else the local data directory, else `/tmp`. */
  function SocketDir(runtimeDir: Option<Text>, dataLocalDir: Option<Text>): (r: Text)
    ensures runtimeDir.Some? ==> r == runtimeDir.value
    ensures runtimeDir.None? && dataLocalDir.Some? ==> r == dataLocalDir.value
    ensures runtimeDir.None? && dataLocalDir.None? ==> r == TMP
  {
    if runtimeDir.Some? then runtimeDir.value
    else if dataLocalDir.Some? then dataLocalDir.value
    else TMP
  }

  /**
   * `default_socket`, with the user name and the two directory lookups as
   * inputs.
   */
  function DefaultSocket(support: NameTypeSupport, username: Text, runtimeDir: Option<Text>, dataLocalDir: Option<Text>): (r: Text)
    ensures support != OnlyPaths ==> r == [AT] + SocketFile(username)
  {
    SocketName(support, SocketDir(runtimeDir, dataLocalDir), SocketFile(username))
  }

  /**
   * The default socket always ends in `wutag-<user>.sock`: on a path-only
   * platform it lies inside the chosen directory, since the file name is
   * relative; otherwise it is the abstract name and no directory matters.
   */
  lemma DefaultSocketShape(support: NameTypeSupport, username: Text, runtimeDir: Option<Text>, dataLocalDir: Option<Text>)
    ensures var r := DefaultSocket(support, username, runtimeDir, dataLocalDir);
      var file := SocketFile(username);
      |r| >= |file| && r[|r| - |file|..] == file
    ensures var r := DefaultSocket(support, username, runtimeDir, dataLocalDir);
      var dir := SocketDir(runtimeDir, dataLocalDir);
      support == OnlyPaths ==> |r| >= |dir| && r[..|dir|] == dir
    ensures support != OnlyPaths ==>
      DefaultSocket(support, username, runtimeDir, dataLocalDir) == [AT] + SocketFile(username)
  {
    var file := SocketFile(username);
    assert file[0] == 'w';
    var r := DefaultSocket(support, username, runtimeDir, dataLocalDir);
    if support != OnlyPaths {
      assert r == [AT] + file;
    }
  }
}
