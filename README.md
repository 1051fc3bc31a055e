# wutag, modelled in Dafny

wutag tags files with coloured tags. A tag is stored on the file itself: it is
an extended attribute in the `user.wutag` namespace. Three key formats
appear. In `wutag_core/src/tag.rs` the key is `user.wutag.` followed by the
base64 of the tag's raw name, and the value is empty. In
`wutag_core/tags.rs` the key is `user.wutag.` followed by the base64 of the
CBOR-encoded tag, and the value is empty. In the earlier crate
(`src/tags.rs`) the key is dotted: `user.wutag.`, the timestamp in seconds, a
hash of the tag's name and the colour's foreground code; the value is the
name. A tag registry maps entry ids to file paths and
each tag name to the ids it marks. A daemon serves tagging, untagging,
copying, clearing, inspecting and searching requests. These arrive as
length-prefixed CBOR frames over a local socket. The daemon writes the file's
attributes first and updates the registry only where that write succeeded.
It queues entry events for a watcher thread. The watcher (inotify, or the
`notify` crate) drops registry entries whose files are moved or deleted.

The model is in these modules:

- `Text`, `Numbers`, `Base64`, `Wrappers`: byte strings and their order, decimal
  numbers as Rust prints and parses them, and base64 as section 4 of RFC 4648
  defines it.
- `Colors`: the terminal colour codes and the hexadecimal colour parser.
- `Io`, `CoreErrors`, `LegacyErrors`: I/O errors and how each crate maps them
  to its own error type.
- `Xattr`: the NUL-separated attribute listing, the size-checked reads, the
  listing of key/value pairs, and which path a call reaches when links are
  involved.
- `AttrStore`: one file's attributes as an ordered list that the attribute
  calls change in place.
- `CoreTag`, `CborTag`, `LegacyTag`: the three tag types, with their keys,
  their saving, removal and listing on a file, and their decoding.
- `Registry`, `LegacyRegistry`: the two registries. Each is a class over maps,
  whose methods are proved equal to specification functions on snapshots.
- `Payload`, `Ipc`, `Client`: the framing of messages, the socket name, and
  how the client turns responses into results.
- `Events`, `Daemon`, `Notifyd`, `Inotifyd`: the event queues, the request
  handlers and the two watchers.

Calls into the operating system, the clock, CBOR and the hasher are
parameters of the model. A file-system outcome is passed in call by call,
so each handler is proved for every combination of outcomes.

## Model

| member | source | states |
|---|---|---|
| Colors.ColorFromFgStr | wutag_core/src/color.rs:24-57 | a direct colour is read only from a string starting `38;2;` |
| Colors.NamedFromOwnCode | wutag_core/src/color.rs:24-41 | a named result is read only from that colour's own two-digit code |
| Colors.DirectColor | wutag_core/src/color.rs:43-51 | a direct colour exactly when the three fields after `38;2;` parse as `u8`, built from those three values in order |
| Colors.NamedCodeRoundTrip | wutag_core/src/color.rs:26-41 | each of the sixteen codes 30-37 and 90-97 reads back as the colour it is written for |
| Colors.DirectCodeRoundTrip | src/util.rs:96-106 | `38;2;r;g;b` reads back as that direct colour, also with further `;` fields after it |
| Colors.FgCodeRoundTrip | src/util.rs:78-111 | every colour's code reads back as that colour |
| Colors.FgCodeInjective | src/util.rs:79-95 | distinct colours have distinct codes, so the named codes name distinct colours |
| Colors.FgCode | src/tags.rs:111 | `to_fg_str`: a two-byte code for each named colour, and a code starting `38;2;` for a direct colour; `FgCodeRoundTrip` reads every code back |
| Colors.HexVal | wutag_core/src/color.rs:59-66 | a digit's value is below 16, and a byte that is no hexadecimal digit reads as 0 |
| Colors.HexCharsToU8 | wutag_core/src/color.rs:68-74 | the result is 16 times the high digit's value plus the low digit's |
| Colors.ParseHex | wutag_core/src/color.rs:76-84 | three values exactly when there are at least six bytes, each value from its own pair of bytes |
| Colors.HexBody | wutag_core/src/color.rs:101-107 | one leading `0x` is stripped, else one `#`, else nothing |
| Colors.ParseColor | wutag_core/src/color.rs:89-116 | a direct colour exactly when the stripped body has six bytes, its three values from byte pairs 0-1, 2-3 and 4-5; otherwise `InvalidColor` carrying the whole input |
| Colors.HexValOfDigit | wutag_core/src/color.rs:59-66 | the digit of every value below 16, in either case, reads back as that value |
| Colors.HexPairValue | wutag_core/src/color.rs:68-74 | the two digits written for a byte read back as that byte |
| Colors.HexBodyAfterPrefix | wutag_core/src/color.rs:86-88 | after `0x`, after `#` or bare, six hexadecimal digits are the body |
| Colors.ParseColorHexRoundTrip | wutag_core/src/color.rs:86-116 | every colour written as six hexadecimal digits of either case, bare or after `#` or `0x`, parses back to itself |
| Colors.ParseColorAcceptsHexPrefix | wutag_core/src/color.rs:124-131 | `0xffffff` parses as white |
| Colors.ParseColorAcceptsHash | wutag_core/src/color.rs:132-139 | `#ffffff` parses as white |
| Colors.ParseColorAcceptsBare | wutag_core/src/color.rs:140-147 | `0ff00f` parses as (15, 240, 15) |
| Colors.ParseColorRejects | wutag_core/src/color.rs:150-157 | five or seven digits, with or without a prefix, are rejected |
| CoreErrors.FromIoError | wutag_core/src/lib.rs:42-53 | `AlreadyExists` gives `TagExists` whatever the raw code; otherwise raw 61 gives `TagNotFound("")`, raw 28 gives `TagListFull` carrying the error, anything else `Other` with its text |
| CoreErrors.Message | wutag_core/src/lib.rs:13-38 | every error's text is non-empty; the name of `TagNotFound` follows `tag` and an opening backtick, and the key, I/O text or detail of `InvalidTagKey`, `Other` and `InvalidString` follows that error's fixed prefix |
| LegacyErrors.FromIoError | src/lib.rs:24-35 | `NotFound` gives `FileNotFound`, then `AlreadyExists` gives `TagExists`, then raw 61 gives `TagNotFound`, anything else `Other` with its text |
| Xattr.LastStart | wutag_core/xattr/unix.rs:300-316 | the position after the last NUL: no NUL follows it, and a NUL precedes it unless it is 0 |
| Xattr.ParseXattrs | wutag_core/xattr/unix.rs:300-316 | the loop over the buffer returns exactly the NUL-terminated keys, in order |
| Xattr.ParseXattrsLegacy | src/xattr/unix.rs:330-347 | the `while let` parser always succeeds, with the same keys |
| Xattr.NulKeysCount | wutag_core/xattr/unix.rs:304-313 | one key per NUL byte |
| Xattr.NulKeys | wutag_core/xattr/unix.rs:300-315 | a buffer without a NUL holds no name (`NulKeysCount` gives one per NUL) |
| Xattr.NulKeysHaveNoNul | wutag_core/xattr/unix.rs:305-311 | no key contains a NUL |
| Xattr.NulKeysRebuild | wutag_core/xattr/unix.rs:300-316 | each key followed by a NUL, concatenated, gives the input up to and including its last NUL |
| Xattr.NulKeysAppendPlain | src/xattr/unix.rs:335-344 | bytes after the last NUL are dropped |
| Xattr.NulKeysOfJoin | wutag_core/xattr/unix.rs:300-316 | NUL-free keys, each terminated by a NUL, parse back to themselves |
| Xattr.ParseXattrsExample | wutag_core/xattr/unix.rs:318-333 | the buffer of the crate's test parses as `user.key1`, `user.key2`, `user.key3`, `security.testing` |
| Xattr.SizedRead | wutag_core/xattr/unix.rs:276-298 | a failed size query or fill is the I/O error; a fill whose byte count differs from the queried size is the "changed" error; otherwise the filled bytes |
| Xattr.CoreSizedRead | wutag_core/xattr/unix.rs:202-234 | `wutag_core`'s reads: a failed size query is its `From<io::Error>` of the error, a fill of another size is `AttrsChanged`, and success exactly when the fill has the queried size |
| Xattr.LegacySizedRead | src/xattr/unix.rs:306-328 | the original crate's reads: the same, with its own error type |
| Xattr.SizeMismatchIsAttrsChanged | src/xattr/unix.rs:306-328 | a size mismatch is `AttrsChanged` in both crates |
| Xattr.Pairs | wutag_core/xattr/unix.rs:238-250 | on success, one pair per key |
| Xattr.PairsOk | wutag_core/xattr/unix.rs:245-247 | on success, the i-th pair is the i-th key with its value |
| Xattr.PairsErr | src/xattr/unix.rs:266-278 | the pairing fails exactly when some key's value lookup fails, with the first such error |
| Xattr.ListXattrs | wutag_core/xattr/unix.rs:238-250 | a failed raw listing is the error; otherwise the keys parsed from the buffer paired with their values |
| Xattr.PairsStop | src/xattr/unix.rs:274-276 | the first failing lookup ends the pairing with its error |
| Xattr.Resolve | wutag_core/xattr/unix.rs:84-86 | following links ends at an existing non-link, and a missing path is `NotFound` |
| Xattr.Metadata | wutag_core/xattr/unix.rs:18-24 | `fs::metadata` never reports a link |
| Xattr.SymlinkMetadata | wutag_core/xattr/unix.rs:18-24 | the entry at the path itself, links included |
| Xattr.IsSymlinkAsWritten | wutag_core/xattr/unix.rs:18-24 | `is_symlink` as written is false for every path, since `fs::metadata` follows links |
| Xattr.IsSymlink | wutag_core/xattr/unix.rs:18-24 | the corrected no-follow flag: true exactly when the path itself is a link |
| Xattr.Affected | wutag_core/xattr/unix.rs:76-154 | the no-follow calls reach the path itself, the others the end of its links; either way an existing entry |
| Xattr.CoreAffectsPathItself | wutag_core/xattr/unix.rs:28-69 | with the corrected flag every public call reaches the path it was given |
| Xattr.CoreFollowsLinkAsWritten | wutag_core/xattr/unix.rs:28-69 | with the flag as written, a call on a link to a file reaches the file |
| Xattr.LegacyVariants | src/xattr/unix.rs:19-98 | the `*_link_*` functions pass `true` and reach the link itself, the plain ones pass `false` and follow it |
| AttrStore.IndexOfKey | wutag_core/src/tag.rs:88-94 | the first position holding the key, or none when no attribute has it |
| AttrStore.SetOutcome | wutag_core/xattr/unix.rs:174-200 | a name or value holding a NUL is refused with `InvalidString` before any system call, the name checked first; otherwise a create-only write appends the pair exactly when the key is new and the write is not refused, and an existing key is `TagExists`; every refusal leaves the attributes as they were |
| AttrStore.FirstNul | wutag_core/xattr/unix.rs:182-183 | no position exactly when the bytes hold no NUL; otherwise the position of the first NUL |
| AttrStore.NulRefusal | wutag_core/src/lib.rs:22-23 | an `InvalidString` whose text, after its fixed prefix, is the decimal position of the first NUL |
| AttrStore.RemoveOutcome | wutag_core/xattr/unix.rs:160-172 | a removal deletes exactly the attribute with the key when it exists and is not refused; a missing key is `TagNotFound("")` |
| AttrStore.SetKeepsKeysUnique | wutag_core/xattr/unix.rs:102-113 | writing keeps keys distinct, and a successful write makes the key present |
| AttrStore.IndexOfKeyFirst | wutag_core/src/tag.rs:88-94 | the first attribute with the key is the one found |
| AttrStore.RemoveDeletesKey | wutag_core/xattr/unix.rs:160-172 | removal keeps keys distinct, and after a successful removal the key is gone |
| AttrStore.Listed | wutag_core/src/tag.rs:175-191 | the tags listed are no more than the attributes |
| AttrStore.Decoded | wutag_core/src/tag.rs:165 | the decodable attributes of any namespace, no more than the attributes |
| AttrStore.ListedMembers | wutag_core/src/tag.rs:179-190 | a tag is listed exactly when some attribute in the `user.wutag` namespace decodes to it |
| AttrStore.NamespacedKeysSpec | wutag_core/src/tag.rs:217-220 | the keys cleared are exactly the keys of the namespaced attributes |
| AttrStore.ClearRemovesNamespace | wutag_core/src/tag.rs:212-225 | when no removal is refused, clearing leaves exactly the attributes of other namespaces and succeeds |
| AttrStore.ClearedFileTakesAnyKey | wutag_daemon/src/daemon.rs:63-79 | clearing a new entry's file before tagging it: after a clear with no refusal the file lists no tag, so `save_to`'s `TagExists` check passes, and a NUL-free wutag key is then written unless the system refuses it |
| AttrStore.ClearSkipsForeign | wutag_core/src/tag.rs:217-220 | an attribute whose key is not among those cleared stays, in front of the cleared rest |
| AttrStore.NamespacedKeys | wutag_core/src/tag.rs:217-220 | no more keys than attributes (`NamespacedKeysSpec` says which) |
| AttrStore.Foreign | wutag_core/src/tag.rs:217-220 | only attributes of the list, none of them in the `user.wutag` namespace, and no more of them |
| AttrStore.ClearOutcome | wutag_core/src/tag.rs:217-222 | removal never adds attributes, and when no removal is refused exactly one attribute goes per key |
| AttrStore.ClearNamespacedHead | wutag_core/src/tag.rs:217-222 | a namespaced first attribute whose removal succeeds is cleared first, and the rest clears as before |
| AttrStore.ClearForeignHead | wutag_core/src/tag.rs:217-222 | a foreign first attribute with a key of its own stays, and the rest clears as before |
| AttrStore.RemoveSkipsForeign | wutag_core/src/tag.rs:221 | removing a key leaves an attribute with another key in front, and removes from the rest as before |
| AttrStore.AttrFile.constructor | wutag_core/xattr/unix.rs:238-250 | a file holds the given attributes with distinct keys |
| AttrStore.AttrFile.ListTags | wutag_core/src/tag.rs:175-191 | a failed listing is the error; otherwise the namespaced attributes that decode, in order |
| AttrStore.AttrFile.HasTags | wutag_core/src/tag.rs:230-235 | true exactly when the listing is non-empty |
| AttrStore.AttrFile.SaveTo | wutag_core/src/tag.rs:67-78 | `TagExists` and no change when a listed tag has the name; otherwise the key is written with the given value |
| AttrStore.AttrFile.RemoveFirst | src/tags.rs:130-142 | the first matching attribute is removed; with none the given not-found error and no change |
| AttrStore.AttrFile.ClearTags | wutag_core/src/tag.rs:212-225 | every namespaced key is removed in order, stopping at the first refusal |
| AttrStore.FirstMatch | src/tags.rs:134-139 | the first position matching, or none when nothing matches |
| AttrStore.FirstMatchIs | src/tags.rs:134-139 | the first matching position is the one found |
| AttrStore.FirstNamed | wutag_core/src/tag.rs:165-169 | the first tag with the name, no earlier tag having it, or none when no tag has it |
| AttrStore.FirstNamedDecoded | wutag_core/src/tag.rs:165-169 | among decoded attributes the tag found comes from the first attribute that decodes to a tag of that name, and none is found exactly when no attribute does |
| CoreTag.Equals | wutag_core/src/tag.rs:117-121 | two tags are equal exactly when they differ at most in colour |
| CoreTag.Cmp | wutag_core/src/tag.rs:111-115 | the order calls two tags equal exactly when `Equals` does, and swapping them reverses it |
| CoreTag.IdentityIsTheName | wutag_core/src/tag.rs:111-127 | equality and ordering depend on the name only; the hash input is the name; a change of colour changes neither |
| CoreTag.SetColor | wutag_core/src/tag.rs:59-61 | the colour is replaced and the tag stays equal to the original |
| CoreTag.Key | wutag_core/src/tag.rs:63-65 | the key starts with `user.wutag.` |
| CoreTag.KeyIdentifiesName | wutag_core/src/tag.rs:63-65 | two tags have the same key exactly when they have the same name, whatever their colours |
| CoreTag.TryFrom | wutag_core/src/tag.rs:136-156 | `InvalidTagKey` unless the text before the first `wutag.` is `user.` and a piece follows; a success is the CBOR decoding of the base64 decoding of that piece |
| CoreTag.EncodedKeySplits | wutag_core/src/tag.rs:141 | a key built from base64 splits into `user.` and the base64 text |
| CoreTag.TryFromEncodedKey | wutag_core/src/tag.rs:151-153 | decoding such a key hands exactly the encoded bytes to the CBOR decoder |
| CoreTag.TryFromKey | wutag_core/src/tag.rs:63-65 | the key written for a tag reads back only as whatever CBOR makes of the raw name bytes |
| CoreTag.ListTags | wutag_core/src/tag.rs:175-191 | the namespaced attributes that decode, in order |
| CoreTag.HasTags | wutag_core/src/tag.rs:230-235 | true exactly when that listing is non-empty |
| CoreTag.SaveTo | wutag_core/src/tag.rs:67-78 | `TagExists` and no write when a listed tag has the same name; otherwise the key is created with an empty value |
| CoreTag.RemoveFrom | wutag_core/src/tag.rs:82-97 | the attribute with the tag's key is removed; with none, `TagNotFound(name)` and no change |
| CoreTag.FirstMatchIsIndexOfKey | wutag_core/src/tag.rs:88-94 | the first attribute whose key equals the tag's key is the key's position |
| CoreTag.ClearTags | wutag_core/src/tag.rs:212-225 | every namespaced attribute is removed in order, stopping at the first refusal |
| CoreTag.GetTag | wutag_core/src/tag.rs:158-172 | the tag of the first attribute, of any namespace, that decodes to a tag with that name; otherwise `TagNotFound(name)` and no attribute decodes to one |
| CborTag.Equals | wutag_core/tags.rs:165-169 | two tags are equal exactly when they differ at most in timestamp and colour |
| CborTag.Cmp | wutag_core/tags.rs:159-163 | the order calls two tags equal exactly when `Equals` does, and swapping them reverses it |
| CborTag.IdentityIsTheName | wutag_core/tags.rs:159-175 | equality and ordering depend on the name only, not on timestamp or colour |
| CborTag.SetColor | wutag_core/tags.rs:102-113 | the colour is replaced, the timestamp refreshed and the name kept |
| CborTag.Key | wutag_core/tags.rs:115-119 | a failed serialisation is `TagSerDeError`; otherwise `user.wutag.` followed by base64 of the whole serialised tag |
| CborTag.KeyIdentifiesEncoding | wutag_core/tags.rs:115-119 | two keys are equal exactly when the serialisations are, so timestamp and colour matter |
| CborTag.KeyRoundTrip | wutag_core/tags.rs:184-204 | when the CBOR decoder inverts the encoder, the key written for a tag reads back as that tag |
| CborTag.ListTags | wutag_core/tags.rs:225-243 | the namespaced attributes that decode, in order |
| CborTag.HasTags | wutag_core/tags.rs:284-289 | true exactly when that listing is non-empty |
| CborTag.SaveTo | wutag_core/tags.rs:122-132 | `TagExists` and no write when a listed tag has the same name; otherwise the key is created with an empty value |
| CborTag.RemoveFrom | wutag_core/tags.rs:136-150 | a serialisation failure or listing failure is the error; otherwise only the attribute whose key is the full encoded key is removed, else `TagNotFound(name)` |
| CborTag.RemoveNeedsSameEncoding | wutag_core/tags.rs:136-150 | a same-named tag stored with another encoding is not found |
| CborTag.ClearTags | wutag_core/tags.rs:266-279 | every namespaced attribute is removed in order, stopping at the first refusal |
| CborTag.GetTag | wutag_core/tags.rs:206-222 | the tag of the first attribute, of any namespace, that decodes to a tag with that name; otherwise `TagNotFound(name)` and no attribute decodes to one |
| LegacyTag.Equals | src/tags.rs:157-161 | two tags are equal exactly when they differ at most in timestamp and colour |
| LegacyTag.Cmp | src/tags.rs:151-155 | the order calls two tags equal exactly when `Equals` does, and swapping them reverses it |
| LegacyTag.IdentityIsTheName | src/tags.rs:151-167 | equality and ordering depend on the name only, not on timestamp or colour |
| LegacyTag.XattrName | src/tags.rs:105-113 | the key starts with `user.wutag.` |
| LegacyTag.TryFrom | src/tags.rs:176-221 | success exactly when the dot-separated key reads `user`, `wutag`, an i64, a u64 and a colour code; the tag has that timestamp and colour and the attribute value as name; every failure is `InvalidTagKey`; a bad timestamp gives `invalid timestamp - ` followed by the integer parser's reason, and a bad hash that reason alone |
| LegacyTag.TryFromReportsBadTimestamp | src/tags.rs:199-205 | `user.wutag.x.1.31` fails with `invalid timestamp - invalid digit found in string` |
| LegacyTag.TryFromReportsEmptyHash | src/tags.rs:207-209 | `user.wutag.5..31` fails with `cannot parse integer from empty string` |
| LegacyTag.FgCodeHasNoDot | src/tags.rs:111 | no colour code contains a dot |
| LegacyTag.XattrNameFields | src/tags.rs:105-113 | the written key splits into namespace, timestamp, hash and colour code |
| LegacyTag.XattrNameDecodes | src/tags.rs:176-221 | a written key decodes to the tag's timestamp and colour with the attribute value as name |
| LegacyTag.XattrRoundTrip | src/tags.rs:116-126 | what `save_to` writes (key and name as value) reads back as the tag |
| LegacyTag.ListTags | src/tags.rs:240-258 | the namespaced attributes that decode, in order |
| LegacyTag.HasTags | src/tags.rs:329-334 | true exactly when that listing is non-empty |
| LegacyTag.SaveTo | src/tags.rs:116-126 | `TagExists` and no write when a listed tag has the same name; otherwise the key is created with the name as value, so a name holding a NUL is refused with `InvalidString` and nothing is written (src/xattr/unix.rs:202-228) |
| LegacyTag.SaveRefusesNulName | src/xattr/unix.rs:202-211 | a tag whose name holds a NUL is refused with `InvalidString` and the attributes stay as they were |
| LegacyTag.RemoveFrom | src/tags.rs:130-142 | the first namespaced attribute whose value is the name is removed; with none, `TagNotFound(name)` and no change |
| LegacyTag.ClearTags | src/tags.rs:282-294 | every namespaced attribute is removed in order, stopping at the first refusal |
| LegacyTag.GetTag | src/tags.rs:223-237 | the decoding of the first attribute of any namespace whose value is the name, error included; `TagNotFound(name)` when none has it |
| Base64.Encode | wutag_core/src/tag.rs:63-65 | four symbols per started group of three bytes |
| Base64.DecodeEncode | wutag_core/src/tag.rs:152 | decoding the encoding of any bytes gives them back |
| Base64.Decode | wutag_core/src/tag.rs:152 | strict decoding: a length that is not a multiple of four fails, and each group of four symbols gives three bytes, the last group one to three |
| Base64.EncodeWithout | wutag_core/src/tag.rs:141 | an encoding contains no byte outside the alphabet and padding, so no `.` |
| Base64.EncodeInjective | wutag_core/src/tag.rs:63-65 | distinct bytes have distinct encodings |
| Numbers.DecimalText | src/tags.rs:109-110 | decimal digits whose value is the number |
| Numbers.SignedText | src/tags.rs:109 | a leading `-` exactly for a negative number |
| Numbers.ParseUnsigned | src/tags.rs:207-209 | a parsed value is within the type's bound |
| Numbers.ParseSigned | src/tags.rs:199-205 | a parsed value is within the type's bounds |
| Numbers.IntErrorText | src/tags.rs:199-209 | the `Display` text of each kind of integer parse error, never empty |
| Numbers.ScanDigits | src/tags.rs:207-209 | the digit loop stops with an error exactly when some byte is not a digit or the value passes the bound; the error is an invalid digit or an overflow |
| Numbers.UnsignedError | src/tags.rs:207-209 | a reason exactly when unsigned parsing fails; `Empty` exactly for the empty string; never a negative overflow |
| Numbers.SignedError | src/tags.rs:199-205 | a reason exactly when signed parsing fails; `Empty` exactly for the empty string; a negative overflow only after a `-` |
| Numbers.ParseUnsignedDecimal | src/tags.rs:207-209 | a number written in decimal within the bound parses back |
| Numbers.ParseSignedText | src/tags.rs:199-205 | a signed number written in decimal within the bounds parses back |
| Text.StripPrefix | wutag_core/src/color.rs:101-103 | a remainder exactly when the prefix is there, and prefix plus remainder is the input |
| Text.IndexFrom | src/tags.rs:181 | the first occurrence of the pattern at or after the start, or none |
| Text.Split | src/tags.rs:181 | `str::split` gives at least one piece |
| Text.JoinSplit | src/tags.rs:181 | joining the split pieces with the separator gives the input back |
| Text.CompareEqual | wutag_core/src/tag.rs:111-115 | byte-wise comparison says equal exactly for equal names |
| Text.Compare | wutag_core/src/tag.rs:111-115 | `String`'s ordering: a proper prefix sorts before the longer string |
| Text.CompareAntisymmetric | wutag_core/src/tag.rs:111-115 | swapping the operands reverses the comparison |
| Text.CompareTransitive | wutag_core/src/tag.rs:111-115 | the comparison is transitive |
| Registry.Tagged | wutag_core/src/registry.rs:111-132 | the tag's id set gains the id, a new tag takes the given colour and a known one keeps its own, other tags and the entries are untouched, and the answer is `Some(id)` exactly when the id was already marked |
| Registry.Untagged | wutag_core/src/registry.rs:134-158 | the tag's set loses the id and the tag goes once empty, other tags are untouched, and the entry is removed and returned exactly when no tag marks it any more |
| Registry.Cleared | wutag_core/src/registry.rs:167-182 | the entry goes, every tag's set loses the id, and exactly the tags left empty disappear |
| Registry.EntryRemoved | wutag_core/src/registry.rs:184-186 | only the entry goes; its data is returned exactly when it was present |
| Registry.ColorUpdated | wutag_core/src/registry.rs:310-321 | answers true exactly when the tag exists; then only that tag's colour changes, otherwise nothing does |
| Registry.GetTag | wutag_core/src/registry.rs:305-308 | a tag is found exactly when the name is known, and it carries the registry's colour |
| Registry.GetEntry | wutag_core/src/registry.rs:300-303 | the entry's data exactly when the id is present |
| Registry.ListEntryTags | wutag_core/src/registry.rs:196-213 | none exactly when no tag marks the id; otherwise exactly the tags that mark it |
| Registry.AnyTags | wutag_core/src/registry.rs:234-253 | an id belongs exactly when some named tag marks it |
| Registry.Ascending | wutag_core/src/registry.rs:252 | a set listed once each, in strictly ascending order (the `BTreeSet` iteration) |
| Registry.ListEntriesWithAnyTags | wutag_core/src/registry.rs:234-253 | ascending, and an id is listed exactly when some known name's tag marks it |
| Registry.ListEntriesWithAllTagsAsWritten | wutag_core/src/registry.rs:255-278 | ascending, and holds exactly the fold as written, which restarts from the next tag's set whenever the running intersection is empty |
| Registry.ListEntriesWithAllTags | wutag_core/src/registry.rs:255-278 | ascending, and holds exactly the intended intersection of the known names' sets |
| Registry.AllTagsFold | wutag_core/src/registry.rs:261-275 | the running intersection only shrinks |
| Registry.AllTagsAsWritten | wutag_core/src/registry.rs:261-275 | the fold as written leaves its accumulator as it is when no name is known |
| Registry.AllTagsMembers | wutag_core/src/registry.rs:255-278 | an id is in the intended answer exactly when some name is known and every known name marks it |
| Registry.AllTagsFoldMembers | wutag_core/src/registry.rs:261-275 | for any accumulator the fold yields a set exactly when the accumulator or some name is known, holding what the accumulator and every known name's set hold |
| Registry.AllTagsAsWrittenAgrees | wutag_core/src/registry.rs:255-278 | the fold as written agrees with the intended answer whenever that answer is not empty |
| Registry.AllTagsAsWrittenPair | wutag_core/src/registry.rs:255-278 | for two known tags the query as written is the intersection of their sets |
| Registry.AllTagsAsWrittenRestarts | wutag_core/src/registry.rs:268-272 | tags a={1}, b={2}, c={3}: the query as written gives {3} where the intended answer is empty |
| Registry.DropEmptyIsCleared | wutag_core/src/registry.rs:170-179 | stripping the id from every set and then dropping the emptied tags gives exactly `Cleared`'s tags |
| Registry.TaggedKeepsValid | wutag_core/src/registry.rs:123-132 | tagging keeps the registry well formed (no empty tag, no two entries with one path) |
| Registry.UntaggedKeepsValid | wutag_core/src/registry.rs:148-158 | untagging keeps the registry well formed |
| Registry.ClearedKeepsValid | wutag_core/src/registry.rs:168-182 | clearing an entry keeps the registry well formed |
| Registry.RemoveAndRecolorKeepValid | wutag_core/src/registry.rs:184-186 | removing an entry and recolouring a tag keep the registry well formed |
| Registry.AddedKeepsValid | wutag_core/src/registry.rs:87-109 | adding or updating keeps the registry well formed, leaves the entry under the returned id, and an update returns the only id holding that data |
| Registry.TagIdempotent | wutag_core/src/registry.rs:123-132 | tagging twice, whatever the second colour, answers `Some(id)` and changes nothing the second time |
| Registry.UntagUndoesTag | wutag_core/src/registry.rs:123-158 | untagging an id the tag did not mark before tagging gives the tags back unchanged |
| Registry.ClearedOnlyTouchesId | wutag_core/src/registry.rs:167-182 | after clearing, no tag marks the id, and every other id keeps exactly its tags |
| Registry.UntagLastTagRemovesEntry | wutag_core/src/registry.rs:386-404 | the unit test: an entry tagged once and then untagged is returned and leaves neither tags nor entries |
| Registry.TagRegistry.constructor | wutag_core/src/registry.rs:58-64 | an empty registry |
| Registry.TagRegistry.Clear | wutag_core/src/registry.rs:80-84 | no tags and no entries are left |
| Registry.TagRegistry.FindEntry | wutag_core/src/registry.rs:188-194 | a found id holds the path; none means no entry holds it |
| Registry.TagRegistry.AddOrUpdateEntry | wutag_core/src/registry.rs:86-109 | an entry equal to the given one keeps its id and nothing is added; otherwise it goes in under the fresh id |
| Registry.TagRegistry.TagEntry | wutag_core/src/registry.rs:111-132 | new state and answer are `Tagged` of the old state |
| Registry.TagRegistry.UntagEntry | wutag_core/src/registry.rs:134-158 | new state and answer are `Untagged` of the old state |
| Registry.TagRegistry.UntagByName | wutag_core/src/registry.rs:160-165 | an unknown name changes nothing and answers none; a known one untags the registry's tag of that name |
| Registry.TagRegistry.ClearEntry | wutag_core/src/registry.rs:167-182 | the new state is `Cleared` of the old one |
| Registry.TagRegistry.RemoveEntry | wutag_core/src/registry.rs:184-186 | new state and answer are `EntryRemoved` of the old state |
| Registry.TagRegistry.UpdateTagColor | wutag_core/src/registry.rs:310-321 | new state and answer are `ColorUpdated` of the old state |
| LegacyRegistry.Position | src/registry.rs:112 | the first position holding the id, and none exactly when the vector lacks it |
| LegacyRegistry.RemoveFirst | src/registry.rs:112-113 | a vector without the id is unchanged; one with it loses exactly one element |
| LegacyRegistry.RemoveFirstDropsOne | src/registry.rs:112-113 | removing the first occurrence takes exactly one copy of the id out of the vector's multiset |
| LegacyRegistry.Tagged | src/registry.rs:84-105 | the tag's key is created if missing, the id is appended unless already listed, other tags and the entries are untouched, and the answer is `Some(id)` exactly when it was listed |
| LegacyRegistry.Untagged | src/registry.rs:107-120 | the tag's key is created if missing and its vector loses the first copy of the id; the entry is removed, and returned, exactly when the id was listed, no tag lists it any more and the entry exists |
| LegacyRegistry.Cleared | src/registry.rs:129-137 | the entry goes and every tag keeps its key while its vector loses the first copy of the id |
| LegacyRegistry.ClearedFrom | src/registry.rs:131-135 | removing the id from each tag's vector in turn gives exactly `Cleared`'s tags |
| LegacyRegistry.ColorUpdated | src/registry.rs:219-230 | answers true exactly when the tag exists; then only that tag is recoloured (and re-stamped, as `set_color` does), otherwise nothing changes |
| LegacyRegistry.GetTag | src/registry.rs:214-217 | the stored tag exactly when the name is known |
| LegacyRegistry.ListEntryTags | src/registry.rs:147-164 | none exactly when no tag lists the id; otherwise exactly the tags listing it |
| LegacyRegistry.Gathered | src/registry.rs:172-182 | an id appears exactly when some known name's vector lists it |
| LegacyRegistry.GatheredConcat | src/registry.rs:172-182 | gathering over two lists of names is gathering over each, one after the other |
| LegacyRegistry.GatheredFold | src/registry.rs:172-182 | the fold step: a further name extends what was gathered by its vector, an unknown name by nothing |
| LegacyRegistry.Dedup | src/registry.rs:184 | keeps exactly the same members, leaves no two equal neighbours, never grows, and keeps the first element |
| LegacyRegistry.ListEntriesWithTags | src/registry.rs:166-187 | an id appears exactly when some known name lists it (a union, despite the doc comment), with no two equal neighbours; the order is that of `GatheredFold`, with the repeats `DedupCollapse` removes |
| LegacyRegistry.DedupKeeps | src/registry.rs:184 | a vector without equal neighbours is left as it is |
| LegacyRegistry.DedupCollapse | src/registry.rs:184 | a pair of equal neighbours anywhere collapses to one; with `DedupKeeps` this fixes the result on every vector |
| LegacyRegistry.ListEntriesWithTagsRepeats | src/registry.rs:166-187 | tags a=[1, 2] and b=[1]: the query answers [1, 2, 1], listing entry 1 twice |
| LegacyRegistry.RemoveFirstKeepsDistinct | src/registry.rs:112-113 | in a vector without repeats, removing the id's first copy leaves it absent and still without repeats |
| LegacyRegistry.TaggedKeepsNoDuplicates | src/registry.rs:96-105 | tagging keeps every tag's vector free of repeats |
| LegacyRegistry.UntaggedKeepsNoDuplicates | src/registry.rs:109-120 | untagging keeps every vector free of repeats |
| LegacyRegistry.ClearedUnlists | src/registry.rs:129-137 | with vectors free of repeats, clearing leaves no tag listing the id and keeps every key |
| LegacyRegistry.TaggedKeepsKeysMatch | src/registry.rs:84-105 | tagging keeps each key equal to its stored tag's name |
| LegacyRegistry.UntaggedKeepsKeysMatch | src/registry.rs:107-120 | untagging keeps each key equal to its stored tag's name |
| LegacyRegistry.ClearedAndRecolorKeepKeysMatch | src/registry.rs:129-137 | clearing and recolouring keep each key equal to its stored tag's name |
| LegacyRegistry.TagIdempotent | src/registry.rs:96-105 | tagging twice answers `Some(id)` the second time and changes nothing |
| LegacyRegistry.UntagAbsentKeepsEntries | src/registry.rs:107-120 | untagging an id the tag does not list answers none and only adds the tag's (empty) key |
| LegacyRegistry.KeysNeverShrink | src/registry.rs:84-137 | no mutator removes a tag's key, so emptied tags stay in the registry |
| LegacyRegistry.TagRegistry.constructor | src/registry.rs:37-43 | an empty registry |
| LegacyRegistry.TagRegistry.FindEntry | src/registry.rs:139-145 | a found id holds the path; none means no entry holds it |
| LegacyRegistry.TagRegistry.AddOrUpdateEntry | src/registry.rs:59-82 | tags untouched; an entry equal to the given one keeps its id, otherwise it goes in under the fresh id |
| LegacyRegistry.TagRegistry.TagEntry | src/registry.rs:94-105 | new state and answer are `Tagged` of the old state |
| LegacyRegistry.TagRegistry.UntagEntry | src/registry.rs:107-120 | new state and answer are `Untagged` of the old state |
| LegacyRegistry.TagRegistry.UntagByName | src/registry.rs:122-127 | an unknown name changes nothing and answers none; a known one untags the stored tag of that name |
| LegacyRegistry.TagRegistry.ClearEntry | src/registry.rs:129-137 | the new state is `Cleared` of the old one |
| LegacyRegistry.TagRegistry.UpdateTagColor | src/registry.rs:219-230 | new state and answer are `ColorUpdated` of the old state |
| Payload.ToResult | wutag_ipc/src/payload.rs:21-33 | a success keeps its value, and an error becomes exactly the converter applied to the inner error |
| Payload.ToResultLosesNothing | wutag_ipc/src/payload.rs:24-32 | with the identity converter, converting and converting back gives the original result |
| Payload.Pow256Eight | wutag_ipc/src/payload.rs:60 | the 8-byte length prefix holds exactly the values up to the 64-bit maximum |
| Payload.BigEndian | wutag_ipc/src/payload.rs:60 | the big-endian encoding has the requested width |
| Payload.FromBigEndian | wutag_ipc/src/payload.rs:72 | the value decoded from k bytes is below 256 to the k |
| Payload.FromBigEndianInverse | wutag_ipc/src/payload.rs:60-72 | decoding the big-endian encoding of a value that fits gives the value back |
| Payload.BigEndianInverse | wutag_ipc/src/payload.rs:60-72 | encoding a decoded prefix at its own width gives the same bytes back |
| Payload.Frame | wutag_ipc/src/payload.rs:59-66 | eight bytes whose big-endian value is the payload's length, followed by the payload |
| Payload.Unframe | wutag_ipc/src/payload.rs:68-78 | a read error, consuming the stream, exactly when the stream is shorter than the prefix or than the length it announces; otherwise the stream is the frame of the payload read followed by the rest |
| Payload.FramedPrefix | wutag_ipc/src/payload.rs:68-78 | a stream long enough for its announced length splits into a frame and the rest |
| Payload.UnframeFrame | wutag_ipc/src/payload.rs:59-78 | reading a framed payload gives back the payload and leaves what followed it |
| Payload.FromPayload | wutag_ipc/src/payload.rs:42-46 | a deserialize error exactly when decoding fails, otherwise the decoded value |
| Payload.Received | wutag_ipc/src/payload.rs:53-56 | a read error when the frame is incomplete, otherwise the payload decoded; the rest of the stream is what unframing leaves |
| Payload.ReadWhatWasSent | wutag_ipc/src/payload.rs:35-78 | a value encoded, framed and read back, with a decoder that inverts the encoder, arrives intact and leaves the rest of the stream |
| Payload.Connection.constructor | wutag_ipc/src/payload.rs:48-56 | a connection with the given incoming bytes and nothing written |
| Payload.Connection.ReadExact | wutag_ipc/src/payload.rs:70-77 | succeeds exactly when enough bytes are pending; then the buffer holds the next bytes and they are consumed |
| Payload.Connection.WriteAll | wutag_ipc/src/payload.rs:63 | succeeds exactly when the write does not fail; then the bytes are appended to what was written |
| Payload.SendPayload | wutag_ipc/src/payload.rs:59-66 | writes exactly the frame of the payload, or answers a write error |
| Payload.ReadPayload | wutag_ipc/src/payload.rs:68-78 | answer and remaining stream are `Unframe` of the stream before |
| Payload.Send | wutag_ipc/src/payload.rs:35-51 | a serialize error writes nothing; otherwise the frame of the encoding is written, or a write error answered |
| Payload.Read | wutag_ipc/src/payload.rs:53-56 | answer and remaining stream are `Received` of the stream before |
| Ipc.JoinPath | wutag_ipc/src/lib.rs:27 | the result ends with the name; a relative name keeps the base in front, and an absolute name replaces it |
| Ipc.SocketName | wutag_ipc/src/lib.rs:23-30 | on a path-only platform the joined path, otherwise `@` followed by the name |
| Ipc.SocketDir | wutag_ipc/src/lib.rs:35-38 | the runtime directory, else the local data directory, else `/tmp` |
| Ipc.DefaultSocketShape | wutag_ipc/src/lib.rs:32-40 | the default socket always ends in `wutag-<user>.sock`, lies inside the chosen directory on a path-only platform, and is the abstract name otherwise |
| Ipc.DefaultSocket | wutag_ipc/src/lib.rs:32-40 | off path-only platforms the default socket is the abstract name `@wutag-<user>.sock` |
| Events.Queue.constructor | wutag_daemon/src/main.rs:13 | an empty queue |
| Events.Queue.Push | wutag_daemon/src/daemon.rs:92-100 | the event is appended when the lock is free and dropped when it is taken |
| Events.Queue.Take | wutag_daemon/src/inotifyd.rs:72-83 | a free lock hands over every pending event and leaves the queue empty; a taken one hands over nothing and changes nothing |
| Client.Failed | wutag_cli/src/client.rs:62-141 | a failed operation's error is that operation's variant, never `UnexpectedResponse` |
| Client.FailedIsInjective | wutag_cli/src/client.rs:157-397 | the error a failed call reports keeps both the operation it belongs to and the message, so no two failures are confused |
| Client.FormatMultipleErrors | wutag_cli/src/client.rs:63-66 | the text always starts with the separator |
| Client.FormatIsBulleted | wutag_cli/src/client.rs:63-66 | a non-empty list becomes each message preceded by the separator; an empty one becomes the separator alone |
| Client.HandleError | wutag_cli/src/client.rs:62-141 | success exactly when the daemon's result is `Ok`, then for the same operation |
| Client.HandleErrorMessage | wutag_cli/src/client.rs:62-141 | a failure is the error of the response's operation: a batched operation's errors are joined as a bulleted list, any other's message is kept as it is |
| Client.HandleErrorKeepsData | wutag_cli/src/client.rs:110-125 | the queries' data reach the caller unchanged |
| Client.Requested | wutag_cli/src/client.rs:155-158 | a transport failure is reported under the requested operation, otherwise the response is handled |
| Client.Acknowledged | wutag_cli/src/client.rs:150-299 | success exactly when the transport delivered a successful response; a transport failure is reported under the requested operation |
| Client.ListTagsCall | wutag_cli/src/client.rs:301-313 | the tags exactly when a successful `ListTags` response arrives; an unexpected-response error exactly when a successful response for another operation arrives |
| Client.ListFilesCall | wutag_cli/src/client.rs:315-327 | the files exactly when a successful `ListFiles` response arrives; an unexpected-response error exactly when a successful response for another operation arrives |
| Client.InspectFilesCall | wutag_cli/src/client.rs:329-361 | the inspected files exactly when a successful `InspectFiles` response arrives; an unexpected-response error exactly when a successful response for another operation arrives |
| Client.SearchCall | wutag_cli/src/client.rs:363-382 | the found entries exactly when a successful `Search` response arrives; an unexpected-response error exactly when a successful response for another operation arrives |
| Client.ForeignErrorKeepsItsOperation | wutag_cli/src/client.rs:301-313 | a failed `TagFiles` response to a `ListTags` request is reported as a `TagFiles` error, not as an unexpected response |
| Daemon.Lookup | wutag_core/src/registry.rs:188-194 | a found id holds the path, and none is found only when no entry holds it |
| Daemon.FindEntryIsLookup | wutag_core/src/registry.rs:188-194 | with one entry per path, every answer `find_entry` may give is `Lookup`'s |
| Daemon.Registered | wutag_core/src/registry.rs:86-109 | the deterministic `add_or_update_entry`, satisfying its relation between old and new registry |
| Daemon.AddedIsRegistered | wutag_core/src/registry.rs:86-109 | with one entry per path, every outcome `add_or_update_entry` allows is `Registered`'s |
| Daemon.SavedTags | wutag_daemon/src/daemon.rs:72-82 | the tag loop of one file leaves the entries alone and reports no message exactly when every tag was written |
| Daemon.SavedTagsRecords | wutag_daemon/src/daemon.rs:72-82 | after the tag loop a tag name exists exactly when it did or a tag of that name was written, it marks the entry exactly when such a write succeeded, and known tags keep their colour |
| Daemon.TaggedFile | wutag_daemon/src/daemon.rs:59-86 | one file of `tag_files`: no message exactly when every tag was written, and reported as new exactly when it had no entry |
| Daemon.TaggedFiles | wutag_daemon/src/daemon.rs:59-86 | the batch reports no message exactly when every tag was written to every file, and every path reported as new is one of the files |
| Daemon.TaggedFilesStep | wutag_daemon/src/daemon.rs:59-86 | the batch over one more file is the previous batch followed by that file's step |
| Daemon.TaggedFileCarries | wutag_daemon/src/daemon.rs:59-86 | after one file its entry carries every tag whose write succeeded, stays exactly when some tag marks it, holds the file's path, and no other entry changed |
| Daemon.TaggedFileRefused | wutag_daemon/src/daemon.rs:72-85 | a tagged file whose every write was refused leaves the registry as it was |
| Daemon.SavedTagsKeepsValid | wutag_daemon/src/daemon.rs:72-82 | the tag loop keeps the registry well formed |
| Daemon.TaggedFileKeepsValid | wutag_daemon/src/daemon.rs:59-86 | one file of `tag_files` keeps the registry well formed |
| Daemon.TaggedFilesKeepsValid | wutag_daemon/src/daemon.rs:48-108 | `tag_files` keeps the registry well formed |
| Daemon.RemovedTags | wutag_daemon/src/daemon.rs:123-129 | entries only go; no message exactly when every removal succeeded; at most the entry's own path is reported, and only once it is gone; if every removal failed nothing changes |
| Daemon.RemovedTagsStep | wutag_daemon/src/daemon.rs:123-129 | one more tag of the untag loop is the loop so far followed by that tag's failure message or removal |
| Daemon.UntaggedFile | wutag_daemon/src/daemon.rs:121-131 | a file without an entry is skipped; entries only go; a reported path is the file's, whose entry is gone; if every removal failed nothing changes |
| Daemon.UntaggedFiles | wutag_daemon/src/daemon.rs:121-131 | entries only go, reported paths are among the files, no message when every removal succeeded, and nothing changes when every removal failed |
| Daemon.ShrinkKeepsPathsUnique | wutag_daemon/src/daemon.rs:121-131 | removing entries keeps one entry per path |
| Daemon.ShrinkKeepsGone | wutag_daemon/src/daemon.rs:121-131 | a path without an entry stays without one when entries are removed |
| Daemon.RemovedTagsKeepsValid | wutag_daemon/src/daemon.rs:123-129 | the untag loop of one file keeps the registry well formed |
| Daemon.UntaggedFilesKeepsValid | wutag_daemon/src/daemon.rs:110-153 | `untag_files` keeps the registry well formed |
| Daemon.UntaggedFilesRemovedAreGone | wutag_daemon/src/daemon.rs:121-140 | every path `untag_files` reports as removed has no entry afterwards |
| Daemon.ClearedFile | wutag_daemon/src/daemon.rs:237-248 | entries only go; a message only when clearing the file failed, and then nothing changes; otherwise the file's entry is gone |
| Daemon.ClearedFiles | wutag_daemon/src/daemon.rs:237-249 | entries only go, at most one message per file, none when every clear succeeded, and nothing changes when every clear failed |
| Daemon.ClearedFilesKeepsValid | wutag_daemon/src/daemon.rs:229-269 | `clear_files` keeps the registry well formed |
| Daemon.ClearedFileIsGone | wutag_daemon/src/daemon.rs:238-247 | a file whose clear succeeded has no entry afterwards |
| Daemon.ClearedFilesAreGone | wutag_daemon/src/daemon.rs:237-249 | after the batch, no file whose clear succeeded has an entry |
| Daemon.ClearedFilesKeepUnnamed | wutag_daemon/src/daemon.rs:237-249 | every entry whose path was not given is kept as it was |
| Daemon.TagsOf | wutag_daemon/src/daemon.rs:331-336 | exactly the tags that mark the entry, with the registry's colours |
| Daemon.Inspected | wutag_daemon/src/daemon.rs:329-340 | at most one item per file; each item is a requested file's entry with its tags, and every requested file with an entry is listed |
| Daemon.InspectedFiles | wutag_daemon/src/daemon.rs:322-343 | an empty request is refused with its message, and only an empty one |
| Daemon.Found | wutag_daemon/src/daemon.rs:355-360 | at most one entry per id; an entry is listed exactly when one of the ids holds it |
| Daemon.Searched | wutag_daemon/src/daemon.rs:345-362 | an empty request is refused with its message, and only an empty one |
| Daemon.SearchAnyFinds | wutag_daemon/src/daemon.rs:350-351 | a search for any of the names finds exactly the entries some named tag marks |
| Daemon.SearchAllFinds | wutag_daemon/src/daemon.rs:352-353 | a search for all names finds exactly the entries the registry's fold as written yields, and these are the entries every known named tag marks whenever some entry is marked by all of them |
| Daemon.Outcome | wutag_daemon/src/daemon.rs:103-107 | `Ok` exactly when no message was collected; otherwise every message, in order |
| Daemon.EventOf | wutag_daemon/src/daemon.rs:92-101 | one event exactly when there is a path to report, none otherwise |
| Daemon.EditedTag | wutag_daemon/src/daemon.rs:155-165 | an unknown tag is refused with its message and nothing changes; a known one takes the new colour, keeps its entries, leaves every other tag as it was, and is answered `Ok` |
| Daemon.CopiedTags | wutag_daemon/src/daemon.rs:167-178 | a failure to read the source's tags is answered with one message and changes nothing; a source without tags is answered `Ok` and changes nothing |
| Daemon.Handled | wutag_daemon/src/daemon.rs:31-46 | every request is answered by a response of its own kind; inspect, search and ping change nothing and queue nothing; at most one event is queued |
| Daemon.HandledKeepsValid | wutag_daemon/src/daemon.rs:31-46 | every request keeps the registry well formed |
| Daemon.EmptyBatchesRefused | wutag_daemon/src/daemon.rs:49-54 | a batch with no files, or for tagging and untagging no tags, is refused with its message and changes nothing |
| Daemon.TagFilesOkIffAllSaved | wutag_daemon/src/daemon.rs:48-108 | `tag_files` answers `Ok` exactly when every tag was written to every file |
| Daemon.UntagRefusedChangesNothing | wutag_daemon/src/daemon.rs:110-153 | `untag_files` whose every removal was refused changes nothing and queues nothing |
| Daemon.TagFile | wutag_daemon/src/daemon.rs:59-86 | new registry, messages and whether the entry was new are `TaggedFile` of the old registry, which stays well formed |
| Daemon.SaveTags | wutag_daemon/src/daemon.rs:72-81 | new registry and messages are `SavedTags` of the old registry: each tag written to the file is recorded, each failure reported |
| Daemon.TagEach | wutag_daemon/src/daemon.rs:59-86 | new registry, messages and new entries are `TaggedFiles` of the old registry, which stays well formed |
| Daemon.TagFiles | wutag_daemon/src/daemon.rs:48-108 | registry, response and queued event are those `Handled` gives for the request; the event is dropped when the queue is busy |
| Daemon.CopyTags | wutag_daemon/src/daemon.rs:167-227 | registry, response and queued event are those `Handled` gives for the request |
| Daemon.UntagFile | wutag_daemon/src/daemon.rs:121-131 | new registry, messages and removed path are `UntaggedFile` of the old registry, which stays well formed |
| Daemon.UntagEach | wutag_daemon/src/daemon.rs:121-131 | new registry, messages and removed paths are `UntaggedFiles` of the old registry, which stays well formed |
| Daemon.UntagFiles | wutag_daemon/src/daemon.rs:110-153 | registry, response and queued event are those `Handled` gives for the request |
| Daemon.ClearFile | wutag_daemon/src/daemon.rs:238-248 | new registry and messages are `ClearedFile` of the old registry, which stays well formed |
| Daemon.ClearEach | wutag_daemon/src/daemon.rs:237-249 | new registry and messages are `ClearedFiles` of the old registry, which stays well formed |
| Daemon.ClearFiles | wutag_daemon/src/daemon.rs:229-269 | registry, response and queued event are those `Handled` gives for the request |
| Daemon.EditTag | wutag_daemon/src/daemon.rs:155-165 | new registry and response are `EditedTag` of the old registry |
| Daemon.InspectFiles | wutag_daemon/src/daemon.rs:322-343 | the response is `InspectedFiles` of the registry |
| Daemon.Collect | wutag_daemon/src/daemon.rs:355-360 | the entries collected are `Found` of the ids |
| Daemon.Search | wutag_daemon/src/daemon.rs:345-362 | the response is `Searched` of the registry, the all-tags query run as written |
| Daemon.CleanCache | wutag_daemon/src/daemon.rs:368-375 | the registry is emptied and the answer is `Ok` |
| Daemon.ProcessRequest | wutag_daemon/src/daemon.rs:31-46 | registry, response and queue are those `Handled` gives for the request, and the registry stays well formed |
| Notifyd.Kept | wutag_daemon/src/notifyd.rs:18-34 | an event is kept exactly when it was read and is a removal of any kind |
| Notifyd.HandleEvent | wutag_daemon/src/notifyd.rs:17-35 | a removal event is appended to the queue when its lock is free; any other event, a read error or a taken lock leaves the queue as it was |
| Notifyd.Pruned | wutag_daemon/src/notifyd.rs:45-75 | tags are untouched, and exactly the entries whose path the watcher reported as not found are dropped; the rest are kept as they were |
| Notifyd.PrunedKeepsValid | wutag_daemon/src/notifyd.rs:64-72 | dropping entries keeps the registry well formed |
| Notifyd.Paths | wutag_daemon/src/notifyd.rs:120-121 | a path is listed exactly when some event carries it |
| Notifyd.ClearedPaths | wutag_daemon/src/notifyd.rs:120-127 | clearing the events' paths only removes entries, leaving the rest as they were |
| Notifyd.ClearedPathsStep | wutag_daemon/src/notifyd.rs:120-127 | clearing one more path is the previous clearing followed by that path's |
| Notifyd.ClearedPathsAreGone | wutag_daemon/src/notifyd.rs:120-127 | afterwards no cleared path has an entry, and every entry whose path was not given is kept |
| Notifyd.ClearedPathsKeepsValid | wutag_daemon/src/notifyd.rs:120-127 | clearing the paths keeps the registry well formed |
| Notifyd.EventPaths | wutag_daemon/src/notifyd.rs:147-166 | a path belongs exactly when some event of the chosen kind (add or remove) carries it |
| Notifyd.Replayed | wutag_daemon/src/notifyd.rs:150-165 | adding only grows the watched set, and only by given paths; removing only shrinks it, and only by given paths; every path whose watch (or unwatch) succeeds is watched (or not) afterwards, and every path that joins (or leaves) the set had a successful watch (or unwatch) |
| Notifyd.ReplayedKeeps | wutag_daemon/src/notifyd.rs:150-165 | a path none of whose watches or unwatches in the event succeeds is watched afterwards exactly when it was before |
| Notifyd.ReplayedSucceeds | wutag_daemon/src/notifyd.rs:150-165 | a path the event watches (or unwatches) without error is watched (or not) afterwards |
| Notifyd.ReplayedAll | wutag_daemon/src/notifyd.rs:147-167 | every watched path afterwards was watched before or was added by some event; every watched path no event removes stays watched |
| Notifyd.ReplayedAllStep | wutag_daemon/src/notifyd.rs:147-167 | the batch up to one more event is the batch so far followed by that event's paths |
| Notifyd.ReplayedAllKeepsAdded | wutag_daemon/src/notifyd.rs:147-167 | a path some event adds without error and no later event removes without error is watched at the end of the batch |
| Notifyd.ReplayedAllKeepsRemoved | wutag_daemon/src/notifyd.rs:147-167 | a path some event removes without error and no later event adds without error is not watched at the end of the batch |
| Notifyd.NotifyDaemon.constructor | wutag_daemon/src/notifyd.rs:38-43 | a watcher watching nothing |
| Notifyd.NotifyDaemon.AddWatchEntry | wutag_daemon/src/notifyd.rs:77-83 | on success the path joins the watched set; on failure the error is returned and nothing changes |
| Notifyd.NotifyDaemon.RemoveWatchEntry | wutag_daemon/src/notifyd.rs:85-91 | on success the path leaves the watched set; on failure the error is returned and nothing changes |
| Notifyd.NotifyDaemon.WatchEntries | wutag_daemon/src/notifyd.rs:48-63 | every entry's path is watched where watching succeeds, and exactly the entries whose watch failed with not found are set aside |
| Notifyd.NotifyDaemon.RebuildWatchDescriptors | wutag_daemon/src/notifyd.rs:45-75 | the registry becomes `Pruned` of the old one, and the watched set gains every entry path whose watch succeeded |
| Notifyd.NotifyDaemon.HandleEntriesEvents | wutag_daemon/src/notifyd.rs:132-169 | a taken lock answers its error and changes nothing; otherwise the queue is drained and the watched set is `ReplayedAll` of the old one |
| Notifyd.NotifyDaemon.ReplayPaths | wutag_daemon/src/notifyd.rs:149-164 | the watched set after one event's paths is `Replayed` of the old one, failures only skipped |
| Notifyd.RemoveEntries | wutag_daemon/src/notifyd.rs:64-72 | tags are untouched and exactly the entries set aside are dropped; the registry stays well formed |
| Notifyd.PruneStep | wutag_daemon/src/notifyd.rs:69-71 | removing the entry found for one more set-aside path extends the pruned map by that path |
| Notifyd.HandleNotifyEvents | wutag_daemon/src/notifyd.rs:105-130 | a taken lock answers its error and changes nothing; otherwise the queue is drained and the registry is `ClearedPaths` of every path the events carry, and stays well formed |
| Notifyd.ClearEventPaths | wutag_daemon/src/notifyd.rs:121-126 | clearing one event's paths moves a well-formed registry from `ClearedPaths` of the paths done so far to `ClearedPaths` of those and the event's |
| Inotifyd.Unwatched | wutag_daemon/src/inotifyd.rs:47-56 | reports success exactly when some descriptor watches the path, and then exactly one such descriptor is dropped; otherwise nothing changes |
| Inotifyd.UnwatchedUnique | wutag_daemon/src/inotifyd.rs:47-56 | when descriptors watch distinct paths, unwatching a watched path drops exactly its descriptor |
| Inotifyd.WatchThenUnwatch | wutag_daemon/src/inotifyd.rs:33-56 | watching a new path under a fresh descriptor and then unwatching it gives the map back |
| Inotifyd.Watched | wutag_daemon/src/inotifyd.rs:33-45 | a new descriptor maps to the path and nothing else changes; a failed watch changes nothing |
| Inotifyd.Replayed | wutag_daemon/src/inotifyd.rs:86-105 | a removal event only drops descriptors; an add event only maps descriptors to the paths it adds, and every descriptor one of its watches is granted is present afterwards |
| Inotifyd.ReplayedStep | wutag_daemon/src/inotifyd.rs:86-105 | one more path of the event is one more `Watched` (add) or `Unwatched` (remove) |
| Inotifyd.ReplayedWatchStep | wutag_daemon/src/inotifyd.rs:87-94 | one more path of an add event is one more `Watched` |
| Inotifyd.WatchedKeeps | wutag_daemon/src/inotifyd.rs:33-45 | a watch granted another descriptor, or none, leaves a descriptor on its path |
| Inotifyd.UnwatchedStep | wutag_daemon/src/inotifyd.rs:95-104 | one more unwatch keeps what the unwatches so far have done: descriptors only go, untouched paths keep theirs, and distinct paths stay distinct with the named ones gone |
| Inotifyd.ReplayedRemoves | wutag_daemon/src/inotifyd.rs:95-104 | a removal event keeps every descriptor whose path it does not name, on its old path; when no two descriptors shared a path, none shares one afterwards and no named path is still watched |
| Inotifyd.UnwatchedInjective | wutag_daemon/src/inotifyd.rs:47-56 | on a table where no two descriptors share a path, an unwatch keeps it so, leaves the path unwatched and watches nothing new |
| Inotifyd.ReplayedOrigin | wutag_daemon/src/inotifyd.rs:87-94 | after an add event every descriptor maps as before or was granted to one of its watches, for that watch's path |
| Inotifyd.ReplayedLastGrant | wutag_daemon/src/inotifyd.rs:87-94 | a watch of an add event granted a descriptor that no later watch of the event is granted leaves that descriptor on its path |
| Inotifyd.ReplayedUngranted | wutag_daemon/src/inotifyd.rs:87-94 | a descriptor none of an add event's watches is granted keeps its path |
| Inotifyd.ReplayedAll | wutag_daemon/src/inotifyd.rs:84-107 | removal events only drop descriptors, leaving the others as they were |
| Inotifyd.ReplayedAllStep | wutag_daemon/src/inotifyd.rs:84-107 | the batch up to one more event is the batch so far followed by that event's paths |
| Inotifyd.GrantsAtStep | wutag_daemon/src/inotifyd.rs:87-94 | an event grants a descriptor exactly when it is an add event and one of its watches is granted that descriptor |
| Inotifyd.GrantSurvives | wutag_daemon/src/inotifyd.rs:86-105 | an event that grants a descriptor to no watch and does not remove its path keeps the descriptor on that path |
| Inotifyd.RemovedAbsent | wutag_daemon/src/inotifyd.rs:95-104 | a removal event naming a path, on a table where no two descriptors share a path, leaves no descriptor on that path |
| Inotifyd.AbsentSurvives | wutag_daemon/src/inotifyd.rs:86-105 | an event with no successful watch of an unwatched path leaves it unwatched |
| Inotifyd.ReplayedAllKeepsGranted | wutag_daemon/src/inotifyd.rs:84-107 | a successful watch whose descriptor no later watch is granted, and whose path no later event removes, leaves its path watched under that descriptor at the end of the batch |
| Inotifyd.ReplayedAllKeepsRemoved | wutag_daemon/src/inotifyd.rs:84-107 | a path an event removes from a table where no two descriptors share a path, and that no later watch adds successfully, is unwatched at the end of the batch |
| Inotifyd.AfterEvent | wutag_daemon/src/inotifyd.rs:130-159 | an event other than moved or deleted changes nothing; an unknown descriptor is an error and changes nothing; otherwise the descriptor is dropped and the answer is `Ok` exactly when its path had an entry; descriptors and entries only shrink and tags are untouched |
| Inotifyd.AfterEventRemovesEntry | wutag_daemon/src/inotifyd.rs:147-156 | with one entry per path, the moved or deleted path has no entry afterwards and every other entry is kept |
| Inotifyd.AfterEventKeepsValid | wutag_daemon/src/inotifyd.rs:130-159 | one event keeps the registry well formed |
| Inotifyd.AfterEvents | wutag_daemon/src/inotifyd.rs:121-126 | a batch of events only drops descriptors and entries and leaves the tags untouched |
| Inotifyd.AfterEventsKeepsValid | wutag_daemon/src/inotifyd.rs:121-126 | a batch of events keeps the registry well formed |
| Inotifyd.OtherEventsIgnored | wutag_daemon/src/inotifyd.rs:132 | a batch with no move or delete changes nothing |
| Inotifyd.InotifyDaemon.constructor | wutag_daemon/src/inotifyd.rs:15-20 | no descriptors |
| Inotifyd.InotifyDaemon.AddWatchEntry | wutag_daemon/src/inotifyd.rs:33-45 | the map becomes `Watched` of the old one; success exactly when the watch succeeded, otherwise the message names the path |
| Inotifyd.InotifyDaemon.RemoveWatchEntry | wutag_daemon/src/inotifyd.rs:47-56 | map and answer are `Unwatched` of the old map |
| Inotifyd.InotifyDaemon.RebuildWatchDescriptors | wutag_daemon/src/inotifyd.rs:22-31 | a descriptor is present afterwards exactly when it was before or some entry's watch returned it, and each new descriptor maps to such an entry's path |
| Inotifyd.InotifyDaemon.HandleEntriesEvents | wutag_daemon/src/inotifyd.rs:71-109 | a taken lock answers its error and changes nothing; otherwise the queue is drained and the map is `ReplayedAll` of the old one |
| Inotifyd.InotifyDaemon.ReplayEntryEvent | wutag_daemon/src/inotifyd.rs:86-104 | the descriptor map after one event is `Replayed` of the old one over all of its paths |
| Inotifyd.InotifyDaemon.HandleEvent | wutag_daemon/src/inotifyd.rs:130-159 | descriptors, registry and answer are `AfterEvent` of the old ones, and the registry stays well formed |
| Inotifyd.InotifyDaemon.HandleInotifyEvents | wutag_daemon/src/inotifyd.rs:111-128 | a failed read changes nothing, answering `Ok` when it would block and an error otherwise; a read batch gives `AfterEvents` and `Ok`; the registry stays well formed |

## Left out

- Colors.ParseHex: reads each pair of digits through `PairValue`; the contract of `HexCharsToU8` shows that the source's shift-and-or gives the same value, so the bit operations are not repeated inside colour parsing.
- Registry persistence: `load` and `save` (wutag_core/src/registry.rs:67-78, src/registry.rs:46-57) are file I/O through a CBOR serialiser. Their failures, which the daemon and the `notify` watcher only log or return, are not modelled.
- The clock: entry ids, timestamps and `Tag::random` colours are parameters. An id is minted for the i-th file of a batch, and nothing assumes it is fresh.
- CBOR and the `DefaultHasher` of `calculate_hash` are function parameters. Their outputs are not computed. The `colored` crate's `to_fg_str` is computed, by `Colors.FgCode`: 30-37 and 90-97 for the named colours, `38;2;r;g;b` for a true colour.
- Integer widths: entry ids, sizes and timestamps are unbounded naturals. The 64-bit length prefix of a frame is bounded explicitly, by `U64_MAX`.
- The operating system: xattr system calls, `fs::metadata`, inotify and the `notify` watcher are inputs, given call by call.
- Payload.Unframe, Payload.Received: the announced length is only compared with the bytes the stream holds. The source first allocates a buffer of that length (wutag_ipc/src/payload.rs:74); a length above `isize::MAX` panics there, and one the allocator cannot satisfy aborts the process. The model answers `ConnectionRead` for such a length when the stream is shorter, and otherwise returns the payload. Memory limits and process termination are not part of this model.
- Payload.ReadPayload, Payload.Read: inherit the gap of `Payload.Unframe` above. A huge announced length gives `ConnectionRead` in the model, where the source panics or aborts at the allocation.
- Payload.Connection.ReadExact: a short read consumes the whole stream, and a failed `write_all` is taken to write nothing. Partial writes are not modelled.
- Response shapes: the daemon answers `Response::CleanCache` for `Request::CleanCache`, while wutag_ipc/src/lib.rs names both `ClearCache`. The `ListTags` payload types also differ between daemon, IPC library and client. Each module uses the shape its own file uses.
- The daemon's `list_tags`, `list_files` and `clear_tags` handlers (wutag_daemon/src/daemon.rs:271-320) are not modelled. `list_files` and `clear_tags` call registry methods (`list_entries_and_tags`, `clear_tag`) that wutag_core/src/registry.rs does not define. `list_tags` returns the tag map in hash order.
- Pattern requests (`TagFilesPattern` and the others) and glob expansion are not part of this model.
- Daemon.TaggedFile, Daemon.TagFile: `tag_files` (and `copy_tags`, which reuses it) clears the on-disk tags of a newly added entry before writing any tag, and only logs a failure of that clear (wutag_daemon/src/daemon.rs:63-69). The clear does change what follows: a tag left on disk by an earlier run makes the later `save_to` answer `TagExists`, so without the clear the file would get an error message and the registry would not record that tag. The daemon model does not keep each file's attributes; it takes every `save_to` answer as an input (`Env.save`), so it does not state "on-disk tags cleared first" and cannot tie the `save_to` answers to that clear. What the clear secures on one file is proved at the attribute level instead: `AttrStore.ClearedFileTakesAnyKey` shows that after a clear with no refusal nothing is listed and a NUL-free wutag key can be written without `TagExists`.
- Locks, threads and the work loops: registry access is taken to be exclusive. Whether a queue's `try_write` fails, and its error text, are inputs. `try_get_registry_write_loop` and the 50/200 ms polling loops are not modelled.
- Notifyd: `notifyd.rs` is not wired into wutag_daemon/src/main.rs, and `NOTIFY_EVENTS` is defined nowhere. The model gives it its own queue. The watcher's state is the set of watched paths.
- Notifyd.NotifyDaemon.RebuildWatchDescriptors: removing each not-found entry first looks up its id. The model takes the smallest matching id (`Daemon.Lookup`); with one entry per path, `Daemon.FindEntryIsLookup` shows this is the only answer.
- Inotifyd.Unwatched: `remove_watch_entry` drops the first descriptor in hash order. The model drops the one with the smallest number. `Inotifyd.UnwatchedUnique` shows the two agree when descriptors watch distinct paths.
- Inotifyd.InotifyDaemon.RebuildWatchDescriptors: the entries are visited in hash order. The contract is therefore relational: it says which descriptors exist, not which entry won a descriptor two entries share.
- Inotifyd: a failing `rm_watch` is only logged (wutag_daemon/src/inotifyd.rs:138-143) and is not modelled.
- Daemon, Notifyd and Inotifyd handlers require a well-formed registry: no tag with an empty set, and one entry per path. Every mutator is proved to keep that invariant.
- LegacyRegistry.TagRegistry.UntagByName requires each tag key to equal its stored tag's name. The mutators keep this, as `TaggedKeepsKeysMatch` and its siblings show.
- LegacyTag.TryFrom: a lone `+` or `-` is reported as an invalid digit, as current Rust reports it; older Rust releases reported it as an empty string.
- CoreTag.TryFrom, CborTag.Key: the texts of `Base64DecodeError` and `TagSerDeError` are left empty. They are the `Display` texts of the base64 and CBOR crates' own error values, and those crates are not part of this model. The CBOR-keyed tag decodes with `CoreTag.TryFrom` too.
- LegacyTag.TryFrom: accepts every `i64` timestamp. The source hands it to chrono's `NaiveDateTime::from_timestamp` (src/tags.rs:199-204), which panics for seconds outside chrono's date range, so such a key aborts `list_tags` or `get_tag` instead of decoding. The model has no panics, and the chrono version and its exact range are not part of this model.
- LegacyRegistry.ListEntriesWithTags: the doc comment at src/registry.rs:166 promises entries carrying all of the tags, but the code builds a union with only adjacent repeats removed. The model follows the code (`ListEntriesWithTagsRepeats`).
- The legacy registry's `list_entries_ids`, `list_entries`, `list_entries_and_ids`, `list_tags` and `get_entry` are bare iterators or lookups over the maps, and are not modelled separately.
- The `Display` texts of `ClientError` and `IpcError` are not modelled; the model keeps the operation and the message.
- src/tags.rs reports `TagNotFound(String)` and `InvalidTagKey`, which src/lib.rs's error type does not define. The legacy tag module uses the `wutag_core` error type; the legacy xattr layer uses src/lib.rs's.
- Xattr.ParseXattrs, Xattr.ParseXattrsLegacy, Xattr.ListXattrs: keep attribute names and values as raw bytes. The source converts every name with `to_string_lossy` (wutag_core/xattr/unix.rs:307-309, src/xattr/unix.rs:338-340), looks each value up under the converted name (wutag_core/xattr/unix.rs:245-247) and converts values lossily too (wutag_core/xattr/unix.rs:233-234, src/xattr/unix.rs:261-262). A name that is not UTF-8, such as `user.` followed by byte 0xFF, is therefore looked up as `user.` followed by U+FFFD; the kernel answers ENODATA, `CoreErrors.FromIoError` turns that into `TagNotFound("")`, and listing, `has_tags` and `clear_tags` fail for the whole file. The model looks the raw name up and lists the file. UTF-8 validation and replacement are not part of this model; the model agrees with the source when every name and value is valid UTF-8, where the conversion changes nothing.
- Base64 follows section 4 of RFC 4648 strictly. The base64 crate's decoder may accept more than that, which is not modelled.

## Findings

The daemon model runs the registry's all-tags query as written (`Daemon.Searched`), so a search answers what the program answers; the corrected query is stated and proved beside it in the registry model.

| source | as written | input that shows it | evidently intended | confidence | as-written member | corrected member |
|---|---|---|---|---|---|---|
| wutag_core/xattr/unix.rs:18-24 | `is_symlink` reads `fs::metadata`, which follows links, so it is never true. Every public call then follows a link to its target. | a link `link` pointing to a regular file `file`: a call on `link` reaches `file` | ask `fs::symlink_metadata`, so the no-follow calls act on the link itself | high, not executed | Xattr.CoreFollowsLinkAsWritten | Xattr.CoreAffectsPathItself |
| wutag_core/src/registry.rs:256-278 | `list_entries_with_all_tags` restarts from the next tag's set whenever the running intersection is empty | tags a={1}, b={2}, c={3}, query [a, b, c]: answers [3] | the intersection of all named tags' sets, here empty | high, not executed | Registry.AllTagsAsWrittenRestarts | Registry.ListEntriesWithAllTags |
