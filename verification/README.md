# Tarantool core tables and registries, modelled in Dafny

This project models three small pieces of sequential logic from the
Tarantool server and proves what they promise.

- **Key hashing and equality for the associative maps** (`include/assoc.h`).
  There are three maps. The `_i32ptr` map hashes an i32 key to itself. The
  `_i64ptr` map mixes an i64 key with `k >> 33 ^ k ^ k << 11` and keeps the
  low 32 bits. The `_lstrptr` map keys on length-prefixed strings, which it
  compares with `lstrcmp` and hashes with MurmurHash2. The header also
  defines the X31 string hash `h = (h << 5) - h + byte`.
- **The plugin registry** (`core/plugin.c`, `include/plugin.h`).
  `plugin_is` recognises plugin files by their final `.so` suffix.
  `plugin_attach_dir` picks the entries of a directory to load.
  `plugin_attach` runs six checks in a fixed order and then appends the
  plugin to a registry that keeps a count beside its list. `plugin_free`
  runs each plugin's `free` hook at teardown.
- **Protocol tables of the box module** (`mod/box/box.h`). These are the
  request flags and the client flag mask, the request ids and the retired
  ids they must avoid, the seven update-operation codes, and the cap of
  128 operations per update request.

Modules: `Wrappers` (Option/Result), `CTypes` (C integer widths and the
conversion to `int`), `Assoc`, `Plugin` and `Box`, one per source file.

Integer widths are explicit:

- The X31 hash is computed modulo 2^32, and its result is read as a C
  `int` by `CTypes.WrapI32`. The hash is kept as an integer in 0..2^32-1
  rather than as a bit-vector, so `h << 5` is modelled as multiplication
  by 32 modulo 2^32 (`Assoc.ShiftLeft5`), which is what a left shift of a
  32-bit word is; that equivalence is not proved at the bit level.
- The i64 mixer works on the key's 64-bit two's complement pattern. It
  uses an arithmetic right shift and a left shift that wraps modulo 2^64.
  In C both shifts on a negative key are implementation-defined or
  undefined; the model fixes them to what gcc does.
- A byte is a `u8` (0..255). Byte comparisons in `memcmp` are unsigned.

External effects are inputs:

- The loader's result for a path is `Load`: either the error text, or a
  library with its handle and its exported symbols.
- The directory listing is `Option<seq<DirEntry>>`, where `None` means the
  directory could not be opened.
- The success of the allocations for a registry entry is `allocOk`.
- The server's own version is a `Version` parameter, because `config.h` is
  not part of this model.
- MurmurHash2 is a function parameter.

## Model

| member | source | states |
|---|---|---|
| `CTypes.WrapI32` | include/assoc.h:60-66 | converting an unsigned or wide value to `int` yields the one value in the `int` range congruent to it modulo 2^32 |
| `Assoc.I32Hash` | include/assoc.h:37 | no contract of its own: the identity hash; `Assoc.I32HashMatchesEq` relates it to the map's equality |
| `Assoc.I32Eq` | include/assoc.h:38 | no contract of its own: the i32 map's key equality `==` |
| `Assoc.I32HashMatchesEq` | include/assoc.h:34-38 | the identity hash agrees with the i32 map's equality both ways: equal keys hash equally and distinct keys never collide |
| `Assoc.Sar33` | include/assoc.h:44 | `k >> 33` on a signed key fills the top 33 bits with the sign and keeps bits 33..63 of the key in the low 31 bits |
| `Assoc.I64Hash` | include/assoc.h:44 | no contract of its own: the mixer `(uint32_t)(k >> 33 ^ k ^ k << 11)`; its meaning comes from `Assoc.Sar33`, `Assoc.I64HashShiftChoice`, `Assoc.I64HashRespectsEq` and `Assoc.I64HashCollides` |
| `Assoc.I64Eq` | include/assoc.h:45 | no contract of its own: the i64 map's key equality `==` |
| `Assoc.I64HashShiftChoice` | include/assoc.h:44 | the arithmetic shift changes the hash only in bit 31, which is set exactly for negative keys |
| `Assoc.I64HashRespectsEq` | include/assoc.h:41-45 | keys equal under the i64 map's equality get equal hashes |
| `Assoc.I64HashCollides` | include/assoc.h:44-45 | the mixer is not injective: key 2^32 and key 0 share a hash, so lookups must compare keys |
| `Assoc.X31HashLStr` | include/assoc.h:48-57 | a string whose declared length is 0 hashes to 0 |
| `Assoc.X31HashLoop` | include/assoc.h:48-57 | the source's loop, walking exactly `len` bytes with `h = (h << 5) - h + byte` in 32-bit arithmetic, returns the X31 fold of the payload |
| `Assoc.ShiftSubIsStep` | include/assoc.h:55 | `(h << 5) - h + byte` modulo 2^32 equals `h * 31 + byte` modulo 2^32 |
| `Assoc.X31` | include/assoc.h:52-56 | wrapping at every step gives the exact polynomial `sum byte_i * 31^(n-1-i)` reduced once modulo 2^32 |
| `Assoc.X31IgnoresTrailingBytes` | include/assoc.h:51-56 | bytes after the declared length do not change the hash |
| `Assoc.MemCmp` | include/assoc.h:67 | `memcmp` is zero iff the blocks are equal; otherwise its sign is that of the first differing pair of unsigned bytes |
| `Assoc.LStrCmp` | include/assoc.h:58-68 | `lstrcmp` is zero iff the declared lengths are equal and the payloads are byte-for-byte equal |
| `Assoc.LStrCmpLengthMismatch` | include/assoc.h:65-66 | different lengths give `bl - al` wrapped to `int`, which is never zero |
| `Assoc.LStrCmpReflexive` | include/assoc.h:58-68 | every string compares equal to itself |
| `Assoc.MemCmpAntisymmetric` | include/assoc.h:67 | swapping the operands of `memcmp` negates its result |
| `Assoc.LStrCmpAntisymmetric` | include/assoc.h:58-68 | while the lengths are less than 2^31 apart, swapping the operands of `lstrcmp` flips the sign of its result |
| `Assoc.LStrCmpNotAntisymmetricAtHalfRange` | include/assoc.h:60-66 | any two strings whose lengths are exactly 2^31 apart compare as "less" in both orders |
| `Assoc.HalfRangePairExists` | include/assoc.h:60-66 | such a pair exists: the empty string and a string of 2^31 bytes |
| `Assoc.LStrEq` | include/assoc.h:74 | two strings are equal keys of the string map iff their declared lengths and their payloads are equal |
| `Assoc.LStrHash` | include/assoc.h:73 | the string map's hash is MurmurHash2 of the payload alone, whatever memory follows it |
| `Assoc.LStrEqualKeysHashEqual` | include/assoc.h:70-74 | keys equal under `lstrcmp` have equal lengths and get equal MurmurHash2 and X31 hashes, whatever memory follows them |
| `Plugin.Init` | core/plugin.c:44-49 | the registry starts with count 0 and an empty list |
| `Plugin.Attach` | core/plugin.c:78-125 | rejections happen in the fixed order load, symbol, version, type, interface version, init, allocation. Only an init return of exactly -1 fails, and a NULL init is accepted. `init` runs only after the earlier checks pass. A rejected library that was opened is closed. On success the plugin is appended at the tail and count rises by one; on rejection the registry is unchanged |
| `Plugin.ExampleAttaches` | plugin/example/example.c:48-60 | the example descriptor passes every check and becomes the one registered plugin |
| `Plugin.LastIndexOf` | core/plugin.c:130 | `strrchr` finds the last occurrence of the character, or none exactly when it does not occur |
| `Plugin.PluginIs` | core/plugin.c:127-134 | a name is a plugin file iff it ends in ".so"; a name without '.' never is |
| `Plugin.PluginIsExamples` | core/plugin.c:127-134 | "a.so" is a plugin file; "a.so.1", "libexample", "." and ".." are not |
| `Plugin.IsCandidate` | core/plugin.c:146-149 | an entry is tried iff its name ends in ".so"; the "." and ".." tests never decide anything, since neither ends in ".so" |
| `Plugin.JoinPath` | core/plugin.c:151 | no contract of its own: the `"%s/%s"` join of directory and entry name |
| `Plugin.Candidates` | core/plugin.c:145-149 | filtering the listing keeps at most its entries |
| `Plugin.CandidatesMembers` | core/plugin.c:145-149 | `plugin_attach` is tried on an entry iff it is in the listing, is not "." or "..", and is a plugin file |
| `Plugin.AttachOutcomes` | core/plugin.c:145-152 | there is one `plugin_attach` result per candidate |
| `Plugin.AttachOutcomesAt` | core/plugin.c:150-152 | the k-th attach of a directory load is `plugin_attach` of the k-th candidate as "dir/name" against the registry the earlier candidates left, so whether its init hook ran and whether its library was closed follow from `Plugin.Attach` |
| `Plugin.AttachEntry` | core/plugin.c:150-152 | one entry either leaves the registry unchanged or appends one plugin loaded from "dir/name" |
| `Plugin.AttachEach` | core/plugin.c:145-153 | attaching the candidates in order keeps the registry valid, never drops or reorders earlier plugins, and adds at most one plugin per candidate |
| `Plugin.AttachEachPaths` | core/plugin.c:150-152 | every plugin added by a directory load came from "dir/name" for one of its entries |
| `Plugin.AttachDir` | core/plugin.c:136-155 | an unreadable directory changes nothing. Otherwise the paths tried are "dir/name" for the candidates in enumeration order, the outcome of each attach is returned in that order, and the registry is the one obtained by attaching those candidates in that order |
| `Plugin.Free` | core/plugin.c:51-61 | the events are, plugin by plugin in registration order, its `free` hook call when it has one followed by the close of its library |
| `Plugin.FreeSchedulePrefix` | core/plugin.c:55-60 | everything done for an earlier plugin happens before anything done for a later one |
| `Plugin.FreeScheduleMembers` | core/plugin.c:56-59 | a hook is called exactly for the plugins that have one, and every plugin's library is closed |
| `Plugin.FreeSchedule` | core/plugin.c:55-60 | no contract of its own: the events of tearing down the first n plugins, one plugin after the other |
| `Plugin.HookAlwaysThenClose` | core/plugin.c:56-59 | wherever plugin i's hook is called, the very next event closes plugin i's own library, so no hook runs after its library is unloaded |
| `Plugin.HookThenClose` | core/plugin.c:56-59 | every plugin with a hook has it called, immediately followed by the close of its own library |
| `Box.RequestFlagsAreDistinctBits` | mod/box/box.h:83-87 | each request flag is a single bit and no two flags share a bit |
| `Box.AllowedFlagsMask` | mod/box/box.h:83-91 | the client mask is 0x17; it admits return-tuple, add, replace and not-store and never the internal GC flag |
| `Box.MessageId` | mod/box/box.h:113-119 | every live request id lies in 13..22 and is not a retired id |
| `Box.DecodeMessage` | mod/box/box.h:113-119 | a decoded request id maps back to the same id |
| `Box.MessageIdRoundTrip` | mod/box/box.h:113-119 | every request type's id decodes to that type, so the live ids are pairwise distinct |
| `Box.DeprecatedIdsRange` | mod/box/box.h:93-111 | the retired ids are exactly 1 to 16 except 13 |
| `Box.DecodeOp` | mod/box/box.h:126-133 | a code byte decodes to an operation with that code, and to none exactly when it exceeds 6 |
| `Box.OpCode` | mod/box/box.h:126-133 | every operation code lies in 0..6 |
| `Box.OpCodeBijection` | mod/box/box.h:126-133 | the seven operation codes are distinct values in 0..6 and decode back to their operations |
| `Box.DecodeOps` | mod/box/box.h:43-44 | a request with more than 128 operations is refused. Otherwise an unknown code is reported at its first position, or every code is decoded in order |
| `Box.DecodeEach` | mod/box/box.h:126-133 | decoding from a position on reports the first unknown code or decodes each code to the operation it denotes |
| `Box.DecodeOpsRoundTrip` | mod/box/box.h:126-133 | encoding at most 128 operations and decoding the codes gives the operations back |

## Left out

- The update interpreter that applies set, arithmetic, splice and delete operations to a tuple is not part of this model. Its source is not among the files modelled, so only the operation codes are modelled.
- `test/box/update_fields.c` and `test/connector_c/update_fields.c` are network clients that print the server's replies. They state nothing to model.
- `connector/c/tnt_txn.c` only writes transaction headers to a socket, and `include/wal_writer.h` declares a disk writer interface with no logic. Both are I/O.
- `dlopen`, `dlsym`, `dlclose` and `dlerror` become the `Load` input, the `closed` field of `Attached` and the `Closed` events of `Plugin.Free`. `opendir` and `readdir` become the listing input. `malloc` and `strdup` failure become `allocOk`, one flag for both allocations, since both fail the same way.
- Logging (`say_*`), the message text that `plugin_attach_ret` formats, and `plugin_print` are left out; they only log. Rejections are reported as `AttachError` values.
- The 1024-byte `snprintf` truncation of "dir/name" in `plugin_attach_dir` is not modelled; paths are unbounded strings.
- Plugin.Free: freeing each entry's path string is not modelled (memory management). Like the source, it does not reset the registry.
- The `iface` pointer of `struct plugin_if` is opaque to the core and is not modelled. The `init` hook is represented by the value it returns, and the `free` hook by whether it is present.
- Registry `count` is a C `int`; its overflow after 2^31 plugins is not modelled.
- MurmurHash2 (third_party), the `mhash.h` table internals, the `assoc_foreach` macro and `load_varint32` are not part of this model. A length-prefixed string is its decoded length and the memory after the prefix.
- Assoc.X31HashLoop: the source stores the u32 length in an `int`, so lengths of 2^31 or more become negative. With wrap-around, the `l--` loop still runs exactly `len` times, so the model iterates `len` times. Signed overflow of `h` is modelled as 32-bit wrap-around.
- Assoc.MemCmp: returns -1, 0 or 1. C fixes only the sign of `memcmp`, so the model states no magnitude.
- Box.DecodeOps: the request parser that enforces the 128-operation cap and rejects unknown codes lives in the box module's source, which is not part of this model. DecodeOps states what the constants and the opcode table allow.
- Box.AllowedFlagsMask: how the request handler applies the mask to a client's flags is not part of this model. The lemma states which flags the mask admits.
- `struct space`, `struct box_txn`, `struct box_out` and the transaction functions declared in `mod/box/box.h` have no logic in the header. `BOX_INDEX_MAX` (10) and `BOX_NAMESPACE_MAX` (256) are kept as constants only.
