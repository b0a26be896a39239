# Chunk-reference codec of hat-backup, in Dafny

A `ChunkRef` names one chunk of stored data. It holds the id of the blob that
contains the chunk, the chunk's byte offset and length inside that blob, its
kind (a tree leaf or a tree branch), an optional packing (GZip or Snappy) and
an optional XSalsa20-Poly1305 secretbox key. `src/blob/chunk.rs` converts a
`ChunkRef` to and from a Cap'n Proto `chunk_ref` message. The message has a
blob-id byte field, two signed 64-bit fields and three one-of unions (`kind`,
`key`, `packing`).

The model has five modules:

- `Wrappers` (wrappers.dfy): `Option` and `Result`.
- `Words` (words.dfy): the machine words of a 64-bit target (`byte`, `u16`,
  `i64`, `usize`) and Rust's `as` casts between `usize` and `i64`. A 64-bit
  word is also modelled as its bits (`Bits`), with an unsigned reading
  (`Unsigned`) and a two's-complement reading (`Signed`). Lemmas prove that
  each cast is the other reading of the same word.
- `ChunkMessage` (message.dfy): the `chunk_ref` message as a datatype. Each
  union also has a "not in schema" case for a discriminant the generated
  `which()` does not know. A pointer field can be unreadable. The mutable
  message builder that `populate_msg` fills in is the class `ChunkRefBuilder`,
  with one setter per field.
- `Chunk` (chunk.dfy): the enums `Packing`, `Key` and `Kind`, the struct
  `ChunkRef`, and the codec. `PopulateMsg` is a method that sets the builder's
  fields one by one, as the source does. It is proved to leave the message
  `MessageOf(c)` in the builder. `ReadMsg` is a function returning a `Result`.
  `AsBytes` and `FromBytes` wrap these around the packed serialiser, which is
  passed in as a parameter.
- `ChunkLaws` (chunk_laws.dfy): the round trips in both directions,
  injectivity of the encoding, the error cases and the byte-level round trip.

`read_msg` reads the fields in the order the struct literal lists them: blob
id, offset, length, kind, packing, key. The first field that fails decides the
error. An unreadable pointer or an unknown union discriminant is returned as a
Cap'n Proto error (`ReadFailure.Capnp`). A key payload that is readable but not
exactly 32 bytes long reaches `expect("Incorrect key-size")`, which panics.
The model represents that panic as the separate outcome
`ReadFailure.Aborted("Incorrect key-size")`. In the source, no caller ever sees
this outcome as a returned value. A recoverable format error would be the
safer design for this input. The code panics, and the model follows the code.

A key in a `ChunkRef` has the type `SecretboxKey`: byte sequences of exactly
`KEYBYTES` = 32 bytes. This matches the fixed-size array inside
`xsalsa20poly1305::Key`. So the round trip `ReadMsg(MessageOf(c)) == Success(c)`
holds for every `ChunkRef`.

## Model

| member | source | states |
|---|---|---|
| `Words.UsizeAsI64` | src/blob/chunk.rs:71-72 | `as i64` gives a value congruent to the `usize` modulo 2^64, negative exactly when the `usize` is at least 2^63 |
| `Words.I64AsUsize` | src/blob/chunk.rs:94-95 | `as usize` gives a value congruent to the `i64` modulo 2^64; a non-negative value is unchanged; a negative value reads as at least 2^63 |
| `Words.UsizeAsI64IsSignedReading` | src/blob/chunk.rs:71-72 | `as i64` equals the two's-complement reading of the `usize`'s 64 bits |
| `Words.I64AsUsizeIsUnsignedReading` | src/blob/chunk.rs:94-95 | `as usize` equals the unsigned reading of the `i64`'s 64 bits |
| `Words.UsizeAsI64KeepsWord` | src/blob/chunk.rs:71-72 | `as i64` keeps all 64 bits of the `usize` |
| `Words.I64AsUsizeKeepsWord` | src/blob/chunk.rs:94-95 | `as usize` keeps all 64 bits of the `i64` |
| `Words.UsizeSurvivesI64` | src/blob/chunk.rs:71-72 | every `usize` written as `i64` and read back as `usize` is unchanged |
| `Words.I64SurvivesUsize` | src/blob/chunk.rs:94-95 | every `i64` read as `usize` and written back as `i64` is unchanged |
| `Words.UsizeAsI64Injective` | src/blob/chunk.rs:71-72 | distinct offsets or lengths are stored as distinct `i64` values |
| `ChunkMessage.ChunkRefBuilder.constructor` | src/blob/chunk.rs:57-59 | a fresh root struct has an empty blob id and zero offset and length |
| `ChunkMessage.ChunkRefBuilder.SetBlobId` | src/blob/chunk.rs:70 | stores the given bytes as the blob id and changes no other field |
| `ChunkMessage.ChunkRefBuilder.SetOffset` | src/blob/chunk.rs:71 | stores the offset and changes no other field |
| `ChunkMessage.ChunkRefBuilder.SetLength` | src/blob/chunk.rs:72 | stores the length and changes no other field |
| `ChunkMessage.ChunkRefBuilder.SetKind` | src/blob/chunk.rs:73-76 | puts the `kind` union on the given schema arm and changes no other field |
| `ChunkMessage.ChunkRefBuilder.SetKey` | src/blob/chunk.rs:78-82 | puts the `key` union on `none` or on `xsalsa20_poly1305` with the given bytes, and changes no other field |
| `ChunkMessage.ChunkRefBuilder.SetPacking` | src/blob/chunk.rs:84-88 | puts the `packing` union on the given schema arm and changes no other field |
| `Chunk.Kind.Discriminant` | src/blob/chunk.rs:32-35 | the discriminant is 1 exactly for `TreeBranch` and 2 exactly for `TreeLeaf` |
| `Chunk.KindArm` | src/blob/chunk.rs:73-76 | `TreeLeaf` maps to the `tree_leaf` arm and `TreeBranch` to the `tree_branch` arm, in both directions |
| `Chunk.KeyArm` | src/blob/chunk.rs:78-82 | no key maps to the `none` arm, and a key to the `xsalsa20_poly1305` arm carrying exactly the key's bytes |
| `Chunk.PackingArm` | src/blob/chunk.rs:84-88 | `None`, `GZip` and `Snappy` map one-to-one onto the `none`, `gzip` and `snappy` arms |
| `Chunk.PopulateMsg` | src/blob/chunk.rs:69-89 | after the call the builder holds `MessageOf(c)`, whatever it held before, and that message can be produced by a builder |
| `Chunk.KeyFromSlice` | src/blob/chunk.rs:108 | gives a key exactly when the slice has 32 bytes, and the key is that slice |
| `Chunk.ReadKind` | src/blob/chunk.rs:96-99 | succeeds exactly on a known arm, and then inverts `KindArm`; an unknown discriminant is returned as a not-in-schema error |
| `Chunk.ReadPacking` | src/blob/chunk.rs:100-104 | succeeds exactly on a known arm, and then inverts `PackingArm`; an unknown discriminant is returned as a not-in-schema error |
| `Chunk.ReadKey` | src/blob/chunk.rs:105-111 | succeeds exactly on `none` or on a readable 32-byte payload, and then inverts `KeyArm`; a readable payload of another size panics; an unknown discriminant is returned as a not-in-schema error and an unreadable payload as a malformed-pointer error |
| `Chunk.ReadMsg` | src/blob/chunk.rs:91-113 | succeeds exactly on decodable messages; panics exactly when the key is the first failing field and has the wrong size; the first field that fails decides the error: an unreadable blob id whatever follows, then an unknown `kind` discriminant, then an unknown `packing` discriminant, then the error `ReadKey` gives for the key; on success the blob id is copied unchanged, and a non-negative stored offset or length is read as itself while a negative one is read as at least 2^63 |
| `Chunk.AsBytes` | src/blob/chunk.rs:56-67 | the bytes are the serialiser's output for `MessageOf(c)` |
| `Chunk.FromBytes` | src/blob/chunk.rs:48-54 | a framing or root error (`BadFraming` among them) is returned as such; otherwise it succeeds exactly when the message is decodable, returns the `ChunkRef` whose message is the one read, fails with exactly the error `read_msg` gives, and gives back the unread rest of the input |
| `ChunkLaws.MessageOfIsBuilt` | src/blob/chunk.rs:69-89 | every message written for a `ChunkRef` has readable pointers and known arms |
| `ChunkLaws.RoundTrip` | src/blob/chunk.rs:69-113 | `ReadMsg(MessageOf(c)) == Success(c)` for every `ChunkRef` |
| `ChunkLaws.WriteAfterRead` | src/blob/chunk.rs:69-113 | every message that `read_msg` accepts is exactly what `populate_msg` writes for the result |
| `ChunkLaws.MessageOfInjective` | src/blob/chunk.rs:69-89 | distinct chunk references give distinct messages |
| `ChunkLaws.UnreadableFieldIsError` | src/blob/chunk.rs:93-108 | an unreadable pointer or an unknown discriminant in any field gives a returned error, never a value or a panic |
| `ChunkLaws.WrongKeySizeRejected` | src/blob/chunk.rs:107-109 | a key payload that is not 32 bytes never yields a `ChunkRef` |
| `ChunkLaws.FromBytesAfterAsBytes` | src/blob/chunk.rs:48-67 | with a self-delimiting serialiser, `from_bytes` on the output of `as_bytes` followed by any bytes gives back the same `ChunkRef` and those bytes |

## Left out

- Cap'n Proto packed framing (`serialize_packed::read_message` and `write_message`) and the generated `root_capnp` accessors are library code. The serialiser is a parameter (`Chunk.Serializer`). The byte-level round trip assumes it is self-delimiting (`Chunk.SelfDelimiting`).
- Chunk.SelfDelimiting: the hypothesis covers every message a builder can produce, of any size. The real serialiser has limits. A Cap'n Proto list pointer counts its elements in 29 bits, so a blob id of 2^29 bytes or more cannot be stored by `set_blob_id`. `ReaderOptions::new()` caps a message at 8 Mi words (64 MiB), so `from_bytes` fails on a larger one. So `ChunkLaws.FromBytesAfterAsBytes` holds for the program only for chunk references within those limits. The schema layout that would give a message's exact size in words is not part of this model.
- Chunk.FromBytes: on any failure, whether in the framing or after it, the source may already have advanced the caller's slice. The model returns only the error, not the advanced slice.
- ChunkMessage.ChunkRefBuilder.constructor: which arm a zeroed union starts on depends on the schema's field order, and the schema file is not part of this model. The constructor promises nothing about the unions. `populate_msg` sets all three, so its result does not depend on them.
- `usize` is modelled for a 64-bit target only. On a 32-bit target `as i64` would zero-extend and `as usize` would truncate. That case is not modelled.
- XSalsa20-Poly1305 encryption, GZip and Snappy compression are foreign libraries. The codec carries only their tags and the key bytes.
- The snapshot, commit, garbage-collection and recovery protocol that src/hat/tests.rs exercises is outside the scope of this model, which covers the chunk-reference codec only.
- The blob catalog of src/blob/schema.in.rs is a table declaration and two plain structs with no behaviour. Its `tag` column has no defined values or transitions in the code.
