/** What the chunk-reference codec promises, stated over all inputs. */
module ChunkLaws {
  import opened Wrappers
  import opened Words
  import M = ChunkMessage
  import opened Chunk

  /** Every message `populate_msg` writes is one the builder can produce. */
  lemma MessageOfIsBuilt(c: ChunkRef)
    ensures M.Built(MessageOf(c))
  {
  }

  /** Round trip: reading back the message written for `c` gives `c`. */
  lemma RoundTrip(c: ChunkRef)
    ensures ReadMsg(MessageOf(c)) == Success(c)
  {
  }

  /** The other direction: every message `read_msg` accepts is exactly the
      message `populate_msg` writes for what it read. */
  lemma WriteAfterRead(m: M.ChunkRefMsg)
    requires ReadMsg(m).Success?
    ensures MessageOf(ReadMsg(m).value) == m
  {
  }

  /** Distinct chunk references are written as distinct messages. */
  lemma MessageOfInjective(c: ChunkRef, d: ChunkRef)
    requires MessageOf(c) == MessageOf(d)
    ensures c == d
  {
  }

  /** An unreadable pointer or a discriminant outside the schema, in any
      field, makes `read_msg` return an error rather than a value or an abort. */
  lemma UnreadableFieldIsError(m: M.ChunkRefMsg)
    requires || m.blobId.Malformed?
             || m.kind.KindNotInSchema?
             || m.packing.PackingNotInSchema?
             || m.key.KeyNotInSchema?
             || (m.key.Xsalsa20Poly1305? && m.key.data.Malformed?)
    ensures ReadMsg(m).Failure? && ReadMsg(m).error.Capnp?
  {
  }

  /** A key payload of the wrong size never yields a `ChunkRef`. */
  lemma WrongKeySizeRejected(m: M.ChunkRefMsg)
    requires m.key.Xsalsa20Poly1305? && m.key.data.Data?
    requires |m.key.data.bytes| != KEYBYTES
    ensures ReadMsg(m).Failure?
  {
  }

  /** Byte-level round trip: with a self-delimiting serialiser, `from_bytes`
      reads back from the output of `as_bytes` the same `ChunkRef`, and leaves
      whatever followed it unread. */
  lemma FromBytesAfterAsBytes(c: ChunkRef, s: Serializer, rest: seq<byte>)
    requires SelfDelimiting(s)
    ensures FromBytes(s.write(MessageOf(c)) + rest, s) == Success((c, rest))
  {
  }
}
