/** The `chunk_ref` Cap'n Proto message as the codec sees it: plain fields, a
    pointer field for the blob id and three one-of unions. Each union holds what
    the generated `which()` reports, including a discriminant that is not in the
    schema. The generated accessors themselves are library code; this module
    states only what the codec relies on. */
module ChunkMessage {
  import opened Words

  /** A data (byte-list) pointer field: readable bytes, or a pointer that
      cannot be followed, so that its accessor fails. */
  datatype DataField = Data(bytes: seq<byte>) | Malformed

  datatype KindWhich = TreeLeaf | TreeBranch | KindNotInSchema(discriminant: u16)

  datatype PackingWhich = PackingNone | Gzip | Snappy | PackingNotInSchema(discriminant: u16)

  datatype KeyWhich = KeyNone | Xsalsa20Poly1305(data: DataField) | KeyNotInSchema(discriminant: u16)

  datatype ChunkRefMsg = ChunkRefMsg(
    blobId: DataField,
    offset: i64,
    length: i64,
    kind: KindWhich,
    packing: PackingWhich,
    key: KeyWhich)

  /** The errors Cap'n Proto reports: input that `read_message` or `get_root`
      cannot frame (truncated, or over the reader's limits), a pointer an
      accessor cannot follow, or a discriminant outside the schema. */
  datatype CapnpError = BadFraming | MalformedPointer | NotInSchema(discriminant: u16)

  /** A message that the generated builder can produce: every pointer readable
      and every union on an arm of the schema. */
  predicate Built(m: ChunkRefMsg) {
    && m.blobId.Data?
    && !m.kind.KindNotInSchema?
    && !m.packing.PackingNotInSchema?
    && (m.key.KeyNone? || (m.key.Xsalsa20Poly1305? && m.key.data.Data?))
  }

  /** The mutable `chunk_ref::Builder` that `populate_msg` fills in field by field. */
  class ChunkRefBuilder {
    var blobId: seq<byte>
    var offset: i64
    var length: i64
    var kind: KindWhich
    var packing: PackingWhich
    var key: KeyWhich

    /** `init_root`: a zeroed struct. Which arm a zeroed union is on depends on
        the schema's field order, so nothing is promised about the unions. */
    constructor ()
      ensures blobId == [] && offset == 0 && length == 0
    {
      blobId, offset, length := [], 0, 0;
    }

    /** The message as a reader of this builder sees it. */
    function Reader(): (m: ChunkRefMsg)
      reads this
    {
      ChunkRefMsg(Data(blobId), offset, length, kind, packing, key)
    }

    /** `set_blob_id`: stores a copy of the slice. */
    method SetBlobId(bytes: seq<byte>)
      modifies this`blobId
      ensures blobId == bytes
    {
      blobId := bytes;
    }

    method SetOffset(v: i64)
      modifies this`offset
      ensures offset == v
    {
      offset := v;
    }

    method SetLength(v: i64)
      modifies this`length
      ensures length == v
    {
      length := v;
    }

    /** `init_kind().set_tree_leaf(())` or `init_kind().set_tree_branch(())`. */
    method SetKind(w: KindWhich)
      requires !w.KindNotInSchema?
      modifies this`kind
      ensures kind == w
    {
      kind := w;
    }

    /** `init_packing().set_none(())`, `set_gzip(())` or `set_snappy(())`. */
    method SetPacking(w: PackingWhich)
      requires !w.PackingNotInSchema?
      modifies this`packing
      ensures packing == w
    {
      packing := w;
    }

    /** `init_key().set_none(())`, or `init_key().set_xsalsa20_poly1305(bytes)`,
        which stores a copy of the bytes. */
    method SetKey(w: KeyWhich)
      requires w.KeyNone? || (w.Xsalsa20Poly1305? && w.data.Data?)
      modifies this`key
      ensures key == w
    {
      key := w;
    }
  }
}
