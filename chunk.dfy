/** `ChunkRef`, the reference to one chunk of a blob, and its codec to and from
    the `chunk_ref` message (src/blob/chunk.rs). */
module Chunk {
  import opened Wrappers
  import opened Words
  import M = ChunkMessage

  /** `xsalsa20poly1305::KEYBYTES`, the secretbox key size. */
  const KEYBYTES: nat := 32

  /** `xsalsa20poly1305::Key`, a fixed array of KEYBYTES bytes. */
  type SecretboxKey = k: seq<byte> | |k| == KEYBYTES witness seq(KEYBYTES, _ => 0)

  datatype Packing = GZip | Snappy

  datatype Key = XSalsa20Poly1305(secret: SecretboxKey)

  datatype Kind = TreeBranch | TreeLeaf {
    /** The explicit Rust discriminant: `TreeBranch = 1`, `TreeLeaf = 2`. */
    function Discriminant(): (d: int)
      ensures d == 1 <==> this == TreeBranch
      ensures d == 2 <==> this == TreeLeaf
    {
      match this
      case TreeBranch => 1
      case TreeLeaf => 2
    }
  }

  datatype ChunkRef = ChunkRef(
    blobId: seq<byte>,
    offset: usize,
    length: usize,
    kind: Kind,
    packing: Option<Packing>,
    key: Option<Key>)

  /** How `read_msg` can fail: a Cap'n Proto error it returns through `try!`, or
      the panic of `expect("Incorrect key-size")`, after which nothing is
      returned to any caller. */
  datatype ReadFailure = Capnp(error: M.CapnpError) | Aborted(message: string)

  const KEY_SIZE_ABORT: string := "Incorrect key-size"

  // ---------------------------------------------------------------------------
  // Writing: populate_msg

  /** The one `kind` arm that `populate_msg` sets for `k`. */
  function KindArm(k: Kind): (w: M.KindWhich)
    ensures w == M.TreeLeaf <==> k == TreeLeaf
    ensures w == M.TreeBranch <==> k == TreeBranch
  {
    match k
    case TreeLeaf => M.TreeLeaf
    case TreeBranch => M.TreeBranch
  }

  /** The `key` arm that `populate_msg` sets: the key's own bytes, or `none`. */
  function KeyArm(k: Option<Key>): (w: M.KeyWhich)
    ensures w == M.KeyNone <==> k == None
    ensures w.Xsalsa20Poly1305? <==> k.Some?
    ensures k.Some? ==> w.data == M.Data(k.value.secret)
  {
    match k
    case Some(XSalsa20Poly1305(secret)) => M.Xsalsa20Poly1305(M.Data(secret))
    case None => M.KeyNone
  }

  /** The one `packing` arm that `populate_msg` sets for `p`. */
  function PackingArm(p: Option<Packing>): (w: M.PackingWhich)
    ensures w == M.PackingNone <==> p == None
    ensures w == M.Gzip <==> p == Some(GZip)
    ensures w == M.Snappy <==> p == Some(Snappy)
  {
    match p
    case None => M.PackingNone
    case Some(GZip) => M.Gzip
    case Some(Snappy) => M.Snappy
  }

  /** The message that `populate_msg` leaves in the builder for `c`. */
  function MessageOf(c: ChunkRef): (m: M.ChunkRefMsg)
  {
    M.ChunkRefMsg(
      M.Data(c.blobId),
      UsizeAsI64(c.offset),
      UsizeAsI64(c.length),
      KindArm(c.kind),
      PackingArm(c.packing),
      KeyArm(c.key))
  }

  /** `populate_msg`: sets each field of the builder in turn. Every field is
      written, so the result does not depend on what the builder held before. */
  method PopulateMsg(c: ChunkRef, msg: M.ChunkRefBuilder)
    modifies msg
    ensures msg.Reader() == MessageOf(c)
    ensures M.Built(msg.Reader())
  {
    var offset, length := UsizeAsI64(c.offset), UsizeAsI64(c.length);
    msg.SetBlobId(c.blobId);
    msg.SetOffset(offset);
    msg.SetLength(length);
    match c.kind {
      case TreeLeaf => msg.SetKind(M.TreeLeaf);
      case TreeBranch => msg.SetKind(M.TreeBranch);
    }
    assert msg.kind == KindArm(c.kind);
    if c.key.Some? {
      msg.SetKey(M.Xsalsa20Poly1305(M.Data(c.key.value.secret)));
    } else {
      msg.SetKey(M.KeyNone);
    }
    assert msg.key == KeyArm(c.key);
    match c.packing {
      case None => msg.SetPacking(M.PackingNone);
      case Some(GZip) => msg.SetPacking(M.Gzip);
      case Some(Snappy) => msg.SetPacking(M.Snappy);
    }
  }

  // ---------------------------------------------------------------------------
  // Reading: read_msg

  /** `try!(field)` on a data pointer. */
  function ReadData(f: M.DataField): (r: Result<seq<byte>, ReadFailure>)
  {
    match f
    case Data(bytes) => Success(bytes)
    case Malformed => Failure(Capnp(M.MalformedPointer))
  }

  /** `Key::from_slice`: a key exactly when the slice has KEYBYTES bytes. */
  function KeyFromSlice(s: seq<byte>): (r: Option<SecretboxKey>)
    ensures r.Some? <==> |s| == KEYBYTES
    ensures r.Some? ==> r.value == s
  {
    if |s| == KEYBYTES then Some(s) else None
  }

  function ReadKind(w: M.KindWhich): (r: Result<Kind, ReadFailure>)
    ensures r.Success? <==> !w.KindNotInSchema?
    ensures r.Success? ==> KindArm(r.value) == w
    ensures w.KindNotInSchema? ==> r.error == Capnp(M.NotInSchema(w.discriminant))
  {
    match w
    case TreeBranch => Success(TreeBranch)
    case TreeLeaf => Success(TreeLeaf)
    case KindNotInSchema(d) => Failure(Capnp(M.NotInSchema(d)))
  }

  function ReadPacking(w: M.PackingWhich): (r: Result<Option<Packing>, ReadFailure>)
    ensures r.Success? <==> !w.PackingNotInSchema?
    ensures r.Success? ==> PackingArm(r.value) == w
    ensures w.PackingNotInSchema? ==> r.error == Capnp(M.NotInSchema(w.discriminant))
  {
    match w
    case PackingNone => Success(None)
    case Gzip => Success(Some(GZip))
    case Snappy => Success(Some(Snappy))
    case PackingNotInSchema(d) => Failure(Capnp(M.NotInSchema(d)))
  }

  function ReadKey(w: M.KeyWhich): (r: Result<Option<Key>, ReadFailure>)
    ensures r.Success? <==> w.KeyNone? || (w.Xsalsa20Poly1305? && w.data.Data? && |w.data.bytes| == KEYBYTES)
    ensures r.Success? ==> KeyArm(r.value) == w
    ensures r.Failure? && r.error.Aborted? <==> w.Xsalsa20Poly1305? && w.data.Data? && |w.data.bytes| != KEYBYTES
    ensures w.KeyNotInSchema? ==> r == Failure(Capnp(M.NotInSchema(w.discriminant)))
    ensures w.Xsalsa20Poly1305? && w.data.Malformed? ==> r == Failure(Capnp(M.MalformedPointer))
  {
    match w
    case KeyNone => Success(None)
    case Xsalsa20Poly1305(data) =>
      var bytes :- ReadData(data);
      (match KeyFromSlice(bytes)
       case Some(k) => Success(Some(XSalsa20Poly1305(k)))
       case None => Failure(Aborted(KEY_SIZE_ABORT)))
    case KeyNotInSchema(d) => Failure(Capnp(M.NotInSchema(d)))
  }

  /** A message `read_msg` turns into a `ChunkRef`: every pointer readable,
      every union on a known arm, and a key of exactly KEYBYTES bytes. */
  predicate Decodable(m: M.ChunkRefMsg) {
    && m.blobId.Data?
    && !m.kind.KindNotInSchema?
    && !m.packing.PackingNotInSchema?
    && !m.key.KeyNotInSchema?
    && (m.key.Xsalsa20Poly1305? ==> m.key.data.Data? && |m.key.data.bytes| == KEYBYTES)
  }

  /** A message on which `read_msg` reaches the `expect` with a key of the
      wrong size: the fields read before the key are all readable. */
  predicate AbortsOnKeySize(m: M.ChunkRefMsg) {
    && m.blobId.Data?
    && !m.kind.KindNotInSchema?
    && !m.packing.PackingNotInSchema?
    && m.key.Xsalsa20Poly1305?
    && m.key.data.Data?
    && |m.key.data.bytes| != KEYBYTES
  }

  /** `read_msg`: the fields are read in the order they are written in the
      struct literal (blob id, offset, length, kind, packing, key), and the
      first one that fails decides the failure. */
  function ReadMsg(m: M.ChunkRefMsg): (r: Result<ChunkRef, ReadFailure>)
    ensures r.Success? <==> Decodable(m)
    ensures r.Failure? && r.error.Aborted? <==> AbortsOnKeySize(m)
    ensures r.Failure? && r.error.Aborted? ==> r.error.message == KEY_SIZE_ABORT
    ensures m.blobId.Malformed? ==> r == Failure(Capnp(M.MalformedPointer))
    ensures m.blobId.Data? && m.kind.KindNotInSchema? ==> r == Failure(Capnp(M.NotInSchema(m.kind.discriminant)))
    ensures m.blobId.Data? && !m.kind.KindNotInSchema? && m.packing.PackingNotInSchema?
      ==> r == Failure(Capnp(M.NotInSchema(m.packing.discriminant)))
    ensures m.blobId.Data? && !m.kind.KindNotInSchema? && !m.packing.PackingNotInSchema? && ReadKey(m.key).Failure?
      ==> r == Failure(ReadKey(m.key).error)
    ensures r.Success? ==> r.value.blobId == m.blobId.bytes
    ensures r.Success? && m.offset >= 0 ==> r.value.offset as int == m.offset as int
    ensures r.Success? && m.offset < 0 ==> r.value.offset as int >= TWO_TO_THE_63
    ensures r.Success? && m.length >= 0 ==> r.value.length as int == m.length as int
    ensures r.Success? && m.length < 0 ==> r.value.length as int >= TWO_TO_THE_63
  {
    var blobId :- ReadData(m.blobId);
    var offset := I64AsUsize(m.offset);
    var length := I64AsUsize(m.length);
    var kind :- ReadKind(m.kind);
    var packing :- ReadPacking(m.packing);
    var key :- ReadKey(m.key);
    Success(ChunkRef(blobId, offset, length, kind, packing, key))
  }

  // ---------------------------------------------------------------------------
  // The packed byte form: as_bytes and from_bytes

  /** The Cap'n Proto packed serialiser, a library outside this model:
      `write_message` into a byte vector and `read_message` plus `get_root` from
      the front of a byte slice, which also yields the unread rest. */
  datatype Serializer = Serializer(
    write: M.ChunkRefMsg -> seq<byte>,
    read: seq<byte> -> Result<(M.ChunkRefMsg, seq<byte>), M.CapnpError>)

  /** A serialiser whose reader gives back every message its writer wrote,
      whatever bytes follow it. */
  ghost predicate SelfDelimiting(s: Serializer) {
    forall m: M.ChunkRefMsg, rest: seq<byte> | M.Built(m) ::
      s.read(s.write(m) + rest) == Success((m, rest))
  }

  /** `as_bytes`: populates a fresh builder and writes it out. */
  method AsBytes(c: ChunkRef, s: Serializer) returns (out: seq<byte>)
    ensures out == s.write(MessageOf(c))
  {
    var message := new M.ChunkRefBuilder();
    PopulateMsg(c, message);
    out := s.write(message.Reader());
  }

  /** `from_bytes`: reads one message off the front of `bytes` and decodes it;
      on success also gives the rest of the slice, which the source leaves in
      its `&mut &[u8]` argument. */
  function FromBytes(bytes: seq<byte>, s: Serializer): (r: Result<(ChunkRef, seq<byte>), ReadFailure>)
    ensures s.read(bytes).Failure? ==> r == Failure(Capnp(s.read(bytes).error))
    ensures s.read(bytes).Success? ==> (r.Success? <==> Decodable(s.read(bytes).value.0))
    ensures s.read(bytes).Success? && r.Failure? ==> r.error == ReadMsg(s.read(bytes).value.0).error
    ensures r.Success? ==> MessageOf(r.value.0) == s.read(bytes).value.0
    ensures r.Success? ==> r.value.1 == s.read(bytes).value.1
  {
    match s.read(bytes)
    case Failure(e) => Failure(Capnp(e))
    case Success((m, rest)) =>
      var c :- ReadMsg(m);
      Success((c, rest))
  }
}
