/**
 * The `.park` container as `getData` walks it: a 64-byte header, a directory of 20-byte
 * chunk entries, then the game data, optionally gzip-compressed, from which every chunk is
 * cut by offset and size and handed to `getChunk`. The results are folded into one object,
 * keyed by chunk id (OpenRCT2Lib.js) or by the property name the chunk was filed under
 * (dist/OpenRCT2Lib.js).
 */
module Container {
  import opened JsRuntime
  import opened Wrappers
  import opened Reads
  import opened Layouts

  const HeaderSize: nat := 64
  const EntrySize: nat := 20

  // ---------------------------------------------------------------------------
  // Header
  // ---------------------------------------------------------------------------

  datatype Header = Header(
    magic: nat, targetVersion: nat, minVersion: nat, numChunks: nat,
    uncompressedSize: nat, compression: nat, compressedSize: nat,
    fnv1a: seq<Byte>, padding: seq<Byte>)

  /** The header, read with a cursor over the first 64 bytes of the file. */
  function HeaderAt(raw: seq<Byte>): (r: Read<Header>)
    ensures r.next == HeaderSize
    ensures |r.val.fnv1a| == 8 && |r.val.padding| == 20
  {
    var h := Slice(raw, 0, HeaderSize);
    var magic := IntAt(h, 0, 4);
    var targetVersion := IntAt(h, magic.next, 4);
    var minVersion := IntAt(h, targetVersion.next, 4);
    var numChunks := IntAt(h, minVersion.next, 4);
    var uncompressedSize := IntAt(h, numChunks.next, 8);
    var compression := IntAt(h, uncompressedSize.next, 4);
    var compressedSize := IntAt(h, compression.next, 8);
    var fnv1a := BytesAt(h, compressedSize.next, 8);
    var padding := BytesAt(h, fnv1a.next, 20);
    Read(Header(magic.val, targetVersion.val, minVersion.val, numChunks.val,
                uncompressedSize.val, compression.val, compressedSize.val,
                fnv1a.val, padding.val),
         padding.next)
  }

  /** The 4-byte header fields are the little-endian words at offsets 0, 4, 8, 12 and 24. */
  lemma HeaderWords(raw: seq<Byte>)
    requires |raw| >= HeaderSize
    ensures var h := HeaderAt(raw).val;
      h.magic == LittleEndian(raw[0..4]) &&
      h.targetVersion == LittleEndian(raw[4..8]) &&
      h.minVersion == LittleEndian(raw[8..12]) &&
      h.numChunks == LittleEndian(raw[12..16]) &&
      h.compression == LittleEndian(raw[24..28])
  {
    var s := raw[0..HeaderSize];
    IntAtLittleEndian(s, 0, 4);
    IntAtLittleEndian(s, 4, 4);
    IntAtLittleEndian(s, 8, 4);
    IntAtLittleEndian(s, 12, 4);
    IntAtLittleEndian(s, 24, 4);
    assert s[0..4] == raw[0..4] && s[4..8] == raw[4..8] && s[8..12] == raw[8..12];
    assert s[12..16] == raw[12..16] && s[24..28] == raw[24..28];
  }

  /** The two 8-byte sizes come back as the sum of their halves mod 2^32. */
  lemma HeaderSizes(raw: seq<Byte>)
    requires |raw| >= HeaderSize
    ensures var h := HeaderAt(raw).val;
      h.uncompressedSize == (LittleEndian(raw[16..20]) + LittleEndian(raw[20..24])) % TWO_32 &&
      h.compressedSize == (LittleEndian(raw[28..32]) + LittleEndian(raw[32..36])) % TWO_32
  {
    var s := raw[0..HeaderSize];
    IntAtEightBytes(s, 16);
    IntAtEightBytes(s, 28);
    assert s[16..20] == raw[16..20] && s[20..24] == raw[20..24];
    assert s[28..32] == raw[28..32] && s[32..36] == raw[32..36];
  }

  /** The checksum and the padding are bytes 36 to 44 and 44 to 64. */
  lemma HeaderBytes(raw: seq<Byte>)
    requires |raw| >= HeaderSize
    ensures var h := HeaderAt(raw).val;
      h.fnv1a == raw[36..44] && h.padding == raw[44..64]
  {
    var s := raw[0..HeaderSize];
    WindowBytes(s, 36, 8);
    WindowBytes(s, 44, 20);
    assert s[36..44] == raw[36..44] && s[44..64] == raw[44..64];
  }

  // ---------------------------------------------------------------------------
  // Directory
  // ---------------------------------------------------------------------------

  /** `OpenRCT2Lib.getInt`: the shift-and-add without `>>> 0`, so it can be negative. */
  function SignedIntAt(raw: seq<Byte>, pos: nat, size: nat): (r: Read<int>)
    ensures r.next == pos + size
  {
    Read(ShiftSum(Window(raw, pos, size)), pos + size)
  }

  /** Inside the file, the 4-byte read is the two's-complement little-endian word. */
  lemma SignedIntAtFourBytes(raw: seq<Byte>, pos: nat)
    requires pos + 4 <= |raw|
    ensures SignedIntAt(raw, pos, 4).val == Int32(LittleEndian(raw[pos..pos + 4]))
    ensures -TWO_31 <= SignedIntAt(raw, pos, 4).val < TWO_31
  {
    WindowBytes(raw, pos, 4);
    SignedFourByteRead(Window(raw, pos, 4));
  }

  /** Inside the file, the 8-byte read is the sum of its two signed words, without wrapping. */
  lemma SignedIntAtEightBytes(raw: seq<Byte>, pos: nat)
    requires pos + 8 <= |raw|
    ensures SignedIntAt(raw, pos, 8).val
         == Int32(LittleEndian(raw[pos..pos + 4])) + Int32(LittleEndian(raw[pos + 4..pos + 8]))
  {
    var w := Window(raw, pos, 8);
    WindowBytes(raw, pos, 8);
    assert w[..4] == raw[pos..pos + 4] && w[4..] == raw[pos + 4..pos + 8];
    SignedEightByteRead(w);
  }

  /** One directory entry: `[_chunkID, _chunkOffset, _chunkSize]`. */
  datatype ChunkEntry = ChunkEntry(id: int, offset: int, size: int)

  function EntryAt(raw: seq<Byte>, pos: nat): (r: Read<ChunkEntry>)
    ensures r.next == pos + EntrySize
  {
    var id := SignedIntAt(raw, pos, 4);
    var offset := SignedIntAt(raw, id.next, 8);
    var size := SignedIntAt(raw, offset.next, 8);
    Read(ChunkEntry(id.val, offset.val, size.val), size.next)
  }

  /** The directory entry read, at any position. */
  function EntryStep(raw: seq<Byte>): nat -> Read<ChunkEntry>
  {
    (q: nat) => EntryAt(raw, q)
  }

  /** The first `n` directory entries, in file order, and where they end. */
  function Entries(raw: seq<Byte>, pos: nat, n: nat): Read<seq<ChunkEntry>>
  {
    Chain(EntryStep(raw), pos, n)
  }

  /** The `n` entries take 20 bytes each. */
  lemma EntriesShape(raw: seq<Byte>, pos: nat, n: nat)
    ensures |Entries(raw, pos, n).val| == n
    ensures Entries(raw, pos, n).next == pos + EntrySize * n
    ensures forall k: nat :: k < n ==> Entries(raw, pos, n).val[k] == EntryAt(raw, Offset(pos, k, EntrySize)).val
  {
    ChainShape(EntryStep(raw), pos, EntrySize, n);
  }

  /** The first `n` directory entries, in file order. */
  function Directory(raw: seq<Byte>, pos: nat, n: nat): (es: seq<ChunkEntry>)
    ensures |es| == n
  {
    ChainLength(EntryStep(raw), pos, n);
    Entries(raw, pos, n).val
  }

  /** Entry `k` of the directory is the one read at `pos + 20 * k`. */
  lemma DirectoryEntry(raw: seq<Byte>, pos: nat, n: nat, k: nat)
    requires k < n
    ensures Directory(raw, pos, n)[k] == EntryAt(raw, pos + EntrySize * k).val
  {
    EntriesShape(raw, pos, n);
  }

  /** Inside the file, an entry's id is its signed word and offset and size are not folded. */
  lemma EntryFields(raw: seq<Byte>, pos: nat)
    requires pos + EntrySize <= |raw|
    ensures var e := EntryAt(raw, pos).val;
      e.id == Int32(LittleEndian(raw[pos..pos + 4])) &&
      e.offset == Int32(LittleEndian(raw[pos + 4..pos + 8])) + Int32(LittleEndian(raw[pos + 8..pos + 12])) &&
      e.size == Int32(LittleEndian(raw[pos + 12..pos + 16])) + Int32(LittleEndian(raw[pos + 16..pos + 20]))
  {
    SignedIntAtFourBytes(raw, pos);
    SignedIntAtEightBytes(raw, pos + 4);
    SignedIntAtEightBytes(raw, pos + 12);
  }

  // ---------------------------------------------------------------------------
  // Game data and chunk bytes
  // ---------------------------------------------------------------------------

  /**
   * Everything after the directory, passed through `inflate` (pako's `ungzip`, `None` when it
   * throws) when the header says the compression is 1.
   */
  function GameData(raw: seq<Byte>, start: nat, compression: nat,
                    inflate: seq<Byte> -> Option<seq<Byte>>): (g: Option<seq<Byte>>)
    ensures compression != 1 ==> g == Some(if start <= |raw| then raw[start..] else [])
    ensures compression == 1 ==> g == inflate(Slice(raw, start, |raw|))
  {
    var rest := Slice(raw, start, |raw|);
    assert start <= |raw| ==> rest == raw[start..];
    if compression == 1 then inflate(rest) else Some(rest)
  }

  /** `gameData.slice(_chunkOffset, _chunkOffset + _chunkSize)`. */
  function ChunkBytes(game: seq<Byte>, e: ChunkEntry): (r: seq<Byte>)
    ensures 0 <= e.offset && 0 <= e.size && e.offset + e.size <= |game| ==>
      r == game[e.offset..e.offset + e.size]
    ensures e.size <= 0 && (e.offset < 0 <==> e.offset + e.size < 0) ==> r == []
    ensures 0 <= e.offset <= |game| <= e.offset + e.size ==> r == game[e.offset..]
  {
    Slice(game, e.offset, e.offset + e.size)
  }

  // ---------------------------------------------------------------------------
  // Folding chunks into the result object
  // ---------------------------------------------------------------------------

  /**
   * Assigning every chunk to the result object in order: `key` gives the property an entry
   * is assigned to (`None` when nothing is assigned) and `val` the value. A later assignment
   * overwrites an earlier one.
   */
  function Collect<K(==)>(es: seq<ChunkEntry>, key: ChunkEntry -> Option<K>, val: ChunkEntry -> Chunk): map<K, Chunk>
  {
    if es == [] then map[]
    else
      var m := Collect(es[..|es| - 1], key, val);
      var last := es[|es| - 1];
      if key(last).Some? then m[key(last).value := val(last)] else m
  }

  /** A property is set exactly when some entry is assigned to it. */
  lemma {:induction false} CollectKeys<K>(es: seq<ChunkEntry>, key: ChunkEntry -> Option<K>, val: ChunkEntry -> Chunk, k: K)
    ensures k in Collect(es, key, val) <==> exists e :: e in es && key(e) == Some(k)
  {
    if es != [] {
      var init, last := es[..|es| - 1], es[|es| - 1];
      assert es == init + [last];
      CollectKeys(init, key, val, k);
    }
  }

  /** The value of a property is the one its last assignment gives. */
  lemma {:induction false} CollectLastWins<K>(es: seq<ChunkEntry>, key: ChunkEntry -> Option<K>, val: ChunkEntry -> Chunk, j: nat)
    requires j < |es| && key(es[j]).Some?
    requires forall i :: j < i < |es| ==> key(es[i]) != key(es[j])
    ensures key(es[j]).value in Collect(es, key, val)
    ensures Collect(es, key, val)[key(es[j]).value] == val(es[j])
  {
    var init := es[..|es| - 1];
    if j < |es| - 1 {
      assert init[j] == es[j];
      forall i | j < i < |init|
        ensures key(init[i]) != key(init[j])
      {
        assert init[i] == es[i];
      }
      CollectLastWins(init, key, val, j);
    }
  }

  /** One more entry of the directory: `rst[key] = value` when it has a key, nothing otherwise. */
  lemma CollectStep<K>(es: seq<ChunkEntry>, key: ChunkEntry -> Option<K>, val: ChunkEntry -> Chunk, c: nat)
    requires c < |es|
    ensures Collect(es[..c + 1], key, val) ==
      if key(es[c]).Some? then Collect(es[..c], key, val)[key(es[c]).value := val(es[c])]
      else Collect(es[..c], key, val)
  {
    assert es[..c + 1][..c] == es[..c];
  }

  /** Every two assignments to the same property assign the same value. */
  ghost predicate KeysDetermine<K>(es: seq<ChunkEntry>, key: ChunkEntry -> Option<K>, val: ChunkEntry -> Chunk)
  {
    forall e1, e2 :: e1 in es && e2 in es && key(e1).Some? && key(e1) == key(e2) ==> val(e1) == val(e2)
  }

  /** When the property determines the value, every assignment survives in the result. */
  lemma {:induction false} CollectAgrees<K>(es: seq<ChunkEntry>, key: ChunkEntry -> Option<K>, val: ChunkEntry -> Chunk, e: ChunkEntry)
    requires KeysDetermine(es, key, val) && e in es && key(e).Some?
    ensures key(e).value in Collect(es, key, val)
    ensures Collect(es, key, val)[key(e).value] == val(e)
  {
    var init, last := es[..|es| - 1], es[|es| - 1];
    assert es == init + [last];
    if key(last) != key(e) {
      assert e in init;
      CollectAgrees(init, key, val, e);
    }
  }

  /**
   * When the property determines the value, the order of the assignments does not matter:
   * any permutation of the entries gives the same object.
   */
  lemma CollectReorder<K>(a: seq<ChunkEntry>, b: seq<ChunkEntry>, key: ChunkEntry -> Option<K>, val: ChunkEntry -> Chunk)
    requires multiset(a) == multiset(b) && KeysDetermine(a, key, val)
    ensures Collect(a, key, val) == Collect(b, key, val)
  {
    forall e
      ensures e in a <==> e in b
    {
      assert e in a <==> e in multiset(a);
      assert e in b <==> e in multiset(b);
    }
    var ma, mb := Collect(a, key, val), Collect(b, key, val);
    forall k | k in mb
      ensures k in ma
    {
      CollectKeys(a, key, val, k);
      CollectKeys(b, key, val, k);
    }
    forall k | k in ma
      ensures k in mb && ma[k] == mb[k]
    {
      CollectKeys(a, key, val, k);
      var e :| e in a && key(e) == Some(k);
      CollectAgrees(a, key, val, e);
      CollectAgrees(b, key, val, e);
    }
  }

  // ---------------------------------------------------------------------------
  // getData
  // ---------------------------------------------------------------------------

  /** What `getData` of OpenRCT2Lib.js returns: `{header, chunkData}`. */
  datatype LibPark = LibPark(header: Header, chunkData: map<int, Chunk>)

  /** What `new OpenRCT2Lib(path)` of dist/OpenRCT2Lib.js returns: the header and one property per chunk. */
  datatype DistPark = DistPark(header: Header, sections: map<string, Chunk>)

  /** OpenRCT2Lib.js files every chunk under its id. */
  function LibKey(e: ChunkEntry): Option<int>
  {
    Some(e.id)
  }

  /** `this.getChunk(_chunkID, currentChunkData)` of OpenRCT2Lib.js. */
  function LibValue(game: seq<Byte>): ChunkEntry -> Chunk
  {
    (e: ChunkEntry) => LibChunk(e.id, ChunkBytes(game, e))
  }

  /**
   * `if (_key && _key != '0')`: the key of the object `getChunk` returned, which depends on
   * the id alone (`DistChunkKey`).
   */
  function DistFileKey(e: ChunkEntry): (k: Option<string>)
    ensures k.None? <==> e.id == RestrictedObjectsId
  {
    var k := DistKey(e.id);
    if k.Some? && k.value != "" && k.value != "0" then k else None
  }

  /** `_chunkData[_key]`: the value under that key. */
  function DistValue(game: seq<Byte>): ChunkEntry -> Chunk
  {
    (e: ChunkEntry) =>
      var r := DistChunk(e.id, ChunkBytes(game, e));
      if r.Some? then r.value.1 else Empty
  }

  /** The directory `getData` reads when its cursor starts at `pos`. */
  function DirectoryOf(raw: seq<Byte>, pos: nat): seq<ChunkEntry>
  {
    Directory(raw, pos + HeaderSize, HeaderAt(raw).val.numChunks)
  }

  /** The game data: whatever follows the directory, inflated when the header asks for it. */
  function GameOf(raw: seq<Byte>, pos: nat, inflate: seq<Byte> -> Option<seq<Byte>>): Option<seq<Byte>>
  {
    var header := HeaderAt(raw).val;
    GameData(raw, pos + HeaderSize + EntrySize * header.numChunks, header.compression, inflate)
  }

  /** Where the game data starts once the header and the directory have been read. */
  lemma GameOfAt(raw: seq<Byte>, pos: nat, inflate: seq<Byte> -> Option<seq<Byte>>, start: nat)
    requires start == pos + HeaderSize + EntrySize * HeaderAt(raw).val.numChunks
    ensures GameOf(raw, pos, inflate) == GameData(raw, start, HeaderAt(raw).val.compression, inflate)
  {
  }

  /**
   * The second half of `getData` in OpenRCT2Lib.js: sort the directory, cut each chunk out of
   * the game data, decode it and file it by id. `reorder` is what the engine's `sort` does with
   * the comparator `a[1] < b[1]`; a missing game is the exception pako throws.
   */
  function LibAssemble(header: Header, dir: seq<ChunkEntry>, game: Option<seq<Byte>>,
                       reorder: seq<ChunkEntry> -> seq<ChunkEntry>): Option<LibPark>
  {
    if game.None? then None
    else Some(LibPark(header, Collect(reorder(dir), LibKey, LibValue(game.value))))
  }

  /** The same for dist/OpenRCT2Lib.js, filing each chunk under the key `getChunk` chose. */
  function DistAssemble(header: Header, dir: seq<ChunkEntry>, game: Option<seq<Byte>>,
                        reorder: seq<ChunkEntry> -> seq<ChunkEntry>): Option<DistPark>
  {
    if game.None? then None
    else Some(DistPark(header, Collect(reorder(dir), DistFileKey, DistValue(game.value))))
  }

  /** `getData` of OpenRCT2Lib.js with the cursor at `pos`. */
  function DecodeLib(raw: seq<Byte>, pos: nat, reorder: seq<ChunkEntry> -> seq<ChunkEntry>,
                     inflate: seq<Byte> -> Option<seq<Byte>>): Option<LibPark>
  {
    LibAssemble(HeaderAt(raw).val, DirectoryOf(raw, pos), GameOf(raw, pos, inflate), reorder)
  }

  /** `getData` of dist/OpenRCT2Lib.js, which its constructor returns. */
  function DecodeDist(raw: seq<Byte>, pos: nat, reorder: seq<ChunkEntry> -> seq<ChunkEntry>,
                      inflate: seq<Byte> -> Option<seq<Byte>>): Option<DistPark>
  {
    DistAssemble(HeaderAt(raw).val, DirectoryOf(raw, pos), GameOf(raw, pos, inflate), reorder)
  }

  /** The only way decoding fails is pako throwing on a compressed file. */
  lemma DecodeFails(raw: seq<Byte>, pos: nat, reorder: seq<ChunkEntry> -> seq<ChunkEntry>,
                    inflate: seq<Byte> -> Option<seq<Byte>>)
    ensures DecodeLib(raw, pos, reorder, inflate).None? <==> GameOf(raw, pos, inflate).None?
    ensures DecodeDist(raw, pos, reorder, inflate).None? <==> GameOf(raw, pos, inflate).None?
    ensures GameOf(raw, pos, inflate).None? ==> HeaderAt(raw).val.compression == 1
  {
  }

  /** Permutation of the directory: what a sort may do. */
  predicate Permutes(reorder: seq<ChunkEntry> -> seq<ChunkEntry>, es: seq<ChunkEntry>)
  {
    multiset(reorder(es)) == multiset(es)
  }

  predicate DistinctIds(es: seq<ChunkEntry>)
  {
    forall i, j :: 0 <= i < |es| && 0 <= j < |es| && es[i].id == es[j].id ==> i == j
  }

  /**
   * In OpenRCT2Lib.js, when the ids are distinct, `chunkData` has one property per entry,
   * holding that entry's chunk, whatever order the sort leaves them in.
   */
  lemma LibChunkData(header: Header, dir: seq<ChunkEntry>, game: seq<Byte>,
                     reorder: seq<ChunkEntry> -> seq<ChunkEntry>)
    requires Permutes(reorder, dir) && DistinctIds(dir)
    ensures var r := LibAssemble(header, dir, Some(game), reorder);
      r.Some? && r.value.header == header &&
      (forall id :: id in r.value.chunkData <==> exists e :: e in dir && e.id == id) &&
      (forall e :: e in dir ==> r.value.chunkData[e.id] == LibChunk(e.id, ChunkBytes(game, e)))
  {
    var val := LibValue(game);
    assert KeysDetermine(dir, LibKey, val) by {
      forall e1, e2 | e1 in dir && e2 in dir && e1.id == e2.id
        ensures e1 == e2
      {
        var i :| 0 <= i < |dir| && dir[i] == e1;
        var j :| 0 <= j < |dir| && dir[j] == e2;
      }
    }
    CollectReorder(dir, reorder(dir), LibKey, val);
    var m := Collect(dir, LibKey, val);
    forall id
      ensures id in m <==> exists e :: e in dir && e.id == id
    {
      CollectKeys(dir, LibKey, val, id);
    }
    forall e | e in dir
      ensures m[e.id] == LibChunk(e.id, ChunkBytes(game, e))
    {
      CollectAgrees(dir, LibKey, val, e);
    }
  }

  /** Entries the dist decoder keeps apart: one per known id, at most one unknown. */
  predicate DistinctDistKeys(es: seq<ChunkEntry>)
  {
    forall i, j ::
      0 <= i < |es| && 0 <= j < |es| &&
      (es[i].id == es[j].id || (es[i].id !in DistIds && es[j].id !in DistIds))
      ==> i == j
  }

  /** The key `DistFileKey` gives is the key of the object `getChunk` returns. */
  lemma DistFileKeyAgrees(game: seq<Byte>, e: ChunkEntry)
    ensures DistFileKey(e).Some? <==> DistChunk(e.id, ChunkBytes(game, e)).Some?
    ensures DistFileKey(e).Some? ==>
      DistChunk(e.id, ChunkBytes(game, e)) == Some((DistFileKey(e).value, DistValue(game)(e)))
  {
    DistChunkKey(e.id, ChunkBytes(game, e));
    DistKeyNotZero(e.id, ChunkBytes(game, e));
  }

  /**
   * In dist/OpenRCT2Lib.js, when no two entries share a property, the sort order does not
   * matter, and every entry except a restricted-objects one is filed under its key.
   */
  lemma DistSections(header: Header, dir: seq<ChunkEntry>, game: seq<Byte>,
                     reorder: seq<ChunkEntry> -> seq<ChunkEntry>)
    requires Permutes(reorder, dir) && DistinctDistKeys(dir)
    ensures var r := DistAssemble(header, dir, Some(game), reorder);
      r.Some? && r.value.header == header &&
      (forall key :: key in r.value.sections <==> exists e :: e in dir && DistKey(e.id) == Some(key)) &&
      (forall e :: e in dir && e.id != RestrictedObjectsId ==>
         DistKey(e.id).value in r.value.sections &&
         DistChunk(e.id, ChunkBytes(game, e)) == Some((DistKey(e.id).value, r.value.sections[DistKey(e.id).value])))
  {
    var val := DistValue(game);
    assert KeysDetermine(dir, DistFileKey, val) by {
      forall e1, e2 | e1 in dir && e2 in dir && DistFileKey(e1).Some? && DistFileKey(e1) == DistFileKey(e2)
        ensures e1 == e2
      {
        DistKeyInjective(e1.id, e2.id);
        var i :| 0 <= i < |dir| && dir[i] == e1;
        var j :| 0 <= j < |dir| && dir[j] == e2;
      }
    }
    CollectReorder(dir, reorder(dir), DistFileKey, val);
    var m := Collect(dir, DistFileKey, val);
    forall key
      ensures key in m <==> exists e :: e in dir && DistKey(e.id) == Some(key)
    {
      CollectKeys(dir, DistFileKey, val, key);
      forall e: ChunkEntry | DistKey(e.id) == Some(key)
        ensures DistFileKey(e) == Some(key)
      {
      }
    }
    forall e | e in dir && e.id != RestrictedObjectsId
      ensures DistKey(e.id).value in m
      ensures DistChunk(e.id, ChunkBytes(game, e)) == Some((DistKey(e.id).value, m[DistKey(e.id).value]))
    {
      DistFileKeyAgrees(game, e);
      CollectAgrees(dir, DistFileKey, val, e);
    }
  }

  /**
   * Every unknown chunk is filed under "unknown", and the one the sort puts last is kept, so
   * with more than one the result depends on the engine's sort.
   */
  lemma DistLastUnknownWins(header: Header, dir: seq<ChunkEntry>, game: seq<Byte>,
                            reorder: seq<ChunkEntry> -> seq<ChunkEntry>, j: nat)
    requires j < |reorder(dir)| && reorder(dir)[j].id !in DistIds
    requires forall i :: j < i < |reorder(dir)| ==> reorder(dir)[i].id in DistIds
    ensures var r := DistAssemble(header, dir, Some(game), reorder);
      r.Some? && "unknown" in r.value.sections &&
      r.value.sections["unknown"] == Raw(ChunkBytes(game, reorder(dir)[j]))
  {
    var sorted := reorder(dir);
    var e := sorted[j];
    DistFileKeyAgrees(game, e);
    DistUnknownChunks(e.id, ChunkBytes(game, e));
    forall i | j < i < |sorted|
      ensures DistFileKey(sorted[i]) != DistFileKey(e)
    {
    }
    CollectLastWins(sorted, DistFileKey, DistValue(game), j);
  }

  /** An empty file reads as an all-zero header: every word, digest byte and padding byte is 0. */
  lemma EmptyHeader()
    ensures var h := HeaderAt([]).val;
      h.magic == 0 && h.targetVersion == 0 && h.minVersion == 0 && h.numChunks == 0 &&
      h.uncompressedSize == 0 && h.compression == 0 && h.compressedSize == 0 &&
      (forall k :: 0 <= k < |h.fnv1a| ==> h.fnv1a[k] == 0) &&
      (forall k :: 0 <= k < |h.padding| ==> h.padding[k] == 0)
  {
    EmptyHeaderWords();
    ShortHeaderBytes([]);
  }

  lemma EmptyHeaderWords()
    ensures var h := HeaderAt([]).val;
      h.magic == 0 && h.targetVersion == 0 && h.minVersion == 0 && h.numChunks == 0 &&
      h.uncompressedSize == 0 && h.compression == 0 && h.compressedSize == 0
  {
    var s := Slice([], 0, HeaderSize);
    assert s == [];
    IntAtPastEnd(s, 0, 4);
    IntAtPastEnd(s, 4, 4);
    IntAtPastEnd(s, 8, 4);
    IntAtPastEnd(s, 12, 4);
    IntAtPastEnd(s, 16, 8);
    IntAtPastEnd(s, 24, 4);
    IntAtPastEnd(s, 28, 8);
  }

  /** A file that ends before byte 36 has an all-zero digest and padding. */
  lemma ShortHeaderBytes(raw: seq<Byte>)
    requires |raw| <= 36
    ensures var h := HeaderAt(raw).val;
      (forall k :: 0 <= k < |h.fnv1a| ==> h.fnv1a[k] == 0) &&
      (forall k :: 0 <= k < |h.padding| ==> h.padding[k] == 0)
  {
    var s := Slice(raw, 0, HeaderSize);
    assert |s| <= 36;
    HeaderTail(raw);
    WindowBytes(s, 36, 8);
    WindowBytes(s, 44, 20);
  }

  /** The digest and the padding are the byte windows at 36 and 44 of the header's slice. */
  lemma HeaderTail(raw: seq<Byte>)
    ensures var h := HeaderAt(raw).val;
      h.fnv1a == Window(Slice(raw, 0, HeaderSize), 36, 8) &&
      h.padding == Window(Slice(raw, 0, HeaderSize), 44, 20)
  {
  }

  /** An empty file decodes to that header and no chunks, not to an error. */
  lemma EmptyFile(reorder: seq<ChunkEntry> -> seq<ChunkEntry>, inflate: seq<Byte> -> Option<seq<Byte>>)
    requires reorder([]) == []
    ensures DecodeLib([], 0, reorder, inflate) == Some(LibPark(HeaderAt([]).val, map[]))
    ensures DecodeDist([], 0, reorder, inflate) == Some(DistPark(HeaderAt([]).val, map[]))
  {
    EmptyHeader();
    assert DirectoryOf([], 0) == [];
    assert GameOf([], 0, inflate) == Some([]);
  }
}
