/**
 * The class `OpenRCT2Lib`: the file's bytes, a position, the signed `getInt` and `getInt2Arr`
 * over them, `getChunk` (the dispatch on the chunk id) and `getData` (header, chunk
 * directory, game data, one `getChunk` per directory entry). Both copies of the library are
 * modelled; the methods of dist/OpenRCT2Lib.js carry the suffix `Dist`.
 */
module ParkFile {
  import opened JsRuntime
  import opened Wrappers
  import opened Reads
  import opened Layouts
  import opened ByteCursor
  import opened ChunkReader
  import opened Container

  /** The 64-byte header, read by its own `rctBuffer` over `_rawdata.slice(0, 64)`. */
  method ReadHeader(raw: seq<Byte>) returns (h: Header)
    ensures h == HeaderAt(raw).val
    ensures |h.fnv1a| == 8 && |h.padding| == 20
  {
    var headerBuffer := new RctBuffer(Lib, Slice(raw, 0, HeaderSize));
    var magic := headerBuffer.GetInt(4);
    var targetVersion := headerBuffer.GetInt(4);
    var minVersion := headerBuffer.GetInt(4);
    var numChunks := headerBuffer.GetInt(4);
    var uncompressedSize := headerBuffer.GetInt(8);
    var compression := headerBuffer.GetInt(4);
    var compressedSize := headerBuffer.GetInt(8);
    var fnv1a := headerBuffer.GetInt2Arr(8);
    var padding := headerBuffer.GetInt2Arr(20);
    h := Header(magic, targetVersion, minVersion, numChunks, uncompressedSize, compression,
                compressedSize, fnv1a, padding);
  }

  /** `this._rawdata.slice(this._pos)`, gunzipped when the header says so. */
  method ReadGameData(raw: seq<Byte>, start: nat, compression: nat,
                      inflate: seq<Byte> -> Option<seq<Byte>>) returns (g: Option<seq<Byte>>)
    ensures g == GameData(raw, start, compression, inflate)
  {
    var gameData := Slice(raw, start, |raw|);
    if compression == 1 {
      g := inflate(gameData);
    } else {
      g := Some(gameData);
    }
  }

  /** `getChunk` of OpenRCT2Lib.js: a fresh cursor over the chunk's bytes and a switch on the id. */
  method GetChunk(chunkID: int, chunkData: seq<Byte>) returns (r: Chunk)
    ensures r == LibChunk(chunkID, chunkData)
  {
    var chunk := new RctBuffer(Lib, chunkData);
    if chunkID in LibEmptyIds {
      r := Empty;
    } else if chunkID == AuthoringId {
      r := ReadAuthoring(chunk);
    } else if chunkID == ScenarioId {
      r := ReadScenario(chunk);
    } else if chunkID == GeneralId {
      r := ReadGeneral(chunk);
    } else if chunkID == ClimateId {
      r := ReadClimate(chunk);
    } else if chunkID == ParkId {
      r := ReadPark(chunk);
    } else if chunkID == ResearchId {
      r := ReadResearch(chunk);
    } else {
      r := Raw(chunkData);
    }
  }

  /**
   * `getChunk` of dist/OpenRCT2Lib.js: the one property of the object it returns, with its
   * value, or `None` for the restricted-objects chunk (an object without properties).
   */
  method GetChunkDist(chunkID: int, chunkData: seq<Byte>) returns (r: Option<(string, Chunk)>)
    ensures r == DistChunk(chunkID, chunkData)
  {
    var chunk := new RctBuffer(Dist, chunkData);
    if chunkID == AuthoringId {
      var v := ReadAuthoring(chunk);
      r := Some(("authoring", v));
    } else if chunkID == ObjectsId {
      var v := ReadObjects(chunk);
      r := Some(("object", v));
    } else if chunkID == ScenarioId {
      var v := ReadScenario(chunk);
      r := Some(("scenario", v));
    } else if chunkID == GeneralId {
      var v := ReadGeneral(chunk);
      r := Some(("general", v));
    } else if chunkID == ClimateId {
      var v := ReadClimate(chunk);
      r := Some(("climate", v));
    } else if chunkID == ParkId {
      var v := ReadPark(chunk);
      r := Some(("park", v));
    } else if chunkID == ResearchId {
      var v := ReadResearch(chunk);
      r := Some(("research", v));
    } else if chunkID == InterfaceId {
      var v := ReadInterface(chunk);
      r := Some(("interface", v));
    } else if chunkID == TilesId {
      var v := ReadTiles(chunk);
      r := Some(("tiles", v));
    } else if chunkID == NotificationsId {
      r := Some(("notifications", Empty));
    } else if chunkID == EntitiesId {
      r := Some(("entities", Empty));
    } else if chunkID == RidesId {
      r := Some(("rides", Empty));
    } else if chunkID == BannersId {
      r := Some(("banners", Empty));
    } else if chunkID == CheatsId {
      r := Some(("cheats", Empty));
    } else if chunkID == RestrictedObjectsId {
      r := None;
    } else if chunkID == PackedObjectsId {
      r := Some(("packedObjects", Empty));
    } else {
      r := Some(("unknown", Raw(chunkData)));
    }
  }

  class OpenRct2Lib {
    /** `_rawdata`, the whole file. */
    const data: seq<Byte>
    /** `_pos`. */
    var pos: nat

    /** The constructor of OpenRCT2Lib.js, once the file has been read. */
    constructor (rawdata: seq<Byte>)
      ensures data == rawdata && pos == 0
    {
      data := rawdata;
      pos := 0;
    }

    /** `getInt(size)` of the class: shift-and-add without `>>> 0`, so 4-byte values are signed. */
    method GetInt(size: nat) returns (v: int)
      modifies this
      ensures Read(v, pos) == SignedIntAt(data, old(pos), size)
    {
      var rst: int := 0;
      var n := 0;
      while n < size
        invariant n <= size && pos == old(pos) + n
        invariant rst == ShiftSum(Window(data, old(pos), n))
      {
        assert Window(data, old(pos), n + 1)[..n] == Window(data, old(pos), n);
        rst := rst + ShiftedByte(Ord(data, pos), n);
        pos := pos + 1;
        n := n + 1;
      }
      v := rst;
    }

    /** `getInt2Arr(length)` of the class in OpenRCT2Lib.js: `length` one-byte reads. */
    method GetInt2Arr(length: nat) returns (r: seq<Byte>)
      modifies this
      ensures Read(r, pos) == BytesAt(data, old(pos), length)
    {
      r := [];
      var n := 0;
      while n < length
        invariant n <= length && pos == old(pos) + n
        invariant r == Window(data, old(pos), n)
      {
        ghost var at := pos;
        var b := GetInt(1);
        var w := Window(data, at, 1);
        assert w[..0] == [] && w[0] == Ord(data, at);
        assert ShiftedByte(w[0], 0) == w[0];
        assert b == ShiftSum(w) == Ord(data, at);
        r := r + [b];
        n := n + 1;
      }
    }

    /** The directory loop of `getData`: `numChunks` entries of id, offset and size. */
    method ReadDirectory(numChunks: nat) returns (dir: seq<ChunkEntry>)
      modifies this
      ensures dir == Directory(data, old(pos), numChunks)
      ensures pos == old(pos) + EntrySize * numChunks
    {
      dir := [];
      var i := 0;
      while i < numChunks
        invariant i <= numChunks
        invariant Read(dir, pos) == Entries(data, old(pos), i)
      {
        var chunkID := GetInt(4);
        var chunkOffset := GetInt(8);
        var chunkSize := GetInt(8);
        dir := dir + [ChunkEntry(chunkID, chunkOffset, chunkSize)];
        i := i + 1;
      }
      EntriesShape(data, old(pos), numChunks);
    }

    /**
     * The part of `getData` before the chunk loop: the header, the `NumChunks` directory
     * entries that follow it, and the rest of the file as game data.
     */
    method ReadContainer(inflate: seq<Byte> -> Option<seq<Byte>>)
      returns (header: Header, dir: seq<ChunkEntry>, gameData: Option<seq<Byte>>)
      modifies this
      ensures header == HeaderAt(data).val
      ensures dir == DirectoryOf(data, old(pos))
      ensures gameData == GameOf(data, old(pos), inflate)
      ensures pos == old(pos) + HeaderSize + EntrySize * header.numChunks
    {
      header := ReadHeader(data);
      pos := pos + HeaderSize;
      dir := ReadDirectory(header.numChunks);
      assert dir == DirectoryOf(data, old(pos));
      ghost var gameStart := pos;
      gameData := ReadGameData(data, pos, header.compression, inflate);
      GameOfAt(data, old(pos), inflate, gameStart);
    }

    /** The chunk loop of `getData` in OpenRCT2Lib.js: `rst.chunkData[_chunkID] = this.getChunk(...)`. */
    method FileChunks(chunkMetaData: seq<ChunkEntry>, game: seq<Byte>) returns (chunks: map<int, Chunk>)
      ensures chunks == Collect(chunkMetaData, LibKey, LibValue(game))
    {
      chunks := map[];
      var c := 0;
      while c < |chunkMetaData|
        invariant c <= |chunkMetaData|
        invariant chunks == Collect(chunkMetaData[..c], LibKey, LibValue(game))
      {
        var e := chunkMetaData[c];
        var chunk := GetChunk(e.id, Slice(game, e.offset, e.offset + e.size));
        CollectStep(chunkMetaData, LibKey, LibValue(game), c);
        chunks := chunks[e.id := chunk];
        c := c + 1;
      }
      assert chunkMetaData[..c] == chunkMetaData;
    }

    /** `getData` of OpenRCT2Lib.js: every chunk filed under its id, in the sorted order. */
    method GetData(reorder: seq<ChunkEntry> -> seq<ChunkEntry>,
                   inflate: seq<Byte> -> Option<seq<Byte>>) returns (r: Option<LibPark>)
      modifies this
      ensures r == DecodeLib(data, old(pos), reorder, inflate)
      ensures pos == old(pos) + HeaderSize + EntrySize * HeaderAt(data).val.numChunks
    {
      var header, dir, gameData := ReadContainer(inflate);
      var chunkMetaData := reorder(dir);
      if gameData.None? {
        return None;
      }
      var chunks := FileChunks(chunkMetaData, gameData.value);
      r := Some(LibPark(header, chunks));
    }

    /**
     * The chunk loop of `getData` in dist/OpenRCT2Lib.js: the one property of the object
     * `getChunk` returned is copied into the result, unless there is none or it is `'0'`.
     */
    method FileSections(chunkMetaData: seq<ChunkEntry>, game: seq<Byte>) returns (sections: map<string, Chunk>)
      ensures sections == Collect(chunkMetaData, DistFileKey, DistValue(game))
    {
      sections := map[];
      var c := 0;
      while c < |chunkMetaData|
        invariant c <= |chunkMetaData|
        invariant sections == Collect(chunkMetaData[..c], DistFileKey, DistValue(game))
      {
        var e := chunkMetaData[c];
        var chunkData := GetChunkDist(e.id, Slice(game, e.offset, e.offset + e.size));
        DistFileKeyAgrees(game, e);
        CollectStep(chunkMetaData, DistFileKey, DistValue(game), c);
        if chunkData.Some? && chunkData.value.0 != "" && chunkData.value.0 != "0" {
          sections := sections[chunkData.value.0 := chunkData.value.1];
        }
        c := c + 1;
      }
      assert chunkMetaData[..c] == chunkMetaData;
    }

    /** `getData` of dist/OpenRCT2Lib.js. */
    method GetDataDist(reorder: seq<ChunkEntry> -> seq<ChunkEntry>,
                       inflate: seq<Byte> -> Option<seq<Byte>>) returns (r: Option<DistPark>)
      modifies this
      ensures r == DecodeDist(data, old(pos), reorder, inflate)
      ensures pos == old(pos) + HeaderSize + EntrySize * HeaderAt(data).val.numChunks
    {
      var header, dir, gameData := ReadContainer(inflate);
      var chunkMetaData := reorder(dir);
      if gameData.None? {
        return None;
      }
      var sections := FileSections(chunkMetaData, gameData.value);
      r := Some(DistPark(header, sections));
    }
  }

  /** `new OpenRCT2Lib(path)` of dist/OpenRCT2Lib.js, whose constructor returns `getData()`. */
  method LoadDist(rawdata: seq<Byte>, reorder: seq<ChunkEntry> -> seq<ChunkEntry>,
                  inflate: seq<Byte> -> Option<seq<Byte>>) returns (r: Option<DistPark>)
    ensures r == DecodeDist(rawdata, 0, reorder, inflate)
  {
    var lib := new OpenRct2Lib(rawdata);
    r := lib.GetDataDist(reorder, inflate);
  }
}
