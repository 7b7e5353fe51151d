/**
 * The byte cursor `rctBuffer`: a read-only buffer and a position that every read moves
 * forward. Each method is proved to return what the matching function of `Reads` says and
 * to leave the position where that function says.
 */
module ByteCursor {
  import opened JsRuntime
  import opened Wrappers
  import opened Reads

  class RctBuffer {
    /** Which copy of the cursor this is; it selects `getIntArray` and `getString`. */
    const edition: Edition
    /** `_rawdata`. */
    const data: seq<Byte>
    /** `_pos`. */
    var pos: nat

    constructor (edition: Edition, rawdata: seq<Byte>)
      ensures this.edition == edition && data == rawdata && pos == 0
    {
      this.edition := edition;
      data := rawdata;
      pos := 0;
    }

    /** `getInt(size)`: shift-and-add `size` bytes, then `>>> 0`. */
    method GetInt(size: nat) returns (v: nat)
      modifies this
      ensures Read(v, pos) == IntAt(data, old(pos), size)
    {
      var rst: int := 0;
      var n := 0;
      while n < size
        invariant n <= size && pos == old(pos) + n
        invariant rst == ShiftSum(Window(data, old(pos), n))
      {
        assert Window(data, old(pos), n + 1)[..n] == Window(data, old(pos), n);
        rst := rst + ShiftedByte(Ord(data, pos), n);
        pos := pos + 1;
        n := n + 1;
      }
      v := Uint32(rst);
    }

    /** `getInt2Arr(length)`: `length` one-byte reads. */
    method GetInt2Arr(length: nat) returns (r: seq<Byte>)
      modifies this
      ensures Read(r, pos) == BytesAt(data, old(pos), length)
    {
      r := [];
      var n := 0;
      while n < length
        invariant n <= length && pos == old(pos) + n
        invariant r == Window(data, old(pos), n)
      {
        IntAtOneByte(data, pos);
        var b := GetInt(1);
        r := r + [b];
        n := n + 1;
      }
    }

    /** `readInt(data, start, size)`: the shift-and-add over another array, without `>>> 0`. */
    method ReadInt(d: seq<Byte>, start: nat, size: nat) returns (v: int)
      ensures v == ShiftSum(Window(d, start, size))
    {
      v := 0;
      var n := 0;
      while n < size
        invariant n <= size
        invariant v == ShiftSum(Window(d, start, n))
      {
        assert Window(d, start, n + 1)[..n] == Window(d, start, n);
        v := v + ShiftedByte(Ord(d, start + n), n);
        n := n + 1;
      }
    }

    /** `readInt2Arr(data, start, size)`: a copy of `size` elements of another array. */
    method ReadInt2Arr(d: seq<Byte>, start: nat, size: nat) returns (r: seq<Byte>)
      requires start + size <= |d|
      ensures r == d[start..start + size]
    {
      r := [];
      var n := 0;
      while n < size
        invariant n <= size
        invariant r == d[start..start + n]
      {
        r := r + [d[start + n]];
        n := n + 1;
      }
    }

    /** `getTimestamp(size)`. */
    method GetTimestamp(size: nat) returns (v: nat)
      modifies this
      ensures Read(v, pos) == IntAt(data, old(pos), size)
    {
      v := GetInt(size);
    }

    /** `getMoney(size)`: a money field is read unsigned, like every other integer. */
    method GetMoney(size: nat) returns (v: nat)
      modifies this
      ensures Read(v, pos) == IntAt(data, old(pos), size)
    {
      v := GetInt(size);
    }

    /** `getBool()`: a 4-byte integer, returned as a number. */
    method GetBool() returns (v: nat)
      modifies this
      ensures Read(v, pos) == IntAt(data, old(pos), 4)
    {
      v := GetInt(4);
    }

    /** `getIntArray()`. */
    method GetIntArray() returns (r: seq<nat>)
      modifies this
      ensures Read(r, pos) == IntArrayAt(edition, data, old(pos))
    {
      var count := GetInt(4);
      var width := GetInt(4);
      if edition == Dist && width == 0 {
        // `if (arrayElementSize <= 0) return [];` (the width is never negative)
        return [];
      }
      r := GetIntElems(count, width);
    }

    /** The element loop of `getIntArray()`: `count` reads of `width` bytes. */
    method GetIntElems(count: nat, width: nat) returns (r: seq<nat>)
      modifies this
      ensures Read(r, pos) == IntElems(data, old(pos), width, count)
    {
      r := [];
      var i := 0;
      while i < count
        invariant i <= count
        invariant Read(r, pos) == IntElems(data, old(pos), width, i)
      {
        var v := GetInt(width);
        r := r + [v];
        i := i + 1;
      }
    }

    /** `getStringArray()`. */
    method GetStringArray() returns (r: seq<Str>)
      modifies this
      ensures Read(r, pos) == StringArrayAt(edition, data, old(pos))
    {
      var count := GetInt(4);
      var width := GetInt(4);
      r := GetStringElems(count, width);
      if count == 0 {
        // the format writes a lone terminator for an empty array
        pos := pos + 1;
      }
    }

    /** The element loop of `getStringArray()`: terminated strings, or `width`-byte blocks. */
    method GetStringElems(count: nat, width: nat) returns (r: seq<Str>)
      modifies this
      ensures Read(r, pos) == StringElems(edition, data, old(pos), width, count)
    {
      r := [];
      var i := 0;
      while i < count
        invariant i <= count
        invariant Read(r, pos) == StringElems(edition, data, old(pos), width, i)
      {
        var s;
        if width == 0 {
          s := GetString();
        } else {
          s := GetChar(width);
        }
        r := r + [s];
        i := i + 1;
      }
    }

    /** `getResearchItemArray()`. */
    method GetResearchItemArray() returns (r: seq<ResearchItem>)
      modifies this
      ensures Read(r, pos) == ResearchItemArrayAt(data, old(pos))
    {
      var count := GetInt(4);
      var width := GetInt(4);
      ghost var start := pos;
      r := [];
      var i := 0;
      while i < count
        invariant i <= count
        invariant Read(r, pos) == ResearchItems(data, start, i)
      {
        var entry := GetResearchItem(4);
        if entry.Some? {
          r := r + [entry.value];
        }
        i := i + 1;
      }
    }

    /** `getStringTable()`. */
    method GetStringTable() returns (t: StringTable)
      modifies this
      ensures Read(t, pos) == StringTableAt(edition, data, old(pos))
    {
      var length := GetInt(4);
      var elementSize := GetInt(4);
      var lang := GetString();
      var value := GetString();
      t := StringTable(lang, value);
    }

    /** `getChar(size)`: `size` bytes taken as character codes. */
    method GetChar(size: nat) returns (s: Str)
      modifies this
      ensures Read(s, pos) == BytesAt(data, old(pos), size)
    {
      s := [];
      var n := 0;
      while n < size
        invariant n <= size && pos == old(pos) + n
        invariant s == Window(data, old(pos), n)
      {
        s := s + [Ord(data, pos)];
        pos := pos + 1;
        n := n + 1;
      }
    }

    /** `getString()`. */
    method GetString() returns (s: Str)
      modifies this
      ensures Read(s, pos) == StringAt(edition, data, old(pos))
    {
      var arr: Str := [];
      var n := 0;
      while n < MaxString
        invariant n <= MaxString && pos == old(pos) + n
        invariant arr == Window(data, old(pos), n)
        invariant FirstNul(data, old(pos), 0) == FirstNul(data, old(pos), n)
      {
        var ord := Ord(data, pos);
        var terminator := IsNul(data, pos);
        pos := pos + 1;
        n := n + 1;
        if terminator {
          return arr;
        }
        arr := arr + [ord];
      }
      s := (if edition == Lib then arr else []) + Ellipsis;
    }

    /** `getResearchItem(flagWidth)`. */
    method GetResearchItem(flagWidth: nat) returns (item: Option<ResearchItem>)
      modifies this
      ensures Read(item, pos) == ResearchItemAt(data, old(pos), flagWidth)
    {
      var hasValue := GetInt(flagWidth);
      if hasValue != 0 {
        var itemType := GetInt(4);
        var baseRideType := GetInt(4);
        var entryIndex := GetInt(4);
        var flags := GetInt(4);
        var category := GetInt(4);
        item := Some(ResearchItem(itemType, baseRideType, entryIndex, flags, category));
      } else {
        item := None;
      }
    }

    /** `getNewsItem()` (Dist only). */
    method GetNewsItem() returns (item: NewsItem)
      modifies this
      ensures Read(item, pos) == NewsItemAt(edition, data, old(pos))
    {
      var newsType := GetInt(4);
      var flags := GetInt(4);
      var assoc := GetInt(4);
      var ticks := GetInt(4);
      var monthYear := GetInt(4);
      var day := GetInt(4);
      var text := GetString();
      item := NewsItem(newsType, flags, assoc, ticks, monthYear, day, text);
    }
  }
}
