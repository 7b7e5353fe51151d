/**
 * What each read of the byte cursor (`rctBuffer`) returns and where it leaves the cursor,
 * as functions of the buffer and the starting position. A read never fails: an index past
 * the end of a JavaScript Buffer yields `undefined`, which every read turns into 0 except
 * the terminator test of `getString`, for which `undefined === 0` is false.
 */
module Reads {
  import opened JsRuntime
  import opened Wrappers

  /** The two copies of the decoder: OpenRCT2Lib.js (Lib) and dist/OpenRCT2Lib.js (Dist). */
  datatype Edition = Lib | Dist

  /** A decoded value and the cursor position just after it. */
  datatype Read<+T> = Read(val: T, next: nat)

  /**
   * A decoded string as the bytes it came from. In Lib every byte becomes the character
   * with that code; in Dist the bytes go through a UTF-8 decoder, which is not modelled.
   */
  type Str = seq<Byte>

  /** `getString` gives up after this many bytes. */
  const MaxString: nat := 1024

  /** The `'...'` appended to a string that had no terminator. */
  const Ellipsis: Str := [46, 46, 46]

  datatype StringTable = StringTable(lang: Str, value: Str)

  datatype ResearchItem = ResearchItem(itemType: nat, baseRideType: nat, entryIndex: nat, flags: nat, category: nat)

  datatype NewsItem = NewsItem(newsType: nat, flags: nat, assoc: nat, ticks: nat, monthYear: nat, day: nat, text: Str)

  /** What `data[i]` contributes to `<<`, `fromCharCode` and `Buffer.from`: 0 past the end. */
  function Ord(data: seq<Byte>, i: nat): Byte
  {
    if i < |data| then data[i] else 0
  }

  /** `data[i] === 0`, which is false for an index past the end. */
  predicate IsNul(data: seq<Byte>, i: nat)
  {
    i < |data| && data[i] == 0
  }

  /** `data[pos + j] === 0`, the terminator test at offset `j` of a string read at `pos`. */
  predicate NulAt(data: seq<Byte>, pos: nat, j: nat)
  {
    IsNul(data, pos + j)
  }

  /** The `n` bytes a cursor at `pos` sees, with zeros past the end. */
  function Window(data: seq<Byte>, pos: nat, n: nat): (r: seq<Byte>)
    ensures |r| == n
  {
    if n == 0 then [] else Window(data, pos, n - 1) + [Ord(data, pos + n - 1)]
  }

  /** The window holds the bytes from `pos` on, and inside the buffer it is the slice itself. */
  lemma {:induction false} WindowBytes(data: seq<Byte>, pos: nat, n: nat)
    ensures forall k :: 0 <= k < n ==> Window(data, pos, n)[k] == Ord(data, pos + k)
    ensures pos + n <= |data| ==> Window(data, pos, n) == data[pos..pos + n]
  {
    if n > 0 {
      WindowBytes(data, pos, n - 1);
    }
  }

  /** `getInt(size)`: the shift-and-add of `size` bytes, then `>>> 0`. */
  function IntAt(data: seq<Byte>, pos: nat, size: nat): (r: Read<nat>)
    ensures r.val < TWO_32
  {
    Read(Uint32(ShiftSum(Window(data, pos, size))), pos + size)
  }

  /** `getInt2Arr(n)` and `getChar(n)`: `n` bytes taken one by one. */
  function BytesAt(data: seq<Byte>, pos: nat, n: nat): Read<seq<Byte>>
  {
    Read(Window(data, pos, n), pos + n)
  }

  /** The offset, below `MaxString` and not below `n`, of the first terminator after `pos`. */
  function FirstNul(data: seq<Byte>, pos: nat, n: nat): (r: Option<nat>)
    requires n <= MaxString
    ensures r.Some? ==> n <= r.value < MaxString && NulAt(data, pos, r.value)
    ensures r.Some? ==> forall j :: n <= j < r.value ==> !NulAt(data, pos, j)
    ensures r.None? <==> forall j :: n <= j < MaxString ==> !NulAt(data, pos, j)
    decreases MaxString - n
  {
    if n == MaxString then None
    else if NulAt(data, pos, n) then Some(n)
    else FirstNul(data, pos, n + 1)
  }

  /** `getString()`. */
  function StringAt(ed: Edition, data: seq<Byte>, pos: nat): Read<Str>
  {
    match FirstNul(data, pos, 0)
    case Some(k) => Read(Window(data, pos, k), pos + k + 1)
    case None => Read((if ed == Lib then Window(data, pos, MaxString) else []) + Ellipsis, pos + MaxString)
  }

  /**
   * `i` reads of `step`, each starting where the previous one stopped: the element loops of
   * the arrays and the row loop of the expenditure table.
   */
  function Chain<T>(step: nat -> Read<T>, pos: nat, i: nat): Read<seq<T>>
  {
    if i == 0 then Read([], pos)
    else
      var prev := Chain(step, pos, i - 1);
      var e := step(prev.next);
      Read(prev.val + [e.val], e.next)
  }

  /** Where the `k`-th of a run of `width`-byte reads from `pos` starts. */
  function Offset(pos: nat, k: nat, width: nat): nat
  {
    pos + k * width
  }

  /** One element of a string array: a terminated string when `width` is 0, else `width` bytes. */
  function StringElemAt(ed: Edition, data: seq<Byte>, pos: nat, width: nat): Read<Str>
  {
    if width == 0 then StringAt(ed, data, pos) else BytesAt(data, pos, width)
  }

  /** The element read of a string array, at any position. */
  function StringStep(ed: Edition, data: seq<Byte>, width: nat): nat -> Read<Str>
  {
    (q: nat) => StringElemAt(ed, data, q, width)
  }

  /** The first `i` elements of a string array whose elements start at `pos`. */
  function StringElems(ed: Edition, data: seq<Byte>, pos: nat, width: nat, i: nat): Read<seq<Str>>
  {
    Chain(StringStep(ed, data, width), pos, i)
  }

  /** `getStringArray()`: count, width, the elements, and one extra byte when the count is 0. */
  function StringArrayAt(ed: Edition, data: seq<Byte>, pos: nat): Read<seq<Str>>
  {
    var count := IntAt(data, pos, 4);
    var width := IntAt(data, count.next, 4);
    var elems := StringElems(ed, data, width.next, width.val, count.val);
    Read(elems.val, if count.val == 0 then elems.next + 1 else elems.next)
  }

  /** One element of an integer array: a `width`-byte `getInt`. */
  function IntStep(data: seq<Byte>, width: nat): nat -> Read<nat>
  {
    (q: nat) => IntAt(data, q, width)
  }

  /** The first `i` elements of an integer array whose elements start at `pos`. */
  function IntElems(data: seq<Byte>, pos: nat, width: nat, i: nat): Read<seq<nat>>
  {
    Chain(IntStep(data, width), pos, i)
  }

  /** `getIntArray()`; Dist returns `[]` right after the prefix when the width is not positive. */
  function IntArrayAt(ed: Edition, data: seq<Byte>, pos: nat): Read<seq<nat>>
  {
    var count := IntAt(data, pos, 4);
    var width := IntAt(data, count.next, 4);
    if ed == Dist && width.val == 0 then Read([], width.next)
    else IntElems(data, width.next, width.val, count.val)
  }

  /** `getStringTable()`: two ignored 4-byte fields, then language and value strings. */
  function StringTableAt(ed: Edition, data: seq<Byte>, pos: nat): Read<StringTable>
  {
    var length := IntAt(data, pos, 4);
    var elementSize := IntAt(data, length.next, 4);
    var lang := StringAt(ed, data, elementSize.next);
    var value := StringAt(ed, data, lang.next);
    Read(StringTable(lang.val, value.val), value.next)
  }

  /** `getResearchItem(flagWidth)`: absent on a zero flag, else five 4-byte fields. */
  function ResearchItemAt(data: seq<Byte>, pos: nat, flagWidth: nat): (r: Read<Option<ResearchItem>>)
    ensures r.val.None? <==> IntAt(data, pos, flagWidth).val == 0
    ensures r.next == pos + flagWidth + (if r.val.Some? then 20 else 0)
  {
    var flag := IntAt(data, pos, flagWidth);
    if flag.val == 0 then Read(None, flag.next)
    else
      var itemType := IntAt(data, flag.next, 4);
      var baseRideType := IntAt(data, itemType.next, 4);
      var entryIndex := IntAt(data, baseRideType.next, 4);
      var flags := IntAt(data, entryIndex.next, 4);
      var category := IntAt(data, flags.next, 4);
      Read(Some(ResearchItem(itemType.val, baseRideType.val, entryIndex.val, flags.val, category.val)), category.next)
  }

  /** One entry of a research item array: a 4-byte flag, then the item when present. */
  function ResearchStep(data: seq<Byte>): nat -> Read<Option<ResearchItem>>
  {
    (q: nat) => ResearchItemAt(data, q, 4)
  }

  /** The values of the present entries, in their order. */
  function Present<T>(s: seq<Option<T>>): (r: seq<T>)
    ensures |r| <= |s|
  {
    if s == [] then []
    else Present(s[..|s| - 1]) + (if s[|s| - 1].Some? then [s[|s| - 1].value] else [])
  }

  /** `i` reads of `step`, each where the previous one stopped, keeping the present values. */
  function Kept<T>(step: nat -> Read<Option<T>>, pos: nat, i: nat): Read<seq<T>>
  {
    if i == 0 then Read([], pos)
    else
      var prev := Kept(step, pos, i - 1);
      var e := step(prev.next);
      Read(if e.val.Some? then prev.val + [e.val.value] else prev.val, e.next)
  }

  /** The present items among the first `i` entries of a research item array. */
  function ResearchItems(data: seq<Byte>, pos: nat, i: nat): Read<seq<ResearchItem>>
  {
    Kept(ResearchStep(data), pos, i)
  }

  /** `getResearchItemArray()`: count, an unused width, then `count` items with 4-byte flags. */
  function ResearchItemArrayAt(data: seq<Byte>, pos: nat): Read<seq<ResearchItem>>
  {
    var count := IntAt(data, pos, 4);
    var width := IntAt(data, count.next, 4);
    ResearchItems(data, width.next, count.val)
  }

  /** `getNewsItem()` (Dist only): six 4-byte fields and a string. */
  function NewsItemAt(ed: Edition, data: seq<Byte>, pos: nat): Read<NewsItem>
  {
    var newsType := IntAt(data, pos, 4);
    var flags := IntAt(data, newsType.next, 4);
    var assoc := IntAt(data, flags.next, 4);
    var ticks := IntAt(data, assoc.next, 4);
    var monthYear := IntAt(data, ticks.next, 4);
    var day := IntAt(data, monthYear.next, 4);
    var text := StringAt(ed, data, day.next);
    Read(NewsItem(newsType.val, flags.val, assoc.val, ticks.val, monthYear.val, day.val, text.val), text.next)
  }

  // ---------------------------------------------------------------------------
  // Integers
  // ---------------------------------------------------------------------------

  /** Inside the buffer, a read of 1 to 4 bytes is their unsigned little-endian value. */
  lemma IntAtLittleEndian(data: seq<Byte>, pos: nat, size: nat)
    requires size <= 4 && pos + size <= |data|
    ensures IntAt(data, pos, size) == Read(LittleEndian(data[pos..pos + size]), pos + size)
  {
    WindowBytes(data, pos, size);
    ShortIntReadIsLittleEndian(Window(data, pos, size));
  }

  /** Inside the buffer, an 8-byte read is the sum of its two 32-bit words, mod 2^32. */
  lemma IntAtEightBytes(data: seq<Byte>, pos: nat)
    requires pos + 8 <= |data|
    ensures IntAt(data, pos, 8).val
         == (LittleEndian(data[pos..pos + 4]) + LittleEndian(data[pos + 4..pos + 8])) % TWO_32
  {
    var w := Window(data, pos, 8);
    WindowBytes(data, pos, 8);
    assert w[..4] == data[pos..pos + 4] && w[4..] == data[pos + 4..pos + 8];
    EightByteReadFolds(w);
  }

  lemma {:induction false} ZeroBytesSum(bs: seq<Byte>)
    requires forall k :: 0 <= k < |bs| ==> bs[k] == 0
    ensures ShiftSum(bs) == 0
  {
    if bs != [] {
      ZeroBytesSum(bs[..|bs| - 1]);
    }
  }

  /** A read that starts past the end sees only `undefined` bytes and returns 0. */
  lemma IntAtPastEnd(data: seq<Byte>, pos: nat, size: nat)
    requires |data| <= pos
    ensures IntAt(data, pos, size) == Read(0, pos + size)
  {
    WindowBytes(data, pos, size);
    ZeroBytesSum(Window(data, pos, size));
  }

  /** A one-byte read returns the byte itself. */
  lemma IntAtOneByte(data: seq<Byte>, pos: nat)
    ensures IntAt(data, pos, 1).val == Ord(data, pos)
  {
    var w := Window(data, pos, 1);
    assert w[..0] == [];
    assert ShiftedByte(w[0], 0) == w[0];
    assert ShiftSum(w) == w[0];
  }

  // ---------------------------------------------------------------------------
  // Strings
  // ---------------------------------------------------------------------------

  /** A string never takes more than `MaxString` bytes and always takes at least one. */
  lemma StringAtAdvance(ed: Edition, data: seq<Byte>, pos: nat)
    ensures pos < StringAt(ed, data, pos).next <= pos + MaxString
  {
  }

  /**
   * With a terminator among the next `MaxString` bytes, `getString` returns the bytes before
   * the first one and consumes it too.
   */
  lemma StringStopsAtFirstNul(ed: Edition, data: seq<Byte>, pos: nat, k: nat)
    requires k < MaxString && NulAt(data, pos, k)
    requires forall j :: 0 <= j < k ==> !NulAt(data, pos, j)
    ensures StringAt(ed, data, pos) == Read(Window(data, pos, k), pos + k + 1)
    ensures forall j :: 0 <= j < k && pos + j < |data| ==> StringAt(ed, data, pos).val[j] != 0
  {
    assert FirstNul(data, pos, 0) == Some(k);
    WindowBytes(data, pos, k);
    forall j | 0 <= j < k && pos + j < |data|
      ensures StringAt(ed, data, pos).val[j] != 0
    {
      assert !NulAt(data, pos, j);
    }
  }

  /**
   * Without a terminator in `MaxString` bytes, `getString` consumes exactly `MaxString`
   * bytes; Lib returns them followed by `'...'`, Dist returns `'...'` alone.
   */
  lemma StringTruncates(ed: Edition, data: seq<Byte>, pos: nat)
    requires forall j :: 0 <= j < MaxString ==> !NulAt(data, pos, j)
    ensures ed == Lib ==> StringAt(ed, data, pos) == Read(Window(data, pos, MaxString) + Ellipsis, pos + MaxString)
    ensures ed == Dist ==> StringAt(ed, data, pos) == Read(Ellipsis, pos + MaxString)
    ensures ed == Lib ==> |StringAt(ed, data, pos).val| == MaxString + 3
  {
    assert FirstNul(data, pos, 0).None?;
    assert [] + Ellipsis == Ellipsis;
  }

  /** The worked example: `[0x41, 0x42, 0x00]` reads as `"AB"` and advances by 3. */
  lemma StringExample(ed: Edition)
    ensures StringAt(ed, [0x41, 0x42, 0x00], 0) == Read([0x41, 0x42], 3)
  {
    var data: seq<Byte> := [0x41, 0x42, 0x00];
    assert !NulAt(data, 0, 0) && !NulAt(data, 0, 1) && NulAt(data, 0, 2);
    StringStopsAtFirstNul(ed, data, 0, 2);
    assert Window(data, 0, 2) == data[0..2] == [0x41, 0x42];
  }

  // ---------------------------------------------------------------------------
  // Arrays
  // ---------------------------------------------------------------------------

  lemma MulStep(i: nat, w: nat)
    requires i > 0
    ensures (i - 1) * w + w == i * w
  {
  }

  /**
   * A string array holds exactly `count` elements; with a non-zero width they are the
   * consecutive `width`-byte blocks after the 8-byte prefix.
   */
  lemma StringArrayShape(ed: Edition, data: seq<Byte>, pos: nat)
    ensures |StringArrayAt(ed, data, pos).val| == IntAt(data, pos, 4).val
    ensures var width := IntAt(data, pos + 4, 4).val;
      width > 0 ==> forall k: nat :: k < |StringArrayAt(ed, data, pos).val| ==>
        StringArrayAt(ed, data, pos).val[k] == Window(data, Offset(pos + 8, k, width), width)
    ensures var count, width := IntAt(data, pos, 4).val, IntAt(data, pos + 4, 4).val;
      width > 0 && count > 0 ==> StringArrayAt(ed, data, pos).next == pos + 8 + count * width
    ensures var count, width := IntAt(data, pos, 4).val, IntAt(data, pos + 4, 4).val;
      width == 0 ==> forall k: nat :: k < count ==>
        StringArrayAt(ed, data, pos).val[k] == StringAt(ed, data, StringElems(ed, data, pos + 8, 0, k).next).val
    ensures var count, width := IntAt(data, pos, 4).val, IntAt(data, pos + 4, 4).val;
      width == 0 && count > 0 ==>
        pos + 8 + count <= StringArrayAt(ed, data, pos).next <= pos + 8 + count * MaxString
    ensures pos + 9 <= StringArrayAt(ed, data, pos).next
  {
    var count, width := IntAt(data, pos, 4).val, IntAt(data, pos + 4, 4).val;
    ChainLength(StringStep(ed, data, width), pos + 8, count);
    if width > 0 {
      FixedStringElems(ed, data, pos + 8, width, count);
    } else {
      TerminatedStringElems(ed, data, pos + 8, count);
    }
  }

  /** `i` elements of a non-zero `width`: the consecutive `width`-byte blocks, `i * width` bytes. */
  lemma FixedStringElems(ed: Edition, data: seq<Byte>, pos: nat, width: nat, i: nat)
    requires width > 0
    ensures |StringElems(ed, data, pos, width, i).val| == i
    ensures forall k: nat :: k < i ==> StringElems(ed, data, pos, width, i).val[k] == Window(data, Offset(pos, k, width), width)
    ensures StringElems(ed, data, pos, width, i).next == pos + i * width
    ensures i > 0 ==> pos + 1 <= pos + i * width
  {
    var step := StringStep(ed, data, width);
    assert forall q: nat :: step(q).next == q + width;
    ChainShape(step, pos, width, i);
    if i > 0 {
      MulStep(i, width);
    }
  }

  /** With width 0, element `k` is the terminated string that starts where element `k - 1` ends. */
  lemma TerminatedStringElems(ed: Edition, data: seq<Byte>, pos: nat, i: nat)
    ensures |StringElems(ed, data, pos, 0, i).val| == i
    ensures forall k: nat :: k < i ==>
      StringElems(ed, data, pos, 0, i).val[k] == StringAt(ed, data, StringElems(ed, data, pos, 0, k).next).val
    ensures pos + i <= StringElems(ed, data, pos, 0, i).next <= pos + i * MaxString
  {
    var step := StringStep(ed, data, 0);
    forall k: nat | k < i
      ensures |StringElems(ed, data, pos, 0, i).val| == i
      ensures StringElems(ed, data, pos, 0, i).val[k] == StringAt(ed, data, StringElems(ed, data, pos, 0, k).next).val
    {
      ChainElem(step, pos, i, k);
    }
    ChainLength(step, pos, i);
    StringElemsBounds(ed, data, pos, i);
  }

  /** `i` terminated strings take at least one byte and at most `MaxString` bytes each. */
  lemma StringElemsBounds(ed: Edition, data: seq<Byte>, pos: nat, i: nat)
    ensures pos + i <= StringElems(ed, data, pos, 0, i).next <= pos + i * MaxString
  {
    var step := StringStep(ed, data, 0);
    forall q: nat
      ensures q < step(q).next <= q + MaxString
    {
      StringAtAdvance(ed, data, q);
    }
    ChainBounds(step, pos, i);
  }

  /** Reads of 1 to `MaxString` bytes each: `i` of them take `i` to `i * MaxString` bytes. */
  lemma {:induction false} ChainBounds<T>(step: nat -> Read<T>, pos: nat, i: nat)
    requires forall q: nat :: q < step(q).next <= q + MaxString
    ensures pos + i <= Chain(step, pos, i).next <= pos + i * MaxString
  {
    if i > 0 {
      ChainBounds(step, pos, i - 1);
      MulStep(i, MaxString);
    }
  }

  /**
   * A string table skips its two 4-byte words and holds the language and the value, the two
   * strings that follow; it takes between 10 and `8 + 2 * MaxString` bytes.
   */
  lemma StringTableLayout(ed: Edition, data: seq<Byte>, pos: nat)
    ensures var lang := StringAt(ed, data, pos + 8);
      var value := StringAt(ed, data, lang.next);
      StringTableAt(ed, data, pos) == Read(StringTable(lang.val, value.val), value.next) &&
      pos + 10 <= value.next <= pos + 8 + 2 * MaxString
  {
    StringAtAdvance(ed, data, pos + 8);
    StringAtAdvance(ed, data, StringAt(ed, data, pos + 8).next);
  }

  /** A news item is six 4-byte words followed by its text, which starts at byte 24. */
  lemma NewsItemLayout(ed: Edition, data: seq<Byte>, pos: nat)
    ensures var n := NewsItemAt(ed, data, pos);
      var text := StringAt(ed, data, pos + 24);
      n.val == NewsItem(IntAt(data, pos, 4).val, IntAt(data, pos + 4, 4).val,
                        IntAt(data, pos + 8, 4).val, IntAt(data, pos + 12, 4).val,
                        IntAt(data, pos + 16, 4).val, IntAt(data, pos + 20, 4).val, text.val) &&
      n.next == text.next && pos + 25 <= n.next <= pos + 24 + MaxString
  {
    StringAtAdvance(ed, data, pos + 24);
  }

  /** An empty string array still consumes the lone terminator: 8 + 1 bytes in all. */
  lemma EmptyStringArray(ed: Edition, data: seq<Byte>, pos: nat)
    requires IntAt(data, pos, 4).val == 0
    ensures StringArrayAt(ed, data, pos) == Read([], pos + 9)
  {
  }

  /** `i` reads make `i` values. */
  lemma {:induction false} ChainLength<T>(step: nat -> Read<T>, pos: nat, i: nat)
    ensures |Chain(step, pos, i).val| == i
  {
    if i > 0 {
      ChainLength(step, pos, i - 1);
    }
  }

  /** One more read leaves the values already read as they were. */
  lemma ChainKeep<T>(step: nat -> Read<T>, pos: nat, i: nat, k: nat)
    requires k + 1 < i
    ensures |Chain(step, pos, i).val| == i && |Chain(step, pos, i - 1).val| == i - 1
    ensures Chain(step, pos, i).val[k] == Chain(step, pos, i - 1).val[k]
  {
    ChainLength(step, pos, i - 1);
  }

  /** The last of `k + 1` reads starts where the first `k` stopped. */
  lemma ChainLast<T>(step: nat -> Read<T>, pos: nat, k: nat)
    ensures |Chain(step, pos, k + 1).val| == k + 1
    ensures Chain(step, pos, k + 1).val[k] == step(Chain(step, pos, k).next).val
  {
    ChainLength(step, pos, k);
  }

  /** Value `k` is read where the first `k` reads stopped. */
  lemma {:induction false} ChainElem<T>(step: nat -> Read<T>, pos: nat, i: nat, k: nat)
    requires k < i
    ensures |Chain(step, pos, i).val| == i
    ensures Chain(step, pos, i).val[k] == step(Chain(step, pos, k).next).val
  {
    ChainLength(step, pos, i);
    if i == k + 1 {
      ChainLast(step, pos, k);
    } else {
      ChainElem(step, pos, i - 1, k);
      ChainKeep(step, pos, i, k);
    }
  }

  /** Reads of a fixed `width` end `i * width` bytes on. */
  lemma {:induction false} ChainNext<T>(step: nat -> Read<T>, pos: nat, width: nat, i: nat)
    requires forall q: nat :: step(q).next == q + width
    ensures Chain(step, pos, i).next == pos + i * width
  {
    if i > 0 {
      ChainNext(step, pos, width, i - 1);
      MulStep(i, width);
    }
  }

  /** Read `k` of a fixed `width` starts `k * width` bytes on. */
  lemma ChainAt<T>(step: nat -> Read<T>, pos: nat, width: nat, i: nat, k: nat)
    requires forall q: nat :: step(q).next == q + width
    requires k < i
    ensures |Chain(step, pos, i).val| == i
    ensures Chain(step, pos, i).val[k] == step(Offset(pos, k, width)).val
  {
    ChainLength(step, pos, i);
    ChainNext(step, pos, width, k);
    ChainElem(step, pos, i, k);
  }

  /** `i` reads of a fixed `width`: `i` values, `i * width` bytes, value `k` at `k * width`. */
  lemma ChainShape<T>(step: nat -> Read<T>, pos: nat, width: nat, i: nat)
    requires forall q: nat :: step(q).next == q + width
    ensures |Chain(step, pos, i).val| == i
    ensures Chain(step, pos, i).next == pos + i * width
    ensures forall k: nat :: k < i ==> Chain(step, pos, i).val[k] == step(Offset(pos, k, width)).val
  {
    forall k: nat | k < i
      ensures |Chain(step, pos, i).val| == i
      ensures Chain(step, pos, i).val[k] == step(Offset(pos, k, width)).val
    {
      ChainAt(step, pos, width, i, k);
    }
    ChainLength(step, pos, i);
    ChainNext(step, pos, width, i);
  }

  /** `i` elements of `width` bytes: `i` values, `i * width` bytes, element `k` at `k * width`. */
  lemma IntElemsShape(data: seq<Byte>, pos: nat, width: nat, i: nat)
    ensures |IntElems(data, pos, width, i).val| == i
    ensures IntElems(data, pos, width, i).next == pos + i * width
    ensures forall k: nat :: k < i ==> IntElems(data, pos, width, i).val[k] == IntAt(data, Offset(pos, k, width), width).val
  {
    ChainShape(IntStep(data, width), pos, width, i);
  }

  /** Outside Dist's zero width, the elements of an integer array follow its 8-byte prefix. */
  lemma IntArrayElems(ed: Edition, data: seq<Byte>, pos: nat)
    requires !(ed == Dist && IntAt(data, pos + 4, 4).val == 0)
    ensures IntArrayAt(ed, data, pos) == IntElems(data, pos + 8, IntAt(data, pos + 4, 4).val, IntAt(data, pos, 4).val)
  {
  }

  /**
   * An integer array holds `count` elements of `width` bytes each, read one after another
   * (all cases but Dist's zero width, `DistZeroWidthIntArray`).
   */
  lemma IntArrayShape(ed: Edition, data: seq<Byte>, pos: nat)
    requires !(ed == Dist && IntAt(data, pos + 4, 4).val == 0)
    ensures var count, width := IntAt(data, pos, 4).val, IntAt(data, pos + 4, 4).val;
      var r := IntArrayAt(ed, data, pos);
      |r.val| == count && r.next == pos + 8 + count * width &&
      forall k: nat :: k < |r.val| ==> r.val[k] == IntAt(data, Offset(pos + 8, k, width), width).val
  {
    IntArrayElems(ed, data, pos);
    IntElemsShape(data, pos + 8, IntAt(data, pos + 4, 4).val, IntAt(data, pos, 4).val);
  }

  /** Dist returns `[]` right after the 8-byte prefix when the width is 0. */
  lemma DistZeroWidthIntArray(data: seq<Byte>, pos: nat)
    requires IntAt(data, pos + 4, 4).val == 0
    ensures IntArrayAt(Dist, data, pos) == Read([], pos + 8)
  {
  }

  /** In Lib a zero width gives `count` zeros and consumes nothing after the prefix. */
  lemma LibZeroWidthIntArray(data: seq<Byte>, pos: nat)
    requires IntAt(data, pos + 4, 4).val == 0
    ensures |IntArrayAt(Lib, data, pos).val| == IntAt(data, pos, 4).val
    ensures IntArrayAt(Lib, data, pos).next == pos + 8
    ensures forall k :: 0 <= k < |IntArrayAt(Lib, data, pos).val| ==> IntArrayAt(Lib, data, pos).val[k] == 0
  {
    IntArrayShape(Lib, data, pos);
    forall k | 0 <= k < |IntArrayAt(Lib, data, pos).val|
      ensures IntArrayAt(Lib, data, pos).val[k] == 0
    {
      assert Window(data, Offset(pos + 8, k, 0), 0) == [];
    }
  }

  /**
   * Absent entries are dropped, so a research item array has at most `count` items; every
   * entry costs its 4-byte flag and every kept item 20 more bytes.
   */
  lemma ResearchItemsShape(data: seq<Byte>, pos: nat, i: nat)
    ensures |ResearchItems(data, pos, i).val| <= i
    ensures ResearchItems(data, pos, i).next == pos + 4 * i + 20 * |ResearchItems(data, pos, i).val|
    ensures var entries := Chain(ResearchStep(data), pos, i);
      ResearchItems(data, pos, i) == Read(Present(entries.val), entries.next)
  {
    var step := ResearchStep(data);
    assert forall q: nat :: step(q).next == q + 4 + (if step(q).val.Some? then 20 else 0);
    KeptCost(step, pos, i);
    KeptEntries(step, pos, i);
  }

  /** Entries of 4 bytes, plus 20 when present: 4 bytes per entry and 20 per kept value. */
  lemma {:induction false} KeptCost<T>(step: nat -> Read<Option<T>>, pos: nat, i: nat)
    requires forall q: nat :: step(q).next == q + 4 + (if step(q).val.Some? then 20 else 0)
    ensures |Kept(step, pos, i).val| <= i
    ensures Kept(step, pos, i).next == pos + 4 * i + 20 * |Kept(step, pos, i).val|
  {
    if i > 0 {
      KeptCost(step, pos, i - 1);
    }
  }

  /** The values kept from `i` reads are the present values of those reads, in order. */
  lemma {:induction false} KeptEntries<T>(step: nat -> Read<Option<T>>, pos: nat, i: nat)
    ensures Kept(step, pos, i) == Read(Present(Chain(step, pos, i).val), Chain(step, pos, i).next)
  {
    if i > 0 {
      KeptEntries(step, pos, i - 1);
      var entries := Chain(step, pos, i - 1);
      var e := step(entries.next);
      assert Chain(step, pos, i) == Read(entries.val + [e.val], e.next);
      PresentSnoc(entries.val, e.val);
      assert Present(entries.val) + [] == Present(entries.val);
    }
  }

  /** Appending an entry keeps its value when it is present. */
  lemma PresentSnoc<T>(s: seq<Option<T>>, x: Option<T>)
    ensures Present(s + [x]) == Present(s) + (if x.Some? then [x.value] else [])
  {
    assert (s + [x])[..|s|] == s;
  }

  /**
   * A research item array is the present items of its `count` entries, in order, after the
   * 8-byte prefix.
   */
  lemma ResearchItemArrayShape(data: seq<Byte>, pos: nat)
    ensures var count := IntAt(data, pos, 4).val;
      var r := ResearchItemArrayAt(data, pos);
      |r.val| <= count && r.next == pos + 8 + 4 * count + 20 * |r.val|
    ensures var count := IntAt(data, pos, 4).val;
      var entries := Chain(ResearchStep(data), pos + 8, count);
      |entries.val| == count && ResearchItemArrayAt(data, pos) == Read(Present(entries.val), entries.next)
  {
    ResearchItemsShape(data, pos + 8, IntAt(data, pos, 4).val);
    ChainLength(ResearchStep(data), pos + 8, IntAt(data, pos, 4).val);
  }

  /**
   * A present item's five fields are the 4-byte words right after its flag: item type, base
   * ride type, entry index, flags and category.
   */
  lemma ResearchItemFields(data: seq<Byte>, pos: nat, flagWidth: nat)
    ensures var r := ResearchItemAt(data, pos, flagWidth); var at := pos + flagWidth;
      r.val.Some? ==> r.val.value == ResearchItem(IntAt(data, at, 4).val, IntAt(data, at + 4, 4).val,
                                                  IntAt(data, at + 8, 4).val, IntAt(data, at + 12, 4).val,
                                                  IntAt(data, at + 16, 4).val)
  {
  }

  /** An item is kept exactly when some entry holds it. */
  lemma {:induction false} PresentHolds<T>(s: seq<Option<T>>, x: T)
    ensures x in Present(s) <==> Some(x) in s
  {
    if s != [] {
      PresentHolds(s[..|s| - 1], x);
      assert s == s[..|s| - 1] + [s[|s| - 1]];
    }
  }
}
