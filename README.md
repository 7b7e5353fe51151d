# OpenRCT2Lib `.park` decoder, modelled in Dafny

OpenRCT2Lib reads an OpenRCT2 save file (`.park`) into a JavaScript object. The file is a
container:

- a 64-byte header: magic, versions, the number of chunks, sizes, the compression flag, an
  FNV-1a digest and padding;
- then one 20-byte directory entry per chunk: a 4-byte id, an 8-byte offset and an 8-byte size;
- then the game data, gzip-compressed when the header's compression field is 1.

`getData` reads the header and the directory and sorts the entries. It decompresses the game
data, slices each chunk out of it and hands the slice to `getChunk`. `getChunk` switches on
the chunk id and reads the chunk's fields with `rctBuffer`. `rctBuffer` is a cursor over a
byte buffer, with reads for little-endian integers, counted arrays, NUL-terminated strings,
string tables and research items.

The repository ships two copies of the library that have drifted apart:

- **OpenRCT2Lib.js** (called `Lib` in the model) keeps every chunk under its numeric id.
- **dist/OpenRCT2Lib.js** (`Dist`) files each chunk under a name such as `"park"`, and knows
  more chunk kinds.

They also differ in a handful of field widths, in string truncation and in `getIntArray`.
The model covers both copies. An `Edition` value selects the behaviour where they differ.

## How the model is organised

- `js_runtime.dfy` (`JsRuntime`): the JavaScript arithmetic the decoder inherits.
  - `<<` works on signed 32-bit values and takes its shift count modulo 32.
  - `>>> 0` converts to unsigned 32-bit.
  - `Buffer.slice` clamps its indices.
  - The lemmas relate the shift-and-add loop to plain little-endian numbers: exactly for up to
    4 bytes, and folded modulo 2^32 for 8 bytes.
- `reads.dfy` (`Reads`): pure specifications of every `rctBuffer` read. Each returns
  `Read(val, next)`: the value read and the cursor position after the read.
  - A byte past the end of the buffer is `undefined` in JavaScript. It acts as 0 under `<<`,
    but it is not a string terminator, so reads past the end are total.
- `rct_buffer.dfy` (`ByteCursor.RctBuffer`): the `rctBuffer` class, with its buffer and its
  position `_pos`. Each method is proved to return, and to leave the cursor at, what its
  `Reads` function says.
- `layouts.dfy` (`Layouts`): the chunk values, one specification function per `getChunk`
  case, and the two dispatch tables `LibChunk` and `DistChunk`.
- `chunk_reader.dfy` (`ChunkReader`): the case bodies of `getChunk` as methods on a cursor,
  each proved against its layout function.
- `layout_properties.dfy` (`LayoutProperties`): where each field sits in a chunk, and the
  places where the two copies read a chunk differently.
- `container.dfy` (`Container`): the header, the directory, the game data and the fold of the
  chunks into the result map, with its order-independence and last-write-wins properties.
- `park_file.dfy` (`ParkFile`):
  - the class `OpenRct2Lib` with its own signed `getInt` and `getInt2Arr`;
  - `getChunk` of both copies;
  - `getData` of both copies, each proved equal to `Container.DecodeLib` or
    `Container.DecodeDist`.
- `wrappers.dfy` (`Wrappers`): `Option`.

External effects are parameters:

- Decompression (`pako.ungzip`) is a function `inflate` returning `None` when it throws.
- The engine's `Array.prototype.sort` is a function `reorder`. The order-independence lemmas
  require it to be a permutation.

Three behaviours of the code worth knowing:

- Reads past the end yield zeros rather than an error.
- The climate chunk is 48 bytes, with the state and update timer first.
- A chunk whose offset and size run past the end of the game data is cut short at the end,
  as `Buffer.slice` does (OpenRCT2Lib.js:89); it is not an error.
- Dist's park expenditure table has no cells: the row width is `rst.numTypes`, which Dist
  never sets (dist/OpenRCT2Lib.js:268), so every row is empty.

## Model

| member | source | states |
|---|---|---|
| JsRuntime.Slice | OpenRCT2Lib.js:89 | `slice(start, end)` is the sub-range when the indices are in range, and empty when the range is empty or reversed; never longer than the input; a range that runs past the end is cut short at the end |
| JsRuntime.ShiftSumIsLaneSumMinusWraps | OpenRCT2Lib.js:346-352 | the shift-and-add total is the sum of the bytes at their lanes (shift taken mod 32) minus 2^32 for each byte that `<<` wrapped negative |
| JsRuntime.IntReadIsLaneSumMod | OpenRCT2Lib.js:346-352 | `rst >>> 0` is the lane sum modulo 2^32 |
| JsRuntime.LaneSumIsLittleEndian | OpenRCT2Lib.js:346-352 | for up to 4 bytes the lane sum is the little-endian value |
| JsRuntime.LittleEndianBound | OpenRCT2Lib.js:346-352 | a little-endian value of n bytes is below 256^n |
| JsRuntime.ShortIntReadIsLittleEndian | OpenRCT2Lib.js:346-352 | reads of at most 4 bytes return exactly the unsigned little-endian value |
| JsRuntime.LaneSumAppend | OpenRCT2Lib.js:346-352 | after a whole number of 4-byte words the lanes restart, so the lane sum splits over the words |
| JsRuntime.ShiftSumAppend | OpenRCT2Lib.js:346-352 | the shift-and-add total also splits over 4-byte words |
| JsRuntime.EightByteReadFolds | OpenRCT2Lib.js:346-352 | an 8-byte read returns the sum of its two 32-bit words modulo 2^32, not the 64-bit value |
| JsRuntime.ShortShiftSumNoWrap | OpenRCT2Lib.js:24-30 | with at most 3 bytes no shift reaches the sign bit |
| JsRuntime.SignedFourByteRead | OpenRCT2Lib.js:24-30 | the class `getInt(4)`, lacking `>>> 0`, returns the signed 32-bit value |
| JsRuntime.SignedEightByteRead | OpenRCT2Lib.js:24-30 | the class `getInt(8)` returns the sum of the two signed 32-bit words |
| JsRuntime.LittleEndianOfEncode | OpenRCT2Lib.js:346-352 | decoding the little-endian encoding of a value that fits gives the value back |
| JsRuntime.ShortIntRoundTrip | OpenRCT2Lib.js:346-352 | round trip: a `getInt(w)` with w at most 4 over the encoding of `v` returns `v` |
| JsRuntime.EightByteRoundTripFolds | OpenRCT2Lib.js:346-352 | over the 8-byte encoding of `v`, `getInt(8)` returns `(v mod 2^32 + v div 2^32) mod 2^32` |
| JsRuntime.EightByteReadCollides | OpenRCT2Lib.js:346-352 | the 8-byte encodings of 1 and 2^32 read back as the same number |
| Reads.Window | OpenRCT2Lib.js:346-352 | the bytes a read of n bytes sees number exactly n |
| Reads.WindowBytes | OpenRCT2Lib.js:346-352 | each byte a read sees is the buffer's byte, or 0 past the end; inside the buffer the window is the slice |
| Reads.IntAt | OpenRCT2Lib.js:346-352 | `getInt` of the cursor always returns an unsigned 32-bit value |
| Reads.IntAtLittleEndian | OpenRCT2Lib.js:346-352 | inside the buffer, a 1- to 4-byte read is the little-endian value and advances by the size |
| Reads.IntAtEightBytes | OpenRCT2Lib.js:346-352 | inside the buffer, an 8-byte read is the two words' sum mod 2^32 |
| Reads.IntAtPastEnd | OpenRCT2Lib.js:346-352 | a read that starts past the end returns 0 and still advances by its size |
| Reads.IntAtOneByte | OpenRCT2Lib.js:346-352 | a one-byte read returns that byte |
| Reads.FirstNul | OpenRCT2Lib.js:474-491 | the scan finds the first terminator below the 1024-byte limit, and none exists when it finds none |
| Reads.StringAtAdvance | OpenRCT2Lib.js:474-491 | `getString` consumes between 1 and 1024 bytes |
| Reads.StringStopsAtFirstNul | OpenRCT2Lib.js:474-491 | with a terminator within the limit, the string is the bytes before the first one, which is consumed too, and holds no 0 byte from the buffer |
| Reads.StringTruncates | dist/OpenRCT2Lib.js:529-543 | without a terminator, Lib returns the 1024 bytes plus `...` and Dist returns only `...`; both advance by 1024 |
| Reads.StringExample | OpenRCT2Lib.js:474-491 | `"AB\0"` reads as `"AB"` and consumes 3 bytes |
| Reads.StringArrayShape | OpenRCT2Lib.js:419-431 | a string array holds `count` elements. For non-zero width, element k is the `width` bytes at `pos + 8 + k * width`, and a non-empty array ends at `pos + 8 + count * width`. For width 0, element k is the terminated string that starts where element k - 1 ends, and a non-empty array takes 1 to 1024 bytes per element after the prefix. Any array takes at least 9 bytes |
| Reads.FixedStringElems | OpenRCT2Lib.js:423-425 | with a non-zero width the loop reads `i` consecutive `width`-byte blocks, `i * width` bytes in all |
| Reads.TerminatedStringElems | OpenRCT2Lib.js:423-425 | with width 0 the loop reads `i` terminated strings, each starting where the previous one ended, taking `i` to `i * 1024` bytes |
| Reads.StringTableLayout | OpenRCT2Lib.js:448-456 | a string table skips two words, then reads the language string at `pos + 8` and the value string right after it; it takes between 10 and 8 + 2 * 1024 bytes |
| Reads.EmptyStringArray | OpenRCT2Lib.js:419-431 | a zero count yields no strings and one extra skipped byte, 9 bytes in all |
| Reads.ChainShape | OpenRCT2Lib.js:410-418 | a loop of `i` fixed-width reads yields `i` values, element k read at `pos + k * width`, and ends at `pos + i * width` |
| Reads.IntElemsShape | OpenRCT2Lib.js:410-418 | `i` integers of `width` bytes: the k-th is the read at `pos + k * width`, and the loop ends at `pos + i * width` |
| Reads.IntArrayElems | OpenRCT2Lib.js:410-418 | except for Dist's zero-width case, an int array is `count` elements of `width` bytes after the 8-byte prefix |
| Reads.IntArrayShape | OpenRCT2Lib.js:410-418 | its length is `count`, element k is the integer at `pos + 8 + k * width`, and it ends at `pos + 8 + count * width` |
| Reads.DistZeroWidthIntArray | dist/OpenRCT2Lib.js:462-473 | Dist returns an empty array and consumes only the prefix when the width is 0 |
| Reads.LibZeroWidthIntArray | OpenRCT2Lib.js:410-418 | Lib, with width 0, returns an array of exactly `count` zeros (the `count` word at `pos`; the width 0 is the word at `pos + 4`) and also consumes only the prefix |
| Reads.ResearchItemAt | OpenRCT2Lib.js:496-509 | an item is absent exactly when its flag is 0, and takes the flag plus 20 bytes when present |
| Reads.ResearchItemFields | OpenRCT2Lib.js:496-509 | a present item's type, base ride type, entry index, flags and category are the 4-byte words at 0, 4, 8, 12 and 16 bytes after the flag |
| Reads.ResearchItemsShape | OpenRCT2Lib.js:432-443 | the items are the values of the present entries among the `i` entries read one after another, in their order; so at most `i` items, 4 bytes per flag plus 20 per kept item |
| Reads.ResearchItemArrayShape | OpenRCT2Lib.js:432-443 | a research item array is the present values, in order, of the `count` entries after its 8-byte prefix, and takes 4 bytes per entry plus 20 per kept item |
| Reads.KeptEntries | OpenRCT2Lib.js:436-440 | the loop that pushes only truthy entries returns the present values of the entries it read, in order, and stops where the last entry ends |
| Reads.PresentHolds | OpenRCT2Lib.js:437-439 | an item is kept exactly when one of the entries holds it |
| Reads.NewsItemLayout | dist/OpenRCT2Lib.js:566-576 | a news item is the six words at `pos`, `pos + 4`, ..., `pos + 20`, then the text string at `pos + 24`, which ends the item |
| ByteCursor.RctBuffer.constructor | OpenRCT2Lib.js:336-339 | a cursor over the given bytes at position 0 |
| ByteCursor.RctBuffer.GetInt | OpenRCT2Lib.js:346-352 | returns `IntAt` and advances by `size` |
| ByteCursor.RctBuffer.GetInt2Arr | OpenRCT2Lib.js:353-359 | returns the next `length` bytes, 0 past the end, and advances by `length` |
| ByteCursor.RctBuffer.ReadInt | OpenRCT2Lib.js:360-366 | the signed shift-and-add over `size` bytes of another buffer from `start`; the cursor does not move |
| ByteCursor.RctBuffer.ReadInt2Arr | OpenRCT2Lib.js:367-373 | the `size` bytes of another buffer from `start` |
| ByteCursor.RctBuffer.GetTimestamp | OpenRCT2Lib.js:378-380 | a plain integer read of `size` bytes |
| ByteCursor.RctBuffer.GetMoney | OpenRCT2Lib.js:385-387 | a plain integer read of `size` bytes |
| ByteCursor.RctBuffer.GetBool | OpenRCT2Lib.js:389-391 | a 4-byte integer read |
| ByteCursor.RctBuffer.GetIntArray | dist/OpenRCT2Lib.js:462-473 | returns `IntArrayAt` for the cursor's edition, including Dist's zero-width short cut |
| ByteCursor.RctBuffer.GetIntElems | OpenRCT2Lib.js:414-416 | the element loop returns `count` integers of `width` bytes (`IntElems`) |
| ByteCursor.RctBuffer.GetStringArray | OpenRCT2Lib.js:419-431 | returns `StringArrayAt`, including the extra byte for an empty array |
| ByteCursor.RctBuffer.GetStringElems | OpenRCT2Lib.js:423-425 | the element loop: a string when the width is 0, else `width` raw bytes |
| ByteCursor.RctBuffer.GetResearchItemArray | OpenRCT2Lib.js:432-443 | returns `ResearchItemArrayAt`: the present items only |
| ByteCursor.RctBuffer.GetStringTable | OpenRCT2Lib.js:448-456 | returns `StringTableAt`: two skipped words, language, value |
| ByteCursor.RctBuffer.GetChar | OpenRCT2Lib.js:463-469 | returns the next `size` bytes |
| ByteCursor.RctBuffer.GetString | OpenRCT2Lib.js:474-491 | returns `StringAt` for the cursor's edition |
| ByteCursor.RctBuffer.GetResearchItem | OpenRCT2Lib.js:496-509 | returns `ResearchItemAt` with the given flag width |
| ByteCursor.RctBuffer.GetNewsItem | dist/OpenRCT2Lib.js:566-576 | returns `NewsItemAt`: six words and a string |
| Layouts.KindCode | OpenRCT2Lib.js:130-165 | every objective kind has a code from 1 to 11 |
| Layouts.ObjectiveText | OpenRCT2Lib.js:130-165 | the switch gives a text exactly for the types 1 to 11, and the text's code is the type |
| Layouts.ObjectiveTextRoundTrip | OpenRCT2Lib.js:130-165 | round trip: the switch maps each kind's code back to that kind |
| Layouts.LibChunk | OpenRCT2Lib.js:104-332 | Lib returns the chunk's bytes unread exactly for the ids that have no case |
| Layouts.DistChunk | dist/OpenRCT2Lib.js:104-384 | Dist returns an object without properties exactly for the restricted-objects chunk 0x37 |
| Layouts.DistKey | dist/OpenRCT2Lib.js:104-384 | the property name is absent only for 0x37, and is `"unknown"` exactly for the ids without a case |
| Layouts.DistChunkKey | dist/OpenRCT2Lib.js:104-384 | `getChunk` returns a property exactly when `DistKey` names one, and under that name |
| Layouts.DistKeyInjective | dist/OpenRCT2Lib.js:104-384 | two ids share a property name only when both are unknown |
| Layouts.LibEmptyChunks | OpenRCT2Lib.js:290-324 | Lib returns an empty object exactly for the ids of its empty cases |
| Layouts.LibRawChunks | OpenRCT2Lib.js:326-328 | for any other id without a case, Lib returns the chunk's own bytes |
| Layouts.DistUnknownChunks | dist/OpenRCT2Lib.js:379-380 | an id without a case yields `unknown` holding the chunk's bytes |
| Layouts.DistKeyNotZero | dist/OpenRCT2Lib.js:87-91 | no chunk is filed under `'0'`, so that guard in `getData` never fires |
| LayoutProperties.WeatherLayout | OpenRCT2Lib.js:199-216 | a weather block is five words and 20 bytes |
| LayoutProperties.ClimateLayout | OpenRCT2Lib.js:199-216 | the climate chunk is 48 bytes; current and next weather start at bytes 8 and 28 |
| LayoutProperties.AuthoringLayout | OpenRCT2Lib.js:109-113 | the engine string is at byte 0, taking 1 to 1024 bytes; the authors' string array follows it and takes at least 9 bytes; the two timestamps are the 8-byte reads right after it; the chunk ends 16 bytes after the array |
| LayoutProperties.GeneralLayout | OpenRCT2Lib.js:181-196 | the general chunk is 44 bytes in both copies, every field at its offset |
| LayoutProperties.SeedFolds | dist/OpenRCT2Lib.js:219 | Lib keeps the seed's two words; Dist's 8-byte read yields their sum mod 2^32 |
| LayoutProperties.InterfaceLayout | dist/OpenRCT2Lib.js:326-336 | the interface chunk is the six words of the saved view, 24 bytes |
| LayoutProperties.TilesLayout | dist/OpenRCT2Lib.js:339-343 | the tiles chunk starts with the map width and height, 8 bytes |
| LayoutProperties.ObjectiveOffsets | dist/OpenRCT2Lib.js:152-160 | each objective field's offset; the guest count is 8 bytes wide in Lib and 4 in Dist |
| LayoutProperties.ObjectiveTail | OpenRCT2Lib.js:167-177 | the file name closes the objective; its text exists exactly for types 1 to 11 |
| LayoutProperties.ScenarioObjective | OpenRCT2Lib.js:121-178 | category, three string tables, then the objective, which ends the chunk |
| LayoutProperties.ParkHeadOffsets | OpenRCT2Lib.js:220-232 | after the park name at `s`: cash at `s` (8 bytes), loan at `s + 8` (8), maximum loan at `s + 16` (8), interest rate at `s + 24` (4), park flags at `s + 28` (8), entrance fee at `s + 36` (4), the three staff colours at `s + 40`, `s + 44`, `s + 48` (4 each), same-price flags at `s + 52` (8), `numMonths` at `s + 60` and `numTypes` at `s + 64` (4 each); the head ends at `s + 68` |
| LayoutProperties.RowReadWidth | OpenRCT2Lib.js:233-239 | a row of `w` money cells takes `8 * w` bytes |
| LayoutProperties.TableRowsShape | OpenRCT2Lib.js:233-239 | `numMonths` rows; row k is read at `k * 8 * w`, and the table ends after all of them |
| LayoutProperties.ParkParts | dist/OpenRCT2Lib.js:265-271 | the park is the head, then the expenditure table, then the totals, then the history, each read where the previous one ends, and the chunk ends after the history; table rows are `numTypes` wide in Lib and empty in Dist |
| LayoutProperties.EmptyRows | dist/OpenRCT2Lib.js:265-271 | zero-width rows are empty and take no bytes, whatever `numMonths` says |
| LayoutProperties.ResearchItemFlags | OpenRCT2Lib.js:274-288 | the last and next research items use 1-byte flags at byte 24 and at byte 25 or 45 |
| LayoutProperties.SubListsBounds | dist/OpenRCT2Lib.js:118-142 | the result is `None` exactly when there are no sub-lists; otherwise it holds the `objectType` and `subListSize` words read at the start of the last sub-list; the loop consumes exactly 8 bytes per sub-list plus 8 per non-empty one |
| LayoutProperties.OneSubList | dist/OpenRCT2Lib.js:125-128 | a single non-empty sub-list ends the chunk at byte 20 |
| LayoutProperties.RidesChunk | dist/OpenRCT2Lib.js:351-353 | 0x32 has no case in Lib, which returns its bytes unread; Dist files it as `rides` holding an empty object |
| ChunkReader.ReadAuthoring | OpenRCT2Lib.js:109-114 | case 0x01 returns `AuthoringAt` and leaves the cursor at its end |
| ChunkReader.SkipSubList | dist/OpenRCT2Lib.js:125-128 | the inner loop reads one 8-byte kind and breaks, so an empty sub-list reads nothing |
| ChunkReader.ReadObjects | dist/OpenRCT2Lib.js:118-142 | case 0x02 returns `ObjectsAt` |
| ChunkReader.ReadObjective | OpenRCT2Lib.js:167-177 | the objective block returns `ObjectiveAt` |
| ChunkReader.ReadScenario | OpenRCT2Lib.js:121-178 | case 0x03 returns `ScenarioAt` |
| ChunkReader.ReadGeneral | OpenRCT2Lib.js:181-196 | case 0x04 returns `GeneralAt`, with the seed read per edition |
| ChunkReader.ReadWeather | OpenRCT2Lib.js:202-208 | one weather block returns `WeatherAt` |
| ChunkReader.ReadClimate | OpenRCT2Lib.js:199-216 | case 0x05 returns `ClimateAt` |
| ChunkReader.ReadParkHead | OpenRCT2Lib.js:220-232 | the park's fixed head returns `ParkHeadAt` |
| ChunkReader.ReadExpenditureTable | OpenRCT2Lib.js:233-239 | the nested loops return `TableRows` |
| ChunkReader.ReadParkTotals | OpenRCT2Lib.js:240-260 | the totals return `ParkTotalsAt` |
| ChunkReader.ReadParkHistory | OpenRCT2Lib.js:261-266 | the six history arrays return `ParkHistoryAt` |
| ChunkReader.ReadPark | OpenRCT2Lib.js:219-267 | case 0x06 returns `ParkAt` |
| ChunkReader.ReadResearch | OpenRCT2Lib.js:274-288 | case 0x08 returns `ResearchAt` |
| ChunkReader.ReadInterface | dist/OpenRCT2Lib.js:326-336 | case 0x20 returns `InterfaceAt` |
| ChunkReader.ReadTiles | dist/OpenRCT2Lib.js:339-343 | case 0x30 returns `TilesAt` |
| Container.HeaderAt | OpenRCT2Lib.js:48-62 | the header always takes 64 bytes, with 8 digest bytes and 20 padding bytes |
| Container.HeaderWords | OpenRCT2Lib.js:53-58 | magic, versions, chunk count and compression are the little-endian words at bytes 0, 4, 8, 12 and 24 |
| Container.HeaderSizes | OpenRCT2Lib.js:57-59 | the two 8-byte sizes at bytes 16 and 28 come out folded mod 2^32 |
| Container.HeaderBytes | OpenRCT2Lib.js:60-61 | the digest is bytes 36 to 43 and the padding bytes 44 to 63 |
| Container.HeaderTail | OpenRCT2Lib.js:60-61 | the digest is the 8-byte window at byte 36 and the padding the 20-byte window at byte 44 of the 64-byte header slice |
| Container.ShortHeaderBytes | OpenRCT2Lib.js:60-61 | when the file is at most 36 bytes, every digest and padding byte is 0 |
| Container.EmptyHeader | OpenRCT2Lib.js:48-62 | an empty file reads as a header whose seven words (magic, versions, chunk count, both sizes, compression) are all 0 and whose 8 digest bytes and 20 padding bytes are all 0 |
| Container.SignedIntAt | OpenRCT2Lib.js:24-30 | the class `getInt` advances by `size` |
| Container.SignedIntAtFourBytes | OpenRCT2Lib.js:24-30 | a 4-byte read is the signed 32-bit value, within [-2^31, 2^31) |
| Container.SignedIntAtEightBytes | OpenRCT2Lib.js:24-30 | an 8-byte read is the sum of the two signed words |
| Container.EntryAt | OpenRCT2Lib.js:67-69 | a directory entry takes 20 bytes |
| Container.EntryFields | OpenRCT2Lib.js:67-69 | the id is the signed word at byte 0; offset and size are each the sum of two signed words, at bytes 4 and 12, not folded |
| Container.EntriesShape | OpenRCT2Lib.js:64-71 | `n` entries, entry k read at `pos + 20 * k`, ending at `pos + 20 * n` |
| Container.Directory | OpenRCT2Lib.js:64-71 | the directory has `NumChunks` entries |
| Container.DirectoryEntry | OpenRCT2Lib.js:64-71 | directory entry k is the entry at `pos + 20 * k` |
| Container.GameData | OpenRCT2Lib.js:77-80 | the game data is the rest of the file, inflated exactly when compression is 1 |
| Container.GameOfAt | OpenRCT2Lib.js:64-80 | the game data starts right after the header and the `NumChunks` entries |
| Container.ChunkBytes | OpenRCT2Lib.js:89 | a chunk's bytes are its offset and size range of the game data, or empty for an empty range; a range that runs past the end of the game data yields the bytes from the offset to the end |
| Container.CollectKeys | OpenRCT2Lib.js:83-93 | a key is in the result exactly when some entry files a chunk under it |
| Container.CollectLastWins | OpenRCT2Lib.js:90 | the last entry filed under a key decides its value |
| Container.CollectStep | OpenRCT2Lib.js:90 | one more entry overwrites its own key and nothing else |
| Container.CollectAgrees | OpenRCT2Lib.js:83-93 | when entries with one key agree on its value, every entry's value is in the result |
| Container.CollectReorder | OpenRCT2Lib.js:72-74 | then the order of the entries does not change the result, so the sort does not either |
| Container.DistFileKey | dist/OpenRCT2Lib.js:87-91 | only the restricted-objects chunk is never filed |
| Container.DistFileKeyAgrees | dist/OpenRCT2Lib.js:85-91 | the key used by `getData` is the one property of the object `getChunk` returned |
| Container.DecodeFails | OpenRCT2Lib.js:77-80 | decoding fails exactly when decompression fails, which needs compression 1 |
| Container.LibChunkData | OpenRCT2Lib.js:44-96 | with distinct ids and any permutation for the sort, `chunkData` has exactly the directory's ids, each with `getChunk` of its bytes |
| Container.DistSections | dist/OpenRCT2Lib.js:42-96 | with distinct property names, the result has exactly the names of the directory's chunks, each with its value |
| Container.DistLastUnknownWins | dist/OpenRCT2Lib.js:81-93 | of several unknown chunks, the last one after the sort is kept |
| Container.EmptyFile | OpenRCT2Lib.js:44-96 | an empty file decodes to the zero header and no chunks |
| ParkFile.ReadHeader | OpenRCT2Lib.js:48-62 | the header reads return `HeaderAt` |
| ParkFile.ReadGameData | OpenRCT2Lib.js:77-80 | returns `GameData` |
| ParkFile.GetChunk | OpenRCT2Lib.js:104-332 | returns `LibChunk` for the id and bytes |
| ParkFile.GetChunkDist | dist/OpenRCT2Lib.js:104-384 | returns `DistChunk` for the id and bytes |
| ParkFile.OpenRct2Lib.constructor | OpenRCT2Lib.js:7-17 | holds the file's bytes at position 0 |
| ParkFile.OpenRct2Lib.GetInt | OpenRCT2Lib.js:24-30 | returns `SignedIntAt` and advances by `size` |
| ParkFile.OpenRct2Lib.GetInt2Arr | OpenRCT2Lib.js:31-37 | returns the next `length` bytes |
| ParkFile.OpenRct2Lib.ReadDirectory | OpenRCT2Lib.js:64-71 | returns `Directory` and advances 20 bytes per entry |
| ParkFile.OpenRct2Lib.ReadContainer | OpenRCT2Lib.js:44-80 | header, directory and game data as the `Container` functions say |
| ParkFile.OpenRct2Lib.FileChunks | OpenRCT2Lib.js:83-93 | the chunk loop's map is `Collect` keyed by id |
| ParkFile.OpenRct2Lib.GetData | OpenRCT2Lib.js:44-96 | returns `DecodeLib` |
| ParkFile.OpenRct2Lib.FileSections | dist/OpenRCT2Lib.js:81-93 | the chunk loop's object is `Collect` keyed by property name |
| ParkFile.OpenRct2Lib.GetDataDist | dist/OpenRCT2Lib.js:42-96 | returns `DecodeDist` |
| ParkFile.LoadDist | dist/OpenRCT2Lib.js:11-22 | the Dist constructor's result is `DecodeDist` of the file from position 0 |

## Left out

- File access: the constructors' `fs.existsSync`, `throw 'File not exists'` and `fs.readFileSync` are not modelled. The model starts from the file's bytes.
- `pako.ungzip` is the parameter `inflate`; gzip itself is not modelled.
- `Array.prototype.sort` with the boolean comparator `a[1] < b[1]` leaves the order to the engine. It is the parameter `reorder`. The lemmas about the result assume only that it permutes the entries.
- Dist's `getString` decodes UTF-8 into a JavaScript string. The model keeps the bytes; Lib's `String.fromCharCode` per byte is also kept as the byte sequence.
- Numbers are unbounded integers, not doubles. This matches JavaScript's double arithmetic as long as every read is narrower than about 2^22 bytes. Element widths come from the file (`getIntArray`, OpenRCT2Lib.js:410-418 and dist/OpenRCT2Lib.js:462-473), so a crafted file can exceed this, and the rounding that would follow is not modelled.
- Out-of-range reads yield 0 and are not an error, following the code: `undefined << n` is 0. No operation requires its input to be long enough.
- `ByteCursor.RctBuffer.ReadInt2Arr`: requires the range to lie inside the other buffer. Past its end the source would push `undefined`, which has no byte value.
- The objective's `typeText` is the enumeration `ObjectiveKind`, with the English sentence given by `Layouts.Sentence`.
- `console.log`, `getDebug` (dist/OpenRCT2Lib.js:588-591), the unused `chunkPos` counter and the unused `_chunkData` and `_path` fields are not modelled.
- The second, identical `getInt2Arr` at dist/OpenRCT2Lib.js:581-587 replaces the first. Both bodies are the same, so one method models both.
- `getNewsItem` is modelled, although no `getChunk` case calls it.
- Dist's result object holds the header next to the chunk properties. The model keeps it in a separate `header` field of `DistPark`; no chunk is filed under `"header"`.
- In Lib, `rst = chunkData` for an id without a case returns the bytes themselves. The model returns them as `Raw`.
