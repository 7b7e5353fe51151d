/**
 * Where each field of a chunk sits and how much of the chunk a decoder consumes, and the
 * places where the two copies of the decoder disagree.
 */
module LayoutProperties {
  import opened JsRuntime
  import opened Wrappers
  import opened Reads
  import opened Layouts

  /** The unsigned little-endian 32-bit word at byte `p`. */
  function U32(d: seq<Byte>, p: nat): nat
    requires p + 4 <= |d|
  {
    LittleEndian(d[p..p + 4])
  }

  // ---------------------------------------------------------------------------
  // Fixed-size chunks
  // ---------------------------------------------------------------------------

  lemma WeatherLayout(d: seq<Byte>, p: nat)
    requires p + 20 <= |d|
    ensures WeatherAt(d, p)
         == Read(Weather(U32(d, p), U32(d, p + 4), U32(d, p + 8), U32(d, p + 12), U32(d, p + 16)), p + 20)
  {
    IntAtLittleEndian(d, p, 4);
    IntAtLittleEndian(d, p + 4, 4);
    IntAtLittleEndian(d, p + 8, 4);
    IntAtLittleEndian(d, p + 12, 4);
    IntAtLittleEndian(d, p + 16, 4);
  }

  /**
   * The climate chunk is 48 bytes: state and update timer, then two blocks of five words,
   * so the current temperature is the word at byte 12 and the next one the word at byte 32.
   */
  lemma ClimateLayout(d: seq<Byte>)
    requires 48 <= |d|
    ensures ClimateAt(d, 0).next == 48
    ensures ClimateAt(d, 0).val
         == Climate(U32(d, 0), U32(d, 4),
                    Weather(U32(d, 8), U32(d, 12), U32(d, 16), U32(d, 20), U32(d, 24)),
                    Weather(U32(d, 28), U32(d, 32), U32(d, 36), U32(d, 40), U32(d, 44)))
  {
    IntAtLittleEndian(d, 0, 4);
    IntAtLittleEndian(d, 4, 4);
    WeatherLayout(d, 8);
    WeatherLayout(d, 28);
  }

  /**
   * The authoring chunk: the engine string at byte 0, the authors' string array right after
   * it, then the start and modification timestamps as two 8-byte reads, which end the chunk.
   */
  lemma AuthoringLayout(ed: Edition, d: seq<Byte>)
    ensures var engine := StringAt(ed, d, 0);
      var authors := StringArrayAt(ed, d, engine.next);
      var a := AuthoringAt(ed, d, 0);
      a.val == Authoring(engine.val, authors.val, IntAt(d, authors.next, 8).val, IntAt(d, authors.next + 8, 8).val) &&
      a.next == authors.next + 16 &&
      1 <= engine.next <= MaxString &&
      engine.next + 9 <= authors.next
  {
    StringAtAdvance(ed, d, 0);
    StringArrayShape(ed, d, StringAt(ed, d, 0).next);
  }

  /** The general chunk is 44 bytes in both copies; the seed occupies bytes 16 to 23. */
  lemma GeneralLayout(ed: Edition, d: seq<Byte>)
    requires 44 <= |d|
    ensures GeneralAt(ed, d, 0).next == 44
    ensures var g := GeneralAt(ed, d, 0).val;
      g.gamePaused == U32(d, 0) && g.currentTicks == U32(d, 4) &&
      g.dateMonthTicks == U32(d, 8) && g.dateMonthsElapsed == U32(d, 12) &&
      g.guestInitialHappiness == U32(d, 24) && g.guestInitialCash == U32(d, 28) &&
      g.guestInitialHunger == U32(d, 32) && g.guestInitialThirst == U32(d, 36) &&
      g.nextGuestNumber == U32(d, 40)
  {
    IntAtLittleEndian(d, 0, 4);
    IntAtLittleEndian(d, 4, 4);
    IntAtLittleEndian(d, 8, 4);
    IntAtLittleEndian(d, 12, 4);
    IntAtLittleEndian(d, 24, 4);
    IntAtLittleEndian(d, 28, 4);
    IntAtLittleEndian(d, 32, 4);
    IntAtLittleEndian(d, 36, 4);
    IntAtLittleEndian(d, 40, 4);
  }

  /**
   * Lib keeps the two words of the seed; Dist reads them as one 8-byte value, which comes
   * out as their sum modulo 2^32.
   */
  lemma SeedFolds(d: seq<Byte>)
    requires 24 <= |d|
    ensures GeneralAt(Lib, d, 0).val.rand == RandPair(U32(d, 16), U32(d, 20))
    ensures GeneralAt(Dist, d, 0).val.rand == RandWord((U32(d, 16) + U32(d, 20)) % TWO_32)
  {
    IntAtLittleEndian(d, 16, 4);
    IntAtLittleEndian(d, 20, 4);
    IntAtEightBytes(d, 16);
  }

  /** The Dist interface chunk is the six words of the saved view. */
  lemma InterfaceLayout(d: seq<Byte>)
    requires 24 <= |d|
    ensures InterfaceAt(d, 0)
         == Read(Interface(SavedView(U32(d, 0), U32(d, 4), U32(d, 8), U32(d, 12), U32(d, 16), U32(d, 20))), 24)
  {
    IntAtLittleEndian(d, 0, 4);
    IntAtLittleEndian(d, 4, 4);
    IntAtLittleEndian(d, 8, 4);
    IntAtLittleEndian(d, 12, 4);
    IntAtLittleEndian(d, 16, 4);
    IntAtLittleEndian(d, 20, 4);
  }

  /** The Dist tiles chunk starts with the map's width and height. */
  lemma TilesLayout(d: seq<Byte>)
    requires 8 <= |d|
    ensures TilesAt(d, 0) == Read(Tiles(U32(d, 0), U32(d, 4)), 8)
  {
    IntAtLittleEndian(d, 0, 4);
    IntAtLittleEndian(d, 4, 4);
  }

  // ---------------------------------------------------------------------------
  // Scenario
  // ---------------------------------------------------------------------------

  /**
   * The objective is a fixed block followed by the file name: 38 bytes in Lib, whose guest
   * count is 8 bytes wide, and 34 in Dist.
   */
  lemma ObjectiveOffsets(ed: Edition, d: seq<Byte>, t: nat)
    ensures var g := if ed == Lib then 8 else 4;
      var o := ObjectiveAt(ed, d, t).val;
      o.objectiveType == IntAt(d, t, 4).val && o.year == IntAt(d, t + 4, 4).val &&
      o.guests == IntAt(d, t + 8, g).val && o.currency == IntAt(d, t + 8 + g, 8).val &&
      o.ratingWarningDays == IntAt(d, t + 16 + g, 2).val &&
      o.completedCompanyValue == IntAt(d, t + 18 + g, 8).val &&
      o.allowEarlyCompletion == IntAt(d, t + 26 + g, 4).val
  {
  }

  /** The file name closes the objective; the text is present exactly for the types 1 to 11. */
  lemma ObjectiveTail(ed: Edition, d: seq<Byte>, t: nat)
    ensures var g := if ed == Lib then 8 else 4;
      var r := ObjectiveAt(ed, d, t);
      Read(r.val.scenarioFileName, r.next) == StringAt(ed, d, t + 30 + g) &&
      (r.val.typeText.Some? <==> 1 <= r.val.objectiveType <= 11)
  {
  }

  /** The objective starts right after the third string table and ends the chunk. */
  lemma ScenarioObjective(ed: Edition, d: seq<Byte>)
    ensures var category := IntAt(d, 0, 4);
      var name := StringTableAt(ed, d, 4);
      var parkName := StringTableAt(ed, d, name.next);
      var details := StringTableAt(ed, d, parkName.next);
      var s := ScenarioAt(ed, d, 0);
      s.val.category == category.val && s.val.name == name.val &&
      s.val.parkName == parkName.val && s.val.details == details.val &&
      Read(s.val.objective, s.next) == ObjectiveAt(ed, d, details.next)
  {
  }

  // ---------------------------------------------------------------------------
  // Park
  // ---------------------------------------------------------------------------

  /** The head of the park chunk is the name followed by 68 bytes of fixed fields. */
  lemma ParkHeadOffsets(ed: Edition, d: seq<Byte>, p: nat)
    ensures var s := StringAt(ed, d, p).next;
      var h := ParkHeadAt(ed, d, p);
      h.next == s + 68 && h.val.name == StringAt(ed, d, p).val &&
      h.val.cash == IntAt(d, s, 8).val && h.val.loan == IntAt(d, s + 8, 8).val &&
      h.val.maxLoan == IntAt(d, s + 16, 8).val && h.val.loanInterestRate == IntAt(d, s + 24, 4).val &&
      h.val.parkFlags == IntAt(d, s + 28, 8).val && h.val.parkEntranceFee == IntAt(d, s + 36, 4).val &&
      h.val.staffHandymanColour == IntAt(d, s + 40, 4).val &&
      h.val.staffMechanicColour == IntAt(d, s + 44, 4).val &&
      h.val.staffSecurityColour == IntAt(d, s + 48, 4).val &&
      h.val.samePriceThroughoutPark == IntAt(d, s + 52, 8).val &&
      h.val.numMonths == IntAt(d, s + 60, 4).val && h.val.numTypes == IntAt(d, s + 64, 4).val
  {
  }

  /** A row of `w` cells is `8 * w` bytes. */
  lemma RowReadWidth(d: seq<Byte>, w: nat)
    ensures forall q: nat :: RowRead(d, w)(q).next == q + 8 * w
  {
    forall q: nat
      ensures RowRead(d, w)(q).next == q + 8 * w
    {
      IntElemsShape(d, q, 8, w);
    }
  }

  /** The whole table: `i` rows, `8 * w` bytes each, row `k` at byte `k * 8 * w`. */
  lemma TableRowsShape(d: seq<Byte>, p: nat, w: nat, i: nat)
    ensures var t := TableRows(d, p, w, i);
      |t.val| == i && t.next == p + i * (8 * w) &&
      forall k: nat :: k < i ==> t.val[k] == IntElems(d, Offset(p, k, 8 * w), 8, w).val
  {
    RowReadWidth(d, w);
    ChainShape(RowRead(d, w), p, 8 * w, i);
  }

  /**
   * The park chunk is its head, then the table, whose rows are `numTypes` wide in Lib and
   * empty in Dist, then the totals right after the table, then the histories, which end it.
   */
  lemma ParkParts(ed: Edition, d: seq<Byte>, p: nat)
    ensures var h := ParkHeadAt(ed, d, p);
      var t := TableRows(d, h.next, RowWidth(ed, h.val), h.val.numMonths);
      var totals := ParkTotalsAt(ed, d, t.next);
      var history := ParkHistoryAt(ed, d, totals.next);
      var park := ParkAt(ed, d, p);
      park.val.head == h.val && park.val.expenditureTable == t.val &&
      park.val.totals == totals.val && park.val.history == history.val &&
      park.next == history.next &&
      RowWidth(ed, h.val) == (if ed == Lib then h.val.numTypes else 0)
  {
  }

  /** Rows of width 0 are empty and take no bytes: the Dist table, whatever `numMonths` says. */
  lemma {:induction false} EmptyRows(d: seq<Byte>, p: nat, i: nat)
    ensures var t := TableRows(d, p, 0, i);
      |t.val| == i && t.next == p && forall k :: 0 <= k < i ==> t.val[k] == []
  {
    if i > 0 {
      EmptyRows(d, p, i - 1);
    }
  }

  // ---------------------------------------------------------------------------
  // Research
  // ---------------------------------------------------------------------------

  /**
   * The two single research items use a 1-byte presence flag: the last item is absent
   * exactly when byte 24 is 0, and the next item's flag follows it after 1 or 21 bytes.
   */
  lemma ResearchItemFlags(d: seq<Byte>)
    ensures var r := ResearchAt(d, 0).val;
      (r.lastItem.None? <==> Ord(d, 24) == 0) &&
      (r.lastItem.Some? ==> r.lastItem.value.itemType == IntAt(d, 25, 4).val) &&
      var q := if r.lastItem.Some? then 45 else 25;
      (r.nextItem.None? <==> Ord(d, q) == 0)
  {
    IntAtOneByte(d, 24);
    IntAtOneByte(d, 25);
    IntAtOneByte(d, 45);
  }

  // ---------------------------------------------------------------------------
  // Objects
  // ---------------------------------------------------------------------------

  /** How many of the first `i` object sub-lists have a non-zero size. */
  function NonEmptySubLists(d: seq<Byte>, p: nat, i: nat): nat
  {
    if i == 0 then 0
    else
      var start := SubLists(d, p, i - 1).next;
      NonEmptySubLists(d, p, i - 1) + (if 0 < IntAt(d, start + 4, 4).val then 1 else 0)
  }

  /**
   * Each object sub-list costs 8 bytes, plus 8 for the one descriptor kind read when it is
   * not empty: the descriptors themselves are never consumed. Only the last sub-list is kept:
   * the type and size read at the start of the `i`-th one.
   */
  lemma {:induction false} SubListsBounds(d: seq<Byte>, p: nat, i: nat)
    ensures var r := SubLists(d, p, i);
      (r.val.Some? <==> 0 < i) &&
      (0 < i ==> var start := SubLists(d, p, i - 1).next;
                 r.val == Some(SubList(IntAt(d, start, 4).val, IntAt(d, start + 4, 4).val))) &&
      NonEmptySubLists(d, p, i) <= i &&
      r.next == p + 8 * i + 8 * NonEmptySubLists(d, p, i) &&
      p + 8 * i <= r.next <= p + 16 * i
  {
    if i > 0 {
      SubListsBounds(d, p, i - 1);
    }
  }

  /** A single sub-list of any non-zero size takes 16 bytes after the count. */
  lemma OneSubList(d: seq<Byte>)
    requires IntAt(d, 0, 4).val == 1 && IntAt(d, 8, 4).val > 0
    ensures ObjectsAt(d, 0) == Read(Objects(1, Some(SubList(IntAt(d, 4, 4).val, IntAt(d, 8, 4).val))), 20)
  {
    assert SubLists(d, 4, 0) == Read(None, 4);
  }

  // ---------------------------------------------------------------------------
  // Dispatch
  // ---------------------------------------------------------------------------

  /**
   * 0x32 (rides) has no case in OpenRCT2Lib.js, so its bytes come back unread
   * (`LibRawChunks`), while dist/OpenRCT2Lib.js files it as an empty "rides".
   */
  lemma RidesChunk(d: seq<Byte>)
    ensures RidesId !in LibLayoutIds + LibEmptyIds
    ensures LibChunk(RidesId, d) == Raw(d)
    ensures DistKey(RidesId) == Some("rides")
    ensures DistChunk(RidesId, d) == Some(("rides", Empty))
  {
  }
}
