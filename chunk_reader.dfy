/**
 * The case bodies of `getChunk`: each reads one chunk with a fresh `rctBuffer`, one field
 * after another, and is proved to return what the matching layout function of `Layouts`
 * says, leaving the cursor where that function says.
 */
module ChunkReader {
  import opened JsRuntime
  import opened Wrappers
  import opened Reads
  import opened Layouts
  import opened ByteCursor

  /** 0x01. */
  method ReadAuthoring(c: RctBuffer) returns (r: Chunk)
    modifies c
    ensures Read(r, c.pos) == AuthoringAt(c.edition, c.data, old(c.pos))
  {
    var engine := c.GetString();
    var authors := c.GetStringArray();
    var dateStarted := c.GetTimestamp(8);
    var dateModified := c.GetTimestamp(8);
    r := Authoring(engine, authors, dateStarted, dateModified);
  }

  /**
   * The inner loop of 0x02: it reads one 8-byte descriptor kind and then breaks (`done`),
   * so a non-empty sub-list advances the cursor by 8 bytes and an empty one not at all.
   */
  method SkipSubList(c: RctBuffer, subListSize: nat)
    modifies c
    ensures c.pos == if 0 < subListSize then IntAt(c.data, old(c.pos), 8).next else old(c.pos)
  {
    var j := 0;
    var done := false;
    while j < subListSize && !done
      invariant j == if done then 1 else 0
      invariant done ==> 0 < subListSize
      invariant c.pos == if done then IntAt(c.data, old(c.pos), 8).next else old(c.pos)
      decreases if done then 0 else 1
    {
      var kind := c.GetInt(8);
      j := j + 1;
      done := true;
    }
  }

  /** 0x02 (dist only): every sub-list overwrites `objectType` and `subListSize`. */
  method ReadObjects(c: RctBuffer) returns (r: Chunk)
    modifies c
    ensures Read(r, c.pos) == ObjectsAt(c.data, old(c.pos))
  {
    var numSubLists := c.GetInt(4);
    ghost var start := c.pos;
    var last: Option<SubList> := None;
    var i := 0;
    while i < numSubLists
      invariant i <= numSubLists
      invariant Read(last, c.pos) == SubLists(c.data, start, i)
    {
      var objectType := c.GetInt(4);
      var subListSize := c.GetInt(4);
      SkipSubList(c, subListSize);
      last := Some(SubList(objectType, subListSize));
      i := i + 1;
    }
    r := Objects(numSubLists, last);
  }

  /** The objective block of 0x03, with the sentence chosen by `switch (objectiveType)`. */
  method ReadObjective(c: RctBuffer) returns (o: Objective)
    modifies c
    ensures Read(o, c.pos) == ObjectiveAt(c.edition, c.data, old(c.pos))
  {
    var objectiveType := c.GetInt(4);
    var year := c.GetInt(4);
    var typeText := ObjectiveText(objectiveType);
    var guests := c.GetInt(if c.edition == Lib then 8 else 4);
    var currency := c.GetInt(8);
    var ratingWarningDays := c.GetInt(2);
    var completedCompanyValue := c.GetMoney(8);
    var allowEarlyCompletion := c.GetBool();
    var scenarioFileName := c.GetString();
    o := Objective(objectiveType, typeText, year, guests, currency, ratingWarningDays,
                   completedCompanyValue, allowEarlyCompletion, scenarioFileName);
  }

  /** 0x03. */
  method ReadScenario(c: RctBuffer) returns (r: Chunk)
    modifies c
    ensures Read(r, c.pos) == ScenarioAt(c.edition, c.data, old(c.pos))
  {
    var category := c.GetInt(4);
    var name := c.GetStringTable();
    var parkName := c.GetStringTable();
    var details := c.GetStringTable();
    var objective := ReadObjective(c);
    r := Scenario(category, name, parkName, details, objective);
  }

  /** 0x04: the seed is `[getInt(4), getInt(4)]` in OpenRCT2Lib.js and `getInt(8)` in dist. */
  method ReadGeneral(c: RctBuffer) returns (r: Chunk)
    modifies c
    ensures Read(r, c.pos) == GeneralAt(c.edition, c.data, old(c.pos))
  {
    var gamePaused := c.GetInt(4);
    var currentTicks := c.GetInt(4);
    var dateMonthTicks := c.GetInt(4);
    var dateMonthsElapsed := c.GetInt(4);
    var rand;
    if c.edition == Lib {
      var lo := c.GetInt(4);
      var hi := c.GetInt(4);
      rand := RandPair(lo, hi);
    } else {
      var word := c.GetInt(8);
      rand := RandWord(word);
    }
    var happiness := c.GetInt(4);
    var cash := c.GetMoney(4);
    var hunger := c.GetInt(4);
    var thirst := c.GetInt(4);
    var nextGuestNumber := c.GetInt(4);
    r := General(gamePaused, currentTicks, dateMonthTicks, dateMonthsElapsed, rand,
                 happiness, cash, hunger, thirst, nextGuestNumber);
  }

  /** The five-field weather object, read twice by 0x05. */
  method ReadWeather(c: RctBuffer) returns (w: Weather)
    modifies c
    ensures Read(w, c.pos) == WeatherAt(c.data, old(c.pos))
  {
    var weather := c.GetInt(4);
    var temperature := c.GetInt(4);
    var effect := c.GetInt(4);
    var gloom := c.GetInt(4);
    var level := c.GetInt(4);
    w := Weather(weather, temperature, effect, gloom, level);
  }

  /** 0x05. */
  method ReadClimate(c: RctBuffer) returns (r: Chunk)
    modifies c
    ensures Read(r, c.pos) == ClimateAt(c.data, old(c.pos))
  {
    var state := c.GetInt(4);
    var updateTimer := c.GetInt(4);
    var current := ReadWeather(c);
    var upcoming := ReadWeather(c);
    r := Climate(state, updateTimer, current, upcoming);
  }

  /** The fields of 0x06 up to `numTypes`. */
  method ReadParkHead(c: RctBuffer) returns (h: ParkHead)
    modifies c
    ensures Read(h, c.pos) == ParkHeadAt(c.edition, c.data, old(c.pos))
  {
    var name := c.GetString();
    var cash := c.GetMoney(8);
    var loan := c.GetMoney(8);
    var maxLoan := c.GetMoney(8);
    var interest := c.GetInt(4);
    var flags := c.GetInt(8);
    var fee := c.GetMoney(4);
    var handyman := c.GetInt(4);
    var mechanic := c.GetInt(4);
    var security := c.GetInt(4);
    var samePrice := c.GetInt(8);
    var numMonths := c.GetInt(4);
    var numTypes := c.GetInt(4);
    h := ParkHead(name, cash, loan, maxLoan, interest, flags, fee, handyman, mechanic, security,
                  samePrice, numMonths, numTypes);
  }

  /** The expenditure table: `numMonths` rows of `width` 8-byte money cells. */
  method ReadExpenditureTable(c: RctBuffer, numMonths: nat, width: nat) returns (table: seq<seq<nat>>)
    modifies c
    ensures Read(table, c.pos) == TableRows(c.data, old(c.pos), width, numMonths)
  {
    table := [];
    var i := 0;
    while i < numMonths
      invariant i <= numMonths
      invariant Read(table, c.pos) == TableRows(c.data, old(c.pos), width, i)
    {
      ghost var rowStart := c.pos;
      var row: seq<nat> := [];
      var j := 0;
      while j < width
        invariant j <= width
        invariant Read(row, c.pos) == IntElems(c.data, rowStart, 8, j)
      {
        var cell := c.GetMoney(8);
        row := row + [cell];
        j := j + 1;
      }
      table := table + [row];
      i := i + 1;
    }
  }

  /** The fields of 0x06 between the table and the histories. */
  method ReadParkTotals(c: RctBuffer) returns (t: ParkTotals)
    modifies c
    ensures Read(t, c.pos) == ParkTotalsAt(c.edition, c.data, old(c.pos))
  {
    var historicalProfit := c.GetMoney(8);
    var campaigns := c.GetIntArray();
    var awards := c.GetIntArray();
    var parkValue := c.GetMoney(8);
    var companyValue := c.GetMoney(8);
    var parkSize := c.GetInt(4);
    var guests := c.GetInt(4);
    var heading := c.GetInt(4);
    var rating := c.GetInt(4);
    var penalty := c.GetInt(4);
    var expenditure := c.GetMoney(8);
    var profit := c.GetMoney(8);
    var dividend := c.GetMoney(8);
    var divisor := c.GetInt(4);
    var admissions := c.GetMoney(8);
    var admissionIncome := c.GetMoney(8);
    var rideValue := c.GetMoney(4);
    var lastWeek := c.GetInt(4);
    var changeModifier := c.GetInt(4);
    var probability := c.GetInt(4);
    var suggested := c.GetInt(4);
    t := ParkTotals(historicalProfit, campaigns, awards, parkValue, companyValue,
                    parkSize, guests, heading, rating, penalty, expenditure, profit,
                    dividend, divisor, admissions, admissionIncome, rideValue,
                    lastWeek, changeModifier, probability, suggested);
  }

  /** The six history arrays that close 0x06. */
  method ReadParkHistory(c: RctBuffer) returns (h: ParkHistory)
    modifies c
    ensures Read(h, c.pos) == ParkHistoryAt(c.edition, c.data, old(c.pos))
  {
    var throttle := c.GetIntArray();
    var rating := c.GetIntArray();
    var guests := c.GetIntArray();
    var cash := c.GetIntArray();
    var weekly := c.GetIntArray();
    var value := c.GetIntArray();
    h := ParkHistory(throttle, rating, guests, cash, weekly, value);
  }

  /**
   * 0x06. The inner loop of the table is bounded by `rst.numTypes`: the park's own field in
   * OpenRCT2Lib.js, a property never set (so no cells) in dist/OpenRCT2Lib.js.
   */
  method ReadPark(c: RctBuffer) returns (r: Chunk)
    modifies c
    ensures Read(r, c.pos) == ParkAt(c.edition, c.data, old(c.pos))
  {
    var head := ReadParkHead(c);
    var width := if c.edition == Lib then head.numTypes else 0;
    var table := ReadExpenditureTable(c, head.numMonths, width);
    var totals := ReadParkTotals(c);
    var history := ReadParkHistory(c);
    r := Park(head, table, totals, history);
  }

  /** 0x08. */
  method ReadResearch(c: RctBuffer) returns (r: Chunk)
    modifies c
    ensures Read(r, c.pos) == ResearchAt(c.data, old(c.pos))
  {
    var funding := c.GetInt(4);
    var priorities := c.GetInt(4);
    var stage := c.GetInt(4);
    var progress := c.GetInt(4);
    var month := c.GetInt(4);
    var day := c.GetInt(4);
    var lastItem := c.GetResearchItem(1);
    var nextItem := c.GetResearchItem(1);
    var uninvented := c.GetResearchItemArray();
    var invented := c.GetResearchItemArray();
    r := Research(funding, priorities, stage, progress, month, day, lastItem, nextItem,
                  uninvented, invented);
  }

  /** 0x20 (dist only). */
  method ReadInterface(c: RctBuffer) returns (r: Chunk)
    modifies c
    ensures Read(r, c.pos) == InterfaceAt(c.data, old(c.pos))
  {
    var x := c.GetInt(4);
    var y := c.GetInt(4);
    var zoom := c.GetInt(4);
    var rotation := c.GetInt(4);
    var entranceStyle := c.GetInt(4);
    var editorStep := c.GetInt(4);
    r := Interface(SavedView(x, y, zoom, rotation, entranceStyle, editorStep));
  }

  /** 0x30 (dist only). */
  method ReadTiles(c: RctBuffer) returns (r: Chunk)
    modifies c
    ensures Read(r, c.pos) == TilesAt(c.data, old(c.pos))
  {
    var mapX := c.GetInt(4);
    var mapY := c.GetInt(4);
    r := Tiles(mapX, mapY);
  }
}
