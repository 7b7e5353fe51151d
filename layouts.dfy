/**
 * The layout of every chunk `getChunk` decodes, as functions of the chunk's bytes, and the
 * two dispatch tables from chunk id to decoded chunk: `Lib` for OpenRCT2Lib.js and `Dist`
 * for dist/OpenRCT2Lib.js. A chunk is always decoded by a fresh cursor, from position 0.
 */
module Layouts {
  import opened JsRuntime
  import opened Wrappers
  import opened Reads

  // ---------------------------------------------------------------------------
  // Decoded chunks
  // ---------------------------------------------------------------------------

  datatype Objective = Objective(
    objectiveType: nat,
    typeText: Option<ObjectiveKind>,
    year: nat,
    guests: nat,
    currency: nat,
    ratingWarningDays: nat,
    completedCompanyValue: nat,
    allowEarlyCompletion: nat,
    scenarioFileName: Str)

  /** The random seed: two 4-byte words in Lib, one 8-byte read in Dist. */
  datatype Rand = RandPair(lo: nat, hi: nat) | RandWord(word: nat)

  datatype Weather = Weather(weather: nat, temperature: nat, weatherEffect: nat, weatherGloom: nat, level: nat)

  /** The fields of the park chunk before the expenditure table. */
  datatype ParkHead = ParkHead(
    name: Str,
    cash: nat, loan: nat, maxLoan: nat,
    loanInterestRate: nat, parkFlags: nat, parkEntranceFee: nat,
    staffHandymanColour: nat, staffMechanicColour: nat, staffSecurityColour: nat,
    samePriceThroughoutPark: nat,
    numMonths: nat, numTypes: nat)

  /** The fields of the park chunk between the expenditure table and the histories. */
  datatype ParkTotals = ParkTotals(
    historicalProfit: nat,
    marketingCampaigns: seq<nat>, currentAwards: seq<nat>,
    parkValue: nat, companyValue: nat,
    parkSize: nat, numGuestsInPark: nat, numGuestsHeadingForPark: nat,
    parkRating: nat, parkRatingCasualtyPenalty: nat,
    currentExpenditure: nat, currentProfit: nat,
    weeklyProfitAverageDividend: nat, weeklyProfitAverageDivisor: nat,
    totalAdmissions: nat, totalIncomeFromAdmissions: nat, totalRideValueForMoney: nat,
    numGuestsInParkLastWeek: nat, guestChangeModifier: nat,
    guestGenerationProbability: nat, suggestedGuestMaximum: nat)

  /** The six integer arrays that close the park chunk. */
  datatype ParkHistory = ParkHistory(
    peepWarningThrottle: seq<nat>, parkRatingHistory: seq<nat>, guestsInParkHistory: seq<nat>,
    cashHistory: seq<nat>, weeklyProfitHistory: seq<nat>, parkValueHistory: seq<nat>)

  datatype SavedView = SavedView(x: nat, y: nat, zoom: nat, rotation: nat, lastEntranceStyle: nat, editorStep: nat)

  /** The type and size of an object sub-list; only the last one read is kept. */
  datatype SubList = SubList(objectType: nat, subListSize: nat)

  datatype Chunk =
    | Authoring(engine: Str, authors: seq<Str>, dateStarted: nat, dateModified: nat)
    | Objects(numSubLists: nat, lastSubList: Option<SubList>)
    | Scenario(category: nat, name: StringTable, parkName: StringTable, details: StringTable, objective: Objective)
    | General(gamePaused: nat, currentTicks: nat, dateMonthTicks: nat, dateMonthsElapsed: nat, rand: Rand,
              guestInitialHappiness: nat, guestInitialCash: nat, guestInitialHunger: nat,
              guestInitialThirst: nat, nextGuestNumber: nat)
    | Climate(state: nat, updateTimer: nat, current: Weather, upcoming: Weather)
    | Park(head: ParkHead, expenditureTable: seq<seq<nat>>, totals: ParkTotals, history: ParkHistory)
    | Research(fundingLevel: nat, priorities: nat, progressStage: nat, progress: nat,
               expectedMonth: nat, expectedDay: nat,
               lastItem: Option<ResearchItem>, nextItem: Option<ResearchItem>,
               itemsUninvented: seq<ResearchItem>, itemsInvented: seq<ResearchItem>)
    | Interface(savedView: SavedView)
    | Tiles(mapX: nat, mapY: nat)
      /** A chunk the decoder recognises but does not read (`{}`). */
    | Empty
      /** A chunk returned as the bytes it was given. */
    | Raw(bytes: seq<Byte>)

  // ---------------------------------------------------------------------------
  // Objective text
  // ---------------------------------------------------------------------------

  /**
   * The eleven objective types that have a sentence. The decoded objective records which
   * sentence `typeText` holds; `Sentence` gives its text.
   */
  datatype ObjectiveKind =
    | GuestsBy | ParkValueBy | HaveFun | BuildTheBest | TenRollerCoasters | GuestsAndRating
    | MonthlyRideIncome | TenRollerCoastersLength | FinishFiveRollerCoasters
    | RepayLoanAndParkValue | MonthlyFoodIncome

  /** The objective type number a sentence belongs to. */
  function KindCode(k: ObjectiveKind): (t: nat)
    ensures 1 <= t <= 11
  {
    match k
    case GuestsBy => 1
    case ParkValueBy => 2
    case HaveFun => 3
    case BuildTheBest => 4
    case TenRollerCoasters => 5
    case GuestsAndRating => 6
    case MonthlyRideIncome => 7
    case TenRollerCoastersLength => 8
    case FinishFiveRollerCoasters => 9
    case RepayLoanAndParkValue => 10
    case MonthlyFoodIncome => 11
  }

  /** The `switch (objectiveType)`: a sentence for the types 1 to 11, `null` otherwise. */
  function ObjectiveText(t: nat): (r: Option<ObjectiveKind>)
    ensures r.Some? <==> 1 <= t <= 11
    ensures r.Some? ==> KindCode(r.value) == t
  {
    if t == 1 then Some(GuestsBy)
    else if t == 2 then Some(ParkValueBy)
    else if t == 3 then Some(HaveFun)
    else if t == 4 then Some(BuildTheBest)
    else if t == 5 then Some(TenRollerCoasters)
    else if t == 6 then Some(GuestsAndRating)
    else if t == 7 then Some(MonthlyRideIncome)
    else if t == 8 then Some(TenRollerCoastersLength)
    else if t == 9 then Some(FinishFiveRollerCoasters)
    else if t == 10 then Some(RepayLoanAndParkValue)
    else if t == 11 then Some(MonthlyFoodIncome)
    else None
  }

  /** Every sentence is the text of its own type number. */
  lemma ObjectiveTextRoundTrip(k: ObjectiveKind)
    ensures ObjectiveText(KindCode(k)) == Some(k)
  {
  }

  /** The English text of each sentence, placeholders included. */
  function Sentence(k: ObjectiveKind): string
  {
    match k
    case GuestsBy =>
      "To have at least {guests} guests in your park at the end of {year}, with a park rating of at least 600"
    case ParkValueBy => "To achieve a park value of at least {currency} at the end of {year}"
    case HaveFun => "Have Fun!"
    case BuildTheBest => "Build the best {guests} you can!"
    case TenRollerCoasters =>
      "To have 10 different types of roller coasters operating in your park, each with an excitement value of at least 6.00"
    case GuestsAndRating =>
      "To have at least {guests} guests in your park. You must not let the park rating drop below 700 at any time!"
    case MonthlyRideIncome => "To achieve a monthly income from ride tickets of at least {currency}"
    case TenRollerCoastersLength =>
      "To have 10 different types of roller coasters operating in your park, each with a minimum length of {guests}, and an excitement rating of at least 7.00"
    case FinishFiveRollerCoasters =>
      "To finish building all 5 of the partially built roller coasters in this park, designing them to achieve excitement ratings of at least {currency} each"
    case RepayLoanAndParkValue => "To repay your loan and achieve a park value of at least {currency}"
    case MonthlyFoodIncome =>
      "To achieve a monthly profit from food, drink and merchandise sales of at least {currency}"
  }

  // ---------------------------------------------------------------------------
  // Chunk layouts
  // ---------------------------------------------------------------------------

  /** 0x01: engine string, author string array, two 8-byte timestamps. */
  function AuthoringAt(ed: Edition, d: seq<Byte>, p: nat): (r: Read<Chunk>)
    ensures r.val.Authoring?
  {
    var engine := StringAt(ed, d, p);
    var authors := StringArrayAt(ed, d, engine.next);
    var started := IntAt(d, authors.next, 8);
    var modified := IntAt(d, started.next, 8);
    Read(Authoring(engine.val, authors.val, started.val, modified.val), modified.next)
  }

  /**
   * The objective block of 0x03. Lib reads the guest count as 8 bytes, Dist as 4; the
   * rest is the same.
   */
  function ObjectiveAt(ed: Edition, d: seq<Byte>, p: nat): Read<Objective>
  {
    var objectiveType := IntAt(d, p, 4);
    var year := IntAt(d, objectiveType.next, 4);
    var guests := IntAt(d, year.next, if ed == Lib then 8 else 4);
    var currency := IntAt(d, guests.next, 8);
    var warningDays := IntAt(d, currency.next, 2);
    var companyValue := IntAt(d, warningDays.next, 8);
    var earlyCompletion := IntAt(d, companyValue.next, 4);
    var fileName := StringAt(ed, d, earlyCompletion.next);
    Read(Objective(objectiveType.val, ObjectiveText(objectiveType.val), year.val, guests.val, currency.val,
                   warningDays.val, companyValue.val, earlyCompletion.val, fileName.val),
         fileName.next)
  }

  /** 0x03: category, three string tables, then the objective. */
  function ScenarioAt(ed: Edition, d: seq<Byte>, p: nat): (r: Read<Chunk>)
    ensures r.val.Scenario?
  {
    var category := IntAt(d, p, 4);
    var name := StringTableAt(ed, d, category.next);
    var parkName := StringTableAt(ed, d, name.next);
    var details := StringTableAt(ed, d, parkName.next);
    var objective := ObjectiveAt(ed, d, details.next);
    Read(Scenario(category.val, name.val, parkName.val, details.val, objective.val), objective.next)
  }

  /** 0x04: four 4-byte counters, the seed, five 4-byte guest settings. */
  function GeneralAt(ed: Edition, d: seq<Byte>, p: nat): (r: Read<Chunk>)
    ensures r.val.General?
  {
    var gamePaused := IntAt(d, p, 4);
    var currentTicks := IntAt(d, gamePaused.next, 4);
    var monthTicks := IntAt(d, currentTicks.next, 4);
    var monthsElapsed := IntAt(d, monthTicks.next, 4);
    var rand :=
      if ed == Lib then
        var lo := IntAt(d, monthsElapsed.next, 4);
        var hi := IntAt(d, lo.next, 4);
        Read(RandPair(lo.val, hi.val), hi.next)
      else
        var w := IntAt(d, monthsElapsed.next, 8);
        Read(RandWord(w.val), w.next);
    var happiness := IntAt(d, rand.next, 4);
    var cash := IntAt(d, happiness.next, 4);
    var hunger := IntAt(d, cash.next, 4);
    var thirst := IntAt(d, hunger.next, 4);
    var nextGuest := IntAt(d, thirst.next, 4);
    Read(General(gamePaused.val, currentTicks.val, monthTicks.val, monthsElapsed.val, rand.val,
                 happiness.val, cash.val, hunger.val, thirst.val, nextGuest.val),
         nextGuest.next)
  }

  function WeatherAt(d: seq<Byte>, p: nat): Read<Weather>
  {
    var weather := IntAt(d, p, 4);
    var temperature := IntAt(d, weather.next, 4);
    var effect := IntAt(d, temperature.next, 4);
    var gloom := IntAt(d, effect.next, 4);
    var level := IntAt(d, gloom.next, 4);
    Read(Weather(weather.val, temperature.val, effect.val, gloom.val, level.val), level.next)
  }

  /** 0x05: climate state, update timer, current weather, next weather. */
  function ClimateAt(d: seq<Byte>, p: nat): (r: Read<Chunk>)
    ensures r.val.Climate?
  {
    var state := IntAt(d, p, 4);
    var timer := IntAt(d, state.next, 4);
    var current := WeatherAt(d, timer.next);
    var upcoming := WeatherAt(d, current.next);
    Read(Climate(state.val, timer.val, current.val, upcoming.val), upcoming.next)
  }

  function ParkHeadAt(ed: Edition, d: seq<Byte>, p: nat): Read<ParkHead>
  {
    var name := StringAt(ed, d, p);
    var cash := IntAt(d, name.next, 8);
    var loan := IntAt(d, cash.next, 8);
    var maxLoan := IntAt(d, loan.next, 8);
    var interest := IntAt(d, maxLoan.next, 4);
    var flags := IntAt(d, interest.next, 8);
    var fee := IntAt(d, flags.next, 4);
    var handyman := IntAt(d, fee.next, 4);
    var mechanic := IntAt(d, handyman.next, 4);
    var security := IntAt(d, mechanic.next, 4);
    var samePrice := IntAt(d, security.next, 8);
    var months := IntAt(d, samePrice.next, 4);
    var types := IntAt(d, months.next, 4);
    Read(ParkHead(name.val, cash.val, loan.val, maxLoan.val, interest.val, flags.val, fee.val,
                  handyman.val, mechanic.val, security.val, samePrice.val, months.val, types.val),
         types.next)
  }

  /** One row of the expenditure table: `width` 8-byte cells. */
  function RowRead(d: seq<Byte>, width: nat): nat -> Read<seq<nat>>
  {
    (q: nat) => IntElems(d, q, 8, width)
  }

  /** The first `i` rows of the expenditure table, `width` 8-byte cells per row. */
  function TableRows(d: seq<Byte>, p: nat, width: nat, i: nat): Read<seq<seq<nat>>>
  {
    Chain(RowRead(d, width), p, i)
  }

  /**
   * The number of cells per row. Lib bounds the inner loop by `numTypes`; Dist bounds it by
   * `rst.numTypes`, a property that is never set, so every Dist row is empty.
   */
  function RowWidth(ed: Edition, head: ParkHead): nat
  {
    if ed == Lib then head.numTypes else 0
  }

  function ParkTotalsAt(ed: Edition, d: seq<Byte>, p: nat): Read<ParkTotals>
  {
    var historicalProfit := IntAt(d, p, 8);
    var campaigns := IntArrayAt(ed, d, historicalProfit.next);
    var awards := IntArrayAt(ed, d, campaigns.next);
    var parkValue := IntAt(d, awards.next, 8);
    var companyValue := IntAt(d, parkValue.next, 8);
    var parkSize := IntAt(d, companyValue.next, 4);
    var guests := IntAt(d, parkSize.next, 4);
    var heading := IntAt(d, guests.next, 4);
    var rating := IntAt(d, heading.next, 4);
    var penalty := IntAt(d, rating.next, 4);
    var expenditure := IntAt(d, penalty.next, 8);
    var profit := IntAt(d, expenditure.next, 8);
    var dividend := IntAt(d, profit.next, 8);
    var divisor := IntAt(d, dividend.next, 4);
    var admissions := IntAt(d, divisor.next, 8);
    var admissionIncome := IntAt(d, admissions.next, 8);
    var rideValue := IntAt(d, admissionIncome.next, 4);
    var lastWeek := IntAt(d, rideValue.next, 4);
    var changeModifier := IntAt(d, lastWeek.next, 4);
    var probability := IntAt(d, changeModifier.next, 4);
    var suggested := IntAt(d, probability.next, 4);
    Read(ParkTotals(historicalProfit.val, campaigns.val, awards.val, parkValue.val, companyValue.val,
                    parkSize.val, guests.val, heading.val, rating.val, penalty.val,
                    expenditure.val, profit.val, dividend.val, divisor.val,
                    admissions.val, admissionIncome.val, rideValue.val,
                    lastWeek.val, changeModifier.val, probability.val, suggested.val),
         suggested.next)
  }

  function ParkHistoryAt(ed: Edition, d: seq<Byte>, p: nat): Read<ParkHistory>
  {
    var throttle := IntArrayAt(ed, d, p);
    var rating := IntArrayAt(ed, d, throttle.next);
    var guests := IntArrayAt(ed, d, rating.next);
    var cash := IntArrayAt(ed, d, guests.next);
    var weekly := IntArrayAt(ed, d, cash.next);
    var value := IntArrayAt(ed, d, weekly.next);
    Read(ParkHistory(throttle.val, rating.val, guests.val, cash.val, weekly.val, value.val), value.next)
  }

  /** 0x06: head, expenditure table, totals, histories. */
  function ParkAt(ed: Edition, d: seq<Byte>, p: nat): (r: Read<Chunk>)
    ensures r.val.Park?
  {
    var head := ParkHeadAt(ed, d, p);
    var table := TableRows(d, head.next, RowWidth(ed, head.val), head.val.numMonths);
    var totals := ParkTotalsAt(ed, d, table.next);
    var history := ParkHistoryAt(ed, d, totals.next);
    Read(Park(head.val, table.val, totals.val, history.val), history.next)
  }

  /** 0x08: six 4-byte fields, two research items with 1-byte flags, two item arrays. */
  function ResearchAt(d: seq<Byte>, p: nat): (r: Read<Chunk>)
    ensures r.val.Research?
  {
    var funding := IntAt(d, p, 4);
    var priorities := IntAt(d, funding.next, 4);
    var stage := IntAt(d, priorities.next, 4);
    var progress := IntAt(d, stage.next, 4);
    var month := IntAt(d, progress.next, 4);
    var day := IntAt(d, month.next, 4);
    var lastItem := ResearchItemAt(d, day.next, 1);
    var nextItem := ResearchItemAt(d, lastItem.next, 1);
    var uninvented := ResearchItemArrayAt(d, nextItem.next);
    var invented := ResearchItemArrayAt(d, uninvented.next);
    Read(Research(funding.val, priorities.val, stage.val, progress.val, month.val, day.val,
                  lastItem.val, nextItem.val, uninvented.val, invented.val),
         invented.next)
  }

  /** 0x20 (Dist): the saved view. */
  function InterfaceAt(d: seq<Byte>, p: nat): (r: Read<Chunk>)
    ensures r.val.Interface?
  {
    var x := IntAt(d, p, 4);
    var y := IntAt(d, x.next, 4);
    var zoom := IntAt(d, y.next, 4);
    var rotation := IntAt(d, zoom.next, 4);
    var entranceStyle := IntAt(d, rotation.next, 4);
    var editorStep := IntAt(d, entranceStyle.next, 4);
    Read(Interface(SavedView(x.val, y.val, zoom.val, rotation.val, entranceStyle.val, editorStep.val)),
         editorStep.next)
  }

  /** 0x30 (Dist): the map size. */
  function TilesAt(d: seq<Byte>, p: nat): (r: Read<Chunk>)
    ensures r.val.Tiles?
  {
    var mapX := IntAt(d, p, 4);
    var mapY := IntAt(d, mapX.next, 4);
    Read(Tiles(mapX.val, mapY.val), mapY.next)
  }

  /**
   * The first `i` object sub-lists: each is a 4-byte type and a 4-byte size, then, when the
   * size is not 0, one 8-byte descriptor kind, after which the inner loop breaks.
   */
  function SubLists(d: seq<Byte>, p: nat, i: nat): Read<Option<SubList>>
  {
    if i == 0 then Read(None, p)
    else
      var prev := SubLists(d, p, i - 1);
      var objectType := IntAt(d, prev.next, 4);
      var size := IntAt(d, objectType.next, 4);
      var end := if 0 < size.val then IntAt(d, size.next, 8).next else size.next;
      Read(Some(SubList(objectType.val, size.val)), end)
  }

  /** 0x02 (Dist): the sub-list count and the last sub-list read. */
  function ObjectsAt(d: seq<Byte>, p: nat): (r: Read<Chunk>)
    ensures r.val.Objects?
  {
    var count := IntAt(d, p, 4);
    var lists := SubLists(d, count.next, count.val);
    Read(Objects(count.val, lists.val), lists.next)
  }

  // ---------------------------------------------------------------------------
  // Dispatch tables
  // ---------------------------------------------------------------------------

  const AuthoringId := 0x01
  const ObjectsId := 0x02
  const ScenarioId := 0x03
  const GeneralId := 0x04
  const ClimateId := 0x05
  const ParkId := 0x06
  const ResearchId := 0x08
  const NotificationsId := 0x09
  const InterfaceId := 0x20
  const TilesId := 0x30
  const EntitiesId := 0x31
  const RidesId := 0x32
  const BannersId := 0x33
  const CheatsId := 0x36
  const RestrictedObjectsId := 0x37
  const PackedObjectsId := 0x80

  /** The ids OpenRCT2Lib.js decodes. */
  const LibLayoutIds: set<int> := {AuthoringId, ScenarioId, GeneralId, ClimateId, ParkId, ResearchId}

  /** The ids OpenRCT2Lib.js recognises and leaves as `{}`; 0x32 is not among them. */
  const LibEmptyIds: set<int> :=
    {ObjectsId, NotificationsId, InterfaceId, TilesId, EntitiesId, BannersId, CheatsId, RestrictedObjectsId, PackedObjectsId}

  /** The ids dist/OpenRCT2Lib.js has a case for. */
  const DistIds: set<int> :=
    {AuthoringId, ObjectsId, ScenarioId, GeneralId, ClimateId, ParkId, ResearchId, NotificationsId,
     InterfaceId, TilesId, EntitiesId, RidesId, BannersId, CheatsId, RestrictedObjectsId, PackedObjectsId}

  /** `getChunk` of OpenRCT2Lib.js: the chunk itself, or the bytes for an unknown id. */
  function LibChunk(id: int, d: seq<Byte>): (r: Chunk)
    ensures r.Raw? <==> id !in LibLayoutIds + LibEmptyIds
  {
    if id in LibEmptyIds then Empty
    else if id == AuthoringId then AuthoringAt(Lib, d, 0).val
    else if id == ScenarioId then ScenarioAt(Lib, d, 0).val
    else if id == GeneralId then GeneralAt(Lib, d, 0).val
    else if id == ClimateId then ClimateAt(d, 0).val
    else if id == ParkId then ParkAt(Lib, d, 0).val
    else if id == ResearchId then ResearchAt(d, 0).val
    else Raw(d)
  }

  /**
   * `getChunk` of dist/OpenRCT2Lib.js: the one key of the returned object and its value, or
   * `None` for the restricted-objects chunk, whose object has no key.
   */
  function DistChunk(id: int, d: seq<Byte>): (r: Option<(string, Chunk)>)
    ensures r.None? <==> id == RestrictedObjectsId
  {
    if id == AuthoringId then Some(("authoring", AuthoringAt(Dist, d, 0).val))
    else if id == ObjectsId then Some(("object", ObjectsAt(d, 0).val))
    else if id == ScenarioId then Some(("scenario", ScenarioAt(Dist, d, 0).val))
    else if id == GeneralId then Some(("general", GeneralAt(Dist, d, 0).val))
    else if id == ClimateId then Some(("climate", ClimateAt(d, 0).val))
    else if id == ParkId then Some(("park", ParkAt(Dist, d, 0).val))
    else if id == ResearchId then Some(("research", ResearchAt(d, 0).val))
    else if id == NotificationsId then Some(("notifications", Empty))
    else if id == InterfaceId then Some(("interface", InterfaceAt(d, 0).val))
    else if id == TilesId then Some(("tiles", TilesAt(d, 0).val))
    else if id == EntitiesId then Some(("entities", Empty))
    else if id == RidesId then Some(("rides", Empty))
    else if id == BannersId then Some(("banners", Empty))
    else if id == CheatsId then Some(("cheats", Empty))
    else if id == RestrictedObjectsId then None
    else if id == PackedObjectsId then Some(("packedObjects", Empty))
    else Some(("unknown", Raw(d)))
  }

  /** The property name under which dist/OpenRCT2Lib.js files a chunk, by id. */
  function DistKey(id: int): (k: Option<string>)
    ensures k.None? <==> id == RestrictedObjectsId
    ensures k == Some("unknown") <==> id !in DistIds
  {
    if id == AuthoringId then Some("authoring")
    else if id == ObjectsId then Some("object")
    else if id == ScenarioId then Some("scenario")
    else if id == GeneralId then Some("general")
    else if id == ClimateId then Some("climate")
    else if id == ParkId then Some("park")
    else if id == ResearchId then Some("research")
    else if id == NotificationsId then Some("notifications")
    else if id == InterfaceId then Some("interface")
    else if id == TilesId then Some("tiles")
    else if id == EntitiesId then Some("entities")
    else if id == RidesId then Some("rides")
    else if id == BannersId then Some("banners")
    else if id == CheatsId then Some("cheats")
    else if id == RestrictedObjectsId then None
    else if id == PackedObjectsId then Some("packedObjects")
    else Some("unknown")
  }

  /** The key `getChunk` of dist/OpenRCT2Lib.js returns depends on the id alone. */
  lemma DistChunkKey(id: int, d: seq<Byte>)
    ensures DistChunk(id, d).Some? == DistKey(id).Some?
    ensures DistChunk(id, d).Some? ==> DistChunk(id, d).value.0 == DistKey(id).value
  {
  }

  /** Two recognised ids never share a key; only unknown ids all land on "unknown". */
  lemma DistKeyInjective(a: int, b: int)
    requires DistKey(a).Some? && DistKey(a) == DistKey(b)
    ensures a == b || (a !in DistIds && b !in DistIds)
  {
  }

  /** The ids OpenRCT2Lib.js recognises without decoding give an empty chunk, and only they. */
  lemma LibEmptyChunks(id: int, d: seq<Byte>)
    ensures LibChunk(id, d).Empty? <==> id in LibEmptyIds
  {
  }

  /** An id OpenRCT2Lib.js has no case for gives back the chunk's own bytes. */
  lemma LibRawChunks(id: int, d: seq<Byte>)
    requires id !in LibLayoutIds + LibEmptyIds
    ensures LibChunk(id, d) == Raw(d)
  {
  }

  /** Dist files a chunk under "unknown", with its bytes, exactly when the id has no case. */
  lemma DistUnknownChunks(id: int, d: seq<Byte>)
    ensures var r := DistChunk(id, d);
      (r.Some? && r.value.0 == "unknown" <==> id !in DistIds) &&
      (r.Some? && r.value.0 == "unknown" ==> r.value.1 == Raw(d))
  {
  }

  /** No chunk produces the key "0", so the `_key != '0'` test of `getData` never drops one. */
  lemma DistKeyNotZero(id: int, d: seq<Byte>)
    ensures DistChunk(id, d).Some? ==> DistChunk(id, d).value.0 != "0"
  {
  }
}
