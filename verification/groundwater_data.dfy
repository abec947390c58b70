/** The CSV loaders of the groundwater data, from the fetched text onward:
    header skipping, the column-count filter, column mapping, the `"Yes"`
    flags, the DWLR window and per-station dedup, and the category colour. */
module GroundwaterData {
  import opened Text
  import Seqs

  /** `parseFloat` and `parseInt`, as given functions of the cell text. */
  datatype NumberParsers = NumberParsers(parseFloat: string -> real, parseInt: string -> int)

  datatype AssessmentUnit = AssessmentUnit(
    id: string, state: string, district: string, blockName: string, year: int,
    areaSqKm: real, annualRechargeMCM: real, extractableResourceMCM: real,
    currentExtractionMCM: real, stageOfExtractionPercent: real, category: string,
    latitude: real, longitude: real, rainfallMM: real, population: int)

  datatype WaterQualitySample = WaterQualitySample(
    id: string, state: string, district: string, location: string,
    latitude: real, longitude: real, sampleDate: string, wellDepthM: real, wellType: string,
    ph: real, phExceedsLimit: bool, ec: real, tds: real, tdsExceedsLimit: bool,
    hardness: real, chloride: real, chlorideExceedsLimit: bool,
    nitrate: real, nitrateExceedsLimit: bool, fluoride: real, fluorideExceedsLimit: bool,
    iron: real, ironExceedsLimit: bool, arsenic: real, arsenicExceedsLimit: bool)

  datatype DwlrReading = DwlrReading(
    stationId: string, state: string, latitude: real, longitude: real, timestamp: string,
    waterLevelMBGL: real, temperatureC: real, batteryVoltage: real, signalStrength: int,
    dataQuality: string)

  /** `text.trim().split('\n')`. */
  function Lines(text: string): seq<string> {
    Split(Trim(text), '\n')
  }

  /** `line.split(',')`. */
  function Fields(line: string): seq<string> {
    Split(line, ',')
  }

  /** Column `k` of a row; the loaders read only columns below their field minimum. */
  function Col(cols: seq<string>, k: nat): string {
    if k < |cols| then cols[k] else ""
  }

  /** `cols[k] === 'Yes'`. */
  predicate Flag(cols: seq<string>, k: nat) {
    Col(cols, k) == "Yes"
  }

  const AssessmentFields := 15
  const WaterQualityFields := 27
  const DwlrFields := 10
  /** The DWLR loader stops before this line index. */
  const DwlrLineLimit := 500

  /** The line test of a loader: at least `minFields` comma-separated fields. */
  function Wide(minFields: nat): string -> bool {
    (l: string) => |Fields(l)| >= minFields
  }

  /** The record a loader makes of a line. */
  function Parsed<R>(row: seq<string> -> R): string -> R {
    (l: string) => row(Fields(l))
  }

  /** The records of the lines with at least `minFields` fields, in order. */
  function Rows<R>(lines: seq<string>, minFields: nat, row: seq<string> -> R): seq<R> {
    Seqs.Map(Seqs.Filter(lines, Wide(minFields)), Parsed(row))
  }

  /** Row selection distributes over concatenation: output order follows input order. */
  lemma RowsAppend<R>(a: seq<string>, b: seq<string>, minFields: nat, row: seq<string> -> R)
    ensures Rows(a + b, minFields, row) == Rows(a, minFields, row) + Rows(b, minFields, row)
  {
    Seqs.FilterAppend(a, b, Wide(minFields));
    Seqs.MapAppend(Seqs.Filter(a, Wide(minFields)), Seqs.Filter(b, Wide(minFields)), Parsed(row));
  }

  /** `r` is the record of some line of `lines` with enough fields. */
  ghost predicate FromWideLine<R>(lines: seq<string>, minFields: nat, row: seq<string> -> R, r: R) {
    exists l :: l in lines && |Fields(l)| >= minFields && r == row(Fields(l))
  }

  /** A line yields a record exactly when it has enough fields; no more
      records than lines. */
  lemma RowsSelect<R>(lines: seq<string>, minFields: nat, row: seq<string> -> R)
    ensures |Rows(lines, minFields, row)| <= |lines|
    ensures forall l :: l in lines && |Fields(l)| >= minFields ==> row(Fields(l)) in Rows(lines, minFields, row)
    ensures forall k :: 0 <= k < |Rows(lines, minFields, row)| ==> FromWideLine(lines, minFields, row, Rows(lines, minFields, row)[k])
  {
    var kept := Seqs.Filter(lines, Wide(minFields));
    var rs := Rows(lines, minFields, row);
    forall l | l in lines && |Fields(l)| >= minFields
      ensures row(Fields(l)) in rs
    {
      assert l in kept;
      var j :| 0 <= j < |kept| && kept[j] == l;
      assert rs[j] == row(Fields(l));
    }
    forall k | 0 <= k < |Rows(lines, minFields, row)|
      ensures FromWideLine(lines, minFields, row, Rows(lines, minFields, row)[k])
    {
      var l := kept[k];
      assert l in kept;
      assert Wide(minFields)(l);
      assert l in lines && |Fields(l)| >= minFields;
      assert rs[k] == Parsed(row)(l) == row(Fields(l));
    }
  }

  lemma SliceSnoc<T>(s: seq<T>, lo: nat, i: nat)
    requires lo <= i < |s|
    ensures s[lo..i + 1] == s[lo..i] + [s[i]]
  {
  }

  /** Reading one more line adds its record exactly when it has enough fields. */
  lemma RowsSnoc<R>(a: seq<string>, l: string, minFields: nat, row: seq<string> -> R)
    ensures Rows(a + [l], minFields, row)
         == Rows(a, minFields, row) + (if |Fields(l)| >= minFields then [row(Fields(l))] else [])
  {
    RowsAppend(a, [l], minFields, row);
    Seqs.FilterOne(l, Wide(minFields));
    if |Fields(l)| >= minFields {
      assert Seqs.Map([l], Parsed(row)) == [row(Fields(l))];
    } else {
      assert Seqs.Map([], Parsed(row)) == [];
    }
  }

  /** The shared loop of the row loaders: every line after the header with
      at least `minFields` fields becomes a record, in order. */
  method LoadRows<R>(text: string, minFields: nat, row: seq<string> -> R) returns (data: seq<R>)
    ensures data == Rows(Lines(text)[1..], minFields, row)
  {
    var lines := Lines(text);
    data := [];
    var i := 1;
    while i < |lines|
      invariant 1 <= i <= |lines|
      invariant data == Rows(lines[1..i], minFields, row)
    {
      var cols := Fields(lines[i]);
      SliceSnoc(lines, 1, i);
      RowsSnoc(lines[1..i], lines[i], minFields, row);
      if |cols| >= minFields {
        data := data + [row(cols)];
      }
      i := i + 1;
    }
    assert lines[1..i] == lines[1..];
  }

  function ParseUnit(num: NumberParsers, c: seq<string>): AssessmentUnit {
    AssessmentUnit(
      Col(c, 0), Col(c, 1), Col(c, 2), Col(c, 3), num.parseInt(Col(c, 4)),
      num.parseFloat(Col(c, 5)), num.parseFloat(Col(c, 6)), num.parseFloat(Col(c, 7)),
      num.parseFloat(Col(c, 8)), num.parseFloat(Col(c, 9)), Col(c, 10),
      num.parseFloat(Col(c, 11)), num.parseFloat(Col(c, 12)), num.parseFloat(Col(c, 13)), num.parseInt(Col(c, 14)))
  }

  /** `loadAssessmentUnits` after the fetch. */
  method LoadAssessmentUnits(text: string, num: NumberParsers) returns (data: seq<AssessmentUnit>)
    ensures data == Rows(Lines(text)[1..], AssessmentFields, (c: seq<string>) => ParseUnit(num, c))
    ensures |data| <= |Lines(text)| - 1
  {
    data := LoadRows(text, AssessmentFields, (c: seq<string>) => ParseUnit(num, c));
    RowsSelect(Lines(text)[1..], AssessmentFields, (c: seq<string>) => ParseUnit(num, c));
  }

  function ParseSample(num: NumberParsers, c: seq<string>): WaterQualitySample {
    WaterQualitySample(
      Col(c, 0), Col(c, 1), Col(c, 2), Col(c, 3),
      num.parseFloat(Col(c, 4)), num.parseFloat(Col(c, 5)), Col(c, 6), num.parseFloat(Col(c, 7)), Col(c, 8),
      num.parseFloat(Col(c, 9)), Flag(c, 10), num.parseFloat(Col(c, 11)), num.parseFloat(Col(c, 13)), Flag(c, 14),
      num.parseFloat(Col(c, 15)), num.parseFloat(Col(c, 17)), Flag(c, 18),
      num.parseFloat(Col(c, 19)), Flag(c, 20), num.parseFloat(Col(c, 21)), Flag(c, 22),
      num.parseFloat(Col(c, 23)), Flag(c, 24), num.parseFloat(Col(c, 25)), Flag(c, 26))
  }

  /** The seven exceedance flags of a sample, in column order. */
  function Flags(w: WaterQualitySample): seq<bool> {
    [w.phExceedsLimit, w.tdsExceedsLimit, w.chlorideExceedsLimit, w.nitrateExceedsLimit,
     w.fluorideExceedsLimit, w.ironExceedsLimit, w.arsenicExceedsLimit]
  }

  /** The columns the flags are read from. */
  const FlagColumns: seq<nat> := [10, 14, 18, 20, 22, 24, 26]

  /** Each flag is set exactly when its column is the exact text `Yes`
      (so `yes`, `YES` or ` Yes` read as not exceeding). */
  lemma FlagsAreExactYes(num: NumberParsers, c: seq<string>)
    ensures |Flags(ParseSample(num, c))| == |FlagColumns|
    ensures forall k :: 0 <= k < |FlagColumns| ==> (Flags(ParseSample(num, c))[k] <==> Col(c, FlagColumns[k]) == "Yes")
  {
  }

  /** Columns 12 and 16 are never read: `tds` comes from column 13 and
      `chloride` from column 17. */
  lemma SkippedColumns(num: NumberParsers, c: seq<string>, x: string, y: string)
    requires |c| >= WaterQualityFields
    ensures ParseSample(num, c[12 := x][16 := y]) == ParseSample(num, c)
    ensures ParseSample(num, c).tds == num.parseFloat(c[13]) && ParseSample(num, c).chloride == num.parseFloat(c[17])
  {
  }

  /** `loadWaterQuality` after the fetch. */
  method LoadWaterQuality(text: string, num: NumberParsers) returns (data: seq<WaterQualitySample>)
    ensures data == Rows(Lines(text)[1..], WaterQualityFields, (c: seq<string>) => ParseSample(num, c))
    ensures |data| <= |Lines(text)| - 1
  {
    data := LoadRows(text, WaterQualityFields, (c: seq<string>) => ParseSample(num, c));
    RowsSelect(Lines(text)[1..], WaterQualityFields, (c: seq<string>) => ParseSample(num, c));
  }

  function ParseReading(num: NumberParsers, c: seq<string>): (r: DwlrReading)
    ensures r.stationId == Col(c, 0)
  {
    DwlrReading(
      Col(c, 0), Col(c, 1), num.parseFloat(Col(c, 2)), num.parseFloat(Col(c, 3)), Col(c, 4),
      num.parseFloat(Col(c, 5)), num.parseFloat(Col(c, 6)), num.parseFloat(Col(c, 7)), num.parseInt(Col(c, 8)),
      Col(c, 9))
  }

  /** The lines the DWLR loader looks at: indices 1 to `min(len, 500) - 1`. */
  function DwlrWindow(lines: seq<string>): (w: seq<string>)
    requires |lines| >= 1
    ensures |w| <= DwlrLineLimit - 1
    ensures |w| < |lines| && (|w| == DwlrLineLimit - 1 || |w| == |lines| - 1)
    ensures forall k :: 0 <= k < |w| ==> w[k] == lines[k + 1]
  {
    lines[1..if |lines| < DwlrLineLimit then |lines| else DwlrLineLimit]
  }

  /** The station a DWLR line is about: its first field. */
  function Station(l: string): string {
    Col(Fields(l), 0)
  }

  predicate IsDwlrRow(l: string) {
    |Fields(l)| >= DwlrFields
  }

  /** The stations of some DWLR lines. */
  function StationsOf(ls: seq<string>): set<string> {
    set l | l in ls :: Station(l)
  }

  /** The lines the DWLR loop keeps, as it keeps them: a well-formed row
      whose station has not been seen yet. */
  function DwlrKept(window: seq<string>): seq<string>
    decreases |window|
  {
    if |window| == 0 then []
    else
      var kept := DwlrKept(window[..|window| - 1]);
      var l := window[|window| - 1];
      if IsDwlrRow(l) && Station(l) !in StationsOf(kept) then kept + [l] else kept
  }

  lemma StationsOfMap(kept: seq<string>, x: string)
    ensures x in StationsOf(kept) <==> x in Seqs.Map(kept, Station)
  {
    if x in StationsOf(kept) {
      var y :| y in kept && Station(y) == x;
      var j :| 0 <= j < |kept| && kept[j] == y;
      assert Seqs.Map(kept, Station)[j] == x;
    }
  }

  lemma StationsOfSnoc(kept: seq<string>, l: string)
    ensures StationsOf(kept + [l]) == StationsOf(kept) + {Station(l)}
  {
  }

  /** One more line for the loop's selection. */
  lemma DwlrKeptSnoc(window: seq<string>, i: nat)
    requires i < |window|
    ensures DwlrKept(window[..i + 1]) ==
      if IsDwlrRow(window[i]) && Station(window[i]) !in StationsOf(DwlrKept(window[..i]))
      then DwlrKept(window[..i]) + [window[i]] else DwlrKept(window[..i])
  {
    assert window[..i + 1][..i] == window[..i];
  }

  /** The loop's selection is "the first well-formed row of each station". */
  lemma {:induction false} DwlrKeptIsFirstPerStation(window: seq<string>)
    ensures DwlrKept(window) == Seqs.FirstPerKey(Seqs.Filter(window, IsDwlrRow), Station)
    decreases |window|
  {
    if |window| > 0 {
      var init := window[..|window| - 1];
      var l := window[|window| - 1];
      assert window == init + [l];
      DwlrKeptIsFirstPerStation(init);
      var rows := Seqs.Filter(init, IsDwlrRow);
      var kept := DwlrKept(init);
      Seqs.FilterAppend(init, [l], IsDwlrRow);
      Seqs.FilterOne(l, IsDwlrRow);
      StationsOfMap(kept, Station(l));
      if IsDwlrRow(l) {
        assert Seqs.Filter(window, IsDwlrRow) == rows + [l];
        Seqs.FirstPerKeySnoc(rows, l, Station);
      } else {
        assert Seqs.Filter(window, IsDwlrRow) == rows;
      }
    }
  }

  function StationId(r: DwlrReading): string {
    r.stationId
  }

  /** The record a DWLR line becomes. */
  function Reading(num: NumberParsers): string -> DwlrReading {
    (l: string) => ParseReading(num, Fields(l))
  }

  /** One turn of the loop: a wide line of a station not yet seen adds its
      reading and its station; any other line adds nothing. */
  lemma SelectStep(window: seq<string>, i: nat, num: NumberParsers)
    requires i < |window|
    ensures var kept, l := DwlrKept(window[..i]), window[i];
      var take := IsDwlrRow(l) && Station(l) !in StationsOf(kept);
      && Seqs.Map(DwlrKept(window[..i + 1]), Reading(num))
         == Seqs.Map(kept, Reading(num)) + (if take then [ParseReading(num, Fields(l))] else [])
      && StationsOf(DwlrKept(window[..i + 1])) == StationsOf(kept) + (if take then {Station(l)} else {})
  {
    var kept, l := DwlrKept(window[..i]), window[i];
    DwlrKeptSnoc(window, i);
    if IsDwlrRow(l) && Station(l) !in StationsOf(kept) {
      Seqs.MapAppend(kept, [l], Reading(num));
      assert Seqs.Map([l], Reading(num)) == [ParseReading(num, Fields(l))];
      StationsOfSnoc(kept, l);
    }
  }

  /** The loop of `loadDWLRData` over its window, with its `seenStations` set. */
  method SelectReadings(window: seq<string>, num: NumberParsers) returns (data: seq<DwlrReading>)
    ensures data == Seqs.Map(DwlrKept(window), Reading(num))
  {
    data := [];
    var seen: set<string> := {};
    var i := 0;
    while i < |window|
      invariant 0 <= i <= |window|
      invariant data == Seqs.Map(DwlrKept(window[..i]), Reading(num))
      invariant seen == StationsOf(DwlrKept(window[..i]))
    {
      var cols := Fields(window[i]);
      SelectStep(window, i, num);
      ghost var before, after := StationsOf(DwlrKept(window[..i])), StationsOf(DwlrKept(window[..i + 1]));
      if |cols| >= DwlrFields && Col(cols, 0) !in seen {
        assert after == before + {Col(cols, 0)};
        seen := seen + {Col(cols, 0)};
        data := data + [ParseReading(num, cols)];
      } else {
        assert after == before;
      }
      i := i + 1;
    }
    assert window[..i] == window;
  }

  /** `loadDWLRData` after the fetch. */
  method LoadDwlrData(text: string, num: NumberParsers) returns (data: seq<DwlrReading>)
    ensures data == Seqs.Map(DwlrKept(DwlrWindow(Lines(text))), Reading(num))
    ensures |data| <= DwlrLineLimit - 1
  {
    data := SelectReadings(DwlrWindow(Lines(text)), num);
    DwlrStations(DwlrWindow(Lines(text)), num);
  }

  /** The DWLR readings have distinct station ids, listed in the order
      their stations first appear among the well-formed rows, each the
      first such row of its station, and there are at most 499 of them. */
  lemma DwlrStations(window: seq<string>, num: NumberParsers)
    requires |window| <= DwlrLineLimit - 1
    ensures var rows := Seqs.Filter(window, IsDwlrRow);
      var data := Seqs.Map(DwlrKept(window), Reading(num));
      && Seqs.Map(data, StationId) == Seqs.Distinct(Seqs.Map(rows, Station))
      && Seqs.NoDuplicates(Seqs.Map(data, StationId))
      && |data| <= DwlrLineLimit - 1
      && forall k :: 0 <= k < |data| ==>
           data[k].stationId in Seqs.Map(rows, Station)
           && data[k] == Reading(num)(rows[Seqs.First(Seqs.Map(rows, Station), data[k].stationId)])
  {
    var rows := Seqs.Filter(window, IsDwlrRow);
    var kept := DwlrKept(window);
    DwlrKeptIsFirstPerStation(window);
    var data := Seqs.Map(kept, Reading(num));
    assert Seqs.Map(data, StationId) == Seqs.Map(kept, Station);
    assert |Seqs.Distinct(Seqs.Map(rows, Station))| <= |rows|;
    Seqs.FirstPerKeyKeepsFirst(rows, Station);
    forall k | 0 <= k < |data|
      ensures data[k].stationId in Seqs.Map(rows, Station)
      ensures data[k] == Reading(num)(rows[Seqs.First(Seqs.Map(rows, Station), data[k].stationId)])
    {
      assert data[k].stationId == Station(kept[k]);
    }
  }

  /** `getCategoryColor`: total over all strings. */
  function CategoryColor(category: string): string {
    match category
    case "Safe" => "#22c55e"
    case "Semi-Critical" => "#f59e0b"
    case "Critical" => "#f97316"
    case "Over-Exploited" => "#ef4444"
    case _ => "#6b7280"
  }

  const Categories: seq<string> := ["Safe", "Semi-Critical", "Critical", "Over-Exploited"]
  const DefaultColor := "#6b7280"

  /** The four categories get four different colours, none of them the
      fallback grey, and every other string gets the grey. */
  lemma CategoryColors(category: string)
    ensures CategoryColor(category) == DefaultColor <==> category !in Categories
    ensures forall i, j :: 0 <= i < j < |Categories| ==> CategoryColor(Categories[i]) != CategoryColor(Categories[j])
  {
  }
}
