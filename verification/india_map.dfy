/** The dashboard's map component: its list of states, the state and
    category filters, the per-category counts of the filtered units, the
    projection of coordinates onto the drawing, and the water-quality
    marker. */
module IndiaMap {
  import opened Wrappers
  import opened Text
  import Seqs
  import GroundwaterData
  import MapPage

  type Unit = GroundwaterData.AssessmentUnit
  type Sample = GroundwaterData.WaterQualitySample

  /** `[...new Set(units.map(u => u.state))]`. */
  function States(units: seq<Unit>): seq<string> {
    Seqs.Distinct(Seqs.Map(units, MapPage.StateOf))
  }

  /** The component lists the states in the same order as the map page's
      per-state table, one line per state that has a unit. */
  lemma StatesAsOnMapPage(units: seq<Unit>)
    ensures States(units) == MapPage.Names(MapPage.Aggregate(units))
    ensures Seqs.NoDuplicates(States(units))
    ensures forall i :: 0 <= i < |units| ==> units[i].state in States(units)
  {
    MapPage.TallyNames(units);
    var t := MapPage.Tally(units);
    assert MapPage.Names(Seqs.Map(t, MapPage.WithAverage)) == MapPage.Names(t);
    forall i | 0 <= i < |units|
      ensures units[i].state in States(units)
    {
      assert Seqs.Map(units, MapPage.StateOf)[i] == units[i].state;
    }
  }

  /** The value of a filter that lets everything through. */
  const All := "all"

  /** One select filter: `'all'` or an exact match. */
  predicate Passes(filter: string, value: string) {
    filter == All || value == filter
  }

  function UnitFilter(filterState: string, filterCategory: string): Unit -> bool {
    (u: Unit) => Passes(filterState, u.state) && Passes(filterCategory, u.category)
  }

  /** `filteredUnits`. */
  function FilteredUnits(units: seq<Unit>, filterState: string, filterCategory: string): (r: seq<Unit>)
    ensures forall u :: u in r <==> u in units && Passes(filterState, u.state) && Passes(filterCategory, u.category)
  {
    Seqs.Filter(units, UnitFilter(filterState, filterCategory))
  }

  function CategoryIs(filterCategory: string): Unit -> bool {
    (u: Unit) => Passes(filterCategory, u.category)
  }

  /** Both filters `'all'` show every unit; otherwise the two filters may be
      applied one after the other, state first. */
  lemma FiltersCompose(units: seq<Unit>, filterState: string, filterCategory: string)
    ensures FilteredUnits(units, All, All) == units
    ensures FilteredUnits(units, filterState, filterCategory)
         == Seqs.Filter(FilteredUnits(units, filterState, All), CategoryIs(filterCategory))
  {
    Seqs.FilterAll(units, UnitFilter(All, All));
    Seqs.FilterTwice(units, UnitFilter(filterState, All), CategoryIs(filterCategory), UnitFilter(filterState, filterCategory));
  }

  /** A state chosen here shows the same units, in the same order, as the
      same state selected on the map page. */
  lemma StateFilterAsOnMapPage(units: seq<Unit>, state: string)
    requires state != All && state != ""
    ensures FilteredUnits(units, state, All) == MapPage.SelectedUnits(units, Some(state))
  {
    Seqs.FilterSame(units, UnitFilter(state, All), MapPage.InState(state));
  }

  function SampleFilter(filterState: string): Sample -> bool {
    (w: Sample) => Passes(filterState, w.state)
  }

  /** `filteredQuality`: only the state filter applies to samples. */
  function FilteredQuality(samples: seq<Sample>, filterState: string): (r: seq<Sample>)
    ensures forall w :: w in r <==> w in samples && Passes(filterState, w.state)
  {
    Seqs.Filter(samples, SampleFilter(filterState))
  }

  /** A property value of the `stats` object: a count, or NaN once `++` has
      been applied to a property the object did not have. */
  datatype Stat = Count(n: nat) | NotANumber

  /** `stats[key]++`: a missing property reads as `undefined`, which
      increments to NaN, and NaN stays NaN. */
  function Incremented(stats: map<string, Stat>, key: string): map<string, Stat> {
    var v := if key in stats then stats[key] else NotANumber;
    stats[key := match v case Count(n) => Count(n + 1) case NotANumber => NotANumber]
  }

  const InitialStats: map<string, Stat> :=
    map["Safe" := Count(0), "Semi-Critical" := Count(0), "Critical" := Count(0), "Over-Exploited" := Count(0)]

  /** `getCategoryStats()` over the filtered units. */
  function CategoryStats(us: seq<Unit>): map<string, Stat>
    decreases |us|
  {
    if |us| == 0 then InitialStats
    else Incremented(CategoryStats(us[..|us| - 1]), us[|us| - 1].category)
  }

  function CategoryOfUnit(u: Unit): string {
    u.category
  }

  /** Each of the four categories counts its units; any other category a
      unit carries becomes an extra property holding NaN. */
  lemma {:induction false} StatsCount(us: seq<Unit>)
    ensures forall c :: c in GroundwaterData.Categories ==>
      c in CategoryStats(us) && CategoryStats(us)[c] == Count(MapPage.CountCategory(us, c))
    ensures forall c :: c in CategoryStats(us) <==> c in GroundwaterData.Categories || c in Seqs.Map(us, CategoryOfUnit)
    ensures forall c :: c in CategoryStats(us) && c !in GroundwaterData.Categories ==> CategoryStats(us)[c] == NotANumber
    decreases |us|
  {
    if |us| > 0 {
      var init := us[..|us| - 1];
      var u := us[|us| - 1];
      StatsCount(init);
      Seqs.MapAppend(init, [u], CategoryOfUnit);
      assert us == init + [u];
    }
  }

  lemma KeysAreCategories(st: map<string, Stat>, xs: seq<string>)
    requires forall c :: c in st <==> c in GroundwaterData.Categories || c in xs
    requires forall c :: c in xs ==> c in GroundwaterData.Categories
    ensures st.Keys == InitialStats.Keys
  {
    var cats := GroundwaterData.Categories;
    assert forall c :: c in InitialStats <==> c in cats;
  }

  lemma ValidCategories(us: seq<Unit>)
    requires forall i :: 0 <= i < |us| ==> MapPage.IsCategory(us[i].category)
    ensures forall c :: c in Seqs.Map(us, CategoryOfUnit) ==> c in GroundwaterData.Categories
  {
    forall c | c in Seqs.Map(us, CategoryOfUnit)
      ensures c in GroundwaterData.Categories
    {
      var i :| 0 <= i < |us| && Seqs.Map(us, CategoryOfUnit)[i] == c;
      assert MapPage.IsCategory(us[i].category);
    }
  }

  /** When every unit has one of the four categories, the object keeps
      exactly its four properties, all of them counts. */
  lemma StatsKeys(us: seq<Unit>)
    requires forall i :: 0 <= i < |us| ==> MapPage.IsCategory(us[i].category)
    ensures CategoryStats(us).Keys == InitialStats.Keys
    ensures forall c :: c in CategoryStats(us) ==> CategoryStats(us)[c].Count?
  {
    StatsCount(us);
    ValidCategories(us);
    KeysAreCategories(CategoryStats(us), Seqs.Map(us, CategoryOfUnit));
  }

  lemma FourCounts(us: seq<Unit>)
    ensures var st := CategoryStats(us);
      && "Safe" in st && st["Safe"] == Count(MapPage.CountCategory(us, "Safe"))
      && "Semi-Critical" in st && st["Semi-Critical"] == Count(MapPage.CountCategory(us, "Semi-Critical"))
      && "Critical" in st && st["Critical"] == Count(MapPage.CountCategory(us, "Critical"))
      && "Over-Exploited" in st && st["Over-Exploited"] == Count(MapPage.CountCategory(us, "Over-Exploited"))
  {
    StatsCount(us);
    var cats := GroundwaterData.Categories;
    assert cats[0] == "Safe" && cats[1] == "Semi-Critical" && cats[2] == "Critical" && cats[3] == "Over-Exploited";
  }

  /** When every unit has one of the four categories, the four counts add
      up to the number of units. */
  lemma StatsAddUp(us: seq<Unit>)
    requires forall i :: 0 <= i < |us| ==> MapPage.IsCategory(us[i].category)
    ensures var st := CategoryStats(us);
      && "Safe" in st && "Semi-Critical" in st && "Critical" in st && "Over-Exploited" in st
      && st["Safe"].Count? && st["Semi-Critical"].Count? && st["Critical"].Count? && st["Over-Exploited"].Count?
      && st["Safe"].n + st["Semi-Critical"].n + st["Critical"].n + st["Over-Exploited"].n == |us|
  {
    FourCounts(us);
    MapPage.CategoriesCover(us);
  }

  // Projection onto the drawing.

  const MinLat := 8.0
  const MaxLat := 35.0
  const MinLng := 68.0
  const MaxLng := 97.0

  datatype Point = Point(x: real, y: real)

  /** `toSVG(lat, lng)`: longitude across 600 units, latitude down 500,
      both with a 50-unit margin; north is at the top. */
  function ToSvg(lat: real, lng: real): Point {
    Point((lng - MinLng) / (MaxLng - MinLng) * 600.0 + 50.0, (MaxLat - lat) / (MaxLat - MinLat) * 500.0 + 50.0)
  }

  /** The coordinates a point of the drawing stands for, as `(lat, lng)`. */
  function FromSvg(p: Point): (real, real) {
    (MaxLat - (p.y - 50.0) / 500.0 * (MaxLat - MinLat), MinLng + (p.x - 50.0) / 600.0 * (MaxLng - MinLng))
  }

  /** The projection is one-to-one: reading a point back gives the coordinates, and the reverse. */
  lemma SvgRoundTrip(lat: real, lng: real, p: Point)
    ensures FromSvg(ToSvg(lat, lng)) == (lat, lng)
    ensures ToSvg(FromSvg(p).0, FromSvg(p).1) == p
  {
  }

  /** India's bounding box lands inside the 700 by 600 drawing, margins included. */
  lemma SvgBounds(lat: real, lng: real)
    requires MinLat <= lat <= MaxLat && MinLng <= lng <= MaxLng
    ensures 50.0 <= ToSvg(lat, lng).x <= 650.0
    ensures 50.0 <= ToSvg(lat, lng).y <= 550.0
  {
  }

  /** East is to the right and north is up. */
  lemma SvgOrientation(lat1: real, lng1: real, lat2: real, lng2: real)
    ensures lng1 < lng2 <==> ToSvg(lat1, lng1).x < ToSvg(lat2, lng2).x
    ensures lat1 < lat2 <==> ToSvg(lat1, lng1).y > ToSvg(lat2, lng2).y
  {
  }

  // The water-quality marker.

  /** `hasIssues`: arsenic, fluoride or nitrate over its limit. */
  predicate HasIssues(w: Sample) {
    w.arsenicExceedsLimit || w.fluorideExceedsLimit || w.nitrateExceedsLimit
  }

  const IssueColor := "#ef4444"
  const GoodColor := "#22c55e"

  function MarkerColor(w: Sample): string {
    if HasIssues(w) then IssueColor else GoodColor
  }

  /** A marker is red exactly when the sample's row says `Yes` in the
      nitrate, fluoride or arsenic flag column; the pH, TDS, chloride and
      iron flags never make it red. */
  lemma MarkerFromColumns(num: GroundwaterData.NumberParsers, c: seq<string>, a: bool, b: bool, d: bool, e: bool)
    ensures MarkerColor(GroundwaterData.ParseSample(num, c)) == IssueColor <==>
      GroundwaterData.Col(c, 20) == "Yes" || GroundwaterData.Col(c, 22) == "Yes" || GroundwaterData.Col(c, 26) == "Yes"
    ensures var w := GroundwaterData.ParseSample(num, c);
      MarkerColor(w.(phExceedsLimit := a, tdsExceedsLimit := b, chlorideExceedsLimit := d, ironExceedsLimit := e))
      == MarkerColor(w)
  {
    assert IssueColor != GoodColor by {
      assert IssueColor[1] != GoodColor[1];
    }
  }
}
