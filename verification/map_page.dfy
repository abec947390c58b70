/** The map page: assessment units tallied per state in order of first
    appearance, the colour band of a state's extraction percentage, the
    national totals, the selected state's units and the zoom controls. */
module MapPage {
  import opened Wrappers
  import opened Text
  import Seqs
  import GroundwaterData

  type Unit = GroundwaterData.AssessmentUnit

  /** A JavaScript number as far as the page's arithmetic reaches it: a
      finite value (rounding aside), an infinity, or NaN. */
  datatype JsNumber = Finite(v: real) | PosInf | NegInf | NaN

  /** `x < c` for a finite `c`; every comparison with NaN is false. */
  predicate Below(x: JsNumber, c: real) {
    match x
    case Finite(v) => v < c
    case NegInf => true
    case PosInf => false
    case NaN => false
  }

  /** `x <= c` for a finite `c`. */
  predicate AtMost(x: JsNumber, c: real) {
    match x
    case Finite(v) => v <= c
    case NegInf => true
    case PosInf => false
    case NaN => false
  }

  /** `(extraction / recharge) * 100`. Dividing by zero gives an infinity
      with the sign of the numerator, or NaN for `0 / 0`. */
  function Percent(extraction: real, recharge: real): (p: JsNumber)
    ensures p.Finite? <==> recharge != 0.0
    ensures p.Finite? ==> p.v * recharge == extraction * 100.0
    ensures recharge == 0.0 ==> (p.PosInf? <==> extraction > 0.0) && (p.NegInf? <==> extraction < 0.0)
    ensures recharge == 0.0 ==> (p.NaN? <==> extraction == 0.0)
  {
    if recharge != 0.0 then Finite(extraction / recharge * 100.0)
    else if extraction > 0.0 then PosInf
    else if extraction < 0.0 then NegInf
    else NaN
  }

  const Green := "#22c55e"
  const Amber := "#f59e0b"
  const Orange := "#f97316"
  const Red := "#dc2626"

  /** The fill of a state with no assessment units. */
  const NoDataColor := "#9ca3af"

  /** `getExtractionColor`: below 70, below 90, up to 100, above. */
  function ExtractionColor(p: JsNumber): string {
    if Below(p, 70.0) then Green
    else if Below(p, 90.0) then Amber
    else if AtMost(p, 100.0) then Orange
    else Red
  }

  /** The four bands partition the finite percentages at 70, 90 and 100:
      70 and 90 open the next band, 100 still belongs to the third. NaN and
      +Infinity fail every comparison and fall through to the last band. */
  lemma ExtractionBands(x: real)
    ensures ExtractionColor(Finite(x)) == Green <==> x < 70.0
    ensures ExtractionColor(Finite(x)) == Amber <==> 70.0 <= x < 90.0
    ensures ExtractionColor(Finite(x)) == Orange <==> 90.0 <= x <= 100.0
    ensures ExtractionColor(Finite(x)) == Red <==> 100.0 < x
    ensures ExtractionColor(NaN) == Red && ExtractionColor(PosInf) == Red && ExtractionColor(NegInf) == Green
  {
    assert Green[1] != Amber[1] && Green[1] != Orange[1] && Green[1] != Red[1];
    assert Amber[2] != Orange[2] && Amber[1] != Red[1] && Orange[1] != Red[1];
  }

  /** One entry of the page's per-state map. */
  datatype StateData = StateData(
    name: string, totalUnits: nat,
    safe: nat, semiCritical: nat, critical: nat, overExploited: nat,
    avgExtraction: JsNumber, totalRecharge: real, totalExtraction: real)

  /** The entry created the first time a state is met. */
  function Fresh(name: string): StateData {
    StateData(name, 0, 0, 0, 0, 0, Finite(0.0), 0.0, 0.0)
  }

  /** 1 when a unit has the category, else 0. */
  function Tick(u: Unit, c: string): nat {
    if u.category == c then 1 else 0
  }

  /** One unit added to its state's entry: the unit count, both sums, and
      the counter of its category when it is one of the four (the `switch`
      cases are distinct, so at most one counter moves). */
  function Counted(d: StateData, u: Unit): StateData {
    d.(totalUnits := d.totalUnits + 1,
       safe := d.safe + Tick(u, "Safe"),
       semiCritical := d.semiCritical + Tick(u, "Semi-Critical"),
       critical := d.critical + Tick(u, "Critical"),
       overExploited := d.overExploited + Tick(u, "Over-Exploited"),
       totalRecharge := d.totalRecharge + u.annualRechargeMCM,
       totalExtraction := d.totalExtraction + u.currentExtractionMCM)
  }

  function NameOf(d: StateData): string {
    d.name
  }

  function StateOf(u: Unit): string {
    u.state
  }

  /** The state names of a map, in insertion order. */
  function Names(entries: seq<StateData>): seq<string> {
    Seqs.Map(entries, NameOf)
  }

  /** The position of a state's entry, or -1 when it has none. */
  function Find(entries: seq<StateData>, name: string): (k: int)
    ensures -1 <= k < |entries|
    ensures 0 <= k ==> entries[k].name == name
    ensures k < 0 <==> name !in Names(entries)
    decreases |entries|
  {
    if |entries| == 0 then -1
    else if entries[|entries| - 1].name == name then |entries| - 1
    else
      var init := entries[..|entries| - 1];
      assert Names(entries) == Names(init) + [entries[|entries| - 1].name];
      Find(init, name)
  }

  /** `stateMap.get(name)`. */
  function Get(entries: seq<StateData>, name: string): (r: Option<StateData>)
    ensures r.None? <==> name !in Names(entries)
    ensures r.Some? ==> r.value in entries && r.value.name == name
  {
    var k := Find(entries, name);
    if k < 0 then None else Some(entries[k])
  }

  /** The `forEach` over the units: a map entry per state, in order of the
      state's first unit, each unit counted into its state's entry. */
  function Tally(units: seq<Unit>): seq<StateData>
    decreases |units|
  {
    if |units| == 0 then []
    else
      var acc := Tally(units[..|units| - 1]);
      var u := units[|units| - 1];
      var k := Find(acc, u.state);
      if k < 0 then acc + [Counted(Fresh(u.state), u)]
      else acc[k := Counted(acc[k], u)]
  }

  /** The second pass: each entry's extraction as a percentage of its recharge. */
  function WithAverage(d: StateData): StateData {
    d.(avgExtraction := Percent(d.totalExtraction, d.totalRecharge))
  }

  /** The page's `stateData`, once loading has finished. */
  function Aggregate(units: seq<Unit>): seq<StateData> {
    Seqs.Map(Tally(units), WithAverage)
  }

  // The per-state figures, defined directly on the units.

  function InState(s: string): Unit -> bool {
    (u: Unit) => u.state == s
  }

  /** The units of one state, in order. */
  function UnitsIn(units: seq<Unit>, s: string): seq<Unit> {
    Seqs.Filter(units, InState(s))
  }

  /** How many units carry a category. */
  function CountCategory(us: seq<Unit>, c: string): nat
    decreases |us|
  {
    if |us| == 0 then 0
    else CountCategory(us[..|us| - 1], c) + Tick(us[|us| - 1], c)
  }

  function SumRecharge(us: seq<Unit>): real
    decreases |us|
  {
    if |us| == 0 then 0.0 else SumRecharge(us[..|us| - 1]) + us[|us| - 1].annualRechargeMCM
  }

  function SumExtraction(us: seq<Unit>): real
    decreases |us|
  {
    if |us| == 0 then 0.0 else SumExtraction(us[..|us| - 1]) + us[|us| - 1].currentExtractionMCM
  }

  /** An entry that holds exactly the figures of its state's units. */
  ghost predicate Summarises(d: StateData, units: seq<Unit>) {
    var us := UnitsIn(units, d.name);
    && d.totalUnits == |us|
    && d.safe == CountCategory(us, "Safe")
    && d.semiCritical == CountCategory(us, "Semi-Critical")
    && d.critical == CountCategory(us, "Critical")
    && d.overExploited == CountCategory(us, "Over-Exploited")
    && d.totalRecharge == SumRecharge(us)
    && d.totalExtraction == SumExtraction(us)
  }

  lemma UnitsInSnoc(init: seq<Unit>, u: Unit, s: string)
    ensures UnitsIn(init + [u], s) == UnitsIn(init, s) + (if u.state == s then [u] else [])
  {
    Seqs.FilterAppend(init, [u], InState(s));
    Seqs.FilterOne(u, InState(s));
  }

  /** A state none of whose units has been seen has no units yet. */
  lemma UnitsInAbsent(units: seq<Unit>, s: string)
    requires s !in Seqs.Map(units, StateOf)
    ensures UnitsIn(units, s) == []
  {
    forall i | 0 <= i < |units|
      ensures !InState(s)(units[i])
    {
      assert Seqs.Map(units, StateOf)[i] == units[i].state;
    }
    Seqs.FilterNone(units, InState(s));
  }

  lemma CountedSummarises(d: StateData, init: seq<Unit>, u: Unit)
    requires Summarises(d, init) && d.name == u.state
    ensures Summarises(Counted(d, u), init + [u])
  {
    var us := UnitsIn(init, d.name);
    UnitsInSnoc(init, u, d.name);
    var us' := UnitsIn(init + [u], d.name);
    assert us' == us + [u];
    assert us'[..|us'| - 1] == us;
  }

  lemma OtherSummarises(d: StateData, init: seq<Unit>, u: Unit)
    requires Summarises(d, init) && d.name != u.state
    ensures Summarises(d, init + [u])
  {
    UnitsInSnoc(init, u, d.name);
  }

  lemma NamesUpdate(entries: seq<StateData>, k: nat, d: StateData)
    requires k < |entries| && d.name == entries[k].name
    ensures Names(entries[k := d]) == Names(entries)
  {
  }

  lemma NamesSnoc(entries: seq<StateData>, d: StateData)
    ensures Names(entries + [d]) == Names(entries) + [d.name]
  {
  }

  /** The state list of the units grows by a unit's state the first time it appears. */
  lemma StatesSnoc(units: seq<Unit>)
    requires |units| > 0
    ensures var d := Seqs.Distinct(Seqs.Map(units[..|units| - 1], StateOf));
      var x := units[|units| - 1].state;
      Seqs.Distinct(Seqs.Map(units, StateOf)) == if x in d then d else d + [x]
  {
    var states := Seqs.Map(units, StateOf);
    assert states[..|states| - 1] == Seqs.Map(units[..|units| - 1], StateOf);
    assert states[|states| - 1] == units[|units| - 1].state;
  }

  /** The tally has one entry per state, in order of first appearance. */
  lemma {:induction false} TallyNames(units: seq<Unit>)
    ensures Names(Tally(units)) == Seqs.Distinct(Seqs.Map(units, StateOf))
    decreases |units|
  {
    if |units| > 0 {
      var init := units[..|units| - 1];
      var u := units[|units| - 1];
      TallyNames(init);
      StatesSnoc(units);
      var acc := Tally(init);
      var k := Find(acc, u.state);
      if k < 0 {
        NamesSnoc(acc, Counted(Fresh(u.state), u));
      } else {
        NamesUpdate(acc, k, Counted(acc[k], u));
      }
    }
  }

  /** Every entry of the tally holds exactly the figures of its state's units. */
  lemma {:induction false} TallySummarises(units: seq<Unit>)
    ensures forall i :: 0 <= i < |Tally(units)| ==> Summarises(Tally(units)[i], units)
    decreases |units|
  {
    if |units| > 0 {
      var init := units[..|units| - 1];
      var u := units[|units| - 1];
      assert units == init + [u];
      TallyNames(init);
      TallySummarises(init);
      var acc := Tally(init);
      var k := Find(acc, u.state);
      var t := Tally(units);
      forall i | 0 <= i < |t|
        ensures Summarises(t[i], units)
      {
        if i == |acc| {
          assert k < 0 && t[i] == Counted(Fresh(u.state), u);
          assert u.state !in Seqs.Map(init, StateOf);
          UnitsInAbsent(init, u.state);
          CountedSummarises(Fresh(u.state), init, u);
        } else if i == k {
          assert t[i] == Counted(acc[k], u);
          CountedSummarises(acc[k], init, u);
        } else {
          assert t[i] == acc[i];
          assert Names(acc)[i] == acc[i].name;
          if 0 <= k {
            assert Names(acc)[k] == u.state;
          }
          OtherSummarises(acc[i], init, u);
        }
      }
    }
  }

  /** The loaded `stateData`: one entry per state in order of its first unit;
      each entry counts its state's units, its units per category and the
      two sums, and its average is the extraction over the recharge. */
  lemma AggregateSummarises(units: seq<Unit>)
    ensures Names(Aggregate(units)) == Seqs.Distinct(Seqs.Map(units, StateOf))
    ensures forall i :: 0 <= i < |Aggregate(units)| ==>
      var d := Aggregate(units)[i];
      && Summarises(d, units)
      && d.totalUnits > 0
      && d.avgExtraction == Percent(SumExtraction(UnitsIn(units, d.name)), SumRecharge(UnitsIn(units, d.name)))
  {
    TallyNames(units);
    TallySummarises(units);
    var t := Tally(units);
    var a := Aggregate(units);
    assert Names(a) == Names(t);
    forall i | 0 <= i < |a|
      ensures Summarises(a[i], units) && a[i].totalUnits > 0
    {
      assert a[i] == WithAverage(t[i]);
      assert Summarises(t[i], units);
      assert t[i].name in Names(t);
      assert t[i].name in Seqs.Map(units, StateOf);
      var j :| 0 <= j < |units| && Seqs.Map(units, StateOf)[j] == t[i].name;
      assert units[j] in UnitsIn(units, t[i].name);
    }
  }

  predicate IsCategory(c: string) {
    c in GroundwaterData.Categories
  }

  /** The four category counters never exceed the unit count, and account
      for every unit when every category is one of the four. */
  lemma {:induction false} CategoriesCover(us: seq<Unit>)
    ensures CountCategory(us, "Safe") + CountCategory(us, "Semi-Critical") + CountCategory(us, "Critical")
            + CountCategory(us, "Over-Exploited") <= |us|
    ensures (forall i :: 0 <= i < |us| ==> IsCategory(us[i].category)) ==>
      CountCategory(us, "Safe") + CountCategory(us, "Semi-Critical") + CountCategory(us, "Critical")
      + CountCategory(us, "Over-Exploited") == |us|
    decreases |us|
  {
    if |us| > 0 {
      CategoriesCover(us[..|us| - 1]);
      var c := us[|us| - 1].category;
      assert "Safe" != "Semi-Critical" && "Safe" != "Critical" && "Safe" != "Over-Exploited";
      assert "Semi-Critical" != "Critical" && "Semi-Critical" != "Over-Exploited" && "Critical" != "Over-Exploited";
    }
  }

  /** Per state, the category badges add up to at most the unit count, and
      to exactly it when every unit has one of the four categories. */
  lemma StateCategoriesCover(units: seq<Unit>, i: nat)
    requires i < |Aggregate(units)|
    ensures var d := Aggregate(units)[i];
      d.safe + d.semiCritical + d.critical + d.overExploited <= d.totalUnits
    ensures (forall j :: 0 <= j < |units| ==> IsCategory(units[j].category)) ==>
      var d := Aggregate(units)[i];
      d.safe + d.semiCritical + d.critical + d.overExploited == d.totalUnits
  {
    AggregateSummarises(units);
    var d := Aggregate(units)[i];
    var us := UnitsIn(units, d.name);
    CategoriesCover(us);
    if forall j :: 0 <= j < |units| ==> IsCategory(units[j].category) {
      forall j | 0 <= j < |us|
        ensures IsCategory(us[j].category)
      {
        assert us[j] in units;
      }
    }
  }

  // The totals row.

  datatype Totals = Totals(safe: nat, semiCritical: nat, critical: nat, overExploited: nat, total: nat)

  /** A field summed over the map's values with `reduce`. */
  function SumNat(entries: seq<StateData>, f: StateData -> nat): nat
    decreases |entries|
  {
    if |entries| == 0 then 0 else SumNat(entries[..|entries| - 1], f) + f(entries[|entries| - 1])
  }

  function SafeOf(d: StateData): nat { d.safe }
  function SemiCriticalOf(d: StateData): nat { d.semiCritical }
  function CriticalOf(d: StateData): nat { d.critical }
  function OverExploitedOf(d: StateData): nat { d.overExploited }
  function UnitsOf(d: StateData): nat { d.totalUnits }

  /** The page's `totals`. */
  function TotalsOf(entries: seq<StateData>): Totals {
    Totals(SumNat(entries, SafeOf), SumNat(entries, SemiCriticalOf), SumNat(entries, CriticalOf),
           SumNat(entries, OverExploitedOf), SumNat(entries, UnitsOf))
  }

  lemma {:induction false} SumNatUpdate(entries: seq<StateData>, k: nat, d: StateData, f: StateData -> nat)
    requires k < |entries|
    ensures SumNat(entries[k := d], f) + f(entries[k]) == SumNat(entries, f) + f(d)
    decreases |entries|
  {
    var n := |entries| - 1;
    var e := entries[k := d];
    assert e[..n] == if k < n then entries[..n][k := d] else entries[..n];
    if k < n {
      SumNatUpdate(entries[..n], k, d, f);
    }
  }

  lemma SumNatSnoc(entries: seq<StateData>, d: StateData, f: StateData -> nat)
    ensures SumNat(entries + [d], f) == SumNat(entries, f) + f(d)
  {
    assert (entries + [d])[..|entries|] == entries;
  }

  /** A column of the totals row. */
  datatype Column = AllUnits | SafeUnits | SemiCriticalUnits | CriticalUnits | OverExploitedUnits

  /** The category a column counts, or `None` when it counts every unit. */
  function CategoryOf(col: Column): Option<string> {
    match col
    case AllUnits => None
    case SafeUnits => Some("Safe")
    case SemiCriticalUnits => Some("Semi-Critical")
    case CriticalUnits => Some("Critical")
    case OverExploitedUnits => Some("Over-Exploited")
  }

  /** What one unit adds to a column. */
  function Weight(col: Column, u: Unit): nat {
    if col.AllUnits? then 1 else Tick(u, CategoryOf(col).value)
  }

  /** The field of an entry that a column sums. */
  function Counter(col: Column): StateData -> nat {
    match col
    case AllUnits => UnitsOf
    case SafeUnits => SafeOf
    case SemiCriticalUnits => SemiCriticalOf
    case CriticalUnits => CriticalOf
    case OverExploitedUnits => OverExploitedOf
  }

  /** A column computed directly on the units. */
  function CountWeight(us: seq<Unit>, col: Column): nat
    decreases |us|
  {
    if |us| == 0 then 0 else CountWeight(us[..|us| - 1], col) + Weight(col, us[|us| - 1])
  }

  lemma CounterStep(col: Column, d: StateData, u: Unit)
    ensures Counter(col)(Counted(d, u)) == Counter(col)(d) + Weight(col, u)
    ensures Counter(col)(Fresh(u.state)) == 0
  {
  }

  /** Summing a field over the tally counts exactly the units its column counts. */
  lemma {:induction false} TallyCounts(units: seq<Unit>, col: Column)
    ensures SumNat(Tally(units), Counter(col)) == CountWeight(units, col)
    decreases |units|
  {
    if |units| > 0 {
      var init := units[..|units| - 1];
      var u := units[|units| - 1];
      TallyCounts(init, col);
      var acc := Tally(init);
      var k := Find(acc, u.state);
      CounterStep(col, if k < 0 then Fresh(u.state) else acc[k], u);
      if k < 0 {
        SumNatSnoc(acc, Counted(Fresh(u.state), u), Counter(col));
      } else {
        SumNatUpdate(acc, k, Counted(acc[k], u), Counter(col));
      }
    }
  }

  lemma SumNatAverages(entries: seq<StateData>, col: Column)
    ensures SumNat(Seqs.Map(entries, WithAverage), Counter(col)) == SumNat(entries, Counter(col))
    decreases |entries|
  {
    if |entries| > 0 {
      var n := |entries| - 1;
      assert Seqs.Map(entries, WithAverage)[..n] == Seqs.Map(entries[..n], WithAverage);
      SumNatAverages(entries[..n], col);
    }
  }

  /** Each column computed on the units: all of them, or those of its category. */
  lemma {:induction false} CountWeightMeans(us: seq<Unit>, col: Column)
    ensures col.AllUnits? ==> CountWeight(us, col) == |us|
    ensures !col.AllUnits? ==> CountWeight(us, col) == CountCategory(us, CategoryOf(col).value)
    decreases |us|
  {
    if |us| > 0 {
      CountWeightMeans(us[..|us| - 1], col);
    }
  }

  lemma ColumnTotal(units: seq<Unit>, col: Column)
    ensures col.AllUnits? ==> SumNat(Aggregate(units), Counter(col)) == |units|
    ensures !col.AllUnits? ==> SumNat(Aggregate(units), Counter(col)) == CountCategory(units, CategoryOf(col).value)
  {
    TallyCounts(units, col);
    SumNatAverages(Tally(units), col);
    CountWeightMeans(units, col);
  }

  /** The totals row counts every unit once, and each category total counts
      the units of that category, whatever their state. */
  lemma TotalsCount(units: seq<Unit>)
    ensures TotalsOf(Aggregate(units)) ==
      Totals(CountCategory(units, "Safe"), CountCategory(units, "Semi-Critical"),
             CountCategory(units, "Critical"), CountCategory(units, "Over-Exploited"), |units|)
  {
    var a := Aggregate(units);
    assert SumNat(a, UnitsOf) == |units| by {
      ColumnTotal(units, AllUnits);
      assert Counter(AllUnits) == UnitsOf;
    }
    assert SumNat(a, SafeOf) == CountCategory(units, "Safe") by {
      ColumnTotal(units, SafeUnits);
      assert Counter(SafeUnits) == SafeOf;
    }
    assert SumNat(a, SemiCriticalOf) == CountCategory(units, "Semi-Critical") by {
      ColumnTotal(units, SemiCriticalUnits);
      assert Counter(SemiCriticalUnits) == SemiCriticalOf;
    }
    assert SumNat(a, CriticalOf) == CountCategory(units, "Critical") by {
      ColumnTotal(units, CriticalUnits);
      assert Counter(CriticalUnits) == CriticalOf;
    }
    assert SumNat(a, OverExploitedOf) == CountCategory(units, "Over-Exploited") by {
      ColumnTotal(units, OverExploitedUnits);
      assert Counter(OverExploitedUnits) == OverExploitedOf;
    }
  }

  // Selection and view.

  /** `filteredUnits`: nothing without a selection, else the selected state's units. */
  function SelectedUnits(units: seq<Unit>, selected: Option<string>): (r: seq<Unit>)
    ensures forall u :: u in r <==> IsSet(selected) && u in units && u.state == selected.value
  {
    if IsSet(selected) then UnitsIn(units, selected.value) else []
  }

  /** The list beside the map has as many units as the selected state's badge says. */
  lemma SelectedMatchesBadge(units: seq<Unit>, name: string)
    requires name != ""
    requires Get(Aggregate(units), name).Some?
    ensures |SelectedUnits(units, Some(name))| == Get(Aggregate(units), name).value.totalUnits
  {
    AggregateSummarises(units);
    var a := Aggregate(units);
    var i :| 0 <= i < |a| && a[i] == Get(a, name).value;
  }

  /** The fill of a state's region: its band, or grey without data. */
  function StateFill(entries: seq<StateData>, name: string): (c: string)
    ensures name !in Names(entries) ==> c == NoDataColor
    ensures name in Names(entries) ==> c == ExtractionColor(Get(entries, name).value.avgExtraction)
  {
    match Get(entries, name)
    case None => NoDataColor
    case Some(d) => ExtractionColor(d.avgExtraction)
  }

  const MinZoom := 0.5
  const MaxZoom := 2.0
  const ZoomStep := 0.2

  /** The map's view: the selected state, the zoom factor and the pan offset. */
  datatype View = View(selected: Option<string>, zoom: real, panX: real, panY: real)

  const InitialView := View(None, 1.0, 0.0, 0.0)

  datatype Action = ZoomIn | ZoomOut | Reset | Click(state: string) | Back

  /** The page's handlers: the two zoom buttons, reset, a state click and
      the side panel's back button. */
  function Step(v: View, a: Action): (w: View)
    ensures a.ZoomIn? ==> w.zoom == if v.zoom + ZoomStep < MaxZoom then v.zoom + ZoomStep else MaxZoom
    ensures a.ZoomOut? ==> w.zoom == if v.zoom - ZoomStep > MinZoom then v.zoom - ZoomStep else MinZoom
    ensures a.Reset? ==> w == InitialView
    ensures a.ZoomIn? || a.ZoomOut? ==> w == v.(zoom := w.zoom)
    ensures a.Click? ==> w == v.(selected := Some(a.state))
    ensures a.Back? ==> w.selected.None? && w == v.(selected := w.selected)
  {
    match a
    case ZoomIn => v.(zoom := if v.zoom + ZoomStep < MaxZoom then v.zoom + ZoomStep else MaxZoom)
    case ZoomOut => v.(zoom := if v.zoom - ZoomStep > MinZoom then v.zoom - ZoomStep else MinZoom)
    case Reset => InitialView
    case Click(s) => v.(selected := Some(s))
    case Back => v.(selected := None)
  }

  function Run(v: View, actions: seq<Action>): View
    decreases |actions|
  {
    if |actions| == 0 then v else Run(Step(v, actions[0]), actions[1..])
  }

  /** From the initial view, no sequence of clicks leaves the zoom outside
      [0.5, 2]; zooming never moves the pan or the selection. */
  lemma {:induction false} ZoomStaysInRange(v: View, actions: seq<Action>)
    requires MinZoom <= v.zoom <= MaxZoom
    ensures MinZoom <= Run(v, actions).zoom <= MaxZoom
    decreases |actions|
  {
    if |actions| > 0 {
      ZoomStaysInRange(Step(v, actions[0]), actions[1..]);
    }
  }

  /** Zooming in then out, away from the bounds, returns to the same zoom. */
  lemma ZoomInOut(v: View)
    requires MinZoom <= v.zoom && v.zoom + ZoomStep <= MaxZoom
    ensures Step(Step(v, ZoomIn), ZoomOut) == v
  {
  }

  /** The side panel's back button closes the panel opened by a click and
      leaves the zoom and the pan where they were. */
  lemma BackAfterClick(v: View, state: string)
    ensures Step(Step(v, Click(state)), Back) == v.(selected := None)
    ensures Run(v, [Click(state), Back]).zoom == v.zoom
  {
    var clicked := Step(v, Click(state));
    assert [Click(state), Back][1..] == [Back] && [Back][1..] == [];
    assert Run(v, [Click(state), Back]) == Run(clicked, [Back]) == Run(Step(clicked, Back), []);
  }
}
