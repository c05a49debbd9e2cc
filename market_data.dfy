/**
 * Option-chain aggregation of app.js: `fetchAndCalculateTotal` sums four
 * fields over the rows of a reply, and `updateMarketData` derives two
 * call-minus-put deltas and the green/red colour of each displayed figure.
 */
module MarketData {

  import opened Wrappers

  /** One strike of the option chain; an absent field is None. */
  datatype OptionRow = OptionRow(
    ceOpenInterest: Option<nat>,
    peOpenInterest: Option<nat>,
    ceVolume: Option<nat>,
    peVolume: Option<nat>)

  /** The four summed fields. */
  datatype Field = CeOpenInterest | PeOpenInterest | CeVolume | PeVolume

  /** `{ totalCE_OI, totalPE_OI, totalCE_Volume, totalPE_Volume }`. */
  datatype Totals = Totals(ceOI: nat, peOI: nat, ceVolume: nat, peVolume: nat)

  /** `jsonData.d`: the object that may carry the `Data` row list. */
  datatype Payload = Payload(data: Option<seq<OptionRow>>)

  /** The parsed body of the reply: `jsonData`, with its optional `d`. */
  datatype Envelope = Envelope(d: Option<Payload>)

  /**
   * What the POST to the option-chain endpoint gives back: either the request
   * throws, or a reply with its `ok` flag and its body, which is None when the
   * body is not JSON or is JSON null.
   */
  datatype Reply = Unreachable | Responded(ok: bool, body: Option<Envelope>)

  /** `x || 0` for an optional count. */
  function OrZero(x: Option<nat>): nat
  {
    if x.Some? then x.value else 0
  }

  /** The value a row contributes to one total. */
  function Contribution(row: OptionRow, f: Field): nat
  {
    match f
    case CeOpenInterest => OrZero(row.ceOpenInterest)
    case PeOpenInterest => OrZero(row.peOpenInterest)
    case CeVolume => OrZero(row.ceVolume)
    case PeVolume => OrZero(row.peVolume)
  }

  /** The sum of one field over all rows, taken in the order of the rows. */
  function FieldSum(rows: seq<OptionRow>, f: Field): nat
  {
    if rows == [] then 0 else FieldSum(rows[..|rows| - 1], f) + Contribution(rows[|rows| - 1], f)
  }

  /** The four sums together. */
  function Aggregate(rows: seq<OptionRow>): Totals
  {
    Totals(FieldSum(rows, CeOpenInterest), FieldSum(rows, PeOpenInterest),
           FieldSum(rows, CeVolume), FieldSum(rows, PeVolume))
  }

  /** The `forEach` loop of `fetchAndCalculateTotal`: four running totals. */
  method CalculateTotals(rows: seq<OptionRow>) returns (t: Totals)
    ensures t == Aggregate(rows)
  {
    var ceOI, peOI, ceVolume, peVolume := 0, 0, 0, 0;
    var i := 0;
    while i < |rows|
      invariant 0 <= i <= |rows|
      invariant ceOI == FieldSum(rows[..i], CeOpenInterest)
      invariant peOI == FieldSum(rows[..i], PeOpenInterest)
      invariant ceVolume == FieldSum(rows[..i], CeVolume)
      invariant peVolume == FieldSum(rows[..i], PeVolume)
    {
      var row := rows[i];
      assert rows[..i + 1][..i] == rows[..i];
      ceOI := ceOI + OrZero(row.ceOpenInterest);
      peOI := peOI + OrZero(row.peOpenInterest);
      ceVolume := ceVolume + OrZero(row.ceVolume);
      peVolume := peVolume + OrZero(row.peVolume);
      i := i + 1;
    }
    assert rows[..i] == rows;
    t := Totals(ceOI, peOI, ceVolume, peVolume);
  }

  /** The rows a reply carries, when it passes every check of the source. */
  function RowsOf(reply: Reply): Option<seq<OptionRow>>
  {
    if reply.Responded? && reply.ok && reply.body.Some? && reply.body.value.d.Some?
    then reply.body.value.d.value.data
    else None
  }

  /**
   * `fetchAndCalculateTotal(commodity, expiry)` given the reply its request
   * would get: None (the source's null) when either argument is empty, the
   * request throws, the status is not ok, or `d` / `d.Data` is missing;
   * otherwise the four totals of the rows.
   */
  method FetchAndCalculateTotal(commodity: string, expiry: string, reply: Reply) returns (r: Option<Totals>)
    ensures r.None? <==> commodity == "" || expiry == "" || RowsOf(reply).None?
    ensures r.Some? ==> r.value == Aggregate(RowsOf(reply).value)
  {
    if commodity == "" || expiry == "" {
      return None;
    }
    if reply.Unreachable? || !reply.ok {
      return None;
    }
    if reply.body.None? || reply.body.value.d.None? || reply.body.value.d.value.data.None? {
      return None;
    }
    var t := CalculateTotals(reply.body.value.d.value.data.value);
    return Some(t);
  }

  /** An empty row list gives four zeros. */
  lemma AggregateEmpty()
    ensures Aggregate([]) == Totals(0, 0, 0, 0)
  {
  }

  /** Sums split over concatenation: every row counts once, wherever it is. */
  lemma {:induction false} FieldSumAppend(a: seq<OptionRow>, b: seq<OptionRow>, f: Field)
    ensures FieldSum(a + b, f) == FieldSum(a, f) + FieldSum(b, f)
    decreases |b|
  {
    if b == [] {
      assert a + b == a;
    } else {
      var n := |b| - 1;
      assert (a + b)[..|a + b| - 1] == a + b[..n];
      FieldSumAppend(a, b[..n], f);
    }
  }

  /** A row whose field is absent adds nothing to that field's total, wherever it is. */
  lemma AbsentFieldAddsNothing(a: seq<OptionRow>, row: OptionRow, b: seq<OptionRow>, f: Field)
    requires Contribution(row, f) == 0
    ensures FieldSum(a + [row] + b, f) == FieldSum(a + b, f)
  {
    FieldSumAppend(a + [row], b, f);
    FieldSumAppend(a, b, f);
    assert (a + [row])[..|a|] == a;
  }

  /** A total is zero exactly when every row contributes zero to it. */
  lemma {:induction false} FieldSumZero(rows: seq<OptionRow>, f: Field)
    ensures FieldSum(rows, f) == 0 <==> forall i :: 0 <= i < |rows| ==> Contribution(rows[i], f) == 0
  {
    if rows != [] {
      var n := |rows| - 1;
      FieldSumZero(rows[..n], f);
      assert forall i :: 0 <= i < n ==> rows[..n][i] == rows[i];
    }
  }

  /** A total is at least the contribution of each of its rows. */
  lemma {:induction false} FieldSumBounds(rows: seq<OptionRow>, f: Field, i: nat)
    requires i < |rows|
    ensures Contribution(rows[i], f) <= FieldSum(rows, f)
  {
    var n := |rows| - 1;
    if i < n {
      FieldSumBounds(rows[..n], f, i);
    }
  }

  datatype Colour = Green | Red

  /** `applyColor(element, isHigher)`: the class the element ends up with. */
  function ColourFor(isHigher: bool): Colour
  {
    if isHigher then Green else Red
  }

  /** The figures `updateMarketData` shows for one set of totals. */
  datatype Comparison = Comparison(
    oiDelta: int, volumeDelta: int,
    ceOIColour: Colour, peOIColour: Colour,
    ceVolumeColour: Colour, peVolumeColour: Colour,
    oiDeltaColour: Colour, volumeDeltaColour: Colour)

  /**
   * The deltas and colours of `updateMarketData`.  Of each call/put pair
   * exactly one side is green and a tie goes to the call side; each delta is
   * green exactly when it is not negative, which is when the call side is.
   */
  function Compare(t: Totals): (c: Comparison)
    ensures c.oiDelta + t.peOI == t.ceOI && c.volumeDelta + t.peVolume == t.ceVolume
    ensures (c.ceOIColour == Green) != (c.peOIColour == Green)
    ensures (c.ceVolumeColour == Green) != (c.peVolumeColour == Green)
    ensures c.peOIColour == Green <==> t.peOI > t.ceOI
    ensures c.peVolumeColour == Green <==> t.peVolume > t.ceVolume
    ensures c.oiDeltaColour == Green <==> c.oiDelta >= 0
    ensures c.volumeDeltaColour == Green <==> c.volumeDelta >= 0
    ensures c.oiDeltaColour == c.ceOIColour && c.volumeDeltaColour == c.ceVolumeColour
  {
    var oiDelta := t.ceOI - t.peOI;
    var volumeDelta := t.ceVolume - t.peVolume;
    Comparison(oiDelta, volumeDelta,
      ColourFor(t.ceOI >= t.peOI), ColourFor(t.peOI > t.ceOI),
      ColourFor(t.ceVolume >= t.peVolume), ColourFor(t.peVolume > t.ceVolume),
      ColourFor(oiDelta >= 0), ColourFor(volumeDelta >= 0))
  }

  /** A tie highlights the call side. */
  lemma TieGoesToCall(t: Totals)
    requires t.ceOI == t.peOI
    ensures Compare(t).ceOIColour == Green && Compare(t).peOIColour == Red
    ensures Compare(t).oiDelta == 0 && Compare(t).oiDeltaColour == Green
  {
  }

  /** The two sign examples: CE 100 against PE 40, and the reverse. */
  lemma SignExamples()
    ensures Compare(Totals(100, 40, 0, 0)).oiDelta == 60
    ensures Compare(Totals(100, 40, 0, 0)).oiDeltaColour == Green
    ensures Compare(Totals(40, 100, 0, 0)).oiDelta == -60
    ensures Compare(Totals(40, 100, 0, 0)).oiDeltaColour == Red
  {
  }

  /**
   * One displayed figure: "Loading..." or a number with its colour. The text
   * "Loading..." does not remove a colour class, so a loading figure keeps
   * the colour it was last given, if any.
   */
  datatype Cell = Loading(shade: Option<Colour>) | Shown(value: int, colour: Colour)

  /** The colour class a figure carries. */
  function Shade(c: Cell): Option<Colour>
  {
    match c
    case Loading(shade) => shade
    case Shown(_, colour) => Some(colour)
  }

  /** A figure set to "Loading...", keeping its colour class. */
  function Reset(c: Cell): Cell
  {
    Loading(Shade(c))
  }

  /** The six figures and the "last updated" line of one slot. */
  datatype Panel = Panel(
    ceOI: Cell, peOI: Cell, ceVolume: Cell, peVolume: Cell,
    oiDelta: Cell, volumeDelta: Cell, lastUpdated: string)

  /**
   * What `updateMarketData` leaves in a slot once its fetch has resolved:
   * every figure is first set to "Loading...", and only a result that is not
   * null replaces them (with the timestamp); a failed fetch leaves
   * "Loading..." in place, each figure still in the colour of the last
   * successful update, and keeps the old "last updated" line.
   */
  function UpdatePanel(p: Panel, result: Option<Totals>, stamp: string): (q: Panel)
    ensures result.None? ==> q.lastUpdated == p.lastUpdated
    ensures result.None? ==> q.ceOI.Loading? && Shade(q.ceOI) == Shade(p.ceOI)
    ensures result.None? ==> q.peOI.Loading? && Shade(q.peOI) == Shade(p.peOI)
    ensures result.None? ==> q.ceVolume.Loading? && Shade(q.ceVolume) == Shade(p.ceVolume)
    ensures result.None? ==> q.peVolume.Loading? && Shade(q.peVolume) == Shade(p.peVolume)
    ensures result.None? ==> q.oiDelta.Loading? && Shade(q.oiDelta) == Shade(p.oiDelta)
    ensures result.None? ==> q.volumeDelta.Loading? && Shade(q.volumeDelta) == Shade(p.volumeDelta)
    ensures result.Some? ==> q.lastUpdated == stamp
    ensures result.Some? ==> q.oiDelta == Shown(result.value.ceOI - result.value.peOI, Compare(result.value).oiDeltaColour)
    ensures result.Some? ==> q.volumeDelta == Shown(result.value.ceVolume - result.value.peVolume, Compare(result.value).volumeDeltaColour)
    ensures result.Some? ==> q.ceOI == Shown(result.value.ceOI, Compare(result.value).ceOIColour)
    ensures result.Some? ==> q.peOI == Shown(result.value.peOI, Compare(result.value).peOIColour)
    ensures result.Some? ==> q.ceVolume == Shown(result.value.ceVolume, Compare(result.value).ceVolumeColour)
    ensures result.Some? ==> q.peVolume == Shown(result.value.peVolume, Compare(result.value).peVolumeColour)
  {
    if result.None? then
      Panel(Reset(p.ceOI), Reset(p.peOI), Reset(p.ceVolume), Reset(p.peVolume),
            Reset(p.oiDelta), Reset(p.volumeDelta), p.lastUpdated)
    else
      var t := result.value;
      var c := Compare(t);
      Panel(Shown(t.ceOI, c.ceOIColour), Shown(t.peOI, c.peOIColour),
            Shown(t.ceVolume, c.ceVolumeColour), Shown(t.peVolume, c.peVolumeColour),
            Shown(c.oiDelta, c.oiDeltaColour), Shown(c.volumeDelta, c.volumeDeltaColour),
            stamp)
  }

  /**
   * A failed update after a successful one: every figure reads "Loading..."
   * in the colour the successful update gave it, and the "last updated" line
   * still shows the successful update's timestamp.
   */
  lemma FailureKeepsLastColours(p: Panel, t: Totals, s1: string, s2: string)
    ensures var q := UpdatePanel(UpdatePanel(p, Some(t), s1), None, s2);
      var c := Compare(t);
      q == Panel(Loading(Some(c.ceOIColour)), Loading(Some(c.peOIColour)),
                 Loading(Some(c.ceVolumeColour)), Loading(Some(c.peVolumeColour)),
                 Loading(Some(c.oiDeltaColour)), Loading(Some(c.volumeDeltaColour)), s1)
  {
  }
}
