/** The days-of-coverage tables, by business unit and by store. Both components format the
    coverage days with the same rule, defined here once. */
module Coverage {
  import opened Wrappers

  /** The palette entry the number is shown in. */
  datatype Tone = ErrorTone | WarningTone | SuccessTone

  /** What is shown: the capped text `999+`, or the number itself (its `toFixed(1)` text is not modelled). */
  datatype Shown = Capped | Days(value: real)

  datatype FormattedDays = FormattedDays(tone: Tone, shown: Shown)

  const OverstockDays: real := 90.0
  const LostSaleDays: real := 28.0
  const CapDays: real := 9999.0

  /** `formatDays(days)`: above 90 days is overstock (error tone), below 28 a lost sale
      (warning tone), 28 to 90 with both ends included is optimal (success tone); 9999 days or
      more are shown as `999+`, anything less as the number. */
  function FormatDays(days: real): (f: FormattedDays)
    ensures f.tone == ErrorTone <==> days > OverstockDays
    ensures f.tone == WarningTone <==> days < LostSaleDays
    ensures f.tone == SuccessTone <==> LostSaleDays <= days <= OverstockDays
    ensures f.shown == Capped <==> days >= CapDays
    ensures f.shown.Days? ==> f.shown.value == days
  {
    var tone := if days > OverstockDays then ErrorTone else if days < LostSaleDays then WarningTone else SuccessTone;
    var shown := if days >= CapDays then Capped else Days(days);
    FormattedDays(tone, shown)
  }

  /** A capped value is always in the overstock bucket. */
  lemma CappedIsOverstock(days: real)
    requires FormatDays(days).shown == Capped
    ensures FormatDays(days).tone == ErrorTone
  {
  }

  /** A row of the precomputed coverage data. */
  datatype CoverageRow = CoverageRow(tienda: Option<string>, categoria: Option<string>, rotacion: real, diasCobertura: real)

  /** A rendered table row: the label cell, the rotation (its two-decimal text is not modelled)
      and the formatted coverage days. */
  datatype RenderedRow = RenderedRow(heading: Option<string>, rotacion: real, days: FormattedDays)

  /** The body of the business-unit table: one row per input row, in input order, labelled by `categoria`. */
  function BURows(data: seq<CoverageRow>): (rows: seq<RenderedRow>)
    ensures |rows| == |data|
    ensures forall i :: 0 <= i < |data| ==>
      rows[i] == RenderedRow(data[i].categoria, data[i].rotacion, FormatDays(data[i].diasCobertura))
  {
    if data == [] then []
    else [RenderedRow(data[0].categoria, data[0].rotacion, FormatDays(data[0].diasCobertura))] + BURows(data[1..])
  }

  /** The body of the per-store table: one row per input row, in input order, labelled by `tienda`. */
  function StoreRows(data: seq<CoverageRow>): (rows: seq<RenderedRow>)
    ensures |rows| == |data|
    ensures forall i :: 0 <= i < |data| ==>
      rows[i] == RenderedRow(data[i].tienda, data[i].rotacion, FormatDays(data[i].diasCobertura))
  {
    if data == [] then []
    else [RenderedRow(data[0].tienda, data[0].rotacion, FormatDays(data[0].diasCobertura))] + StoreRows(data[1..])
  }
}
