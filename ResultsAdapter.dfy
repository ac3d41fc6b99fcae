/**
 * The list adapter of the results screen: how many rows it has, what each
 * row shows, and its own copy of the level thresholds.
 */
module ResultsAdapter {
  import opened Wrappers
  import opened Text
  import opened Response
  import opened RF = ResultsFragment

  /** The adapter's own `when` chain; it agrees with the results screen's for every integer. */
  function LevelFromPercentage(percentage: int): (level: string)
    ensures level == RF.LevelFromPercentage(percentage)
    ensures level in LevelLabels
  {
    if percentage >= 85 then "Excelente"
    else if percentage >= 70 then "Muy bueno"
    else if percentage >= 50 then "Bueno"
    else if percentage >= 30 then "Regular"
    else "Necesita mejorar"
  }

  /** The number of rows: one per result. */
  function ItemCount(results: seq<AnalysisResult>): (n: nat)
    ensures n == |results|
  {
    |results|
  }

  /** The values a bound row shows, and the record its detail button hands back. */
  datatype BoundRow = BoundRow(
    icon: Icon,
    title: string,
    level: string,
    percentageText: string,
    textColor: string,
    progress: int,
    tint: string,
    detail: AnalysisResult)

  /**
   * Binding row `position`: every shown value comes from `results[position]`
   * unmodified, and the detail button passes that very record.
   */
  function BindViewHolder(results: seq<AnalysisResult>, position: nat): (row: BoundRow)
    requires position < ItemCount(results)
    ensures row.detail == results[position]
    ensures row.icon == results[position].iconRes && row.title == results[position].area
    ensures row.progress == results[position].percentage
    ensures row.textColor == row.tint == results[position].color
    ensures row.level == RF.LevelFromPercentage(results[position].percentage)
    ensures |row.percentageText| >= 2 && row.percentageText[|row.percentageText| - 1] == '%'
  {
    var r := results[position];
    BoundRow(r.iconRes, r.area, LevelFromPercentage(r.percentage), IntToString(r.percentage) + "%",
             r.color, r.percentage, r.color, r)
  }

  /** The percentage text of a row reads back as the progress bar's value. */
  lemma PercentageTextMatchesBar(results: seq<AnalysisResult>, position: nat)
    requires position < |results|
    ensures var row := BindViewHolder(results, position);
      ParseInt(row.percentageText[..|row.percentageText| - 1]) == Some(row.progress)
  {
    var row := BindViewHolder(results, position);
    assert row.percentageText[..|row.percentageText| - 1] == IntToString(row.progress);
    IntToStringRoundTrip(row.progress);
  }

  /** Rows built from a response show its scores in order, untouched. */
  lemma RowsShowResponseScores(response: ApiResponse, position: nat)
    requires response.todasLasAreas.Some? && position < |response.todasLasAreas.value|
    ensures var results := BuildResultsList(Some(response));
      var area := response.todasLasAreas.value[position];
      && ItemCount(results) == |response.todasLasAreas.value|
      && BindViewHolder(results, position).title == area.area
      && BindViewHolder(results, position).progress == area.porcentaje
  {
  }
}
