/**
 * The results screen: turning the response's area scores into display
 * records, the icon and colour tables, the qualitative level of a percentage,
 * and the text handed to the share sheet.
 */
module ResultsFragment {
  import opened Wrappers
  import opened Text
  import opened Response

  /** The stock drawables the screen uses as area icons. */
  datatype Icon =
    | IcMenuManage | IcMenuAgenda | IcMenuSend | IcMenuCompass
    | IcMenuSortBySize | IcMenuMyplaces | IcMenuHelp

  /** A display record; colours stay opaque strings such as "#9C27B0". */
  datatype AnalysisResult = AnalysisResult(
    area: string, percentage: int, confianza: string, iconRes: Icon, color: string)

  const AreaIcons: map<string, Icon> := map[
    "legal" := IcMenuManage,
    "finanzas" := IcMenuAgenda,
    "marketing" := IcMenuSend,
    "sistemas" := IcMenuCompass,
    "administrativo" := IcMenuSortBySize,
    "rrhh" := IcMenuMyplaces]

  const AreaColors: map<string, string> := map[
    "legal" := "#4CAF50",
    "finanzas" := "#FF9800",
    "marketing" := "#E91E63",
    "sistemas" := "#9C27B0",
    "administrativo" := "#2196F3",
    "rrhh" := "#FFC107"]

  const FallbackIcon: Icon := IcMenuHelp
  const FallbackColor: string := "#757575"

  // ---------------------------------------------------------------- lookup

  /** The icon for an area: the table entry for its lower-cased name, else the help icon. */
  function IconFor(area: string): (icon: Icon)
    ensures Lower(area) in AreaIcons ==> icon == AreaIcons[Lower(area)]
    ensures icon == FallbackIcon <==> Lower(area) !in AreaIcons
  {
    var key := Lower(area);
    if key in AreaIcons then AreaIcons[key] else FallbackIcon
  }

  /** The colour for an area: the table entry for its lower-cased name, else grey. */
  function ColorFor(area: string): (color: string)
    ensures Lower(area) in AreaColors ==> color == AreaColors[Lower(area)]
    ensures color == FallbackColor <==> Lower(area) !in AreaColors
  {
    var key := Lower(area);
    if key in AreaColors then AreaColors[key] else FallbackColor
  }

  /** Both tables are keyed on the same six names. */
  lemma TablesShareKeys()
    ensures AreaIcons.Keys == AreaColors.Keys
  {
  }

  /**
   * Each of the six areas, in whatever ASCII case the service spells it, gets
   * its own drawable and colour.
   */
  lemma AreaStyles(area: string)
    ensures Lower(area) == "legal" ==> IconFor(area) == IcMenuManage && ColorFor(area) == "#4CAF50"
    ensures Lower(area) == "finanzas" ==> IconFor(area) == IcMenuAgenda && ColorFor(area) == "#FF9800"
    ensures Lower(area) == "marketing" ==> IconFor(area) == IcMenuSend && ColorFor(area) == "#E91E63"
    ensures Lower(area) == "sistemas" ==> IconFor(area) == IcMenuCompass && ColorFor(area) == "#9C27B0"
    ensures Lower(area) == "administrativo" ==> IconFor(area) == IcMenuSortBySize && ColorFor(area) == "#2196F3"
    ensures Lower(area) == "rrhh" ==> IconFor(area) == IcMenuMyplaces && ColorFor(area) == "#FFC107"
  {
  }

  /** The fallback icon and colour are not among the table's entries. */
  lemma FallbacksNotInTables()
    ensures FallbackIcon !in AreaIcons.Values && FallbackColor !in AreaColors.Values
  {
  }

  /** Names that differ only in the case of ASCII letters get the same icon and colour. */
  lemma {:induction false} LookupIgnoresCase(a: string, b: string)
    requires |a| == |b|
    requires forall i :: 0 <= i < |a| ==> LowerChar(a[i]) == LowerChar(b[i])
    ensures IconFor(a) == IconFor(b) && ColorFor(a) == ColorFor(b)
  {
    assert Lower(a) == Lower(b);
  }

  /** Looking up a name and looking up its lower-cased form give the same entry. */
  lemma LookupOfLowered(area: string)
    ensures IconFor(Lower(area)) == IconFor(area)
    ensures ColorFor(Lower(area)) == ColorFor(area)
  {
    LowerIdempotent(area);
  }

  /** "SISTEMAS", "Sistemas" and "sistemas" all get the compass icon and purple. */
  lemma SistemasInAnyCase()
    ensures IconFor("SISTEMAS") == IcMenuCompass && ColorFor("SISTEMAS") == "#9C27B0"
    ensures IconFor("Sistemas") == IcMenuCompass && ColorFor("Sistemas") == "#9C27B0"
    ensures IconFor("sistemas") == IcMenuCompass && ColorFor("sistemas") == "#9C27B0"
  {
    SistemasLowered();
  }

  lemma SistemasLowered()
    ensures Lower("SISTEMAS") == "sistemas" && Lower("Sistemas") == "sistemas" && Lower("sistemas") == "sistemas"
  {
    assert Lower("SISTEMAS") == "sistemas";
    assert Lower("Sistemas") == "sistemas";
  }

  /**
   * An area falls back to the help icon exactly when it falls back to grey,
   * exactly when its lower-cased name is not one of the six keys.
   */
  lemma FallbackExactlyForUnknownAreas(area: string)
    ensures IconFor(area) == FallbackIcon <==> Lower(area) !in AreaIcons
    ensures ColorFor(area) == FallbackColor <==> Lower(area) !in AreaColors
    ensures IconFor(area) == FallbackIcon <==> ColorFor(area) == FallbackColor
  {
    TablesShareKeys();
    FallbacksNotInTables();
    var key := Lower(area);
    if key in AreaIcons {
      assert AreaIcons[key] in AreaIcons.Values;
      assert AreaColors[key] in AreaColors.Values;
    }
  }

  // ---------------------------------------------------------------- mapping

  /** One display record: the score's fields copied verbatim, plus the looked-up icon and colour. */
  function ToAnalysisResult(a: AreaScore): (r: AnalysisResult)
    ensures r.area == a.area && r.percentage == a.porcentaje && r.confianza == a.confianza
    ensures r.iconRes == FallbackIcon <==> r.color == FallbackColor
  {
    FallbackExactlyForUnknownAreas(a.area);
    AnalysisResult(a.area, a.porcentaje, a.confianza, IconFor(a.area), ColorFor(a.area))
  }

  /** `todas_las_areas.map { ... }`: one record per score, in the same order. */
  function MapAreas(areas: seq<AreaScore>): (rs: seq<AnalysisResult>)
    ensures |rs| == |areas|
    ensures forall i :: 0 <= i < |areas| ==>
      && rs[i].area == areas[i].area
      && rs[i].percentage == areas[i].porcentaje
      && rs[i].confianza == areas[i].confianza
      && rs[i].iconRes == IconFor(areas[i].area)
      && rs[i].color == ColorFor(areas[i].area)
  {
    if areas == [] then [] else [ToAnalysisResult(areas[0])] + MapAreas(areas[1..])
  }

  /**
   * The result list of a (possibly null) response: empty for a null response
   * or a null `todas_las_areas`, otherwise one record per score. `success` is
   * not consulted, percentages are not clamped and names are not trimmed.
   */
  function BuildResultsList(response: Option<ApiResponse>): (rs: seq<AnalysisResult>)
    ensures response.None? || response.value.todasLasAreas.None? ==> rs == []
    ensures response.Some? && response.value.todasLasAreas.Some? ==>
      var areas := response.value.todasLasAreas.value;
      && |rs| == |areas|
      && forall i :: 0 <= i < |areas| ==>
        && rs[i].area == areas[i].area
        && rs[i].percentage == areas[i].porcentaje
        && rs[i].confianza == areas[i].confianza
        && rs[i].iconRes == IconFor(areas[i].area)
        && rs[i].color == ColorFor(areas[i].area)
  {
    match response
    case None => []
    case Some(r) =>
      match r.todasLasAreas
      case None => []
      case Some(areas) => MapAreas(areas)
  }

  /** The list does not depend on the `success` flag. */
  lemma ResultsIgnoreSuccessFlag(r: ApiResponse)
    ensures BuildResultsList(Some(r)) == BuildResultsList(Some(r.(success := !r.success)))
  {
  }

  // ---------------------------------------------------------------- levels

  /** The five qualitative levels, lowest first. */
  const LevelLabels: seq<string> := ["Necesita mejorar", "Regular", "Bueno", "Muy bueno", "Excelente"]

  /** The lowest percentage of each level above the first, in the same order. */
  const LevelThresholds: seq<int> := [30, 50, 70, 85]

  /** The `when` chain, evaluated highest threshold first. */
  function LevelFromPercentage(percentage: int): (level: string)
    ensures level in LevelLabels
    ensures level == "Excelente" <==> percentage >= 85
    ensures level == "Muy bueno" <==> 70 <= percentage < 85
    ensures level == "Bueno" <==> 50 <= percentage < 70
    ensures level == "Regular" <==> 30 <= percentage < 50
    ensures level == "Necesita mejorar" <==> percentage < 30
  {
    if percentage >= 85 then "Excelente"
    else if percentage >= 70 then "Muy bueno"
    else if percentage >= 50 then "Bueno"
    else if percentage >= 30 then "Regular"
    else "Necesita mejorar"
  }

  /** How many of the thresholds `p` has reached. */
  function ThresholdsReached(thresholds: seq<int>, p: int): (n: nat)
    ensures n <= |thresholds|
  {
    if thresholds == [] then 0
    else (if thresholds[0] <= p then 1 else 0) + ThresholdsReached(thresholds[1..], p)
  }

  /** The position of a label in LevelLabels; the rank of a level. */
  function LevelRank(level: string): (k: nat)
    requires level in LevelLabels
    ensures k < |LevelLabels| && LevelLabels[k] == level
  {
    if level == LevelLabels[0] then 0
    else if level == LevelLabels[1] then 1
    else if level == LevelLabels[2] then 2
    else if level == LevelLabels[3] then 3
    else 4
  }

  /** A second definition of the level: the label indexed by the number of thresholds reached. */
  lemma LevelByThresholdCount(p: int)
    ensures LevelFromPercentage(p) == LevelLabels[ThresholdsReached(LevelThresholds, p)]
  {
    var t := LevelThresholds;
    assert t[1..] == [50, 70, 85] && t[1..][1..] == [70, 85] && t[1..][1..][1..] == [85];
    assert t[1..][1..][1..][1..] == [];
    assert ThresholdsReached([85], p) == if 85 <= p then 1 else 0;
    assert ThresholdsReached([70, 85], p) == (if 70 <= p then 1 else 0) + ThresholdsReached([85], p);
    assert ThresholdsReached([50, 70, 85], p) == (if 50 <= p then 1 else 0) + ThresholdsReached([70, 85], p);
  }

  lemma {:induction false} ThresholdsReachedMonotone(thresholds: seq<int>, p: int, q: int)
    requires p <= q
    ensures ThresholdsReached(thresholds, p) <= ThresholdsReached(thresholds, q)
  {
    if thresholds != [] {
      ThresholdsReachedMonotone(thresholds[1..], p, q);
    }
  }

  /** A higher percentage never gets a lower level. */
  lemma LevelMonotone(p: int, q: int)
    requires p <= q
    ensures LevelRank(LevelFromPercentage(p)) <= LevelRank(LevelFromPercentage(q))
  {
    LevelByThresholdCount(p);
    LevelByThresholdCount(q);
    ThresholdsReachedMonotone(LevelThresholds, p, q);
  }

  /** The boundary values on either side of every threshold. */
  lemma LevelBoundaries()
    ensures LevelFromPercentage(85) == "Excelente" && LevelFromPercentage(84) == "Muy bueno"
    ensures LevelFromPercentage(70) == "Muy bueno" && LevelFromPercentage(69) == "Bueno"
    ensures LevelFromPercentage(50) == "Bueno" && LevelFromPercentage(49) == "Regular"
    ensures LevelFromPercentage(30) == "Regular" && LevelFromPercentage(29) == "Necesita mejorar"
  {
  }

  // ---------------------------------------------------------------- sharing

  const ShareHeader: string := "📊 Resultados del análisis de CV:\n"
  const NothingToShareMessage: string := "No hay resultados para compartir"

  /** `- {area}: {p}% ({level}, Confianza: {c})` */
  function ShareLine(r: AnalysisResult): (line: string)
    ensures var lead := "- " + r.area + ": ";
      |line| >= |lead| && line[..|lead|] == lead
    ensures var tail := ", Confianza: " + r.confianza + ")";
      |line| >= |tail| && line[|line| - |tail|..] == tail
  {
    "- " + r.area + ": " + IntToString(r.percentage) + "% ("
      + LevelFromPercentage(r.percentage) + ", Confianza: " + r.confianza + ")"
  }

  /** One share line per result. */
  function ShareLines(results: seq<AnalysisResult>): (lines: seq<string>)
    ensures |lines| == |results|
  {
    if results == [] then [] else [ShareLine(results[0])] + ShareLines(results[1..])
  }

  /** Line `k` of the share lines is the line of result `k`. */
  lemma {:induction false} ShareLinesAt(results: seq<AnalysisResult>, k: nat)
    requires k < |results|
    ensures ShareLines(results)[k] == ShareLine(results[k])
  {
    if k > 0 {
      ShareLinesAt(results[1..], k - 1);
    }
  }

  /** The share text: the header, then the result lines joined by line feeds. */
  function BuildShareText(results: seq<AnalysisResult>): (text: string)
    ensures |text| >= |ShareHeader| && text[..|ShareHeader|] == ShareHeader
  {
    ShareHeader + JoinLines(ShareLines(results))
  }

  /** A line has no line feed when the area and confidence have none. */
  lemma ShareLineSingleLine(r: AnalysisResult)
    requires '\n' !in r.area && '\n' !in r.confianza
    ensures '\n' !in ShareLine(r)
  {
    var p := IntToString(r.percentage);
    assert forall i :: 0 <= i < |p| ==> p[i] != '\n';
  }

  /** No area and no confidence of the list holds a line feed. */
  predicate PlainFields(results: seq<AnalysisResult>) {
    forall i :: 0 <= i < |results| ==> '\n' !in results[i].area && '\n' !in results[i].confianza
  }

  lemma ShareLinesSingleLine(results: seq<AnalysisResult>)
    requires PlainFields(results)
    ensures SingleLines(ShareLines(results))
  {
    forall k | 0 <= k < |results| ensures '\n' !in ShareLines(results)[k] {
      ShareLinesAt(results, k);
      ShareLineSingleLine(results[k]);
    }
  }

  /**
   * Cutting the share text after its header at every line feed gives back the
   * result lines, one per result and in list order.
   */
  lemma ShareTextLines(results: seq<AnalysisResult>)
    requires |results| >= 1 && PlainFields(results)
    ensures SplitLines(BuildShareText(results)[|ShareHeader|..]) == ShareLines(results)
  {
    ShareLinesSingleLine(results);
    SplitAfterHeader(ShareHeader, ShareLines(results));
  }

  lemma ShareLineEndsWithParen(r: AnalysisResult)
    ensures |ShareLine(r)| >= 1 && ShareLine(r)[|ShareLine(r)| - 1] == ')'
  {
  }

  /** The share text of a non-empty list ends with the closing parenthesis of its last line. */
  lemma ShareTextNoTrailingNewline(results: seq<AnalysisResult>)
    requires |results| >= 1
    ensures var text := BuildShareText(results); text[|text| - 1] == ')'
  {
    var lines := ShareLines(results);
    ShareLinesAt(results, |results| - 1);
    ShareLineEndsWithParen(results[|results| - 1]);
    JoinLinesEndsWithLastLine(lines);
  }

  /** What the share button does. */
  datatype ShareOutcome =
    | NothingToShare(toast: string)
    | ShareIntent(mimeType: string, text: string, chooserTitle: string)

  /** The share button: an empty list stops with a toast before any text is built. */
  function OnShareClicked(results: seq<AnalysisResult>): (o: ShareOutcome)
    ensures o.NothingToShare? <==> results == []
    ensures o.NothingToShare? ==> o.toast == NothingToShareMessage
    ensures o.ShareIntent? ==>
      && o.mimeType == "text/plain"
      && o.text == BuildShareText(results)
      && o.chooserTitle == "Compartir resultados"
  {
    if results == [] then NothingToShare(NothingToShareMessage)
    else ShareIntent("text/plain", BuildShareText(results), "Compartir resultados")
  }
}
