/**
 * The analysis response as the screens read it: `success`, `error` and
 * `todas_las_areas`, each area score carrying an integer percentage.
 */
module Response {
  import opened Wrappers

  /** One entry of `todas_las_areas`: `{area, porcentaje, confianza}`. */
  datatype AreaScore = AreaScore(area: string, porcentaje: int, confianza: string)

  /** The fields of the analysis response that the upload and results screens read. */
  datatype ApiResponse = ApiResponse(
    success: bool,
    todasLasAreas: Option<seq<AreaScore>>,
    error: Option<string>)
}
