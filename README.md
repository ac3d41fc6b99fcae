# CV Optimizer front-end: a Dafny model of its decision logic

The Android app lets a user pick a CV file, uploads it to an analysis
service, shows a simulated progress screen, and has a results screen that
lists a response's percentage score for each professional area with an icon, a
colour and a qualitative level, which can also be shared as text. In the code
the uploaded response does not reach that screen: the analysis screen receives
it but does not pass it on, and the results screen parses an argument nothing
sets. This project models the
parts of that flow that compute something:

- **Results screen** (module `ResultsFragment`): the display records built
  from `todas_las_areas`, the six-entry icon and colour tables keyed on the
  lower-cased area name with their fallbacks, the five-level threshold chain,
  the share text and the share button's empty-list guard.
- **Results list adapter** (module `ResultsAdapter`): the row count, the values
  a row shows, and the adapter's own copy of the threshold chain.
- **Upload screen** (module `MainFragment`): the MIME allow-list, the KB/MB
  size text with Kotlin's truncating division, the defaults used when the
  content resolver lacks a column, the selection kept in `selectedFileUri`
  (class `MainScreen`), which the file picker's callback and the "cloud" demo
  option change and the Continue button only reads, and the navigate-or-error decision on a response.
- **Analysis screen** (module `AnalysisFragment`): the `progress`, `status`
  and `analyzing` fields (class `AnalysisScreen`) driven by the posted tick and
  the action button, with a specification of one tick as a function on a state
  snapshot and the invariant it keeps.
- Shared helpers: `Text` (ASCII lower-casing, decimal rendering of integers with
  a parser that reads it back, `joinToString("\n")` with a splitter that undoes
  it), `Response` (the response as the screens read it) and `Wrappers` (Option
  for Kotlin's nullable values).

The response is modelled as the screens use it: `success`, `error` and
`todas_las_areas` holding `{area, porcentaje: Int, confianza}` (as read at
ResultsFragment.kt lines 67-78 and MainFragment.kt lines 160-170). The data class in
ApiResponse.kt declares a different shape (`resultados` with `Double`
percentages); the model follows the reading code.

The model follows the code where it is plainer than one might expect: the
results list does not look at `success`, percentages are not clamped to
[0, 100], area names are not trimmed before the lookup, a response with
`success` and an empty `todas_las_areas` still navigates, and nothing stops a
second upload from starting while one is running.

Input and output are parameters: the content resolver is a value mapping
each URI to its first query row and its reported type, the cache copy is a
flag saying whether it throws, and the network call is a value that is either
a parsed response or an exception message. Handler ticks are discrete steps;
a `tickPending` field records whether a tick is posted. Because the fragment's fields outlive its
view, coming back to the analysis screen after Continue or a cancel posts a
new tick while `analyzing` is false; the model allows that state, and the
tick then returns without changing anything. Destroying the view first
removes every posted tick, so at most one tick is ever posted and a boolean
records it.

## Model

| member | source | states |
|---|---|---|
| Text.Lower | FRONTEND-ANDROID/app/src/main/java/com/example/cvoptimizer/ResultsFragment.kt:69 | the lower-cased name has the same length and each character is the ASCII lower-case of the original's |
| Text.LowerHasNoUpper | FRONTEND-ANDROID/app/src/main/java/com/example/cvoptimizer/ResultsFragment.kt:69 | no upper-case ASCII letter survives lower-casing |
| Text.LowerIdempotent | FRONTEND-ANDROID/app/src/main/java/com/example/cvoptimizer/ResultsFragment.kt:69 | lower-casing a lower-cased name changes nothing, so looking up a key is stable |
| Text.LowerOfLowercase | FRONTEND-ANDROID/app/src/main/java/com/example/cvoptimizer/ResultsFragment.kt:30-46 | a name without upper-case letters, such as every table key, is its own key |
| Text.NatToString | FRONTEND-ANDROID/app/src/main/java/com/example/cvoptimizer/ResultsFragment.kt:113 | the decimal text of a number is non-empty, all digits, with no leading zero |
| Text.IntToString | FRONTEND-ANDROID/app/src/main/java/com/example/cvoptimizer/ResultsFragment.kt:113 | the template text of an Int starts with '-' exactly when it is negative and is otherwise digits |
| Text.NatToStringValue | FRONTEND-ANDROID/app/src/main/java/com/example/cvoptimizer/ResultsFragment.kt:113 | the digits of a number read back as that number |
| Text.IntToStringRoundTrip | FRONTEND-ANDROID/app/src/main/java/com/example/cvoptimizer/ResultsAdapter.kt:28 | the text shown for any integer parses back to the same integer |
| Text.IntToStringInjective | FRONTEND-ANDROID/app/src/main/java/com/example/cvoptimizer/ResultsAdapter.kt:28 | two different percentages never print the same text |
| Text.SplitJoinLines | FRONTEND-ANDROID/app/src/main/java/com/example/cvoptimizer/ResultsFragment.kt:112 | joining lines with "\n" and cutting at every line feed gives the lines back, when no line holds a line feed |
| Text.SplitAfterHeader | FRONTEND-ANDROID/app/src/main/java/com/example/cvoptimizer/ResultsFragment.kt:110-116 | after a fixed header, the joined lines split back into the same lines |
| Text.JoinLines | FRONTEND-ANDROID/app/src/main/java/com/example/cvoptimizer/ResultsFragment.kt:112 | `joinToString("\n")`: no lines give "", otherwise the text starts with the first line; SplitJoinLines proves the splitter undoes it |
| Text.JoinLinesEndsWithLastLine | FRONTEND-ANDROID/app/src/main/java/com/example/cvoptimizer/ResultsFragment.kt:112 | the joined text ends with the last line's last character: no trailing separator |
| ResultsFragment.TablesShareKeys | FRONTEND-ANDROID/app/src/main/java/com/example/cvoptimizer/ResultsFragment.kt:30-46 | the icon and colour tables have the same six keys |
| ResultsFragment.FallbacksNotInTables | FRONTEND-ANDROID/app/src/main/java/com/example/cvoptimizer/ResultsFragment.kt:74-75 | the help icon and "#757575" are not table entries, so they only appear as fallbacks |
| ResultsFragment.AreaStyles | FRONTEND-ANDROID/app/src/main/java/com/example/cvoptimizer/ResultsFragment.kt:30-46 | legal, finanzas, marketing, sistemas, administrativo and rrhh, in any ASCII case, get ic_menu_manage/#4CAF50, ic_menu_agenda/#FF9800, ic_menu_send/#E91E63, ic_menu_compass/#9C27B0, ic_menu_sort_by_size/#2196F3 and ic_menu_myplaces/#FFC107 |
| ResultsFragment.IconFor | FRONTEND-ANDROID/app/src/main/java/com/example/cvoptimizer/ResultsFragment.kt:74 | a lower-cased name found in the icon table gets its entry; the result is ic_menu_help exactly when the lower-cased name is not a key |
| ResultsFragment.ColorFor | FRONTEND-ANDROID/app/src/main/java/com/example/cvoptimizer/ResultsFragment.kt:75 | a lower-cased name found in the colour table gets its entry; the result is "#757575" exactly when the lower-cased name is not a key |
| ResultsFragment.LookupIgnoresCase | FRONTEND-ANDROID/app/src/main/java/com/example/cvoptimizer/ResultsFragment.kt:69-75 | names equal up to ASCII case get the same icon and colour |
| ResultsFragment.LookupOfLowered | FRONTEND-ANDROID/app/src/main/java/com/example/cvoptimizer/ResultsFragment.kt:69-75 | an area and its lower-cased form get the same icon and colour |
| ResultsFragment.SistemasInAnyCase | FRONTEND-ANDROID/app/src/main/java/com/example/cvoptimizer/ResultsFragment.kt:34-43 | "SISTEMAS", "Sistemas" and "sistemas" all get ic_menu_compass and "#9C27B0" |
| ResultsFragment.FallbackExactlyForUnknownAreas | FRONTEND-ANDROID/app/src/main/java/com/example/cvoptimizer/ResultsFragment.kt:74-75 | an area gets ic_menu_help exactly when it gets "#757575", exactly when its lower-cased name is not one of the six keys |
| ResultsFragment.ToAnalysisResult | FRONTEND-ANDROID/app/src/main/java/com/example/cvoptimizer/ResultsFragment.kt:70-76 | area, percentage and confidence are copied verbatim, and the record carries the fallback icon exactly when it carries the fallback colour |
| ResultsFragment.MapAreas | FRONTEND-ANDROID/app/src/main/java/com/example/cvoptimizer/ResultsFragment.kt:68-76 | one record per score, in order, with area, percentage and confidence copied verbatim and the looked-up icon and colour |
| ResultsFragment.BuildResultsList | FRONTEND-ANDROID/app/src/main/java/com/example/cvoptimizer/ResultsFragment.kt:67-78 | a null response or a null todas_las_areas gives the empty list; otherwise same length and order, fields copied without clamping |
| ResultsFragment.ResultsIgnoreSuccessFlag | FRONTEND-ANDROID/app/src/main/java/com/example/cvoptimizer/ResultsFragment.kt:67-77 | the result list is the same whatever the success flag says |
| ResultsFragment.LevelFromPercentage | FRONTEND-ANDROID/app/src/main/java/com/example/cvoptimizer/ResultsFragment.kt:118-126 | "Excelente" iff p >= 85, "Muy bueno" iff 70 <= p < 85, "Bueno" iff 50 <= p < 70, "Regular" iff 30 <= p < 50, "Necesita mejorar" iff p < 30 |
| ResultsFragment.LevelByThresholdCount | FRONTEND-ANDROID/app/src/main/java/com/example/cvoptimizer/ResultsFragment.kt:118-126 | the level equals the label indexed by how many of the thresholds 30, 50, 70, 85 the percentage reaches |
| ResultsFragment.ThresholdsReachedMonotone | FRONTEND-ANDROID/app/src/main/java/com/example/cvoptimizer/ResultsFragment.kt:118-126 | a larger percentage reaches at least as many thresholds |
| ResultsFragment.LevelMonotone | FRONTEND-ANDROID/app/src/main/java/com/example/cvoptimizer/ResultsFragment.kt:118-126 | if p <= q then the rank of level(p) is at most the rank of level(q) |
| ResultsFragment.LevelBoundaries | FRONTEND-ANDROID/app/src/main/java/com/example/cvoptimizer/ResultsFragment.kt:119-124 | 85, 84, 70, 69, 50, 49, 30, 29 land on the expected sides of each threshold |
| ResultsFragment.ShareLines | FRONTEND-ANDROID/app/src/main/java/com/example/cvoptimizer/ResultsFragment.kt:112-114 | one share line per result |
| ResultsFragment.ShareLine | FRONTEND-ANDROID/app/src/main/java/com/example/cvoptimizer/ResultsFragment.kt:113 | a line starts with "- {area}: " and ends with ", Confianza: {c})" |
| ResultsFragment.ShareLinesAt | FRONTEND-ANDROID/app/src/main/java/com/example/cvoptimizer/ResultsFragment.kt:112-114 | line k is "- {area}: {p}% ({level}, Confianza: {c})" for result k |
| ResultsFragment.BuildShareText | FRONTEND-ANDROID/app/src/main/java/com/example/cvoptimizer/ResultsFragment.kt:110-116 | the share text starts with the header "📊 Resultados del análisis de CV:\n" |
| ResultsFragment.ShareLineSingleLine | FRONTEND-ANDROID/app/src/main/java/com/example/cvoptimizer/ResultsFragment.kt:113 | a result line holds no line feed when its area and confidence hold none |
| ResultsFragment.ShareLinesSingleLine | FRONTEND-ANDROID/app/src/main/java/com/example/cvoptimizer/ResultsFragment.kt:112-114 | no share line holds a line feed when no area or confidence does |
| ResultsFragment.ShareTextLines | FRONTEND-ANDROID/app/src/main/java/com/example/cvoptimizer/ResultsFragment.kt:110-116 | what follows the header splits at line feeds into exactly the result lines, one per result, in list order |
| ResultsFragment.ShareLineEndsWithParen | FRONTEND-ANDROID/app/src/main/java/com/example/cvoptimizer/ResultsFragment.kt:113 | every result line ends with ')' |
| ResultsFragment.ShareTextNoTrailingNewline | FRONTEND-ANDROID/app/src/main/java/com/example/cvoptimizer/ResultsFragment.kt:110-116 | the share text of a non-empty list ends with ')' and not with a line feed |
| ResultsFragment.OnShareClicked | FRONTEND-ANDROID/app/src/main/java/com/example/cvoptimizer/ResultsFragment.kt:95-107 | an empty list yields the "No hay resultados para compartir" toast and no text; otherwise a text/plain share of the built text |
| ResultsAdapter.LevelFromPercentage | FRONTEND-ANDROID/app/src/main/java/com/example/cvoptimizer/ResultsAdapter.kt:38-46 | the adapter's level equals the results screen's level for every integer, and is one of the five labels |
| ResultsAdapter.ItemCount | FRONTEND-ANDROID/app/src/main/java/com/example/cvoptimizer/ResultsAdapter.kt:36 | the row count is the length of the results list |
| ResultsAdapter.BindViewHolder | FRONTEND-ANDROID/app/src/main/java/com/example/cvoptimizer/ResultsAdapter.kt:22-33 | row i shows results[i]'s icon, area, level and colour, a text ending in '%', bar value = percentage unmodified, and its detail button passes results[i] |
| ResultsAdapter.PercentageTextMatchesBar | FRONTEND-ANDROID/app/src/main/java/com/example/cvoptimizer/ResultsAdapter.kt:28-30 | the percentage text without its '%' reads back as the progress bar's value |
| ResultsAdapter.RowsShowResponseScores | FRONTEND-ANDROID/app/src/main/java/com/example/cvoptimizer/ResultsAdapter.kt:23-30 | rows built from a response show its areas and percentages in order, and there is one row per score |
| MainFragment.IsValidFileType | FRONTEND-ANDROID/app/src/main/java/com/example/cvoptimizer/MainFragment.kt:214-220 | a type is accepted iff it is exactly application/pdf, the DOCX type or text/plain |
| MainFragment.DefaultTypeRejected | FRONTEND-ANDROID/app/src/main/java/com/example/cvoptimizer/MainFragment.kt:179 | the fallback type application/octet-stream is rejected |
| MainFragment.TruncDiv | FRONTEND-ANDROID/app/src/main/java/com/example/cvoptimizer/MainFragment.kt:194 | Kotlin's `Long` division: for a >= 0 the quotient q satisfies q*b <= a < q*b + b, for a < 0 it satisfies q*b - b < a <= q*b <= 0 (rounding toward zero) |
| MainFragment.SizeString | FRONTEND-ANDROID/app/src/main/java/com/example/cvoptimizer/MainFragment.kt:194 | the size text ends in " KB" exactly below 1048576 bytes and in " MB" from there on; SizeStringReadsBack recovers the truncated quotient |
| MainFragment.SizeStringKilobytes | FRONTEND-ANDROID/app/src/main/java/com/example/cvoptimizer/MainFragment.kt:194 | below 1048576 bytes the text is "{size/1024} KB" with a quotient below 1024 |
| MainFragment.SizeStringMegabytes | FRONTEND-ANDROID/app/src/main/java/com/example/cvoptimizer/MainFragment.kt:194 | from 1048576 bytes on the text is "{size/1048576} MB" with a quotient of at least 1 |
| MainFragment.SizeStringSmallNegative | FRONTEND-ANDROID/app/src/main/java/com/example/cvoptimizer/MainFragment.kt:194 | a size in (-1024, 0) truncates to "0 KB", as Long division rounds toward zero |
| MainFragment.SizeStringReadsBack | FRONTEND-ANDROID/app/src/main/java/com/example/cvoptimizer/MainFragment.kt:194 | the unit is " KB" exactly below 1048576, and the number reads back as the truncated quotient |
| MainFragment.SizeStringBoundaries | FRONTEND-ANDROID/app/src/main/java/com/example/cvoptimizer/MainFragment.kt:194 | 0 and 1023 give "0 KB", 1048575 gives "1023 KB", 1048576 gives "1 MB" |
| MainFragment.FileInfoOf | FRONTEND-ANDROID/app/src/main/java/com/example/cvoptimizer/MainFragment.kt:176-197 | the name and size come from the first query row when it has the column, else "desconocido" and "0 KB"; the type is the reported one, else application/octet-stream |
| MainFragment.GetFileInfo | FRONTEND-ANDROID/app/src/main/java/com/example/cvoptimizer/MainFragment.kt:176-197 | starting from the defaults and overwriting each provided value gives the resolved information of the URI |
| MainFragment.MissingColumnsGiveDefaults | FRONTEND-ANDROID/app/src/main/java/com/example/cvoptimizer/MainFragment.kt:177-190 | without a query row or without the name or size column, the name is "desconocido" and the size "0 KB" |
| MainFragment.UntypedFileRejected | FRONTEND-ANDROID/app/src/main/java/com/example/cvoptimizer/MainFragment.kt:179-193 | a URI whose type the resolver does not report is never of an accepted type |
| MainFragment.ResponseOutcome | FRONTEND-ANDROID/app/src/main/java/com/example/cvoptimizer/MainFragment.kt:160-170 | navigates iff success and todas_las_areas is non-null, carrying name, size, type and response; else shows error, or "Error desconocido en la respuesta" when error is null |
| MainFragment.NavigationYieldsResults | FRONTEND-ANDROID/app/src/main/java/com/example/cvoptimizer/MainFragment.kt:160-167 | `BuildResultsList` of a response that navigates has one record per score, and success with an empty list navigates to an empty list |
| MainFragment.ConnectionErrorMessage | FRONTEND-ANDROID/app/src/main/java/com/example/cvoptimizer/MainFragment.kt:171-172 | a thrown call is reported with the "Error de conexión: " prefix |
| MainFragment.GetFileFromUri | FRONTEND-ANDROID/app/src/main/java/com/example/cvoptimizer/MainFragment.kt:199-212 | the copy gives a file under the resolved name unless it throws, when it gives null |
| MainFragment.MainScreen.constructor | FRONTEND-ANDROID/app/src/main/java/com/example/cvoptimizer/MainFragment.kt:39-40 | nothing is selected and no response is stored |
| MainFragment.MainScreen.OnPickerResult | FRONTEND-ANDROID/app/src/main/java/com/example/cvoptimizer/MainFragment.kt:49-65 | the selection changes only for an OK result with a URI of an accepted type; an unsupported type shows the format message and keeps the previous selection |
| MainFragment.MainScreen.OnCloudOption | FRONTEND-ANDROID/app/src/main/java/com/example/cvoptimizer/MainFragment.kt:112-119 | the cloud demo clears the selection while showing "cv_cloud_2023.pdf", "2.4 MB" |
| MainFragment.MainScreen.UploadCV | FRONTEND-ANDROID/app/src/main/java/com/example/cvoptimizer/MainFragment.kt:146-174 | a failed copy shows "No se pudo procesar el archivo"; else one part named "file" is sent, a response is stored and decided on, a thrown call shows the connection error |
| MainFragment.MainScreen.HandleContinue | FRONTEND-ANDROID/app/src/main/java/com/example/cvoptimizer/MainFragment.kt:138-144 | without a selection it shows "Por favor selecciona un archivo primero" and uploads nothing; with one it uploads it |
| MainFragment.CloudThenContinue | FRONTEND-ANDROID/app/src/main/java/com/example/cvoptimizer/MainFragment.kt:112-144 | after the cloud option, Continue reports that no file is selected and starts no upload |
| AnalysisFragment.StatusIndex | FRONTEND-ANDROID/app/src/main/java/com/example/cvoptimizer/AnalysisFragment.kt:72 | the index is progress / 20 capped at the last status |
| AnalysisFragment.TickState | FRONTEND-ANDROID/app/src/main/java/com/example/cvoptimizer/AnalysisFragment.kt:63-75 | a stopped tick changes nothing and is not reposted; otherwise progress grows by 2, is pinned at 100 where analysing stops, and the tick is reposted iff progress < 100 |
| AnalysisFragment.InitialValid | FRONTEND-ANDROID/app/src/main/java/com/example/cvoptimizer/AnalysisFragment.kt:19-21 | the initial fields (0, "Iniciando análisis...", analysing) satisfy the invariant |
| AnalysisFragment.TickPreservesValid | FRONTEND-ANDROID/app/src/main/java/com/example/cvoptimizer/AnalysisFragment.kt:63-75 | a tick keeps progress even, within [0, 100], with the matching status, and never lowers it |
| AnalysisFragment.LastStatusNeverShown | FRONTEND-ANDROID/app/src/main/java/com/example/cvoptimizer/AnalysisFragment.kt:22-29 | the status index stays at most 4, so "Preparando resultados..." is never shown |
| AnalysisFragment.Ticks | FRONTEND-ANDROID/app/src/main/java/com/example/cvoptimizer/AnalysisFragment.kt:62-78 | every state reached by ticks satisfies the invariant |
| AnalysisFragment.TicksFromStart | FRONTEND-ANDROID/app/src/main/java/com/example/cvoptimizer/AnalysisFragment.kt:66-75 | after k < 50 ticks from the start progress is 2k and the tick is still posted |
| AnalysisFragment.FiftyTicksComplete | FRONTEND-ANDROID/app/src/main/java/com/example/cvoptimizer/AnalysisFragment.kt:66-75 | 50 ticks reach progress 100, the completed status, analysing off and no tick posted; none of the first 49 reach 100 |
| AnalysisFragment.ReopenedStoppedScreenStaysPut | FRONTEND-ANDROID/app/src/main/java/com/example/cvoptimizer/AnalysisFragment.kt:61-64 | a tick posted to a stopped screen (the view re-created after Continue or a cancel) keeps progress and status, leaves the analysis stopped and reposts nothing |
| AnalysisFragment.ActionOutcome | FRONTEND-ANDROID/app/src/main/java/com/example/cvoptimizer/AnalysisFragment.kt:50-58 | the button goes to results iff progress >= 100; otherwise it stops analysing, drops the posted tick and goes back to main |
| AnalysisFragment.CancelStopsTicks | FRONTEND-ANDROID/app/src/main/java/com/example/cvoptimizer/AnalysisFragment.kt:54-55 | after cancelling, a tick leaves progress and status unchanged |
| AnalysisFragment.AnalysisScreen.constructor | FRONTEND-ANDROID/app/src/main/java/com/example/cvoptimizer/AnalysisFragment.kt:19-21 | progress 0, status "Iniciando análisis...", analysing, no tick posted |
| AnalysisFragment.AnalysisScreen.StartAnalysis | FRONTEND-ANDROID/app/src/main/java/com/example/cvoptimizer/AnalysisFragment.kt:61-62 | posts a tick whether or not the analysis is running, and changes nothing else; no tick is already posted, since destroying the view removed it |
| AnalysisFragment.AnalysisScreen.Tick | FRONTEND-ANDROID/app/src/main/java/com/example/cvoptimizer/AnalysisFragment.kt:63-77 | the fields after the tick are TickState of the fields before; a tick that finds the analysis stopped only clears its own posting |
| AnalysisFragment.AnalysisScreen.OnDestroyView | FRONTEND-ANDROID/app/src/main/java/com/example/cvoptimizer/AnalysisFragment.kt:95-98 | removes the posted tick and keeps progress, status and `analyzing` as they were |
| AnalysisFragment.AnalysisScreen.OnActionButton | FRONTEND-ANDROID/app/src/main/java/com/example/cvoptimizer/AnalysisFragment.kt:50-58 | the destination and the new fields are those of ActionOutcome |
| AnalysisFragment.AnalysisScreen.RunPostedTicks | FRONTEND-ANDROID/app/src/main/java/com/example/cvoptimizer/AnalysisFragment.kt:62-78 | on a running screen, posted ticks end at exactly 100, completed, after (100 - progress) / 2 ticks; on a stopped one, the single tick changes nothing but its own posting |
| AnalysisFragment.RunFromStart | FRONTEND-ANDROID/app/src/main/java/com/example/cvoptimizer/AnalysisFragment.kt:39-78 | from a freshly opened screen, exactly 50 ticks reach 100 and stop analysing |
| AnalysisFragment.RunThenReopen | FRONTEND-ANDROID/app/src/main/java/com/example/cvoptimizer/AnalysisFragment.kt:48-64 | after a complete run, destroying and re-creating the view posts one more tick, which leaves the screen at 100%, completed, with nothing posted |

## Left out

- Text.Lower: models ASCII lower-casing only. Kotlin's `lowercase()` also maps non-ASCII letters, and some of them lower-case to ASCII letters (U+212A KELVIN SIGN becomes 'k'), so an area such as "MAR\u212AETING" gets the marketing icon and colour in the app but the fallback in the model.
- View binding, RecyclerView plumbing, Glide image loading, dialogs, toasts, bottom sheets, the statistics labels and navigation actions: they are Android framework calls; a navigation or a message is modelled as a returned value.
- `Color.parseColor`: colours are kept as opaque strings.
- The detail-click toast text ("Ver detalles de …") and the home button: plain framework calls with no decision in them.
- The `ApiClient` singleton, its timeouts and logging, and the `ApiService` interface: the network call is a parameter of the upload.
- Coroutine dispatch and concurrency: an upload is one step; the code has no guard against a second upload in flight, and the model adds none.
- Multipart body construction beyond the part's field name, file name and type string; `toMediaTypeOrNull` returning null for a malformed type is not modelled.
- MainFragment.NavigationYieldsResults: relates two functions only. The analysis screen receives the response (MainFragment.kt:161-166) but reads only `fileName` (AnalysisFragment.kt:42-43) and opens the results screen without arguments (AnalysisFragment.kt:52), and the results screen parses `apiResponseJson` (ResultsFragment.kt:59), which nothing sets; so nothing in the code links the uploaded scores to the results list, and the model adds no such link.
- MainFragment.GetFileFromUri: the cache copy's file name is modelled as the resolved display name; `File(cacheDir, name)` would keep only the last path segment of a name containing '/'.
- MainFragment.GetFileFromUri: an input stream that opens as null (the copy then returns an unwritten file) is not distinguished from a successful copy.
- Gson deserialisation of the navigation argument and any serialisation round-trip of the response: a foreign library; the results screen takes an already parsed response.
- The response fields the screens do not read (`prediccion_principal`, `confianza_principal`, `metadatos`, `archivo_info`) and the declared `ApiResponse`/`Resultado` shape with `Double` percentages.
- Handler timing (the 200 ms tick delay) and the 3000 ms splash delay: ticks are discrete steps.
- `updateUI`'s widget values on the analysis screen: they are derived from the three modelled fields.
- Integer widths: percentages (`Int`) and sizes (`Long`) are unbounded integers. Nothing in the code can overflow: percentages are only compared, sizes are only divided, and progress stays within [0, 100].
- A content resolver cursor column that exists but holds null: the model treats a column as either present with a value or missing.
- HistoryFragment, HistoryAdapter, SplashActivity and build.gradle.kts: demo data, view binding and build configuration, with no logic to state.
