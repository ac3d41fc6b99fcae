/**
 * The upload screen: which MIME types are accepted, how the file's name, size
 * and type are resolved and shown, how the picker and the "cloud" option
 * change the selection, and what an upload attempt leads to.
 */
module MainFragment {
  import opened Wrappers
  import opened Text
  import opened Response
  import ResultsFragment

  /** A content URI, kept opaque. */
  type Uri = string

  const PdfType: string := "application/pdf"
  const DocxType: string := "application/vnd.openxmlformats-officedocument.wordprocessingml.document"
  const PlainTextType: string := "text/plain"

  /** The fallbacks `getFileInfo` starts from. */
  const DefaultName: string := "desconocido"
  const DefaultSize: int := 0
  const DefaultType: string := "application/octet-stream"

  const UnsupportedFormatMessage: string := "Formato no soportado. Usa PDF, DOCX o TXT."
  const NoFileMessage: string := "Por favor selecciona un archivo primero"
  const UnprocessableFileMessage: string := "No se pudo procesar el archivo"
  const UnknownResponseError: string := "Error desconocido en la respuesta"
  const ConnectionErrorPrefix: string := "Error de conexión: "

  /** The name of the single multipart part. */
  const UploadFieldName: string := "file"

  /** Android's `Activity.RESULT_OK`. */
  const ResultOk: int := -1

  const Kib: int := 1024
  const Mib: int := 1024 * 1024

  // ---------------------------------------------------------------- file type

  /** The MIME allow-list: PDF, DOCX and plain text, compared exactly. */
  function IsValidFileType(fileType: string): (ok: bool)
    ensures ok <==> fileType == PdfType || fileType == DocxType || fileType == PlainTextType
  {
    fileType in [PdfType, DocxType, PlainTextType]
  }

  /** The type used when the resolver reports none is not on the allow-list. */
  lemma DefaultTypeRejected()
    ensures !IsValidFileType(DefaultType)
  {
  }

  // ---------------------------------------------------------------- size text

  /** Kotlin's `Long` division, which truncates toward zero. */
  function TruncDiv(a: int, b: int): (q: int)
    requires b > 0
    ensures a >= 0 ==> 0 <= q * b <= a < q * b + b
    ensures a < 0 ==> q * b - b < a <= q * b <= 0
  {
    if a >= 0 then
      DivBounds(a, b);
      a / b
    else
      var m := (-a) / b;
      DivBounds(-a, b);
      assert (-m) * b == -(m * b);
      -m
  }

  /** Euclidean division of a non-negative number: the quotient brackets it. */
  lemma DivBounds(n: int, d: int)
    requires n >= 0 && d > 0
    ensures 0 <= (n / d) * d <= n < (n / d) * d + d
  {
  }

  /** `"{size/1024} KB"` below one mebibyte, `"{size/1048576} MB"` from there on. */
  function SizeString(size: int): (text: string)
    ensures |text| >= 4
    ensures text[|text| - 3..] == (if size < Mib then " KB" else " MB")
  {
    if size < Mib then IntToString(TruncDiv(size, Kib)) + " KB"
    else IntToString(TruncDiv(size, Mib)) + " MB"
  }

  /** Below one mebibyte the size is shown as whole kibibytes, rounded down, never 1024 or more. */
  lemma SizeStringKilobytes(size: int)
    requires 0 <= size < Mib
    ensures size / Kib < 1024 && SizeString(size) == NatToString(size / Kib) + " KB"
  {
  }

  /** From one mebibyte on the size is shown as whole mebibytes, rounded down, at least 1. */
  lemma SizeStringMegabytes(size: int)
    requires size >= Mib
    ensures size / Mib >= 1 && SizeString(size) == NatToString(size / Mib) + " MB"
  {
  }

  /** A small negative size truncates to zero, so it reads "0 KB" rather than "-1 KB". */
  lemma SizeStringSmallNegative(size: int)
    requires -Kib < size < 0
    ensures SizeString(size) == "0 KB"
  {
  }

  /** The unit is KB exactly below one mebibyte, and the number reads back as the truncated quotient. */
  lemma SizeStringReadsBack(size: int)
    ensures var s := SizeString(size);
      && |s| >= 3
      && (s[|s| - 3..] == " KB" <==> size < Mib)
      && ParseInt(s[..|s| - 3]) == Some(if size < Mib then TruncDiv(size, Kib) else TruncDiv(size, Mib))
  {
    var n := if size < Mib then TruncDiv(size, Kib) else TruncDiv(size, Mib);
    var unit := if size < Mib then " KB" else " MB";
    var s := SizeString(size);
    assert s == IntToString(n) + unit;
    assert s[|s| - 3..] == unit;
    assert s[..|s| - 3] == IntToString(n);
    IntToStringRoundTrip(n);
  }

  /** The boundary values around one kibibyte and one mebibyte. */
  lemma SizeStringBoundaries()
    ensures SizeString(0) == "0 KB"
    ensures SizeString(1023) == "0 KB"
    ensures SizeString(1048575) == "1023 KB"
    ensures SizeString(1048576) == "1 MB"
  {
    assert NatToString(102) == "102" by {
      assert NatToString(10) == "10";
    }
  }

  // ---------------------------------------------------------------- file info

  /** What the display text of a resolved file holds. */
  datatype FileData = FileData(name: string, size: string, fileType: string)

  /** The first row of the content resolver's query; a missing column is None. */
  datatype CursorRow = CursorRow(displayName: Option<string>, size: Option<int>)

  /**
   * What the content resolver knows: the first row of the query for each URI
   * (absent when the query yields no cursor or no row) and the type it reports.
   */
  datatype ContentResolver = ContentResolver(rows: map<Uri, CursorRow>, types: map<Uri, string>)

  /** The resolved information of a URI, with each missing piece replaced by its default. */
  function FileInfoOf(resolver: ContentResolver, uri: Uri): (info: FileData)
    ensures uri in resolver.rows && resolver.rows[uri].displayName.Some?
      ==> info.name == resolver.rows[uri].displayName.value
    ensures uri !in resolver.rows || resolver.rows[uri].displayName.None? ==> info.name == DefaultName
    ensures uri in resolver.rows && resolver.rows[uri].size.Some?
      ==> info.size == SizeString(resolver.rows[uri].size.value)
    ensures uri !in resolver.rows || resolver.rows[uri].size.None? ==> info.size == "0 KB"
    ensures info.fileType == if uri in resolver.types then resolver.types[uri] else DefaultType
  {
    var row := if uri in resolver.rows then resolver.rows[uri] else CursorRow(None, None);
    FileData(
      row.displayName.GetOr(DefaultName),
      SizeString(row.size.GetOr(DefaultSize)),
      if uri in resolver.types then resolver.types[uri] else DefaultType)
  }

  /**
   * `getFileInfo`: starts from the defaults and overwrites each one that the
   * query or the type lookup provides.
   */
  method GetFileInfo(resolver: ContentResolver, uri: Uri) returns (info: FileData)
    ensures info == FileInfoOf(resolver, uri)
  {
    var name := DefaultName;
    var size := DefaultSize;
    var fileType := DefaultType;
    if uri in resolver.rows {
      var row := resolver.rows[uri];
      if row.displayName.Some? {
        name := row.displayName.value;
      }
      if row.size.Some? {
        size := row.size.value;
      }
    }
    if uri in resolver.types {
      fileType := resolver.types[uri];
    }
    info := FileData(name, SizeString(size), fileType);
  }

  /** Without a row, or without the columns, the name is "desconocido" and the size "0 KB". */
  lemma MissingColumnsGiveDefaults(resolver: ContentResolver, uri: Uri)
    ensures uri !in resolver.rows || resolver.rows[uri].displayName.None? ==>
      FileInfoOf(resolver, uri).name == DefaultName
    ensures uri !in resolver.rows || resolver.rows[uri].size.None? ==>
      FileInfoOf(resolver, uri).size == "0 KB"
  {
    SizeStringBoundaries();
  }

  /** A URI whose type the resolver does not report is never acceptable. */
  lemma UntypedFileRejected(resolver: ContentResolver, uri: Uri)
    requires uri !in resolver.types
    ensures !IsValidFileType(FileInfoOf(resolver, uri).fileType)
  {
    DefaultTypeRejected();
  }

  // ---------------------------------------------------------------- upload outcome

  /** The arguments handed to the analysis screen. */
  datatype NavArgs = NavArgs(fileName: string, fileSize: string, fileType: string, apiResponse: ApiResponse)

  /** Where an upload attempt ends: the analysis screen, or an error dialog. */
  datatype UploadOutcome = NavigateToAnalysis(args: NavArgs) | ShowError(message: string)

  /**
   * The decision taken on a response: navigate exactly when it reports
   * success and carries `todas_las_areas`; otherwise show its `error`, or a
   * generic message when that is null.
   */
  function ResponseOutcome(info: FileData, response: ApiResponse): (o: UploadOutcome)
    ensures o.NavigateToAnalysis? <==> response.success && response.todasLasAreas.Some?
    ensures o.NavigateToAnalysis? ==>
      o.args == NavArgs(info.name, info.size, info.fileType, response)
    ensures o.ShowError? && response.error.Some? ==> o.message == response.error.value
    ensures o.ShowError? && response.error.None? ==> o.message == UnknownResponseError
  {
    if response.success && response.todasLasAreas.Some? then
      NavigateToAnalysis(NavArgs(info.name, info.size, info.fileType, response))
    else ShowError(response.error.GetOr(UnknownResponseError))
  }

  /**
   * `BuildResultsList` of a response that navigates has one record per score,
   * and success with an empty list navigates to an empty list. Nothing in the
   * app carries the response on to the results screen, so this relates the two
   * functions, not the screens.
   */
  lemma NavigationYieldsResults(info: FileData, response: ApiResponse)
    ensures ResponseOutcome(info, response).NavigateToAnalysis? ==>
      |ResultsFragment.BuildResultsList(Some(response))| == |response.todasLasAreas.value|
    ensures response.success && response.todasLasAreas == Some([]) ==>
      ResponseOutcome(info, response).NavigateToAnalysis? &&
      ResultsFragment.BuildResultsList(Some(response)) == []
  {
  }

  /** The message shown when the call throws; a null exception message prints as "null". */
  function ConnectionErrorMessage(message: Option<string>): (m: string)
    ensures |m| >= |ConnectionErrorPrefix| && m[..|ConnectionErrorPrefix|] == ConnectionErrorPrefix
  {
    ConnectionErrorPrefix + message.GetOr("null")
  }

  /** The single file part of the multipart request. */
  datatype UploadPart = UploadPart(fieldName: string, fileName: string, mediaType: string)

  /** What the network call brings back: a parsed response, or an exception and its message. */
  datatype NetworkResult = Responded(response: ApiResponse) | Threw(message: Option<string>)

  /** The name and details the "selected file" card shows. */
  datatype FileCard = FileCard(name: string, details: string)

  /** What the picker callback does. */
  datatype PickOutcome = NoChange | Selected(card: FileCard) | Rejected(message: string)

  /** The picker's returned activity result: its code and optional intent with an optional URI. */
  datatype ActivityResult = ActivityResult(resultCode: int, data: Option<Option<Uri>>)

  /**
   * `getFileFromUri`: copies the content into the cache under the resolved
   * name; the copy either succeeds, giving that file name, or throws.
   */
  method GetFileFromUri(resolver: ContentResolver, uri: Uri, copyThrows: bool) returns (file: Option<string>)
    ensures copyThrows <==> file.None?
    ensures file.Some? ==> file.value == FileInfoOf(resolver, uri).name
  {
    var info := GetFileInfo(resolver, uri);
    if copyThrows {
      file := None;
    } else {
      file := Some(info.name);
    }
  }

  /** The upload screen's state: the chosen URI and the last response received. */
  class MainScreen {
    var selectedFileUri: Option<Uri>
    var apiResponse: Option<ApiResponse>

    constructor ()
      ensures selectedFileUri == None && apiResponse == None
    {
      selectedFileUri := None;
      apiResponse := None;
    }

    /**
     * The picker callback: only an OK result that carries a URI of an
     * accepted type changes the selection; a wrong type shows a message and
     * keeps the previous selection.
     */
    method OnPickerResult(resolver: ContentResolver, result: ActivityResult) returns (outcome: PickOutcome)
      modifies this`selectedFileUri
      ensures !(result.resultCode == ResultOk && result.data.Some? && result.data.value.Some?) ==>
        outcome == NoChange && selectedFileUri == old(selectedFileUri)
      ensures result.resultCode == ResultOk && result.data.Some? && result.data.value.Some? ==>
        var uri := result.data.value.value;
        var info := FileInfoOf(resolver, uri);
        if IsValidFileType(info.fileType) then
          outcome == Selected(FileCard(info.name, info.size)) && selectedFileUri == Some(uri)
        else
          outcome == Rejected(UnsupportedFormatMessage) && selectedFileUri == old(selectedFileUri)
    {
      outcome := NoChange;
      if result.resultCode == ResultOk && result.data.Some? {
        var intentData := result.data.value;
        if intentData.Some? {
          var uri := intentData.value;
          var info := GetFileInfo(resolver, uri);
          if IsValidFileType(info.fileType) {
            selectedFileUri := Some(uri);
            outcome := Selected(FileCard(info.name, info.size));
          } else {
            outcome := Rejected(UnsupportedFormatMessage);
          }
        }
      }
    }

    /** The "cloud" demo option: clears the selection while showing a made-up file. */
    method OnCloudOption() returns (card: FileCard)
      modifies this`selectedFileUri
      ensures selectedFileUri == None
      ensures card == FileCard("cv_cloud_2023.pdf", "2.4 MB")
    {
      selectedFileUri := None;
      card := FileCard("cv_cloud_2023.pdf", "2.4 MB");
    }

    /**
     * `uploadCV`: copy the file, send one part named "file", then decide on
     * the response. The response is stored before the decision; a failed copy
     * or a thrown call leaves the stored response alone.
     */
    method UploadCV(resolver: ContentResolver, uri: Uri, copyThrows: bool, network: NetworkResult)
      returns (outcome: UploadOutcome, part: Option<UploadPart>)
      modifies this`apiResponse
      ensures copyThrows ==>
        outcome == ShowError(UnprocessableFileMessage) && part == None && apiResponse == old(apiResponse)
      ensures !copyThrows ==>
        part == Some(UploadPart(UploadFieldName, FileInfoOf(resolver, uri).name, FileInfoOf(resolver, uri).fileType))
      ensures !copyThrows && network.Responded? ==>
        apiResponse == Some(network.response) &&
        outcome == ResponseOutcome(FileInfoOf(resolver, uri), network.response)
      ensures !copyThrows && network.Threw? ==>
        apiResponse == old(apiResponse) && outcome == ShowError(ConnectionErrorMessage(network.message))
    {
      var file := GetFileFromUri(resolver, uri, copyThrows);
      if file.None? {
        outcome, part := ShowError(UnprocessableFileMessage), None;
        return;
      }
      var info := GetFileInfo(resolver, uri);
      part := Some(UploadPart(UploadFieldName, file.value, info.fileType));
      match network {
        case Responded(response) =>
          apiResponse := Some(response);
          outcome := ResponseOutcome(info, response);
        case Threw(message) =>
          outcome := ShowError(ConnectionErrorMessage(message));
      }
    }

    /** The Continue button: without a selection it reports that and starts no upload. */
    method HandleContinue(resolver: ContentResolver, copyThrows: bool, network: NetworkResult)
      returns (outcome: UploadOutcome, part: Option<UploadPart>)
      modifies this`apiResponse
      ensures selectedFileUri == old(selectedFileUri)
      ensures selectedFileUri.None? ==>
        outcome == ShowError(NoFileMessage) && part == None && apiResponse == old(apiResponse)
      ensures selectedFileUri.Some? && copyThrows ==>
        outcome == ShowError(UnprocessableFileMessage) && part == None && apiResponse == old(apiResponse)
      ensures selectedFileUri.Some? && !copyThrows ==>
        var info := FileInfoOf(resolver, selectedFileUri.value);
        && part == Some(UploadPart(UploadFieldName, info.name, info.fileType))
        && (network.Responded? ==>
              apiResponse == Some(network.response) && outcome == ResponseOutcome(info, network.response))
        && (network.Threw? ==>
              apiResponse == old(apiResponse) && outcome == ShowError(ConnectionErrorMessage(network.message)))
    {
      if selectedFileUri.None? {
        outcome, part := ShowError(NoFileMessage), None;
      } else {
        outcome, part := UploadCV(resolver, selectedFileUri.value, copyThrows, network);
      }
    }
  }

  /** Choosing the cloud demo and then Continue reports that no file is selected and uploads nothing. */
  method CloudThenContinue(screen: MainScreen, resolver: ContentResolver, copyThrows: bool, network: NetworkResult)
    returns (card: FileCard, outcome: UploadOutcome, part: Option<UploadPart>)
    modifies screen
    ensures outcome == ShowError(NoFileMessage) && part == None
    ensures screen.selectedFileUri == None && screen.apiResponse == old(screen.apiResponse)
  {
    card := screen.OnCloudOption();
    outcome, part := screen.HandleContinue(resolver, copyThrows, network);
  }
}
