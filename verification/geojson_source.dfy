/**
 * The GeoJSON district-boundaries data source: a local file or a URL, the
 * choice between a direct and a streamed download, the FeatureCollection
 * check and the messages each failure is reported with.
 *
 * Opening and parsing the file is a parameter (`ReadFile`), and the two
 * HTTP requests to the URL are a record of their outcomes (`Remote`).
 */
module GeoJsonSource {
  import opened Wrappers
  import opened PyJson
  import opened Models

  /** `10 * 1024 * 1024` bytes. */
  const DefaultStreamThreshold: int := 10 * 1024 * 1024

  datatype Source = Source(filePath: Option<string>, url: Option<string>, streamThreshold: int)

  /** An optional string argument that Python reads as true. */
  predicate Given(s: Option<string>) {
    s.Some? && |s.value| > 0
  }

  /** The constructor: at least one of the path and the URL must be non-empty. */
  function NewSource(filePath: Option<string>, url: Option<string>, streamThreshold: int): (r: Result<Source, Error>)
    ensures r.Err? <==> !Given(filePath) && !Given(url)
    ensures r.Err? ==> r.error == ValueError("Either file_path or url must be provided")
    ensures r.Ok? ==> r.value == Source(filePath, url, streamThreshold)
  {
    if !Given(filePath) && !Given(url) then Err(ValueError("Either file_path or url must be provided"))
    else Ok(Source(filePath, url, streamThreshold))
  }

  /** `_validate_geojson`: the three checks in their order. */
  function Validate(data: Value): (r: Result<Value, Error>)
    ensures r.Ok? <==> IsFeatureCollection(data) && "features" in data.fields && data.fields["features"].Arr?
    ensures r.Ok? ==> r.value == data
    ensures !data.Obj? ==> r == Err(ValueError("Invalid GeoJSON: Not a dictionary"))
    ensures data.Obj? && !IsFeatureCollection(data) ==> r == Err(ValueError("Invalid GeoJSON: Not a FeatureCollection"))
    ensures IsFeatureCollection(data) && r.Err? ==> r == Err(ValueError("Invalid GeoJSON: No features array found"))
  {
    if !data.Obj? then Err(ValueError("Invalid GeoJSON: Not a dictionary"))
    else if Get(data.fields, "type", Null) != Str("FeatureCollection") then Err(ValueError("Invalid GeoJSON: Not a FeatureCollection"))
    else if "features" !in data.fields || !data.fields["features"].Arr? then Err(ValueError("Invalid GeoJSON: No features array found"))
    else Ok(data)
  }

  /** Opening and parsing a file: the parsed document or the exception raised. */
  type ReadFile = string -> Result<Value, Error>

  /**
   * The URL's behaviour: the HEAD status and `Content-Length` header, and
   * the GET status and `response.json()` outcome (a streamed download
   * written to a temporary file and parsed back yields the same document).
   */
  datatype Remote = Remote(headStatus: int, contentLength: Option<string>, getStatus: int, body: Result<Value, Error>)

  /** Wraps an exception as `Exception(prefix + str(e))`. */
  function Wrap(prefix: string, r: Result<Value, Error>): (w: Result<Value, Error>)
    ensures r.Ok? ==> w == r
    ensures r.Err? ==> w == Err(Exception(prefix + Describe(r.error)))
  {
    match r
    case Ok(v) => Ok(v)
    case Err(e) => Err(Exception(prefix + Describe(e)))
  }

  /** `_stream_download`: every failure, a bad status included, is wrapped as a streaming error. */
  function StreamDownload(remote: Remote): (r: Result<Value, Error>)
    ensures r.Err? ==> r.error.Exception? && StartsWith(r.error.message, "Error streaming GeoJSON file: ")
  {
    Wrap("Error streaming GeoJSON file: ",
      if remote.getStatus != 200 then Err(Exception("Failed to download from URL: " + IntToString(remote.getStatus)))
      else if remote.body.Err? then Err(remote.body.error)
      else Validate(remote.body.value))
  }

  /** Whether a download goes through a temporary file: a parseable length above the threshold. */
  predicate Streamed(src: Source, remote: Remote) {
    var n := ParseInt(remote.contentLength.UnwrapOr("0"));
    n.Some? && n.value > src.streamThreshold
  }

  /**
   * `_download_from_url`: a failed HEAD, an unparseable `Content-Length`, a
   * failed GET and a parse or validation failure surface unwrapped; a
   * length above the threshold goes to the streamed download instead.
   */
  function DownloadFromUrl(src: Source, remote: Remote): (r: Result<Value, Error>)
    ensures remote.headStatus != 200 ==> r == Err(Exception("Failed to access URL: " + IntToString(remote.headStatus)))
    ensures remote.headStatus == 200 && ParseInt(remote.contentLength.UnwrapOr("0")).None? ==> r.Err? && r.error.ValueError?
    ensures remote.headStatus == 200 && Streamed(src, remote) ==> r == StreamDownload(remote)
    ensures remote.headStatus == 200 && ParseInt(remote.contentLength.UnwrapOr("0")).Some? && !Streamed(src, remote) && remote.getStatus != 200 ==>
      r == Err(Exception("Failed to download from URL: " + IntToString(remote.getStatus)))
  {
    if remote.headStatus != 200 then Err(Exception("Failed to access URL: " + IntToString(remote.headStatus)))
    else
      var length := remote.contentLength.UnwrapOr("0");
      match ParseInt(length)
      case None => Err(ValueError("invalid literal for int() with base 10: '" + length + "'"))
      case Some(n) =>
        if n > src.streamThreshold then StreamDownload(remote)
        else if remote.getStatus != 200 then Err(Exception("Failed to download from URL: " + IntToString(remote.getStatus)))
        else if remote.body.Err? then Err(remote.body.error)
        else Validate(remote.body.value)
  }

  /** `json.load` then `_validate_geojson` on a file. */
  function ReadAndValidate(readFile: ReadFile, path: string): (r: Result<Value, Error>)
    ensures r.Ok? <==> readFile(path).Ok? && Validate(readFile(path).value).Ok?
    ensures r.Ok? ==> r.value == readFile(path).value
    ensures readFile(path).Err? ==> r == readFile(path)
  {
    match readFile(path)
    case Err(e) => Err(e)
    case Ok(data) => Validate(data)
  }

  /**
   * `fetch_data`: the file when a path is given, read and validated with any
   * failure wrapped as a reading error; otherwise the URL.
   */
  function FetchData(src: Source, readFile: ReadFile, remote: Remote): (r: Result<Value, Error>)
    ensures Given(src.filePath) ==> r == Wrap("Error reading GeoJSON file: ", ReadAndValidate(readFile, src.filePath.value))
    ensures !Given(src.filePath) ==> r == DownloadFromUrl(src, remote)
  {
    if Given(src.filePath) then Wrap("Error reading GeoJSON file: ", ReadAndValidate(readFile, src.filePath.value))
    else DownloadFromUrl(src, remote)
  }

  /** Whatever `fetch_data` returns is the document as read, and a FeatureCollection with a features list. */
  lemma FetchedDataIsFeatureCollection(src: Source, readFile: ReadFile, remote: Remote)
    ensures var r := FetchData(src, readFile, remote);
      r.Ok? ==> IsFeatureCollection(r.value) && r.value.fields["features"].Arr?
    ensures var r := FetchData(src, readFile, remote);
      r.Ok? && Given(src.filePath) ==> readFile(src.filePath.value) == Ok(r.value)
    ensures var r := FetchData(src, readFile, remote);
      r.Ok? && !Given(src.filePath) ==> remote.headStatus == 200 && remote.getStatus == 200 && remote.body == Ok(r.value)
  {
  }

  /** A small enough download never goes through a temporary file; validation errors then surface as they were raised. */
  lemma DirectDownloadErrorsAreUnwrapped(src: Source, remote: Remote, data: Value)
    requires remote.headStatus == 200 && remote.contentLength.None? && src.streamThreshold >= 0
    requires remote.getStatus == 200 && remote.body == Ok(data) && !data.Obj?
    ensures DownloadFromUrl(src, remote) == Err(ValueError("Invalid GeoJSON: Not a dictionary"))
  {
    assert ParseInt("0") == Some(0) by {
      assert AllDigits("0");
      assert DigitsValue("0") == 10 * DigitsValue("") + 0;
    }
  }

  /** `get_source_info`. */
  function SourceInfo(src: Source): (r: map<string, Value>)
    ensures r.Keys == {"name", "source", "type", "description"}
    ensures Given(src.filePath) ==> r["source"] == Str("Local file: " + src.filePath.value)
    ensures !Given(src.filePath) ==> r["source"] == Str("URL: " + Show(OptionValue(src.url)))
    ensures r["name"] == Str("GeoJSON District Boundaries") && r["type"] == Str("GeoJSON")
  {
    map["name" := Str("GeoJSON District Boundaries"),
        "source" := Str(if Given(src.filePath) then "Local file: " + src.filePath.value else "URL: " + Show(OptionValue(src.url))),
        "type" := Str("GeoJSON"),
        "description" := Str("GeoJSON boundaries for electoral districts")]
  }

  /** An optional string as the Python value it is. */
  function OptionValue(s: Option<string>): Value {
    if s.Some? then Str(s.value) else Null
  }
}
