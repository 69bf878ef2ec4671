/** What each stage of request parsing computes (sections 3 and 5 of RFC 9112). The class
    in Request.dfy does the same work in place. */
module RequestSpec {
  import opened CppStrings
  import opened Numbers
  import Chunked

  const OK := 200
  const BAD_REQUEST := 400
  const METHOD_NOT_ALLOWED := 405
  const EXPECTATION_FAILED := 417
  const TEAPOT := 418
  const VERSION_NOT_SUPPORTED := 505

  datatype RequestData = RequestData(
    verb: string, target: string, query: string, filename: string, cgiPath: string, version: string,
    headers: map<string, string>, body: string, port: int, status: int, raw: string)

  /** A request object as its constructor leaves it, holding the bytes read so far. */
  function Unparsed(raw: string): RequestData {
    RequestData("", "/", "", "", "", "", map[], "", 80, OK, raw)
  }

  /** OutOfRange: an exception leaves the parser (`at` on an empty URL).
      Spins: chunk decoding does not return. */
  datatype Outcome = Parsed(request: RequestData) | OutOfRange | Spins

  // The start line.

  /** What is left after a token and the spaces behind it. */
  function AfterToken(raw: string): string {
    var tail := Past(raw, ' ');
    Trimmed(tail, ' ')
  }

  function Token(raw: string): string {
    Before(raw, ' ')
  }

  /** One trailing slash is dropped from the URL. */
  function WithoutSlash(url: string): string
    requires url != ""
  {
    if url[|url| - 1] == '/' then url[..|url| - 1] else url
  }

  function WithQuery(r: RequestData, url: string): RequestData {
    var path := Before(url, '?');
    var asked := if Find(url, '?') == NPOS then r else r.(query := Past(url, '?'));
    if path == "" then asked else asked.(target := path)
  }

  /** The position at which a target with one dot stops naming a file. */
  function FileEnd(target: string): (end: int)
    requires Count(target, '.') > 0
    ensures 0 <= Find(target, '.') < end <= |target|
  {
    CountZero(target, '.');
    FindMeaning(target, '.');
    var dot := Find(target, '.');
    var slash := Find(target[dot..], '/');
    assert target[dot..][0] == '.';
    if slash == NPOS then |target| else dot + slash
  }

  /** The directory and the file name of a target with one dot. */
  function FileOf(target: string): (string, string)
    requires Count(target, '.') > 0
  {
    var file := target[..FileEnd(target)];
    var cut := FindLastOf(file, '/') + 1;
    (file[..cut], file[cut..])
  }

  function WithFilename(r: RequestData): RequestData {
    if Count(r.target, '.') > 1 then r.(status := BAD_REQUEST)
    else if Count(r.target, '.') == 1 then
      var (directory, file) := FileOf(r.target);
      var rest := r.target[FileEnd(r.target)..];
      r.(target := directory, filename := file, cgiPath := if rest == "" then r.cgiPath else rest)
    else r
  }

  function WithUrl(r: RequestData, url: string): RequestData {
    WithFilename(WithQuery(r, url))
  }

  /** Method and version set, and the start line cut off. */
  function SplitLine(r: RequestData): RequestData {
    var line := AfterToken(AfterToken(r.raw));
    r.(verb := Token(r.raw), version := Before(line, '\r'), raw := Past(line, '\n'))
  }

  function WithStartLine(r: RequestData): Outcome {
    var url := Token(AfterToken(r.raw));
    if url == "" then OutOfRange else Parsed(WithUrl(SplitLine(r), WithoutSlash(url)))
  }

  // The header fields.

  /** `map::insert`, which keeps the value of a key that is present. */
  function Inserted(headers: map<string, string>, key: string, value: string): map<string, string> {
    if key in headers then headers else headers[key := value]
  }

  function AfterName(raw: string): string {
    Erased(raw, Find(raw, ':') + 2)
  }

  function AfterField(raw: string): string {
    Past(AfterName(raw), '\n')
  }

  predicate AtHeader(raw: string) {
    raw != "" && raw[0] != '\r'
  }

  /** Reading one header line removes at least one byte of any input: without a colon,
      `find + 2` wraps round to 1. */
  lemma FieldShrinks(raw: string)
    requires AtHeader(raw)
    ensures |AfterField(raw)| < |raw|
    ensures exists k :: 0 < k <= |raw| && AfterField(raw) == raw[k..]
  {
    var name := AfterName(raw);
    var k := |raw| - |name|;
    assert name == raw[k..];
    var j := |name| - |AfterField(raw)|;
    assert AfterField(raw) == name[j..] == raw[k + j..];
  }

  /** The header map and the unread rest after the header loop. */
  function ReadFields(raw: string, headers: map<string, string>): (r: (map<string, string>, string))
    ensures !AtHeader(r.1)
    decreases |raw|
  {
    if !AtHeader(raw) then (headers, raw)
    else
      FieldShrinks(raw);
      var key := Before(raw, ':');
      var value := Before(AfterName(raw), '\r');
      ReadFields(AfterField(raw), Inserted(headers, key, value))
  }

  function WithHost(r: RequestData): RequestData {
    if "Host" !in r.headers then r.(status := BAD_REQUEST)
    else
      var host := r.headers["Host"];
      var colon := Find(host, ':');
      if colon == NPOS then r else r.(port := ExtractInt(host[colon + 1..], 10).After(r.port))
  }

  /** The header loop and the host, before the body is taken. */
  function WithFields(r: RequestData): RequestData {
    var read := ReadFields(r.raw, r.headers);
    WithHost(r.(headers := read.0, raw := read.1))
  }

  function WithHeaders(r: RequestData): RequestData {
    var hosted := WithFields(r);
    if hosted.raw == "" then hosted else hosted.(raw := Erased(hosted.raw, 2), body := Erased(hosted.raw, 2))
  }

  // Chunked bodies and the final checks.

  predicate IsChunked(headers: map<string, string>) {
    "Content-Encoding" in headers && headers["Content-Encoding"] == "chunked"
  }

  function WithDecodedBody(r: RequestData, uninitialised: int): Outcome {
    if !IsChunked(r.headers) then Parsed(r)
    else match Chunked.Decode(r.body, uninitialised)
      case Decoded(body) => Parsed(r.(body := body))
      case Spins => Spins
  }

  predicate OccursAt(s: string, part: string, i: int) {
    0 <= i <= |s| - |part| && s[i..i + |part|] == part
  }

  predicate Contains(s: string, part: string) {
    exists i :: 0 <= i <= |s| && OccursAt(s, part, i)
  }

  function StatusLineStatus(r: RequestData): int {
    if r.verb == "" || r.version == "" then BAD_REQUEST
    else if r.verb != "GET" && r.verb != "POST" && r.verb != "DELETE" then METHOD_NOT_ALLOWED
    else if r.version != "HTTP/1.1" then VERSION_NOT_SUPPORTED
    else r.status
  }

  function HeadersStatus(r: RequestData): int {
    if "Content-Type" in r.headers && Contains(r.headers["Content-Type"], "multipart/form") then TEAPOT
    else if "Host" !in r.headers then BAD_REQUEST
    else if "Expect" in r.headers && r.headers["Expect"] != "100-continue" then EXPECTATION_FAILED
    else r.status
  }

  /** The type is compared as a whole: the slash is looked up in a string that is still empty. */
  function FileTypeStatus(r: RequestData): int {
    if "Content-Type" in r.headers
        && (r.headers["Content-Type"] == "video" || r.headers["Content-Type"] == "multipart") then TEAPOT
    else r.status
  }

  function Checked(r: RequestData): RequestData {
    var a := if r.status == OK then r.(status := StatusLineStatus(r)) else r;
    var b := if a.status == OK then a.(status := HeadersStatus(a)) else a;
    if b.status == OK then b.(status := FileTypeStatus(b)) else b
  }

  function Parse(r: RequestData, uninitialised: int): Outcome {
    match WithStartLine(r)
    case Parsed(started) =>
      (match WithDecodedBody(WithHeaders(started), uninitialised)
       case Parsed(whole) => Parsed(Checked(whole).(raw := ""))
       case other => other)
    case other => other
  }
}
