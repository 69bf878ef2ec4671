/** What parsing a request recovers: the text on the wire against the parsed fields. */
module RequestRoundTrip {
  import opened CppStrings
  import opened Numbers
  import opened RequestSpec
  import Chunked

  // The header loop on arbitrary bytes.

  lemma DropTwice(s: string, k: nat, j: nat)
    requires k + j <= |s|
    ensures s[k..][j..] == s[k + j..]
  {
  }

  /** Whatever the bytes, what the header loop leaves unread is a suffix of them. */
  lemma {:induction false} FieldsLeaveASuffix(raw: string, headers: map<string, string>)
    ensures exists k :: 0 <= k <= |raw| && ReadFields(raw, headers).1 == raw[k..]
    decreases |raw|
  {
    if AtHeader(raw) {
      FieldShrinks(raw);
      var k :| 0 < k <= |raw| && AfterField(raw) == raw[k..];
      var key := Before(raw, ':');
      var value := Before(AfterName(raw), '\r');
      FieldsLeaveASuffix(AfterField(raw), Inserted(headers, key, value));
      var j :| 0 <= j <= |raw[k..]| && ReadFields(AfterField(raw), Inserted(headers, key, value)).1 == raw[k..][j..];
      DropTwice(raw, k, j);
    } else {
      assert raw == raw[0..];
    }
  }

  lemma SuffixOfSuffix(raw: string, k: nat)
    requires k <= |raw|
    ensures exists j :: 0 <= j <= |raw| && Erased(raw[k..], 2) == raw[j..]
    ensures exists j :: 0 <= j <= |raw| && "" == raw[j..]
  {
    var n := if |raw| - k < 2 then |raw| else k + 2;
    assert Erased(raw[k..], 2) == raw[n..];
    assert "" == raw[|raw|..];
  }

  /** The body of any request is a suffix of the bytes behind its start line. */
  lemma BodyIsASuffix(r: RequestData)
    requires r.body == ""
    ensures exists k :: 0 <= k <= |r.raw| && WithHeaders(r).body == r.raw[k..]
  {
    FieldsLeaveASuffix(r.raw, r.headers);
    var rest := ReadFields(r.raw, r.headers).1;
    HeadersFrame(r, ReadFields(r.raw, r.headers));
    var k :| 0 <= k <= |r.raw| && rest == r.raw[k..];
    SuffixOfSuffix(r.raw, k);
  }

  // The URL.

  /** No slash stands between the dot and the end of the file name. */
  lemma NoSlashAfterDot(t: string)
    requires Count(t, '.') > 0
    ensures Find(t, '.') != NPOS && t[Find(t, '.')] == '.'
    ensures forall i :: Find(t, '.') <= i < FileEnd(t) ==> t[i] != '/'
  {
    CountZero(t, '.');
    FindMeaning(t, '.');
    var dot := Find(t, '.');
    FindMeaning(t[dot..], '/');
    forall i | dot <= i < FileEnd(t)
      ensures t[i] != '/'
    {
      assert t[dot..][i - dot] == t[i];
      if Find(t[dot..], '/') != NPOS {
        assert t[dot..][..Find(t[dot..], '/')][i - dot] == t[i];
      }
    }
  }

  /** The file name keeps the dot, has no slash and continues the directory. */
  lemma SlashIsInFront(t: string, cut: nat, dot: nat, end: nat)
    requires cut <= end <= |t| && (cut > 0 ==> t[cut - 1] == '/')
    requires forall i :: dot <= i < end ==> t[i] != '/'
    ensures cut <= dot
  {
  }

  lemma FileOfTarget(t: string)
    requires Count(t, '.') == 1
    ensures var (directory, file) := FileOf(t);
            && directory + file + t[FileEnd(t)..] == t
            && Count(file, '.') == 1 && '/' !in file
  {
    var end := FileEnd(t);
    var whole := t[..end];
    var cut := FindLastOf(whole, '/') + 1;
    var dot := Find(t, '.');
    NoSlashAfterDot(t);
    FindLastOfMeaning(whole, '/');
    SlashIsInFront(t, cut, dot, end);
    OneDotInTheMiddle(t, cut, dot, end);
  }

  lemma OneDotInTheMiddle(t: string, cut: nat, dot: nat, end: nat)
    requires Count(t, '.') == 1 && cut <= dot < end <= |t| && t[dot] == '.'
    ensures t[..end][..cut] + t[..end][cut..] + t[end..] == t
    ensures Count(t[..end][cut..], '.') == 1
  {
    var directory, file := t[..end][..cut], t[..end][cut..];
    assert t == directory + file + t[end..];
    CountConcat(directory + file, t[end..], '.');
    CountConcat(directory, file, '.');
    assert file[dot - cut] == '.';
    CountZero(file, '.');
  }

  /** A filename names one file: it has exactly one dot, so looking up its extension stays
      in range, and no slash. It is empty exactly when the path does not have one dot. */
  lemma FilenameHasOneDot(r: RequestData)
    requires r.filename == ""
    ensures var f := WithFilename(r).filename;
            && (f == "" <==> Count(r.target, '.') != 1)
            && (f != "" ==> Count(f, '.') == 1 && Find(f, '.') != NPOS && '/' !in f)
  {
    if Count(r.target, '.') == 1 {
      FileOfTarget(r.target);
      var f := FileOf(r.target).1;
      CountZero(f, '.');
      FindMeaning(f, '.');
    }
  }

  lemma PiecesOfTarget(r: RequestData)
    requires r.filename == "" && r.cgiPath == ""
    ensures WithFilename(r).target + WithFilename(r).filename + WithFilename(r).cgiPath == r.target
    ensures WithFilename(r).query == r.query
  {
    if Count(r.target, '.') == 1 {
      FileOfTarget(r.target);
    } else {
      assert r.target + "" + "" == r.target;
    }
  }

  /** The part of a URL behind its path. */
  function Asked(url: string, query: string): string {
    if '?' in url then "?" + query else ""
  }

  /** The pieces of a URL in order: target, file, CGI path and query. */
  function UrlPieces(r: RequestData, url: string): string {
    r.target + r.filename + r.cgiPath + Asked(url, r.query)
  }

  /** The target "/" a request keeps when its URL has no path. */
  function DefaultPath(url: string): string {
    if url == "" || url[0] == '?' then "/" else ""
  }

  lemma PathWithoutQuery(r: RequestData, url: string)
    requires r.target == "/" && r.query == "" && '?' !in url
    ensures WithQuery(r, url).target + Asked(url, WithQuery(r, url).query) == DefaultPath(url) + url
  {
    FindMeaning(url, '?');
    assert url + "" == url && "" + url == url;
  }

  lemma PathWithQuery(r: RequestData, url: string)
    requires r.target == "/" && r.query == "" && '?' in url
    ensures WithQuery(r, url).target + Asked(url, WithQuery(r, url).query) == DefaultPath(url) + url
  {
    FindMeaning(url, '?');
    SplitAt(url, '?');
    var path, asked := Before(url, '?'), Past(url, '?');
    assert url == path + ("?" + asked);
    assert path == "" ==> url[0] == '?';
  }

  lemma PathAndQuery(r: RequestData, url: string)
    requires r.target == "/" && r.query == ""
    ensures WithQuery(r, url).target + Asked(url, WithQuery(r, url).query) == DefaultPath(url) + url
  {
    if '?' in url {
      PathWithQuery(r, url);
    } else {
      PathWithoutQuery(r, url);
    }
  }

  /** Splitting a URL loses nothing: the pieces in order are the URL, with the default
      target "/" standing in for an empty path. */
  lemma UrlConserved(r: RequestData, url: string)
    requires r.target == "/" && r.filename == "" && r.cgiPath == "" && r.query == ""
    ensures UrlPieces(WithUrl(r, url), url) == DefaultPath(url) + url
  {
    PathAndQuery(r, url);
    PiecesOfTarget(WithQuery(r, url));
  }

  /** A URL that starts with a slash leaves a target that does. */
  lemma TargetStartsWithSlash(r: RequestData, url: string)
    requires r.target == "/" && (url == "" || url[0] == '/')
    ensures WithUrl(r, url).target != "" && WithUrl(r, url).target[0] == '/'
  {
    var t := WithQuery(r, url).target;
    assert t != "" && t[0] == '/' by {
      FindMeaning(url, '?');
    }
    if Count(t, '.') == 1 {
      var file := t[..FileEnd(t)];
      FindLastOfMeaning(file, '/');
      assert file[0] == '/';
    }
  }

  // The whole request.

  datatype Field = Field(name: string, value: string)

  /** A request as a client writes it. */
  datatype WireRequest = WireRequest(verb: string, gap1: nat, url: string, gap2: nat, version: string,
      fields: seq<Field>, body: string)

  ghost predicate WellFormedField(f: Field) {
    && ':' !in f.name && (f.name != "" ==> f.name[0] != '\r')
    && '\r' !in f.value && '\n' !in f.value
  }

  ghost predicate WellFormed(w: WireRequest) {
    && ' ' !in w.verb
    && w.url != "" && ' ' !in w.url
    && w.gap1 > 0 && w.gap2 > 0
    && '\r' !in w.version && '\n' !in w.version && (w.version != "" ==> w.version[0] != ' ')
    && forall i :: 0 <= i < |w.fields| ==> WellFormedField(w.fields[i])
  }

  function FieldText(f: Field): string {
    f.name + ": " + f.value + "\r\n"
  }

  function FieldsText(fields: seq<Field>): string {
    if fields == [] then "" else FieldText(fields[0]) + FieldsText(fields[1..])
  }

  function Text(w: WireRequest): string {
    w.verb + Repeat(' ', w.gap1) + (w.url + Repeat(' ', w.gap2)
        + (w.version + "\r\n" + (FieldsText(w.fields) + ("\r\n" + w.body))))
  }

  /** `headers` holds exactly the names of `fields`, each with the value of its first occurrence. */
  ghost predicate FirstOccurrences(fields: seq<Field>, headers: map<string, string>) {
    && (forall i :: 0 <= i < |fields| ==> fields[i].name in headers)
    && (forall name :: name in headers ==> exists i :: IsFirst(fields, name, i) && headers[name] == fields[i].value)
  }

  ghost predicate IsFirst(fields: seq<Field>, name: string, i: int) {
    0 <= i < |fields| && fields[i].name == name && forall j :: 0 <= j < i ==> fields[j].name != name
  }

  function InsertAll(headers: map<string, string>, fields: seq<Field>): map<string, string>
    decreases |fields|
  {
    if fields == [] then headers else InsertAll(Inserted(headers, fields[0].name, fields[0].value), fields[1..])
  }

  lemma TokenThenGap(token: string, gap: nat, rest: string)
    requires ' ' !in token && gap > 0 && rest != "" && rest[0] != ' '
    ensures Token(token + Repeat(' ', gap) + rest) == token
    ensures AfterToken(token + Repeat(' ', gap) + rest) == rest
  {
    var more := Repeat(' ', gap - 1) + rest;
    assert token + Repeat(' ', gap) + rest == token + [' '] + more;
    CutAt(token, ' ', more);
    TrimRun(' ', gap - 1, rest);
  }

  /** One header line is read as its name and value. */
  lemma ReadOneField(f: Field, rest: string, headers: map<string, string>)
    requires WellFormedField(f)
    ensures ReadFields(FieldText(f) + rest, headers) == ReadFields(rest, Inserted(headers, f.name, f.value))
  {
    var raw := FieldText(f) + rest;
    var afterColon := " " + f.value + "\r\n" + rest;
    assert raw == f.name + [':'] + afterColon;
    assert AtHeader(raw) by { assert f.name != "" ==> raw[0] == f.name[0]; assert f.name == "" ==> raw[0] == ':'; }
    CutAt(f.name, ':', afterColon);
    FindAfter(f.name, ':', afterColon);
    var afterName := f.value + "\r\n" + rest;
    assert AfterName(raw) == afterName;
    CutLine(f.value, rest);
  }

  lemma {:induction false} ReadAllFields(fields: seq<Field>, rest: string, headers: map<string, string>)
    requires forall i :: 0 <= i < |fields| ==> WellFormedField(fields[i])
    requires !AtHeader(rest)
    ensures ReadFields(FieldsText(fields) + rest, headers) == (InsertAll(headers, fields), rest)
  {
    if fields == [] {
      assert FieldsText(fields) + rest == rest;
    } else {
      var tail := FieldsText(fields[1..]) + rest;
      assert FieldsText(fields) + rest == FieldText(fields[0]) + tail;
      ReadOneField(fields[0], tail, headers);
      ReadAllFields(fields[1..], rest, Inserted(headers, fields[0].name, fields[0].value));
    }
  }

  lemma {:induction false} InsertAllKeepsFirst(headers: map<string, string>, fields: seq<Field>)
    ensures forall name ::
        name in headers ==> name in InsertAll(headers, fields) && InsertAll(headers, fields)[name] == headers[name]
    ensures forall i :: 0 <= i < |fields| ==> fields[i].name in InsertAll(headers, fields)
    ensures forall name :: name in InsertAll(headers, fields) && name !in headers ==>
              exists i :: IsFirst(fields, name, i) && InsertAll(headers, fields)[name] == fields[i].value
    decreases |fields|
  {
    if fields != [] {
      var f, more := fields[0], fields[1..];
      var inserted := Inserted(headers, f.name, f.value);
      InsertAllKeepsFirst(inserted, more);
      assert InsertAll(headers, fields) == InsertAll(inserted, more);
      assert forall i :: 0 < i < |fields| ==> fields[i] == more[i - 1];
      forall name | name in InsertAll(headers, fields) && name !in headers
        ensures exists i :: IsFirst(fields, name, i) && InsertAll(headers, fields)[name] == fields[i].value
      {
        if name == f.name {
          assert IsFirst(fields, name, 0);
        } else {
          var i :| IsFirst(more, name, i) && InsertAll(inserted, more)[name] == more[i].value;
          assert IsFirst(fields, name, i + 1);
        }
      }
    }
  }

  /** Where the start line of a well-formed request is cut. */
  lemma UrlIsWritten(w: WireRequest)
    requires WellFormed(w)
    ensures var raw := Text(w);
            && Token(raw) == w.verb && Token(AfterToken(raw)) == w.url
            && AfterToken(AfterToken(raw)) == w.version + "\r\n" + (FieldsText(w.fields) + ("\r\n" + w.body))
  {
    var rest := FieldsText(w.fields) + ("\r\n" + w.body);
    var line := w.version + "\r\n" + rest;
    var urlOn := w.url + Repeat(' ', w.gap2) + line;
    assert Text(w) == w.verb + Repeat(' ', w.gap1) + urlOn
        by { assert line == w.version + "\r\n" + (FieldsText(w.fields) + ("\r\n" + w.body)); }
    assert line != "" && line[0] != ' ';
    assert urlOn[0] == w.url[0];
    TokenThenGap(w.verb, w.gap1, urlOn);
    TokenThenGap(w.url, w.gap2, line);
  }

  /** The start line is split into its three parts, whatever spaces separate them. */
  lemma StartLineRecovered(w: WireRequest)
    requires WellFormed(w)
    ensures var rest := FieldsText(w.fields) + ("\r\n" + w.body);
            WithStartLine(Unparsed(Text(w)))
            == Parsed(WithUrl(Unparsed(Text(w)).(verb := w.verb, version := w.version, raw := rest),
                WithoutSlash(w.url)))
  {
    UrlIsWritten(w);
    CutLine(w.version, FieldsText(w.fields) + ("\r\n" + w.body));
  }

  ghost predicate SameUrl(a: RequestData, b: RequestData) {
    a.target == b.target && a.filename == b.filename && a.cgiPath == b.cgiPath && a.query == b.query
  }

  lemma HostFrame(r: RequestData)
    ensures WithHost(r).headers == r.headers && WithHost(r).raw == r.raw && WithHost(r).body == r.body
    ensures WithHost(r).verb == r.verb && WithHost(r).version == r.version && SameUrl(WithHost(r), r)
  {
  }

  lemma HeadersFrame(r: RequestData, read: (map<string, string>, string))
    requires read == ReadFields(r.raw, r.headers)
    ensures WithHeaders(r).headers == read.0
    ensures WithHeaders(r).body == (if read.1 == "" then r.body else Erased(read.1, 2))
    ensures WithHeaders(r).verb == r.verb && WithHeaders(r).version == r.version && SameUrl(WithHeaders(r), r)
  {
    HostFrame(r.(headers := read.0, raw := read.1));
  }

  lemma HeadersAndBodyRecovered(r: RequestData, fields: seq<Field>, body: string)
    requires r.headers == map[] && r.raw == FieldsText(fields) + ("\r\n" + body)
    requires forall i :: 0 <= i < |fields| ==> WellFormedField(fields[i])
    ensures WithHeaders(r).headers == InsertAll(map[], fields)
    ensures WithHeaders(r).body == body
    ensures WithHeaders(r).verb == r.verb && WithHeaders(r).version == r.version && SameUrl(WithHeaders(r), r)
  {
    var rest := "\r\n" + body;
    ReadAllFields(fields, rest, map[]);
    HeadersFrame(r, (InsertAll(map[], fields), rest));
    assert Erased(rest, 2) == body;
  }

  /** Splitting the URL touches neither the other parts of the request nor what is unread. */
  lemma UrlFrame(r: RequestData, url: string)
    ensures var s := WithUrl(r, url);
            && s.verb == r.verb && s.version == r.version && s.raw == r.raw && s.headers == r.headers
                && s.body == r.body
  {
    var q := WithQuery(r, url);
    assert q.verb == r.verb && q.version == r.version && q.raw == r.raw && q.headers == r.headers && q.body == r.body;
  }

  lemma CheckedFrame(r: RequestData)
    ensures Checked(r) == r.(status := Checked(r).status)
  {
  }

  lemma ParseStages(r: RequestData, uninitialised: int)
    requires WithStartLine(r).Parsed?
    ensures var s := WithHeaders(WithStartLine(r).request);
            && Parse(r, uninitialised).Parsed? == WithDecodedBody(s, uninitialised).Parsed?
            && Parse(r, uninitialised).Spins? == WithDecodedBody(s, uninitialised).Spins?
            && (Parse(r, uninitialised).Parsed? ==>
                 var q := Parse(r, uninitialised).request;
                 && q.verb == s.verb && q.version == s.version && q.headers == s.headers && SameUrl(q, s)
                 && q.body == WithDecodedBody(s, uninitialised).request.body)
  {
    var s := WithHeaders(WithStartLine(r).request);
    if WithDecodedBody(s, uninitialised).Parsed? {
      CheckedFrame(WithDecodedBody(s, uninitialised).request);
    }
  }

  /** Parsing what a client wrote recovers the method, the URL less one trailing slash, the
      version, the header fields with the first value of each name, and the body byte for
      byte, decoded when it is flagged as chunked. */
  lemma WholeRequestRoundTrip(w: WireRequest, uninitialised: int)
    requires WellFormed(w)
    ensures var outcome := Parse(Unparsed(Text(w)), uninitialised);
            var headers := InsertAll(map[], w.fields);
            && FirstOccurrences(w.fields, headers)
            && !outcome.OutOfRange?
            && (outcome.Spins? <==> IsChunked(headers) && Chunked.Decode(w.body, uninitialised).Spins?)
            && (outcome.Parsed? ==>
                 && outcome.request.verb == w.verb && outcome.request.version == w.version
                 && outcome.request.headers == headers
                 && UrlPieces(outcome.request, WithoutSlash(w.url))
                     == DefaultPath(WithoutSlash(w.url)) + WithoutSlash(w.url)
                 && (if IsChunked(headers) then Chunked.Decode(w.body, uninitialised)
                     == Chunked.Decoded(outcome.request.body)
                     else outcome.request.body == w.body))
  {
    var r := Unparsed(Text(w)).(verb := w.verb, version := w.version, raw := FieldsText(w.fields) + ("\r\n" + w.body));
    StartLineRecovered(w);
    UrlFrame(r, WithoutSlash(w.url));
    HeadersAndBodyRecovered(WithUrl(r, WithoutSlash(w.url)), w.fields, w.body);
    ParseStages(Unparsed(Text(w)), uninitialised);
    InsertAllKeepsFirst(map[], w.fields);
    UrlConserved(r, WithoutSlash(w.url));
  }

  /** A body is taken for chunked exactly when the first field of that name says so. */
  lemma FlaggedExactly(fields: seq<Field>)
    ensures IsChunked(InsertAll(map[], fields))
        <==> exists i :: IsFirst(fields, "Content-Encoding", i) && fields[i].value == "chunked"
  {
    InsertAllKeepsFirst(map[], fields);
    if i :| IsFirst(fields, "Content-Encoding", i) && fields[i].value == "chunked" {
      assert "Content-Encoding" in InsertAll(map[], fields);
      var j :| IsFirst(fields, "Content-Encoding", j)
          && InsertAll(map[], fields)["Content-Encoding"] == fields[j].value;
      assert i == j;
    }
  }

  /** A flagged request that carries a chunked body delivers exactly the chunks' data. */
  lemma ChunkedRequestRoundTrip(w: WireRequest, chunks: seq<Chunked.Chunk>, zeros: string, extension: string,
      trailer: string, uninitialised: int)
    requires WellFormed(w) && IsChunked(InsertAll(map[], w.fields)) && Chunked.WellFormed(chunks)
    requires zeros != "" && AllDigits(zeros, 16) && Value(zeros, 16) == 0 && Chunked.WellFormedExtension(extension)
    requires w.body == Chunked.EncodeChunks(chunks) + (zeros + extension + "\r\n" + trailer)
    ensures var outcome := Parse(Unparsed(Text(w)), uninitialised);
            outcome.Parsed? && outcome.request.body == Chunked.Payload(chunks)
  {
    Chunked.ChunkedRoundTrip(chunks, zeros, extension, trailer, uninitialised);
    WholeRequestRoundTrip(w, uninitialised);
  }

  /** The same from the data alone: whatever a client sends in chunks of hexadecimal sizes. */
  lemma SentDataRoundTrip(w: WireRequest, parts: seq<Chunked.Part>, uninitialised: int)
    requires WellFormed(w) && IsChunked(InsertAll(map[], w.fields))
    requires Chunked.Sendable(parts) && w.body == Chunked.Encoded(parts)
    ensures var outcome := Parse(Unparsed(Text(w)), uninitialised);
            outcome.Parsed? && outcome.request.body == Chunked.AllData(parts)
  {
    Chunked.EncodedDataRoundTrip(parts, uninitialised);
    WholeRequestRoundTrip(w, uninitialised);
  }

  /** A flagged request whose chunked body is cut off keeps the parser from returning exactly
      when something of the body, but nothing of its zero chunk, has been received. */
  lemma TruncatedRequestSpinsExactly(w: WireRequest, chunks: seq<Chunked.Chunk>, zeros: string, extension: string,
      trailer: string, n: nat, uninitialised: int)
    requires WellFormed(w) && IsChunked(InsertAll(map[], w.fields))
    requires forall i :: 0 <= i < |chunks| ==> Chunked.Plain(chunks[i])
    requires zeros != "" && AllDigits(zeros, 16) && Value(zeros, 16) == 0 && Chunked.WellFormedExtension(extension)
    requires n <= |Chunked.EncodeChunks(chunks) + (zeros + extension + "\r\n" + trailer)|
    requires w.body == (Chunked.EncodeChunks(chunks) + (zeros + extension + "\r\n" + trailer))[..n]
    ensures Parse(Unparsed(Text(w)), uninitialised).Spins? <==> 0 < n <= |Chunked.EncodeChunks(chunks)|
  {
    Chunked.TruncationSpinsExactly(chunks, zeros, extension, trailer, n, uninitialised);
    WholeRequestRoundTrip(w, uninitialised);
  }

  // The status parsing leaves.

  /** The path of a URL, the default one when it is empty. */
  function PathOf(url: string): string {
    if Before(url, '?') == "" then "/" else Before(url, '?')
  }

  /** The path of a request that has not been parsed. */
  function RawPath(r: RequestData): string
    requires WithStartLine(r).Parsed?
  {
    PathOf(WithoutSlash(Token(AfterToken(r.raw))))
  }

  ghost predicate AcceptedFields(verb: string, version: string, headers: map<string, string>) {
    && "Host" in headers
    && verb in {"GET", "POST", "DELETE"}
    && version == "HTTP/1.1"
    && ("Expect" in headers ==> headers["Expect"] == "100-continue")
    && ("Content-Type" in headers ==>
         && !Contains(headers["Content-Type"], "multipart/form")
         && headers["Content-Type"] != "video" && headers["Content-Type"] != "multipart")
  }

  /** Exactly the requests that parsing leaves at status 200. */
  lemma AcceptedRequests(r: RequestData, uninitialised: int)
    requires r.status == OK && r.target == "/" && Parse(r, uninitialised).Parsed?
    ensures var q := Parse(r, uninitialised).request;
            q.status == OK <==> Count(RawPath(r), '.') <= 1 && AcceptedFields(q.verb, q.version, q.headers)
  {
    var started := WithStartLine(r).request;
    var headed := WithHeaders(started);
    var whole := WithDecodedBody(headed, uninitialised).request;
    StatusAfterUrl(r);
    StatusAfterHeaders(started);
    CheckedFrame(whole);
    CheckedAccepts(whole);
  }

  /** Exactly the requests that parsing leaves at status 400. */
  lemma RefusedRequests(r: RequestData, uninitialised: int)
    requires r.status == OK && r.target == "/" && Parse(r, uninitialised).Parsed?
    ensures var q := Parse(r, uninitialised).request;
            q.status == BAD_REQUEST <==>
              Count(RawPath(r), '.') > 1 || "Host" !in q.headers || q.verb == "" || q.version == ""
  {
    var started := WithStartLine(r).request;
    var headed := WithHeaders(started);
    var whole := WithDecodedBody(headed, uninitialised).request;
    StatusAfterUrl(r);
    BadAfterHeaders(started);
    CheckedFrame(whole);
    CheckedRefuses(whole);
  }

  lemma BadAfterHeaders(r: RequestData)
    requires r.status in {OK, BAD_REQUEST}
    ensures WithHeaders(r).status == if "Host" in WithHeaders(r).headers then r.status else BAD_REQUEST
  {
    var read := ReadFields(r.raw, r.headers);
    HostFrame(r.(headers := read.0, raw := read.1));
    assert WithHeaders(r).headers == read.0;
  }

  lemma CheckedRefuses(r: RequestData)
    requires r.status in {OK, BAD_REQUEST} && (r.status == OK ==> "Host" in r.headers)
    ensures Checked(r).status == BAD_REQUEST <==> r.status == BAD_REQUEST || r.verb == "" || r.version == ""
  {
  }

  lemma StatusAfterUrl(r: RequestData)
    requires r.status == OK && WithStartLine(r).Parsed?
    requires r.target == "/"
    ensures WithStartLine(r).request.status == if Count(RawPath(r), '.') <= 1 then OK else BAD_REQUEST
  {
  }

  lemma StatusAfterHeaders(r: RequestData)
    ensures WithHeaders(r).status == OK <==> (if "Host" in WithHeaders(r).headers then r.status == OK else false)
  {
    var read := ReadFields(r.raw, r.headers);
    HostFrame(r.(headers := read.0, raw := read.1));
    assert WithHeaders(r).headers == read.0;
  }

  lemma CheckedAccepts(r: RequestData)
    ensures Checked(r).status == OK <==> r.status == OK && AcceptedFields(r.verb, r.version, r.headers)
  {
  }

  lemma ContainsMeaning(s: string, part: string)
    ensures Contains(s, part) <==> exists before, behind :: s == before + part + behind
  {
    if i :| 0 <= i <= |s| && OccursAt(s, part, i) {
      assert s == s[..i] + part + s[i + |part|..];
    }
    if before, behind :| s == before + part + behind {
      assert OccursAt(s, part, |before|);
    }
  }

  /** The status that parsing leaves, by the number of dots in the path, the method, the version
      and the header fields. */
  function StatusFor(dots: nat, verb: string, version: string, headers: map<string, string>): int {
    if dots > 1 || "Host" !in headers || verb == "" || version == "" then 400
    else if verb !in {"GET", "POST", "DELETE"} then 405
    else if version != "HTTP/1.1" then 505
    else if "Content-Type" in headers && Contains(headers["Content-Type"], "multipart/form") then 418
    else if "Expect" in headers && headers["Expect"] != "100-continue" then 417
    else if "Content-Type" in headers && headers["Content-Type"] in {"video", "multipart"} then 418
    else 200
  }

  lemma CheckedStatusFor(r: RequestData)
    requires r.status in {OK, BAD_REQUEST} && (r.status == OK ==> "Host" in r.headers)
    ensures Checked(r).status == if r.status == OK then StatusFor(0, r.verb, r.version, r.headers) else BAD_REQUEST
  {
  }

  /** Exactly which status parsing leaves, for every request. */
  lemma StatusesExactly(r: RequestData, uninitialised: int)
    requires r.status == OK && r.target == "/" && Parse(r, uninitialised).Parsed?
    ensures var q := Parse(r, uninitialised).request;
            q.status == StatusFor(Count(RawPath(r), '.'), q.verb, q.version, q.headers)
  {
    var started := WithStartLine(r).request;
    var whole := WithDecodedBody(WithHeaders(started), uninitialised).request;
    StatusAfterUrl(r);
    BadAfterHeaders(started);
    CheckedFrame(whole);
    CheckedStatusFor(whole);
  }

  // Malformed header lines.

  /** Where no colon is left, the rest of the text is the name of a field, and its value and
      what follows are read behind its first byte. */
  lemma FieldWithoutColon(raw: string, headers: map<string, string>)
    requires AtHeader(raw) && ':' !in raw
    ensures ReadFields(raw, headers)
         == ReadFields(Past(raw[1..], '\n'), Inserted(headers, raw, Before(raw[1..], '\r')))
  {
    FindMeaning(raw, ':');
    FieldShrinks(raw);
  }

  // The port of the host.

  lemma HostPort(r: RequestData, name: string, port: nat, rest: string)
    requires "Host" in r.headers && r.headers["Host"] == name + ":" + (Decimal(port) + rest)
    requires ':' !in name && port <= INT_MAX && (rest == "" || !IsDigit(rest[0], 10))
    ensures WithHost(r) == r.(port := port)
  {
    FindAfter(name, ':', Decimal(port) + rest);
    var host := r.headers["Host"];
    assert host[|name| + 1..] == Decimal(port) + rest;
    ReadsDecimal("", "", port, rest);
    assert "" + ("" + (Decimal(port) + rest)) == Decimal(port) + rest;
  }

  /** A Host without a colon leaves the port as it was, and no Host is status 400. */
  lemma HostWithoutPort(r: RequestData)
    requires "Host" in r.headers ==> ':' !in r.headers["Host"]
    ensures WithHost(r) == if "Host" in r.headers then r else r.(status := BAD_REQUEST)
  {
    if "Host" in r.headers {
      FindMeaning(r.headers["Host"], ':');
    }
  }

  // The parts of a URL.

  /** One slash at the end of a URL is dropped, and nothing else. */
  lemma TrailingSlash(base: string)
    ensures WithoutSlash(base + "/") == base
    ensures base != "" && base[|base| - 1] != '/' ==> WithoutSlash(base) == base
  {
  }

  /** A path that names a file: a directory, a file with one dot, and what is behind it. */
  ghost predicate IsFilePath(directory: string, file: string, behind: string) {
    && '.' !in directory && (directory != "" ==> directory[|directory| - 1] == '/')
    && Count(file, '.') == 1 && '/' !in file
    && '.' !in behind && (behind != "" ==> behind[0] == '/')
  }

  lemma OneDot(directory: string, file: string, behind: string)
    requires IsFilePath(directory, file, behind)
    ensures Count(directory + file + behind, '.') == 1
  {
    CountZero(directory, '.');
    CountZero(behind, '.');
    CountConcat(directory + file, behind, '.');
    CountConcat(directory, file, '.');
  }

  lemma {:induction false} FindBehind(front: string, s: string, c: char)
    requires c !in front && Find(s, c) != NPOS
    ensures Find(front + s, c) == |front| + Find(s, c)
  {
    if front == "" {
      assert front + s == s;
    } else {
      assert (front + s)[1..] == front[1..] + s;
      FindBehind(front[1..], s, c);
    }
  }

  lemma DotInFile(directory: string, file: string, behind: string)
    requires IsFilePath(directory, file, behind)
    ensures var path := directory + file + behind;
            && Count(path, '.') == 1 && Find(path, '.') == |directory| + Find(file, '.')
            && 0 <= Find(file, '.') < |file|
  {
    OneDot(directory, file, behind);
    CountZero(file, '.');
    FindMeaning(file, '.');
    FindInFront(file, behind, '.');
    FindBehind(directory, file + behind, '.');
    Associate(directory, file, behind);
  }

  lemma FindInFront(s: string, rest: string, c: char)
    requires c in s
    ensures Find(s + rest, c) == Find(s, c)
  {
    FindMeaning(s, c);
    var p := Find(s, c);
    assert s + rest == s[..p] + [c] + (s[p + 1..] + rest);
    FindAfter(s[..p], c, s[p + 1..] + rest);
  }

  lemma EndOfFile(directory: string, file: string, behind: string)
    requires IsFilePath(directory, file, behind)
    ensures var path := directory + file + behind; Count(path, '.') > 0 && FileEnd(path) == |directory + file|
  {
    var path := directory + file + behind;
    DotInFile(directory, file, behind);
    var dot := Find(file, '.');
    var tail := path[Find(path, '.')..];
    assert tail == file[dot..] + behind;
    assert '/' !in file[dot..];
    if behind == "" {
      FindMeaning(tail, '/');
    } else {
      assert tail == file[dot..] + ['/'] + behind[1..];
      FindAfter(file[dot..], '/', behind[1..]);
    }
  }

  lemma {:induction false} DirectoryOfFile(directory: string, file: string)
    requires (directory != "" ==> directory[|directory| - 1] == '/') && '/' !in file
    ensures FindLastOf(directory + file, '/') == |directory| - 1
    decreases |file|
  {
    var path := directory + file;
    if file == "" {
      assert path == directory;
    } else {
      assert path[..|path| - 1] == directory + file[..|file| - 1];
      DirectoryOfFile(directory, file[..|file| - 1]);
    }
  }

  /** Such a path, with or without a query behind it, is split into its parts. */
  lemma UrlIsSplit(directory: string, file: string, behind: string, asked: bool, query: string)
    requires IsFilePath(directory, file, behind) && '?' !in directory + file + behind
    ensures var r := WithUrl(Unparsed(""), directory + file + behind + (if asked then "?" + query else ""));
            && r.target == directory && r.filename == file && r.cgiPath == behind
            && r.query == (if asked then query else "") && r.status == OK
  {
    var path := directory + file + behind;
    var url := path + (if asked then "?" + query else "");
    PathOfUrl(path, asked, query);
    DotInFile(directory, file, behind);
    EndOfFile(directory, file, behind);
    DirectoryOfFile(directory, file);
    assert path[..FileEnd(path)] == directory + file && path[FileEnd(path)..] == behind;
    var q := WithQuery(Unparsed(""), url);
    assert path != "" && q.target == path && q.query == (if asked then query else "");
  }

  lemma PathOfUrl(path: string, asked: bool, query: string)
    requires '?' !in path
    ensures var url := path + (if asked then "?" + query else "");
            && Before(url, '?') == path && (Find(url, '?') == NPOS <==> !asked) && (asked ==> Past(url, '?') == query)
  {
    if asked {
      assert path + ("?" + query) == path + ['?'] + query;
      CutAt(path, '?', query);
      FindAfter(path, '?', query);
    } else {
      assert path + "" == path;
      FindMeaning(path, '?');
    }
  }

  /** A path without a dot is the target as a whole, and the default one when it is empty. */
  lemma UrlWithoutFile(path: string, asked: bool, query: string)
    requires '?' !in path && '.' !in path
    ensures var r := WithUrl(Unparsed(""), path + (if asked then "?" + query else ""));
            && r.target == (if path == "" then "/" else path) && r.filename == "" && r.cgiPath == ""
            && r.query == (if asked then query else "") && r.status == OK
  {
    PathOfUrl(path, asked, query);
    CountZero(path, '.');
    CountZero("/", '.');
  }

  // The parsed request, told from what the client wrote.

  lemma UrlOnly(a: RequestData, b: RequestData, url: string)
    requires SameUrl(a, b)
    ensures SameUrl(WithUrl(a, url), WithUrl(b, url))
  {
    assert SameUrl(WithQuery(a, url), WithQuery(b, url));
  }

  /** A request with the URL, the fields and the body that a client wrote. */
  function AsWritten(w: WireRequest, body: string): RequestData
    requires w.url != ""
  {
    WithUrl(Unparsed(""), WithoutSlash(w.url)).(
      verb := w.verb, version := w.version, headers := InsertAll(map[], w.fields), body := body)
  }

  ghost predicate SameRequest(a: RequestData, b: RequestData) {
    SameUrl(a, b) && a.verb == b.verb && a.version == b.version && a.headers == b.headers && a.body == b.body
  }

  ghost predicate AcceptedWire(w: WireRequest)
    requires w.url != ""
  {
    Count(PathOf(WithoutSlash(w.url)), '.') <= 1 && AcceptedFields(w.verb, w.version, InsertAll(map[], w.fields))
  }

  ghost predicate RefusedWire(w: WireRequest)
    requires w.url != ""
  {
    Count(PathOf(WithoutSlash(w.url)), '.') > 1 || "Host" !in InsertAll(map[], w.fields) || w.verb == ""
        || w.version == ""
  }

  lemma PathIsWritten(w: WireRequest)
    requires WellFormed(w)
    ensures WithStartLine(Unparsed(Text(w))).Parsed? && RawPath(Unparsed(Text(w))) == PathOf(WithoutSlash(w.url))
  {
    UrlIsWritten(w);
  }

  /** What parsing makes of a well-formed request, in terms of what was written. */
  lemma ParsedAsWritten(w: WireRequest, uninitialised: int)
    requires WellFormed(w) && Parse(Unparsed(Text(w)), uninitialised).Parsed?
    ensures var q := Parse(Unparsed(Text(w)), uninitialised).request;
            var headers := InsertAll(map[], w.fields);
            && SameRequest(q, AsWritten(w, q.body))
            && (if IsChunked(headers) then Chunked.Decode(w.body, uninitialised) == Chunked.Decoded(q.body)
                else q.body == w.body)
            && (q.status == OK <==> AcceptedWire(w)) && (q.status == BAD_REQUEST <==> RefusedWire(w))
            && q.status == StatusFor(Count(PathOf(WithoutSlash(w.url)), '.'), w.verb, w.version, headers)
  {
    var r := Unparsed(Text(w)).(verb := w.verb, version := w.version, raw := FieldsText(w.fields) + ("\r\n" + w.body));
    var url := WithoutSlash(w.url);
    StartLineRecovered(w);
    UrlFrame(r, url);
    UrlOnly(r, Unparsed(""), url);
    HeadersAndBodyRecovered(WithUrl(r, url), w.fields, w.body);
    ParseStages(Unparsed(Text(w)), uninitialised);
    PathIsWritten(w);
    AcceptedRequests(Unparsed(Text(w)), uninitialised);
    RefusedRequests(Unparsed(Text(w)), uninitialised);
    StatusesExactly(Unparsed(Text(w)), uninitialised);
  }
  /** The port of a request: what is read behind the colon of its Host, or 80. */
  function PortFor(headers: map<string, string>): int {
    if "Host" in headers && ':' in headers["Host"] then ExtractInt(Past(headers["Host"], ':'), 10).After(80) else 80
  }

  lemma HostIsPort(r: RequestData)
    requires r.port == 80
    ensures WithHost(r).port == PortFor(r.headers)
  {
    if "Host" in r.headers {
      FindMeaning(r.headers["Host"], ':');
    }
  }

  /** It is told from what the client wrote. */
  lemma PortAsWritten(w: WireRequest, uninitialised: int)
    requires WellFormed(w) && Parse(Unparsed(Text(w)), uninitialised).Parsed?
    ensures Parse(Unparsed(Text(w)), uninitialised).request.port == PortFor(InsertAll(map[], w.fields))
  {
    var r := Unparsed(Text(w)).(verb := w.verb, version := w.version, raw := FieldsText(w.fields) + ("\r\n" + w.body));
    var started := WithUrl(r, WithoutSlash(w.url));
    StartLineRecovered(w);
    UrlFrame(r, WithoutSlash(w.url));
    assert started.port == 80;
    ReadAllFields(w.fields, "\r\n" + w.body, map[]);
    var read := ReadFields(started.raw, started.headers);
    HostIsPort(started.(headers := read.0, raw := read.1));
    assert WithHeaders(started).port == PortFor(InsertAll(map[], w.fields));
    CheckedFrame(WithDecodedBody(WithHeaders(started), uninitialised).request);
  }
}
