/** The request object, parsed in place. */
module RequestModel {
  import opened CppStrings
  import opened Numbers
  import opened RequestSpec
  import Chunked

  class Request {
    var verb: string
    var target: string
    var query: string
    var filename: string
    var cgiPath: string
    var version: string
    var headers: map<string, string>
    var body: string
    var port: int
    var status: int
    var raw: string

    ghost function View(): RequestData
      reads this
    {
      RequestData(verb, target, query, filename, cgiPath, version, headers, body, port, status, raw)
    }

    constructor ()
      ensures View() == Unparsed("")
    {
      verb, query, filename, cgiPath, version, body, raw := "", "", "", "", "", "", "";
      target := "/";
      headers := map[];
      port, status := 80, OK;
    }

    method AppendRequestData(data: string)
      modifies this`raw
      ensures View() == old(View()).(raw := old(raw) + data)
    {
      raw := raw + data;
    }

    method ParseFilenamesAndCgi()
      modifies this
      ensures View() == WithFilename(old(View()))
    {
      if Count(target, '.') > 1 {
        status := BAD_REQUEST;
      } else if Count(target, '.') == 1 {
        CutFile();
        if target != "" {
          cgiPath := target;
        }
        SplitDirectory();
      }
    }

    /** Parting the file, directory included, from what follows it. */
    method CutFile()
      requires Count(target, '.') == 1
      modifies this`target, this`filename
      ensures filename == old(target)[..FileEnd(old(target))] && target == old(target)[FileEnd(old(target))..]
    {
      var idx := FindFileEnd();
      ErasedIsRest(target, idx);
      filename := target[..idx];
      target := Erased(target, idx);
    }

    /** Parting the file name from its directory. */
    method SplitDirectory()
      modifies this`target, this`filename
      ensures var cut := FindLastOf(old(filename), '/') + 1;
              target == old(filename)[..cut] && filename == old(filename)[cut..]
    {
      var cut := FindLastOf(filename, '/') + 1;
      ErasedIsRest(filename, cut);
      target := filename[..cut];
      filename := Erased(filename, cut);
    }

    /** The index at which the file in the target ends. */
    method FindFileEnd() returns (idx: int)
      requires Count(target, '.') == 1
      ensures idx == FileEnd(target)
    {
      CountZero(target, '.');
      FindMeaning(target, '.');
      idx := Find(target, '.');
      var tmp := target[idx..];
      if Find(tmp, '/') != NPOS {
        idx := idx + Find(tmp, '/');
      } else {
        idx := idx + |tmp|;
      }
    }

    method ParseQuery(url: string)
      modifies this
      ensures View() == WithQuery(old(View()), url)
    {
      var path := url;
      if Find(url, '?') != NPOS {
        query := url[Find(url, '?') + 1..];
        path := url[..Find(url, '?')];
      }
      if path != "" {
        target := path;
      }
    }

    /** Cutting the token up to the next space, and the spaces behind it, off the request. */
    method TakeToken() returns (token: string)
      modifies this`raw
      ensures token == Token(old(raw)) && raw == AfterToken(old(raw))
    {
      token := Before(raw, ' ');
      raw := Past(raw, ' ');
      raw := Trimmed(raw, ' ');
    }

    /** `ok` is false when reading the last character of an empty URL throws. */
    method ParseStartLine() returns (ok: bool)
      modifies this
      ensures ok <==> WithStartLine(old(View())).Parsed?
      ensures ok ==> Parsed(View()) == WithStartLine(old(View()))
    {
      var url := SplitStartLine();
      if url == "" {
        return false;
      }
      if url[|url| - 1] == '/' {
        url := url[..|url| - 1];
      }
      ParseUrl(url);
      return true;
    }

    /** Cutting the start line off the request; an empty URL stops it halfway. */
    method SplitStartLine() returns (url: string)
      modifies this`verb, this`version, this`raw
      ensures url == Token(AfterToken(old(raw)))
      ensures url != "" ==> View() == SplitLine(old(View()))
    {
      verb := TakeToken();
      url := TakeToken();
      if url != "" {
        version := Before(raw, '\r');
        raw := Past(raw, '\n');
      }
    }

    method ParseUrl(url: string)
      modifies this
      ensures View() == WithUrl(old(View()), url)
    {
      ParseQuery(url);
      ParseFilenamesAndCgi();
    }

    method SetHost()
      modifies this`status, this`port
      ensures View() == WithHost(old(View()))
    {
      if "Host" !in headers {
        status := BAD_REQUEST;
      } else {
        var host := headers["Host"];
        if Find(host, ':') != NPOS {
          port := ExtractInt(host[Find(host, ':') + 1..], 10).After(port);
        }
      }
    }

    /** One pass of the header loop. */
    method ReadField()
      requires AtHeader(raw)
      modifies this`raw, this`headers
      ensures raw == AfterField(old(raw))
      ensures headers == Inserted(old(headers), Before(old(raw), ':'), Before(AfterName(old(raw)), '\r'))
    {
      var key := Before(raw, ':');
      raw := Erased(raw, Find(raw, ':') + 2);
      var value := Before(raw, '\r');
      if key !in headers {
        headers := headers[key := value];
      }
      raw := Past(raw, '\n');
    }

    /** The loop erases the front of the request field by field; it ends on every input
        because each pass removes at least one byte. */
    method ParseHeaders()
      modifies this
      ensures View() == WithHeaders(old(View()))
    {
      while raw != "" && raw[0] != '\r'
        invariant ReadFields(raw, headers) == old(ReadFields(raw, headers))
        invariant View() == old(View()).(raw := raw, headers := headers)
        decreases |raw|
      {
        FieldShrinks(raw);
        ReadField();
      }
      SetHost();
      if raw != "" {
        raw := Erased(raw, 2);
        body := raw;
      }
    }

    /** Decodes the body in place. `spins` reports a body on which the original loop never
        ends; the loop here stops as soon as that is certain. */
    method DecodeRequest(uninitialised: int) returns (spins: bool)
      modifies this`body
      ensures match Chunked.Decode(old(body), uninitialised)
              case Decoded(decoded) => !spins && body == decoded
              case Spins => spins
    {
      spins := false;
      if body != "" {
        var newBody := "";
        var size := Chunked.LineSize(body, uninitialised);
        while size > 0
          invariant Chunked.Loop(Chunked.Progress(body, newBody, size)) == Chunked.Decode(old(body), uninitialised)
          decreases |body|
        {
          if body == "" {
            return true;
          }
          Chunked.PassShrinks(Chunked.Progress(body, newBody, size));
          body := Past(body, '\n');
          newBody := newBody + Front(body, size);
          body := Erased(body, size + 1);
          body := Past(body, '\n');
          size := Chunked.LineSize(body, size);
        }
        body := newBody;
      }
    }

    method CheckIfChunkedRequest(uninitialised: int) returns (spins: bool)
      modifies this`body
      ensures spins <==> WithDecodedBody(old(View()), uninitialised).Spins?
      ensures !spins ==> Parsed(View()) == WithDecodedBody(old(View()), uninitialised)
    {
      spins := false;
      if "Content-Encoding" in headers && headers["Content-Encoding"] == "chunked" {
        spins := DecodeRequest(uninitialised);
      }
    }

    method CheckStatusLine()
      modifies this`status
      ensures status == StatusLineStatus(old(View()))
    {
      if verb == "" || version == "" {
        status := BAD_REQUEST;
      } else if verb != "GET" && verb != "POST" && verb != "DELETE" {
        status := METHOD_NOT_ALLOWED;
      } else if version != "HTTP/1.1" {
        status := VERSION_NOT_SUPPORTED;
      }
    }

    method CheckHeaders()
      modifies this`status
      ensures status == HeadersStatus(old(View()))
    {
      if "Host" !in headers {
        status := BAD_REQUEST;
      } else if "Expect" in headers && headers["Expect"] != "100-continue" {
        status := EXPECTATION_FAILED;
      }
      if "Content-Type" in headers {
        if Contains(headers["Content-Type"], "multipart/form") {
          status := TEAPOT;
        }
      }
    }

    method CheckFileType()
      modifies this`status
      ensures status == FileTypeStatus(old(View()))
    {
      if "Content-Type" in headers {
        var kind := "";
        kind := Front(headers["Content-Type"], Find(kind, '/'));
        if kind == "video" || kind == "multipart" {
          status := TEAPOT;
        }
      }
    }

    method ErrorChecking()
      modifies this`status
      ensures View() == Checked(old(View()))
    {
      if status == OK {
        CheckStatusLine();
      }
      if status == OK {
        CheckHeaders();
      }
      if status == OK {
        CheckFileType();
      }
    }

    /** The whole parse; on an exception or an endless loop the object is not looked at again. */
    method ParseRequest(uninitialised: int) returns (outcome: Outcome)
      modifies this
      ensures outcome == RequestSpec.Parse(old(View()), uninitialised)
      ensures outcome.Parsed? ==> outcome.request == View()
    {
      var started := ParseStartLine();
      if !started {
        return OutOfRange;
      }
      ParseHeaders();
      var spins := CheckIfChunkedRequest(uninitialised);
      if spins {
        return RequestSpec.Outcome.Spins;
      }
      ErrorChecking();
      raw := "";
      return Parsed(RequestData(verb, target, query, filename, cgiPath, version, headers, body, port, status, raw));
    }
  }
}
