/** The request mapping of the development static file server (server.js). */
module Server {
  import opened Wrappers
  import opened Text

  /** The extension table (server.js, MIME_TYPES). */
  const MimeTypes: map<string, string> := map[
    ".html" := "text/html",
    ".js" := "text/javascript",
    ".css" := "text/css",
    ".json" := "application/json",
    ".png" := "image/png",
    ".jpg" := "image/jpeg",
    ".gif" := "image/gif",
    ".svg" := "image/svg+xml",
    ".ttf" := "font/ttf",
    ".otf" := "font/otf",
    ".woff" := "font/woff",
    ".woff2" := "font/woff2"
  ]

  const DefaultContentType := "application/octet-stream"

  /** The outcome of fs.readFile: the file's content, or an error with its code. */
  datatype ReadOutcome = Content(body: string) | ReadError(code: string)

  datatype Response = Response(status: nat, headers: seq<(string, string)>, body: string)

  const CorsHeaders: seq<(string, string)> := [
    ("Access-Control-Allow-Origin", "*"),
    ("Access-Control-Allow-Methods", "GET, POST, OPTIONS"),
    ("Access-Control-Allow-Headers", "Content-Type")
  ]

  /** The path part of a request URL: everything before the first '?'. */
  function UrlPath(url: string): (r: string)
    ensures '?' !in r
    ensures StartsWith(url, r)
    ensures |r| == |url| || url[|r|] == '?'
  {
    SplitPiecesFree(url, '?');
    match IndexOf(url, '?')
    case None => Split(url, '?')[0]
    case Some(i) => Split(url, '?')[0]
  }

  /** The file served for a URL path: '.' prepended, and the root mapped to the index page. */
  function FilePath(urlPath: string): (r: string)
    ensures |r| >= 1 && r[0] == '.'
    ensures urlPath == "/" ==> r == "./index.html"
    ensures urlPath != "/" ==> r[1..] == urlPath
  {
    var filePath := "." + urlPath;
    if filePath == "./" then "./index.html" else filePath
  }

  function LastIndexOf(s: string, c: char): (r: Option<nat>)
    ensures r.None? ==> c !in s
    ensures r.Some? ==> r.value < |s| && s[r.value] == c && c !in s[r.value + 1..]
  {
    if |s| == 0 then None
    else if s[|s| - 1] == c then Some(|s| - 1)
    else
      var r := LastIndexOf(s[..|s| - 1], c);
      assert r.Some? ==> s[r.value + 1..] == s[..|s| - 1][r.value + 1..] + [s[|s| - 1]];
      r
  }

  function TrimTrailingSlashes(s: string): (r: string)
    ensures StartsWith(s, r)
    ensures |r| == 0 || r[|r| - 1] != '/'
  {
    if |s| > 0 && s[|s| - 1] == '/' then TrimTrailingSlashes(s[..|s| - 1]) else s
  }

  /** The last segment of a path: the text after its last '/', or all of it. */
  function LastSegment(p: string): (r: string)
    ensures EndsWith(p, r) && '/' !in r
    ensures |r| < |p| ==> p[|p| - |r| - 1] == '/'
  {
    match LastIndexOf(p, '/')
    case None => p
    case Some(k) =>
      assert p[k + 1..] == p[|p| - (|p| - k - 1)..];
      p[k + 1..]
  }

  /**
   * Node's path.extname: with trailing slashes ignored, the text of the last path segment from
   * its last '.', or "" when that segment has no '.', when its only '.' is its first character,
   * or when it is "..".
   */
  function Extname(path: string): (r: string)
    ensures var seg := LastSegment(TrimTrailingSlashes(path));
      && EndsWith(seg, r)
      && (r != "" ==> r[0] == '.' && '.' !in r[1..] && |r| < |seg|)
      && (r == "" <==> '.' !in seg || seg == ".." || (seg[0] == '.' && '.' !in seg[1..]))
  {
    var part := LastSegment(TrimTrailingSlashes(path));
    if part == ".." then ""
    else
      match LastIndexOf(part, '.')
      case None => ""
      case Some(d) =>
        if d == 0 then ""
        else
          assert part[1..][d - 1] == '.';
          assert part[d..] == part[|part| - (|part| - d)..];
          part[d..]
  }

  /** The Content-Type sent for a file path. */
  function ContentType(filePath: string): (r: string)
    ensures Extname(filePath) in MimeTypes ==> r == MimeTypes[Extname(filePath)]
    ensures Extname(filePath) !in MimeTypes ==> r == DefaultContentType
    ensures r in MimeTypes.Values || r == DefaultContentType
  {
    var ext := Extname(filePath);
    if ext in MimeTypes then MimeTypes[ext] else DefaultContentType
  }

  /**
   * The response once the requested file has been read: `outcome` is that read, `contentType`
   * the type for its path and `notFound` the read of "./404.html".
   */
  function Respond(outcome: ReadOutcome, contentType: string, notFound: ReadOutcome): (r: Response)
    ensures |r.headers| >= 3 && r.headers[..3] == CorsHeaders
    ensures match outcome
      case Content(body) =>
        r.status == 200 && r.body == body && r.headers[3..] == [("Content-Type", contentType)]
      case ReadError(code) =>
        if code == "ENOENT" then
          r.status == 404 && r.headers[3..] == [("Content-Type", "text/html")]
          && r.body == (match notFound case Content(page) => page case ReadError(_) => "404: File Not Found")
        else
          r.status == 500 && r.headers[3..] == [] && r.body == "Sorry, there was an error: " + code
  {
    match outcome
    case ReadError(code) =>
      if code == "ENOENT" then
        var page := match notFound case Content(p) => p case ReadError(_) => "404: File Not Found";
        Response(404, CorsHeaders + [("Content-Type", "text/html")], page)
      else
        Response(500, CorsHeaders, "Sorry, there was an error: " + code)
    case Content(body) =>
      Response(200, CorsHeaders + [("Content-Type", contentType)], body)
  }

  /**
   * The response to one request. `readFile` stands for fs.readFile; the not-found page is
   * read from "./404.html".
   */
  function HandleRequest(url: string, readFile: string -> ReadOutcome): (r: Response)
    ensures |r.headers| >= 3 && r.headers[..3] == CorsHeaders
    ensures var fp := FilePath(UrlPath(url));
      match readFile(fp)
      case Content(body) =>
        r.status == 200 && r.body == body && r.headers[3..] == [("Content-Type", ContentType(fp))]
      case ReadError(code) =>
        if code == "ENOENT" then
          r.status == 404 && r.headers[3..] == [("Content-Type", "text/html")]
          && r.body == (match readFile("./404.html") case Content(page) => page case ReadError(_) => "404: File Not Found")
        else
          r.status == 500 && r.headers[3..] == [] && r.body == "Sorry, there was an error: " + code
  {
    var filePath := FilePath(UrlPath(url));
    Respond(readFile(filePath), ContentType(filePath), readFile("./404.html"))
  }

  /** The index page's last segment is its file name. */
  lemma IndexSegment()
    ensures TrimTrailingSlashes("./index.html") == "./index.html"
    ensures LastSegment("./index.html") == "index.html"
  {
    var fp := "./index.html";
    assert fp[|fp| - 1] == 'l';
    assert LastIndexOf(fp, '/') == Some(1);
    assert fp[2..] == "index.html";
  }

  /** The index page has the extension `.html`. */
  lemma IndexExtname()
    ensures Extname("./index.html") == ".html"
  {
    IndexSegment();
    assert LastIndexOf("index.html", '.') == Some(5);
    assert "index.html"[5..] == ".html";
  }

  /** A file with the extension `.html` is sent as HTML. */
  lemma HtmlContentType(filePath: string)
    requires Extname(filePath) == ".html"
    ensures ContentType(filePath) == "text/html"
  {
    HtmlMimeType();
  }

  /** The table maps `.html` to HTML. */
  lemma HtmlMimeType()
    ensures ".html" in MimeTypes && MimeTypes[".html"] == "text/html"
  {
  }

  /** The root URL, with or without a query string, serves the index page as HTML. */
  lemma RootServesIndex(query: string)
    ensures FilePath(UrlPath("/?" + query)) == "./index.html"
    ensures ContentType(FilePath(UrlPath("/?" + query))) == "text/html"
  {
    var url := "/?" + query;
    assert url[1] == '?';
    assert UrlPath(url) == "/";
    IndexExtname();
    HtmlContentType("./index.html");
  }


  /** Query strings never change which file is served. */
  lemma QueryIgnored(path: string, query: string)
    requires '?' !in path
    ensures UrlPath(path + "?" + query) == path
    ensures FilePath(UrlPath(path + "?" + query)) == FilePath(UrlPath(path))
  {
    var url := path + "?" + query;
    var u := UrlPath(url);
    assert url[..|path|] == path;
    assert url[|path|] == '?';
    assert |u| == |path|;
  }
}
