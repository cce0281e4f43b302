/**
 * The SVG serialiser and path extractor (js/svgProcessor.js).
 *
 * Numbers are `real`; JavaScript's number-to-text conversion is the parameter `show` and
 * `parseFloat` is the parameter `parse`. The DOM parse of an uploaded file is abstracted as an
 * `SvgDocument`: the first `<svg>` element's attributes and the `<path>` elements in document
 * order, with `None` for an absent attribute.
 */
module Svg {
  import opened Wrappers
  import opened Text
  import opened PathModel

  datatype SvgRoot = SvgRoot(viewBox: Option<string>, width: Option<string>, height: Option<string>)

  datatype PathElement = PathElement(d: Option<string>, fill: Option<string>, stroke: Option<string>, strokeWidth: Option<string>)

  datatype SvgDocument = SvgDocument(root: Option<SvgRoot>, pathElements: seq<PathElement>)

  const NoSvgElement := "Invalid SVG: No SVG element found"
  const DefaultFill := "#000000"
  const DefaultBounds := Bounds(0.0, 0.0, 100.0, 100.0)

  /** An attribute value JavaScript treats as true: present and not empty. */
  predicate Truthy(a: Option<string>) {
    a.Some? && a.value != ""
  }

  // ---------------------------------------------------------------------------------------------
  // Serialisation

  /** The bounds the serialiser uses: the given ones, or 0,0 to 100,100. */
  function EffectiveBounds(pd: PathData): (b: Bounds)
    ensures pd.bounds.Some? ==> b == pd.bounds.value
    ensures pd.bounds.None? ==> b.x1 == 0.0 && b.y1 == 0.0 && b.x2 == 100.0 && b.y2 == 100.0
  {
    pd.bounds.GetOr(DefaultBounds)
  }

  /** A path carries its own stroke when both its colour and its width are truthy. */
  predicate OwnStroke(p: PathRecord) {
    p.stroke.Some? && p.stroke.value != "" && p.strokeWidth.Some? && p.strokeWidth.value != 0.0
  }

  /**
   * The stroke colour and width written for a path: its own stroke, else the outline stroke when
   * the outline thickness is positive, else none.
   */
  function EffectiveStroke(p: PathRecord, outlineColor: string, outlineThickness: real): (r: Option<(string, real)>)
    ensures r.Some? <==> OwnStroke(p) || outlineThickness > 0.0
    ensures OwnStroke(p) ==> r == Some((p.stroke.value, p.strokeWidth.value))
    ensures !OwnStroke(p) && outlineThickness > 0.0 ==> r == Some((outlineColor, outlineThickness))
  {
    if OwnStroke(p) then Some((p.stroke.value, p.strokeWidth.value))
    else if outlineThickness > 0.0 then Some((outlineColor, outlineThickness))
    else None
  }

  /** The viewBox attribute value of section 7.7 of SVG 1.1: min-x, min-y, width and height. */
  function ViewBox(b: Bounds, show: real -> string): string {
    show(b.x1) + " " + show(b.y1) + " " + show(Width(b)) + " " + show(Height(b))
  }

  const XmlDeclaration := "<?xml version=\"1.0\" encoding=\"UTF-8\" standalone=\"no\"?>"
  const Doctype := "<!DOCTYPE svg PUBLIC \"-//W3C//DTD SVG 1.1//EN\" \"http://www.w3.org/Graphics/SVG/1.1/DTD/svg11.dtd\">"
  const Namespaces := "     xmlns=\"http://www.w3.org/2000/svg\" xmlns:xlink=\"http://www.w3.org/1999/xlink\">"

  /** The `<svg` start tag up to its line break: width, height and viewBox. */
  function SvgStartTag(b: Bounds, show: real -> string): string {
    "<svg width=\"" + show(Width(b)) + "\" height=\"" + show(Height(b)) + "\" viewBox=\"" + ViewBox(b, show) + "\" "
  }

  /** The four lines of the document before the first path element. */
  function HeaderLines(b: Bounds, show: real -> string): seq<string> {
    [XmlDeclaration, Doctype, SvgStartTag(b, show), Namespaces]
  }

  /** The stroke attributes written for a path, each followed by a space; empty for no stroke. */
  function StrokeAttributes(p: PathRecord, outlineColor: string, outlineThickness: real, show: real -> string): string {
    match EffectiveStroke(p, outlineColor, outlineThickness)
    case None => ""
    case Some((color, width)) => "stroke=\"" + color + "\" stroke-width=\"" + show(width) + "\" "
  }

  /** The start of a path element: its `d` and `fill` attributes. */
  function PathOpening(p: PathRecord): string {
    "  <path d=\"" + p.path + "\" fill=\"" + p.fill + "\" "
  }

  /** The one-line `<path .../>` element written for a path record. */
  function PathElementText(p: PathRecord, outlineColor: string, outlineThickness: real, show: real -> string): string {
    PathOpening(p) + StrokeAttributes(p, outlineColor, outlineThickness, show) + "/>"
  }

  /** The four header lines, each terminated by a newline. */
  function Header(b: Bounds, show: real -> string): string {
    XmlDeclaration + "\n" + Doctype + "\n" + SvgStartTag(b, show) + "\n" + Namespaces + "\n"
  }

  /** `prefix` followed by each of `lines` with a newline after it, in order. */
  function AppendLines(prefix: string, lines: seq<string>): string {
    if |lines| == 0 then prefix
    else AppendLines(prefix, lines[..|lines| - 1]) + lines[|lines| - 1] + "\n"
  }

  /** The serialised document: header lines, path lines, and the closing tag. */
  function Document(pd: PathData, outlineColor: string, outlineThickness: real, show: real -> string): string {
    AppendLines(Header(EffectiveBounds(pd), show), PathElements(pd.paths, outlineColor, outlineThickness, show)) + "</svg>"
  }

  /** The lines of the whole document: header, one element per path in order, closing tag. */
  function DocumentLines(pd: PathData, outlineColor: string, outlineThickness: real, show: real -> string): (r: seq<string>)
    ensures |r| == 4 + |pd.paths| + 1
    ensures r[|r| - 1] == "</svg>"
    ensures forall i :: 0 <= i < |pd.paths| ==> r[4 + i] == PathElementText(pd.paths[i], outlineColor, outlineThickness, show)
  {
    var header := HeaderLines(EffectiveBounds(pd), show);
    var elements := PathElements(pd.paths, outlineColor, outlineThickness, show);
    Enclosed(header, elements, "</svg>");
    header + elements + ["</svg>"]
  }

  /** Where the pieces of `header + body + [last]` sit. */
  lemma Enclosed(header: seq<string>, body: seq<string>, last: string)
    ensures |header + body + [last]| == |header| + |body| + 1
    ensures (header + body + [last])[|header| + |body|] == last
    ensures forall i :: 0 <= i < |body| ==> (header + body + [last])[|header| + i] == body[i]
  {
  }

  /** generateSvgString: `None` (null) for missing or empty path data, else the document. */
  method GenerateSvgString(pathData: Option<PathData>, outlineColor: string, outlineThickness: real, show: real -> string)
    returns (r: Option<string>)
    ensures r.None? <==> pathData.None? || |pathData.value.paths| == 0
    ensures r.Some? ==> r.value == Document(pathData.value, outlineColor, outlineThickness, show)
  {
    if pathData.None? || |pathData.value.paths| == 0 {
      return None;
    }
    var paths := pathData.value.paths;
    var bounds := if pathData.value.bounds.Some? then pathData.value.bounds.value else Bounds(0.0, 0.0, 100.0, 100.0);
    assert bounds == EffectiveBounds(pathData.value);
    var svg := OpenDocument(bounds, show);
    svg := AppendPaths(svg, paths, outlineColor, outlineThickness, show);
    svg := svg + "</svg>";
    r := Some(svg);
  }

  /** The `forEach` over the paths: appends one `<path/>` line per path, in order. */
  method AppendPaths(svg: string, paths: seq<PathRecord>, outlineColor: string, outlineThickness: real, show: real -> string)
    returns (s: string)
    ensures s == AppendLines(svg, PathElements(paths, outlineColor, outlineThickness, show))
  {
    s := svg;
    var i := 0;
    while i < |paths|
      invariant 0 <= i <= |paths|
      invariant s == AppendLines(svg, PathElements(paths[..i], outlineColor, outlineThickness, show))
    {
      s := AppendPathElement(s, paths[i], outlineColor, outlineThickness, show);
      AppendLinesStep(svg, paths, i, outlineColor, outlineThickness, show);
      i := i + 1;
    }
    assert paths[..i] == paths;
  }

  /** One more path appends its element line to the document built so far. */
  lemma AppendLinesStep(prefix: string, paths: seq<PathRecord>, i: nat, outlineColor: string, outlineThickness: real,
                        show: real -> string)
    requires i < |paths|
    ensures AppendLines(prefix, PathElements(paths[..i + 1], outlineColor, outlineThickness, show))
      == AppendLines(prefix, PathElements(paths[..i], outlineColor, outlineThickness, show))
         + PathElementText(paths[i], outlineColor, outlineThickness, show) + "\n"
  {
    var done := PathElements(paths[..i], outlineColor, outlineThickness, show);
    var next := PathElements(paths[..i + 1], outlineColor, outlineThickness, show);
    assert next[..|next| - 1] == done;
  }

  /** The document's opening template: the XML declaration, the doctype and the `<svg>` start tag. */
  method OpenDocument(bounds: Bounds, show: real -> string) returns (svg: string)
    ensures svg == Header(bounds, show)
  {
    var width := bounds.x2 - bounds.x1;
    var height := bounds.y2 - bounds.y1;
    svg := XmlDeclaration + "\n" + Doctype + "\n"
      + ("<svg width=\"" + show(width) + "\" height=\"" + show(height) + "\" viewBox=\""
         + (show(bounds.x1) + " " + show(bounds.y1) + " " + show(width) + " " + show(height)) + "\" ")
      + "\n" + Namespaces + "\n";
  }

  /** The body of the per-path callback: appends one `<path/>` line to `svg`. */
  method AppendPathElement(svg: string, p: PathRecord, outlineColor: string, outlineThickness: real, show: real -> string)
    returns (s: string)
    ensures s == svg + PathElementText(p, outlineColor, outlineThickness, show) + "\n"
  {
    s := svg + ("  <path d=\"" + p.path + "\" fill=\"" + p.fill + "\" ");
    if p.stroke.Some? && p.stroke.value != "" && p.strokeWidth.Some? && p.strokeWidth.value != 0.0 {
      s := s + ("stroke=\"" + p.stroke.value + "\" stroke-width=\"" + show(p.strokeWidth.value) + "\" ");
    } else if outlineThickness > 0.0 {
      s := s + ("stroke=\"" + outlineColor + "\" stroke-width=\"" + show(outlineThickness) + "\" ");
    }
    assert s == svg + PathOpening(p) + StrokeAttributes(p, outlineColor, outlineThickness, show);
    s := s + "/>\n";
    assert "/>\n" == "/>" + "\n";
  }

  /** Joining `xs + ys` is joining `xs`, a separator, and joining `ys`. */
  lemma {:induction false} JoinAppend(xs: seq<string>, ys: seq<string>)
    requires |xs| >= 1 && |ys| >= 1
    ensures Join(xs + ys, "\n") == Join(xs, "\n") + "\n" + Join(ys, "\n")
  {
    if |xs| == 1 {
      assert (xs + ys)[1..] == ys;
    } else {
      assert (xs + ys)[1..] == xs[1..] + ys;
      JoinAppend(xs[1..], ys);
    }
  }

  /** The path elements of `paths`, one per record. */
  function PathElements(paths: seq<PathRecord>, outlineColor: string, outlineThickness: real, show: real -> string): (r: seq<string>)
    ensures |r| == |paths|
    ensures forall i :: 0 <= i < |paths| ==> r[i] == PathElementText(paths[i], outlineColor, outlineThickness, show)
  {
    seq(|paths|, i requires 0 <= i < |paths| => PathElementText(paths[i], outlineColor, outlineThickness, show))
  }

  /** Joining four pieces. */
  lemma Join4(a: string, b: string, c: string, d: string, sep: string)
    ensures Join([a, b, c, d], sep) == a + sep + (b + sep + (c + sep + d))
  {
    assert [c, d][1..] == [d];
    assert Join([c, d], sep) == c + sep + d;
    assert [b, c, d][1..] == [c, d];
    assert Join([b, c, d], sep) == b + sep + Join([c, d], sep);
    assert [a, b, c, d][1..] == [b, c, d];
    assert Join([a, b, c, d], sep) == a + sep + Join([b, c, d], sep);
  }

  /** Joining with a last piece that holds a newline is joining with that piece split in two. */
  lemma JoinSplitLast(x: seq<string>, e: string, last: string)
    requires |x| >= 1
    ensures Join(x + [e + "\n" + last], "\n") == Join(x + [e, last], "\n")
  {
    JoinAppend(x, [e + "\n" + last]);
    assert [e, last][1..] == [last];
    assert Join([e, last], "\n") == e + "\n" + last;
    JoinAppend(x, [e, last]);
  }

  /**
   * Lines joined by newlines, with a newline after them, followed by newline-terminated `lines`
   * and then `last`, are all these lines joined by newlines.
   */
  lemma {:induction false} AppendLinesJoin(prefix: seq<string>, lines: seq<string>, last: string)
    requires |prefix| >= 1
    ensures AppendLines(Join(prefix, "\n") + "\n", lines) + last == Join(prefix + lines + [last], "\n")
  {
    var h := Join(prefix, "\n") + "\n";
    if |lines| == 0 {
      assert prefix + lines + [last] == prefix + [last];
      JoinAppend(prefix, [last]);
    } else {
      var init := lines[..|lines| - 1];
      var e := lines[|lines| - 1];
      var rest := AppendLines(h, init);
      AppendLinesJoin(prefix, init, e + "\n" + last);
      assert rest + (e + "\n" + last) == Join(prefix + init + [e + "\n" + last], "\n");
      JoinSplitLast(prefix + init, e, last);
      assert prefix + lines + [last] == prefix + init + [e, last];
    }
  }

  /**
   * The document is its lines joined by newlines: the four header lines, exactly one `<path/>`
   * element per input path in input order, and `</svg>` last.
   */
  lemma DocumentJoinsLines(pd: PathData, outlineColor: string, outlineThickness: real, show: real -> string)
    ensures Document(pd, outlineColor, outlineThickness, show) == Join(DocumentLines(pd, outlineColor, outlineThickness, show), "\n")
  {
    var b := EffectiveBounds(pd);
    var header := HeaderLines(b, show);
    var elements := PathElements(pd.paths, outlineColor, outlineThickness, show);
    HeaderJoin(XmlDeclaration, Doctype, SvgStartTag(b, show), Namespaces);
    assert Header(b, show) == Join(header, "\n") + "\n";
    AppendLinesJoin(header, elements, "</svg>");
    assert Document(pd, outlineColor, outlineThickness, show) == AppendLines(Header(b, show), elements) + "</svg>";
    assert DocumentLines(pd, outlineColor, outlineThickness, show) == header + elements + ["</svg>"];
  }

  /** Four newline-terminated lines are those lines joined by newlines, and a newline. */
  lemma HeaderJoin(a: string, b: string, c: string, d: string)
    ensures a + "\n" + b + "\n" + c + "\n" + d + "\n" == Join([a, b, c, d], "\n") + "\n"
  {
    Join4(a, b, c, d, "\n");
  }

  // ---------------------------------------------------------------------------------------------
  // Extraction

  /** The viewBox values when the attribute is present, not empty, and splits at spaces into exactly four. */
  function ViewBoxValues(root: SvgRoot): (v: Option<seq<string>>)
    ensures v.Some? <==> Truthy(root.viewBox) && |Split(root.viewBox.value, ' ')| == 4
    ensures v.Some? ==> |v.value| == 4 && v.value == Split(root.viewBox.value, ' ')
  {
    if Truthy(root.viewBox) then
      var values := Split(root.viewBox.value, ' ');
      if |values| == 4 then Some(values) else None
    else None
  }

  /** The bounds read from the root element: viewBox when it has four space-separated values, else 0,0 and width/height. */
  function ExtractBounds(root: SvgRoot, parse: string -> real): (b: Bounds)
    ensures ViewBoxValues(root).Some? ==>
              var v := ViewBoxValues(root).value;
              b.x1 == parse(v[0]) && b.y1 == parse(v[1]) && Width(b) == parse(v[2]) && Height(b) == parse(v[3])
    ensures ViewBoxValues(root).None? ==>
              b.x1 == 0.0 && b.y1 == 0.0
              && Width(b) == (if Truthy(root.width) then parse(root.width.value) else 0.0)
              && Height(b) == (if Truthy(root.height) then parse(root.height.value) else 0.0)
  {
    match ViewBoxValues(root)
    case Some(v) => Bounds(parse(v[0]), parse(v[1]), parse(v[0]) + parse(v[2]), parse(v[1]) + parse(v[3]))
    case None =>
      Bounds(0.0, 0.0, if Truthy(root.width) then parse(root.width.value) else 0.0,
             if Truthy(root.height) then parse(root.height.value) else 0.0)
  }

  /** The record built for a path element that has a `d` attribute. */
  function RecordOf(e: PathElement, parse: string -> real): PathRecord
    requires Truthy(e.d)
  {
    PathRecord(
      e.d.value,
      if Truthy(e.fill) then e.fill.value else DefaultFill,
      if Truthy(e.stroke) then Some(e.stroke.value) else None,
      if Truthy(e.strokeWidth) then Some(parse(e.strokeWidth.value)) else None)
  }

  /** The records extracted from path elements: one per element with a non-empty `d`, in order. */
  function ExtractedPaths(elems: seq<PathElement>, parse: string -> real): (r: seq<PathRecord>)
    ensures |r| <= |elems|
    ensures forall k :: 0 <= k < |r| ==> r[k].path != "" && r[k].fill != ""
    ensures forall k :: 0 <= k < |r| ==> r[k].stroke.Some? ==> r[k].stroke.value != ""
  {
    if |elems| == 0 then []
    else
      var last := elems[|elems| - 1];
      ExtractedPaths(elems[..|elems| - 1], parse) + (if Truthy(last.d) then [RecordOf(last, parse)] else [])
  }

  /** The outcome of extractPathsFromSvg on a parsed document. */
  function Extraction(doc: SvgDocument, parse: string -> real): Result<PathData, string> {
    match doc.root
    case None => Err(NoSvgElement)
    case Some(root) => Ok(PathData(ExtractedPaths(doc.pathElements, parse), Some(ExtractBounds(root, parse))))
  }

  /** extractPathsFromSvg: an error without an `<svg>` element, else the records and bounds. */
  method ExtractPathsFromSvg(doc: SvgDocument, parse: string -> real) returns (r: Result<PathData, string>)
    ensures r == Extraction(doc, parse)
    ensures r.Err? <==> doc.root.None?
  {
    if doc.root.None? {
      return Err(NoSvgElement);
    }
    var bounds := ReadBounds(doc.root.value, parse);
    var paths := ExtractElements(doc.pathElements, parse);
    r := Ok(PathData(paths, Some(bounds)));
  }

  /** The `forEach` over the path elements: one record per element with a `d`, in order. */
  method ExtractElements(elems: seq<PathElement>, parse: string -> real) returns (paths: seq<PathRecord>)
    ensures paths == ExtractedPaths(elems, parse)
  {
    paths := [];
    var i := 0;
    while i < |elems|
      invariant 0 <= i <= |elems|
      invariant paths == ExtractedPaths(elems[..i], parse)
    {
      paths := ExtractElement(paths, elems[i], parse);
      ExtractedStep(elems, i, parse);
      i := i + 1;
    }
    assert elems[..i] == elems;
  }

  /** One more element extends the extracted records by that element's record, if it has one. */
  lemma ExtractedStep(elems: seq<PathElement>, i: nat, parse: string -> real)
    requires i < |elems|
    ensures ExtractedPaths(elems[..i + 1], parse)
         == ExtractedPaths(elems[..i], parse) + (if Truthy(elems[i].d) then [RecordOf(elems[i], parse)] else [])
  {
    assert elems[..i + 1][..i] == elems[..i];
  }

  /** The bounds block of extractPathsFromSvg: width and height, overridden by a four-value viewBox. */
  method ReadBounds(svg: SvgRoot, parse: string -> real) returns (b: Bounds)
    ensures b == ExtractBounds(svg, parse)
  {
    var viewBox := svg.viewBox;
    var width := if svg.width.Some? && svg.width.value != "" then parse(svg.width.value) else 0.0;
    var height := if svg.height.Some? && svg.height.value != "" then parse(svg.height.value) else 0.0;
    var minX, minY, svgWidth, svgHeight := 0.0, 0.0, width, height;
    if viewBox.Some? && viewBox.value != "" {
      var values := Split(viewBox.value, ' ');
      if |values| == 4 {
        minX, minY, svgWidth, svgHeight := parse(values[0]), parse(values[1]), parse(values[2]), parse(values[3]);
        ViewBoxBounds(svg, parse);
        return Bounds(minX, minY, minX + svgWidth, minY + svgHeight);
      }
    }
    SizeBounds(svg, parse);
    b := Bounds(minX, minY, minX + svgWidth, minY + svgHeight);
  }

  /** With a four-value viewBox the bounds start at its first two values and span the other two. */
  lemma ViewBoxBounds(svg: SvgRoot, parse: string -> real)
    requires Truthy(svg.viewBox) && |Split(svg.viewBox.value, ' ')| == 4
    ensures var v := Split(svg.viewBox.value, ' ');
      ExtractBounds(svg, parse) == Bounds(parse(v[0]), parse(v[1]), parse(v[0]) + parse(v[2]), parse(v[1]) + parse(v[3]))
  {
    assert ViewBoxValues(svg) == Some(Split(svg.viewBox.value, ' '));
  }

  /** Without one the bounds start at 0, 0 and span the width and height attributes. */
  lemma SizeBounds(svg: SvgRoot, parse: string -> real)
    requires !(Truthy(svg.viewBox) && |Split(svg.viewBox.value, ' ')| == 4)
    ensures ExtractBounds(svg, parse)
         == Bounds(0.0, 0.0, 0.0 + (if Truthy(svg.width) then parse(svg.width.value) else 0.0),
                   0.0 + (if Truthy(svg.height) then parse(svg.height.value) else 0.0))
  {
    assert ViewBoxValues(svg).None?;
  }

  /** The body of the per-element callback: pushes a record for an element with a `d` attribute. */
  method ExtractElement(paths: seq<PathRecord>, e: PathElement, parse: string -> real) returns (r: seq<PathRecord>)
    ensures Truthy(e.d) ==> r == paths + [RecordOf(e, parse)]
    ensures !Truthy(e.d) ==> r == paths
  {
    r := paths;
    if e.d.Some? && e.d.value != "" {
      var fill := if e.fill.Some? && e.fill.value != "" then e.fill.value else "#000000";
      var record := PathRecord(e.d.value, fill, None, None);
      if e.stroke.Some? && e.stroke.value != "" {
        record := record.(stroke := Some(e.stroke.value));
      }
      if e.strokeWidth.Some? && e.strokeWidth.value != "" {
        record := record.(strokeWidth := Some(parse(e.strokeWidth.value)));
      }
      r := r + [record];
    }
  }

  // ---------------------------------------------------------------------------------------------
  // Serialising, then extracting again

  /**
   * Text a DOM parser returns verbatim from a double-quoted attribute: the serialiser escapes
   * nothing, so a quote, `<` or `&` would break the markup, and attribute-value normalisation
   * (section 3.3.3 of XML 1.0) turns line feeds, carriage returns and tabs into spaces. The other
   * control characters and U+FFFE, U+FFFF are not characters of XML 1.0 at all (section 2.2), so
   * the document would not parse.
   */
  predicate AttributeText(s: string) {
    forall i :: 0 <= i < |s| ==>
      ' ' <= s[i] && s[i] !in {'"', '<', '&', '\U{FFFE}', '\U{FFFF}'}
  }

  /** Every value the serialiser writes into a path's element is attribute text. */
  predicate VerbatimPath(p: PathRecord, outlineColor: string, outlineThickness: real, show: real -> string) {
    && AttributeText(p.path)
    && AttributeText(p.fill)
    && match EffectiveStroke(p, outlineColor, outlineThickness)
       case None => true
       case Some((color, width)) => AttributeText(color) && AttributeText(show(width))
  }

  /** The numbers of the `<svg>` start tag are attribute text. */
  predicate VerbatimBounds(b: Bounds, show: real -> string) {
    AttributeText(show(b.x1)) && AttributeText(show(b.y1)) && AttributeText(show(Width(b))) && AttributeText(show(Height(b)))
  }

  /** Every value written into the document is attribute text, so a DOM parse reads it back unchanged. */
  predicate VerbatimDocument(pd: PathData, outlineColor: string, outlineThickness: real, show: real -> string) {
    && VerbatimBounds(EffectiveBounds(pd), show)
    && forall i :: 0 <= i < |pd.paths| ==> VerbatimPath(pd.paths[i], outlineColor, outlineThickness, show)
  }

  /** The element tree a standard SVG parser builds from the serialised document. */
  function ParsedDocument(pd: PathData, outlineColor: string, outlineThickness: real, show: real -> string): (doc: SvgDocument)
    requires VerbatimDocument(pd, outlineColor, outlineThickness, show)
    ensures doc.root.Some? && |doc.pathElements| == |pd.paths|
  {
    var b := EffectiveBounds(pd);
    SvgDocument(
      Some(SvgRoot(Some(ViewBox(b, show)), Some(show(Width(b))), Some(show(Height(b))))),
      ParsedElements(pd.paths, outlineColor, outlineThickness, show))
  }

  /** The attributes of one serialised `<path/>` element. */
  function ParsedElement(p: PathRecord, outlineColor: string, outlineThickness: real, show: real -> string): PathElement
    requires VerbatimPath(p, outlineColor, outlineThickness, show)
  {
    match EffectiveStroke(p, outlineColor, outlineThickness)
    case None => PathElement(Some(p.path), Some(p.fill), None, None)
    case Some((color, width)) => PathElement(Some(p.path), Some(p.fill), Some(color), Some(show(width)))
  }

  function ParsedElements(paths: seq<PathRecord>, outlineColor: string, outlineThickness: real, show: real -> string): (r: seq<PathElement>)
    requires forall i :: 0 <= i < |paths| ==> VerbatimPath(paths[i], outlineColor, outlineThickness, show)
    ensures |r| == |paths|
    ensures forall i :: 0 <= i < |paths| ==> r[i] == ParsedElement(paths[i], outlineColor, outlineThickness, show)
  {
    seq(|paths|, i requires 0 <= i < |paths| && VerbatimPath(paths[i], outlineColor, outlineThickness, show) =>
      ParsedElement(paths[i], outlineColor, outlineThickness, show))
  }

  /** A record as it reads back after serialisation: the stroke it was written with. */
  function Restroked(p: PathRecord, outlineColor: string, outlineThickness: real): PathRecord {
    match EffectiveStroke(p, outlineColor, outlineThickness)
    case None => p.(stroke := None, strokeWidth := None)
    case Some((color, width)) => p.(stroke := if color != "" then Some(color) else None, strokeWidth := Some(width))
  }

  function RestrokedPaths(paths: seq<PathRecord>, outlineColor: string, outlineThickness: real): (r: seq<PathRecord>)
    ensures |r| == |paths|
    ensures forall i :: 0 <= i < |paths| ==> r[i] == Restroked(paths[i], outlineColor, outlineThickness)
  {
    seq(|paths|, i requires 0 <= i < |paths| => Restroked(paths[i], outlineColor, outlineThickness))
  }

  /** A number the serialiser writes reads back: its text is not empty, has no space, and parses to it. */
  predicate RoundTrips(x: real, show: real -> string, parse: string -> real) {
    show(x) != "" && ' ' !in show(x) && parse(show(x)) == x
  }

  /** The stroke width written for a path, if any, reads back. */
  predicate StrokeRoundTrips(p: PathRecord, outlineColor: string, outlineThickness: real, show: real -> string, parse: string -> real) {
    match EffectiveStroke(p, outlineColor, outlineThickness)
    case None => true
    case Some((_, width)) => RoundTrips(width, show, parse)
  }

  /** The four numbers of the viewBox read back. */
  predicate BoundsRoundTrip(b: Bounds, show: real -> string, parse: string -> real) {
    RoundTrips(b.x1, show, parse) && RoundTrips(b.y1, show, parse) &&
    RoundTrips(Width(b), show, parse) && RoundTrips(Height(b), show, parse)
  }

  /** The viewBox text splits at its spaces into the four numbers' texts when none of them holds a space. */
  lemma ViewBoxSplits(b: Bounds, show: real -> string)
    requires ' ' !in show(b.x1) && ' ' !in show(b.y1) && ' ' !in show(Width(b)) && ' ' !in show(Height(b))
    ensures ViewBox(b, show) != ""
    ensures Split(ViewBox(b, show), ' ') == [show(b.x1), show(b.y1), show(Width(b)), show(Height(b))]
  {
    var parts := [show(b.x1), show(b.y1), show(Width(b)), show(Height(b))];
    Join4(parts[0], parts[1], parts[2], parts[3], " ");
    assert ViewBox(b, show) == Join(parts, " ");
    SplitJoin(parts, ' ');
  }

  /** The viewBox written by the serialiser reads back as the same bounds. */
  lemma ViewBoxRoundTrip(b: Bounds, show: real -> string, parse: string -> real)
    requires BoundsRoundTrip(b, show, parse)
    ensures ExtractBounds(SvgRoot(Some(ViewBox(b, show)), Some(show(Width(b))), Some(show(Height(b)))), parse) == b
  {
    var root := SvgRoot(Some(ViewBox(b, show)), Some(show(Width(b))), Some(show(Height(b))));
    ViewBoxSplits(b, show);
    var v := [show(b.x1), show(b.y1), show(Width(b)), show(Height(b))];
    assert ViewBoxValues(root) == Some(v);
    var e := ExtractBounds(root, parse);
    assert e.x1 == b.x1 && e.y1 == b.y1 && Width(e) == Width(b) && Height(e) == Height(b);
  }

  /** One serialised `<path/>` element reads back as the record with the stroke it was written with. */
  lemma ElementRoundTrip(p: PathRecord, outlineColor: string, outlineThickness: real, show: real -> string, parse: string -> real)
    requires VerbatimPath(p, outlineColor, outlineThickness, show)
    requires StrokeRoundTrips(p, outlineColor, outlineThickness, show, parse)
    requires p.path != "" && p.fill != ""
    ensures Truthy(ParsedElement(p, outlineColor, outlineThickness, show).d)
    ensures RecordOf(ParsedElement(p, outlineColor, outlineThickness, show), parse) == Restroked(p, outlineColor, outlineThickness)
  {
  }

  /** Extracting the serialised paths gives back each record with the stroke it was written with. */
  lemma {:induction false} PathsRoundTrip(paths: seq<PathRecord>, outlineColor: string, outlineThickness: real, show: real -> string, parse: string -> real)
    requires forall i :: 0 <= i < |paths| ==> VerbatimPath(paths[i], outlineColor, outlineThickness, show)
    requires forall i :: 0 <= i < |paths| ==> StrokeRoundTrips(paths[i], outlineColor, outlineThickness, show, parse)
    requires forall i :: 0 <= i < |paths| ==> paths[i].path != "" && paths[i].fill != ""
    ensures ExtractedPaths(ParsedElements(paths, outlineColor, outlineThickness, show), parse) == RestrokedPaths(paths, outlineColor, outlineThickness)
  {
    if |paths| > 0 {
      var init := paths[..|paths| - 1];
      var p := paths[|paths| - 1];
      var e := ParsedElement(p, outlineColor, outlineThickness, show);
      ParsedElementsLast(paths, outlineColor, outlineThickness, show);
      PathsRoundTrip(init, outlineColor, outlineThickness, show, parse);
      ElementRoundTrip(p, outlineColor, outlineThickness, show, parse);
      ExtractedLast(ParsedElements(init, outlineColor, outlineThickness, show), e, parse);
      RestrokedLast(paths, outlineColor, outlineThickness);
    }
  }

  /** The parsed elements of a non-empty list: those of all but the last path, then the last one's. */
  lemma ParsedElementsLast(paths: seq<PathRecord>, outlineColor: string, outlineThickness: real, show: real -> string)
    requires |paths| > 0
    requires forall i :: 0 <= i < |paths| ==> VerbatimPath(paths[i], outlineColor, outlineThickness, show)
    ensures ParsedElements(paths, outlineColor, outlineThickness, show)
         == ParsedElements(paths[..|paths| - 1], outlineColor, outlineThickness, show)
            + [ParsedElement(paths[|paths| - 1], outlineColor, outlineThickness, show)]
  {
  }

  /** Extracting one more element with a `d` appends its record. */
  lemma ExtractedLast(elems: seq<PathElement>, e: PathElement, parse: string -> real)
    requires Truthy(e.d)
    ensures ExtractedPaths(elems + [e], parse) == ExtractedPaths(elems, parse) + [RecordOf(e, parse)]
  {
    assert (elems + [e])[..|elems|] == elems;
  }

  /** Re-stroking a non-empty list: all but the last record, then the last one. */
  lemma RestrokedLast(paths: seq<PathRecord>, outlineColor: string, outlineThickness: real)
    requires |paths| > 0
    ensures RestrokedPaths(paths, outlineColor, outlineThickness)
         == RestrokedPaths(paths[..|paths| - 1], outlineColor, outlineThickness)
            + [Restroked(paths[|paths| - 1], outlineColor, outlineThickness)]
  {
  }

  /**
   * Serialising path data and extracting the result gives back its paths (with the strokes they
   * were written with) and its bounds, when every written value survives the DOM parse and every
   * written number reads back.
   */
  lemma SerialiseExtract(pd: PathData, outlineColor: string, outlineThickness: real, show: real -> string, parse: string -> real)
    requires VerbatimDocument(pd, outlineColor, outlineThickness, show)
    requires BoundsRoundTrip(EffectiveBounds(pd), show, parse)
    requires forall i :: 0 <= i < |pd.paths| ==> StrokeRoundTrips(pd.paths[i], outlineColor, outlineThickness, show, parse)
    requires forall i :: 0 <= i < |pd.paths| ==> pd.paths[i].path != "" && pd.paths[i].fill != ""
    ensures Extraction(ParsedDocument(pd, outlineColor, outlineThickness, show), parse)
         == Ok(PathData(RestrokedPaths(pd.paths, outlineColor, outlineThickness), Some(EffectiveBounds(pd))))
  {
    var b := EffectiveBounds(pd);
    var root := SvgRoot(Some(ViewBox(b, show)), Some(show(Width(b))), Some(show(Height(b))));
    var elems := ParsedElements(pd.paths, outlineColor, outlineThickness, show);
    assert ParsedDocument(pd, outlineColor, outlineThickness, show) == SvgDocument(Some(root), elems);
    ViewBoxRoundTrip(b, show, parse);
    PathsRoundTrip(pd.paths, outlineColor, outlineThickness, show, parse);
  }

  /**
   * With no outline, path data whose records either carry their own stroke or none at all, and
   * whose bounds are given, reads back unchanged.
   */
  lemma SerialiseExtractIdentity(pd: PathData, outlineColor: string, outlineThickness: real, show: real -> string, parse: string -> real)
    requires VerbatimDocument(pd, outlineColor, outlineThickness, show)
    requires BoundsRoundTrip(EffectiveBounds(pd), show, parse)
    requires forall i :: 0 <= i < |pd.paths| ==> StrokeRoundTrips(pd.paths[i], outlineColor, outlineThickness, show, parse)
    requires outlineThickness <= 0.0 && pd.bounds.Some?
    requires forall i :: 0 <= i < |pd.paths| ==> pd.paths[i].path != "" && pd.paths[i].fill != ""
    requires forall i :: 0 <= i < |pd.paths| ==> OwnStroke(pd.paths[i]) || (pd.paths[i].stroke.None? && pd.paths[i].strokeWidth.None?)
    ensures Extraction(ParsedDocument(pd, outlineColor, outlineThickness, show), parse) == Ok(pd)
  {
    SerialiseExtract(pd, outlineColor, outlineThickness, show, parse);
    assert RestrokedPaths(pd.paths, outlineColor, outlineThickness) == pd.paths;
  }

  /** Decimal text for the non-negative whole numbers (any other number prints as "0"). */
  function ShowDecimal(x: real): string {
    if x >= 0.0 then NatToString(x.Floor) else "0"
  }

  /** The number a string of decimal digits denotes. */
  function ParseDecimal(s: string): real {
    DigitsValue(s) as real
  }

  /** A non-negative whole number, which ShowDecimal prints exactly. */
  predicate Whole(x: real) {
    x >= 0.0 && x == x.Floor as real
  }

  /** Decimal text is attribute text. */
  lemma DecimalVerbatim(x: real)
    ensures AttributeText(ShowDecimal(x))
  {
    var t := ShowDecimal(x);
    assert forall i :: 0 <= i < |t| ==> '0' <= t[i] <= '9';
  }

  /** Every non-negative whole number reads back from its decimal text. */
  lemma DecimalRoundTrip(x: real)
    requires Whole(x)
    ensures RoundTrips(x, ShowDecimal, ParseDecimal)
  {
    var t := ShowDecimal(x);
    assert t == NatToString(x.Floor);
    assert forall i :: 0 <= i < |t| ==> t[i] != ' ';
  }

  /** Whole bounds are written verbatim and read back. */
  lemma DecimalBounds(b: Bounds)
    requires Whole(b.x1) && Whole(b.y1) && Whole(Width(b)) && Whole(Height(b))
    ensures VerbatimBounds(b, ShowDecimal) && BoundsRoundTrip(b, ShowDecimal, ParseDecimal)
  {
    DecimalVerbatim(b.x1);
    DecimalVerbatim(b.y1);
    DecimalVerbatim(Width(b));
    DecimalVerbatim(Height(b));
    DecimalRoundTrip(b.x1);
    DecimalRoundTrip(b.y1);
    DecimalRoundTrip(Width(b));
    DecimalRoundTrip(Height(b));
  }

  /**
   * A path the decimal serialiser writes verbatim and reads back: non-empty path text and fill,
   * attribute text everywhere, whole stroke widths.
   */
  predicate DecimalReady(p: PathRecord, outlineColor: string, outlineThickness: real) {
    && p.path != "" && p.fill != ""
    && AttributeText(outlineColor) && (outlineThickness > 0.0 ==> Whole(outlineThickness))
    && AttributeText(p.path) && AttributeText(p.fill)
    && (p.stroke.Some? ==> AttributeText(p.stroke.value))
    && (p.strokeWidth.Some? ==> Whole(p.strokeWidth.value))
  }

  /** A decimal-ready path is written verbatim and its stroke width reads back. */
  lemma DecimalPath(p: PathRecord, outlineColor: string, outlineThickness: real)
    requires DecimalReady(p, outlineColor, outlineThickness)
    ensures VerbatimPath(p, outlineColor, outlineThickness, ShowDecimal)
    ensures StrokeRoundTrips(p, outlineColor, outlineThickness, ShowDecimal, ParseDecimal)
  {
    match EffectiveStroke(p, outlineColor, outlineThickness)
    case None =>
    case Some((color, width)) =>
      DecimalVerbatim(width);
      DecimalRoundTrip(width);
  }

  /** Decimal-ready paths are written verbatim and their stroke widths read back. */
  lemma DecimalPaths(paths: seq<PathRecord>, outlineColor: string, outlineThickness: real)
    requires forall i :: 0 <= i < |paths| ==> DecimalReady(paths[i], outlineColor, outlineThickness)
    ensures forall i :: 0 <= i < |paths| ==> VerbatimPath(paths[i], outlineColor, outlineThickness, ShowDecimal)
    ensures forall i :: 0 <= i < |paths| ==> StrokeRoundTrips(paths[i], outlineColor, outlineThickness, ShowDecimal, ParseDecimal)
    ensures forall i :: 0 <= i < |paths| ==> paths[i].path != "" && paths[i].fill != ""
  {
    forall i | 0 <= i < |paths|
      ensures VerbatimPath(paths[i], outlineColor, outlineThickness, ShowDecimal)
      ensures StrokeRoundTrips(paths[i], outlineColor, outlineThickness, ShowDecimal, ParseDecimal)
    {
      DecimalPath(paths[i], outlineColor, outlineThickness);
    }
  }

  /**
   * With decimal numbers the conditions of SerialiseExtract can be met: path data with whole
   * bounds and stroke widths, and colours and path text free of quotes, `<`, `&` and line breaks,
   * reads back with the strokes it was written with.
   */
  lemma DecimalSerialiseExtract(pd: PathData, outlineColor: string, outlineThickness: real)
    requires var b := EffectiveBounds(pd); Whole(b.x1) && Whole(b.y1) && Whole(Width(b)) && Whole(Height(b))
    requires forall i :: 0 <= i < |pd.paths| ==> DecimalReady(pd.paths[i], outlineColor, outlineThickness)
    ensures VerbatimDocument(pd, outlineColor, outlineThickness, ShowDecimal)
    ensures Extraction(ParsedDocument(pd, outlineColor, outlineThickness, ShowDecimal), ParseDecimal)
         == Ok(PathData(RestrokedPaths(pd.paths, outlineColor, outlineThickness), Some(EffectiveBounds(pd))))
  {
    DecimalBounds(EffectiveBounds(pd));
    DecimalPaths(pd.paths, outlineColor, outlineThickness);
    SerialiseExtract(pd, outlineColor, outlineThickness, ShowDecimal, ParseDecimal);
  }
}
