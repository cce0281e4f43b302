/**
 * The font manager that stands in for the former Google Fonts integration (js/googleFonts.js):
 * it serves the bundled and system catalogue in the Google Fonts record shape, filters it by
 * category, and keeps a URL-keyed cache of downloaded font files.
 */
module WebFonts {
  import opened Wrappers
  import opened Text
  import opened Catalogue

  /** A font record in the Google Fonts list shape; `files` is the `regular` file, if any. */
  datatype WebFont = WebFont(
    family: string,
    category: string,
    variants: seq<string>,
    files: Option<string>,
    isLocal: bool)

  /** The categories `getFonts` accepts as filters. */
  const Categories: seq<string> := ["serif", "sans-serif", "display", "handwriting", "monospace"]

  const PopularFonts: seq<string> := [
    "Roboto", "Open Sans", "Lato", "Montserrat", "Oswald",
    "Source Sans Pro", "Slabo 27px", "Raleway", "PT Sans", "Merriweather",
    "Ubuntu", "Playfair Display", "Rubik", "Poppins", "Dancing Script"
  ]

  /** The file served for a family without a bundled file of its own. */
  const FallbackFontFile := "fonts/Roboto-Regular.ttf"

  const RemoteDisabled := "Remote font downloading is disabled"

  /** One catalogue entry in the list shape; empty strings are JavaScript's falsy values. */
  function Convert(font: FontEntry): (w: WebFont)
    ensures w.family == if font.displayName != "" then font.displayName else font.family
    ensures w.category == if font.category != "" then font.category else SansSerif
    ensures w.variants == font.variants.GetOr(["regular"])
    ensures w.files.Some? <==> font.url.Some? && font.url.value != ""
    ensures w.files.Some? ==> w.files == font.url
    ensures w.isLocal
  {
    WebFont(
      if font.displayName != "" then font.displayName else font.family,
      if font.category != "" then font.category else SansSerif,
      font.variants.GetOr(["regular"]),
      if font.url.Some? && font.url.value != "" then font.url else None,
      true)
  }

  /** convertLocalFonts: the catalogue entries converted one by one, in order. */
  function ConvertLocalFonts(fonts: seq<FontEntry>): (r: seq<WebFont>)
    ensures |r| == |fonts|
    ensures forall i :: 0 <= i < |fonts| ==> r[i] == Convert(fonts[i])
  {
    seq(|fonts|, i requires 0 <= i < |fonts| => Convert(fonts[i]))
  }

  /**
   * Array.prototype.filter: the elements of `s` that `keep` accepts, each as often as in `s`
   * (FilterCount) and in the order of `s` (FilterAppend).
   */
  function Filter(s: seq<WebFont>, keep: WebFont -> bool): (r: seq<WebFont>)
    ensures |r| <= |s|
    ensures forall f :: f in r <==> f in s && keep(f)
  {
    if |s| == 0 then []
    else Filter(s[..|s| - 1], keep) + (if keep(s[|s| - 1]) then [s[|s| - 1]] else [])
  }

  /** A kept element occurs in the result as often as in `s`; any other element does not occur. */
  lemma {:induction false} FilterCount(s: seq<WebFont>, keep: WebFont -> bool)
    ensures forall f :: multiset(Filter(s, keep))[f] == if keep(f) then multiset(s)[f] else 0
  {
    if |s| > 0 {
      assert s == s[..|s| - 1] + [s[|s| - 1]];
      FilterCount(s[..|s| - 1], keep);
    }
  }

  /** Filtering a list with one more element at its end extends the result by that element when it is kept. */
  lemma FilterAppend(s: seq<WebFont>, x: WebFont, keep: WebFont -> bool)
    ensures Filter(s + [x], keep) == Filter(s, keep) + (if keep(x) then [x] else [])
  {
    assert (s + [x])[..|s|] == s;
  }

  /** The filter of a known category. */
  function CategoryIs(category: string): WebFont -> bool {
    (f: WebFont) => f.category == category
  }

  /** Array.prototype.slice(0, limit), with a negative limit counted from the end. */
  function Take(s: seq<WebFont>, limit: int): (r: seq<WebFont>)
    ensures limit >= 0 ==> |r| == if limit < |s| then limit else |s|
    ensures limit < 0 ==> |r| == if |s| + limit > 0 then |s| + limit else 0
    ensures |r| <= |s| && r == s[..|r|]
    ensures forall x :: x in r ==> x in s
  {
    if limit >= |s| then s
    else if limit >= 0 then s[..limit]
    else if |s| + limit > 0 then s[..|s| + limit]
    else []
  }

  /** The first index of a font with the given family. */
  function FirstWithFamily(fonts: seq<WebFont>, family: string): (r: Option<nat>)
    ensures r.Some? ==> r.value < |fonts| && fonts[r.value].family == family
    ensures r.Some? ==> forall j :: 0 <= j < r.value ==> fonts[j].family != family
    ensures r.None? ==> forall j :: 0 <= j < |fonts| ==> fonts[j].family != family
  {
    if |fonts| == 0 then None
    else if fonts[0].family == family then Some(0)
    else match FirstWithFamily(fonts[1..], family)
      case None => None
      case Some(k) => Some(k + 1)
  }

  /** The settlement of `fetch(url)` followed by `response.arrayBuffer()`. */
  datatype FetchOutcome =
    | Rejected(message: string)
    | Response(ok: bool, status: nat, statusText: string, body: seq<bv8>)

  /** The value `loadFont` resolves with, and whether the catalogue knows the family. */
  datatype FontLoad = FontLoad(family: string, known: bool)

  /** A list returned by `getFonts` for 'popular' when truncation applies. */
  predicate Popular(f: WebFont) {
    f.family in PopularFonts || f.isLocal
  }

  class GoogleFontsManager {
    var fonts: seq<WebFont>
    const localFonts: seq<WebFont>
    const systemFonts: seq<WebFont>
    var cachedFontFiles: map<string, seq<bv8>>

    /**
     * `fonts` is either not yet fetched or the local list followed by the system list; every
     * local font names a file under fonts/ and no system font names a file.
     */
    predicate Valid()
      reads this
    {
      && (fonts == [] || fonts == localFonts + systemFonts)
      && (forall i :: 0 <= i < |localFonts| ==>
            localFonts[i].files.Some? && StartsWith(localFonts[i].files.value, FontsDir))
      && (forall i :: 0 <= i < |systemFonts| ==> systemFonts[i].files.None?)
    }

    constructor()
      ensures Valid()
      ensures fonts == [] && cachedFontFiles == map[]
      ensures localFonts == ConvertLocalFonts(BundledFonts())
      ensures systemFonts == ConvertLocalFonts(SystemFonts())
    {
      fonts := [];
      cachedFontFiles := map[];
      localFonts := ConvertLocalFonts(BundledFonts());
      systemFonts := ConvertLocalFonts(SystemFonts());
      new;
      assert forall i :: 0 <= i < |localFonts| ==> BundledEntry(BundledFonts()[i]);
      FontsDirNonEmpty();
    }

    /** fetchFontsList: the local fonts followed by the system fonts become the list. */
    method FetchFontsList() returns (r: seq<WebFont>)
      requires Valid()
      modifies this
      ensures Valid()
      ensures fonts == localFonts + systemFonts && r == fonts
      ensures cachedFontFiles == old(cachedFontFiles)
    {
      fonts := localFonts + systemFonts;
      r := fonts;
    }

    /** getFonts(category, limit); `None` is the default `null` category. */
    function GetFonts(category: Option<string>, limit: int): (r: seq<WebFont>)
      reads this
      ensures fonts == [] ==> r == localFonts
      ensures fonts != [] && category == Some("popular") && |fonts| <= |localFonts| + |systemFonts| ==> r == fonts
      ensures fonts != [] && category == Some("popular") && |fonts| > |localFonts| + |systemFonts| ==>
        r == Take(Filter(fonts, Popular), limit) && forall f :: f in r ==> f in fonts && Popular(f)
      ensures fonts != [] && category.Some? && category.value != "popular" && category.value in Categories ==>
        r == Take(Filter(fonts, CategoryIs(category.value)), limit) &&
        forall f :: f in r ==> f in fonts && f.category == category.value
      ensures fonts != [] && (category.None? || (category.value != "popular" && category.value !in Categories)) ==>
        r == Take(fonts, limit) && |r| <= |fonts| && r == fonts[..|r|]
      ensures fonts != [] && !(category == Some("popular") && |fonts| <= |localFonts| + |systemFonts|) && limit >= 0 ==>
        |r| <= limit
    {
      if |fonts| == 0 then localFonts
      else if category == Some("popular") then
        if |fonts| <= |localFonts| + |systemFonts| then fonts
        else Take(Filter(fonts, Popular), limit)
      else if category.Some? && category.value != "" && category.value in Categories then
        Take(Filter(fonts, CategoryIs(category.value)), limit)
      else Take(fonts, limit)
    }

    /** getFontUrl: remote font CSS is no longer available. */
    function GetFontUrl(family: string, variants: seq<string>): (r: Option<string>)
      ensures r.None?
    {
      None
    }

    /** loadFont: resolves with the requested family whether or not the catalogue knows it. */
    function LoadFont(family: string): (r: FontLoad)
      reads this
      ensures r.family == family
      ensures r.known <==>
        (exists i :: 0 <= i < |localFonts| && localFonts[i].family == family) ||
        (exists i :: 0 <= i < |systemFonts| && systemFonts[i].family == family)
    {
      FontLoad(family, FirstWithFamily(localFonts, family).Some? || FirstWithFamily(systemFonts, family).Some?)
    }

    /**
     * downloadFontFile(url): a cached file without fetching; otherwise remote URLs are refused,
     * a failed response is an error naming its status, and a successful body is cached.
     */
    method DownloadFontFile(url: string, fetched: FetchOutcome) returns (r: Result<seq<bv8>, string>)
      modifies this
      ensures fonts == old(fonts)
      ensures url in old(cachedFontFiles) ==>
        r == Ok(old(cachedFontFiles)[url]) && cachedFontFiles == old(cachedFontFiles)
      ensures url !in old(cachedFontFiles) && StartsWith(url, "http") ==>
        r == Err(RemoteDisabled) && cachedFontFiles == old(cachedFontFiles)
      ensures url !in old(cachedFontFiles) && !StartsWith(url, "http") ==> (
        match fetched
        case Rejected(message) =>
          r == Err(message) && cachedFontFiles == old(cachedFontFiles)
        case Response(ok, status, statusText, body) =>
          if ok then r == Ok(body) && cachedFontFiles == old(cachedFontFiles)[url := body]
          else r == Err(FetchFailure(status, statusText)) && cachedFontFiles == old(cachedFontFiles))
    {
      if url in cachedFontFiles {
        return Ok(cachedFontFiles[url]);
      }
      if StartsWith(url, "http") {
        return Err(RemoteDisabled);
      }
      match fetched
      case Rejected(message) =>
        r := Err(message);
      case Response(ok, status, statusText, body) =>
        if !ok {
          r := Err(FetchFailure(status, statusText));
        } else {
          cachedFontFiles := cachedFontFiles[url := body];
          r := Ok(body);
        }
    }

    /**
     * getWebFont(family): the bundled file of the first local font with that family, otherwise
     * the fallback file (system fonts have no file of their own).
     */
    function GetWebFont(family: string): (r: string)
      reads this
      ensures FirstWithFamily(localFonts, family).None? ==> r == FallbackFontFile
      ensures forall i :: (0 <= i < |localFonts| && localFonts[i].family == family &&
        (forall j :: 0 <= j < i ==> localFonts[j].family != family)) ==>
          if localFonts[i].files.Some? && localFonts[i].files.value != "" then r == localFonts[i].files.value
          else r == FallbackFontFile
    {
      match FirstWithFamily(localFonts, family)
      case Some(i) =>
        if localFonts[i].files.Some? && localFonts[i].files.value != "" then localFonts[i].files.value
        else FallbackFontFile
      case None => FallbackFontFile
    }
  }

  const FetchFailurePrefix := "Failed to load font: "

  /**
   * The error text for a response that is not ok: the prefix, the status in decimal digits, a
   * space and the status text.
   */
  function FetchFailure(status: nat, statusText: string): (r: string)
    ensures StartsWith(r, FetchFailurePrefix) && EndsWith(r, " " + statusText)
    ensures |r| > |FetchFailurePrefix| + |statusText| + 1
    ensures var digits := r[|FetchFailurePrefix|..|r| - |statusText| - 1];
      DigitsValue(digits) == status && (forall i :: 0 <= i < |digits| ==> '0' <= digits[i] <= '9')
      && (digits[0] == '0' ==> digits == "0")
  {
    var digits := NatToString(status);
    var head := FetchFailurePrefix + digits;
    var tail := " " + statusText;
    var r := head + tail;
    assert r[..|head|] == head && r[|head|..] == tail;
    assert r[..|FetchFailurePrefix|] == head[..|FetchFailurePrefix|] == FetchFailurePrefix;
    assert r[|FetchFailurePrefix|..|head|] == head[|FetchFailurePrefix|..] == digits;
    r
  }

  lemma FontsDirNonEmpty()
    ensures FontsDir != ""
  {
  }

  /** Once the list is fetched, 'popular' is never truncated: it is the whole list. */
  lemma {:induction false} PopularIsWholeList(m: GoogleFontsManager, limit: int)
    requires m.Valid() && m.fonts != []
    ensures m.GetFonts(Some("popular"), limit) == m.localFonts + m.systemFonts
  {
  }

  /** Every answer of getWebFont is a file under fonts/. */
  lemma WebFontIsBundledFile(m: GoogleFontsManager, family: string)
    requires m.Valid()
    ensures StartsWith(m.GetWebFont(family), FontsDir)
  {
    match FirstWithFamily(m.localFonts, family)
    case Some(i) =>
      assert m.localFonts[i].files.Some? && StartsWith(m.localFonts[i].files.value, FontsDir);
    case None =>
  }
}
