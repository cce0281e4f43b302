/**
 * The font manager (js/fontManager.js): the sorted list of bundled fonts offered to the user,
 * a URL-keyed cache of parsed fonts, the current selection, and the assembly of one outlined
 * text path from per-character glyph outlines.
 */
module Fonts {
  import opened Wrappers
  import opened Catalogue
  import opened Text
  import opened PathModel

  /** A font as the manager lists it: display name, file URL and category. */
  datatype FontRef = FontRef(name: string, url: Option<string>, category: string)

  type PositiveReal = r: real | r > 0.0 witness 1.0

  /**
   * A parsed font as far as path assembly uses it: the glyph outline text for a character drawn
   * at a given x and size, the advance width of a character at a size, and the vertical metrics.
   */
  datatype FontObject = FontObject(
    outline: (char, real, real) -> string,
    advance: (char, real) -> real,
    ascender: real,
    descender: real,
    unitsPerEm: PositiveReal)

  /** The settlement of a font file load: the parsed font or the loader's error. */
  datatype LoadOutcome = Loaded(font: FontObject) | LoadFailed(message: string)

  const OutlineColor := "#000000"
  const OutlineThickness: real := 20.0

  /** One bundled entry as the list shows it; a missing category counts as sans-serif. */
  function ToRef(font: FontEntry): (r: FontRef)
    ensures r.name == font.displayName && r.url == font.url
    ensures r.category == if font.category != "" then font.category else SansSerif
  {
    FontRef(font.displayName, font.url, if font.category != "" then font.category else SansSerif)
  }

  /** The mapping step of initializeFontList, entry by entry. */
  function ToRefs(fonts: seq<FontEntry>): (r: seq<FontRef>)
    ensures |r| == |fonts|
    ensures forall i :: 0 <= i < |fonts| ==> r[i] == ToRef(fonts[i])
  {
    seq(|fonts|, i requires 0 <= i < |fonts| => ToRef(fonts[i]))
  }

  // ---------------------------------------------------------------------------------------------
  // The sort order of initializeFontList

  /** The category ranks of the sort; every other category ranks 99. */
  function Rank(category: string): nat {
    if category == SansSerif then 1
    else if category == Serif then 2
    else if category == Monospace then 3
    else if category == Display then 4
    else if category == Handwriting then 5
    else 99
  }

  /** String.prototype.localeCompare, approximated by code-unit order: -1, 0 or 1. */
  function NameCompare(a: string, b: string): (r: int)
    ensures -1 <= r <= 1
    ensures r == 0 <==> a == b
  {
    if |a| == 0 && |b| == 0 then 0
    else if |a| == 0 then -1
    else if |b| == 0 then 1
    else if a[0] < b[0] then -1
    else if a[0] > b[0] then 1
    else
      var r := NameCompare(a[1..], b[1..]);
      assert r == 0 ==> a == [a[0]] + a[1..] == [b[0]] + b[1..] == b;
      r
  }

  lemma {:induction false} NameCompareFlip(a: string, b: string)
    ensures NameCompare(b, a) == -NameCompare(a, b)
  {
    if |a| > 0 && |b| > 0 && a[0] == b[0] {
      NameCompareFlip(a[1..], b[1..]);
    }
  }

  lemma {:induction false} NameCompareTransitive(a: string, b: string, c: string)
    requires NameCompare(a, b) <= 0 && NameCompare(b, c) <= 0
    ensures NameCompare(a, c) <= 0
  {
    if |a| > 0 && |b| > 0 && |c| > 0 && a[0] == b[0] == c[0] {
      NameCompareTransitive(a[1..], b[1..], c[1..]);
    }
  }

  /** The comparator of initializeFontList: category rank first, then name within a category. */
  function Compare(a: FontRef, b: FontRef): int {
    if a.category != b.category then Rank(a.category) - Rank(b.category)
    else NameCompare(a.name, b.name)
  }

  /** A category the comparator ranks below 99. */
  predicate Ranked(f: FontRef) {
    f.category in KnownCategories
  }

  predicate AllRanked(s: seq<FontRef>) {
    forall i :: 0 <= i < |s| ==> Ranked(s[i])
  }

  /** Ordered by the comparator: no later font compares below an earlier one. */
  predicate Sorted(s: seq<FontRef>) {
    forall i, j :: 0 <= i < j < |s| ==> Compare(s[i], s[j]) <= 0
  }

  lemma CompareFlip(a: FontRef, b: FontRef)
    ensures Compare(b, a) == -Compare(a, b)
  {
    NameCompareFlip(a.name, b.name);
  }

  /** With ranked categories the comparator is transitive (two unranked categories tie instead). */
  lemma CompareTransitive(a: FontRef, b: FontRef, c: FontRef)
    requires Ranked(a) && Ranked(b) && Ranked(c)
    requires Compare(a, b) <= 0 && Compare(b, c) <= 0
    ensures Compare(a, c) <= 0
  {
    if a.category == b.category == c.category {
      NameCompareTransitive(a.name, b.name, c.name);
    }
  }

  /** `x` placed before the first element that it compares strictly below (a stable insertion). */
  function Insert(x: FontRef, s: seq<FontRef>): (r: seq<FontRef>)
    ensures multiset(r) == multiset(s) + multiset{x}
  {
    if |s| == 0 then [x]
    else if Compare(x, s[0]) < 0 then [x] + s
    else
      assert s == [s[0]] + s[1..];
      [s[0]] + Insert(x, s[1..])
  }

  /** The stable sort of Array.prototype.sort under the comparator, by insertion from the left. */
  function SortFonts(s: seq<FontRef>): (r: seq<FontRef>)
    ensures multiset(r) == multiset(s)
  {
    if |s| == 0 then []
    else
      assert s == s[..|s| - 1] + [s[|s| - 1]];
      Insert(s[|s| - 1], SortFonts(s[..|s| - 1]))
  }

  /** A head that compares at most equal to every later element keeps a sorted list sorted. */
  lemma SortedCons(h: FontRef, s: seq<FontRef>)
    requires Sorted(s)
    requires forall k :: 0 <= k < |s| ==> Compare(h, s[k]) <= 0
    ensures Sorted([h] + s)
  {
    var r := [h] + s;
    forall i, j | 0 <= i < j < |r|
      ensures Compare(r[i], r[j]) <= 0
    {
      assert r[j] == s[j - 1];
      if i > 0 {
        assert r[i] == s[i - 1];
      }
    }
  }

  lemma {:induction false} InsertSorted(x: FontRef, s: seq<FontRef>)
    requires Ranked(x) && AllRanked(s) && Sorted(s)
    ensures Sorted(Insert(x, s))
  {
    if |s| == 0 {
    } else if Compare(x, s[0]) < 0 {
      forall k | 0 <= k < |s|
        ensures Compare(x, s[k]) <= 0
      {
        if k > 0 {
          CompareTransitive(x, s[0], s[k]);
        }
      }
      SortedCons(x, s);
    } else {
      var t := s[1..];
      assert Sorted(t) && AllRanked(t);
      InsertSorted(x, t);
      var rest := Insert(x, t);
      CompareFlip(x, s[0]);
      forall k | 0 <= k < |rest|
        ensures Compare(s[0], rest[k]) <= 0
      {
        assert rest[k] in multiset(rest);
        if rest[k] != x {
          assert rest[k] in multiset(t);
          var m :| 0 <= m < |t| && t[m] == rest[k];
          assert s[m + 1] == rest[k];
        }
      }
      SortedCons(s[0], rest);
    }
  }

  lemma {:induction false} SortFontsSorted(s: seq<FontRef>)
    requires AllRanked(s)
    ensures Sorted(SortFonts(s))
  {
    if |s| > 0 {
      var p := s[..|s| - 1];
      assert AllRanked(p);
      SortFontsSorted(p);
      var q := SortFonts(p);
      forall i | 0 <= i < |q|
        ensures Ranked(q[i])
      {
        assert q[i] in multiset(p);
      }
      InsertSorted(s[|s| - 1], q);
    }
  }

  /** Sorted with ranked categories: ranks never decrease, and names ascend within a category. */
  lemma SortedMeaning(s: seq<FontRef>, i: int, j: int)
    requires AllRanked(s) && Sorted(s) && 0 <= i < j < |s|
    ensures Rank(s[i].category) <= Rank(s[j].category)
    ensures s[i].category == s[j].category ==> NameCompare(s[i].name, s[j].name) <= 0
  {
    assert Compare(s[i], s[j]) <= 0;
  }

  /** The list initializeFontList builds: the bundled fonts, mapped, then sorted. */
  function InitialFonts(): (r: seq<FontRef>)
    ensures multiset(r) == multiset(ToRefs(BundledFonts()))
    ensures Sorted(r)
  {
    var refs := ToRefs(BundledFonts());
    assert AllRanked(refs) by {
      forall i | 0 <= i < |refs|
        ensures Ranked(refs[i])
      {
        assert BundledEntry(BundledFonts()[i]);
      }
    }
    SortFontsSorted(refs);
    SortFonts(refs)
  }

  // ---------------------------------------------------------------------------------------------
  // Grouping by category

  /** The group key of a font: its category, or sans-serif when empty. */
  function GroupKey(f: FontRef): string {
    if f.category != "" then f.category else SansSerif
  }

  /** The fonts of `s` whose key is `key`, in their original order. */
  function WithKey(s: seq<FontRef>, key: string): (r: seq<FontRef>)
    ensures |r| <= |s|
    ensures forall f :: f in r <==> f in s && GroupKey(f) == key
  {
    if |s| == 0 then []
    else WithKey(s[..|s| - 1], key) + (if GroupKey(s[|s| - 1]) == key then [s[|s| - 1]] else [])
  }

  /** One more font joins its own group and leaves every other group as it was. */
  lemma WithKeyStep(s: seq<FontRef>, i: int)
    requires 0 <= i < |s|
    ensures WithKey(s[..i + 1], GroupKey(s[i])) == WithKey(s[..i], GroupKey(s[i])) + [s[i]]
    ensures forall key :: key != GroupKey(s[i]) ==> WithKey(s[..i + 1], key) == WithKey(s[..i], key)
  {
    var t := s[..i + 1];
    assert t[..|t| - 1] == s[..i] && t[|t| - 1] == s[i];
    forall key | key != GroupKey(s[i])
      ensures WithKey(t, key) == WithKey(s[..i], key)
    {
      var p := WithKey(s[..i], key);
      assert WithKey(t, key) == p + [];
      assert p + [] == p;
    }
  }

  // ---------------------------------------------------------------------------------------------
  // Text path assembly

  /** The pen position after drawing `s` from x = 0: every character advances width + spacing. */
  function PenAfter(font: FontObject, s: string, size: real, spacing: real): real {
    if |s| == 0 then 0.0
    else PenAfter(font, s[..|s| - 1], size, spacing) + font.advance(s[|s| - 1], size) + spacing
  }

  /** The outline fragments of `s`: one per non-space character, drawn at its pen position. */
  function Fragments(font: FontObject, s: string, size: real, spacing: real): seq<string> {
    if |s| == 0 then []
    else
      var p := s[..|s| - 1];
      Fragments(font, p, size, spacing)
        + (if s[|s| - 1] == ' ' then [] else [font.outline(s[|s| - 1], PenAfter(font, p, size, spacing), size)])
  }

  /** The number of characters of `s` that are not spaces. */
  function NonSpaces(s: string): nat {
    if |s| == 0 then 0
    else NonSpaces(s[..|s| - 1]) + (if s[|s| - 1] == ' ' then 0 else 1)
  }

  lemma {:induction false} FragmentCount(font: FontObject, s: string, size: real, spacing: real)
    ensures |Fragments(font, s, size, spacing)| == NonSpaces(s)
  {
    if |s| > 0 {
      FragmentCount(font, s[..|s| - 1], size, spacing);
    }
  }

  /** A text of spaces only yields no fragment, so generateTextPath returns no paths for it. */
  lemma {:induction false} SpacesOnlyNoFragments(font: FontObject, s: string, size: real, spacing: real)
    requires forall i :: 0 <= i < |s| ==> s[i] == ' '
    ensures Fragments(font, s, size, spacing) == []
  {
    if |s| > 0 {
      SpacesOnlyNoFragments(font, s[..|s| - 1], size, spacing);
    }
  }

  /** Any character that is not a space yields at least one fragment. */
  lemma {:induction false} NonSpaceYieldsFragment(font: FontObject, s: string, size: real, spacing: real, k: int)
    requires 0 <= k < |s| && s[k] != ' '
    ensures Fragments(font, s, size, spacing) != []
  {
    if k < |s| - 1 {
      NonSpaceYieldsFragment(font, s[..|s| - 1], size, spacing, k);
    }
  }

  /** The bounds generateTextPath reports for text drawn up to pen position `pen`. */
  function TextBounds(font: FontObject, pen: real, size: real, spacing: real): (b: Bounds)
    ensures b.x1 == 0.0 && b.x2 == pen - spacing
    ensures b.y1 == -(font.ascender / font.unitsPerEm * size)
    ensures b.y2 == (if font.descender < 0.0 then -font.descender else font.descender) / font.unitsPerEm * size
  {
    var descent := if font.descender < 0.0 then -font.descender else font.descender;
    Bounds(0.0, -(font.ascender / font.unitsPerEm * size), pen - spacing, descent / font.unitsPerEm * size)
  }

  /** The single outlined path generateTextPath returns for the given fragments. */
  function TextPath(fragments: seq<string>, bounds: Bounds): (r: PathData)
    ensures |r.paths| == 1 && r.bounds == Some(bounds)
    ensures r.paths[0].path == Join(fragments, " ")
    ensures r.paths[0].fill == "#000000" && r.paths[0].stroke == Some(OutlineColor)
    ensures r.paths[0].strokeWidth == Some(OutlineThickness)
  {
    PathData([PathRecord(Join(fragments, " "), "#000000", Some(OutlineColor), Some(OutlineThickness))], Some(bounds))
  }

  /** The grouping of the first `i` fonts: a group per key that has fonts, in list order. */
  ghost predicate GroupsOf(groups: map<string, seq<FontRef>>, s: seq<FontRef>) {
    && (forall key :: key in groups ==> groups[key] == WithKey(s, key))
    && (forall key :: key in groups <==> WithKey(s, key) != [])
  }

  /** Pushing the next font onto its key's group, created when missing, groups one more font. */
  lemma PushGroups(groups: map<string, seq<FontRef>>, fonts: seq<FontRef>, i: int)
    requires 0 <= i < |fonts| && GroupsOf(groups, fonts[..i])
    ensures var key := GroupKey(fonts[i]);
      GroupsOf(groups[key := (if key in groups then groups[key] else []) + [fonts[i]]], fonts[..i + 1])
  {
    WithKeyStep(fonts, i);
    var key := GroupKey(fonts[i]);
    var g := groups[key := (if key in groups then groups[key] else []) + [fonts[i]]];
    forall k
      ensures (k in g ==> g[k] == WithKey(fonts[..i + 1], k)) && (k in g <==> WithKey(fonts[..i + 1], k) != [])
    {
      if k != key {
        assert WithKey(fonts[..i + 1], k) == WithKey(fonts[..i], k);
      }
    }
  }

  /** The grouping loop of getFontsByCategory: each font is pushed onto its key's group, created on first use. */
  method GroupByKey(fonts: seq<FontRef>) returns (groups: map<string, seq<FontRef>>)
    ensures forall key :: key in groups ==> groups[key] == WithKey(fonts, key)
    ensures forall key :: key in groups <==> WithKey(fonts, key) != []
  {
    groups := map[];
    var i := 0;
    while i < |fonts|
      invariant 0 <= i <= |fonts| && GroupsOf(groups, fonts[..i])
    {
      var f := fonts[i];
      var key := GroupKey(f);
      var group := if key in groups then groups[key] else [];
      PushGroups(groups, fonts, i);
      groups := groups[key := group + [f]];
      i := i + 1;
    }
    assert fonts[..i] == fonts;
  }

  class FontManager {
    var fonts: seq<FontRef>
    var loadedFonts: map<Option<string>, FontObject>
    var currentFont: Option<FontRef>

    constructor()
      ensures fonts == [] && loadedFonts == map[] && currentFont == None
    {
      fonts := [];
      loadedFonts := map[];
      currentFont := None;
    }

    /**
     * initializeFontList: the bundled fonts mapped and sorted; then the first one is loaded
     * (`firstLoad` is how that load settles) and becomes the current font if it loads.
     */
    method InitializeFontList(firstLoad: LoadOutcome)
      modifies this
      ensures fonts == InitialFonts()
      ensures fonts != [] && firstLoad.Loaded? ==>
        loadedFonts == old(loadedFonts)[fonts[0].url := firstLoad.font] && currentFont == Some(fonts[0])
      ensures (fonts == [] || firstLoad.LoadFailed?) ==>
        loadedFonts == old(loadedFonts) && currentFont == old(currentFont)
    {
      fonts := InitialFonts();
      if |fonts| > 0 {
        var loaded := LoadFont(fonts[0].url, firstLoad);
        if loaded.Ok? {
          currentFont := Some(fonts[0]);
        }
      }
    }

    /** getFontsByCategory: the fonts grouped under their keys, each group in list order. */
    method GetFontsByCategory() returns (groups: map<string, seq<FontRef>>)
      ensures forall key :: key in groups ==> groups[key] == WithKey(fonts, key)
      ensures forall key :: key in groups <==> WithKey(fonts, key) != []
    {
      groups := GroupByKey(fonts);
    }

    /** loadFont(url): a parsed font is stored under its URL; a failure stores nothing. */
    method LoadFont(url: Option<string>, outcome: LoadOutcome) returns (r: Result<FontObject, string>)
      modifies this
      ensures fonts == old(fonts) && currentFont == old(currentFont)
      ensures outcome.Loaded? ==> r == Ok(outcome.font) && loadedFonts == old(loadedFonts)[url := outcome.font]
      ensures outcome.LoadFailed? ==> r == Err(outcome.message) && loadedFonts == old(loadedFonts)
    {
      match outcome
      case Loaded(font) =>
        loadedFonts := loadedFonts[url := font];
        r := Ok(font);
      case LoadFailed(message) =>
        r := Err(message);
    }

    /**
     * onFontSelected(fontData): loads the file only when its URL is not cached; the font becomes
     * current (and `changed`, the fontChanged event, fires) unless that load fails.
     */
    method OnFontSelected(fontData: FontRef, outcome: LoadOutcome) returns (changed: bool)
      modifies this
      ensures fonts == old(fonts)
      ensures fontData.url in old(loadedFonts) ==>
        changed && currentFont == Some(fontData) && loadedFonts == old(loadedFonts)
      ensures fontData.url !in old(loadedFonts) && outcome.Loaded? ==>
        changed && currentFont == Some(fontData) && loadedFonts == old(loadedFonts)[fontData.url := outcome.font]
      ensures fontData.url !in old(loadedFonts) && outcome.LoadFailed? ==>
        !changed && currentFont == old(currentFont) && loadedFonts == old(loadedFonts)
      ensures changed ==> fontData.url in loadedFonts
    {
      if fontData.url !in loadedFonts {
        var loaded := LoadFont(fontData.url, outcome);
        if loaded.Err? {
          return false;
        }
      }
      currentFont := Some(fontData);
      changed := true;
    }

    function GetCurrentFont(): (r: Option<FontRef>)
      reads this
      ensures r == currentFont
    {
      currentFont
    }

    /** getCurrentFontObject: nothing without a current font, else the font cached under its URL. */
    function GetCurrentFontObject(): (r: Option<FontObject>)
      reads this
      ensures currentFont.None? ==> r.None?
      ensures currentFont.Some? ==> (r.Some? <==> currentFont.value.url in loadedFonts)
      ensures r.Some? ==> currentFont.Some? && currentFont.value.url in loadedFonts && r.value == loadedFonts[currentFont.value.url]
    {
      match currentFont
      case None => None
      case Some(f) => if f.url in loadedFonts then Some(loadedFonts[f.url]) else None
    }

    /**
     * generateTextPath(text, fontSize, letterSpacing): one outlined path made of a fragment per
     * non-space character, with bounds from the final pen position and the font's metrics; no
     * paths without a font, for empty text, or for text of spaces only.
     */
    method GenerateTextPath(text: string, fontSize: real, letterSpacing: real) returns (r: PathData)
      ensures GetCurrentFontObject().None? || text == "" ==> r == NoPaths
      ensures GetCurrentFontObject().Some? && text != "" ==> (
        var font := GetCurrentFontObject().value;
        var frags := Fragments(font, text, fontSize, letterSpacing);
        r == if frags == [] then NoPaths
             else TextPath(frags, TextBounds(font, PenAfter(font, text, fontSize, letterSpacing), fontSize, letterSpacing)))
    {
      var fontObject := GetCurrentFontObject();
      if fontObject.None? || text == "" {
        return NoPaths;
      }
      var font := fontObject.value;
      var x := 0.0;
      var combinedPaths: seq<string> := [];
      var i := 0;
      while i < |text|
        invariant 0 <= i <= |text|
        invariant x == PenAfter(font, text[..i], fontSize, letterSpacing)
        invariant combinedPaths == Fragments(font, text[..i], fontSize, letterSpacing)
      {
        var c := text[i];
        assert text[..i + 1][..i] == text[..i];
        if c == ' ' {
          x := x + font.advance(' ', fontSize) + letterSpacing;
        } else {
          var charPath := font.outline(c, x, fontSize);
          x := x + font.advance(c, fontSize) + letterSpacing;
          combinedPaths := combinedPaths + [charPath];
        }
        i := i + 1;
      }
      assert text[..i] == text;
      var bounds := TextBounds(font, x, fontSize, letterSpacing);
      if |combinedPaths| == 0 {
        return NoPaths;
      }
      r := TextPath(combinedPaths, bounds);
    }
  }

  /** The fragment count of a generated path is the number of non-space characters. */
  lemma GeneratedFragments(font: FontObject, text: string, size: real, spacing: real)
    ensures NonSpaces(text) == 0 <==> Fragments(font, text, size, spacing) == []
  {
    FragmentCount(font, text, size, spacing);
  }
}
