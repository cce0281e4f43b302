/**
 * The font picker (js/fontPicker.js): the rows of the modal's font list (category headers,
 * font items and messages), grouped rendering, search and category filtering by display flags,
 * single selection, and applying the selection.
 */
module Picker {
  import opened Wrappers
  import opened Text
  import opened WebFonts
  import Fonts

  /** A font handed to the picker; `family` or `name` is empty where the record has none. */
  datatype PickerFont = PickerFont(family: string, name: string, url: Option<string>, category: string)

  /** A child of the list container; `shown` is its display flag. */
  datatype Row =
    | Header(title: string, category: string, shown: bool)
    | Item(font: PickerFont, family: string, category: string, shown: bool, selected: bool)
    | Message(text: string)
  {
    /** The row with its display flag set (a message has none). */
    function Shown(show: bool): (r: Row)
      ensures r.Header? == Header? && r.Item? == Item? && r.Message? == Message?
      ensures !Message? ==> r.shown == show
      ensures Header? ==> r.title == title && r.category == category
      ensures Item? ==> r.font == font && r.family == family && r.category == category && r.selected == selected
      ensures Message? ==> r == this
    {
      match this
      case Header(l, c, _) => Header(l, c, show)
      case Item(f, fam, c, _, sel) => Item(f, fam, c, show, sel)
      case Message(_) => this
    }

    /** An item row with its selection flag set; other rows are unchanged. */
    function Selected(on: bool): (r: Row)
      ensures Item? ==> r == Item(font, family, category, shown, on)
      ensures !Item? ==> r == this
    {
      match this
      case Item(f, fam, c, s, _) => Item(f, fam, c, s, on)
      case _ => this
    }
  }

  const CategoryOrder: seq<string> := ["sans-serif", "serif", "monospace", "display", "handwriting"]

  const NoFontsMessage := "No fonts found. Please try restarting the application."
  const NoMatchMessage := "No fonts match your search."
  const NoCategoryMessage := "No fonts found in this category."
  const LoadingMessage := "Loading fonts..."
  const LoadFailedMessage := "Failed to load fonts. Please try restarting the application."
  const AllCategories := "all"
  const InitialDisplay := "Select Font"

  /** The shown name of a font: its family, else its name. */
  function FamilyOf(f: PickerFont): string {
    if f.family != "" then f.family else f.name
  }

  /** The group key of a font: its category, else sans-serif. */
  function KeyOf(f: PickerFont): string {
    if f.category != "" then f.category else "sans-serif"
  }

  /** The header text of a category. */
  function Label(category: string): string {
    if category == "sans-serif" then "Sans Serif"
    else if category == "serif" then "Serif"
    else if category == "monospace" then "Monospace"
    else if category == "display" then "Display"
    else if category == "handwriting" then "Handwriting"
    else category
  }

  /** The row createFontItem makes for a font: shown and not selected. */
  function ItemFor(f: PickerFont): Row {
    Item(f, FamilyOf(f), KeyOf(f), true, false)
  }

  function FromFontRef(f: Fonts.FontRef): PickerFont {
    PickerFont("", f.name, f.url, f.category)
  }

  predicate Distinct<T(==)>(s: seq<T>) {
    forall i, j :: 0 <= i < j < |s| ==> s[i] != s[j]
  }

  // ---------------------------------------------------------------------------------------------
  // Grouped rendering

  /** The fonts of `s` with key `key`, in input order. */
  function Group(s: seq<PickerFont>, key: string): (r: seq<PickerFont>)
    ensures forall f :: f in r <==> f in s && KeyOf(f) == key
  {
    if |s| == 0 then []
    else Group(s[..|s| - 1], key) + (if KeyOf(s[|s| - 1]) == key then [s[|s| - 1]] else [])
  }

  /** The distinct keys of `s` in order of first appearance (the key order of a plain object). */
  function Keys(s: seq<PickerFont>): (r: seq<string>)
    ensures Distinct(r)
  {
    if |s| == 0 then []
    else
      var k := KeyOf(s[|s| - 1]);
      var rest := Keys(s[..|s| - 1]);
      if k in rest then rest else rest + [k]
  }

  /** Every font's key is among the keys. */
  lemma {:induction false} KeysCover(s: seq<PickerFont>)
    ensures forall j :: 0 <= j < |s| ==> KeyOf(s[j]) in Keys(s)
  {
    if |s| > 0 {
      var p := s[..|s| - 1];
      KeysCover(p);
      assert forall j :: 0 <= j < |p| ==> p[j] == s[j];
    }
  }

  /** Every key has a non-empty group. */
  lemma {:induction false} GroupsOfKeys(s: seq<PickerFont>)
    ensures forall c :: c in Keys(s) ==> Group(s, c) != []
  {
    if |s| > 0 {
      var p := s[..|s| - 1];
      GroupsOfKeys(p);
      forall c | c in Keys(s)
        ensures Group(s, c) != []
      {
        if c in Keys(p) {
          assert |Group(p, c)| > 0;
        }
      }
    }
  }

  /** The elements of `order` that occur in `keys`, in the order of `order`. */
  function Present(order: seq<string>, keys: seq<string>): (r: seq<string>)
    ensures forall c :: c in r <==> c in order && c in keys
    ensures Distinct(order) ==> Distinct(r)
  {
    if |order| == 0 then []
    else
      var p := order[..|order| - 1];
      var c := order[|order| - 1];
      assert Distinct(order) ==> c !in p;
      Present(p, keys) + (if c in keys then [c] else [])
  }

  /** The elements of `keys` outside the fixed category order, in their own order. */
  function Others(keys: seq<string>): (r: seq<string>)
    ensures forall c :: c in r <==> c in keys && c !in CategoryOrder
    ensures Distinct(keys) ==> Distinct(r)
  {
    if |keys| == 0 then []
    else
      var p := keys[..|keys| - 1];
      var c := keys[|keys| - 1];
      assert Distinct(keys) ==> c !in p;
      Others(p) + (if c !in CategoryOrder then [c] else [])
  }

  /** The section order: the fixed categories present, then the others by first appearance. */
  function Order(fonts: seq<PickerFont>): seq<string> {
    Present(CategoryOrder, Keys(fonts)) + Others(Keys(fonts))
  }

  function Items(s: seq<PickerFont>): (r: seq<Row>)
    ensures |r| == |s|
    ensures forall i :: 0 <= i < |s| ==> r[i] == ItemFor(s[i])
  {
    seq(|s|, i requires 0 <= i < |s| => ItemFor(s[i]))
  }

  /** One section: the category's header, then an item per font of the category. */
  function Section(fonts: seq<PickerFont>, category: string): seq<Row> {
    [Header(Label(category), category, true)] + Items(Group(fonts, category))
  }

  /** The sections of `categories`, one after another. */
  function Layout(fonts: seq<PickerFont>, categories: seq<string>): seq<Row> {
    if |categories| == 0 then []
    else Layout(fonts, categories[..|categories| - 1]) + Section(fonts, categories[|categories| - 1])
  }

  /** The rows renderFontList produces for a font list. */
  function Rendered(fonts: seq<PickerFont>): seq<Row> {
    if |fonts| == 0 then [Message(NoFontsMessage)]
    else Layout(fonts, Order(fonts))
  }

  /** The fonts of the item rows, in row order. */
  function FontsOf(rows: seq<Row>): seq<PickerFont> {
    if |rows| == 0 then []
    else FontsOf(rows[..|rows| - 1]) + (if rows[|rows| - 1].Item? then [rows[|rows| - 1].font] else [])
  }

  lemma {:induction false} FontsOfAppend(a: seq<Row>, b: seq<Row>)
    ensures FontsOf(a + b) == FontsOf(a) + FontsOf(b)
    decreases |b|
  {
    if |b| > 0 {
      assert (a + b)[..|a + b| - 1] == a + b[..|b| - 1];
      FontsOfAppend(a, b[..|b| - 1]);
    } else {
      assert a + b == a;
    }
  }

  lemma {:induction false} FontsOfItems(s: seq<PickerFont>)
    ensures FontsOf(Items(s)) == s
  {
    if |s| > 0 {
      assert Items(s)[..|s| - 1] == Items(s[..|s| - 1]);
      FontsOfItems(s[..|s| - 1]);
    }
  }

  /** The groups of `categories`, one after another. */
  function GroupsOver(fonts: seq<PickerFont>, categories: seq<string>): seq<PickerFont> {
    if |categories| == 0 then []
    else GroupsOver(fonts, categories[..|categories| - 1]) + Group(fonts, categories[|categories| - 1])
  }

  lemma SectionFonts(fonts: seq<PickerFont>, c: string)
    ensures FontsOf(Section(fonts, c)) == Group(fonts, c)
  {
    var h := [Header(Label(c), c, true)];
    FontsOfAppend(h, Items(Group(fonts, c)));
    assert FontsOf(h) == FontsOf([]) + [];
    FontsOfItems(Group(fonts, c));
  }

  lemma {:induction false} LayoutFonts(fonts: seq<PickerFont>, categories: seq<string>)
    ensures FontsOf(Layout(fonts, categories)) == GroupsOver(fonts, categories)
  {
    if |categories| > 0 {
      var q := categories[..|categories| - 1];
      var c := categories[|categories| - 1];
      LayoutFonts(fonts, q);
      FontsOfAppend(Layout(fonts, q), Section(fonts, c));
      SectionFonts(fonts, c);
    }
  }

  /** Adding a font adds it to the groups exactly once when its key is among distinct categories. */
  lemma {:induction false} GroupsOverStep(p: seq<PickerFont>, f: PickerFont, categories: seq<string>)
    requires Distinct(categories)
    ensures multiset(GroupsOver(p + [f], categories))
      == multiset(GroupsOver(p, categories)) + (if KeyOf(f) in categories then multiset{f} else multiset{})
  {
    if |categories| > 0 {
      var q := categories[..|categories| - 1];
      var c := categories[|categories| - 1];
      assert Distinct(q);
      assert KeyOf(f) in categories <==> KeyOf(f) in q || KeyOf(f) == c;
      assert KeyOf(f) == c ==> KeyOf(f) !in q;
      GroupsOverStep(p, f, q);
      assert (p + [f])[..|p + [f]| - 1] == p;
    }
  }

  /** Groups over distinct categories covering every key hold each font exactly as often as the list. */
  lemma {:induction false} GroupsOverAll(fonts: seq<PickerFont>, categories: seq<string>)
    requires Distinct(categories)
    requires forall j :: 0 <= j < |fonts| ==> KeyOf(fonts[j]) in categories
    ensures multiset(GroupsOver(fonts, categories)) == multiset(fonts)
  {
    if |fonts| == 0 {
      GroupsOverEmpty(categories);
    } else {
      var p := fonts[..|fonts| - 1];
      var f := fonts[|fonts| - 1];
      GroupsOverAll(p, categories);
      assert p + [f] == fonts;
      GroupsOverStep(p, f, categories);
    }
  }

  lemma {:induction false} GroupsOverEmpty(categories: seq<string>)
    ensures GroupsOver([], categories) == []
  {
    if |categories| > 0 {
      GroupsOverEmpty(categories[..|categories| - 1]);
    }
  }

  /** The section order names every key of the list once. */
  lemma OrderCoversKeys(fonts: seq<PickerFont>)
    ensures Distinct(Order(fonts))
    ensures forall j :: 0 <= j < |fonts| ==> KeyOf(fonts[j]) in Order(fonts)
  {
    var keys := Keys(fonts);
    var a := Present(CategoryOrder, keys);
    var b := Others(keys);
    assert Distinct(a) && Distinct(b);
    var o := a + b;
    forall i, j | 0 <= i < j < |o|
      ensures o[i] != o[j]
    {
      if i < |a| && j >= |a| {
        assert o[i] in a && o[j] in b;
      }
    }
    KeysCover(fonts);
    forall j | 0 <= j < |fonts|
      ensures KeyOf(fonts[j]) in o
    {
      assert KeyOf(fonts[j]) in keys;
    }
  }

  /** renderFontList shows every font exactly once (as often as it occurs in the list). */
  lemma EveryFontOnce(fonts: seq<PickerFont>)
    requires fonts != []
    ensures multiset(FontsOf(Rendered(fonts))) == multiset(fonts)
  {
    OrderCoversKeys(fonts);
    LayoutFonts(fonts, Order(fonts));
    GroupsOverAll(fonts, Order(fonts));
  }

  /** An absent or empty list renders the message alone. */
  lemma EmptyListMessage()
    ensures Rendered([]) == [Message(NoFontsMessage)] && FontsOf(Rendered([])) == []
  {
    assert FontsOf([Message(NoFontsMessage)]) == FontsOf([]) + [];
  }

  /** A row that is a selected item. */
  predicate Sel(r: Row) {
    r.Item? && r.selected
  }

  /** At most one row of the list is a selected item. */
  predicate SingleSelection(rows: seq<Row>) {
    forall i, j :: 0 <= i < |rows| && 0 <= j < |rows| && Sel(rows[i]) && Sel(rows[j]) ==> i == j
  }

  /** renderFontList's appending of one section to the fragment. */
  method AppendSection(fragment: seq<Row>, category: string, group: seq<PickerFont>) returns (r: seq<Row>)
    ensures r == fragment + ([Header(Label(category), category, true)] + Items(group))
  {
    r := fragment + [Header(Label(category), category, true)];
    var i := 0;
    while i < |group|
      invariant 0 <= i <= |group|
      invariant r == fragment + [Header(Label(category), category, true)] + Items(group[..i])
    {
      assert Items(group[..i + 1]) == Items(group[..i]) + [ItemFor(group[i])];
      r := r + [ItemFor(group[i])];
      i := i + 1;
    }
    assert group[..i] == group;
    assert r == fragment + ([Header(Label(category), category, true)] + Items(group));
  }

  lemma LayoutStep(fonts: seq<PickerFont>, categories: seq<string>, c: string)
    ensures Layout(fonts, categories + [c]) == Layout(fonts, categories) + ([Header(Label(c), c, true)] + Items(Group(fonts, c)))
  {
    assert (categories + [c])[..|categories|] == categories;
  }

  lemma PresentStep(order: seq<string>, k: int, keys: seq<string>)
    requires 0 <= k < |order|
    ensures order[k] in keys ==> Present(order[..k + 1], keys) == Present(order[..k], keys) + [order[k]]
    ensures order[k] !in keys ==> Present(order[..k + 1], keys) == Present(order[..k], keys)
  {
    var o := order[..k + 1];
    assert o[..|o| - 1] == order[..k] && o[|o| - 1] == order[k];
    var p := Present(order[..k], keys);
    if order[k] in keys {
      assert Present(o, keys) == p + [order[k]];
    } else {
      assert Present(o, keys) == p + [];
      assert p + [] == p;
    }
  }

  lemma OthersLayoutStep(fonts: seq<PickerFont>, front: seq<string>, keys: seq<string>, k: int)
    requires 0 <= k < |keys|
    ensures keys[k] !in CategoryOrder ==>
      Layout(fonts, front + Others(keys[..k + 1]))
        == Layout(fonts, front + Others(keys[..k])) + ([Header(Label(keys[k]), keys[k], true)] + Items(Group(fonts, keys[k])))
    ensures keys[k] in CategoryOrder ==> Layout(fonts, front + Others(keys[..k + 1])) == Layout(fonts, front + Others(keys[..k]))
  {
    OthersStep(keys, k);
    if keys[k] !in CategoryOrder {
      assert front + Others(keys[..k + 1]) == (front + Others(keys[..k])) + [keys[k]];
      LayoutStep(fonts, front + Others(keys[..k]), keys[k]);
    }
  }

  lemma OthersStep(keys: seq<string>, k: int)
    requires 0 <= k < |keys|
    ensures keys[k] !in CategoryOrder ==> Others(keys[..k + 1]) == Others(keys[..k]) + [keys[k]]
    ensures keys[k] in CategoryOrder ==> Others(keys[..k + 1]) == Others(keys[..k])
  {
    var o := keys[..k + 1];
    assert o[..|o| - 1] == keys[..k] && o[|o| - 1] == keys[k];
    var p := Others(keys[..k]);
    if keys[k] !in CategoryOrder {
      assert Others(o) == p + [keys[k]];
    } else {
      assert Others(o) == p + [];
      assert p + [] == p;
    }
  }

  lemma {:induction false} LayoutUnselected(fonts: seq<PickerFont>, categories: seq<string>)
    ensures forall j :: 0 <= j < |Layout(fonts, categories)| ==> !Sel(Layout(fonts, categories)[j])
  {
    if |categories| > 0 {
      LayoutUnselected(fonts, categories[..|categories| - 1]);
    }
  }

  // ---------------------------------------------------------------------------------------------
  // Display flags

  /** Every item and header shown; messages untouched. */
  function ShowAll(rows: seq<Row>): (r: seq<Row>)
    ensures |r| == |rows|
    ensures forall j :: 0 <= j < |rows| ==> r[j] == if rows[j].Message? then rows[j] else rows[j].Shown(true)
  {
    seq(|rows|, j requires 0 <= j < |rows| => if rows[j].Message? then rows[j] else rows[j].Shown(true))
  }

  /** An item whose lower-cased family contains the lower-cased query. */
  predicate Matches(r: Row, query: string)
    requires r.Item?
  {
    Includes(ToLower(r.family), ToLower(query))
  }

  /** Some item matches the query. */
  predicate AnyMatch(rows: seq<Row>, query: string) {
    exists j :: 0 <= j < |rows| && rows[j].Item? && Matches(rows[j], query)
  }

  /** The flags after a search of two or more characters that matches: headers hidden, items by match. */
  function Searched(rows: seq<Row>, query: string): (r: seq<Row>)
    ensures |r| == |rows|
    ensures forall j :: 0 <= j < |rows| && rows[j].Header? ==> r[j] == rows[j].Shown(false)
    ensures forall j :: 0 <= j < |rows| && rows[j].Item? ==> r[j] == rows[j].Shown(Matches(rows[j], query))
    ensures forall j :: 0 <= j < |rows| && rows[j].Message? ==> r[j] == rows[j]
  {
    seq(|rows|, j requires 0 <= j < |rows| =>
      if rows[j].Header? then rows[j].Shown(false)
      else if rows[j].Item? then rows[j].Shown(Matches(rows[j], query))
      else rows[j])
  }

  /** Some item has the category. */
  predicate AnyInCategory(rows: seq<Row>, category: string) {
    exists j :: 0 <= j < |rows| && rows[j].Item? && rows[j].category == category
  }

  /** An item of the category directly follows row `j`. */
  predicate NextInCategory(rows: seq<Row>, j: int, category: string)
    requires 0 <= j < |rows|
  {
    j + 1 < |rows| && rows[j + 1].Item? && rows[j + 1].category == category
  }

  /**
   * The flags after filtering by a category that has items: an item is shown iff it has the
   * category, and a header iff the item right after it is shown.
   */
  function Filtered(rows: seq<Row>, category: string): (r: seq<Row>)
    ensures |r| == |rows|
    ensures forall j :: 0 <= j < |rows| && rows[j].Header? ==> r[j] == rows[j].Shown(NextInCategory(rows, j, category))
    ensures forall j :: 0 <= j < |rows| && rows[j].Item? ==> r[j] == rows[j].Shown(rows[j].category == category)
    ensures forall j :: 0 <= j < |rows| && rows[j].Message? ==> r[j] == rows[j]
  {
    seq(|rows|, j requires 0 <= j < |rows| =>
      if rows[j].Header? then rows[j].Shown(NextInCategory(rows, j, category))
      else if rows[j].Item? then rows[j].Shown(rows[j].category == category)
      else rows[j])
  }

  /**
   * The loop of filterFontsByCategory over the rows: each item is shown iff it has the category,
   * a header right before such an item is shown, and every other row keeps its flags.
   */
  method ShowCategoryRows(rows: seq<Row>, category: string) returns (r: seq<Row>, hasVisibleFonts: bool)
    ensures |r| == |rows|
    ensures forall j :: 0 <= j < |rows| && rows[j].Header? ==>
      r[j] == if NextInCategory(rows, j, category) then rows[j].Shown(true) else rows[j]
    ensures forall j :: 0 <= j < |rows| && rows[j].Message? ==> r[j] == rows[j]
    ensures forall j :: 0 <= j < |rows| && rows[j].Item? ==> r[j] == rows[j].Shown(rows[j].category == category)
    ensures hasVisibleFonts <==> AnyInCategory(rows, category)
  {
    r := rows;
    hasVisibleFonts := false;
    var i := 0;
    while i < |r|
      invariant 0 <= i <= |r| && |r| == |rows|
      invariant forall j :: 0 <= j < |r| && rows[j].Header? ==>
        r[j] == if j + 1 < i && NextInCategory(rows, j, category) then rows[j].Shown(true) else rows[j]
      invariant forall j :: 0 <= j < |r| && rows[j].Message? ==> r[j] == rows[j]
      invariant forall j :: 0 <= j < |r| && rows[j].Item? ==>
        r[j] == if j < i then rows[j].Shown(rows[j].category == category) else rows[j]
      invariant hasVisibleFonts <==> exists j :: 0 <= j < i && rows[j].Item? && rows[j].category == category
    {
      if r[i].Item? {
        if r[i].category == category {
          r := r[i := r[i].Shown(true)];
          hasVisibleFonts := true;
          if i > 0 && r[i - 1].Header? {
            r := r[i - 1 := r[i - 1].Shown(true)];
          }
        } else {
          r := r[i := r[i].Shown(false)];
        }
      }
      i := i + 1;
    }
  }

  /**
   * The loop of searchFonts over the rows: each item is shown iff its lower-cased family contains
   * the lower-cased query, and every other row keeps its flags.
   */
  method SearchRows(rows: seq<Row>, query: string) returns (r: seq<Row>, hasVisibleFonts: bool)
    ensures |r| == |rows|
    ensures forall j :: 0 <= j < |rows| && !rows[j].Item? ==> r[j] == rows[j]
    ensures forall j :: 0 <= j < |rows| && rows[j].Item? ==> r[j] == rows[j].Shown(Matches(rows[j], query))
    ensures hasVisibleFonts <==> AnyMatch(rows, query)
  {
    var lowercaseQuery := ToLower(query);
    r := rows;
    hasVisibleFonts := false;
    var i := 0;
    while i < |r|
      invariant 0 <= i <= |r| && |r| == |rows|
      invariant forall j :: 0 <= j < |r| && !rows[j].Item? ==> r[j] == rows[j]
      invariant forall j :: 0 <= j < |r| && rows[j].Item? ==>
        r[j] == if j < i then rows[j].Shown(Matches(rows[j], query)) else rows[j]
      invariant hasVisibleFonts <==> exists j :: 0 <= j < i && rows[j].Item? && Matches(rows[j], query)
    {
      if r[i].Item? {
        if Includes(ToLower(r[i].family), lowercaseQuery) {
          r := r[i := r[i].Shown(true)];
          hasVisibleFonts := true;
        } else {
          r := r[i := r[i].Shown(false)];
        }
      }
      i := i + 1;
    }
  }

  /** Rows whose selection marks are those of a list with at most one selected row have at most one too. */
  lemma SelectionKept(before: seq<Row>, after: seq<Row>)
    requires SingleSelection(before) && |after| == |before|
    requires forall j :: 0 <= j < |before| && !before[j].Item? ==> !after[j].Item?
    requires forall j :: 0 <= j < |before| && before[j].Item? ==> after[j].Item? && after[j].selected == before[j].selected
    ensures SingleSelection(after)
  {
  }

  /** The index of the first selected item, as `querySelector('.font-item.selected')` finds it. */
  function FirstSelected(rows: seq<Row>): (r: Option<nat>)
    ensures r.Some? ==> r.value < |rows| && Sel(rows[r.value])
    ensures r.Some? ==> forall j :: 0 <= j < r.value ==> !Sel(rows[j])
    ensures r.None? ==> forall j :: 0 <= j < |rows| ==> !Sel(rows[j])
  {
    if |rows| == 0 then None
    else if Sel(rows[0]) then Some(0)
    else match FirstSelected(rows[1..])
      case None => None
      case Some(k) => Some(k + 1)
  }

  class FontPicker {
    /** The children of the font list container. */
    var rows: seq<Row>
    var selectedFont: Option<PickerFont>
    var isModalOpen: bool
    /** The text of the selected-font display. */
    var displayText: string
    const fontManager: Fonts.FontManager
    const webFonts: GoogleFontsManager

    predicate Valid()
      reads this, webFonts
    {
      SingleSelection(rows) && webFonts.Valid()
    }

    /** The picker as constructed: the list shows the loading indicator and the modal is closed. */
    constructor(fontManager: Fonts.FontManager)
      ensures Valid() && fresh(webFonts)
      ensures this.fontManager == fontManager
      ensures rows == [Message(LoadingMessage)] && selectedFont == None && !isModalOpen
      ensures displayText == InitialDisplay && webFonts.fonts == []
    {
      this.fontManager := fontManager;
      webFonts := new GoogleFontsManager();
      rows := [Message(LoadingMessage)];
      selectedFont := None;
      isModalOpen := false;
      displayText := InitialDisplay;
    }

    /**
     * loadGoogleFonts: fetches the list; if it is empty the local fonts are rendered instead (or a
     * failure message when there are none), otherwise the font manager's list is rendered.
     */
    method LoadGoogleFonts()
      requires Valid()
      modifies this, webFonts
      ensures Valid()
      ensures webFonts.fonts == webFonts.localFonts + webFonts.systemFonts
      ensures webFonts.fonts != [] ==> rows == Rendered(RefsToFonts(fontManager.fonts))
      ensures webFonts.fonts == [] ==> rows == [Message(LoadFailedMessage)]
      ensures selectedFont == old(selectedFont) && isModalOpen == old(isModalOpen) && displayText == old(displayText)
    {
      rows := [Message(LoadingMessage)];
      var fetched := webFonts.FetchFontsList();
      if |webFonts.fonts| == 0 {
        // The local list is part of the fetched one, so it is empty too: the failure message.
        rows := [Message(LoadFailedMessage)];
      } else {
        RenderFontList(RefsToFonts(fontManager.fonts));
      }
    }

    /**
     * renderFontList(fonts): a message alone for an empty list, otherwise a section per category
     * (the fixed categories first, then the rest by first appearance), fonts in input order.
     */
    method RenderFontList(fonts: seq<PickerFont>)
      requires Valid()
      modifies this
      ensures Valid()
      ensures rows == Rendered(fonts)
      ensures selectedFont == old(selectedFont) && isModalOpen == old(isModalOpen) && displayText == old(displayText)
    {
      if |fonts| == 0 {
        rows := [Message(NoFontsMessage)];
        return;
      }
      var groups, keys := GroupFonts(fonts);
      var fragment := ArrangeSections(fonts, groups, keys);
      LayoutUnselected(fonts, Order(fonts));
      rows := fragment;
    }

    /** Sets the display flag of every header (or every item) to `show`. */
    method ShowKind(headers: bool, show: bool)
      requires Valid()
      modifies this
      ensures Valid()
      ensures |rows| == |old(rows)|
      ensures forall j :: 0 <= j < |rows| ==>
        rows[j] == if (headers && old(rows)[j].Header?) || (!headers && old(rows)[j].Item?) then old(rows)[j].Shown(show) else old(rows)[j]
      ensures selectedFont == old(selectedFont) && isModalOpen == old(isModalOpen) && displayText == old(displayText)
    {
      var i := 0;
      while i < |rows|
        invariant 0 <= i <= |rows| && |rows| == |old(rows)|
        invariant forall j :: 0 <= j < |rows| ==>
          rows[j] == if j < i && ((headers && old(rows)[j].Header?) || (!headers && old(rows)[j].Item?)) then old(rows)[j].Shown(show) else old(rows)[j]
        invariant Valid()
        invariant selectedFont == old(selectedFont) && isModalOpen == old(isModalOpen) && displayText == old(displayText)
      {
        if (headers && rows[i].Header?) || (!headers && rows[i].Item?) {
          rows := rows[i := rows[i].Shown(show)];
        }
        i := i + 1;
      }
    }

    /**
     * searchFonts(query): fewer than two characters show every item and header; otherwise headers
     * are hidden, an item is shown iff its family contains the query ignoring case, and with no
     * match the list is replaced by a message.
     */
    method SearchFonts(query: string)
      requires Valid()
      modifies this
      ensures Valid()
      ensures |query| < 2 ==> rows == ShowAll(old(rows))
      ensures |query| >= 2 && AnyMatch(old(rows), query) ==> rows == Searched(old(rows), query)
      ensures |query| >= 2 && !AnyMatch(old(rows), query) ==> rows == [Message(NoMatchMessage)]
      ensures selectedFont == old(selectedFont) && isModalOpen == old(isModalOpen) && displayText == old(displayText)
    {
      if |query| < 2 {
        ShowKind(false, true);
        ShowKind(true, true);
        return;
      }
      ShowKind(true, false);
      ghost var hidden := rows;
      var r, hasVisibleFonts := SearchRows(rows, query);
      assert forall j :: 0 <= j < |hidden| && hidden[j].Item? ==> hidden[j] == old(rows)[j];
      if !hasVisibleFonts {
        assert !AnyMatch(old(rows), query);
        rows := [Message(NoMatchMessage)];
      } else {
        assert AnyMatch(old(rows), query);
        SelectionKept(hidden, r);
        rows := r;
      }
    }

    /**
     * filterFontsByCategory(category): 'all' shows every item and header; otherwise an item is
     * shown iff it has the category and a header iff the item after it is shown, and with no
     * such item the list is replaced by a message.
     */
    method FilterFontsByCategory(category: string)
      requires Valid()
      modifies this
      ensures Valid()
      ensures category == AllCategories ==> rows == ShowAll(old(rows))
      ensures category != AllCategories && AnyInCategory(old(rows), category) ==> rows == Filtered(old(rows), category)
      ensures category != AllCategories && !AnyInCategory(old(rows), category) ==> rows == [Message(NoCategoryMessage)]
      ensures selectedFont == old(selectedFont) && isModalOpen == old(isModalOpen) && displayText == old(displayText)
    {
      if category == AllCategories {
        ShowKind(false, true);
        ShowKind(true, true);
        return;
      }
      ShowKind(true, false);
      ghost var hidden := rows;
      assert forall j :: 0 <= j < |rows| ==> NextInCategory(hidden, j, category) == NextInCategory(old(rows), j, category);
      assert AnyInCategory(hidden, category) ==> AnyInCategory(old(rows), category);
      assert AnyInCategory(old(rows), category) ==> AnyInCategory(hidden, category) by {
        if AnyInCategory(old(rows), category) {
          var w :| 0 <= w < |old(rows)| && old(rows)[w].Item? && old(rows)[w].category == category;
          assert hidden[w] == old(rows)[w];
        }
      }
      var hasVisibleFonts := ShowCategoryItems(category);
      if !hasVisibleFonts {
        rows := [Message(NoCategoryMessage)];
      }
    }

    /**
     * The item pass of filterFontsByCategory: each item is shown iff it has the category, and the
     * header right before a shown item is shown; the result says whether any item is shown.
     */
    method ShowCategoryItems(category: string) returns (hasVisibleFonts: bool)
      requires Valid()
      modifies this
      ensures Valid()
      ensures |rows| == |old(rows)|
      ensures forall j :: 0 <= j < |rows| && old(rows)[j].Header? ==>
        rows[j] == if NextInCategory(old(rows), j, category) then old(rows)[j].Shown(true) else old(rows)[j]
      ensures forall j :: 0 <= j < |rows| && old(rows)[j].Message? ==> rows[j] == old(rows)[j]
      ensures forall j :: 0 <= j < |rows| && old(rows)[j].Item? ==> rows[j] == old(rows)[j].Shown(old(rows)[j].category == category)
      ensures hasVisibleFonts <==> AnyInCategory(old(rows), category)
      ensures selectedFont == old(selectedFont) && isModalOpen == old(isModalOpen) && displayText == old(displayText)
    {
      var r;
      r, hasVisibleFonts := ShowCategoryRows(rows, category);
      SelectionKept(rows, r);
      rows := r;
    }

    /** A click on item `k`: the previously selected item loses the mark, `k` gains it and its font is selected. */
    method ClickItem(k: nat)
      requires Valid() && k < |rows| && rows[k].Item?
      modifies this
      ensures Valid()
      ensures |rows| == |old(rows)|
      ensures forall j :: 0 <= j < |rows| ==> rows[j] == old(rows)[j].Selected(j == k)
      ensures forall j :: 0 <= j < |rows| ==> (Sel(rows[j]) <==> j == k)
      ensures selectedFont == Some(old(rows)[k].font)
      ensures isModalOpen == old(isModalOpen) && displayText == old(displayText)
    {
      var previously := FirstSelected(rows);
      if previously.Some? {
        rows := rows[previously.value := rows[previously.value].Selected(false)];
      }
      rows := rows[k := rows[k].Selected(true)];
      selectedFont := Some(rows[k].font);
      forall j | 0 <= j < |rows| && j != k
        ensures rows[j] == old(rows)[j].Selected(false)
      {
        if old(rows)[j].Item? && previously != Some(j) {
          assert !Sel(old(rows)[j]);
        }
      }
    }

    method OpenModal()
      modifies this
      ensures isModalOpen
      ensures rows == old(rows) && selectedFont == old(selectedFont) && displayText == old(displayText)
    {
      isModalOpen := true;
    }

    method CloseModal()
      modifies this
      ensures !isModalOpen
      ensures rows == old(rows) && selectedFont == old(selectedFont) && displayText == old(displayText)
    {
      isModalOpen := false;
    }

    /**
     * applySelectedFont: without a selection the modal only closes; otherwise the display shows the
     * family, the font manager is handed the font with its own URL or the web font file, and the
     * modal closes.
     */
    method ApplySelectedFont() returns (notified: Option<Fonts.FontRef>)
      requires Valid()
      modifies this
      ensures Valid() && !isModalOpen && rows == old(rows) && selectedFont == old(selectedFont)
      ensures selectedFont.None? ==> notified.None? && displayText == old(displayText)
      ensures selectedFont.Some? ==> (
        var f := selectedFont.value;
        && displayText == FamilyOf(f)
        && notified.Some? && notified.value.name == FamilyOf(f) && notified.value.url.Some?
        && notified.value.url.value == (if f.url.Some? && f.url.value != "" then f.url.value else webFonts.GetWebFont(FamilyOf(f))))
      ensures selectedFont.Some? && !(selectedFont.value.url.Some? && selectedFont.value.url.value != "") ==>
        StartsWith(notified.value.url.value, Catalogue.FontsDir)
    {
      if selectedFont.None? {
        CloseModal();
        return None;
      }
      var f := selectedFont.value;
      var fontUrl: string;
      if f.url.Some? && f.url.value != "" {
        fontUrl := f.url.value;
      } else {
        fontUrl := webFonts.GetWebFont(FamilyOf(f));
        WebFontIsBundledFile(webFonts, FamilyOf(f));
      }
      displayText := FamilyOf(f);
      notified := Some(Fonts.FontRef(FamilyOf(f), Some(fontUrl), ""));
      CloseModal();
    }
  }

  /** The grouping pass of renderFontList: the groups keyed by category and the keys in first-appearance order. */
  method GroupFonts(fonts: seq<PickerFont>) returns (groups: map<string, seq<PickerFont>>, keys: seq<string>)
    ensures keys == Keys(fonts)
    ensures forall c :: c in groups <==> c in keys
    ensures forall c :: c in groups ==> groups[c] == Group(fonts, c)
  {
    groups := map[];
    keys := [];
    var i := 0;
    while i < |fonts|
      invariant 0 <= i <= |fonts|
      invariant keys == Keys(fonts[..i])
      invariant forall c :: c in groups <==> c in keys
      invariant forall c :: c in groups ==> groups[c] == Group(fonts[..i], c)
      invariant forall c :: c !in groups ==> Group(fonts[..i], c) == []
    {
      var f := fonts[i];
      var key := KeyOf(f);
      assert fonts[..i + 1][..i] == fonts[..i];
      assert fonts[..i + 1][i] == f;
      assert Keys(fonts[..i + 1]) == if key in keys then keys else keys + [key];
      if key !in groups {
        groups := groups[key := []];
        keys := keys + [key];
      }
      groups := groups[key := groups[key] + [f]];
      i := i + 1;
    }
    assert fonts[..i] == fonts;
  }

  /** The section pass of renderFontList: the fixed categories present, then the remaining keys. */
  method ArrangeSections(fonts: seq<PickerFont>, groups: map<string, seq<PickerFont>>, keys: seq<string>)
    returns (fragment: seq<Row>)
    requires keys == Keys(fonts)
    requires forall c :: c in groups <==> c in keys
    requires forall c :: c in groups ==> groups[c] == Group(fonts, c)
    ensures fragment == Layout(fonts, Order(fonts))
  {
    fragment := FixedSections(fonts, groups, keys);
    fragment := OtherSections(fonts, groups, keys, fragment);
    assert Order(fonts) == Present(CategoryOrder, keys) + Others(keys);
  }

  /** The sections of the fixed category order, for the categories that have fonts. */
  method FixedSections(fonts: seq<PickerFont>, groups: map<string, seq<PickerFont>>, keys: seq<string>)
    returns (fragment: seq<Row>)
    requires keys == Keys(fonts)
    requires forall c :: c in groups <==> c in keys
    requires forall c :: c in groups ==> groups[c] == Group(fonts, c)
    ensures fragment == Layout(fonts, Present(CategoryOrder, keys))
  {
    GroupsOfKeys(fonts);
    fragment := [];
    var k := 0;
    while k < |CategoryOrder|
      invariant 0 <= k <= |CategoryOrder|
      invariant fragment == Layout(fonts, Present(CategoryOrder[..k], keys))
    {
      var c := CategoryOrder[k];
      PresentStep(CategoryOrder, k, keys);
      assert c in groups && |groups[c]| > 0 <==> c in keys;
      if c in groups && |groups[c]| > 0 {
        fragment := AppendSection(fragment, c, groups[c]);
        LayoutStep(fonts, Present(CategoryOrder[..k], keys), c);
      }
      k := k + 1;
    }
    assert CategoryOrder[..k] == CategoryOrder;
  }

  /** The sections of the keys outside the fixed order, in first-appearance order, after `fragment`. */
  method OtherSections(fonts: seq<PickerFont>, groups: map<string, seq<PickerFont>>, keys: seq<string>, fixed: seq<Row>)
    returns (fragment: seq<Row>)
    requires forall c :: c in keys ==> c in groups && groups[c] == Group(fonts, c)
    requires fixed == Layout(fonts, Present(CategoryOrder, keys))
    ensures fragment == Layout(fonts, Present(CategoryOrder, keys) + Others(keys))
  {
    var front := Present(CategoryOrder, keys);
    fragment := fixed;
    var k := 0;
    assert front + Others(keys[..0]) == front;
    while k < |keys|
      invariant 0 <= k <= |keys|
      invariant fragment == Layout(fonts, front + Others(keys[..k]))
    {
      fragment := OtherSection(fonts, groups, keys, front, k, fragment);
      k := k + 1;
    }
    assert keys[..k] == keys;
  }

  /** One iteration of the remaining-keys loop: a section for the key unless it is in the fixed order. */
  method OtherSection(fonts: seq<PickerFont>, groups: map<string, seq<PickerFont>>, keys: seq<string>,
                      front: seq<string>, k: int, fragment: seq<Row>)
    returns (next: seq<Row>)
    requires 0 <= k < |keys| && keys[k] in groups && groups[keys[k]] == Group(fonts, keys[k])
    requires fragment == Layout(fonts, front + Others(keys[..k]))
    ensures next == Layout(fonts, front + Others(keys[..k + 1]))
  {
    var c := keys[k];
    OthersLayoutStep(fonts, front, keys, k);
    next := fragment;
    if c !in CategoryOrder {
      next := AppendSection(fragment, c, groups[c]);
    }
  }

  function RefsToFonts(s: seq<Fonts.FontRef>): (r: seq<PickerFont>)
    ensures |r| == |s| && forall i :: 0 <= i < |s| ==> r[i] == FromFontRef(s[i])
  {
    seq(|s|, i requires 0 <= i < |s| => FromFontRef(s[i]))
  }
}
