/**
 * The font catalogue bundled with the application (js/localFonts.js): twenty fonts expected to be
 * installed on most systems and the font files shipped under fonts/, with lookups over them.
 */
module Catalogue {
  import opened Wrappers
  import opened Text

  /** One catalogue entry; system fonts have no file `url`. */
  datatype FontEntry = FontEntry(
    family: string,
    displayName: string,
    category: string,
    variants: Option<seq<string>>,
    url: Option<string>)

  /** The directory the bundled font files are served from. */
  const FontsDir := "fonts/"

  const SansSerif := "sans-serif"
  const Serif := "serif"
  const Monospace := "monospace"
  const Display := "display"
  const Handwriting := "handwriting"

  /** The five categories the catalogue uses. */
  const KnownCategories: set<string> := {SansSerif, Serif, Monospace, Display, Handwriting}

  /** A bundled entry as the catalogue writes it: a file under fonts/. */
  function Bundled(family: string, displayName: string, category: string, variants: seq<string>, file: string): (f: FontEntry)
    requires category in KnownCategories
    ensures BundledEntry(f)
  {
    FontsDirPrefix(file);
    FontEntry(family, displayName, category, Some(variants), Some(FontsDir + file))
  }

  /** A system entry as the catalogue writes it: no file. */
  function System(family: string, displayName: string, category: string, variants: seq<string>): (f: FontEntry)
    requires category in KnownCategories
    ensures SystemEntry(f)
  {
    FontEntry(family, displayName, category, Some(variants), None)
  }

  /** getSystemFonts: fonts without a file, expected to be installed locally (listed in chunks of ten). */
  function SystemFonts(): (r: seq<FontEntry>)
    ensures forall i :: 0 <= i < |r| ==> SystemEntry(r[i])
  {
    SystemChunk0() + SystemChunk1()
  }

  function SystemChunk0(): (r: seq<FontEntry>)
    ensures forall i :: 0 <= i < |r| ==> SystemEntry(r[i])
  {
    [
      System("Arial", "Arial", SansSerif, ["regular", "bold"]),
      System("Arial Black", "Arial Black", SansSerif, ["regular"]),
      System("Arial Narrow", "Arial Narrow", SansSerif, ["regular", "bold"]),
      System("Bookman Old Style", "Bookman Old Style", Serif, ["regular", "bold"]),
      System("Calibri", "Calibri", SansSerif, ["regular", "bold"]),
      System("Cambria", "Cambria", Serif, ["regular", "bold"]),
      System("Candara", "Candara", SansSerif, ["regular", "bold"]),
      System("Comic Sans MS", "Comic Sans MS", Handwriting, ["regular", "bold"]),
      System("Courier New", "Courier New", Monospace, ["regular", "bold"]),
      System("Georgia", "Georgia", Serif, ["regular", "bold"])
    ]
  }

  function SystemChunk1(): (r: seq<FontEntry>)
    ensures forall i :: 0 <= i < |r| ==> SystemEntry(r[i])
  {
    [
      System("Impact", "Impact", Display, ["regular"]),
      System("Lucida Console", "Lucida Console", Monospace, ["regular"]),
      System("Lucida Sans Unicode", "Lucida Sans Unicode", SansSerif, ["regular"]),
      System("Microsoft Sans Serif", "Microsoft Sans Serif", SansSerif, ["regular"]),
      System("Palatino Linotype", "Palatino Linotype", Serif, ["regular", "bold"]),
      System("Segoe UI", "Segoe UI", SansSerif, ["regular", "bold"]),
      System("Tahoma", "Tahoma", SansSerif, ["regular", "bold"]),
      System("Times New Roman", "Times New Roman", Serif, ["regular", "bold"]),
      System("Trebuchet MS", "Trebuchet MS", SansSerif, ["regular", "bold"]),
      System("Verdana", "Verdana", SansSerif, ["regular", "bold"])
    ]
  }

  /** getBundledFonts: the font files shipped with the application (listed in chunks of ten). */
  function BundledFonts(): (r: seq<FontEntry>)
    ensures forall i :: 0 <= i < |r| ==> BundledEntry(r[i])
  {
    BundledChunk0() + BundledChunk1() + BundledChunk2() + BundledChunk3() + BundledChunk4() + BundledChunk5() + BundledChunk6() + BundledChunk7()
  }

  function BundledChunk0(): (r: seq<FontEntry>)
    ensures forall i :: 0 <= i < |r| ==> BundledEntry(r[i])
  {
    [
      Bundled("Roboto-Regular", "Roboto Regular", SansSerif, ["regular"], "Roboto-Regular.ttf"),
      Bundled("Roboto-Bold", "Roboto Bold", SansSerif, ["bold"], "Roboto-Bold.ttf"),
      Bundled("Roboto-Light", "Roboto Light", SansSerif, ["light"], "Roboto-Light.ttf"),
      Bundled("RobotoSlab", "Roboto Slab", Serif, ["regular"], "RobotoSlab[wght].ttf"),
      Bundled("ChiliPepper", "Chili Pepper", Display, ["regular"], "chilispepper.ttf"),
      Bundled("NogginBulb", "Noggin Bulb", Display, ["regular"], "noggin_bulb_by_jpreckless2444_dd9dypo.otf.ttf"),
      Bundled("Aclonica", "Aclonica", SansSerif, ["regular"], "Aclonica-Regular.ttf"),
      Bundled("Arimo", "Arimo", SansSerif, ["regular"], "Arimo[wght].ttf"),
      Bundled("Arimo-Italic", "Arimo Italic", SansSerif, ["italic"], "Arimo-Italic[wght].ttf"),
      Bundled("Calligraffitti", "Calligraffitti", Handwriting, ["regular"], "Calligraffitti-Regular.ttf")
    ]
  }

  function BundledChunk1(): (r: seq<FontEntry>)
    ensures forall i :: 0 <= i < |r| ==> BundledEntry(r[i])
  {
    [
      Bundled("Ubuntu-Regular", "Ubuntu Regular", SansSerif, ["regular"], "Ubuntu-Regular.ttf"),
      Bundled("Ubuntu-Italic", "Ubuntu Italic", SansSerif, ["italic"], "Ubuntu-Italic.ttf"),
      Bundled("Ubuntu-Bold", "Ubuntu Bold", SansSerif, ["bold"], "Ubuntu-Bold.ttf"),
      Bundled("Ubuntu-BoldItalic", "Ubuntu Bold Italic", SansSerif, ["bold", "italic"], "Ubuntu-BoldItalic.ttf"),
      Bundled("Ubuntu-Light", "Ubuntu Light", SansSerif, ["light"], "Ubuntu-Light.ttf"),
      Bundled("Ubuntu-LightItalic", "Ubuntu Light Italic", SansSerif, ["light", "italic"], "Ubuntu-LightItalic.ttf"),
      Bundled("Ubuntu-Medium", "Ubuntu Medium", SansSerif, ["medium"], "Ubuntu-Medium.ttf"),
      Bundled("Ubuntu-MediumItalic", "Ubuntu Medium Italic", SansSerif, ["medium", "italic"], "Ubuntu-MediumItalic.ttf"),
      Bundled("UbuntuCondensed", "Ubuntu Condensed", SansSerif, ["regular"], "UbuntuCondensed-Regular.ttf"),
      Bundled("UbuntuMono-Regular", "Ubuntu Mono", Monospace, ["regular"], "UbuntuMono-Regular.ttf")
    ]
  }

  function BundledChunk2(): (r: seq<FontEntry>)
    ensures forall i :: 0 <= i < |r| ==> BundledEntry(r[i])
  {
    [
      Bundled("UbuntuMono-Bold", "Ubuntu Mono Bold", Monospace, ["bold"], "UbuntuMono-Bold.ttf"),
      Bundled("UbuntuMono-Italic", "Ubuntu Mono Italic", Monospace, ["italic"], "UbuntuMono-Italic.ttf"),
      Bundled("UbuntuMono-BoldItalic", "Ubuntu Mono Bold Italic", Monospace, ["bold", "italic"], "UbuntuMono-BoldItalic.ttf"),
      Bundled("UbuntuSans", "Ubuntu Sans Variable", SansSerif, ["regular"], "UbuntuSans[wdth,wght].ttf"),
      Bundled("UbuntuSans-Italic", "Ubuntu Sans Variable Italic", SansSerif, ["italic"], "UbuntuSans-Italic[wdth,wght].ttf"),
      Bundled("UbuntuSansMono", "Ubuntu Sans Mono Variable", Monospace, ["regular"], "UbuntuSansMono[wght].ttf"),
      Bundled("UbuntuSansMono-Italic", "Ubuntu Sans Mono Variable Italic", Monospace, ["italic"], "UbuntuSansMono-Italic[wght].ttf"),
      Bundled("CherryCreamSoda", "Cherry Cream Soda", Display, ["regular"], "CherryCreamSoda-Regular.ttf"),
      Bundled("Chewy", "Chewy", Display, ["regular"], "Chewy-Regular.ttf"),
      Bundled("ComingSoon", "Coming Soon", Handwriting, ["regular"], "ComingSoon-Regular.ttf")
    ]
  }

  function BundledChunk3(): (r: seq<FontEntry>)
    ensures forall i :: 0 <= i < |r| ==> BundledEntry(r[i])
  {
    [
      Bundled("Cousine", "Cousine", Monospace, ["regular"], "Cousine-Regular.ttf"),
      Bundled("Cousine-Bold", "Cousine Bold", Monospace, ["bold"], "Cousine-Bold.ttf"),
      Bundled("Cousine-Italic", "Cousine Italic", Monospace, ["italic"], "Cousine-Italic.ttf"),
      Bundled("Cousine-BoldItalic", "Cousine Bold Italic", Monospace, ["bold", "italic"], "Cousine-BoldItalic.ttf"),
      Bundled("CraftyGirls", "Crafty Girls", Handwriting, ["regular"], "CraftyGirls-Regular.ttf"),
      Bundled("CreepsterCaps", "Creepster Caps", Display, ["regular"], "CreepsterCaps-Regular.ttf"),
      Bundled("Crushed", "Crushed", Display, ["regular"], "Crushed-Regular.ttf"),
      Bundled("FontdinerSwanky", "Fontdiner Swanky", Display, ["regular"], "FontdinerSwanky-Regular.ttf"),
      Bundled("HomemadeApple", "Homemade Apple", Handwriting, ["regular"], "HomemadeApple-Regular.ttf"),
      Bundled("IrishGrover", "Irish Grover", Display, ["regular"], "IrishGrover-Regular.ttf")
    ]
  }

  function BundledChunk4(): (r: seq<FontEntry>)
    ensures forall i :: 0 <= i < |r| ==> BundledEntry(r[i])
  {
    [
      Bundled("JustAnotherHand", "Just Another Hand", Handwriting, ["regular"], "JustAnotherHand-Regular.ttf"),
      Bundled("Kosugi", "Kosugi", SansSerif, ["regular"], "Kosugi-Regular.ttf"),
      Bundled("KosugiMaru", "Kosugi Maru", SansSerif, ["regular"], "KosugiMaru-Regular.ttf"),
      Bundled("Kranky", "Kranky", Display, ["regular"], "Kranky-Regular.ttf"),
      Bundled("LuckiestGuy", "Luckiest Guy", Display, ["regular"], "LuckiestGuy-Regular.ttf"),
      Bundled("MaidenOrange", "Maiden Orange", Display, ["regular"], "MaidenOrange-Regular.ttf"),
      Bundled("Montez", "Montez", Handwriting, ["regular"], "Montez-Regular.ttf"),
      Bundled("MountainsofChristmas", "Mountains of Christmas", Display, ["regular"], "MountainsofChristmas-Regular.ttf"),
      Bundled("MountainsofChristmas-Bold", "Mountains of Christmas Bold", Display, ["bold"], "MountainsofChristmas-Bold.ttf"),
      Bundled("OpenSansHebrew", "Open Sans Hebrew", SansSerif, ["regular"], "OpenSansHebrew-Regular.ttf")
    ]
  }

  function BundledChunk5(): (r: seq<FontEntry>)
    ensures forall i :: 0 <= i < |r| ==> BundledEntry(r[i])
  {
    [
      Bundled("OpenSansHebrew-Bold", "Open Sans Hebrew Bold", SansSerif, ["bold"], "OpenSansHebrew-Bold.ttf"),
      Bundled("OpenSansHebrew-Italic", "Open Sans Hebrew Italic", SansSerif, ["italic"], "OpenSansHebrew-Italic.ttf"),
      Bundled("OpenSansHebrew-Light", "Open Sans Hebrew Light", SansSerif, ["light"], "OpenSansHebrew-Light.ttf"),
      Bundled("OpenSansHebrewCondensed", "Open Sans Hebrew Condensed", SansSerif, ["regular"], "OpenSansHebrewCondensed-Regular.ttf"),
      Bundled("OpenSansHebrewCondensed-Bold", "Open Sans Hebrew Condensed Bold", SansSerif, ["bold"], "OpenSansHebrewCondensed-Bold.ttf"),
      Bundled("PermanentMarker", "Permanent Marker", Handwriting, ["regular"], "PermanentMarker-Regular.ttf"),
      Bundled("Rancho", "Rancho", Handwriting, ["regular"], "Rancho-Regular.ttf"),
      Bundled("Redressed", "Redressed", Handwriting, ["regular"], "Redressed-Regular.ttf"),
      Bundled("Rochester", "Rochester", Handwriting, ["regular"], "Rochester-Regular.ttf"),
      Bundled("RockSalt", "Rock Salt", Handwriting, ["regular"], "RockSalt-Regular.ttf")
    ]
  }

  function BundledChunk6(): (r: seq<FontEntry>)
    ensures forall i :: 0 <= i < |r| ==> BundledEntry(r[i])
  {
    [
      Bundled("Satisfy", "Satisfy", Handwriting, ["regular"], "Satisfy-Regular.ttf"),
      Bundled("Schoolbell", "Schoolbell", Handwriting, ["regular"], "Schoolbell-Regular.ttf"),
      Bundled("Slackey", "Slackey", Display, ["regular"], "Slackey-Regular.ttf"),
      Bundled("Smokum", "Smokum", Display, ["regular"], "Smokum-Regular.ttf"),
      Bundled("SpecialElite", "Special Elite", Display, ["regular"], "SpecialElite-Regular.ttf"),
      Bundled("Sunshiney", "Sunshiney", Handwriting, ["regular"], "Sunshiney-Regular.ttf"),
      Bundled("Syncopate", "Syncopate", SansSerif, ["regular"], "Syncopate-Regular.ttf"),
      Bundled("Syncopate-Bold", "Syncopate Bold", SansSerif, ["bold"], "Syncopate-Bold.ttf"),
      Bundled("Tinos", "Tinos", Serif, ["regular"], "Tinos-Regular.ttf"),
      Bundled("Tinos-Bold", "Tinos Bold", Serif, ["bold"], "Tinos-Bold.ttf")
    ]
  }

  function BundledChunk7(): (r: seq<FontEntry>)
    ensures forall i :: 0 <= i < |r| ==> BundledEntry(r[i])
  {
    [
      Bundled("Tinos-Italic", "Tinos Italic", Serif, ["italic"], "Tinos-Italic.ttf"),
      Bundled("Tinos-BoldItalic", "Tinos Bold Italic", Serif, ["bold", "italic"], "Tinos-BoldItalic.ttf"),
      Bundled("Ultra", "Ultra", Serif, ["regular"], "Ultra-Regular.ttf"),
      Bundled("Unkempt", "Unkempt", Display, ["regular"], "Unkempt-Regular.ttf"),
      Bundled("Unkempt-Bold", "Unkempt Bold", Display, ["bold"], "Unkempt-Bold.ttf"),
      Bundled("WalterTurncoat", "Walter Turncoat", Handwriting, ["regular"], "WalterTurncoat-Regular.ttf"),
      Bundled("Yellowtail", "Yellowtail", Handwriting, ["regular"], "Yellowtail-Regular.ttf")
    ]
  }

  /** getAllFonts: the bundled fonts followed by the system fonts. */
  function AllFonts(): (r: seq<FontEntry>)
    ensures |r| == |BundledFonts()| + |SystemFonts()|
    ensures r[..|BundledFonts()|] == BundledFonts() && r[|BundledFonts()|..] == SystemFonts()
  {
    BundledFonts() + SystemFonts()
  }

  /**
   * The entries of `fonts` whose category is `category`, each as often as in `fonts`
   * (WithCategoryCount) and in the order of `fonts` (WithCategoryAppend).
   */
  function WithCategory(fonts: seq<FontEntry>, category: string): (r: seq<FontEntry>)
    ensures |r| <= |fonts|
    ensures forall f :: f in r <==> f in fonts && f.category == category
  {
    if |fonts| == 0 then []
    else
      var last := fonts[|fonts| - 1];
      WithCategory(fonts[..|fonts| - 1], category) + (if last.category == category then [last] else [])
  }

  /** One more entry at the end of the list is appended to the result exactly when it has the category. */
  lemma WithCategoryAppend(fonts: seq<FontEntry>, x: FontEntry, category: string)
    ensures WithCategory(fonts + [x], category)
         == WithCategory(fonts, category) + (if x.category == category then [x] else [])
  {
    assert (fonts + [x])[..|fonts|] == fonts;
  }

  /** An entry of the category occurs in the result as often as in the list; any other entry does not occur. */
  lemma {:induction false} WithCategoryCount(fonts: seq<FontEntry>, category: string)
    ensures forall f ::
      multiset(WithCategory(fonts, category))[f] == if f.category == category then multiset(fonts)[f] else 0
  {
    if |fonts| > 0 {
      assert fonts == fonts[..|fonts| - 1] + [fonts[|fonts| - 1]];
      WithCategoryCount(fonts[..|fonts| - 1], category);
    }
  }

  /**
   * getFontsByCategory: every font for a missing category or "all", otherwise the catalogue's
   * fonts of the category in catalogue order.
   */
  function FontsByCategory(category: string): (r: seq<FontEntry>)
    ensures category == "" || category == "all" ==> r == AllFonts()
    ensures category != "" && category != "all" ==> r == WithCategory(AllFonts(), category)
    ensures category != "" && category != "all" ==>
      forall f :: f in r <==> f in AllFonts() && f.category == category
  {
    if category == "" || category == "all" then AllFonts()
    else WithCategory(AllFonts(), category)
  }

  /** The first index of an entry whose family or display name is `family`. */
  function FindFamily(fonts: seq<FontEntry>, family: string): (r: Option<nat>)
    ensures r.Some? ==> r.value < |fonts| && (fonts[r.value].family == family || fonts[r.value].displayName == family)
    ensures r.Some? ==> forall j :: 0 <= j < r.value ==> fonts[j].family != family && fonts[j].displayName != family
    ensures r.None? ==> forall j :: 0 <= j < |fonts| ==> fonts[j].family != family && fonts[j].displayName != family
  {
    if |fonts| == 0 then None
    else if fonts[0].family == family || fonts[0].displayName == family then Some(0)
    else match FindFamily(fonts[1..], family)
      case None => None
      case Some(k) => Some(k + 1)
  }

  /** getFontByFamily: the first font whose family or display name matches, or null. */
  function FontByFamily(family: string): (r: Option<FontEntry>)
    ensures r.Some? <==> exists f :: f in AllFonts() && (f.family == family || f.displayName == family)
    ensures r.Some? ==> r.value in AllFonts() && (r.value.family == family || r.value.displayName == family)
  {
    match FindFamily(AllFonts(), family)
    case None => None
    case Some(i) => Some(AllFonts()[i])
  }

  /** A bundled entry: a known category and a file under fonts/. */
  predicate BundledEntry(f: FontEntry) {
    f.category in KnownCategories && f.url.Some? && StartsWith(f.url.value, FontsDir)
  }

  /** A system entry: a known category and no file. */
  predicate SystemEntry(f: FontEntry) {
    f.category in KnownCategories && f.url.None?
  }

  lemma FontsDirPrefix(name: string)
    ensures StartsWith(FontsDir + name, FontsDir)
  {
    assert (FontsDir + name)[..|FontsDir|] == FontsDir;
  }

  /** Every catalogue entry belongs to one of the five categories. */
  lemma CategoriesKnown()
    ensures forall f :: f in AllFonts() ==> f.category in KnownCategories
  {
    var bundled, system := BundledFonts(), SystemFonts();
    forall f | f in AllFonts() ensures f.category in KnownCategories {
      var i :| 0 <= i < |bundled + system| && (bundled + system)[i] == f;
      if i < |bundled| {
        assert BundledEntry(bundled[i]);
      } else {
        assert SystemEntry(system[i - |bundled|]);
      }
    }
  }
}
