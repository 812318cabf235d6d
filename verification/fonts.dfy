/** The conversion functions of the fancy-text engine (lib/fonts.ts:195-237):
    the list of styles offered to the user, the per-character substitution
    and the generation of one variant per style. */
module Fonts {
  import opened Wrappers
  import opened GlyphTables

  /* ----- Substitution of one character and of a whole text ----- */

  /** The replacement of one character under `m`: the table's entry when it
      is present and non-empty, otherwise the character itself (the `||`
      fallback of lib/fonts.ts:227 treats a missing and an empty entry alike). */
  function Substitute(m: map<char, string>, c: char): (g: string)
    ensures g != ""
    ensures g == [c] || (c in m && g == m[c])
  {
    if c in m && m[c] != "" then m[c] else [c]
  }

  /** Splits `text` into characters, substitutes each under `m` and joins the
      replacements (lib/fonts.ts:227). */
  function ConvertWith(m: map<char, string>, text: string): (r: string)
    ensures |r| >= |text|
  {
    if text == [] then [] else Substitute(m, text[0]) + ConvertWith(m, text[1..])
  }

  /** The strings of `parts` joined in order. */
  function Concat(parts: seq<string>): (r: string)
  {
    if parts == [] then [] else parts[0] + Concat(parts[1..])
  }

  /** Conversion is the in-order join of the replacements of the characters,
      each computed on its own. */
  lemma {:induction false} ConvertIsJoinOfReplacements(m: map<char, string>, text: string)
    ensures ConvertWith(m, text) == Concat(seq(|text|, i requires 0 <= i < |text| => Substitute(m, text[i])))
  {
    var parts := seq(|text|, i requires 0 <= i < |text| => Substitute(m, text[i]));
    if text != [] {
      ConvertIsJoinOfReplacements(m, text[1..]);
      assert parts[1..] == seq(|text[1..]|, i requires 0 <= i < |text[1..]| => Substitute(m, text[1..][i]));
    }
  }

  /** Converting a concatenation converts the two halves independently. */
  lemma {:induction false} ConvertConcat(m: map<char, string>, a: string, b: string)
    ensures ConvertWith(m, a + b) == ConvertWith(m, a) + ConvertWith(m, b)
  {
    if a == [] {
      assert a + b == b;
    } else {
      assert (a + b)[1..] == a[1..] + b;
      ConvertConcat(m, a[1..], b);
    }
  }

  /** A text none of whose characters is a key of `m` comes back unchanged. */
  lemma {:induction false} ConvertUnmapped(m: map<char, string>, text: string)
    requires forall i | 0 <= i < |text| :: text[i] !in m
    ensures ConvertWith(m, text) == text
  {
    if text != [] {
      ConvertUnmapped(m, text[1..]);
    }
  }

  /** When every entry of `m` is a single character, conversion keeps the
      length of the text. */
  lemma {:induction false} ConvertKeepsLength(m: map<char, string>, text: string)
    requires forall c | c in m :: |m[c]| == 1
    ensures |ConvertWith(m, text)| == |text|
  {
    if text != [] {
      ConvertKeepsLength(m, text[1..]);
    }
  }

  /* ----- The style list (lib/fonts.ts:196-220) ----- */

  /** An entry of the style list: the table it selects and its display name.
      Its id is the key of that table. */
  datatype StyleEntry = StyleEntry(style: StyleId, name: string)
  {
    function Id(): string { Key(style) }
  }

  /** The styles offered to the user, in display order, which interleaves the
      emoji styles with the typographic ones. */
  const FancyTextStyles: seq<StyleEntry> := [
    StyleEntry(Bold, "Bold"),
    StyleEntry(EmojiMix, "🅰🅱© Emoji Mix"),
    StyleEntry(Italic, "Italic"),
    StyleEntry(EmojiCute, "🍎🦋🌙 Emoji Cute"),
    StyleEntry(BoldItalic, "Bold Italic"),
    StyleEntry(EmojiFaces, "😀😊😎 Emoji Faces"),
    StyleEntry(Script, "Script"),
    StyleEntry(EmojiAnimals, "🐻🦊🐼 Emoji Animals"),
    StyleEntry(Fraktur, "Fraktur"),
    StyleEntry(EmojiFood, "🍎🍕🍦 Emoji Food"),
    StyleEntry(Monospace, "Monospace"),
    StyleEntry(EmojiSports, "🏀⚽🏆 Emoji Sports"),
    StyleEntry(DoubleStruck, "Double Struck"),
    StyleEntry(EmojiNature, "🌲🌸🌊 Emoji Nature"),
    StyleEntry(Circled, "Circled"),
    StyleEntry(Squared, "Squared"),
    StyleEntry(Parenthesized, "Parenthesized"),
    StyleEntry(Fullwidth, "Fullwidth"),
    StyleEntry(SmallCaps, "Small Caps"),
    StyleEntry(Superscript, "Superscript"),
    StyleEntry(Subscript, "Subscript"),
    StyleEntry(Inverted, "Inverted"),
    StyleEntry(Strikethrough, "Strikethrough")
  ]

  /** Where a style sits in the list: every table is offered. */
  function ListPosition(s: StyleId): (i: nat)
    ensures i < |FancyTextStyles| && FancyTextStyles[i].style == s
  {
    match s
    case Bold => 0
    case EmojiMix => 1
    case Italic => 2
    case EmojiCute => 3
    case BoldItalic => 4
    case EmojiFaces => 5
    case Script => 6
    case EmojiAnimals => 7
    case Fraktur => 8
    case EmojiFood => 9
    case Monospace => 10
    case EmojiSports => 11
    case DoubleStruck => 12
    case EmojiNature => 13
    case Circled => 14
    case Squared => 15
    case Parenthesized => 16
    case Fullwidth => 17
    case SmallCaps => 18
    case Superscript => 19
    case Subscript => 20
    case Inverted => 21
    case Strikethrough => 22
  }

  /** The list names every table exactly once: it has one entry per style and
      its ids are pairwise distinct. */
  lemma StylesListEveryTableOnce()
    ensures |FancyTextStyles| == 23
    ensures forall i, j | 0 <= i < j < |FancyTextStyles| :: FancyTextStyles[i].Id() != FancyTextStyles[j].Id()
  {
    forall i, j | 0 <= i < j < |FancyTextStyles|
      ensures FancyTextStyles[i].Id() != FancyTextStyles[j].Id()
    {
      if FancyTextStyles[i].Id() == FancyTextStyles[j].Id() {
        KeyInjective(FancyTextStyles[i].style, FancyTextStyles[j].style);
      }
    }
  }

  /* ----- Conversion under a style id (lib/fonts.ts:223-228) ----- */

  /** Converts `text` under the table whose key is `styleId`; an id that
      names no table leaves the text as it is. */
  function ConvertToFancyText(text: string, styleId: string): (r: string)
    ensures Parse(styleId).None? ==> r == text
    ensures text == "" ==> r == ""
    ensures |r| >= |text|
  {
    match Parse(styleId)
    case None => text
    case Some(s) => ConvertWith(Table(s), text)
  }

  /** The id of a style selects that style's table. */
  lemma KnownIdUsesTable(text: string, s: StyleId)
    ensures ConvertToFancyText(text, Key(s)) == ConvertWith(Table(s), text)
  {
    ParseKey(s);
  }

  /** Under any id, converting a concatenation converts its parts. */
  lemma ConvertToFancyTextConcat(a: string, b: string, styleId: string)
    ensures ConvertToFancyText(a + b, styleId) == ConvertToFancyText(a, styleId) + ConvertToFancyText(b, styleId)
  {
    if Parse(styleId).Some? {
      ConvertConcat(Table(Parse(styleId).value), a, b);
    }
  }

  /** The `||` fallback fires only for characters that are not keys: since no
      glyph is empty, a key is always replaced by its glyph. */
  lemma SubstituteKey(s: StyleId, c: char)
    requires c in Table(s)
    ensures Substitute(Table(s), c) == Table(s)[c]
  {
    GlyphLength(s, c);
  }

  /** Characters other than ASCII letters are never replaced, whatever the
      style. */
  lemma SubstituteNonLetter(s: StyleId, c: char)
    requires !IsLetter(c)
    ensures Substitute(Table(s), c) == [c]
  {
    if c in Table(s) {
      KeysAreLetters(s, c);
    }
  }

  /** A text without ASCII letters is left unchanged by every style id. */
  lemma NonLettersUnchanged(text: string, styleId: string)
    requires forall i | 0 <= i < |text| :: !IsLetter(text[i])
    ensures ConvertToFancyText(text, styleId) == text
  {
    var p := Parse(styleId);
    if p.Some? {
      forall i | 0 <= i < |text|
        ensures text[i] !in Table(p.value)
      {
        if text[i] in Table(p.value) {
          KeysAreLetters(p.value, text[i]);
        }
      }
      ConvertUnmapped(Table(p.value), text);
    }
  }

  /** `squared` has no lowercase glyphs: a text without uppercase letters
      comes back unchanged. */
  lemma SquaredKeepsLowercase(text: string)
    requires forall i | 0 <= i < |text| :: !IsUpper(text[i])
    ensures ConvertToFancyText(text, Key(Squared)) == text
  {
    forall i | 0 <= i < |text|
      ensures text[i] !in Table(Squared)
    {
      TableKeys(Squared, text[i]);
    }
    ConvertUnmapped(Table(Squared), text);
    KnownIdUsesTable(text, Squared);
  }

  /** `subscript` keeps every character it does not list, uppercase letters
      and the lowercase letters b, c, d, f, g, q, w, y and z included. */
  lemma SubscriptKeepsUnlisted(text: string)
    requires forall i | 0 <= i < |text| :: text[i] !in "aehijklmnoprstuvx"
    ensures ConvertToFancyText(text, Key(Subscript)) == text
  {
    forall i | 0 <= i < |text|
      ensures text[i] !in Table(Subscript)
    {
      TableKeys(Subscript, text[i]);
    }
    ConvertUnmapped(Table(Subscript), text);
    KnownIdUsesTable(text, Subscript);
  }

  /** Every style but `strikethrough` replaces a character by exactly one
      character, so the converted text is as long as the input. */
  lemma LengthKept(text: string, s: StyleId)
    requires s != Strikethrough
    ensures |ConvertToFancyText(text, Key(s))| == |text|
  {
    ParseKey(s);
    forall c | c in Table(s)
      ensures |Table(s)[c]| == 1
    {
      GlyphLength(s, c);
    }
    ConvertKeepsLength(Table(s), text);
  }

  /** `text` with each ASCII letter followed by the long stroke overlay: what
      `strikethrough` should produce. */
  function Struckthrough(text: string): (r: string)
    ensures |r| == |text| + LetterCount(text)
  {
    if text == [] then [] else StruckChar(text[0]) + Struckthrough(text[1..])
  }

  /** A letter followed by the long stroke overlay; any other character alone. */
  function StruckChar(c: char): (g: string)
    ensures |g| == (if IsLetter(c) then 2 else 1) && g[0] == c
  {
    if IsLetter(c) then [c, LongStrokeOverlay] else [c]
  }

  /** The number of ASCII letters in `text`. */
  function LetterCount(text: string): (n: nat)
    ensures n <= |text|
  {
    if text == [] then 0 else (if IsLetter(text[0]) then 1 else 0) + LetterCount(text[1..])
  }

  /** `strikethrough` strikes each ASCII letter through and keeps every other
      character; the text grows by one character per letter. */
  lemma {:induction false} StrikethroughStrikesLetters(text: string)
    ensures ConvertToFancyText(text, Key(Strikethrough)) == Struckthrough(text)
  {
    ParseKey(Strikethrough);
    StrikethroughWith(text);
  }

  lemma {:induction false} StrikethroughWith(text: string)
    ensures ConvertWith(Table(Strikethrough), text) == Struckthrough(text)
  {
    if text != [] {
      if IsLetter(text[0]) {
        StrikethroughGlyph(text[0]);
        SubstituteKey(Strikethrough, text[0]);
      } else {
        SubstituteNonLetter(Strikethrough, text[0]);
      }
      StrikethroughWith(text[1..]);
    }
  }

  /** `text` with every lowercase ASCII letter made uppercase. */
  function UpperAscii(text: string): (r: string)
    ensures |r| == |text|
    ensures forall i | 0 <= i < |text| :: r[i] == if IsLower(text[i]) then ToUpper(text[i]) else text[i]
  {
    if text == [] then []
    else [if IsLower(text[0]) then ToUpper(text[0]) else text[0]] + UpperAscii(text[1..])
  }

  /** Whether `m` replaces every lowercase letter as it replaces the letter's
      uppercase partner. */
  predicate CaseBlind(m: map<char, string>) {
    forall c | IsLower(c) :: Substitute(m, c) == Substitute(m, ToUpper(c))
  }

  /** A case-blind table converts a text and its uppercase form alike. */
  lemma {:induction false} CaseBlindConvert(m: map<char, string>, text: string)
    requires CaseBlind(m)
    ensures ConvertWith(m, text) == ConvertWith(m, UpperAscii(text))
  {
    if text != [] {
      var u := UpperAscii(text);
      assert Substitute(m, text[0]) == Substitute(m, u[0]);
      assert u[1..] == UpperAscii(text[1..]);
      CaseBlindConvert(m, text[1..]);
    }
  }

  /** The tables of the emoji styles are case-blind. */
  lemma EmojiTablesCaseBlind(s: StyleId)
    requires IsEmoji(s)
    ensures CaseBlind(Table(s))
  {
    forall c | IsLower(c)
      ensures Substitute(Table(s), c) == Substitute(Table(s), ToUpper(c))
    {
      EmojiIgnoresCase(s, c);
    }
  }

  /** Emoji styles ignore letter case: a text and its uppercase form convert
      to the same emoji string. */
  lemma EmojiCaseBlind(text: string, s: StyleId)
    requires IsEmoji(s)
    ensures ConvertToFancyText(text, Key(s)) == ConvertToFancyText(UpperAscii(text), Key(s))
  {
    KnownIdUsesTable(text, s);
    KnownIdUsesTable(UpperAscii(text), s);
    EmojiTablesCaseBlind(s);
    CaseBlindConvert(Table(s), text);
  }

  /* ----- All variants (lib/fonts.ts:231-237) ----- */

  /** One converted text, labelled with the id and name of its style. */
  datatype Variant = Variant(id: string, name: string, text: string)

  /** Converts `text` under every style of `styles`, in order. */
  function VariantsOf(styles: seq<StyleEntry>, text: string): (vs: seq<Variant>)
    ensures |vs| == |styles|
    ensures forall i | 0 <= i < |styles| ::
      vs[i] == Variant(styles[i].Id(), styles[i].name, ConvertToFancyText(text, styles[i].Id()))
  {
    if styles == [] then []
    else
      var v := Variant(styles[0].Id(), styles[0].name, ConvertToFancyText(text, styles[0].Id()));
      [v] + VariantsOf(styles[1..], text)
  }

  /** The variants of `text` under all the styles of the list. */
  function GenerateAllFancyVariants(text: string): (vs: seq<Variant>)
    ensures |vs| == |FancyTextStyles|
    ensures forall i | 0 <= i < |vs| ::
      vs[i].id == FancyTextStyles[i].Id() && vs[i].name == FancyTextStyles[i].name &&
      vs[i].text == ConvertToFancyText(text, vs[i].id)
  {
    VariantsOf(FancyTextStyles, text)
  }

  /** Each variant is the text converted under its own style's table, so no
      variant falls back to the unconverted text because of an unknown id. */
  lemma VariantUsesItsTable(text: string, i: nat)
    requires i < |FancyTextStyles|
    ensures GenerateAllFancyVariants(text)[i].id == FancyTextStyles[i].Id()
    ensures GenerateAllFancyVariants(text)[i].name == FancyTextStyles[i].name
    ensures GenerateAllFancyVariants(text)[i].text == ConvertWith(Table(FancyTextStyles[i].style), text)
  {
    ParseKey(FancyTextStyles[i].style);
  }

  /** The variants of the empty text are all empty. */
  lemma EmptyVariants(i: nat)
    requires i < |FancyTextStyles|
    ensures GenerateAllFancyVariants("")[i].text == ""
  {
    VariantUsesItsTable("", i);
  }

  /* ----- Worked examples ----- */

  // Each example is first worked out under the style's table, then carried
  // over to the style's id (`Key(s)` is the id string, such as "bold") by
  // `KnownIdUsesTable`.

  lemma BoldTableExample()
    ensures ConvertWith(Table(Bold), "abc") == "𝐚𝐛𝐜"
  {
    var row := Lower(Bold);
    assert row[0] == '𝐚';
    assert row[1] == '𝐛';
    assert row[2] == '𝐜';
    LetterGlyph(Bold, 'a');
    LetterGlyph(Bold, 'b');
    LetterGlyph(Bold, 'c');
  }

  /** `bold` replaces each lowercase letter by its mathematical bold form. */
  lemma BoldExample()
    ensures ConvertToFancyText("abc", Key(Bold)) == "𝐚𝐛𝐜"
  {
    BoldTableExample();
    KnownIdUsesTable("abc", Bold);
  }

  lemma BoldMixedTableExample()
    ensures ConvertWith(Table(Bold), "a1!") == "𝐚1!"
  {
    AtIndex(Lower(Bold), 0);
  }

  /** Digits and punctuation pass through `bold` untouched. */
  lemma BoldMixedExample()
    ensures ConvertToFancyText("a1!", Key(Bold)) == "𝐚1!"
  {
    BoldMixedTableExample();
    KnownIdUsesTable("a1!", Bold);
  }

  lemma CircledTableExample()
    ensures ConvertWith(Table(Circled), "abc") == "ⓐⓑⓒ"
  {
    var row := Lower(Circled);
    assert row[0] == 'ⓐ';
    assert row[1] == 'ⓑ';
    assert row[2] == 'ⓒ';
    LetterGlyph(Circled, 'a');
    LetterGlyph(Circled, 'b');
    LetterGlyph(Circled, 'c');
  }

  /** `circled` replaces each lowercase letter by its circled form. */
  lemma CircledExample()
    ensures ConvertToFancyText("abc", Key(Circled)) == "ⓐⓑⓒ"
  {
    CircledTableExample();
    KnownIdUsesTable("abc", Circled);
  }

  lemma SubscriptTableExample()
    ensures ConvertWith(Table(Subscript), "hey") == "ₕₑy"
  {
    var m := Table(Subscript);
    assert m == SubscriptTable;
    assert m['h'] == "ₕ" && m['e'] == "ₑ" && 'y' !in m;
  }

  /** `subscript` replaces only the letters it lists: 'y' has no subscript
      form and stays as it is. */
  lemma SubscriptExample()
    ensures ConvertToFancyText("hey", Key(Subscript)) == "ₕₑy"
  {
    SubscriptTableExample();
    KnownIdUsesTable("hey", Subscript);
  }

  lemma StrikethroughTableExample()
    ensures ConvertWith(Table(Strikethrough), "x") == "x\U{0336}"
  {
    StrikethroughGlyph('x');
  }

  /** `strikethrough` adds the overlay after a letter. */
  lemma StrikethroughExample()
    ensures ConvertToFancyText("x", Key(Strikethrough)) == "x\U{0336}"
  {
    StrikethroughTableExample();
    KnownIdUsesTable("x", Strikethrough);
  }

  /** An id that names no style returns the text as it is, without error. */
  lemma UnknownIdExample()
    ensures ConvertToFancyText("Hello", "not-a-real-style") == "Hello"
  {
    if Parse("not-a-real-style").Some? {
      assert false;
    }
  }
}
