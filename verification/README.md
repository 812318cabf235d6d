# Fancy-text glyph substitution, modelled in Dafny

The font generator turns plain text into "fancy" Unicode text. It holds 23
substitution tables, one per style, in `lib/fonts.ts`. Each table maps ASCII
letters to replacement glyphs: mathematical bold, circled letters, fullwidth
forms, emoji and so on.

- `convertToFancyText` replaces each character of a text by its table entry,
  or keeps the character when it has none. An id that names no table returns
  the text unchanged.
- `generateAllFancyVariants` converts one text under every style of the
  display list `fancyTextStyles`.
- The fancy-text page (`app/tools/fancy-text/page.tsx`) converts its input,
  or "Hello World" when the input is empty. It lists every variant, or only
  the one picked in a selector whose values are `all` and the style ids.

The project models these parts:

- `wrappers.dfy`, module `Wrappers`: the `Option` type.
- `glyph_tables.dfy`, module `GlyphTables`: the style ids and their string
  keys, and all 23 tables transcribed in full.
  - Each table that covers a whole case of the alphabet is built from its
    26 glyphs in alphabetical order.
  - `subscript` is a map display of its 17 letters.
  - `strikethrough` lists each letter followed by U+0336.
  - Lemmas state every table's key set, the shape of its glyphs, and the
    case-blindness of the emoji tables.
- `fonts.dfy`, module `Fonts`: per-character substitution with the `||`
  fallback, conversion under a table and under a string id, the style list,
  the generation of all variants, and worked examples. The examples name
  each id as `Key(s)`, which is the id string itself: `Key(Bold)` is
  `"bold"`.
- `fancy_text_page.dfy`, module `FancyTextPage`: the displayed-text default,
  the id filter with its `all` sentinel, and the selector's values.

Every operation is a pure function, and each comes with lemmas about it:

- `Parse` is the inverse of `Key`.
- `ConvertWith` is the in-order join of per-character replacements.
- `Struckthrough` is the reference definition of strikethrough output.
- Filtering distributes over concatenation and keeps the single variant of a
  listed id.

## Model

| member | source | states |
|---|---|---|
| GlyphTables.KeyInjective | lib/fonts.ts:24-193 | the 23 table keys are pairwise distinct strings |
| GlyphTables.Parse | lib/fonts.ts:224 | looking an id up finds the style whose key it is, or reports that no style has that key |
| GlyphTables.ParseKey | lib/fonts.ts:224 | looking up a style's own key always finds that style |
| GlyphTables.Lower | lib/fonts.ts:25-192 | every style other than subscript and strikethrough that covers a to z has 26 glyphs of one scalar value each, for a to z in order |
| GlyphTables.Upper | lib/fonts.ts:25-192 | every style other than strikethrough that covers A to Z has 26 glyphs of one scalar value each, for A to Z in order |
| GlyphTables.StrikethroughLower | lib/fonts.ts:130-132 | the 26 lowercase strikethrough glyphs are a to z in order, each followed by U+0336 |
| GlyphTables.StrikethroughUpper | lib/fonts.ts:133-135 | the 26 uppercase strikethrough glyphs are A to Z in order, each followed by U+0336 |
| GlyphTables.LetterGlyph | lib/fonts.ts:24-193 | in a letter-style table a letter is a key exactly when the style covers its case, and it maps to the one glyph at its alphabet position |
| GlyphTables.TableKeys | lib/fonts.ts:24-193 | the key set of every table: the 17 listed letters for subscript, otherwise exactly the letters of the cases the style covers |
| GlyphTables.KeysAreLetters | lib/fonts.ts:24-193 | every key of every table is an ASCII letter |
| GlyphTables.SubscriptKeys | lib/fonts.ts:117-120 | subscript has keys for exactly a, e, h, i, j, k, l, m, n, o, p, r, s, t, u, v and x |
| GlyphTables.StrikethroughGlyph | lib/fonts.ts:129-136 | strikethrough maps every ASCII letter to that letter followed by U+0336 |
| GlyphTables.GlyphLength | lib/fonts.ts:24-193 | no replacement is empty; each is one scalar value, or two in strikethrough |
| GlyphTables.EmojiRowsAgree | lib/fonts.ts:137-192 | each emoji style lists the same 26 emoji for the uppercase letters as for the lowercase ones |
| GlyphTables.EmojiIgnoresCase | lib/fonts.ts:137-192 | in an emoji style a lowercase letter and its uppercase partner are both keys with the same glyph, so the table is not injective |
| Fonts.Substitute | lib/fonts.ts:227 | a character's replacement is never empty; it is either the character itself or the table's entry for it |
| Fonts.ConvertWith | lib/fonts.ts:227 | conversion never shortens a text |
| Fonts.ConvertIsJoinOfReplacements | lib/fonts.ts:227 | conversion equals joining, in order, the replacement of each character computed on its own |
| Fonts.ConvertConcat | lib/fonts.ts:227 | converting a concatenation equals concatenating the conversions |
| Fonts.ConvertUnmapped | lib/fonts.ts:227 | a text with no character among the table's keys comes back unchanged |
| Fonts.ConvertKeepsLength | lib/fonts.ts:227 | under a table of one-character entries the output is as long as the input |
| Fonts.ListPosition | lib/fonts.ts:196-220 | every style appears in the display list, at a position where that style sits |
| Fonts.StylesListEveryTableOnce | lib/fonts.ts:196-220 | the display list has 23 entries with pairwise-distinct ids |
| Fonts.ConvertToFancyText | lib/fonts.ts:223-228 | an unknown id returns the text unchanged; the empty text converts to the empty text; output is never shorter than input |
| Fonts.KnownIdUsesTable | lib/fonts.ts:224-227 | converting under a style's id is converting under that style's table |
| Fonts.ConvertToFancyTextConcat | lib/fonts.ts:223-228 | under any id, converting a concatenation equals concatenating the conversions |
| Fonts.SubstituteKey | lib/fonts.ts:227 | the `||` fallback never fires for a key: a key is always replaced by its entry |
| Fonts.SubstituteNonLetter | lib/fonts.ts:227 | a character that is not an ASCII letter is kept as it is, in every style |
| Fonts.NonLettersUnchanged | lib/fonts.ts:223-228 | a text with no ASCII letters is returned unchanged under every id |
| Fonts.SquaredKeepsLowercase | lib/fonts.ts:89-93 | squared has no lowercase glyphs, so a text without uppercase letters comes back unchanged |
| Fonts.SubscriptKeepsUnlisted | lib/fonts.ts:117-120 | subscript keeps every character it does not list, uppercase and b, c, d, f, g, q, w, y, z included |
| Fonts.LengthKept | lib/fonts.ts:24-193 | every style but strikethrough keeps the length of the text in scalar values |
| Fonts.StrikethroughStrikesLetters | lib/fonts.ts:129-136 | strikethrough puts U+0336 after each ASCII letter and keeps everything else, so the text grows by one per letter |
| Fonts.CaseBlindConvert | lib/fonts.ts:227 | under a table that gives each lowercase letter the same replacement as its uppercase partner, a text and its uppercased form convert alike |
| Fonts.EmojiTablesCaseBlind | lib/fonts.ts:137-192 | every emoji table gives each lowercase letter the same replacement as its uppercase partner |
| Fonts.EmojiCaseBlind | lib/fonts.ts:137-192 | under an emoji style a text and its uppercased form convert to the same string |
| Fonts.VariantsOf | lib/fonts.ts:231-237 | one variant per style, in order, carrying the style's id and name and the text converted under that id |
| Fonts.GenerateAllFancyVariants | lib/fonts.ts:231-237 | 23 variants in display-list order, with ids and names copied and each text converted under its own id |
| Fonts.VariantUsesItsTable | lib/fonts.ts:231-237 | each variant's text is the conversion under its own style's table, never the unknown-id fallback |
| Fonts.EmptyVariants | lib/fonts.ts:231-237 | every variant of the empty text is empty |
| Fonts.BoldExample | lib/fonts.ts:26 | converting "abc" under the id "bold" gives "𝐚𝐛𝐜" |
| Fonts.BoldMixedExample | lib/fonts.ts:26 | converting "a1!" under the id "bold" gives "𝐚1!" |
| Fonts.CircledExample | lib/fonts.ts:82 | converting "abc" under the id "circled" gives "ⓐⓑⓒ" |
| Fonts.SubscriptExample | lib/fonts.ts:118 | converting "hey" under the id "subscript" gives "ₕₑy" |
| Fonts.StrikethroughExample | lib/fonts.ts:132 | converting "x" under the id "strikethrough" gives "x" followed by U+0336 |
| Fonts.UnknownIdExample | lib/fonts.ts:224-225 | converting "Hello" under the id "not-a-real-style" gives "Hello" back |
| FancyTextPage.DisplayedText | app/tools/fancy-text/page.tsx:14 | the converted text is never empty; only the empty input is replaced by "Hello World", and any other input, blanks included, is kept verbatim |
| FancyTextPage.KeepId | app/tools/fancy-text/page.tsx:19 | the kept variants are exactly those of the list whose id matches, and there are no more of them than in the list |
| FancyTextPage.KeepIdConcat | app/tools/fancy-text/page.tsx:19 | keeping by id distributes over concatenation, so the list's order is preserved |
| FancyTextPage.KeepIdIdempotent | app/tools/fancy-text/page.tsx:19 | keeping by the same id twice gives the same list as keeping once |
| FancyTextPage.KeepNone | app/tools/fancy-text/page.tsx:19 | when no variant has the id, nothing is kept |
| FancyTextPage.KeepUnique | app/tools/fancy-text/page.tsx:19 | in a list with distinct ids, keeping one variant's id keeps that variant alone |
| FancyTextPage.FilterVariants | app/tools/fancy-text/page.tsx:17-20 | `all` returns the list unchanged; any other value returns exactly the variants with that id, never more than the list |
| FancyTextPage.FilterIdempotent | app/tools/fancy-text/page.tsx:17-20 | filtering a filtered list again by the same value changes nothing |
| FancyTextPage.FilterUnique | app/tools/fancy-text/page.tsx:17-20 | filtering a list with distinct ids by one variant's id, when that id is not `all`, gives that variant alone |
| FancyTextPage.ShownVariants | app/tools/fancy-text/page.tsx:13-20 | the page never lists more variants than there are styles |
| FancyTextPage.VariantIdsDistinct | lib/fonts.ts:231-237 | the generated variants have pairwise-distinct ids |
| FancyTextPage.SelectedStyleShown | app/tools/fancy-text/page.tsx:13-20 | selecting a listed style shows exactly one variant: the displayed text converted under that style, with the style's id and name |
| FancyTextPage.UnknownIdInNoVariant | lib/fonts.ts:196-220 | a list carrying the display list's ids has no variant whose id is no style's key |
| FancyTextPage.UnknownFilterShowsNothing | app/tools/fancy-text/page.tsx:19 | a selector value that is neither `all` nor a style id shows no variants, without error |
| FancyTextPage.SelectorOptions | app/tools/fancy-text/page.tsx:90-95 | the selector offers `all` followed by every style id in display-list order |
| FancyTextPage.NoStyleIsAll | app/tools/fancy-text/page.tsx:90 | `all` is no style's key, so the sentinel never collides with a style |
| FancyTextPage.SelectorOptionsDistinct | app/tools/fancy-text/page.tsx:90-95 | the selector's values are pairwise distinct |
| FancyTextPage.EveryOptionShowsVariants | app/tools/fancy-text/page.tsx:90-95 | `all` lists all 23 variants, and every other selector value lists exactly one |

## Left out

- The mock "AI" functions `generateFontStyles`, `identifyFont` and `generateLogoStyles` (lib/fonts.ts:240-303) are not modelled. They are asynchronous placeholders driven by timers, `Date.now()` and `Math.random()`.
- Rendering, animation, the JSON-LD block, the clipboard write and the "copied" timeout of the page (app/tools/fancy-text/page.tsx:22-191) are not modelled. They are browser I/O and presentation.
- React state is not modelled as state. The input text and the selector value are plain parameters of `ShownVariants`. Memoisation (`useMemo`) does not change results.
- app/page.tsx:12 makes the same default-text call and is covered by `DisplayedText`.
- Other pages, layouts and components are not part of this model.
- Text is a sequence of Unicode scalar values (Dafny's `char`), whereas JavaScript's `split('')` yields UTF-16 code units. Every key is an ASCII letter, so the two halves of a surrogate pair never match a key and are rejoined in their original order. The result is therefore the same.
- Lone surrogates are not modelled. A JavaScript string may hold an unpaired surrogate, which the source passes through unchanged, but no Dafny `char` is a surrogate, so such a text has no counterpart in the model.
- Scalar-value counts are what `ConvertWith`, `LengthKept` and `StrikethroughStrikesLetters` measure. Lengths in UTF-16 code units are not stated.
- The source looks the id up in a plain object, so an id such as `toString` finds an inherited property rather than nothing. No inherited property has a one-character name, so every character falls back to itself and the text comes back unchanged, as for an unknown id. The model treats the tables as a finite map, and such ids take the unknown-id path.
