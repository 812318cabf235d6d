/** The constant glyph tables of the fancy-text engine (lib/fonts.ts:24-193).

    Every table maps single ASCII letters to replacement glyph strings. All
    tables but `subscript` cover a whole case (or both cases) of the Latin
    alphabet, so they are built by `LetterTable` from their glyphs listed in
    alphabetical order; `subscript` covers a sparse set of lowercase letters
    and is written as a map display.
 */
module GlyphTables {
  import opened Wrappers

  /** The 23 style ids that have an entry in the substitution table. */
  datatype StyleId =
    | Bold | Italic | BoldItalic | Script | Fraktur | Monospace | DoubleStruck
    | Circled | Squared | Parenthesized | Fullwidth | SmallCaps | Superscript
    | Subscript | Inverted | Strikethrough
    | EmojiMix | EmojiCute | EmojiFaces | EmojiAnimals | EmojiFood | EmojiSports | EmojiNature

  /** The string key under which a style's table is stored. */
  function Key(s: StyleId): string {
    match s
    case Bold => "bold"
    case Italic => "italic"
    case BoldItalic => "boldItalic"
    case Script => "script"
    case Fraktur => "fraktur"
    case Monospace => "monospace"
    case DoubleStruck => "doubleStruck"
    case Circled => "circled"
    case Squared => "squared"
    case Parenthesized => "parenthesized"
    case Fullwidth => "fullwidth"
    case SmallCaps => "smallCaps"
    case Superscript => "superscript"
    case Subscript => "subscript"
    case Inverted => "inverted"
    case Strikethrough => "strikethrough"
    case EmojiMix => "emojiMix"
    case EmojiCute => "emojiCute"
    case EmojiFaces => "emojiFaces"
    case EmojiAnimals => "emojiAnimals"
    case EmojiFood => "emojiFood"
    case EmojiSports => "emojiSports"
    case EmojiNature => "emojiNature"
  }

  /** No two styles share a key. */
  lemma KeyInjective(a: StyleId, b: StyleId)
    requires Key(a) == Key(b)
    ensures a == b
  {
  }

  /** Looks a string id up among the table's keys (lib/fonts.ts:224): the
      style whose key it is, or `None` for an id that is no style's key. */
  function Parse(id: string): (r: Option<StyleId>)
    ensures r.Some? ==> Key(r.value) == id
    ensures r.None? ==> forall s: StyleId :: Key(s) != id
  {
    if exists s: StyleId :: Key(s) == id then
      var s: StyleId :| Key(s) == id;
      assert forall t: StyleId | Key(t) == id :: t == s by {
        forall t: StyleId | Key(t) == id
          ensures t == s
        {
          KeyInjective(t, s);
        }
      }
      Some(s)
    else
      None
  }

  /** Parsing a style's own key gives the style back. */
  lemma ParseKey(s: StyleId)
    ensures Parse(Key(s)) == Some(s)
  {
    KeyInjective(Parse(Key(s)).value, s);
  }

  predicate IsLower(c: char) { 'a' <= c <= 'z' }
  predicate IsUpper(c: char) { 'A' <= c <= 'Z' }
  predicate IsLetter(c: char) { IsLower(c) || IsUpper(c) }

  /** The uppercase partner of a lowercase ASCII letter. */
  function ToUpper(c: char): (u: char)
    requires IsLower(c)
    ensures IsUpper(u) && u as int - 'A' as int == c as int - 'a' as int
  {
    (c as int - 32) as char
  }

  /** Whether a style's table (other than `subscript`'s) has the lowercase
      letters, and whether it has the uppercase ones. */
  predicate HasLower(s: StyleId) {
    s != Squared && s != Subscript
  }

  predicate HasUpper(s: StyleId) {
    s != Parenthesized && s != SmallCaps && s != Superscript && s != Subscript
  }

  /** The glyphs of 'a'..'z', one scalar value each, of a style that covers
      the whole lowercase alphabet.
      `strikethrough`, whose glyphs are two scalar values, has its own lists. */
  function Lower(s: StyleId): (row: string)
    requires HasLower(s) && s != Strikethrough
    ensures |row| == 26
  {
    match s
    case Bold => // lib/fonts.ts:26-28
      "𝐚𝐛𝐜𝐝𝐞𝐟𝐠𝐡𝐢𝐣𝐤𝐥𝐦𝐧𝐨𝐩𝐪𝐫𝐬𝐭𝐮𝐯𝐰𝐱𝐲𝐳"
    case Italic => // lib/fonts.ts:34-36
      "𝑎𝑏𝑐𝑑𝑒𝑓𝑔ℎ𝑖𝑗𝑘𝑙𝑚𝑛𝑜𝑝𝑞𝑟𝑠𝑡𝑢𝑣𝑤𝑥𝑦𝑧"
    case BoldItalic => // lib/fonts.ts:42-44
      "𝒂𝒃𝒄𝒅𝒆𝒇𝒈𝒉𝒊𝒋𝒌𝒍𝒎𝒏𝒐𝒑𝒒𝒓𝒔𝒕𝒖𝒗𝒘𝒙𝒚𝒛"
    case Script => // lib/fonts.ts:50-52
      "𝒶𝒷𝒸𝒹ℯ𝒻ℊ𝒽𝒾𝒿𝓀𝓁𝓂𝓃ℴ𝓅𝓆𝓇𝓈𝓉𝓊𝓋𝓌𝓍𝓎𝓏"
    case Fraktur => // lib/fonts.ts:58-60
      "𝔞𝔟𝔠𝔡𝔢𝔣𝔤𝔥𝔦𝔧𝔨𝔩𝔪𝔫𝔬𝔭𝔮𝔯𝔰𝔱𝔲𝔳𝔴𝔵𝔶𝔷"
    case Monospace => // lib/fonts.ts:66-68
      "𝚊𝚋𝚌𝚍𝚎𝚏𝚐𝚑𝚒𝚓𝚔𝚕𝚖𝚗𝚘𝚙𝚚𝚛𝚜𝚝𝚞𝚟𝚠𝚡𝚢𝚣"
    case DoubleStruck => // lib/fonts.ts:74-76
      "𝕒𝕓𝕔𝕕𝕖𝕗𝕘𝕙𝕚𝕛𝕜𝕝𝕞𝕟𝕠𝕡𝕢𝕣𝕤𝕥𝕦𝕧𝕨𝕩𝕪𝕫"
    case Circled => // lib/fonts.ts:82-84
      "ⓐⓑⓒⓓⓔⓕⓖⓗⓘⓙⓚⓛⓜⓝⓞⓟⓠⓡⓢⓣⓤⓥⓦⓧⓨⓩ"
    case Parenthesized => // lib/fonts.ts:95-97
      "⒜⒝⒞⒟⒠⒡⒢⒣⒤⒥⒦⒧⒨⒩⒪⒫⒬⒭⒮⒯⒰⒱⒲⒳⒴⒵"
    case Fullwidth => // lib/fonts.ts:100-102
      "ａｂｃｄｅｆｇｈｉｊｋｌｍｎｏｐｑｒｓｔｕｖｗｘｙｚ"
    case SmallCaps => // lib/fonts.ts:108-110
      "ᴀʙᴄᴅᴇꜰɢʜɪᴊᴋʟᴍɴᴏᴘǫʀsᴛᴜᴠᴡxʏᴢ"
    case Superscript => // lib/fonts.ts:113-115
      "ᵃᵇᶜᵈᵉᶠᵍʰⁱʲᵏˡᵐⁿᵒᵖqʳˢᵗᵘᵛʷˣʸᶻ"
    case Inverted => // lib/fonts.ts:122-124
      "ɐqɔpǝɟƃɥᴉɾʞlɯuodbɹsʇnʌʍxʎz"
    case EmojiMix => // lib/fonts.ts:138-140
      "🅰🅱©🇩📧🎏🌀♓ℹ🎷🎋👢Ⓜ♑⭕🅿🔍®💲✝⛎✅〰❌💴💤"
    case EmojiCute => // lib/fonts.ts:146-148
      "🍎🦋🌙🌸🌟🌺🍇🌿🍦🎀🦄🌷🍄🌻🍩🌈👑🌹⭐🌴🦢💜🌊💋🧸⚡"
    case EmojiFaces => // lib/fonts.ts:154-156
      "😀😊😎🤩😍🥳😇🤗😏😜🤪😋🥰😌🙃😛🤔😂🤣😁🙂😉😆🤭😝🥴"
    case EmojiAnimals => // lib/fonts.ts:162-164
      "🐻🐝🐱🐶🐘🦊🦒🦔🦎🐙🦘🦁🐵🦑🦉🐼🦆🐰🐍🐢🦄🦅🐋🦖🦋🦓"
    case EmojiFood => // lib/fonts.ts:170-172
      "🍎🍌🍪🍩🥚🍟🍇🍯🍦🥤🥝🍋🍈🥜🍊🍕🧁🍚🍓🌮🍜🥗🍉🥐🧀🌽"
    case EmojiSports => // lib/fonts.ts:178-180
      "🏹🏀🎿🎯🏋⚽⛳🏒🏌🤺🥋🏓🏅🎾🏐🏓🎱🚴🏄🎾🏆🏸🤽❌🧘⚡"
    case EmojiNature => // lib/fonts.ts:186-188
      "🌲🌼🌵🌿🌍🌸🌻🌺🍀🌾🍂🍃🍄🌴🌙🌷🌱🌹☀🌳☂🌋🌊❄🌈⚡"
  }

  /** The glyphs of 'A'..'Z', one scalar value each, of a style that covers
      the whole uppercase alphabet. */
  function Upper(s: StyleId): (row: string)
    requires HasUpper(s) && s != Strikethrough
    ensures |row| == 26
  {
    match s
    case Bold => // lib/fonts.ts:29-31
      "𝐀𝐁𝐂𝐃𝐄𝐅𝐆𝐇𝐈𝐉𝐊𝐋𝐌𝐍𝐎𝐏𝐐𝐑𝐒𝐓𝐔𝐕𝐖𝐗𝐘𝐙"
    case Italic => // lib/fonts.ts:37-39
      "𝐴𝐵𝐶𝐷𝐸𝐹𝐺𝐻𝐼𝐽𝐾𝐿𝑀𝑁𝑂𝑃𝑄𝑅𝑆𝑇𝑈𝑉𝑊𝑋𝑌𝑍"
    case BoldItalic => // lib/fonts.ts:45-47
      "𝑨𝑩𝑪𝑫𝑬𝑭𝑮𝑯𝑰𝑱𝑲𝑳𝑴𝑵𝑶𝑷𝑸𝑹𝑺𝑻𝑼𝑽𝑾𝑿𝒀𝒁"
    case Script => // lib/fonts.ts:53-55
      "𝒜ℬ𝒞𝒟ℰℱ𝒢ℋℐ𝒥𝒦ℒℳ𝒩𝒪𝒫𝒬ℛ𝒮𝒯𝒰𝒱𝒲𝒳𝒴𝒵"
    case Fraktur => // lib/fonts.ts:61-63
      "𝔄𝔅ℭ𝔇𝔈𝔉𝔊ℌℑ𝔍𝔎𝔏𝔐𝔑𝔒𝔓𝔔ℜ𝔖𝔗𝔘𝔙𝔚𝔛𝔜ℨ"
    case Monospace => // lib/fonts.ts:69-71
      "𝙰𝙱𝙲𝙳𝙴𝙵𝙶𝙷𝙸𝙹𝙺𝙻𝙼𝙽𝙾𝙿𝚀𝚁𝚂𝚃𝚄𝚅𝚆𝚇𝚈𝚉"
    case DoubleStruck => // lib/fonts.ts:77-79
      "𝔸𝔹ℂ𝔻𝔼𝔽𝔾ℍ𝕀𝕁𝕂𝕃𝕄ℕ𝕆ℙℚℝ𝕊𝕋𝕌𝕍𝕎𝕏𝕐ℤ"
    case Circled => // lib/fonts.ts:85-87
      "ⒶⒷⒸⒹⒺⒻⒼⒽⒾⒿⓀⓁⓂⓃⓄⓅⓆⓇⓈⓉⓊⓋⓌⓍⓎⓏ"
    case Squared => // lib/fonts.ts:90-92
      "🄰🄱🄲🄳🄴🄵🄶🄷🄸🄹🄺🄻🄼🄽🄾🄿🅀🅁🅂🅃🅄🅅🅆🅇🅈🅉"
    case Fullwidth => // lib/fonts.ts:103-105
      "ＡＢＣＤＥＦＧＨＩＪＫＬＭＮＯＰＱＲＳＴＵＶＷＸＹＺ"
    case Inverted => // lib/fonts.ts:125-127
      "∀BƆDƎℲפHIſK˥WNOԀQRS┴∩ΛMX⅄Z"
    case EmojiMix => // lib/fonts.ts:141-143
      "🅰🅱©🇩📧🎏🌀♓ℹ🎷🎋👢Ⓜ♑⭕🅿🔍®💲✝⛎✅〰❌💴💤"
    case EmojiCute => // lib/fonts.ts:149-151
      "🍎🦋🌙🌸🌟🌺🍇🌿🍦🎀🦄🌷🍄🌻🍩🌈👑🌹⭐🌴🦢💜🌊💋🧸⚡"
    case EmojiFaces => // lib/fonts.ts:157-159
      "😀😊😎🤩😍🥳😇🤗😏😜🤪😋🥰😌🙃😛🤔😂🤣😁🙂😉😆🤭😝🥴"
    case EmojiAnimals => // lib/fonts.ts:165-167
      "🐻🐝🐱🐶🐘🦊🦒🦔🦎🐙🦘🦁🐵🦑🦉🐼🦆🐰🐍🐢🦄🦅🐋🦖🦋🦓"
    case EmojiFood => // lib/fonts.ts:173-175
      "🍎🍌🍪🍩🥚🍟🍇🍯🍦🥤🥝🍋🍈🥜🍊🍕🧁🍚🍓🌮🍜🥗🍉🥐🧀🌽"
    case EmojiSports => // lib/fonts.ts:181-183
      "🏹🏀🎿🎯🏋⚽⛳🏒🏌🤺🥋🏓🏅🎾🏐🏓🎱🚴🏄🎾🏆🏸🤽❌🧘⚡"
    case EmojiNature => // lib/fonts.ts:189-191
      "🌲🌼🌵🌿🌍🌸🌻🌺🍀🌾🍂🍃🍄🌴🌙🌷🌱🌹☀🌳☂🌋🌊❄🌈⚡"
  }

  /** The `subscript` table, the one whose keys are a sparse set of letters
      (lib/fonts.ts:117-120). */
  const SubscriptTable: map<char, string> :=
    map[
      'a' := "ₐ", 'e' := "ₑ", 'h' := "ₕ", 'i' := "ᵢ", 'j' := "ⱼ", 'k' := "ₖ",
      'l' := "ₗ", 'm' := "ₘ", 'n' := "ₙ", 'o' := "ₒ", 'p' := "ₚ", 'r' := "ᵣ",
      's' := "ₛ", 't' := "ₜ", 'u' := "ᵤ", 'v' := "ᵥ", 'x' := "ₓ"
    ]

  /** The glyphs of `strikethrough` for 'a'..'z' (lib/fonts.ts:130-132). */
  function StrikethroughLower(): (glyphs: seq<string>)
    ensures |glyphs| == 26 && Struck(glyphs, 'a')
  {
    ["a̶", "b̶", "c̶", "d̶", "e̶", "f̶", "g̶", "h̶", "i̶", "j̶", "k̶", "l̶",
     "m̶", "n̶", "o̶", "p̶", "q̶", "r̶", "s̶", "t̶", "u̶", "v̶", "w̶", "x̶", "y̶", "z̶"]
  }

  /** The glyphs of `strikethrough` for 'A'..'Z' (lib/fonts.ts:133-135). */
  function StrikethroughUpper(): (glyphs: seq<string>)
    ensures |glyphs| == 26 && Struck(glyphs, 'A')
  {
    ["A̶", "B̶", "C̶", "D̶", "E̶", "F̶", "G̶", "H̶", "I̶", "J̶", "K̶", "L̶",
     "M̶", "N̶", "O̶", "P̶", "Q̶", "R̶", "S̶", "T̶", "U̶", "V̶", "W̶", "X̶", "Y̶", "Z̶"]
  }

  /** The `i`-th element of a row. It is `row[i]` (see `AtIndex`); it is
      written recursively so that the solver unfolds it, and so reads the
      literal rows, only where a proof asks for it. */
  function At<T>(row: seq<T>, i: nat): T
    requires i < |row|
  {
    if i == 0 then row[0] else At(row[1..], i - 1)
  }

  lemma {:induction false} AtIndex<T>(row: seq<T>, i: nat)
    requires i < |row|
    ensures At(row, i) == row[i]
  {
    if i > 0 {
      AtIndex(row[1..], i - 1);
    }
  }

  /** A style whose table covers a whole case (or both cases) of the
      alphabet with one-character glyphs: every style but `subscript`, whose
      keys are sparse, and `strikethrough`, whose glyphs are two characters. */
  predicate IsLetterStyle(s: StyleId) {
    s != Subscript && s != Strikethrough
  }

  /** Whether `c` is a key of the table of a letter style: the letters of the
      cases it covers. */
  predicate IsLetterKey(s: StyleId, c: char) {
    if IsLower(c) then HasLower(s) else IsUpper(c) && HasUpper(s)
  }

  /** A letter's place in its case of the alphabet: 0 for 'a' and for 'A'. */
  function Position(c: char): (i: nat)
    requires IsLetter(c)
    ensures i < 26
  {
    if IsLower(c) then c as int - 'a' as int else c as int - 'A' as int
  }

  /** The row of a letter style that holds the glyph of `c`. */
  function Row(s: StyleId, c: char): (row: string)
    requires IsLetterStyle(s) && IsLetterKey(s, c)
    ensures |row| == 26
  {
    if IsLower(c) then Lower(s) else Upper(s)
  }

  /** The `strikethrough` list that holds the glyph of `c`. */
  function StrikethroughRow(c: char): (glyphs: seq<string>)
    requires IsLetter(c)
    ensures |glyphs| == 26 && Struck(glyphs, if IsLower(c) then 'a' else 'A')
  {
    if IsLower(c) then StrikethroughLower() else StrikethroughUpper()
  }

  /** The table of a letter style: each key maps to the glyph at its
      position in the row for its case. */
  function LetterTable(s: StyleId): map<char, string>
    requires IsLetterStyle(s)
  {
    map c: char | IsLetterKey(s, c) :: [At(Row(s, c), Position(c))]
  }

  /** The table of `strikethrough`, which covers both cases. */
  function StrikethroughTable(): map<char, string> {
    map c: char | IsLetter(c) :: At(StrikethroughRow(c), Position(c))
  }

  /** The table of a style (lib/fonts.ts:24-193), a map from letters to glyphs. */
  function Table(s: StyleId): map<char, string> {
    if s == Subscript then SubscriptTable
    else if s == Strikethrough then StrikethroughTable()
    else LetterTable(s)
  }

  /** In a letter style, a letter is a key exactly when the style has a row
      for its case, and it maps to the single glyph at its alphabet position
      in that row. */
  lemma LetterGlyph(s: StyleId, c: char)
    requires IsLetterStyle(s) && IsLetter(c)
    ensures c in Table(s) <==> IsLetterKey(s, c)
    ensures IsLetterKey(s, c) ==> Table(s)[c] == [Row(s, c)[Position(c)]]
  {
    if IsLetterKey(s, c) {
      AtIndex(Row(s, c), Position(c));
    }
  }

  /** The keys of each table: the seventeen listed letters for `subscript`,
      and for every other style exactly the letters of the cases it covers
      (both cases, except lowercase only for `parenthesized`, `smallCaps` and
      `superscript` and uppercase only for `squared`). */
  lemma TableKeys(s: StyleId, c: char)
    ensures c in Table(s) <==> if s == Subscript then c in "aehijklmnoprstuvx" else IsLetterKey(s, c)
  {
    if s == Subscript {
      SubscriptKeys(c);
    } else if s != Strikethrough && IsLetter(c) {
      LetterGlyph(s, c);
    }
  }

  /** Every key of every table is an ASCII letter. */
  lemma KeysAreLetters(s: StyleId, c: char)
    requires c in Table(s)
    ensures IsLetter(c)
  {
    if s == Subscript {
      SubscriptKeys(c);
    }
  }

  /** The keys of `subscript` are the seventeen letters it lists. */
  lemma SubscriptKeys(c: char)
    ensures c in Table(Subscript) <==> c in "aehijklmnoprstuvx"
  {
  }

  /** The combining long stroke overlay that `strikethrough` appends. */
  const LongStrokeOverlay: char := '\U{0336}'

  /** Every glyph in `glyphs` is its letter followed by the overlay, the
      letters running on from `first`. */
  predicate Struck(glyphs: seq<string>, first: char) {
    forall i | 0 <= i < |glyphs| ::
      |glyphs[i]| == 2 && glyphs[i][0] as int == first as int + i && glyphs[i][1] == LongStrokeOverlay
  }

  /** In `strikethrough` each letter becomes itself followed by U+0336. */
  lemma StrikethroughGlyph(c: char)
    requires IsLetter(c)
    ensures c in Table(Strikethrough)
    ensures Table(Strikethrough)[c] == [c, LongStrokeOverlay]
  {
    var i := Position(c);
    var row := StrikethroughRow(c);
    var g := row[i];
    assert |g| == 2 && g[0] as int == c as int && g[1] == LongStrokeOverlay;
    assert g == [c, LongStrokeOverlay];
    AtIndex(row, i);
  }

  /** Every replacement is one scalar value, except in `strikethrough` where it
      is two; in particular no replacement is empty. */
  lemma GlyphLength(s: StyleId, c: char)
    requires c in Table(s)
    ensures |Table(s)[c]| == if s == Strikethrough then 2 else 1
    ensures Table(s)[c] != ""
  {
    if s == Strikethrough {
      StrikethroughGlyph(c);
    }
  }

  /** The seven emoji styles. */
  predicate IsEmoji(s: StyleId) {
    s in {EmojiMix, EmojiCute, EmojiFaces, EmojiAnimals, EmojiFood, EmojiSports, EmojiNature}
  }

  /** An emoji style lists the same row for both cases. */
  lemma EmojiRowsAgree(s: StyleId)
    requires IsEmoji(s)
    ensures HasLower(s) && HasUpper(s) && Lower(s) == Upper(s)
  {
  }

  /** Emoji styles ignore case: a lowercase letter and its uppercase partner
      are both keys and map to the same glyph. */
  lemma EmojiIgnoresCase(s: StyleId, c: char)
    requires IsEmoji(s) && IsLower(c)
    ensures c in Table(s) && ToUpper(c) in Table(s)
    ensures Table(s)[c] == Table(s)[ToUpper(c)]
  {
    var u := ToUpper(c);
    assert Table(s) == LetterTable(s);
    EmojiRowsAgree(s);
    LetterGlyph(s, c);
    LetterGlyph(s, u);
    assert Position(u) == Position(c);
    assert Row(s, c) == Row(s, u);
  }
}
