/** What the fancy-text page derives from its two inputs, the text box and the
    style selector (app/tools/fancy-text/page.tsx:9-20, 90-95): the text it
    converts, the variants it lists and the options it offers. Rendering,
    animation and the clipboard are not modelled.
 */
module FancyTextPage {
  import opened GlyphTables
  import opened Fonts

  /** The sentence shown while the text box is empty. */
  const DefaultText: string := "Hello World"

  /** The selector value that lists every variant. */
  const AllStyles: string := "all"

  /** The text the page converts: the input itself, or the default sentence
      when the input is empty. Only the empty string falls back; an input of
      spaces is converted as it is. */
  function DisplayedText(input: string): (t: string)
    ensures t != ""
    ensures input != "" ==> t == input
    ensures input == "" ==> t == DefaultText
  {
    if input == "" then DefaultText else input
  }

  /** The variants of `vs` whose id is `id`, in their order. */
  function KeepId(vs: seq<Variant>, id: string): (r: seq<Variant>)
    ensures |r| <= |vs|
    ensures forall v :: v in r <==> v in vs && v.id == id
  {
    if vs == [] then []
    else if vs[0].id == id then [vs[0]] + KeepId(vs[1..], id)
    else KeepId(vs[1..], id)
  }

  /** Keeping by id distributes over concatenation, so the kept variants stay
      in the order of the list. */
  lemma {:induction false} KeepIdConcat(a: seq<Variant>, b: seq<Variant>, id: string)
    ensures KeepId(a + b, id) == KeepId(a, id) + KeepId(b, id)
  {
    if a == [] {
      assert a + b == b;
    } else {
      assert (a + b)[1..] == a[1..] + b;
      KeepIdConcat(a[1..], b, id);
    }
  }

  /** Keeping by the same id twice keeps the same variants as keeping once. */
  lemma {:induction false} KeepIdIdempotent(vs: seq<Variant>, id: string)
    ensures KeepId(KeepId(vs, id), id) == KeepId(vs, id)
  {
    if vs != [] {
      KeepIdIdempotent(vs[1..], id);
      if vs[0].id == id {
        assert ([vs[0]] + KeepId(vs[1..], id))[1..] == KeepId(vs[1..], id);
      }
    }
  }

  /** When no variant has the id, nothing is kept. */
  lemma {:induction false} KeepNone(vs: seq<Variant>, id: string)
    requires forall k | 0 <= k < |vs| :: vs[k].id != id
    ensures KeepId(vs, id) == []
  {
    if vs != [] {
      KeepNone(vs[1..], id);
    }
  }

  /** Whether no two variants of `vs` share an id. */
  predicate DistinctIds(vs: seq<Variant>) {
    forall i, j | 0 <= i < j < |vs| :: vs[i].id != vs[j].id
  }

  /** In a list with distinct ids, keeping the id of one variant keeps that
      variant alone. */
  lemma {:induction false} KeepUnique(vs: seq<Variant>, k: nat)
    requires k < |vs| && DistinctIds(vs)
    ensures KeepId(vs, vs[k].id) == [vs[k]]
  {
    if k == 0 {
      KeepNone(vs[1..], vs[0].id);
    } else {
      assert vs[1..][k - 1] == vs[k];
      KeepUnique(vs[1..], k - 1);
    }
  }

  /** The variants listed for a selector value: all of them for `all`, and
      otherwise those whose id equals the value. */
  function FilterVariants(vs: seq<Variant>, filter: string): (r: seq<Variant>)
    ensures filter == AllStyles ==> r == vs
    ensures filter != AllStyles ==> forall v :: v in r <==> v in vs && v.id == filter
    ensures |r| <= |vs|
  {
    if filter == AllStyles then vs else KeepId(vs, filter)
  }

  /** Filtering an already filtered list by the same value changes nothing. */
  lemma FilterIdempotent(vs: seq<Variant>, filter: string)
    ensures FilterVariants(FilterVariants(vs, filter), filter) == FilterVariants(vs, filter)
  {
    KeepIdIdempotent(vs, filter);
  }

  /** The variants the page lists for the current input and selector value. */
  function ShownVariants(input: string, filter: string): (r: seq<Variant>)
    ensures |r| <= |FancyTextStyles|
  {
    FilterVariants(GenerateAllFancyVariants(DisplayedText(input)), filter)
  }

  /** The variants of the style list have distinct ids. */
  lemma VariantIdsDistinct(text: string)
    ensures DistinctIds(GenerateAllFancyVariants(text))
  {
    StylesListEveryTableOnce();
  }

  /** Selecting the id of a variant of a list with distinct ids lists that
      variant alone. */
  lemma FilterUnique(vs: seq<Variant>, k: nat)
    requires k < |vs| && DistinctIds(vs) && vs[k].id != AllStyles
    ensures FilterVariants(vs, vs[k].id) == [vs[k]]
  {
    KeepUnique(vs, k);
  }

  /** Selecting a listed style shows exactly one variant: the displayed text
      converted under that style, labelled with its id and name. */
  lemma SelectedStyleShown(input: string, i: nat)
    requires i < |FancyTextStyles|
    ensures ShownVariants(input, FancyTextStyles[i].Id()) ==
      [Variant(FancyTextStyles[i].Id(), FancyTextStyles[i].name,
               ConvertWith(Table(FancyTextStyles[i].style), DisplayedText(input)))]
  {
    var text := DisplayedText(input);
    var vs := GenerateAllFancyVariants(text);
    var e := FancyTextStyles[i];
    VariantUsesItsTable(text, i);
    assert vs[i] == Variant(e.Id(), e.name, ConvertWith(Table(e.style), text));
    NoStyleIsAll(e.style);
    VariantIdsDistinct(text);
    FilterUnique(vs, i);
  }

  /** A list that carries the ids of the style list has no variant whose id
      is no style's key. */
  lemma UnknownIdInNoVariant(vs: seq<Variant>, id: string)
    requires Parse(id).None?
    requires |vs| == |FancyTextStyles|
    requires forall k | 0 <= k < |vs| :: vs[k].id == FancyTextStyles[k].Id()
    ensures forall k | 0 <= k < |vs| :: vs[k].id != id
  {
  }

  /** A selector value other than `all` that is no style's id shows nothing. */
  lemma UnknownFilterShowsNothing(input: string, filter: string)
    requires filter != AllStyles && Parse(filter).None?
    ensures ShownVariants(input, filter) == []
  {
    var vs := GenerateAllFancyVariants(DisplayedText(input));
    assert forall k | 0 <= k < |vs| :: vs[k].id == FancyTextStyles[k].Id();
    UnknownIdInNoVariant(vs, filter);
    KeepNone(vs, filter);
  }

  /** The selector's values: `all` followed by the id of every style, in the
      order of the list. */
  function SelectorOptions(): (opts: seq<string>)
    ensures |opts| == |FancyTextStyles| + 1
    ensures opts[0] == AllStyles
    ensures forall i | 0 <= i < |FancyTextStyles| :: opts[i + 1] == FancyTextStyles[i].Id()
  {
    [AllStyles] + seq(|FancyTextStyles|, i requires 0 <= i < |FancyTextStyles| => FancyTextStyles[i].Id())
  }

  /** `all` is the key of no table, so it cannot be mistaken for a style. */
  lemma NoStyleIsAll(s: StyleId)
    ensures Key(s) != AllStyles
  {
  }

  /** The selector's values are pairwise distinct. */
  lemma SelectorOptionsDistinct()
    ensures forall i, j | 0 <= i < j < |SelectorOptions()| :: SelectorOptions()[i] != SelectorOptions()[j]
  {
    var opts := SelectorOptions();
    StylesListEveryTableOnce();
    forall i, j | 0 <= i < j < |opts|
      ensures opts[i] != opts[j]
    {
      if i == 0 {
        NoStyleIsAll(FancyTextStyles[j - 1].style);
      }
    }
  }

  /** Every value of the selector lists something: `all` lists every
      variant, and each other value lists exactly one. */
  lemma EveryOptionShowsVariants(input: string, k: nat)
    requires k < |SelectorOptions()|
    ensures |ShownVariants(input, SelectorOptions()[k])| == if k == 0 then |FancyTextStyles| else 1
  {
    var opts := SelectorOptions();
    if k > 0 {
      assert opts[k] == FancyTextStyles[k - 1].Id();
      SelectedStyleShown(input, k - 1);
    }
  }
}
