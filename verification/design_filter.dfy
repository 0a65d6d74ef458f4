/**
 * components/choose-design-modal.tsx: the filters of the design picker. The
 * catalogue is narrowed by an optional theme, an optional style, a tier choice
 * and a free-text search over each design's name, tags, themes and styles.
 */
module DesignFilter {
  import opened Wrappers
  import opened Text
  import opened Templates

  /** The tier chips: "all", or one tier. */
  datatype TierChoice = AnyTier | OnlyTier(tier: Tier)

  /** The picker's filter state. */
  datatype Filters = Filters(search: string, theme: Option<EventTheme>, style: Option<StyleTag>, tier: TierChoice)

  function ThemeNames(ts: seq<EventTheme>): (r: seq<string>)
    ensures |r| == |ts| && forall i | 0 <= i < |ts| :: r[i] == ThemeName(ts[i])
  {
    seq(|ts|, i requires 0 <= i < |ts| => ThemeName(ts[i]))
  }

  function StyleNames(ss: seq<StyleTag>): (r: seq<string>)
    ensures |r| == |ss| && forall i | 0 <= i < |ss| :: r[i] == StyleName(ss[i])
  {
    seq(|ss|, i requires 0 <= i < |ss| => StyleName(ss[i]))
  }

  /** The words a design is searched by: its name, then its tags, themes and styles. */
  function Words(t: Template): (w: seq<string>)
    ensures |w| == 1 + |t.tags| + |t.themes| + |t.styles| && w[0] == t.name
  {
    [t.name] + t.tags + ThemeNames(t.themes) + StyleNames(t.styles)
  }

  /** The words joined by single spaces, lower-cased. */
  function Haystack(t: Template): string {
    ToLower(Join(Words(t), " "))
  }

  /**
   * How the query is looked up. The component checks blankness on the trimmed
   * search but looks up the untrimmed, lower-cased search (`AsWritten`);
   * `TrimmedQuery` looks up the trimmed one, the evidently intended test.
   */
  datatype SearchRule = AsWritten | TrimmedQuery

  /** The text looked up in the haystack under `rule`. */
  function Query(search: string, rule: SearchRule): (q: string)
    ensures rule.AsWritten? ==> q == ToLower(search)
    ensures rule.TrimmedQuery? ==> q == ToLower(Trim(search))
  {
    match rule
    case AsWritten => ToLower(search)
    case TrimmedQuery => ToLower(Trim(search))
  }

  /** The search test: a blank search admits everything; otherwise the query must occur in the haystack. */
  predicate MatchesSearch(t: Template, search: string, rule: SearchRule) {
    Trim(search) != [] ==> Contains(Haystack(t), Query(search, rule))
  }

  /** One design passes the filters: theme, then style, then tier, then search. */
  predicate Passes(t: Template, f: Filters, rule: SearchRule) {
    && (f.theme.Some? ==> f.theme.value in t.themes)
    && (f.style.Some? ==> f.style.value in t.styles)
    && (f.tier.OnlyTier? ==> t.tier == f.tier.tier)
    && MatchesSearch(t, f.search, rule)
  }

  /**
   * The designs shown, in catalogue order, keeping exactly the designs that
   * pass. Under `AsWritten` this is the component's list.
   */
  function Filtered(ts: seq<Template>, f: Filters, rule: SearchRule): (r: seq<Template>)
    ensures |r| <= |ts|
    ensures forall t :: t in r <==> t in ts && Passes(t, f, rule)
  {
    if ts == [] then []
    else (if Passes(ts[0], f, rule) then [ts[0]] else []) + Filtered(ts[1..], f, rule)
  }

  /** `a` is `b` with some elements dropped and the rest in their order. */
  predicate IsSubsequence<T(==)>(a: seq<T>, b: seq<T>)
    decreases |b|
  {
    if a == [] then true
    else if b == [] then false
    else if a[0] == b[0] then IsSubsequence(a[1..], b[1..])
    else IsSubsequence(a, b[1..])
  }

  /** Filtering only drops designs; it never reorders them. */
  lemma {:induction false} FilteredIsSubsequence(ts: seq<Template>, f: Filters, rule: SearchRule)
    ensures IsSubsequence(Filtered(ts, f, rule), ts)
    decreases |ts|
  {
    if ts != [] {
      FilteredIsSubsequence(ts[1..], f, rule);
      if Passes(ts[0], f, rule) {
        assert Filtered(ts, f, rule) == [ts[0]] + Filtered(ts[1..], f, rule);
      } else {
        assert Filtered(ts, f, rule) == Filtered(ts[1..], f, rule);
      }
    }
  }

  /** A filter that admits less shows a sub-list of what the looser one shows. */
  lemma {:induction false} StricterShowsSubsequence(ts: seq<Template>, f: Filters, g: Filters, rule: SearchRule)
    requires forall t :: Passes(t, g, rule) ==> Passes(t, f, rule)
    ensures IsSubsequence(Filtered(ts, g, rule), Filtered(ts, f, rule))
    decreases |ts|
  {
    if ts != [] {
      StricterShowsSubsequence(ts[1..], f, g, rule);
      var rf, rg := Filtered(ts[1..], f, rule), Filtered(ts[1..], g, rule);
      if Passes(ts[0], g, rule) {
        assert Filtered(ts, g, rule) == [ts[0]] + rg;
        assert Filtered(ts, f, rule) == [ts[0]] + rf;
      } else if Passes(ts[0], f, rule) {
        assert Filtered(ts, g, rule) == rg;
        assert Filtered(ts, f, rule) == [ts[0]] + rf;
        SkipHead(rg, ts[0], rf);
      } else {
        assert Filtered(ts, g, rule) == rg;
        assert Filtered(ts, f, rule) == rf;
      }
    }
  }

  /** A subsequence of `b` is a subsequence of `b` with one element put in front. */
  lemma {:induction false} SkipHead<T>(a: seq<T>, x: T, b: seq<T>)
    requires IsSubsequence(a, b)
    ensures IsSubsequence(a, [x] + b)
    decreases |b|, 1
  {
    assert ([x] + b)[1..] == b;
    if a != [] && a[0] == x {
      SubsequenceTail(a, b);
    }
  }

  /** Dropping the head of a subsequence keeps it a subsequence. */
  lemma {:induction false} SubsequenceTail<T>(a: seq<T>, b: seq<T>)
    requires a != [] && IsSubsequence(a, b)
    ensures IsSubsequence(a[1..], b)
    decreases |b|, 0
  {
    assert [b[0]] + b[1..] == b;
    if a[0] != b[0] {
      SubsequenceTail(a, b[1..]);
    }
    SkipHead(a[1..], b[0], b[1..]);
  }

  /** `g` keeps every filter `f` has set, and may set more. */
  predicate Tightens(f: Filters, g: Filters) {
    && (f.theme.Some? ==> g.theme == f.theme)
    && (f.style.Some? ==> g.style == f.style)
    && (f.tier.OnlyTier? ==> g.tier == f.tier)
    && (Trim(f.search) != [] ==> g.search == f.search)
  }

  /** Setting another filter never brings a design back. */
  lemma AddingFiltersNarrows(ts: seq<Template>, f: Filters, g: Filters, rule: SearchRule)
    requires Tightens(f, g)
    ensures IsSubsequence(Filtered(ts, g, rule), Filtered(ts, f, rule))
  {
    StricterShowsSubsequence(ts, f, g, rule);
  }

  /** `hasActiveFilters`. */
  predicate HasActiveFilters(f: Filters) {
    Trim(f.search) != [] || f.theme.Some? || f.style.Some? || f.tier.OnlyTier?
  }

  /** The filters are active exactly when some design could be hidden by them. */
  lemma ActiveIffSomeHidden(f: Filters, rule: SearchRule)
    ensures HasActiveFilters(f) <==> exists t :: !Passes(t, f, rule)
  {
    if HasActiveFilters(f) {
      var w := Template("", "", "", [], [], if f.tier == OnlyTier(Free) then Premium else Free, []);
      if f.theme.Some? || f.style.Some? || f.tier.OnlyTier? {
        assert !Passes(w, f, rule);
      } else {
        assert Words(w) == [""];
        assert Haystack(w) == [];
        assert |Query(f.search, rule)| > 0;
        assert !MatchesSearch(w, f.search, rule);
        assert !Passes(w, f, rule);
      }
    }
  }

  /** With no active filter every design is shown, in catalogue order. */
  lemma {:induction false} InactiveShowsAll(ts: seq<Template>, f: Filters, rule: SearchRule)
    requires !HasActiveFilters(f)
    ensures Filtered(ts, f, rule) == ts
    decreases |ts|
  {
    if ts != [] {
      InactiveShowsAll(ts[1..], f, rule);
      assert [ts[0]] + ts[1..] == ts;
    }
  }

  /** `clearFilters`: an empty search, no theme, no style, all tiers. */
  function ClearFilters(): (f: Filters)
    ensures !HasActiveFilters(f)
  {
    Filters("", None, None, AnyTier)
  }

  /** After clearing, the whole catalogue is shown. */
  lemma ClearShowsCatalogue(rule: SearchRule)
    ensures Filtered(Catalogue(), ClearFilters(), rule) == Catalogue()
  {
    InactiveShowsAll(Catalogue(), ClearFilters(), rule);
  }

  /** A theme chip: selects its theme, or deselects it when it is already selected. */
  function ToggleTheme(f: Filters, x: EventTheme): (g: Filters)
    ensures g.theme == Some(x) <==> f.theme != Some(x)
    ensures g.theme != Some(x) ==> g.theme == None
    ensures g.search == f.search && g.style == f.style && g.tier == f.tier
  {
    f.(theme := if f.theme == Some(x) then None else Some(x))
  }

  /** A style chip, likewise. */
  function ToggleStyle(f: Filters, x: StyleTag): (g: Filters)
    ensures g.style == Some(x) <==> f.style != Some(x)
    ensures g.style != Some(x) ==> g.style == None
    ensures g.search == f.search && g.theme == f.theme && g.tier == f.tier
  {
    f.(style := if f.style == Some(x) then None else Some(x))
  }

  /** Pressing the same chip twice restores the state unless another theme was selected first. */
  lemma ToggleThemeTwice(f: Filters, x: EventTheme)
    ensures ToggleTheme(ToggleTheme(f, x), x) == f <==> f.theme == None || f.theme == Some(x)
  {
  }

  lemma ToggleStyleTwice(f: Filters, x: StyleTag)
    ensures ToggleStyle(ToggleStyle(f, x), x) == f <==> f.style == None || f.style == Some(x)
  {
  }

  /** A tier chip: replaces the tier choice and nothing else. */
  function SelectTier(f: Filters, c: TierChoice): (g: Filters)
    ensures g.tier == c
    ensures g.search == f.search && g.theme == f.theme && g.style == f.style
  {
    f.(tier := c)
  }

  /** Every design shown meets each chip that is set, and passes the search. */
  lemma ShownDesignsMeetEveryChip(ts: seq<Template>, f: Filters, rule: SearchRule)
    ensures forall t <- Filtered(ts, f, rule) ::
      && (f.theme.Some? ==> f.theme.value in t.themes)
      && (f.style.Some? ==> f.style.value in t.styles)
      && (f.tier.OnlyTier? ==> t.tier == f.tier.tier)
      && MatchesSearch(t, f.search, rule)
  {
  }

  /** With one tier chosen, the designs shown are exactly the designs of that tier that pass the rest. */
  lemma TierChipShowsOnlyTier(ts: seq<Template>, f: Filters, tier: Tier, rule: SearchRule)
    ensures forall t :: t in Filtered(ts, SelectTier(f, OnlyTier(tier)), rule) <==>
      t in ts && t.tier == tier && Passes(t, f.(tier := AnyTier), rule)
  {
  }

  /** With a theme chip selected, every design shown carries that theme. */
  lemma ThemeChipShowsOnlyTheme(ts: seq<Template>, f: Filters, x: EventTheme, rule: SearchRule)
    requires f.theme != Some(x)
    ensures forall t <- Filtered(ts, ToggleTheme(f, x), rule) :: x in t.themes
  {
  }

  /** `parts[k]` occurs in `Join(parts, sep)`, at the returned index. */
  lemma {:induction false} JoinHasPart(parts: seq<string>, sep: string, k: nat) returns (p: nat)
    requires k < |parts|
    ensures OccursAt(Join(parts, sep), parts[k], p)
    decreases |parts|
  {
    if |parts| == 1 {
      p := 0;
    } else if k == 0 {
      p := 0;
      assert Join(parts, sep) == parts[0] + (sep + Join(parts[1..], sep));
    } else {
      var q := JoinHasPart(parts[1..], sep, k - 1);
      var head := parts[0] + sep;
      var rest := Join(parts[1..], sep);
      assert Join(parts, sep) == head + rest;
      p := |head| + q;
      assert (head + rest)[p..p + |parts[k]|] == rest[q..q + |parts[k]|];
    }
  }

  /** Lower-casing a string lower-cases each occurrence inside it. */
  lemma LowerOccurrence(s: string, part: string, p: nat)
    requires OccursAt(s, part, p)
    ensures OccursAt(ToLower(s), ToLower(part), p)
  {
    assert ToLower(s)[p..p + |part|] == ToLower(part);
  }

  /** A lower-cased piece of one joined part is a piece of the lower-cased join. */
  lemma ContainsThroughJoin(parts: seq<string>, sep: string, k: nat, q: string)
    requires k < |parts| && Contains(ToLower(parts[k]), q)
    ensures Contains(ToLower(Join(parts, sep)), q)
  {
    var joined := Join(parts, sep);
    var part := parts[k];
    var p := JoinHasPart(parts, sep, k);
    LowerOccurrence(joined, part, p);
    var j :| 0 <= j <= |ToLower(part)| - |q| && OccursAt(ToLower(part), q, j);
    assert ToLower(joined)[p + j..p + j + |q|] == ToLower(part)[j..j + |q|];
    assert OccursAt(ToLower(joined), q, p + j);
  }

  /**
   * A search whose looked-up query is a piece of one of a design's words
   * (name, tag, theme or style), in any letter case, keeps the design.
   */
  lemma SearchFindsWord(t: Template, search: string, rule: SearchRule, k: nat)
    requires k < |Words(t)|
    requires Contains(ToLower(Words(t)[k]), Query(search, rule))
    ensures MatchesSearch(t, search, rule)
  {
    ContainsThroughJoin(Words(t), " ", k, Query(search, rule));
  }

  /** For a query without surrounding whitespace the component's test and the trimmed one agree. */
  lemma RulesAgreeUnpadded(t: Template, q: string)
    requires q != [] ==> !IsWhitespace(q[0]) && !IsWhitespace(q[|q| - 1])
    ensures MatchesSearch(t, q, AsWritten) <==> MatchesSearch(t, q, TrimmedQuery)
  {
    if q != [] {
      TrimUnchanged(q);
    }
  }

  /**
   * With the trimmed query, surrounding whitespace does not change what a
   * search shows: the padded query behaves as the bare one does in the
   * component.
   */
  lemma PaddingIgnored(t: Template, pad1: string, q: string, pad2: string)
    requires AllWhitespace(pad1) && AllWhitespace(pad2)
    requires q != [] && !IsWhitespace(q[0]) && !IsWhitespace(q[|q| - 1])
    ensures MatchesSearch(t, pad1 + q + pad2, TrimmedQuery) <==> MatchesSearch(t, q, AsWritten)
  {
    TrimPadded(pad1, q, pad2);
    TrimUnchanged(q);
  }

  /** A design with no tags, themes or styles is searched by its lower-cased name alone. */
  lemma NameOnlyHaystack(t: Template)
    requires t.tags == [] && t.themes == [] && t.styles == []
    ensures Haystack(t) == ToLower(t.name)
  {
    assert Words(t) == [t.name];
  }

  /** The design of the counterexample: named "Modern", with no tags, themes or styles. */
  function ModernDesign(): Template {
    Template("modern", "Modern", "", [], [], Free, [])
  }

  /**
   * As written, a query with a trailing space misses the design named
   * "Modern": the query is longer than the haystack.
   */
  lemma PaddedQueryMissesAsWritten()
    ensures !MatchesSearch(ModernDesign(), "modern ", AsWritten)
  {
    var t := ModernDesign();
    NameOnlyHaystack(t);
    var search := "modern ";
    assert !IsWhitespace(search[0]);
    assert |ToLower(search)| > |Haystack(t)|;
  }

  lemma TrailingSpaceTrimmed()
    ensures Trim("modern ") == "modern"
  {
    var word := "modern";
    TrimPadded("", word, " ");
    assert "" + word + " " == "modern ";
  }

  lemma NameFoundInAnyCase()
    ensures Contains(ToLower("Modern"), ToLower("modern"))
  {
    var name, word := "Modern", "modern";
    assert ToLower(name) == ToLower(word) by {
      assert forall i | 0 <= i < 6 :: LowerChar(name[i]) == LowerChar(word[i]);
    }
    assert OccursAt(ToLower(word), ToLower(word), 0);
  }

  /** The trimmed test finds that design with the same padded query. */
  lemma PaddedQueryFound()
    ensures MatchesSearch(ModernDesign(), "modern ", TrimmedQuery)
  {
    TrailingSpaceTrimmed();
    NameFoundInAnyCase();
    SearchFindsWord(ModernDesign(), "modern ", TrimmedQuery, 0);
  }

  /** A picker holding one design shows it exactly when it passes. */
  lemma FilteredSingle(t: Template, f: Filters, rule: SearchRule)
    ensures Filtered([t], f, rule) == if Passes(t, f, rule) then [t] else []
  {
    assert [t][1..] == [];
  }

  /** Searching "modern " in a picker holding only that design: the component shows nothing, the trimmed test shows it. */
  lemma PaddedQueryListed()
    ensures var f := Filters("modern ", None, None, AnyTier);
      && Filtered([ModernDesign()], f, AsWritten) == []
      && Filtered([ModernDesign()], f, TrimmedQuery) == [ModernDesign()]
  {
    var f := Filters("modern ", None, None, AnyTier);
    var d := ModernDesign();
    PaddedQueryMissesAsWritten();
    PaddedQueryFound();
    assert !Passes(d, f, AsWritten);
    assert Passes(d, f, TrimmedQuery);
    FilteredSingle(d, f, AsWritten);
    FilteredSingle(d, f, TrimmedQuery);
  }
}
