/**
 * `getWPContents`: picks a listing strategy from a content-type name and
 * runs it against the content store.
 */
module ContentResolver {
  import opened PhpArray
  import opened FieldVars
  import opened Strategies
  import opened CategoryTree

  /** The if-chain on the type name: each canonical key selects its own
      strategy; every other name, a plural alias included, selects Posts. */
  function StrategyFor(t: string): (s: Strategy)
    ensures t in CanonicalKeys ==> s.Key() == t
    ensures t !in CanonicalKeys ==> s == Posts
  {
    if t == "category" then Categories
    else if t == "menu" then Menus
    else if t == "page" then Pages
    else if t == "posttype" then Posttypes
    else if t == "tag" then Tags
    else if t == "taxonomy" then Taxonomies
    else if t == "term" then Terms
    else if t == "user" then Users
    else Posts
  }

  /** Every strategy is selected by its own key, and by nothing else but
      the names that fall back to Posts. */
  lemma DispatchTotal(t: string)
    ensures StrategyFor(StrategyFor(t).Key()) == StrategyFor(t)
    ensures forall s: Strategy :: StrategyFor(s.Key()) == s
    ensures StrategyFor(t) != Posts ==> t == StrategyFor(t).Key()
  {
  }

  /** Every plural alias reaching the dispatch unnormalised lists posts,
      whatever kind it names. */
  lemma PluralAliasSelectsPosts()
    ensures forall c :: c in CanonicalKeys ==> StrategyFor(Plural(c)) == Posts
  {
    forall c | c in CanonicalKeys ensures StrategyFor(Plural(c)) == Posts {
      assert c == "category" || c == "menu" || c == "page" || c == "post" || c == "posttype" ||
        c == "tag" || c == "taxonomy" || c == "term" || c == "user";
    }
  }

  /** The contents listed for a type, as the selected strategy computes
      them: categories by the tree walk from the root (parent 0, empty
      prefix), the other kinds by the flat loop over one store call. */
  function Contents(t: string, settings: Args, field: string, search: string, store: Store): (r: Assoc<Entry>)
    ensures UniqueKeys(r)
  {
    var s := StrategyFor(t);
    if s == Categories then
      PutAll([], VisitEntries(Tree(store.categories, store.categoryFilter, settings, search, "0"), field, ""))
    else
      Listing(s, Fetched(store, s, QueryArgs(s, settings, search, "0")), field)
  }

  /** `getWPMenus`, `getWPPages`, `getWPPosts`, `getWPPosttypes`,
      `getWPTags`, `getWPTaxonomies`, `getWPTerms` and `getWPUsers`: build
      the query, call the store once and list its records. */
  method ListContents(s: Strategy, store: Store, options: Args, field: string, search: string)
      returns (contents: Assoc<Entry>)
    requires s != Categories
    ensures contents == Listing(s, Fetched(store, s, QueryArgs(s, options, search, "0")), field)
  {
    var args := QueryArgs(s, options, search, "0");
    var records := Fetched(store, s, args);
    contents := [];
    var i := 0;
    while i < |records|
      invariant 0 <= i <= |records|
      invariant contents == PutAll([], Entries(s, records[..i], field))
    {
      var r := records[i];
      ListingStep(s, records, i, field);
      if !Skipped(s, r) {
        contents := Put(contents, ResultKey(r, field, NaturalId(s)), EntryFor(s, r));
      }
      i := i + 1;
    }
    assert records[..|records|] == records;
  }

  /** One step of the flat loop: a skipped record leaves the listing as it
      was, any other assigns its entry under its key. */
  lemma ListingStep(s: Strategy, records: seq<Record>, i: nat, field: string)
    requires i < |records|
    ensures var r := records[i];
      var before := PutAll([], Entries(s, records[..i], field));
      var after := PutAll([], Entries(s, records[..i + 1], field));
      if Skipped(s, r) then after == before
      else after == Put(before, ResultKey(r, field, NaturalId(s)), EntryFor(s, r))
  {
    var r := records[i];
    assert records[..i + 1][..i] == records[..i];
    var es := Entries(s, records[..i], field);
    if Skipped(s, r) {
      assert Entries(s, records[..i + 1], field) == es + [];
      assert es + [] == es;
    } else {
      var e := (ResultKey(r, field, NaturalId(s)), EntryFor(s, r));
      assert Entries(s, records[..i + 1], field) == es + [e];
      assert (es + [e])[..|es|] == es;
    }
  }

  /** `getWPContents($type, $settings, $field, $search)`. */
  method GetContents(t: string, settings: Args, field: string, search: string, store: Store)
      returns (contents: Assoc<Entry>)
    ensures contents == Contents(t, settings, field, search, store)
  {
    var s := StrategyFor(t);
    if s == Categories {
      contents := GetCategories(store.categories, store.categoryFilter, settings, field, search, [], "0", "");
    } else {
      contents := ListContents(s, store, settings, field, search);
    }
  }
}
