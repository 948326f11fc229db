/**
 * The nine listing strategies of the Wordpress field and the logic they
 * share: the query arguments each one builds, and the loop that turns the
 * records the content store returns into `key => {title, link}` entries.
 */
module Strategies {
  import opened PhpArray

  datatype Strategy =
    | Categories | Menus | Pages | Posts | Posttypes
    | Tags | Taxonomies | Terms | Users
  {
    /** The canonical content-type key the strategy serves. */
    function Key(): string {
      match this
      case Categories => "category"
      case Menus => "menu"
      case Pages => "page"
      case Posts => "post"
      case Posttypes => "posttype"
      case Tags => "tag"
      case Taxonomies => "taxonomy"
      case Terms => "term"
      case Users => "user"
    }
  }

  /** A record as the content store returns it: its properties by name. A
      property that is unset or null is absent from the map. */
  datatype Record = Record(props: map<string, string>)

  /** `$obj->name`, with an unset property read as null (""). */
  function Prop(r: Record, name: string): string {
    if name in r.props then r.props[name] else ""
  }

  /** A link as one of WordPress's URL helpers would build it. */
  datatype Link =
    | CategoryLink(categoryId: string)
    | AdminUrl(path: string)
    | PageLink(pageId: string)
    | Permalink(postId: string)
    | TermLink(termId: string)
    | EditUserLink(userId: string)

  /** One listed content: its title and its link. */
  datatype Entry = Entry(title: string, link: Link)

  /** The property that identifies a record of each kind. */
  function NaturalId(s: Strategy): string {
    match s
    case Categories => "cat_ID"
    case Menus => "term_id"
    case Pages => "ID"
    case Posts => "ID"
    case Posttypes => "name"
    case Tags => "term_id"
    case Taxonomies => "name"
    case Terms => "term_id"
    case Users => "ID"
  }

  /** Categories, menus, pages and posts drop records without an id; the
      other five strategies have no such guard. */
  predicate Skipped(s: Strategy, r: Record) {
    s in {Categories, Menus, Pages, Posts} && Empty(Prop(r, NaturalId(s)))
  }

  /** The key a record is listed under: the requested field when it is
      non-empty and set on the record, otherwise the natural id. */
  function ResultKey(r: Record, field: string, natural: string): string {
    if !Empty(field) && field in r.props then r.props[field] else Prop(r, natural)
  }

  /** The title and link each strategy stores for a record (a category's
      depth prefix is added by the category tree). */
  function EntryFor(s: Strategy, r: Record): Entry {
    match s
    case Categories => Entry(Prop(r, "cat_name"), CategoryLink(Prop(r, "cat_ID")))
    case Menus => Entry(Prop(r, "name"), AdminUrl("nav-menus.php?menu=" + Prop(r, "term_id")))
    case Pages => Entry(Prop(r, "post_title"), PageLink(Prop(r, "ID")))
    case Posts => Entry(Prop(r, "post_title"), Permalink(Prop(r, "ID")))
    case Posttypes =>
      Entry(Prop(r, "labels.name") + " (" + Prop(r, "name") + ")", AdminUrl("edit.php?post_type=" + Prop(r, "name")))
    case Tags => Entry(Prop(r, "name"), TermLink(Prop(r, "term_id")))
    case Taxonomies =>
      Entry(Prop(r, "labels.name") + " (" + Prop(r, "name") + ")", AdminUrl("edit-tags.php?taxonomy=" + Prop(r, "name")))
    case Terms => Entry(Prop(r, "name"), TermLink(Prop(r, "term_id")))
    case Users => Entry(Prop(r, "display_name"), EditUserLink(Prop(r, "ID")))
  }

  /** The assignments `$contents[$item] = [...]` the loop makes, one per
      record that is not skipped, in the store's order. */
  function Entries(s: Strategy, records: seq<Record>, field: string): seq<(string, Entry)> {
    if records == [] then []
    else
      var r := records[|records| - 1];
      Entries(s, records[..|records| - 1], field)
      + (if Skipped(s, r) then [] else [(ResultKey(r, field, NaturalId(s)), EntryFor(s, r))])
  }

  /** The array a strategy returns for the records the store gave it. */
  function Listing(s: Strategy, records: seq<Record>, field: string): Assoc<Entry> {
    PutAll([], Entries(s, records, field))
  }

  /** Every assignment comes from a record that is not skipped, under the
      key rule. */
  lemma {:induction false} EntriesSound(s: Strategy, records: seq<Record>, field: string)
    ensures forall p :: p in Entries(s, records, field) ==>
      exists r :: r in records && !Skipped(s, r) &&
        p.0 == (if !Empty(field) && field in r.props then r.props[field] else Prop(r, NaturalId(s))) &&
        p.1 == EntryFor(s, r)
  {
    if records != [] {
      var init := records[..|records| - 1];
      EntriesSound(s, init, field);
      assert forall r :: r in init ==> r in records;
    }
  }

  /** Every record that is not skipped is assigned. */
  lemma {:induction false} EntriesComplete(s: Strategy, records: seq<Record>, field: string)
    ensures forall r :: r in records && !Skipped(s, r) ==>
      (ResultKey(r, field, NaturalId(s)), EntryFor(s, r)) in Entries(s, records, field)
  {
    if records != [] {
      var init := records[..|records| - 1];
      EntriesComplete(s, init, field);
      forall r | r in records && !Skipped(s, r)
        ensures (ResultKey(r, field, NaturalId(s)), EntryFor(s, r)) in Entries(s, records, field)
      {
        if r != records[|records| - 1] {
          var i :| 0 <= i < |records| && records[i] == r;
          assert r == init[i];
        }
      }
    }
  }

  /** What a strategy lists has unique keys, and each entry is the title
      and link of a record that has an id (where the strategy checks for
      one), stored under the requested field's value when that is non-empty
      and set, and under the natural id otherwise. */
  lemma ListingSound(s: Strategy, records: seq<Record>, field: string)
    ensures UniqueKeys(Listing(s, records, field))
    ensures forall p :: p in Listing(s, records, field) ==>
      exists r :: r in records && !Skipped(s, r) &&
        p.0 == (if !Empty(field) && field in r.props then r.props[field] else Prop(r, NaturalId(s))) &&
        p.1 == EntryFor(s, r)
  {
    var es := Entries(s, records, field);
    PutAllFrom([], es);
    EntriesSound(s, records, field);
    forall p | p in Listing(s, records, field)
      ensures exists r :: r in records && !Skipped(s, r) &&
                p.0 == (if !Empty(field) && field in r.props then r.props[field] else Prop(r, NaturalId(s))) &&
                p.1 == EntryFor(s, r)
    {
      assert p in es;
    }
  }

  /** Every record a strategy does not skip has its key listed. */
  lemma ListingComplete(s: Strategy, records: seq<Record>, field: string)
    ensures forall r :: r in records && !Skipped(s, r) ==>
      HasKey(Listing(s, records, field), ResultKey(r, field, NaturalId(s)))
  {
    var es := Entries(s, records, field);
    EntriesComplete(s, records, field);
    forall r | r in records && !Skipped(s, r)
      ensures HasKey(Listing(s, records, field), ResultKey(r, field, NaturalId(s)))
    {
      var k := ResultKey(r, field, NaturalId(s));
      var i :| 0 <= i < |es| && es[i] == (k, EntryFor(s, r));
      PutAllKeys([], es, k);
    }
  }

  /** Query arguments, with PHP scalars in their string form. */
  type Args = map<string, string>

  /** `array_merge($defaults, $options)` on string keys: every option
      overrides its default; the other defaults stay. */
  function Merge(defaults: Args, options: Args): (r: Args)
    ensures r.Keys == defaults.Keys + options.Keys
    ensures forall k :: k in options ==> r[k] == options[k]
    ensures forall k :: k in defaults && k !in options ==> r[k] == defaults[k]
  {
    defaults + options
  }

  /** The defaults each strategy merges the caller's options over; `parent`
      is the category whose children are listed. */
  function Defaults(s: Strategy, parent: string): Args {
    match s
    case Categories => map["hide_empty" := "0", "orderby" := "name", "order" := "ASC", "parent" := parent]
    case Menus => map["hide_empty" := "", "orderby" := "none"]
    case Pages => map["sort_column" := "post_parent,menu_order"]
    case Posts => map["post_type" := "post", "post_status" := "publish"]
    case Posttypes => map[]
    case Tags => map[]
    case Taxonomies => map["public" := "1"]
    case Terms => map["hide_empty" := ""]
    case Users => map["role" := ""]
  }

  /** The argument names a non-empty search term is written to. */
  function SearchKeys(s: Strategy): set<string> {
    match s
    case Categories => {"search"}
    case Menus => {"search"}
    case Pages => {"s"}
    case Posts => {"s"}
    case Posttypes => {"name", "singular_name"}
    case Tags => {}
    case Taxonomies => {"name", "singular_name"}
    case Terms => {"search"}
    case Users => {"search"}
  }

  /** The arguments a strategy passes to the store. */
  function QueryArgs(s: Strategy, options: Args, search: string, parent: string): (args: Args)
    ensures args.Keys == Defaults(s, parent).Keys + options.Keys
      + (if s == Pages then {"post_type"} else {})
      + (if Empty(search) then {} else SearchKeys(s))
    ensures !Empty(search) ==> forall k :: k in SearchKeys(s) ==> args[k] == search
    ensures s == Pages ==> args["post_type"] == "page"
    ensures forall k :: (k in options && (Empty(search) || k !in SearchKeys(s)) && !(s == Pages && k == "post_type")
                         ==> args[k] == options[k])
    ensures forall k :: (k in Defaults(s, parent) && k !in options && (Empty(search) || k !in SearchKeys(s))
                         ==> args[k] == Defaults(s, parent)[k])
  {
    var merged := Merge(Defaults(s, parent), options);
    var forced := if s == Pages then merged["post_type" := "page"] else merged;
    if Empty(search) then forced else forced + map k | k in SearchKeys(s) :: search
  }

  /** Tags take no search term: their query is the same for every term. */
  lemma TagsIgnoreSearch(options: Args, search: string, other: string, parent: string)
    ensures QueryArgs(Tags, options, search, parent) == QueryArgs(Tags, options, other, parent)
  {
  }

  /** The tags strategy asks for the tags of the post named by the `ID`
      option, or of post 0. */
  function TagsPostId(args: Args): string {
    if "ID" in args then args["ID"] else "0"
  }

  /** A store call that can also answer with a `WP_Error`. */
  datatype Reply = Found(records: seq<Record>) | WpError

  /** The content store the strategies query, one function per WordPress
      call. Categories are a table: the tree walk asks it for the children
      of one parent at a time, `categoryFilter` standing for the store's
      own selection by the other arguments (search, emptiness, ...). */
  datatype Store = Store(
    categories: seq<Record>,
    categoryFilter: (Args, Record) -> bool,
    menus: Args -> seq<Record>,
    posts: Args -> seq<Record>,
    postTypes: Args -> seq<Record>,
    tags: string -> seq<Record>,
    taxonomies: Args -> seq<Record>,
    terms: Args -> Reply,
    users: Args -> Reply)

  /** The records a flat strategy iterates over. Pages and posts both go
      through `get_posts`; a `WP_Error` from terms or users lists nothing. */
  function Fetched(store: Store, s: Strategy, args: Args): seq<Record>
    requires s != Categories
  {
    match s
    case Menus => store.menus(args)
    case Pages => store.posts(args)
    case Posts => store.posts(args)
    case Posttypes => store.postTypes(args)
    case Tags => store.tags(TagsPostId(args))
    case Taxonomies => store.taxonomies(args)
    case Terms => (match store.terms(args) case Found(rs) => rs case WpError => [])
    case Users => (match store.users(args) case Found(rs) => rs case WpError => [])
  }

  /** As written, the taxonomies loop iterates over taxonomy objects
      (`get_taxonomies(..., 'objects')`) and falls back to the object
      `$tax` itself as the key; PHP refuses an object as an array key, so
      only a record whose requested field is set gets an entry. */
  function AsWrittenTaxonomyEntries(records: seq<Record>, field: string): seq<(string, Entry)> {
    if records == [] then []
    else
      var r := records[|records| - 1];
      AsWrittenTaxonomyEntries(records[..|records| - 1], field)
      + (if !Empty(field) && field in r.props then [(r.props[field], EntryFor(Taxonomies, r))] else [])
  }

  /** Without a requested field, the loop as written lists no taxonomy at
      all, where the listing modelled above lists each under its name. */
  lemma {:induction false} AsWrittenTaxonomiesDropFallback(records: seq<Record>)
    ensures AsWrittenTaxonomyEntries(records, "") == []
    ensures var category := Record(map["name" := "category", "labels.name" := "Categories"]);
      AsWrittenTaxonomyEntries([category], "") == [] && HasKey(Listing(Taxonomies, [category], ""), "category")
    decreases |records|
  {
    if records != [] {
      AsWrittenTaxonomiesDropFallback(records[..|records| - 1]);
    }
    var category := Record(map["name" := "category", "labels.name" := "Categories"]);
    assert [category][..0] == [];
    var es := Entries(Taxonomies, [category], "");
    assert !Skipped(Taxonomies, category);
    assert ResultKey(category, "", NaturalId(Taxonomies)) == "category";
    assert Entries(Taxonomies, [category][..0], "") == [];
    assert es == [("category", EntryFor(Taxonomies, category))];
    assert es[0].0 == "category";
    PutAllKeys([], es, "category");
  }

  /** Every taxonomy whose requested field is empty or unset is listed
      under its name. */
  lemma TaxonomiesKeyedByName(records: seq<Record>, field: string)
    ensures forall r :: r in records && (Empty(field) || field !in r.props) ==>
      HasKey(Listing(Taxonomies, records, field), Prop(r, "name"))
  {
    ListingComplete(Taxonomies, records, field);
    forall r | r in records && (Empty(field) || field !in r.props)
      ensures HasKey(Listing(Taxonomies, records, field), Prop(r, "name"))
    {
      assert !Skipped(Taxonomies, r);
      assert ResultKey(r, field, NaturalId(Taxonomies)) == Prop(r, "name");
    }
  }
}
