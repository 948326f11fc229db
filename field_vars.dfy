/**
 * The content-type alias table of the Wordpress field and `getVars`, which
 * turns the stored value and the field's configuration into template
 * variables.
 */
module FieldVars {
  import opened PhpArray

  /** The `$posttypes` table: every accepted type name, plural or singular,
      and the canonical key it stands for. */
  const PostTypes: map<string, string> := map[
    "categories" := "category",
    "category" := "category",
    "menus" := "menu",
    "menu" := "menu",
    "pages" := "page",
    "page" := "page",
    "posts" := "post",
    "post" := "post",
    "posttypes" := "posttype",
    "posttype" := "posttype",
    "tags" := "tag",
    "tag" := "tag",
    "taxonomies" := "taxonomy",
    "taxonomy" := "taxonomy",
    "terms" := "term",
    "term" := "term",
    "users" := "user",
    "user" := "user"
  ]

  /** The canonical content-type keys. */
  const CanonicalKeys: set<string> :=
    {"category", "menu", "page", "post", "posttype", "tag", "taxonomy", "term", "user"}

  /** The display modes a field may ask for. */
  const Modes: set<string> := {"default", "extended"}

  /** The alias table's targets are exactly the canonical keys. */
  lemma AliasTargetsCanonical()
    ensures PostTypes.Values == CanonicalKeys
  {
    forall v | v in PostTypes.Values ensures v in CanonicalKeys {
      var a :| a in PostTypes && PostTypes[a] == v;
    }
    forall c | c in CanonicalKeys ensures c in PostTypes.Values {
      assert PostTypes[c] == c;
    }
  }

  /** Every canonical key is an alias of itself, so mapping an alias a
      second time changes nothing. */
  lemma CanonicalKeysFixed()
    ensures forall c :: c in CanonicalKeys ==> c in PostTypes && PostTypes[c] == c
    ensures forall a :: a in PostTypes ==> PostTypes[PostTypes[a]] == PostTypes[a]
  {
  }

  /** The plural spelling of each canonical key. */
  function Plural(c: string): string {
    match c
    case "category" => "categories"
    case "menu" => "menus"
    case "page" => "pages"
    case "post" => "posts"
    case "posttype" => "posttypes"
    case "tag" => "tags"
    case "taxonomy" => "taxonomies"
    case "term" => "terms"
    case _ => "users"
  }

  /** Each plural is accepted and shares its singular's canonical key. */
  lemma PluralsShareKey()
    ensures forall c :: c in CanonicalKeys ==> Plural(c) in PostTypes && PostTypes[Plural(c)] == c
  {
    forall c | c in CanonicalKeys ensures Plural(c) in PostTypes && PostTypes[Plural(c)] == c {
      assert c == "category" || c == "menu" || c == "page" || c == "post" || c == "posttype" ||
        c == "tag" || c == "taxonomy" || c == "term" || c == "user";
    }
  }

  /** The type normalisation of `getVars`: a known alias becomes its
      canonical key, anything else becomes "post". */
  function NormaliseType(t: string): (c: string)
    ensures c in CanonicalKeys
    ensures t in PostTypes ==> c == PostTypes[t]
    ensures t !in PostTypes ==> c == "post"
  {
    if t in PostTypes then PostTypes[t] else "post"
  }

  /** Normalising twice is normalising once. */
  lemma NormaliseIdempotent(t: string)
    ensures NormaliseType(NormaliseType(t)) == NormaliseType(t)
  {
    CanonicalKeysFixed();
  }

  /** A stored field value: one scalar, or an array of them. */
  datatype FieldValue = Scalar(s: string) | List(items: seq<string>)

  /** The template variables `getVars` settles: the value, the display mode
      and the canonical content type. Every other entry of the configuration
      is passed through untouched. */
  datatype Vars = Vars(value: FieldValue, mode: string, contentType: string)

  /** `getVars`: a non-empty scalar value becomes a one-element list, an
      array or an empty value passes through; an absent or unknown mode
      becomes "default"; the type is normalised through the alias table. */
  function GetVars(value: FieldValue, contents: map<string, string>): (v: Vars)
    ensures value.List? ==> v.value == value
    ensures value.Scalar? && Empty(value.s) ==> v.value == value
    ensures value.Scalar? && !Empty(value.s) ==> v.value == List([value.s])
    ensures v.mode in Modes
    ensures "mode" in contents && contents["mode"] in Modes ==> v.mode == contents["mode"]
    ensures !("mode" in contents && contents["mode"] in Modes) ==> v.mode == "default"
    ensures v.contentType in CanonicalKeys
    ensures "type" in contents && contents["type"] in PostTypes ==> v.contentType == PostTypes[contents["type"]]
    ensures !("type" in contents && contents["type"] in PostTypes) ==> v.contentType == "post"
  {
    var val := if value.Scalar? && !Empty(value.s) then List([value.s]) else value;
    var mode := if "mode" in contents then contents["mode"] else "";
    // an unset type is looked up as the key "" (PHP's null key), which the table lacks
    var typ := if "type" in contents then contents["type"] else "";
    Vars(val, if mode in Modes then mode else "default", NormaliseType(typ))
  }
}
