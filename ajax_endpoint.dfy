/**
 * `ajaxCallback`: the search endpoint of the selection modal. It lists the
 * contents of a content type and renders them as the HTML table the modal
 * shows, or rejects the request.
 */
module AjaxEndpoint {
  import opened Wrappers
  import opened PhpArray
  import opened FieldVars
  import opened Strategies
  import opened ContentResolver

  /** The characters PHP's `trim` strips by default. */
  predicate Blank(c: char) {
    c == ' ' || c == '\t' || c == '\n' || c == '\r' || c == '\0' || c == '\U{000B}'
  }

  /** `ltrim`: drops the leading blanks and nothing else. */
  function TrimLeft(s: string): (r: string)
    ensures |r| <= |s| && r == s[|s| - |r|..]
    ensures r == [] || !Blank(r[0])
    ensures forall i :: 0 <= i < |s| - |r| ==> Blank(s[i])
  {
    if s != [] && Blank(s[0]) then
      var r := TrimLeft(s[1..]);
      assert s[1..][|s| - 1 - |r|..] == s[|s| - |r|..];
      assert forall i :: 1 <= i < |s| - |r| ==> s[i] == s[1..][i - 1];
      r
    else s
  }

  /** `rtrim`: drops the trailing blanks and nothing else. */
  function TrimRight(s: string): (r: string)
    ensures |r| <= |s| && r == s[..|r|]
    ensures r == [] || !Blank(r[|r| - 1])
    ensures forall i :: |r| <= i < |s| ==> Blank(s[i])
  {
    if s != [] && Blank(s[|s| - 1]) then
      var r := TrimRight(s[..|s| - 1]);
      assert s[..|s| - 1][..|r|] == s[..|r|];
      assert forall i :: |r| <= i < |s| - 1 ==> s[i] == s[..|s| - 1][i];
      r
    else s
  }

  /** `trim`: both ends. */
  function Trim(s: string): string {
    TrimRight(TrimLeft(s))
  }

  /** Every character of `s` before `i` and from `j` on is blank. */
  predicate BlankOutside(s: string, i: int, j: int)
    requires 0 <= i <= j <= |s|
  {
    (forall k :: 0 <= k < i ==> Blank(s[k])) &&
    (forall k :: j <= k < |s| ==> Blank(s[k]))
  }

  /** What `trim` leaves is a slice of its input, and everything cut off
      around it is blank. */
  lemma TrimSound(s: string)
    ensures exists i: nat, j: nat :: i <= j <= |s| && Trim(s) == s[i..j] && BlankOutside(s, i, j)
  {
    var l := TrimLeft(s);
    var r := TrimRight(l);
    var i := |s| - |l|;
    var j := i + |r|;
    TrimSlice(s, l, r, i, j);
    assert Trim(s) == s[i..j] && BlankOutside(s, i, j);
  }

  /** The two halves of `trim`, composed as slices. */
  lemma TrimSlice(s: string, l: string, r: string, i: nat, j: nat)
    requires i <= j <= |s|
    requires l == s[i..]
    requires forall k :: 0 <= k < i ==> Blank(s[k])
    requires r == l[..j - i]
    requires forall k :: |r| <= k < |l| ==> Blank(l[k])
    ensures r == s[i..j] && BlankOutside(s, i, j)
  {
    forall k | j <= k < |s| ensures Blank(s[k]) {
      assert s[k] == l[k - i];
    }
  }

  /** What `trim` leaves starts and ends with a non-blank. */
  lemma TrimEnds(s: string)
    ensures Trim(s) == [] || (!Blank(Trim(s)[0]) && !Blank(Trim(s)[|Trim(s)| - 1]))
  {
    var l := TrimLeft(s);
    var r := TrimRight(l);
    if r != [] {
      assert r[0] == l[0];
    }
  }

  /** A request as posted by the modal; a missing or null field is `None`. */
  datatype Request = Request(
    search: Option<string>,
    field: Option<string>,
    settings: Option<Args>,
    contentType: Option<string>)

  /** The WordPress helpers the endpoint calls: `wp_unslash`, `esc_attr`,
      `esc_html`, the link helpers and the translation of a message key. */
  datatype Env = Env(
    unslash: string -> string,
    escAttr: string -> string,
    escHtml: string -> string,
    url: Link -> string,
    t: string -> string)

  /** The callback either returns a body, or ends the request with a JSON
      error (`wp_send_json_error` does not return). */
  datatype AjaxReply = Returned(body: string) | JsonError(message: string)

  /** The stripe of the `i`-th row (from 0): the first row is alternate. */
  function Stripe(i: nat): string {
    if i % 2 == 0 then "alternate" else ""
  }

  /** The first row is striped, and each row's stripe differs from the
      one before. */
  lemma StripeAlternates(i: nat)
    ensures Stripe(0) == "alternate"
    ensures Stripe(i + 1) == if Stripe(i) == "alternate" then "" else "alternate"
  {
  }

  /** The value `$alt` holds once `i` rows are rendered. */
  function StripeBefore(i: nat): string {
    if i == 0 then "" else Stripe(i - 1)
  }

  /** Flipping `$alt` before a row gives that row its stripe. */
  lemma StripeStep(i: nat, alt: string)
    requires alt == StripeBefore(i)
    ensures var next := if alt == "alternate" then "" else "alternate";
      next == Stripe(i) && next == StripeBefore(i + 1)
  {
    if i > 0 {
      StripeAlternates(i - 1);
    }
  }

  /** The class of the `i`-th row: `trim('found-posts ' . $alt)`. */
  function RowClass(i: nat): string {
    Trim("found-posts " + Stripe(i))
  }

  /** `trim` leaves alone a string that starts and ends with a non-blank. */
  lemma TrimKeeps(s: string)
    requires s != [] && !Blank(s[0]) && !Blank(s[|s| - 1])
    ensures Trim(s) == s
  {
  }

  /** `trim` removes one trailing space after such a string. */
  lemma TrimDropsSpace(s: string)
    requires s != [] && !Blank(s[0]) && !Blank(s[|s| - 1])
    ensures Trim(s + " ") == s
  {
    assert (s + " ")[..|s|] == s;
  }

  /** Rows alternate between the two classes, starting with the striped one. */
  lemma RowClassStripes(i: nat)
    ensures RowClass(i) == if i % 2 == 0 then "found-posts alternate" else "found-posts"
  {
    var t := "found-posts";
    if i % 2 == 0 {
      var s := "found-posts alternate";
      assert "found-posts " + Stripe(i) == s;
      TrimKeeps(s);
    } else {
      assert "found-posts " + Stripe(i) == t + " ";
      TrimDropsSpace(t);
    }
  }

  /** The title shown: the stored one, unless it trims to a falsy string. */
  function ShownTitle(env: Env, title: string): string {
    if Empty(Trim(title)) then env.t("wordpress.ajax.no_title") else title
  }

  /** A title made of blanks, or one that trims to `0`, falls back to the
      "no title" text; any other title is kept as it is, padding included. */
  lemma ShownTitleFallback(env: Env, title: string)
    ensures (forall k :: 0 <= k < |title| ==> Blank(title[k])) ==>
      ShownTitle(env, title) == env.t("wordpress.ajax.no_title")
    ensures Trim(title) == "0" ==> ShownTitle(env, title) == env.t("wordpress.ajax.no_title")
    ensures ShownTitle(env, " 0 ") == env.t("wordpress.ajax.no_title")
    ensures ShownTitle(env, title) == title || ShownTitle(env, title) == env.t("wordpress.ajax.no_title")
    ensures !Empty(Trim(title)) ==> ShownTitle(env, title) == title
  {
    AllBlankTrimsEmpty(title);
    ZeroTrims();
  }

  /** A string of blanks trims to nothing. */
  lemma AllBlankTrimsEmpty(s: string)
    ensures (forall k :: 0 <= k < |s| ==> Blank(s[k])) ==> Trim(s) == []
  {
    var l := TrimLeft(s);
    if l != [] {
      assert l[0] == s[|s| - |l|];
    }
  }

  /** A `0` among spaces trims to `0`. */
  lemma ZeroTrims()
    ensures Trim(" 0 ") == "0"
  {
    var z := " 0 ";
    assert TrimLeft(z) == z[1..];
    assert z[1..][..1] == "0";
    assert TrimRight("0") == "0";
  }

  /** The pieces the callback appends to its buffer, joined in order. */
  function Concat(parts: seq<string>): string {
    if parts == [] then "" else Concat(parts[..|parts| - 1]) + parts[|parts| - 1]
  }

  /** One table row with the class `cls`: a radio button carrying the key,
      the escaped title and the raw link. */
  function RowHtml(env: Env, cls: string, key: string, entry: Entry): string {
    var title := ShownTitle(env, entry.title);
    var link := env.url(entry.link);
    Concat([
      "<tr class=\"", cls, "\">",
      "<td class=\"found-radio\">",
      "<input type=\"radio\" id=\"found-", key, "\" name=\"key\" value=\"", env.escAttr(key), "\" />",
      "</td>",
      "<td class=\"found-title\">",
      "<label for=\"found-", key, "\">", env.escHtml(title), "</label>",
      "<br/><a href=\"", link, "\" target=\"_blank\"><small>", link, "</small></a>",
      "</td>",
      "</tr>"])
  }

  /** The rows of the listed contents, in the array's order. */
  function RowsHtml(env: Env, objs: Assoc<Entry>): string {
    if objs == [] then ""
    else
      var n := |objs| - 1;
      RowsHtml(env, objs[..n]) + RowHtml(env, RowClass(n), objs[n].0, objs[n].1)
  }

  /** One turn of the loop over the contents adds the row of the next one. */
  lemma RowsStep(env: Env, objs: Assoc<Entry>, i: nat)
    requires i < |objs|
    ensures RowsHtml(env, objs[..i + 1]) == RowsHtml(env, objs[..i]) + RowHtml(env, RowClass(i), objs[i].0, objs[i].1)
  {
    assert objs[..i + 1][..i] == objs[..i];
  }

  lemma AppendAssoc(a: string, b: string, c: string)
    ensures (a + b) + c == a + (b + c)
  {
  }

  /** The table head and the opening of its body. */
  function Header(env: Env): string {
    "<table class=\"widefat\">"
    + "<thead><tr>"
    + "<th class=\"found-radio\"></th>"
    + "<th>" + env.t("wordpress.ajax.title") + "</th>"
    + "</tr></thead>"
    + "<tbody>"
  }

  function TableHtml(env: Env, objs: Assoc<Entry>): string {
    Header(env) + RowsHtml(env, objs) + "</tbody>" + "</table>"
  }

  /** What the endpoint answers: `-1` for a type outside the alias table,
      a JSON error when there is nothing to list, the table otherwise. The
      contents are listed for the type exactly as posted. */
  function Ajax(env: Env, store: Store, req: Request): AjaxReply {
    var search := env.unslash(req.search.GetOr(""));
    var field := req.field.GetOr("");
    var settings := req.settings.GetOr(map[]);
    var t := req.contentType.GetOr("post");
    if t !in PostTypes then Returned("-1")
    else
      var objs := Contents(t, settings, field, search, store);
      if objs == [] then JsonError(env.t("wordpress.ajax.no_items_found"))
      else Returned(TableHtml(env, objs))
  }

  /** `ajaxCallback($request)`. */
  method AjaxCallback(env: Env, store: Store, req: Request) returns (reply: AjaxReply)
    ensures reply == Ajax(env, store, req)
  {
    var search := env.unslash(req.search.GetOr(""));
    var field := req.field.GetOr("");
    var settings := req.settings.GetOr(map[]);
    var t := req.contentType.GetOr("post");
    if t !in PostTypes {
      return Returned("-1");
    }
    var objs := GetContents(t, settings, field, search, store);
    if objs == [] {
      return JsonError(env.t("wordpress.ajax.no_items_found"));
    }
    var html := RenderTable(env, objs);
    return Returned(html);
  }

  /** The loop of `ajaxCallback` that renders the listed contents. */
  method RenderTable(env: Env, objs: Assoc<Entry>) returns (html: string)
    ensures html == TableHtml(env, objs)
  {
    html := Header(env);
    var alt := "";
    var i := 0;
    assert objs[..i] == [] && html + "" == html;
    while i < |objs|
      invariant 0 <= i <= |objs|
      invariant alt == StripeBefore(i)
      invariant html == Header(env) + RowsHtml(env, objs[..i])
    {
      StripeStep(i, alt);
      alt := if alt == "alternate" then "" else "alternate";
      RowsStep(env, objs, i);
      var row := RowHtml(env, Trim("found-posts " + alt), objs[i].0, objs[i].1);
      AppendAssoc(Header(env), RowsHtml(env, objs[..i]), row);
      html := html + row;
      assert html == Header(env) + RowsHtml(env, objs[..i + 1]);
      i := i + 1;
    }
    html := html + "</tbody>";
    html := html + "</table>";
    assert objs[..|objs|] == objs;
  }

  /** The callback answers `-1` exactly when the posted type is not in the
      alias table: a rendered table never reads `-1`. */
  lemma RejectsExactlyUnknownTypes(env: Env, store: Store, req: Request)
    ensures Ajax(env, store, req) == Returned("-1") <==> req.contentType.GetOr("post") !in PostTypes
  {
    var t := req.contentType.GetOr("post");
    if t in PostTypes {
      var r := Ajax(env, store, req);
      if r.Returned? {
        assert r.body[0] == '<';
        assert "-1"[0] == '-';
      }
    }
  }

  /** A known type yields the "no items" error exactly when nothing is
      listed. */
  lemma NoItemsExactlyWhenEmpty(env: Env, store: Store, req: Request)
    requires req.contentType.GetOr("post") in PostTypes
    ensures Ajax(env, store, req).JsonError? <==>
      Contents(req.contentType.GetOr("post"), req.settings.GetOr(map[]), req.field.GetOr(""),
               env.unslash(req.search.GetOr("")), store) == []
  {
  }

  /** A request without a type is answered as one for posts. */
  lemma MissingTypeIsPost(env: Env, store: Store, req: Request)
    ensures Ajax(env, store, req.(contentType := None)) == Ajax(env, store, req.(contentType := Some("post")))
  {
  }

  /** The alias table is consulted only to accept the type: a plural alias
      is not normalised before dispatch, so it lists posts. */
  lemma PluralAliasListsPosts(env: Env, store: Store, req: Request, t: string)
    requires t in PostTypes && t !in CanonicalKeys
    ensures Ajax(env, store, req.(contentType := Some(t))) == Ajax(env, store, req.(contentType := Some("post")))
  {
    assert StrategyFor(t) == Posts == StrategyFor("post");
  }

  /** "categories" is accepted, yet lists posts rather than categories. */
  lemma CategoriesAliasListsPosts(env: Env, store: Store, req: Request)
    ensures Ajax(env, store, req.(contentType := Some("categories"))) == Ajax(env, store, req.(contentType := Some("post")))
  {
    PluralAliasListsPosts(env, store, req, "categories");
  }
}
