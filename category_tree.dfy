/**
 * `getWPCategories`: the category tree flattened in pre-order, each
 * category's title prefixed with one "- " per level below the root.
 *
 * The recursive call threads the accumulator, the category's id as the new
 * parent and the prefix extended by "- ", as the signature and its
 * documentation describe (the call as written passes them one position off;
 * `AsWrittenChildCall` below models that call). The options reach the child
 * call without their `parent` entry: a `parent` option pins the query of
 * every level to the same parent, so the call as written asks for the same
 * children again and again (`AsWrittenPinnedParentRepeats`).
 *
 * The store is a table of categories. Each level asks it for the children
 * of one parent; the table a level draws from is the caller's table minus
 * the category being expanded. On an acyclic table that removes nothing a
 * query could return (a category is never its own descendant), and it makes
 * every walk finite.
 */
module CategoryTree {
  import opened PhpArray
  import opened Strategies

  /** The records of `s` that `keep` accepts, in order. */
  function Filter(s: seq<Record>, keep: Record -> bool): (r: seq<Record>)
    ensures |r| <= |s|
    ensures forall x :: x in r ==> x in s && keep(x)
    ensures (exists i :: 0 <= i < |s| && !keep(s[i])) ==> |r| < |s|
  {
    if s == [] then []
    else
      assert forall i :: 1 <= i < |s| && !keep(s[i]) ==> !keep(s[1..][i - 1]);
      (if keep(s[0]) then [s[0]] else []) + Filter(s[1..], keep)
  }

  /** The `parent` argument of a category query. */
  function ParentArg(args: Args): string {
    if "parent" in args then args["parent"] else ""
  }

  /** `get_categories($args)`: the categories of the table whose parent is
      the query's parent and that the store's own selection keeps. */
  function FetchChildren(table: seq<Record>, filter: (Args, Record) -> bool, args: Args): (cs: seq<Record>)
    ensures forall c :: c in cs ==> c in table && Prop(c, "parent") == ParentArg(args) && filter(args, c)
  {
    Filter(table, r => Prop(r, "parent") == ParentArg(args) && filter(args, r))
  }

  /** The options a child call is made with: the caller's, without the
      `parent` entry that would override the child's own parent. */
  function ChildOptions(options: Args): (r: Args)
    ensures "parent" !in r
    ensures forall k :: k in r <==> k in options && k != "parent"
    ensures forall k :: k in r ==> r[k] == options[k]
  {
    options - {"parent"}
  }

  /** The parent the walk's first level asks for: the `parent` option when
      there is one, the `$pt` argument otherwise. */
  lemma RootParent(options: Args, search: string, parent: string)
    ensures ParentArg(QueryArgs(Categories, options, search, parent))
         == if "parent" in options then options["parent"] else parent
  {
    var args := QueryArgs(Categories, options, search, parent);
    assert "parent" in Defaults(Categories, parent);
    assert "parent" !in SearchKeys(Categories);
    assert "parent" in args;
  }

  /** A child call asks for the children of the category it expands,
      whatever options the walk started with. */
  lemma ChildQueryAsksForParent(options: Args, search: string, parent: string)
    ensures ParentArg(QueryArgs(Categories, ChildOptions(options), search, parent)) == parent
  {
    RootParent(ChildOptions(options), search, parent);
  }

  /** The table the children of `c` are drawn from. */
  function Without(table: seq<Record>, c: Record): (r: seq<Record>)
    ensures c in table ==> |r| < |table|
  {
    assert c in table ==> exists i :: 0 <= i < |table| && table[i] == c;
    Filter(table, r => r != c)
  }

  /** One category met by the walk and its depth below the queried parent. */
  datatype Visit = Visit(cat: Record, depth: nat)

  /** The same visits, one level deeper. */
  function Deeper(vs: seq<Visit>): (r: seq<Visit>)
    ensures |r| == |vs|
    ensures forall i :: 0 <= i < |vs| ==> r[i] == Visit(vs[i].cat, vs[i].depth + 1)
  {
    seq(|vs|, i requires 0 <= i < |vs| => Visit(vs[i].cat, vs[i].depth + 1))
  }

  /** The categories the walk from `parent` visits, in visiting order. */
  function Tree(table: seq<Record>, filter: (Args, Record) -> bool, options: Args, search: string, parent: string): seq<Visit>
    decreases |table|, 1
  {
    Forest(table, filter, options, search,
           FetchChildren(table, filter, QueryArgs(Categories, options, search, parent)))
  }

  /** The visits of the loop over `cats`: a category without an id is
      skipped together with its subtree; any other is visited, then its
      children are walked. */
  function Forest(table: seq<Record>, filter: (Args, Record) -> bool, options: Args, search: string, cats: seq<Record>): seq<Visit>
    requires forall c :: c in cats ==> c in table
    decreases |table|, 0, |cats|
  {
    if cats == [] then []
    else
      var c := cats[|cats| - 1];
      Forest(table, filter, options, search, cats[..|cats| - 1])
      + (if Empty(Prop(c, "cat_ID")) then []
         else [Visit(c, 0)] + Deeper(Tree(Without(table, c), filter, ChildOptions(options), search, Prop(c, "cat_ID"))))
  }

  /** The depth prefix: one "- " per level. */
  function Dashes(depth: nat): string {
    if depth == 0 then "" else "- " + Dashes(depth - 1)
  }

  /** One level deeper adds exactly one "- " after the parent's prefix. */
  lemma {:induction false} DashesGrow(depth: nat)
    ensures Dashes(depth + 1) == Dashes(depth) + "- "
    ensures |Dashes(depth)| == 2 * depth
  {
    if depth > 0 {
      DashesGrow(depth - 1);
    }
  }

  /** The assignments `$ctn[$item] = [...]` for the visits, under the
      prefix `pfx` of the walk's root level. */
  function VisitEntries(vs: seq<Visit>, field: string, pfx: string): (es: seq<(string, Entry)>)
    ensures |es| == |vs|
  {
    seq(|vs|, i requires 0 <= i < |vs| =>
      (ResultKey(vs[i].cat, field, "cat_ID"),
       Entry(pfx + Dashes(vs[i].depth) + Prop(vs[i].cat, "cat_name"), CategoryLink(Prop(vs[i].cat, "cat_ID")))))
  }

  lemma VisitEntriesAppend(a: seq<Visit>, b: seq<Visit>, field: string, pfx: string)
    ensures VisitEntries(a + b, field, pfx) == VisitEntries(a, field, pfx) + VisitEntries(b, field, pfx)
  {
    var l, r := VisitEntries(a + b, field, pfx), VisitEntries(a, field, pfx) + VisitEntries(b, field, pfx);
    forall i | 0 <= i < |l| ensures l[i] == r[i] {
      if i >= |a| { assert (a + b)[i] == b[i - |a|]; }
    }
  }

  /** Entries of visits one level deeper are entries under a prefix one
      "- " longer. */
  lemma VisitEntriesDeeper(vs: seq<Visit>, field: string, pfx: string)
    ensures VisitEntries(Deeper(vs), field, pfx) == VisitEntries(vs, field, pfx + "- ")
  {
    var l, r := VisitEntries(Deeper(vs), field, pfx), VisitEntries(vs, field, pfx + "- ");
    forall i | 0 <= i < |l| ensures l[i] == r[i] {
      assert pfx + Dashes(vs[i].depth + 1) == (pfx + "- ") + Dashes(vs[i].depth);
    }
  }

  /** A visited category's entry, then its subtree's entries one "- "
      deeper. */
  lemma NestEntries(mid: Assoc<Entry>, cat: Record, sub: seq<Visit>, field: string, pfx: string)
    requires UniqueKeys(mid)
    ensures PutAll(mid, VisitEntries([Visit(cat, 0)] + Deeper(sub), field, pfx))
         == PutAll(Put(mid, ResultKey(cat, field, "cat_ID"),
                       Entry(pfx + Prop(cat, "cat_name"), CategoryLink(Prop(cat, "cat_ID")))),
                   VisitEntries(sub, field, pfx + "- "))
  {
    var item := ResultKey(cat, field, "cat_ID");
    var entry := Entry(pfx + Prop(cat, "cat_name"), CategoryLink(Prop(cat, "cat_ID")));
    VisitEntriesAppend([Visit(cat, 0)], Deeper(sub), field, pfx);
    VisitEntriesDeeper(sub, field, pfx);
    assert pfx + Dashes(0) + Prop(cat, "cat_name") == pfx + Prop(cat, "cat_name");
    assert VisitEntries([Visit(cat, 0)], field, pfx) == [(item, entry)];
    PutAllAppend(mid, [(item, entry)], VisitEntries(sub, field, pfx + "- "));
    assert PutAll(mid, [(item, entry)]) == Put(mid, item, entry);
  }

  /** One step of the loop over the children: the entries so far, then the
      category's own entry and its subtree's. */
  lemma ForestStep(table: seq<Record>, filter: (Args, Record) -> bool, options: Args, search: string,
                   cats: seq<Record>, i: nat, field: string, pfx: string, ctn: Assoc<Entry>)
    requires i < |cats| && forall c :: c in cats ==> c in table
    requires UniqueKeys(ctn)
    ensures var cat := cats[i];
      var before := PutAll(ctn, VisitEntries(Forest(table, filter, options, search, cats[..i]), field, pfx));
      var after := PutAll(ctn, VisitEntries(Forest(table, filter, options, search, cats[..i + 1]), field, pfx));
      if Empty(Prop(cat, "cat_ID")) then after == before
      else
        after == PutAll(Put(before, ResultKey(cat, field, "cat_ID"),
                            Entry(pfx + Prop(cat, "cat_name"), CategoryLink(Prop(cat, "cat_ID")))),
                        VisitEntries(Tree(Without(table, cat), filter, ChildOptions(options), search, Prop(cat, "cat_ID")), field, pfx + "- "))
  {
    var cat := cats[i];
    assert cats[..i + 1][..i] == cats[..i];
    assert cats[..i + 1][i] == cat;
    var done := Forest(table, filter, options, search, cats[..i]);
    if !Empty(Prop(cat, "cat_ID")) {
      var sub := Tree(Without(table, cat), filter, ChildOptions(options), search, Prop(cat, "cat_ID"));
      var nest := [Visit(cat, 0)] + Deeper(sub);
      assert Forest(table, filter, options, search, cats[..i + 1]) == done + nest;
      VisitEntriesAppend(done, nest, field, pfx);
      PutAllAppend(ctn, VisitEntries(done, field, pfx), VisitEntries(nest, field, pfx));
      NestEntries(PutAll(ctn, VisitEntries(done, field, pfx)), cat, sub, field, pfx);
    } else {
      assert Forest(table, filter, options, search, cats[..i + 1]) == done;
    }
  }

  /** `getWPCategories($options, $field, $search, $ctn, $pt, $pfx)`: adds to
      `ctn` an entry for every category of the walk from `pt`, in pre-order,
      each title carrying `pfx` and one "- " per level below. */
  method GetCategories(table: seq<Record>, filter: (Args, Record) -> bool, options: Args, field: string,
                       search: string, ctn: Assoc<Entry>, pt: string, pfx: string)
      returns (result: Assoc<Entry>)
    requires UniqueKeys(ctn)
    ensures result == PutAll(ctn, VisitEntries(Tree(table, filter, options, search, pt), field, pfx))
    decreases |table|
  {
    var args := QueryArgs(Categories, options, search, pt);
    var cats := FetchChildren(table, filter, args);
    result := ctn;
    var i := 0;
    while i < |cats|
      invariant 0 <= i <= |cats|
      invariant result == PutAll(ctn, VisitEntries(Forest(table, filter, options, search, cats[..i]), field, pfx))
    {
      var cat := cats[i];
      ForestStep(table, filter, options, search, cats, i, field, pfx, ctn);
      if !Empty(Prop(cat, "cat_ID")) {
        var item := ResultKey(cat, field, "cat_ID");
        result := Put(result, item, Entry(pfx + Prop(cat, "cat_name"), CategoryLink(Prop(cat, "cat_ID"))));
        result := GetCategories(Without(table, cat), filter, ChildOptions(options), field, search, result, Prop(cat, "cat_ID"), pfx + "- ");
      }
      i := i + 1;
    }
    assert cats[..|cats|] == cats;
  }

  /** The visit at `i` is of a child of the nearest earlier visit one level
      up: every visit in between is at least as deep as the one at `i`. */
  ghost predicate ParentVisitedBefore(vs: seq<Visit>, i: int)
    requires 0 <= i < |vs|
  {
    exists j :: 0 <= j < i && vs[j].depth == vs[i].depth - 1
                && Prop(vs[j].cat, "cat_ID") == Prop(vs[i].cat, "parent")
                && (forall k :: j < k < i ==> vs[k].depth >= vs[i].depth)
  }

  /** The visit at `i` has an id, and is a child of the queried parent at
      depth 0 or of the nearest earlier visit one level up below that. */
  ghost predicate VisitFits(vs: seq<Visit>, i: int, parent: string)
    requires 0 <= i < |vs|
  {
    && !Empty(Prop(vs[i].cat, "cat_ID"))
    && (vs[i].depth == 0 ==> Prop(vs[i].cat, "parent") == parent)
    && (vs[i].depth > 0 ==> ParentVisitedBefore(vs, i))
  }

  /** The walk respects the tree: every visited category comes right after
      its parent's subtree so far, so after its parent and before its own
      descendants. */
  ghost predicate PreOrder(vs: seq<Visit>, parent: string) {
    forall i :: 0 <= i < |vs| ==> VisitFits(vs, i, parent)
  }

  /** A pre-order starts at the top level and goes down at most one level
      from one visit to the next. */
  lemma PreOrderSteps(vs: seq<Visit>, parent: string)
    requires PreOrder(vs, parent)
    ensures |vs| > 0 ==> vs[0].depth == 0
    ensures forall i :: 0 < i < |vs| ==> vs[i].depth <= vs[i - 1].depth + 1
  {
    if |vs| > 0 {
      assert VisitFits(vs, 0, parent);
    }
    forall i | 0 < i < |vs| ensures vs[i].depth <= vs[i - 1].depth + 1 {
      assert VisitFits(vs, i, parent);
      if vs[i].depth > 0 {
        var j :| 0 <= j < i && vs[j].depth == vs[i].depth - 1
                 && Prop(vs[j].cat, "cat_ID") == Prop(vs[i].cat, "parent")
                 && (forall k :: j < k < i ==> vs[k].depth >= vs[i].depth);
        if j < i - 1 {
          assert vs[i - 1].depth >= vs[i].depth;
        }
      }
    }
  }

  lemma PreOrderAppend(xs: seq<Visit>, ys: seq<Visit>, parent: string)
    requires PreOrder(xs, parent) && PreOrder(ys, parent)
    ensures PreOrder(xs + ys, parent)
  {
    var zs := xs + ys;
    forall i | 0 <= i < |zs| ensures VisitFits(zs, i, parent) {
      if i < |xs| {
        assert zs[i] == xs[i];
        assert VisitFits(xs, i, parent);
        if xs[i].depth > 0 {
          var j :| 0 <= j < i && xs[j].depth == xs[i].depth - 1 && Prop(xs[j].cat, "cat_ID") == Prop(xs[i].cat, "parent")
                   && (forall k :: j < k < i ==> xs[k].depth >= xs[i].depth);
          assert zs[j] == xs[j];
          forall k | j < k < i ensures zs[k].depth >= zs[i].depth {
            assert zs[k] == xs[k];
          }
        }
      } else {
        var n := i - |xs|;
        assert zs[i] == ys[n];
        assert VisitFits(ys, n, parent);
        if ys[n].depth > 0 {
          var j :| 0 <= j < n && ys[j].depth == ys[n].depth - 1 && Prop(ys[j].cat, "cat_ID") == Prop(ys[n].cat, "parent")
                   && (forall k :: j < k < n ==> ys[k].depth >= ys[n].depth);
          assert zs[j + |xs|] == ys[j];
          forall k | j + |xs| < k < i ensures zs[k].depth >= zs[i].depth {
            assert zs[k] == ys[k - |xs|];
          }
        }
      }
    }
  }

  lemma PreOrderNest(c: Record, sub: seq<Visit>, parent: string)
    requires !Empty(Prop(c, "cat_ID")) && Prop(c, "parent") == parent
    requires PreOrder(sub, Prop(c, "cat_ID"))
    ensures PreOrder([Visit(c, 0)] + Deeper(sub), parent)
  {
    var zs := [Visit(c, 0)] + Deeper(sub);
    forall i | 0 <= i < |zs| ensures VisitFits(zs, i, parent) {
      if i > 0 {
        var v := sub[i - 1];
        assert VisitFits(sub, i - 1, Prop(c, "cat_ID"));
        assert zs[i] == Visit(v.cat, v.depth + 1);
        if v.depth == 0 {
          assert zs[0].depth == zs[i].depth - 1;
          forall k | 0 < k < i ensures zs[k].depth >= zs[i].depth {
            assert zs[k] == Visit(sub[k - 1].cat, sub[k - 1].depth + 1);
          }
        } else {
          var j :| 0 <= j < i - 1 && sub[j].depth == v.depth - 1 && Prop(sub[j].cat, "cat_ID") == Prop(v.cat, "parent")
                   && (forall k :: j < k < i - 1 ==> sub[k].depth >= v.depth);
          assert zs[j + 1] == Visit(sub[j].cat, sub[j].depth + 1);
          forall k | j + 1 < k < i ensures zs[k].depth >= zs[i].depth {
            assert zs[k] == Visit(sub[k - 1].cat, sub[k - 1].depth + 1);
          }
        }
      }
    }
  }

  /** The walk from `$pt` visits the tree in pre-order, its first level
      being the children of the parent the first query asks for. */
  lemma {:induction false} TreePreOrder(table: seq<Record>, filter: (Args, Record) -> bool, options: Args,
                                        search: string, parent: string)
    ensures PreOrder(Tree(table, filter, options, search, parent),
                     ParentArg(QueryArgs(Categories, options, search, parent)))
    decreases |table|, 1
  {
    var args := QueryArgs(Categories, options, search, parent);
    ForestPreOrder(table, filter, options, search, FetchChildren(table, filter, args), ParentArg(args));
  }

  lemma {:induction false} ForestPreOrder(table: seq<Record>, filter: (Args, Record) -> bool, options: Args,
                                          search: string, cats: seq<Record>, parent: string)
    requires forall c :: c in cats ==> c in table && Prop(c, "parent") == parent
    ensures PreOrder(Forest(table, filter, options, search, cats), parent)
    decreases |table|, 0, |cats|
  {
    if cats != [] {
      var c := cats[|cats| - 1];
      var init := cats[..|cats| - 1];
      ForestPreOrder(table, filter, options, search, init, parent);
      if !Empty(Prop(c, "cat_ID")) {
        var sub := Tree(Without(table, c), filter, ChildOptions(options), search, Prop(c, "cat_ID"));
        TreePreOrder(Without(table, c), filter, ChildOptions(options), search, Prop(c, "cat_ID"));
        ChildQueryAsksForParent(options, search, Prop(c, "cat_ID"));
        PreOrderNest(c, sub, parent);
        PreOrderAppend(Forest(table, filter, options, search, init), [Visit(c, 0)] + Deeper(sub), parent);
      } else {
        var done := Forest(table, filter, options, search, init);
        assert done + [] == done;
        assert Forest(table, filter, options, search, cats) == done;
      }
    }
  }

  /** Visits one level deeper are never at the top level. */
  lemma DeeperNotTop(vs: seq<Visit>)
    ensures forall v :: v in Deeper(vs) ==> v.depth > 0
  {
    forall v | v in Deeper(vs) ensures v.depth > 0 {
      var i :| 0 <= i < |Deeper(vs)| && Deeper(vs)[i] == v;
    }
  }

  /** The top level of the loop's visits is exactly the categories it was
      given that have an id. */
  lemma {:induction false} ForestRoots(table: seq<Record>, filter: (Args, Record) -> bool, options: Args,
                                       search: string, cats: seq<Record>)
    requires forall c :: c in cats ==> c in table
    ensures forall c :: c in cats && !Empty(Prop(c, "cat_ID")) ==> Visit(c, 0) in Forest(table, filter, options, search, cats)
    ensures forall v :: v in Forest(table, filter, options, search, cats) && v.depth == 0 ==>
      v.cat in cats && !Empty(Prop(v.cat, "cat_ID"))
    decreases |cats|
  {
    if cats != [] {
      var c := cats[|cats| - 1];
      var init := cats[..|cats| - 1];
      ForestRoots(table, filter, options, search, init);
      var done := Forest(table, filter, options, search, init);
      assert forall x :: x in cats ==> x in init || x == c;
      assert forall x :: x in init ==> x in cats;
      if !Empty(Prop(c, "cat_ID")) {
        var sub := Tree(Without(table, c), filter, ChildOptions(options), search, Prop(c, "cat_ID"));
        DeeperNotTop(sub);
        assert Forest(table, filter, options, search, cats) == done + ([Visit(c, 0)] + Deeper(sub));
      } else {
        assert Forest(table, filter, options, search, cats) == done + [];
      }
    }
  }

  /** The walk visits at the top level exactly the categories the first
      query returns that have an id. */
  lemma TreeRoots(table: seq<Record>, filter: (Args, Record) -> bool, options: Args,
                  search: string, parent: string)
    ensures var cats := FetchChildren(table, filter, QueryArgs(Categories, options, search, parent));
      && (forall c :: c in cats && !Empty(Prop(c, "cat_ID")) ==> Visit(c, 0) in Tree(table, filter, options, search, parent))
      && (forall v :: v in Tree(table, filter, options, search, parent) && v.depth == 0 ==>
            v.cat in cats && !Empty(Prop(v.cat, "cat_ID")))
  {
    ForestRoots(table, filter, options, search, FetchChildren(table, filter, QueryArgs(Categories, options, search, parent)));
  }

  /** A value passed to one parameter of `getWPCategories`. */
  datatype Param = Text(text: string) | Array(entries: Assoc<Entry>)

  /** The parameters `$search`, `$ctn`, `$pt` and `$pfx` of one call. */
  datatype CategoryCall = CategoryCall(search: Param, ctn: Param, pt: Param, pfx: Param)

  /** The recursive call as written, `getWPCategories($options, $field,
      $ctn, $cat->cat_ID, $pfx.'- ')`: the accumulator lands in `$search`,
      the id in `$ctn`, the prefix in `$pt`, and `$pfx` takes its default. */
  function AsWrittenChildCall(ctn: Assoc<Entry>, cat: Record, pfx: string): CategoryCall {
    CategoryCall(Array(ctn), Text(Prop(cat, "cat_ID")), Text(pfx + "- "), Text(""))
  }

  /** As written, the children of "Sports" (id 2) are asked for with parent
      "- ", not 2, the accumulator is replaced by the scalar 2, and the
      child's prefix restarts empty, where the walk modelled above asks for
      parent 2 and extends the prefix to "- ". */
  lemma AsWrittenChildCallMisthreads()
    ensures var sports := Record(map["cat_ID" := "2", "cat_name" := "Sports", "parent" := "0"]);
      var call := AsWrittenChildCall([], sports, "");
      && call.pt == Text("- ") && call.pt != Text(Prop(sports, "cat_ID"))
      && call.ctn == Text("2") && !call.ctn.Array?
      && call.pfx == Text("") && call.pfx != Text("" + "- ")
  {
  }
  /** As written, the options reach the child call unchanged. With a
      `parent` option, every level then sends the same query, whatever
      category it expands. */
  lemma AsWrittenPinnedParentRepeats(options: Args, search: string, p: string, q: string)
    requires "parent" in options
    ensures QueryArgs(Categories, options, search, p) == QueryArgs(Categories, options, search, q)
  {
    var a, b := QueryArgs(Categories, options, search, p), QueryArgs(Categories, options, search, q);
    assert a.Keys == b.Keys;
    forall k | k in a ensures a[k] == b[k] {
      if k != "parent" && !(k in SearchKeys(Categories) && !Empty(search)) && k !in options {
        assert Defaults(Categories, p)[k] == Defaults(Categories, q)[k];
      }
    }
  }

  /** With "News" (id 1) a child of 0 and the option `parent` = 0, the
      query for the children of News returns News itself, so the call as
      written expands it again without end; the child call of the walk
      above drops the option and finds no child. */
  lemma AsWrittenPinnedParentLoops()
    ensures var news := Record(map["cat_ID" := "1", "cat_name" := "News", "parent" := "0"]);
      var all := (args: Args, r: Record) => true;
      var pinned := map["parent" := "0"];
      && FetchChildren([news], all, QueryArgs(Categories, pinned, "", "1")) == [news]
      && FetchChildren([news], all, QueryArgs(Categories, ChildOptions(pinned), "", "1")) == []
  {
    var news := Record(map["cat_ID" := "1", "cat_name" := "News", "parent" := "0"]);
    var pinned := map["parent" := "0"];
    RootParent(pinned, "", "1");
    ChildQueryAsksForParent(pinned, "", "1");
    assert Prop(news, "parent") == "0";
    assert [news][1..] == [];
  }
}
