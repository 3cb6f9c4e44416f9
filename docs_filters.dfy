/**
 * `docs/src/composables/useFilters.ts`: the catalogue page's search box, type
 * filter and check-method filter. The three refs are the mutable fields of a
 * `FilterState`; the computed `methodOptions` and `filteredApps` are
 * functions of it.
 */
module DocsFilters {
  import opened Options
  import opened Strings
  import Assoc
  import Lists
  import DocsApps

  /** The values the type filter can hold. */
  type TypeChoice = s: string | s == "all" || s == "app" || s == "base" witness "all"

  // ------------------------------------------------------------------ lower case

  /** `toLowerCase` on one character, for the letters A to Z. */
  function LowerChar(c: char): char
  {
    if 'A' <= c <= 'Z' then (c as int + 32) as char else c
  }

  function Lower(s: string): string
  {
    MapChars(s, LowerChar)
  }

  lemma LowerIdempotent(s: string)
    ensures Lower(Lower(s)) == Lower(s)
  {
  }

  // ------------------------------------------------------------------ substrings

  /** A substring of a part is a substring of the whole. */
  lemma ContainsWithin(pre: string, x: string, post: string, kw: string)
    requires Contains(x, kw)
    ensures Contains(pre + x + post, kw)
  {
    var i: nat :| i <= |x| && OccursAt(x, kw, i);
    var s := pre + x + post;
    assert s[|pre| + i..|pre| + i + |kw|] == x[i..i + |kw|];
    assert OccursAt(s, kw, |pre| + i);
  }

  /** Lowering both sides keeps a substring one. */
  lemma ContainsLower(s: string, kw: string)
    requires Contains(s, kw)
    ensures Contains(Lower(s), Lower(kw))
  {
    var i: nat :| i <= |s| && OccursAt(s, kw, i);
    assert Lower(s)[i..i + |kw|] == Lower(kw) by {
      forall k | 0 <= k < |kw| ensures Lower(s)[i..i + |kw|][k] == Lower(kw)[k] {
        assert s[i..i + |kw|][k] == kw[k];
      }
    }
    assert OccursAt(Lower(s), Lower(kw), i);
  }

  lemma ContainsTransitive(a: string, b: string, c: string)
    requires Contains(a, b) && Contains(b, c)
    ensures Contains(a, c)
  {
    var i: nat :| i <= |a| && OccursAt(a, b, i);
    assert a[i..i + |b|] == b;
    ContainsWithin(a[..i], b, a[i + |b|..], c);
    assert a[..i] + b + a[i + |b|..] == a;
  }

  lemma ContainsSelf(s: string)
    ensures Contains(s, s)
  {
    assert OccursAt(s, s, 0);
  }

  /** Each part of a joined list is a substring of the join. */
  lemma {:induction false} JoinContainsPart(parts: seq<string>, sep: string, k: nat)
    requires k < |parts|
    ensures Contains(Join(parts, sep), parts[k])
    decreases |parts|
  {
    ContainsSelf(parts[k]);
    if |parts| == 1 {
    } else if k == 0 {
      ContainsWithin("", parts[0], sep + Join(parts[1..], sep), parts[0]);
      assert "" + parts[0] + (sep + Join(parts[1..], sep)) == Join(parts, sep);
    } else {
      JoinContainsPart(parts[1..], sep, k - 1);
      ContainsWithin(parts[0] + sep, Join(parts[1..], sep), "", parts[k]);
      assert parts[0] + sep + Join(parts[1..], sep) + "" == Join(parts, sep);
    }
  }

  // ------------------------------------------------------------------ methodOptions

  function Methods(apps: seq<DocsApps.AppItem>): (r: seq<string>)
    ensures |r| == |apps| && forall i :: 0 <= i < |apps| ==> r[i] == apps[i].checkMethod
  {
    if |apps| == 0 then [] else [apps[0].checkMethod] + Methods(apps[1..])
  }

  /** `['all', ...new Set(apps.map(app => app.checkMethod))]` */
  function MethodOptions(apps: seq<DocsApps.AppItem>): seq<string>
  {
    ["all"] + Distinct(Methods(apps))
  }

  lemma {:induction false} DistinctFromSublist(xs: seq<string>, seen: set<string>)
    ensures Lists.Sublist(DistinctFrom(xs, seen), xs)
    decreases |xs|
  {
    if |xs| > 0 {
      assert xs == [xs[0]] + xs[1..];
      if xs[0] in seen {
        DistinctFromSublist(xs[1..], seen);
        Lists.SublistCons(DistinctFrom(xs[1..], seen), xs[1..], xs[0]);
      } else {
        DistinctFromSublist(xs[1..], seen + {xs[0]});
        var r := DistinctFrom(xs, seen);
        assert r[0] == xs[0] && r[1..] == DistinctFrom(xs[1..], seen + {xs[0]});
      }
    }
  }

  /** The options are `all`, then each check method once, in the order the methods first appear. */
  lemma MethodOptionsOrder(apps: seq<DocsApps.AppItem>)
    ensures var opts := MethodOptions(apps);
      opts[0] == "all"
      && (forall i, j :: 1 <= i < j < |opts| ==> opts[i] != opts[j])
      && Lists.Sublist(opts[1..], Methods(apps))
  {
    var opts := MethodOptions(apps);
    assert opts[1..] == Distinct(Methods(apps));
    DistinctFromSublist(Methods(apps), {});
    forall i, j | 1 <= i < j < |opts| ensures opts[i] != opts[j] {
      assert opts[i] == opts[1..][i - 1] && opts[j] == opts[1..][j - 1];
    }
  }

  /** A method is offered after `all` exactly when some item is checked by it. */
  lemma MethodOptionsMembers(apps: seq<DocsApps.AppItem>, m: string)
    ensures m in MethodOptions(apps)[1..] <==> exists i :: 0 <= i < |apps| && apps[i].checkMethod == m
  {
    var ms := Methods(apps);
    var rest := MethodOptions(apps)[1..];
    assert rest == Distinct(ms);
    if m in rest {
      var k :| 0 <= k < |rest| && rest[k] == m;
      assert m in ms;
    }
    if exists i :: 0 <= i < |apps| && apps[i].checkMethod == m {
      var i :| 0 <= i < |apps| && apps[i].checkMethod == m;
      assert ms[i] == m;
    }
  }

  /** No option repeats when no item's method is itself `all`. */
  lemma MethodOptionsDistinct(apps: seq<DocsApps.AppItem>)
    requires forall i :: 0 <= i < |apps| ==> apps[i].checkMethod != "all"
    ensures forall i, j :: 0 <= i < j < |MethodOptions(apps)| ==> MethodOptions(apps)[i] != MethodOptions(apps)[j]
  {
    var opts := MethodOptions(apps);
    MethodOptionsOrder(apps);
    forall j | 1 <= j < |opts| ensures opts[j] != "all" {
      MethodOptionsMembers(apps, opts[j]);
      assert opts[j] == opts[1..][j - 1];
    }
  }

  // ------------------------------------------------------------------ filteredApps

  /** The searchable fields joined by spaces; the variant names are lowered on their own first. */
  function SearchText(app: DocsApps.AppItem): string
  {
    Join(SearchParts(app), " ")
  }

  /** Title, name, description, slogan, license (`undefined` joins as nothing), versions and variant names. */
  function SearchParts(app: DocsApps.AppItem): seq<string>
  {
    [app.title, app.name, app.description, app.slogan, app.license.GetOr(""),
     app.latestVersion, app.version, Lower(Join(Assoc.Keys(app.variants), " "))]
  }

  /** `query.value.trim().toLowerCase()` */
  function Keyword(query: string): string
  {
    Lower(Trim(query))
  }

  predicate TypeMatches(app: DocsApps.AppItem, typeFilter: TypeChoice)
  {
    typeFilter == "all" || app.kind == typeFilter
  }

  predicate MethodMatches(app: DocsApps.AppItem, methodFilter: string)
  {
    methodFilter == "all" || app.checkMethod == methodFilter
  }

  /** The test `filteredApps` applies to each item. */
  predicate Matches(app: DocsApps.AppItem, keyword: string, typeFilter: TypeChoice, methodFilter: string)
  {
    if |keyword| == 0 then TypeMatches(app, typeFilter) && MethodMatches(app, methodFilter)
    else TypeMatches(app, typeFilter) && MethodMatches(app, methodFilter) && Contains(Lower(SearchText(app)), keyword)
  }

  function MatchesAll(keyword: string, typeFilter: TypeChoice, methodFilter: string): DocsApps.AppItem -> bool
  {
    app => Matches(app, keyword, typeFilter, methodFilter)
  }

  /** `filteredApps` for the given refs. */
  function Filtered(apps: seq<DocsApps.AppItem>, query: string, typeFilter: TypeChoice, methodFilter: string): seq<DocsApps.AppItem>
  {
    Lists.Filter(apps, MatchesAll(Keyword(query), typeFilter, methodFilter))
  }

  /** The filtered items are items of the catalogue, in catalogue order. */
  lemma FilteredSublist(apps: seq<DocsApps.AppItem>, query: string, typeFilter: TypeChoice, methodFilter: string)
    ensures Lists.Sublist(Filtered(apps, query, typeFilter, methodFilter), apps)
  {
    Lists.FilterSublist(apps, MatchesAll(Keyword(query), typeFilter, methodFilter));
  }

  /** With a blank search box an item is shown exactly when its type and method match, `all` matching any. */
  lemma BlankQuery(apps: seq<DocsApps.AppItem>, query: string, typeFilter: TypeChoice, methodFilter: string, app: DocsApps.AppItem)
    requires Trim(query) == ""
    ensures app in Filtered(apps, query, typeFilter, methodFilter) <==>
      app in apps && (typeFilter == "all" || app.kind == typeFilter) && (methodFilter == "all" || app.checkMethod == methodFilter)
  {
    assert Keyword(query) == "";
    assert MatchesAll(Keyword(query), typeFilter, methodFilter)(app) <==> TypeMatches(app, typeFilter) && MethodMatches(app, methodFilter);
  }

  /** With a search text an item is shown exactly when, besides matching, its lowered fields contain the keyword. */
  lemma KeywordQuery(apps: seq<DocsApps.AppItem>, query: string, typeFilter: TypeChoice, methodFilter: string, app: DocsApps.AppItem)
    requires Trim(query) != ""
    ensures app in Filtered(apps, query, typeFilter, methodFilter) <==>
      app in apps && TypeMatches(app, typeFilter) && MethodMatches(app, methodFilter)
      && Contains(Lower(SearchText(app)), Keyword(query))
  {
    assert |Keyword(query)| == |Trim(query)| > 0;
  }

  /** A keyword found, in any case, in one of the item's variant names finds the item. */
  lemma VariantNameFound(apps: seq<DocsApps.AppItem>, query: string, typeFilter: TypeChoice, methodFilter: string,
                         app: DocsApps.AppItem, k: nat)
    requires app in apps && TypeMatches(app, typeFilter) && MethodMatches(app, methodFilter)
    requires Trim(query) != "" && k < |app.variants| && Contains(Lower(app.variants[k].0), Keyword(query))
    ensures app in Filtered(apps, query, typeFilter, methodFilter)
  {
    var keys := Assoc.Keys(app.variants);
    var names := Join(keys, " ");
    assert keys[k] == app.variants[k].0;
    JoinContainsPart(keys, " ", k);
    ContainsLower(names, keys[k]);
    ContainsTransitive(Lower(names), Lower(keys[k]), Keyword(query));
    LowerIdempotent(names);
    PartFound(app, 7, Keyword(query));
    KeywordQuery(apps, query, typeFilter, methodFilter, app);
  }

  /** A keyword found, in any case, in the title finds the item. */
  lemma TitleFound(apps: seq<DocsApps.AppItem>, query: string, typeFilter: TypeChoice, methodFilter: string, app: DocsApps.AppItem)
    requires app in apps && TypeMatches(app, typeFilter) && MethodMatches(app, methodFilter)
    requires Trim(query) != "" && Contains(Lower(app.title), Keyword(query))
    ensures app in Filtered(apps, query, typeFilter, methodFilter)
  {
    PartFound(app, 0, Keyword(query));
    KeywordQuery(apps, query, typeFilter, methodFilter, app);
  }

  lemma PartFound(app: DocsApps.AppItem, k: nat, kw: string)
    requires k < 8 && Contains(Lower(SearchParts(app)[k]), kw)
    ensures Contains(Lower(SearchText(app)), kw)
  {
    var parts := SearchParts(app);
    JoinContainsPart(parts, " ", k);
    ContainsLower(Join(parts, " "), parts[k]);
    ContainsTransitive(Lower(Join(parts, " ")), Lower(parts[k]), kw);
  }

  /** With the filters cleared every item is shown, in catalogue order. */
  lemma ClearedShowsAll(apps: seq<DocsApps.AppItem>)
    ensures Filtered(apps, "", "all", "all") == apps
  {
    assert Trim("") == "" by {
      assert TrimStart("") == "";
    }
    assert Keyword("") == "";
    Lists.FilterAll(apps, MatchesAll(Keyword(""), "all", "all"));
  }

  // ------------------------------------------------------------------ the composable

  /** `useFilters(apps)`: the refs it returns and the computed values over them. */
  class FilterState {
    const apps: seq<DocsApps.AppItem>
    var query: string
    var typeFilter: TypeChoice
    var methodFilter: string

    constructor (apps: seq<DocsApps.AppItem>)
      ensures this.apps == apps && query == "" && typeFilter == "all" && methodFilter == "all"
    {
      this.apps := apps;
      query := "";
      typeFilter := "all";
      methodFilter := "all";
    }

    function Options(): seq<string>
    {
      MethodOptions(apps)
    }

    function FilteredApps(): seq<DocsApps.AppItem>
      reads this
    {
      Filtered(apps, query, typeFilter, methodFilter)
    }

    /** `clearFilters()`: the three refs go back to their initial values, and every item is shown again. */
    method ClearFilters()
      modifies this
      ensures query == "" && typeFilter == "all" && methodFilter == "all"
      ensures FilteredApps() == apps
    {
      query := "";
      typeFilter := "all";
      methodFilter := "all";
      ClearedShowsAll(apps);
    }
  }
}
