/**
 * `docs/src/data/apps.ts`: the catalogue the documentation site shows. Each
 * meta of `data.json` that has a name and is not skipped becomes one
 * `AppItem`, built from one picked variant, and the items are sorted by title.
 * `localeCompare(…, 'en')` is the parameter `localeLeq`.
 */
module DocsApps {
  import opened Options
  import opened Strings
  import J = Json
  import Assoc
  import Lists
  import Sorting

  datatype Checkver = Checkver(kind: Option<string>, repo: Option<string>)

  datatype DockerConfig = DockerConfig(tags: Option<seq<string>>, size: Option<string>)

  datatype Variant = Variant(version: Option<string>, sha: Option<string>, checkver: Option<Checkver>, docker: Option<DockerConfig>)

  /** A variant record as stored: `None` is a `null` value. */
  type Variants = seq<(string, Option<Variant>)>

  /** A meta of `data.json`; `skip` is the value of the `skip` key when the key is present. */
  datatype Meta = Meta(
    name: Option<string>, kind: Option<string>, category: Option<string>, title: Option<string>,
    slogan: Option<string>, description: Option<string>, license: Option<string>,
    variants: Option<Variants>, readmePath: Option<string>, skip: Option<J.Value>)

  datatype AppItem = AppItem(
    id: string, name: string, title: string, kind: string, description: string, slogan: string,
    license: Option<string>, version: string, latestVersion: string, sha: string, checkMethod: string,
    sourceUrl: Option<string>, docUrl: string, ghcrUrl: string, dockerTags: seq<string>,
    imageSize: string, variants: Variants)

  const DefaultDescription := "No description"
  const DefaultSlogan := "No slogan"
  const Unknown := "unknown"
  const RepoTree := "https://github.com/aliuq/apps-image/tree/master"
  const Registry := "aliuq"

  // ------------------------------------------------------------------ pickVariant

  datatype Picked = Picked(key: string, value: Option<Variant>)

  /** `pickVariant(variants)`: `latest` when it holds a variant, else the first entry; `latest` with nothing when there are none. */
  function PickVariant(variants: Option<Variants>): Picked
  {
    var entries := variants.GetOr([]);
    if |entries| == 0 then Picked("latest", None)
    else
      var latest: Option<Option<Variant>> := Assoc.Get(entries, "latest");
      if latest.Some? && latest.value.Some? then Picked("latest", latest.value)
      else Picked(entries[0].0, entries[0].1)
  }

  /** The picked name and value are an entry of the record; `latest` wins whenever it holds a variant. */
  lemma PickVariantEntry(variants: Option<Variants>)
    ensures var p := PickVariant(variants);
      variants.GetOr([]) != [] ==> Assoc.Get(variants.GetOr([]), p.key) == Some(p.value)
    ensures var p := PickVariant(variants);
      variants.GetOr([]) == [] ==> p == Picked("latest", None)
    ensures var p := PickVariant(variants);
      (exists v :: Assoc.Get(variants.GetOr([]), "latest") == Some(Some(v))) ==> p.key == "latest" && p.value.Some?
  {
    var entries := variants.GetOr([]);
    if |entries| > 0 {
      assert Assoc.Get(entries, entries[0].0) == Some(entries[0].1);
    }
  }

  // ------------------------------------------------------------------ normalize

  /** `normalizeRepo(repo)` */
  function NormalizeRepo(repo: Option<string>): Option<string>
  {
    if !Truthy(repo) then None
    else if StartsWith(repo.value, "http://") || StartsWith(repo.value, "https://") then repo
    else Some("https://github.com/" + repo.value)
  }

  /** No repository gives no link; any other gives an http(s) URL ending with the repository text; URLs are kept. */
  lemma NormalizeRepoMeaning(repo: Option<string>)
    ensures NormalizeRepo(repo).None? <==> !Truthy(repo)
    ensures NormalizeRepo(repo).Some? ==>
      var url := NormalizeRepo(repo).value;
      (StartsWith(url, "http://") || StartsWith(url, "https://")) && EndsWith(url, repo.value)
    ensures NormalizeRepo(NormalizeRepo(repo)) == NormalizeRepo(repo)
  {
    if Truthy(repo) && !(StartsWith(repo.value, "http://") || StartsWith(repo.value, "https://")) {
      var url := "https://github.com/" + repo.value;
      assert url[..8] == "https://";
      assert url[|url| - |repo.value|..] == repo.value;
    }
  }

  /** `a ?? b` on optional strings. */
  function OrElse(a: Option<string>, b: Option<string>): Option<string>
  {
    if a.Some? then a else b
  }

  function CheckverOf(variant: Option<Variant>): Option<Checkver>
  {
    if variant.Some? then variant.value.checkver else None
  }

  function DockerOf(variant: Option<Variant>): Option<DockerConfig>
  {
    if variant.Some? then variant.value.docker else None
  }

  /** `normalize(meta, variantName, variant)`; `name` is a required field of a meta. */
  function Normalize(meta: Meta, variantName: string, variant: Option<Variant>): (item: AppItem)
    requires meta.name.Some?
    // the description and the slogan stand in for each other; the title falls back to the name
    ensures meta.description.None? && meta.slogan.None? ==> item.description == DefaultDescription && item.slogan == DefaultSlogan
    ensures meta.description.Some? && meta.slogan.None? ==> item.description == item.slogan == meta.description.value
    ensures meta.description.None? && meta.slogan.Some? ==> item.description == item.slogan == meta.slogan.value
    ensures meta.description.Some? && meta.slogan.Some? ==> item.description == meta.description.value && item.slogan == meta.slogan.value
    ensures item.title == if meta.title.Some? then meta.title.value else meta.name.value
    // without a variant the variant fields take their defaults
    ensures variant.None? ==>
      (item.checkMethod == "manual" && item.latestVersion == Unknown && item.sha == Unknown
       && item.imageSize == Unknown && item.sourceUrl.None? && item.dockerTags == [])
    // the type is the category, else `base` exactly for a meta of type `base`
    ensures meta.category.Some? ==> item.kind == meta.category.value
    ensures meta.category.None? ==> (item.kind == "base" <==> meta.kind == Some("base"))
    ensures meta.category.None? || meta.category == Some("app") || meta.category == Some("base") ==> item.kind in {"app", "base"}
  {
    var kind := meta.category.GetOr(if meta.kind == Some("base") then "base" else "app");
    var checkver := CheckverOf(variant);
    var docker := DockerOf(variant);
    var docPath := meta.readmePath.GetOr((if kind == "base" then "base" else "apps") + "/" + meta.name.value);
    AppItem(
      kind + "-" + meta.name.value + "-" + variantName,
      meta.name.value,
      meta.title.GetOr(meta.name.value),
      kind,
      OrElse(meta.description, meta.slogan).GetOr(DefaultDescription),
      OrElse(meta.slogan, meta.description).GetOr(DefaultSlogan),
      meta.license,
      variantName,
      (if variant.Some? then variant.value.version else None).GetOr(Unknown),
      (if variant.Some? then variant.value.sha else None).GetOr(Unknown),
      (if checkver.Some? then checkver.value.kind else None).GetOr("manual"),
      NormalizeRepo(if checkver.Some? then checkver.value.repo else None),
      RepoTree + "/" + docPath,
      "https://ghcr.io/" + Registry + "/" + meta.name.value,
      (if docker.Some? then docker.value.tags else None).GetOr([]),
      (if docker.Some? then docker.value.size else None).GetOr(Unknown),
      meta.variants.GetOr([]))
  }

  /** `a-b-x` splits back at its last `-` when `x` has none. */
  lemma DashSplit(a: string, b: string, x: string, y: string)
    requires '-' !in x && '-' !in y && a + "-" + x == b + "-" + y
    ensures a == b && x == y
  {
    var s := a + "-" + x;
    assert s[|a|] == '-' && s[|a| + 1..] == x;
    LastIndexOfAt(s, '-', |a|);
    assert s[|b|] == '-' && s[|b| + 1..] == y;
    LastIndexOfAt(s, '-', |b|);
    assert s[..|a|] == a && s[..|b|] == b;
  }

  /** The type prefix of an id is read back from its first letter. */
  lemma KindPrefix(k1: string, k2: string, r1: string, r2: string)
    requires k1 in {"app", "base"} && k2 in {"app", "base"} && k1 + "-" + r1 == k2 + "-" + r2
    ensures k1 == k2 && r1 == r2
  {
    assert (k1 + "-" + r1)[0] == k1[0] && (k2 + "-" + r2)[0] == k2[0];
    assert (k1 + "-" + r1)[|k1| + 1..] == r1 && (k2 + "-" + r2)[|k2| + 1..] == r2;
  }

  /** `<type>-<name>-<variant>` gives back its parts when the type is `app` or `base` and the variant has no `-`. */
  lemma IdKey(k1: string, n1: string, v1: string, k2: string, n2: string, v2: string)
    requires k1 in {"app", "base"} && k2 in {"app", "base"} && '-' !in v1 && '-' !in v2
    requires k1 + "-" + n1 + "-" + v1 == k2 + "-" + n2 + "-" + v2
    ensures k1 == k2 && n1 == n2 && v1 == v2
  {
    assert k1 + "-" + n1 + "-" + v1 == k1 + "-" + (n1 + "-" + v1);
    assert k2 + "-" + n2 + "-" + v2 == k2 + "-" + (n2 + "-" + v2);
    KindPrefix(k1, k2, n1 + "-" + v1, n2 + "-" + v2);
    DashSplit(n1, n2, v1, v2);
  }

  /** Ids are keys: two items of known type and dash-free variant names with the same id share type, name and variant. */
  lemma IdDetermines(m1: Meta, v1: string, x1: Option<Variant>, m2: Meta, v2: string, x2: Option<Variant>)
    requires m1.name.Some? && m2.name.Some? && '-' !in v1 && '-' !in v2
    requires Normalize(m1, v1, x1).kind in {"app", "base"} && Normalize(m2, v2, x2).kind in {"app", "base"}
    requires Normalize(m1, v1, x1).id == Normalize(m2, v2, x2).id
    ensures Normalize(m1, v1, x1).kind == Normalize(m2, v2, x2).kind
    ensures m1.name == m2.name && v1 == v2
  {
    var i1, i2 := Normalize(m1, v1, x1), Normalize(m2, v2, x2);
    IdKey(i1.kind, m1.name.value, v1, i2.kind, m2.name.value, v2);
  }

  // ------------------------------------------------------------------ apps

  /** `Boolean(meta?.name) && !('skip' in meta && meta.skip)` */
  predicate Listed(meta: Option<Meta>)
  {
    meta.Some? && Truthy(meta.value.name) && !(meta.value.skip.Some? && J.Truthy(meta.value.skip.value))
  }

  /** The item of a listed meta, built from its picked variant. */
  function Item(meta: Option<Meta>): AppItem
    requires Listed(meta)
  {
    var picked := PickVariant(meta.value.variants);
    Normalize(meta.value, picked.key, picked.value)
  }

  function Items(metas: seq<Option<Meta>>): (r: seq<AppItem>)
    requires forall i :: 0 <= i < |metas| ==> Listed(metas[i])
    ensures |r| == |metas| && forall i :: 0 <= i < |metas| ==> r[i] == Item(metas[i])
  {
    if |metas| == 0 then [] else [Item(metas[0])] + Items(metas[1..])
  }

  function ListedMetas(metas: seq<Option<Meta>>): (r: seq<Option<Meta>>)
    ensures forall i :: 0 <= i < |r| ==> Listed(r[i])
  {
    var r := Lists.Filter(metas, Listed);
    assert forall i :: 0 <= i < |r| ==> r[i] in r;
    r
  }

  /** `a.title.localeCompare(b.title, 'en')` as an order on items. */
  function TitleOrder(localeLeq: (string, string) -> bool): (AppItem, AppItem) -> bool
  {
    (a: AppItem, b: AppItem) => localeLeq(a.title, b.title)
  }

  /** The exported `apps`. */
  function Apps(metas: seq<Option<Meta>>, localeLeq: (string, string) -> bool): seq<AppItem>
  {
    Sorting.Sort(Items(ListedMetas(metas)), TitleOrder(localeLeq))
  }

  lemma TitleOrderPreorder(localeLeq: (string, string) -> bool)
    requires Sorting.TotalPreorder(localeLeq)
    ensures Sorting.TotalPreorder(TitleOrder(localeLeq))
  {
    var leq := TitleOrder(localeLeq);
    forall a, b ensures leq(a, b) || leq(b, a) {
      assert localeLeq(a.title, b.title) || localeLeq(b.title, a.title);
    }
    forall a, b, c | leq(a, b) && leq(b, c) ensures leq(a, c) {
      assert localeLeq(a.title, b.title) && localeLeq(b.title, c.title);
    }
  }

  /** The catalogue holds one item per listed meta, named, in title order. */
  lemma AppsMeaning(metas: seq<Option<Meta>>, localeLeq: (string, string) -> bool)
    requires Sorting.TotalPreorder(localeLeq)
    ensures var apps := Apps(metas, localeLeq);
      multiset(apps) == multiset(Items(ListedMetas(metas))) && |apps| <= |metas|
      && (forall i, j :: 0 <= i < j < |apps| ==> localeLeq(apps[i].title, apps[j].title))
  {
    TitleOrderPreorder(localeLeq);
    Sorting.SortSorted(Items(ListedMetas(metas)), TitleOrder(localeLeq));
    var apps := Apps(metas, localeLeq);
    forall i, j | 0 <= i < j < |apps| ensures localeLeq(apps[i].title, apps[j].title) {
      assert TitleOrder(localeLeq)(apps[i], apps[j]);
    }
  }

  /** An item is in the catalogue exactly when it is the item of a listed meta. */
  lemma AppsMembers(metas: seq<Option<Meta>>, localeLeq: (string, string) -> bool, item: AppItem)
    ensures item in Apps(metas, localeLeq) <==> exists m :: m in metas && Listed(m) && Item(m) == item
  {
    var items := Items(ListedMetas(metas));
    var apps := Apps(metas, localeLeq);
    assert multiset(apps) == multiset(items);
    assert item in apps <==> item in items by {
      assert item in apps <==> item in multiset(apps);
      assert item in items <==> item in multiset(items);
    }
    ItemsMembers(metas, item);
  }

  lemma ItemsMembers(metas: seq<Option<Meta>>, item: AppItem)
    ensures item in Items(ListedMetas(metas)) <==> exists m :: m in metas && Listed(m) && Item(m) == item
  {
    if item in Items(ListedMetas(metas)) {
      ItemOfListed(metas, item);
    }
    if exists m :: m in metas && Listed(m) && Item(m) == item {
      var m :| m in metas && Listed(m) && Item(m) == item;
      ListedItem(metas, m);
    }
  }

  lemma ItemOfListed(metas: seq<Option<Meta>>, item: AppItem)
    requires item in Items(ListedMetas(metas))
    ensures exists m :: m in metas && Listed(m) && Item(m) == item
  {
    var listed := ListedMetas(metas);
    var items := Items(listed);
    var i :| 0 <= i < |items| && items[i] == item;
    assert listed[i] in listed;
  }

  lemma ListedItem(metas: seq<Option<Meta>>, m: Option<Meta>)
    requires m in metas && Listed(m)
    ensures Item(m) in Items(ListedMetas(metas))
  {
    var listed := ListedMetas(metas);
    assert m in listed;
    var i :| 0 <= i < |listed| && listed[i] == m;
    assert Items(listed)[i] == Item(m);
  }

  /** Every catalogue item has a name, and its type is `app` or `base` when the metas' categories are. */
  lemma AppsNamedAndTyped(metas: seq<Option<Meta>>, localeLeq: (string, string) -> bool)
    requires forall i :: 0 <= i < |metas| && metas[i].Some? ==>
      metas[i].value.category.None? || metas[i].value.category == Some("app") || metas[i].value.category == Some("base")
    ensures forall item :: item in Apps(metas, localeLeq) ==> item.name != "" && item.kind in {"app", "base"}
  {
    forall item | item in Apps(metas, localeLeq) ensures item.name != "" && item.kind in {"app", "base"} {
      AppsMembers(metas, localeLeq, item);
      var m :| m in metas && Listed(m) && Item(m) == item;
    }
  }
}
