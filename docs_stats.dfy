/**
 * `docs/src/composables/useStats.ts`: the three numbers shown above the
 * catalogue. The list is a value here, so reading it cannot change it.
 */
module DocsStats {
  import opened Options
  import Lists
  import DocsApps

  datatype Stats = Stats(total: nat, apps: nat, base: nat)

  function OfKind(kind: string): DocsApps.AppItem -> bool
  {
    (app: DocsApps.AppItem) => app.kind == kind
  }

  /** `useStats(apps)` */
  function UseStats(apps: seq<DocsApps.AppItem>): (r: Stats)
    ensures r.total == |apps| && r.apps <= r.total && r.base <= r.total
  {
    Stats(|apps|, |Lists.Filter(apps, OfKind("app"))|, |Lists.Filter(apps, OfKind("base"))|)
  }

  /** `apps` and `base` count the items of each type. */
  lemma StatsCount(apps: seq<DocsApps.AppItem>)
    ensures UseStats(apps).apps == Lists.Count(apps, OfKind("app"))
    ensures UseStats(apps).base == Lists.Count(apps, OfKind("base"))
  {
    Lists.FilterCount(apps, OfKind("app"));
    Lists.FilterCount(apps, OfKind("base"));
  }

  /** Every item is an app or a base image, so the two counts add up to the total. */
  lemma StatsPartition(apps: seq<DocsApps.AppItem>)
    requires forall i :: 0 <= i < |apps| ==> apps[i].kind == "app" || apps[i].kind == "base"
    ensures UseStats(apps).apps + UseStats(apps).base == UseStats(apps).total
  {
    StatsCount(apps);
    Lists.CountSplit(apps, OfKind("app"), OfKind("base"));
  }

  /** The counts add up on the catalogue built from metas whose categories are `app`, `base` or absent. */
  lemma CatalogueStats(metas: seq<Option<DocsApps.Meta>>, localeLeq: (string, string) -> bool)
    requires forall i :: 0 <= i < |metas| && metas[i].Some? ==>
      metas[i].value.category.None? || metas[i].value.category == Some("app") || metas[i].value.category == Some("base")
    ensures var s := UseStats(DocsApps.Apps(metas, localeLeq)); s.apps + s.base == s.total
  {
    var apps := DocsApps.Apps(metas, localeLeq);
    DocsApps.AppsNamedAndTyped(metas, localeLeq);
    assert forall i :: 0 <= i < |apps| ==> apps[i] in apps;
    StatsPartition(apps);
  }
}
