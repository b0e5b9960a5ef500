/** GenerateDestinationDomains (lib/domain-utility.js): plan, for every site,
    the primary and secondary domains it gets in the destination tier. */
module DestinationDomains {
  import opened Wrappers
  import opened Strings
  import opened DomainUtility

  /** One element of the list the domains API returns. `customDomains` is
      `None` when the record has no `domains` or no `custom_domains`; the
      protected domains are carried but never consulted. */
  datatype SiteDomains = SiteDomains(nodeId: int, protectedDomains: seq<string>, customDomains: Option<seq<string>>)

  /** `{siteID, primary, secondary}`; `primary` is `null` as `None`. */
  datatype Assignment = Assignment(siteId: int, primary: Option<string>, secondary: seq<string>)

  /** The state the per-site loop keeps: the two local variables. */
  datatype Placement = Placement(primary: Option<string>, secondary: seq<string>)

  /** `item.domains?.custom_domains`, with a missing list read as empty. */
  function CustomDomains(site: SiteDomains): seq<string> {
    if site.customDomains.Some? then site.customDomains.value else []
  }

  /** A domain whose first label has the UI-site shape. */
  predicate IsUiDomain(domain: string) {
    IsUiLabel(Label(domain))
  }

  predicate NoDuplicates(s: seq<string>) {
    forall i, j :: 0 <= i < j < |s| ==> s[i] != s[j]
  }

  /** `if (!list.includes(d)) list.push(d)`. */
  function AddNew(list: seq<string>, d: string): (r: seq<string>)
    ensures forall x :: x in r <==> x in list || x == d
    ensures NoDuplicates(list) ==> NoDuplicates(r)
    ensures |list| <= |r| && r[..|list|] == list
    ensures |r| == if d in list then |list| else |list| + 1
  {
    if d in list then list else list + [d]
  }

  /** One iteration of the loop over the rewritten domains: the first becomes
      primary, a repeat of the primary is skipped, a UI primary keeps its
      place and the newcomer goes to the secondaries, and any other primary
      is displaced by the newcomer and itself becomes a secondary. */
  function Place(p: Placement, d: string): Placement {
    if p.primary.None? then Placement(Some(d), p.secondary)
    else if p.primary.value == d then p
    else if IsUiDomain(p.primary.value) then Placement(p.primary, AddNew(p.secondary, d))
    else Placement(Some(d), AddNew(p.secondary, p.primary.value))
  }

  /** The loop run over a whole list of rewritten domains, from an empty
      placement. */
  function PlaceAll(ds: seq<string>): Placement {
    if ds == [] then Placement(None, [])
    else Place(PlaceAll(ds[..|ds| - 1]), ds[|ds| - 1])
  }

  /** The invariant of the loop after walking `ds`: no primary exactly when
      there were no domains, distinct secondaries, nothing but the given
      domains, and every given domain either the primary or a secondary. */
  predicate Settled(p: Placement, ds: seq<string>) {
    && (p.primary.None? <==> ds == [])
    && (p.primary.None? ==> p.secondary == [])
    && NoDuplicates(p.secondary)
    && (p.primary.Some? ==> p.primary.value in ds)
    && (forall x :: x in p.secondary ==> x in ds)
    && (forall d :: d in ds ==> p.primary == Some(d) || d in p.secondary)
  }

  /** One iteration keeps the invariant. */
  lemma PlaceKeepsSettled(p: Placement, ds: seq<string>, d: string)
    requires Settled(p, ds)
    ensures Settled(Place(p, d), ds + [d])
  {
    var q := Place(p, d);
    var ds' := ds + [d];
    assert forall x :: x in ds ==> x in ds';
    assert forall x :: x in ds' ==> x in ds || x == d;
    assert d in ds';
  }

  /** The loop keeps the invariant from the empty placement on. */
  lemma {:induction false} PlaceAllMeaning(ds: seq<string>)
    ensures Settled(PlaceAll(ds), ds)
  {
    if ds != [] {
      var init := ds[..|ds| - 1];
      PlaceAllMeaning(init);
      PlaceKeepsSettled(PlaceAll(init), init, ds[|ds| - 1]);
      assert init + [ds[|ds| - 1]] == ds;
    }
  }

  lemma PlaceAllStep(ds: seq<string>, d: string)
    ensures PlaceAll(ds + [d]) == Place(PlaceAll(ds), d)
  {
    assert (ds + [d])[..|ds|] == ds;
  }

  /** The values of a run of steps that may each throw: all of them, or the
      error of the first that threw (what both the `forEach` over a site's
      domains and the `map` over the sites do when their callback throws). */
  function Collect<T>(rs: seq<Result<T>>): Result<seq<T>> {
    if rs == [] then Ok([])
    else
      match Collect(rs[..|rs| - 1])
      case Err(e) => Err(e)
      case Ok(done) =>
        match rs[|rs| - 1]
        case Err(e) => Err(e)
        case Ok(v) => Ok(done + [v])
  }

  /** A run succeeds exactly when every step did, and then holds every
      step's value, in order. */
  lemma {:induction false} CollectMeaning<T>(rs: seq<Result<T>>)
    ensures Collect(rs).Ok? <==> forall j :: 0 <= j < |rs| ==> rs[j].Ok?
    ensures Collect(rs).Ok? ==> |Collect(rs).value| == |rs|
    ensures Collect(rs).Ok? ==> forall j :: 0 <= j < |rs| ==> rs[j] == Ok(Collect(rs).value[j])
  {
    if rs != [] {
      var init := rs[..|rs| - 1];
      CollectMeaning(init);
      if Collect(init).Ok? && rs[|rs| - 1].Ok? {
        var done := Collect(init).value;
        assert Collect(rs).value == done + [rs[|rs| - 1].value];
      }
    }
  }

  /** Step `j` is the first that threw. */
  predicate FirstFailure<T>(rs: seq<Result<T>>, j: int) {
    0 <= j < |rs| && rs[j].Err? && forall k :: 0 <= k < j ==> rs[k].Ok?
  }

  /** An aborted run reports the error of the first step that threw. */
  lemma {:induction false} CollectFirstFailure<T>(rs: seq<Result<T>>)
    requires Collect(rs).Err?
    ensures exists j :: FirstFailure(rs, j) && rs[j].error == Collect(rs).error
  {
    var init := rs[..|rs| - 1];
    if Collect(init).Err? {
      CollectFirstFailure(init);
      var j :| FirstFailure(init, j) && init[j].error == Collect(init).error;
      assert FirstFailure(rs, j);
    } else {
      CollectMeaning(init);
      assert FirstFailure(rs, |rs| - 1);
    }
  }

  /** Once a prefix of the run has thrown, the rest is never looked at. */
  lemma {:induction false} CollectStopsAtError<T>(rs: seq<Result<T>>, n: nat)
    requires n <= |rs|
    requires Collect(rs[..n]).Err?
    ensures Collect(rs) == Collect(rs[..n])
    decreases |rs| - n
  {
    if n < |rs| {
      assert rs[..n + 1][..n] == rs[..n];
      CollectStopsAtError(rs, n + 1);
    } else {
      assert rs[..n] == rs;
    }
  }

  /** The rewrite of each of a site's domains. */
  function Rewrites(domains: seq<string>, target: string): (rs: seq<Result<string>>)
    ensures |rs| == |domains|
    ensures forall j :: 0 <= j < |domains| ==> rs[j] == SiteToTierSpecific(domains[j], target)
  {
    seq(|domains|, j requires 0 <= j < |domains| => SiteToTierSpecific(domains[j], target))
  }

  /** The assignment planned for one site: its rewritten custom domains
      placed in order. */
  function SiteAssignment(site: SiteDomains, target: string): Result<Assignment> {
    match Collect(Rewrites(CustomDomains(site), target))
    case Err(e) => Err(e)
    case Ok(ds) => Ok(Assignment(site.nodeId, PlaceAll(ds).primary, PlaceAll(ds).secondary))
  }

  /** The plan of each site. */
  function SitePlans(sites: seq<SiteDomains>, target: string): (rs: seq<Result<Assignment>>)
    ensures |rs| == |sites|
    ensures forall i :: 0 <= i < |sites| ==> rs[i] == SiteAssignment(sites[i], target)
  {
    seq(|sites|, i requires 0 <= i < |sites| => SiteAssignment(sites[i], target))
  }

  /** The assignments for every site, in order; the first domain that cannot
      be rewritten aborts the whole call with its error. */
  function DestinationAssignments(sites: seq<SiteDomains>, target: string): Result<seq<Assignment>> {
    Collect(SitePlans(sites, target))
  }

  // ---------------------------------------------------------------------------
  // What the placement promises.
  // ---------------------------------------------------------------------------

  /** Once the primary is a UI domain, no later domain replaces it. */
  lemma {:induction false} UiPrimaryKept(ds: seq<string>, more: seq<string>)
    requires PlaceAll(ds).primary.Some? && IsUiDomain(PlaceAll(ds).primary.value)
    ensures PlaceAll(ds + more).primary == PlaceAll(ds).primary
    decreases |more|
  {
    if more == [] {
      assert ds + more == ds;
    } else {
      var init := more[..|more| - 1];
      var last := more[|more| - 1];
      UiPrimaryKept(ds, init);
      assert ds + more == (ds + init) + [last];
      PlaceAllStep(ds + init, last);
    }
  }

  /** When a site has a UI domain, the first UI domain is the primary, and it
      is not repeated among the secondaries. */
  lemma {:induction false} PrimaryIsFirstUi(ds: seq<string>, k: int)
    requires 0 <= k < |ds| && IsUiDomain(ds[k])
    requires forall j :: 0 <= j < k ==> !IsUiDomain(ds[j])
    ensures PlaceAll(ds).primary == Some(ds[k])
    ensures ds[k] !in PlaceAll(ds).secondary
    decreases |ds|
  {
    var init := ds[..|ds| - 1];
    var last := ds[|ds| - 1];
    assert ds == init + [last];
    PlaceAllStep(init, last);
    var before := PlaceAll(init);
    PlaceAllMeaning(init);
    if k == |ds| - 1 {
      if before.primary.Some? {
        var j :| 0 <= j < |init| && init[j] == before.primary.value;
        assert !IsUiDomain(init[j]);
      }
      forall x | x in before.secondary
        ensures x != last
      {
        var j :| 0 <= j < |init| && init[j] == x;
        assert !IsUiDomain(init[j]);
      }
    } else {
      PrimaryIsFirstUi(init, k);
    }
  }

  /** Whenever the final primary is UI-shaped, it is not among the
      secondaries. */
  lemma UiPrimaryNotSecondary(ds: seq<string>)
    requires PlaceAll(ds).primary.Some? && IsUiDomain(PlaceAll(ds).primary.value)
    ensures PlaceAll(ds).primary.value !in PlaceAll(ds).secondary
  {
    PlaceAllMeaning(ds);
    var k := FirstUi(ds);
    PrimaryIsFirstUi(ds, k);
  }

  /** The index of the first UI domain of a list that has one. */
  function FirstUi(ds: seq<string>): (k: int)
    requires exists j :: 0 <= j < |ds| && IsUiDomain(ds[j])
    ensures 0 <= k < |ds| && IsUiDomain(ds[k])
    ensures forall j :: 0 <= j < k ==> !IsUiDomain(ds[j])
  {
    if IsUiDomain(ds[0]) then 0
    else
      assert exists j :: 0 <= j < |ds[1..]| && IsUiDomain(ds[1..][j]) by {
        var j :| 0 <= j < |ds| && IsUiDomain(ds[j]);
        assert ds[1..][j - 1] == ds[j];
      }
      1 + FirstUi(ds[1..])
  }

  /** When a site has no UI domain, the last domain is the primary. */
  lemma {:induction false} PrimaryIsLastWithoutUi(ds: seq<string>)
    requires ds != []
    requires forall j :: 0 <= j < |ds| ==> !IsUiDomain(ds[j])
    ensures PlaceAll(ds).primary == Some(ds[|ds| - 1])
  {
    var init := ds[..|ds| - 1];
    var last := ds[|ds| - 1];
    assert ds == init + [last];
    PlaceAllStep(init, last);
    var before := PlaceAll(init);
    PlaceAllMeaning(init);
    if before.primary.Some? {
      var j :| 0 <= j < |init| && init[j] == before.primary.value;
      assert !IsUiDomain(init[j]);
    }
  }

  /** Distinct domains all survive: the primary is not a secondary and every
      other domain is a secondary exactly once. */
  lemma {:induction false} DistinctDomainsSettle(ds: seq<string>)
    requires ds != [] && NoDuplicates(ds)
    ensures PlaceAll(ds).primary.Some?
    ensures PlaceAll(ds).primary.value !in PlaceAll(ds).secondary
    ensures |PlaceAll(ds).secondary| == |ds| - 1
    decreases |ds|
  {
    var init := ds[..|ds| - 1];
    var last := ds[|ds| - 1];
    assert ds == init + [last];
    PlaceAllStep(init, last);
    if init != [] {
      assert NoDuplicates(init);
      DistinctDomainsSettle(init);
      var before := PlaceAll(init);
      PlaceAllMeaning(init);
      assert last !in init;
      assert before.primary.value != last && last !in before.secondary;
    }
  }

  /** The secondaries can hold the primary: two distinct non-UI domains `a`
      and `b` listed as `a, b, a` end with `a` as the primary and `a, b` as
      the secondaries, since a repeat is only compared with the current
      primary before it displaces it. */
  lemma PrimaryCanReturnAsSecondary(a: string, b: string)
    requires a != b && !IsUiDomain(a) && !IsUiDomain(b)
    ensures PlaceAll([a, b, a]) == Placement(Some(a), [a, b])
  {
    PlaceAllStep([], a);
    assert [] + [a] == [a];
    PlaceAllStep([a], b);
    assert [a] + [b] == [a, b];
    PlaceAllStep([a, b], a);
    assert [a, b] + [a] == [a, b, a];
  }

  /** Two rewrites to the same domain collapse into a primary alone. */
  lemma SameDomainTwice(d: string)
    ensures PlaceAll([d, d]) == Placement(Some(d), [])
  {
    PlaceAllStep([], d);
    assert [] + [d] == [d];
    PlaceAllStep([d], d);
    assert [d] + [d] == [d, d];
  }

  /** A UI domain keeps the primary against a later domain. */
  lemma UiThenOther(u: string, c: string)
    requires IsUiDomain(u) && c != u
    ensures PlaceAll([u, c]) == Placement(Some(u), [c])
  {
    PlaceAllStep([], u);
    assert [] + [u] == [u];
    PlaceAllStep([u], c);
    assert [u] + [c] == [u, c];
  }

  /** A later UI domain takes the primary from a non-UI one. */
  lemma OtherThenUi(c: string, u: string)
    requires !IsUiDomain(c) && c != u
    ensures PlaceAll([c, u]) == Placement(Some(u), [c])
  {
    PlaceAllStep([], c);
    assert [] + [c] == [c];
    PlaceAllStep([c], u);
    assert [c] + [u] == [c, u];
  }

  /** What one site's plan holds: its node ID, a primary exactly when it has
      custom domains, distinct secondaries, nothing but rewritten custom
      domains, and every rewritten custom domain somewhere. */
  lemma SiteAssignmentShape(site: SiteDomains, target: string)
    requires SiteAssignment(site, target).Ok?
    ensures var a := SiteAssignment(site, target).value;
            var domains := CustomDomains(site);
            && a.siteId == site.nodeId
            && (a.primary.None? <==> domains == [])
            && (a.primary.None? ==> a.secondary == [])
            && NoDuplicates(a.secondary)
            && (forall j :: 0 <= j < |domains| ==>
                  SiteToTierSpecific(domains[j], target).Ok? &&
                  (a.primary == Some(SiteToTierSpecific(domains[j], target).value) ||
                   SiteToTierSpecific(domains[j], target).value in a.secondary))
            && (forall x :: x in a.secondary || a.primary == Some(x) ==>
                  exists j :: 0 <= j < |domains| && SiteToTierSpecific(domains[j], target) == Ok(x))
  {
    var domains := CustomDomains(site);
    var rs := Rewrites(domains, target);
    CollectMeaning(rs);
    var ds := Collect(rs).value;
    var a := SiteAssignment(site, target).value;
    assert a == Assignment(site.nodeId, PlaceAll(ds).primary, PlaceAll(ds).secondary);
    PlaceAllMeaning(ds);
    forall x | x in a.secondary || a.primary == Some(x)
      ensures exists j :: 0 <= j < |domains| && SiteToTierSpecific(domains[j], target) == Ok(x)
    {
      var j :| 0 <= j < |ds| && ds[j] == x;
      assert rs[j] == Ok(ds[j]);
    }
    forall j | 0 <= j < |domains|
      ensures a.primary == Some(SiteToTierSpecific(domains[j], target).value) ||
              SiteToTierSpecific(domains[j], target).value in a.secondary
    {
      assert rs[j] == Ok(ds[j]);
      assert ds[j] in ds;
    }
  }

  /** The whole plan: it succeeds exactly when every custom domain of every
      site can be rewritten, and then holds one assignment per site, in
      order, each carrying that site's node ID. */
  lemma DestinationAssignmentsShape(sites: seq<SiteDomains>, target: string)
    ensures DestinationAssignments(sites, target).Ok? <==>
            forall i, j :: 0 <= i < |sites| && 0 <= j < |CustomDomains(sites[i])| ==>
              SiteToTierSpecific(CustomDomains(sites[i])[j], target).Ok?
    ensures DestinationAssignments(sites, target).Ok? ==>
            var plan := DestinationAssignments(sites, target).value;
            |plan| == |sites| &&
            forall i :: 0 <= i < |sites| ==>
              SiteAssignment(sites[i], target) == Ok(plan[i]) && plan[i].siteId == sites[i].nodeId
  {
    var plans := SitePlans(sites, target);
    CollectMeaning(plans);
    forall i | 0 <= i < |sites|
      ensures SiteAssignment(sites[i], target).Ok? <==>
              forall j :: 0 <= j < |CustomDomains(sites[i])| ==>
                SiteToTierSpecific(CustomDomains(sites[i])[j], target).Ok?
    {
      var rs := Rewrites(CustomDomains(sites[i]), target);
      CollectMeaning(rs);
    }
  }

  /** An aborted plan reports the format error of the first custom domain, in
      site order and then domain order, that fits neither host-name shape. */
  lemma AbortReportsFirstBadDomain(sites: seq<SiteDomains>, target: string)
    requires DestinationAssignments(sites, target).Err?
    ensures exists i, j :: 0 <= i < |sites| && 0 <= j < |CustomDomains(sites[i])|
              && (forall i' :: 0 <= i' < i ==> SiteAssignment(sites[i'], target).Ok?)
              && (forall j' :: 0 <= j' < j ==> SiteToTierSpecific(CustomDomains(sites[i])[j'], target).Ok?)
              && var bad := Label(CustomDomains(sites[i])[j]);
              !IsUiLabel(bad) && !IsCmsLabel(bad) &&
              DestinationAssignments(sites, target).error == FormatError(bad)
  {
    var plans := SitePlans(sites, target);
    CollectFirstFailure(plans);
    var i :| FirstFailure(plans, i) && plans[i].error == Collect(plans).error;
    var rs := Rewrites(CustomDomains(sites[i]), target);
    assert Collect(rs).Err?;
    CollectFirstFailure(rs);
    var j :| FirstFailure(rs, j) && rs[j].error == Collect(rs).error;
    var domain := CustomDomains(sites[i])[j];
    SiteToTierSpecificMeaning(domain, target);
    assert forall i' :: 0 <= i' < i ==> plans[i'].Ok?;
  }

  // ---------------------------------------------------------------------------
  // The two loops.
  // ---------------------------------------------------------------------------

  /** The callback of the `map`: walks the site's custom domains, keeping the
      primary and the secondaries in two local variables. */
  method DestinationForSite(site: SiteDomains, target: string) returns (r: Result<Assignment>)
    ensures r == SiteAssignment(site, target)
  {
    var primary: Option<string> := None;
    var secondary: seq<string> := [];
    var domains := CustomDomains(site);
    ghost var rewrites := Rewrites(domains, target);
    ghost var done: seq<string> := [];
    var i := 0;
    while i < |domains|
      invariant 0 <= i <= |domains|
      invariant Collect(rewrites[..i]) == Ok(done)
      invariant PlaceAll(done) == Placement(primary, secondary)
    {
      var destination := SiteToTierSpecific(domains[i], target);
      assert rewrites[..i + 1][..i] == rewrites[..i];
      assert rewrites[..i + 1][i] == destination;
      if destination.Err? {
        CollectStopsAtError(rewrites, i + 1);
        return Err(destination.error);
      }
      var d := destination.value;
      ghost var before := Placement(primary, secondary);
      PlaceAllStep(done, d);
      done := done + [d];
      if primary.None? {
        primary := Some(d);
      } else if primary.value == d {
        // a repeat of the primary is skipped
      } else if IsUiLabel(Label(primary.value)) {
        if d !in secondary {
          secondary := secondary + [d];
        }
      } else {
        var previous := primary.value;
        primary := Some(d);
        if previous !in secondary {
          secondary := secondary + [previous];
        }
      }
      assert Placement(primary, secondary) == Place(before, d);
      i := i + 1;
    }
    assert rewrites[..i] == rewrites;
    return Ok(Assignment(site.nodeId, primary, secondary));
  }

  /** GenerateDestinationDomains: one assignment per site, in order, or the
      error of the first domain that could not be rewritten. */
  method GenerateDestinationDomains(originalList: seq<SiteDomains>, target: string)
    returns (r: Result<seq<Assignment>>)
    ensures r == DestinationAssignments(originalList, target)
  {
    ghost var plans := SitePlans(originalList, target);
    var destinationList: seq<Assignment> := [];
    var i := 0;
    while i < |originalList|
      invariant 0 <= i <= |originalList|
      invariant Collect(plans[..i]) == Ok(destinationList)
    {
      var item := DestinationForSite(originalList[i], target);
      assert plans[..i + 1][..i] == plans[..i];
      assert plans[..i + 1][i] == item;
      if item.Err? {
        CollectStopsAtError(plans, i + 1);
        return Err(item.error);
      }
      destinationList := destinationList + [item.value];
      i := i + 1;
    }
    assert plans[..i] == plans;
    return Ok(destinationList);
  }
}
