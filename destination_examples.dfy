/** The destination plans the source's tests expect, derived from the
    general placement lemmas. */
module DestinationExamples {
  import opened Wrappers
  import opened Strings
  import opened DomainUtility
  import opened DestinationDomains

  /** A run of steps that all succeeded collects their values. */
  lemma CollectAllOk<T>(rs: seq<Result<T>>, vs: seq<T>)
    requires |rs| == |vs| && forall j :: 0 <= j < |rs| ==> rs[j] == Ok(vs[j])
    ensures Collect(rs) == Ok(vs)
  {
    CollectMeaning(rs);
    assert Collect(rs).Ok?;
    assert forall j :: 0 <= j < |rs| ==> Collect(rs).value[j] == vs[j];
    assert Collect(rs).value == vs;
  }

  /** A one-site plan is that site's assignment over its rewritten domains. */
  lemma OneSitePlan(site: SiteDomains, target: string, ds: seq<string>)
    requires |CustomDomains(site)| == |ds|
    requires forall j :: 0 <= j < |ds| ==> SiteToTierSpecific(CustomDomains(site)[j], target) == Ok(ds[j])
    ensures DestinationAssignments([site], target) ==
            Ok([Assignment(site.nodeId, PlaceAll(ds).primary, PlaceAll(ds).secondary)])
  {
    var rs := Rewrites(CustomDomains(site), target);
    CollectAllOk(rs, ds);
    var a := Assignment(site.nodeId, PlaceAll(ds).primary, PlaceAll(ds).secondary);
    assert SiteAssignment(site, target) == Ok(a);
    var plans := SitePlans([site], target);
    assert plans[0] == Ok(a);
    CollectAllOk(plans, [a]);
  }

  /** A site with two custom domains, given what each rewrites to. */
  lemma TwoDomainSite(site: SiteDomains, target: string, d1: string, d2: string, x: string, y: string)
    requires CustomDomains(site) == [d1, d2]
    requires SiteToTierSpecific(d1, target) == Ok(x) && SiteToTierSpecific(d2, target) == Ok(y)
    ensures DestinationAssignments([site], target) ==
            Ok([Assignment(site.nodeId, PlaceAll([x, y]).primary, PlaceAll([x, y]).secondary)])
  {
    OneSitePlan(site, target, [x, y]);
  }

  /** `org-<tier>-acsf.<more>` is a UI domain. */
  lemma UiDomain(org: string, tier: string, more: string)
    requires IsWord(org) && IsWord(tier)
    ensures IsUiDomain(org + "-" + tier + "-acsf" + "." + more)
  {
    var hostLabel := org + "-" + tier + "-" + "acsf";
    assert org + "-" + tier + "-acsf" + "." + more == hostLabel + "." + more;
    WordHasNoSeparator(org, '.');
    WordHasNoSeparator(tier, '.');
    assert '.' !in hostLabel;
    HostOf(hostLabel, more);
    UiPatternIsUiLabel(org, tier, "acsf");
  }

  /** `org-cms-<tier>.<more>` is not a UI domain when the tier is not `acsf`. */
  lemma CmsDomain(org: string, tier: string, more: string)
    requires IsWord(org) && IsWord(tier) && !MatchesIgnoreCase(tier, "acsf")
    ensures !IsUiDomain(org + "-" + "cms" + "-" + tier + "." + more)
  {
    var hostLabel := org + "-" + "cms" + "-" + tier;
    WordHasNoSeparator(org, '.');
    WordHasNoSeparator(tier, '.');
    assert '.' !in hostLabel;
    HostOf(hostLabel, more);
    CmsTierIsNotUi(org, "cms", tier);
  }

  lemma SetsTheNodeId()
    ensures DestinationAssignments([SiteDomains(123, [], Some([]))], "test") == Ok([Assignment(123, None, [])])
  {
    OneSitePlan(SiteDomains(123, [], Some([])), "test", []);
  }

  // The three rewrites the plans below rely on.

  lemma Site1ToTest()
    ensures SiteToTierSpecific("site1.example.com", "test") == Ok("site1-test-acsf.example.com")
  {
    assert "site1.example.com" == "site1" + "." + "example.com";
    assert "site1-test-acsf.example.com" == "site1" + "-" + "test" + "-acsf" + "." + "example.com";
    UndecoratedUiRewrite("site1.example.com", "site1", "example.com", "test");
  }

  lemma Site1ProdToTest()
    ensures SiteToTierSpecific("site1-prod-acsf.example.com", "test") == Ok("site1-test-acsf.example.com")
  {
    assert "site1-prod-acsf.example.com" == "site1" + "-" + "prod" + "-" + "acsf" + "." + "example.com";
    assert "site1-test-acsf.example.com" == "site1" + "-" + "test" + "-acsf" + "." + "example.com";
    DecoratedUiRewrite("site1-prod-acsf.example.com", "site1", "prod", "acsf", "example.com", "test");
  }

  lemma Site1CmsToTest()
    ensures SiteToTierSpecific("site1-cms.example.com", "test") == Ok("site1-cms-test.example.com")
  {
    assert "site1-cms.example.com" == "site1" + "-" + "cms" + "." + "example.com";
    assert "site1-cms-test.example.com" == "site1" + "-" + "cms" + "-" + "test" + "." + "example.com";
    CmsRewrite("site1-cms.example.com", "site1", "cms", "example.com", "test");
  }

  /** The shapes of the two rewritten domains of the mixed sites. */
  lemma MixedUiShape()
    ensures IsUiDomain("site1-test-acsf.example.com")
  {
    assert "site1-test-acsf.example.com" == "site1" + "-" + "test" + "-acsf" + "." + "example.com";
    UiDomain("site1", "test", "example.com");
  }

  lemma MixedCmsShape()
    ensures !IsUiDomain("site1-cms-test.example.com")
  {
    assert "site1-cms-test.example.com" == "site1" + "-" + "cms" + "-" + "test" + "." + "example.com";
    CmsDomain("site1", "test", "example.com");
  }

  lemma SingleDomain()
    ensures DestinationAssignments([SiteDomains(123, ["site1.example.acsitefactory.com"], Some(["site1.example.com"]))], "test")
            == Ok([Assignment(123, Some("site1-test-acsf.example.com"), [])])
  {
    var u := "site1-test-acsf.example.com";
    Site1ToTest();
    PlaceAllStep([], u);
    assert [] + [u] == [u];
    OneSitePlan(SiteDomains(123, ["site1.example.acsitefactory.com"], Some(["site1.example.com"])), "test", [u]);
  }

  lemma EquivalentUiDomains()
    ensures DestinationAssignments([SiteDomains(123, ["site1.example.acsitefactory.com"],
                                                Some(["site1.example.com", "site1-prod-acsf.example.com"]))], "test")
            == Ok([Assignment(123, Some("site1-test-acsf.example.com"), [])])
  {
    var u := "site1-test-acsf.example.com";
    Site1ToTest();
    Site1ProdToTest();
    SameDomainTwice(u);
    TwoDomainSite(SiteDomains(123, ["site1.example.acsitefactory.com"],
                              Some(["site1.example.com", "site1-prod-acsf.example.com"])),
                  "test", "site1.example.com", "site1-prod-acsf.example.com", u, u);
  }

  lemma UiAndCmsSites()
    ensures DestinationAssignments([SiteDomains(123, ["site1.example.acsitefactory.com"],
                                                Some(["site1.example.com", "site1-cms.example.com"]))], "test")
            == Ok([Assignment(123, Some("site1-test-acsf.example.com"), ["site1-cms-test.example.com"])])
  {
    var u, c := "site1-test-acsf.example.com", "site1-cms-test.example.com";
    Site1ToTest();
    Site1CmsToTest();
    MixedUiShape();
    MixedCmsShape();
    UiThenOther(u, c);
    TwoDomainSite(SiteDomains(123, ["site1.example.acsitefactory.com"],
                              Some(["site1.example.com", "site1-cms.example.com"])),
                  "test", "site1.example.com", "site1-cms.example.com", u, c);
  }

  lemma CmsSitePresentedBeforeUi()
    ensures DestinationAssignments([SiteDomains(123, ["site1.example.acsitefactory.com"],
                                                Some(["site1-cms.example.com", "site1.example.com"]))], "test")
            == Ok([Assignment(123, Some("site1-test-acsf.example.com"), ["site1-cms-test.example.com"])])
  {
    var u, c := "site1-test-acsf.example.com", "site1-cms-test.example.com";
    Site1CmsToTest();
    Site1ToTest();
    MixedUiShape();
    MixedCmsShape();
    OtherThenUi(c, u);
    TwoDomainSite(SiteDomains(123, ["site1.example.acsitefactory.com"],
                              Some(["site1-cms.example.com", "site1.example.com"])),
                  "test", "site1-cms.example.com", "site1.example.com", c, u);
  }
}
