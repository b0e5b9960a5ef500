/** The host-name conversions exercised by the source's tests, derived from
    the general rewrite lemmas: each example spells its host names as the
    concatenation the rewrite lemma speaks of and then applies that lemma. */
module DomainUtilityExamples {
  import opened Wrappers
  import opened Strings
  import opened DomainUtility

  // Undecorated UI names gain the tier decoration.

  lemma WwwToDev()
    ensures SiteToTierSpecific("www.example.com", "dev") == Ok("www-dev-acsf.example.com")
  {
    assert "www.example.com" == "www" + "." + "example.com";
    assert "www-dev-acsf.example.com" == "www" + "-" + "dev" + "-acsf" + "." + "example.com";
    UndecoratedUiRewrite("www.example.com", "www", "example.com", "dev");
  }

  lemma SubsiteToDev()
    ensures SiteToTierSpecific("subsite.example.com", "dev") == Ok("subsite-dev-acsf.example.com")
  {
    assert "subsite.example.com" == "subsite" + "." + "example.com";
    assert "subsite-dev-acsf.example.com" == "subsite" + "-" + "dev" + "-acsf" + "." + "example.com";
    UndecoratedUiRewrite("subsite.example.com", "subsite", "example.com", "dev");
  }

  // Decorated UI names have their tier replaced.

  lemma DecoratedWwwToTest()
    ensures SiteToTierSpecific("www-prod-acsf.example.com", "test") == Ok("www-test-acsf.example.com")
  {
    assert "www-prod-acsf.example.com" == "www" + "-" + "prod" + "-" + "acsf" + "." + "example.com";
    assert "www-test-acsf.example.com" == "www" + "-" + "test" + "-acsf" + "." + "example.com";
    DecoratedUiRewrite("www-prod-acsf.example.com", "www", "prod", "acsf", "example.com", "test");
  }

  lemma DecoratedSite2ToTest()
    ensures SiteToTierSpecific("site2-prod-acsf.example.com", "test") == Ok("site2-test-acsf.example.com")
  {
    assert "site2-prod-acsf.example.com" == "site2" + "-" + "prod" + "-" + "acsf" + "." + "example.com";
    assert "site2-test-acsf.example.com" == "site2" + "-" + "test" + "-acsf" + "." + "example.com";
    DecoratedUiRewrite("site2-prod-acsf.example.com", "site2", "prod", "acsf", "example.com", "test");
  }

  // CMS names, with or without a tier, end in the new tier.

  lemma CmsToTest()
    ensures SiteToTierSpecific("www-cms.example.com", "test") == Ok("www-cms-test.example.com")
  {
    assert "www-cms.example.com" == "www" + "-" + "cms" + "." + "example.com";
    assert "www-cms-test.example.com" == "www" + "-" + "cms" + "-" + "test" + "." + "example.com";
    CmsRewrite("www-cms.example.com", "www", "cms", "example.com", "test");
  }

  lemma ProdCmsToTest()
    ensures SiteToTierSpecific("www-cms-prod.example.com", "test") == Ok("www-cms-test.example.com")
  {
    assert "www-cms-prod.example.com" == "www" + "-" + "cms" + "-" + "prod" + "." + "example.com";
    assert "www-cms-test.example.com" == "www" + "-" + "cms" + "-" + "test" + "." + "example.com";
    assert Lower("prod"[0]) != 'a';
    CmsTierRewrite("www-cms-prod.example.com", "www", "cms", "prod", "example.com", "test");
  }

  lemma DevCmsToTest()
    ensures SiteToTierSpecific("www-cms-dev.example.com", "test") == Ok("www-cms-test.example.com")
  {
    assert "www-cms-dev.example.com" == "www" + "-" + "cms" + "-" + "dev" + "." + "example.com";
    assert "www-cms-test.example.com" == "www" + "-" + "cms" + "-" + "test" + "." + "example.com";
    CmsTierRewrite("www-cms-dev.example.com", "www", "cms", "dev", "example.com", "test");
  }

  // A trailing dash (an empty piece) and a fourth piece are both refused,
  // whatever the target.

  lemma TrailingDashRefused(target: string)
    ensures SiteToTierSpecific("www-.example.com", target) == Err(FormatError("www-"))
  {
    assert "www-" == "www" + "-" + "";
    assert "www-.example.com" == "www-" + "." + "example.com";
    HostOf("www-", "example.com");
    JoinTwo("www", "", '-');
    RejectsLabel("www-.example.com", "www-", target);
  }

  /** The host names of the four-piece test, spelled as concatenations. */
  lemma FourPiecesLiterals()
    ensures "www-cms-test-prod" == "www" + "-" + ("cms" + "-" + "test" + "-" + "prod")
    ensures "www-cms-test-prod.example.com" == "www-cms-test-prod" + "." + "example.com"
  {
  }

  lemma FourPiecesRefused(target: string)
    ensures SiteToTierSpecific("www-cms-test-prod.example.com", target) == Err(FormatError("www-cms-test-prod"))
  {
    FourPiecesLiterals();
    FourPiecesRejected("www-cms-test-prod.example.com", "www-cms-test-prod", "www", "cms", "test", "prod",
                       "example.com", target);
  }

  /** A label matching both patterns: `www-cms-acsf`. */
  lemma BothShapes()
    ensures IsUiLabel("www-cms-acsf") && IsCmsLabel("www-cms-acsf")
  {
    assert "www-cms-acsf" == "www" + "-" + "cms" + "-" + "acsf";
    AcsfCmsLabel("www", "www-cms-acsf");
  }

  /** Because the UI test comes first, `www-cms-acsf` becomes
      `www-test-acsf`, not `www-cms-test`. */
  lemma UiTestComesFirst()
    ensures SiteToTierSpecific("www-cms-acsf.example.com", "test") == Ok("www-test-acsf.example.com")
  {
    assert "www-cms-acsf.example.com" == "www" + "-" + "cms" + "-" + "acsf" + "." + "example.com";
    assert "www-test-acsf.example.com" == "www" + "-" + "test" + "-acsf" + "." + "example.com";
    DecoratedUiRewrite("www-cms-acsf.example.com", "www", "cms", "acsf", "example.com", "test");
  }

  /** The server names of the staging test, spelled as concatenations. */
  lemma StagingHostLiteral()
    ensures "www.example.acsitefactory.com" == "www" + "." + "example.acsitefactory.com"
  {
  }

  lemma StagedHostLiteral()
    ensures "www.dev-example.acsitefactory.com" == "www" + "." + "dev" + "-" + "example.acsitefactory.com"
  {
  }

  lemma StagingTargetExample()
    ensures SFToStagingTarget("www.example.acsitefactory.com", "dev") == "www.dev-example.acsitefactory.com"
  {
    StagingHostLiteral();
    StagedHostLiteral();
    StagingTargetInsert("www", "example.acsitefactory.com", "dev");
  }
}
