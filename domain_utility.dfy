/** Tier-specific rewriting of host names (lib/domain-utility.js): the two
    label shapes, the per-site rewrite SiteToTierSpecific and the factory-host
    rewrite SFToStagingTarget. */
module DomainUtility {
  import opened Wrappers
  import opened Strings

  // ---------------------------------------------------------------------------
  // The two label patterns, written out character by character.
  // ---------------------------------------------------------------------------

  /** `[a-z]` under the `i` flag. */
  predicate IsLetter(c: char) {
    'a' <= c <= 'z' || 'A' <= c <= 'Z'
  }

  /** `[a-z0-9]` under the `i` flag. */
  predicate IsAlnum(c: char) {
    IsLetter(c) || '0' <= c <= '9'
  }

  /** `[a-z][a-z0-9]+` under the `i` flag: a letter and at least one more
      letter or digit. */
  predicate IsWord(w: string) {
    |w| >= 2 && IsLetter(w[0]) && forall i :: 1 <= i < |w| ==> IsAlnum(w[i])
  }

  function Lower(c: char): char {
    if 'A' <= c <= 'Z' then (c as int + 32) as char else c
  }

  /** `w` spells the lower-case literal `lit`, ignoring case. */
  predicate MatchesIgnoreCase(w: string, lit: string) {
    |w| == |lit| && forall i :: 0 <= i < |w| ==> Lower(w[i]) == lit[i]
  }

  /** The UI-site pattern `^[a-z][a-z0-9]+(-[a-z][a-z0-9]+-acsf)?$` (flag
      `i`): a word, or a word, a tier word and `acsf`, joined by dashes. */
  predicate IsUiLabel(hostLabel: string) {
    var parts := Split(hostLabel, '-');
    (|parts| == 1 && IsWord(parts[0])) ||
    (|parts| == 3 && IsWord(parts[0]) && IsWord(parts[1]) && MatchesIgnoreCase(parts[2], "acsf"))
  }

  /** The CMS-site pattern `^[a-z][a-z0-9]+-cms(-[a-z][a-z0-9]+)?$` (flag
      `i`): a word and `cms`, optionally followed by a tier word. */
  predicate IsCmsLabel(hostLabel: string) {
    var parts := Split(hostLabel, '-');
    (|parts| == 2 || |parts| == 3) && IsWord(parts[0]) && MatchesIgnoreCase(parts[1], "cms") &&
    (|parts| == 3 ==> IsWord(parts[2]))
  }

  /** The classification SiteToTierSpecific makes; the UI pattern is tried
      first, so a label matching both is a UI label. */
  datatype Shape = UiSite | CmsSite | Unrecognized

  function Classify(hostLabel: string): (s: Shape)
    ensures s == UiSite <==> IsUiLabel(hostLabel)
    ensures s == CmsSite <==> !IsUiLabel(hostLabel) && IsCmsLabel(hostLabel)
  {
    if IsUiLabel(hostLabel) then UiSite
    else if IsCmsLabel(hostLabel) then CmsSite
    else Unrecognized
  }

  lemma WordHasNoSeparator(w: string, c: char)
    requires IsWord(w) && !IsAlnum(c)
    ensures c !in w
  {
    if c in w {
      var i :| 0 <= i < |w| && w[i] == c;
    }
  }

  /** Every UI label has one of the pattern's two forms. */
  lemma UiLabelHasPatternForm(hostLabel: string)
    requires IsUiLabel(hostLabel)
    ensures var parts := Split(hostLabel, '-');
      IsWord(parts[0]) &&
      ((|parts| == 1 && hostLabel == parts[0]) ||
       (|parts| == 3 && IsWord(parts[1]) && MatchesIgnoreCase(parts[2], "acsf") &&
        hostLabel == parts[0] + "-" + parts[1] + "-" + parts[2]))
  {
    SplitPieces(hostLabel, '-');
    JoinSmall(Split(hostLabel, '-'), '-');
  }

  /** Every string of the UI pattern's two forms is a UI label. */
  lemma UiPatternIsUiLabel(org: string, tier: string, suffix: string)
    requires IsWord(org)
    ensures IsUiLabel(org)
    ensures IsWord(tier) && MatchesIgnoreCase(suffix, "acsf") ==> IsUiLabel(org + "-" + tier + "-" + suffix)
  {
    WordHasNoSeparator(org, '-');
    SplitPlain(org, '-');
    if IsWord(tier) && MatchesIgnoreCase(suffix, "acsf") {
      WordHasNoSeparator(tier, '-');
      LiteralMatchLacks(suffix, "acsf", '-');
      JoinThree(org, tier, suffix, '-');
    }
  }

  /** Every CMS label has one of the pattern's two forms. */
  lemma CmsLabelHasPatternForm(hostLabel: string)
    requires IsCmsLabel(hostLabel)
    ensures var parts := Split(hostLabel, '-');
      IsWord(parts[0]) && MatchesIgnoreCase(parts[1], "cms") &&
      (hostLabel == parts[0] + "-" + parts[1] ||
       (|parts| == 3 && IsWord(parts[2]) && hostLabel == parts[0] + "-" + parts[1] + "-" + parts[2]))
  {
    SplitPieces(hostLabel, '-');
    JoinSmall(Split(hostLabel, '-'), '-');
  }

  /** A tiered CMS label is a UI label only when its tier reads `acsf`. */
  lemma CmsTierIsNotUi(org: string, cms: string, tier: string)
    requires IsWord(org) && MatchesIgnoreCase(cms, "cms") && IsWord(tier)
    ensures IsUiLabel(org + "-" + cms + "-" + tier) <==> MatchesIgnoreCase(tier, "acsf")
  {
    WordHasNoSeparator(org, '-');
    LiteralMatchLacks(cms, "cms", '-');
    WordHasNoSeparator(tier, '-');
    JoinThree(org, cms, tier, '-');
    assert |cms| == 3 && IsLetter(cms[0]) && IsAlnum(cms[1]) && IsAlnum(cms[2]);
  }

  /** Every string of the CMS pattern's two forms is a CMS label. */
  lemma CmsPatternIsCmsLabel(org: string, cms: string, tier: string)
    requires IsWord(org) && MatchesIgnoreCase(cms, "cms")
    ensures IsCmsLabel(org + "-" + cms)
    ensures IsWord(tier) ==> IsCmsLabel(org + "-" + cms + "-" + tier)
  {
    WordHasNoSeparator(org, '-');
    LiteralMatchLacks(cms, "cms", '-');
    JoinTwo(org, cms, '-');
    if IsWord(tier) {
      WordHasNoSeparator(tier, '-');
      JoinThree(org, cms, tier, '-');
    }
  }

  lemma LiteralMatchLacks(w: string, lit: string, c: char)
    requires MatchesIgnoreCase(w, lit) && c !in lit && !IsLetter(c)
    ensures c !in w
  {
    forall i | 0 <= i < |w| ensures w[i] != c {
      assert Lower(w[i]) == lit[i];
    }
  }

  lemma JoinTwo(a: string, b: string, sep: char)
    requires sep !in a && sep !in b
    ensures Split(a + [sep] + b, sep) == [a, b]
  {
    SplitAt(a, b, sep);
    SplitPlain(b, sep);
  }

  lemma JoinThree(a: string, b: string, c: string, sep: char)
    requires sep !in a && sep !in b && sep !in c
    ensures Split(a + [sep] + b + [sep] + c, sep) == [a, b, c]
  {
    assert a + [sep] + b + [sep] + c == a + [sep] + (b + [sep] + c);
    SplitAt(a, b + [sep] + c, sep);
    JoinTwo(b, c, sep);
  }

  // ---------------------------------------------------------------------------
  // Host names: the first label and the rest.
  // ---------------------------------------------------------------------------

  /** `host.split('.')[0]`. */
  function Label(host: string): string {
    Split(host, '.')[0]
  }

  /** Everything after the first label: empty, or a dot and the remaining
      labels. */
  function Rest(host: string): string {
    JoinTail(Split(host, '.'), '.')
  }

  /** A host is its first label followed by the rest, which is empty or
      starts with the dot. */
  lemma LabelThenRest(host: string)
    ensures host == Label(host) + Rest(host)
    ensures Rest(host) == [] || Rest(host)[0] == '.'
    ensures '.' !in Label(host)
  {
    SplitPieces(host, '.');
    JoinFirst(Split(host, '.'), [], '.');
  }

  /** Replacing the first label by a dot-free label changes no other label. */
  lemma ReplaceLabel(host: string, hostLabel: string)
    requires '.' !in hostLabel
    ensures Split(hostLabel + Rest(host), '.') == Split(host, '.')[0 := hostLabel]
    ensures Label(hostLabel + Rest(host)) == hostLabel
    ensures Rest(hostLabel + Rest(host)) == Rest(host)
  {
    var segs := Split(host, '.');
    SplitPieces(host, '.');
    JoinFirst(segs, hostLabel, '.');
    SplitJoin(segs[0 := hostLabel], '.');
  }

  // ---------------------------------------------------------------------------
  // The two rewrites.
  // ---------------------------------------------------------------------------

  /** SFToStagingTarget: prefix the second label of a Site Factory host with
      `<target>-` (`www.demo.acsitefactory.com` becomes
      `www.dev-demo.acsitefactory.com`). A host without a second label reads
      the missing array slot as `undefined`. */
  function SFToStagingTarget(serverName: string, target: string): string {
    var segs := Split(serverName, '.');
    var second := if |segs| > 1 then segs[1] else "undefined";
    Join(SetSlot(segs, 1, target + "-" + second), '.')
  }

  /** With a second label, `<target>-` goes right after the first dot; with
      none, `.<target>-undefined` is appended. */
  lemma SFToStagingTargetMeaning(serverName: string, target: string)
    ensures |Split(serverName, '.')| >= 2 ==>
      SFToStagingTarget(serverName, target) == Label(serverName) + "." + target + "-" + Rest(serverName)[1..]
    ensures |Split(serverName, '.')| == 1 ==>
      SFToStagingTarget(serverName, target) == serverName + "." + target + "-" + "undefined"
  {
    SplitPieces(serverName, '.');
    var segs := Split(serverName, '.');
    if |segs| >= 2 {
      var x := target + "-" + segs[1];
      var tail := JoinTail(segs[1..], '.');
      JoinSecond(segs, x, '.');
      assert SetSlot(segs, 1, x) == segs[1 := x];
      assert SFToStagingTarget(serverName, target) == Join(segs[1 := x], '.');
      assert Label(serverName) == segs[0];
      assert Rest(serverName)[1..] == segs[1] + tail;
      assert segs[0] + ['.'] + x + tail == Label(serverName) + "." + target + "-" + (segs[1] + tail);
    } else {
      var y := target + "-" + "undefined";
      assert segs == [serverName];
      assert SetSlot(segs, 1, y) == [serverName, y];
      assert SFToStagingTarget(serverName, target) == Join([serverName, y], '.');
      JoinSmall([serverName, y], '.');
      assert serverName + ['.'] + y == serverName + "." + target + "-" + "undefined";
    }
  }

  /** The factory rewrite changes only the second label, which gains the
      `<target>-` prefix; the number of labels is unchanged. */
  lemma SFToStagingTargetLabels(serverName: string, target: string)
    requires |Split(serverName, '.')| >= 2
    requires '.' !in target
    ensures var segs := Split(serverName, '.');
      Split(SFToStagingTarget(serverName, target), '.') == segs[1 := target + "-" + segs[1]]
  {
    var segs := Split(serverName, '.');
    SplitPieces(serverName, '.');
    var renamed := segs[1 := target + "-" + segs[1]];
    assert '.' !in target + "-" + segs[1];
    SplitJoin(renamed, '.');
    JoinFirst(segs, [], '.');
    JoinFirst(renamed, [], '.');
    assert renamed[1..] == renamed[1..][0 := target + "-" + segs[1]];
    assert segs[1..][0 := target + "-" + segs[1]] == renamed[1..];
    JoinFirst(segs[1..], target + "-" + segs[1], '.');
    assert Join(renamed, '.') == SFToStagingTarget(serverName, target);
  }

  /** The label a UI label becomes in tier `target`: `<org>-<target>-acsf`. */
  function UiTierLabel(hostLabel: string, target: string): string {
    Split(hostLabel, '-')[0] + "-" + target + "-acsf"
  }

  /** The label a CMS label becomes in tier `target`: `<org>-cms-<target>`,
      keeping the case in which `cms` was written. */
  function CmsTierLabel(hostLabel: string, target: string): string {
    var parts := Split(hostLabel, '-');
    parts[0] + "-" + (if |parts| > 1 then parts[1] else "") + "-" + target
  }

  /** The message thrown for a label of neither shape. */
  function FormatError(hostLabel: string): string {
    "Host name '" + hostLabel + "' is not in an expected format"
  }

  /** SiteToTierSpecific: rewrite the tier slot of a site's first label and
      keep the rest of the name; a first label of neither shape throws. */
  function SiteToTierSpecific(siteName: string, target: string): Result<string>
  {
    var fqdnSegs := Split(siteName, '.');
    var hostName := fqdnSegs[0];
    match Classify(hostName)
    case UiSite =>
      var hostSegs := Split(hostName, '-');
      // both `org` and `org-tier-acsf` get slot 1 and slot 2 overwritten
      var renamed := SetSlot(SetSlot(hostSegs, 1, target), 2, "acsf");
      Ok(Join(fqdnSegs[0 := Join(renamed, '-')], '.'))
    case CmsSite =>
      var hostSegs := Split(hostName, '-');
      var renamed := SetSlot(hostSegs, 2, target);
      Ok(Join(fqdnSegs[0 := Join(renamed, '-')], '.'))
    case Unrecognized =>
      Err(FormatError(hostName))
  }

  /** What SiteToTierSpecific computes: it succeeds exactly for a first label
      of one of the two shapes; a UI label becomes `<org>-<target>-acsf`, a
      CMS label `<org>-cms-<target>`, and the text after the first label is
      kept; otherwise it throws the format message naming the label. */
  lemma SiteToTierSpecificMeaning(siteName: string, target: string)
    ensures SiteToTierSpecific(siteName, target).Ok? <==>
      IsUiLabel(Label(siteName)) || IsCmsLabel(Label(siteName))
    ensures IsUiLabel(Label(siteName)) ==>
      SiteToTierSpecific(siteName, target) == Ok(UiTierLabel(Label(siteName), target) + Rest(siteName))
    ensures !IsUiLabel(Label(siteName)) && IsCmsLabel(Label(siteName)) ==>
      SiteToTierSpecific(siteName, target) == Ok(CmsTierLabel(Label(siteName), target) + Rest(siteName))
    ensures SiteToTierSpecific(siteName, target).Err? ==>
      SiteToTierSpecific(siteName, target).error == FormatError(Label(siteName))
  {
    var fqdnSegs := Split(siteName, '.');
    var hostName := fqdnSegs[0];
    var hostSegs := Split(hostName, '-');
    match Classify(hostName)
    case UiSite =>
      var renamed := SetSlot(SetSlot(hostSegs, 1, target), 2, "acsf");
      assert renamed == [hostSegs[0], target, "acsf"];
      JoinSmall(renamed, '-');
      assert Join(renamed, '-') == UiTierLabel(hostName, target);
      JoinFirst(fqdnSegs, Join(renamed, '-'), '.');
    case CmsSite =>
      var renamed := SetSlot(hostSegs, 2, target);
      assert renamed == [hostSegs[0], hostSegs[1], target];
      JoinSmall(renamed, '-');
      JoinFirst(fqdnSegs, Join(renamed, '-'), '.');
    case Unrecognized =>
  }

  /** A host written as a dot-free label, a dot and more. */
  lemma HostOf(hostLabel: string, more: string)
    requires '.' !in hostLabel
    ensures Label(hostLabel + "." + more) == hostLabel
    ensures Rest(hostLabel + "." + more) == "." + more
  {
    SplitAt(hostLabel, more, '.');
    SplitPieces(more, '.');
  }

  /** The label SiteToTierSpecific produces, when it produces one. */
  function TierLabel(hostLabel: string, target: string): string {
    if IsUiLabel(hostLabel) then UiTierLabel(hostLabel, target) else CmsTierLabel(hostLabel, target)
  }

  /** The pieces of a rewritten label, when the tier is dash-free. */
  lemma TierLabelParts(hostLabel: string, target: string)
    requires IsUiLabel(hostLabel) || IsCmsLabel(hostLabel)
    requires '-' !in target
    ensures var parts := Split(hostLabel, '-');
      Split(TierLabel(hostLabel, target), '-') ==
        if IsUiLabel(hostLabel) then [parts[0], target, "acsf"] else [parts[0], parts[1], target]
  {
    var parts := Split(hostLabel, '-');
    if IsUiLabel(hostLabel) {
      assert TierLabel(hostLabel, target) == parts[0] + "-" + target + "-" + "acsf";
      JoinThree(parts[0], target, "acsf", '-');
    } else {
      JoinThree(parts[0], parts[1], target, '-');
    }
  }

  /** A rewritten label holds a dot only if the tier does. */
  lemma TierLabelDotFree(hostLabel: string, target: string)
    requires IsUiLabel(hostLabel) || IsCmsLabel(hostLabel)
    requires '.' !in target
    ensures '.' !in TierLabel(hostLabel, target)
  {
    var parts := Split(hostLabel, '-');
    WordHasNoSeparator(parts[0], '.');
    if !IsUiLabel(hostLabel) {
      LiteralMatchLacks(parts[1], "cms", '.');
    }
  }

  /** SiteToTierSpecific changes only the first label: the number of labels
      and every later label are kept. */
  lemma SiteToTierSpecificLabels(siteName: string, target: string)
    requires SiteToTierSpecific(siteName, target).Ok?
    requires '.' !in target
    ensures var segs := Split(siteName, '.');
      Split(SiteToTierSpecific(siteName, target).value, '.') == segs[0 := TierLabel(segs[0], target)]
  {
    SiteToTierSpecificMeaning(siteName, target);
    TierLabelDotFree(Label(siteName), target);
    ReplaceLabel(siteName, TierLabel(Label(siteName), target));
  }

  /** SiteToTierSpecific on a first label of either shape, in one formula. */
  lemma RewriteOfShapedLabel(siteName: string, target: string)
    requires IsUiLabel(Label(siteName)) || IsCmsLabel(Label(siteName))
    ensures SiteToTierSpecific(siteName, target) == Ok(TierLabel(Label(siteName), target) + Rest(siteName))
  {
    SiteToTierSpecificMeaning(siteName, target);
  }

  /** A label rewritten to a word tier keeps its shape (a CMS label only when
      that tier is not `acsf`), so rewriting it again is the same as
      rewriting the original. */
  lemma TierLabelTwice(hostLabel: string, first: string, second: string)
    requires IsUiLabel(hostLabel) || IsCmsLabel(hostLabel)
    requires IsWord(first)
    requires IsCmsLabel(hostLabel) && !IsUiLabel(hostLabel) ==> !MatchesIgnoreCase(first, "acsf")
    ensures IsUiLabel(TierLabel(hostLabel, first)) == IsUiLabel(hostLabel)
    ensures IsUiLabel(TierLabel(hostLabel, first)) || IsCmsLabel(TierLabel(hostLabel, first))
    ensures TierLabel(TierLabel(hostLabel, first), second) == TierLabel(hostLabel, second)
  {
    var parts := Split(hostLabel, '-');
    var relabelled := TierLabel(hostLabel, first);
    WordHasNoSeparator(first, '-');
    TierLabelParts(hostLabel, first);
    var again := Split(relabelled, '-');
    if IsUiLabel(hostLabel) {
      assert again == [parts[0], first, "acsf"];
      assert IsUiLabel(relabelled);
    } else {
      assert again == [parts[0], parts[1], first];
      assert !IsUiLabel(relabelled);
      assert IsCmsLabel(relabelled);
    }
  }

  /** Rewriting to one tier and then to another is the same as rewriting
      straight to the second, provided the first tier is itself a word (and,
      for a CMS label, not `acsf`, which would make the rewritten label a UI
      label). */
  lemma RetierStraight(siteName: string, first: string, second: string)
    requires SiteToTierSpecific(siteName, first).Ok?
    requires IsWord(first)
    requires IsCmsLabel(Label(siteName)) && !IsUiLabel(Label(siteName)) ==> !MatchesIgnoreCase(first, "acsf")
    ensures SiteToTierSpecific(SiteToTierSpecific(siteName, first).value, second) ==
            SiteToTierSpecific(siteName, second)
  {
    var hostLabel := Label(siteName);
    SiteToTierSpecificMeaning(siteName, first);
    RewriteOfShapedLabel(siteName, first);
    RewriteOfShapedLabel(siteName, second);
    var relabelled := TierLabel(hostLabel, first);
    WordHasNoSeparator(first, '.');
    WordHasNoSeparator(first, '-');
    TierLabelDotFree(hostLabel, first);
    ReplaceLabel(siteName, relabelled);
    TierLabelTwice(hostLabel, first, second);
    RewriteOfShapedLabel(relabelled + Rest(siteName), second);
  }

  /** An undecorated UI label `org` becomes `org-<target>-acsf`. */
  lemma UndecoratedUiRewrite(siteName: string, org: string, more: string, target: string)
    requires IsWord(org) && siteName == org + "." + more
    ensures SiteToTierSpecific(siteName, target) == Ok(org + "-" + target + "-acsf" + "." + more)
  {
    SiteToTierSpecificMeaning(siteName, target);
    WordHasNoSeparator(org, '.');
    HostOf(org, more);
    UiPatternIsUiLabel(org, "", "");
    WordHasNoSeparator(org, '-');
    SplitPlain(org, '-');
    assert UiTierLabel(org, target) + ("." + more) == org + "-" + target + "-acsf" + "." + more;
  }

  /** A decorated UI label `org-<tier>-acsf` becomes `org-<target>-acsf`,
      whatever tier it named. */
  lemma DecoratedUiRewrite(siteName: string, org: string, tier: string, suffix: string, more: string, target: string)
    requires IsWord(org) && IsWord(tier) && MatchesIgnoreCase(suffix, "acsf")
    requires siteName == org + "-" + tier + "-" + suffix + "." + more
    ensures SiteToTierSpecific(siteName, target) == Ok(org + "-" + target + "-acsf" + "." + more)
  {
    SiteToTierSpecificMeaning(siteName, target);
    var hostLabel := org + "-" + tier + "-" + suffix;
    WordHasNoSeparator(org, '.');
    WordHasNoSeparator(tier, '.');
    LiteralMatchLacks(suffix, "acsf", '.');
    assert siteName == hostLabel + "." + more;
    HostOf(hostLabel, more);
    UiPatternIsUiLabel(org, tier, suffix);
    WordHasNoSeparator(org, '-');
    WordHasNoSeparator(tier, '-');
    LiteralMatchLacks(suffix, "acsf", '-');
    JoinThree(org, tier, suffix, '-');
    assert UiTierLabel(hostLabel, target) + ("." + more) == org + "-" + target + "-acsf" + "." + more;
  }

  /** A production CMS label `org-cms` becomes `org-cms-<target>`. */
  lemma CmsRewrite(siteName: string, org: string, cms: string, more: string, target: string)
    requires IsWord(org) && MatchesIgnoreCase(cms, "cms")
    requires siteName == org + "-" + cms + "." + more
    ensures SiteToTierSpecific(siteName, target) == Ok(org + "-" + cms + "-" + target + "." + more)
  {
    SiteToTierSpecificMeaning(siteName, target);
    var hostLabel := org + "-" + cms;
    WordHasNoSeparator(org, '.');
    WordHasNoSeparator(org, '-');
    LiteralMatchLacks(cms, "cms", '.');
    LiteralMatchLacks(cms, "cms", '-');
    assert siteName == hostLabel + "." + more;
    HostOf(hostLabel, more);
    CmsPatternIsCmsLabel(org, cms, "");
    JoinTwo(org, cms, '-');
    assert CmsTierLabel(hostLabel, target) + ("." + more) == org + "-" + cms + "-" + target + "." + more;
  }

  /** A tiered CMS label `org-cms-<tier>` becomes `org-cms-<target>`, unless
      its tier reads `acsf`, which makes it a UI label. */
  lemma CmsTierRewrite(siteName: string, org: string, cms: string, tier: string, more: string, target: string)
    requires IsWord(org) && MatchesIgnoreCase(cms, "cms") && IsWord(tier) && !MatchesIgnoreCase(tier, "acsf")
    requires siteName == org + "-" + cms + "-" + tier + "." + more
    ensures SiteToTierSpecific(siteName, target) == Ok(org + "-" + cms + "-" + target + "." + more)
  {
    SiteToTierSpecificMeaning(siteName, target);
    var hostLabel := org + "-" + cms + "-" + tier;
    WordHasNoSeparator(org, '.');
    WordHasNoSeparator(org, '-');
    LiteralMatchLacks(cms, "cms", '.');
    LiteralMatchLacks(cms, "cms", '-');
    WordHasNoSeparator(tier, '.');
    WordHasNoSeparator(tier, '-');
    assert siteName == hostLabel + "." + more;
    HostOf(hostLabel, more);
    CmsPatternIsCmsLabel(org, cms, tier);
    JoinThree(org, cms, tier, '-');
    assert CmsTierLabel(hostLabel, target) + ("." + more) == org + "-" + cms + "-" + target + "." + more;
  }

  /** Every `org-cms-acsf` label matches both patterns, so the order of the
      two tests decides how it is rewritten. */
  lemma AcsfCmsLabel(org: string, hostLabel: string)
    requires IsWord(org) && hostLabel == org + "-" + "cms" + "-" + "acsf"
    ensures IsUiLabel(hostLabel) && IsCmsLabel(hostLabel)
  {
    UiPatternIsUiLabel(org, "cms", "acsf");
    CmsPatternIsCmsLabel(org, "cms", "acsf");
  }

  /** A first label of four dash-separated pieces matches neither pattern,
      so it is refused. */
  lemma FourPiecesRejected(siteName: string, hostLabel: string, org: string, a: string, b: string, c: string,
                           more: string, target: string)
    requires '-' !in org && '-' !in a && '-' !in b && '-' !in c
    requires '.' !in hostLabel
    requires hostLabel == org + "-" + (a + "-" + b + "-" + c) && siteName == hostLabel + "." + more
    ensures SiteToTierSpecific(siteName, target) == Err(FormatError(hostLabel))
  {
    HostOf(hostLabel, more);
    SplitAt(org, a + "-" + b + "-" + c, '-');
    JoinThree(a, b, c, '-');
    RejectsLabel(siteName, hostLabel, target);
  }

  /** Labels of neither shape are refused with the format message. */
  lemma RejectsLabel(siteName: string, hostLabel: string, target: string)
    requires Label(siteName) == hostLabel
    requires !IsUiLabel(hostLabel) && !IsCmsLabel(hostLabel)
    ensures SiteToTierSpecific(siteName, target) == Err(FormatError(hostLabel))
  {
    SiteToTierSpecificMeaning(siteName, target);
  }

  /** Prefixing the second label inserts `<target>-` right after the first
      dot. */
  lemma StagingTargetInsert(first: string, more: string, target: string)
    requires '.' !in first
    ensures SFToStagingTarget(first + "." + more, target) == first + "." + target + "-" + more
  {
    HostOf(first, more);
    SplitAt(first, more, '.');
    SFToStagingTargetMeaning(first + "." + more, target);
    assert ("." + more)[1..] == more;
  }
}
