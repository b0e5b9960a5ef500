# Staging-tier domain rewriting and user filtering, in Dafny

This project models two parts of the tools that copy an Acquia Site Factory
production tier into a lower staging tier (`dev`, `test`).

- **`lib/domain-utility.js`** rewrites host names for a target tier:
  - `SFToStagingTarget` turns the factory's management host into the host of
    a staging tier.
  - `SiteToTierSpecific` rewrites a site's domain. It classifies the first
    label as a UI-site label (`org` or `org-<tier>-acsf`) or a CMS-site label
    (`org-cms` or `org-cms-<tier>`) and writes the target tier into the tier
    slot. A label of neither shape throws.
  - `GenerateDestinationDomains` plans, for every site, the primary and
    secondary domains it gets in the target tier. It uses a small precedence
    rule: the first domain is the primary, a UI-shaped primary keeps its place,
    and any other primary is displaced by a new distinct name.
- **`stage-to-lower/lib/user-filter.js`** filters users in two passes. It
  drops users holding a forbidden role. Then, if any role is required, it
  keeps only users holding a required role.

Modules:

| file | module | contents |
|---|---|---|
| `wrappers.dfy` | `Wrappers` | `Option` (JavaScript `null`) and `Result` (a value or a thrown message) |
| `strings.dfy` | `Strings` | `split`/`join` on one separator character, and array-slot assignment |
| `domain_utility.dfy` | `DomainUtility` | the two label patterns as character predicates, `SFToStagingTarget`, `SiteToTierSpecific` |
| `destination_domains.dfy` | `DestinationDomains` | `GenerateDestinationDomains`: a left-fold specification, and the two loops as methods proved equal to it |
| `user_filter.dfy` | `UserFilter` | the filter, its exact characterisation, and a one-pass reference |
| `domain_utility_examples.dfy`, `destination_examples.dfy`, `user_filter_examples.dfy` | `…Examples` | the cases of the repository's test suites, derived from the general lemmas |

The two regular expressions are written out by hand:

- `[a-z][a-z0-9]+` with the `i` flag is `IsWord`: an ASCII letter of either
  case, then at least one ASCII letter or digit.
- A label is split on `-`. `IsUiLabel` accepts the pieces `[word]` or
  `[word, word, acsf]`. `IsCmsLabel` accepts `[word, cms]` or
  `[word, cms, word]`. `acsf` and `cms` match in any case.
- The lemmas `UiLabelHasPatternForm`/`UiPatternIsUiLabel` and
  `CmsLabelHasPatternForm`/`CmsPatternIsCmsLabel` show that these predicates
  accept exactly the strings of the patterns' concatenation forms.

A thrown exception is an `Err` carrying the thrown message. A JavaScript array
slot assigned at its current length grows the array (`SetSlot`).

## Model

| member | source | states |
|---|---|---|
| Strings.Split | lib/domain-utility.js:27 | `split` yields at least one piece |
| Strings.SplitPieces | lib/domain-utility.js:27 | no piece of a split holds the separator, and joining the pieces gives back the string |
| Strings.SplitJoin | lib/domain-utility.js:29 | splitting a join of separator-free pieces gives back those pieces |
| Strings.Join | lib/domain-utility.js:29 | `join` on one separator: no ensures of its own; `SplitJoin` and `SplitPieces` state that it and `Split` undo each other |
| Strings.SetSlot | lib/domain-utility.js:55-56 | assigning slot `i` overwrites it, or appends when `i` is the length; every other slot is kept |
| Strings.JoinFirst | lib/domain-utility.js:68-70 | replacing the first piece of a joined list replaces only the text before the first separator |
| DomainUtility.IsUiLabel | lib/domain-utility.js:6 | the UI-site pattern: no ensures of its own; `UiLabelHasPatternForm` and `UiPatternIsUiLabel` state that it accepts exactly `org` and `org-<tier>-acsf` with word pieces |
| DomainUtility.IsCmsLabel | lib/domain-utility.js:9 | the CMS-site pattern: no ensures of its own; `CmsLabelHasPatternForm` and `CmsPatternIsCmsLabel` state that it accepts exactly `org-cms` and `org-cms-<tier>` with word pieces |
| DomainUtility.Classify | lib/domain-utility.js:50-66 | the branch taken: UI exactly when the UI pattern matches, CMS exactly when the CMS pattern matches and the UI pattern does not |
| DomainUtility.UiLabelHasPatternForm | lib/domain-utility.js:6 | every accepted UI label is `org` or `org-<tier>-acsf` with word pieces |
| DomainUtility.UiPatternIsUiLabel | lib/domain-utility.js:6 | every string of those forms is accepted as a UI label |
| DomainUtility.CmsLabelHasPatternForm | lib/domain-utility.js:9 | every accepted CMS label is `org-cms` or `org-cms-<tier>` with word pieces |
| DomainUtility.CmsPatternIsCmsLabel | lib/domain-utility.js:9 | every string of those forms is accepted as a CMS label |
| DomainUtility.CmsTierIsNotUi | lib/domain-utility.js:6-9 | an `org-cms-<tier>` label also matches the UI pattern exactly when its tier reads `acsf` |
| DomainUtility.AcsfCmsLabel | lib/domain-utility.js:6-9 | every `org-cms-acsf` label with a word `org` matches both patterns |
| DomainUtility.LabelThenRest | lib/domain-utility.js:47-48 | a host is its dot-free first label followed by the rest, which is empty or starts with a dot |
| DomainUtility.ReplaceLabel | lib/domain-utility.js:68-70 | putting a dot-free label in slot 0 and rejoining changes no other label and keeps the label count |
| DomainUtility.SFToStagingTarget | lib/domain-utility.js:26-30 | no ensures of its own; see `SFToStagingTargetMeaning`, `SFToStagingTargetLabels` and `StagingTargetInsert` |
| DomainUtility.SFToStagingTargetMeaning | lib/domain-utility.js:26-30 | with two or more labels, `<target>-` is inserted right after the first dot; with one label, `.<target>-undefined` is appended |
| DomainUtility.SFToStagingTargetLabels | lib/domain-utility.js:26-30 | for a dot-free target, only label 1 changes (to `<target>-<label 1>`) and the label count is kept |
| DomainUtility.StagingTargetInsert | lib/domain-utility.js:26-30 | `first.more` becomes `first.<target>-more` |
| DomainUtility.SiteToTierSpecific | lib/domain-utility.js:46-71 | no ensures of its own; see `SiteToTierSpecificMeaning`, `SiteToTierSpecificLabels` and `RetierStraight` |
| DomainUtility.SiteToTierSpecificMeaning | lib/domain-utility.js:46-71 | success exactly for a first label of UI or CMS shape; a UI label becomes `<org>-<target>-acsf`, a CMS-only label `<org>-cms-<target>`, the rest is kept; otherwise the format message naming the label is thrown |
| DomainUtility.SiteToTierSpecificLabels | lib/domain-utility.js:47-70 | for a dot-free target, only label 0 changes and the number of labels is kept |
| DomainUtility.RewriteOfShapedLabel | lib/domain-utility.js:50-63 | for either shape, the result is the rewritten first label followed by the unchanged rest |
| DomainUtility.TierLabelParts | lib/domain-utility.js:51-62 | the dash pieces of a rewritten label are `[org, target, acsf]` or `[org, cms, target]` |
| DomainUtility.TierLabelDotFree | lib/domain-utility.js:55-62 | a rewritten label holds a dot only if the tier does |
| DomainUtility.TierLabelTwice | lib/domain-utility.js:50-63 | rewriting to a word tier keeps the label's shape (a CMS one only when the tier is not `acsf`), so rewriting again equals rewriting the original |
| DomainUtility.RetierStraight | lib/domain-utility.js:46-71 | rewriting to tier `first` and then to tier `second` equals rewriting straight to `second`, when `first` is a word (and, for a CMS label, not `acsf`) |
| DomainUtility.UndecoratedUiRewrite | lib/domain-utility.js:50-58 | `org.more` becomes `org-<target>-acsf.more` |
| DomainUtility.DecoratedUiRewrite | lib/domain-utility.js:50-58 | `org-<tier>-acsf.more` becomes `org-<target>-acsf.more` |
| DomainUtility.CmsRewrite | lib/domain-utility.js:59-63 | `org-cms.more` becomes `org-cms-<target>.more` |
| DomainUtility.CmsTierRewrite | lib/domain-utility.js:59-63 | `org-cms-<tier>.more` becomes `org-cms-<target>.more` when the tier is not `acsf` |
| DomainUtility.RejectsLabel | lib/domain-utility.js:64-66 | a first label of neither shape throws the format message naming it |
| DomainUtility.FourPiecesRejected | lib/domain-utility.js:50-66 | a first label of four dash-separated pieces matches neither pattern, so the format message naming it is thrown |
| DomainUtilityExamples.WwwToDev | lib/__tests__/domain-utility.js:22-30 | `www.example.com` becomes `www-dev-acsf.example.com` |
| DomainUtilityExamples.SubsiteToDev | lib/__tests__/domain-utility.js:22-30 | `subsite.example.com` becomes `subsite-dev-acsf.example.com` |
| DomainUtilityExamples.DecoratedWwwToTest | lib/__tests__/domain-utility.js:33-42 | `www-prod-acsf.example.com` becomes `www-test-acsf.example.com` |
| DomainUtilityExamples.DecoratedSite2ToTest | lib/__tests__/domain-utility.js:33-42 | `site2-prod-acsf.example.com` becomes `site2-test-acsf.example.com` |
| DomainUtilityExamples.CmsToTest | lib/__tests__/domain-utility.js:45-55 | `www-cms.example.com` becomes `www-cms-test.example.com` |
| DomainUtilityExamples.ProdCmsToTest | lib/__tests__/domain-utility.js:45-55 | `www-cms-prod.example.com` becomes `www-cms-test.example.com` |
| DomainUtilityExamples.DevCmsToTest | lib/__tests__/domain-utility.js:45-55 | `www-cms-dev.example.com` becomes `www-cms-test.example.com` |
| DomainUtilityExamples.TrailingDashRefused | lib/__tests__/domain-utility.js:58-64 | `www-.example.com` throws, for any target |
| DomainUtilityExamples.FourPiecesRefused | lib/__tests__/domain-utility.js:58-64 | `www-cms-test-prod.example.com` throws, for any target |
| DomainUtilityExamples.BothShapes | lib/domain-utility.js:6-9 | `www-cms-acsf` matches both patterns |
| DomainUtilityExamples.UiTestComesFirst | lib/domain-utility.js:50-63 | because the UI test comes first, `www-cms-acsf.example.com` becomes `www-test-acsf.example.com` |
| DomainUtilityExamples.StagingTargetExample | lib/__tests__/domain-utility.js:8-16 | `www.example.acsitefactory.com` becomes `www.dev-example.acsitefactory.com` |
| DestinationDomains.AddNew | lib/domain-utility.js:114-116 | push-if-absent: the old list is a prefix, the result is one longer exactly when the name was absent, membership grows by exactly that name, and no duplicate is introduced |
| DestinationDomains.Place | lib/domain-utility.js:98-125 | one iteration of the per-domain loop: no ensures of its own; see `PlaceKeepsSettled`, `SameDomainTwice`, `UiThenOther` and `OtherThenUi` |
| DestinationDomains.PlaceAll | lib/domain-utility.js:91-126 | the per-domain loop from `primary = null`, `secondary = []`: no ensures of its own; see `PlaceAllMeaning` and `PlaceAllStep` |
| DestinationDomains.PlaceKeepsSettled | lib/domain-utility.js:98-125 | one iteration keeps the loop invariant: no primary exactly when no domain has been seen, no duplicate secondaries, only names seen appear, and every name seen is the primary or a secondary |
| DestinationDomains.PlaceAllMeaning | lib/domain-utility.js:91-126 | the invariant holds from the empty start to the end of the loop |
| DestinationDomains.PlaceAllStep | lib/domain-utility.js:94-126 | placing one more domain is one more loop iteration |
| DestinationDomains.Collect | lib/domain-utility.js:89-96 | a `forEach` or `map` whose callback may throw: no ensures of its own; see `CollectMeaning`, `CollectFirstFailure` and `CollectStopsAtError` |
| DestinationDomains.CollectMeaning | lib/domain-utility.js:89-96 | a run of steps that may throw succeeds exactly when every step does, and then yields every step's value in order |
| DestinationDomains.CollectFirstFailure | lib/domain-utility.js:89-96 | an aborted run carries the error of the first step that threw |
| DestinationDomains.CollectStopsAtError | lib/domain-utility.js:89-96 | steps after a throw are never looked at |
| DestinationDomains.UiPrimaryKept | lib/domain-utility.js:112-117 | once the primary is UI-shaped, no later domain replaces it |
| DestinationDomains.PrimaryIsFirstUi | lib/domain-utility.js:98-125 | with a UI domain present, the first UI domain is the primary and is not among the secondaries |
| DestinationDomains.UiPrimaryNotSecondary | lib/domain-utility.js:109-125 | whenever the final primary is UI-shaped, it is not among the secondaries |
| DestinationDomains.PrimaryIsLastWithoutUi | lib/domain-utility.js:118-125 | with no UI domain, the last domain is the primary |
| DestinationDomains.DistinctDomainsSettle | lib/domain-utility.js:98-125 | for distinct domains, the primary is not a secondary and all the others are secondaries |
| DestinationDomains.PrimaryCanReturnAsSecondary | lib/domain-utility.js:119-124 | for distinct non-UI `a` and `b`, the list `a, b, a` yields primary `a` with secondaries `[a, b]` |
| DestinationDomains.SameDomainTwice | lib/domain-utility.js:104-106 | a repeat of the primary is skipped |
| DestinationDomains.UiThenOther | lib/domain-utility.js:112-117 | a UI primary keeps its place and the newcomer becomes a secondary |
| DestinationDomains.OtherThenUi | lib/domain-utility.js:118-125 | a newcomer displaces a non-UI primary, which becomes a secondary |
| DestinationDomains.SiteAssignment | lib/domain-utility.js:89-134 | one site's record: no ensures of its own; see `SiteAssignmentShape` |
| DestinationDomains.DestinationAssignments | lib/domain-utility.js:87-137 | every site's record, or the first error: no ensures of its own; see `DestinationAssignmentsShape` and `AbortReportsFirstBadDomain` |
| DestinationDomains.SiteAssignmentShape | lib/domain-utility.js:89-134 | a site's record carries its `node_id`; it has no primary exactly when it has no custom domains; its secondaries are distinct; every value is the rewrite of one of its domains; every rewrite is present |
| DestinationDomains.DestinationAssignmentsShape | lib/domain-utility.js:87-137 | the plan succeeds exactly when every custom domain of every site can be rewritten; it then holds one record per site, in order, with that site's ID |
| DestinationDomains.AbortReportsFirstBadDomain | lib/domain-utility.js:89-96 | an aborted plan reports the format message of the first unrecognised domain, in site order and then domain order |
| DestinationDomains.DestinationForSite | lib/domain-utility.js:89-134 | the per-site loop computes exactly the left-fold specification, or the first rewrite error |
| DestinationDomains.GenerateDestinationDomains | lib/domain-utility.js:87-137 | the outer loop computes exactly the specification: every site's record in order, or the first error |
| DestinationExamples.SetsTheNodeId | lib/__tests__/domain-utility.js:70-91 | a site without custom domains gets `{123, null, []}` |
| DestinationExamples.SingleDomain | lib/__tests__/domain-utility.js:95-114 | `[site1.example.com]` plans primary `site1-test-acsf.example.com` and no secondaries |
| DestinationExamples.EquivalentUiDomains | lib/__tests__/domain-utility.js:115-136 | `[site1.example.com, site1-prod-acsf.example.com]` collapses to the single primary `site1-test-acsf.example.com` |
| DestinationExamples.UiAndCmsSites | lib/__tests__/domain-utility.js:137-160 | `[site1.example.com, site1-cms.example.com]` plans primary `site1-test-acsf.example.com` and secondary `site1-cms-test.example.com` |
| DestinationExamples.CmsSitePresentedBeforeUi | lib/__tests__/domain-utility.js:161-184 | the same domains in the other order give the same plan |
| UserFilter.HoldsAnyOf | stage-to-lower/lib/user-filter.js:26 | `Object.values(user.roles).some(role => names.includes(role))`: no ensures of its own; `RoleIdsIgnored` states that only the role names matter |
| UserFilter.Filter | stage-to-lower/lib/user-filter.js:26 | `Array.filter`: no ensures of its own; see `FilterMeaning` and `FilterTwice` |
| UserFilter.FilterMeaning | stage-to-lower/lib/user-filter.js:26-30 | `Array.filter` yields a subsequence holding each accepted element as often as the input does, and nothing else |
| UserFilter.FilterTwice | stage-to-lower/lib/user-filter.js:26-31 | filtering by one test and then another equals filtering by both at once |
| UserFilter.FilterUsers | stage-to-lower/lib/user-filter.js:23-34 | the exported filter: no ensures of its own; see `FilterUsersMeaning` and `FilterUsersIsOnePass` |
| UserFilter.FilterUsersMeaning | stage-to-lower/lib/user-filter.js:23-34 | the result is a subsequence of the input holding exactly the users with no forbidden role and, when any role is required, a required role, each with its multiplicity |
| UserFilter.FilterUsersFirst | stage-to-lower/lib/user-filter.js:26-30 | each user is kept or dropped on its own account, whatever the other users are |
| UserFilter.FilterUsersIsOnePass | stage-to-lower/lib/user-filter.js:23-34 | the two passes equal a single pass with the combined test |
| UserFilter.NoFilteringKeepsAll | stage-to-lower/lib/user-filter.js:23-34 | with no required and no forbidden roles the list comes back unchanged |
| UserFilter.ForbiddenNeverKept | stage-to-lower/lib/user-filter.js:23-31 | a user holding a forbidden role is never returned, even if it also holds a required one |
| UserFilter.RequiredAlwaysHeld | stage-to-lower/lib/user-filter.js:29-31 | when some role is required, every returned user holds one |
| UserFilter.RoleIdsIgnored | stage-to-lower/lib/user-filter.js:26-30 | two users whose roles carry the same names, under any IDs, are kept or dropped alike |
| UserFilter.FullSubsequence | stage-to-lower/lib/user-filter.js:26 | a subsequence as long as its source is the source itself |
| UserFilterExamples.KeepRequiredCriteria | lib/__tests__/user-filter.js:115-133 | requiring `required role` keeps users 1, 3 and 4 |
| UserFilterExamples.ScreenOutForbiddenRoles | lib/__tests__/user-filter.js:135-153 | forbidding `forbidden role` keeps users 1, 4 and 6 |
| UserFilterExamples.KeepRequiredWhileRemovingForbidden | lib/__tests__/user-filter.js:155-172 | both together keep users 1 and 4 |

## Left out

- SiteToTierSpecific, SFToStagingTarget, PlaceAll and Collect have no `ensures` of their own. Their contracts are the lemmas `SiteToTierSpecificMeaning`, `SFToStagingTargetMeaning`, `PlaceAllMeaning` and `CollectMeaning`. Attached to the functions, the contracts would be instantiated at every call inside the planner loops.
- FilterUsers and Filter likewise state their contracts in `FilterUsersMeaning` and `FilterMeaning`.
- GenerateDestinationDomains: the secondaries can contain the primary (`PrimaryCanReturnAsSecondary`). "Primary not among the secondaries" is proved only when the primary is UI-shaped (`PrimaryIsFirstUi`, `UiPrimaryNotSecondary`) or the domains are distinct (`DistinctDomainsSettle`).
- DestinationDomains.DestinationForSite: the loop calls the rewrite before deciding and stops at the first throw. The specification rewrites all domains first and then folds. The two agree because a throw discards the site's local state; the method's `ensures` proves the agreement.
- Regular-expression semantics in general: only the two fixed patterns are modelled, as character predicates. Case-insensitivity covers ASCII letters only, which is all the patterns' classes `[a-z]` and `[a-z0-9]` can match under the `i` flag.
- SFToStagingTarget on a host with no dot: JavaScript reads the missing slot as `undefined` and appends `.<target>-undefined`. The model states this. It models no other `undefined` or non-string input (for example a missing `target`, which the source coerces to the text `undefined`).
- The descriptive fields of a user record (name, mail, dates, status) are passed through untouched and are not modelled. `User` keeps `uid` and `roles`. The default arguments `requiredRoles = []` and `forbiddenRoles = []` are callers passing empty lists.
- A site record's `node_type`, `time` and `protected_domains` are carried or ignored as the source ignores them. A missing `domains` or `custom_domains` is `None`.
- `stage-to-lower/lib/site-factory-client/categories/tasks.js`, `users.js` and `staging.js`, `site-factory-client/v1/categories/domains.js` and `lib/site-factory-client-2/index.js` are not part of this model. They are HTTP wrappers, polling with timers, and client construction.
- `run-backups/index.js`, `run-backups/fast-backup.js` and the top-level `index.js` are not part of this model. They are concurrency, e-mail, clock formatting and filesystem orchestration.
