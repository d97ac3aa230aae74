# Website directory: form schema and record store

This project models the core of a small website-directory app. Each entry
(a `Website`) describes a publisher site: its name, URL, description,
category and status, what it offers (pricing, features, audience, selling
points) and how articles for it must be written (content types, word-count
range, tone, sections, SEO flags, submission guidelines).

The core has three parts.

- **The record types** (`website.dfy`, module `WebsiteTypes`). The status,
  pricing-type and billing-cycle unions become enumerations. Each nested
  object becomes a record. `WebsiteFormData` is a `Website` without its `id`,
  `createdAt` and `updatedAt`: `Website.Form()` drops them and `Stamp` adds
  them back.
- **The form schema** (`validation.dfy`, module `Validation`). A payload is
  checked rule by rule:
  - length bounds on name, description and guidelines;
  - non-empty category;
  - three closed enumerations;
  - six "non-empty list of non-empty texts" fields;
  - two cross-field refinements: a paid offer needs an amount, a currency and
    a billing cycle, and the maximum word count must exceed the minimum.

  `Valid` is the conjunction of the rules. `Issues` lists every broken rule
  as a (path, message) issue, in the order the schema declares its fields.
  `Validate` returns either the typed payload or the issues. Lemmas prove
  three things:
  - the issue list is empty exactly when `Valid` holds;
  - each field's path is reported exactly when that field's rule fails, and carries that rule's own message;
  - the refinements report where the schema designates: `offers.pricing.amount`
    for the paid-offer rule, `articleSpecs.wordCountRange.max` for the range
    rule.
- **The record store** (`store.dfy`, module `Store`, and the seed records in
  `store_seed.dfy`, module `StoreSeed`). `WebsiteStore` is a class whose
  fields are the list of websites, the current website and a loading flag.
  - Its actions add (prepend), update (map over matching ids), delete (filter
    out an id) and get (first match), plus two setters.
  - Each action states its new state exactly and that the fields it does not
    own are unchanged.
  - The list operations are functions with their own lemmas: no-op on an
    absent id, idempotence, lookups after update and delete, and preservation
    of unique ids.
  - The eight seed records are proved to have distinct ids and to satisfy the
    form schema, given their URLs are accepted as URLs.

`wrappers.dfy` holds the `Option` and `Result` types.

## Model

| member | source | states |
|---|---|---|
| WebsiteTypes.Stamp | types/website.ts:1-42 | A record built from form data and metadata has exactly that form data, id and timestamps. |
| WebsiteTypes.FormDataIsWebsiteMinusMeta | types/website.ts:42 | Every website is its form data plus id, createdAt and updatedAt. Nothing else is in a record. |
| Validation.ParseStatus | lib/validation.ts:11 | A status text is accepted iff it is "active", "inactive" or "pending". The parsed value prints back to the same text. |
| Validation.ParsePricingType | lib/validation.ts:16 | A pricing type is accepted iff it is "free", "paid" or "freemium". The parsed value prints back to the same text. |
| Validation.ParseBillingCycle | lib/validation.ts:19 | A billing cycle is accepted iff it is "monthly", "yearly" or "one-time". The parsed value prints back to the same text. |
| Validation.EnumNamesRoundTrip | types/website.ts:7-17 | Every status, pricing type and billing cycle parses back from its own literal. |
| Validation.ParsePricing | lib/validation.ts:14-20 | The pricing object parses iff its type parses and any billing cycle parses. Amount and currency stay optional and are carried over unchanged. |
| Validation.PaidRuleOnParsedPricing | lib/validation.ts:22-27 | On parsed pricing, the refinement with JavaScript truthiness (a zero amount or empty currency counts as missing) agrees with the paid-offer rule. |
| Validation.ElementIssuesEmpty | lib/validation.ts:33 | Element issues are empty iff every element from the given index on is non-empty. |
| Validation.ElementIssues | lib/validation.ts:33 | Every element issue carries the element message, and its path is a single index segment. |
| Validation.ElementReportedAt | lib/validation.ts:33 | Element `i` is reported iff it is in range and empty. |
| Validation.ListIssuesEmpty | lib/validation.ts:33-37 | A list of texts has no issues iff it is a non-empty list of non-empty texts. |
| Validation.ListElementReportedAt | lib/validation.ts:33-37 | A list reports index `i` iff that element exists and is empty. |
| Validation.ListIssues | lib/validation.ts:33-37 | The issues of one list field: the count rule, then one rule per element. It has no contract of its own; `ListIssuesEmpty` and `ListRuleAt` characterise it. |
| Validation.ListRuleAt | lib/validation.ts:33-37 | A list is reported at all iff it breaks the non-empty-list rule. Index `i` is reported iff that element is empty. The count message is present iff the list is empty. The element message is at index `i` iff that element is empty. |
| Validation.PricingIssuesEmpty | lib/validation.ts:14-32 | The pricing object has no issues iff the type parses, any billing cycle parses, and the paid-offer rule holds. |
| Validation.PricingRefinement | lib/validation.ts:21-31 | The paid-offer refinement. It runs only on a parsed pricing object. It has no contract of its own; `PricingRefinementAt` characterises it. |
| Validation.PricingRefinementAt | lib/validation.ts:21-31 | Every issue the refinement raises is the paid-offer message at `amount`, and nothing else. It fires iff both enums parse and the paid-offer rule fails. |
| Validation.PricingCurrencyAt | lib/validation.ts:18-31 | Within pricing, nothing is ever reported at `currency`: a missing currency is reported at `amount`. |
| Validation.CurrencyNeverReported | lib/validation.ts:18-31 | No issue of the whole form is ever reported at `offers.pricing.currency`. |
| Validation.PricingAmountAt | lib/validation.ts:17-31 | Within pricing, `amount` is reported iff the enums parse and the paid-offer rule fails. The paid-offer message is present exactly then. |
| Validation.PricingEnumsAt | lib/validation.ts:16-19 | Within pricing, `type` is reported iff it is not one of its three literals. `billingCycle` is reported iff it is given and is not one of its three literals. Each carries the enumeration message exactly then. |
| Validation.PricingEnumAttribution | lib/validation.ts:16-19 | The same facts at `offers.pricing.type` and `offers.pricing.billingCycle` in the whole form. |
| Validation.UnpaidPricingIgnoresSubfields | lib/validation.ts:16-26 | For free or freemium pricing, the object passes iff any billing cycle given is one of the three literals. Amount and currency are unconstrained. |
| Validation.WordCountRefinement | lib/validation.ts:49-52 | The ordering refinement. It has no contract of its own; `WordCountRuleAt` characterises it. |
| Validation.WordCountIssuesEmpty | lib/validation.ts:44-52 | The word-count range has no issues iff min ≥ 1, max ≥ 1 and max > min. |
| Validation.WordCountRuleAt | lib/validation.ts:44-52 | Within the range, `min` is reported iff min < 1. `max` is reported iff max < 1 or max ≤ min. The ordering message is at `max` iff max ≤ min. |
| Validation.WordCountBoundMessages | lib/validation.ts:46-47 | Within the range, each bound's own message is present at its key iff that bound is below 1. |
| Validation.OffersIssuesEmpty | lib/validation.ts:13-38 | The offers object has no issues iff pricing passes and its three lists are non-empty lists of non-empty texts. |
| Validation.ArticleSpecsIssuesEmpty | lib/validation.ts:40-61 | The article specs have no issues iff their three lists, word-count range and guidelines all pass. The SEO flags are free. |
| Validation.TopLevelMembersEmpty | lib/validation.ts:4-11 | Name, URL, description, category and status each have no issues iff their rule holds. |
| Validation.Issues | lib/validation.ts:3-62 | Every issue of the whole form, in field order. It has no contract of its own; `IssuesEmptyIffValid` and the attribution and message lemmas characterise it. |
| Validation.Valid | lib/validation.ts:3-62 | The schema's rules as one conjunction. It has no contract of its own; `IssuesEmptyIffValid` and `Validate` tie it to the issues. |
| Validation.IssuesEmptyIffValid | lib/validation.ts:3-62 | The whole payload has no issues iff it satisfies every rule of the schema. |
| Validation.FormMemberAt | lib/validation.ts:3-62 | A path under a top-level field is reported iff that field's own issues report it. The same holds for each issue. |
| Validation.OffersAt | lib/validation.ts:13-38 | A path under `offers` is reported iff the offers object reports it. |
| Validation.SpecsAt | lib/validation.ts:40-61 | A path under `articleSpecs` is reported iff the article-specs object reports it. |
| Validation.OffersMemberAt | lib/validation.ts:13-38 | A path under an offers field is reported iff that field's own issues report it. |
| Validation.SpecsMemberAt | lib/validation.ts:40-61 | A path under an article-specs field is reported iff that field's own issues report it. |
| Validation.TopLevelAttribution | lib/validation.ts:4-11 | `name` is reported iff its length is outside 1..100. `url` iff it is not a URL. `description` iff its length is outside 10..1000. `category` iff empty. `status` iff not one of the three literals. |
| Validation.NameMessages | lib/validation.ts:4 | At `name`, the "required" message is present iff the name is empty. The "too long" message is present iff it has more than 100 characters. |
| Validation.DescriptionMessages | lib/validation.ts:6-9 | At `description`, the "too short" message is present iff it has fewer than 10 characters. The "too long" message is present iff it has more than 1000. |
| Validation.UrlCategoryStatusMessages | lib/validation.ts:5-11 | The URL message is present iff the URL is rejected. The category message is present iff the category is empty. The enumeration message naming the received status is present iff the status is not one of its literals. |
| Validation.PaidPricingAttribution | lib/validation.ts:21-31 | `offers.pricing.amount` is reported iff both enums parse and a paid offer lacks a positive amount, a non-empty currency or a billing cycle. It carries the paid-offer message exactly then, whichever part is missing. |
| Validation.FeaturesAttribution | lib/validation.ts:33 | `offers.features` is reported iff it is not a non-empty list of non-empty texts. Its index `i` is reported iff that feature is empty. The "at least one" message is present iff the list is empty. The "cannot be empty" message is at index `i` iff that feature is empty. |
| Validation.AudienceAttribution | lib/validation.ts:34-36 | The same rule, with the same two messages, for `offers.targetAudience` and its entries. |
| Validation.UspAttribution | lib/validation.ts:37 | The same rule, with the same two messages, for `offers.uniqueSellingPoints` and its entries. |
| Validation.ContentTypesAttribution | lib/validation.ts:41-43 | The same rule, with the same two messages, for `articleSpecs.contentTypes` and its entries. |
| Validation.ToneAttribution | lib/validation.ts:53 | The same rule, with the same two messages, for `articleSpecs.toneOfVoice` and its entries. |
| Validation.SectionsAttribution | lib/validation.ts:54 | The same rule, with the same two messages, for `articleSpecs.requiredSections` and its entries. |
| Validation.WordCountAttribution | lib/validation.ts:44-52 | `wordCountRange.min` is reported iff min < 1. `wordCountRange.max` is reported iff max < 1 or max ≤ min. The ordering message sits at `max` iff max ≤ min, so {min: 2000, max: 500} is rejected at `max`. Each bound's own message is present iff that bound is below 1. |
| Validation.GuidelinesAttribution | lib/validation.ts:60 | `submissionGuidelines` is reported, with its message, iff it is shorter than 10 characters. |
| Validation.Normalize | lib/validation.ts:11-16 | The typed payload keeps the status and pricing type the input spelled. |
| Validation.Validate | lib/validation.ts:3-64 | The schema accepts iff the payload is valid. An accepted value prints back to the input. A rejection carries every issue, and that list is never empty. |
| Validation.ValidateTypedRoundTrip | types/website.ts:42 | Typed form data that satisfies the rules is accepted as itself. |
| Validation.Text | lib/validation.ts:4-60 | The wording of each message. It has no contract; the wording is data, not a rule. |
| Validation.NewFormDefaults | app/website/new/page.tsx:24-53 | The blank form the new-record page starts from. It has no contract of its own; `NewFormDefaultsRejected` characterises it. |
| Validation.NewFormDefaultsRejected | app/website/new/page.tsx:24-53 | The blank new-record form is rejected. Name, description, category, guidelines and the empty first entries of the features and tone lists are reported. Status, `offers.pricing.amount` and `articleSpecs.wordCountRange.max` are not. |
| Validation.NewFormDefaultsListsReported | app/website/new/page.tsx:24-53 | In the blank form, the empty first entries of the audience, selling-point, content-type and section lists are reported too. |
| Validation.NewFormDefaultsPricingPasses | app/website/new/page.tsx:24-53 | Nothing at all is reported inside the blank form's pricing object. |
| Validation.NewFormDefaultsWordCountPasses | app/website/new/page.tsx:24-53 | Nothing at all is reported inside the blank form's word-count range. |
| Store.Find | lib/store.ts:362-364 | The lookup is None iff no record has the id. Otherwise it is the first record with that id. |
| Store.Refresh | lib/store.ts:351 | A refreshed record keeps its id and createdAt. With the matching id it takes the new form data and updatedAt = now. Otherwise it is unchanged. |
| Store.UpdateAll | lib/store.ts:349-353 | An update keeps the length, every id and every createdAt. Records with another id are untouched. |
| Store.RemoveId | lib/store.ts:356-360 | A record survives deletion iff it was in the list and has a different id. The list never grows. |
| Store.NewRecord | lib/store.ts:336-341 | A new record is the form data plus the given id, with createdAt and updatedAt both "now". |
| Store.FirstMatchExists | lib/store.ts:363 | If some record has the id, there is a first such record. |
| Store.UpdatedRecord | lib/store.ts:348-354 | An update keeps the length. Records with another id are untouched. A matching record takes all form fields from the input, keeps its id and createdAt, and gets updatedAt = now. |
| Store.UpdateAbsentIsNoop | lib/store.ts:350-352 | Updating an absent id leaves the list exactly as it was. An update never inserts. |
| Store.UpdateIdempotent | lib/store.ts:348-354 | Repeating the same update changes nothing more. |
| Store.FindAfterUpdate | lib/store.ts:348-364 | After an update, looking up the id gives the old first match refreshed with the new data and time, or None if it was absent. |
| Store.UpdateKeepsIds | lib/store.ts:348-354 | An update keeps every id in place, and so keeps ids unique. |
| Store.RemoveAbsentIsNoop | lib/store.ts:356-360 | Deleting an absent id leaves the list unchanged. |
| Store.RemoveIdempotent | lib/store.ts:356-360 | Deleting the same id twice is the same as deleting it once. |
| Store.RemoveAppend | lib/store.ts:356-360 | Deletion distributes over concatenation, so the survivors keep their relative order. |
| Store.RemoveUnique | lib/store.ts:356-360 | With unique ids, deleting the id of position k removes exactly that record and keeps the rest in order. |
| Store.FindAfterRemove | lib/store.ts:356-364 | After deleting an id, it is not found. Every other id is found as before. |
| Store.RemoveKeepsUnique | lib/store.ts:356-360 | Deletion keeps ids unique. |
| Store.AddThenRemove | lib/store.ts:343-360 | Adding a record with a fresh id and deleting that id gives back the original list. |
| StoreSeed.StaticWebsites | lib/store.ts:20-326 | The eight seed records. It has no contract of its own; `SeedIdsUnique` and `SeedRecordsPassSchema` characterise it. |
| Store.NumberedHalvesUnique | lib/store.ts:20-326 | Two lists numbered website-1..4 and website-5..8 have unique ids together. |
| Store.FirstFourNumbered | lib/store.ts:21-167 | The first four seed records are numbered website-1 to website-4. |
| Store.LastFourNumbered | lib/store.ts:168-325 | The last four seed records are numbered website-5 to website-8. |
| Store.SeedIdsUnique | lib/store.ts:20-326 | The eight seed records have pairwise distinct ids. |
| Store.FourPass | lib/store.ts:20-326 | Four records that each pass the schema form a list that passes. |
| Store.AllPassAppend | lib/store.ts:20-326 | Two lists that pass the schema pass when joined. |
| Store.SeedRecordsPassSchema | lib/store.ts:20-326 | Every seed record's form data satisfies the schema whenever its URL is accepted as a URL. |
| Store.TechCrunchPasses | lib/store.ts:21-52 | The first seed record satisfies the schema (given its URL is accepted). |
| Store.ShopifyPasses | lib/store.ts:53-93 | The second seed record satisfies the schema (given its URL is accepted). |
| Store.NotionPasses | lib/store.ts:94-130 | The third seed record satisfies the schema (given its URL is accepted). |
| Store.DribbblePasses | lib/store.ts:131-167 | The fourth seed record satisfies the schema (given its URL is accepted). |
| Store.MediumPasses | lib/store.ts:168-204 | The fifth seed record satisfies the schema (given its URL is accepted). |
| Store.StripePasses | lib/store.ts:205-245 | The sixth seed record satisfies the schema (given its URL is accepted). |
| Store.BehancePasses | lib/store.ts:246-288 | The seventh seed record satisfies the schema (given its URL is accepted). |
| Store.GitHubPasses | lib/store.ts:289-325 | The eighth seed record satisfies the schema (given its URL is accepted). |
| Store.WebsiteStore.constructor | lib/store.ts:331-333 | A new store holds the seed records, no current website, and is not loading. |
| Store.WebsiteStore.AddWebsite | lib/store.ts:335-346 | The list becomes the new record followed by the old list, which keeps its order. Looking up the new id then finds the new record. With a fresh id, ids stay unique. The other fields are unchanged. |
| Store.WebsiteStore.UpdateWebsite | lib/store.ts:348-354 | The list becomes the refreshed map of the old list. It is unchanged when the id is absent. Ids stay unique. The other fields are unchanged. |
| Store.WebsiteStore.DeleteWebsite | lib/store.ts:356-360 | The list becomes the old list without the id, and the id is then absent. Ids stay unique. The other fields are unchanged. |
| Store.WebsiteStore.GetWebsite | lib/store.ts:362-364 | It returns the first record with the id, or None, and changes no state. |
| Store.WebsiteStore.SetCurrentWebsite | lib/store.ts:366-368 | Only the current website changes. |
| Store.WebsiteStore.SetLoading | lib/store.ts:370-372 | Only the loading flag changes. |

## Left out

- Persistence: the store is wrapped in a middleware that saves it to browser storage under the key "website-store" (lib/store.ts:329, 374-376). That is I/O and is not modelled.
- Clock and ids: `Date.now()` and `new Date().toISOString()` become the parameters `id` and `now`. One `now` serves both `createdAt` and `updatedAt` of a new record, though the source reads the clock twice. An update likewise gives every matching record the same `now`. The source reads the clock once per matching record, so with duplicate ids its stamps may differ.
- Store.WebsiteStore.AddWebsite: the generated id is not guaranteed fresh, so unique ids are promised only when the caller's id is fresh.
- URL syntax: the `url` rule delegates to the host URL parser. It is the parameter `isUrl`, and every result holds for any such predicate.
- Numbers: amounts and word counts are `real`. NaN, infinities, floating-point rounding and the conversion of form text to numbers are not modelled.
- Shape errors: a field of the wrong type or a missing required key is excluded by the typed input. The model keeps the three enumerations as text, because those are the fields the schema checks by value.
- Text length: lengths count Dafny characters. The source counts UTF-16 code units, which differ only for characters outside the Basic Multilingual Plane.
- Issue order: issues follow the schema's declaration order. A failed enumeration inside `pricing` stops that object, so its refinement does not run. No other ordering detail of the validation library is modelled.
- Message wording: `Text` gives each message's wording. The enumeration message is the validation library's default wording in its version 3 releases. Nothing in the repository pins that version, so this wording is assumed. The library's issue codes and extra issue fields are not modelled.
- Length messages: the name limit is stated as the code enforces it (at most 100 characters accepted). The message says "less than 100", and the description message says "less than 1000" while 1000 is accepted.
- Paid offers: the refinement needs a non-empty currency (JavaScript truthiness), not merely a present one. A zero amount also counts as missing.
- The list-editing form sections, the listing page (columns, badges, counters, percentage) and the new and edit pages' submit flow are user interface and are not part of this model. The new-record page's default values appear only as a fixture (`Validation.NewFormDefaults`).
- Seed texts: the long texts of the eight seed records are written as concatenations of short pieces. They have the same values as the source's literals.
