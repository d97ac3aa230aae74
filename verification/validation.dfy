/**
 * The form schema (lib/validation.ts): a declarative rule set over the form
 * payload that either accepts it, yielding the typed WebsiteFormData, or
 * reports every violation as an issue with a field path and a message.
 *
 * The schema receives what the form controls hold. Enum-valued members
 * (status, pricing type, billing cycle) arrive as strings and are parsed here;
 * all other members already have their declared types. Issues are collected
 * the way an object schema does it: each member schema reports paths relative
 * to itself, and the enclosing object prefixes the member's key.
 */
module Validation {
  import opened Wrappers
  import opened WebsiteTypes

  /** One step of a field path: an object key or an array index. */
  datatype Segment = Key(key: string) | Index(index: nat)

  type Path = seq<Segment>

  /** One violation: the field it is reported against and the message shown there. */
  datatype Issue = Issue(path: Path, message: Message)

  datatype PricingInput = PricingInput(
    kind: string,
    amount: Option<real>,
    currency: Option<string>,
    billingCycle: Option<string>)

  datatype OffersInput = OffersInput(
    pricing: PricingInput,
    features: seq<string>,
    targetAudience: seq<string>,
    uniqueSellingPoints: seq<string>)

  /** The form payload before parsing. */
  datatype FormInput = FormInput(
    name: string,
    url: string,
    description: string,
    category: string,
    status: string,
    offers: OffersInput,
    articleSpecs: ArticleSpecs)

  /** The message of an issue; `Text` gives its wording. */
  datatype Message =
    | NameRequired
    | NameTooLong
    | InvalidUrl
    | DescriptionTooShort
    | DescriptionTooLong
    | CategoryRequired
    | InvalidEnum(options: seq<string>, received: string)
    | PaidPricingIncomplete
    | FeatureEmpty
    | FeaturesRequired
    | AudienceEmpty
    | AudienceRequired
    | UspEmpty
    | UspRequired
    | ContentTypeEmpty
    | ContentTypesRequired
    | MinWordsTooSmall
    | MaxWordsTooSmall
    | RangeInverted
    | ToneEmpty
    | TonesRequired
    | SectionEmpty
    | SectionsRequired
    | GuidelinesTooShort

  const StatusNames := ["active", "inactive", "pending"]
  const PricingTypeNames := ["free", "paid", "freemium"]
  const BillingCycleNames := ["monthly", "yearly", "one-time"]

  /** The options of an enumeration, each in single quotes, separated by " | ". */
  function JoinQuoted(options: seq<string>): string
  {
    if options == [] then ""
    else if |options| == 1 then "'" + options[0] + "'"
    else "'" + options[0] + "' | " + JoinQuoted(options[1..])
  }

  /** Each message as the schema words it; an enum failure uses the validation library's default wording. */
  function Text(m: Message): string
  {
    match m
    case NameRequired => "Website name is required"
    case NameTooLong => "Name must be less than 100 characters"
    case InvalidUrl => "Please enter a valid URL"
    case DescriptionTooShort => "Description must be at least 10 characters"
    case DescriptionTooLong => "Description must be less than 1000 characters"
    case CategoryRequired => "Category is required"
    case InvalidEnum(options, received) =>
      "Invalid enum value. Expected " + JoinQuoted(options) + ", received '" + received + "'"
    case PaidPricingIncomplete => "Paid pricing requires amount, currency, and billing cycle"
    case FeatureEmpty => "Feature cannot be empty"
    case FeaturesRequired => "At least one feature is required"
    case AudienceEmpty => "Audience cannot be empty"
    case AudienceRequired => "At least one target audience is required"
    case UspEmpty => "USP cannot be empty"
    case UspRequired => "At least one USP is required"
    case ContentTypeEmpty => "Content type cannot be empty"
    case ContentTypesRequired => "At least one content type is required"
    case MinWordsTooSmall => "Minimum word count must be at least 1"
    case MaxWordsTooSmall => "Maximum word count must be at least 1"
    case RangeInverted => "Maximum word count must be greater than minimum"
    case ToneEmpty => "Tone cannot be empty"
    case TonesRequired => "At least one tone is required"
    case SectionEmpty => "Section cannot be empty"
    case SectionsRequired => "At least one section is required"
    case GuidelinesTooShort => "Guidelines must be at least 10 characters"
  }

  const AmountPath: Path := [Key("offers"), Key("pricing"), Key("amount")]
  const MinPath: Path := [Key("articleSpecs"), Key("wordCountRange"), Key("min")]
  const MaxPath: Path := [Key("articleSpecs"), Key("wordCountRange"), Key("max")]
  const CurrencyPath: Path := [Key("offers"), Key("pricing"), Key("currency")]
  const TypePath: Path := [Key("offers"), Key("pricing"), Key("type")]
  const BillingCyclePath: Path := [Key("offers"), Key("pricing"), Key("billingCycle")]

  /* ---------------------------------------------------------------------
   * Enumerations
   * ------------------------------------------------------------------- */

  function ParseStatus(s: string): (r: Option<Status>)
    ensures r.Some? <==> StatusOk(s)
    ensures r.Some? ==> StatusName(r.value) == s
  {
    if s == "active" then Some(Active)
    else if s == "inactive" then Some(Inactive)
    else if s == "pending" then Some(Pending)
    else None
  }

  function ParsePricingType(s: string): (r: Option<PricingType>)
    ensures r.Some? <==> PricingTypeOk(s)
    ensures r.Some? ==> PricingTypeName(r.value) == s
  {
    if s == "free" then Some(Free)
    else if s == "paid" then Some(Paid)
    else if s == "freemium" then Some(Freemium)
    else None
  }

  function ParseBillingCycle(s: string): (r: Option<BillingCycle>)
    ensures r.Some? <==> BillingCycleOk(s)
    ensures r.Some? ==> BillingCycleName(r.value) == s
  {
    if s == "monthly" then Some(Monthly)
    else if s == "yearly" then Some(Yearly)
    else if s == "one-time" then Some(OneTime)
    else None
  }

  /** Every enumeration value is written as a literal that parses back to it. */
  lemma EnumNamesRoundTrip(s: Status, t: PricingType, c: BillingCycle)
    ensures ParseStatus(StatusName(s)) == Some(s)
    ensures ParsePricingType(PricingTypeName(t)) == Some(t)
    ensures ParseBillingCycle(BillingCycleName(c)) == Some(c)
  {
  }

  /* ---------------------------------------------------------------------
   * Issue reporting
   * ------------------------------------------------------------------- */

  /** Some issue is reported at path `p` or at a path below it. */
  predicate ReportedAt(issues: seq<Issue>, p: Path)
  {
    exists e :: e in issues && p <= e.path
  }

  /** A member schema's issues as its enclosing object reports them, under the member's key. */
  function Nest(key: string, issues: seq<Issue>): seq<Issue>
  {
    seq(|issues|, i requires 0 <= i < |issues| => Issue([Key(key)] + issues[i].path, issues[i].message))
  }

  /** An object schema's issues: those of each member, in declaration order, under its key. */
  function ObjectIssues(members: seq<(string, seq<Issue>)>): seq<Issue>
  {
    if members == [] then [] else Nest(members[0].0, members[0].1) + ObjectIssues(members[1..])
  }

  predicate DistinctKeys(members: seq<(string, seq<Issue>)>)
  {
    forall i, j :: 0 <= i < j < |members| ==> members[i].0 != members[j].0
  }

  lemma ConsPrefix(s: Segment, p: Path, t: Segment, q: Path)
    ensures [s] + p <= [t] + q <==> s == t && p <= q
  {
    if [s] + p <= [t] + q {
      assert ([s] + p)[0] == ([t] + q)[0];
      assert p == ([s] + p)[1..] && q == ([t] + q)[1..];
    }
  }

  /** A nested issue lies under `key'` exactly when its member is `key'`. */
  lemma NestReportedAt(key: string, issues: seq<Issue>, key': string, p: Path, m: Message)
    ensures ReportedAt(Nest(key, issues), [Key(key')] + p) <==> key == key' && ReportedAt(issues, p)
    ensures Issue([Key(key')] + p, m) in Nest(key, issues) <==> key == key' && Issue(p, m) in issues
  {
    var n := Nest(key, issues);
    if ReportedAt(n, [Key(key')] + p) {
      var e :| e in n && [Key(key')] + p <= e.path;
      var i :| 0 <= i < |n| && n[i] == e;
      ConsPrefix(Key(key'), p, Key(key), issues[i].path);
      assert issues[i] in issues;
    }
    if key == key' && ReportedAt(issues, p) {
      var e :| e in issues && p <= e.path;
      var i :| 0 <= i < |issues| && issues[i] == e;
      ConsPrefix(Key(key'), p, Key(key), e.path);
      assert n[i] in n;
    }
    if Issue([Key(key')] + p, m) in n {
      var i :| 0 <= i < |n| && n[i] == Issue([Key(key')] + p, m);
      assert [Key(key')] + p == [Key(key)] + issues[i].path;
      ConsPrefix(Key(key'), p, Key(key), issues[i].path);
      assert issues[i] == Issue(p, m);
    }
    if key == key' && Issue(p, m) in issues {
      var i :| 0 <= i < |issues| && issues[i] == Issue(p, m);
      assert n[i] == Issue([Key(key')] + p, m);
    }
  }

  /** An object reports nothing exactly when none of its members does. */
  lemma {:induction false} ObjectIssuesEmpty(members: seq<(string, seq<Issue>)>)
    ensures ObjectIssues(members) == [] <==> forall i :: 0 <= i < |members| ==> members[i].1 == []
  {
    if members != [] {
      ObjectIssuesEmpty(members[1..]);
      assert forall i :: 1 <= i < |members| ==> members[i] == members[1..][i - 1];
    }
  }

  /** What is reported under a path is what either part of a concatenation reports there. */
  lemma ReportedAtAppend(a: seq<Issue>, b: seq<Issue>, p: Path)
    ensures ReportedAt(a + b, p) <==> ReportedAt(a, p) || ReportedAt(b, p)
  {
    if ReportedAt(a + b, p) {
      var e :| e in a + b && p <= e.path;
    }
    if ReportedAt(a, p) {
      var e :| e in a && p <= e.path;
      assert e in a + b;
    }
    if ReportedAt(b, p) {
      var e :| e in b && p <= e.path;
      assert e in a + b;
    }
  }

  /** Every path lies below the empty path. */
  lemma ReportedAtRoot(issues: seq<Issue>)
    ensures ReportedAt(issues, []) <==> issues != []
  {
    if issues != [] {
      assert issues[0] in issues;
    }
  }

  /** A single issue lies under every prefix of its own path and under nothing else. */
  lemma SingleReportedAt(path: Path, message: Message, p: Path)
    ensures ReportedAt([Issue(path, message)], p) <==> p <= path
  {
    if p <= path {
      assert Issue(path, message) in [Issue(path, message)];
    }
  }

  /** An object reports nothing under a key none of its members has. */
  lemma {:induction false} ObjectAbsent(members: seq<(string, seq<Issue>)>, key: string, p: Path, m: Message)
    requires forall i :: 0 <= i < |members| ==> members[i].0 != key
    ensures !ReportedAt(ObjectIssues(members), [Key(key)] + p)
    ensures Issue([Key(key)] + p, m) !in ObjectIssues(members)
  {
    if members != [] {
      var rest := members[1..];
      assert forall i :: 0 <= i < |rest| ==> rest[i] == members[i + 1];
      ObjectAbsent(rest, key, p, m);
      NestReportedAt(members[0].0, members[0].1, key, p, m);
      ReportedAtAppend(Nest(members[0].0, members[0].1), ObjectIssues(rest), [Key(key)] + p);
    }
  }

  /** What an object reports under one member's key is what that member reports. */
  lemma {:induction false} ObjectReportedAt(members: seq<(string, seq<Issue>)>, i: nat, p: Path, m: Message)
    requires i < |members| && DistinctKeys(members)
    ensures ReportedAt(ObjectIssues(members), [Key(members[i].0)] + p) <==> ReportedAt(members[i].1, p)
    ensures Issue([Key(members[i].0)] + p, m) in ObjectIssues(members) <==> Issue(p, m) in members[i].1
  {
    var key := members[i].0;
    var rest := members[1..];
    assert forall j :: 0 <= j < |rest| ==> rest[j] == members[j + 1];
    NestReportedAt(members[0].0, members[0].1, key, p, m);
    ReportedAtAppend(Nest(members[0].0, members[0].1), ObjectIssues(rest), [Key(key)] + p);
    if i == 0 {
      ObjectAbsent(rest, key, p, m);
    } else {
      assert DistinctKeys(rest);
      ObjectReportedAt(rest, i - 1, p, m);
    }
  }

  /* ---------------------------------------------------------------------
   * Member rules
   * ------------------------------------------------------------------- */

  function MinLength(s: string, n: nat, message: Message): seq<Issue>
  {
    if |s| < n then [Issue([], message)] else []
  }

  function MaxLength(s: string, n: nat, message: Message): seq<Issue>
  {
    if |s| > n then [Issue([], message)] else []
  }

  function MinValue(x: real, n: real, message: Message): seq<Issue>
  {
    if x < n then [Issue([], message)] else []
  }

  /** One issue, at the element's index, for every empty string from index `from` on. */
  function ElementIssues(xs: seq<string>, message: Message, from: nat): (r: seq<Issue>)
    ensures forall e :: e in r ==> e.message == message && |e.path| == 1 && e.path[0].Index?
    decreases |xs| - from
  {
    if from >= |xs| then []
    else (if xs[from] == "" then [Issue([Index(from)], message)] else []) + ElementIssues(xs, message, from + 1)
  }

  /** A non-empty array of non-empty strings: the count rule first, then one rule per element. */
  function ListIssues(xs: seq<string>, elementMessage: Message, listMessage: Message): seq<Issue>
  {
    (if |xs| < 1 then [Issue([], listMessage)] else []) + ElementIssues(xs, elementMessage, 0)
  }

  function NameIssues(s: string): seq<Issue>
  {
    MinLength(s, 1, NameRequired) + MaxLength(s, 100, NameTooLong)
  }

  /** `isUrl` stands for the URL parser the schema delegates to. */
  function UrlIssues(s: string, isUrl: string -> bool): seq<Issue>
  {
    if isUrl(s) then [] else [Issue([], InvalidUrl)]
  }

  function DescriptionIssues(s: string): seq<Issue>
  {
    MinLength(s, 10, DescriptionTooShort) + MaxLength(s, 1000, DescriptionTooLong)
  }

  function StatusIssues(s: string): seq<Issue>
  {
    if ParseStatus(s).Some? then [] else [Issue([], InvalidEnum(StatusNames, s))]
  }

  function PricingTypeIssues(s: string): seq<Issue>
  {
    if ParsePricingType(s).Some? then [] else [Issue([], InvalidEnum(PricingTypeNames, s))]
  }

  function BillingCycleIssues(c: Option<string>): seq<Issue>
  {
    match c
    case None => []
    case Some(s) => if ParseBillingCycle(s).Some? then [] else [Issue([], InvalidEnum(BillingCycleNames, s))]
  }

  /** The pricing object parsed to its typed form; None when an enum member does not parse. */
  function ParsePricing(p: PricingInput): (r: Option<Pricing>)
    ensures r.Some? <==> ParsePricingType(p.kind).Some? && (p.billingCycle.Some? ==> ParseBillingCycle(p.billingCycle.value).Some?)
    ensures r.Some? ==> PricingTypeName(r.value.kind) == p.kind
    ensures r.Some? ==> r.value.amount == p.amount && r.value.currency == p.currency
    ensures r.Some? ==> (r.value.billingCycle.Some? <==> p.billingCycle.Some?)
    ensures r.Some? && p.billingCycle.Some? ==> BillingCycleName(r.value.billingCycle.value) == p.billingCycle.value
  {
    match ParsePricingType(p.kind)
    case None => None
    case Some(t) =>
      match p.billingCycle
      case None => Some(Pricing(t, p.amount, p.currency, None))
      case Some(s) =>
        match ParseBillingCycle(s)
        case None => None
        case Some(c) => Some(Pricing(t, p.amount, p.currency, Some(c)))
  }

  /**
   * The cross-field check on pricing, with JavaScript truthiness spelled out:
   * an amount of 0 and an empty currency count as missing. It reads the parsed
   * object, as the refinement does; `PaidRuleOk` states the same rule on the
   * raw payload for `Valid`, and `PaidRuleOnParsedPricing` shows the two agree.
   */
  predicate PaidPricingComplete(p: Pricing)
  {
    p.kind == Paid ==>
      p.amount.Some? && p.amount.value > 0.0 &&
      p.currency.Some? && p.currency.value != "" &&
      p.billingCycle.Some?
  }

  function PricingMembers(p: PricingInput): seq<(string, seq<Issue>)>
  {
    [("type", PricingTypeIssues(p.kind)),
     ("amount", []),
     ("currency", []),
     ("billingCycle", BillingCycleIssues(p.billingCycle))]
  }

  /** The paid-pricing refinement, reported against `amount`; it does not run on an aborted object. */
  function PricingRefinement(p: PricingInput): seq<Issue>
  {
    match ParsePricing(p)
    case None => []
    case Some(pr) => if PaidPricingComplete(pr) then [] else [Issue([Key("amount")], PaidPricingIncomplete)]
  }

  /**
   * The pricing object's own issues, then its refinement. A member that fails
   * its enum aborts the object, and the refinement is then not run.
   */
  function PricingIssues(p: PricingInput): seq<Issue>
  {
    ObjectIssues(PricingMembers(p)) + PricingRefinement(p)
  }

  function OffersMembers(o: OffersInput): seq<(string, seq<Issue>)>
  {
    [("pricing", PricingIssues(o.pricing)),
     ("features", ListIssues(o.features, FeatureEmpty, FeaturesRequired)),
     ("targetAudience", ListIssues(o.targetAudience, AudienceEmpty, AudienceRequired)),
     ("uniqueSellingPoints", ListIssues(o.uniqueSellingPoints, UspEmpty, UspRequired))]
  }

  function WordCountMembers(r: WordCountRange): seq<(string, seq<Issue>)>
  {
    [("min", MinValue(r.min, 1.0, MinWordsTooSmall)),
     ("max", MinValue(r.max, 1.0, MaxWordsTooSmall))]
  }

  /** The ordering refinement, reported against `max`. */
  function WordCountRefinement(r: WordCountRange): seq<Issue>
  {
    if r.max > r.min then [] else [Issue([Key("max")], RangeInverted)]
  }

  /** A bound below 1 leaves the object dirty but not aborted, so the refinement still runs. */
  function WordCountIssues(r: WordCountRange): seq<Issue>
  {
    ObjectIssues(WordCountMembers(r)) + WordCountRefinement(r)
  }

  function ArticleSpecsMembers(a: ArticleSpecs): seq<(string, seq<Issue>)>
  {
    [("contentTypes", ListIssues(a.contentTypes, ContentTypeEmpty, ContentTypesRequired)),
     ("wordCountRange", WordCountIssues(a.wordCountRange)),
     ("toneOfVoice", ListIssues(a.toneOfVoice, ToneEmpty, TonesRequired)),
     ("requiredSections", ListIssues(a.requiredSections, SectionEmpty, SectionsRequired)),
     ("seoRequirements", []),
     ("submissionGuidelines", MinLength(a.submissionGuidelines, 10, GuidelinesTooShort))]
  }

  function FormMembers(input: FormInput, isUrl: string -> bool): seq<(string, seq<Issue>)>
  {
    [("name", NameIssues(input.name)),
     ("url", UrlIssues(input.url, isUrl)),
     ("description", DescriptionIssues(input.description)),
     ("category", MinLength(input.category, 1, CategoryRequired)),
     ("status", StatusIssues(input.status)),
     ("offers", ObjectIssues(OffersMembers(input.offers))),
     ("articleSpecs", ObjectIssues(ArticleSpecsMembers(input.articleSpecs)))]
  }

  /** Every violation of the schema, each with the path of the field it is reported against. */
  function Issues(input: FormInput, isUrl: string -> bool): seq<Issue>
  {
    ObjectIssues(FormMembers(input, isUrl))
  }

  /* ---------------------------------------------------------------------
   * What the schema accepts, rule by rule
   * ------------------------------------------------------------------- */

  predicate NameOk(s: string) { 1 <= |s| <= 100 }

  predicate DescriptionOk(s: string) { 10 <= |s| <= 1000 }

  predicate CategoryOk(s: string) { s != "" }

  predicate StatusOk(s: string) { s in StatusNames }

  predicate PricingTypeOk(s: string) { s in PricingTypeNames }

  predicate BillingCycleOk(s: string) { s in BillingCycleNames }

  /**
   * Paid pricing needs a positive amount, a non-empty currency and a billing
   * cycle. Stated on the raw payload so that `Valid` does not depend on how the
   * issues are computed; see `PaidPricingComplete` for the parsed form.
   */
  predicate PaidRuleOk(p: PricingInput)
  {
    p.kind == "paid" ==>
      p.amount.Some? && p.amount.value > 0.0 &&
      p.currency.Some? && p.currency.value != "" &&
      p.billingCycle.Some?
  }

  predicate PricingOk(p: PricingInput)
  {
    && PricingTypeOk(p.kind)
    && (p.billingCycle.Some? ==> BillingCycleOk(p.billingCycle.value))
    && PaidRuleOk(p)
  }

  /** A non-empty list of non-empty strings. */
  predicate NonEmptyStrings(xs: seq<string>)
  {
    |xs| >= 1 && forall i :: 0 <= i < |xs| ==> xs[i] != ""
  }

  predicate WordCountOk(r: WordCountRange)
  {
    r.min >= 1.0 && r.max >= 1.0 && r.max > r.min
  }

  predicate GuidelinesOk(s: string) { |s| >= 10 }

  predicate OffersOk(o: OffersInput)
  {
    && PricingOk(o.pricing)
    && NonEmptyStrings(o.features)
    && NonEmptyStrings(o.targetAudience)
    && NonEmptyStrings(o.uniqueSellingPoints)
  }

  /** The three SEO flags are free: no rule mentions them. */
  predicate ArticleSpecsOk(a: ArticleSpecs)
  {
    && NonEmptyStrings(a.contentTypes)
    && WordCountOk(a.wordCountRange)
    && NonEmptyStrings(a.toneOfVoice)
    && NonEmptyStrings(a.requiredSections)
    && GuidelinesOk(a.submissionGuidelines)
  }

  /** The schema's acceptance condition as the conjunction of its rules. */
  predicate Valid(input: FormInput, isUrl: string -> bool)
  {
    && NameOk(input.name)
    && isUrl(input.url)
    && DescriptionOk(input.description)
    && CategoryOk(input.category)
    && StatusOk(input.status)
    && OffersOk(input.offers)
    && ArticleSpecsOk(input.articleSpecs)
  }

  /* ---------------------------------------------------------------------
   * The rules and the issues agree
   * ------------------------------------------------------------------- */

  lemma {:induction false} ElementIssuesEmpty(xs: seq<string>, message: Message, from: nat)
    ensures ElementIssues(xs, message, from) == [] <==> forall i :: from <= i < |xs| ==> xs[i] != ""
    decreases |xs| - from
  {
    if from < |xs| {
      ElementIssuesEmpty(xs, message, from + 1);
    }
  }

  /** An issue is reported at index `i` exactly when element `i` is empty, and nowhere but at an index. */
  lemma {:induction false} ElementReportedAt(xs: seq<string>, message: Message, from: nat, i: nat)
    ensures ReportedAt(ElementIssues(xs, message, from), [Index(i)]) <==> from <= i < |xs| && xs[i] == ""
    decreases |xs| - from
  {
    if from < |xs| {
      ElementReportedAt(xs, message, from + 1, i);
      var head := if xs[from] == "" then [Issue([Index(from)], message)] else [];
      var rest := ElementIssues(xs, message, from + 1);
      assert ElementIssues(xs, message, from) == head + rest;
      ReportedAtAppend(head, rest, [Index(i)]);
      if head != [] {
        SingleReportedAt([Index(from)], message, [Index(i)]);
        assert [Index(i)] <= [Index(from)] <==> i == from by {
          if [Index(i)] <= [Index(from)] {
            assert [Index(from)][0] == Index(i);
          }
        }
      }
    }
  }

  lemma ListIssuesEmpty(xs: seq<string>, elementMessage: Message, listMessage: Message)
    ensures ListIssues(xs, elementMessage, listMessage) == [] <==> NonEmptyStrings(xs)
  {
    ElementIssuesEmpty(xs, elementMessage, 0);
  }

  /** In a list rule, index `i` is reported exactly when element `i` is the empty string. */
  lemma ListElementReportedAt(xs: seq<string>, elementMessage: Message, listMessage: Message, i: nat)
    ensures ReportedAt(ListIssues(xs, elementMessage, listMessage), [Index(i)]) <==> i < |xs| && xs[i] == ""
  {
    ElementReportedAt(xs, elementMessage, 0, i);
    var count := if |xs| < 1 then [Issue([], listMessage)] else [];
    var all := ListIssues(xs, elementMessage, listMessage);
    ReportedAtAppend(count, ElementIssues(xs, elementMessage, 0), [Index(i)]);
    assert !ReportedAt(count, [Index(i)]);
  }

  lemma PricingIssuesEmpty(p: PricingInput)
    ensures PricingIssues(p) == [] <==> PricingOk(p)
  {
    var ms := PricingMembers(p);
    ObjectIssuesEmpty(ms);
    assert (forall i :: 0 <= i < |ms| ==> ms[i].1 == []) <==> ms[0].1 == [] && ms[3].1 == [];
    assert ObjectIssues(ms) == [] <==> ParsePricing(p).Some?;
    if ParsePricing(p).Some? {
      PaidRuleOnParsedPricing(p);
    }
  }

  lemma WordCountIssuesEmpty(r: WordCountRange)
    ensures WordCountIssues(r) == [] <==> WordCountOk(r)
  {
    var ms := WordCountMembers(r);
    ObjectIssuesEmpty(ms);
    assert (forall i :: 0 <= i < |ms| ==> ms[i].1 == []) <==> ms[0].1 == [] && ms[1].1 == [];
  }

  lemma OffersIssuesEmpty(o: OffersInput)
    ensures ObjectIssues(OffersMembers(o)) == [] <==> OffersOk(o)
  {
    var ms := OffersMembers(o);
    ObjectIssuesEmpty(ms);
    PricingIssuesEmpty(o.pricing);
    ListIssuesEmpty(o.features, FeatureEmpty, FeaturesRequired);
    ListIssuesEmpty(o.targetAudience, AudienceEmpty, AudienceRequired);
    ListIssuesEmpty(o.uniqueSellingPoints, UspEmpty, UspRequired);
    assert (forall i :: 0 <= i < |ms| ==> ms[i].1 == []) <==>
      ms[0].1 == [] && ms[1].1 == [] && ms[2].1 == [] && ms[3].1 == [];
  }

  lemma ArticleSpecsIssuesEmpty(a: ArticleSpecs)
    ensures ObjectIssues(ArticleSpecsMembers(a)) == [] <==> ArticleSpecsOk(a)
  {
    var ms := ArticleSpecsMembers(a);
    ObjectIssuesEmpty(ms);
    ListIssuesEmpty(a.contentTypes, ContentTypeEmpty, ContentTypesRequired);
    WordCountIssuesEmpty(a.wordCountRange);
    ListIssuesEmpty(a.toneOfVoice, ToneEmpty, TonesRequired);
    ListIssuesEmpty(a.requiredSections, SectionEmpty, SectionsRequired);
    assert (forall i :: 0 <= i < |ms| ==> ms[i].1 == []) <==>
      ms[0].1 == [] && ms[1].1 == [] && ms[2].1 == [] && ms[3].1 == [] && ms[5].1 == [];
  }

  /** ObjectIssuesEmpty spelled out for an object of seven members, such as the whole form. */
  lemma SevenMembersEmpty(ms: seq<(string, seq<Issue>)>)
    requires |ms| == 7
    ensures ObjectIssues(ms) == [] <==>
      ms[0].1 == [] && ms[1].1 == [] && ms[2].1 == [] && ms[3].1 == [] &&
      ms[4].1 == [] && ms[5].1 == [] && ms[6].1 == []
  {
    ObjectIssuesEmpty(ms);
  }

  /** The five top-level scalar rules report nothing exactly when they hold. */
  lemma TopLevelMembersEmpty(input: FormInput, isUrl: string -> bool)
    ensures FormMembers(input, isUrl)[0].1 == [] <==> NameOk(input.name)
    ensures FormMembers(input, isUrl)[1].1 == [] <==> isUrl(input.url)
    ensures FormMembers(input, isUrl)[2].1 == [] <==> DescriptionOk(input.description)
    ensures FormMembers(input, isUrl)[3].1 == [] <==> CategoryOk(input.category)
    ensures FormMembers(input, isUrl)[4].1 == [] <==> StatusOk(input.status)
  {
  }

  /** The schema reports no issue exactly when every rule holds. */
  lemma IssuesEmptyIffValid(input: FormInput, isUrl: string -> bool)
    ensures Issues(input, isUrl) == [] <==> Valid(input, isUrl)
  {
    var ms := FormMembers(input, isUrl);
    SevenMembersEmpty(ms);
    TopLevelMembersEmpty(input, isUrl);
    assert ms[5].1 == [] <==> OffersOk(input.offers) by {
      OffersIssuesEmpty(input.offers);
    }
    assert ms[6].1 == [] <==> ArticleSpecsOk(input.articleSpecs) by {
      ArticleSpecsIssuesEmpty(input.articleSpecs);
    }
  }

  /* ---------------------------------------------------------------------
   * Attribution: each rule's failure is reported against its own field
   * ------------------------------------------------------------------- */

  /** What the whole form reports under top-level member `i` is what that member reports. */
  lemma FormMemberAt(input: FormInput, isUrl: string -> bool, i: nat, p: Path, m: Message)
    requires i < 7
    ensures ReportedAt(Issues(input, isUrl), [Key(FormMembers(input, isUrl)[i].0)] + p) <==>
      ReportedAt(FormMembers(input, isUrl)[i].1, p)
    ensures Issue([Key(FormMembers(input, isUrl)[i].0)] + p, m) in Issues(input, isUrl) <==>
      Issue(p, m) in FormMembers(input, isUrl)[i].1
  {
    ObjectReportedAt(FormMembers(input, isUrl), i, p, m);
  }

  /** What the form reports under `offers` is what the offers object reports. */
  lemma OffersAt(input: FormInput, isUrl: string -> bool, q: Path, m: Message)
    ensures ReportedAt(Issues(input, isUrl), [Key("offers")] + q) <==> ReportedAt(ObjectIssues(OffersMembers(input.offers)), q)
    ensures Issue([Key("offers")] + q, m) in Issues(input, isUrl) <==> Issue(q, m) in ObjectIssues(OffersMembers(input.offers))
  {
    FormMemberAt(input, isUrl, 5, q, m);
  }

  /** What the form reports under `articleSpecs` is what the article-specs object reports. */
  lemma SpecsAt(input: FormInput, isUrl: string -> bool, q: Path, m: Message)
    ensures ReportedAt(Issues(input, isUrl), [Key("articleSpecs")] + q) <==> ReportedAt(ObjectIssues(ArticleSpecsMembers(input.articleSpecs)), q)
    ensures Issue([Key("articleSpecs")] + q, m) in Issues(input, isUrl) <==> Issue(q, m) in ObjectIssues(ArticleSpecsMembers(input.articleSpecs))
  {
    FormMemberAt(input, isUrl, 6, q, m);
  }

  /** What the form reports under `offers` and its member `i`. */
  lemma OffersMemberAt(input: FormInput, isUrl: string -> bool, i: nat, p: Path, m: Message)
    requires i < 4
    ensures ReportedAt(Issues(input, isUrl), [Key("offers"), Key(OffersMembers(input.offers)[i].0)] + p) <==>
      ReportedAt(OffersMembers(input.offers)[i].1, p)
    ensures Issue([Key("offers"), Key(OffersMembers(input.offers)[i].0)] + p, m) in Issues(input, isUrl) <==>
      Issue(p, m) in OffersMembers(input.offers)[i].1
  {
    var ms := OffersMembers(input.offers);
    var q := [Key(ms[i].0)] + p;
    assert [Key("offers"), Key(ms[i].0)] + p == [Key("offers")] + q by {
      assert [Key("offers"), Key(ms[i].0)] == [Key("offers")] + [Key(ms[i].0)];
    }
    assert ReportedAt(ObjectIssues(ms), q) <==> ReportedAt(ms[i].1, p) by {
      ObjectReportedAt(ms, i, p, m);
    }
    assert Issue(q, m) in ObjectIssues(ms) <==> Issue(p, m) in ms[i].1 by {
      ObjectReportedAt(ms, i, p, m);
    }
    OffersAt(input, isUrl, q, m);
  }

  /** What the form reports under `articleSpecs` and its member `i`. */
  lemma SpecsMemberAt(input: FormInput, isUrl: string -> bool, i: nat, p: Path, m: Message)
    requires i < 6
    ensures ReportedAt(Issues(input, isUrl), [Key("articleSpecs"), Key(ArticleSpecsMembers(input.articleSpecs)[i].0)] + p) <==>
      ReportedAt(ArticleSpecsMembers(input.articleSpecs)[i].1, p)
    ensures Issue([Key("articleSpecs"), Key(ArticleSpecsMembers(input.articleSpecs)[i].0)] + p, m) in Issues(input, isUrl) <==>
      Issue(p, m) in ArticleSpecsMembers(input.articleSpecs)[i].1
  {
    var ms := ArticleSpecsMembers(input.articleSpecs);
    var q := [Key(ms[i].0)] + p;
    assert [Key("articleSpecs"), Key(ms[i].0)] + p == [Key("articleSpecs")] + q by {
      assert [Key("articleSpecs"), Key(ms[i].0)] == [Key("articleSpecs")] + [Key(ms[i].0)];
    }
    assert ReportedAt(ObjectIssues(ms), q) <==> ReportedAt(ms[i].1, p) by {
      ObjectReportedAt(ms, i, p, m);
    }
    assert Issue(q, m) in ObjectIssues(ms) <==> Issue(p, m) in ms[i].1 by {
      ObjectReportedAt(ms, i, p, m);
    }
    SpecsAt(input, isUrl, q, m);
  }

  /** The top-level string and enum rules are each reported at their own key, and only when they fail. */
  lemma TopLevelAttribution(input: FormInput, isUrl: string -> bool)
    ensures ReportedAt(Issues(input, isUrl), [Key("name")]) <==> !NameOk(input.name)
    ensures ReportedAt(Issues(input, isUrl), [Key("url")]) <==> !isUrl(input.url)
    ensures ReportedAt(Issues(input, isUrl), [Key("description")]) <==> !DescriptionOk(input.description)
    ensures ReportedAt(Issues(input, isUrl), [Key("category")]) <==> !CategoryOk(input.category)
    ensures ReportedAt(Issues(input, isUrl), [Key("status")]) <==> !StatusOk(input.status)
  {
    var ms := FormMembers(input, isUrl);
    forall i: nat | i < 5
      ensures ReportedAt(Issues(input, isUrl), [Key(ms[i].0)]) <==> ms[i].1 != []
    {
      // Any message will do here: only the reported paths are concluded.
      FormMemberAt(input, isUrl, i, [], InvalidUrl);
      ReportedAtRoot(ms[i].1);
      assert [Key(ms[i].0)] + [] == [Key(ms[i].0)];
    }
    assert ms[0].0 == "name" && ms[1].0 == "url" && ms[2].0 == "description";
    assert ms[3].0 == "category" && ms[4].0 == "status";
  }

  /** The name's two messages are reported at `name` exactly when the name is empty or too long. */
  lemma NameMessages(input: FormInput, isUrl: string -> bool)
    ensures Issue([Key("name")], NameRequired) in Issues(input, isUrl) <==> |input.name| < 1
    ensures Issue([Key("name")], NameTooLong) in Issues(input, isUrl) <==> |input.name| > 100
  {
    FormMemberAt(input, isUrl, 0, [], NameRequired);
    FormMemberAt(input, isUrl, 0, [], NameTooLong);
    assert [Key("name")] + [] == [Key("name")];
  }

  /** The description's two messages are reported at `description` exactly when it is too short or too long. */
  lemma DescriptionMessages(input: FormInput, isUrl: string -> bool)
    ensures Issue([Key("description")], DescriptionTooShort) in Issues(input, isUrl) <==> |input.description| < 10
    ensures Issue([Key("description")], DescriptionTooLong) in Issues(input, isUrl) <==> |input.description| > 1000
  {
    FormMemberAt(input, isUrl, 2, [], DescriptionTooShort);
    FormMemberAt(input, isUrl, 2, [], DescriptionTooLong);
    assert [Key("description")] + [] == [Key("description")];
  }

  /** The URL, category and status messages are reported at their keys exactly when those rules fail. */
  lemma UrlCategoryStatusMessages(input: FormInput, isUrl: string -> bool)
    ensures Issue([Key("url")], InvalidUrl) in Issues(input, isUrl) <==> !isUrl(input.url)
    ensures Issue([Key("category")], CategoryRequired) in Issues(input, isUrl) <==> input.category == ""
    ensures Issue([Key("status")], InvalidEnum(StatusNames, input.status)) in Issues(input, isUrl) <==> !StatusOk(input.status)
  {
    FormMemberAt(input, isUrl, 1, [], InvalidUrl);
    FormMemberAt(input, isUrl, 3, [], CategoryRequired);
    FormMemberAt(input, isUrl, 4, [], InvalidEnum(StatusNames, input.status));
    assert [Key("url")] + [] == [Key("url")];
    assert [Key("category")] + [] == [Key("category")] && [Key("status")] + [] == [Key("status")];
  }

  /** The paid-pricing refinement reports at `amount` exactly when it fails on parsed pricing. */
  lemma PricingRefinementAt(p: PricingInput)
    ensures ReportedAt(PricingRefinement(p), [Key("amount")]) <==> PricingRefinement(p) != []
    ensures Issue([Key("amount")], PaidPricingIncomplete) in PricingRefinement(p) <==> PricingRefinement(p) != []
    ensures PricingRefinement(p) != [] <==>
      PricingTypeOk(p.kind) && (p.billingCycle.Some? ==> BillingCycleOk(p.billingCycle.value)) && !PaidRuleOk(p)
    ensures forall e :: e in PricingRefinement(p) ==> e == Issue([Key("amount")], PaidPricingIncomplete)
  {
    ReportedAtRoot(PricingRefinement(p));
    if ParsePricing(p).Some? {
      PaidRuleOnParsedPricing(p);
    }
    if PricingRefinement(p) != [] {
      assert PricingRefinement(p)[0] in PricingRefinement(p);
    }
  }

  /**
   * Path `offers.pricing.amount` is reported exactly when the paid-pricing check
   * runs and fails, whichever of amount, currency and billing cycle is missing.
   */
  lemma PaidPricingAttribution(input: FormInput, isUrl: string -> bool)
    ensures ReportedAt(Issues(input, isUrl), AmountPath) <==>
      PricingTypeOk(input.offers.pricing.kind) &&
      (input.offers.pricing.billingCycle.Some? ==> BillingCycleOk(input.offers.pricing.billingCycle.value)) &&
      !PaidRuleOk(input.offers.pricing)
    ensures Issue(AmountPath, PaidPricingIncomplete) in Issues(input, isUrl) <==>
      ReportedAt(Issues(input, isUrl), AmountPath)
  {
    var amount: Path := [Key("amount")];
    OffersMemberAt(input, isUrl, 0, amount, PaidPricingIncomplete);
    assert [Key("offers"), Key("pricing")] + amount == AmountPath;
    PricingAmountAt(input.offers.pricing);
  }

  /** Inside the pricing object, `amount` is reported exactly when the paid-pricing check runs and fails. */
  lemma PricingAmountAt(p: PricingInput)
    ensures ReportedAt(PricingIssues(p), [Key("amount")]) <==>
      PricingTypeOk(p.kind) && (p.billingCycle.Some? ==> BillingCycleOk(p.billingCycle.value)) && !PaidRuleOk(p)
    ensures Issue([Key("amount")], PaidPricingIncomplete) in PricingIssues(p) <==>
      ReportedAt(PricingIssues(p), [Key("amount")])
  {
    var amount: Path := [Key("amount")];
    var own := ObjectIssues(PricingMembers(p));
    ObjectReportedAt(PricingMembers(p), 1, [], PaidPricingIncomplete);
    assert amount == [Key("amount")] + [];
    ReportedAtAppend(own, PricingRefinement(p), amount);
    PricingRefinementAt(p);
  }

  /** Inside the pricing object, each enum is reported at its own key, with its message, exactly when it does not parse. */
  lemma PricingEnumsAt(p: PricingInput)
    ensures ReportedAt(PricingIssues(p), [Key("type")]) <==> !PricingTypeOk(p.kind)
    ensures Issue([Key("type")], InvalidEnum(PricingTypeNames, p.kind)) in PricingIssues(p) <==> !PricingTypeOk(p.kind)
    ensures ReportedAt(PricingIssues(p), [Key("billingCycle")]) <==>
      p.billingCycle.Some? && !BillingCycleOk(p.billingCycle.value)
    ensures p.billingCycle.Some? ==>
      (Issue([Key("billingCycle")], InvalidEnum(BillingCycleNames, p.billingCycle.value)) in PricingIssues(p) <==>
       !BillingCycleOk(p.billingCycle.value))
  {
    var ms := PricingMembers(p);
    var own := ObjectIssues(ms);
    var refinement := PricingRefinement(p);
    var cycle := if p.billingCycle.Some? then p.billingCycle.value else "";
    assert PricingIssues(p) == own + refinement;
    ObjectReportedAt(ms, 0, [], InvalidEnum(PricingTypeNames, p.kind));
    ObjectReportedAt(ms, 3, [], InvalidEnum(BillingCycleNames, cycle));
    ReportedAtRoot(ms[0].1);
    ReportedAtRoot(ms[3].1);
    assert [Key("type")] + [] == [Key("type")] && [Key("billingCycle")] + [] == [Key("billingCycle")];
    ReportedAtAppend(own, refinement, [Key("type")]);
    ReportedAtAppend(own, refinement, [Key("billingCycle")]);
    if refinement != [] {
      SingleReportedAt([Key("amount")], PaidPricingIncomplete, [Key("type")]);
      SingleReportedAt([Key("amount")], PaidPricingIncomplete, [Key("billingCycle")]);
      assert !([Key("type")] <= [Key("amount")]) by {
        assert [Key("amount")][0] != Key("type");
      }
      assert !([Key("billingCycle")] <= [Key("amount")]) by {
        assert [Key("amount")][0] != Key("billingCycle");
      }
    }
  }

  /**
   * The two pricing enums are reported at `offers.pricing.type` and
   * `offers.pricing.billingCycle`, with the enum message, exactly when they do not parse.
   */
  lemma PricingEnumAttribution(input: FormInput, isUrl: string -> bool)
    ensures ReportedAt(Issues(input, isUrl), TypePath) <==> !PricingTypeOk(input.offers.pricing.kind)
    ensures Issue(TypePath, InvalidEnum(PricingTypeNames, input.offers.pricing.kind)) in Issues(input, isUrl) <==>
      !PricingTypeOk(input.offers.pricing.kind)
    ensures ReportedAt(Issues(input, isUrl), BillingCyclePath) <==>
      input.offers.pricing.billingCycle.Some? && !BillingCycleOk(input.offers.pricing.billingCycle.value)
    ensures input.offers.pricing.billingCycle.Some? ==>
      (Issue(BillingCyclePath, InvalidEnum(BillingCycleNames, input.offers.pricing.billingCycle.value)) in Issues(input, isUrl) <==>
       !BillingCycleOk(input.offers.pricing.billingCycle.value))
  {
    var p := input.offers.pricing;
    var cycle := if p.billingCycle.Some? then p.billingCycle.value else "";
    OffersMemberAt(input, isUrl, 0, [Key("type")], InvalidEnum(PricingTypeNames, p.kind));
    OffersMemberAt(input, isUrl, 0, [Key("billingCycle")], InvalidEnum(BillingCycleNames, cycle));
    assert [Key("offers"), Key("pricing")] + [Key("type")] == TypePath;
    assert [Key("offers"), Key("pricing")] + [Key("billingCycle")] == BillingCyclePath;
    PricingEnumsAt(p);
  }

  /** Inside the pricing object nothing is ever reported at `currency`: a missing currency is reported at `amount`. */
  lemma PricingCurrencyAt(p: PricingInput)
    ensures !ReportedAt(PricingIssues(p), [Key("currency")])
  {
    var ms := PricingMembers(p);
    var own := ObjectIssues(ms);
    var refinement := PricingRefinement(p);
    assert PricingIssues(p) == own + refinement;
    ObjectReportedAt(ms, 2, [], PaidPricingIncomplete);
    ReportedAtRoot(ms[2].1);
    assert [Key("currency")] + [] == [Key("currency")];
    ReportedAtAppend(own, refinement, [Key("currency")]);
    if refinement != [] {
      SingleReportedAt([Key("amount")], PaidPricingIncomplete, [Key("currency")]);
      assert !([Key("currency")] <= [Key("amount")]) by {
        assert [Key("amount")][0] != Key("currency");
      }
    }
  }

  /** No issue of the whole form is ever reported at `offers.pricing.currency`. */
  lemma CurrencyNeverReported(input: FormInput, isUrl: string -> bool)
    ensures !ReportedAt(Issues(input, isUrl), CurrencyPath)
  {
    OffersMemberAt(input, isUrl, 0, [Key("currency")], PaidPricingIncomplete);
    assert [Key("offers"), Key("pricing")] + [Key("currency")] == CurrencyPath;
    PricingCurrencyAt(input.offers.pricing);
  }

  /**
   * Under type `free` or `freemium` the pricing object is accepted exactly when
   * the billing cycle, if given, is a known cycle: amount and currency never matter.
   */
  lemma UnpaidPricingIgnoresSubfields(p: PricingInput)
    requires p.kind == "free" || p.kind == "freemium"
    ensures PricingIssues(p) == [] <==> (p.billingCycle.Some? ==> BillingCycleOk(p.billingCycle.value))
  {
    PricingIssuesEmpty(p);
  }

  /** A list rule is reported as a whole exactly when it fails, and at index `i` exactly when element `i` is empty. */
  lemma ListRuleAt(xs: seq<string>, elementMessage: Message, listMessage: Message, i: nat)
    ensures ReportedAt(ListIssues(xs, elementMessage, listMessage), []) <==> !NonEmptyStrings(xs)
    ensures ReportedAt(ListIssues(xs, elementMessage, listMessage), [Index(i)]) <==> i < |xs| && xs[i] == ""
    ensures Issue([], listMessage) in ListIssues(xs, elementMessage, listMessage) <==> |xs| == 0
    ensures Issue([Index(i)], elementMessage) in ListIssues(xs, elementMessage, listMessage) <==> i < |xs| && xs[i] == ""
  {
    var all := ListIssues(xs, elementMessage, listMessage);
    var count := if |xs| < 1 then [Issue([], listMessage)] else [];
    var elements := ElementIssues(xs, elementMessage, 0);
    assert all == count + elements;
    ListIssuesEmpty(xs, elementMessage, listMessage);
    ReportedAtRoot(all);
    ListElementReportedAt(xs, elementMessage, listMessage, i);
    if ReportedAt(all, [Index(i)]) {
      var e :| e in all && [Index(i)] <= e.path;
      assert e !in count;
      assert e == Issue([Index(i)], elementMessage);
    }
    if Issue([Index(i)], elementMessage) in all {
      assert [Index(i)] <= Issue([Index(i)], elementMessage).path;
    }
  }

  /** The `offers.features` list is reported as a whole exactly when it breaks its rule, and at index `i` exactly when element `i` is empty. */
  lemma FeaturesAttribution(input: FormInput, isUrl: string -> bool, i: nat)
    ensures ReportedAt(Issues(input, isUrl), [Key("offers"), Key("features")]) <==> !NonEmptyStrings(input.offers.features)
    ensures ReportedAt(Issues(input, isUrl), [Key("offers"), Key("features"), Index(i)]) <==>
      i < |input.offers.features| && input.offers.features[i] == ""
    ensures Issue([Key("offers"), Key("features")], FeaturesRequired) in Issues(input, isUrl) <==> |input.offers.features| == 0
    ensures Issue([Key("offers"), Key("features"), Index(i)], FeatureEmpty) in Issues(input, isUrl) <==>
      i < |input.offers.features| && input.offers.features[i] == ""
  {
    OffersMemberAt(input, isUrl, 1, [], FeaturesRequired);
    OffersMemberAt(input, isUrl, 1, [Index(i)], FeatureEmpty);
    ListRuleAt(input.offers.features, FeatureEmpty, FeaturesRequired, i);
    assert [Key("offers"), Key("features")] + [] == [Key("offers"), Key("features")];
    assert [Key("offers"), Key("features")] + [Index(i)] == [Key("offers"), Key("features"), Index(i)];
  }

  /** As for features, for `offers.targetAudience`. */
  lemma AudienceAttribution(input: FormInput, isUrl: string -> bool, i: nat)
    ensures ReportedAt(Issues(input, isUrl), [Key("offers"), Key("targetAudience")]) <==> !NonEmptyStrings(input.offers.targetAudience)
    ensures ReportedAt(Issues(input, isUrl), [Key("offers"), Key("targetAudience"), Index(i)]) <==>
      i < |input.offers.targetAudience| && input.offers.targetAudience[i] == ""
    ensures Issue([Key("offers"), Key("targetAudience")], AudienceRequired) in Issues(input, isUrl) <==> |input.offers.targetAudience| == 0
    ensures Issue([Key("offers"), Key("targetAudience"), Index(i)], AudienceEmpty) in Issues(input, isUrl) <==>
      i < |input.offers.targetAudience| && input.offers.targetAudience[i] == ""
  {
    OffersMemberAt(input, isUrl, 2, [], AudienceRequired);
    OffersMemberAt(input, isUrl, 2, [Index(i)], AudienceEmpty);
    ListRuleAt(input.offers.targetAudience, AudienceEmpty, AudienceRequired, i);
    assert [Key("offers"), Key("targetAudience")] + [] == [Key("offers"), Key("targetAudience")];
    assert [Key("offers"), Key("targetAudience")] + [Index(i)] == [Key("offers"), Key("targetAudience"), Index(i)];
  }

  /** As for features, for `offers.uniqueSellingPoints`. */
  lemma UspAttribution(input: FormInput, isUrl: string -> bool, i: nat)
    ensures ReportedAt(Issues(input, isUrl), [Key("offers"), Key("uniqueSellingPoints")]) <==> !NonEmptyStrings(input.offers.uniqueSellingPoints)
    ensures ReportedAt(Issues(input, isUrl), [Key("offers"), Key("uniqueSellingPoints"), Index(i)]) <==>
      i < |input.offers.uniqueSellingPoints| && input.offers.uniqueSellingPoints[i] == ""
    ensures Issue([Key("offers"), Key("uniqueSellingPoints")], UspRequired) in Issues(input, isUrl) <==> |input.offers.uniqueSellingPoints| == 0
    ensures Issue([Key("offers"), Key("uniqueSellingPoints"), Index(i)], UspEmpty) in Issues(input, isUrl) <==>
      i < |input.offers.uniqueSellingPoints| && input.offers.uniqueSellingPoints[i] == ""
  {
    OffersMemberAt(input, isUrl, 3, [], UspRequired);
    OffersMemberAt(input, isUrl, 3, [Index(i)], UspEmpty);
    ListRuleAt(input.offers.uniqueSellingPoints, UspEmpty, UspRequired, i);
    assert [Key("offers"), Key("uniqueSellingPoints")] + [] == [Key("offers"), Key("uniqueSellingPoints")];
    assert [Key("offers"), Key("uniqueSellingPoints")] + [Index(i)] == [Key("offers"), Key("uniqueSellingPoints"), Index(i)];
  }

  /** As for features, for `articleSpecs.contentTypes`. */
  lemma ContentTypesAttribution(input: FormInput, isUrl: string -> bool, i: nat)
    ensures ReportedAt(Issues(input, isUrl), [Key("articleSpecs"), Key("contentTypes")]) <==> !NonEmptyStrings(input.articleSpecs.contentTypes)
    ensures ReportedAt(Issues(input, isUrl), [Key("articleSpecs"), Key("contentTypes"), Index(i)]) <==>
      i < |input.articleSpecs.contentTypes| && input.articleSpecs.contentTypes[i] == ""
    ensures Issue([Key("articleSpecs"), Key("contentTypes")], ContentTypesRequired) in Issues(input, isUrl) <==> |input.articleSpecs.contentTypes| == 0
    ensures Issue([Key("articleSpecs"), Key("contentTypes"), Index(i)], ContentTypeEmpty) in Issues(input, isUrl) <==>
      i < |input.articleSpecs.contentTypes| && input.articleSpecs.contentTypes[i] == ""
  {
    SpecsMemberAt(input, isUrl, 0, [], ContentTypesRequired);
    SpecsMemberAt(input, isUrl, 0, [Index(i)], ContentTypeEmpty);
    ListRuleAt(input.articleSpecs.contentTypes, ContentTypeEmpty, ContentTypesRequired, i);
    assert [Key("articleSpecs"), Key("contentTypes")] + [] == [Key("articleSpecs"), Key("contentTypes")];
    assert [Key("articleSpecs"), Key("contentTypes")] + [Index(i)] == [Key("articleSpecs"), Key("contentTypes"), Index(i)];
  }

  /** As for features, for `articleSpecs.toneOfVoice`. */
  lemma ToneAttribution(input: FormInput, isUrl: string -> bool, i: nat)
    ensures ReportedAt(Issues(input, isUrl), [Key("articleSpecs"), Key("toneOfVoice")]) <==> !NonEmptyStrings(input.articleSpecs.toneOfVoice)
    ensures ReportedAt(Issues(input, isUrl), [Key("articleSpecs"), Key("toneOfVoice"), Index(i)]) <==>
      i < |input.articleSpecs.toneOfVoice| && input.articleSpecs.toneOfVoice[i] == ""
    ensures Issue([Key("articleSpecs"), Key("toneOfVoice")], TonesRequired) in Issues(input, isUrl) <==> |input.articleSpecs.toneOfVoice| == 0
    ensures Issue([Key("articleSpecs"), Key("toneOfVoice"), Index(i)], ToneEmpty) in Issues(input, isUrl) <==>
      i < |input.articleSpecs.toneOfVoice| && input.articleSpecs.toneOfVoice[i] == ""
  {
    SpecsMemberAt(input, isUrl, 2, [], TonesRequired);
    SpecsMemberAt(input, isUrl, 2, [Index(i)], ToneEmpty);
    ListRuleAt(input.articleSpecs.toneOfVoice, ToneEmpty, TonesRequired, i);
    assert [Key("articleSpecs"), Key("toneOfVoice")] + [] == [Key("articleSpecs"), Key("toneOfVoice")];
    assert [Key("articleSpecs"), Key("toneOfVoice")] + [Index(i)] == [Key("articleSpecs"), Key("toneOfVoice"), Index(i)];
  }

  /** As for features, for `articleSpecs.requiredSections`. */
  lemma SectionsAttribution(input: FormInput, isUrl: string -> bool, i: nat)
    ensures ReportedAt(Issues(input, isUrl), [Key("articleSpecs"), Key("requiredSections")]) <==> !NonEmptyStrings(input.articleSpecs.requiredSections)
    ensures ReportedAt(Issues(input, isUrl), [Key("articleSpecs"), Key("requiredSections"), Index(i)]) <==>
      i < |input.articleSpecs.requiredSections| && input.articleSpecs.requiredSections[i] == ""
    ensures Issue([Key("articleSpecs"), Key("requiredSections")], SectionsRequired) in Issues(input, isUrl) <==> |input.articleSpecs.requiredSections| == 0
    ensures Issue([Key("articleSpecs"), Key("requiredSections"), Index(i)], SectionEmpty) in Issues(input, isUrl) <==>
      i < |input.articleSpecs.requiredSections| && input.articleSpecs.requiredSections[i] == ""
  {
    SpecsMemberAt(input, isUrl, 3, [], SectionsRequired);
    SpecsMemberAt(input, isUrl, 3, [Index(i)], SectionEmpty);
    ListRuleAt(input.articleSpecs.requiredSections, SectionEmpty, SectionsRequired, i);
    assert [Key("articleSpecs"), Key("requiredSections")] + [] == [Key("articleSpecs"), Key("requiredSections")];
    assert [Key("articleSpecs"), Key("requiredSections")] + [Index(i)] == [Key("articleSpecs"), Key("requiredSections"), Index(i)];
  }

  /** Inside the word-count object: each bound is reported below 1; the ordering failure is reported on `max`. */
  lemma WordCountRuleAt(r: WordCountRange)
    ensures ReportedAt(WordCountIssues(r), [Key("min")]) <==> r.min < 1.0
    ensures ReportedAt(WordCountIssues(r), [Key("max")]) <==> r.max < 1.0 || r.max <= r.min
    ensures Issue([Key("max")], RangeInverted) in WordCountIssues(r) <==> r.max <= r.min
  {
    var ms := WordCountMembers(r);
    var own := ObjectIssues(ms);
    var order := WordCountRefinement(r);
    // With the ordering message: the bounds' own issues never carry it.
    ObjectReportedAt(ms, 0, [], RangeInverted);
    ObjectReportedAt(ms, 1, [], RangeInverted);
    ReportedAtRoot(ms[0].1);
    ReportedAtRoot(ms[1].1);
    assert [Key("min")] + [] == [Key("min")] && [Key("max")] + [] == [Key("max")];
    ReportedAtAppend(own, order, [Key("min")]);
    ReportedAtAppend(own, order, [Key("max")]);
    if order != [] {
      SingleReportedAt([Key("max")], RangeInverted, [Key("min")]);
      assert !([Key("min")] <= [Key("max")]) by {
        assert [Key("max")][..1][0] != Key("min");
      }
      SingleReportedAt([Key("max")], RangeInverted, [Key("max")]);
    }
    if order != [] {
      assert order[0] in order && [Key("max")] <= order[0].path;
    }
  }

  /** Inside the word-count object, each bound's own message is reported exactly when that bound is below 1. */
  lemma WordCountBoundMessages(r: WordCountRange)
    ensures Issue([Key("min")], MinWordsTooSmall) in WordCountIssues(r) <==> r.min < 1.0
    ensures Issue([Key("max")], MaxWordsTooSmall) in WordCountIssues(r) <==> r.max < 1.0
  {
    var ms := WordCountMembers(r);
    var own := ObjectIssues(ms);
    var order := WordCountRefinement(r);
    assert WordCountIssues(r) == own + order;
    ObjectReportedAt(ms, 0, [], MinWordsTooSmall);
    ObjectReportedAt(ms, 1, [], MaxWordsTooSmall);
    assert [Key("min")] + [] == [Key("min")] && [Key("max")] + [] == [Key("max")];
    assert Issue([Key("min")], MinWordsTooSmall) !in order;
    assert Issue([Key("max")], MaxWordsTooSmall) !in order;
  }

  /** Word counts in the whole form: each bound is reported below 1; the ordering failure is reported on `max`. */
  lemma WordCountAttribution(input: FormInput, isUrl: string -> bool)
    ensures ReportedAt(Issues(input, isUrl), MinPath) <==> input.articleSpecs.wordCountRange.min < 1.0
    ensures ReportedAt(Issues(input, isUrl), MaxPath) <==>
      input.articleSpecs.wordCountRange.max < 1.0 ||
      input.articleSpecs.wordCountRange.max <= input.articleSpecs.wordCountRange.min
    ensures Issue(MaxPath, RangeInverted) in Issues(input, isUrl) <==>
      input.articleSpecs.wordCountRange.max <= input.articleSpecs.wordCountRange.min
    ensures Issue(MinPath, MinWordsTooSmall) in Issues(input, isUrl) <==> input.articleSpecs.wordCountRange.min < 1.0
    ensures Issue(MaxPath, MaxWordsTooSmall) in Issues(input, isUrl) <==> input.articleSpecs.wordCountRange.max < 1.0
  {
    SpecsMemberAt(input, isUrl, 1, [Key("min")], MinWordsTooSmall);
    SpecsMemberAt(input, isUrl, 1, [Key("max")], RangeInverted);
    SpecsMemberAt(input, isUrl, 1, [Key("max")], MaxWordsTooSmall);
    WordCountRuleAt(input.articleSpecs.wordCountRange);
    WordCountBoundMessages(input.articleSpecs.wordCountRange);
    assert [Key("articleSpecs"), Key("wordCountRange")] + [Key("min")] == MinPath;
    assert [Key("articleSpecs"), Key("wordCountRange")] + [Key("max")] == MaxPath;
  }

  /** Guidelines shorter than 10 characters are reported at `articleSpecs.submissionGuidelines`. */
  lemma GuidelinesAttribution(input: FormInput, isUrl: string -> bool)
    ensures ReportedAt(Issues(input, isUrl), [Key("articleSpecs"), Key("submissionGuidelines")]) <==>
      !GuidelinesOk(input.articleSpecs.submissionGuidelines)
    ensures Issue([Key("articleSpecs"), Key("submissionGuidelines")], GuidelinesTooShort) in Issues(input, isUrl) <==>
      !GuidelinesOk(input.articleSpecs.submissionGuidelines)
  {
    var ms := ArticleSpecsMembers(input.articleSpecs);
    SpecsMemberAt(input, isUrl, 5, [], GuidelinesTooShort);
    ReportedAtRoot(ms[5].1);
    assert [Key("articleSpecs"), Key("submissionGuidelines")] + [] == [Key("articleSpecs"), Key("submissionGuidelines")];
  }

  /* ---------------------------------------------------------------------
   * Parsing to the typed payload
   * ------------------------------------------------------------------- */

  /** The typed payload an accepted input stands for. */
  function Normalize(input: FormInput): (d: WebsiteFormData)
    requires ParseStatus(input.status).Some? && ParsePricing(input.offers.pricing).Some?
    ensures StatusName(d.status) == input.status
    ensures PricingTypeName(d.offers.pricing.kind) == input.offers.pricing.kind
  {
    var o := input.offers;
    WebsiteFormData(
      input.name, input.url, input.description, input.category,
      ParseStatus(input.status).value,
      Offers(ParsePricing(o.pricing).value, o.features, o.targetAudience, o.uniqueSellingPoints),
      input.articleSpecs)
  }

  /** The form payload a typed value is edited as: enums written back as their literals. */
  function ToInput(d: WebsiteFormData): FormInput
  {
    var p := d.offers.pricing;
    FormInput(
      d.name, d.url, d.description, d.category, StatusName(d.status),
      OffersInput(
        PricingInput(PricingTypeName(p.kind), p.amount, p.currency,
                     match p.billingCycle case None => None case Some(c) => Some(BillingCycleName(c))),
        d.offers.features, d.offers.targetAudience, d.offers.uniqueSellingPoints),
      d.articleSpecs)
  }

  /**
   * The schema's verdict: the typed payload when no rule is broken, otherwise
   * every issue. Acceptance loses nothing: the accepted value prints back to the input.
   */
  function Validate(input: FormInput, isUrl: string -> bool): (r: Result<WebsiteFormData, seq<Issue>>)
    ensures r.Ok? <==> Valid(input, isUrl)
    ensures r.Ok? ==> ToInput(r.value) == input
    ensures r.Err? ==> r.error == Issues(input, isUrl) && r.error != []
  {
    var issues := Issues(input, isUrl);
    IssuesEmptyIffValid(input, isUrl);
    if issues == [] then
      var d := Normalize(input);
      assert ToInput(d).offers.pricing == input.offers.pricing;
      Ok(d)
    else
      Err(issues)
  }

  /** A typed payload that passes the rules is accepted as itself. */
  lemma ValidateTypedRoundTrip(d: WebsiteFormData, isUrl: string -> bool)
    requires Valid(ToInput(d), isUrl)
    ensures Validate(ToInput(d), isUrl) == Ok(d)
  {
    EnumNamesRoundTrip(d.status, d.offers.pricing.kind, Monthly);
    match d.offers.pricing.billingCycle {
      case None =>
      case Some(c) => EnumNamesRoundTrip(d.status, d.offers.pricing.kind, c);
    }
  }

  /** For parsed pricing the two statements of the paid-pricing rule coincide. */
  lemma PaidRuleOnParsedPricing(p: PricingInput)
    requires ParsePricing(p).Some?
    ensures PaidPricingComplete(ParsePricing(p).value) <==> PaidRuleOk(p)
  {
  }

  /* ---------------------------------------------------------------------
   * The blank form offered for a new record
   * ------------------------------------------------------------------- */

  /** The values the new-record page starts from: empty texts and one empty entry per list. */
  function NewFormDefaults(): FormInput
  {
    FormInput("", "", "", "", "active",
      OffersInput(PricingInput("free", None, None, None), [""], [""], [""]),
      ArticleSpecs([""], WordCountRange(500.0, 2000.0), [""], [""],
                   SeoRequirements(false, false, false), ""))
  }

  /**
   * The blank form is rejected until it is edited: the empty texts and the
   * first entry of every list are reported, while status, pricing and the
   * word-count range already pass.
   */
  lemma NewFormDefaultsRejected(isUrl: string -> bool)
    ensures Validate(NewFormDefaults(), isUrl).Err?
    ensures ReportedAt(Issues(NewFormDefaults(), isUrl), [Key("name")])
    ensures ReportedAt(Issues(NewFormDefaults(), isUrl), [Key("description")])
    ensures ReportedAt(Issues(NewFormDefaults(), isUrl), [Key("category")])
    ensures !ReportedAt(Issues(NewFormDefaults(), isUrl), [Key("status")])
    ensures !ReportedAt(Issues(NewFormDefaults(), isUrl), AmountPath)
    ensures ReportedAt(Issues(NewFormDefaults(), isUrl), [Key("offers"), Key("features"), Index(0)])
    ensures ReportedAt(Issues(NewFormDefaults(), isUrl), [Key("articleSpecs"), Key("toneOfVoice"), Index(0)])
    ensures !ReportedAt(Issues(NewFormDefaults(), isUrl), MaxPath)
    ensures ReportedAt(Issues(NewFormDefaults(), isUrl), [Key("articleSpecs"), Key("submissionGuidelines")])
  {
    var d := NewFormDefaults();
    TopLevelAttribution(d, isUrl);
    PaidPricingAttribution(d, isUrl);
    FeaturesAttribution(d, isUrl, 0);
    ToneAttribution(d, isUrl, 0);
    WordCountAttribution(d, isUrl);
    GuidelinesAttribution(d, isUrl);
  }

  /** The other four lists of the blank form are reported at their empty first entry. */
  lemma NewFormDefaultsListsReported(isUrl: string -> bool)
    ensures ReportedAt(Issues(NewFormDefaults(), isUrl), [Key("offers"), Key("targetAudience"), Index(0)])
    ensures ReportedAt(Issues(NewFormDefaults(), isUrl), [Key("offers"), Key("uniqueSellingPoints"), Index(0)])
    ensures ReportedAt(Issues(NewFormDefaults(), isUrl), [Key("articleSpecs"), Key("contentTypes"), Index(0)])
    ensures ReportedAt(Issues(NewFormDefaults(), isUrl), [Key("articleSpecs"), Key("requiredSections"), Index(0)])
  {
    var d := NewFormDefaults();
    AudienceAttribution(d, isUrl, 0);
    UspAttribution(d, isUrl, 0);
    ContentTypesAttribution(d, isUrl, 0);
    SectionsAttribution(d, isUrl, 0);
  }

  /** Nothing at all is reported inside the blank form's pricing object. */
  lemma NewFormDefaultsPricingPasses(isUrl: string -> bool)
    ensures !ReportedAt(Issues(NewFormDefaults(), isUrl), [Key("offers"), Key("pricing")])
  {
    var d := NewFormDefaults();
    var p := d.offers.pricing;
    OffersMemberAt(d, isUrl, 0, [], PaidPricingIncomplete);
    assert [Key("offers"), Key("pricing")] + [] == [Key("offers"), Key("pricing")];
    PricingIssuesEmpty(p);
    ReportedAtRoot(PricingIssues(p));
  }

  /** Nothing at all is reported inside the blank form's word-count range. */
  lemma NewFormDefaultsWordCountPasses(isUrl: string -> bool)
    ensures !ReportedAt(Issues(NewFormDefaults(), isUrl), [Key("articleSpecs"), Key("wordCountRange")])
  {
    var d := NewFormDefaults();
    var r := d.articleSpecs.wordCountRange;
    SpecsMemberAt(d, isUrl, 1, [], RangeInverted);
    assert [Key("articleSpecs"), Key("wordCountRange")] + [] == [Key("articleSpecs"), Key("wordCountRange")];
    WordCountIssuesEmpty(r);
    ReportedAtRoot(WordCountIssues(r));
  }
}
