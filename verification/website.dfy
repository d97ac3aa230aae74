/**
 * The record shapes shared by the schema and the store (types/website.ts).
 * String-literal unions become enumerations; optional members become Option;
 * JavaScript numbers are modelled as reals.
 */
module WebsiteTypes {
  import opened Wrappers

  /** An ISO-8601 time stamp as the store writes it; its format is not interpreted. */
  type Timestamp = string

  /** types/website.ts:7 */
  datatype Status = Active | Inactive | Pending

  /** types/website.ts:14 */
  datatype PricingType = Free | Paid | Freemium

  /** types/website.ts:17 */
  datatype BillingCycle = Monthly | Yearly | OneTime

  /** The string literal that stands for each status in a record. */
  function StatusName(s: Status): string
  {
    match s
    case Active => "active"
    case Inactive => "inactive"
    case Pending => "pending"
  }

  function PricingTypeName(t: PricingType): string
  {
    match t
    case Free => "free"
    case Paid => "paid"
    case Freemium => "freemium"
  }

  function BillingCycleName(c: BillingCycle): string
  {
    match c
    case Monthly => "monthly"
    case Yearly => "yearly"
    case OneTime => "one-time"
  }

  /** The pricing record: a type tag with three optional members (types/website.ts:13-18). */
  datatype Pricing = Pricing(
    kind: PricingType,
    amount: Option<real>,
    currency: Option<string>,
    billingCycle: Option<BillingCycle>)

  datatype Offers = Offers(
    pricing: Pricing,
    features: seq<string>,
    targetAudience: seq<string>,
    uniqueSellingPoints: seq<string>)

  datatype WordCountRange = WordCountRange(min: real, max: real)

  /** Three independent flags; no constraint ties them together. */
  datatype SeoRequirements = SeoRequirements(
    metaDescription: bool,
    keywords: bool,
    headingStructure: bool)

  datatype ArticleSpecs = ArticleSpecs(
    contentTypes: seq<string>,
    wordCountRange: WordCountRange,
    toneOfVoice: seq<string>,
    requiredSections: seq<string>,
    seoRequirements: SeoRequirements,
    submissionGuidelines: string)

  /** The editable payload: a Website without id, createdAt and updatedAt (types/website.ts:42). */
  datatype WebsiteFormData = WebsiteFormData(
    name: string,
    url: string,
    description: string,
    category: string,
    status: Status,
    offers: Offers,
    articleSpecs: ArticleSpecs)

  /** A stored record (types/website.ts:1-40). */
  datatype Website = Website(
    id: string,
    name: string,
    url: string,
    description: string,
    category: string,
    status: Status,
    createdAt: Timestamp,
    updatedAt: Timestamp,
    offers: Offers,
    articleSpecs: ArticleSpecs)
  {
    /** The record's editable fields, i.e. everything but id and the two time stamps. */
    function Form(): WebsiteFormData
    {
      WebsiteFormData(name, url, description, category, status, offers, articleSpecs)
    }
  }

  /** A record made of form data and the three fields the store assigns. */
  function Stamp(d: WebsiteFormData, id: string, createdAt: Timestamp, updatedAt: Timestamp): (w: Website)
    ensures w.Form() == d
    ensures w.id == id && w.createdAt == createdAt && w.updatedAt == updatedAt
  {
    Website(id, d.name, d.url, d.description, d.category, d.status,
            createdAt, updatedAt, d.offers, d.articleSpecs)
  }

  /**
   * A record is exactly its form data plus id, createdAt and updatedAt:
   * splitting it and stamping the parts back together gives the same record.
   */
  lemma FormDataIsWebsiteMinusMeta(w: Website)
    ensures Stamp(w.Form(), w.id, w.createdAt, w.updatedAt) == w
  {
  }
}
