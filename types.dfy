/** The records of types.ts the core works on. */
module Types {
  import opened Wrappers

  /** A saved keyword collection (a search profile). */
  datatype KeywordFile = KeywordFile(
    id: string,
    name: string,
    keywords: seq<string>,
    excludeKeywords: seq<string>,
    niche: string,
    location: string,
    createdAt: int)

  /** What the collection form submits: a KeywordFile without `id` and
      `createdAt`. */
  datatype FileData = FileData(
    name: string,
    keywords: seq<string>,
    excludeKeywords: seq<string>,
    niche: string,
    location: string)

  /** The outreach stage of a lead; exactly four values. */
  datatype LeadStatus = ToBeOutreached | Outreached | FollowedUp | Replied

  datatype Sentiment = Positive | Neutral | Negative

  /** A discovered lead. `status` is optional because a lead can reach the
      dashboards without one. */
  datatype Lead = Lead(
    id: string,
    author: Option<string>,
    authorAvatar: Option<string>,
    title: string,
    snippet: string,
    url: string,
    platform: string,
    relevanceScore: int,
    detectedAt: int,
    fileId: string,
    status: Option<LeadStatus>,
    sentiment: Option<Sentiment>)
}
