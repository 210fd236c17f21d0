/**
 * components/OverviewDashboard.tsx: the per-platform and per-status lead
 * counts and the tiles built from them.
 */
module OverviewDashboard {
  import opened Wrappers
  import opened Text
  import opened Types
  import GeminiService

  /** `leads.filter(keep).length`. */
  function CountIf(leads: seq<Lead>, keep: Lead -> bool): (n: nat)
    ensures n <= |leads|
    ensures leads == [] ==> n == 0
  {
    if leads == [] then 0 else (if keep(leads[0]) then 1 else 0) + CountIf(leads[1..], keep)
  }

  /** Appending one lead raises a count by one if it is kept, else not at all. */
  lemma {:induction false} CountIfAppend(leads: seq<Lead>, l: Lead, keep: Lead -> bool)
    ensures CountIf(leads + [l], keep) == CountIf(leads, keep) + (if keep(l) then 1 else 0)
  {
    if leads != [] {
      assert (leads + [l])[1..] == leads[1..] + [l];
      CountIfAppend(leads[1..], l, keep);
    }
  }

  /** Two tests that agree on every lead count the same. */
  lemma {:induction false} CountIfSameTest(leads: seq<Lead>, p: Lead -> bool, q: Lead -> bool)
    requires forall l :: p(l) == q(l)
    ensures CountIf(leads, p) == CountIf(leads, q)
  {
    if leads != [] {
      CountIfSameTest(leads[1..], p, q);
    }
  }

  /** `l.platform.toLowerCase().includes(platform.toLowerCase())`. */
  predicate OnPlatform(l: Lead, platform: string) {
    Contains(Lower(l.platform), Lower(platform))
  }

  /** `getCountByPlatform`. */
  function CountByPlatform(leads: seq<Lead>, platform: string): (n: nat)
    ensures n <= |leads|
  {
    CountIf(leads, l => OnPlatform(l, platform))
  }

  /** `getCountByStatus`. A lead without a status counts for no status. */
  function CountByStatus(leads: seq<Lead>, status: LeadStatus): (n: nat)
    ensures n <= |leads|
  {
    CountIf(leads, (l: Lead) => l.status == Some(status))
  }

  /** The platform test ignores case: names that lower-case alike count
      alike ("facebook" and "FACEBOOK", say). */
  lemma CountByPlatformIgnoresCase(leads: seq<Lead>, p: string, q: string)
    requires Lower(p) == Lower(q)
    ensures CountByPlatform(leads, p) == CountByPlatform(leads, q)
  {
    CountIfSameTest(leads, l => OnPlatform(l, p), l => OnPlatform(l, q));
  }

  /** Appending one lead raises each count by 0 or 1. */
  lemma CountsAfterAppend(leads: seq<Lead>, l: Lead, platform: string, status: LeadStatus)
    ensures CountByPlatform(leads, platform) <= CountByPlatform(leads + [l], platform) <= CountByPlatform(leads, platform) + 1
    ensures CountByStatus(leads, status) <= CountByStatus(leads + [l], status) <= CountByStatus(leads, status) + 1
  {
    CountIfAppend(leads, l, l => OnPlatform(l, platform));
    CountIfAppend(leads, l, (l: Lead) => l.status == Some(status));
  }

  /** How many leads carry a status at all. */
  function WithStatus(leads: seq<Lead>): nat {
    CountIf(leads, (l: Lead) => l.status.Some?)
  }

  /** The four status counts add up to the leads that carry a status: every
      status is one of the four. */
  lemma {:induction false} StatusCountsSum(leads: seq<Lead>)
    ensures CountByStatus(leads, ToBeOutreached) + CountByStatus(leads, Outreached)
      + CountByStatus(leads, FollowedUp) + CountByStatus(leads, Replied) == WithStatus(leads)
  {
    if leads != [] {
      var tail := leads[1..];
      StatusCountsSum(tail);
      var s := leads[0].status;
      assert CountByStatus(leads, ToBeOutreached) == (if s == Some(ToBeOutreached) then 1 else 0) + CountByStatus(tail, ToBeOutreached);
      assert CountByStatus(leads, Outreached) == (if s == Some(Outreached) then 1 else 0) + CountByStatus(tail, Outreached);
      assert CountByStatus(leads, FollowedUp) == (if s == Some(FollowedUp) then 1 else 0) + CountByStatus(tail, FollowedUp);
      assert CountByStatus(leads, Replied) == (if s == Some(Replied) then 1 else 0) + CountByStatus(tail, Replied);
      assert WithStatus(leads) == (if s.Some? then 1 else 0) + WithStatus(tail);
      match s
      case None =>
      case Some(ToBeOutreached) =>
      case Some(Outreached) =>
      case Some(FollowedUp) =>
      case Some(Replied) =>
    }
  }

  /** When every lead has a status, the WithStatus count is the number of leads. */
  lemma {:induction false} AllWithStatus(leads: seq<Lead>)
    requires forall i :: 0 <= i < |leads| ==> leads[i].status.Some?
    ensures WithStatus(leads) == |leads|
  {
    if leads != [] {
      AllWithStatus(leads[1..]);
    }
  }

  // ----- the tiles --------------------------------------------------------

  datatype PlatformTile = PlatformTile(name: string, count: nat)

  datatype StatTile = StatTile(caption: string, value: nat, sub: string)

  /** The Twitter/X tile: leads whose platform contains "x", or, only when
      there are none, those whose platform contains "twitter". */
  function TwitterXCount(leads: seq<Lead>): (n: nat)
    ensures n <= |leads|
    ensures CountByPlatform(leads, "x") != 0 ==> n == CountByPlatform(leads, "x")
    ensures CountByPlatform(leads, "x") == 0 ==> n == CountByPlatform(leads, "twitter")
  {
    var x := CountByPlatform(leads, "x");
    if x != 0 then x else CountByPlatform(leads, "twitter")
  }

  /** The four platform tiles, in display order; no count exceeds the
      number of leads. */
  function PlatformTiles(leads: seq<Lead>): (r: seq<PlatformTile>)
    ensures |r| == 4
    ensures forall i :: 0 <= i < |r| ==> r[i].count <= |leads|
  {
    [ PlatformTile("Facebook", CountByPlatform(leads, "facebook")),
      PlatformTile("LinkedIn", CountByPlatform(leads, "linkedin")),
      PlatformTile("Twitter/X", TwitterXCount(leads)),
      PlatformTile("Reddit", CountByPlatform(leads, "reddit")) ]
  }

  /** The four outreach statistics, in display order; their values add up
      to the number of leads that carry a status. */
  function Stats(leads: seq<Lead>): (r: seq<StatTile>)
    ensures |r| == 4
    ensures r[0].value + r[1].value + r[2].value + r[3].value == WithStatus(leads)
  {
    StatusCountsSum(leads);
    [ StatTile("Outreach Todo", CountByStatus(leads, ToBeOutreached), "Pending"),
      StatTile("Outreached", CountByStatus(leads, Outreached), "Initial"),
      StatTile("Followed-up", CountByStatus(leads, FollowedUp), "Sequences"),
      StatTile("Replied", CountByStatus(leads, Replied), "Hot leads") ]
  }

  // ----- counts over scanned leads ----------------------------------------

  /** No platform label a scan produces contains an "x", so for scanned
      leads the Twitter/X tile always shows the "twitter" count. */
  lemma {:induction false} ScannedTwitterTile(file: KeywordFile, outcome: GeminiService.SearchOutcome, now: nat)
    ensures var leads := GeminiService.FindLeads(file, outcome, now).leads;
      CountByPlatform(leads, "x") == 0 && TwitterXCount(leads) == CountByPlatform(leads, "twitter")
  {
    var r := GeminiService.FindLeads(file, outcome, now);
    var w := GeminiService.FindLeadsAsWritten(file, outcome, now);
    assert forall i :: 0 <= i < |r.leads| ==> r.leads[i].platform == w.leads[i].platform;
    NoXInScan(r.leads, r.sources);
  }

  lemma {:induction false} NoXInScan(leads: seq<Lead>, sources: seq<GeminiService.Chunk>)
    requires |leads| == |sources|
    requires forall i :: 0 <= i < |leads| ==> leads[i].platform == GeminiService.PlatformOf(GeminiService.UriOf(sources[i]))
    ensures CountByPlatform(leads, "x") == 0
  {
    if leads != [] {
      NoXInLabel(GeminiService.UriOf(sources[0]));
      NoXInScan(leads[1..], sources[1..]);
      assert CountByPlatform(leads, "x") == (if OnPlatform(leads[0], "x") then 1 else 0) + CountByPlatform(leads[1..], "x");
    }
  }

  /** No platform label contains an "x", whatever its case. */
  lemma NoXInLabel(uri: Option<string>)
    ensures !Contains(Lower(GeminiService.PlatformOf(uri)), Lower("x"))
  {
    var p := GeminiService.PlatformOf(uri);
    var lp := Lower(p);
    assert Lower("x") == "x";
    assert lp in GeminiService.PlatformNames || lp == Lower(GeminiService.WebContent);
    NoXInLowerLabels(lp);
    ContainsChar(lp, 'x');
  }

  lemma NoXInLowerLabels(n: string)
    requires n in GeminiService.PlatformNames || n == Lower(GeminiService.WebContent)
    ensures 'x' !in n
  {
    assert Lower(GeminiService.WebContent) == "web content";
  }

  /** Every lead of a scan starts as "to be outreached", so the four status
      counts of a scan add up to its number of leads. */
  lemma ScannedStatusCounts(file: KeywordFile, outcome: GeminiService.SearchOutcome, now: nat)
    ensures var leads := GeminiService.FindLeads(file, outcome, now).leads;
      && CountByStatus(leads, ToBeOutreached) == |leads|
      && CountByStatus(leads, ToBeOutreached) + CountByStatus(leads, Outreached)
         + CountByStatus(leads, FollowedUp) + CountByStatus(leads, Replied) == |leads|
  {
    var leads := GeminiService.FindLeads(file, outcome, now).leads;
    StatusCountsSum(leads);
    AllWithStatus(leads);
    AllToBeOutreached(leads);
  }

  lemma {:induction false} AllToBeOutreached(leads: seq<Lead>)
    requires forall l :: l in leads ==> l.status == Some(ToBeOutreached)
    ensures CountByStatus(leads, ToBeOutreached) == |leads|
  {
    if leads != [] {
      assert leads[0] in leads;
      AllToBeOutreached(leads[1..]);
    }
  }

  /** The lead literal as written carries no status, so over a scan as
      written every status count is zero, however many leads it found. */
  lemma AsWrittenScanCountsNoStatus(file: KeywordFile, outcome: GeminiService.SearchOutcome, now: nat)
    ensures var leads := GeminiService.FindLeadsAsWritten(file, outcome, now).leads;
      && WithStatus(leads) == 0
      && CountByStatus(leads, ToBeOutreached) == 0 && CountByStatus(leads, Outreached) == 0
      && CountByStatus(leads, FollowedUp) == 0 && CountByStatus(leads, Replied) == 0
  {
    var leads := GeminiService.FindLeadsAsWritten(file, outcome, now).leads;
    NoneWithStatus(leads);
    StatusCountsSum(leads);
  }

  lemma {:induction false} NoneWithStatus(leads: seq<Lead>)
    requires forall i :: 0 <= i < |leads| ==> leads[i].status.None?
    ensures WithStatus(leads) == 0
  {
    if leads != [] {
      assert leads[0].status.None?;
      NoneWithStatus(leads[1..]);
    }
  }

  /** One reddit chunk: the scan as written finds one lead, yet it counts
      for none of the four statuses. */
  lemma AsWrittenLeadHasNoStatus(file: KeywordFile, now: nat)
    ensures var chunk := GeminiService.Chunk(Some(GeminiService.Web(Some("https://reddit.com/r/x"), None)));
      var leads := GeminiService.FindLeadsAsWritten(file, GeminiService.Answered(Some([chunk])), now).leads;
      && |leads| == 1
      && CountByStatus(leads, ToBeOutreached) == 0 && CountByStatus(leads, Outreached) == 0
      && CountByStatus(leads, FollowedUp) == 0 && CountByStatus(leads, Replied) == 0
  {
    var chunk := GeminiService.Chunk(Some(GeminiService.Web(Some("https://reddit.com/r/x"), None)));
    AsWrittenScanCountsNoStatus(file, GeminiService.Answered(Some([chunk])), now);
  }
}
