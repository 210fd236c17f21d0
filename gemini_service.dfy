/**
 * services/geminiService.ts: the prompt `findLeads` sends, and the
 * mapping of the search call's grounding chunks to leads. The call itself
 * is an input: either it failed, or it answered with (possibly no)
 * grounding chunks.
 */
module GeminiService {
  import opened Wrappers
  import opened Text
  import opened Types

  /** The `web` part of a grounding chunk; either field may be missing. */
  datatype Web = Web(uri: Option<string>, title: Option<string>)

  /** A grounding chunk; its `web` part may be missing. */
  datatype Chunk = Chunk(web: Option<Web>)

  /** How the search call ended: it threw, or it answered, with or without
      `groundingChunks` on its first candidate. */
  datatype SearchOutcome = Failed | Answered(chunks: Option<seq<Chunk>>)

  datatype SearchResult = SearchResult(leads: seq<Lead>, sources: seq<Chunk>)

  // ----- the prompt -------------------------------------------------------

  const PromptHead := "\n    Find potential organic leads, discussions, or social media posts for the following business profile:\n    - Niche: "
  const PromptKeywords := "\n    - Keywords: "
  const PromptLocation := "\n    - Target Location: "
  const PromptTail := "\n\n    Focus on people asking for recommendations, expressing pain points, or seeking services related to these keywords. \n    Analyze public discussions from platforms like Reddit, LinkedIn, Twitter, and niche forums.\n    \n    Return 3-5 high-quality leads found via Search Grounding.\n    For each lead, provide:\n    1. A catchy title.\n    2. A brief snippet.\n    3. The platform name.\n  "

  /** The template string `findLeads` sends for a collection. */
  function Prompt(file: KeywordFile): (r: string)
    ensures |PromptHead| + |PromptTail| <= |r|
    ensures r[..|PromptHead|] == PromptHead && r[|r| - |PromptTail|..] == PromptTail
  {
    Fill(PromptHead, file.niche, PromptKeywords, Join(file.keywords, ", "),
         PromptLocation, file.location, PromptTail)
  }

  /** Template text with three values spliced between four fixed parts. */
  function Fill(p0: string, v0: string, p1: string, v1: string, p2: string, v2: string, p3: string): (r: string)
    ensures |r| == |p0| + |v0| + |p1| + |v1| + |p2| + |v2| + |p3|
    ensures r[..|p0|] == p0 && r[|r| - |p3|..] == p3
  {
    var r := p0 + v0 + p1 + v1 + p2 + v2 + p3;
    assert r == p0 + (v0 + p1 + v1 + p2 + v2 + p3);
    r
  }

  lemma FillContainsValues(p0: string, v0: string, p1: string, v1: string, p2: string, v2: string, p3: string)
    ensures var s := Fill(p0, v0, p1, v1, p2, v2, p3);
      Contains(s, v0) && Contains(s, v1) && Contains(s, v2)
  {
    var s := Fill(p0, v0, p1, v1, p2, v2, p3);
    assert s == p0 + v0 + (p1 + v1 + p2 + v2 + p3);
    ContainsMiddle(p0, v0, p1 + v1 + p2 + v2 + p3);
    assert s == (p0 + v0 + p1) + v1 + (p2 + v2 + p3);
    ContainsMiddle(p0 + v0 + p1, v1, p2 + v2 + p3);
    assert s == (p0 + v0 + p1 + v1 + p2) + v2 + p3;
    ContainsMiddle(p0 + v0 + p1 + v1 + p2, v2, p3);
  }

  /** Each value sits right after the fixed part before it, and the last
      fixed part ends the text. */
  lemma FillPlacesValues(p0: string, v0: string, p1: string, v1: string, p2: string, v2: string, p3: string)
    ensures var s := Fill(p0, v0, p1, v1, p2, v2, p3);
      var n1 := |p0| + |v0| + |p1|;
      var n2 := n1 + |v1| + |p2|;
      && s[|p0|..|p0| + |v0|] == v0 && s[|p0| + |v0|..n1] == p1
      && s[n1..n1 + |v1|] == v1 && s[n1 + |v1|..n2] == p2
      && s[n2..n2 + |v2|] == v2 && s[n2 + |v2|..] == p3
  {
    var s := Fill(p0, v0, p1, v1, p2, v2, p3);
    assert s == p0 + v0 + p1 + v1 + p2 + v2 + p3;
  }

  /** The prompt names the niche, the keywords joined by ", ", and the
      location. */
  lemma PromptMentionsProfile(file: KeywordFile)
    ensures Contains(Prompt(file), file.niche)
    ensures Contains(Prompt(file), Join(file.keywords, ", "))
    ensures Contains(Prompt(file), file.location)
  {
    FillContainsValues(PromptHead, file.niche, PromptKeywords, Join(file.keywords, ", "),
                       PromptLocation, file.location, PromptTail);
  }

  /** Where each value sits: the niche right after the header, the joined
      keywords right after "- Keywords: ", the location right after
      "- Target Location: ", and the fixed instructions close the prompt. */
  lemma PromptPlacesProfile(file: KeywordFile)
    ensures var s := Prompt(file);
      var ks := Join(file.keywords, ", ");
      var n1 := |PromptHead| + |file.niche| + |PromptKeywords|;
      var n2 := n1 + |ks| + |PromptLocation|;
      && s[|PromptHead|..|PromptHead| + |file.niche|] == file.niche
      && s[n1..n1 + |ks|] == ks
      && s[n2..n2 + |file.location|] == file.location
      && s[n2 + |file.location|..] == PromptTail
  {
    FillPlacesValues(PromptHead, file.niche, PromptKeywords, Join(file.keywords, ", "),
                     PromptLocation, file.location, PromptTail);
  }

  /** Only niche, keywords and location reach the prompt: the exclude
      keywords, name, id and creation time never do. */
  lemma PromptIgnoresOtherFields(f: KeywordFile, g: KeywordFile)
    requires f.niche == g.niche && f.keywords == g.keywords && f.location == g.location
    ensures Prompt(f) == Prompt(g)
  {
  }

  // ----- platform classification -----------------------------------------

  /** The alternatives of `/linkedin|reddit|twitter|facebook|instagram|quora/i`,
      in the order the regex tries them. */
  const PlatformNames: seq<string> := ["linkedin", "reddit", "twitter", "facebook", "instagram", "quora"]

  const WebContent := "Web Content"

  /** Platform name `n` matches `u` at `i`, ignoring ASCII case. */
  predicate NameAt(u: string, i: nat, n: string) {
    i + |n| <= |u| && Lower(u[i..i + |n|]) == n
  }

  /** Some platform name matches `u` somewhere. */
  ghost predicate MentionsPlatform(u: string) {
    exists j: nat, n :: n in PlatformNames && NameAt(u, j, n)
  }

  /** Name `n` matches at `j` and no name matches earlier: where a
      leftmost regex match starts. */
  ghost predicate FirstMentionAt(u: string, j: nat, n: string) {
    && n in PlatformNames && NameAt(u, j, n)
    && forall j': nat, n' :: j' < j && n' in PlatformNames ==> !NameAt(u, j', n')
  }

  /** The first alternative from index `k` on that matches at `i`. */
  function NameMatchFrom(u: string, i: nat, k: nat): (r: Option<string>)
    requires k <= |PlatformNames|
    decreases |PlatformNames| - k
    ensures r.Some? ==> r.value in PlatformNames && NameAt(u, i, r.value)
    ensures r.None? ==> forall m :: k <= m < |PlatformNames| ==> !NameAt(u, i, PlatformNames[m])
  {
    if k == |PlatformNames| then None
    else if NameAt(u, i, PlatformNames[k]) then Some(PlatformNames[k])
    else NameMatchFrom(u, i, k + 1)
  }

  /** The leftmost position at or after `i` where some name matches, with
      that name. */
  function SearchFrom(u: string, i: nat): (r: Option<(nat, string)>)
    decreases |u| - i
    ensures r.Some? ==> i <= r.value.0 && r.value.1 in PlatformNames && NameAt(u, r.value.0, r.value.1)
    ensures r.Some? ==> forall j: nat, n :: i <= j < r.value.0 && n in PlatformNames ==> !NameAt(u, j, n)
    ensures r.None? ==> forall j: nat, n :: i <= j && n in PlatformNames ==> !NameAt(u, j, n)
  {
    if i >= |u| then None
    else
      match NameMatchFrom(u, i, 0)
      case Some(n) => Some((i, n))
      case None => SearchFrom(u, i + 1)
  }

  /** What `platformMatch[0].charAt(0).toUpperCase() + platformMatch[0].slice(1)` makes of a match. */
  function Capitalize(m: string): string {
    if m == [] then [] else [UpperChar(m[0])] + m[1..]
  }

  /** The platform label of a chunk's uri. It is "Web Content" exactly when
      there is no uri or no platform name occurs in it (ignoring case);
      otherwise it is the leftmost occurrence, spelt as in the uri but with
      its first letter upper-cased, so that its lower-case form is one of the
      six names. */
  function PlatformOf(uri: Option<string>): (r: string)
    ensures r != []
    ensures r == WebContent <==> uri.None? || !MentionsPlatform(uri.value)
    ensures r != WebContent ==> uri.Some? && Lower(r) in PlatformNames
    ensures r != WebContent ==>
      exists j: nat :: j + |r| <= |uri.value| && FirstMentionAt(uri.value, j, Lower(r))
        && r[0] == UpperChar(uri.value[j]) && r[1..] == uri.value[j + 1..j + |r|]
  {
    if uri.None? then WebContent
    else
      match SearchFrom(uri.value, 0)
      case None =>
        NoMatchNoMention(uri.value);
        WebContent
      case Some((j, n)) =>
        CapitalizedMatch(uri.value, j, n);
        Capitalize(uri.value[j..j + |n|])
  }

  lemma NoMatchNoMention(u: string)
    requires SearchFrom(u, 0).None?
    ensures !MentionsPlatform(u)
  {
  }

  /** The label built from the leftmost match lower-cases back to the
      matched name and keeps the uri's spelling after its first letter. */
  lemma CapitalizedMatch(u: string, j: nat, n: string)
    requires SearchFrom(u, 0) == Some((j, n))
    ensures j + |n| <= |u| && FirstMentionAt(u, j, n) && MentionsPlatform(u)
    ensures var r := Capitalize(u[j..j + |n|]);
      && |r| == |n| && r != [] && Lower(r) == n && r != WebContent
      && r[0] == UpperChar(u[j]) && r[1..] == u[j + 1..j + |r|]
      && FirstMentionAt(u, j, Lower(r))
  {
    var m := u[j..j + |n|];
    assert n != [];
    var r := Capitalize(m);
    assert |r| == |n|;
    assert Lower(r)[0] == LowerChar(UpperChar(m[0])) == LowerChar(m[0]);
    assert forall k :: 0 < k < |n| ==> Lower(r)[k] == Lower(m)[k];
    assert Lower(r) == Lower(m);
    assert |n| < |WebContent|;
  }

  // ----- chunks to leads --------------------------------------------------

  /** `chunk.web?.uri`. */
  function UriOf(chunk: Chunk): Option<string> {
    if chunk.web.Some? then chunk.web.value.uri else None
  }

  /** `chunk.web?.title`. */
  function TitleOf(chunk: Chunk): Option<string> {
    if chunk.web.Some? then chunk.web.value.title else None
  }

  /** `a || b` on an optional string: a missing or empty string is falsy. */
  function OrElse(a: Option<string>, b: string): string {
    if a.Some? && a.value != "" then a.value else b
  }

  /** `lead-${Date.now()}-${index}`. */
  function LeadId(now: nat, index: nat): (r: string)
    ensures var p := "lead-" + NatToString(now) + "-";
      && |p| < |r| && r[..|p|] == p
      && (forall k :: |p| <= k < |r| ==> IsDigit(r[k]))
      && ParseNat(r[|p|..]) == index
  {
    var p := "lead-" + NatToString(now) + "-";
    var r := p + NatToString(index);
    assert r[|p|..] == NatToString(index);
    ParseNatToString(index);
    r
  }

  /** Within one scan (one clock value) distinct positions get distinct ids. */
  lemma LeadIdInjective(now: nat, i: nat, j: nat)
    requires LeadId(now, i) == LeadId(now, j)
    ensures i == j
  {
    var p := "lead-" + NatToString(now) + "-";
    assert LeadId(now, i)[|p|..] == NatToString(i);
    assert LeadId(now, j)[|p|..] == NatToString(j);
    NatToStringInjective(i, j);
  }

  /** The snippet every lead of a scan gets; `${keywords[0]}` renders a
      missing first keyword as "undefined". */
  function Snippet(file: KeywordFile): (r: string)
    ensures Contains(r, file.location)
    ensures Contains(r, if |file.keywords| > 0 then file.keywords[0] else "undefined")
  {
    var first := if |file.keywords| > 0 then file.keywords[0] else "undefined";
    var r := "Lead found regarding " + first + " in " + file.location + ". Based on current web discussions.";
    assert r == "Lead found regarding " + first + (" in " + file.location + ". Based on current web discussions.");
    ContainsMiddle("Lead found regarding ", first, " in " + file.location + ". Based on current web discussions.");
    assert r == ("Lead found regarding " + first + " in ") + file.location + ". Based on current web discussions.";
    ContainsMiddle("Lead found regarding " + first + " in ", file.location, ". Based on current web discussions.");
    r
  }

  /** The object literal the `sources.map` callback builds, as written: it
      sets no `status`. */
  function ChunkToLeadAsWritten(chunk: Chunk, index: nat, file: KeywordFile, now: nat): (l: Lead)
    ensures l.platform == WebContent || Lower(l.platform) in PlatformNames
    ensures l.title != [] && l.url != []
    ensures l.status.None? && l.author.None? && l.authorAvatar.None?
  {
    var platform := PlatformOf(UriOf(chunk));
    Lead(
      id := LeadId(now, index),
      author := None,
      authorAvatar := None,
      title := OrElse(TitleOf(chunk), "Potential Lead from " + platform),
      snippet := Snippet(file),
      url := OrElse(UriOf(chunk), "#"),
      platform := platform,
      relevanceScore := 85,
      detectedAt := now,
      fileId := file.id,
      status := None,
      sentiment := Some(Positive))
  }

  /** The leads and sources `findLeads` resolves to, with the lead literal
      exactly as written. A failed call gives no leads and no sources;
      otherwise there is exactly one lead per grounding chunk, in chunk order
      (none when the chunk list is absent), each classified by its uri, with
      the title and url fallbacks, id `lead-<now>-<index>`, score 85, the
      file's id, one shared snippet, positive sentiment, no author and no
      status; and the ids are pairwise distinct. */
  function FindLeadsAsWritten(file: KeywordFile, outcome: SearchOutcome, now: nat): (r: SearchResult)
    ensures outcome.Failed? ==> r.leads == [] && r.sources == []
    ensures outcome.Answered? ==>
      r.sources == (if outcome.chunks.Some? then outcome.chunks.value else [])
    ensures |r.leads| == |r.sources|
    ensures forall i :: 0 <= i < |r.leads| ==>
      && r.leads[i].id == LeadId(now, i)
      && r.leads[i].platform == PlatformOf(UriOf(r.sources[i]))
      && r.leads[i].title == OrElse(TitleOf(r.sources[i]), "Potential Lead from " + r.leads[i].platform)
      && r.leads[i].url == OrElse(UriOf(r.sources[i]), "#")
    ensures forall i :: 0 <= i < |r.leads| ==>
      && r.leads[i].relevanceScore == 85 && r.leads[i].fileId == file.id
      && r.leads[i].snippet == Snippet(file) && r.leads[i].detectedAt == now
      && r.leads[i].author.None? && r.leads[i].authorAvatar.None?
      && r.leads[i].sentiment == Some(Positive) && r.leads[i].status.None?
    ensures forall i, j :: 0 <= i < j < |r.leads| ==> r.leads[i].id != r.leads[j].id
  {
    match outcome
    case Failed => SearchResult([], [])
    case Answered(chunks) =>
      var sources := if chunks.Some? then chunks.value else [];
      var leads := seq(|sources|, i requires 0 <= i < |sources| => ChunkToLeadAsWritten(sources[i], i, file, now));
      SearchResult(leads, sources)
  }

  /** The scan the rest of the model uses: the leads as written, each given
      the status every new lead is meant to start in, and nothing else
      changed. */
  function FindLeads(file: KeywordFile, outcome: SearchOutcome, now: nat): (r: SearchResult)
    ensures var w := FindLeadsAsWritten(file, outcome, now);
      && r.sources == w.sources && |r.leads| == |w.leads|
      && forall i :: 0 <= i < |r.leads| ==> r.leads[i] == w.leads[i].(status := Some(ToBeOutreached))
    ensures forall i :: 0 <= i < |r.leads| ==> r.leads[i].status == Some(ToBeOutreached)
  {
    var w := FindLeadsAsWritten(file, outcome, now);
    SearchResult(seq(|w.leads|, i requires 0 <= i < |w.leads| => w.leads[i].(status := Some(ToBeOutreached))), w.sources)
  }
}
