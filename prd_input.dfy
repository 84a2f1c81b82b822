/** The product-requirements input page: a document comes either from a
    Confluence fetch or from manual entry; the page estimates its number of
    features from Markdown headers and bullets, previews it, decides whether
    it may be submitted, and hands one record to both submit callbacks. */
module PrdInput {
  import opened Js

  // ---------------------------------------------------------------------
  // estimateFeatureCount: counting the matches of /^#+\s/gm and /^[-*]\s/gm

  /** `^` under the `m` flag: the start of the text or just after a line terminator. */
  predicate LineStart(s: string, p: nat) {
    p == 0 || (p <= |s| && IsLineTerminator(s[p - 1]))
  }

  /** Number of consecutive `#` characters of `s` from position `p`. */
  function HashRun(s: string, p: nat): (k: nat)
    ensures p + k <= |s| || k == 0
    ensures forall i :: p <= i < p + k ==> s[i] == '#'
    ensures p + k < |s| ==> s[p + k] != '#'
    decreases |s| - p
  {
    if p < |s| && s[p] == '#' then 1 + HashRun(s, p + 1) else 0
  }

  datatype Pattern = Header | Bullet | AnyLine

  /** Whether the pattern matches at `p` (ignoring `^`). `#+\s` backtracks
      only over `#`, so it matches exactly when the whole run of `#` is
      followed by a whitespace character. */
  predicate MatchAt(s: string, p: nat, pat: Pattern) {
    match pat
    case Header =>
      var k := HashRun(s, p);
      k >= 1 && p + k < |s| && IsWhiteSpace(s[p + k])
    case Bullet =>
      p + 1 < |s| && (s[p] == '-' || s[p] == '*') && IsWhiteSpace(s[p + 1])
    case AnyLine =>
      p < |s|
  }

  /** Length of the text a match at `p` consumes. */
  function MatchLength(s: string, p: nat, pat: Pattern): nat {
    match pat
    case Header => HashRun(s, p) + 1
    case Bullet => 2
    case AnyLine => 0
  }

  /** Number of positions below `n` where a line starts and `pat` matches. */
  function Matches(s: string, pat: Pattern, n: nat): (r: nat)
    requires n <= |s|
    ensures r <= n
  {
    if n == 0 then 0
    else Matches(s, pat, n - 1) + (if LineStart(s, n - 1) && MatchAt(s, n - 1, pat) then 1 else 0)
  }

  /** There is no match exactly when no line below `n` starts with the pattern. */
  lemma {:induction false} MatchesZero(s: string, pat: Pattern, n: nat)
    requires n <= |s|
    ensures Matches(s, pat, n) == 0 <==> forall p :: 0 <= p < n ==> !(LineStart(s, p) && MatchAt(s, p, pat))
  {
    if n > 0 {
      MatchesZero(s, pat, n - 1);
    }
  }

  /** A match never swallows the start of another line, so a global scan
      finds a match at every line start where the pattern matches: the
      number of matches is the number of such positions. */
  lemma MatchesDoNotOverlap(s: string, p: nat, pat: Pattern, q: nat)
    requires pat != AnyLine && MatchAt(s, p, pat)
    requires p < q < p + MatchLength(s, p, pat)
    ensures !LineStart(s, q)
  {
  }

  /** A line holds at most one header or bullet. */
  lemma {:induction false} MatchesWithinLines(s: string, n: nat)
    requires n <= |s|
    ensures Matches(s, Header, n) + Matches(s, Bullet, n) <= Matches(s, AnyLine, n)
  {
    if n > 0 {
      MatchesWithinLines(s, n - 1);
      var p := n - 1;
      assert !(MatchAt(s, p, Header) && MatchAt(s, p, Bullet)) by {
        if MatchAt(s, p, Header) {
          assert s[p] == '#';
        }
      }
      assert MatchAt(s, p, AnyLine);
    }
  }

  function Max(a: int, b: int): int {
    if a < b then b else a
  }

  /** `estimateFeatureCount`: a third of the headers and bullets, rounded
      down, and never less than one. */
  function EstimateFeatureCount(content: string): (r: nat)
    ensures r >= 1
    ensures var hb := Matches(content, Header, |content|) + Matches(content, Bullet, |content|);
      (hb < 6 ==> r == 1) && (hb >= 3 ==> 3 * r <= hb < 3 * r + 3)
  {
    var headers := Matches(content, Header, |content|);
    var bullets := Matches(content, Bullet, |content|);
    Max(1, (headers + bullets) / 3)
  }

  /** The estimate never exceeds a third of the number of lines (or one). */
  lemma FeatureCountAtMostLines(content: string)
    ensures EstimateFeatureCount(content) <= Max(1, Matches(content, AnyLine, |content|) / 3)
  {
    MatchesWithinLines(content, |content|);
  }

  // ---------------------------------------------------------------------
  // Preview and submit predicate

  /** `getContentPreview`: at most 200 characters, marked with "..." when cut. */
  function ContentPreview(content: string): (r: string)
    ensures |content| <= 200 ==> r == content
    ensures |content| > 200 ==> |r| == 203 && r[..200] == content[..200] && r[200..] == "..."
    ensures |r| <= 203
  {
    var cut := if |content| < 200 then |content| else 200;
    content[..cut] + (if |content| > 200 then "..." else "")
  }

  datatype Tab = Confluence | Manual

  /** The string has a character other than whitespace. */
  predicate HasVisibleChar(s: string) {
    exists i :: 0 <= i < |s| && !IsWhiteSpace(s[i])
  }

  /** `isSubmitDisabled`. */
  function IsSubmitDisabled(tab: Tab, isContentFetched: bool, prdTitle: string, manualContent: string): (r: bool)
    ensures tab == Confluence ==> (!r <==> isContentFetched && HasVisibleChar(prdTitle))
    ensures tab == Manual ==> (!r <==> HasVisibleChar(manualContent) && HasVisibleChar(prdTitle))
  {
    BlankIffAllWhiteSpace(prdTitle);
    BlankIffAllWhiteSpace(manualContent);
    if tab == Confluence then !isContentFetched || IsBlank(prdTitle)
    else IsBlank(manualContent) || IsBlank(prdTitle)
  }

  /** The record handed to `onSubmit` and `onGenerateTasks`. */
  datatype PrdData = PrdData(title: string, content: string, source: Tab,
                             confluenceUrl: Option<string>, estimatedFeatures: nat)

  /** The title a Confluence fetch sets. */
  const FetchedTitle: string := "User Management System PRD"

  lemma FetchedTitleVisible()
    ensures HasVisibleChar(FetchedTitle)
  {
    assert !IsWhiteSpace(FetchedTitle[0]);
  }

  class PrdInputPage {
    var activeTab: Tab
    var confluenceUrl: string
    var manualContent: string
    var prdTitle: string
    var isLoading: bool
    var fetchedContent: string
    var isContentFetched: bool
    /** Every record passed to `onSubmit`, oldest first. */
    var submitted: seq<PrdData>
    /** Every record passed to `onGenerateTasks`, oldest first. */
    var generated: seq<PrdData>

    constructor ()
      ensures activeTab == Confluence
      ensures confluenceUrl == "" && manualContent == "" && prdTitle == "" && fetchedContent == ""
      ensures !isLoading && !isContentFetched
      ensures submitted == [] && generated == []
    {
      activeTab := Confluence;
      confluenceUrl := "";
      manualContent := "";
      prdTitle := "";
      isLoading := false;
      fetchedContent := "";
      isContentFetched := false;
      submitted := [];
      generated := [];
    }

    /** The content of the active tab. */
    function Content(): string
      reads this
    {
      if activeTab == Confluence then fetchedContent else manualContent
    }

    predicate SubmitDisabled()
      reads this
    {
      IsSubmitDisabled(activeTab, isContentFetched, prdTitle, manualContent)
    }

    method SetActiveTab(tab: Tab)
      modifies this`activeTab
      ensures activeTab == tab
    {
      activeTab := tab;
    }

    method SetConfluenceUrl(url: string)
      modifies this`confluenceUrl
      ensures confluenceUrl == url
    {
      confluenceUrl := url;
    }

    method SetManualContent(content: string)
      modifies this`manualContent
      ensures manualContent == content
    {
      manualContent := content;
    }

    method SetPrdTitle(title: string)
      modifies this`prdTitle
      ensures prdTitle == title
    {
      prdTitle := title;
    }

    /** The synchronous part of `handleConfluenceFetch`: a blank URL changes
        nothing; otherwise loading starts and the fetch is under way. */
    method HandleConfluenceFetch() returns (started: bool)
      modifies this`isLoading
      ensures started <==> !IsBlank(confluenceUrl)
      ensures started ==> isLoading
      ensures !started ==> isLoading == old(isLoading)
    {
      if IsBlank(confluenceUrl) {
        return false;
      }
      isLoading := true;
      started := true;
    }

    /** The continuation of `handleConfluenceFetch` once the (simulated)
        request has answered with `mockContent`: the content and the title
        are filled in, the content counts as fetched, and loading ends. On
        the Confluence tab the document can then be submitted. */
    method CompleteConfluenceFetch(mockContent: string)
      modifies this`fetchedContent, this`prdTitle, this`isContentFetched, this`isLoading
      ensures fetchedContent == mockContent && prdTitle == FetchedTitle
      ensures isContentFetched && !isLoading
      ensures activeTab == Confluence ==> !SubmitDisabled()
    {
      fetchedContent := mockContent;
      prdTitle := FetchedTitle;
      isContentFetched := true;
      isLoading := false;
      FetchedTitleVisible();
    }

    /** `handleSubmit`: one record built from the active tab goes to both
        callbacks. */
    method HandleSubmit()
      modifies this`submitted, this`generated
      ensures |submitted| == |old(submitted)| + 1 && submitted[..|old(submitted)|] == old(submitted)
      ensures generated == old(generated) + [submitted[|submitted| - 1]]
      ensures var r := submitted[|submitted| - 1];
        && r.title == prdTitle && r.content == Content() && r.source == activeTab
        && (r.confluenceUrl.Some? <==> activeTab == Confluence)
        && (activeTab == Confluence ==> r.confluenceUrl.value == confluenceUrl && r.content == fetchedContent)
        && (activeTab == Manual ==> r.content == manualContent)
        && r.estimatedFeatures == EstimateFeatureCount(r.content)
    {
      var content := if activeTab == Confluence then fetchedContent else manualContent;
      var prdData := PrdData(prdTitle, content, activeTab,
                             if activeTab == Confluence then Some(confluenceUrl) else None,
                             EstimateFeatureCount(content));
      submitted := submitted + [prdData];
      generated := generated + [prdData];
    }
  }
}
