/** The selection logic of crawl_data/lab4_project/lab4_project/spiders/
    selenium_scraper_it_courses.py. The browser is abstracted away: a search page
    is the sequence of anchors its selector found, each carrying what the
    element lookups on it return (None where a lookup or reading the text raises). */
module CourseScraper {
  import opened Wrappers
  import opened Text

  /** The four platforms, in the order the orchestrator visits them. */
  datatype Site = Edumall | Coursera | EdX | DataCamp

  const Sites: seq<Site> := [Edumall, Coursera, EdX, DataCamp]

  /** A scraped course (the `Course` dataclass). */
  datatype Course = Course(platform: string, courseName: string, instructor: string,
                           timeInfo: string, outcomes: string, courseLink: string,
                           learningMode: string)

  /** One result link on a search page: its `href` and `aria-label` attributes,
      its text, whether the card around it was found, and the text of the
      instructor, time and description elements inside that card. */
  datatype Anchor = Anchor(href: Option<string>, ariaLabel: Option<string>, text: Option<string>,
                           cardFound: bool, instructor: Option<string>, timeInfo: Option<string>,
                           outcomes: Option<string>)

  /** The `platform` column. */
  function SiteName(site: Site): string {
    match site
    case Edumall => "Edumall"
    case Coursera => "Coursera"
    case EdX => "edX"
    case DataCamp => "DataCamp"
  }

  /** The search address up to the query. */
  function SearchPrefix(site: Site): string {
    match site
    case Edumall => "https://edumall.vn/search?query="
    case Coursera => "https://www.coursera.org/search?query="
    case EdX => "https://www.edx.org/search?q="
    case DataCamp => "https://www.datacamp.com/search?q="
  }

  /** How many times each extractor lets `scroll_to_load` scroll. */
  function ScrollBudget(site: Site): nat {
    if site == Edumall then 8 else 10
  }

  // ---------------------------------------------------------------- lines 70-74, 92, 157, 222, 285

  /** `safe_text`: the element's text stripped, or "" when reading it raises. */
  function SafeText(text: Option<string>): (r: string)
    ensures IsStripped(r)
  {
    if text.None? then "" else Strip(text.value)
  }

  /** `safe_text` returns a text without surrounding whitespace as it is, and
      gives "" exactly for a text that is all whitespace. */
  lemma SafeTextOf(text: string)
    ensures IsStripped(text) ==> SafeText(Some(text)) == text
    ensures SafeText(Some(text)) == "" <==> AllIn(text, Whitespace)
  {
    StripEmptyIffAllSpace(text, Whitespace);
    if IsStripped(text) {
      StripKeepsStripped(text, Whitespace);
    }
  }

  /** The address each extractor opens: the site's prefix, then the query with
      every space written as "%20". */
  function SearchUrl(site: Site, query: string): (r: string)
    ensures StartsWith(r, SearchPrefix(site))
    ensures ' ' !in r[|SearchPrefix(site)|..]
  {
    var r := SearchPrefix(site) + EncodeSpaces(query);
    assert r[|SearchPrefix(site)|..] == EncodeSpaces(query);
    r
  }

  /** The query can be read back from the address when it holds no '%', and a
      query without spaces is used as it is. */
  lemma {:induction false} SearchUrlQuery(site: Site, query: string)
    ensures '%' !in query ==> DecodeSpaces(SearchUrl(site, query)[|SearchPrefix(site)|..]) == query
    ensures ' ' !in query ==> SearchUrl(site, query) == SearchPrefix(site) + query
  {
    assert SearchUrl(site, query)[|SearchPrefix(site)|..] == EncodeSpaces(query);
    if '%' !in query {
      DecodeEncodeSpaces(query);
    }
    if ' ' !in query {
      EncodeWithoutSpaces(query);
    }
  }

  // ---------------------------------------------------------------- lines 77-85

  /** `scroll_to_load`: `height(0)` is the page height before scrolling and
      `height(k)` the height after the `k`-th scroll. Returns how many times it
      scrolled: at most `maxScrolls`, stopping at the first scroll that left the
      height unchanged. */
  method ScrollToLoad(height: nat -> int, maxScrolls: int) returns (scrolls: nat)
    ensures maxScrolls <= 0 ==> scrolls == 0
    ensures maxScrolls > 0 ==> 1 <= scrolls <= maxScrolls
    ensures forall k :: 1 <= k < scrolls ==> height(k) != height(k - 1)
    ensures 0 < scrolls < maxScrolls ==> height(scrolls) == height(scrolls - 1)
  {
    var lastHeight := height(0);
    scrolls := 0;
    while scrolls < maxScrolls
      invariant scrolls <= (if maxScrolls > 0 then maxScrolls else 0)
      invariant lastHeight == height(scrolls)
      invariant forall k :: 1 <= k <= scrolls ==> height(k) != height(k - 1)
      decreases maxScrolls - scrolls
    {
      scrolls := scrolls + 1;
      var newHeight := height(scrolls);
      if newHeight == lastHeight {
        return;
      }
      lastHeight := newHeight;
    }
  }

  /** The scrolling each extractor does before it reads its cards (lines 101,
      167, 232 and 295): at least once, at most its site's budget, and short of
      the budget only when the last scroll left the height unchanged. */
  method ScrollSite(site: Site, height: nat -> int) returns (scrolls: nat)
    ensures 1 <= scrolls <= ScrollBudget(site) <= 10
    ensures site == Edumall ==> scrolls <= 8
    ensures scrolls < ScrollBudget(site) ==> height(scrolls) == height(scrolls - 1)
  {
    scrolls := ScrollToLoad(height, ScrollBudget(site));
  }

  // ---------------------------------------------------------------- lines 139, 204, 267, 330

  /** `learning_mode` from the time and description texts: fixed for Edumall and
      DataCamp, a keyword search on `time_info + " " + outcomes` for the other
      two. */
  function LearningMode(site: Site, timeInfo: string, outcomes: string): string {
    var text := timeInfo + " " + outcomes;
    match site
    case Edumall => "Self-paced"
    case DataCamp => "Self-paced"
    case Coursera =>
      if ContainsIgnoreCase(text, "Self-paced") || ContainsIgnoreCase(text, "Flexible") then "Self-paced"
      else "Unknown"
    case EdX =>
      if ContainsIgnoreCase(text, "Self") || ContainsIgnoreCase(text, "Paced") || ContainsIgnoreCase(text, "self-paced")
      then "Self-paced"
      else "Unknown"
  }

  /** The mode is one of two labels; the keyword search never matches across the
      joining space, so it comes down to a keyword in either text, and edX's third
      keyword adds nothing to its first. */
  lemma {:induction false} LearningModeRules(site: Site, timeInfo: string, outcomes: string)
    ensures var m := LearningMode(site, timeInfo, outcomes);
      (m == "Self-paced" || m == "Unknown")
      && (site == Coursera ==>
            (m == "Self-paced" <==>
               ContainsIgnoreCase(timeInfo, "Self-paced") || ContainsIgnoreCase(timeInfo, "Flexible")
               || ContainsIgnoreCase(outcomes, "Self-paced") || ContainsIgnoreCase(outcomes, "Flexible")))
      && (site == EdX ==>
            (m == "Self-paced" <==>
               ContainsIgnoreCase(timeInfo, "Self") || ContainsIgnoreCase(timeInfo, "Paced")
               || ContainsIgnoreCase(outcomes, "Self") || ContainsIgnoreCase(outcomes, "Paced")))
  {
    var text := timeInfo + " " + outcomes;
    ContainsIgnoreCaseJoined(timeInfo, outcomes, "Self-paced");
    ContainsIgnoreCaseJoined(timeInfo, outcomes, "Flexible");
    ContainsIgnoreCaseJoined(timeInfo, outcomes, "Self");
    ContainsIgnoreCaseJoined(timeInfo, outcomes, "Paced");
    if ContainsIgnoreCase(text, "self-paced") {
      ContainsIgnoreCaseInfix(text, "self-paced", 0, 4);
      assert Lower("self-paced"[0..4]) == Lower("Self");
    }
  }

  // ---------------------------------------------------------------- lines 106-149 and the three copies

  /** `a.get_attribute("href") or ""` */
  function Href(a: Anchor): string {
    if a.href.Some? then a.href.value else ""
  }

  /** The title: Edumall reads the link's text; the others take the `aria-label`
      when it is non-empty (unstripped) and the text otherwise. */
  function Title(site: Site, a: Anchor): string {
    if site != Edumall && a.ariaLabel.Some? && a.ariaLabel.value != "" then a.ariaLabel.value
    else SafeText(a.text)
  }

  /** The card lookup of Coursera, edX and DataCamp is outside any `try`, so a
      link without a card makes the extractor raise; Edumall's lookup of the
      element itself cannot fail. */
  predicate Raises(site: Site, a: Anchor) {
    site != Edumall && !a.cardFound
  }

  /** The course an accepted link becomes. */
  function MakeCourse(site: Site, a: Anchor): Course {
    var timeInfo := SafeText(a.timeInfo);
    var outcomes := SafeText(a.outcomes);
    Course(SiteName(site), Title(site, a), SafeText(a.instructor), timeInfo, outcomes, Href(a),
           LearningMode(site, timeInfo, outcomes))
  }

  /** The links of the courses accepted so far (the extractor's `seen`). */
  function Links(cs: seq<Course>): set<string> {
    if cs == [] then {} else Links(cs[..|cs| - 1]) + {cs[|cs| - 1].courseLink}
  }

  /** A link is among them exactly when some course has it. */
  lemma {:induction false} InLinks(cs: seq<Course>, link: string)
    ensures link in Links(cs) <==> exists k :: 0 <= k < |cs| && cs[k].courseLink == link
  {
    if cs != [] {
      var init := cs[..|cs| - 1];
      InLinks(init, link);
      if link in Links(init) {
        var k :| 0 <= k < |init| && init[k].courseLink == link;
        assert cs[k] == init[k];
      }
      if exists k :: 0 <= k < |cs| && cs[k].courseLink == link {
        var k :| 0 <= k < |cs| && cs[k].courseLink == link;
        if k < |init| {
          assert init[k] == cs[k];
        }
      }
    }
  }

  /** Whether the loop takes the link: it has an address not taken yet, and a title. */
  predicate Fresh(site: Site, a: Anchor, cs: seq<Course>) {
    Href(a) != "" && Href(a) !in Links(cs) && Title(site, a) != ""
  }

  /** An extractor's loop over the anchors, described on prefixes: once `limit`
      courses are in, nothing more is looked at; None when a taken link makes the
      extractor raise. */
  function Extract(site: Site, anchors: seq<Anchor>, limit: int): Option<seq<Course>> {
    if anchors == [] then Some([])
    else
      match Extract(site, anchors[..|anchors| - 1], limit)
      case None => None
      case Some(cs) =>
        var a := anchors[|anchors| - 1];
        if |cs| >= limit || !Fresh(site, a, cs) then Some(cs)
        else if Raises(site, a) then None
        else Some(cs + [MakeCourse(site, a)])
  }

  /** One more anchor through the loop, as `Extract` takes it. */
  lemma {:induction false} ExtractNext(site: Site, anchors: seq<Anchor>, limit: int, i: nat, cs: seq<Course>)
    requires i < |anchors| && Extract(site, anchors[..i], limit) == Some(cs)
    ensures |cs| >= limit || !Fresh(site, anchors[i], cs) ==> Extract(site, anchors[..i + 1], limit) == Some(cs)
    ensures |cs| < limit && Fresh(site, anchors[i], cs) && Raises(site, anchors[i]) ==>
              Extract(site, anchors[..i + 1], limit).None?
    ensures |cs| < limit && Fresh(site, anchors[i], cs) && !Raises(site, anchors[i]) ==>
              Extract(site, anchors[..i + 1], limit) == Some(cs + [MakeCourse(site, anchors[i])])
  {
    assert anchors[..i + 1][..i] == anchors[..i];
  }

  /** Lines 106-149 (and 173-214, 238-277, 301-340): the extractor's loop. */
  method Select(site: Site, anchors: seq<Anchor>, limit: int) returns (courses: Option<seq<Course>>)
    ensures courses == Extract(site, anchors, limit)
  {
    var cs: seq<Course> := [];
    var seen: set<string> := {};
    for i := 0 to |anchors|
      invariant Extract(site, anchors[..i], limit) == Some(cs)
      invariant seen == Links(cs)
    {
      ExtractNext(site, anchors, limit, i, cs);
      if |cs| >= limit {
        ExtractSaturated(site, anchors, limit, i);
        return Some(cs);
      }
      var a := anchors[i];
      var href := Href(a);
      var title := Title(site, a);
      if href == "" || href in seen || title == "" {
        continue;
      }
      seen := seen + {href};
      if Raises(site, a) {
        ExtractFailsFrom(site, anchors, limit, i + 1);
        return None;
      }
      ghost var prev := cs;
      cs := cs + [MakeCourse(site, a)];
      assert cs[..|cs| - 1] == prev;
    }
    assert anchors[..|anchors|] == anchors;
    return Some(cs);
  }

  /** Once the limit is reached, the rest of the anchors change nothing. */
  lemma {:induction false} ExtractSaturated(site: Site, anchors: seq<Anchor>, limit: int, i: nat)
    requires i <= |anchors|
    requires Extract(site, anchors[..i], limit).Some? && |Extract(site, anchors[..i], limit).value| >= limit
    ensures Extract(site, anchors, limit) == Extract(site, anchors[..i], limit)
    decreases |anchors| - i
  {
    if i < |anchors| {
      assert anchors[..i + 1][..i] == anchors[..i];
      ExtractSaturated(site, anchors, limit, i + 1);
    } else {
      assert anchors[..i] == anchors;
    }
  }

  /** Once the extractor has raised, it stays raised. */
  lemma {:induction false} ExtractFailsFrom(site: Site, anchors: seq<Anchor>, limit: int, i: nat)
    requires i <= |anchors| && Extract(site, anchors[..i], limit).None?
    ensures Extract(site, anchors, limit).None?
    decreases |anchors| - i
  {
    if i < |anchors| {
      assert anchors[..i + 1][..i] == anchors[..i];
      ExtractFailsFrom(site, anchors, limit, i + 1);
    } else {
      assert anchors[..i] == anchors;
    }
  }

  /** No extractor returns more than `limit` courses, and none for a limit of
      zero or less. */
  lemma {:induction false} ExtractBound(site: Site, anchors: seq<Anchor>, limit: int)
    ensures Extract(site, anchors, limit).Some? ==>
              |Extract(site, anchors, limit).value| <= (if limit < 0 then 0 else limit)
  {
    if anchors != [] {
      ExtractBound(site, anchors[..|anchors| - 1], limit);
    }
  }

  /** No two courses share a link. */
  predicate DistinctLinks(cs: seq<Course>) {
    forall i, j :: 0 <= i < j < |cs| ==> cs[i].courseLink != cs[j].courseLink
  }

  /** A course whose link is not taken yet keeps the links distinct. */
  lemma {:induction false} DistinctAppend(cs: seq<Course>, c: Course)
    requires DistinctLinks(cs) && c.courseLink !in Links(cs)
    ensures DistinctLinks(cs + [c])
  {
    InLinks(cs, c.courseLink);
  }

  /** A course with a link and a name, the site's name and the mode its own
      texts give. */
  predicate WellFormed(site: Site, c: Course) {
    c.courseLink != "" && c.courseName != "" && c.platform == SiteName(site)
    && c.learningMode == LearningMode(site, c.timeInfo, c.outcomes)
  }

  /** Every course an extractor returns is well formed. */
  lemma {:induction false} ExtractFields(site: Site, anchors: seq<Anchor>, limit: int)
    ensures Extract(site, anchors, limit).Some? ==>
              forall k :: 0 <= k < |Extract(site, anchors, limit).value| ==>
                WellFormed(site, Extract(site, anchors, limit).value[k])
  {
    if anchors != [] {
      var init := anchors[..|anchors| - 1];
      ExtractFields(site, init, limit);
      if Extract(site, anchors, limit).Some? {
        var before := Extract(site, init, limit).value;
        var a := anchors[|anchors| - 1];
        var cs := Extract(site, anchors, limit).value;
        if cs != before {
          assert cs == before + [MakeCourse(site, a)] && Fresh(site, a, before);
          assert WellFormed(site, MakeCourse(site, a));
          forall k | 0 <= k < |cs|
            ensures WellFormed(site, cs[k])
          {
            if k < |before| {
              assert cs[k] == before[k];
            }
          }
        }
      }
    }
  }

  /** No two courses one extractor returns share a link. */
  lemma {:induction false} ExtractDistinct(site: Site, anchors: seq<Anchor>, limit: int)
    ensures Extract(site, anchors, limit).Some? ==> DistinctLinks(Extract(site, anchors, limit).value)
  {
    if anchors != [] {
      var init := anchors[..|anchors| - 1];
      ExtractDistinct(site, init, limit);
      if Extract(site, anchors, limit).Some? {
        var before := Extract(site, init, limit).value;
        var a := anchors[|anchors| - 1];
        if Extract(site, anchors, limit).value != before {
          DistinctAppend(before, MakeCourse(site, a));
        }
      }
    }
  }

  /** `xs` appears in `ys` in order, possibly with gaps. */
  predicate Subsequence<T(==)>(xs: seq<T>, ys: seq<T>) {
    if ys == [] then xs == []
    else (xs != [] && xs[|xs| - 1] == ys[|ys| - 1] && Subsequence(xs[..|xs| - 1], ys[..|ys| - 1]))
         || Subsequence(xs, ys[..|ys| - 1])
  }

  /** The course each anchor would become. */
  function Offered(site: Site, anchors: seq<Anchor>): (r: seq<Course>)
    ensures |r| == |anchors| && forall k :: 0 <= k < |anchors| ==> r[k] == MakeCourse(site, anchors[k])
  {
    seq(|anchors|, k requires 0 <= k < |anchors| => MakeCourse(site, anchors[k]))
  }

  /** Accepted courses keep the order of their anchors on the page. */
  lemma {:induction false} ExtractKeepsOrder(site: Site, anchors: seq<Anchor>, limit: int)
    ensures Extract(site, anchors, limit).Some? ==>
              Subsequence(Extract(site, anchors, limit).value, Offered(site, anchors))
  {
    if anchors != [] && Extract(site, anchors, limit).Some? {
      var init := anchors[..|anchors| - 1];
      ExtractKeepsOrder(site, init, limit);
      var offered := Offered(site, anchors);
      assert offered[..|offered| - 1] == Offered(site, init);
      var cs := Extract(site, anchors, limit).value;
      var before := Extract(site, init, limit).value;
      if cs != before {
        assert cs[..|cs| - 1] == before;
      }
    }
  }

  /** `seen` holds only links that were taken: a link first met without a title
      is taken when it comes again with one. */
  lemma {:induction false} TitleLaterAccepted(site: Site, first: Anchor, second: Anchor, limit: int)
    requires Href(first) == Href(second) != ""
    requires Title(site, first) == "" && Title(site, second) != ""
    requires !Raises(site, second) && limit >= 1
    ensures Extract(site, [first, second], limit) == Some([MakeCourse(site, second)])
  {
    var anchors := [first, second];
    assert anchors[..0] == [] && anchors[..2] == anchors;
    ExtractNext(site, anchors, limit, 0, []);
    assert !Fresh(site, first, []);
    ExtractNext(site, anchors, limit, 1, []);
    assert Links([]) == {};
    assert Fresh(site, second, []);
    assert [] + [MakeCourse(site, second)] == [MakeCourse(site, second)];
  }

  // ---------------------------------------------------------------- lines 346-394

  /** `scrape_<site>`: open the search page, then the loop. `page` is None when
      loading or reading the page raises. */
  method Scrape(site: Site, query: string, page: Option<seq<Anchor>>, limit: int)
    returns (visited: string, courses: Option<seq<Course>>)
    ensures visited == SearchUrl(site, query)
    ensures courses == (if page.None? then None else Extract(site, page.value, limit))
  {
    visited := SearchUrl(site, query);
    if page.None? {
      return visited, None;
    }
    courses := Select(site, page.value, limit);
  }

  /** What the sites contribute, in the order given: a site whose extractor
      raised contributes nothing. */
  function Gathered(results: seq<Option<seq<Course>>>): seq<Course> {
    if results == [] then []
    else Gathered(results[..|results| - 1])
         + (if results[|results| - 1].Some? then results[|results| - 1].value else [])
  }

  /** One more site's result, as `Gathered` takes it. */
  lemma {:induction false} GatheredNext(results: seq<Option<seq<Course>>>, k: nat)
    requires k < |results|
    ensures Gathered(results[..k + 1]) ==
              Gathered(results[..k]) + (if results[k].Some? then results[k].value else [])
  {
    assert results[..k + 1][..k] == results[..k];
  }

  /** Keeping the first course per link, in order of first appearance (the
      `dedup` dict, which keeps insertion order). */
  function FirstPerLink(cs: seq<Course>): seq<Course> {
    if cs == [] then []
    else
      var kept := FirstPerLink(cs[..|cs| - 1]);
      if cs[|cs| - 1].courseLink in Links(kept) then kept else kept + [cs[|cs| - 1]]
  }

  /** The links of one more course. */
  lemma {:induction false} LinksAppend(cs: seq<Course>, c: Course)
    ensures Links(cs + [c]) == Links(cs) + {c.courseLink}
  {
    assert (cs + [c])[..|cs|] == cs;
  }

  /** One more gathered course, as `FirstPerLink` takes it. */
  lemma {:induction false} FirstPerLinkNext(all: seq<Course>, i: nat)
    requires i < |all|
    ensures FirstPerLink(all[..i + 1]) ==
              if all[i].courseLink in Links(FirstPerLink(all[..i])) then FirstPerLink(all[..i])
              else FirstPerLink(all[..i]) + [all[i]]
  {
    assert all[..i + 1][..i] == all[..i];
  }

  /** Lines 376-379: the dict loop, its keys in insertion order beside it. */
  method Dedup(all: seq<Course>) returns (rows: seq<Course>)
    ensures rows == FirstPerLink(all)
  {
    var dedup: map<string, Course> := map[];
    var order: seq<string> := [];
    ghost var kept: seq<Course> := [];
    for i := 0 to |all|
      invariant kept == FirstPerLink(all[..i])
      invariant dedup.Keys == Links(kept)
      invariant |order| == |kept|
      invariant forall k :: 0 <= k < |kept| ==> order[k] in dedup && dedup[order[k]] == kept[k]
    {
      FirstPerLinkNext(all, i);
      var c := all[i];
      if c.courseLink !in dedup {
        LinksAppend(kept, c);
        dedup := dedup[c.courseLink := c];
        order := order + [c.courseLink];
        kept := kept + [c];
      }
    }
    assert all[..|all|] == all;
    rows := seq(|order|, k requires 0 <= k < |order| && order[k] in dedup => dedup[order[k]]);
    assert rows == kept;
  }

  /** What each site's extractor gives for its page, in the order of `Sites`. */
  function Results(pages: seq<Option<seq<Anchor>>>, perSite: int): (r: seq<Option<seq<Course>>>)
    requires |pages| == |Sites|
    ensures |r| == |Sites|
    ensures forall k :: 0 <= k < |Sites| ==>
              r[k] == (if pages[k].None? then None else Extract(Sites[k], pages[k].value, perSite))
  {
    seq(|Sites|, k requires 0 <= k < |Sites| =>
      if pages[k].None? then None else Extract(Sites[k], pages[k].value, perSite))
  }

  /** `run`: each site in turn with the same query and limit, a raising
      extractor caught and skipped, then one row per link. */
  method Run(query: string, perSite: int, pages: seq<Option<seq<Anchor>>>) returns (rows: seq<Course>)
    requires |pages| == |Sites|
    ensures rows == FirstPerLink(Gathered(Results(pages, perSite)))
  {
    ghost var results := Results(pages, perSite);
    var all: seq<Course> := [];
    for k := 0 to |Sites|
      invariant all == Gathered(results[..k])
    {
      var visited, courses := Scrape(Sites[k], query, pages[k], perSite);
      assert courses == results[k];
      GatheredNext(results, k);
      if courses.Some? {
        all := all + courses.value;
      }
    }
    assert results[..|Sites|] == results;
    rows := Dedup(all);
  }

  /** The rows have distinct links. */
  lemma {:induction false} FirstPerLinkDistinct(cs: seq<Course>)
    ensures DistinctLinks(FirstPerLink(cs))
  {
    if cs != [] {
      FirstPerLinkDistinct(cs[..|cs| - 1]);
      var before := FirstPerLink(cs[..|cs| - 1]);
      if cs[|cs| - 1].courseLink !in Links(before) {
        DistinctAppend(before, cs[|cs| - 1]);
      }
    }
  }

  /** Every gathered link has its row, and no row has a link that was not gathered. */
  lemma {:induction false} FirstPerLinkLinks(cs: seq<Course>)
    ensures Links(FirstPerLink(cs)) == Links(cs)
  {
    if cs != [] {
      FirstPerLinkLinks(cs[..|cs| - 1]);
      var before := FirstPerLink(cs[..|cs| - 1]);
      var rows := FirstPerLink(cs);
      if rows != before {
        assert rows[..|rows| - 1] == before;
      }
    }
  }

  /** `c` is gathered, and no course gathered before it has its link. */
  predicate FirstWithLink(cs: seq<Course>, c: Course) {
    exists i :: 0 <= i < |cs| && cs[i] == c && forall j :: 0 <= j < i ==> cs[j].courseLink != c.courseLink
  }

  /** A first course with its link stays first when more courses follow. */
  lemma {:induction false} FirstWithLinkGrow(init: seq<Course>, x: Course, c: Course)
    requires FirstWithLink(init, c)
    ensures FirstWithLink(init + [x], c)
  {
    var i :| 0 <= i < |init| && init[i] == c && forall j :: 0 <= j < i ==> init[j].courseLink != c.courseLink;
    assert (init + [x])[i] == c;
    assert forall j :: 0 <= j < i ==> (init + [x])[j] == init[j];
  }

  /** A course whose link was not gathered before is the first with its link. */
  lemma {:induction false} FirstWithLinkLast(init: seq<Course>, x: Course)
    requires x.courseLink !in Links(init)
    ensures FirstWithLink(init + [x], x)
  {
    InLinks(init, x.courseLink);
    assert (init + [x])[|init|] == x;
    assert forall j :: 0 <= j < |init| ==> (init + [x])[j] == init[j];
  }

  /** The first course with a link wins: each row is a gathered course that no
      earlier gathered course shares a link with. */
  lemma {:induction false} FirstPerLinkFirst(cs: seq<Course>)
    ensures forall r :: 0 <= r < |FirstPerLink(cs)| ==> FirstWithLink(cs, FirstPerLink(cs)[r])
  {
    if cs != [] {
      var init := cs[..|cs| - 1];
      var last := cs[|cs| - 1];
      assert cs == init + [last];
      FirstPerLinkFirst(init);
      var before := FirstPerLink(init);
      var rows := FirstPerLink(cs);
      forall r | 0 <= r < |rows|
        ensures FirstWithLink(cs, rows[r])
      {
        if r < |before| {
          assert rows[r] == before[r];
          FirstWithLinkGrow(init, last, before[r]);
        } else {
          FirstPerLinkLinks(init);
          assert rows[r] == last;
          FirstWithLinkLast(init, last);
        }
      }
    }
  }

  /** The rows keep the order in which their links first appear. */
  lemma {:induction false} FirstPerLinkKeepsOrder(cs: seq<Course>)
    ensures Subsequence(FirstPerLink(cs), cs)
  {
    if cs != [] {
      FirstPerLinkKeepsOrder(cs[..|cs| - 1]);
      var rows := FirstPerLink(cs);
      if rows != FirstPerLink(cs[..|cs| - 1]) {
        assert rows[..|rows| - 1] == FirstPerLink(cs[..|cs| - 1]);
      }
    }
  }

  // ---------------------------------------------------------------- lines 381-392

  /** The fixed column order of the output table. */
  const Columns: seq<string> :=
    ["platform", "course_name", "instructor", "time_info", "outcomes", "course_link", "learning_mode"]

  /** `asdict(c)`: the dataclass's fields by name. */
  function AsDict(c: Course): map<string, string> {
    map["platform" := c.platform, "course_name" := c.courseName, "instructor" := c.instructor,
        "time_info" := c.timeInfo, "outcomes" := c.outcomes, "course_link" := c.courseLink,
        "learning_mode" := c.learningMode]
  }

  /** `reindex(columns=cols)` on one row: a missing column would become None (NaN). */
  function Reindex(row: map<string, string>, cols: seq<string>): (r: seq<Option<string>>)
    ensures |r| == |cols|
  {
    seq(|cols|, k requires 0 <= k < |cols| => if cols[k] in row then Some(row[cols[k]]) else None)
  }

  /** Every column of the fixed order is a field of the dataclass, so reindexing
      only reorders: no empty cells, the fields in column order. */
  lemma {:induction false} ReindexComplete(c: Course)
    ensures AsDict(c).Keys == set k | 0 <= k < |Columns| :: Columns[k]
    ensures Reindex(AsDict(c), Columns)
            == [Some(c.platform), Some(c.courseName), Some(c.instructor), Some(c.timeInfo),
                Some(c.outcomes), Some(c.courseLink), Some(c.learningMode)]
  {
    var d := AsDict(c);
    assert d.Keys == {"platform", "course_name", "instructor", "time_info", "outcomes", "course_link", "learning_mode"};
    assert (set k | 0 <= k < |Columns| :: Columns[k])
           == {Columns[0], Columns[1], Columns[2], Columns[3], Columns[4], Columns[5], Columns[6]};
  }
}
