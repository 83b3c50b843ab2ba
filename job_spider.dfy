/** The `jobs` spider: which links a listing page of VietnamWorks or FPTJobs
    makes it follow, and the item each job page becomes. Pages are given as the
    strings the spider's selectors return; the requests it yields are values. */
module JobSpider {
  import opened Wrappers
  import opened Text

  // ---------------------------------------------------------------- requests

  /** The VietnamWorks listing the crawl starts from. */
  const VnwStart: string := "https://www.vietnamworks.com/tim-viec-lam/tim-tat-ca-viec-lam"

  /** The FPTJobs listing the crawl starts from. */
  const FptStart: string := "https://fptjobs.com/tuyen-dung"

  const StartUrls: seq<string> := [VnwStart, FptStart]

  /** The spider method a request is handed back to. */
  datatype Callback = Parse | ParseListingSelenium | ParseVnw | ParseFpt

  /** A request's `meta`: none, rendered by the browser, or rendered after a wait
      and a number of scrolls. */
  datatype Meta = NoMeta | Selenium | SeleniumScroll(wait: nat, scroll: nat)

  /** A yielded request: the link given to `response.follow` (which resolves it
      against the page), the callback and the meta. */
  datatype Request = Request(link: string, callback: Callback, meta: Meta)

  /** The meta of a browser-rendered listing: wait 4 seconds, scroll 3 times. */
  const Rendered: Meta := SeleniumScroll(4, 3)

  datatype Board = Vnw | Fpt

  /** The branch a listing's URL selects: "vietnamworks" is tested first. */
  function BoardOf(url: string): Option<Board> {
    if Contains(url, "vietnamworks") then Some(Vnw)
    else if Contains(url, "fptjobs") then Some(Fpt)
    else None
  }

  /** `start_requests`: every start URL rendered and scrolled, parsed by `parse`. */
  function StartRequests(): (r: seq<Request>)
    ensures |r| == |StartUrls|
    ensures forall k :: 0 <= k < |r| ==>
              r[k].link == StartUrls[k] && r[k].callback == Parse && r[k].meta == Rendered
  {
    seq(|StartUrls|, k requires 0 <= k < |StartUrls| => Request(StartUrls[k], Parse, Rendered))
  }

  // ---------------------------------------------------------------- listing links

  /** Every string stripped. */
  function StripAll(ts: seq<string>): (r: seq<string>)
    ensures |r| == |ts| && forall k :: 0 <= k < |ts| ==> r[k] == Strip(ts[k]) && IsStripped(r[k])
  {
    seq(|ts|, k requires 0 <= k < |ts| => Strip(ts[k]))
  }

  /** The elements of `xs` that satisfy `p`, in order. */
  function Filter<T(!new)>(xs: seq<T>, p: T -> bool): (r: seq<T>)
    ensures |r| <= |xs|
    ensures forall x :: x in r <==> x in xs && p(x)
  {
    if xs == [] then []
    else
      var r := Filter(xs[..|xs| - 1], p);
      assert xs == xs[..|xs| - 1] + [xs[|xs| - 1]];
      if p(xs[|xs| - 1]) then r + [xs[|xs| - 1]] else r
  }

  /** The elements of `xs`, each once, in the order they first appear. */
  function Unique<T(==,!new)>(xs: seq<T>): (r: seq<T>)
    ensures |r| <= |xs|
    ensures forall x :: x in r <==> x in xs
    ensures forall i, j :: 0 <= i < j < |r| ==> r[i] != r[j]
  {
    if xs == [] then []
    else
      var r := Unique(xs[..|xs| - 1]);
      assert xs == xs[..|xs| - 1] + [xs[|xs| - 1]];
      if xs[|xs| - 1] in r then r else r + [xs[|xs| - 1]]
  }

  predicate NonEmpty(t: string) {
    t != ""
  }

  /** The page's anchor values, stripped, without blanks, each once. The set the
      spider builds has no order; the model lists it in first-occurrence order. */
  function Hrefs(raw: seq<string>): (r: seq<string>)
    ensures forall h :: h in r <==> h != "" && h in StripAll(raw)
    ensures forall i, j :: 0 <= i < j < |r| ==> r[i] != r[j]
    ensures |r| <= |raw|
  {
    Unique(Filter(StripAll(raw), NonEmpty))
  }

  /** A link made absolute: kept when it starts with "http", otherwise resolved
      against the page (`urljoin`, given as `resolve`). */
  function Absolute(h: string, resolve: string -> string): string {
    if StartsWith(h, "http") then h else resolve(h)
  }

  function Absolutes(hs: seq<string>, resolve: string -> string): (r: seq<string>)
    ensures |r| == |hs| && forall k :: 0 <= k < |hs| ==> r[k] == Absolute(hs[k], resolve)
    ensures forall u :: u in r <==> exists h :: h in hs && u == Absolute(h, resolve)
  {
    var r := seq(|hs|, k requires 0 <= k < |hs| => Absolute(hs[k], resolve));
    forall u | exists h :: h in hs && u == Absolute(h, resolve)
      ensures u in r
    {
      var h :| h in hs && u == Absolute(h, resolve);
      var k :| 0 <= k < |hs| && hs[k] == h;
      assert r[k] == u;
    }
    r
  }

  /** A VietnamWorks job link: on the site, under one of the three job routes. */
  predicate IsVnwJobLink(u: string) {
    Contains(u, "vietnamworks.com") && (Contains(u, "/job/") || Contains(u, "/viec-lam/") || Contains(u, "/jobs/"))
  }

  /** The VietnamWorks job links of a listing: exactly the job links among the
      absolute forms of its non-blank stripped anchor values. */
  function VnwJobLinks(raw: seq<string>, resolve: string -> string): (r: seq<string>)
    ensures forall u :: u in r <==> IsVnwJobLink(u) && u in Absolutes(Hrefs(raw), resolve)
  {
    Filter(Absolutes(Hrefs(raw), resolve), IsVnwJobLink)
  }

  /** An FPTJobs detail path such as "/some-title-23273": a rooted path with a
      '-', whose last '-'-separated piece is all digits, and without "Error". */
  predicate IsFptDetailPath(h: string) {
    var pieces := Split(h, '-');
    StartsWith(h, "/") && '-' in h && IsDigits(pieces[|pieces| - 1]) && !Contains(h, "Error")
  }

  lemma {:induction false} DigitsFrom(s: string, j: int, k: int)
    ensures 0 <= j < k < |s| && IsDigits(s[j + 1..]) ==> IsDigit(s[k])
  {
    if 0 <= j < k < |s| && IsDigits(s[j + 1..]) {
      assert s[j + 1..][k - j - 1] == s[k];
    }
  }

  lemma {:induction false} ElementIn(s: string, k: int)
    ensures 0 <= k < |s| ==> s[k] in s
  {
  }

  /** The same test read off the string: a '-' followed by nothing but one or more
      digits up to the end. */
  lemma {:induction false} FptDetailPathShape(h: string)
    ensures IsFptDetailPath(h) <==>
              StartsWith(h, "/") && !Contains(h, "Error")
              && exists i :: 0 <= i < |h| && h[i] == '-' && IsDigits(h[i + 1..])
  {
    var pieces := Split(h, '-');
    var p := pieces[|pieces| - 1];
    LastPiece(h, '-');
    if '-' in h {
      assert |p| < |h| by {
        if |p| == |h| { assert false; }
      }
      var i := |h| - |p| - 1;
      assert h[i + 1..] == p;
      forall j | 0 <= j < |h| && h[j] == '-' && IsDigits(h[j + 1..])
        ensures j == i
      {
        if j < i {
          DigitsFrom(h, j, i);
          assert false;
        } else if j > i {
          ElementIn(p, j - i - 1);
          assert false;
        }
      }
    } else {
      forall i | 0 <= i < |h| ensures h[i] != '-' {
      }
    }
  }

  /** The FPTJobs job links: the overlay links when there are any, otherwise the
      anchor values that are detail paths. */
  function FptJobLinks(overlay: seq<string>, raw: seq<string>): (r: seq<string>)
    ensures overlay != [] ==> r == overlay
    ensures overlay == [] ==> forall h :: h in r <==> IsFptDetailPath(h) && h in StripAll(raw)
  {
    if overlay != [] then overlay
    else
      var r := Filter(Hrefs(raw), IsFptDetailPath);
      assert forall h :: IsFptDetailPath(h) ==> h != "";
      r
  }

  /** `a or b` on two optional selector results: the first unless it is missing
      or empty. */
  function OrNext(a: Option<string>, b: Option<string>): Option<string> {
    if a.Some? && a.value != "" then a else b
  }

  /** A listing page as the spider's selectors see it. */
  datatype Listing = Listing(
    url: string,
    anchors: seq<string>,       // every `a::attr(href)`
    overlay: seq<string>,       // every `a.link-overlay::attr(href)`
    relNext: Option<string>,    // the first `a[rel='next']` href
    textNext: Option<string>)   // the first href of a "Next" / "Sau" / "›" link

  /** The next-page request: the rel=next link, or else the link found by its
      text, followed (by `parse`, with no meta) only when non-empty. */
  function NextRequests(l: Listing): (r: seq<Request>)
    ensures |r| <= 1
    ensures forall k :: 0 <= k < |r| ==> r[k].callback == Parse && r[k].meta == NoMeta && r[k].link != ""
    ensures r == [] <==> (l.relNext.None? || l.relNext.value == "") && (l.textNext.None? || l.textNext.value == "")
  {
    var n := OrNext(l.relNext, l.textNext);
    if n.Some? && n.value != "" then [Request(n.value, Parse, NoMeta)] else []
  }

  function DetailCallback(b: Board): Callback {
    match b
    case Vnw => ParseVnw
    case Fpt => ParseFpt
  }

  /** One detail request per job link, in order, rendered by the browser. */
  function Follow(links: seq<string>, b: Board): (r: seq<Request>)
    ensures |r| == |links|
    ensures forall k :: 0 <= k < |r| ==> r[k] == Request(links[k], DetailCallback(b), Selenium)
  {
    seq(|links|, k requires 0 <= k < |links| => Request(links[k], DetailCallback(b), Selenium))
  }

  function JobLinks(b: Board, l: Listing, resolve: string -> string): seq<string> {
    match b
    case Vnw => VnwJobLinks(l.anchors, resolve)
    case Fpt => FptJobLinks(l.overlay, l.anchors)
  }

  /** `parse`: with no job links, the page once more, rendered, to
      `parse_listing_selenium`, and nothing else; otherwise its job links, then
      the next page. */
  function ParseListing(l: Listing, resolve: string -> string): seq<Request> {
    match BoardOf(l.url)
    case None => []
    case Some(b) =>
      var links := JobLinks(b, l, resolve);
      if links == [] then [Request(l.url, ParseListingSelenium, Rendered)]
      else Follow(links, b) + NextRequests(l)
  }

  /** What `parse` yields on a page of either board: the single re-render request
      exactly when it finds no job link; otherwise one detail request per job link,
      in order, and at most one next-page request after them. */
  lemma {:induction false} ParseListingRequests(l: Listing, resolve: string -> string)
    requires BoardOf(l.url).Some?
    ensures var b := BoardOf(l.url).value;
            var links := JobLinks(b, l, resolve);
            var r := ParseListing(l, resolve);
            (links == [] <==> r == [Request(l.url, ParseListingSelenium, Rendered)])
            && (links != [] ==>
                  |links| <= |r| <= |links| + 1
                  && (forall k :: 0 <= k < |links| ==> r[k] == Request(links[k], DetailCallback(b), Selenium))
                  && r[|links|..] == NextRequests(l))
  {
    var b := BoardOf(l.url).value;
    var links := JobLinks(b, l, resolve);
    var r := ParseListing(l, resolve);
    if links != [] {
      assert r == Follow(links, b) + NextRequests(l);
      assert r[0].callback == DetailCallback(b);
      assert r[|links|..] == NextRequests(l);
    }
  }

  /** The links `parse_listing_selenium` keeps from a rendered page: "/job/" links
      on VietnamWorks; "/viec-lam/" links without "Error" on FPTJobs. */
  predicate IsRenderedJobLink(b: Board, h: string) {
    match b
    case Vnw => Contains(h, "/job/")
    case Fpt => Contains(h, "/viec-lam/") && !Contains(h, "Error")
  }

  function RenderedJobLinks(b: Board, raw: seq<string>): (r: seq<string>)
    ensures forall h :: h in r <==> IsRenderedJobLink(b, h) && h != "" && h in StripAll(raw)
  {
    Filter(Hrefs(raw), h => IsRenderedJobLink(b, h))
  }

  /** `parse_listing_selenium`: the rendered page's job links, then the next page. */
  function ParseRendered(l: Listing): seq<Request> {
    match BoardOf(l.url)
    case None => []
    case Some(b) => Follow(RenderedJobLinks(b, l.anchors), b) + NextRequests(l)
  }

  /** A listing is rendered at most once per page: `parse` yields at most one
      re-render request, and `parse_listing_selenium` none, so a page without job
      links cannot send the spider round in a loop. */
  lemma {:induction false} RenderedAtMostOnce(l: Listing, resolve: string -> string)
    ensures forall i, j :: 0 <= i < j < |ParseListing(l, resolve)| ==>
              ParseListing(l, resolve)[i].callback != ParseListingSelenium
              || ParseListing(l, resolve)[j].callback != ParseListingSelenium
    ensures forall k :: 0 <= k < |ParseRendered(l)| ==> ParseRendered(l)[k].callback != ParseListingSelenium
  {
    var r := ParseListing(l, resolve);
    if BoardOf(l.url).Some? {
      var b := BoardOf(l.url).value;
      if JobLinks(b, l, resolve) != [] {
        var f := Follow(JobLinks(b, l, resolve), b);
        assert r == f + NextRequests(l);
        forall k | 0 <= k < |r| ensures r[k].callback != ParseListingSelenium {
          if k < |f| { assert r[k] == f[k]; } else { assert r[k] == NextRequests(l)[k - |f|]; }
        }
      }
      var f := Follow(RenderedJobLinks(b, l.anchors), b);
      var rr := ParseRendered(l);
      forall k | 0 <= k < |rr| ensures rr[k].callback != ParseListingSelenium {
        if k < |f| { assert rr[k] == f[k]; } else { assert rr[k] == NextRequests(l)[k - |f|]; }
      }
    }
  }

  // ---------------------------------------------------------------- job pages

  /** `a or b` on two strings: the first unless it is empty. */
  function Or(a: string, b: string): string {
    if a != "" then a else b
  }

  /** `l or m` on two lists of fragments: the first unless it is empty. */
  function OrList(l: seq<string>, m: seq<string>): seq<string> {
    if l != [] then l else m
  }

  /** The fragments' non-blank stripped forms, in order. */
  function Kept(ts: seq<string>): (r: seq<string>)
    ensures forall k :: 0 <= k < |r| ==> r[k] != "" && IsStripped(r[k])
    ensures forall x :: x in r <==> x != "" && x in StripAll(ts)
  {
    var stripped := StripAll(ts);
    var r := Filter(stripped, NonEmpty);
    forall k | 0 <= k < |r| ensures r[k] != "" && IsStripped(r[k]) {
      assert r[k] in r;
      var i :| 0 <= i < |stripped| && stripped[i] == r[k];
    }
    r
  }

  /** No fragment survives exactly when every fragment is blank. */
  lemma {:induction false} KeptEmpty(ts: seq<string>)
    ensures Kept(ts) == [] <==> forall i :: 0 <= i < |ts| ==> AllIn(ts[i], Whitespace)
  {
    var stripped := StripAll(ts);
    forall i | 0 <= i < |ts| {
      StripEmptyIffAllSpace(ts[i], Whitespace);
    }
    if Kept(ts) != [] {
      assert Kept(ts)[0] in stripped;
      var i :| 0 <= i < |ts| && stripped[i] == Kept(ts)[0];
      assert !AllIn(ts[i], Whitespace);
    } else {
      forall i | 0 <= i < |ts| ensures AllIn(ts[i], Whitespace) {
        assert stripped[i] in stripped;
      }
    }
  }

  /** Joining non-empty pieces starts with the first piece's first character and
      ends with the last piece's last character. */
  lemma {:induction false} JoinEnds(parts: seq<string>, sep: string)
    requires parts != [] && forall k :: 0 <= k < |parts| ==> parts[k] != ""
    ensures var j := Join(parts, sep);
            j != [] && j[0] == parts[0][0] && j[|j| - 1] == parts[|parts| - 1][|parts[|parts| - 1]| - 1]
  {
    if |parts| > 1 {
      JoinEnds(parts[1..], sep);
    }
  }

  /** The ", "- or " "-join of the stripped non-blank fragments. */
  function JoinKept(ts: seq<string>, sep: string): string {
    Join(Kept(ts), sep)
  }

  /** Joining non-empty stripped pieces gives a stripped text. */
  lemma {:induction false} JoinStripped(parts: seq<string>, sep: string)
    requires forall k :: 0 <= k < |parts| ==> parts[k] != "" && IsStripped(parts[k])
    ensures IsStripped(Join(parts, sep))
  {
    if parts != [] {
      JoinEnds(parts, sep);
      var first := parts[0];
      var last := parts[|parts| - 1];
      assert first != "" && IsStripped(first) && first[0] !in Whitespace;
      assert last != "" && IsStripped(last) && last[|last| - 1] !in Whitespace;
    }
  }

  /** The joined text is itself stripped. */
  lemma {:induction false} JoinKeptStripped(ts: seq<string>, sep: string)
    ensures IsStripped(JoinKept(ts, sep))
  {
    JoinStripped(Kept(ts), sep);
  }

  /** The joined text is empty exactly when every fragment is blank. */
  lemma {:induction false} JoinKeptEmpty(ts: seq<string>, sep: string)
    ensures JoinKept(ts, sep) == "" <==> forall i :: 0 <= i < |ts| ==> AllIn(ts[i], Whitespace)
  {
    KeptEmpty(ts);
    if Kept(ts) != [] {
      JoinEnds(Kept(ts), sep);
    }
  }

  /** The keys of a job item. */
  const ItemKeys: set<string> := {"site", "url", "title", "company", "location", "salary", "deadline", "description"}

  datatype Job = Job(site: string, url: string, title: string, company: string, location: string,
                     salary: string, deadline: string, description: string)

  /** The yielded dictionary. */
  function Item(j: Job): (r: map<string, string>)
    ensures r.Keys == ItemKeys
    ensures r["site"] == j.site && r["url"] == j.url && r["title"] == j.title && r["company"] == j.company
            && r["location"] == j.location && r["salary"] == j.salary && r["deadline"] == j.deadline
            && r["description"] == j.description
  {
    map["site" := j.site, "url" := j.url, "title" := j.title, "company" := j.company,
        "location" := j.location, "salary" := j.salary, "deadline" := j.deadline,
        "description" := j.description]
  }

  /** A job page as the spider's selectors see it; a selector that finds nothing
      gives "" (its `default`) or the empty list. */
  datatype JobPage = JobPage(
    url: string,
    h1: string,             // `h1::text`
    heading: string,        // the first h1 or h2 text
    company: string,        // VietnamWorks `.employer a::text`; FPTJobs `.company-title a::text`
    companyAlt: string,     // VietnamWorks `og:site_name`; FPTJobs a company link's text
    locations: seq<string>, // VietnamWorks location spans; FPTJobs `.job-location span::text`
    locationsAlt: seq<string>, // FPTJobs texts under a `location` class
    salary: string,         // VietnamWorks `span.salary::text`; FPTJobs `.job-salary::text`
    salaryAlt: string,      // the first text mentioning '$', "VND" or "USD"
    deadline: string,       // FPTJobs `.expire-date::text`, or VietnamWorks' "Hạn nộp" span
    deadlineAlt: string,    // FPTJobs' "Hạn nộp" / "Deadline" text
    description: seq<string>,    // `.job-description *::text`
    descriptionAlt: seq<string>) // the texts of a "Mô tả" / "Description" section

  /** The title: the stripped h1 text, or the stripped first heading when that is empty. */
  function Title(p: JobPage): string {
    Or(Strip(p.h1), Strip(p.heading))
  }

  /** The title falls back exactly when the h1 text is blank. */
  lemma {:induction false} TitleFallsBack(p: JobPage)
    ensures Title(p) == (if AllIn(p.h1, Whitespace) then Strip(p.heading) else Strip(p.h1))
  {
    StripEmptyIffAllSpace(p.h1, Whitespace);
  }

  /** `parse_vnw`: company and salary fall back only on an empty raw value and are
      stripped after. */
  function VnwJob(p: JobPage): Job {
    Job("Vietnamworks", p.url, Title(p), Strip(Or(p.company, p.companyAlt)), JoinKept(p.locations, ", "),
        Strip(Or(p.salary, p.salaryAlt)), Strip(p.deadline), JoinKept(OrList(p.description, p.descriptionAlt), " "))
  }

  /** `parse_fpt`: every single-valued field falls back on an empty stripped value. */
  function FptJob(p: JobPage): Job {
    Job("FPTJobs", p.url, Title(p), Or(Strip(p.company), Strip(p.companyAlt)),
        JoinKept(OrList(p.locations, p.locationsAlt), ", "), Or(Strip(p.salary), Strip(p.salaryAlt)),
        Or(Strip(p.deadline), Strip(p.deadlineAlt)), JoinKept(OrList(p.description, p.descriptionAlt), " "))
  }

  /** Every text field of a job is stripped. */
  predicate Clean(j: Job) {
    IsStripped(j.title) && IsStripped(j.company) && IsStripped(j.location) && IsStripped(j.salary)
    && IsStripped(j.deadline) && IsStripped(j.description)
  }

  /** `parse_vnw` yields one item: the eight keys, site "Vietnamworks", the page's
      URL, and stripped text everywhere else. */
  function ParseVnwPage(p: JobPage): (r: map<string, string>)
    ensures r.Keys == ItemKeys
    ensures r["site"] == "Vietnamworks" && r["url"] == p.url
    ensures Clean(VnwJob(p))
    ensures r == Item(VnwJob(p))
  {
    JoinKeptStripped(p.locations, ", ");
    JoinKeptStripped(OrList(p.description, p.descriptionAlt), " ");
    Item(VnwJob(p))
  }

  /** `parse_fpt` yields one item: the eight keys, site "FPTJobs", the page's URL,
      and stripped text everywhere else. */
  function ParseFptPage(p: JobPage): (r: map<string, string>)
    ensures r.Keys == ItemKeys
    ensures r["site"] == "FPTJobs" && r["url"] == p.url
    ensures Clean(FptJob(p))
    ensures r == Item(FptJob(p))
  {
    JoinKeptStripped(OrList(p.locations, p.locationsAlt), ", ");
    JoinKeptStripped(OrList(p.description, p.descriptionAlt), " ");
    Item(FptJob(p))
  }

  /** On VietnamWorks a non-empty but blank employer name blocks the fallback: the
      company is empty exactly when the value used, the employer's or else the
      site name, is blank. */
  lemma {:induction false} VnwCompanyEmpty(p: JobPage)
    ensures VnwJob(p).company == "" <==>
              (p.company != "" && AllIn(p.company, Whitespace)) || (p.company == "" && AllIn(p.companyAlt, Whitespace))
  {
    StripEmptyIffAllSpace(p.company, Whitespace);
    StripEmptyIffAllSpace(p.companyAlt, Whitespace);
  }

  /** On FPTJobs the company is empty only when both candidates are blank. */
  lemma {:induction false} FptCompanyEmpty(p: JobPage)
    ensures FptJob(p).company == "" <==> AllIn(p.company, Whitespace) && AllIn(p.companyAlt, Whitespace)
  {
    StripEmptyIffAllSpace(p.company, Whitespace);
    StripEmptyIffAllSpace(p.companyAlt, Whitespace);
  }

  /** The description comes from the `.job-description` texts whenever there are
      any, even when they are all blank. */
  lemma {:induction false} DescriptionSource(p: JobPage)
    ensures p.description != [] ==>
              (VnwJob(p).description == "" <==> forall i :: 0 <= i < |p.description| ==> AllIn(p.description[i], Whitespace))
  {
    JoinKeptEmpty(p.description, " ");
  }
}
