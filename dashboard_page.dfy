/**
 * The list helpers of the SmartTrack dashboard page: the per-status counts
 * of the page on screen and the chart built from them, Previous/Next page
 * clamping, the page reset when a filter changes, and the request URL of the
 * list query.
 */
module DashboardPage {
  import opened Wrappers
  import opened ApplicationSchema
  import Text

  /** The number of applications on the page with the given status. */
  function Occurrences(page: seq<Application>, s: AppStatus): (n: nat)
    ensures n <= |page|
  {
    if page == [] then 0
    else Occurrences(page[..|page| - 1], s) + (if page[|page| - 1].status == s then 1 else 0)
  }

  /**
   * statusCounts: the reduce over the page on screen builds a table with one
   * entry per status that occurs, holding its number of occurrences.
   */
  method StatusCounts(page: seq<Application>) returns (counts: map<AppStatus, nat>)
    ensures forall s :: s in counts <==> Occurrences(page, s) > 0
    ensures forall s :: s in counts ==> counts[s] == Occurrences(page, s)
  {
    counts := map[];
    for i := 0 to |page|
      invariant forall s :: s in counts <==> Occurrences(page[..i], s) > 0
      invariant forall s :: s in counts ==> counts[s] == Occurrences(page[..i], s)
    {
      assert page[..i + 1][..i] == page[..i];
      var status := page[i].status;
      counts := counts[status := (if status in counts then counts[status] else 0) + 1];
    }
    assert page[..|page|] == page;
  }

  /** The four statuses always add up to the page length. */
  lemma {:induction false} OccurrencesSum(page: seq<Application>)
    ensures Occurrences(page, Applied) + Occurrences(page, InProgress) + Occurrences(page, Offer)
            + Occurrences(page, Rejected) == |page|
  {
    if page != [] {
      OccurrencesSum(page[..|page| - 1]);
    }
  }

  datatype ChartBar = ChartBar(name: string, count: nat)

  /** `counts[key] || 0`. */
  function CountOf(counts: map<AppStatus, nat>, s: AppStatus): nat {
    if s in counts then counts[s] else 0
  }

  /** chartData: the four statuses in a fixed order, with a missing count shown as 0. */
  function ChartData(counts: map<AppStatus, nat>): (bars: seq<ChartBar>)
    ensures |bars| == 4
    ensures bars[0].name == "Applied" && bars[1].name == "In Progress"
    ensures bars[2].name == "Offer" && bars[3].name == "Rejected"
  {
    [ChartBar("Applied", CountOf(counts, Applied)), ChartBar("In Progress", CountOf(counts, InProgress)),
     ChartBar("Offer", CountOf(counts, Offer)), ChartBar("Rejected", CountOf(counts, Rejected))]
  }

  /** The statuses the four bars stand for, in the same order. */
  function BarStatus(k: nat): AppStatus
    requires k < 4
  {
    [Applied, InProgress, Offer, Rejected][k]
  }

  /**
   * Built from the counts of a page, each bar shows the number of
   * applications on that page with its status, and the bars add up to the
   * page length.
   */
  lemma {:induction false} ChartShowsPage(page: seq<Application>, counts: map<AppStatus, nat>)
    requires forall s :: s in counts <==> Occurrences(page, s) > 0
    requires forall s :: s in counts ==> counts[s] == Occurrences(page, s)
    ensures forall k :: 0 <= k < 4 ==> ChartData(counts)[k].count == Occurrences(page, BarStatus(k))
    ensures ChartData(counts)[0].count + ChartData(counts)[1].count + ChartData(counts)[2].count
            + ChartData(counts)[3].count == |page|
  {
    OccurrencesSum(page);
  }

  /** The Previous button: `Math.max(1, p - 1)`. */
  function Previous(p: int): (q: int)
    ensures q >= 1
    ensures p > 1 ==> q == p - 1
  {
    if p - 1 > 1 then p - 1 else 1
  }

  /** The Next button: `Math.min(totalPages, p + 1)`. */
  function Next(p: int, totalPages: int): (q: int)
    ensures q <= totalPages
    ensures p < totalPages ==> q == p + 1
  {
    if p + 1 < totalPages then p + 1 else totalPages
  }

  /** The pagination controls: shown only with more than one page; a button is disabled on the edge page. */
  datatype Pager = Pager(previousEnabled: bool, nextEnabled: bool)

  function Controls(page: int, totalPages: int): (c: Option<Pager>)
    ensures c.Some? <==> totalPages > 1
  {
    if totalPages > 1 then Some(Pager(page != 1, page != totalPages)) else None
  }

  /**
   * On a page within range the buttons keep it within range, an enabled
   * button moves to the neighbouring page and a disabled one would not move,
   * and Next then Previous (or Previous then Next) come back.
   */
  lemma {:induction false} PagingStaysInRange(page: int, totalPages: int)
    requires 1 <= page <= totalPages
    ensures 1 <= Previous(page) <= totalPages && 1 <= Next(page, totalPages) <= totalPages
    ensures Controls(page, totalPages).Some? ==>
            && (Controls(page, totalPages).value.previousEnabled <==> Previous(page) != page)
            && (Controls(page, totalPages).value.nextEnabled <==> Next(page, totalPages) != page)
    ensures page < totalPages ==> Previous(Next(page, totalPages)) == page
    ensures page > 1 ==> Next(Previous(page), totalPages) == page
  {
  }

  /** The state behind the list: current page, search text and status filter. */
  datatype ListView = ListView(page: int, searchQuery: string, statusFilter: string)

  /** Typing in the search box sets the text and goes back to page 1. */
  function SearchChanged(v: ListView, text: string): (w: ListView)
    ensures w.page == 1 && w.searchQuery == text && w.statusFilter == v.statusFilter
  {
    v.(searchQuery := text, page := 1)
  }

  /** Choosing a status sets the filter and goes back to page 1. */
  function FilterChanged(v: ListView, status: string): (w: ListView)
    ensures w.page == 1 && w.statusFilter == status && w.searchQuery == v.searchQuery
  {
    v.(statusFilter := status, page := 1)
  }

  /** The page size the dashboard asks for. */
  const PageSize := 6

  /** A query parameter as the server reads it. */
  datatype Param = Param(key: string, value: string)

  /** The parameters of the list query, with the given texts as the search and status values. */
  function ParamsFor(page: nat, searchQuery: string, statusFilter: string, searchText: string, statusText: string)
    : seq<Param>
  {
    var ps := [Param("page", Text.Decimal(page)), Param("limit", Text.Decimal(PageSize))];
    AddParam(AddParam(ps, searchQuery != "", "search", searchText), statusFilter != "all", "status", statusText)
  }

  /** The parameters with one more added when it is switched on. */
  function AddParam(ps: seq<Param>, on: bool, key: string, text: string): seq<Param> {
    if on then ps + [Param(key, text)] else ps
  }

  /** The parameters the dashboard means to send: page and limit always, search and status when set. */
  function IntendedParams(page: nat, searchQuery: string, statusFilter: string): seq<Param> {
    ParamsFor(page, searchQuery, statusFilter, searchQuery, statusFilter)
  }

  /** The index of the first c in s, or |s| when there is none. */
  function IndexOf(s: string, c: char): (i: nat)
    ensures i <= |s|
    ensures i < |s| ==> s[i] == c
    ensures forall k :: 0 <= k < i ==> s[k] != c
  {
    if s == [] then 0 else if s[0] == c then 0 else 1 + IndexOf(s[1..], c)
  }

  /** The pieces of s between separators. */
  function SplitOn(s: string, sep: char): (parts: seq<string>)
    ensures |parts| >= 1
    decreases |s|
  {
    var i := IndexOf(s, sep);
    if i == |s| then [s] else [s[..i]] + SplitOn(s[i + 1..], sep)
  }

  /** The pieces joined with the separator between them. */
  function Join(parts: seq<string>, sep: char): string
    requires |parts| >= 1
  {
    if |parts| == 1 then parts[0] else parts[0] + [sep] + Join(parts[1..], sep)
  }

  /** Splitting pieces that do not contain the separator gives back the pieces. */
  lemma {:induction false} SplitJoin(parts: seq<string>, sep: char)
    requires |parts| >= 1
    requires forall k :: 0 <= k < |parts| ==> sep !in parts[k]
    ensures SplitOn(Join(parts, sep), sep) == parts
  {
    if |parts| == 1 {
      assert IndexOf(parts[0], sep) == |parts[0]|;
    } else {
      SplitStep(parts[0], Join(parts[1..], sep), sep);
      SplitJoin(parts[1..], sep);
      assert parts == [parts[0]] + parts[1..];
    }
  }

  /** A piece without the separator, the separator, then the rest: the piece is split off first. */
  lemma SplitStep(head: string, rest: string, sep: char)
    requires sep !in head
    ensures SplitOn(head + [sep] + rest, sep) == [head] + SplitOn(rest, sep)
  {
    var s := head + [sep] + rest;
    assert s == head + ([sep] + rest);
    IndexOfPrefix(head, [sep] + rest, sep);
    assert s[..|head|] == head;
    assert s[|head| + 1..] == rest;
  }

  /** The first c in a + b is found in b when a has none. */
  lemma {:induction false} IndexOfPrefix(a: string, b: string, c: char)
    requires c !in a && b != [] && b[0] == c
    ensures IndexOf(a + b, c) == |a|
  {
    if a != [] {
      assert (a + b)[1..] == a[1..] + b;
      IndexOfPrefix(a[1..], b, c);
    }
  }

  /** `key=value`. */
  function PairText(p: Param): string {
    p.key + "=" + p.value
  }

  /** A `key=value` piece read back at its first '='. */
  function ReadPair(piece: string): Param {
    var i := IndexOf(piece, '=');
    if i == |piece| then Param(piece, "") else Param(piece[..i], piece[i + 1..])
  }

  lemma ReadPairText(p: Param)
    requires '=' !in p.key
    ensures ReadPair(PairText(p)) == p
  {
    assert PairText(p) == p.key + ("=" + p.value);
    IndexOfPrefix(p.key, "=" + p.value, '=');
    assert PairText(p)[..|p.key|] == p.key;
    assert PairText(p)[|p.key| + 1..] == p.value;
  }

  function MapPieces(pieces: seq<string>): (ps: seq<Param>)
    ensures |ps| == |pieces|
    ensures forall k :: 0 <= k < |pieces| ==> ps[k] == ReadPair(pieces[k])
  {
    if pieces == [] then [] else [ReadPair(pieces[0])] + MapPieces(pieces[1..])
  }

  /** The decoding the server applies to a value: '+' is a space and the four escapes below are their characters. */
  function Unescape(v: string): string {
    if v == [] then []
    else if v[0] == '+' then " " + Unescape(v[1..])
    else if |v| >= 3 && v[0] == '%' && EscapedChar(v[1..3]).Some? then [EscapedChar(v[1..3]).value] + Unescape(v[3..])
    else [v[0]] + Unescape(v[1..])
  }

  function EscapedChar(hex: string): Option<char> {
    if hex == "25" then Some('%')
    else if hex == "26" then Some('&')
    else if hex == "2B" then Some('+')
    else if hex == "23" then Some('#')
    else None
  }

  /**
   * The parameters the server reads from a request URL: what follows the
   * first '?' and precedes any '#' (the fragment never leaves the browser),
   * split at '&', each piece read at its first '=' and its value decoded.
   */
  function ServerParams(url: string): (ps: seq<Param>)
  {
    var target := url[..IndexOf(url, '#')];
    var q := IndexOf(target, '?');
    var query := if q < |target| then target[q + 1..] else "";
    DecodeValues(MapPieces(SplitOn(query, '&')))
  }

  function DecodeValues(ps: seq<Param>): (r: seq<Param>)
    ensures |r| == |ps|
    ensures forall k :: 0 <= k < |ps| ==> r[k] == Param(ps[k].key, Unescape(ps[k].value))
  {
    if ps == [] then [] else [Param(ps[0].key, Unescape(ps[0].value))] + DecodeValues(ps[1..])
  }

  const ListPath := "/applications"

  function PairTexts(ps: seq<Param>): (texts: seq<string>)
    ensures |texts| == |ps|
    ensures forall k :: 0 <= k < |ps| ==> texts[k] == PairText(ps[k])
  {
    if ps == [] then [] else [PairText(ps[0])] + PairTexts(ps[1..])
  }

  /** The list path with the parameters joined into its query string. */
  function UrlOf(ps: seq<Param>): string
    requires |ps| >= 1
  {
    ListPath + "?" + Join(PairTexts(ps), '&')
  }

  /** A character that occurs in no piece, and is not the separator, does not occur in the joined text. */
  lemma {:induction false} NotInJoin(parts: seq<string>, sep: char, c: char)
    requires |parts| >= 1 && c != sep
    requires forall k :: 0 <= k < |parts| ==> c !in parts[k]
    ensures c !in Join(parts, sep)
  {
    if |parts| > 1 {
      NotInJoin(parts[1..], sep, c);
    }
  }

  /** Parameters whose keys and values hold no '&' or '#', and whose keys hold no '=', survive the round trip. */
  predicate Plain(ps: seq<Param>) {
    forall k :: 0 <= k < |ps| ==> SafeParam(ps[k])
  }

  predicate SafeParam(p: Param) {
    '=' !in p.key && '&' !in p.key && '#' !in p.key && '&' !in p.value && '#' !in p.value
  }

  /** Appending a safe parameter keeps the parameters plain. */
  lemma PlainAppend(ps: seq<Param>, p: Param)
    requires Plain(ps) && SafeParam(p)
    ensures Plain(ps + [p])
  {
    assert forall k :: 0 <= k < |ps| ==> (ps + [p])[k] == ps[k];
  }

  /** The server reads back exactly the parameters a URL was built from, values decoded. */
  lemma {:induction false} ServerParamsOfUrl(ps: seq<Param>)
    requires |ps| >= 1 && Plain(ps)
    ensures ServerParams(UrlOf(ps)) == DecodeValues(ps)
  {
    var texts := PairTexts(ps);
    var url := UrlOf(ps);
    assert forall k :: 0 <= k < |texts| ==> '&' !in texts[k] && '#' !in texts[k] by {
      forall k | 0 <= k < |texts|
        ensures '&' !in texts[k] && '#' !in texts[k]
      {
        assert SafeParam(ps[k]);
        assert texts[k] == ps[k].key + "=" + ps[k].value;
      }
    }
    NotInJoin(texts, '&', '#');
    assert '#' !in url by {
      assert url == ListPath + "?" + Join(texts, '&');
    }
    assert url[..IndexOf(url, '#')] == url;
    assert url == ListPath + ("?" + Join(texts, '&'));
    IndexOfPrefix(ListPath, "?" + Join(texts, '&'), '?');
    assert url[|ListPath| + 1..] == Join(texts, '&');
    SplitJoin(texts, '&');
    forall k | 0 <= k < |ps|
      ensures ReadPair(texts[k]) == ps[k]
    {
      assert SafeParam(ps[k]);
      ReadPairText(ps[k]);
    }
    assert MapPieces(texts) == ps;
  }

  /** A value with no '+' and no '%' decodes to itself. */
  lemma {:induction false} UnescapePlain(v: string)
    requires '+' !in v && '%' !in v
    ensures Unescape(v) == v
  {
    if v != [] {
      UnescapePlain(v[1..]);
    }
  }

  /**
   * The URL fetchApplications builds: the page and the fixed limit, then
   * `&search=` when there is a search text and `&status=` when the filter is
   * not "all", followed by the text given for each.
   */
  function BuildUrl(page: nat, searchQuery: string, statusFilter: string, searchText: string, statusText: string)
    : string
  {
    var query := ListPath + "?page=" + Text.Decimal(page) + "&limit=6";
    WithParam(WithParam(query, searchQuery != "", "&search=", searchText), statusFilter != "all", "&status=", statusText)
  }

  /** `query += `${piece}${text}`` when the parameter is switched on. */
  function WithParam(query: string, on: bool, piece: string, text: string): string {
    if on then query + piece + text else query
  }

  /** fetchApplications' URL as written: the search text and the status are pasted in unescaped. */
  function QueryAsWritten(page: nat, searchQuery: string, statusFilter: string): string {
    BuildUrl(page, searchQuery, statusFilter, searchQuery, statusFilter)
  }

  /** Appending one parameter to a URL. */
  lemma {:induction false} UrlAppend(ps: seq<Param>, p: Param)
    requires |ps| >= 1
    ensures UrlOf(ps + [p]) == UrlOf(ps) + "&" + PairText(p)
  {
    assert PairTexts(ps + [p]) == PairTexts(ps) + [PairText(p)];
    JoinSnoc(PairTexts(ps), PairText(p), '&');
  }

  lemma {:induction false} JoinSnoc(parts: seq<string>, last: string, sep: char)
    requires |parts| >= 1
    ensures Join(parts + [last], sep) == Join(parts, sep) + [sep] + last
  {
    if |parts| == 1 {
      assert (parts + [last])[1..] == [last];
    } else {
      assert (parts + [last])[1..] == parts[1..] + [last];
      JoinSnoc(parts[1..], last, sep);
    }
  }

  /** The built URL is the list path with exactly those parameters joined in. */
  lemma BuildUrlIsUrl(page: nat, searchQuery: string, statusFilter: string, searchText: string, statusText: string)
    ensures BuildUrl(page, searchQuery, statusFilter, searchText, statusText)
            == UrlOf(ParamsFor(page, searchQuery, statusFilter, searchText, statusText))
  {
    var base := [Param("page", Text.Decimal(page)), Param("limit", Text.Decimal(PageSize))];
    BaseUrl(page);
    assert "&" + "search" + "=" == "&search=";
    assert "&" + "status" + "=" == "&status=";
    UrlAddParam(base, searchQuery != "", "search", searchText);
    var ps1 := AddParam(base, searchQuery != "", "search", searchText);
    UrlAddParam(ps1, statusFilter != "all", "status", statusText);
  }

  /** Adding a parameter and appending its `&key=text` to the URL go together. */
  lemma UrlAddParam(ps: seq<Param>, on: bool, key: string, text: string)
    requires |ps| >= 1
    ensures |AddParam(ps, on, key, text)| >= 1
    ensures UrlOf(AddParam(ps, on, key, text)) == WithParam(UrlOf(ps), on, "&" + key + "=", text)
  {
    if on {
      UrlAppendParam(ps, key, text);
    }
  }

  /** The page and the fixed limit alone. */
  lemma BaseUrl(page: nat)
    ensures UrlOf([Param("page", Text.Decimal(page)), Param("limit", Text.Decimal(PageSize))])
            == ListPath + "?page=" + Text.Decimal(page) + "&limit=6"
  {
    var d := Text.Decimal(page);
    assert Text.Decimal(PageSize) == "6";
    var first := [Param("page", d)];
    UrlAppend(first, Param("limit", "6"));
    assert UrlOf(first) == ListPath + "?" + ("page" + "=" + d);
    assert first + [Param("limit", "6")] == [Param("page", d), Param("limit", "6")];
  }

  /** Appending `&key=value` to the URL of ps gives the URL of ps with that parameter added. */
  lemma UrlAppendParam(ps: seq<Param>, key: string, value: string)
    requires |ps| >= 1
    ensures UrlOf(ps + [Param(key, value)]) == UrlOf(ps) + ("&" + key + "=") + value
  {
    UrlAppend(ps, Param(key, value));
    assert UrlOf(ps) + "&" + (key + "=" + value) == UrlOf(ps) + ("&" + key + "=") + value;
  }

  /** A text with none of the characters a query string treats specially. */
  predicate PlainText(t: string) {
    '&' !in t && '#' !in t && '+' !in t && '%' !in t
  }

  /**
   * As written the server receives the intended parameters only when the
   * search text and the status hold none of '&', '#', '+' and '%'.
   */
  lemma {:induction false} AsWrittenFaithfulForPlainText(page: nat, searchQuery: string, statusFilter: string)
    requires PlainText(searchQuery) && PlainText(statusFilter)
    ensures ServerParams(QueryAsWritten(page, searchQuery, statusFilter)) == IntendedParams(page, searchQuery, statusFilter)
  {
    BuildUrlIsUrl(page, searchQuery, statusFilter, searchQuery, statusFilter);
    ParamsForPlain(page, searchQuery, statusFilter, searchQuery, statusFilter);
    ServerParamsOfUrl(IntendedParams(page, searchQuery, statusFilter));
    DecodeParamsFor(page, searchQuery, statusFilter, searchQuery, statusFilter);
    UnescapePlain(searchQuery);
    UnescapePlain(statusFilter);
  }

  /** Decimal text holds digits only, none of the characters a query string treats specially. */
  lemma DecimalPlain(n: nat)
    ensures forall c :: c in "&#+%" ==> c !in Text.Decimal(n)
  {
  }

  /**
   * As written, a search text holding '&' injects parameters of its own:
   * searching for `company&status=st` (say "Google&status=offer") with the
   * filter on "all" makes the server search for the company alone and filter
   * by the status st, which the user never chose.
   */
  lemma {:induction false} SearchInjectsStatusFilter(page: nat, company: string, st: string, statusFilter: string)
    requires company != [] && PlainText(company) && PlainText(st)
    requires statusFilter == "all"
    ensures var search := company + "&status=" + st;
            var seen := ServerParams(QueryAsWritten(page, search, statusFilter));
            && |seen| == 4
            && seen[0] == Param("page", Text.Decimal(page))
            && seen[1] == Param("limit", Text.Decimal(PageSize))
            && seen[2] == Param("search", company)
            && seen[3] == Param("status", st)
            && seen != IntendedParams(page, search, statusFilter)
  {
    var search := company + "&status=" + st;
    var ps := [Param("page", Text.Decimal(page)), Param("limit", Text.Decimal(PageSize)),
               Param("search", company), Param("status", st)];
    InjectedReadBack(page, company, st, statusFilter, ps);
    assert |IntendedParams(page, search, statusFilter)| == 3;
  }

  /** The server reads the four parameters ps from that URL. */
  lemma InjectedReadBack(page: nat, company: string, st: string, statusFilter: string, ps: seq<Param>)
    requires company != [] && PlainText(company) && PlainText(st) && statusFilter == "all"
    requires |ps| == 4 && ps[0] == Param("page", Text.Decimal(page)) && ps[1] == Param("limit", Text.Decimal(PageSize))
    requires ps[2] == Param("search", company) && ps[3] == Param("status", st)
    ensures ServerParams(QueryAsWritten(page, company + "&status=" + st, statusFilter)) == ps
  {
    InjectedUrl(page, company, st, statusFilter, ps);
    ListParamsPlain(page, company, st);
    ReadBackPlain(ps);
  }

  /** The page, the limit and plain search and status texts make plain parameters. */
  lemma ListParamsPlain(page: nat, search: string, status: string)
    requires PlainText(search) && PlainText(status)
    ensures PlainParam(Param("page", Text.Decimal(page))) && PlainParam(Param("limit", Text.Decimal(PageSize)))
    ensures PlainParam(Param("search", search)) && PlainParam(Param("status", status))
  {
    DecimalPlain(page);
    DecimalPlain(PageSize);
  }

  /** The URL built for that search text is the one built from four separate parameters. */
  lemma {:induction false} InjectedUrl(page: nat, company: string, st: string, statusFilter: string, ps: seq<Param>)
    requires company != [] && statusFilter == "all"
    requires |ps| == 4 && ps[0] == Param("page", Text.Decimal(page)) && ps[1] == Param("limit", Text.Decimal(PageSize))
    requires ps[2] == Param("search", company) && ps[3] == Param("status", st)
    ensures QueryAsWritten(page, company + "&status=" + st, statusFilter) == UrlOf(ps)
  {
    var search := company + "&status=" + st;
    var q0 := ListPath + "?page=" + Text.Decimal(page) + "&limit=6";
    var base := ps[..2];
    var withSearch := ps[..3];
    assert base == [Param("page", Text.Decimal(page)), Param("limit", Text.Decimal(PageSize))];
    BaseUrl(page);
    assert "&" + "search" + "=" == "&search=";
    assert "&" + "status" + "=" == "&status=";
    UrlAppendParam(base, "search", company);
    assert withSearch == base + [Param("search", company)];
    UrlAppendParam(withSearch, "status", st);
    assert ps == withSearch + [Param("status", st)];
    assert QueryAsWritten(page, search, statusFilter) == q0 + "&search=" + search;
    Regroup(q0 + "&search=", company, "&status=", st);
  }

  /** Concatenation regrouped: a + (b + c + d) == a + b + c + d. */
  lemma Regroup(a: string, b: string, c: string, d: string)
    ensures a + (b + c + d) == a + b + c + d
  {
  }

  /** A parameter whose key and value hold no special character of a query string. */
  predicate PlainParam(p: Param) {
    '=' !in p.key && PlainText(p.key) && PlainText(p.value)
  }

  /** Parameters with plain keys and values are read back unchanged. */
  lemma {:induction false} ReadBackPlain(ps: seq<Param>)
    requires |ps| >= 1
    requires forall k :: 0 <= k < |ps| ==> PlainParam(ps[k])
    ensures ServerParams(UrlOf(ps)) == ps
  {
    ServerParamsOfUrl(ps);
    forall k | 0 <= k < |ps|
      ensures Unescape(ps[k].value) == ps[k].value
    {
      UnescapePlain(ps[k].value);
    }
  }


  /** encodeURIComponent on the characters a query string treats specially. */
  function EscapeChar(c: char): string {
    if c == '%' then "%25"
    else if c == '&' then "%26"
    else if c == '+' then "%2B"
    else if c == '#' then "%23"
    else [c]
  }

  /** A query value with its special characters percent-escaped. */
  function Escape(s: string): (e: string)
    ensures '&' !in e && '#' !in e
    ensures e == [] <==> s == []
  {
    if s == [] then [] else EscapeChar(s[0]) + Escape(s[1..])
  }

  /** The server's decoding undoes the escaping. */
  lemma {:induction false} UnescapeEscape(s: string)
    ensures Unescape(Escape(s)) == s
  {
    if s != [] {
      var c := s[0];
      var rest := Escape(s[1..]);
      UnescapeEscape(s[1..]);
      var e := EscapeChar(c) + rest;
      assert Escape(s) == e;
      if c in "%&+#" {
        assert e[0] == '%' && e[1..3] == EscapeChar(c)[1..3] && e[3..] == rest;
      } else {
        assert e == [c] + rest && e[1..] == rest;
      }
    }
  }

  /** The list URL with the search text and the status escaped. */
  function QueryEscaped(page: nat, searchQuery: string, statusFilter: string): string {
    BuildUrl(page, searchQuery, statusFilter, Escape(searchQuery), Escape(statusFilter))
  }

  /** The list query's parameters are plain when the texts given for search and status hold no '&' or '#'. */
  lemma ParamsForPlain(page: nat, searchQuery: string, statusFilter: string, searchText: string, statusText: string)
    requires '&' !in searchText && '#' !in searchText && '&' !in statusText && '#' !in statusText
    ensures Plain(ParamsFor(page, searchQuery, statusFilter, searchText, statusText))
  {
    var base := [Param("page", Text.Decimal(page)), Param("limit", Text.Decimal(PageSize))];
    assert Plain(base) by {
      DecimalPlain(page);
      DecimalPlain(PageSize);
      assert SafeParam(base[0]) && SafeParam(base[1]);
    }
    assert SafeParam(Param("search", searchText)) && SafeParam(Param("status", statusText));
    var ps1 := AddParam(base, searchQuery != "", "search", searchText);
    if searchQuery != "" {
      PlainAppend(base, Param("search", searchText));
    }
    if statusFilter != "all" {
      PlainAppend(ps1, Param("status", statusText));
    }
  }

  /** Decoding the list query's parameters decodes the search and status texts and leaves page and limit alone. */
  lemma {:induction false} DecodeParamsFor(page: nat, searchQuery: string, statusFilter: string, searchText: string,
                                           statusText: string)
    ensures DecodeValues(ParamsFor(page, searchQuery, statusFilter, searchText, statusText))
            == ParamsFor(page, searchQuery, statusFilter, Unescape(searchText), Unescape(statusText))
  {
    DecimalPlain(page);
    DecimalPlain(PageSize);
    UnescapePlain(Text.Decimal(page));
    UnescapePlain(Text.Decimal(PageSize));
    var ps := ParamsFor(page, searchQuery, statusFilter, searchText, statusText);
    var want := ParamsFor(page, searchQuery, statusFilter, Unescape(searchText), Unescape(statusText));
    var got := DecodeValues(ps);
    assert |got| == |want|;
    forall k | 0 <= k < |ps|
      ensures got[k] == want[k]
    {
      assert got[k] == Param(ps[k].key, Unescape(ps[k].value));
    }
  }

  /** With the values escaped, the server receives exactly the intended parameters, whatever the search text. */
  lemma {:induction false} EscapedQueryRoundTrip(page: nat, searchQuery: string, statusFilter: string)
    ensures ServerParams(QueryEscaped(page, searchQuery, statusFilter)) == IntendedParams(page, searchQuery, statusFilter)
  {
    var ps := ParamsFor(page, searchQuery, statusFilter, Escape(searchQuery), Escape(statusFilter));
    BuildUrlIsUrl(page, searchQuery, statusFilter, Escape(searchQuery), Escape(statusFilter));
    ParamsForPlain(page, searchQuery, statusFilter, Escape(searchQuery), Escape(statusFilter));
    ServerParamsOfUrl(ps);
    DecodeParamsFor(page, searchQuery, statusFilter, Escape(searchQuery), Escape(statusFilter));
    UnescapeEscape(searchQuery);
    UnescapeEscape(statusFilter);
  }

  /** A plain text is left as it is by the escaping. */
  lemma {:induction false} EscapePlain(s: string)
    requires PlainText(s)
    ensures Escape(s) == s
  {
    if s != [] {
      assert s[0] in s;
      assert PlainText(s[1..]) by {
        forall c | c in s[1..]
          ensures c in s
        {
        }
      }
      EscapePlain(s[1..]);
      assert s == [s[0]] + s[1..];
    }
  }

  /**
   * fetchApplications' query builder, step by step, with the search text and
   * the status escaped as the code evidently intends: the server reads back
   * exactly the intended parameters, and for texts without special characters
   * the URL is the one the code builds today.
   */
  method FetchQuery(page: nat, searchQuery: string, statusFilter: string) returns (query: string)
    ensures query == QueryEscaped(page, searchQuery, statusFilter)
    ensures ServerParams(query) == IntendedParams(page, searchQuery, statusFilter)
    ensures PlainText(searchQuery) && PlainText(statusFilter) ==> query == QueryAsWritten(page, searchQuery, statusFilter)
  {
    query := ListPath + "?page=" + Text.Decimal(page) + "&limit=6";
    if searchQuery != "" {
      query := query + "&search=" + Escape(searchQuery);
    }
    if statusFilter != "all" {
      query := query + "&status=" + Escape(statusFilter);
    }
    EscapedQueryRoundTrip(page, searchQuery, statusFilter);
    if PlainText(searchQuery) && PlainText(statusFilter) {
      EscapedAgreesForPlain(page, searchQuery, statusFilter);
    }
  }

  /** For plain texts escaping changes nothing: the escaped URL is the one built as written. */
  lemma EscapedAgreesForPlain(page: nat, searchQuery: string, statusFilter: string)
    requires PlainText(searchQuery) && PlainText(statusFilter)
    ensures QueryEscaped(page, searchQuery, statusFilter) == QueryAsWritten(page, searchQuery, statusFilter)
  {
    EscapePlain(searchQuery);
    EscapePlain(statusFilter);
  }
}
