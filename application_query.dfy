/**
 * GET /api/applications: the caller's applications, optionally narrowed by a
 * text search and an exact status, ordered by one of three sort keys, cut into
 * pages of `limit` records, together with the total count and page count.
 */
module ApplicationQuery {
  import opened ApplicationSchema
  import Text

  /** The query string; "" stands for a parameter that was not sent. */
  datatype ListQuery = ListQuery(page: nat, limit: nat, search: string, status: string, sortBy: string)

  /** One element of the response: a stored document together with its id. */
  datatype Listed = Listed(id: Id, app: Application)

  /** The JSON body of the response. */
  datatype ListPage = ListPage(applications: seq<Listed>, totalPages: nat, currentPage: nat, totalApplications: nat)

  /**
   * The full-text index over companyName and role belongs to the database;
   * `TextMatch(search, companyName, role)` stands for its verdict.
   */
  type TextMatch = (string, string, string) -> bool

  datatype SortKey = AppliedDesc | AppliedAsc | CompanyAsc

  /** appliedDate descending unless sortBy is exactly "oldest" or "company". */
  function SortKeyOf(sortBy: string): SortKey {
    if sortBy == "company" then CompanyAsc
    else if sortBy == "oldest" then AppliedAsc
    else AppliedDesc
  }

  /** a may be listed before b under the sort key. */
  predicate InOrder(k: SortKey, a: Application, b: Application) {
    match k
    case AppliedDesc => a.appliedDate >= b.appliedDate
    case AppliedAsc => a.appliedDate <= b.appliedDate
    case CompanyAsc => Text.StrLe(a.companyName, b.companyName)
  }

  lemma InOrderTotal(k: SortKey, a: Application, b: Application)
    ensures InOrder(k, a, b) || InOrder(k, b, a)
  {
    if k == CompanyAsc { Text.StrLeTotal(a.companyName, b.companyName); }
  }

  lemma InOrderTrans(k: SortKey, a: Application, b: Application, c: Application)
    requires InOrder(k, a, b) && InOrder(k, b, c)
    ensures InOrder(k, a, c)
  {
    if k == CompanyAsc { Text.StrLeTrans(a.companyName, b.companyName, c.companyName); }
  }

  /** The find() filter: owned by the caller and, when sent, the search and the status. */
  predicate Matches(caller: Id, search: string, status: string, textMatch: TextMatch, a: Application) {
    && a.student == caller
    && (search != "" ==> textMatch(search, a.companyName, a.role))
    && (status != "" ==> AppStatusName(a.status) == status)
  }

  function MatchingIds(apps: map<Id, Application>, caller: Id, search: string, status: string,
                       textMatch: TextMatch): set<Id>
  {
    set id | id in apps && Matches(caller, search, status, textMatch, apps[id])
  }

  function IdsOf(s: seq<Listed>): set<Id> {
    set e | e in s :: e.id
  }

  predicate DistinctIds(s: seq<Listed>) {
    forall i, j :: 0 <= i < j < |s| ==> s[i].id != s[j].id
  }

  predicate SortedBy(k: SortKey, s: seq<Listed>) {
    forall i, j :: 0 <= i < j < |s| ==> InOrder(k, s[i].app, s[j].app)
  }

  predicate Increasing(ids: seq<Id>) {
    forall i, j :: 0 <= i < j < |ids| ==> ids[i] < ids[j]
  }

  predicate IsLeast(m: Id, ids: set<Id>) {
    m in ids && forall x :: x in ids ==> m <= x
  }

  lemma {:induction false} LeastOf(ids: set<Id>) returns (m: Id)
    requires ids != {}
    ensures IsLeast(m, ids)
    decreases |ids|
  {
    var y :| y in ids;
    var rest := ids - {y};
    if rest == {} {
      m := y;
      forall x | x in ids ensures y <= x {
        assert x !in rest;
      }
    } else {
      var r := LeastOf(rest);
      m := if y < r then y else r;
      forall x | x in ids ensures m <= x {
        if x != y { assert x in rest; }
      }
    }
  }

  lemma MinExists(ids: set<Id>)
    requires ids != {}
    ensures exists m :: IsLeast(m, ids)
  {
    var m := LeastOf(ids);
    assert IsLeast(m, ids);
  }

  lemma MinUnique(ids: set<Id>)
    ensures forall a, b :: IsLeast(a, ids) && IsLeast(b, ids) ==> a == b
  {
  }

  /** The ids of the collection in ascending order (the order the documents are scanned in). */
  function AscendingIds(ids: set<Id>): (r: seq<Id>)
    ensures |r| == |ids|
    ensures forall id :: id in r <==> id in ids
    ensures Increasing(r)
    decreases |ids|
  {
    if ids == {} then []
    else
      MinExists(ids);
      MinUnique(ids);
      var m :| IsLeast(m, ids);
      var rest := AscendingIds(ids - {m});
      ConsLeast(ids, m, rest);
      [m] + rest
  }

  /** The least id followed by the others in ascending order lists the whole set in ascending order. */
  lemma ConsLeast(ids: set<Id>, m: Id, rest: seq<Id>)
    requires IsLeast(m, ids)
    requires |rest| == |ids - {m}| && (forall id :: id in rest <==> id in ids - {m}) && Increasing(rest)
    ensures |[m] + rest| == |ids|
    ensures forall id :: id in [m] + rest <==> id in ids
    ensures Increasing([m] + rest)
  {
    forall j | 0 <= j < |rest| ensures m < rest[j] {
      assert rest[j] in rest;
    }
  }

  /** The documents among `ids` that pass the filter, in the order of `ids`. */
  function Select(apps: map<Id, Application>, ids: seq<Id>, caller: Id, search: string, status: string,
                  textMatch: TextMatch): (r: seq<Listed>)
    requires forall i :: 0 <= i < |ids| ==> ids[i] in apps
    ensures forall e :: e in r ==> e.id in ids && e.id in apps && e.app == apps[e.id]
                                    && Matches(caller, search, status, textMatch, e.app)
    ensures forall i :: 0 <= i < |ids| && Matches(caller, search, status, textMatch, apps[ids[i]])
                        ==> Listed(ids[i], apps[ids[i]]) in r
  {
    if ids == [] then []
    else
      var rest := Select(apps, ids[1..], caller, search, status, textMatch);
      assert forall i :: 1 <= i < |ids| ==> ids[i] == ids[1..][i - 1];
      if Matches(caller, search, status, textMatch, apps[ids[0]]) then
        [Listed(ids[0], apps[ids[0]])] + rest
      else rest
  }

  lemma {:induction false} SelectIncreasing(apps: map<Id, Application>, ids: seq<Id>, caller: Id, search: string,
                                            status: string, textMatch: TextMatch)
    requires forall i :: 0 <= i < |ids| ==> ids[i] in apps
    requires Increasing(ids)
    ensures DistinctIds(Select(apps, ids, caller, search, status, textMatch))
  {
    if ids != [] {
      var tail := ids[1..];
      SelectIncreasing(apps, tail, caller, search, status, textMatch);
      var rest := Select(apps, tail, caller, search, status, textMatch);
      forall e | e in rest ensures e.id != ids[0] {
        var m :| 0 <= m < |tail| && tail[m] == e.id;
        assert ids[m + 1] == e.id;
      }
    }
  }

  /** Inserts x before the first element it may precede. */
  function Insert(k: SortKey, x: Listed, s: seq<Listed>): (r: seq<Listed>)
    ensures multiset(r) == multiset(s) + multiset{x}
    ensures |r| == |s| + 1
  {
    if s == [] then [x]
    else if InOrder(k, x.app, s[0].app) then [x] + s
    else
      assert s == [s[0]] + s[1..];
      [s[0]] + Insert(k, x, s[1..])
  }

  lemma InsertElems(k: SortKey, x: Listed, s: seq<Listed>)
    ensures forall e :: e in Insert(k, x, s) <==> e == x || e in s
  {
    var r := Insert(k, x, s);
    forall e ensures e in r <==> e == x || e in s {
      assert e in r <==> e in multiset(r);
      assert e in s <==> e in multiset(s);
    }
  }

  lemma {:induction false} InsertSorted(k: SortKey, x: Listed, s: seq<Listed>)
    requires SortedBy(k, s)
    ensures SortedBy(k, Insert(k, x, s))
  {
    if s == [] {
    } else if InOrder(k, x.app, s[0].app) {
      forall e | e in s ensures InOrder(k, x.app, e.app) {
        var m :| 0 <= m < |s| && s[m] == e;
        if m > 0 { InOrderTrans(k, x.app, s[0].app, e.app); }
      }
      ConsSorted(k, x, s);
    } else {
      InOrderTotal(k, x.app, s[0].app);
      var t := s[1..];
      SortedTail(k, s);
      InsertSorted(k, x, t);
      var tail := Insert(k, x, t);
      InsertElems(k, x, t);
      forall e | e in tail ensures InOrder(k, s[0].app, e.app) {
        if e != x {
          var m :| 0 <= m < |t| && t[m] == e;
          assert s[m + 1] == e;
        }
      }
      ConsSorted(k, s[0], tail);
    }
  }

  /** Dropping the head keeps a list sorted. */
  lemma SortedTail(k: SortKey, s: seq<Listed>)
    requires SortedBy(k, s) && s != []
    ensures SortedBy(k, s[1..])
  {
    var t := s[1..];
    forall i, j | 0 <= i < j < |t| ensures InOrder(k, t[i].app, t[j].app) {
      assert t[i] == s[i + 1] && t[j] == s[j + 1];
    }
  }

  /** A head that may precede every entry of a sorted tail gives a sorted list. */
  lemma ConsSorted(k: SortKey, h: Listed, tail: seq<Listed>)
    requires SortedBy(k, tail)
    requires forall e :: e in tail ==> InOrder(k, h.app, e.app)
    ensures SortedBy(k, [h] + tail)
  {
    var r := [h] + tail;
    forall i, j | 0 <= i < j < |r| ensures InOrder(k, r[i].app, r[j].app) {
      if i == 0 {
        assert r[j] == tail[j - 1];
      } else {
        assert r[i] == tail[i - 1] && r[j] == tail[j - 1];
      }
    }
  }

  lemma {:induction false} InsertDistinct(k: SortKey, x: Listed, s: seq<Listed>)
    requires DistinctIds(s) && x.id !in IdsOf(s)
    ensures DistinctIds(Insert(k, x, s))
  {
    if s == [] {
    } else if InOrder(k, x.app, s[0].app) {
      ConsDistinct(x, s);
    } else {
      var t := s[1..];
      TailDistinct(s);
      assert x.id !in IdsOf(t) by {
        forall e | e in t ensures e.id != x.id { assert e in s; }
      }
      InsertDistinct(k, x, t);
      var tail := Insert(k, x, t);
      InsertElems(k, x, t);
      assert s[0].id != x.id by { assert s[0] in s; }
      ConsDistinct(s[0], tail);
    }
  }

  /** A head whose id is not among the distinct ids of the tail gives distinct ids. */
  lemma ConsDistinct(h: Listed, tail: seq<Listed>)
    requires DistinctIds(tail) && h.id !in IdsOf(tail)
    ensures DistinctIds([h] + tail)
  {
    var r := [h] + tail;
    forall i, j | 0 <= i < j < |r| ensures r[i].id != r[j].id {
      if i == 0 {
        assert r[j] == tail[j - 1];
        assert r[j] in tail;
      } else {
        assert r[i] == tail[i - 1] && r[j] == tail[j - 1];
      }
    }
  }

  /** Dropping the head of a list with distinct ids keeps them distinct, and the head id does not recur. */
  lemma TailDistinct(s: seq<Listed>)
    requires DistinctIds(s) && s != []
    ensures DistinctIds(s[1..]) && s[0].id !in IdsOf(s[1..])
    ensures IdsOf(s) == {s[0].id} + IdsOf(s[1..])
  {
    var t := s[1..];
    forall i, j | 0 <= i < j < |t| ensures t[i].id != t[j].id {
      assert t[i] == s[i + 1] && t[j] == s[j + 1];
    }
    forall e | e in t ensures e.id != s[0].id {
      var m :| 0 <= m < |t| && t[m] == e;
      assert s[m + 1] == e;
    }
    assert forall e :: e in s <==> e == s[0] || e in t;
  }

  /** Insertion sort under the sort key; a permutation of its input. */
  function Sort(k: SortKey, s: seq<Listed>): (r: seq<Listed>)
    ensures multiset(r) == multiset(s)
    ensures |r| == |s|
  {
    if s == [] then []
    else
      assert s == [s[0]] + s[1..];
      Insert(k, s[0], Sort(k, s[1..]))
  }

  lemma {:induction false} SortProperties(k: SortKey, s: seq<Listed>)
    requires DistinctIds(s)
    ensures SortedBy(k, Sort(k, s))
    ensures DistinctIds(Sort(k, s))
    ensures forall e :: e in Sort(k, s) <==> e in s
  {
    var r := Sort(k, s);
    forall e ensures e in r <==> e in s {
      assert e in r <==> e in multiset(r);
      assert e in s <==> e in multiset(s);
    }
    if s != [] {
      TailDistinct(s);
      SortProperties(k, s[1..]);
      var rest := Sort(k, s[1..]);
      InsertSorted(k, s[0], rest);
      assert IdsOf(rest) == IdsOf(s[1..]) by {
        assert forall e :: e in rest <==> e in s[1..];
      }
      InsertDistinct(k, s[0], rest);
    }
  }

  lemma {:induction false} DistinctCard(s: seq<Listed>)
    requires DistinctIds(s)
    ensures |IdsOf(s)| == |s|
  {
    if s != [] {
      TailDistinct(s);
      DistinctCard(s[1..]);
    }
  }

  /** Every matching document, each once, in the order the sort key gives. */
  function Ordered(apps: map<Id, Application>, caller: Id, search: string, status: string, sortBy: string,
                   textMatch: TextMatch): (r: seq<Listed>)
    ensures forall e :: e in r ==> e.id in apps && e.app == apps[e.id]
                                    && Matches(caller, search, status, textMatch, e.app)
    ensures IdsOf(r) == MatchingIds(apps, caller, search, status, textMatch)
    ensures |r| == |MatchingIds(apps, caller, search, status, textMatch)|
    ensures DistinctIds(r)
    ensures SortedBy(SortKeyOf(sortBy), r)
  {
    var ids := AscendingIds(apps.Keys);
    var selected := Select(apps, ids, caller, search, status, textMatch);
    SelectIncreasing(apps, ids, caller, search, status, textMatch);
    var r := Sort(SortKeyOf(sortBy), selected);
    SortProperties(SortKeyOf(sortBy), selected);
    OrderedIds(apps, ids, caller, search, status, textMatch, r);
    DistinctCard(r);
    r
  }

  lemma OrderedIds(apps: map<Id, Application>, ids: seq<Id>, caller: Id, search: string, status: string,
                   textMatch: TextMatch, r: seq<Listed>)
    requires forall id :: id in ids <==> id in apps
    requires forall e :: e in r <==> e in Select(apps, ids, caller, search, status, textMatch)
    ensures IdsOf(r) == MatchingIds(apps, caller, search, status, textMatch)
  {
    var selected := Select(apps, ids, caller, search, status, textMatch);
    var want := MatchingIds(apps, caller, search, status, textMatch);
    forall id | id in want ensures id in IdsOf(r) {
      var i :| 0 <= i < |ids| && ids[i] == id;
      assert Listed(id, apps[id]) in selected;
      assert Listed(id, apps[id]) in r;
    }
    forall id | id in IdsOf(r) ensures id in want {
      var e :| e in r && e.id == id;
      assert e in selected;
    }
  }

  /** No two entries with different ids tie under the sort key. */
  predicate NoTies(k: SortKey, s: seq<Listed>) {
    forall i, j :: 0 <= i < |s| && 0 <= j < |s| && s[i].id != s[j].id
                   ==> !(InOrder(k, s[i].app, s[j].app) && InOrder(k, s[j].app, s[i].app))
  }

  /**
   * No two matching documents tie under the selected sort key. The database
   * orders only by that key, so only then is the order of a result fixed.
   */
  predicate UniqueSortKeys(apps: map<Id, Application>, caller: Id, q: ListQuery, textMatch: TextMatch) {
    forall a, b :: a in apps && b in apps && a != b
                   && Matches(caller, q.search, q.status, textMatch, apps[a])
                   && Matches(caller, q.search, q.status, textMatch, apps[b])
                   ==> !(InOrder(SortKeyOf(q.sortBy), apps[a], apps[b]) && InOrder(SortKeyOf(q.sortBy), apps[b], apps[a]))
  }

  /** The first entry of a non-empty list is one of its entries. */
  lemma HeadIn(s: seq<Listed>)
    requires s != []
    ensures s[0] in s
  {
  }

  /** Sorted lists of the same entries, with distinct ids and no ties, start with the same entry. */
  lemma SortedHeadsAgree(k: SortKey, r: seq<Listed>, s: seq<Listed>)
    requires r != [] && SortedBy(k, r) && SortedBy(k, s) && DistinctIds(r)
    requires forall e :: e in r <==> e in s
    requires NoTies(k, r)
    ensures s != [] && r[0] == s[0]
  {
    assert r[0] in s;
    assert s[0] in r;
    var m :| 0 <= m < |r| && r[m] == s[0];
    var n :| 0 <= n < |s| && s[n] == r[0];
    if m != 0 && n != 0 {
      // r[0] precedes r[m] == s[0], which precedes s[n] == r[0]: a tie
      assert false;
    }
  }

  /** Two lists with the same entries and the same head, each with distinct ids, have tails with the same entries. */
  lemma TailsAgree(r: seq<Listed>, s: seq<Listed>)
    requires r != [] && s != [] && r[0] == s[0] && DistinctIds(r) && DistinctIds(s)
    requires forall e :: e in r <==> e in s
    ensures forall e :: e in r[1..] <==> e in s[1..]
  {
    TailDistinct(r);
    TailDistinct(s);
    forall e ensures e in r[1..] <==> e in s[1..] {
      if e in r[1..] {
        assert e.id != r[0].id;
        assert e in s && e != s[0];
        assert e in s[1..] by { assert s == [s[0]] + s[1..]; }
      }
      if e in s[1..] {
        assert e.id != s[0].id;
        assert e in r && e != r[0];
        assert e in r[1..] by { assert r == [r[0]] + r[1..]; }
      }
    }
  }

  /** Dropping the head keeps a list free of ties. */
  lemma NoTiesTail(k: SortKey, r: seq<Listed>)
    requires NoTies(k, r) && r != []
    ensures NoTies(k, r[1..])
  {
    forall i, j | 0 <= i < |r[1..]| && 0 <= j < |r[1..]|
      ensures r[1..][i] == r[i + 1] && r[1..][j] == r[j + 1]
    {
    }
  }

  /** Two sorted lists of the same entries with distinct ids and no ties are the same list. */
  lemma {:induction false} SortedUnique(k: SortKey, r: seq<Listed>, s: seq<Listed>)
    requires SortedBy(k, r) && SortedBy(k, s) && DistinctIds(r) && DistinctIds(s)
    requires forall e :: e in r <==> e in s
    requires NoTies(k, r)
    ensures r == s
    decreases |r|
  {
    if r == [] {
      if s != [] {
        HeadIn(s);
        assert false;
      }
    } else {
      SortedHeadsAgree(k, r, s);
      TailsAgree(r, s);
      TailDistinct(r);
      TailDistinct(s);
      SortedTail(k, r);
      SortedTail(k, s);
      NoTiesTail(k, r);
      SortedUnique(k, r[1..], s[1..]);
      assert r == [r[0]] + r[1..] && s == [s[0]] + s[1..];
    }
  }

  /**
   * Without ties, every order the database may return for the query, that
   * is every sorted list of the matching documents each listed once, is the
   * model's ordered list.
   */
  lemma SortedResultIsOrdered(apps: map<Id, Application>, caller: Id, q: ListQuery, textMatch: TextMatch,
                              s: seq<Listed>)
    requires UniqueSortKeys(apps, caller, q, textMatch)
    requires DistinctIds(s) && SortedBy(SortKeyOf(q.sortBy), s)
    requires forall e :: e in s <==> e.id in apps && e.app == apps[e.id]
                                     && Matches(caller, q.search, q.status, textMatch, e.app)
    ensures s == Ordered(apps, caller, q.search, q.status, q.sortBy, textMatch)
  {
    var r := Ordered(apps, caller, q.search, q.status, q.sortBy, textMatch);
    forall e ensures e in r <==> e in s {
      if e.id in apps && e.app == apps[e.id] && Matches(caller, q.search, q.status, textMatch, e.app) {
        assert e.id in IdsOf(r);
        var d :| d in r && d.id == e.id;
        assert d == e;
      }
    }
    assert NoTies(SortKeyOf(q.sortBy), r) by {
      forall i, j | 0 <= i < |r| && 0 <= j < |r| && r[i].id != r[j].id
        ensures !(InOrder(SortKeyOf(q.sortBy), r[i].app, r[j].app) && InOrder(SortKeyOf(q.sortBy), r[j].app, r[i].app))
      {
        assert r[i] in r && r[j] in r;
      }
    }
    SortedUnique(SortKeyOf(q.sortBy), r, s);
  }

  /** Math.ceil(n / d) for a positive integer d: the fewest pages of d that hold n records. */
  function CeilDiv(n: nat, d: nat): (c: nat)
    requires d > 0
    ensures c * d >= n
    ensures c == 0 <==> n == 0
    ensures n > 0 ==> (c - 1) * d < n
  {
    var c := (n + d - 1) / d;
    assert n + d - 1 == c * d + (n + d - 1) % d;
    assert n > 0 ==> (c - 1) * d == c * d - d;
    c
  }

  /** The number of records skipped before the requested page. */
  function Skip(page: nat, limit: nat): nat
    requires page >= 1
  {
    (page - 1) * limit
  }

  /** skip(n).limit(l) on an ordered result: at most l records starting at position n. */
  function Window(all: seq<Listed>, skip: nat, limit: nat): (r: seq<Listed>)
    ensures |r| == if skip >= |all| then 0 else if |all| - skip < limit then |all| - skip else limit
    ensures skip < |all| ==> r == all[skip..skip + |r|]
  {
    if skip >= |all| then []
    else if |all| - skip < limit then all[skip..]
    else all[skip..skip + limit]
  }

  lemma WindowKeeps(k: SortKey, all: seq<Listed>, skip: nat, limit: nat)
    requires SortedBy(k, all) && DistinctIds(all)
    ensures SortedBy(k, Window(all, skip, limit)) && DistinctIds(Window(all, skip, limit))
    ensures forall e :: e in Window(all, skip, limit) ==> e in all
  {
    var w := Window(all, skip, limit);
    if skip < |all| {
      forall i, j | 0 <= i < j < |w|
        ensures InOrder(k, w[i].app, w[j].app) && w[i].id != w[j].id
      {
        assert w[i] == all[skip + i] && w[j] == all[skip + j];
      }
    }
  }

  /**
   * The response of getApplications for the caller: the page is the ordered
   * matching list with (page-1)*limit entries skipped and at most limit taken;
   * totalApplications counts every match and totalPages is its ceiling
   * division by limit.
   */
  function List(apps: map<Id, Application>, caller: Id, q: ListQuery, textMatch: TextMatch): (r: ListPage)
    requires q.page >= 1 && q.limit >= 1
    ensures forall e :: e in r.applications ==> e.id in apps && e.app == apps[e.id]
                                                 && Matches(caller, q.search, q.status, textMatch, e.app)
    ensures r.totalApplications == |MatchingIds(apps, caller, q.search, q.status, textMatch)|
    ensures SortedBy(SortKeyOf(q.sortBy), r.applications)
    ensures DistinctIds(r.applications)
    ensures |r.applications| == if Skip(q.page, q.limit) >= r.totalApplications then 0
                                 else if r.totalApplications - Skip(q.page, q.limit) < q.limit then r.totalApplications - Skip(q.page, q.limit)
                                 else q.limit
    ensures var all := Ordered(apps, caller, q.search, q.status, q.sortBy, textMatch);
      && |all| == r.totalApplications
      && forall k :: 0 <= k < |r.applications| ==> r.applications[k] == all[Skip(q.page, q.limit) + k]
    ensures r.totalPages == CeilDiv(r.totalApplications, q.limit)
    ensures r.currentPage == q.page
  {
    var all := Ordered(apps, caller, q.search, q.status, q.sortBy, textMatch);
    var skip := Skip(q.page, q.limit);
    WindowKeeps(SortKeyOf(q.sortBy), all, skip, q.limit);
    ListPage(Window(all, skip, q.limit), CeilDiv(|all|, q.limit), q.page, |all|)
  }

  predicate OnPage(id: Id, r: ListPage) {
    exists e :: e in r.applications && e.id == id
  }

  lemma DivUnique(i: nat, l: nat, a: nat)
    requires l > 0 && a * l <= i < a * l + l
    ensures i / l == a
  {
    var b := i / l;
    assert i == b * l + i % l;
    if b < a {
      assert (b + 1) * l <= a * l by { MulMono(b + 1, a, l); }
    } else if b > a {
      assert (a + 1) * l <= b * l by { MulMono(a + 1, b, l); }
    }
  }

  lemma MulMono(x: nat, y: nat, l: nat)
    requires x <= y
    ensures x * l <= y * l
  {
  }

  lemma ListIsWindow(apps: map<Id, Application>, caller: Id, q: ListQuery, textMatch: TextMatch)
    requires q.page >= 1 && q.limit >= 1
    ensures List(apps, caller, q, textMatch).applications
            == Window(Ordered(apps, caller, q.search, q.status, q.sortBy, textMatch), Skip(q.page, q.limit), q.limit)
    ensures List(apps, caller, q, textMatch).totalPages
            == CeilDiv(|Ordered(apps, caller, q.search, q.status, q.sortBy, textMatch)|, q.limit)
  {
  }

  /** The page, counted from 1, whose window of l records holds position i. */
  function PageOf(i: nat, l: nat): (p: nat)
    requires l > 0
    ensures p >= 1
    ensures Skip(p, l) <= i < Skip(p, l) + l
  {
    assert i == (i / l) * l + i % l;
    i / l + 1
  }

  /** Position i of the ordered list falls in the window of page PageOf(i, limit) ... */
  lemma WindowHolds(all: seq<Listed>, l: nat, i: nat)
    requires l > 0 && i < |all|
    ensures all[i] in Window(all, Skip(PageOf(i, l), l), l)
  {
    var s := Skip(PageOf(i, l), l);
    var w := Window(all, s, l);
    assert w[i - s] == all[i];
  }

  /** ... and in no other window, when ids are distinct. */
  lemma WindowOnly(all: seq<Listed>, l: nat, p: nat, i: nat, e: Listed)
    requires l > 0 && p >= 1 && i < |all| && DistinctIds(all)
    requires e in Window(all, Skip(p, l), l) && e.id == all[i].id
    ensures p == PageOf(i, l)
  {
    var a := p - 1;
    var w := Window(all, Skip(p, l), l);
    var j :| 0 <= j < |w| && w[j] == e;
    assert all[a * l + j] == e;
    assert a * l + j == i;
    DivUnique(i, l, a);
  }

  /** The position of a matching application in the ordered list. */
  lemma PositionOf(apps: map<Id, Application>, caller: Id, q: ListQuery, textMatch: TextMatch, id: Id)
    returns (i: nat)
    requires id in MatchingIds(apps, caller, q.search, q.status, textMatch)
    ensures i < |Ordered(apps, caller, q.search, q.status, q.sortBy, textMatch)|
    ensures Ordered(apps, caller, q.search, q.status, q.sortBy, textMatch)[i].id == id
  {
    var all := Ordered(apps, caller, q.search, q.status, q.sortBy, textMatch);
    assert id in IdsOf(all);
    var e :| e in all && e.id == id;
    i :| 0 <= i < |all| && all[i] == e;
  }

  /**
   * Every matching application is listed on some page within 1..totalPages,
   * when no two matches tie under the sort key (otherwise the database may
   * order tied documents differently from one page request to the next).
   */
  lemma EveryMatchListed(apps: map<Id, Application>, caller: Id, q: ListQuery, textMatch: TextMatch, id: Id)
    returns (p: nat)
    requires q.page >= 1 && q.limit >= 1
    requires UniqueSortKeys(apps, caller, q, textMatch)
    requires id in MatchingIds(apps, caller, q.search, q.status, textMatch)
    ensures 1 <= p <= List(apps, caller, q, textMatch).totalPages
    ensures OnPage(id, List(apps, caller, q.(page := p), textMatch))
  {
    var all := Ordered(apps, caller, q.search, q.status, q.sortBy, textMatch);
    var i := PositionOf(apps, caller, q, textMatch, id);
    p := PageOf(i, q.limit);
    PageWithinCount(i, |all|, q.limit);
    ListIsWindow(apps, caller, q.(page := p), textMatch);
    WindowHolds(all, q.limit, i);
    assert all[i] in List(apps, caller, q.(page := p), textMatch).applications;
  }

  /** The page of any position before n is within the ceil(n / l) pages. */
  lemma PageWithinCount(i: nat, n: nat, l: nat)
    requires l > 0 && i < n
    ensures PageOf(i, l) <= CeilDiv(n, l)
  {
    var c := CeilDiv(n, l);
    var p := PageOf(i, l);
    if c < p {
      MulMono(c, p - 1, l);
    }
  }

  /** The only page that can list the application at position i is page PageOf(i, limit). */
  lemma PageOfPosition(apps: map<Id, Application>, caller: Id, q: ListQuery, textMatch: TextMatch, id: Id,
                       p: nat, i: nat)
    requires q.limit >= 1 && p >= 1
    requires UniqueSortKeys(apps, caller, q, textMatch)
    requires i < |Ordered(apps, caller, q.search, q.status, q.sortBy, textMatch)|
    requires Ordered(apps, caller, q.search, q.status, q.sortBy, textMatch)[i].id == id
    requires OnPage(id, List(apps, caller, q.(page := p), textMatch))
    ensures p == PageOf(i, q.limit)
  {
    var all := Ordered(apps, caller, q.search, q.status, q.sortBy, textMatch);
    var qp := q.(page := p);
    ListIsWindow(apps, caller, qp, textMatch);
    var w := List(apps, caller, qp, textMatch).applications;
    var e :| e in w && e.id == id;
    WindowOnly(all, q.limit, p, i, e);
  }

  /** No application is listed on two different pages, when no two matches tie under the sort key. */
  lemma ListedOnOnePage(apps: map<Id, Application>, caller: Id, q: ListQuery, textMatch: TextMatch, id: Id,
                        p1: nat, p2: nat)
    requires q.limit >= 1 && p1 >= 1 && p2 >= 1
    requires UniqueSortKeys(apps, caller, q, textMatch)
    requires OnPage(id, List(apps, caller, q.(page := p1), textMatch))
    requires OnPage(id, List(apps, caller, q.(page := p2), textMatch))
    ensures p1 == p2
  {
    assert id in MatchingIds(apps, caller, q.search, q.status, textMatch);
    var i := PositionOf(apps, caller, q, textMatch, id);
    PageOfPosition(apps, caller, q, textMatch, id, p1, i);
    PageOfPosition(apps, caller, q, textMatch, id, p2, i);
  }
}
