/**
 * The user listing: a fixed sort by `order_number`, highest first, then
 * `per_page * (page_number - 1)` records skipped and at most `per_page`
 * taken. The search term and the sort field and order are accepted by the
 * validator but do not reach the query.
 */
module UserListing {
  import opened Domain

  /** The listing query as the validator admits it. */
  datatype ListQuery = ListQuery(
    searchTerm: Option<string>,
    sortField: Option<string>,
    sortOrder: Option<string>,
    perPage: int,
    pageNumber: int)

  /** The listing validator: integer per_page and page_number of at least 1, sort order ASC, DESC or empty. */
  predicate ValidListQuery(q: ListQuery) {
    && q.perPage >= 1
    && q.pageNumber >= 1
    && (q.sortOrder.None? || q.sortOrder.value == "ASC" || q.sortOrder.value == "DESC" || q.sortOrder.value == "")
  }

  const ListedMessage: string := "User list got successfully"

  ghost predicate Descending(s: seq<User>) {
    forall i, j :: 0 <= i < j < |s| ==> s[i].orderNumber >= s[j].orderNumber
  }

  function Min(a: int, b: int): int {
    if a <= b then a else b
  }

  /** Insert `u` in front of the first record it ranks at least as high as. */
  function Insert(u: User, s: seq<User>): (r: seq<User>)
    ensures multiset(r) == multiset(s) + multiset{u}
    ensures |r| == |s| + 1
    ensures r[0] == u || (|s| > 0 && r[0] == s[0])
  {
    if s == [] then [u]
    else if u.orderNumber >= s[0].orderNumber then [u] + s
    else
      assert s == [s[0]] + s[1..];
      [s[0]] + Insert(u, s[1..])
  }

  /** Inserting into a list ranked highest order number first keeps it ranked. */
  lemma {:induction false} InsertKeepsRanking(u: User, s: seq<User>)
    requires Descending(s)
    ensures Descending(Insert(u, s))
  {
    if s != [] {
      if u.orderNumber >= s[0].orderNumber {
        ConsDescending(u, s);
      } else {
        TailDescending(s);
        InsertKeepsRanking(u, s[1..]);
        assert |s| > 1 ==> s[1].orderNumber <= s[0].orderNumber;
        ConsDescending(s[0], Insert(u, s[1..]));
      }
    }
  }

  lemma TailDescending(s: seq<User>)
    requires Descending(s) && s != []
    ensures Descending(s[1..])
  {
    var t := s[1..];
    forall i, j | 0 <= i < j < |t|
      ensures t[i].orderNumber >= t[j].orderNumber
    {
      assert t[i] == s[i + 1] && t[j] == s[j + 1];
    }
  }

  /** A record ranked at least as high as the head of a ranked list can go in front of it. */
  lemma ConsDescending(x: User, s: seq<User>)
    requires Descending(s) && (s == [] || s[0].orderNumber <= x.orderNumber)
    ensures Descending([x] + s)
  {
    var r := [x] + s;
    forall i, j | 0 <= i < j < |r|
      ensures r[i].orderNumber >= r[j].orderNumber
    {
      if i == 0 {
        assert r[j] == s[j - 1];
      } else {
        assert r[i] == s[i - 1] && r[j] == s[j - 1];
      }
    }
  }

  /** The `$sort: {order_number: -1}` stage: a permutation ranked highest order number first. */
  function SortByOrderDesc(s: seq<User>): (r: seq<User>)
    ensures Descending(r)
    ensures |r| == |s|
  {
    if s == [] then [] else
      InsertKeepsRanking(s[0], SortByOrderDesc(s[1..]));
      Insert(s[0], SortByOrderDesc(s[1..]))
  }

  /** The ranking holds exactly the stored records, each as often as stored. */
  lemma {:induction false} SortIsPermutation(s: seq<User>)
    ensures multiset(SortByOrderDesc(s)) == multiset(s)
  {
    if s != [] {
      SortIsPermutation(s[1..]);
      assert s == [s[0]] + s[1..];
    }
  }

  /**
   * The number of ranked records skipped before page `pageNumber`:
   * per_page for every earlier page.
   */
  function Skipped(perPage: nat, pageNumber: int): nat {
    if pageNumber <= 1 then 0 else Skipped(perPage, pageNumber - 1) + perPage
  }

  lemma {:induction false} SkippedIsProduct(perPage: nat, pageNumber: int)
    requires pageNumber >= 1
    ensures Skipped(perPage, pageNumber) == perPage * (pageNumber - 1)
  {
    if pageNumber > 1 {
      SkippedIsProduct(perPage, pageNumber - 1);
      assert perPage * (pageNumber - 1) == perPage * (pageNumber - 2) + perPage;
    }
  }

  /** Where page `pageNumber` starts and ends in a ranking of `n` records. */
  function PageStart(n: nat, perPage: nat, pageNumber: int): nat {
    Min(Skipped(perPage, pageNumber), n)
  }

  function PageEnd(n: nat, perPage: nat, pageNumber: int): nat {
    Min(PageStart(n, perPage, pageNumber) + perPage, n)
  }

  /**
   * The page: the ranked records from position per_page * (page_number - 1)
   * on, at most per_page of them.
   */
  function Page(users: seq<User>, perPage: int, pageNumber: int): (r: seq<User>)
    requires perPage >= 1 && pageNumber >= 1
    ensures |r| <= perPage
    ensures |r| == PageEnd(|users|, perPage, pageNumber) - PageStart(|users|, perPage, pageNumber)
    ensures forall k :: 0 <= k < |r| ==>
              Skipped(perPage, pageNumber) + k < |users| && r[k] == SortByOrderDesc(users)[Skipped(perPage, pageNumber) + k]
  {
    var ranked := SortByOrderDesc(users);
    var from := PageStart(|users|, perPage, pageNumber);
    var to := PageEnd(|users|, perPage, pageNumber);
    ranked[from..to]
  }

  /** The controller's answer: the page, as stored records, with success=true. */
  function UserList(users: seq<User>, q: ListQuery): (r: Response)
    requires ValidListQuery(q)
    ensures r.success && r.status == HttpOk && r.message == ListedMessage
    ensures r.data == UserPage(Page(users, q.perPage, q.pageNumber))
    ensures |r.data.users| <= q.perPage
    ensures multiset(r.data.users) <= multiset(users)
  {
    PageIsSubMultiset(users, q.perPage, q.pageNumber);
    Response(UserPage(Page(users, q.perPage, q.pageNumber)), ListedMessage, true, HttpOk)
  }

  /** The pages 1 to m, one after the other. */
  function Pages(users: seq<User>, perPage: int, m: nat): seq<User>
    requires perPage >= 1
  {
    if m == 0 then [] else Pages(users, perPage, m - 1) + Page(users, perPage, m)
  }

  lemma SliceJoin<T>(s: seq<T>, a: nat, b: nat, c: nat)
    requires a <= b <= c <= |s|
    ensures s[a..b] + s[b..c] == s[a..c]
  {
  }

  lemma PrefixSplit<T>(s: seq<T>, i: nat, j: nat)
    requires i <= j <= |s|
    ensures multiset(s[..j]) == multiset(s[..i]) + multiset(s[i..j])
  {
    assert s[..j] == s[..i] + s[i..j];
  }

  lemma SlicesInside<T>(s: seq<T>, a: nat, b: nat, c: nat, d: nat)
    requires a <= b <= c <= d <= |s|
    ensures multiset(s[a..b]) + multiset(s[c..d]) <= multiset(s)
  {
    PrefixSplit(s, a, b);
    PrefixSplit(s, b, c);
    PrefixSplit(s, c, d);
    PrefixSplit(s, d, |s|);
    assert s[..|s|] == s;
  }

  lemma PageIsSubMultiset(users: seq<User>, perPage: int, pageNumber: int)
    requires perPage >= 1 && pageNumber >= 1
    ensures multiset(Page(users, perPage, pageNumber)) <= multiset(users)
  {
    var to := PageEnd(|users|, perPage, pageNumber);
    SlicesInside(SortByOrderDesc(users), PageStart(|users|, perPage, pageNumber), to, to, to);
    SortIsPermutation(users);
  }

  /** A later page starts at least one page further down the ranking. */
  lemma {:induction false} SkippedGrows(perPage: nat, p: int, q: int)
    requires 1 <= p < q
    ensures Skipped(perPage, q) >= Skipped(perPage, p) + perPage
  {
    if q > p + 1 {
      SkippedGrows(perPage, p, q - 1);
    }
  }

  /**
   * Pages 1 to m together are exactly the first per_page * m ranked records:
   * consecutive pages are contiguous and nothing is skipped or repeated.
   */
  lemma PagesArePrefix(users: seq<User>, perPage: int, m: nat)
    requires perPage >= 1
    ensures Pages(users, perPage, m) == SortByOrderDesc(users)[..Min(perPage * m, |users|)]
  {
    PagesAreRankedPrefix(users, perPage, m);
    SkippedIsProduct(perPage, m + 1);
  }

  lemma {:induction false} PagesAreRankedPrefix(users: seq<User>, perPage: int, m: nat)
    requires perPage >= 1
    ensures Pages(users, perPage, m) == SortByOrderDesc(users)[..Min(Skipped(perPage, m + 1), |users|)]
  {
    if m > 0 {
      PagesAreRankedPrefix(users, perPage, m - 1);
      PrefixThenPage(users, perPage, m);
    }
  }

  /** The ranking up to the start of page m, followed by page m, is the ranking up to the start of page m + 1. */
  lemma PrefixThenPage(users: seq<User>, perPage: int, m: nat)
    requires perPage >= 1 && m >= 1
    ensures SortByOrderDesc(users)[..PageStart(|users|, perPage, m)] + Page(users, perPage, m)
            == SortByOrderDesc(users)[..Min(Skipped(perPage, m + 1), |users|)]
  {
    var ranked := SortByOrderDesc(users);
    var a := PageStart(|users|, perPage, m);
    var b := PageEnd(|users|, perPage, m);
    assert Min(Skipped(perPage, m + 1), |users|) == b;
    SliceJoin(ranked, 0, a, b);
    assert ranked[..a] == ranked[0..a] && ranked[..b] == ranked[0..b];
  }

  /**
   * Page p and page p + 1 are adjacent slices of the ranking: page p + 1
   * starts where page p ends, and together they are one slice.
   */
  lemma ConsecutivePagesContiguous(users: seq<User>, perPage: int, p: int)
    requires perPage >= 1 && p >= 1
    ensures PageStart(|users|, perPage, p + 1) == PageEnd(|users|, perPage, p)
    ensures Page(users, perPage, p) + Page(users, perPage, p + 1)
            == SortByOrderDesc(users)[PageStart(|users|, perPage, p)..PageEnd(|users|, perPage, p + 1)]
  {
    var ranked := SortByOrderDesc(users);
    var a := PageStart(|users|, perPage, p);
    var b := PageEnd(|users|, perPage, p);
    var c := PageEnd(|users|, perPage, p + 1);
    assert PageStart(|users|, perPage, p + 1) == b;
    SliceJoin(ranked, a, b, c);
  }

  /** Two different pages never hold more copies of a record than are stored: they are disjoint. */
  lemma PagesDisjoint(users: seq<User>, perPage: int, p: int, q: int)
    requires perPage >= 1 && 1 <= p < q
    ensures multiset(Page(users, perPage, p)) + multiset(Page(users, perPage, q)) <= multiset(users)
  {
    var ranked := SortByOrderDesc(users);
    var a := PageStart(|users|, perPage, p);
    var b := PageEnd(|users|, perPage, p);
    var c := PageStart(|users|, perPage, q);
    var d := PageEnd(|users|, perPage, q);
    SkippedGrows(perPage, p, q);
    SlicesInside(ranked, a, b, c, d);
    SortIsPermutation(users);
  }

  /** Every record on an earlier page has an order number at least that of every record on a later page. */
  lemma EarlierPagesRankHigher(users: seq<User>, perPage: int, p: int, q: int, i: int, j: int)
    requires perPage >= 1 && 1 <= p < q
    requires 0 <= i < |Page(users, perPage, p)| && 0 <= j < |Page(users, perPage, q)|
    ensures Page(users, perPage, p)[i].orderNumber >= Page(users, perPage, q)[j].orderNumber
  {
    SkippedGrows(perPage, p, q);
  }

  /** With at least 20 records, page 2 of size 10 holds the records ranked 11th to 20th. */
  lemma SecondPageOfTen(users: seq<User>)
    requires |users| >= 20
    ensures Page(users, 10, 2) == SortByOrderDesc(users)[10..20]
  {
    assert Skipped(10, 2) == Skipped(10, 1) + 10 == 10;
    assert PageStart(|users|, 10, 2) == 10 && PageEnd(|users|, 10, 2) == 20;
  }

  /** The search term and the sort field and order do not change the listing. */
  lemma ListingIgnoresSearchAndSort(users: seq<User>, q: ListQuery, q': ListQuery)
    requires ValidListQuery(q) && ValidListQuery(q')
    requires q.perPage == q'.perPage && q.pageNumber == q'.pageNumber
    ensures UserList(users, q) == UserList(users, q')
  {
  }
}
