/** The paginated template listing: filter by author and category, order by
    id descending, skip and take one page, and count pages. */
module Listing {
  import opened Records

  /** The category value that means "no category restriction". */
  const AllCategories: string := "All"

  /** The fields a listing returns for each template. */
  datatype Template = Template(
    id: EmailId,
    content: string,
    category: string,
    subject: string,
    uniqueIdentifier: string
  )

  datatype PageResult = PageResult(
    templates: seq<Template>,
    totalCount: nat,
    totalPages: nat,
    currentPage: int
  )

  /** A session carries a usable user id (an empty id counts as none). */
  predicate SignedIn(session: Option<UserId>) {
    session.Some? && session.value != ""
  }

  predicate Matches(e: Email, user: UserId, category: string) {
    e.authorId == user && (category == AllCategories || e.category == category)
  }

  /** The ids of the rows the listing's filter selects. */
  function MatchingIds(emails: map<EmailId, Email>, user: UserId, category: string): set<EmailId> {
    set id | id in emails && Matches(emails[id], user, category)
  }

  lemma {:induction false} MaxExists(s: set<EmailId>)
    requires s != {}
    ensures exists m :: m in s && forall x :: x in s ==> x <= m
  {
    var y :| y in s;
    if s == {y} {
      assert forall x :: x in s ==> x <= y;
    } else {
      MaxExists(s - {y});
      var m :| m in s - {y} && forall x :: x in s - {y} ==> x <= m;
      var top := if m < y then y else m;
      forall x | x in s
        ensures x <= top
      {
        if x != y {
          assert x in s - {y};
        }
      }
      assert top in s;
    }
  }

  function MaxOf(s: set<EmailId>): (m: EmailId)
    requires s != {}
    ensures m in s && forall x :: x in s ==> x <= m
  {
    MaxExists(s);
    var m :| m in s && forall x :: x in s ==> x <= m;
    m
  }

  /** The ids of `s` in strictly descending order (Prisma's `orderBy id desc`). */
  function Descending(s: set<EmailId>): (r: seq<EmailId>)
    ensures |r| == |s|
    ensures forall x :: x in r <==> x in s
    ensures forall i, j :: 0 <= i < j < |r| ==> r[i] > r[j]
    decreases |s|
  {
    if s == {} then []
    else
      var m := MaxOf(s);
      [m] + Descending(s - {m})
  }

  /** Prisma's `skip`/`take` on an ordered result. */
  function Window(ids: seq<EmailId>, skip: nat, take: nat): seq<EmailId> {
    var lo := if skip < |ids| then skip else |ids|;
    var hi := if skip + take < |ids| then skip + take else |ids|;
    ids[lo..hi]
  }

  /** Integer ceiling of `n / k`. */
  function CeilDiv(n: nat, k: nat): nat
    requires k > 0
  {
    (n + k - 1) / k
  }

  function View(id: EmailId, e: Email): Template {
    Template(id, e.content, e.category, e.subject, e.uniqueIdentifier)
  }

  function Views(emails: map<EmailId, Email>, ids: seq<EmailId>): (r: seq<Template>)
    requires forall i :: 0 <= i < |ids| ==> ids[i] in emails
    ensures |r| == |ids|
    ensures forall i :: 0 <= i < |ids| ==> r[i] == View(ids[i], emails[ids[i]])
  {
    seq(|ids|, i requires 0 <= i < |ids| => View(ids[i], emails[ids[i]]))
  }

  /** The ids of the rows on `page` (1-based) for `user` and `category`. */
  function PageIds(emails: map<EmailId, Email>, user: UserId, category: string, page: int, itemsPerPage: nat): seq<EmailId>
    requires page >= 1 && itemsPerPage > 0
  {
    Window(Descending(MatchingIds(emails, user, category)), (page - 1) * itemsPerPage, itemsPerPage)
  }

  lemma WindowSlice(ids: seq<EmailId>, skip: nat, take: nat)
    ensures |Window(ids, skip, take)| <= take
    ensures forall j :: 0 <= j < |Window(ids, skip, take)| ==>
      skip + j < |ids| && Window(ids, skip, take)[j] == ids[skip + j]
  {
  }

  /** A window of a strictly descending sequence keeps its elements and
      its order. */
  lemma WindowOfDescending(ids: seq<EmailId>, skip: nat, take: nat)
    requires forall a, b :: 0 <= a < b < |ids| ==> ids[a] > ids[b]
    ensures var w := Window(ids, skip, take);
      && |w| <= take
      && (forall j :: 0 <= j < |w| ==> w[j] in ids)
      && (forall a, b :: 0 <= a < b < |w| ==> w[a] > w[b])
  {
  }

  /** A page holds at most `itemsPerPage` ids, all selected by the filter,
      in strictly descending order. */
  lemma PageIdsSelected(emails: map<EmailId, Email>, user: UserId, category: string, page: int, itemsPerPage: nat)
    requires page >= 1 && itemsPerPage > 0
    ensures var ids := PageIds(emails, user, category, page, itemsPerPage);
      && |ids| <= itemsPerPage
      && (forall j :: 0 <= j < |ids| ==> ids[j] in emails && Matches(emails[ids[j]], user, category))
      && (forall a, b :: 0 <= a < b < |ids| ==> ids[a] > ids[b])
  {
    var matching := MatchingIds(emails, user, category);
    var all := Descending(matching);
    var skip: nat := (page - 1) * itemsPerPage;
    WindowOfDescending(all, skip, itemsPerPage);
    var ids := Window(all, skip, itemsPerPage);
    forall j | 0 <= j < |ids|
      ensures ids[j] in emails && Matches(emails[ids[j]], user, category)
    {
      assert ids[j] in matching;
    }
  }

  /** One page of a user's templates. Without a signed-in user the answer is
      empty. A page below 1 gives a negative skip, which the database
      rejects; the error is swallowed into the same empty answer. */
  function GetTemplatesPaginated(
    emails: map<EmailId, Email>, session: Option<UserId>,
    page: int := 1, itemsPerPage: int := 8, category: string := AllCategories): (r: PageResult)
    requires itemsPerPage > 0
    ensures r.currentPage == page
    ensures !SignedIn(session) || page < 1 ==> r.templates == [] && r.totalCount == 0 && r.totalPages == 0
    ensures |r.templates| <= itemsPerPage
    ensures forall i :: 0 <= i < |r.templates| ==>
      SignedIn(session) && r.templates[i].id in emails &&
      Matches(emails[r.templates[i].id], session.value, category) &&
      r.templates[i] == View(r.templates[i].id, emails[r.templates[i].id])
    ensures forall i, j :: 0 <= i < j < |r.templates| ==> r.templates[i].id > r.templates[j].id
    ensures SignedIn(session) && page >= 1 ==>
      && r.totalCount == |MatchingIds(emails, session.value, category)|
      && r.totalPages == CeilDiv(r.totalCount, itemsPerPage)
      && |r.templates| == |PageIds(emails, session.value, category, page, itemsPerPage)|
      && forall i :: 0 <= i < |r.templates| ==>
           r.templates[i].id == PageIds(emails, session.value, category, page, itemsPerPage)[i]
  {
    if !SignedIn(session) || page < 1 then
      PageResult([], 0, 0, page)
    else
      var count := |MatchingIds(emails, session.value, category)|;
      var ids := PageIds(emails, session.value, category, page, itemsPerPage);
      PageIdsSelected(emails, session.value, category, page, itemsPerPage);
      PageResult(Views(emails, ids), count, CeilDiv(count, itemsPerPage), page)
  }

  // ---- arithmetic about pages ----

  /** `CeilDiv(n, k)` is the least number of `k`-sized pages that hold `n` items. */
  lemma CeilDivIsCeiling(n: nat, k: nat)
    requires k > 0
    ensures CeilDiv(n, k) * k >= n
    ensures CeilDiv(n, k) > 0 ==> (CeilDiv(n, k) - 1) * k < n
    ensures CeilDiv(n, k) == 0 <==> n == 0
  {
  }

  /** An index `i` of the ordered ids lies on page `i / k + 1`. */
  lemma DivBounds(i: nat, k: nat)
    requires k > 0
    ensures (i / k) * k <= i < (i / k) * k + k
  {
  }

  lemma DivUnique(i: nat, k: nat, q: int)
    requires k > 0 && q * k <= i < q * k + k
    ensures i / k == q
  {
    DivBounds(i, k);
    if i / k > q {
      MulMonotone(q + 1, i / k, k);
      assert false;
    } else if i / k < q {
      MulMonotone(i / k + 1, q, k);
      assert false;
    }
  }

  lemma MulMonotone(a: int, b: int, k: nat)
    requires a <= b
    ensures a * k <= b * k
  {
  }

  /** A page past the last one is empty, while the counts stay those of the
      whole filtered set. */
  lemma BeyondLastPage(emails: map<EmailId, Email>, session: Option<UserId>, page: int, itemsPerPage: int, category: string)
    requires itemsPerPage > 0 && SignedIn(session)
    requires page > CeilDiv(|MatchingIds(emails, session.value, category)|, itemsPerPage)
    ensures GetTemplatesPaginated(emails, session, page, itemsPerPage, category).templates == []
    ensures GetTemplatesPaginated(emails, session, page, itemsPerPage, category).totalCount
      == |MatchingIds(emails, session.value, category)|
  {
    var n := |MatchingIds(emails, session.value, category)|;
    var pages := CeilDiv(n, itemsPerPage);
    CeilDivIsCeiling(n, itemsPerPage);
    MulMonotone(pages, page - 1, itemsPerPage);
    assert (page - 1) * itemsPerPage >= n;
  }

  /** The number of templates on a page: a full page, the remainder on the
      last page, and nothing past it. */
  lemma PageLength(emails: map<EmailId, Email>, user: UserId, category: string, page: int, itemsPerPage: nat)
    requires page >= 1 && itemsPerPage > 0
    ensures var n := |MatchingIds(emails, user, category)|;
            var skip := (page - 1) * itemsPerPage;
            |PageIds(emails, user, category, page, itemsPerPage)| ==
              if skip >= n then 0
              else if n - skip < itemsPerPage then n - skip
              else itemsPerPage
  {
    MulMonotone(0, page - 1, itemsPerPage);
  }

  /** Every selected row appears on exactly one page, and that page is within
      `1..totalPages`: paging neither repeats nor skips a row. */
  lemma {:induction false} EachMatchOnOnePage(emails: map<EmailId, Email>, user: UserId, category: string, itemsPerPage: nat, id: EmailId)
    requires itemsPerPage > 0 && id in MatchingIds(emails, user, category)
    ensures var n := |MatchingIds(emails, user, category)|;
            exists page :: 1 <= page <= CeilDiv(n, itemsPerPage) &&
              id in PageIds(emails, user, category, page, itemsPerPage)
    ensures forall p, q ::
              (1 <= p && 1 <= q &&
               id in PageIds(emails, user, category, p, itemsPerPage) &&
               id in PageIds(emails, user, category, q, itemsPerPage)) ==> p == q
  {
    var k := itemsPerPage;
    var all := Descending(MatchingIds(emails, user, category));
    assert id in all;
    var i :| 0 <= i < |all| && all[i] == id;
    var page := i / k + 1;
    IndexOnPage(all, i, k);
    assert (page - 1) * k == (i / k) * k;
    assert PageIds(emails, user, category, page, k) == Window(all, (i / k) * k, k);
    forall p | 1 <= p && id in PageIds(emails, user, category, p, k)
      ensures p == page
    {
      assert PageIds(emails, user, category, p, k) == Window(all, (p - 1) * k, k);
      OnPageAt(all, i, p, k);
    }
  }

  /** The `i`-th id lies in the window of page `i / k + 1`, and that page is
      no later than the last one. */
  lemma IndexOnPage(all: seq<EmailId>, i: nat, k: nat)
    requires k > 0 && i < |all|
    ensures all[i] in Window(all, (i / k) * k, k)
    ensures i / k + 1 <= CeilDiv(|all|, k)
  {
    DivBounds(i, k);
    var skip := (i / k) * k;
    WindowSlice(all, skip, k);
    assert Window(all, skip, k)[i - skip] == all[i];
    CeilDivIsCeiling(|all|, k);
    if i / k + 1 > CeilDiv(|all|, k) {
      MulMonotone(CeilDiv(|all|, k), i / k, k);
      assert false;
    }
  }

  /** If the `i`-th of distinct, descending ids lies in page `p`'s window,
      then `p - 1 == i / k`. */
  lemma OnPageAt(all: seq<EmailId>, i: nat, p: int, k: nat)
    requires k > 0 && p >= 1 && i < |all|
    requires forall a, b :: 0 <= a < b < |all| ==> all[a] > all[b]
    requires all[i] in Window(all, (p - 1) * k, k)
    ensures p - 1 == i / k
  {
    MulMonotone(0, p - 1, k);
    var skip := (p - 1) * k;
    var w := Window(all, skip, k);
    var j :| 0 <= j < |w| && w[j] == all[i];
    assert w[j] == all[skip + j];
    assert skip + j == i;
    DivUnique(i, k, p - 1);
  }
}
