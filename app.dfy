/**
 * The browser side: the state the gift list page keeps, the search filter,
 * the 9-per-page pagination, the counters, image URLs, and the checks made
 * before a guest's reservation is sent.
 */
module App {
  import opened Wrappers
  import opened Js
  import opened GiftModel
  import GiftController
  import AdminController

  const ItemsPerPage := 9

  // ------------------------------------------------------------ image URLs

  predicate IsAbsolute(url: string)
  {
    StartsWith(url, "http://") || StartsWith(url, "https://")
  }

  /** `buildImageUrl`: no image gives "", an absolute URL is kept, a path is served from the page's origin. */
  function BuildImageUrl(imageUrl: Option<string>, origin: string): (r: string)
    ensures imageUrl.None? || imageUrl == Some("") ==> r == ""
    ensures imageUrl.Some? && IsAbsolute(imageUrl.value) ==> r == imageUrl.value
    ensures imageUrl.Some? && imageUrl.value != "" && !IsAbsolute(imageUrl.value) ==> r == origin + imageUrl.value
  {
    match imageUrl
    case None => ""
    case Some(url) => if url == "" then "" else if IsAbsolute(url) then url else origin + url
  }

  /** An uploaded image, stored under its relative path, is fetched from the page's own origin. */
  lemma UploadedImageIsServedFromOrigin(filename: string, origin: string)
    ensures BuildImageUrl(Some(AdminController.UploadPath(filename)), origin) == origin + AdminController.UploadPath(filename)
  {
    var p := AdminController.UploadPath(filename);
    assert p[0] == '/';
    assert !StartsWith(p, "http://") by { assert "http://"[0] != p[0]; }
    assert !StartsWith(p, "https://") by { assert "https://"[0] != p[0]; }
  }

  // ---------------------------------------------------------------- search

  /** The filter's test: the lower-cased name, category or description contains the term. */
  predicate MatchesSearch(g: Gift, term: string)
  {
    Includes(ToLower(g.name), term) || Includes(ToLower(g.category), term) || Includes(ToLower(g.description), term)
  }

  /** `gifts.filter(...)`: the matching gifts in their original order. */
  function FilterByTerm(gifts: seq<Gift>, term: string): (r: seq<Gift>)
    ensures |r| <= |gifts|
    ensures forall g :: g in r <==> g in gifts && MatchesSearch(g, term)
  {
    if gifts == [] then []
    else
      var rest := FilterByTerm(gifts[1..], term);
      assert forall g :: g in gifts <==> g == gifts[0] || g in gifts[1..] by {
        assert gifts == [gifts[0]] + gifts[1..];
      }
      (if MatchesSearch(gifts[0], term) then [gifts[0]] else []) + rest
  }

  /** Filtering a concatenation filters each part and keeps them in order. */
  lemma {:induction false} FilterAppend(a: seq<Gift>, b: seq<Gift>, term: string)
    ensures FilterByTerm(a + b, term) == FilterByTerm(a, term) + FilterByTerm(b, term)
  {
    if a != [] {
      FilterAppend(a[1..], b, term);
      assert (a + b)[0] == a[0];
      assert (a + b)[1..] == a[1..] + b;
    } else {
      assert a + b == b;
    }
  }

  /** Each matching gift is kept as many times as it occurs, each other gift not at all. */
  lemma {:induction false} FilterCounts(gifts: seq<Gift>, term: string, g: Gift)
    ensures multiset(FilterByTerm(gifts, term))[g] == if MatchesSearch(g, term) then multiset(gifts)[g] else 0
  {
    if gifts != [] {
      FilterCounts(gifts[1..], term, g);
      assert gifts == [gifts[0]] + gifts[1..];
    }
  }

  /** The list `filterGifts` shows: all gifts for a blank term, the matching ones otherwise. */
  function SearchResults(gifts: seq<Gift>, searchTerm: string): (r: seq<Gift>)
    ensures Trim(ToLower(searchTerm)) == "" ==> r == gifts
    ensures forall g :: g in r <==> g in gifts && (Trim(ToLower(searchTerm)) == "" || MatchesSearch(g, Trim(ToLower(searchTerm))))
    ensures |r| <= |gifts|
  {
    var term := Trim(ToLower(searchTerm));
    if term == "" then gifts else FilterByTerm(gifts, term)
  }

  // ------------------------------------------------------------ pagination

  /** `Math.ceil(n / 9)` */
  function TotalPages(n: nat): (t: nat)
    ensures n == 0 <==> t == 0
    ensures n > 0 ==> (t - 1) * ItemsPerPage < n <= t * ItemsPerPage
  {
    (n + ItemsPerPage - 1) / ItemsPerPage
  }

  /** The gifts page `page` shows: `slice((page - 1) * 9, (page - 1) * 9 + 9)`. */
  function PageItems(s: seq<Gift>, page: int): (r: seq<Gift>)
    ensures |r| <= ItemsPerPage
    ensures 1 <= page && (page - 1) * ItemsPerPage <= |s| ==>
      r == s[(page - 1) * ItemsPerPage .. Min(page * ItemsPerPage, |s|)]
    ensures 1 <= page ==> (r != [] <==> page <= TotalPages(|s|))
  {
    var start := (page - 1) * ItemsPerPage;
    Slice(s, start, start + ItemsPerPage)
  }

  /** Every gift of the list is shown on page `i / 9 + 1`, at position `i % 9`. */
  lemma ItemOnItsPage(s: seq<Gift>, i: int)
    requires 0 <= i < |s|
    ensures var page := PageItems(s, i / ItemsPerPage + 1);
      i % ItemsPerPage < |page| && page[i % ItemsPerPage] == s[i]
  {
  }

  /** The pages from `from` to `to`, one after another. */
  function PagesFrom(s: seq<Gift>, from: int, to: int): seq<Gift>
    decreases to - from
  {
    if from > to then [] else PageItems(s, from) + PagesFrom(s, from + 1, to)
  }

  /** From page `p` on, the pages hold the rest of the list from `(p - 1) * 9`. */
  lemma {:induction false} PagesFromRest(s: seq<Gift>, p: int)
    requires 1 <= p && (p - 1) * ItemsPerPage <= |s|
    ensures PagesFrom(s, p, TotalPages(|s|)) == s[(p - 1) * ItemsPerPage..]
    decreases TotalPages(|s|) - p
  {
    if p <= TotalPages(|s|) {
      var end := Min(p * ItemsPerPage, |s|);
      if p * ItemsPerPage <= |s| {
        PagesFromRest(s, p + 1);
      } else {
        assert p + 1 > TotalPages(|s|);
      }
      assert s[(p - 1) * ItemsPerPage..] == s[(p - 1) * ItemsPerPage..end] + s[end..];
    }
  }

  /** The pages together are the whole list, in order, each gift on exactly one page. */
  lemma PagesCoverList(s: seq<Gift>)
    ensures PagesFrom(s, 1, TotalPages(|s|)) == s
  {
    PagesFromRest(s, 1);
  }

  /** A pagination bullet: the page it leads to and whether it is the current one. */
  datatype Bullet = Bullet(page: int, active: bool)

  // --------------------------------------------------------------- metrics

  /** `gifts.filter(g => g.status === 'reserved').length` */
  function CountReserved(gifts: seq<Gift>): (n: nat)
    ensures n <= |gifts|
  {
    if gifts == [] then 0 else (if gifts[0].status == Reserved then 1 else 0) + CountReserved(gifts[1..])
  }

  lemma {:induction false} CountReservedAppend(a: seq<Gift>, b: seq<Gift>)
    ensures CountReserved(a + b) == CountReserved(a) + CountReserved(b)
  {
    if a != [] {
      CountReservedAppend(a[1..], b);
      assert (a + b)[0] == a[0];
      assert (a + b)[1..] == a[1..] + b;
    } else {
      assert a + b == b;
    }
  }

  /** Reserving one available gift of the list raises the reserved count by one. */
  lemma ReservingOneCountsOne(gifts: seq<Gift>, i: int, g: Gift)
    requires 0 <= i < |gifts| && gifts[i].status == Available && g.status == Reserved
    ensures CountReserved(gifts[i := g]) == CountReserved(gifts) + 1
  {
    assert gifts == gifts[..i] + [gifts[i]] + gifts[i + 1..];
    assert gifts[i := g] == gifts[..i] + [g] + gifts[i + 1..];
    CountReservedAppend(gifts[..i] + [gifts[i]], gifts[i + 1..]);
    CountReservedAppend(gifts[..i], [gifts[i]]);
    CountReservedAppend(gifts[..i] + [g], gifts[i + 1..]);
    CountReservedAppend(gifts[..i], [g]);
  }

  /** The three counters of the page. */
  datatype Metrics = Metrics(total: nat, available: nat, reserved: nat)

  /** `updateMetrics`: reserved counts the reserved gifts, and available and reserved add up to the total. */
  function UpdateMetrics(gifts: seq<Gift>): (m: Metrics)
    ensures m.total == |gifts| && m.reserved == CountReserved(gifts)
    ensures m.available + m.reserved == m.total
  {
    Metrics(|gifts|, |gifts| - CountReserved(gifts), CountReserved(gifts))
  }

  // ---------------------------------------------------------- reservation

  const GuestNameRequiredMessage := "Nome completo é obrigatório"
  const NoGiftChosenMessage := "Erro: presente não encontrado"
  const ReserveRetryMessage := "Erro ao reservar presente. Tente novamente."
  const AlreadyTakenMessage := "Este presente já foi reservado."

  /** The index of the first gift with that id (`findIndex`), or -1. */
  function IndexOfId(gifts: seq<Gift>, id: int): (i: int)
    ensures -1 <= i < |gifts|
    ensures i == -1 <==> forall k :: 0 <= k < |gifts| ==> gifts[k].id != id
    ensures i >= 0 ==> gifts[i].id == id && forall k :: 0 <= k < i ==> gifts[k].id != id
  {
    if gifts == [] then -1
    else if gifts[0].id == id then 0
    else
      var rest := IndexOfId(gifts[1..], id);
      if rest == -1 then -1 else rest + 1
  }

  /**
   * The client's name check agrees with the server's, given a gift id that is
   * not 0: a name the client accepts passes the server's checks unchanged, so no
   * request is sent in vain, and a name it refuses the server would refuse too.
   */
  lemma ClientCheckMatchesServer(input: string, id: int)
    requires id != 0
    ensures |Trim(input)| >= 3 ==>
      GiftController.CheckReserveRequest(GiftController.ReserveRequest(Num(id), Str(Trim(input))))
        == Ok(GiftController.Claim(id, Prefix(Trim(input), 100)))
    ensures |Trim(input)| < 3 ==>
      var r := GiftController.CheckReserveRequest(GiftController.ReserveRequest(Num(id), Str(input)));
      r.Err? && r.error.status == 400
  {
    TrimIdempotent(input);
  }

  /** What choosing a gift's button does. */
  datatype Choice = NotListed | AlreadyTaken | Opened(gift: Gift)

  /** What submitting the guest's name does. */
  datatype Submission =
    | FieldError(message: string)
    | NoGift
    | Sent(request: GiftController.ReserveRequest, failure: Option<string>)

  /** The page's state: the list as fetched, the filtered list, the chosen gift, the page and the search text. */
  class AppState {
    var gifts: seq<Gift>
    var filteredGifts: seq<Gift>
    var currentGift: Option<Gift>
    var currentPage: int
    var searchTerm: string

    /** The current page is always one that exists (page 1 when the list is empty). */
    ghost predicate Valid()
      reads this
    {
      1 <= currentPage <= Max(1, TotalPages(|filteredGifts|))
    }

    constructor ()
      ensures Valid()
      ensures gifts == [] && filteredGifts == [] && currentGift.None? && currentPage == 1 && searchTerm == ""
    {
      gifts := [];
      filteredGifts := [];
      currentGift := None;
      currentPage := 1;
      searchTerm := "";
    }

    /** `filterGifts`: recomputes the shown list from the search text and goes back to page 1. */
    method FilterGifts()
      modifies this
      ensures Valid()
      ensures filteredGifts == SearchResults(gifts, searchTerm) && currentPage == 1
      ensures gifts == old(gifts) && searchTerm == old(searchTerm) && currentGift == old(currentGift)
    {
      var term := Trim(ToLower(searchTerm));
      if term == "" {
        filteredGifts := gifts;
      } else {
        filteredGifts := FilterByTerm(gifts, term);
      }
      currentPage := 1;
    }

    /** The search box: a new text (or "" on Escape) is stored and the list refiltered. */
    method Search(text: string)
      modifies this
      ensures Valid()
      ensures searchTerm == text && filteredGifts == SearchResults(gifts, text) && currentPage == 1
      ensures gifts == old(gifts) && currentGift == old(currentGift)
    {
      searchTerm := text;
      FilterGifts();
    }

    /**
     * `loadGifts`: `fetched` is the `gifts` field of the answer (absent taken as
     * []), or the error of the request, which leaves the state as it was.
     */
    method LoadGifts(fetched: Result<Option<seq<Gift>>, Error>)
      requires Valid()
      modifies this
      ensures Valid()
      ensures fetched.Err? ==>
        gifts == old(gifts) && filteredGifts == old(filteredGifts) && currentPage == old(currentPage)
      ensures fetched.Ok? ==>
        && gifts == (match fetched.value case None => [] case Some(list) => list)
        && filteredGifts == SearchResults(gifts, searchTerm) && currentPage == 1
      ensures searchTerm == old(searchTerm) && currentGift == old(currentGift)
    {
      if fetched.Err? {
        return;
      }
      gifts := match fetched.value case None => [] case Some(list) => list;
      filteredGifts := [];
      currentPage := 1;
      FilterGifts();
    }

    /** The slice `renderGifts` shows: never more than 9, and some gift whenever the list has one. */
    function VisibleGifts(): (r: seq<Gift>)
      reads this
      requires Valid()
      ensures |r| <= ItemsPerPage
      ensures r != [] <==> filteredGifts != []
      ensures forall g :: g in r ==> g in filteredGifts
    {
      PageItems(filteredGifts, currentPage)
    }

    /** `renderPagination`: no bullets for a single page, otherwise one per page with the current one active. */
    method PaginationBullets() returns (bullets: seq<Bullet>)
      ensures var total := TotalPages(|filteredGifts|);
        && (total <= 1 ==> bullets == [])
        && (total > 1 ==> |bullets| == total)
        && forall k :: 0 <= k < |bullets| ==> bullets[k] == Bullet(k + 1, k + 1 == currentPage)
    {
      var total := TotalPages(|filteredGifts|);
      bullets := [];
      if total <= 1 {
        return;
      }
      var i := 1;
      while i <= total
        invariant 1 <= i <= total + 1
        invariant |bullets| == i - 1
        invariant forall k :: 0 <= k < |bullets| ==> bullets[k] == Bullet(k + 1, k + 1 == currentPage)
      {
        bullets := bullets + [Bullet(i, i == currentPage)];
        i := i + 1;
      }
    }

    /** `goToPage`: a page outside 1..total is ignored. */
    method GoToPage(page: int)
      requires Valid()
      modifies this
      ensures Valid()
      ensures page < 1 || page > TotalPages(|filteredGifts|) ==> currentPage == old(currentPage)
      ensures 1 <= page <= TotalPages(|filteredGifts|) ==> currentPage == page
      ensures gifts == old(gifts) && filteredGifts == old(filteredGifts)
      ensures currentGift == old(currentGift) && searchTerm == old(searchTerm)
    {
      var total := TotalPages(|filteredGifts|);
      if page < 1 || page > total {
        return;
      }
      currentPage := page;
    }

    /** `handleChooseGift`: only a listed, available gift becomes the chosen one. */
    method ChooseGift(giftId: int) returns (choice: Choice)
      requires Valid()
      modifies this
      ensures Valid()
      ensures var i := IndexOfId(gifts, giftId);
        && (i == -1 ==> choice == NotListed && currentGift == old(currentGift))
        && (i >= 0 && gifts[i].status == Reserved ==> choice == AlreadyTaken && currentGift == old(currentGift))
        && (i >= 0 && gifts[i].status != Reserved ==> choice == Opened(gifts[i]) && currentGift == Some(gifts[i]))
      ensures gifts == old(gifts) && filteredGifts == old(filteredGifts)
      ensures currentPage == old(currentPage) && searchTerm == old(searchTerm)
    {
      var i := IndexOfId(gifts, giftId);
      if i == -1 {
        return NotListed;
      }
      var gift := gifts[i];
      if gift.status == Reserved {
        return AlreadyTaken;
      }
      currentGift := Some(gift);
      choice := Opened(gift);
    }

    /**
     * `handleReserveGift`: a blank or short name, or no chosen gift, sends
     * nothing and changes nothing. `reply` is the server's refusal, if any. On
     * success only the chosen gift's entry of `gifts` changes, to reserved under
     * the trimmed name at `now`.
     */
    method ReserveGift(guestInput: string, reply: Option<Error>, now: Timestamp) returns (s: Submission)
      requires Valid()
      modifies this
      ensures Valid()
      ensures var name := Trim(guestInput);
        && (name == "" ==> s == FieldError(GuestNameRequiredMessage))
        && (name != "" && |name| < 3 ==> s == FieldError(GiftController.ShortGuestNameMessage))
        && (|name| >= 3 && old(currentGift).None? ==> s == NoGift)
        && (s.Sent? <==> |name| >= 3 && old(currentGift).Some?)
        && (s.Sent? ==> s.request == GiftController.ReserveRequest(Num(old(currentGift).value.id), Str(name)))
      ensures !(s.Sent? && s.failure.None?) ==> gifts == old(gifts)
      ensures s.Sent? && s.failure.None? ==>
        var i := IndexOfId(old(gifts), old(currentGift).value.id);
        && (i == -1 ==> gifts == old(gifts))
        && (i >= 0 ==> gifts == old(gifts)[i := old(gifts)[i].(status := Reserved, reservedBy := Some(Trim(guestInput)),
                                                               reservedAt := Some(now))])
      ensures s.Sent? ==> (s.failure.Some? <==> reply.Some?)
      ensures s.Sent? && reply.Some? ==>
        s.failure == Some(if reply.value.message != "" then reply.value.message else ReserveRetryMessage)
      ensures filteredGifts == old(filteredGifts) && currentPage == old(currentPage)
      ensures currentGift == old(currentGift) && searchTerm == old(searchTerm)
    {
      var name := Trim(guestInput);
      if name == "" {
        return FieldError(GuestNameRequiredMessage);
      }
      if |name| < 3 {
        return FieldError(GiftController.ShortGuestNameMessage);
      }
      if currentGift.None? {
        return NoGift;
      }
      var request := GiftController.ReserveRequest(Num(currentGift.value.id), Str(name));
      if reply.Some? {
        return Sent(request, Some(if reply.value.message != "" then reply.value.message else ReserveRetryMessage));
      }
      var i := IndexOfId(gifts, currentGift.value.id);
      if i != -1 {
        gifts := gifts[i := gifts[i].(status := Reserved, reservedBy := Some(name), reservedAt := Some(now))];
      }
      s := Sent(request, None);
    }
  }
}
