/** Offset pagination over the Spotify listing endpoints, as in
    `get_all_artist_albums` and `get_album_tracks` of both clients and the two loops
    of `get_artist_tracks` in wraithtrack.py: request offsets 0, 50, 100, ... and
    concatenate the pages' items until a page says there is no next one. The
    server's answers are an oracle indexed by offset; a failed request exits with
    status 1. */
module Paging {
  import opened Wrappers
  import opened Catalog

  const PageLimit := 50

  /** The `next` field: JSON null or a URL string. */
  datatype Next = NoNext | NextUrl(url: string)

  datatype Page<T> = Page(items: seq<T>, next: Next)

  /** `if data['next'] is None` versus `if not tracks_data['next']`. */
  datatype StopRule = NextIsNone | NextIsFalsy

  predicate Stops<T>(p: Page<T>, rule: StopRule) {
    match rule
    case NextIsNone => p.next.NoNext?
    case NextIsFalsy => p.next.NoNext? || p.next.url == ""
  }

  /** The falsy test stops wherever the `None` test does, and also on an empty URL. */
  lemma FalsyStopsNoLater<T>(p: Page<T>)
    ensures Stops(p, NextIsNone) ==> Stops(p, NextIsFalsy)
    ensures Stops(p, NextIsFalsy) && !Stops(p, NextIsNone) <==> p.next == NextUrl("")
  {
  }

  /** The answer to the `i`-th request, the one at offset `50 * i`; `None` is a
      `RequestException`. */
  function Response<T>(server: nat -> Option<Page<T>>, i: nat): Option<Page<T>> {
    server(PageLimit * i)
  }

  /** A paged listing as a caller that handles each page when it arrives sees it: the
      pages answered, in order, and whether the request after the last of them
      failed (when it did not, the last page said there is no next one). */
  datatype Listing<T> = Listing(pages: seq<seq<T>>, failed: bool)

  /** The items of the pages, page after page. */
  function Flatten<T>(pages: seq<seq<T>>): seq<T>
    decreases |pages|
  {
    if |pages| == 0 then [] else pages[0] + Flatten(pages[1..])
  }

  /** Page `i` was answered and asks for another. */
  predicate Continues<T>(server: nat -> Option<Page<T>>, rule: StopRule, i: nat) {
    Response(server, i).Some? && !Stops(Response(server, i).value, rule)
  }

  /** Request `i` failed or got the last page. */
  predicate Ends<T>(server: nat -> Option<Page<T>>, rule: StopRule, i: nat) {
    Response(server, i).None? || Stops(Response(server, i).value, rule)
  }

  /** Reference definition: the items of the answered pages among `0 .. k-1`, in order. */
  function ItemsOf<T>(server: nat -> Option<Page<T>>, k: nat): seq<T> {
    if k == 0 then []
    else ItemsOf(server, k - 1) + (if Response(server, k - 1).Some? then Response(server, k - 1).value.items else [])
  }

  /** The items of the first `n` pages; the callers below use it only where those
      requests were answered. */
  function AnsweredPages<T>(server: nat -> Option<Page<T>>, n: nat): seq<seq<T>> {
    if n == 0 then []
    else AnsweredPages(server, n - 1) + [if Response(server, n - 1).Some? then Response(server, n - 1).value.items else []]
  }

  /** The listing the requests give when request `e` is the first that ends it:
      the pages before it, then its own page unless it failed. */
  function ListingOf<T>(server: nat -> Option<Page<T>>, e: nat): Listing<T> {
    if Response(server, e).None? then Listing(AnsweredPages(server, e), true)
    else Listing(AnsweredPages(server, e + 1), false)
  }

  lemma {:induction false} FlattenSnoc<T>(pages: seq<seq<T>>, last: seq<T>)
    ensures Flatten(pages + [last]) == Flatten(pages) + last
    decreases |pages|
  {
    if |pages| == 0 {
      assert pages + [last] == [last];
      assert Flatten([last][1..]) == [];
    } else {
      assert (pages + [last])[0] == pages[0] && (pages + [last])[1..] == pages[1..] + [last];
      FlattenSnoc(pages[1..], last);
    }
  }

  lemma {:induction false} AnsweredPagesItems<T>(server: nat -> Option<Page<T>>, n: nat)
    ensures Flatten(AnsweredPages(server, n)) == ItemsOf(server, n)
    decreases n
  {
    if n > 0 {
      AnsweredPagesItems(server, n - 1);
      FlattenSnoc(AnsweredPages(server, n - 1),
                  if Response(server, n - 1).Some? then Response(server, n - 1).value.items else []);
    }
  }

  /** The listing ended at request `e` holds the items of requests `0 .. e`, in
      order, and fails exactly when request `e` did; ended where the stop rule ends
      it, a listing that did not fail ends on a page the rule stops at. */
  lemma ListingOfItems<T>(server: nat -> Option<Page<T>>, rule: StopRule, e: nat)
    requires Ends(server, rule, e)
    ensures Flatten(ListingOf(server, e).pages) == ItemsOf(server, e + 1)
    ensures ListingOf(server, e).failed <==> Response(server, e).None?
    ensures !ListingOf(server, e).failed ==> Stops(Response(server, e).value, rule)
  {
    if Response(server, e).None? {
      AnsweredPagesItems(server, e);
      assert ItemsOf(server, e + 1) == ItemsOf(server, e) + [];
    } else {
      AnsweredPagesItems(server, e + 1);
    }
  }

  /** The request loop. `last` is any request at which the listing ends; the loop
      stops at the first such request, having asked for offsets 0, 50, ... in turn. */
  method FetchAll<T>(server: nat -> Option<Page<T>>, rule: StopRule, ghost last: nat)
    returns (r: Result<seq<T>, Stop>, offsets: seq<nat>)
    requires Ends(server, rule, last)
    ensures 1 <= |offsets| <= last + 1
    ensures forall i :: 0 <= i < |offsets| ==> offsets[i] == PageLimit * i
    ensures forall i :: 0 <= i < |offsets| - 1 ==> Continues(server, rule, i)
    ensures Ends(server, rule, |offsets| - 1)
    ensures r.Success? <==> Response(server, |offsets| - 1).Some?
    ensures r.Success? ==> r.value == ItemsOf(server, |offsets|)
    ensures r.Failure? ==> r.error == Exited(1)
    ensures r.Success? <==> !ListingOf(server, |offsets| - 1).failed
    ensures r.Success? ==> r.value == Flatten(ListingOf(server, |offsets| - 1).pages)
  {
    offsets := [];
    var items: seq<T> := [];
    var i: nat := 0;
    while true
      invariant i == |offsets| && i <= last
      invariant forall j :: 0 <= j < i ==> offsets[j] == PageLimit * j
      invariant forall j :: 0 <= j < i ==> Continues(server, rule, j)
      invariant items == ItemsOf(server, i)
      decreases last - i
    {
      offsets := offsets + [PageLimit * i];
      var response := server(PageLimit * i);
      if response.None? {
        r := Failure(Exited(1));
        ListingOfItems(server, rule, i);
        return;
      }
      items := items + response.value.items;
      if Stops(response.value, rule) {
        r := Success(items);
        ListingOfItems(server, rule, i);
        return;
      }
      i := i + 1;
    }
  }

  /** Where the listing ends first is unique, so the loop's answer does not depend
      on which end `last` names. */
  lemma FirstEndUnique<T>(server: nat -> Option<Page<T>>, rule: StopRule, k1: nat, k2: nat)
    requires forall i :: 0 <= i < k1 ==> Continues(server, rule, i)
    requires forall i :: 0 <= i < k2 ==> Continues(server, rule, i)
    requires Ends(server, rule, k1) && Ends(server, rule, k2)
    ensures k1 == k2
  {
    if k1 < k2 {
      NotBoth(server, rule, k1);
      assert false;
    } else if k2 < k1 {
      NotBoth(server, rule, k2);
      assert false;
    }
  }

  lemma NotBoth<T>(server: nat -> Option<Page<T>>, rule: StopRule, i: nat)
    ensures !(Continues(server, rule, i) && Ends(server, rule, i))
  {
  }
}
