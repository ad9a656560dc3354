/**
 * The paging loop both listings use: keep requesting while fewer items have
 * been gathered than the latest page reports in total. The reviews loop sends
 * the previous page's `nextPageToken`; the locations loop sends the original
 * request again. `followTokens` selects between the two.
 */
module Paging {
  import opened Common
  import opened GoogleApi

  datatype Outcome<T, A> =
    | Collected(items: seq<T>, last: Page<T, A>)
    | PageFailed(errors: seq<string>, last: Page<T, A>)
    | OutOfFuel

  function NextRequest<T, A>(followTokens: bool, current: Page<T, A>): Option<string>
  {
    if followTokens then current.nextPageToken else None
  }

  /** The loop from the state where `acc` has been gathered and `current` is the
      latest page: the loop test reads `current.total`, a pass appends
      `current.items` and requests the next page. `last` is the page in hand when
      the loop stops or a request throws. At most `fuel` more requests are made;
      past that the loop is taken not to end. */
  function Collect<T, A>(list: Lister<T, A>, followTokens: bool, acc: seq<T>, current: Page<T, A>, fuel: nat): Outcome<T, A>
    decreases fuel
  {
    if |acc| >= current.total then Collected(acc, current)
    else if fuel == 0 then OutOfFuel
    else
      match list(NextRequest(followTokens, current))
      case Thrown(e) => PageFailed(e, current)
      case Ok(next) => Collect(list, followTokens, acc + current.items, next, fuel - 1)
  }

  /** The `while (count($items) < $page->total)` loop, starting from the first page. */
  method CollectPages<T, A>(list: Lister<T, A>, followTokens: bool, first: Page<T, A>, fuel: nat) returns (r: Outcome<T, A>)
    ensures r == Collect(list, followTokens, [], first, fuel)
  {
    var acc: seq<T> := [];
    var current := first;
    var left := fuel;
    while |acc| < current.total
      invariant Collect(list, followTokens, acc, current, left) == Collect(list, followTokens, [], first, fuel)
      decreases left
    {
      if left == 0 {
        return OutOfFuel;
      }
      var response := list(NextRequest(followTokens, current));
      match response {
        case Thrown(e) =>
          return PageFailed(e, current);
        case Ok(next) =>
          acc := acc + current.items;
          current := next;
          left := left - 1;
      }
    }
    r := Collected(acc, current);
  }

  /** All items of `pages`, in page order. */
  function Flatten<T, A>(pages: seq<Page<T, A>>): seq<T>
  {
    if |pages| == 0 then [] else Flatten(pages[..|pages| - 1]) + pages[|pages| - 1].items
  }

  /** `list` serves `pages` as the API does: the first request returns
      `pages[0]`, every page but the last names the token that returns the
      next one, the last names none, no page is empty and every page reports
      the number of items over all pages as the total. */
  ghost predicate Serves<T, A>(list: Lister<T, A>, pages: seq<Page<T, A>>)
  {
    |pages| > 0 &&
    list(None) == Ok(pages[0]) &&
    (forall i :: 0 <= i < |pages| ==> |pages[i].items| > 0 && pages[i].total == |Flatten(pages)|) &&
    (forall i :: 0 <= i < |pages| - 1 ==>
      pages[i].nextPageToken.Some? && list(pages[i].nextPageToken) == Ok(pages[i + 1])) &&
    pages[|pages| - 1].nextPageToken.None?
  }

  lemma {:induction false} FlattenPrefixShorter<T, A>(pages: seq<Page<T, A>>, k: nat)
    requires k < |pages|
    requires forall i :: 0 <= i < |pages| ==> |pages[i].items| > 0
    ensures |Flatten(pages[..k])| < |Flatten(pages)|
    decreases |pages|
  {
    var init := pages[..|pages| - 1];
    if k < |pages| - 1 {
      assert init[..k] == pages[..k];
      FlattenPrefixShorter(init, k);
    } else {
      assert init == pages[..k];
    }
  }

  lemma {:induction false} FollowingTokensFrom<T, A>(list: Lister<T, A>, pages: seq<Page<T, A>>, k: nat, fuel: nat)
    requires Serves(list, pages)
    requires k < |pages| && fuel >= |pages| - k
    ensures Collect(list, true, Flatten(pages[..k]), pages[k], fuel) == Collected(Flatten(pages), pages[0])
    decreases |pages| - k
  {
    FlattenPrefixShorter(pages, k);
    assert pages[..k + 1][..k] == pages[..k];
    if k == |pages| - 1 {
      assert pages[..k + 1] == pages;
    } else {
      FollowingTokensFrom(list, pages, k + 1, fuel - 1);
    }
  }

  /** Following `nextPageToken` gathers every page exactly once, in order, and
      stops on the first page fetched again after the last. */
  lemma FollowingTokensCollectsEveryPage<T, A>(list: Lister<T, A>, pages: seq<Page<T, A>>, fuel: nat)
    requires Serves(list, pages)
    requires fuel >= |pages|
    ensures Collect(list, true, [], pages[0], fuel) == Collected(Flatten(pages), pages[0])
  {
    assert pages[..0] == [];
    FollowingTokensFrom(list, pages, 0, fuel);
  }

  function Repeat<T>(xs: seq<T>, m: nat): seq<T>
  {
    if m == 0 then [] else Repeat(xs, m - 1) + xs
  }

  /** Re-sending the first request: whatever the API holds, the loop can only
      gather copies of the first page. */
  lemma {:induction false} RepeatingFirstRequest<T, A>(list: Lister<T, A>, first: Page<T, A>, m: nat, fuel: nat)
    requires list(None) == Ok(first)
    ensures var r := Collect(list, false, Repeat(first.items, m), first, fuel);
      r.OutOfFuel? || (r.Collected? && r.last == first && exists j :: r.items == Repeat(first.items, j))
    decreases fuel
  {
    if |Repeat(first.items, m)| < first.total && fuel > 0 {
      RepeatingFirstRequest(list, first, m + 1, fuel - 1);
    }
  }

  const FirstOfTwo: Page<string, ()> := Page(["a"], 2, Some("2"), ())
  const SecondOfTwo: Page<string, ()> := Page(["b"], 2, None, ())

  /** An account whose two items come one per page. */
  function TwoPageLister(): Lister<string, ()>
  {
    t => if t == Some("2") then Ok(SecondOfTwo) else Ok(FirstOfTwo)
  }

  /** With two pages served correctly, re-sending the first request gathers the
      first page twice and never sees the second; following the token gathers both. */
  lemma RepeatingFirstRequestDuplicates()
    ensures Serves(TwoPageLister(), [FirstOfTwo, SecondOfTwo])
    ensures Collect(TwoPageLister(), false, [], FirstOfTwo, 2) == Collected(["a", "a"], FirstOfTwo)
    ensures Collect(TwoPageLister(), true, [], FirstOfTwo, 2) == Collected(["a", "b"], FirstOfTwo)
  {
    var pages := [FirstOfTwo, SecondOfTwo];
    assert pages[..1] == [FirstOfTwo];
    assert pages[..1][..0] == [];
    assert Flatten(pages[..1]) == ["a"];
    assert Flatten(pages) == ["a", "b"];
    assert ["a"] + ["a"] == ["a", "a"];
  }
}
