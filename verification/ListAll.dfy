/** The client side: `ListAllPaginated` of api/pagination.go, and both sides together. */
module ListAll {
  import opened Wrappers
  import opened PageTokens
  import opened Sorting
  import opened Pagination

  /** How a service answers: a function of the number of the call and the token presented. */
  type Service<T> = (nat, string) -> Reply<T>

  /** From call `k` with `token` on, the service sends its last page, or an error, within `n` calls. */
  predicate Ends<T>(list: Service<T>, k: nat, token: string, n: nat)
    decreases n
  {
    n > 0 && var reply := list(k, token); reply.Page? && reply.next != "" ==> Ends(list, k + 1, reply.next, n - 1)
  }

  /** A client that starts with the empty token is done after at most `n` calls. */
  predicate EndsWithin<T>(list: Service<T>, n: nat) {
    Ends(list, 0, "", n)
  }

  /** The pages received before the listing ends or fails. */
  function Pages<T>(list: Service<T>, k: nat, token: string, n: nat): seq<seq<T>>
    requires Ends(list, k, token, n)
    decreases n
  {
    match list(k, token)
    case Page(values, next) => [values] + (if next == "" then [] else Pages(list, k + 1, next, n - 1))
    case _ => []
  }

  /** What the client is given: all values, or nothing once any page fails. */
  function Collect<T>(list: Service<T>, k: nat, token: string, n: nat): Option<seq<T>>
    requires Ends(list, k, token, n)
    decreases n
  {
    match list(k, token)
    case Page(values, next) =>
      if next == "" then Some(values)
      else
        var rest := Collect(list, k + 1, next, n - 1);
        if rest.None? then None else Some(values + rest.value)
    case _ => None
  }

  /** From call `k` on, the client collects exactly `values`, within `n` calls. */
  predicate Delivers<T(==)>(list: Service<T>, k: nat, token: string, n: nat, values: seq<T>) {
    Ends(list, k, token, n) && Collect(list, k, token, n) == Some(values)
  }

  /** ... and makes exactly `calls` calls for it. */
  predicate Takes<T>(list: Service<T>, k: nat, token: string, n: nat, calls: nat) {
    Ends(list, k, token, n) && |Pages(list, k, token, n)| == calls
  }

  /** The token that call `k` presents; empty after the listing has ended. */
  function TokenAt<T>(list: Service<T>, k: nat): string {
    if k == 0 then ""
    else
      var reply := list(k - 1, TokenAt(list, k - 1));
      if reply.Page? then reply.next else ""
  }

  /** Call `k` fails or returns the empty token. */
  predicate Stops<T>(list: Service<T>, k: nat) {
    var reply := list(k, TokenAt(list, k));
    !reply.Page? || reply.next == ""
  }

  /** The values of the first `k` replies. */
  function Gathered<T>(list: Service<T>, k: nat): seq<T> {
    if k == 0 then []
    else
      var reply := list(k - 1, TokenAt(list, k - 1));
      Gathered(list, k - 1) + (if reply.Page? then reply.values else [])
  }

  /** The client has returned, or is about to call again with a token. */
  datatype Client<T> = Returned(results: Option<seq<T>>) | Calling(values: seq<T>, token: string)

  /**
  The loop over any service, watched for `calls` rounds: it has returned what `Collect` says if the
  service ends by then, and otherwise holds everything received so far and goes on with the last token.
  */
  method ListAllPaginated<T>(list: Service<T>, calls: nat) returns (client: Client<T>)
    ensures EndsWithin(list, calls) ==> client == Returned(Collect(list, 0, "", calls))
    ensures !EndsWithin(list, calls) ==> client == Calling(Gathered(list, calls), TokenAt(list, calls))
  {
    var values, token, k := [], "", 0;
    if EndsWithin(list, calls) {
      JoinedEmpty(Collect(list, 0, "", calls));
    }
    while k < calls
      invariant k <= calls && values == Gathered(list, k) && token == TokenAt(list, k)
      invariant EndsWithin(list, calls) <==> Ends(list, k, token, calls - k)
      invariant EndsWithin(list, calls) ==>
                  Collect(list, 0, "", calls) == Joined(values, Collect(list, k, token, calls - k))
    {
      var reply := list(k, token);
      if !reply.Page? {
        return Returned(None);
      }
      ghost var before := values;
      values := values + reply.values;
      if reply.next == "" {
        return Returned(Some(values));
      }
      assert EndsWithin(list, calls) ==>
               Joined(before, Collect(list, k, token, calls - k))
               == Joined(values, Collect(list, k + 1, reply.next, calls - k - 1)) by {
        if EndsWithin(list, calls) {
          JoinedStep(before, reply.values, Collect(list, k + 1, reply.next, calls - k - 1));
        }
      }
      token, k := reply.next, k + 1;
    }
    return Calling(values, token);
  }

  function Joined<T>(values: seq<T>, rest: Option<seq<T>>): Option<seq<T>> {
    if rest.None? then None else Some(values + rest.value)
  }

  lemma JoinedEmpty<T>(rest: Option<seq<T>>)
    ensures Joined([], rest) == rest
  {
    if rest.Some? {
      assert [] + rest.value == rest.value;
    }
  }

  lemma JoinedStep<T>(a: seq<T>, b: seq<T>, rest: Option<seq<T>>)
    ensures Joined(a, Joined(b, rest)) == Joined(a + b, rest)
  {
    if rest.Some? {
      assert a + (b + rest.value) == a + b + rest.value;
    }
  }

  // ---------------------------------------------------------------- when the client ends at all

  lemma {:induction false} EndingStops<T>(list: Service<T>, k: nat, n: nat) returns (j: nat)
    requires Ends(list, k, TokenAt(list, k), n)
    ensures k <= j < k + n && Stops(list, j)
    decreases n
  {
    if Stops(list, k) {
      j := k;
    } else {
      j := EndingStops(list, k + 1, n - 1);
    }
  }

  lemma {:induction false} StoppingEnds<T>(list: Service<T>, k: nat, j: nat)
    requires k <= j && Stops(list, j)
    ensures Ends(list, k, TokenAt(list, k), j - k + 1)
    decreases j - k
  {
    if k == j || Stops(list, k) {
      assert Ends(list, k, TokenAt(list, k), j - k + 1);
    } else {
      StoppingEnds(list, k + 1, j);
    }
  }

  /**
  The client returns, and so can be said to return anything, exactly if some call along its tokens
  fails or returns the empty token; otherwise it calls for ever.
  */
  lemma ClientEndsExactly<T>(list: Service<T>)
    ensures (exists n: nat :: EndsWithin(list, n)) <==> exists k: nat :: Stops(list, k)
  {
    if n: nat :| EndsWithin(list, n) {
      var k := EndingStops(list, 0, n);
    }
    if k: nat :| Stops(list, k) {
      StoppingEnds(list, 0, k);
      assert EndsWithin(list, k + 1);
    }
  }

  // ---------------------------------------------------------------- slice services

  /**
  A List endpoint on PaginateSlice. `served(k)` is the slice as sorted in call `k`, `sizes(k)`
  the page size requested in it.
  */
  function SliceService<T>(served: nat -> seq<T>, sizes: nat -> Int32, opts: PaginationOpts): Service<T> {
    (k: nat, token: string) => SlicePage(served(k), Request(token, sizes(k)), opts)
  }

  ghost predicate Positive(sizes: nat -> Int32, opts: PaginationOpts) {
    forall k :: EffectiveSize(sizes(k), opts) > 0
  }

  /** Every call serves a sorted arrangement of the same values, however they were ordered before. */
  ghost predicate Serves<T(!new)>(served: nat -> seq<T>, values: seq<T>, less: (T, T) -> bool) {
    forall k :: Arrangement(served(k), values, less)
  }

  /**
  `pages` cut `values[start..]` into consecutive parts: each holds exactly the requested number of
  values, and only the last one, which ends the list, may hold fewer.
  */
  ghost predicate Partition<T>(pages: seq<seq<T>>, values: seq<T>, start: nat, sizes: nat -> Int32,
                               opts: PaginationOpts, k: nat)
    decreases |pages|
  {
    && pages != [] && start <= |values|
    && var size := EffectiveSize(sizes(k), opts);
    && size > 0
    && pages[0] == Slice(values, start, size)
    && if |pages| == 1 then start + size >= |values|
       else start + size < |values| && Partition(pages[1..], values, start + size, sizes, opts, k + 1)
  }

  /** One more page in front of a listing that ends. */
  lemma OnePage<T>(list: Service<T>, k: nat, token: string, n: nat, reply: Reply<T>)
    requires list(k, token) == reply && reply.Page? && n > 0
    requires reply.next != "" ==> Ends(list, k + 1, reply.next, n - 1)
    ensures Ends(list, k, token, n)
    ensures reply.next == "" ==>
      Pages(list, k, token, n) == [reply.values] && Collect(list, k, token, n) == Some(reply.values)
    ensures reply.next != "" ==>
      var rest := Collect(list, k + 1, reply.next, n - 1);
      && Pages(list, k, token, n) == [reply.values] + Pages(list, k + 1, reply.next, n - 1)
      && Collect(list, k, token, n) == if rest.None? then None else Some(reply.values + rest.value)
  {
  }

  ghost predicate Partitions<T>(list: Service<T>, token: string, n: nat, values: seq<T>, start: nat,
                                sizes: nat -> Int32, opts: PaginationOpts, k: nat)
  {
    Ends(list, k, token, n) && Partition(Pages(list, k, token, n), values, start, sizes, opts, k)
  }

  lemma {:induction false} FollowSlice<T>(values: seq<T>, served: nat -> seq<T>, sizes: nat -> Int32,
                                          opts: PaginationOpts, k: nat, token: string, start: nat)
    requires forall i :: served(i) == values
    requires |values| <= MAX_LENGTH && Positive(sizes, opts)
    requires Continues(token, start, |values|)
    ensures start <= |values|
    ensures Delivers(SliceService(served, sizes, opts), k, token, |values| - start + 1, values[start..])
    ensures Partitions(SliceService(served, sizes, opts), token, |values| - start + 1, values, start, sizes, opts, k)
    decreases |values| - start
  {
    hide SlicePage, DecodeToken, EffectiveSize, Ends, Collect, Pages;
    var list, size := SliceService(served, sizes, opts), EffectiveSize(sizes(k), opts);
    SlicePageStep(values, token, start, sizes(k), opts);
    var reply := list(k, token);
    assert served(k) == values;
    assert reply == SlicePage(values, Request(token, sizes(k)), opts);
    if reply.next == "" {
    } else {
      FollowSlice(values, served, sizes, opts, k + 1, reply.next, start + size);
      EndsLonger(list, k + 1, reply.next, |values| - start - size + 1, |values| - start);
      assert values[start..] == values[start..start + size] + values[start + size..];
    }
    OnePage(list, k, token, |values| - start + 1, reply);
  }

  /** The bound on the calls does not matter once it is large enough. */
  lemma {:induction false} EndsLonger<T>(list: Service<T>, k: nat, token: string, n: nat, m: nat)
    requires Ends(list, k, token, n) && n <= m
    ensures Ends(list, k, token, m)
    ensures Collect(list, k, token, m) == Collect(list, k, token, n)
    ensures Pages(list, k, token, m) == Pages(list, k, token, n)
    decreases n
  {
    var reply := list(k, token);
    if !reply.Page? || reply.next == "" {
    } else {
      EndsLonger(list, k + 1, reply.next, n - 1, m - 1);
    }
  }

  lemma SameElements<T>(s: seq<T>, t: seq<T>)
    requires multiset(s) == multiset(t)
    ensures forall x :: x in s <==> x in t
  {
    assert forall x :: x in s <==> x in multiset(s);
    assert forall x :: x in t <==> x in multiset(t);
  }

  lemma ServesOne<T(!new)>(served: nat -> seq<T>, values: seq<T>, less: (T, T) -> bool)
    requires StrictWeakOrder(less) && Distinguishes(less, values) && Serves(served, values, less)
    ensures forall k :: served(k) == served(0)
    ensures |served(0)| == |values|
  {
    forall k
      ensures served(k) == served(0)
    {
      assert Arrangement(served(k), values, less) && Arrangement(served(0), values, less);
      SameElements(served(k), values);
      ArrangementUnique(served(k), served(0), less);
    }
    assert |multiset(served(0))| == |multiset(values)|;
  }

  /**
  Following the tokens of PaginateSlice with any positive page sizes, while the values may be
  reordered before every call, ends, and gives exactly the unique sorted arrangement, cut into
  consecutive pages.
  */
  lemma SliceListingIsComplete<T(!new)>(served: nat -> seq<T>, values: seq<T>, less: (T, T) -> bool,
                                        sizes: nat -> Int32, opts: PaginationOpts, sorted: seq<T>)
    requires StrictWeakOrder(less) && Distinguishes(less, values) && Serves(served, values, less)
    requires |values| <= MAX_LENGTH && Positive(sizes, opts)
    requires Arrangement(sorted, values, less)
    ensures Delivers(SliceService(served, sizes, opts), 0, "", |values| + 1, sorted)
    ensures Partitions(SliceService(served, sizes, opts), "", |values| + 1, sorted, 0, sizes, opts, 0)
  {
    hide SlicePage, DecodeToken;
    ServesOne(served, values, less);
    assert Arrangement(served(0), values, less);
    SameElements(served(0), values);
    ArrangementUnique(served(0), sorted, less);
    FollowSlice(sorted, served, sizes, opts, 0, "", 0);
    assert sorted[0..] == sorted;
  }

  // ---------------------------------------------------------------- failures

  /** The same service, except that the calls in `fails` report an error. */
  function WithFailures<T>(list: Service<T>, fails: nat -> bool): Service<T> {
    (k: nat, token: string) => if fails(k) then Failed else list(k, token)
  }

  /** If any call that the listing needs fails, the client gets no list; otherwise nothing changes. */
  lemma {:induction false} FailureLosesWholeList<T>(list: Service<T>, fails: nat -> bool, k: nat, token: string, n: nat)
    requires Ends(list, k, token, n) && Collect(list, k, token, n).Some?
    ensures Ends(WithFailures(list, fails), k, token, n)
    ensures Collect(WithFailures(list, fails), k, token, n)
         == if exists i :: k <= i < k + |Pages(list, k, token, n)| && fails(i) then None
            else Collect(list, k, token, n)
    decreases n
  {
    var reply := list(k, token);
    var calls := |Pages(list, k, token, n)|;
    if fails(k) || reply.next == "" {
    } else {
      FailureLosesWholeList(list, fails, k + 1, reply.next, n - 1);
      assert calls == 1 + |Pages(list, k + 1, reply.next, n - 1)|;
    }
  }

  // ---------------------------------------------------------------- when the size is not positive

  function Always<T>(x: T): nat -> T {
    k => x
  }

  /**
  With one page size and an unchanging list, the listing is complete exactly when the effective
  size is positive, or the list is empty and the size is not negative. A zero size makes the first
  token the empty text, so the client stops with nothing; a negative one panics.
  */
  lemma CompleteExactly<T>(values: seq<T>, pageSize: Int32, opts: PaginationOpts)
    requires |values| <= MAX_LENGTH
    ensures var list, n := SliceService(Always(values), Always(pageSize), opts), |values| + 1;
            var size := EffectiveSize(pageSize, opts);
            && (Delivers(list, 0, "", n, values) <==> size > 0 || (size == 0 && values == []))
            && (size == 0 ==> Delivers(list, 0, "", n, []))
            && (size < 0 ==> list(0, "") == Panicked)
  {
    hide SlicePage, DecodeToken;
    var list, size := SliceService(Always(values), Always(pageSize), opts), EffectiveSize(pageSize, opts);
    if size > 0 {
      FollowSlice(values, Always(values), Always(pageSize), opts, 0, "", 0);
      assert values[0..] == values;
    } else {
      FirstPage(values, pageSize, opts);
      assert list(0, "") == SlicePage(values, Request("", pageSize), opts);
    }
  }

  lemma FirstPage<T>(values: seq<T>, pageSize: Int32, opts: PaginationOpts)
    requires |values| <= MAX_LENGTH && EffectiveSize(pageSize, opts) <= 0
    ensures var reply := SlicePage(values, Request("", pageSize), opts);
            if EffectiveSize(pageSize, opts) == 0 then reply == Page([], "") else reply == Panicked
  {
    hide EncodeToken, DecodeToken;
    var size := EffectiveSize(pageSize, opts);
    TokenRoundTrip(0, 0);
    BoundsExactly(values, 0, size);
    if size == 0 {
      PaginateFrom(Request("", pageSize), opts, SliceClosure(values), PageToken(0, 0, []), [], values == [], 0);
    } else {
      PanicsExactly(values, Request("", pageSize), opts);
    }
  }

  // ---------------------------------------------------------------- when values tie

  /** The value at place `k` as call `k` serves it, and so on to the end. */
  function Diagonal<T>(served: nat -> seq<T>, k: nat, n: nat): seq<T>
    requires k <= n && forall i :: |served(i)| == n
    decreases n - k
  {
    if k == n then [] else [served(k)[k]] + Diagonal(served, k + 1, n)
  }

  /** Asking for single values, the client gets each from the arrangement of another call. */
  lemma {:induction false} FollowSingles<T>(served: nat -> seq<T>, opts: PaginationOpts, k: nat, token: string, n: nat)
    requires k < n <= MAX_LENGTH && Continues(token, k, n) && opts.maxPageSize > 0
    requires forall i :: |served(i)| == n
    ensures Delivers(SliceService(served, Always(1), opts), k, token, n - k, Diagonal(served, k, n))
    decreases n - k
  {
    hide SlicePage, DecodeToken, Ends, Collect, Pages;
    var list := SliceService(served, Always(1), opts);
    assert |served(k)| == n;
    SlicePageStep(served(k), token, k, 1, opts);
    var reply := list(k, token);
    assert reply.values == [served(k)[k]];
    if k + 1 < n {
      FollowSingles(served, opts, k + 1, reply.next, n);
    } else {
      assert [served(k)[k]] + Diagonal(served, n, n) == [served(k)[k]];
    }
    OnePage(list, k, token, n - k, reply);
  }

  lemma {:induction false} DiagonalOf<T>(served: nat -> seq<T>, k: nat, n: nat, target: seq<T>)
    requires k <= n == |target| && forall i :: |served(i)| == n
    requires forall i :: k <= i < n ==> served(i)[i] == target[i]
    ensures Diagonal(served, k, n) == target[k..]
    decreases n - k
  {
    if k == n {
    } else {
      DiagonalOf(served, k + 1, n, target);
      assert target[k..] == [target[k]] + target[k + 1..];
    }
  }

  /** The first `i + 1` calls serve `s`, the later ones exchange the elements at `i` and `j`. */
  function ExchangedAfter<T>(s: seq<T>, i: nat, j: nat): nat -> seq<T>
    requires i < j < |s|
  {
    k => if k <= i then s else Exchange(s, i, j)
  }

  /**
  Two tied values in any sorted list: exchanging them between two calls serves the first one twice
  and the second one never.
  */
  lemma TieLosesValue<T(!new)>(s: seq<T>, less: (T, T) -> bool, opts: PaginationOpts, i: nat, j: nat)
    requires StrictWeakOrder(less) && Sorted(s, less) && |s| <= MAX_LENGTH && opts.maxPageSize > 0
    requires i < j < |s| && !less(s[i], s[j])
    ensures Serves(ExchangedAfter(s, i, j), s, less)
    ensures Delivers(SliceService(ExchangedAfter(s, i, j), Always(1), opts), 0, "", |s| + 1, s[j := s[i]])
  {
    hide SlicePage, DecodeToken, Ends, Collect, Pages;
    var served, list := ExchangedAfter(s, i, j), SliceService(ExchangedAfter(s, i, j), Always(1), opts);
    ExchangeTied(s, less, i, j);
    DiagonalOf(served, 0, |s|, s[j := s[i]]);
    FollowSingles(served, opts, 0, "", |s|);
    EndsLonger(list, 0, "", |s|, |s| + 1);
  }

  /** The client gets every value exactly as often as it is in the list. */
  ghost predicate ListsAll<T(!new)>(list: Service<T>, values: seq<T>) {
    && Ends(list, 0, "", |values| + 1)
    && var result := Collect(list, 0, "", |values| + 1);
    && result.Some? && multiset(result.value) == multiset(values)
  }

  /** However the values are reordered before each call, and whatever positive sizes are asked for. */
  ghost predicate AlwaysListsAll<T(!new)>(values: seq<T>, less: (T, T) -> bool, opts: PaginationOpts) {
    forall served: nat -> seq<T>, sizes: nat -> Int32 ::
      Serves(served, values, less) && Positive(sizes, opts) ==> ListsAll(SliceService(served, sizes, opts), values)
  }

  lemma LostValue<T>(s: seq<T>, i: nat, j: nat)
    requires i < j < |s| && s[i] != s[j]
    ensures multiset(s[j := s[i]])[s[j]] < multiset(s)[s[j]]
  {
  }

  /** Listing is complete under every reordering exactly when no two distinct values tie. */
  lemma CompleteWithoutTiesExactly<T(!new)>(values: seq<T>, less: (T, T) -> bool, opts: PaginationOpts, sorted: seq<T>)
    requires StrictWeakOrder(less) && Arrangement(sorted, values, less)
    requires |values| <= MAX_LENGTH && opts.maxPageSize > 0
    ensures AlwaysListsAll(values, less, opts) <==> Distinguishes(less, values)
  {
    hide Ends, Collect;
    if Distinguishes(less, values) {
      forall served: nat -> seq<T>, sizes: nat -> Int32 | Serves(served, values, less) && Positive(sizes, opts)
        ensures ListsAll(SliceService(served, sizes, opts), values)
      {
        SliceListingIsComplete(served, values, less, sizes, opts, sorted);
      }
    } else {
      TiesAreLost(values, less, opts, sorted);
    }
  }

  lemma TiedPlaces<T(!new)>(values: seq<T>, less: (T, T) -> bool, sorted: seq<T>) returns (i: nat, j: nat)
    requires multiset(sorted) == multiset(values) && !Distinguishes(less, values)
    ensures i < j < |sorted| && sorted[i] != sorted[j] && !less(sorted[i], sorted[j])
  {
    var a, b :| a in values && b in values && a != b && !less(a, b) && !less(b, a);
    SameElements(sorted, values);
    var x :| 0 <= x < |sorted| && sorted[x] == a;
    var y :| 0 <= y < |sorted| && sorted[y] == b;
    i, j := if x < y then x else y, if x < y then y else x;
  }

  lemma TiesAreLost<T(!new)>(values: seq<T>, less: (T, T) -> bool, opts: PaginationOpts, sorted: seq<T>)
    requires StrictWeakOrder(less) && Arrangement(sorted, values, less)
    requires |values| <= MAX_LENGTH && opts.maxPageSize > 0 && !Distinguishes(less, values)
    ensures !AlwaysListsAll(values, less, opts)
  {
    hide Ends, Collect, StrictWeakOrder, Distinguishes, SliceService, Sorted, ExchangedAfter;
    var i, j := TiedPlaces(values, less, sorted);
    assert |multiset(sorted)| == |multiset(values)|;
    TieLosesValue(sorted, less, opts, i, j);
    LostValue(sorted, i, j);
    var served := ExchangedAfter(sorted, i, j);
    assert Serves(served, values, less) by {
      assert forall k :: Arrangement(served(k), sorted, less);
    }
    assert Positive(Always(1), opts);
    assert !ListsAll(SliceService(served, Always(1), opts), values);
  }

  function AllTie(): (int, int) -> bool {
    (a, b) => false
  }

  /** The smallest case: two values that tie, listed one at a time. */
  lemma TiesCanLoseValues()
    ensures var list := SliceService(ExchangedAfter([0, 1], 0, 1), Always(1), PaginationOpts(50, 1500));
            && StrictWeakOrder(AllTie()) && Serves(ExchangedAfter([0, 1], 0, 1), [0, 1], AllTie())
            && Delivers(list, 0, "", 3, [0, 0])
  {
    hide SlicePage, DecodeToken, Ends, Collect, Pages;
    TieLosesValue([0, 1], AllTie(), PaginationOpts(50, 1500), 0, 1);
    assert [0, 1][1 := 0] == [0, 0];
  }

  // ---------------------------------------------------------------- storage services

  function StorageService<T>(records: seq<T>, pageSize: Int32, opts: PaginationOpts): Service<T> {
    (k: nat, token: string) => StoragePage(records, true, Request(token, pageSize), opts)
  }

  /** max(1, ceil(n / s)) */
  function SliceCalls(n: int, s: int): nat {
    if n <= 0 || s <= 0 then 1 else (n + s - 1) / s
  }

  /** floor(n / s) + 1 */
  function StorageCalls(n: int, s: int): nat {
    if n <= 0 || s <= 0 then 1 else n / s + 1
  }

  lemma Quotient(m: int, s: int, q: int, r: int)
    requires s > 0 && m == q * s + r && 0 <= r < s
    ensures m / s == q && m % s == r
  {
    var d := m / s - q;
    assert d * s == r - m % s;
    assert d >= 1 ==> d * s >= s;
    assert d <= -1 ==> d * s <= -s;
  }

  lemma DivStep(m: nat, s: nat)
    requires 0 < s <= m
    ensures m / s == 1 + (m - s) / s
  {
    var q, r := (m - s) / s, (m - s) % s;
    Quotient(m, s, q + 1, r);
  }

  lemma {:induction false} FollowStorage<T>(records: seq<T>, pageSize: Int32, opts: PaginationOpts, k: nat,
                                            token: string, start: nat)
    requires |records| < MAX_LENGTH && EffectiveSize(pageSize, opts) > 0
    requires ContinuesStorage(token, start, |records|)
    ensures start <= |records|
    ensures Delivers(StorageService(records, pageSize, opts), k, token, |records| - start + 1, records[start..])
    ensures Takes(StorageService(records, pageSize, opts), k, token, |records| - start + 1,
                  StorageCalls(|records| - start, EffectiveSize(pageSize, opts)))
    decreases |records| - start
  {
    hide StoragePage, DecodeToken, EffectiveSize, Ends, Collect, Pages;
    var list, size := StorageService(records, pageSize, opts), EffectiveSize(pageSize, opts);
    StoragePageStep(records, token, start, pageSize, opts);
    var reply := list(k, token);
    assert reply == StoragePage(records, true, Request(token, pageSize), opts);
    if reply.next != "" {
      FollowStorage(records, pageSize, opts, k + 1, reply.next, start + size);
      EndsLonger(list, k + 1, reply.next, |records| - start - size + 1, |records| - start);
      assert records[start..] == Slice(records, start, size) + records[start + size..];
      DivStep(|records| - start, size);
    } else {
      Quotient(|records| - start, size, 0, |records| - start);
    }
    OnePage(list, k, token, |records| - start + 1, reply);
  }

  lemma {:induction false} CountPages<T>(pages: seq<seq<T>>, values: seq<T>, start: nat, pageSize: Int32,
                                         opts: PaginationOpts, k: nat)
    requires Partition(pages, values, start, Always(pageSize), opts, k)
    requires EffectiveSize(pageSize, opts) > 0
    ensures var left, size := |values| - start, EffectiveSize(pageSize, opts);
            |pages| == SliceCalls(left, size)
    decreases |pages|
  {
    hide SliceCalls, EffectiveSize;
    var left, size := |values| - start, EffectiveSize(pageSize, opts);
    SliceCallsStep(left, size);
    if |pages| > 1 {
      CountPages(pages[1..], values, start + size, pageSize, opts, k + 1);
    }
  }

  lemma SliceCallsStep(n: nat, s: nat)
    requires s > 0
    ensures SliceCalls(n, s) == if n <= s then 1 else 1 + SliceCalls(n - s, s)
  {
    if 0 < n <= s {
      Quotient(n + s - 1, s, 1, n - 1);
    } else if n > s {
      DivStep(n + s - 1, s);
    }
  }

  /** A slice of n values is listed in max(1, ceil(n / s)) calls. */
  lemma SliceListing<T>(values: seq<T>, pageSize: Int32, opts: PaginationOpts)
    requires |values| < MAX_LENGTH && EffectiveSize(pageSize, opts) > 0
    ensures var n, size := |values|, EffectiveSize(pageSize, opts);
            var list := SliceService(Always(values), Always(pageSize), opts);
            && Delivers(list, 0, "", n + 1, values)
            && Takes(list, 0, "", n + 1, SliceCalls(n, size))
  {
    hide SlicePage, DecodeToken;
    var list := SliceService(Always(values), Always(pageSize), opts);
    FollowSlice(values, Always(values), Always(pageSize), opts, 0, "", 0);
    CountPages(Pages(list, 0, "", |values| + 1), values, 0, pageSize, opts, 0);
    assert values[0..] == values;
  }

  /**
  Storage and slice listings of the same ordered values agree. Storage takes floor(n / s) + 1
  calls: one more than the slice exactly when s divides n > 0.
  */
  lemma StorageAgreesWithSlice<T>(values: seq<T>, pageSize: Int32, opts: PaginationOpts, calls: nat)
    requires |values| < MAX_LENGTH && EffectiveSize(pageSize, opts) > 0
    requires Takes(SliceService(Always(values), Always(pageSize), opts), 0, "", |values| + 1, calls)
    ensures Delivers(SliceService(Always(values), Always(pageSize), opts), 0, "", |values| + 1, values)
    ensures Delivers(StorageService(values, pageSize, opts), 0, "", |values| + 1, values)
    ensures Takes(StorageService(values, pageSize, opts), 0, "", |values| + 1,
                  if values != [] && |values| % EffectiveSize(pageSize, opts) == 0 then calls + 1 else calls)
  {
    hide SlicePage, StoragePage, DecodeToken, EffectiveSize, Ends, Collect, Pages;
    SliceListing(values, pageSize, opts);
    FollowStorage(values, pageSize, opts, 0, "", 0);
    assert values[0..] == values;
    CeilingAndFloor(|values|, EffectiveSize(pageSize, opts));
  }

  lemma CeilingAndFloor(n: nat, s: nat)
    requires s > 0
    ensures StorageCalls(n, s) == if n > 0 && n % s == 0 then SliceCalls(n, s) + 1 else SliceCalls(n, s)
  {
    var q, r := n / s, n % s;
    if r == 0 {
      Quotient(n + s - 1, s, q, s - 1);
    } else {
      Quotient(n + s - 1, s, q + 1, r - 1);
    }
  }

  // ---------------------------------------------------------------- what the client holds meanwhile

  /** When the listing is complete, it is what was gathered from its pages, one after the other. */
  lemma {:induction false} GatheredIsCollected<T>(list: Service<T>, k: nat, n: nat)
    requires Ends(list, k, TokenAt(list, k), n) && Collect(list, k, TokenAt(list, k), n).Some?
    ensures Gathered(list, k) + Collect(list, k, TokenAt(list, k), n).value
         == Gathered(list, k + |Pages(list, k, TokenAt(list, k), n)|)
    decreases n
  {
    var reply := list(k, TokenAt(list, k));
    assert Gathered(list, k + 1) == Gathered(list, k) + reply.values;
    if reply.next == "" {
    } else {
      GatheredIsCollected(list, k + 1, n - 1);
      var rest := Collect(list, k + 1, reply.next, n - 1).value;
      assert Gathered(list, k) + (reply.values + rest) == Gathered(list, k) + reply.values + rest;
    }
  }

  /** What the client has after `k` calls is the first values of the list, `k` pages of them. */
  lemma {:induction false} GatheredFromSlice<T>(values: seq<T>, pageSize: Int32, opts: PaginationOpts, k: nat)
    requires |values| <= MAX_LENGTH && EffectiveSize(pageSize, opts) > 0 && k * EffectiveSize(pageSize, opts) < |values|
    ensures var list, size := SliceService(Always(values), Always(pageSize), opts), EffectiveSize(pageSize, opts);
            && Gathered(list, k) == values[..k * size] && Continues(TokenAt(list, k), k * size, |values|)
  {
    hide SlicePage, DecodeToken, EffectiveSize;
    var list, size := SliceService(Always(values), Always(pageSize), opts), EffectiveSize(pageSize, opts);
    if k == 0 {
    } else {
      assert (k - 1) * size + size == k * size;
      GatheredFromSlice(values, pageSize, opts, k - 1);
      SlicePageStep(values, TokenAt(list, k - 1), (k - 1) * size, pageSize, opts);
      var reply := list(k - 1, TokenAt(list, k - 1));
      assert reply == SlicePage(values, Request(TokenAt(list, k - 1), pageSize), opts);
      assert values[..k * size] == values[..(k - 1) * size] + values[(k - 1) * size..k * size];
    }
  }

  // ---------------------------------------------------------------- storage that is not available

  /** The storage answers only in the calls in `available`. */
  function FailingStorage<T>(records: seq<T>, available: nat -> bool, pageSize: Int32, opts: PaginationOpts)
    : Service<T>
  {
    (k: nat, token: string) => StoragePage(records, available(k), Request(token, pageSize), opts)
  }

  /** If the database fails in any call that the listing needs, the client gets no list. */
  lemma StorageErrorLosesList<T>(records: seq<T>, available: nat -> bool, pageSize: Int32, opts: PaginationOpts,
                                 n: nat)
    requires Ends(StorageService(records, pageSize, opts), 0, "", n)
    requires Collect(StorageService(records, pageSize, opts), 0, "", n).Some?
    ensures var list, plain := FailingStorage(records, available, pageSize, opts),
                               StorageService(records, pageSize, opts);
            && Ends(list, 0, "", n)
            && Collect(list, 0, "", n)
               == if exists i :: 0 <= i < |Pages(plain, 0, "", n)| && !available(i) then None
                  else Collect(plain, 0, "", n)
  {
    StorageErrorFrom(records, available, pageSize, opts, 0, "", n);
  }

  lemma {:induction false} StorageErrorFrom<T>(records: seq<T>, available: nat -> bool, pageSize: Int32,
                                               opts: PaginationOpts, k: nat, token: string, n: nat)
    requires Ends(StorageService(records, pageSize, opts), k, token, n)
    requires Collect(StorageService(records, pageSize, opts), k, token, n).Some?
    ensures var list, plain := FailingStorage(records, available, pageSize, opts),
                               StorageService(records, pageSize, opts);
            && Ends(list, k, token, n)
            && Collect(list, k, token, n)
               == if exists i :: k <= i < k + |Pages(plain, k, token, n)| && !available(i) then None
                  else Collect(plain, k, token, n)
    decreases n
  {
    hide StoragePage;
    var plain := StorageService(records, pageSize, opts);
    var reply := plain(k, token);
    FailsWhenUnavailable(records, Request(token, pageSize), opts);
    if available(k) && reply.next != "" {
      StorageErrorFrom(records, available, pageSize, opts, k + 1, reply.next, n - 1);
      assert |Pages(plain, k, token, n)| == 1 + |Pages(plain, k + 1, reply.next, n - 1)|;
    }
  }

  lemma FailsWhenUnavailable<T>(records: seq<T>, req: Request, opts: PaginationOpts)
    ensures StoragePage(records, false, req, opts) == Failed
  {
    FailsExactly(records, false, req, opts);
  }
}
