/** The serving side: `paginate`, `PaginateSlice` and `PaginateStorage` of service/paginate.go. */
module Pagination {
  import opened Wrappers
  import opened PageTokens
  import opened Sorting

  datatype PaginationOpts = PaginationOpts(defaultPageSize: Int32, maxPageSize: Int32)

  datatype Request = Request(pageToken: string, pageSize: Int32)

  /** What a pager closure gives back; slicing outside the bounds panics in Go. */
  datatype Pager<+T> = Got(page: seq<T>, done: bool) | Refused | OutOfBounds

  datatype Reply<+T> = Page(values: seq<T>, next: string) | Failed | Panicked

  function EffectiveSize(pageSize: Int32, opts: PaginationOpts): Int32 {
    if pageSize == 0 then opts.defaultPageSize
    else if pageSize > opts.maxPageSize then opts.maxPageSize
    else pageSize
  }

  /** A first request starts a new token; later ones must present a token that decodes. */
  function TokenOf(req: Request, size: Int32): Option<PageToken> {
    if req.pageToken == "" then Some(PageToken(0, size, [])) else DecodeToken(req.pageToken)
  }

  function Paginate<T>(req: Request, opts: PaginationOpts, pager: (Int64, Int32) -> Pager<T>): Reply<T> {
    var size := EffectiveSize(req.pageSize, opts);
    match TokenOf(req, size)
    case None => Failed
    case Some(token) =>
      match pager(token.start, size)
      case Refused => Failed
      case OutOfBounds => Panicked
      case Got(page, done) =>
        if done then Page(page, "")
        else Page(page, EncodeToken(token.(start := ToInt64(token.start + |page|))))
  }

  function SlicePager<T>(values: seq<T>, start: Int64, size: Int32): Pager<T> {
    var end := ToInt64(start + size);
    if end >= |values| then
      if 0 <= start <= |values| then Got(values[start..], true) else OutOfBounds
    else
      if 0 <= start <= end then Got(values[start..end], false) else OutOfBounds
  }

  /** One page of a slice that has already been sorted. */
  function SlicePage<T>(values: seq<T>, req: Request, opts: PaginationOpts): Reply<T> {
    Paginate(req, opts, SliceClosure(values))
  }

  function SliceClosure<T>(values: seq<T>): (Int64, Int32) -> Pager<T> {
    (start: Int64, size: Int32) => SlicePager(values, start, size)
  }

  /** Sorts the caller's slice in place and serves the requested page of it. */
  method PaginateSlice<T(!new)>(req: Request, values: array<T>, less: (T, T) -> bool, opts: PaginationOpts)
    returns (reply: Reply<T>)
    requires StrictWeakOrder(less)
    modifies values
    ensures Arrangement(values[..], old(values[..]), less)
    ensures reply == SlicePage(values[..], req, opts)
  {
    SortSlice(values, less);
    reply := SlicePage(values[..], req, opts);
  }

  /** The contract of `Storage.List`: the ordered records after an offset, up to a limit (-1: all). */
  function ListRecords<T>(records: seq<T>, offset: Int64, limit: Int32): seq<T> {
    var from := if offset < 0 then 0 else if offset > |records| then |records| else offset;
    var rest := records[from..];
    if limit < 0 || limit > |rest| then rest else rest[..limit]
  }

  function StoragePager<T>(records: seq<T>, start: Int64, size: Int32): Pager<T> {
    var page := ListRecords(records, start, size);
    Got(page, page == [] || |page| < size)
  }

  /** `PaginateStorage`; `available` is false when the database reports an error. */
  function StoragePage<T>(records: seq<T>, available: bool, req: Request, opts: PaginationOpts): Reply<T> {
    Paginate(req, opts, StorageClosure(records, available))
  }

  function StorageClosure<T>(records: seq<T>, available: bool): (Int64, Int32) -> Pager<T> {
    (start: Int64, size: Int32) => if available then StoragePager(records, start, size) else Refused
  }

  /** Longer slices would overflow `start + size`; none fits into an address space. */
  const MAX_LENGTH: int := 0x8000_0000_0000_0000 - 0x8000_0000

  /** Slicing panics exactly when the token points outside the slice or the page size is negative. */
  lemma PanicsExactly<T>(values: seq<T>, req: Request, opts: PaginationOpts)
    requires |values| <= MAX_LENGTH
    ensures var size := EffectiveSize(req.pageSize, opts);
            var token := TokenOf(req, size);
            && (SlicePage(values, req, opts).Failed? <==> token.None?)
            && (SlicePage(values, req, opts).Panicked? <==>
                token.Some? && !(0 <= token.value.start <= |values| && size >= 0))
  {
    var size := EffectiveSize(req.pageSize, opts);
    var token := TokenOf(req, size);
    if token.Some? {
      BoundsExactly(values, token.value.start, size);
    }
  }

  lemma BoundsExactly<T>(values: seq<T>, start: Int64, size: Int32)
    requires |values| <= MAX_LENGTH
    ensures SlicePager(values, start, size).OutOfBounds? <==> !(0 <= start <= |values| && size >= 0)
    ensures 0 <= start <= |values| && size >= 0 ==>
      SlicePager(values, start, size) == Got(Slice(values, start, size), start + size >= |values|)
  {
  }

  /** The values from `start` on, at most `size` of them. */
  function Slice<T>(values: seq<T>, start: nat, size: nat): seq<T>
    requires start <= |values|
  {
    if start + size >= |values| then values[start..] else values[start..start + size]
  }

  /** `token` is one the server issues for continuing at `start`, or the empty first token. */
  predicate Continues(token: string, start: nat, length: nat) {
    if token == "" then start == 0
    else 0 < start < length && exists size: Int32 :: IssuedToken(token, start, size)
  }

  predicate IssuedToken(token: string, start: nat, size: Int32) {
    start < 0x8000_0000_0000_0000 && DecodeToken(token) == Some(PageToken(start, size, []))
  }

  lemma ContinuingToken(req: Request, start: nat, length: nat, size: Int32) returns (issued: Int32)
    requires Continues(req.pageToken, start, length) && length <= MAX_LENGTH
    ensures start <= length && TokenOf(req, size) == Some(PageToken(start, issued, []))
  {
    if req.pageToken == "" {
      issued := size;
    } else {
      issued :| IssuedToken(req.pageToken, start, issued);
    }
  }

  lemma NoOverflow(x: nat)
    requires x <= MAX_LENGTH
    ensures ToInt64(x) == x
  {
  }

  /** A continuing request is served from its start, and its next token is the one behind the page. */
  lemma PaginateFrom<T>(req: Request, opts: PaginationOpts, pager: (Int64, Int32) -> Pager<T>, token: PageToken,
                        page: seq<T>, done: bool, next: Int64)
    requires TokenOf(req, EffectiveSize(req.pageSize, opts)) == Some(token)
    requires pager(token.start, EffectiveSize(req.pageSize, opts)) == Got(page, done)
    requires ToInt64(token.start + |page|) == next
    ensures Paginate(req, opts, pager) == Page(page, if done then "" else EncodeToken(token.(start := next)))
  {
    hide EncodeToken, DecodeToken;
  }

  /** A token that moved forward past at least one value is never the empty text. */
  lemma IssueToken(start: nat, size: Int32, length: nat)
    requires 0 < start < length <= MAX_LENGTH
    ensures var next := EncodeToken(PageToken(start, size, []));
            next != "" && Continues(next, start, length)
  {
    TokenRoundTrip(start, size);
    assert IssuedToken(EncodeToken(PageToken(start, size, [])), start, size);
  }

  /**
  One slice page under a positive size: the values from where the token points, and a next token
  that is empty exactly when the slice is exhausted and otherwise points inside it.
  */
  lemma SlicePageStep<T>(values: seq<T>, token: string, start: nat, pageSize: Int32, opts: PaginationOpts)
    requires Continues(token, start, |values|) && |values| <= MAX_LENGTH
    requires EffectiveSize(pageSize, opts) > 0
    ensures var size := EffectiveSize(pageSize, opts);
            var reply := SlicePage(values, Request(token, pageSize), opts);
            && start <= |values|
            && reply.Page? && reply.values == Slice(values, start, size)
            && (reply.next == "" <==> start + size >= |values|)
            && (reply.next != "" ==> Continues(reply.next, start + size, |values|))
  {
    hide EncodeToken, DecodeToken;
    var size := EffectiveSize(pageSize, opts);
    var req := Request(token, pageSize);
    var issued := ContinuingToken(req, start, |values|, size);
    BoundsExactly(values, start, size);
    var page := Slice(values, start, size);
    NoOverflow(start + |page|);
    PaginateFrom(req, opts, SliceClosure(values), PageToken(start, issued, []), page, start + size >= |values|,
                 start + |page|);
    if start + size < |values| {
      IssueToken(start + size, issued, |values|);
    }
  }

  /** `token` continues a storage listing, which may also be asked beyond its last record. */
  predicate ContinuesStorage(token: string, start: nat, length: nat) {
    Continues(token, start, length + 1)
  }

  lemma StorageExactly<T>(records: seq<T>, start: Int64, size: Int32)
    requires 0 <= start <= |records| && size > 0
    ensures StoragePager(records, start, size) == Got(Slice(records, start, size), start + size > |records|)
  {
  }

  /** One storage page: the next token is empty exactly when the page came back short. */
  lemma StoragePageStep<T>(records: seq<T>, token: string, start: nat, pageSize: Int32, opts: PaginationOpts)
    requires ContinuesStorage(token, start, |records|) && |records| < MAX_LENGTH
    requires EffectiveSize(pageSize, opts) > 0
    ensures var size := EffectiveSize(pageSize, opts);
            var reply := StoragePage(records, true, Request(token, pageSize), opts);
            && start <= |records|
            && reply.Page? && reply.values == Slice(records, start, size)
            && (reply.next == "" <==> start + size > |records|)
            && (reply.next != "" ==> ContinuesStorage(reply.next, start + size, |records|))
  {
    hide EncodeToken, DecodeToken;
    var size := EffectiveSize(pageSize, opts);
    var req := Request(token, pageSize);
    var issued := ContinuingToken(req, start, |records| + 1, size);
    StorageExactly(records, start, size);
    var page := Slice(records, start, size);
    NoOverflow(start + |page|);
    PaginateFrom(req, opts, StorageClosure(records, true), PageToken(start, issued, []), page,
                 start + size > |records|, start + |page|);
    if start + size <= |records| {
      IssueToken(start + size, issued, |records| + 1);
    }
  }

  // ---------------------------------------------------------------- page sizes and tokens, in full

  /** The first request of a listing, in terms of the options: which values, and which token. */
  lemma FirstPageExactly<T>(values: seq<T>, pageSize: Int32, opts: PaginationOpts, size: int)
    requires |values| <= MAX_LENGTH
    requires size == if pageSize == 0 then opts.defaultPageSize
                     else if pageSize <= opts.maxPageSize then pageSize else opts.maxPageSize
    ensures var reply := SlicePage(values, Request("", pageSize), opts);
            && (size < 0 ==> reply == Panicked)
            && (size >= 0 ==>
                  && reply.Page?
                  && reply.values == values[..if size < |values| then size else |values|]
                  && (reply.next == "" <==> |values| <= size || size == 0)
                  && (reply.next != "" ==> DecodeToken(reply.next) == Some(PageToken(size, size, []))))
  {
    hide EncodeToken, DecodeToken;
    assert EffectiveSize(pageSize, opts) == size;
    BoundsExactly(values, 0, size);
    if size >= 0 {
      var page := Slice(values, 0, size);
      NoOverflow(|page|);
      PaginateFrom(Request("", pageSize), opts, SliceClosure(values), PageToken(0, size, []), page, size >= |values|,
                   |page|);
      TokenRoundTrip(|page|, size);
    }
  }

  /**
  A later request: the size is taken from this request, the start from the token, and the next token
  differs from the one presented only in its start.
  */
  lemma NextPageExactly<T>(values: seq<T>, req: Request, opts: PaginationOpts, token: PageToken, size: int)
    requires |values| <= MAX_LENGTH && req.pageToken != "" && DecodeToken(req.pageToken) == Some(token)
    requires size == if req.pageSize == 0 then opts.defaultPageSize
                     else if req.pageSize <= opts.maxPageSize then req.pageSize else opts.maxPageSize
    requires size >= 0 && 0 <= token.start <= |values|
    ensures var reply, left := SlicePage(values, req, opts), |values| - token.start;
            && reply.Page?
            && reply.values == values[token.start..token.start + if size < left then size else left]
            && reply.next == if left <= size then "" else EncodeToken(token.(start := token.start + size))
  {
    hide EncodeToken, DecodeToken;
    BoundsExactly(values, token.start, size);
    var page := Slice(values, token.start, size);
    NoOverflow(token.start + |page|);
    PaginateFrom(req, opts, SliceClosure(values), token, page, token.start + size >= |values|, token.start + |page|);
  }

  /** A token that does not decode, and a database that reports an error, fail the request. */
  lemma FailsExactly<T>(records: seq<T>, available: bool, req: Request, opts: PaginationOpts)
    ensures StoragePage(records, available, req, opts).Failed? <==>
      !available || (req.pageToken != "" && DecodeToken(req.pageToken).None?)
    ensures !StoragePage(records, available, req, opts).Panicked?
  {
    hide EncodeToken, DecodeToken, ListRecords;
  }

  /**
  A storage page, whatever the size and the token: at most `size` of the ordered records from the
  token's start on, all of them for a negative size, from the first one for a negative start and none
  for a start beyond the end; the list ends with a page that is empty or has fewer than `size`.
  */
  lemma StoragePageExactly<T>(records: seq<T>, req: Request, opts: PaginationOpts, token: PageToken, size: int)
    requires |records| < MAX_LENGTH
    requires size == if req.pageSize == 0 then opts.defaultPageSize
                     else if req.pageSize <= opts.maxPageSize then req.pageSize else opts.maxPageSize
    requires if req.pageToken == "" then token == PageToken(0, size, []) else DecodeToken(req.pageToken) == Some(token)
    ensures var reply := StoragePage(records, true, req, opts);
            var from := if token.start < 0 then 0 else if token.start > |records| then |records| else token.start;
            var n := if 0 <= size < |records| - from then size else |records| - from;
            && reply.Page? && reply.values == records[from..from + n]
            && reply.next == if n == 0 || n < size then "" else EncodeToken(token.(start := token.start + n))
  {
    hide EncodeToken, DecodeToken, StoragePage;
    var from := if token.start < 0 then 0 else if token.start > |records| then |records| else token.start;
    var n := if 0 <= size < |records| - from then size else |records| - from;
    RecordsFrom(records, token.start, size, from, n);
    StoragePageFrom(records, req, opts, token, records[from..from + n]);
  }

  lemma StoragePageFrom<T>(records: seq<T>, req: Request, opts: PaginationOpts, token: PageToken, page: seq<T>)
    requires |records| < MAX_LENGTH && |page| <= |records|
    requires page != [] ==> token.start <= |records| - |page|
    requires TokenOf(req, EffectiveSize(req.pageSize, opts)) == Some(token)
    requires ListRecords(records, token.start, EffectiveSize(req.pageSize, opts)) == page
    ensures StoragePage(records, true, req, opts)
         == Page(page, if page == [] || |page| < EffectiveSize(req.pageSize, opts) then ""
                       else EncodeToken(token.(start := token.start + |page|)))
  {
    hide EncodeToken, DecodeToken, ListRecords, ToInt64, Paginate, EffectiveSize, TokenOf;
    if page == [] {
      EmptyPageEnds(req, opts, StorageClosure(records, true), token);
    } else {
      InRange(token.start + |page|);
      PaginateFrom(req, opts, StorageClosure(records, true), token, page,
                   |page| < EffectiveSize(req.pageSize, opts), token.start + |page|);
    }
  }

  lemma RecordsFrom<T>(records: seq<T>, start: Int64, size: Int32, from: nat, n: nat)
    requires from == if start < 0 then 0 else if start > |records| then |records| else start
    requires n == if 0 <= size < |records| - from then size else |records| - from
    ensures ListRecords(records, start, size) == records[from..from + n]
  {
    var rest := records[from..];
    assert rest[..n] == records[from..from + n];
  }

  lemma EmptyPageEnds<T>(req: Request, opts: PaginationOpts, pager: (Int64, Int32) -> Pager<T>, token: PageToken)
    requires TokenOf(req, EffectiveSize(req.pageSize, opts)) == Some(token)
    requires pager(token.start, EffectiveSize(req.pageSize, opts)) == Got([], true)
    ensures Paginate(req, opts, pager) == Page([], "")
  {
    hide EncodeToken, DecodeToken;
  }

  lemma InRange(x: int)
    requires -0x8000_0000_0000_0000 <= x < 0x8000_0000_0000_0000
    ensures ToInt64(x) == x
  {
  }
}
