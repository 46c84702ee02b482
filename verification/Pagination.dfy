/** The page walkers of api/client/client.go, which halve the page size whenever the server says a
    page exceeds the message size: `GetResourcesWithFilters`, and `GetAllResources` built on
    `GetResourcePage`. The server is a stable list and an arbitrary answer to each call:
    it may reject or fail any call it likes, whatever came before. */
module Pagination {
  import opened Common

  const DEFAULT_CHUNK_SIZE: int := 1000

  /** A resource on the wire, of one of the kinds the wire format knows. */
  datatype Resource = Resource(kind: string, name: string)

  /** A page key: the empty string, or the opaque key the server gives to a position. */
  datatype Key = Empty | At(position: nat)

  datatype Request = Request(startKey: Key, limit: int)

  datatype Reply = LimitExceeded | Failure(code: int) | Page(items: seq<Resource>, nextKey: Key, total: int)

  /** What the server decides about a call: reject it, fail it, or give up to k items. */
  datatype Verdict = Reject | Fail(code: int) | Give(k: nat)

  /** How many of the remaining items an accepted request for `limit` of them gets. */
  function Take(k: nat, limit: int, rest: nat): (m: nat)
    requires limit > 0
    ensures m <= limit && m <= rest && (rest > 0 ==> m > 0)
  {
    var want := if k == 0 then 1 else if k <= limit then k else limit;
    if want <= rest then want else rest
  }

  /** A stable list, an arbitrary verdict on each call, and the total count it reports with each page. */
  datatype Server = Server(items: seq<Resource>, verdict: nat -> Verdict, counted: nat -> int)
  {
    function Position(key: Key): (p: nat)
      ensures p <= |items|
    {
      if key.Empty? then 0 else if key.position <= |items| then key.position else |items|
    }

    /** The answer to the n-th call. An accepted request returns a run of at most `limit` items from
        its position on, at least one while any remain, and a next key that is empty exactly at the end. */
    function Answer(n: nat, req: Request): (r: Reply)
      requires req.limit > 0
      ensures var p := Position(req.startKey);
              r.Page? ==>
                && |r.items| <= req.limit && p + |r.items| <= |items|
                && r.items == items[p..p + |r.items|]
                && (p < |items| ==> r.items != [])
                && r.nextKey == (if p + |r.items| == |items| then Empty else At(p + |r.items|))
                && r.total == counted(n)
    {
      match verdict(n)
      case Reject => LimitExceeded
      case Fail(code) => Failure(code)
      case Give(k) =>
        var p := Position(req.startKey);
        var m := Take(k, req.limit, |items| - p);
        Page(items[p..p + m], if p + m == |items| then Empty else At(p + m), counted(n))
    }
  }

  datatype Listing<+T> = Ok(items: seq<T>) | TooLarge | Failed(code: int) | NotImplemented | Unexpected

  // ---------- The reference walk ----------

  /** What is wrong with a request: its kind is not one that is paged, or the type of that kind is not the one the
      caller converts to. */
  datatype Fault = Fine | Unsupported | Mistyped

  datatype Kind = Complete | GaveUp | Broke(code: int) | Refused(fault: Fault)

  /** How a walk ends, after how many calls in all, and in which page size. */
  datatype End = End(kind: Kind, calls: nat, limit: int)

  /** Listing on from position p of `total` with page size `limit` when n calls were already made. The fault of a
      request shows at the first page that holds anything. */
  ghost function Walk(verdict: nat -> Verdict, fault: Fault, total: nat, n: nat, p: nat, limit: int): End
    requires p <= total && limit > 0
    decreases total - p, limit
  {
    match verdict(n)
    case Reject =>
      if limit / 2 == 0 then End(GaveUp, n + 1, limit) else Walk(verdict, fault, total, n + 1, p, limit / 2)
    case Fail(code) => End(Broke(code), n + 1, limit)
    case Give(k) =>
      var q := p + Take(k, limit, total - p);
      if p < q && fault != Fine then End(Refused(fault), n + 1, limit)
      else if q == total then End(Complete, n + 1, limit)
      else Walk(verdict, fault, total, n + 1, q, limit)
  }

  /** How many of the calls numbered from a up to b are rejected as too large. */
  ghost function Rejections(verdict: nat -> Verdict, a: nat, b: nat): nat
    requires a <= b
    decreases b - a
  {
    if a == b then 0 else (if verdict(a).Reject? then 1 else 0) + Rejections(verdict, a + 1, b)
  }

  function Log2(n: int): nat {
    if n <= 1 then 0 else 1 + Log2(n / 2)
  }

  /** A walk ends. It completes, breaks, gives up or refuses only because of its last call, gives up only when a
      request for a single item was rejected, and refuses only for the fault of the request. */
  lemma {:induction false} WalkEnds(verdict: nat -> Verdict, fault: Fault, total: nat, n: nat, p: nat, limit: int)
    requires p <= total && limit > 0
    ensures var end := Walk(verdict, fault, total, n, p, limit);
            && n < end.calls && 0 < end.limit <= limit
            && match end.kind
               case Complete => verdict(end.calls - 1).Give? && (p < total ==> fault == Fine)
               case GaveUp => verdict(end.calls - 1).Reject? && end.limit == 1
               case Broke(code) => verdict(end.calls - 1) == Fail(code)
               case Refused(f) => verdict(end.calls - 1).Give? && f == fault != Fine && p < total
    decreases total - p, limit
  {
    match verdict(n)
    case Reject =>
      if limit / 2 != 0 {
        WalkEnds(verdict, fault, total, n + 1, p, limit / 2);
      }
    case Fail(_) =>
    case Give(k) =>
      var q := p + Take(k, limit, total - p);
      if fault == Fine && q != total {
        WalkEnds(verdict, fault, total, n + 1, q, limit);
      }
  }

  /** The page size is halved by each rejection and never raised again, and every call that is
      not rejected delivers at least one item or is the last. */
  lemma {:induction false} WalkCost(verdict: nat -> Verdict, fault: Fault, total: nat, n: nat, p: nat, limit: int)
    requires p <= total && limit > 0
    ensures var end := Walk(verdict, fault, total, n, p, limit);
            && n < end.calls
            && Rejections(verdict, n, end.calls) + Log2(end.limit) == Log2(limit) + (if end.kind.GaveUp? then 1 else 0)
            && end.calls - n <= total - p + 1 + Rejections(verdict, n, end.calls)
    decreases total - p, limit
  {
    match verdict(n)
    case Reject =>
      if limit / 2 != 0 {
        WalkCost(verdict, fault, total, n + 1, p, limit / 2);
      }
    case Fail(_) =>
    case Give(k) =>
      var q := p + Take(k, limit, total - p);
      if (p == q || fault == Fine) && q != total {
        WalkCost(verdict, fault, total, n + 1, q, limit);
      }
  }

  ghost predicate AllRejected(verdict: nat -> Verdict, a: nat, b: int) {
    forall k :: a <= k < b ==> verdict(k).Reject?
  }

  /** A walk with a fault never gets past its first call that is not rejected. */
  lemma {:induction false} FaultyWalkStops(
      verdict: nat -> Verdict, fault: Fault, total: nat, n: nat, p: nat, limit: int)
    requires p < total && limit > 0 && fault != Fine
    ensures AllRejected(verdict, n, Walk(verdict, fault, total, n, p, limit).calls - 1)
    decreases limit
  {
    if verdict(n).Reject? && limit / 2 != 0 {
      FaultyWalkStops(verdict, fault, total, n + 1, p, limit / 2);
    }
  }

  function Refusal<T>(fault: Fault): Listing<T>
    requires fault != Fine
  {
    if fault == Unsupported then NotImplemented else Unexpected
  }

  /** A listing has the outcome of the walk, and if complete it is `rest`: what the caller makes of the rest of
      the list, in order, nothing lost or repeated. */
  ghost predicate Lists<T>(rest: seq<T>, r: Listing<T>, end: End) {
    match end.kind
    case Complete => r == Ok(rest)
    case GaveUp => r == TooLarge
    case Broke(code) => r == Failed(code)
    case Refused(fault) => fault != Fine && r == Refusal(fault)
  }

  ghost function DefaultWalk(server: Server, fault: Fault, start: nat): End
    requires start <= |server.items|
  {
    Walk(server.verdict, fault, |server.items|, 0, start, 1000)
  }

  /** A listing from position `start` ends as its walk in the default page size does. */
  ghost predicate Follows<T>(server: Server, fault: Fault, start: nat, rest: seq<T>, r: Listing<T>, n: nat)
    requires start <= |server.items|
  {
    var end := DefaultWalk(server, fault, start);
    n == end.calls && Lists(rest, r, end)
  }

  /** What a caller can rely on: a success is the whole rest of the list after at most nine rejected
      calls and one call per item; "too large" means that the tenth rejection was of a request for a
      single item; a refusal that the request has that fault; any other failure is the server's own. */
  lemma ListingIsFaithful<T>(server: Server, fault: Fault, start: nat, rest: seq<T>, r: Listing<T>, n: nat)
    requires start <= |server.items| && Follows(server, fault, start, rest, r, n)
    ensures n > 0
    ensures match r
            case Ok(items) => items == rest && Rejections(server.verdict, 0, n) <= 9
            case TooLarge => server.verdict(n - 1).Reject? && Rejections(server.verdict, 0, n) == 10 &&
                             DefaultWalk(server, fault, start).limit == 1
            case Failed(code) => server.verdict(n - 1) == Fail(code) && Rejections(server.verdict, 0, n) <= 9
            case NotImplemented => server.verdict(n - 1).Give? && fault == Unsupported
            case Unexpected => server.verdict(n - 1).Give? && fault == Mistyped
    ensures n <= |server.items| - start + 1 + Rejections(server.verdict, 0, n)
  {
    WalkEnds(server.verdict, fault, |server.items|, 0, start, DEFAULT_CHUNK_SIZE);
    WalkCost(server.verdict, fault, |server.items|, 0, start, DEFAULT_CHUNK_SIZE);
    assert Log2(DEFAULT_CHUNK_SIZE) == 9;
    assert Log2(1) == 0;
  }

  // ---------- GetResourcesWithFilters ----------

  /** Returns the listing and the number of calls made. */
  method GetResourcesWithFilters(server: Server) returns (r: Listing<Resource>, n: nat)
    ensures Follows(server, Fine, 0, server.items, r, n)
    ensures r.Ok? ==> r.items == server.items
  {
    var resources: seq<Resource> := [];
    var startKey := Empty;
    var chunkSize := DEFAULT_CHUNK_SIZE;
    n := 0;
    ghost var p := 0;
    ghost var end := DefaultWalk(server, Fine, 0);
    while true
      invariant p <= |server.items| && p == server.Position(startKey) && chunkSize > 0
      invariant resources == server.items[..p]
      invariant Walk(server.verdict, Fine, |server.items|, n, p, chunkSize) == end
      decreases |server.items| - p, chunkSize
    {
      var resp := server.Answer(n, Request(startKey, chunkSize));
      n := n + 1;
      match resp {
        case LimitExceeded =>
          chunkSize := chunkSize / 2;
          if chunkSize == 0 {
            return TooLarge, n;
          }
        case Failure(code) =>
          return Failed(code), n;
        case Page(items, nextKey, _) =>
          startKey := nextKey;
          resources := resources + items;
          if startKey == Empty || |items| == 0 {
            assert resources == server.items;
            return Ok(resources), n;
          }
          p := p + |items|;
      }
    }
  }

  // ---------- GetResourcePage and GetAllResources ----------

  /** The request object both functions share and update. */
  class ListResourcesRequest {
    var startKey: Key
    var limit: int

    constructor (startKey: Key, limit: int)
      ensures this.startKey == startKey && this.limit == limit
    {
      this.startKey, this.limit := startKey, limit;
    }
  }

  /** The kinds of resources that can be paged. */
  const PAGED_KINDS: seq<string> :=
    ["db_server", "db_service", "app_server", "node", "windows_desktop", "windows_desktop_service",
     "kube_cluster", "kube_server", "user_group", "app_server_or_saml_idp_sp", "saml_idp_service_provider"]

  /** What is asked for: a kind, whether that kind is paged, and whether its type converts to the caller's. */
  datatype Wanted = Wanted(kind: string, paged: bool, converts: bool)
  {
    function Fault(): Fault {
      if !paged then Unsupported else if !converts then Mistyped else Fine
    }
  }

  /** A request for a kind by a caller to whose type the given kinds convert. */
  function Want(kind: string, convertible: string -> bool): Wanted {
    Wanted(kind, kind in PAGED_KINDS, convertible(kind))
  }

  /** An entry of the result; `None` is a nil pointer of the requested type. */
  type Entry = Option<Resource>

  /** The getter of the requested kind gives nil for a resource of any other. */
  function Get(kind: string, x: Resource): Entry {
    if x.kind == kind then Some(x) else None
  }

  function Entries(kind: string, items: seq<Resource>): (es: seq<Entry>)
    ensures |es| == |items|
  {
    seq(|items|, i requires 0 <= i < |items| => Get(kind, items[i]))
  }

  lemma EntriesJoin(kind: string, xs: seq<Resource>, a: nat, b: nat, c: nat)
    requires a <= b <= c <= |xs|
    ensures Entries(kind, xs[a..b]) + Entries(kind, xs[b..c]) == Entries(kind, xs[a..c])
    ensures xs[a..|xs|] == xs[a..]
  {
  }

  /** What converting a page amounts to. */
  function Converted(w: Wanted, items: seq<Resource>): Listing<Entry> {
    if items == [] || w.Fault() == Fine then Ok(Entries(w.kind, items)) else Refusal(w.Fault())
  }

  /** The type assertion sees the pointer type of the getter, nil or not, which no resource changes. */
  method Convert(items: seq<Resource>, w: Wanted) returns (r: Listing<Entry>)
    ensures r == Converted(w, items)
  {
    var out: seq<Entry> := [];
    for i := 0 to |items|
      invariant out == Entries(w.kind, items[..i])
      invariant i > 0 ==> w.Fault() == Fine
    {
      if !w.paged {
        return NotImplemented;
      }
      var resource := Get(w.kind, items[i]);
      if !w.converts {
        return Unexpected;
      }
      out := out + [resource];
    }
    assert items[..|items|] == items;
    return Ok(out);
  }

  function Halved(limit: nat, times: nat): nat {
    if times == 0 then limit else Halved(limit, times - 1) / 2
  }

  /** What the last call of a page request, the n-th in page size `limit`, makes of it. */
  ghost predicate Decides(server: Server, w: Wanted, key: Key, n: nat, limit: nat,
                          r: Listing<Entry>, nextKey: Key, last: int)
    requires limit > 0
  {
    match server.verdict(n)
    case Reject => r == TooLarge && limit == 1 && last == 0
    case Fail(code) => r == Failed(code) && last == limit
    case Give(_) =>
      var resp := server.Answer(n, Request(key, limit));
      r == Converted(w, resp.items) && nextKey == (if r.Ok? then resp.nextKey else Empty) && last == limit
  }

  /** The calls of one page request in page size `size`, numbered from n0 up to n: all but the last are rejected
      and halve the size, and the last one decides the result. */
  ghost predicate PageOf(server: Server, w: Wanted, key: Key, n0: nat, size: nat,
                         r: Listing<Entry>, nextKey: Key, n: nat, last: int) {
    && n0 < n && AllRejected(server.verdict, n0, n - 1)
    && Halved(size, n - 1 - n0) > 0
    && Decides(server, w, key, n - 1, Halved(size, n - 1 - n0), r, nextKey, last)
  }

  /** One page for the request after n0 calls, in the page size asked for if that is from 1 to 1000, and 1000
      otherwise. The halved page size stays in the request; when even one item is too
      large it is zero, which the next request takes for the default. */
  method GetResourcePage(server: Server, w: Wanted, req: ListResourcesRequest, n0: nat)
      returns (r: Listing<Entry>, nextKey: Key, total: int, n: nat)
    modifies req
    ensures req.startKey == old(req.startKey)
    ensures var size := if 1 <= old(req.limit) <= 1000 then old(req.limit) else 1000;
            req.limit <= size && PageOf(server, w, req.startKey, n0, size, r, nextKey, n, req.limit)
    ensures r.TooLarge? ==> req.limit == 0
    ensures total == if r.Ok? then server.counted(n - 1) else 0
  {
    nextKey, total, n := Empty, 0, n0;
    if req.limit <= 0 || req.limit > DEFAULT_CHUNK_SIZE {
      req.limit := DEFAULT_CHUNK_SIZE;
    }
    ghost var size := req.limit;
    while true
      invariant req.startKey == old(req.startKey) && 0 < req.limit <= size && total == 0
      invariant n0 <= n && AllRejected(server.verdict, n0, n) && req.limit == Halved(size, n - n0)
      decreases req.limit
    {
      var resp := server.Answer(n, Request(req.startKey, req.limit));
      n := n + 1;
      match resp {
        case LimitExceeded =>
          req.limit := req.limit / 2;
          if req.limit == 0 {
            return TooLarge, nextKey, total, n;
          }
        case Failure(code) =>
          return Failed(code), nextKey, total, n;
        case Page(items, next, count) =>
          r := Convert(items, w);
          if r.Ok? {
            nextKey, total := next, count;
          }
          return;
      }
    }
  }

  /** Rejected calls leave a walk where it is, in a smaller page size. */
  lemma {:induction false} SkipRejections(
      verdict: nat -> Verdict, fault: Fault, total: nat, n: nat, p: nat, limit: nat, times: nat)
    requires p <= total && Halved(limit, times) > 0 && AllRejected(verdict, n, n + times)
    ensures limit > 0 && Walk(verdict, fault, total, n, p, limit) ==
                         Walk(verdict, fault, total, n + times, p, Halved(limit, times))
  {
    if times > 0 {
      SkipRejections(verdict, fault, total, n, p, limit, times - 1);
    }
  }

  /** How a page request moves the walk that is at position p: it ends it, or takes it to the end of the
      page in page size `last`. */
  ghost predicate Moves(server: Server, w: Wanted, p: nat, before: End,
                        r: Listing<Entry>, nextKey: Key, n: nat, last: int)
    requires p <= |server.items|
  {
    match r
    case TooLarge => before == End(GaveUp, n, 1) && last == 0
    case Failed(code) => before == End(Broke(code), n, last)
    case NotImplemented => before == End(Refused(Unsupported), n, last)
    case Unexpected => before == End(Refused(Mistyped), n, last)
    case Ok(items) =>
      var q := p + |items|;
      && q <= |server.items| && items == Entries(w.kind, server.items[p..q]) && last > 0
      && if nextKey == Empty then q == |server.items| && before == End(Complete, n, last)
         else p < q == server.Position(nextKey) && before == Walk(server.verdict, w.Fault(), |server.items|, n, q, last)
  }

  lemma GivenMoves(server: Server, w: Wanted, key: Key, n: nat, limit: int)
    requires limit > 0 && server.verdict(n).Give?
    ensures var resp, p := server.Answer(n, Request(key, limit)), server.Position(key);
            Moves(server, w, p, Walk(server.verdict, w.Fault(), |server.items|, n, p, limit),
                  Converted(w, resp.items), resp.nextKey, n + 1, limit)
  {
  }

  lemma LastCallMoves(server: Server, w: Wanted, key: Key, n: nat, limit: nat,
                      r: Listing<Entry>, nextKey: Key, last: int)
    requires limit > 0 && Decides(server, w, key, n, limit, r, nextKey, last)
    ensures var p := server.Position(key);
            Moves(server, w, p, Walk(server.verdict, w.Fault(), |server.items|, n, p, limit), r, nextKey, n + 1, last)
  {
    if server.verdict(n).Give? {
      GivenMoves(server, w, key, n, limit);
    }
  }

  lemma PageMoves(server: Server, w: Wanted, key: Key, n0: nat, size: nat,
                  r: Listing<Entry>, nextKey: Key, n: nat, last: int)
    requires size > 0 && PageOf(server, w, key, n0, size, r, nextKey, n, last)
    ensures var p := server.Position(key);
            Moves(server, w, p, Walk(server.verdict, w.Fault(), |server.items|, n0, p, size), r, nextKey, n, last)
  {
    SkipRejections(server.verdict, w.Fault(), |server.items|, n0, server.Position(key), size, n - 1 - n0);
    LastCallMoves(server, w, key, n - 1, Halved(size, n - 1 - n0), r, nextKey, last);
  }

  /** Part of the listing from `start` is done: the entries up to position p, after n calls, in page size `limit`. */
  ghost predicate Partway(server: Server, w: Wanted, start: nat, p: nat, out: seq<Entry>, n: nat, limit: int) {
    && start <= p <= |server.items| && limit > 0
    && out == Entries(w.kind, server.items[start..p])
    && Walk(server.verdict, w.Fault(), |server.items|, n, p, limit) == DefaultWalk(server, w.Fault(), start)
  }

  ghost predicate ListsAll(server: Server, w: Wanted, start: nat, r: Listing<Entry>, n: nat) {
    && start <= |server.items|
    && Follows(server, w.Fault(), start, Entries(w.kind, server.items[start..]), r, n)
  }

  lemma PageExtends(server: Server, w: Wanted, start: nat, p: nat, out: seq<Entry>, n0: nat, size: int,
                    page: Listing<Entry>, nextKey: Key, n: nat, last: int)
    requires Partway(server, w, start, p, out, n0, size)
    requires Moves(server, w, p, DefaultWalk(server, w.Fault(), start), page, nextKey, n, last)
    ensures if !page.Ok? then ListsAll(server, w, start, page, n)
            else if nextKey == Empty then ListsAll(server, w, start, Ok(out + page.items), n)
            else
              var q := p + |page.items|;
              p < q == server.Position(nextKey) && Partway(server, w, start, q, out + page.items, n, last)
  {
    if page.Ok? {
      EntriesJoin(w.kind, server.items, start, p, p + |page.items|);
    }
  }

  /** `GetAllResources` ends as the walk of `GetResourcesWithFilters` does, from the position of its start key, unless
      the request has a fault. A success holds an entry for every resource of the rest of the list. */
  method GetAllResources(server: Server, w: Wanted, req: ListResourcesRequest) returns (r: Listing<Entry>, n: nat)
    modifies req
    ensures ListsAll(server, w, old(server.Position(req.startKey)), r, n)
    ensures r.TooLarge? ==> req.limit == 0
  {
    var out: seq<Entry> := [];
    req.limit := DEFAULT_CHUNK_SIZE;
    n := 0;
    ghost var start := server.Position(req.startKey);
    ghost var p := start;
    while true
      invariant Partway(server, w, start, p, out, n, req.limit)
      invariant p == server.Position(req.startKey) && req.limit <= DEFAULT_CHUNK_SIZE
      decreases |server.items| - p
    {
      var page, nextKey, total;
      ghost var n0, size := n, req.limit;
      page, nextKey, total, n := GetResourcePage(server, w, req, n);
      PageMoves(server, w, req.startKey, n0, size, page, nextKey, n, req.limit);
      PageExtends(server, w, start, p, out, n0, size, page, nextKey, n, req.limit);
      if !page.Ok? {
        return page, n;
      }
      out := out + page.items;
      if nextKey == Empty || |page.items| == 0 {
        return Ok(out), n;
      }
      p := p + |page.items|;
      req.startKey := nextKey;
    }
  }

  // ---------- What the types do to a listing ----------

  /** The listing without any nil. */
  function Whole(items: seq<Resource>): seq<Entry> {
    seq(|items|, i requires 0 <= i < |items| => Some(items[i]))
  }

  /** A listing has nil exactly in the place of every resource of another kind, so it is whole if and only if there
      is none. */
  lemma NilExactly(kind: string, items: seq<Resource>)
    ensures forall i :: 0 <= i < |items| ==> (Entries(kind, items)[i] == None <==> items[i].kind != kind)
    ensures Entries(kind, items) == Whole(items) <==> forall x :: x in items ==> x.kind == kind
  {
    if Entries(kind, items) == Whole(items) {
      forall i | 0 <= i < |items|
        ensures items[i].kind == kind
      {
        assert Entries(kind, items)[i] == Whole(items)[i];
      }
    }
  }

  /** A request is refused exactly when it has a fault, there is anything to list, and the first call that is not
      rejected is accepted, whatever resources the page holds; the refusal names the fault. */
  lemma RefusedExactly(server: Server, kind: string, convertible: string -> bool, start: nat,
                       r: Listing<Entry>, n: nat)
    requires ListsAll(server, Want(kind, convertible), start, r, n)
    ensures n > 0
    ensures r.NotImplemented? <==> kind !in PAGED_KINDS && start < |server.items| && server.verdict(n - 1).Give?
    ensures r.Unexpected? <==>
            kind in PAGED_KINDS && !convertible(kind) && start < |server.items| && server.verdict(n - 1).Give?
    ensures r.NotImplemented? || r.Unexpected? ==> AllRejected(server.verdict, 0, n - 1)
  {
    var fault := Want(kind, convertible).Fault();
    WalkEnds(server.verdict, fault, |server.items|, 0, start, DEFAULT_CHUNK_SIZE);
    if start < |server.items| && fault != Fine {
      FaultyWalkStops(server.verdict, fault, |server.items|, 0, start, DEFAULT_CHUNK_SIZE);
    }
  }

  const MIXED := [Resource("node", "a"), Resource("db_server", "b")]

  /** Asked for nodes by a caller who takes nodes, a server that lists a node and a database gets a success with a
      nil entry, and no error. */
  lemma OtherKindBecomesNil(counted: nat -> int, r: Listing<Entry>, n: nat)
    requires var server := Server(MIXED, _ => Give(2), counted);
             ListsAll(server, Want("node", k => k == "node"), 0, r, n)
    ensures n == 1 && r == Ok([Some(Resource("node", "a")), None])
  {
    assert "node" == PAGED_KINDS[3];
    assert Entries("node", MIXED[0..]) == [Some(Resource("node", "a")), None];
  }

  /** How a listing of resources looks with the getter of a kind applied to it. */
  function Seen(kind: string, r: Listing<Resource>): Listing<Entry> {
    match r
    case Ok(items) => Ok(Entries(kind, items))
    case TooLarge => TooLarge
    case Failed(code) => Failed(code)
    case NotImplemented => NotImplemented
    case Unexpected => Unexpected
  }

  /** Without a fault, both functions make the same calls and end alike, and two successes agree but for the resources
      of another kind: they are the same exactly when the server lists none. */
  lemma ListingsAgree(server: Server, w: Wanted, r: Listing<Resource>, n: nat, r': Listing<Entry>, n': nat)
    requires w.Fault() == Fine && Follows(server, Fine, 0, server.items, r, n) && ListsAll(server, w, 0, r', n')
    ensures n == n' && r' == Seen(w.kind, r)
    ensures r.Ok? ==> (r'.items == Whole(r.items) <==> forall x :: x in server.items ==> x.kind == w.kind)
  {
    WalkEnds(server.verdict, Fine, |server.items|, 0, 0, DEFAULT_CHUNK_SIZE);
    assert server.items[0..] == server.items;
    NilExactly(w.kind, server.items);
  }
}
