// `parse_input` over the already tokenised rows of an input file: the
// header `V E R C X`, the row of video sizes, E endpoint blocks (`Ld K`
// followed by K rows `c Lc`) and R request rows `Rv Re Rn`. A row that is
// missing or has the wrong number of values, and an id that names no
// cache server, endpoint or video, stop the load with an error.

module Loader {
  import opened Entities
  import opened Caching

  datatype LoadError =
    | Malformed(row: nat)     // a missing row, or one with the wrong number of values
    | NoCacheserver(id: int)
    | NoEndpoint(id: int)
    | NoVideo(id: int)

  datatype Result<T> = Ok(value: T) | Err(error: LoadError)

  /** What has been read so far: the index of the next row, the endpoints
      and each cache server's attached endpoints. */
  datatype Loading = Loading(pos: nat, endpoints: seq<Endpoint>, attached: seq<seq<nat>>)

  /** A successful load: cache count, capacity, videos, endpoints and each
      cache server's attached endpoints. */
  datatype Parsed = Parsed(caches: nat, x: int, videos: seq<Video>, endpoints: seq<Endpoint>, attached: seq<seq<nat>>)

  /** The number of iterations of `range(k)`. */
  function Count(k: int): nat
  {
    if k < 0 then 0 else k
  }

  /** Video i has the i-th size, for every size of the row. */
  function MakeVideos(sizes: seq<int>): (vs: seq<Video>)
    ensures |vs| == |sizes| && forall i :: 0 <= i < |sizes| ==> vs[i] == Video(i, sizes[i])
  {
    seq(|sizes|, i requires 0 <= i < |sizes| => Video(i, sizes[i]))
  }

  /** One row `c Lc` linking endpoint `e` to cache server `c`
      (`get_cacheserver`, then `add_cacheserver`). */
  function LinkRow(rows: seq<seq<int>>, e: nat, s: Loading): (r: Result<Loading>)
    requires e < |s.endpoints|
    ensures r.Ok? ==> |r.value.endpoints| == |s.endpoints| && r.value.pos == s.pos + 1
  {
    if s.pos >= |rows| || |rows[s.pos]| != 2 then Err(Malformed(s.pos))
    else
      var c, latency := rows[s.pos][0], rows[s.pos][1];
      match IndexOfId(DenseIds(|s.attached|), c)
      case None => Err(NoCacheserver(c))
      case Some(i) =>
        var ep := s.endpoints[e];
        Ok(Loading(s.pos + 1, s.endpoints[e := ep.(links := SetLatency(ep.links, i, latency))],
                   s.attached[i := s.attached[i] + [e]]))
  }

  /** `k` link rows of endpoint `e`. */
  function ReadLinks(rows: seq<seq<int>>, k: nat, e: nat, s: Loading): (r: Result<Loading>)
    requires e < |s.endpoints|
    ensures r.Ok? ==> |r.value.endpoints| == |s.endpoints|
  {
    if k == 0 then Ok(s)
    else
      match LinkRow(rows, e, s)
      case Err(err) => Err(err)
      case Ok(linked) => ReadLinks(rows, k - 1, e, linked)
  }

  /** One endpoint block: the row `Ld K`, a new endpoint with id `i`, then
      its K link rows. */
  function EndpointBlock(rows: seq<seq<int>>, i: nat, s: Loading): (r: Result<Loading>)
    ensures r.Ok? ==> |r.value.endpoints| == |s.endpoints| + 1
  {
    if s.pos >= |rows| || |rows[s.pos]| != 2 then Err(Malformed(s.pos))
    else
      var latencyDatacenter, k := rows[s.pos][0], rows[s.pos][1];
      var started := Loading(s.pos + 1, s.endpoints + [Endpoint(i, latencyDatacenter, [], [])], s.attached);
      ReadLinks(rows, Count(k), |s.endpoints|, started)
  }

  /** The endpoint blocks `i .. count-1`. */
  function ReadEndpoints(rows: seq<seq<int>>, i: nat, count: nat, s: Loading): Result<Loading>
    decreases count - i
  {
    if i >= count then Ok(s)
    else
      match EndpointBlock(rows, i, s)
      case Err(err) => Err(err)
      case Ok(linked) => ReadEndpoints(rows, i + 1, count, linked)
  }

  /** One request row `Rv Re Rn` (`get_endpoint`, `get_video`, then the
      append to the endpoint's requests). */
  function RequestRow(rows: seq<seq<int>>, videos: seq<Video>, s: Loading): (r: Result<Loading>)
    ensures r.Ok? ==> r.value.attached == s.attached && r.value.pos == s.pos + 1
  {
    if s.pos >= |rows| || |rows[s.pos]| != 3 then Err(Malformed(s.pos))
    else
      var rv, re, rn := rows[s.pos][0], rows[s.pos][1], rows[s.pos][2];
      match IndexOfId(EndpointIds(s.endpoints), re)
      case None => Err(NoEndpoint(re))
      case Some(e) =>
        match IndexOfId(VideoIds(videos), rv)
        case None => Err(NoVideo(rv))
        case Some(w) =>
          var ep := s.endpoints[e];
          Ok(Loading(s.pos + 1, s.endpoints[e := ep.(requests := ep.requests + [Request(videos[w], rn)])], s.attached))
  }

  /** The request rows `j .. count-1`. */
  function ReadRequests(rows: seq<seq<int>>, j: nat, count: nat, videos: seq<Video>, s: Loading): (r: Result<Loading>)
    ensures r.Ok? ==> r.value.attached == s.attached
    decreases count - j
  {
    if j >= count then Ok(s)
    else
      match RequestRow(rows, videos, s)
      case Err(err) => Err(err)
      case Ok(next) => ReadRequests(rows, j + 1, count, videos, next)
  }

  /** After the endpoint blocks: the requests, then the result. */
  function Finish(rows: seq<seq<int>>, afterEndpoints: Result<Loading>, requests: nat, caches: nat, x: int, videos: seq<Video>): Result<Parsed>
  {
    match afterEndpoints
    case Err(err) => Err(err)
    case Ok(s) =>
      match ReadRequests(rows, 0, requests, videos, s)
      case Err(err) => Err(err)
      case Ok(done) => Ok(Parsed(caches, x, videos, done.endpoints, done.attached))
  }

  /** `parse_input` as a function of the rows. */
  function ReadTopology(rows: seq<seq<int>>): Result<Parsed>
  {
    if |rows| < 1 || |rows[0]| != 5 then Err(Malformed(0))
    else if |rows| < 2 || |rows[1]| == 0 then Err(Malformed(1))
    else
      var e, r, c, x := rows[0][1], rows[0][2], rows[0][3], rows[0][4];
      var start := Loading(2, [], seq(Count(c), _ => []));
      Finish(rows, ReadEndpoints(rows, 0, Count(e), start), Count(r), Count(c), x, MakeVideos(rows[1]))
  }

  // ---------------------------------------------------------------------
  // What a load builds

  /** The shape every load keeps: `n` cache servers, endpoint i has id i,
      every link names one of the cache servers, no endpoint has a cache
      twice, and cache c lists endpoint e among its endpoints exactly when e
      has a link to c. */
  predicate Coherent(endpoints: seq<Endpoint>, attached: seq<seq<nat>>, n: nat)
  {
    |attached| == n
    && (forall i :: 0 <= i < |endpoints| ==> endpoints[i].id == i)
    && LinksWithin(endpoints, n)
    && (forall i :: 0 <= i < |endpoints| ==> DistinctCaches(endpoints[i].links))
    && AttachedWithin(attached, |endpoints|)
    && BackReferences(endpoints, attached)
  }

  /** Every endpoint a cache server lists is one of the `m` endpoints. */
  predicate AttachedWithin(attached: seq<seq<nat>>, m: nat)
  {
    forall c, k :: 0 <= c < |attached| && 0 <= k < |attached[c]| ==> attached[c][k] < m
  }

  /** Cache c lists endpoint e exactly when e has a link to c. */
  predicate BackReferences(endpoints: seq<Endpoint>, attached: seq<seq<nat>>)
  {
    forall c, e :: 0 <= c < |attached| && 0 <= e < |endpoints| ==>
      (e in attached[c] <==> c in CachesOf(endpoints[e].links))
  }

  /** Every request of every endpoint asks for one of `videos`. */
  predicate RequestsFrom(endpoints: seq<Endpoint>, videos: seq<Video>)
  {
    forall e, j :: 0 <= e < |endpoints| && 0 <= j < |endpoints[e].requests| ==> endpoints[e].requests[j].video in videos
  }

  lemma AddLinkBackReferences(endpoints: seq<Endpoint>, attached: seq<seq<nat>>, e: nat, c: nat, latency: int)
    requires BackReferences(endpoints, attached) && e < |endpoints| && c < |attached|
    ensures var ep := endpoints[e];
            BackReferences(endpoints[e := ep.(links := SetLatency(ep.links, c, latency))], attached[c := attached[c] + [e]])
  {
    var ep := endpoints[e];
    SetLatencyLookup(ep.links, c, latency);
    var after := endpoints[e := ep.(links := SetLatency(ep.links, c, latency))];
    var attachedAfter := attached[c := attached[c] + [e]];
    forall d, f | 0 <= d < |attachedAfter| && 0 <= f < |after|
      ensures f in attachedAfter[d] <==> d in CachesOf(after[f].links)
    {
      if d == c {
        assert f in attachedAfter[d] <==> f in attached[d] || f == e;
      }
    }
  }

  /** `add_cacheserver` of cache c < n to endpoint e keeps the state coherent. */
  lemma AddLinkCoherent(endpoints: seq<Endpoint>, attached: seq<seq<nat>>, n: nat, e: nat, c: nat, latency: int)
    requires Coherent(endpoints, attached, n) && e < |endpoints| && c < n
    ensures var ep := endpoints[e];
            Coherent(endpoints[e := ep.(links := SetLatency(ep.links, c, latency))], attached[c := attached[c] + [e]], n)
  {
    SetLatencyDistinct(endpoints[e].links, c, latency);
    AddLinkWithin(endpoints, n, e, c, latency);
    AddLinkBackReferences(endpoints, attached, e, c, latency);
    var after := attached[c := attached[c] + [e]];
    assert AttachedWithin(after, |endpoints|) by {
      forall d, k | 0 <= d < |after| && 0 <= k < |after[d]| ensures after[d][k] < |endpoints| {
        if d == c && k < |attached[c]| {
          assert after[d][k] == attached[c][k];
        }
      }
    }
  }

  /** A link row fails for a well-formed row exactly when its cache id is
      not one of 0 .. n-1; otherwise endpoint `e` records the latency for
      that cache, keeps every other latency, and the state stays coherent. */
  lemma LinkRowSpec(rows: seq<seq<int>>, e: nat, s: Loading)
    requires e < |s.endpoints| && Coherent(s.endpoints, s.attached, |s.attached|)
    requires s.pos < |rows| && |rows[s.pos]| == 2
    ensures var c, latency := rows[s.pos][0], rows[s.pos][1];
            match LinkRow(rows, e, s)
            case Err(err) => err == NoCacheserver(c) && !(0 <= c < |s.attached|)
            case Ok(next) =>
              0 <= c < |s.attached| && Coherent(next.endpoints, next.attached, |s.attached|)
              && next.attached == s.attached[c := s.attached[c] + [e]]
              && LatencyOf(next.endpoints[e].links, c) == Some(latency)
              && (forall d :: d != c ==> LatencyOf(next.endpoints[e].links, d) == LatencyOf(s.endpoints[e].links, d))
              && next.endpoints[e].id == s.endpoints[e].id && next.endpoints[e].requests == s.endpoints[e].requests
              && (forall i :: 0 <= i < |s.endpoints| && i != e ==> next.endpoints[i] == s.endpoints[i])
  {
    var c, latency := rows[s.pos][0], rows[s.pos][1];
    DenseLookup(|s.attached|, c);
    if 0 <= c < |s.attached| {
      SetLatencyLookup(s.endpoints[e].links, c, latency);
      AddLinkCoherent(s.endpoints, s.attached, |s.attached|, e, c, latency);
    }
  }

  /** A link row keeps the state coherent and changes only the links of
      endpoint `e`. */
  lemma LinkRowKeeps(rows: seq<seq<int>>, e: nat, s: Loading)
    requires e < |s.endpoints| && Coherent(s.endpoints, s.attached, |s.attached|)
    ensures LinkRow(rows, e, s).Ok? ==>
              var next := LinkRow(rows, e, s).value;
              Coherent(next.endpoints, next.attached, |s.attached|)
              && next.endpoints[e].id == s.endpoints[e].id && next.endpoints[e].requests == s.endpoints[e].requests
              && (forall i :: 0 <= i < |s.endpoints| && i != e ==> next.endpoints[i] == s.endpoints[i])
  {
    if s.pos < |rows| && |rows[s.pos]| == 2 {
      var c := rows[s.pos][0];
      DenseLookup(|s.attached|, c);
      if 0 <= c < |s.attached| {
        AddLinkCoherent(s.endpoints, s.attached, |s.attached|, e, c, rows[s.pos][1]);
      }
    }
  }

  lemma {:induction false} ReadLinksCoherent(rows: seq<seq<int>>, k: nat, e: nat, s: Loading)
    requires e < |s.endpoints| && Coherent(s.endpoints, s.attached, |s.attached|)
    ensures ReadLinks(rows, k, e, s).Ok? ==>
              var next := ReadLinks(rows, k, e, s).value;
              Coherent(next.endpoints, next.attached, |s.attached|)
              && next.endpoints[e].id == s.endpoints[e].id && next.endpoints[e].requests == s.endpoints[e].requests
              && forall i :: 0 <= i < |s.endpoints| && i != e ==> next.endpoints[i] == s.endpoints[i]
  {
    if k > 0 {
      LinkRowKeeps(rows, e, s);
      var linked := LinkRow(rows, e, s);
      if linked.Ok? {
        ReadLinksCoherent(rows, k - 1, e, linked.value);
      }
    }
  }

  /** An endpoint block appends endpoint `i` (the next id) with exactly the
      links its rows give, and the state stays coherent. */
  lemma EndpointBlockCoherent(rows: seq<seq<int>>, i: nat, s: Loading)
    requires i == |s.endpoints| && Coherent(s.endpoints, s.attached, |s.attached|)
    ensures EndpointBlock(rows, i, s).Ok? ==>
              var next := EndpointBlock(rows, i, s).value;
              Coherent(next.endpoints, next.attached, |s.attached|)
              && next.endpoints[..i] == s.endpoints && next.endpoints[i].id == i && next.endpoints[i].requests == []
  {
    if s.pos < |rows| && |rows[s.pos]| == 2 {
      var started := Loading(s.pos + 1, s.endpoints + [Endpoint(i, rows[s.pos][0], [], [])], s.attached);
      assert Coherent(started.endpoints, started.attached, |s.attached|);
      ReadLinksCoherent(rows, Count(rows[s.pos][1]), i, started);
    }
  }

  /** The endpoint blocks `i .. count-1` give endpoints with ids 0 .. count-1,
      coherent with the cache servers' endpoint lists. */
  lemma {:induction false} ReadEndpointsCoherent(rows: seq<seq<int>>, i: nat, count: nat, s: Loading)
    requires i == |s.endpoints| && i <= count && Coherent(s.endpoints, s.attached, |s.attached|)
    requires forall k :: 0 <= k < i ==> s.endpoints[k].requests == []
    ensures ReadEndpoints(rows, i, count, s).Ok? ==>
              var done := ReadEndpoints(rows, i, count, s).value;
              |done.endpoints| == count && Coherent(done.endpoints, done.attached, |s.attached|)
              && forall k :: 0 <= k < count ==> done.endpoints[k].requests == []
    decreases count - i
  {
    if i < count {
      EndpointBlockCoherent(rows, i, s);
      var block := EndpointBlock(rows, i, s);
      if block.Ok? {
        ReadEndpointsCoherent(rows, i + 1, count, block.value);
        assert forall k :: 0 <= k < i ==> block.value.endpoints[k] == s.endpoints[k];
      }
    }
  }

  /** For endpoints with ids 0 .. |endpoints|-1 and videos with ids
      0 .. |videos|-1, a request row `Rv Re Rn` fails with NoEndpoint exactly
      when Re is out of range, then with NoVideo exactly when Rv is out of
      range; otherwise it appends a request for video Rv with quantity Rn to
      endpoint Re and touches nothing else. */
  lemma RequestRowSpec(rows: seq<seq<int>>, sizes: seq<int>, s: Loading)
    requires forall i :: 0 <= i < |s.endpoints| ==> s.endpoints[i].id == i
    requires s.pos < |rows| && |rows[s.pos]| == 3
    ensures var rv, re, rn := rows[s.pos][0], rows[s.pos][1], rows[s.pos][2];
            match RequestRow(rows, MakeVideos(sizes), s)
            case Err(err) =>
              if 0 <= re < |s.endpoints| then err == NoVideo(rv) && !(0 <= rv < |sizes|)
              else err == NoEndpoint(re)
            case Ok(next) =>
              0 <= re < |s.endpoints| && 0 <= rv < |sizes|
              && |next.endpoints| == |s.endpoints|
              && next.endpoints[re] == s.endpoints[re].(requests := s.endpoints[re].requests + [Request(Video(rv, sizes[rv]), rn)])
              && forall i :: 0 <= i < |s.endpoints| && i != re ==> next.endpoints[i] == s.endpoints[i]
  {
    var videos := MakeVideos(sizes);
    var rv, re := rows[s.pos][0], rows[s.pos][1];
    assert EndpointIds(s.endpoints) == DenseIds(|s.endpoints|);
    assert VideoIds(videos) == DenseIds(|sizes|);
    DenseLookup(|s.endpoints|, re);
    DenseLookup(|sizes|, rv);
  }

  /** Coherence depends only on the endpoints' ids and links. */
  lemma CoherentSameLinks(before: seq<Endpoint>, after: seq<Endpoint>, attached: seq<seq<nat>>, n: nat)
    requires Coherent(before, attached, n) && |after| == |before|
    requires forall i :: 0 <= i < |before| ==> after[i].id == before[i].id && after[i].links == before[i].links
    ensures Coherent(after, attached, n)
  {
  }

  /** A request row changes only one request list, by appending a request
      for one of `videos`. */
  lemma RequestRowKeeps(rows: seq<seq<int>>, videos: seq<Video>, s: Loading)
    requires RequestsFrom(s.endpoints, videos)
    ensures RequestRow(rows, videos, s).Ok? ==>
              var next := RequestRow(rows, videos, s).value;
              |next.endpoints| == |s.endpoints| && RequestsFrom(next.endpoints, videos)
              && forall i :: 0 <= i < |s.endpoints| ==>
                   next.endpoints[i].id == s.endpoints[i].id && next.endpoints[i].links == s.endpoints[i].links
  {
    if s.pos < |rows| && |rows[s.pos]| == 3 {
      var rv, re, rn := rows[s.pos][0], rows[s.pos][1], rows[s.pos][2];
      var e := IndexOfId(EndpointIds(s.endpoints), re);
      var w := IndexOfId(VideoIds(videos), rv);
      if e.Some? && w.Some? {
        var before := s.endpoints[e.value].requests;
        var requests := before + [Request(videos[w.value], rn)];
        var next := RequestRow(rows, videos, s).value;
        assert next.endpoints == s.endpoints[e.value := s.endpoints[e.value].(requests := requests)];
        forall i, k | 0 <= i < |next.endpoints| && 0 <= k < |next.endpoints[i].requests|
          ensures next.endpoints[i].requests[k].video in videos
        {
          if i == e.value && k < |before| {
            assert requests[k] == before[k];
          }
        }
      }
    }
  }

  /** Request rows change only request lists, and only by appending
      requests for listed videos. */
  lemma {:induction false} ReadRequestsCoherent(rows: seq<seq<int>>, j: nat, count: nat, videos: seq<Video>, s: Loading)
    requires Coherent(s.endpoints, s.attached, |s.attached|) && RequestsFrom(s.endpoints, videos)
    ensures ReadRequests(rows, j, count, videos, s).Ok? ==>
              var done := ReadRequests(rows, j, count, videos, s).value;
              |done.endpoints| == |s.endpoints| && Coherent(done.endpoints, done.attached, |s.attached|)
              && RequestsFrom(done.endpoints, videos)
    decreases count - j
  {
    if j < count {
      RequestRowKeeps(rows, videos, s);
      var next := RequestRow(rows, videos, s);
      if next.Ok? {
        CoherentSameLinks(s.endpoints, next.value.endpoints, s.attached, |s.attached|);
        ReadRequestsCoherent(rows, j + 1, count, videos, next.value);
      }
    }
  }

  /** A successful load has C cache servers of capacity X, video i of the
      i-th size, E endpoints with ids 0 .. E-1, every link to one of the
      cache servers with no cache twice per endpoint, each cache server's
      endpoint list naming exactly the endpoints linked to it, and every
      request asking for one of the videos. */
  lemma ReadTopologySpec(rows: seq<seq<int>>)
    requires ReadTopology(rows).Ok?
    ensures |rows| >= 2 && |rows[0]| == 5
    ensures var p := ReadTopology(rows).value;
            p.caches == Count(rows[0][3]) && p.x == rows[0][4] && p.videos == MakeVideos(rows[1])
            && |p.endpoints| == Count(rows[0][1])
            && Coherent(p.endpoints, p.attached, p.caches)
            && RequestsFrom(p.endpoints, p.videos)
  {
    var e, c := rows[0][1], rows[0][3];
    var start := Loading(2, [], seq(Count(c), _ => []));
    assert Coherent(start.endpoints, start.attached, Count(c));
    ReadEndpointsCoherent(rows, 0, Count(e), start);
    var afterEndpoints := ReadEndpoints(rows, 0, Count(e), start).value;
    assert RequestsFrom(afterEndpoints.endpoints, MakeVideos(rows[1]));
    ReadRequestsCoherent(rows, 0, Count(rows[0][2]), MakeVideos(rows[1]), afterEndpoints);
  }

  // ---------------------------------------------------------------------
  // The loader, step by step

  /** The loader's state and outcome are those the spec function gives: the
      same error, or the same next row and the same endpoints and cache
      server endpoint lists. */
  ghost predicate Follows(t: Topology, outcome: Result<nat>, spec: Result<Loading>)
    reads t, t.attached
  {
    match spec
    case Err(err) => outcome == Err(err)
    case Ok(s) => outcome == Ok(s.pos) && t.endpoints == s.endpoints && t.attached[..] == s.attached
  }

  /** One link row of endpoint `e`, at row `pos`. */
  method LoadLink(t: Topology, rows: seq<seq<int>>, pos: nat, e: nat) returns (outcome: Result<nat>)
    requires t.Valid() && e < |t.endpoints|
    modifies t, t.attached
    ensures t.Valid()
    ensures t.videos == old(t.videos) && |t.endpoints| == old(|t.endpoints|)
    ensures Follows(t, outcome, LinkRow(rows, e, Loading(pos, old(t.endpoints), old(t.attached[..]))))
  {
    if pos >= |rows| || |rows[pos]| != 2 {
      return Err(Malformed(pos));
    }
    var c, latency := rows[pos][0], rows[pos][1];
    var found := IndexOfId(DenseIds(t.attached.Length), c);
    if found.None? {
      return Err(NoCacheserver(c));
    }
    t.AddCacheserver(e, found.value, latency);
    outcome := Ok(pos + 1);
  }

  /** The `k` link rows of endpoint `e`, starting at row `pos`. */
  method LoadLinks(t: Topology, rows: seq<seq<int>>, pos: nat, k: nat, e: nat) returns (outcome: Result<nat>)
    requires t.Valid() && e < |t.endpoints|
    modifies t, t.attached
    ensures t.Valid()
    ensures t.videos == old(t.videos) && |t.endpoints| == old(|t.endpoints|)
    ensures Follows(t, outcome, ReadLinks(rows, k, e, Loading(pos, old(t.endpoints), old(t.attached[..]))))
  {
    ghost var goal := ReadLinks(rows, k, e, Loading(pos, t.endpoints, t.attached[..]));
    var at: nat := pos;
    for j := 0 to k
      invariant t.Valid() && e < |t.endpoints|
      invariant t.videos == old(t.videos) && |t.endpoints| == old(|t.endpoints|)
      invariant ReadLinks(rows, k - j, e, Loading(at, t.endpoints, t.attached[..])) == goal
    {
      ghost var step := LinkRow(rows, e, Loading(at, t.endpoints, t.attached[..]));
      var linked := LoadLink(t, rows, at, e);
      if linked.Err? {
        return Err(linked.error);
      }
      assert step == Ok(Loading(linked.value, t.endpoints, t.attached[..]));
      at := linked.value;
    }
    outcome := Ok(at);
  }

  /** One endpoint block, at row `pos`; the new endpoint gets id `i`. */
  method LoadEndpoint(t: Topology, rows: seq<seq<int>>, pos: nat, i: nat) returns (outcome: Result<nat>)
    requires t.Valid()
    modifies t, t.attached
    ensures t.Valid()
    ensures t.videos == old(t.videos)
    ensures Follows(t, outcome, EndpointBlock(rows, i, Loading(pos, old(t.endpoints), old(t.attached[..]))))
  {
    if pos >= |rows| || |rows[pos]| != 2 {
      return Err(Malformed(pos));
    }
    var latencyDatacenter, k := rows[pos][0], rows[pos][1];
    var e := |t.endpoints|;
    t.AddEndpoint(i, latencyDatacenter);
    outcome := LoadLinks(t, rows, pos + 1, Count(k), e);
  }

  /** The `count` endpoint blocks, starting at row `pos`. */
  method LoadEndpoints(t: Topology, rows: seq<seq<int>>, pos: nat, count: nat) returns (outcome: Result<nat>)
    requires t.Valid()
    modifies t, t.attached
    ensures t.Valid()
    ensures t.videos == old(t.videos)
    ensures Follows(t, outcome, ReadEndpoints(rows, 0, count, Loading(pos, old(t.endpoints), old(t.attached[..]))))
  {
    ghost var goal := ReadEndpoints(rows, 0, count, Loading(pos, t.endpoints, t.attached[..]));
    var at: nat := pos;
    for i := 0 to count
      invariant t.Valid()
      invariant t.videos == old(t.videos)
      invariant ReadEndpoints(rows, i, count, Loading(at, t.endpoints, t.attached[..])) == goal
    {
      var block := LoadEndpoint(t, rows, at, i);
      if block.Err? {
        return Err(block.error);
      }
      at := block.value;
    }
    outcome := Ok(at);
  }

  /** One request row, at row `pos`. */
  method LoadRequest(t: Topology, rows: seq<seq<int>>, pos: nat) returns (outcome: Result<nat>)
    requires t.Valid()
    modifies t
    ensures t.Valid()
    ensures t.videos == old(t.videos)
    ensures match RequestRow(rows, t.videos, Loading(pos, old(t.endpoints), t.attached[..]))
            case Err(err) => outcome == Err(err)
            case Ok(s) => outcome == Ok(s.pos) && t.endpoints == s.endpoints
  {
    if pos >= |rows| || |rows[pos]| != 3 {
      return Err(Malformed(pos));
    }
    var rv, re, rn := rows[pos][0], rows[pos][1], rows[pos][2];
    var e := IndexOfId(EndpointIds(t.endpoints), re);
    if e.None? {
      return Err(NoEndpoint(re));
    }
    var w := IndexOfId(VideoIds(t.videos), rv);
    if w.None? {
      return Err(NoVideo(rv));
    }
    t.AddRequest(e.value, Request(t.videos[w.value], rn));
    outcome := Ok(pos + 1);
  }

  /** The `count` request rows, starting at row `pos`. */
  method LoadRequests(t: Topology, rows: seq<seq<int>>, pos: nat, count: nat) returns (outcome: Result<nat>)
    requires t.Valid()
    modifies t
    ensures t.Valid()
    ensures t.videos == old(t.videos)
    ensures match ReadRequests(rows, 0, count, t.videos, Loading(pos, old(t.endpoints), t.attached[..]))
            case Err(err) => outcome == Err(err)
            case Ok(s) => outcome == Ok(s.pos) && t.endpoints == s.endpoints
  {
    ghost var goal := ReadRequests(rows, 0, count, t.videos, Loading(pos, t.endpoints, t.attached[..]));
    var at: nat := pos;
    for j := 0 to count
      invariant t.Valid()
      invariant t.videos == old(t.videos)
      invariant ReadRequests(rows, j, count, t.videos, Loading(at, t.endpoints, t.attached[..])) == goal
    {
      var next := LoadRequest(t, rows, at);
      if next.Err? {
        return Err(next.error);
      }
      at := next.value;
    }
    outcome := Ok(at);
  }

  /** Video i of size `sizes[i]`, for each size in turn. */
  method LoadVideos(sizes: seq<int>) returns (videos: seq<Video>)
    ensures videos == MakeVideos(sizes)
  {
    videos := [];
    for i := 0 to |sizes|
      invariant |videos| == i && forall k :: 0 <= k < i ==> videos[k] == Video(k, sizes[k])
    {
      videos := videos + [Video(i, sizes[i])];
    }
  }

  /** The endpoint blocks, then the request rows, into `t`. */
  method LoadEndpointsAndRequests(t: Topology, rows: seq<seq<int>>, endpointCount: nat, requestCount: nat)
    returns (outcome: Result<nat>)
    requires t.Valid()
    modifies t, t.attached
    ensures t.Valid() && t.videos == old(t.videos)
    ensures match Finish(rows, ReadEndpoints(rows, 0, endpointCount, Loading(2, old(t.endpoints), old(t.attached[..]))),
                         requestCount, t.capacity.Length, 0, t.videos)
            case Err(err) => outcome == Err(err)
            case Ok(p) => outcome.Ok? && t.endpoints == p.endpoints && t.attached[..] == p.attached
  {
    var afterEndpoints := LoadEndpoints(t, rows, 2, endpointCount);
    if afterEndpoints.Err? {
      return Err(afterEndpoints.error);
    }
    outcome := LoadRequests(t, rows, afterEndpoints.value, requestCount);
  }

  /** `parse_input`: the topology the rows describe, or the error that stops
      the load, exactly as ReadTopology computes it. */
  method Load(rows: seq<seq<int>>) returns (r: Result<Topology>)
    ensures ReadTopology(rows).Err? ==> r == Err(ReadTopology(rows).error)
    ensures ReadTopology(rows).Ok? ==>
              r.Ok? && fresh(r.value) && fresh(r.value.capacity) && fresh(r.value.held)
              && r.value.Valid() && Describes(r.value, ReadTopology(rows).value)
  {
    if |rows| < 1 || |rows[0]| != 5 {
      return Err(Malformed(0));
    }
    var e, rq, c, x := rows[0][1], rows[0][2], rows[0][3], rows[0][4];
    var t := new Topology(Count(c), x);
    if |rows| < 2 || |rows[1]| == 0 {
      return Err(Malformed(1));
    }
    var videos := LoadVideos(rows[1]);
    t.videos := videos;
    ghost var start := Loading(2, [], seq(Count(c), _ => []));
    assert t.attached[..] == start.attached;
    ghost var afterEndpoints := ReadEndpoints(rows, 0, Count(e), start);
    var outcome := LoadEndpointsAndRequests(t, rows, Count(e), Count(rq));
    assert ReadTopology(rows) == Finish(rows, afterEndpoints, Count(rq), Count(c), x, videos);
    if outcome.Err? {
      return Err(outcome.error);
    }
    r := Ok(t);
  }

  /** The object holds exactly the parsed topology, with every cache server
      still empty at capacity X. */
  ghost predicate Describes(t: Topology, p: Parsed)
    reads t, t.capacity, t.held, t.attached
  {
    t.capacity.Length == p.caches && t.Snapshot() == Placement.Fresh(p.caches, p.x)
    && t.attached[..] == p.attached && t.videos == p.videos && t.endpoints == p.endpoints
  }
}
