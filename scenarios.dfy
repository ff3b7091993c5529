// Concrete runs: input rows to the rows of the result.

module Scenarios {
  import opened Entities
  import opened Placement
  import opened Emit
  import opened Loader
  import opened Solver

  /** The endpoint block of the one-endpoint input links endpoint 0 to cache 0. */
  lemma OneLinkLoaded(rows: seq<seq<int>>)
    requires rows == [[1, 1, 1, 1, 100], [100], [1000, 1], [0, 10], [0, 0, 1]]
    ensures var none: seq<nat> := [];
            ReadEndpoints(rows, 0, 1, Loading(2, [], [none])) == Ok(Loading(4, [Endpoint(0, 1000, [Link(0, 10)], [])], [[0]]))
  {
    var none: seq<nat> := [];
    var start := Loading(2, [], [none]);
    var opened1 := Loading(3, [Endpoint(0, 1000, [], [])], [none]);
    DenseLookup(1, 0);
    assert SetLatency([], 0, 10) == [Link(0, 10)];
    var zero: seq<nat> := [0];
    assert none + [0] == zero;
    assert [none][0 := none + [0]] == [zero];
    var linked := Loading(4, [Endpoint(0, 1000, [Link(0, 10)], [])], [zero]);
    assert [Endpoint(0, 1000, [], [])][0 := Endpoint(0, 1000, [], []).(links := [Link(0, 10)])] == linked.endpoints;
    assert LinkRow(rows, 0, opened1) == Ok(linked);
    assert ReadLinks(rows, 0, 0, linked) == Ok(linked);
    assert ReadLinks(rows, 1, 0, opened1) == Ok(linked);
    var empty: seq<Endpoint> := [];
    assert empty + [Endpoint(0, 1000, [], [])] == opened1.endpoints;
    assert EndpointBlock(rows, 0, start) == Ok(linked);
  }

  /** The request row of the one-endpoint input appends one request for video 0. */
  lemma OneRequestLoaded(rows: seq<seq<int>>)
    requires rows == [[1, 1, 1, 1, 100], [100], [1000, 1], [0, 10], [0, 0, 1]]
    ensures var zero: seq<nat> := [0];
            ReadRequests(rows, 0, 1, [Video(0, 100)], Loading(4, [Endpoint(0, 1000, [Link(0, 10)], [])], [zero]))
              == Ok(Loading(5, [Endpoint(0, 1000, [Link(0, 10)], [Request(Video(0, 100), 1)])], [zero]))
  {
    var v := Video(0, 100);
    var zero: seq<nat> := [0];
    var linked := Loading(4, [Endpoint(0, 1000, [Link(0, 10)], [])], [zero]);
    var videos := [v];
    assert EndpointIds(linked.endpoints) == [0];
    assert VideoIds(videos) == [0];
    var e := Endpoint(0, 1000, [Link(0, 10)], [Request(v, 1)]);
    var done := Loading(5, [e], [zero]);
    var noRequests: seq<Request> := [];
    assert noRequests + [Request(videos[0], 1)] == [Request(v, 1)];
    assert linked.endpoints[0 := linked.endpoints[0].(requests := noRequests + [Request(videos[0], 1)])] == [e];
    assert RequestRow(rows, videos, linked) == Ok(done);
  }

  /** One video of size 100, one cache server of capacity 100, one endpoint
      linked to it requesting the video once: the load gives that topology. */
  lemma OnePlacementLoaded(rows: seq<seq<int>>)
    requires rows == [[1, 1, 1, 1, 100], [100], [1000, 1], [0, 10], [0, 0, 1]]
    ensures ReadTopology(rows) == Ok(Parsed(1, 100, [Video(0, 100)], [Endpoint(0, 1000, [Link(0, 10)], [Request(Video(0, 100), 1)])], [[0]]))
  {
    var none: seq<nat> := [];
    assert seq(Count(1), _ => none) == [none];
    assert MakeVideos([100]) == [Video(0, 100)];
    OneLinkLoaded(rows);
    OneRequestLoaded(rows);
  }

  /** The one request gives video 0 the key 1. */
  lemma OneVideoKeyed(e: Endpoint)
    requires e == Endpoint(0, 1000, [Link(0, 10)], [Request(Video(0, 100), 1)])
    ensures RequestedVideos([e]) == [Video(0, 100)]
    ensures WeightMap([Video(0, 100)], [e]) == map[1 := Video(0, 100)]
    ensures SortDescending(Demands([Video(0, 100)], [e])) == [1]
  {
    var v := Video(0, 100);
    assert [e][..0] == [];
    assert e.requests[..0] == [];
    assert QuantitySum(e.requests, v) == 1;
    assert Demand([e], v) == 1;
    assert Demands([v], [e]) == [1];
  }

  /** Visiting key 1 puts video 0 on cache 0. */
  lemma OneVideoPlaced(e: Endpoint)
    requires e == Endpoint(0, 1000, [Link(0, 10)], [Request(Video(0, 100), 1)])
    ensures AllLinksFit([e], Fresh(1, 100))
    ensures PlaceKeys([1], map[1 := Video(0, 100)], [e], Fresh(1, 100)) == Store([0], [[Video(0, 100)]])
  {
    var v := Video(0, 100);
    var st := Fresh(1, 100);
    assert st == Store([100], [[]]);
    assert Scan([Link(0, 10)], st, ForVideo(v)).selected == Some(0);
    var none: seq<Video> := [];
    assert none + [v] == [v];
    assert [none][0 := none + [v]] == [[v]];
    assert [100][0 := 100 - 100] == [0];
    assert EndpointStep(e, st, v) == Store([0], [[v]]);
    assert VisitEndpoints([e], st, v) == Store([0], [[v]]);
  }

  /** `algo2` on the one-endpoint topology puts video 0 on cache 0. */
  lemma OneVideoAlgo2(e: Endpoint)
    requires e == Endpoint(0, 1000, [Link(0, 10)], [Request(Video(0, 100), 1)])
    ensures AllLinksFit([e], Fresh(1, 100))
    ensures Placement.Algo2([e], Fresh(1, 100)) == Store([0], [[Video(0, 100)]])
  {
    OneVideoKeyed(e);
    OneVideoPlaced(e);
  }

  /** Cache 0 holding video 0 is written as `1`, then `0 0`. */
  lemma OneVideoEmitted()
    ensures Emitted([[Video(0, 100)]]) == [[1], [0, 0]]
  {
    var held := [[Video(0, 100)]];
    var none: seq<seq<Video>> := [];
    assert held[..0] == none;
    assert NonEmpty(held) == NonEmpty(none) + [0];
    var ids: seq<nat> := [0];
    assert NonEmpty(held) == ids;
    var row := Row(0, held);
    assert held[0][..0] == [];
    assert VideoIds(held[0]) == [0];
    assert row == [0, 0];
    assert ids[..0] == [];
    assert Rows(ids, held) == Rows([], held) + [row];
    assert Emitted(held) == [[1]] + Rows(ids, held);
  }

  /** One video of size 100, one cache server of capacity 100 and one
      endpoint linked to it requesting the video once: the result is `1`,
      then `0 0`. */
  lemma OnePlacement(rows: seq<seq<int>>)
    requires rows == [[1, 1, 1, 1, 100], [100], [1000, 1], [0, 10], [0, 0, 1]]
    ensures Solve(rows) == Ok([[1], [0, 0]])
  {
    var e := Endpoint(0, 1000, [Link(0, 10)], [Request(Video(0, 100), 1)]);
    OnePlacementLoaded(rows);
    OneVideoAlgo2(e);
    OneVideoEmitted();
  }

  /** The one request gives the video of size 150 the key 1. */
  lemma TooLargeKeyed(e: Endpoint)
    requires e == Endpoint(0, 1000, [Link(0, 10)], [Request(Video(0, 150), 1)])
    ensures RequestedVideos([e]) == [Video(0, 150)]
    ensures WeightMap([Video(0, 150)], [e]) == map[1 := Video(0, 150)]
    ensures SortDescending(Demands([Video(0, 150)], [e])) == [1]
  {
    var v := Video(0, 150);
    assert [e][..0] == [];
    assert e.requests[..0] == [];
    assert QuantitySum(e.requests, v) == 1;
    assert Demand([e], v) == 1;
    assert Demands([v], [e]) == [1];
  }

  /** One video of size 150 and one cache server of capacity 100: the video
      gets a key but no room, so the result is `0` and nothing else. */
  lemma NoRoom(e: Endpoint)
    requires e == Endpoint(0, 1000, [Link(0, 10)], [Request(Video(0, 150), 1)])
    ensures AllLinksFit([e], Fresh(1, 100))
    ensures Placement.Algo2([e], Fresh(1, 100)) == Fresh(1, 100)
    ensures Emitted(Placement.Algo2([e], Fresh(1, 100)).held) == [[0]]
  {
    var v := Video(0, 150);
    var st := Fresh(1, 100);
    assert st == Store([100], [[]]);
    TooLargeKeyed(e);
    assert Scan([Link(0, 10)], st, ForVideo(v)).selected == None;
    assert VisitEndpoints([e], st, v) == st;
    assert [1][..0] == [];
    assert PlaceKeys([1], map[1 := v], [e], st) == st;
    assert NonEmpty(st.held) == [];
  }

  /** Two endpoints linked to the same cache both request the same video:
      the first one places it, the second finds the cache already holding
      it, so the cache holds the video exactly once. */
  lemma SharedCache(e0: Endpoint, e1: Endpoint)
    requires e0 == Endpoint(0, 1000, [Link(0, 10)], [Request(Video(0, 100), 1)])
    requires e1 == Endpoint(1, 1000, [Link(0, 20)], [Request(Video(0, 100), 1)])
    ensures AllLinksFit([e0, e1], Fresh(1, 500))
    ensures Placement.Algo2([e0, e1], Fresh(1, 500)) == Store([400], [[Video(0, 100)]])
  {
    var v := Video(0, 100);
    var st := Fresh(1, 500);
    SharedCacheKeyed(e0, e1);
    SharedCacheVisited(e0, e1);
    assert [2][..0] == [];
    assert PlaceKeys([2], map[2 := v], [e0, e1], st) == Store([400], [[v]]);
  }

  /** The first endpoint places the video on the shared cache; the second
      finds it there and changes nothing. */
  lemma SharedCacheVisited(e0: Endpoint, e1: Endpoint)
    requires e0 == Endpoint(0, 1000, [Link(0, 10)], [Request(Video(0, 100), 1)])
    requires e1 == Endpoint(1, 1000, [Link(0, 20)], [Request(Video(0, 100), 1)])
    ensures AllLinksFit([e0, e1], Fresh(1, 500))
    ensures VisitEndpoints([e0, e1], Fresh(1, 500), Video(0, 100)) == Store([400], [[Video(0, 100)]])
  {
    var v := Video(0, 100);
    var st := Fresh(1, 500);
    var endpoints := [e0, e1];
    assert st == Store([500], [[]]);
    var placed := Store([400], [[v]]);
    assert Scan([Link(0, 10)], st, ForVideo(v)).selected == Some(0);
    var none: seq<Video> := [];
    assert none + [v] == [v];
    assert [none][0 := none + [v]] == [[v]];
    assert [500][0 := 500 - 100] == [400];
    assert EndpointStep(e0, st, v) == placed;
    assert endpoints[..1] == [e0];
    assert [e0][..0] == [];
    assert VisitEndpoints([e0], st, v) == placed;
    assert Scan([Link(0, 20)], placed, ForVideo(v)).selected == None;
    assert EndpointStep(e1, placed, v) == placed;
  }

  /** Each endpoint requests the video once: its demand is 2. */
  lemma SharedCacheDemand(e0: Endpoint, e1: Endpoint)
    requires e0 == Endpoint(0, 1000, [Link(0, 10)], [Request(Video(0, 100), 1)])
    requires e1 == Endpoint(1, 1000, [Link(0, 20)], [Request(Video(0, 100), 1)])
    ensures RequestedVideos([e0, e1]) == [Video(0, 100), Video(0, 100)]
    ensures Demand([e0, e1], Video(0, 100)) == 2
  {
    var v := Video(0, 100);
    OneRequestFor(e0);
    OneRequestFor(e1);
    assert [e0, e1][..1] == [e0];
    assert [e0][..0] == [];
    assert RequestedVideos([e0]) == [v];
    assert Demand([e0], v) == 1;
    assert RequestedVideos([e0, e1]) == RequestedVideos([e0]) + VideosOf(e1.requests);
    assert Demand([e0, e1], v) == Demand([e0], v) + QuantitySum(e1.requests, v);
  }

  /** An endpoint with the one request `Request(Video(0, 100), 1)`. */
  lemma OneRequestFor(e: Endpoint)
    requires e.requests == [Request(Video(0, 100), 1)]
    ensures QuantitySum(e.requests, Video(0, 100)) == 1
    ensures VideosOf(e.requests) == [Video(0, 100)]
  {
    assert e.requests[..0] == [];
  }

  /** Both requests are for the same video: one key, 2, for it. */
  lemma SharedCacheKeyed(e0: Endpoint, e1: Endpoint)
    requires e0 == Endpoint(0, 1000, [Link(0, 10)], [Request(Video(0, 100), 1)])
    requires e1 == Endpoint(1, 1000, [Link(0, 20)], [Request(Video(0, 100), 1)])
    ensures RequestedVideos([e0, e1]) == [Video(0, 100), Video(0, 100)]
    ensures WeightMap([Video(0, 100), Video(0, 100)], [e0, e1]) == map[2 := Video(0, 100)]
    ensures SortDescending(Demands([Video(0, 100), Video(0, 100)], [e0, e1])) == [2]
  {
    var v := Video(0, 100);
    var endpoints := [e0, e1];
    SharedCacheDemand(e0, e1);
    assert [v, v][..1] == [v];
    assert [v][..0] == [];
    assert Demands([v], endpoints) == [2];
    assert Demands([v, v], endpoints) == [2, 2];
    assert [2, 2][..1] == [2];
    assert [2][..0] == [];
    assert SortDescending([2]) == [2];
    assert WeightMap([v], endpoints) == map[2 := v];
  }
  /** Requests for one video with quantities 3 and 5 at one endpoint and 2 at
      another give it demand 10, also when one endpoint's requests come in
      another order. */
  lemma DemandOfThree(v: Video, w: Video, e0: Endpoint, e1: Endpoint)
    requires v != w
    requires e0 == Endpoint(0, 1000, [], [Request(v, 3), Request(w, 7), Request(v, 5)])
    requires e1 == Endpoint(1, 1000, [], [Request(v, 2)])
    ensures Demand([e0, e1], v) == 10
    ensures Demand([e0.(requests := [Request(v, 5), Request(v, 3), Request(w, 7)]), e1], v) == 10
  {
    var one, two := [Request(v, 3)], [Request(v, 3), Request(w, 7)];
    assert one[..0] == [];
    assert QuantitySum(one, v) == 3;
    assert two[..1] == one;
    assert QuantitySum(two, v) == 3;
    assert e0.requests[..2] == two;
    assert QuantitySum(e0.requests, v) == 8;
    assert e1.requests[..0] == [];
    assert QuantitySum(e1.requests, v) == 2;
    assert [e0][..0] == [];
    assert Demand([e0], v) == 8;
    assert [e0, e1][..1] == [e0];
    var reordered := [Request(v, 5), Request(v, 3), Request(w, 7)];
    assert multiset(reordered) == multiset(e0.requests);
    QuantitySumPermutation(reordered, e0.requests, v);
    var e0r := e0.(requests := reordered);
    assert [e0r][..0] == [];
    assert Demand([e0r], v) == 8;
    assert [e0r, e1][..1] == [e0r];
  }

}
