// The state of one solver run: the cache servers (capacity, videos held and
// the endpoints attached to each, indexed by cache id), the videos and the
// endpoints, with the mutators the loader uses, the placement `algo2` and
// the rows of the result.

module Caching {
  import opened Entities
  import opened Placement
  import opened Emit

  class Topology {
    /** Remaining capacity of each cache server. */
    const capacity: array<int>
    /** Videos held by each cache server, in placement order. */
    const held: array<seq<Video>>
    /** Endpoints attached to each cache server (the back-references). */
    const attached: array<seq<nat>>
    var videos: seq<Video>
    var endpoints: seq<Endpoint>

    ghost predicate Valid()
      reads this
    {
      capacity.Length == held.Length == attached.Length
      && LinksWithin(endpoints, capacity.Length)
    }

    /** The cache servers' mutable state as a value. */
    function Snapshot(): (st: Store)
      reads this, capacity, held
      ensures |st.capacity| == capacity.Length && |st.held| == held.Length
    {
      Store(capacity[..], held[..])
    }

    /** `n` cache servers with ids 0 .. n-1, each of capacity `x`, holding
        nothing and attached to no endpoint; no videos, no endpoints. */
    constructor (n: nat, x: int)
      ensures Valid() && fresh(capacity) && fresh(held) && fresh(attached)
      ensures capacity.Length == n && Snapshot() == Fresh(n, x)
      ensures attached[..] == seq(n, _ => []) && videos == [] && endpoints == []
    {
      capacity := new int[n](_ => x);
      held := new seq<Video>[n](_ => []);
      attached := new seq<nat>[n](_ => []);
      videos := [];
      endpoints := [];
    }

    /** `CacheServer.add_video`: append `v` to cache `c` and subtract its
        size from `c`'s capacity; nothing else changes. */
    method AddVideo(c: nat, v: Video)
      requires Valid() && c < capacity.Length
      modifies capacity, held
      ensures Valid()
      ensures Snapshot() == WithVideo(old(Snapshot()), c, v)
      ensures attached[..] == old(attached[..])
    {
      capacity[c] := capacity[c] - v.mb;
      held[c] := held[c] + [v];
    }

    /** A new endpoint with id `id`, no links and no requests, appended. */
    method AddEndpoint(id: nat, latencyDatacenter: int)
      requires Valid()
      modifies this
      ensures Valid()
      ensures endpoints == old(endpoints) + [Endpoint(id, latencyDatacenter, [], [])]
      ensures videos == old(videos)
    {
      endpoints := endpoints + [Endpoint(id, latencyDatacenter, [], [])];
    }

    /** `Endpoint.add_cacheserver`: record `latency` for cache `c` in
        endpoint `e`'s dictionary and attach `e` to `c`. */
    method AddCacheserver(e: nat, c: nat, latency: int)
      requires Valid() && e < |endpoints| && c < attached.Length
      modifies this, attached
      ensures Valid()
      ensures endpoints == old(endpoints)[e := old(endpoints[e]).(links := SetLatency(old(endpoints[e].links), c, latency))]
      ensures attached[..] == old(attached[..])[c := old(attached[c]) + [e]]
      ensures videos == old(videos)
    {
      var ep := endpoints[e];
      AddLinkWithin(endpoints, capacity.Length, e, c, latency);
      endpoints := endpoints[e := ep.(links := SetLatency(ep.links, c, latency))];
      attached[c] := attached[c] + [e];
    }

    /** `endpoint.requests.append(request)` for endpoint `e`. */
    method AddRequest(e: nat, r: Request)
      requires Valid() && e < |endpoints|
      modifies this
      ensures Valid()
      ensures endpoints == old(endpoints)[e := old(endpoints[e]).(requests := old(endpoints[e].requests) + [r])]
      ensures videos == old(videos)
    {
      endpoints := endpoints[e := endpoints[e].(requests := endpoints[e].requests + [r])];
    }

    /** Every requested video, endpoint by endpoint, request by request. */
    method CollectVideos() returns (vs: seq<Video>)
      ensures vs == RequestedVideos(endpoints)
    {
      vs := [];
      var i := 0;
      while i < |endpoints|
        invariant 0 <= i <= |endpoints|
        invariant vs == RequestedVideos(endpoints[..i])
      {
        var requests := endpoints[i].requests;
        var j := 0;
        while j < |requests|
          invariant 0 <= j <= |requests|
          invariant vs == RequestedVideos(endpoints[..i]) + VideosOf(requests[..j])
        {
          assert requests[..j + 1][..j] == requests[..j];
          vs := vs + [requests[j].video];
          j := j + 1;
        }
        assert requests[..j] == requests;
        assert endpoints[..i + 1][..i] == endpoints[..i];
        i := i + 1;
      }
      assert endpoints[..i] == endpoints;
    }

    /** `sum_demand` for `v`: the quantities of all requests for `v`. */
    method SumDemand(v: Video) returns (sum: int)
      ensures sum == Demand(endpoints, v)
    {
      sum := 0;
      var i := 0;
      while i < |endpoints|
        invariant 0 <= i <= |endpoints|
        invariant sum == Demand(endpoints[..i], v)
      {
        var requests := endpoints[i].requests;
        var j := 0;
        while j < |requests|
          invariant 0 <= j <= |requests|
          invariant sum == Demand(endpoints[..i], v) + QuantitySum(requests[..j], v)
        {
          assert requests[..j + 1][..j] == requests[..j];
          if requests[j].video == v {
            sum := sum + requests[j].quantity;
          }
          j := j + 1;
        }
        assert requests[..j] == requests;
        assert endpoints[..i + 1][..i] == endpoints[..i];
        i := i + 1;
      }
      assert endpoints[..i] == endpoints;
    }

    /** The scan over one endpoint's links for `w`: the cache of the link
        Scan selects, or nothing. */
    method SelectCache(links: seq<Link>, w: Want) returns (selected: Option<nat>)
      requires Valid() && LinksFit(links, Snapshot())
      ensures selected == match Scan(links, Snapshot(), w).selected
                          case None => None
                          case Some(i) => Some(links[i].cache)
    {
      ghost var st := Snapshot();
      var minLatency := Sentinel;
      selected := None;
      ghost var position: Option<nat> := None;
      var i := 0;
      while i < |links|
        invariant 0 <= i <= |links|
        invariant LinksFit(links[..i], st)
        invariant Scan(links[..i], st, w) == Pick(minLatency, position)
        invariant selected == match position case None => None case Some(k) => Some(links[k].cache)
      {
        assert links[..i + 1][..i] == links[..i];
        assert LinksFit(links[..i + 1], st);
        var cache := links[i].cache;
        if w.video !in held[cache] {
          var currentLatency := w.factor * links[i].latency;
          if capacity[cache] >= w.need {
            if currentLatency <= minLatency {
              selected := Some(cache);
              position := Some(i);
              minLatency := currentLatency;
            }
          }
        }
        i := i + 1;
      }
      assert links[..i] == links;
    }

    /** One video's turn: every endpoint that requests `v`, in order, adds
        `v` to the cache its scan selects. */
    method PlaceVideo(v: Video)
      requires Valid()
      modifies capacity, held
      ensures Valid()
      ensures Snapshot() == VisitEndpoints(endpoints, old(Snapshot()), v)
    {
      ghost var st := Snapshot();
      FitsAll(endpoints, st);
      var i := 0;
      while i < |endpoints|
        invariant 0 <= i <= |endpoints|
        invariant Valid()
        invariant AllLinksFit(endpoints[..i], st)
        invariant Snapshot() == VisitEndpoints(endpoints[..i], st, v)
      {
        assert endpoints[..i + 1][..i] == endpoints[..i];
        assert AllLinksFit(endpoints[..i + 1], st);
        var e := endpoints[i];
        FitsAll(endpoints, Snapshot());
        if HasVideo(e.requests, v) {
          var selected := SelectCache(e.links, ForVideo(v));
          if selected.Some? {
            AddVideo(selected.value, v);
          }
        }
        i := i + 1;
      }
      assert endpoints[..i] == endpoints;
    }

    /** The map from total demand to video, and the demands in list order. */
    method KeyVideos(vs: seq<Video>) returns (weights: map<int, Video>, demands: seq<int>)
      ensures weights == WeightMap(vs, endpoints)
      ensures demands == Demands(vs, endpoints)
    {
      weights := map[];
      demands := [];
      for k := 0 to |vs|
        invariant weights == WeightMap(vs[..k], endpoints)
        invariant demands == Demands(vs[..k], endpoints)
      {
        assert vs[..k + 1][..k] == vs[..k];
        var sum := SumDemand(vs[k]);
        weights := weights[sum := vs[k]];
        demands := demands + [sum];
      }
      assert vs[..|vs|] == vs;
    }

    /** The outer placement loop over the keys, in the given order. */
    method PlaceAll(keys: seq<int>, weights: map<int, Video>)
      requires Valid()
      requires forall i :: 0 <= i < |keys| ==> keys[i] in weights
      modifies capacity, held
      ensures Valid()
      ensures Snapshot() == PlaceKeys(keys, weights, endpoints, old(Snapshot()))
    {
      ghost var st := Snapshot();
      FitsAll(endpoints, st);
      for k := 0 to |keys|
        invariant Valid()
        invariant Snapshot() == PlaceKeys(keys[..k], weights, endpoints, st)
      {
        assert keys[..k + 1][..k] == keys[..k];
        PlaceVideo(weights[keys[k]]);
      }
      assert keys[..|keys|] == keys;
    }

    /** `algo2`: key every requested video by its total demand (a later video
        with the same total replaces an earlier one), then visit the keys
        from the largest down, placing each key's video. */
    method Algo2()
      requires Valid()
      modifies capacity, held
      ensures Valid()
      ensures Snapshot() == Placement.Algo2(endpoints, old(Snapshot()))
    {
      FitsAll(endpoints, Snapshot());
      var vs := CollectVideos();
      var weights, demands := KeyVideos(vs);
      AlgoKeys(vs, endpoints);
      var keys := SortDescending(demands);
      PlaceAll(keys, weights);
    }

    /** The requests of one endpoint with links `links`, in `algo1`. */
    method PlaceRequests(links: seq<Link>, requests: seq<Request>)
      requires Valid() && LinksFit(links, Snapshot())
      modifies capacity, held
      ensures Valid()
      ensures Snapshot() == VisitRequests(links, requests, old(Snapshot()))
    {
      ghost var st := Snapshot();
      for j := 0 to |requests|
        invariant Valid() && LinksFit(links, Snapshot())
        invariant Snapshot() == VisitRequests(links, requests[..j], st)
      {
        assert requests[..j + 1][..j] == requests[..j];
        var request := requests[j];
        var selected := SelectCache(links, ForRequest(request));
        if selected.Some? {
          AddVideo(selected.value, request.video);
        }
      }
      assert requests[..|requests|] == requests;
    }

    /** `algo1`: for every request of every endpoint, the linked cache
        without the video, with room for the request's weight and of least
        quantity times latency (the last of equals) gets the video. */
    method Algo1()
      requires Valid()
      modifies capacity, held
      ensures Valid()
      ensures Snapshot() == Placement.Algo1(endpoints, old(Snapshot()))
    {
      ghost var st := Snapshot();
      FitsAll(endpoints, st);
      for i := 0 to |endpoints|
        invariant Valid()
        invariant Snapshot() == Placement.Algo1(endpoints[..i], st)
      {
        assert endpoints[..i + 1][..i] == endpoints[..i];
        FitsAll(endpoints, Snapshot());
        assert Placement.Algo1(endpoints[..i + 1], st)
            == VisitRequests(endpoints[i].links, endpoints[i].requests, Placement.Algo1(endpoints[..i], st));
        PlaceRequests(endpoints[i].links, endpoints[i].requests);
      }
      assert endpoints[..|endpoints|] == endpoints;
    }

    /** `cacheservers_with_videos`: the caches holding a video, in cache order. */
    method WithVideos() returns (ids: seq<nat>)
      ensures ids == NonEmpty(held[..])
    {
      ids := [];
      for c := 0 to held.Length
        invariant ids == NonEmpty(held[..c])
      {
        assert held[..c + 1][..c] == held[..c];
        if |held[c]| > 0 {
          ids := ids + [c];
        }
      }
      assert held[..held.Length] == held[..];
    }

    /** The ids of the videos cache `c` holds, in placement order. */
    method HeldIds(c: nat) returns (ids: seq<int>)
      requires c < held.Length
      ensures ids == VideoIds(held[c])
    {
      var vs := held[c];
      ids := [];
      for j := 0 to |vs|
        invariant ids == VideoIds(vs[..j])
      {
        assert vs[..j + 1][..j] == vs[..j];
        ids := ids + [vs[j].id];
      }
      assert vs[..|vs|] == vs;
    }

    /** `output`, without the file: the rows of the result. */
    method Output() returns (rows: seq<seq<int>>)
      ensures rows == Emitted(held[..])
    {
      ghost var all := held[..];
      var withVideos := WithVideos();
      NonEmptySpec(all);
      var listed: seq<seq<int>> := [];
      for k := 0 to |withVideos|
        invariant listed == Rows(withVideos[..k], all)
      {
        var c := withVideos[k];
        var ids := HeldIds(c);
        RowsSnoc(withVideos, all, k);
        listed := listed + [[c] + ids];
      }
      assert withVideos[..|withVideos|] == withVideos;
      rows := [[|withVideos|]] + listed;
    }
  }

  /** The links of endpoints within the cache range fit any store of that size. */
  lemma FitsAll(endpoints: seq<Endpoint>, st: Store)
    requires LinksWithin(endpoints, |st.capacity|) && |st.capacity| == |st.held|
    ensures AllLinksFit(endpoints, st)
  {
  }
}
