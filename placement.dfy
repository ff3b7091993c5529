// The greedy placement heuristic (`algo2`) as functions over an explicit
// snapshot of the cache servers, and what is proved about it: how the
// per-video keys are formed, the order they are visited in, which cache an
// endpoint picks, and the capacity and no-duplicate invariants.

module Placement {
  import opened Entities

  /** The starting value of `min_latency`: a latency above it is never chosen. */
  const Sentinel: int := 9999999999

  /** The mutable part of the cache servers, indexed by cache id: remaining
      capacity and the videos held, in placement order. */
  datatype Store = Store(capacity: seq<int>, held: seq<seq<Video>>)

  predicate Shaped(st: Store, n: nat)
  {
    |st.capacity| == n && |st.held| == n
  }

  /** `CacheServer.add_video`: append the video and subtract its size. */
  function WithVideo(st: Store, c: nat, v: Video): (r: Store)
    requires c < |st.capacity| && c < |st.held|
    ensures |r.capacity| == |st.capacity| && |r.held| == |st.held|
  {
    Store(st.capacity[c := st.capacity[c] - v.mb], st.held[c := st.held[c] + [v]])
  }

  // ---------------------------------------------------------------------
  // Step 1: the videos and their keys

  /** The videos of a request list, in order. */
  function VideosOf(requests: seq<Request>): (vs: seq<Video>)
    ensures |vs| == |requests| && forall i :: 0 <= i < |requests| ==> vs[i] == requests[i].video
  {
    if requests == [] then []
    else VideosOf(requests[..|requests| - 1]) + [requests[|requests| - 1].video]
  }

  /** Every requested video, endpoint by endpoint, request by request
      (duplicates kept). */
  function RequestedVideos(endpoints: seq<Endpoint>): seq<Video>
  {
    if endpoints == [] then []
    else RequestedVideos(endpoints[..|endpoints| - 1]) + VideosOf(endpoints[|endpoints| - 1].requests)
  }

  /** Sum of the quantities of the requests for `v` in one request list. */
  function QuantitySum(requests: seq<Request>, v: Video): int
  {
    if requests == [] then 0
    else
      var last := requests[|requests| - 1];
      QuantitySum(requests[..|requests| - 1], v) + (if last.video == v then last.quantity else 0)
  }

  /** `sum_demand`: the total quantity requested for `v` over all endpoints. */
  function Demand(endpoints: seq<Endpoint>, v: Video): int
  {
    if endpoints == [] then 0
    else Demand(endpoints[..|endpoints| - 1], v) + QuantitySum(endpoints[|endpoints| - 1].requests, v)
  }

  /** `videos_weight`: for each listed video in turn, map its demand to it,
      overwriting whatever video had the same demand before. */
  function WeightMap(vs: seq<Video>, endpoints: seq<Endpoint>): map<int, Video>
  {
    if vs == [] then map[]
    else WeightMap(vs[..|vs| - 1], endpoints)[Demand(endpoints, vs[|vs| - 1]) := vs[|vs| - 1]]
  }

  // ---------------------------------------------------------------------
  // Step 2: keys in descending order

  /** The demand of each listed video, in list order. */
  function Demands(vs: seq<Video>, endpoints: seq<Endpoint>): (ds: seq<int>)
    ensures |ds| == |vs|
  {
    if vs == [] then [] else Demands(vs[..|vs| - 1], endpoints) + [Demand(endpoints, vs[|vs| - 1])]
  }

  predicate StrictlyDescending(ks: seq<int>)
  {
    forall i, j :: 0 <= i < j < |ks| ==> ks[i] > ks[j]
  }

  /** Insert `k` into a strictly descending list, unless it is already there. */
  function InsertDescending(ks: seq<int>, k: int): (r: seq<int>)
    requires StrictlyDescending(ks)
    ensures StrictlyDescending(r)
    ensures forall x :: x in r <==> x in ks || x == k
  {
    if ks == [] then [k]
    else if k > ks[0] then [k] + ks
    else if k == ks[0] then ks
    else
      var rest := InsertDescending(ks[1..], k);
      assert forall x :: x in ks <==> x == ks[0] || x in ks[1..] by {
        assert ks == [ks[0]] + ks[1..];
      }
      assert forall i :: 0 <= i < |rest| ==> rest[i] < ks[0] by {
        forall i | 0 <= i < |rest| ensures rest[i] < ks[0] {
          assert rest[i] in rest;
          if rest[i] != k {
            var j :| 0 <= j < |ks[1..]| && ks[1..][j] == rest[i];
            assert ks[j + 1] == rest[i];
          }
        }
      }
      var r := [ks[0]] + rest;
      assert forall i :: 1 <= i < |r| ==> r[i] == rest[i - 1];
      r
  }

  /** `reversed(sorted(keys))`: the distinct values of `ks`, largest first,
      so each value exactly once. */
  function SortDescending(ks: seq<int>): (r: seq<int>)
    ensures StrictlyDescending(r)
    ensures forall k :: k in r <==> k in ks
  {
    if ks == [] then []
    else
      var n := |ks| - 1;
      assert ks == ks[..n] + [ks[n]];
      InsertDescending(SortDescending(ks[..n]), ks[n])
  }

  // ---------------------------------------------------------------------
  // Step 3: the cache an endpoint picks for a video

  /** What a scan over an endpoint's links looks for: a cache without
      `video` that has at least `need` left, ranked by `factor` times the
      link's latency. */
  datatype Want = Want(video: Video, need: int, factor: int)

  /** `algo2` asks for room for the video's size and ranks by plain latency. */
  function ForVideo(v: Video): Want
  {
    Want(v, v.mb, 1)
  }

  /** `algo1` asks for room for the request's weight and ranks by quantity
      times latency. */
  function ForRequest(r: Request): Want
  {
    Want(r.video, Weight(r), r.quantity)
  }

  /** `current_latency` of a link. */
  function Cost(l: Link, w: Want): int
  {
    w.factor * l.latency
  }

  /** A link the scan may select: its cache does not hold the video yet and
      has at least the needed room left. */
  predicate Eligible(l: Link, st: Store, w: Want)
    requires l.cache < |st.capacity| && l.cache < |st.held|
  {
    w.video !in st.held[l.cache] && st.capacity[l.cache] >= w.need
  }

  predicate LinksFit(links: seq<Link>, st: Store)
  {
    forall i :: 0 <= i < |links| ==> links[i].cache < |st.capacity| && links[i].cache < |st.held|
  }

  /** State of the scan over an endpoint's links: `min_latency` and the
      position of the selected link. */
  datatype Pick = Pick(minLatency: int, selected: Option<nat>)

  /** The scan over the links in dictionary order: an eligible link whose
      cost is at most the current minimum becomes the selection. */
  function Scan(links: seq<Link>, st: Store, w: Want): (p: Pick)
    requires LinksFit(links, st)
    ensures p.selected.Some? ==> p.selected.value < |links|
  {
    if links == [] then Pick(Sentinel, None)
    else
      var p := Scan(links[..|links| - 1], st, w);
      var l := links[|links| - 1];
      if Eligible(l, st, w) && Cost(l, w) <= p.minLatency then Pick(Cost(l, w), Some(|links| - 1))
      else p
  }

  /** Link `i` is the one the scan is meant to pick: eligible, within the
      sentinel, of minimal cost among eligible links, and the last one of
      that cost. */
  predicate IsChoice(links: seq<Link>, st: Store, w: Want, i: int)
    requires LinksFit(links, st)
  {
    0 <= i < |links| && Eligible(links[i], st, w) && Cost(links[i], w) <= Sentinel
    && (forall j :: 0 <= j < |links| && Eligible(links[j], st, w) ==> Cost(links[i], w) <= Cost(links[j], w))
    && (forall j :: i < j < |links| && Eligible(links[j], st, w) ==> Cost(links[i], w) < Cost(links[j], w))
  }

  /** The scan selects exactly the link that IsChoice describes, and selects
      nothing exactly when every eligible link costs more than the sentinel. */
  lemma {:induction false} ScanIsArgmin(links: seq<Link>, st: Store, w: Want)
    requires LinksFit(links, st)
    ensures forall i :: Scan(links, st, w).selected == Some(i) <==> IsChoice(links, st, w, i)
    ensures Scan(links, st, w).selected.None? <==>
              forall j :: 0 <= j < |links| && Eligible(links[j], st, w) ==> Cost(links[j], w) > Sentinel
  {
    ScanMinimum(links, st, w);
    var p := Scan(links, st, w);
    forall i ensures p.selected == Some(i) <==> IsChoice(links, st, w, i) {
      if IsChoice(links, st, w, i) {
        assert p.selected.Some? by {
          assert Cost(links[i], w) <= Sentinel;
        }
      }
    }
  }

  /** The invariant of the scan: `min_latency` is the least of the sentinel
      and the costs of the eligible links seen, and the selection is the
      last eligible link of that cost. */
  lemma ScanMinimum(links: seq<Link>, st: Store, w: Want)
    requires LinksFit(links, st)
    ensures Scan(links, st, w).minLatency <= Sentinel
    ensures forall j :: 0 <= j < |links| && Eligible(links[j], st, w) ==> Scan(links, st, w).minLatency <= Cost(links[j], w)
    ensures Scan(links, st, w).selected.None? ==>
              Scan(links, st, w).minLatency == Sentinel
              && forall j :: 0 <= j < |links| && Eligible(links[j], st, w) ==> Cost(links[j], w) > Sentinel
    ensures Scan(links, st, w).selected.Some? ==>
              IsChoice(links, st, w, Scan(links, st, w).selected.value)
              && Scan(links, st, w).minLatency == Cost(links[Scan(links, st, w).selected.value], w)
  {
    ScanSteps(links, st, w);
  }

  /** What each step of the scan keeps: the bound on `min_latency`, that the
      selection is eligible and sets `min_latency`, and that every later
      eligible link costs more. */
  lemma {:induction false} ScanSteps(links: seq<Link>, st: Store, w: Want)
    requires LinksFit(links, st)
    ensures Scan(links, st, w).minLatency <= Sentinel
    ensures forall j :: 0 <= j < |links| && Eligible(links[j], st, w) ==> Scan(links, st, w).minLatency <= Cost(links[j], w)
    ensures Scan(links, st, w).selected.None? ==>
              Scan(links, st, w).minLatency == Sentinel
              && forall j :: 0 <= j < |links| && Eligible(links[j], st, w) ==> Cost(links[j], w) > Sentinel
    ensures Scan(links, st, w).selected.Some? ==>
              var k := Scan(links, st, w).selected.value;
              Eligible(links[k], st, w) && Scan(links, st, w).minLatency == Cost(links[k], w)
              && forall j :: k < j < |links| && Eligible(links[j], st, w) ==> Cost(links[j], w) > Cost(links[k], w)
  {
    if links != [] {
      var n := |links| - 1;
      var prefix := links[..n];
      assert LinksFit(prefix, st);
      ScanSteps(prefix, st, w);
      assert forall j :: 0 <= j < n ==> links[j] == prefix[j];
    }
  }

  /** One endpoint's turn for video `v`: when it requests `v` and the scan
      selects a link, add `v` to that link's cache. */
  function EndpointStep(e: Endpoint, st: Store, v: Video): (r: Store)
    requires LinksFit(e.links, st)
    ensures |r.capacity| == |st.capacity| && |r.held| == |st.held|
  {
    if !HasVideo(e.requests, v) then st
    else
      match Scan(e.links, st, ForVideo(v)).selected
      case None => st
      case Some(i) => WithVideo(st, e.links[i].cache, v)
  }

  /** An endpoint's turn changes the store only by adding `v` to the cache of
      the link IsChoice describes, and only when the endpoint requests `v`;
      when no link is eligible within the sentinel, nothing changes. */
  lemma EndpointStepSpec(e: Endpoint, st: Store, v: Video)
    requires LinksFit(e.links, st)
    ensures EndpointStep(e, st, v) == st
            || (HasVideo(e.requests, v)
                && exists i :: IsChoice(e.links, st, ForVideo(v), i) && EndpointStep(e, st, v) == WithVideo(st, e.links[i].cache, v))
    ensures (!HasVideo(e.requests, v)
             || forall j :: 0 <= j < |e.links| && Eligible(e.links[j], st, ForVideo(v)) ==> e.links[j].latency > Sentinel)
            ==> EndpointStep(e, st, v) == st
    ensures (HasVideo(e.requests, v)
             && exists j :: 0 <= j < |e.links| && Eligible(e.links[j], st, ForVideo(v)) && e.links[j].latency <= Sentinel)
            ==> exists i :: IsChoice(e.links, st, ForVideo(v), i) && EndpointStep(e, st, v) == WithVideo(st, e.links[i].cache, v)
  {
    ScanIsArgmin(e.links, st, ForVideo(v));
    var p := Scan(e.links, st, ForVideo(v));
    if HasVideo(e.requests, v) && p.selected.Some? {
      assert IsChoice(e.links, st, ForVideo(v), p.selected.value);
    }
  }

  predicate AllLinksFit(endpoints: seq<Endpoint>, st: Store)
  {
    forall e :: 0 <= e < |endpoints| ==> LinksFit(endpoints[e].links, st)
  }

  /** The endpoint loop for one video. */
  function VisitEndpoints(endpoints: seq<Endpoint>, st: Store, v: Video): (r: Store)
    requires AllLinksFit(endpoints, st)
    ensures |r.capacity| == |st.capacity| && |r.held| == |st.held|
  {
    if endpoints == [] then st
    else
      var n := |endpoints| - 1;
      var mid := VisitEndpoints(endpoints[..n], st, v);
      assert LinksFit(endpoints[n].links, mid);
      EndpointStep(endpoints[n], mid, v)
  }

  /** The outer loop: each key in turn, placing the video the map holds for it. */
  function PlaceKeys(keys: seq<int>, weights: map<int, Video>, endpoints: seq<Endpoint>, st: Store): (r: Store)
    requires forall i :: 0 <= i < |keys| ==> keys[i] in weights
    requires AllLinksFit(endpoints, st)
    ensures |r.capacity| == |st.capacity| && |r.held| == |st.held|
  {
    if keys == [] then st
    else
      var n := |keys| - 1;
      var mid := PlaceKeys(keys[..n], weights, endpoints, st);
      assert AllLinksFit(endpoints, mid);
      VisitEndpoints(endpoints, mid, weights[keys[n]])
  }

  /** `algo2`: the final store, from the endpoints and the initial store. */
  function Algo2(endpoints: seq<Endpoint>, st: Store): (r: Store)
    requires AllLinksFit(endpoints, st)
    ensures |r.capacity| == |st.capacity| && |r.held| == |st.held|
  {
    var vs := RequestedVideos(endpoints);
    var weights := WeightMap(vs, endpoints);
    var keys := SortDescending(Demands(vs, endpoints));
    AlgoKeys(vs, endpoints);
    PlaceKeys(keys, weights, endpoints, st)
  }

  /** The keys visited are exactly the keys of the map, in strictly
      descending order, each once. */
  lemma AlgoKeys(vs: seq<Video>, endpoints: seq<Endpoint>)
    ensures StrictlyDescending(SortDescending(Demands(vs, endpoints)))
    ensures forall k :: k in SortDescending(Demands(vs, endpoints)) <==> k in WeightMap(vs, endpoints)
  {
    DemandsAreKeys(vs, endpoints);
  }

  lemma {:induction false} DemandsAreKeys(vs: seq<Video>, endpoints: seq<Endpoint>)
    ensures forall k :: k in Demands(vs, endpoints) <==> k in WeightMap(vs, endpoints)
  {
    if vs != [] {
      DemandsAreKeys(vs[..|vs| - 1], endpoints);
    }
  }

  // ---------------------------------------------------------------------
  // algo1, the earlier heuristic: request by request, in endpoint order

  /** One request's turn: the scan for room for the request's weight, ranked
      by quantity times latency; the selected link's cache gets the video. */
  function RequestStep(links: seq<Link>, r: Request, st: Store): (res: Store)
    requires LinksFit(links, st)
    ensures |res.capacity| == |st.capacity| && |res.held| == |st.held|
  {
    match Scan(links, st, ForRequest(r)).selected
    case None => st
    case Some(i) => WithVideo(st, links[i].cache, r.video)
  }

  /** The requests of one endpoint, in list order. */
  function VisitRequests(links: seq<Link>, requests: seq<Request>, st: Store): (res: Store)
    requires LinksFit(links, st)
    ensures |res.capacity| == |st.capacity| && |res.held| == |st.held|
  {
    if requests == [] then st
    else
      var n := |requests| - 1;
      var mid := VisitRequests(links, requests[..n], st);
      assert LinksFit(links, mid);
      RequestStep(links, requests[n], mid)
  }

  /** `algo1`: every endpoint in turn, every request of it in turn. */
  function Algo1(endpoints: seq<Endpoint>, st: Store): (res: Store)
    requires AllLinksFit(endpoints, st)
    ensures |res.capacity| == |st.capacity| && |res.held| == |st.held|
  {
    if endpoints == [] then st
    else
      var n := |endpoints| - 1;
      var mid := Algo1(endpoints[..n], st);
      assert LinksFit(endpoints[n].links, mid);
      VisitRequests(endpoints[n].links, endpoints[n].requests, mid)
  }

  /** A request's turn adds its video to the cache of the link IsChoice
      describes for the request's weight and cost, or changes nothing; it
      changes nothing when every eligible link costs more than the sentinel. */
  lemma RequestStepSpec(links: seq<Link>, r: Request, st: Store)
    requires LinksFit(links, st)
    ensures RequestStep(links, r, st) == st
            || exists i :: IsChoice(links, st, ForRequest(r), i) && RequestStep(links, r, st) == WithVideo(st, links[i].cache, r.video)
    ensures (forall j :: 0 <= j < |links| && Eligible(links[j], st, ForRequest(r)) ==> Cost(links[j], ForRequest(r)) > Sentinel)
            ==> RequestStep(links, r, st) == st
    ensures (exists j :: 0 <= j < |links| && Eligible(links[j], st, ForRequest(r)) && Cost(links[j], ForRequest(r)) <= Sentinel)
            ==> exists i :: IsChoice(links, st, ForRequest(r), i) && RequestStep(links, r, st) == WithVideo(st, links[i].cache, r.video)
  {
    ScanIsArgmin(links, st, ForRequest(r));
    var p := Scan(links, st, ForRequest(r));
    if p.selected.Some? {
      assert IsChoice(links, st, ForRequest(r), p.selected.value);
    }
  }

  /** Every request asks for at least one copy of its video. */
  predicate CountedRequests(endpoints: seq<Endpoint>)
  {
    forall e, j :: 0 <= e < |endpoints| && 0 <= j < |endpoints[e].requests| ==>
      endpoints[e].requests[j].quantity >= 1
  }

  lemma RequestStepConsistent(links: seq<Link>, r: Request, st: Store, x: int)
    requires LinksFit(links, st) && Consistent(st, x)
    requires r.quantity >= 1
    ensures Consistent(RequestStep(links, r, st), x)
  {
    ScanMinimum(links, st, ForRequest(r));
    var p := Scan(links, st, ForRequest(r));
    if p.selected.Some? {
      // A negative size fits any cache, whose capacity is never negative.
      assert r.video.mb >= 0 ==> Weight(r) >= r.video.mb;
      WithVideoConsistent(st, x, links[p.selected.value].cache, r.video);
    }
  }

  lemma {:induction false} VisitRequestsConsistent(links: seq<Link>, requests: seq<Request>, st: Store, x: int)
    requires LinksFit(links, st) && Consistent(st, x)
    requires forall j :: 0 <= j < |requests| ==> requests[j].quantity >= 1
    ensures Consistent(VisitRequests(links, requests, st), x)
  {
    if requests != [] {
      var n := |requests| - 1;
      VisitRequestsConsistent(links, requests[..n], st, x);
      RequestStepConsistent(links, requests[n], VisitRequests(links, requests[..n], st), x);
    }
  }

  lemma {:induction false} Algo1StepsConsistent(endpoints: seq<Endpoint>, st: Store, x: int)
    requires AllLinksFit(endpoints, st) && Consistent(st, x) && CountedRequests(endpoints)
    ensures Consistent(Algo1(endpoints, st), x)
  {
    if endpoints != [] {
      var n := |endpoints| - 1;
      assert AllLinksFit(endpoints[..n], st) && CountedRequests(endpoints[..n]);
      Algo1StepsConsistent(endpoints[..n], st, x);
      var mid := Algo1(endpoints[..n], st);
      VisitRequestsConsistent(endpoints[n].links, endpoints[n].requests, mid, x);
    }
  }

  /** From cache servers of capacity `x >= 0`, when every request counts at
      least one copy of its video, `algo1` never overfills a cache and never
      puts a video twice on one cache. */
  lemma Algo1Consistent(endpoints: seq<Endpoint>, n: nat, x: int)
    requires x >= 0 && LinksWithin(endpoints, n) && CountedRequests(endpoints)
    ensures Consistent(Algo1(endpoints, Fresh(n, x)), x)
  {
    FreshConsistent(n, x);
    Algo1StepsConsistent(endpoints, Fresh(n, x), x);
  }

  /** `algo1` checks room for the weight but subtracts the size: a request
      with quantity 0 has weight 0, so a full cache still takes its video and
      its capacity drops below zero. */
  lemma Algo1ZeroQuantityOverfills()
    ensures var endpoints := [Endpoint(0, 1000, [Link(0, 100)], [Request(Video(0, 10), 0)])];
            Algo1(endpoints, Fresh(1, 0)) == Store([-10], [[Video(0, 10)]])
  {
    var endpoints := [Endpoint(0, 1000, [Link(0, 100)], [Request(Video(0, 10), 0)])];
    var st := Fresh(1, 0);
    var links := endpoints[0].links;
    assert endpoints[..0] == [];
    assert endpoints[0].requests[..0] == [];
    assert links[..0] == [];
    var r := Request(Video(0, 10), 0);
    assert st == Store([0], [[]]);
    assert Scan(links, st, ForRequest(r)).selected == Some(0);
    assert WithVideo(st, 0, r.video) == Store([-10], [[Video(0, 10)]]) by {
      assert [0][0 := -10] == [-10];
      var none: seq<Video> := [];
      assert none + [r.video] == [r.video];
      assert [none][0 := none + [r.video]] == [[r.video]];
    }
    assert RequestStep(links, r, st) == Store([-10], [[Video(0, 10)]]);
    assert VisitRequests(links, [r], st) == Store([-10], [[Video(0, 10)]]);
    assert Algo1(endpoints[..0], st) == st;
  }

  // ---------------------------------------------------------------------
  // The keys

  /** The requested videos are exactly the videos of some endpoint's request. */
  lemma {:induction false} RequestedVideosSpec(endpoints: seq<Endpoint>, v: Video)
    ensures v in RequestedVideos(endpoints) <==> exists e :: 0 <= e < |endpoints| && HasVideo(endpoints[e].requests, v)
  {
    if endpoints != [] {
      var n := |endpoints| - 1;
      RequestedVideosSpec(endpoints[..n], v);
      assert forall e :: 0 <= e < n ==> endpoints[..n][e] == endpoints[e];
      VideosOfSpec(endpoints[n].requests, v);
    }
  }

  /** A video is among a request list's videos exactly when the list has a
      request for it. */
  lemma VideosOfSpec(requests: seq<Request>, v: Video)
    ensures v in VideosOf(requests) <==> HasVideo(requests, v)
  {
    var vs := VideosOf(requests);
    if v in vs {
      var i :| 0 <= i < |vs| && vs[i] == v;
      assert requests[i].video == v;
    }
    if HasVideo(requests, v) {
      var i :| 0 <= i < |requests| && requests[i].video == v;
      assert vs[i] == v;
    }
  }

  /** The map holds a key exactly when some listed video has that demand, and
      the video it holds for the key is the LAST listed video with that
      demand: an earlier video with equal demand is overwritten. */
  lemma {:induction false} WeightMapSpec(vs: seq<Video>, endpoints: seq<Endpoint>, k: int)
    ensures k in WeightMap(vs, endpoints) <==> exists i :: 0 <= i < |vs| && Demand(endpoints, vs[i]) == k
    ensures k in WeightMap(vs, endpoints) ==>
              exists i :: 0 <= i < |vs| && vs[i] == WeightMap(vs, endpoints)[k] && Demand(endpoints, vs[i]) == k
                          && forall j :: i < j < |vs| ==> Demand(endpoints, vs[j]) != k
  {
    if vs != [] {
      var n := |vs| - 1;
      WeightMapSpec(vs[..n], endpoints, k);
      assert forall i :: 0 <= i < n ==> vs[..n][i] == vs[i];
      var m := WeightMap(vs, endpoints);
      if Demand(endpoints, vs[n]) == k {
        assert m[k] == vs[n];
      } else if k in WeightMap(vs[..n], endpoints) {
        var i :| 0 <= i < n && vs[..n][i] == WeightMap(vs[..n], endpoints)[k] && Demand(endpoints, vs[..n][i]) == k
                 && forall j :: i < j < n ==> Demand(endpoints, vs[..n][j]) != k;
        assert vs[i] == m[k];
      }
    }
  }

  /** Two different videos with equal demand: only the one requested later
      keeps a key, so the other is never placed. */
  lemma EqualDemandDropsVideo()
    ensures var a, b := Video(0, 10), Video(1, 20);
            var endpoints := [Endpoint(0, 1000, [Link(0, 100)], [Request(a, 5), Request(b, 5)])];
            WeightMap(RequestedVideos(endpoints), endpoints) == map[5 := b]
  {
    var a, b := Video(0, 10), Video(1, 20);
    var endpoints := [Endpoint(0, 1000, [Link(0, 100)], [Request(a, 5), Request(b, 5)])];
    var reqs := endpoints[0].requests;
    assert reqs[..1] == [Request(a, 5)];
    assert reqs[..1][..0] == [];
    assert VideosOf(reqs) == [a, b];
    assert endpoints[..0] == [];
    assert RequestedVideos(endpoints) == [a, b];
    assert QuantitySum(reqs[..1], a) == 5;
    assert QuantitySum(reqs[..1], b) == 0;
    assert QuantitySum(reqs, a) == 5;
    assert QuantitySum(reqs, b) == 5;
    assert Demand(endpoints, a) == 5;
    assert Demand(endpoints, b) == 5;
    assert [a, b][..1] == [a];
    assert [a][..0] == [];
    assert WeightMap([a], endpoints) == map[5 := a];
  }

  /** Demand is additive over a split of the endpoint list, so it does not
      depend on how the requests are grouped into endpoints. */
  lemma {:induction false} DemandAppend(left: seq<Endpoint>, right: seq<Endpoint>, v: Video)
    ensures Demand(left + right, v) == Demand(left, v) + Demand(right, v)
    decreases |right|
  {
    if right != [] {
      var n := |right| - 1;
      assert (left + right)[..|left + right| - 1] == left + right[..n];
      DemandAppend(left, right[..n], v);
    } else {
      assert left + right == left;
    }
  }

  /** Quantity sums add up over a split of the request list. */
  lemma {:induction false} QuantitySumAppend(left: seq<Request>, right: seq<Request>, v: Video)
    ensures QuantitySum(left + right, v) == QuantitySum(left, v) + QuantitySum(right, v)
    decreases |right|
  {
    if right == [] {
      assert left + right == left;
    } else {
      var n := |right| - 1;
      assert (left + right)[..|left + right| - 1] == left + right[..n];
      QuantitySumAppend(left, right[..n], v);
    }
  }

  /** The quantity sum of a request list does not depend on the order of
      its requests. */
  lemma {:induction false} QuantitySumPermutation(a: seq<Request>, b: seq<Request>, v: Video)
    requires multiset(a) == multiset(b)
    ensures QuantitySum(a, v) == QuantitySum(b, v)
    decreases |a|
  {
    if a == [] {
      assert |multiset(b)| == 0;
    } else {
      var n := |a| - 1;
      var x := a[n];
      assert a == a[..n] + [x];
      assert x in multiset(b);
      var i :| 0 <= i < |b| && b[i] == x;
      assert b == b[..i] + [x] + b[i + 1..];
      var rest := b[..i] + b[i + 1..];
      assert multiset(rest) == multiset(b) - multiset{x};
      assert multiset(a[..n]) == multiset(a) - multiset{x};
      QuantitySumPermutation(a[..n], rest, v);
      QuantitySumAppend(b[..i] + [x], b[i + 1..], v);
      QuantitySumAppend(b[..i], [x], v);
      QuantitySumAppend(b[..i], b[i + 1..], v);
      assert [x][..0] == [];
    }
  }

  // ---------------------------------------------------------------------
  // The capacity invariant and no duplicates

  /** Sum of the sizes of a list of videos. */
  function SizeSum(vs: seq<Video>): int
  {
    if vs == [] then 0 else SizeSum(vs[..|vs| - 1]) + vs[|vs| - 1].mb
  }

  predicate NoDuplicates(vs: seq<Video>)
  {
    forall i, j :: 0 <= i < j < |vs| ==> vs[i] != vs[j]
  }

  /** Every cache started with capacity `x`: its remaining capacity is not
      negative, the sizes it holds add up to what it has used, and it holds
      no video twice. */
  predicate Consistent(st: Store, x: int)
  {
    |st.capacity| == |st.held|
    && forall c :: 0 <= c < |st.held| ==>
         st.capacity[c] >= 0 && st.capacity[c] + SizeSum(st.held[c]) == x && NoDuplicates(st.held[c])
  }

  /** The cache servers as created: all of capacity `x`, all empty. */
  function Fresh(n: nat, x: int): (st: Store)
    ensures Shaped(st, n)
  {
    Store(seq(n, _ => x), seq(n, _ => []))
  }

  lemma FreshConsistent(n: nat, x: int)
    requires x >= 0
    ensures Consistent(Fresh(n, x), x)
  {
    var st := Fresh(n, x);
    forall c | 0 <= c < n ensures st.capacity[c] + SizeSum(st.held[c]) == x {
      assert st.held[c] == [];
    }
  }

  /** Adding a video the cache does not hold and has room for keeps the
      store consistent. */
  lemma WithVideoConsistent(st: Store, x: int, c: nat, v: Video)
    requires Consistent(st, x) && c < |st.held|
    requires v !in st.held[c] && st.capacity[c] >= v.mb
    ensures Consistent(WithVideo(st, c, v), x)
  {
    var r := WithVideo(st, c, v);
    var vs := st.held[c] + [v];
    assert vs[..|vs| - 1] == st.held[c];
    assert SizeSum(vs) == SizeSum(st.held[c]) + v.mb;
    assert NoDuplicates(vs) by {
      forall i, j | 0 <= i < j < |vs| ensures vs[i] != vs[j] {
        if j == |vs| - 1 {
          assert vs[i] in st.held[c];
        }
      }
    }
  }

  lemma EndpointStepConsistent(e: Endpoint, st: Store, x: int, v: Video)
    requires LinksFit(e.links, st) && Consistent(st, x)
    ensures Consistent(EndpointStep(e, st, v), x)
  {
    if HasVideo(e.requests, v) {
      ScanMinimum(e.links, st, ForVideo(v));
      var p := Scan(e.links, st, ForVideo(v));
      if p.selected.Some? {
        var i := p.selected.value;
        WithVideoConsistent(st, x, e.links[i].cache, v);
      }
    }
  }

  lemma {:induction false} VisitEndpointsConsistent(endpoints: seq<Endpoint>, st: Store, x: int, v: Video)
    requires AllLinksFit(endpoints, st) && Consistent(st, x)
    ensures Consistent(VisitEndpoints(endpoints, st, v), x)
  {
    if endpoints != [] {
      var n := |endpoints| - 1;
      assert AllLinksFit(endpoints[..n], st);
      VisitEndpointsConsistent(endpoints[..n], st, x, v);
      var mid := VisitEndpoints(endpoints[..n], st, v);
      EndpointStepConsistent(endpoints[n], mid, x, v);
    }
  }

  lemma {:induction false} PlaceKeysConsistent(keys: seq<int>, weights: map<int, Video>, endpoints: seq<Endpoint>, st: Store, x: int)
    requires forall i :: 0 <= i < |keys| ==> keys[i] in weights
    requires AllLinksFit(endpoints, st) && Consistent(st, x)
    ensures Consistent(PlaceKeys(keys, weights, endpoints, st), x)
  {
    if keys != [] {
      var n := |keys| - 1;
      PlaceKeysConsistent(keys[..n], weights, endpoints, st, x);
      var mid := PlaceKeys(keys[..n], weights, endpoints, st);
      VisitEndpointsConsistent(endpoints, mid, x, weights[keys[n]]);
    }
  }

  /** From cache servers that all start with capacity `x >= 0`, the placement
      never overfills a cache (the sizes it holds add up to at most `x`),
      and never puts a video twice on one cache. */
  lemma Algo2Consistent(endpoints: seq<Endpoint>, n: nat, x: int)
    requires x >= 0 && LinksWithin(endpoints, n)
    ensures Consistent(Algo2(endpoints, Fresh(n, x)), x)
    ensures forall c :: 0 <= c < n ==> SizeSum(Algo2(endpoints, Fresh(n, x)).held[c]) <= x
  {
    var st := Fresh(n, x);
    FreshConsistent(n, x);
    var vs := RequestedVideos(endpoints);
    AlgoKeys(vs, endpoints);
    PlaceKeysConsistent(SortDescending(Demands(vs, endpoints)), WeightMap(vs, endpoints), endpoints, st, x);
  }

  // ---------------------------------------------------------------------
  // Placements are never undone

  predicate Extends(before: Store, after: Store)
  {
    |before.held| == |after.held|
    && forall c :: 0 <= c < |before.held| ==> before.held[c] <= after.held[c]
  }

  lemma {:induction false} VisitEndpointsExtends(endpoints: seq<Endpoint>, st: Store, v: Video)
    requires AllLinksFit(endpoints, st)
    ensures Extends(st, VisitEndpoints(endpoints, st, v))
  {
    if endpoints != [] {
      var n := |endpoints| - 1;
      assert AllLinksFit(endpoints[..n], st);
      VisitEndpointsExtends(endpoints[..n], st, v);
    }
  }

  /** Every cache's list only grows by appending: a placement is never
      revisited, moved or undone. */
  lemma {:induction false} PlaceKeysExtends(keys: seq<int>, weights: map<int, Video>, endpoints: seq<Endpoint>, st: Store)
    requires forall i :: 0 <= i < |keys| ==> keys[i] in weights
    requires AllLinksFit(endpoints, st)
    ensures Extends(st, PlaceKeys(keys, weights, endpoints, st))
  {
    if keys != [] {
      var n := |keys| - 1;
      PlaceKeysExtends(keys[..n], weights, endpoints, st);
      var mid := PlaceKeys(keys[..n], weights, endpoints, st);
      VisitEndpointsExtends(endpoints, mid, weights[keys[n]]);
    }
  }
}
