// The entity graph of the cache-placement solver: videos, requests,
// endpoints and their links to cache servers, each identified by its dense
// integer id, together with the read-only queries the solver asks of them.

module Entities {

  datatype Option<T> = None | Some(value: T)

  /** A video. There is exactly one video per id, so two videos are the same
      object exactly when they are equal values. */
  datatype Video = Video(id: nat, mb: int)

  /** A request record: `quantity` requests of `video` from one endpoint. */
  datatype Request = Request(video: Video, quantity: int)

  /** One entry of an endpoint's cache-server dictionary: the cache server
      (by id) and the latency from the endpoint to it. */
  datatype Link = Link(cache: nat, latency: int)

  /** An endpoint. `links` is its cache-server dictionary in insertion order
      (no cache appears twice); `requests` is its request list. */
  datatype Endpoint = Endpoint(id: nat, latencyDatacenter: int, links: seq<Link>, requests: seq<Request>)

  /** The weight of a request: the video's size times the request count.
      Room for the weight of at least one copy of a video of non-negative
      size is room for the video; a request for no copy weighs nothing. */
  function Weight(r: Request): (w: int)
    ensures r.quantity >= 1 && r.video.mb >= 0 ==> w >= r.video.mb
    ensures r.quantity == 0 ==> w == 0
  {
    assert r.video.mb * r.quantity == r.video.mb + r.video.mb * (r.quantity - 1);
    r.video.mb * r.quantity
  }

  /** Does some request of the list ask for `v`? (`Endpoint.has_video`) */
  function HasVideo(requests: seq<Request>, v: Video): (b: bool)
    ensures b <==> exists i :: 0 <= i < |requests| && requests[i].video == v
  {
    if requests == [] then false
    else if requests[0].video == v then true
    else
      assert forall i :: 1 <= i < |requests| ==> requests[i] == requests[1..][i - 1];
      HasVideo(requests[1..], v)
  }

  /** The quantity of the first request for `v`, and nothing when no request
      asks for `v`. (`Endpoint.get_video_quantity`) */
  function GetVideoQuantity(requests: seq<Request>, v: Video): (q: Option<int>)
    ensures q.None? <==> !HasVideo(requests, v)
    ensures q.Some? ==> exists i :: 0 <= i < |requests| && requests[i].video == v && requests[i].quantity == q.value
                                    && forall j :: 0 <= j < i ==> requests[j].video != v
  {
    if requests == [] then None
    else if requests[0].video == v then Some(requests[0].quantity)
    else
      var q := GetVideoQuantity(requests[1..], v);
      assert q.Some? ==> exists i :: 0 <= i < |requests[1..]| && requests[1..][i].video == v && requests[1..][i].quantity == q.value
                                     && forall j :: 0 <= j < i ==> requests[1..][j].video != v;
      assert q.Some? ==> exists i :: 1 <= i < |requests| && requests[i].video == v && requests[i].quantity == q.value
                                     && forall j :: 0 <= j < i ==> requests[j].video != v;
      q
  }

  /** Position of the first entity whose id is `id` in a list of ids, and
      nothing when no entity has that id (the lookup then raises).
      (`get_cacheserver`, `get_endpoint`, `get_video`) */
  function IndexOfId(ids: seq<int>, id: int): (r: Option<nat>)
    ensures r.None? <==> forall j :: 0 <= j < |ids| ==> ids[j] != id
    ensures r.Some? ==> r.value < |ids| && ids[r.value] == id && forall j :: 0 <= j < r.value ==> ids[j] != id
  {
    if ids == [] then None
    else if ids[0] == id then Some(0)
    else
      match IndexOfId(ids[1..], id)
      case None => None
      case Some(k) => Some(k + 1)
  }

  /** The ids of `n` entities created with ids 0 .. n-1, in creation order. */
  function DenseIds(n: nat): seq<int>
  {
    seq(n, i => i)
  }

  /** The ids of a list of videos, in order. */
  function VideoIds(vs: seq<Video>): (ids: seq<int>)
    ensures |ids| == |vs| && forall i :: 0 <= i < |vs| ==> ids[i] == vs[i].id
  {
    if vs == [] then [] else VideoIds(vs[..|vs| - 1]) + [vs[|vs| - 1].id]
  }

  /** The ids of a list of endpoints, in order. */
  function EndpointIds(endpoints: seq<Endpoint>): seq<int>
  {
    seq(|endpoints|, i requires 0 <= i < |endpoints| => endpoints[i].id)
  }

  /** The latency recorded for cache `c`, if `c` is a key of the dictionary. */
  function LatencyOf(links: seq<Link>, c: nat): Option<int>
  {
    if links == [] then None
    else if links[0].cache == c then Some(links[0].latency)
    else LatencyOf(links[1..], c)
  }

  /** The caches that are keys of the dictionary. */
  function CachesOf(links: seq<Link>): set<nat>
  {
    set l | l in links :: l.cache
  }

  /** No cache is a key twice. */
  predicate DistinctCaches(links: seq<Link>)
  {
    forall i, j :: 0 <= i < j < |links| ==> links[i].cache != links[j].cache
  }

  /** Dictionary write `cacheservers[c] = latency`: a new key goes to the
      end, an existing key keeps its position. (`Endpoint.add_cacheserver`;
      the dictionary view of the result is stated by SetLatencyLookup.) */
  function SetLatency(links: seq<Link>, c: nat, latency: int): (r: seq<Link>)
    ensures c !in CachesOf(links) ==> r == links + [Link(c, latency)]
    ensures c in CachesOf(links) ==> |r| == |links| && forall i :: 0 <= i < |links| ==> r[i].cache == links[i].cache
  {
    if links == [] then [Link(c, latency)]
    else
      assert CachesOf(links) == {links[0].cache} + CachesOf(links[1..]) by {
        assert links == [links[0]] + links[1..];
      }
      if links[0].cache == c then [Link(c, latency)] + links[1..]
      else [links[0]] + SetLatency(links[1..], c, latency)
  }

  /** After the write, `c` maps to the new latency, every other key keeps its
      latency, and the keys are the old keys plus `c`. */
  lemma SetLatencyLookup(links: seq<Link>, c: nat, latency: int)
    ensures LatencyOf(SetLatency(links, c, latency), c) == Some(latency)
    ensures forall d :: d != c ==> LatencyOf(SetLatency(links, c, latency), d) == LatencyOf(links, d)
    ensures CachesOf(SetLatency(links, c, latency)) == CachesOf(links) + {c}
  {
    SetLatencyLatencies(links, c, latency);
    SetLatencyCaches(links, c, latency);
  }

  lemma {:induction false} SetLatencyLatencies(links: seq<Link>, c: nat, latency: int)
    ensures LatencyOf(SetLatency(links, c, latency), c) == Some(latency)
    ensures forall d :: d != c ==> LatencyOf(SetLatency(links, c, latency), d) == LatencyOf(links, d)
  {
    if links != [] && links[0].cache != c {
      SetLatencyLatencies(links[1..], c, latency);
      assert SetLatency(links, c, latency)[1..] == SetLatency(links[1..], c, latency);
    }
  }

  lemma {:induction false} SetLatencyCaches(links: seq<Link>, c: nat, latency: int)
    ensures CachesOf(SetLatency(links, c, latency)) == CachesOf(links) + {c}
  {
    var r := SetLatency(links, c, latency);
    if links != [] {
      assert links == [links[0]] + links[1..];
      assert CachesOf(links) == {links[0].cache} + CachesOf(links[1..]);
      if links[0].cache == c {
        assert r[1..] == links[1..];
        assert r == [r[0]] + r[1..];
        assert CachesOf(r) == {c} + CachesOf(links[1..]);
      } else {
        SetLatencyCaches(links[1..], c, latency);
        var rest := SetLatency(links[1..], c, latency);
        assert r[1..] == rest;
        assert r == [r[0]] + rest;
        assert CachesOf(r) == {links[0].cache} + CachesOf(rest);
      }
    }
  }

  /** The write keeps the keys distinct. */
  lemma {:induction false} SetLatencyDistinct(links: seq<Link>, c: nat, latency: int)
    requires DistinctCaches(links)
    ensures DistinctCaches(SetLatency(links, c, latency))
  {
    var r := SetLatency(links, c, latency);
    if c in CachesOf(links) {
      forall i, j | 0 <= i < j < |r| ensures r[i].cache != r[j].cache {
        assert r[i].cache == links[i].cache && r[j].cache == links[j].cache;
      }
    } else {
      forall i, j | 0 <= i < j < |r| ensures r[i].cache != r[j].cache {
        if j == |links| {
          assert links[i] in links;
        } else {
          assert r[i] == links[i] && r[j] == links[j];
        }
      }
    }
  }

  /** Every link of every endpoint names one of the `n` cache servers. */
  predicate LinksWithin(endpoints: seq<Endpoint>, n: nat)
  {
    forall e, i :: 0 <= e < |endpoints| && 0 <= i < |endpoints[e].links| ==> endpoints[e].links[i].cache < n
  }

  /** Every link of `links` names a cache in CachesOf(links). */
  lemma LinkCaches(links: seq<Link>)
    ensures forall k :: 0 <= k < |links| ==> links[k].cache in CachesOf(links)
  {
    forall k | 0 <= k < |links| ensures links[k].cache in CachesOf(links) {
      assert links[k] in links;
    }
  }

  /** The caches of a link list within range are all within range. */
  lemma CachesWithin(links: seq<Link>, n: nat)
    requires forall k :: 0 <= k < |links| ==> links[k].cache < n
    ensures forall x :: x in CachesOf(links) ==> x < n
  {
    forall x | x in CachesOf(links) ensures x < n {
      var l :| l in links && l.cache == x;
      var k :| 0 <= k < |links| && links[k] == l;
    }
  }

  lemma AddLinkWithin(endpoints: seq<Endpoint>, n: nat, e: nat, c: nat, latency: int)
    requires LinksWithin(endpoints, n) && e < |endpoints| && c < n
    ensures var ep := endpoints[e];
            LinksWithin(endpoints[e := ep.(links := SetLatency(ep.links, c, latency))], n)
  {
    var ep := endpoints[e];
    var links := SetLatency(ep.links, c, latency);
    SetLatencyLookup(ep.links, c, latency);
    LinkCaches(links);
    CachesWithin(ep.links, n);
  }

  /** A lookup in a list of entities created with ids 0 .. n-1 finds exactly
      the ids in range, at the position equal to the id. */
  lemma DenseLookup(n: nat, id: int)
    ensures IndexOfId(DenseIds(n), id) == if 0 <= id < n then Some(id) else None
  {
    var r := IndexOfId(DenseIds(n), id);
    if 0 <= id < n {
      assert DenseIds(n)[id] == id;
    }
  }
}
