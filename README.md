# Cache-server video placement

This project models the solver in `main.py`. The solver places videos on cache servers so that endpoints can fetch them with low latency.

A run has three steps:

- `parse_input` reads the header `V E R C X`, the row of video sizes, E endpoint blocks and R request rows. It builds C cache servers of capacity X, the videos, and the endpoints with their cache links and requests.
- `algo2` gives each requested video a key: the total quantity requested for it. It visits the keys in descending order. For each endpoint that requests the key's video, it picks the cheapest linked cache server that does not yet hold the video and still has room for it, and adds the video there.
- `output` writes how many cache servers hold a video, then one row per such server: its id, then its videos' ids in placement order.

`algo1` is also modelled. It is an alternative placement that visits every request of every endpoint and weighs the latency by the request's quantity.

Entities are identified by dense ids. A video is a value: there is one per id, so equal values are the same object. A cache server is an index into the arrays of a `Topology` object, which replaces the module-level globals `cacheservers`, `endpoints` and `videos`. An endpoint is a value in the topology's `endpoints` sequence. Its cache-server dictionary is a sequence of `Link`s in insertion order with distinct caches.

Modules:

- `Entities` (entities.dfy): the records, the lookups `get_cacheserver`, `get_endpoint` and `get_video`, and `has_video`, `get_video_quantity` and `add_cacheserver`'s dictionary write.
- `Placement` (placement.dfy): `algo2` and `algo1` as pure functions over a `Store` (remaining capacity and videos held per cache server). It also holds the properties of the key map, the cache choice and the capacity invariant.
- `Emit` (emit.dfy): the rows `output` writes.
- `Caching` (caching.dfy): the class `Topology`, with its fields and methods:
  - `AddVideo`, `Algo2`, `Algo1` and their loops update the arrays in place. Each is proved against the matching `Placement` function.
  - `AddEndpoint`, `AddCacheserver` and `AddRequest` reassign the `endpoints` sequence field (and, for `AddCacheserver`, one entry of the `attached` array). They state the new state directly; the dictionary write goes through `Entities.SetLatency`.
  - The queries (`CollectVideos`, `SumDemand`, `KeyVideos`, `SelectCache`, `WithVideos`, `HeldIds`, `Output`) change nothing. Each is proved equal to an `Entities`, `Placement` or `Emit` function.
- `Loader` (loader.dfy): `parse_input` over rows of integers, as a function `ReadTopology` and as methods that fill a `Topology`, proved equal to it.
- `Solver` (solver.dfy): `exec_algo` without its files.
- `Scenarios` (scenarios.dfy): concrete runs.

Behaviour of the code that is easy to misread:

- **Ties between caches.** The scan starts from the sentinel 9999999999 and accepts a cost `<=` the best so far. So among eligible links of minimal cost, the LAST in dictionary order wins, and a link costing more than the sentinel is never chosen.
- **Videos.** V is only printed; the number of videos is the length of the size row. The header must still hold exactly five integers, since it is unpacked into five names.
- **Keys.** A video's key is its total requested quantity, not size × quantity. Two videos with the same total share one key, and the later one listed replaces the earlier, so the earlier is never placed (`EqualDemandDropsVideo`). The keys are distinct and visited in strictly descending order.
- **Errors.** An unknown id raises as soon as it is looked up. A request row looks up the endpoint before the video.

## Model

| member | source | states |
|---|---|---|
| Entities.Weight | main.py:65-67 | a request for no copy weighs nothing; at least one copy of a video of non-negative size weighs at least the video's size, so room for the weight is room for the video |
| Entities.HasVideo | main.py:53-57 | true exactly when some request of the list asks for the video |
| Entities.GetVideoQuantity | main.py:48-51 | nothing exactly when no request asks for the video; otherwise the quantity of the first request that does |
| Entities.IndexOfId | main.py:76-97 | the lookups: nothing exactly when no entity has the id, otherwise the position of the first entity that has it |
| Entities.DenseLookup | main.py:76-97 | among entities created with ids 0..n-1, a lookup succeeds exactly for ids in range and finds the entity with that id |
| Entities.VideoIds | main.py:157 | the ids of a video list, position by position |
| Entities.SetLatency | main.py:44-45 | a new cache is appended to the dictionary; an existing cache keeps its position and the key order is unchanged |
| Entities.SetLatencyLookup | main.py:44-45 | after the write the cache maps to the new latency, every other cache keeps its latency, and the keys are the old keys plus the cache |
| Entities.SetLatencyDistinct | main.py:44-45 | the write keeps the dictionary's keys distinct |
| Placement.VideosOfSpec | main.py:184-185 | an endpoint's request list contributes a video exactly when it has a request for it |
| Placement.RequestedVideosSpec | main.py:182-185 | the collected video list contains a video exactly when some endpoint has a request for it |
| Placement.DemandAppend | main.py:190-194 | a video's demand over two groups of endpoints is the sum of the two groups' demands |
| Placement.QuantitySumAppend | main.py:192-194 | the quantity total over a split request list is the sum over its parts |
| Placement.QuantitySumPermutation | main.py:192-194 | the quantity total for a video does not depend on the order of the requests |
| Placement.WeightMapSpec | main.py:188-196 | a number is a key exactly when some listed video has that demand; the key maps to the LAST listed video with that demand |
| Placement.EqualDemandDropsVideo | main.py:196 | one concrete input (the general statement is `WeightMapSpec`): two videos with demand 5 leave only the later one in the key map |
| Placement.DemandsAreKeys | main.py:188-196 | the listed videos' demands are exactly the key map's keys |
| Placement.SortDescending | main.py:200 | the result is strictly descending and holds exactly the input's values |
| Placement.AlgoKeys | main.py:188-200 | the keys are visited in strictly descending order, each key of the map once |
| Placement.ScanIsArgmin | main.py:206-217 | the scan selects link i exactly when i is eligible (the video is not held, there is room), costs at most the sentinel, costs no more than any eligible link, and costs less than every later eligible link; nothing is selected exactly when every eligible link costs more than the sentinel |
| Placement.ScanMinimum | main.py:206-217 | the final `min_latency` is at most the sentinel and at most every eligible cost; it stays the sentinel when nothing is selected, and is the selected link's cost otherwise |
| Placement.EndpointStepSpec | main.py:202-220 | for one endpoint and one video: when the endpoint requests the video and some eligible link has latency at most the sentinel, the video is added to the cache `IsChoice` picks; otherwise the store is unchanged |
| Placement.RequestStepSpec | main.py:165-177 | one request of `algo1`, with the request's weight as the room needed and quantity × latency as the cost: the video is added to the cache `IsChoice` picks when an eligible link costs at most the sentinel, and the store is unchanged otherwise |
| Placement.FreshConsistent | main.py:119-121 | fresh cache servers of capacity X ≥ 0 satisfy the capacity invariant |
| Placement.WithVideoConsistent | main.py:32-34 | adding a video that is not held and fits keeps the invariant |
| Placement.EndpointStepConsistent | main.py:202-220 | one endpoint's step of `algo2` keeps the invariant |
| Placement.PlaceKeysConsistent | main.py:200-220 | the key loop of `algo2` keeps the invariant |
| Placement.Algo2Consistent | main.py:180-220 | after `algo2` on fresh cache servers with X ≥ 0, every server has non-negative remaining capacity, its remaining capacity plus its videos' sizes is X, it holds no video twice, and its videos' sizes sum to at most X |
| Placement.RequestStepConsistent | main.py:165-177 | one request of `algo1` keeps the invariant when its quantity is ≥ 1 |
| Placement.Algo1Consistent | main.py:162-177 | after `algo1` on fresh cache servers of capacity X ≥ 0, the invariant holds when every request has quantity ≥ 1, whatever the sizes |
| Placement.Algo1ZeroQuantityOverfills | main.py:171-177 | a request of quantity 0 has weight 0, so `algo1` adds a video of size 10 to a cache of capacity 0, leaving capacity -10 |
| Placement.VisitEndpointsExtends | main.py:202-220 | one video's pass only appends to the cache servers' video lists |
| Placement.PlaceKeysExtends | main.py:200-220 | `algo2`'s key loop never removes a placed video: each cache server's earlier list is a prefix of its later one |
| Emit.NonEmptySpec | main.py:148-151 | the listed ids are strictly increasing and are exactly the cache servers holding at least one video |
| Emit.EmittedSpec | main.py:147-159 | the first row is the number of cache servers holding a video; row k+1 is the k-th such server's id followed by its videos' ids in placement order |
| Caching.Topology.constructor | main.py:119-121 | C cache servers, each with capacity X, no videos and no attached endpoints |
| Caching.Topology.AddVideo | main.py:32-34 | appends the video to the cache server's list and subtracts its size from the capacity; nothing else changes |
| Caching.Topology.AddEndpoint | main.py:130-133 | appends an endpoint with no links and no requests |
| Caching.Topology.AddCacheserver | main.py:44-46 | writes the latency into the endpoint's dictionary and appends the endpoint to the cache server's endpoint list |
| Caching.Topology.AddRequest | main.py:144 | appends the request to the endpoint's request list |
| Caching.Topology.CollectVideos | main.py:182-185 | returns the requested videos, endpoint by endpoint and request by request |
| Caching.Topology.SumDemand | main.py:190-194 | returns the video's total requested quantity |
| Caching.Topology.KeyVideos | main.py:188-196 | returns the key map and the demands of the listed videos |
| Caching.Topology.SelectCache | main.py:206-217 | returns the cache of the link the scan selects, or nothing |
| Caching.Topology.PlaceVideo | main.py:202-220 | places one video for every endpoint in order, as the function `VisitEndpoints` does |
| Caching.Topology.PlaceAll | main.py:200-220 | processes the keys in the given order |
| Caching.Topology.Algo2 | main.py:180-220 | the new cache state is `Placement.Algo2` of the old one |
| Caching.Topology.PlaceRequests | main.py:164-177 | handles one endpoint's requests in order |
| Caching.Topology.Algo1 | main.py:162-177 | the new cache state is `Placement.Algo1` of the old one |
| Caching.Topology.WithVideos | main.py:148-151 | returns the ids of the cache servers holding a video, in cache order |
| Caching.Topology.HeldIds | main.py:157 | returns the ids of a cache server's videos in placement order |
| Caching.Topology.Output | main.py:147-159 | returns exactly the rows `Emitted` describes |
| Loader.MakeVideos | main.py:124-126 | video i has id i and the i-th size of the row |
| Loader.LoadVideos | main.py:124-126 | builds the videos `MakeVideos` describes |
| Loader.LinkRowSpec | main.py:134-137 | a link row fails with "no cache server c" exactly when c is out of range; otherwise the endpoint maps c to the row's latency, keeps its other latencies and requests, the other endpoints are unchanged, cache c's endpoint list gets the endpoint appended (again, if already linked), and the back-references stay coherent |
| Loader.ReadLinksCoherent | main.py:134-137 | reading an endpoint's link rows keeps links in range, keys distinct and cache-to-endpoint back-references exact |
| Loader.EndpointBlockCoherent | main.py:130-137 | an endpoint block appends endpoint i with id i and no requests, and keeps the topology coherent |
| Loader.ReadEndpointsCoherent | main.py:128-137 | reading E endpoint blocks gives E endpoints with ids 0..E-1 and no requests, in a coherent topology |
| Loader.RequestRowSpec | main.py:140-144 | a request row fails with "no endpoint" when the endpoint is out of range; otherwise it fails with "no video" when the video is out of range; otherwise it appends `Request(video, Rn)` to that endpoint alone |
| Loader.ReadRequestsCoherent | main.py:139-144 | reading request rows keeps the topology coherent, and every request asks for one of the videos |
| Loader.ReadTopologySpec | main.py:108-144 | a successful load has C cache servers of capacity X, the videos of the size row, E endpoints with dense ids, links within range with distinct keys, exact back-references, and requests for known videos |
| Loader.LoadLink | main.py:135-137 | one link row changes the topology exactly as `LinkRow` says, or returns its error |
| Loader.LoadLinks | main.py:134-137 | K link rows, as `ReadLinks` says |
| Loader.LoadEndpoint | main.py:131-137 | one endpoint block, as `EndpointBlock` says |
| Loader.LoadEndpoints | main.py:129-137 | E endpoint blocks, as `ReadEndpoints` says |
| Loader.LoadRequest | main.py:141-144 | one request row, as `RequestRow` says |
| Loader.LoadRequests | main.py:140-144 | R request rows, as `ReadRequests` says |
| Loader.LoadEndpointsAndRequests | main.py:128-144 | the endpoint blocks, then the request rows |
| Loader.Load | main.py:108-144 | fails with `ReadTopology`'s error, or returns a fresh topology holding exactly the parsed one, with every cache server empty at capacity X |
| Solver.Solve | main.py:223-226 | a run fails exactly when loading fails, with the same error; otherwise it yields at least the count row |
| Solver.ExecAlgo | main.py:223-226 | loading, `algo2` and `output` on the object give exactly `Solve`'s rows |
| Scenarios.OnePlacementLoaded | main.py:108-144 | the one-endpoint input loads to one cache of capacity 100, video 0 of size 100, and endpoint 0 linked to cache 0 at latency 10 with one request |
| Scenarios.OnePlacement | main.py:223-226 | that input yields the rows `1` and `0 0` |
| Scenarios.NoRoom | main.py:214 | a video of size 150 does not fit a cache of capacity 100: nothing is placed and the output is `0` |
| Scenarios.SharedCache | main.py:202-220 | two endpoints sharing one cache and requesting the same video: it is placed once, leaving 400 of 500 |
| Scenarios.DemandOfThree | main.py:190-194 | requests with quantities 3, 5 and 2 give demand 10, also with the requests in another order |

## Left out

- File I/O, `get_line` and `write_line` are left out. Rows arrive as integers. A missing row, or one with the wrong number of values, is the error `Malformed(row)`. Text that is not an integer, and so makes `int()` raise, is not modelled.
- `print` calls and `main` are left out. `main` starts one `multiprocessing.Process` per input file and never joins them; each process runs `exec_algo` on its own globals, and no process reads another's state.
- The endpoint's `latency_datacenter` is stored but never read by the source, so it plays no part in any property.
- Endpoints are values inside the topology's sequence, not shared objects. The source never aliases an endpoint, except in each cache server's `endpoints` list. That list is modelled as endpoint ids (`attached`). It lists exactly the linked endpoints, and a re-linked cache lists the endpoint again, as in the source (`LinkRowSpec`).
- Loader.ReadTopology: the tokenised rows are trusted to be the file's lines, in order.
- Placement.Algo1Consistent: proved only for X ≥ 0 and requests with quantity ≥ 1. With a negative X a fresh cache server already has negative capacity, and a quantity of 0 lets `algo1` overfill a cache (`Algo1ZeroQuantityOverfills`).
- Placement.Algo2Consistent: proved for X ≥ 0 only, because with a negative X a fresh cache server already has negative capacity.
- Solver.Solve: states the error cases and the count row. The content of the rows is stated by `Emit.EmittedSpec` and `Placement.Algo2Consistent`, not repeated here.
