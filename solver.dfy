// One run of the solver without its files: load the rows, place the videos
// with `algo2`, and produce the rows of the result (`exec_algo`).

module Solver {
  import opened Entities
  import opened Placement
  import opened Emit
  import opened Caching
  import opened Loader

  /** The rows of the result for the rows of an input, or the load error
      that stops the run. */
  function Solve(rows: seq<seq<int>>): (r: Result<seq<seq<int>>>)
    ensures r.Err? <==> ReadTopology(rows).Err?
    ensures r.Err? ==> r.error == ReadTopology(rows).error
    ensures r.Ok? ==> |r.value| >= 1 && |r.value[0]| == 1
  {
    match ReadTopology(rows)
    case Err(e) => Err(e)
    case Ok(p) =>
      ReadTopologySpec(rows);
      FitsAll(p.endpoints, Fresh(p.caches, p.x));
      var placed := Placement.Algo2(p.endpoints, Fresh(p.caches, p.x));
      EmittedSpec(placed.held);
      Ok(Emitted(placed.held))
  }

  /** `exec_algo`: a fresh topology is loaded, `algo2` fills its cache
      servers and `output` lists them. */
  method ExecAlgo(rows: seq<seq<int>>) returns (r: Result<seq<seq<int>>>)
    ensures r == Solve(rows)
  {
    var loaded := Load(rows);
    if loaded.Err? {
      return Err(loaded.error);
    }
    var t := loaded.value;
    t.Algo2();
    var out := t.Output();
    r := Ok(out);
  }
}
