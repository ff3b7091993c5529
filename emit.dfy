// The rows of the result file: the number of cache servers that hold a
// video, then one row per such cache server, in cache order, made of its id
// and the ids of its videos in placement order.

module Emit {
  import opened Entities

  /** The ids of the cache servers holding at least one video, in cache order. */
  function NonEmpty(held: seq<seq<Video>>): seq<nat>
  {
    if held == [] then []
    else
      var n := |held| - 1;
      NonEmpty(held[..n]) + (if |held[n]| > 0 then [n] else [])
  }

  /** The row of one cache server: its id, then its videos' ids. */
  function Row(c: nat, held: seq<seq<Video>>): seq<int>
    requires c < |held|
  {
    [c] + VideoIds(held[c])
  }

  /** The rows of the listed cache servers, in list order. */
  function Rows(ids: seq<nat>, held: seq<seq<Video>>): (rows: seq<seq<int>>)
    requires forall k :: 0 <= k < |ids| ==> ids[k] < |held|
    ensures |rows| == |ids|
  {
    if ids == [] then []
    else
      var n := |ids| - 1;
      Rows(ids[..n], held) + [Row(ids[n], held)]
  }

  /** The ids NonEmpty lists are strictly increasing and are exactly the
      cache servers holding a video. */
  lemma {:induction false} NonEmptySpec(held: seq<seq<Video>>)
    ensures forall k :: 0 <= k < |NonEmpty(held)| ==> NonEmpty(held)[k] < |held|
    ensures forall i, j :: 0 <= i < j < |NonEmpty(held)| ==> NonEmpty(held)[i] < NonEmpty(held)[j]
    ensures forall c :: 0 <= c < |held| ==>
              (|held[c]| > 0 <==> exists k :: 0 <= k < |NonEmpty(held)| && NonEmpty(held)[k] == c)
  {
    if held != [] {
      var n := |held| - 1;
      var prefix := held[..n];
      NonEmptySpec(prefix);
      var before := NonEmpty(prefix);
      var ids := NonEmpty(held);
      assert forall k :: 0 <= k < |before| ==> ids[k] == before[k];
      forall c | 0 <= c < |held|
        ensures |held[c]| > 0 <==> exists k :: 0 <= k < |ids| && ids[k] == c
      {
        if c < n {
          assert held[c] == prefix[c];
          if |held[c]| > 0 {
            var k :| 0 <= k < |before| && before[k] == c;
            assert ids[k] == c;
          }
        } else if |held[c]| > 0 {
          assert ids[|ids| - 1] == c;
        }
      }
    }
  }

  lemma {:induction false} RowsAt(ids: seq<nat>, held: seq<seq<Video>>, k: nat)
    requires forall i :: 0 <= i < |ids| ==> ids[i] < |held|
    requires k < |ids|
    ensures Rows(ids, held)[k] == Row(ids[k], held)
  {
    var n := |ids| - 1;
    if k < n {
      RowsAt(ids[..n], held, k);
    }
  }

  /** The rows of one more listed cache server extend the rows by its row. */
  lemma RowsSnoc(ids: seq<nat>, held: seq<seq<Video>>, k: nat)
    requires forall i :: 0 <= i < |ids| ==> ids[i] < |held|
    requires k < |ids|
    ensures Rows(ids[..k + 1], held) == Rows(ids[..k], held) + [Row(ids[k], held)]
  {
    assert ids[..k + 1][..k] == ids[..k];
  }

  /** `output`: the count row, then the rows of the cache servers that hold
      a video. */
  function Emitted(held: seq<seq<Video>>): seq<seq<int>>
  {
    NonEmptySpec(held);
    [[|NonEmpty(held)|]] + Rows(NonEmpty(held), held)
  }

  /** The first row is the number of cache servers holding a video; row
      k + 1 belongs to the k-th of them in cache order and lists its id, then
      its videos' ids in placement order. */
  lemma EmittedSpec(held: seq<seq<Video>>)
    ensures |Emitted(held)| == 1 + |NonEmpty(held)|
    ensures Emitted(held)[0] == [|NonEmpty(held)|]
    ensures forall k :: 0 <= k < |NonEmpty(held)| ==>
              NonEmpty(held)[k] < |held| && Emitted(held)[k + 1] == [NonEmpty(held)[k]] + VideoIds(held[NonEmpty(held)[k]])
  {
    NonEmptySpec(held);
    var ids := NonEmpty(held);
    var rows := Rows(ids, held);
    assert Emitted(held) == [[|ids|]] + rows;
    forall k | 0 <= k < |ids|
      ensures Emitted(held)[k + 1] == [ids[k]] + VideoIds(held[ids[k]])
    {
      RowsAt(ids, held, k);
      assert Emitted(held)[k + 1] == rows[k];
    }
  }
}
