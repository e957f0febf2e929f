/** Single-parent lineage: which `derived_from` value a candidate's run is recorded with. */
module Parentage {
  import opened Outcomes
  import opened Text

  /** Some entry of `ids` is `p`, blanks around it aside. */
  ghost predicate Lists(ids: seq<string>, p: string) {
    exists i :: 0 <= i < |ids| && Strip(ids[i]) == p
  }

  lemma ListsSnoc(init: seq<string>, last: string, p: string)
    ensures Lists(init + [last], p) <==> Strip(last) == p || Lists(init, p)
  {
    var ids := init + [last];
    if Strip(last) == p {
      assert Strip(ids[|init|]) == p;
    }
    if Lists(init, p) {
      var i :| 0 <= i < |init| && Strip(init[i]) == p;
      assert Strip(ids[i]) == p;
    }
  }

  /** Distinct, non-blank parent ids in first-seen order. */
  function DistinctRealParents(ids: seq<string>): seq<string> {
    if ids == [] then [] else
    var seen := DistinctRealParents(ids[..|ids| - 1]);
    var stripped := Strip(ids[|ids| - 1]);
    if stripped == "" || stripped in seen then seen else seen + [stripped]
  }

  lemma {:induction false} DistinctRealParentsSpec(ids: seq<string>)
    ensures forall i, j :: 0 <= i < j < |DistinctRealParents(ids)| ==>
      DistinctRealParents(ids)[i] != DistinctRealParents(ids)[j]
    ensures forall p :: p in DistinctRealParents(ids) <==> p != "" && Lists(ids, p)
  {
    if ids != [] {
      var init, last := ids[..|ids| - 1], ids[|ids| - 1];
      assert ids == init + [last];
      DistinctRealParentsSpec(init);
      forall p
        ensures p in DistinctRealParents(ids) <==> p != "" && Lists(ids, p)
      {
        ListsSnoc(init, last, p);
      }
    }
  }

  method CollectDistinctRealParents(ids: seq<string>) returns (seen: seq<string>)
    ensures seen == DistinctRealParents(ids)
  {
    seen := [];
    for k := 0 to |ids|
      invariant seen == DistinctRealParents(ids[..k])
    {
      assert ids[..k + 1][..k] == ids[..k];
      var stripped := Strip(ids[k]);
      if stripped != "" && stripped !in seen {
        seen := seen + [stripped];
      }
    }
    assert ids[..|ids|] == ids;
  }

  function ResolveDerivedFrom(ids: seq<string>): Outcome<string> {
    var distinct := DistinctRealParents(ids);
    if |distinct| > 1 then Raise(MultiParentLineage(distinct))
    else if |distinct| == 1 then Ok(distinct[0]) else Ok("")
  }

  /** Lineage is never dropped and no parent is ever picked: a value is returned exactly when
      every real parent listed is that value, and otherwise two different real parents exist. */
  lemma ResolutionIsFaithful(ids: seq<string>)
    ensures match ResolveDerivedFrom(ids)
      case Ok(d) => forall p :: p != "" ==> (Lists(ids, p) <==> p == d)
      case Raise(e) => exists p, q :: p != "" && q != "" && p != q && Lists(ids, p) && Lists(ids, q)
  {
    DistinctRealParentsSpec(ids);
    var distinct := DistinctRealParents(ids);
    if |distinct| > 1 {
      assert distinct[0] in distinct && distinct[1] in distinct;
    } else if |distinct| == 1 {
      assert distinct == [distinct[0]];
    }
  }
}
