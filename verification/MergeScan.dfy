/**
 * The merge decision for one name against a list of candidates: the exhaustive
 * rule, the sorted scan that stops early, and the scan of a truncated list.
 */
module MergeScan {
  import opened Prelude
  import opened FiniteSets
  import opened StableSort

  const TRGM_MERGE := 0.85

  /** A candidate's trigram similarity, and whether its cosine reaches the threshold. */
  datatype Scored = Scored(sim: real, cosine: bool) {
    predicate Similar() {
      sim >= TRGM_MERGE
    }

    predicate Accepted() {
      Similar() && cosine
    }
  }

  function Keys(cs: seq<Scored>): (keys: seq<real>)
    ensures |keys| == |cs| && forall i :: 0 <= i < |cs| ==> keys[i] == cs[i].sim
  {
    seq(|cs|, i requires 0 <= i < |cs| => cs[i].sim)
  }

  /** The rule: the accepted candidate of greatest similarity, ties to the lowest index. */
  ghost predicate IsBest(cs: seq<Scored>, best: Option<nat>) {
    match best
    case None => forall j :: 0 <= j < |cs| ==> !cs[j].Accepted()
    case Some(i) =>
      && i < |cs|
      && cs[i].Accepted()
      && forall j :: 0 <= j < |cs| && cs[j].Accepted() && j != i ==>
        cs[j].sim < cs[i].sim || (cs[j].sim == cs[i].sim && i < j)
  }

  function Best(cs: seq<Scored>): (best: Option<nat>)
    ensures IsBest(cs, best)
  {
    if cs == [] then None
    else
      var n := |cs| - 1;
      var earlier := Best(cs[..n]);
      assert IsBest(cs[..n], earlier);
      assert forall j :: 0 <= j < n ==> cs[..n][j] == cs[j];
      if !cs[n].Accepted() then earlier
      else if earlier.Some? && cs[earlier.value].sim >= cs[n].sim then earlier
      else Some(n)
  }

  lemma BestUnique(cs: seq<Scored>, a: Option<nat>, b: Option<nat>)
    requires IsBest(cs, a) && IsBest(cs, b)
    ensures a == b
  {
  }

  /** Position of the first accepted candidate of `order`, or its length. */
  function FirstAccepted(cs: seq<Scored>, order: seq<nat>): (p: nat)
    requires forall a :: 0 <= a < |order| ==> order[a] < |cs|
    ensures p <= |order|
    ensures p < |order| ==> cs[order[p]].Accepted()
    ensures forall a :: 0 <= a < p ==> !cs[order[a]].Accepted()
  {
    if order == [] then 0
    else if cs[order[0]].Accepted() then 0
    else
      var q := FirstAccepted(cs, order[1..]);
      assert forall a :: 1 <= a <= q ==> order[a] == order[1..][a - 1];
      1 + q
  }

  /** In stable descending order the first accepted candidate is the best one. */
  lemma FirstIsBest(cs: seq<Scored>, order: seq<nat>)
    requires IsOrder(Keys(cs), order)
    ensures IsBest(cs, var p := FirstAccepted(cs, order); if p < |cs| then Some(order[p]) else None)
  {
    var p := FirstAccepted(cs, order);
    forall j | 0 <= j < |cs| && cs[j].Accepted()
      ensures p < |cs| && (j == order[p] || Before(Keys(cs), order[p], j))
    {
      assert j in order;
      var a :| 0 <= a < |order| && order[a] == j;
      assert p <= a;
      if p < a {
        assert Before(Keys(cs), order[p], order[a]);
      }
    }
  }

  /**
   * The clustering scan: candidates in stable descending order of similarity,
   * giving up at the first one below the trigram threshold.
   */
  method ScanWithBreak(cs: seq<Scored>) returns (hit: Option<nat>)
    ensures IsBest(cs, hit)
  {
    var order := Order(Keys(cs));
    hit := None;
    FirstIsBest(cs, order);
    for a := 0 to |order|
      invariant forall b :: 0 <= b < a ==> !cs[order[b]].Accepted()
      invariant hit == None
    {
      if !cs[order[a]].Similar() {
        forall b | a <= b < |order| ensures !cs[order[b]].Accepted() {
          assert a < b ==> Before(Keys(cs), order[a], order[b]);
        }
        break;
      }
      if cs[order[a]].cosine {
        hit := Some(order[a]);
        break;
      }
    }
  }

  /** The production scan: the first accepted candidate ranked below `limit`. */
  function Truncated(cs: seq<Scored>, limit: nat): Option<nat> {
    var order := Order(Keys(cs));
    var p := FirstAccepted(cs, order);
    if p < Min(limit, |cs|) then Some(order[p]) else None
  }

  /** The first `n` candidates in stable descending order are not accepted. */
  ghost predicate NoneBefore(cs: seq<Scored>, n: nat) {
    n <= |cs| && forall b :: 0 <= b < n ==> !cs[Order(Keys(cs))[b]].Accepted()
  }

  lemma TruncatedIs(cs: seq<Scored>, limit: nat, a: nat)
    requires a <= Min(limit, |cs|) && NoneBefore(cs, a)
    requires a < Min(limit, |cs|) ==> cs[Order(Keys(cs))[a]].Accepted()
    ensures Truncated(cs, limit) == if a < Min(limit, |cs|) then Some(Order(Keys(cs))[a]) else None
  {
    var p := FirstAccepted(cs, Order(Keys(cs)));
    assert p < |cs| ==> a <= p;
  }

  /**
   * The truncated scan never picks anything but the best candidate, and it
   * agrees with the exhaustive rule exactly when nothing is acceptable or
   * fewer than `limit` candidates rank ahead of the best one.
   */
  lemma TruncationExact(cs: seq<Scored>, limit: nat)
    ensures Truncated(cs, limit) == None || Truncated(cs, limit) == Best(cs)
    ensures Truncated(cs, limit) == Best(cs) <==>
      (Best(cs) == None || |Ahead(Keys(cs), Best(cs).value)| < limit)
  {
    var order := Order(Keys(cs));
    var p := FirstAccepted(cs, order);
    FirstIsBest(cs, order);
    BestUnique(cs, Best(cs), if p < |cs| then Some(order[p]) else None);
    if p < |cs| {
      RankIsAhead(Keys(cs), order, p);
    }
  }

  ghost function SimilarSet(cs: seq<Scored>): set<nat> {
    set j | 0 <= j < |cs| && cs[j].Similar()
  }

  /** With at most `limit` candidates over the trigram threshold, truncation changes nothing. */
  lemma FewSimilarSuffice(cs: seq<Scored>, limit: nat)
    requires |SimilarSet(cs)| <= limit
    ensures Truncated(cs, limit) == Best(cs)
  {
    TruncationExact(cs, limit);
    if Best(cs).Some? {
      var i := Best(cs).value;
      SubsetCard(Ahead(Keys(cs), i) + {i}, SimilarSet(cs));
      assert i !in Ahead(Keys(cs), i);
    }
  }

  /** Nine similar candidates of which only the last passes the cosine test defeat a limit of eight. */
  lemma NinthCandidateIsLost()
    ensures var cs := seq(9, i => Scored(if i < 8 then 0.95 else 0.90, i == 8));
      Best(cs) == Some(8) && Truncated(cs, 8) == None
  {
    var cs := seq(9, i => Scored(if i < 8 then 0.95 else 0.90, i == 8));
    BestUnique(cs, Best(cs), Some(8));
    var listed := seq(8, (j: nat) => j);
    forall j | j in listed ensures j in Ahead(Keys(cs), 8) {
      assert Before(Keys(cs), j, 8);
    }
    DistinctFits(listed, Ahead(Keys(cs), 8));
    TruncationExact(cs, 8);
  }
}
