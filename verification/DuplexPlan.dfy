/** The page order of manual duplex printing: all fronts, then all backs onto the reinserted stack. */
module DuplexPlan {
  import opened Outcomes

  datatype Binding = LongEdge | ShortEdge | OtherBinding
  datatype Orientation = Portrait | Landscape | OtherOrientation

  /** In `backs`, zero is a blank that uses up the odd sheet. */
  datatype Plan = Plan(fronts: seq<nat>, backs: seq<nat>, rotation: nat)

  function Reversed<T>(s: seq<T>): (r: seq<T>)
    ensures |r| == |s| && forall i :: 0 <= i < |s| ==> r[i] == s[|s| - 1 - i]
  {
    if s == [] then [] else Reversed(s[1..]) + [s[0]]
  }

  function Fronts(pages: nat): seq<nat> {
    seq((pages + 1) / 2, i => 2 * i + 1)
  }

  function Behind(page: nat, pages: nat): nat {
    if page < pages then page + 1 else 0
  }

  function Backs(pages: nat): seq<nat> {
    var stack := Reversed(Fronts(pages));
    seq(|stack|, i requires 0 <= i < |stack| => Behind(stack[i], pages))
  }

  function PlanOf(pages: int, binding: Binding, orientation: Orientation): Option<Plan> {
    if !(2 <= pages <= 200) || binding.OtherBinding? || orientation.OtherOrientation? then None
    else
      var rotate := binding.LongEdge? != orientation.Landscape?;
      Some(Plan(Fronts(pages), Backs(pages), if rotate then 180 else 0))
  }

  /** The pages 1 to n. */
  function Count(n: nat): seq<nat> {
    if n == 0 then [] else Count(n - 1) + [n]
  }

  /** Both sides of every sheet of a finished stack, front before back. */
  function Leafed(fronts: seq<nat>, backs: seq<nat>): seq<nat>
    requires |fronts| == |backs|
  {
    if fronts == [] then []
    else Leafed(fronts[..|fronts| - 1], backs[..|fronts| - 1]) + [fronts[|fronts| - 1], backs[|fronts| - 1]]
  }

  /** The backs in document order are those of a document printed sheet by sheet. */
  lemma BacksInOrder(pages: nat)
    ensures |Reversed(Backs(pages))| == |Fronts(pages)|
    ensures forall i :: 0 <= i < |Fronts(pages)| ==>
              Reversed(Backs(pages))[i] == if 2 * i + 2 <= pages then 2 * i + 2 else 0
  {
  }

  lemma {:induction false} LeafedSoFar(fronts: seq<nat>, backs: seq<nat>, pages: nat)
    requires |fronts| == |backs| && 2 * |fronts| <= pages + 1
    requires forall i :: 0 <= i < |fronts| ==> fronts[i] == 2 * i + 1
    requires forall i :: 0 <= i < |backs| ==> backs[i] == if 2 * i + 2 <= pages then 2 * i + 2 else 0
    ensures Leafed(fronts, backs) == if 2 * |fronts| <= pages then Count(2 * |fronts|) else Count(pages) + [0]
  {
    if fronts != [] {
      var n := |fronts| - 1;
      LeafedSoFar(fronts[..n], backs[..n], pages);
      assert Count(2 * n + 1) == Count(2 * n) + [2 * n + 1];
    }
  }

  lemma LeafedWhole(fronts: seq<nat>, backs: seq<nat>, pages: nat)
    requires |fronts| == |backs| == (pages + 1) / 2
    requires forall i :: 0 <= i < |fronts| ==> fronts[i] == 2 * i + 1
    requires forall i :: 0 <= i < |backs| ==> backs[i] == if 2 * i + 2 <= pages then 2 * i + 2 else 0
    ensures Leafed(fronts, backs) == Count(pages) + if pages % 2 == 1 then [0] else []
  {
    LeafedSoFar(fronts, backs, pages);
    assert Count(pages) + [] == Count(pages);
  }

  /** The stack comes back with the last front on top; feeding it against `backs` puts page f + 1 behind
      page f on every sheet, so the finished stack reads 1 to n, and then a blank if n is odd. */
  lemma FinishedStackReadsInOrder(pages: nat)
    ensures |Fronts(pages)| == |Backs(pages)|
    ensures Leafed(Fronts(pages), Reversed(Backs(pages))) == Count(pages) + if pages % 2 == 1 then [0] else []
  {
    BacksInOrder(pages);
    LeafedWhole(Fronts(pages), Reversed(Backs(pages)), pages);
  }

  /** The blank is the first back to be fed, and there is one exactly for an odd number of pages. */
  lemma BlankComesFirst(pages: nat, i: nat)
    requires i < |Backs(pages)|
    ensures Backs(pages)[i] == 0 <==> i == 0 && pages % 2 == 1
  {
  }

  lemma LastCounts(s: seq<nat>)
    requires s != []
    ensures multiset(s) == multiset(s[..|s| - 1]) + multiset{s[|s| - 1]}
  {
    assert s == s[..|s| - 1] + [s[|s| - 1]];
  }

  lemma {:induction false} LeafedLosesNothing(fronts: seq<nat>, backs: seq<nat>)
    requires |fronts| == |backs|
    ensures multiset(Leafed(fronts, backs)) == multiset(fronts) + multiset(backs)
  {
    if fronts != [] {
      var n := |fronts| - 1;
      LeafedLosesNothing(fronts[..n], backs[..n]);
      LastCounts(fronts);
      LastCounts(backs);
    }
  }

  lemma {:induction false} ReversedLosesNothing(s: seq<nat>)
    ensures multiset(Reversed(s)) == multiset(s)
  {
    if s != [] {
      ReversedLosesNothing(s[1..]);
      assert s == [s[0]] + s[1..];
    }
  }

  /** The two passes print every page exactly once. */
  lemma EveryPageOnce(pages: nat)
    ensures multiset(Fronts(pages)) + multiset(Backs(pages)) ==
            multiset(Count(pages)) + if pages % 2 == 1 then multiset{0} else multiset{}
  {
    FinishedStackReadsInOrder(pages);
    LeafedLosesNothing(Fronts(pages), Reversed(Backs(pages)));
    ReversedLosesNothing(Backs(pages));
  }

  lemma {:induction false} CountIsOneToN(n: nat)
    ensures |Count(n)| == n && forall i :: 0 <= i < n ==> Count(n)[i] == i + 1
  {
    if n > 0 {
      CountIsOneToN(n - 1);
    }
  }

  /** There is a plan exactly for 2 to 200 pages, and its own two passes leave a stack that reads 1 to n; the
      backs are turned over exactly for long-edge binding in portrait and short-edge binding in landscape. */
  lemma PlanReadsInOrder(pages: int, binding: Binding, orientation: Orientation)
    ensures var plan := PlanOf(pages, binding, orientation);
            && (plan.Some? <==> 2 <= pages < 201 && !binding.OtherBinding? && !orientation.OtherOrientation?)
            && (plan.Some? ==>
              && |plan.value.fronts| == |plan.value.backs|
              && Leafed(plan.value.fronts, Reversed(plan.value.backs)) ==
                 Count(pages) + (if pages % 2 == 1 then [0] else [])
              && (plan.value.rotation == 180 || plan.value.rotation == 0)
              && (plan.value.rotation == 180 <==>
                (binding, orientation) in {(LongEdge, Portrait), (ShortEdge, Landscape)}))
  {
    if 2 <= pages {
      FinishedStackReadsInOrder(pages);
    }
  }

  /** Five pages on three sheets. */
  lemma FivePages()
    ensures PlanOf(5, LongEdge, Portrait) == Some(Plan([1, 3, 5], [0, 4, 2], 180))
    ensures PlanOf(1, LongEdge, Portrait).None? && PlanOf(201, LongEdge, Portrait).None?
  {
    assert Fronts(5) == [1, 3, 5];
    assert Backs(5) == [0, 4, 2];
  }

  /** Turning the page by a quarter or binding on the other edge alone changes the rotation; both do not. */
  lemma RotationIsSymmetric(pages: nat, binding: Binding, orientation: Orientation)
    requires 2 <= pages <= 200 && !binding.OtherBinding? && !orientation.OtherOrientation?
    ensures var other := if binding.LongEdge? then ShortEdge else LongEdge;
            var turned := if orientation.Portrait? then Landscape else Portrait;
            var plan := PlanOf(pages, binding, orientation).value;
            && PlanOf(pages, other, turned) == Some(plan)
            && PlanOf(pages, other, orientation)
                 == PlanOf(pages, binding, turned) == Some(plan.(rotation := 180 - plan.rotation))
  {
  }
}
