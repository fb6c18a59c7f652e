/** The reference form of one distribution phase: every group is offered something, in
    list order, out of one shared remainder. All four phases are instances. */

module Waterfill {
  datatype Offer =
    | Nothing
    | UpTo(limit: int)  // raise the group to limit
    | UpToRemaining     // raise the group to whatever is left when its turn comes
    | Everything        // hand over all that is left

  /** What the groups hold and what is still unassigned. */
  datatype Stage = Stage(held: seq<int>, left: int)

  /** What one group takes of `left` when it holds `held`. */
  function Grant(o: Offer, held: int, left: int): (g: int)
    ensures 0 <= left ==> 0 <= g <= left
  {
    match o
    case Nothing => 0
    case UpTo(limit) => Take(limit - held, left)
    case UpToRemaining => Take(left - held, left)
    case Everything => left
  }

  function Take(need: int, left: int): int {
    if need <= 0 then 0 else if need < left then need else left
  }

  /** What is left once the first n groups have taken their grant. */
  function Left(offers: seq<Offer>, st: Stage, n: nat): int
    requires |offers| == |st.held| && n <= |offers|
  {
    if n == 0 then st.left
    else
      var before := Left(offers, st, n - 1);
      before - Grant(offers[n - 1], st.held[n - 1], before)
  }

  function After(offers: seq<Offer>, st: Stage, i: nat): int
    requires |offers| == |st.held| && i < |offers|
  {
    st.held[i] + Grant(offers[i], st.held[i], Left(offers, st, i))
  }

  /** One whole phase. */
  function Fill(offers: seq<Offer>, st: Stage): (r: Stage)
    requires |offers| == |st.held|
    ensures |r.held| == |st.held|
  {
    Stage(seq(|offers|, i requires 0 <= i < |offers| => After(offers, st, i)),
          Left(offers, st, |offers|))
  }

  function SumTo(s: seq<int>, n: nat): int
    requires n <= |s|
  {
    if n == 0 then 0 else SumTo(s, n - 1) + s[n - 1]
  }

  function Sum(s: seq<int>): int {
    SumTo(s, |s|)
  }

  /** The remainder only shrinks along the list, and never goes negative. */
  lemma {:induction false} LeftShrinks(offers: seq<Offer>, st: Stage, m: nat, n: nat)
    requires |offers| == |st.held| && m <= n <= |offers| && 0 <= st.left
    ensures 0 <= Left(offers, st, n) <= Left(offers, st, m) <= st.left
  {
    if m < n {
      LeftShrinks(offers, st, m, n - 1);
    } else if 0 < n {
      LeftShrinks(offers, st, n - 1, n - 1);
    }
  }

  lemma {:induction false} FillConservesTo(offers: seq<Offer>, st: Stage, n: nat)
    requires |offers| == |st.held| && n <= |offers|
    ensures SumTo(Fill(offers, st).held, n) + Left(offers, st, n) == SumTo(st.held, n) + st.left
  {
    if 0 < n {
      FillConservesTo(offers, st, n - 1);
    }
  }

  /** A phase moves replicas from the remainder to the groups and loses none. */
  lemma FillConserves(offers: seq<Offer>, st: Stage)
    requires |offers| == |st.held|
    ensures Sum(Fill(offers, st).held) + Fill(offers, st).left == Sum(st.held) + st.left
  {
    FillConservesTo(offers, st, |offers|);
  }

  /** A phase only adds, and what it adds to one group is at most what was left. */
  lemma FillRaises(offers: seq<Offer>, st: Stage)
    requires |offers| == |st.held| && 0 <= st.left
    ensures 0 <= Fill(offers, st).left <= st.left
    ensures forall i :: 0 <= i < |offers| ==> st.held[i] <= Fill(offers, st).held[i] <= st.held[i] + st.left
  {
    LeftShrinks(offers, st, 0, |offers|);
    forall i | 0 <= i < |offers|
      ensures st.held[i] <= Fill(offers, st).held[i] <= st.held[i] + st.left
    {
      LeftShrinks(offers, st, 0, i);
    }
  }

  /** Whoever sits behind a drained remainder keeps exactly what it held. */
  lemma DrainedKeepsRest(offers: seq<Offer>, st: Stage, i: nat)
    requires |offers| == |st.held| && 0 <= st.left && i <= |offers|
    requires Left(offers, st, i) == 0
    ensures Fill(offers, st).left == 0
    ensures forall j :: i <= j < |offers| ==> Fill(offers, st).held[j] == st.held[j]
  {
    LeftShrinks(offers, st, i, |offers|);
    forall j | i <= j < |offers|
      ensures Fill(offers, st).held[j] == st.held[j]
    {
      LeftShrinks(offers, st, i, j);
    }
  }

  /** If anything survives the phase, every bounded offer was met in full. */
  lemma SurplusMeansMet(offers: seq<Offer>, st: Stage, i: nat)
    requires |offers| == |st.held| && 0 <= st.left && i < |offers|
    requires 0 < Left(offers, st, i + 1)
    ensures offers[i] != Everything
    ensures offers[i].UpTo? ==> offers[i].limit <= Fill(offers, st).held[i]
  {
    LeftShrinks(offers, st, i, i + 1);
  }

  /** A group never passes max(held, limit) on an UpTo offer. */
  lemma UpToIsACeiling(offers: seq<Offer>, st: Stage, i: nat)
    requires |offers| == |st.held| && 0 <= st.left && i < |offers|
    requires offers[i].UpTo? || offers[i].Nothing?
    ensures offers[i].UpTo? && st.held[i] < offers[i].limit ==> Fill(offers, st).held[i] <= offers[i].limit
    ensures offers[i].Nothing? || offers[i].limit <= st.held[i] ==> Fill(offers, st).held[i] == st.held[i]
  {
    LeftShrinks(offers, st, 0, i);
  }

  /** offers' repeats each offer, or offers a group just what the phase brought it to. */
  ghost predicate Restated(offers: seq<Offer>, offers': seq<Offer>, st: Stage) {
    && |offers| == |offers'| == |st.held| && 0 <= st.left
    && forall i :: 0 <= i < |offers| ==> offers'[i] == offers[i] || offers'[i] == UpTo(After(offers, st, i))
  }

  lemma {:induction false} RestatedLeavesTheSame(offers: seq<Offer>, offers': seq<Offer>, st: Stage, n: nat)
    requires Restated(offers, offers', st) && n <= |offers|
    ensures 0 <= Left(offers', st, n) == Left(offers, st, n)
  {
    if 0 < n {
      RestatedLeavesTheSame(offers, offers', st, n - 1);
    }
  }

  /** A phase is not moved by offering its groups their own outcome. */
  lemma RestatedFillsTheSame(offers: seq<Offer>, offers': seq<Offer>, st: Stage)
    requires Restated(offers, offers', st)
    ensures Fill(offers', st) == Fill(offers, st)
  {
    RestatedLeavesTheSame(offers, offers', st, |offers|);
    forall i | 0 <= i < |offers|
      ensures After(offers', st, i) == After(offers, st, i)
    {
      RestatedLeavesTheSame(offers, offers', st, i);
    }
    assert Fill(offers', st).held == Fill(offers, st).held;
  }
}
