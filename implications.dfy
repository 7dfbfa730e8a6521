/**
 * Tag implications: each tag's metadata lists the more general tags it
 * implies. `inherit`, `constrain` and `remove` rewrite a score dict along
 * that graph. The graph is acyclic: a ghost rank strictly decreases along
 * every edge, which is what makes the recursions terminate.
 */
module Implications {
  import opened OrderedDict
  import opened Wrappers

  /** One metadata row: category id and the tags it directly implies. */
  datatype TagInfo = TagInfo(category: int, implies: seq<string>)

  type Metadata = map<string, TagInfo>

  type Scores = map<string, real>

  /** Every implied tag has metadata and a lower rank than its antecedent. */
  ghost predicate Ranked(meta: Metadata, rank: map<string, nat>) {
    forall t :: t in meta ==>
      && t in rank
      && forall c :: c in meta[t].implies ==> c in meta && c in rank && rank[c] < rank[t]
  }

  /** Implied tags of a list, all ranked below `bound`. */
  ghost predicate Below(meta: Metadata, rank: map<string, nat>, cs: seq<string>, bound: nat)
    requires Ranked(meta, rank)
  {
    forall c :: c in cs ==> c in meta && rank[c] < bound
  }

  /** The transitive consequents of `a`: every tag reachable along one or more edges. */
  ghost function Desc(meta: Metadata, rank: map<string, nat>, a: string): set<string>
    requires Ranked(meta, rank) && a in meta
    decreases rank[a], 1, 0
  {
    DescList(meta, rank, meta[a].implies, rank[a])
  }

  /** The tags of `cs` and all their transitive consequents. */
  ghost function DescList(meta: Metadata, rank: map<string, nat>, cs: seq<string>, bound: nat): set<string>
    requires Ranked(meta, rank) && Below(meta, rank, cs, bound)
    decreases bound, 0, |cs|
  {
    if cs == [] then {}
    else {cs[0]} + Desc(meta, rank, cs[0]) + DescList(meta, rank, cs[1..], bound)
  }

  /** Consequents are ranked strictly below their antecedent, so no tag implies itself. */
  lemma {:induction false} DescRanked(meta: Metadata, rank: map<string, nat>, a: string)
    requires Ranked(meta, rank) && a in meta
    ensures forall d :: d in Desc(meta, rank, a) ==> d in meta && rank[d] < rank[a]
    ensures a !in Desc(meta, rank, a)
    decreases rank[a], 1, 0
  {
    DescListRanked(meta, rank, meta[a].implies, rank[a]);
  }

  lemma {:induction false} DescListRanked(meta: Metadata, rank: map<string, nat>, cs: seq<string>, bound: nat)
    requires Ranked(meta, rank) && Below(meta, rank, cs, bound)
    ensures forall d :: d in DescList(meta, rank, cs, bound) ==> d in meta && rank[d] < bound
    decreases bound, 0, |cs|
  {
    if cs != [] {
      DescRanked(meta, rank, cs[0]);
      DescListRanked(meta, rank, cs[1..], bound);
    }
  }

  /** Dropping leading entries of a consequent list only shrinks what it reaches. */
  lemma {:induction false} DescListSuffix(meta: Metadata, rank: map<string, nat>, cs: seq<string>, bound: nat, i: nat)
    requires Ranked(meta, rank) && Below(meta, rank, cs, bound) && i <= |cs|
    ensures DescList(meta, rank, cs[i..], bound) <= DescList(meta, rank, cs, bound)
    decreases i
  {
    if i > 0 {
      DescListSuffix(meta, rank, cs[1..], bound, i - 1);
      assert cs[1..][i - 1..] == cs[i..];
    }
  }

  /** Implication is transitive: a consequent's consequents are consequents too. */
  lemma {:induction false} DescTransitive(meta: Metadata, rank: map<string, nat>, a: string, x: string)
    requires Ranked(meta, rank) && a in meta && x in Desc(meta, rank, a)
    ensures x in meta && Desc(meta, rank, x) <= Desc(meta, rank, a)
    decreases rank[a], 1, 0
  {
    DescListTransitive(meta, rank, meta[a].implies, rank[a], x);
  }

  lemma {:induction false} DescListTransitive(meta: Metadata, rank: map<string, nat>, cs: seq<string>, bound: nat, x: string)
    requires Ranked(meta, rank) && Below(meta, rank, cs, bound) && x in DescList(meta, rank, cs, bound)
    ensures x in meta && Desc(meta, rank, x) <= DescList(meta, rank, cs, bound)
    decreases bound, 0, |cs|
  {
    DescListRanked(meta, rank, cs, bound);
    if x != cs[0] {
      if x in Desc(meta, rank, cs[0]) {
        DescTransitive(meta, rank, cs[0], x);
      } else {
        DescListTransitive(meta, rank, cs[1..], bound, x);
      }
    }
  }

  // ---------------------------------------------------------------- inherit

  /** Scores after `inherit_implications(labels, a, metadata)`. */
  ghost function Inherit(L: Scores, meta: Metadata, rank: map<string, nat>, a: string): (r: Scores)
    requires Ranked(meta, rank) && a in meta && a in L && Desc(meta, rank, a) <= L.Keys
    ensures r.Keys == L.Keys
    ensures forall k :: k in L ==> r[k] >= L[k]
    decreases rank[a], 1, 0
  {
    InheritEach(L, L[a], meta, rank, meta[a].implies, rank[a])
  }

  /** The loop of `inherit_implications` over the consequents `cs`, with `p` the antecedent's score on entry. */
  ghost function InheritEach(L: Scores, p: real, meta: Metadata, rank: map<string, nat>, cs: seq<string>, bound: nat): (r: Scores)
    requires Ranked(meta, rank) && Below(meta, rank, cs, bound)
    requires DescList(meta, rank, cs, bound) <= L.Keys
    ensures r.Keys == L.Keys
    ensures forall k :: k in L ==> r[k] >= L[k]
    decreases bound, 0, |cs|
  {
    if cs == [] then L
    else
      var c := cs[0];
      var raised := if L[c] < p then L[c := p] else L;
      InheritEach(Inherit(raised, meta, rank, c), p, meta, rank, cs[1..], bound)
  }

  /** After inheriting, every transitive consequent scores at least the antecedent's entry score. */
  lemma {:induction false} InheritDominates(L: Scores, meta: Metadata, rank: map<string, nat>, a: string)
    requires Ranked(meta, rank) && a in meta && a in L && Desc(meta, rank, a) <= L.Keys
    ensures forall d :: d in Desc(meta, rank, a) ==> Inherit(L, meta, rank, a)[d] >= L[a]
    decreases rank[a], 1, 0
  {
    InheritEachDominates(L, L[a], meta, rank, meta[a].implies, rank[a]);
  }

  lemma {:induction false} InheritEachDominates(L: Scores, p: real, meta: Metadata, rank: map<string, nat>, cs: seq<string>, bound: nat)
    requires Ranked(meta, rank) && Below(meta, rank, cs, bound)
    requires DescList(meta, rank, cs, bound) <= L.Keys
    ensures forall d :: d in DescList(meta, rank, cs, bound) ==> InheritEach(L, p, meta, rank, cs, bound)[d] >= p
    decreases bound, 0, |cs|
  {
    if cs != [] {
      var c := cs[0];
      var raised := if L[c] < p then L[c := p] else L;
      var next := Inherit(raised, meta, rank, c);
      InheritDominates(raised, meta, rank, c);
      InheritEachDominates(next, p, meta, rank, cs[1..], bound);
    }
  }

  /** The tags of `within` that transitively imply `d`. */
  ghost function Implying(meta: Metadata, rank: map<string, nat>, d: string, within: set<string>): set<string>
    requires Ranked(meta, rank)
  {
    set x | x in within && x in meta && d in Desc(meta, rank, x)
  }

  /** `v` is the maximum of `base` and of the scores of the tags in `over`. */
  ghost predicate IsMaximum(v: real, base: real, L: Scores, over: set<string>)
    requires over <= L.Keys
  {
    && v >= base
    && (forall x :: x in over ==> v >= L[x])
    && (v == base || exists x :: x in over && v == L[x])
  }

  /** `r[k]` is `L[k]`, or the `L` score of a tag of `S` that implies `k`. */
  ghost predicate Witnessed(meta: Metadata, rank: map<string, nat>, r: Scores, L: Scores, S: set<string>, k: string)
    requires Ranked(meta, rank)
  {
    && k in r && k in L
    && (r[k] == L[k] || exists y :: y in S && y in L && y in meta && k in Desc(meta, rank, y) && r[k] == L[y])
  }

  /**
   * Every score of `r` came from `L`: it is a tag's own score, the score `p`
   * given to a tag of `S`, or the score of a tag of `S` that implies it.
   */
  ghost predicate Attained(meta: Metadata, rank: map<string, nat>, r: Scores, L: Scores, p: real, S: set<string>)
    requires Ranked(meta, rank)
  {
    forall k :: k in r ==> (k in S && r[k] == p) || Witnessed(meta, rank, r, L, S, k)
  }

  /** A tag and its consequents are closed under implication. */
  lemma DescClosed(meta: Metadata, rank: map<string, nat>, c: string)
    requires Ranked(meta, rank) && c in meta
    ensures forall y :: y in {c} + Desc(meta, rank, c) ==> y in meta && Desc(meta, rank, y) <= {c} + Desc(meta, rank, c)
  {
    forall y | y in Desc(meta, rank, c) ensures y in meta && Desc(meta, rank, y) <= Desc(meta, rank, c) {
      DescTransitive(meta, rank, c, y);
    }
  }

  /** Two passes that each only pass on scores compose, when the first one's tags are closed under implication. */
  lemma AttainedCompose(meta: Metadata, rank: map<string, nat>, r: Scores, M: Scores, L: Scores, p: real,
                        S1: set<string>, S2: set<string>)
    requires Ranked(meta, rank)
    requires r.Keys == M.Keys == L.Keys
    requires Attained(meta, rank, r, M, p, S2) && Attained(meta, rank, M, L, p, S1)
    requires forall y :: y in S1 ==> y in meta && Desc(meta, rank, y) <= S1
    ensures Attained(meta, rank, r, L, p, S1 + S2)
  {
    forall k | k in r ensures (k in S1 + S2 && r[k] == p) || Witnessed(meta, rank, r, L, S1 + S2, k) {
      if !(k in S2 && r[k] == p) {
        if r[k] != M[k] {
          var y :| y in S2 && y in M && y in meta && k in Desc(meta, rank, y) && r[k] == M[y];
          if y in S1 && M[y] == p {
            assert k in S1;
          } else if M[y] != L[y] {
            var z :| z in S1 && z in L && z in meta && y in Desc(meta, rank, z) && M[y] == L[z];
            DescTransitive(meta, rank, z, y);
            assert Witnessed(meta, rank, r, L, S1 + S2, k);
          } else {
            assert Witnessed(meta, rank, r, L, S1 + S2, k);
          }
        } else if !(k in S1 && M[k] == p) && M[k] != L[k] {
          var y :| y in S1 && y in L && y in meta && k in Desc(meta, rank, y) && M[k] == L[y];
          assert Witnessed(meta, rank, r, L, S1 + S2, k);
        }
      }
    }
  }

  /** Raising consequent `c` to `p` and then inheriting from `c` passes on only `p` and old scores. */
  lemma InheritRaiseStep(meta: Metadata, rank: map<string, nat>, L: Scores, raised: Scores, next: Scores, p: real, c: string)
    requires Ranked(meta, rank) && c in meta && c in L && Desc(meta, rank, c) <= L.Keys
    requires raised == if L[c] < p then L[c := p] else L
    requires next.Keys == L.Keys
    requires Attained(meta, rank, next, raised, raised[c], Desc(meta, rank, c))
    ensures Attained(meta, rank, next, L, p, {c} + Desc(meta, rank, c))
  {
    DescRanked(meta, rank, c);
    var S := {c} + Desc(meta, rank, c);
    forall k | k in next ensures (k in S && next[k] == p) || Witnessed(meta, rank, next, L, S, k) {
      if k in Desc(meta, rank, c) && next[k] == raised[c] {
        if raised[c] != p {
          assert Witnessed(meta, rank, next, L, S, k);
        }
      } else if next[k] != raised[k] {
        var y :| y in Desc(meta, rank, c) && y in raised && y in meta && k in Desc(meta, rank, y) && next[k] == raised[y];
        assert y != c;
        assert Witnessed(meta, rank, next, L, S, k);
      }
    }
  }

  /**
   * Inheriting only passes scores on: every score afterwards is the tag's
   * own, the antecedent's score on entry (for a consequent), or the score
   * of a consequent that implies it.
   */
  lemma {:induction false} InheritAttained(L: Scores, meta: Metadata, rank: map<string, nat>, a: string)
    requires Ranked(meta, rank) && a in meta && a in L && Desc(meta, rank, a) <= L.Keys
    ensures Attained(meta, rank, Inherit(L, meta, rank, a), L, L[a], Desc(meta, rank, a))
    decreases rank[a], 1, 0
  {
    InheritEachAttained(L, L[a], meta, rank, meta[a].implies, rank[a]);
  }

  lemma {:induction false} InheritEachAttained(L: Scores, p: real, meta: Metadata, rank: map<string, nat>, cs: seq<string>, bound: nat)
    requires Ranked(meta, rank) && Below(meta, rank, cs, bound)
    requires DescList(meta, rank, cs, bound) <= L.Keys
    ensures Attained(meta, rank, InheritEach(L, p, meta, rank, cs, bound), L, p, DescList(meta, rank, cs, bound))
    decreases bound, 0, |cs|
  {
    if cs == [] {
    } else {
      var c := cs[0];
      var raised := if L[c] < p then L[c := p] else L;
      var next := Inherit(raised, meta, rank, c);
      var here := {c} + Desc(meta, rank, c);
      InheritAttained(raised, meta, rank, c);
      InheritRaiseStep(meta, rank, L, raised, next, p, c);
      InheritEachAttained(next, p, meta, rank, cs[1..], bound);
      DescClosed(meta, rank, c);
      AttainedCompose(meta, rank, InheritEach(next, p, meta, rank, cs[1..], bound), next, L, p,
                      here, DescList(meta, rank, cs[1..], bound));
      assert here + DescList(meta, rank, cs[1..], bound) == DescList(meta, rank, cs, bound);
    }
  }

  /** Every transitive consequent of a consequent `x` of `a` ends at least at `x`'s score on entry. */
  lemma {:induction false} InheritDominatesAll(L: Scores, meta: Metadata, rank: map<string, nat>, a: string)
    requires Ranked(meta, rank) && a in meta && a in L && Desc(meta, rank, a) <= L.Keys
    ensures forall x, d :: x in Desc(meta, rank, a) && x in meta && d in Desc(meta, rank, x) && d in L ==>
      Inherit(L, meta, rank, a)[d] >= L[x]
    decreases rank[a], 1, 0
  {
    InheritEachDominatesAll(L, L[a], meta, rank, meta[a].implies, rank[a]);
  }

  lemma {:induction false} InheritEachDominatesAll(L: Scores, p: real, meta: Metadata, rank: map<string, nat>,
                                                   cs: seq<string>, bound: nat)
    requires Ranked(meta, rank) && Below(meta, rank, cs, bound)
    requires DescList(meta, rank, cs, bound) <= L.Keys
    ensures forall x, d :: x in DescList(meta, rank, cs, bound) && x in meta && d in Desc(meta, rank, x) && d in L ==>
      InheritEach(L, p, meta, rank, cs, bound)[d] >= L[x]
    decreases bound, 0, |cs|
  {
    if cs != [] {
      var c := cs[0];
      var raised := if L[c] < p then L[c := p] else L;
      var next := Inherit(raised, meta, rank, c);
      var r := InheritEach(next, p, meta, rank, cs[1..], bound);
      InheritDominates(raised, meta, rank, c);
      InheritDominatesAll(raised, meta, rank, c);
      InheritEachDominatesAll(next, p, meta, rank, cs[1..], bound);
      DescListRanked(meta, rank, cs, bound);
      forall x, d | x in DescList(meta, rank, cs, bound) && x in meta && d in Desc(meta, rank, x) && d in L
        ensures r[d] >= L[x]
      {
        if x != c && x !in Desc(meta, rank, c) {
          assert x in DescList(meta, rank, cs[1..], bound);
        } else if x in Desc(meta, rank, c) {
          DescTransitive(meta, rank, c, x);
        }
      }
    }
  }

  /**
   * The help text's "tags inherit the highest probability of the more
   * specific tags that imply them": after inheriting from `a`, a consequent
   * scores the maximum of its own score and those of `a` and of the
   * consequents of `a` that imply it; every other tag keeps its score.
   */
  lemma InheritIsMaximum(L: Scores, meta: Metadata, rank: map<string, nat>, a: string)
    requires Ranked(meta, rank) && a in meta && a in L && Desc(meta, rank, a) <= L.Keys
    ensures var r := Inherit(L, meta, rank, a);
      && (forall d :: d in Desc(meta, rank, a) ==>
            IsMaximum(r[d], L[d], L, Implying(meta, rank, d, {a} + Desc(meta, rank, a))))
      && (forall k :: k in L && k !in Desc(meta, rank, a) ==> r[k] == L[k])
  {
    var r := Inherit(L, meta, rank, a);
    InheritAttained(L, meta, rank, a);
    forall d | d in Desc(meta, rank, a)
      ensures IsMaximum(r[d], L[d], L, Implying(meta, rank, d, {a} + Desc(meta, rank, a)))
    {
      InheritMaximumAt(L, meta, rank, a, d);
    }
    forall k | k in L && k !in Desc(meta, rank, a) ensures r[k] == L[k] {
      assert Witnessed(meta, rank, r, L, Desc(meta, rank, a), k);
      if r[k] != L[k] {
        var y :| y in Desc(meta, rank, a) && y in L && y in meta && k in Desc(meta, rank, y) && r[k] == L[y];
        DescTransitive(meta, rank, a, y);
      }
    }
  }

  lemma InheritMaximumAt(L: Scores, meta: Metadata, rank: map<string, nat>, a: string, d: string)
    requires Ranked(meta, rank) && a in meta && a in L && Desc(meta, rank, a) <= L.Keys
    requires d in Desc(meta, rank, a)
    ensures IsMaximum(Inherit(L, meta, rank, a)[d], L[d], L, Implying(meta, rank, d, {a} + Desc(meta, rank, a)))
  {
    var r := Inherit(L, meta, rank, a);
    var over := Implying(meta, rank, d, {a} + Desc(meta, rank, a));
    InheritAttained(L, meta, rank, a);
    InheritDominates(L, meta, rank, a);
    InheritDominatesAll(L, meta, rank, a);
    assert a in over;
    forall x | x in over ensures r[d] >= L[x] {
      if x != a {
        DescTransitive(meta, rank, a, x);
      }
    }
    assert (d in Desc(meta, rank, a) && r[d] == L[a]) || Witnessed(meta, rank, r, L, Desc(meta, rank, a), d);
    if r[d] != L[d] && r[d] != L[a] {
      var y :| y in Desc(meta, rank, a) && y in L && y in meta && d in Desc(meta, rank, y) && r[d] == L[y];
      assert y in over;
    }
  }

  // -------------------------------------------------------------- constrain

  /** Scores after `constrain_implications(labels, a, metadata, _target=t)`. */
  ghost function Constrain(L: Scores, meta: Metadata, rank: map<string, nat>, a: string, t: string): (r: Scores)
    requires Ranked(meta, rank) && a in meta && t in L && Desc(meta, rank, a) <= L.Keys
    ensures r.Keys == L.Keys
    ensures forall k :: k in L && k != t ==> r[k] == L[k]
    ensures r[t] <= L[t]
    decreases rank[a], 1, 0
  {
    ConstrainEach(L, meta, rank, meta[a].implies, rank[a], t)
  }

  /** The loop of `constrain_implications` over the consequents `cs`. */
  ghost function ConstrainEach(L: Scores, meta: Metadata, rank: map<string, nat>, cs: seq<string>, bound: nat, t: string): (r: Scores)
    requires Ranked(meta, rank) && Below(meta, rank, cs, bound)
    requires t in L && DescList(meta, rank, cs, bound) <= L.Keys
    ensures r.Keys == L.Keys
    ensures forall k :: k in L && k != t ==> r[k] == L[k]
    ensures r[t] <= L[t]
    decreases bound, 0, |cs|
  {
    if cs == [] then L
    else
      var c := cs[0];
      var lowered := if L[t] > L[c] then L[t := L[c]] else L;
      ConstrainEach(Constrain(lowered, meta, rank, c, t), meta, rank, cs[1..], bound, t)
  }

  /** `v` is the minimum of `base` and of the scores of the tags in `over`. */
  ghost predicate IsMinimum(v: real, base: real, L: Scores, over: set<string>)
    requires over <= L.Keys
  {
    && v <= base
    && (forall d :: d in over ==> v <= L[d])
    && (v == base || exists d :: d in over && v == L[d])
  }

  /**
   * Constraining lowers the target to the minimum of its own score and the
   * scores of all transitive consequents of `a` (the target is not one of them).
   */
  lemma {:induction false} ConstrainIsMinimum(L: Scores, meta: Metadata, rank: map<string, nat>, a: string, t: string)
    requires Ranked(meta, rank) && a in meta && t in L && Desc(meta, rank, a) <= L.Keys
    requires t !in Desc(meta, rank, a)
    ensures IsMinimum(Constrain(L, meta, rank, a, t)[t], L[t], L, Desc(meta, rank, a))
    decreases rank[a], 1, 0
  {
    ConstrainEachIsMinimum(L, meta, rank, meta[a].implies, rank[a], t);
  }

  lemma {:induction false} ConstrainEachIsMinimum(L: Scores, meta: Metadata, rank: map<string, nat>, cs: seq<string>, bound: nat, t: string)
    requires Ranked(meta, rank) && Below(meta, rank, cs, bound)
    requires t in L && DescList(meta, rank, cs, bound) <= L.Keys
    requires t !in DescList(meta, rank, cs, bound)
    ensures IsMinimum(ConstrainEach(L, meta, rank, cs, bound, t)[t], L[t], L, DescList(meta, rank, cs, bound))
    decreases bound, 0, |cs|
  {
    if cs != [] {
      var c := cs[0];
      var lowered := if L[t] > L[c] then L[t := L[c]] else L;
      var after := Constrain(lowered, meta, rank, c, t);
      var r := ConstrainEach(after, meta, rank, cs[1..], bound, t);
      var here := Desc(meta, rank, c);
      var later := DescList(meta, rank, cs[1..], bound);
      assert DescList(meta, rank, cs, bound) == {c} + here + later;
      assert t != c && t !in here && t !in later;
      ConstrainIsMinimum(lowered, meta, rank, c, t);
      ConstrainEachIsMinimum(after, meta, rank, cs[1..], bound, t);
      ConstrainStep(L, lowered, after, r, c, t, here, later);
    }
  }

  /**
   * Bookkeeping for the step of ConstrainEachIsMinimum: lowering to the first
   * consequent, then constraining through its consequents and through the rest
   * of the list, leaves the minimum over all three parts.
   */
  lemma ConstrainStep(L: Scores, lowered: Scores, after: Scores, r: Scores, c: string, t: string, here: set<string>, later: set<string>)
    requires c in L && t in L && t != c && t !in here && t !in later
    requires here <= L.Keys && later <= L.Keys
    requires lowered == if L[t] > L[c] then L[t := L[c]] else L
    requires r.Keys == after.Keys
    requires after.Keys == lowered.Keys && forall k :: k in lowered && k != t ==> after[k] == lowered[k]
    requires IsMinimum(after[t], lowered[t], lowered, here)
    requires IsMinimum(r[t], after[t], after, later)
    ensures IsMinimum(r[t], L[t], L, {c} + here + later)
  {
    assert forall d :: d in here ==> lowered[d] == L[d];
    assert forall d :: d in later ==> after[d] == L[d];
    MinimumCombine(r[t], after[t], lowered[t], L, c, here, later);
  }

  /** Minimums over the three parts combine. */
  lemma MinimumCombine(v: real, mid: real, low: real, L: Scores, c: string, here: set<string>, later: set<string>)
    requires c in L && here <= L.Keys && later <= L.Keys
    requires v <= mid <= low <= L[c]
    requires forall d :: d in here ==> mid <= L[d]
    requires forall d :: d in later ==> v <= L[d]
    requires mid == low || exists d :: d in here && mid == L[d]
    requires v == mid || exists d :: d in later && v == L[d]
    ensures forall d :: d in {c} + here + later ==> v <= L[d]
    ensures forall base :: base >= low && (low == base || low == L[c]) ==>
      IsMinimum(v, base, L, {c} + here + later)
  {
  }

  // ----------------------------------------------------------------- remove

  /** The dict after `remove_implications(labels, a, metadata)`. */
  ghost function RemoveImplied(d: Dict<real>, meta: Metadata, rank: map<string, nat>, a: string): (r: Dict<real>)
    requires Ranked(meta, rank) && a in meta && Valid(d)
    ensures Valid(r)
    decreases rank[a], 1, 0
  {
    RemoveEach(d, meta, rank, meta[a].implies, rank[a])
  }

  /** The loop of `remove_implications` over the consequents `cs`. */
  ghost function RemoveEach(d: Dict<real>, meta: Metadata, rank: map<string, nat>, cs: seq<string>, bound: nat): (r: Dict<real>)
    requires Ranked(meta, rank) && Below(meta, rank, cs, bound) && Valid(d)
    ensures Valid(r)
    decreases bound, 0, |cs|
  {
    if cs == [] then d
    else RemoveEach(RemoveImplied(Pop(d, cs[0]), meta, rank, cs[0]), meta, rank, cs[1..], bound)
  }

  /** Removing deletes exactly the transitive consequents and keeps everything else, in order. */
  lemma {:induction false} RemoveDropsDescendants(d: Dict<real>, meta: Metadata, rank: map<string, nat>, a: string)
    requires Ranked(meta, rank) && a in meta && Valid(d)
    ensures RemoveImplied(d, meta, rank, a) == Drop(d, Desc(meta, rank, a))
    decreases rank[a], 1, 0
  {
    RemoveEachDrops(d, meta, rank, meta[a].implies, rank[a]);
  }

  lemma {:induction false} RemoveEachDrops(d: Dict<real>, meta: Metadata, rank: map<string, nat>, cs: seq<string>, bound: nat)
    requires Ranked(meta, rank) && Below(meta, rank, cs, bound) && Valid(d)
    ensures RemoveEach(d, meta, rank, cs, bound) == Drop(d, DescList(meta, rank, cs, bound))
    decreases bound, 0, |cs|
  {
    if cs == [] {
      DropNothing(d);
    } else {
      var c := cs[0];
      var popped := Pop(d, c);
      var after := RemoveImplied(popped, meta, rank, c);
      RemoveDropsDescendants(popped, meta, rank, c);
      RemoveEachDrops(after, meta, rank, cs[1..], bound);
      DropDrop(d, {c}, Desc(meta, rank, c));
      DropDrop(d, {c} + Desc(meta, rank, c), DescList(meta, rank, cs[1..], bound));
    }
  }

  /** Removal never deletes the antecedent itself. */
  lemma RemoveKeepsAntecedent(d: Dict<real>, meta: Metadata, rank: map<string, nat>, a: string)
    requires Ranked(meta, rank) && a in meta && Valid(d)
    ensures a in d.vals <==> a in RemoveImplied(d, meta, rank, a).vals
  {
    RemoveDropsDescendants(d, meta, rank, a);
    DescRanked(meta, rank, a);
  }

  // ------------------------------------------------------- in-place methods

  /** The `labels` dict that the three functions below mutate in place. */
  class Labels {
    var items: Dict<real>

    constructor (items: Dict<real>)
      ensures this.items == items
    {
      this.items := items;
    }
  }

  /** `inherit_implications(labels, antecedent, metadata)`. */
  method InheritImplications(labels: Labels, antecedent: string, meta: Metadata, ghost rank: map<string, nat>)
    requires Ranked(meta, rank) && antecedent in meta
    requires antecedent in labels.items.vals && Desc(meta, rank, antecedent) <= labels.items.vals.Keys
    modifies labels
    ensures labels.items == old(labels.items).(vals := Inherit(old(labels.items.vals), meta, rank, antecedent))
    decreases rank[antecedent]
  {
    var p := labels.items.vals[antecedent];
    var cs := meta[antecedent].implies;
    ghost var bound := rank[antecedent];
    ghost var start := labels.items.vals;
    for i := 0 to |cs|
      invariant labels.items.keys == old(labels.items.keys)
      invariant labels.items.vals.Keys == start.Keys
      invariant DescList(meta, rank, cs[i..], bound) <= start.Keys
      invariant InheritEach(labels.items.vals, p, meta, rank, cs[i..], bound)
             == InheritEach(start, p, meta, rank, cs, bound)
    {
      DescListSuffix(meta, rank, cs, bound, i);
      var c := cs[i];
      assert cs[i..][0] == c && cs[i..][1..] == cs[i + 1..];
      if labels.items.vals[c] < p {
        labels.items := labels.items.(vals := labels.items.vals[c := p]);
      }
      InheritImplications(labels, c, meta, rank);
    }
  }

  /** `constrain_implications(labels, antecedent, metadata, _target=target)`. */
  method ConstrainImplications(labels: Labels, antecedent: string, meta: Metadata, ghost rank: map<string, nat>, target: Option<string>)
    requires Ranked(meta, rank) && antecedent in meta
    requires Desc(meta, rank, antecedent) <= labels.items.vals.Keys
    requires (if target.Some? then target.value else antecedent) in labels.items.vals
    modifies labels
    ensures labels.items == old(labels.items).(vals := Constrain(old(labels.items.vals), meta, rank, antecedent,
                                                                 if target.Some? then target.value else antecedent))
    decreases rank[antecedent]
  {
    var t := if target.Some? then target.value else antecedent;
    var cs := meta[antecedent].implies;
    ghost var bound := rank[antecedent];
    ghost var start := labels.items.vals;
    for i := 0 to |cs|
      invariant labels.items.keys == old(labels.items.keys)
      invariant labels.items.vals.Keys == start.Keys
      invariant DescList(meta, rank, cs[i..], bound) <= start.Keys
      invariant ConstrainEach(labels.items.vals, meta, rank, cs[i..], bound, t)
             == ConstrainEach(start, meta, rank, cs, bound, t)
    {
      DescListSuffix(meta, rank, cs, bound, i);
      var c := cs[i];
      ghost var before := labels.items.vals;
      assert cs[i..][0] == c && cs[i..][1..] == cs[i + 1..];
      assert Desc(meta, rank, c) <= DescList(meta, rank, cs[i..], bound);
      var p := labels.items.vals[c];
      if labels.items.vals[t] > p {
        labels.items := labels.items.(vals := labels.items.vals[t := p]);
      }
      ghost var lowered := labels.items.vals;
      assert lowered == if before[t] > before[c] then before[t := before[c]] else before;
      ConstrainImplications(labels, c, meta, rank, Some(t));
      assert labels.items.vals == Constrain(lowered, meta, rank, c, t);
    }
  }

  /** `remove_implications(labels, antecedent, metadata)`. */
  method RemoveImplications(labels: Labels, antecedent: string, meta: Metadata, ghost rank: map<string, nat>)
    requires Ranked(meta, rank) && antecedent in meta && Valid(labels.items)
    modifies labels
    ensures labels.items == RemoveImplied(old(labels.items), meta, rank, antecedent)
    decreases rank[antecedent]
  {
    var cs := meta[antecedent].implies;
    ghost var bound := rank[antecedent];
    ghost var start := labels.items;
    for i := 0 to |cs|
      invariant Valid(labels.items)
      invariant RemoveEach(labels.items, meta, rank, cs[i..], bound) == RemoveEach(start, meta, rank, cs, bound)
    {
      var c := cs[i];
      assert cs[i..][0] == c && cs[i..][1..] == cs[i + 1..];
      labels.items := Pop(labels.items, c);
      RemoveImplications(labels, c, meta, rank);
    }
  }
}
