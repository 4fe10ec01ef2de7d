/** The connected-component search of body/lib/depth_denoise.py. */
module DepthDenoise {
  import opened Grid
  import opened Numbers

  // ── what a component is ──

  /** Indices of cells, each an 8-neighbour of the one before. */
  predicate Chain(cells: seq<Cell>, chain: seq<nat>) {
    && chain != []
    && (forall t :: 0 <= t < |chain| ==> chain[t] < |cells|)
    && (forall t :: 0 < t < |chain| ==> Adjacent(cells[chain[t - 1]], cells[chain[t]]))
  }

  predicate ChainFrom(cells: seq<Cell>, chain: seq<nat>, a: nat, b: nat) {
    Chain(cells, chain) && chain[0] == a && chain[|chain| - 1] == b
  }

  /** A chain of 8-neighbours within the input joins the two cells. */
  ghost predicate Joined(cells: seq<Cell>, a: nat, b: nat) {
    exists chain :: ChainFrom(cells, chain, a, b)
  }

  lemma JoinedItself(cells: seq<Cell>, a: nat)
    requires a < |cells|
    ensures Joined(cells, a, a)
  {
    assert ChainFrom(cells, [a], a, a);
  }

  lemma JoinedStep(cells: seq<Cell>, a: nat, b: nat, c: nat)
    requires Joined(cells, a, b) && b < |cells| && c < |cells| && Adjacent(cells[b], cells[c])
    ensures Joined(cells, a, c)
  {
    var chain :| ChainFrom(cells, chain, a, b);
    assert ChainFrom(cells, chain + [c], a, c);
  }

  /** A chain can be followed back, then on along another. */
  lemma {:induction false} JoinedBack(cells: seq<Cell>, a: nat, chain: seq<nat>, c: nat)
    requires Chain(cells, chain) && chain[0] == a && Joined(cells, a, c)
    ensures Joined(cells, chain[|chain| - 1], c)
    decreases |chain|
  {
    if |chain| > 1 {
      var a' := chain[1];
      var onward :| ChainFrom(cells, onward, a, c);
      assert ChainFrom(cells, [a'] + onward, a', c);
      JoinedBack(cells, a', chain[1..], c);
    }
  }

  lemma JoinedAcross(cells: seq<Cell>, root: nat, a: nat, b: nat)
    requires Joined(cells, root, a) && Joined(cells, root, b)
    ensures Joined(cells, a, b)
  {
    var chain :| ChainFrom(cells, chain, root, a);
    JoinedBack(cells, root, chain, b);
  }

  /** No neighbour of a member is left out. */
  predicate Closed(cells: seq<Cell>, s: set<nat>) {
    forall a, b {:trigger a in s, b in s} ::
      a in s && a < |cells| && 0 <= b < |cells| && Adjacent(cells[a], cells[b]) ==> b in s
  }

  lemma {:induction false} ChainStaysIn(cells: seq<Cell>, s: set<nat>, chain: seq<nat>)
    requires Closed(cells, s) && Chain(cells, chain) && chain[0] in s
    ensures chain[|chain| - 1] in s
    decreases |chain|
  {
    if |chain| > 1 {
      assert Adjacent(cells[chain[0]], cells[chain[1]]);
      assert chain[1] in s;
      ChainStaysIn(cells, s, chain[1..]);
    }
  }

  // ── lists of indices ──

  predicate Distinct<T(==)>(xs: seq<T>) {
    forall a, b :: 0 <= a < b < |xs| ==> xs[a] != xs[b]
  }

  lemma DistinctConcat<T>(xs: seq<T>, ys: seq<T>)
    requires Distinct(xs) && Distinct(ys) && forall y :: y in ys ==> y !in xs
    ensures Distinct(xs + ys)
  {
    var all := xs + ys;
    forall a, b | 0 <= a < b < |all| ensures all[a] != all[b] {
      if a < |xs| <= b {
        assert all[a] in xs && all[b] in ys;
      }
    }
  }

  lemma DistinctParts<T>(xs: seq<T>, x: T)
    requires Distinct(xs + [x])
    ensures Distinct(xs) && x !in xs
  {
    var all := xs + [x];
    assert forall i :: 0 <= i < |xs| ==> all[i] == xs[i];
    assert all[|xs|] == x;
  }

  function Elements(xs: seq<nat>): set<nat> {
    set x | x in xs
  }

  function Below(n: nat): (s: set<nat>)
    ensures |s| == n && forall x: nat :: x in s <==> x < n
  {
    if n == 0 then {} else Below(n - 1) + {n - 1}
  }

  lemma {:induction false} DistinctSize(xs: seq<nat>)
    requires Distinct(xs)
    ensures |Elements(xs)| == |xs|
  {
    if xs != [] {
      var front, last := xs[..|xs| - 1], xs[|xs| - 1];
      DistinctSize(front);
      assert xs == front + [last];
      assert last !in front;
      assert Elements(xs) == Elements(front) + {last};
    }
  }

  /** Distinct indices below `n` are at most `n` many. */
  lemma DistinctBounded(xs: seq<nat>, n: nat)
    requires Distinct(xs) && forall x :: x in xs ==> x < n
    ensures |xs| <= n
  {
    DistinctSize(xs);
    SubsetSize(Elements(xs), Below(n));
  }

  // ── the search ──

  /** The dictionary from a cell to its index. */
  predicate Indexes(cells: seq<Cell>, index: map<Cell, nat>) {
    && (forall c :: c in index ==> index[c] < |cells| && cells[index[c]] == c)
    && (forall k :: 0 <= k < |cells| ==> cells[k] in index && index[cells[k]] == k)
  }

  method IndexOf(cells: seq<Cell>) returns (index: map<Cell, nat>)
    requires Distinct(cells)
    ensures Indexes(cells, index)
  {
    index := map[];
    for k := 0 to |cells|
      invariant forall c :: c in index ==> index[c] < k && cells[index[c]] == c
      invariant forall m :: 0 <= m < k ==> cells[m] in index && index[cells[m]] == m
    {
      index := index[cells[k] := k];
    }
  }

  /** `added` are exactly the cells next to `k` that were not seen. */
  predicate Marks(cells: seq<Cell>, k: nat, was: seq<bool>, now: seq<bool>, added: seq<nat>)
    requires k < |cells| == |was| == |now|
  {
    && Distinct(added)
    && (forall j :: j in added ==> j < |cells| && !was[j] && Adjacent(cells[k], cells[j]))
    && (forall j :: 0 <= j < |cells| ==> (now[j] <==> was[j] || j in added))
    && (forall j :: 0 <= j < |cells| && Adjacent(cells[k], cells[j]) ==> now[j])
  }

  /** A neighbour whose offset the double loop visits before `(da, db)`. */
  predicate Before(p: Cell, q: Cell, da: int, db: int) {
    Adjacent(p, q) && (q.i - p.i < da || (q.i - p.i == da && q.j - p.j < db))
  }

  /** What `Spread` has done before offset `(da, db)`. */
  predicate Partly(cells: seq<Cell>, k: nat, was: seq<bool>, now: seq<bool>, added: seq<nat>, da: int, db: int)
  {
    && k < |cells| == |was| == |now|
    && Distinct(added)
    && (forall j :: j in added ==> j < |cells| && !was[j] && Adjacent(cells[k], cells[j]))
    && (forall j :: 0 <= j < |cells| ==> (now[j] <==> was[j] || j in added))
    && (forall j :: 0 <= j < |cells| && Before(cells[k], cells[j], da, db) ==> now[j])
  }

  lemma PartlyStart(cells: seq<Cell>, k: nat, seen: seq<bool>)
    requires k < |cells| == |seen|
    ensures Partly(cells, k, seen, seen, [], -1, -1)
  {
  }

  lemma PartlyRow(cells: seq<Cell>, k: nat, was: seq<bool>, now: seq<bool>, added: seq<nat>, da: int)
    requires Partly(cells, k, was, now, added, da, 2)
    ensures Partly(cells, k, was, now, added, da + 1, -1)
  {
  }

  lemma PartlyDone(cells: seq<Cell>, k: nat, was: seq<bool>, now: seq<bool>, added: seq<nat>)
    requires Partly(cells, k, was, now, added, 2, -1)
    ensures Marks(cells, k, was, now, added)
  {
    hide Distinct;
    assert forall j :: 0 <= j < |cells| && Adjacent(cells[k], cells[j]) ==> Before(cells[k], cells[j], 2, -1);
  }

  /** Nothing to do at this offset: no cell there, or one already seen. */
  lemma PartlySkip(cells: seq<Cell>, k: nat, was: seq<bool>, now: seq<bool>, added: seq<nat>, da: int, db: int)
    requires Partly(cells, k, was, now, added, da, db)
    requires var there := Cell(cells[k].i + da, cells[k].j + db);
      (da, db) == (0, 0) || forall j :: 0 <= j < |cells| && cells[j] == there ==> now[j]
    ensures Partly(cells, k, was, now, added, da, db + 1)
  {
    hide Distinct;
    forall j | 0 <= j < |cells| && Before(cells[k], cells[j], da, db + 1) ensures now[j] {
      assert Before(cells[k], cells[j], da, db) || cells[j] == Cell(cells[k].i + da, cells[k].j + db);
    }
  }

  lemma PartlyMark(cells: seq<Cell>, k: nat, was: seq<bool>, now: seq<bool>, added: seq<nat>, da: int, db: int, j: nat)
    requires Partly(cells, k, was, now, added, da, db) && Distinct(cells)
    requires j < |cells| && !now[j] && (da, db) != (0, 0) && -1 <= da <= 1 && -1 <= db <= 1
    requires cells[j] == Cell(cells[k].i + da, cells[k].j + db)
    ensures Partly(cells, k, was, now[j := true], added + [j], da, db + 1)
  {
    DistinctConcat(added, [j]);
    var next := now[j := true];
    forall m | 0 <= m < |cells| && Before(cells[k], cells[m], da, db + 1) ensures next[m] {
      assert Before(cells[k], cells[m], da, db) || cells[m] == cells[j];
    }
  }

  /** The loop over the eight offsets of cell `k`: mark and push what is not yet seen. */
  method Spread(cells: seq<Cell>, index: map<Cell, nat>, k: nat, seen: array<bool>, stack: seq<nat>)
      returns (grown: seq<nat>)
    requires Distinct(cells) && Indexes(cells, index) && k < |cells| == seen.Length
    modifies seen
    ensures |grown| >= |stack| && grown[..|stack|] == stack
    ensures Marks(cells, k, old(seen[..]), seen[..], grown[|stack|..])
  {
    hide Partly, Marks, Distinct;
    ghost var was, added := seen[..], [];
    grown := stack;
    var at := cells[k];
    PartlyStart(cells, k, was);
    for da := -1 to 2
      invariant Partly(cells, k, was, seen[..], added, da, -1) && grown == stack + added
    {
      for db := -1 to 2
        invariant Partly(cells, k, was, seen[..], added, da, db) && grown == stack + added
      {
        var there := Cell(at.i + da, at.j + db);
        if (da == 0 && db == 0) || there !in index || seen[index[there]] {
          PartlySkip(cells, k, was, seen[..], added, da, db);
          continue;
        }
        var j := index[there];
        PartlyMark(cells, k, was, seen[..], added, da, db, j);
        ghost var before := seen[..];
        seen[j] := true;
        assert seen[..] == before[j := true];
        grown := grown + [j];
        added := added + [j];
      }
      PartlyRow(cells, k, was, seen[..], added, da);
    }
    PartlyDone(cells, k, was, seen[..], added);
    assert grown[|stack|..] == added;
  }

  ghost predicate Found(cells: seq<Cell>, before: set<nat>, root: nat, js: seq<nat>) {
    forall j :: j in js ==> j < |cells| && j !in before && Joined(cells, root, j)
  }

  predicate Explored(cells: seq<Cell>, seen: seq<bool>, j: nat)
    requires |seen| == |cells|
  {
    j < |cells| && forall m: nat :: m < |cells| && Adjacent(cells[j], cells[m]) ==> seen[m]
  }

  /** The state of one search from `root`, with `before` the cells of earlier components. */
  ghost predicate Searching(cells: seq<Cell>, seen: seq<bool>, before: set<nat>, root: nat, comp: seq<nat>, stack: seq<nat>) {
    && |seen| == |cells| && (root in comp || root in stack)
    && Distinct(comp) && Distinct(stack) && (forall j :: j in comp ==> j !in stack)
    && Found(cells, before, root, comp) && Found(cells, before, root, stack)
    && (forall j: nat :: j < |cells| ==> (seen[j] <==> j in before || j in comp || j in stack))
    && (forall j :: j in comp ==> Explored(cells, seen, j))
  }

  lemma FoundPart(cells: seq<Cell>, before: set<nat>, root: nat, all: seq<nat>, part: seq<nat>)
    requires Found(cells, before, root, all) && forall j :: j in part ==> j in all
    ensures Found(cells, before, root, part)
  {
    hide Joined;
  }

  lemma FoundConcat(cells: seq<Cell>, before: set<nat>, root: nat, xs: seq<nat>, ys: seq<nat>)
    requires Found(cells, before, root, xs) && Found(cells, before, root, ys)
    ensures Found(cells, before, root, xs + ys)
  {
    hide Joined;
  }

  lemma FoundMore(cells: seq<Cell>, was: seq<bool>, now: seq<bool>, before: set<nat>, root: nat, k: nat, added: seq<nat>)
    requires k < |cells| == |was| == |now| && Joined(cells, root, k) && Marks(cells, k, was, now, added)
    requires forall j: nat :: j < |cells| && j in before ==> was[j]
    ensures Found(cells, before, root, added)
  {
    hide Joined, Adjacent;
    forall j | j in added ensures Joined(cells, root, j) {
      JoinedStep(cells, root, k, j);
    }
  }

  lemma SeenStep(cells: seq<Cell>, was: seq<bool>, now: seq<bool>, before: set<nat>, comp: seq<nat>, rest: seq<nat>,
                 k: nat, added: seq<nat>)
    requires k < |cells| == |was| == |now| && Marks(cells, k, was, now, added)
    requires forall j: nat :: j < |cells| ==> (was[j] <==> j in before || j in comp || j in rest + [k])
    requires forall j :: j in comp ==> Explored(cells, was, j)
    ensures forall j: nat :: j < |cells| ==> (now[j] <==> j in before || j in comp + [k] || j in rest + added)
    ensures forall j :: j in comp + [k] ==> Explored(cells, now, j)
  {
    hide Adjacent;
    forall j | j in comp + [k] ensures Explored(cells, now, j) {
      if j in comp {
        assert Explored(cells, was, j);
      }
    }
  }

  lemma SearchStep(cells: seq<Cell>, was: seq<bool>, now: seq<bool>, before: set<nat>, root: nat,
                   comp: seq<nat>, stack: seq<nat>, added: seq<nat>)
    requires stack != [] && Searching(cells, was, before, root, comp, stack) && |now| == |cells|
    requires stack[|stack| - 1] < |cells| && Marks(cells, stack[|stack| - 1], was, now, added)
    ensures Searching(cells, now, before, root, comp + [stack[|stack| - 1]], stack[..|stack| - 1] + added)
  {
    hide Joined, Adjacent;
    var n := |stack| - 1;
    var k, rest := stack[n], stack[..n];
    assert stack == rest + [k];
    assert k in stack;
    FoundMore(cells, was, now, before, root, k, added);
    assert forall j :: j in added ==> j !in stack && j !in comp;
    DistinctParts(rest, k);
    DistinctConcat(rest, added);
    DistinctConcat(comp, [k]);
    SeenStep(cells, was, now, before, comp, rest, k, added);
    FoundPart(cells, before, root, stack, rest);
    FoundPart(cells, before, root, stack, [k]);
    FoundConcat(cells, before, root, rest, added);
    FoundConcat(cells, before, root, comp, [k]);
    assert forall j :: j in comp + [k] ==> j !in rest + added;
  }

  /** A list of indices that is a whole class of cells joined by chains. */
  ghost predicate Component(cells: seq<Cell>, comp: seq<nat>) {
    && comp != [] && Distinct(comp)
    && (forall j :: j in comp ==> j < |cells|)
    && (forall a, b: nat {:trigger Joined(cells, a, b)} ::
          a in comp && b < |cells| ==> (b in comp <==> Joined(cells, a, b)))
  }

  lemma AdjacentBack(p: Cell, q: Cell)
    requires Adjacent(p, q)
    ensures Adjacent(q, p)
  {
  }

  /** A finished search leaves its component, and what came before, closed. */
  lemma SearchDone(cells: seq<Cell>, seen: seq<bool>, before: set<nat>, root: nat, comp: seq<nat>)
    requires Searching(cells, seen, before, root, comp, []) && Closed(cells, before)
    ensures Closed(cells, Elements(comp)) && Closed(cells, before + Elements(comp))
  {
    hide Joined, Adjacent;
    forall a, b: nat | a in Elements(comp) && b < |cells| && Adjacent(cells[a], cells[b]) ensures b in Elements(comp) {
      assert Explored(cells, seen, a);
      AdjacentBack(cells[a], cells[b]);
    }
  }

  lemma JoinedStays(cells: seq<Cell>, s: set<nat>, a: nat, b: nat)
    requires Closed(cells, s) && a in s && Joined(cells, a, b)
    ensures b in s
  {
    var chain :| ChainFrom(cells, chain, a, b);
    ChainStaysIn(cells, s, chain);
  }

  lemma SearchIsComponent(cells: seq<Cell>, seen: seq<bool>, before: set<nat>, root: nat, comp: seq<nat>)
    requires Searching(cells, seen, before, root, comp, []) && Closed(cells, before)
    ensures Component(cells, comp)
  {
    hide Joined, Adjacent, Closed;
    SearchDone(cells, seen, before, root, comp);
    forall a, b: nat | a in comp && b < |cells| ensures b in comp <==> Joined(cells, a, b) {
      if b in comp {
        JoinedAcross(cells, root, a, b);
      } else if Joined(cells, a, b) {
        JoinedStays(cells, Elements(comp), a, b);
      }
    }
  }

  /** The lists so far: each a component, no index twice. */
  ghost predicate Separate(cells: seq<Cell>, out: seq<seq<nat>>) {
    && (forall c :: 0 <= c < |out| ==> Component(cells, out[c]))
    && (forall c, c' :: 0 <= c < c' < |out| ==> Elements(out[c]) !! Elements(out[c']))
  }

  function Covered(out: seq<seq<nat>>): set<nat> {
    if out == [] then {} else Covered(out[..|out| - 1]) + Elements(out[|out| - 1])
  }

  lemma {:induction false} ListInCover(out: seq<seq<nat>>, c: nat)
    requires c < |out|
    ensures Elements(out[c]) <= Covered(out)
  {
    if c < |out| - 1 {
      ListInCover(out[..|out| - 1], c);
      assert out[..|out| - 1][c] == out[c];
    }
  }

  lemma {:induction false} CoverHasList(out: seq<seq<nat>>, x: nat)
    requires x in Covered(out)
    ensures exists c :: 0 <= c < |out| && x in out[c]
  {
    var n := |out| - 1;
    if x !in out[n] {
      CoverHasList(out[..n], x);
      var c :| 0 <= c < n && x in out[..n][c];
      assert x in out[c];
    }
  }

  lemma SearchStart(cells: seq<Cell>, seen: seq<bool>, before: set<nat>, root: nat)
    requires |seen| == |cells| && root < |cells| && root !in before
    requires forall j: nat :: j < |cells| ==> (seen[j] <==> j in before || j == root)
    ensures Searching(cells, seen, before, root, [], [root])
  {
    hide Joined;
    JoinedItself(cells, root);
  }

  lemma SearchEnd(cells: seq<Cell>, seen: seq<bool>, before: set<nat>, root: nat, comp: seq<nat>, out: seq<seq<nat>>)
    requires Searching(cells, seen, before, root, comp, []) && Closed(cells, before)
    requires Separate(cells, out) && Covered(out) == before
    ensures Separate(cells, out + [comp]) && Covered(out + [comp]) == before + Elements(comp)
    ensures Closed(cells, before + Elements(comp))
    ensures root in Elements(comp) && Elements(comp) <= Below(|cells|)
    ensures forall j: nat :: j < |cells| ==> (seen[j] <==> j in before + Elements(comp))
  {
    hide Joined, Closed, Component;
    SearchDone(cells, seen, before, root, comp);
    SearchIsComponent(cells, seen, before, root, comp);
    assert (out + [comp])[..|out|] == out;
    forall c | 0 <= c < |out| ensures Elements(out[c]) !! Elements(comp) {
      ListInCover(out, c);
    }
  }

  /** The lists partition the indices, and two cells share a list if and only if a chain of 8-neighbours joins them. */
  lemma SameListIffJoined(cells: seq<Cell>, out: seq<seq<nat>>, a: nat, b: nat)
    requires Separate(cells, out) && Covered(out) == Below(|cells|)
    requires a < |cells| && b < |cells|
    ensures (exists c :: 0 <= c < |out| && a in out[c] && b in out[c]) <==> Joined(cells, a, b)
    ensures forall c, c' :: 0 <= c < |out| && 0 <= c' < |out| && a in out[c] && a in out[c'] ==> c == c'
  {
    hide Joined;
    CoverHasList(out, a);
    var c :| 0 <= c < |out| && a in out[c];
    assert Component(cells, out[c]);
    assert b in out[c] <==> Joined(cells, a, b);
    forall c' | 0 <= c' < |out| && a in out[c'] ensures c' == c {
      assert a in Elements(out[c]) && a in Elements(out[c']);
    }
  }

  /** The inner loop of `_components`: everything reachable from `root`, by a stack. */
  method Search(cells: seq<Cell>, index: map<Cell, nat>, seen: array<bool>, root: nat, ghost before: set<nat>)
      returns (comp: seq<nat>)
    requires Distinct(cells) && Indexes(cells, index) && root < |cells| == seen.Length && root !in before
    requires forall j: nat :: j < |cells| ==> (seen[j] <==> j in before)
    modifies seen
    ensures Searching(cells, seen[..], before, root, comp, [])
  {
    hide Joined, Adjacent, Marks, Indexes;
    var stack := [root];
    seen[root] := true;
    comp := [];
    SearchStart(cells, seen[..], before, root);
    hide Distinct;
    while stack != []
      invariant Searching(cells, seen[..], before, root, comp, stack)
      decreases |cells| - |comp|
    {
      ghost var was, full, done := seen[..], stack, comp;
      var k := stack[|stack| - 1];
      assert k in full;
      stack := stack[..|stack| - 1];
      comp := comp + [k];
      ghost var rest := stack;
      stack := Spread(cells, index, k, seen, stack);
      assert stack == rest + stack[|rest|..];
      SearchStep(cells, was, seen[..], before, root, done, full, stack[|rest|..]);
      DistinctBounded(comp, |cells|);
    }
  }

  lemma NothingYet(cells: seq<Cell>)
    ensures Below(0) == {}
    ensures Separate(cells, []) && Covered([]) == {} && Closed(cells, {})
  {
  }

  /** `_components`: a search from every index not yet seen. */
  method Components(cells: seq<Cell>) returns (out: seq<seq<nat>>)
    requires Distinct(cells)
    ensures Separate(cells, out) && Covered(out) == Below(|cells|)
  {
    hide Joined, Component, Closed, Searching, Indexes, Distinct, Separate, Elements, Covered, Below;
    NothingYet(cells);
    if |cells| == 0 { return []; }
    var index := IndexOf(cells);
    var seen := new bool[|cells|](_ => false);
    out := [];
    ghost var before: set<nat> := {};
    for k0 := 0 to |cells|
      invariant Separate(cells, out) && Covered(out) == before && Closed(cells, before)
      invariant forall j: nat :: j < |cells| ==> (seen[j] <==> j in before)
      invariant forall j: nat :: j < k0 ==> j in before
      invariant before <= Below(|cells|)
    {
      if seen[k0] {
        assert k0 in before;
        continue;
      }
      var comp := Search(cells, index, seen, k0, before);
      SearchEnd(cells, seen[..], before, k0, comp, out);
      out := out + [comp];
      before := before + Elements(comp);
      assert k0 in before;
    }
  }
}
