/** The reference graph of the repository map and its PageRank iteration, over the reals. */
module PageRank {
  import opened RepoMapTypes
  import opened Text
  import opened Counting
  import opened StableSort
  import opened RankOrder

  const ITERATIONS := 30
  const DAMPING := 0.85

  // ---------------------------------------------------------------- the graph

  /** The positions of `x` in `xs`, ascending. */
  function Indices(xs: seq<string>, x: string): seq<nat> {
    if |xs| == 0 then []
    else if xs[|xs| - 1] == x then Indices(xs[..|xs| - 1], x) + [|xs| - 1]
    else Indices(xs[..|xs| - 1], x)
  }

  lemma {:induction false} IndicesMeaning(xs: seq<string>, x: string, i: nat)
    ensures i in Indices(xs, x) <==> i < |xs| && xs[i] == x
  {
    if |xs| > 0 {
      IndicesMeaning(xs[..|xs| - 1], x, i);
    }
  }

  /** The definitions of the first `k` files, one node each. */
  function Nodes(files: seq<FileSymbols>, k: nat): seq<Symbol>
    requires k <= |files|
  {
    if k == 0 then [] else Nodes(files, k - 1) + files[k - 1].defs
  }

  /** The file each node was found in. */
  function Owners(files: seq<FileSymbols>, k: nat): seq<string>
    requires k <= |files|
  {
    if k == 0 then [] else Owners(files, k - 1) + seq(|files[k - 1].defs|, _ => files[k - 1].file)
  }

  function Names(nodes: seq<Symbol>): (r: seq<string>)
    ensures |r| == |nodes|
  {
    seq(|nodes|, i requires 0 <= i < |nodes| => nodes[i].name)
  }

  lemma {:induction false} OneOwnerEach(files: seq<FileSymbols>, k: nat)
    requires k <= |files|
    ensures |Owners(files, k)| == |Nodes(files, k)|
  {
    if k > 0 {
      OneOwnerEach(files, k - 1);
    }
  }

  type Edge = (nat, nat)

  /** The innermost loop: from one node to each of the first `m` targets but itself. */
  function EdgesTo(src: nat, targets: seq<nat>, m: nat): seq<Edge>
    requires m <= |targets|
  {
    if m == 0 then []
    else EdgesTo(src, targets, m - 1) + if targets[m - 1] == src then [] else [(src, targets[m - 1])]
  }

  function EdgesFrom(srcs: seq<nat>, m: nat, targets: seq<nat>): seq<Edge>
    requires m <= |srcs|
  {
    if m == 0 then [] else EdgesFrom(srcs, m - 1, targets) + EdgesTo(srcs[m - 1], targets, |targets|)
  }

  function EdgesOfRefs(srcs: seq<nat>, refs: seq<string>, m: nat, names: seq<string>): seq<Edge>
    requires m <= |refs|
  {
    if m == 0 then []
    else
      var targets := Indices(names, refs[m - 1]);
      EdgesOfRefs(srcs, refs, m - 1, names) + EdgesFrom(srcs, |srcs|, targets)
  }

  function EdgesOfFiles(files: seq<FileSymbols>, m: nat, owners: seq<string>, names: seq<string>): seq<Edge>
    requires m <= |files|
  {
    if m == 0 then []
    else
      var f := files[m - 1];
      EdgesOfFiles(files, m - 1, owners, names) + EdgesOfRefs(Indices(owners, f.file), f.refs, |f.refs|, names)
  }

  /** There is an edge exactly when the nodes differ and a file with the owner's name refers to the target's name. */
  ghost predicate Refers(files: seq<FileSymbols>, m: nat, owner: string, name: string)
    requires m <= |files|
  {
    exists k :: 0 <= k < m && files[k].file == owner && name in files[k].refs
  }

  lemma InOneMore<T>(xs: seq<T>, m: nat, x: T)
    requires 0 < m <= |xs|
    ensures x in xs[..m] <==> x in xs[..m - 1] || x == xs[m - 1]
  {
    assert xs[..m] == xs[..m - 1] + [xs[m - 1]];
  }

  lemma {:induction false} EdgesToMeaning(src: nat, targets: seq<nat>, m: nat, e: Edge)
    requires m <= |targets|
    ensures e in EdgesTo(src, targets, m) <==> e.0 == src && e.1 != src && e.1 in targets[..m]
  {
    if m > 0 {
      EdgesToMeaning(src, targets, m - 1, e);
      InOneMore(targets, m, e.1);
    }
  }

  lemma {:induction false} EdgesFromMeaning(srcs: seq<nat>, m: nat, targets: seq<nat>, e: Edge)
    requires m <= |srcs|
    ensures e in EdgesFrom(srcs, m, targets) <==> e.0 in srcs[..m] && e.1 != e.0 && e.1 in targets
  {
    if m > 0 {
      EdgesFromMeaning(srcs, m - 1, targets, e);
      EdgesToMeaning(srcs[m - 1], targets, |targets|, e);
      InOneMore(srcs, m, e.0);
      assert targets[..|targets|] == targets;
    }
  }

  /** Something is gathered up step by step: it is there after `k + 1` steps when it was there before or step `k` brought it. */
  predicate GathersAt(has: nat -> bool, brings: nat -> bool, k: nat) {
    has(k + 1) <==> has(k) || brings(k)
  }

  lemma {:induction false} Gathered(has: nat -> bool, brings: nat -> bool, m: nat)
    requires !has(0) && forall k: nat :: k < m ==> GathersAt(has, brings, k)
    ensures has(m) <==> exists k: nat :: k < m && brings(k)
  {
    if m > 0 {
      assert GathersAt(has, brings, m - 1);
      Gathered(has, brings, m - 1);
    }
  }

  function InEdgesOfRefs(srcs: seq<nat>, refs: seq<string>, names: seq<string>, e: Edge): nat -> bool {
    (k: nat) => k <= |refs| && e in EdgesOfRefs(srcs, refs, k, names)
  }

  function RefBrings(srcs: seq<nat>, refs: seq<string>, names: seq<string>, e: Edge): nat -> bool {
    (k: nat) => k < |refs| && e.0 in srcs && e.1 != e.0 && e.1 < |names| && names[e.1] == refs[k]
  }

  lemma EdgesOfRefsOneMore(srcs: seq<nat>, refs: seq<string>, names: seq<string>, e: Edge, k: nat)
    requires k < |refs|
    ensures GathersAt(InEdgesOfRefs(srcs, refs, names, e), RefBrings(srcs, refs, names, e), k)
  {
    EdgesOfRefMeaning(srcs, refs[k], names, e);
  }

  lemma EdgesOfRefsMeaning(srcs: seq<nat>, refs: seq<string>, names: seq<string>, e: Edge)
    ensures e in EdgesOfRefs(srcs, refs, |refs|, names)
            <==> e.0 in srcs && e.1 != e.0 && e.1 < |names| && names[e.1] in refs
  {
    var has, brings := InEdgesOfRefs(srcs, refs, names, e), RefBrings(srcs, refs, names, e);
    forall k: nat | k < |refs|
      ensures GathersAt(has, brings, k)
    {
      EdgesOfRefsOneMore(srcs, refs, names, e, k);
    }
    Gathered(has, brings, |refs|);
    assert has(|refs|) == (e in EdgesOfRefs(srcs, refs, |refs|, names));
    assert forall k: nat :: k < |refs| ==> brings(k) == (e.0 in srcs && e.1 != e.0 && e.1 < |names| && names[e.1] == refs[k]);
  }

  lemma EdgesOfRefMeaning(srcs: seq<nat>, ref: string, names: seq<string>, e: Edge)
    ensures e in EdgesFrom(srcs, |srcs|, Indices(names, ref))
            <==> e.0 in srcs && e.1 != e.0 && e.1 < |names| && names[e.1] == ref
  {
    EdgesFromMeaning(srcs, |srcs|, Indices(names, ref), e);
    IndicesMeaning(names, ref, e.1);
    assert srcs[..|srcs|] == srcs;
  }

  lemma RefersOneMore(files: seq<FileSymbols>, m: nat, owner: string, name: string)
    requires 0 < m <= |files|
    ensures Refers(files, m, owner, name)
            <==> Refers(files, m - 1, owner, name) || (files[m - 1].file == owner && name in files[m - 1].refs)
  {
  }

  lemma EdgesOfFileMeaning(f: FileSymbols, owners: seq<string>, names: seq<string>, e: Edge)
    ensures e in EdgesOfRefs(Indices(owners, f.file), f.refs, |f.refs|, names)
            <==> e.0 != e.1 && e.0 < |owners| && owners[e.0] == f.file && e.1 < |names| && names[e.1] in f.refs
  {
    EdgesOfRefsMeaning(Indices(owners, f.file), f.refs, names, e);
    IndicesMeaning(owners, f.file, e.0);
  }

  lemma {:induction false} EdgesMeaning(files: seq<FileSymbols>, m: nat, owners: seq<string>, names: seq<string>, e: Edge)
    requires m <= |files|
    ensures e in EdgesOfFiles(files, m, owners, names)
            <==> e.0 != e.1 && e.0 < |owners| && e.1 < |names| && Refers(files, m, owners[e.0], names[e.1])
  {
    if m > 0 {
      var f := files[m - 1];
      EdgesMeaning(files, m - 1, owners, names, e);
      EdgesOfFileMeaning(f, owners, names, e);
      if e.0 < |owners| && e.1 < |names| {
        RefersOneMore(files, m, owners[e.0], names[e.1]);
      }
    }
  }

  /** The targets of the edges that leave `s`, in order, multi-edges repeated. */
  function TargetsOf(es: seq<Edge>, s: nat): seq<nat> {
    if |es| == 0 then []
    else TargetsOf(es[..|es| - 1], s) + if es[|es| - 1].0 == s then [es[|es| - 1].1] else []
  }

  function CountTo(es: seq<Edge>, t: nat): nat {
    if |es| == 0 then 0 else CountTo(es[..|es| - 1], t) + if es[|es| - 1].1 == t then 1 else 0
  }

  predicate InRange(es: seq<Edge>, n: nat) {
    forall k :: 0 <= k < |es| ==> es[k].0 < n && es[k].1 < n
  }

  /** The two arrays that hold the graph. */
  ghost predicate Holds(outEdges: seq<seq<nat>>, inDegree: seq<nat>, es: seq<Edge>, n: nat) {
    && |outEdges| == |inDegree| == n
    && (forall s :: 0 <= s < n ==> outEdges[s] == TargetsOf(es, s))
    && (forall t :: 0 <= t < n ==> inDegree[t] == CountTo(es, t))
  }

  function SumNat(xs: seq<nat>): nat {
    if |xs| == 0 then 0 else SumNat(xs[..|xs| - 1]) + xs[|xs| - 1]
  }

  lemma {:induction false} SumNatUpdate(xs: seq<nat>, k: nat, more: nat)
    requires k < |xs|
    ensures SumNat(xs[k := xs[k] + more]) == SumNat(xs) + more
  {
    var ys := xs[k := xs[k] + more];
    if k == |xs| - 1 {
      assert ys[..|ys| - 1] == xs[..|xs| - 1];
    } else {
      assert ys[..|ys| - 1] == xs[..|xs| - 1][k := xs[k] + more];
      SumNatUpdate(xs[..|xs| - 1], k, more);
    }
  }

  lemma {:induction false} SumNatZeros(n: nat)
    ensures SumNat(seq(n, _ => 0)) == 0
  {
    if n > 0 {
      assert seq(n, _ => 0)[..n - 1] == seq(n - 1, _ => 0);
      SumNatZeros(n - 1);
    }
  }

  function OutDegrees(es: seq<Edge>, n: nat): (r: seq<nat>)
    ensures |r| == n
  {
    seq(n, s requires 0 <= s < n => |TargetsOf(es, s)|)
  }

  function InDegrees(es: seq<Edge>, n: nat): (r: seq<nat>)
    ensures |r| == n
  {
    seq(n, t requires 0 <= t < n => CountTo(es, t))
  }

  lemma OneEdgeMore(es: seq<Edge>, n: nat)
    requires InRange(es, n) && |es| > 0
    ensures var rest, e := es[..|es| - 1], es[|es| - 1];
            var ins, outs := InDegrees(rest, n), OutDegrees(rest, n);
            InDegrees(es, n) == ins[e.1 := ins[e.1] + 1] && OutDegrees(es, n) == outs[e.0 := outs[e.0] + 1]
  {
  }

  /** Every edge is counted once on each side. */
  lemma {:induction false} DegreesSum(es: seq<Edge>, n: nat)
    requires InRange(es, n)
    ensures SumNat(InDegrees(es, n)) == |es| == SumNat(OutDegrees(es, n))
  {
    if |es| == 0 {
      assert InDegrees(es, n) == seq(n, _ => 0) && OutDegrees(es, n) == seq(n, _ => 0);
      SumNatZeros(n);
    } else {
      var rest, e := es[..|es| - 1], es[|es| - 1];
      DegreesSum(rest, n);
      OneEdgeMore(es, n);
      SumNatUpdate(InDegrees(rest, n), e.1, 1);
      SumNatUpdate(OutDegrees(rest, n), e.0, 1);
    }
  }

  // ---------------------------------------------------------------- one iteration

  function Sum(v: seq<real>): real {
    if |v| == 0 then 0.0 else Sum(v[..|v| - 1]) + v[|v| - 1]
  }

  function Count(ts: seq<nat>, j: nat): nat {
    if |ts| == 0 then 0 else Count(ts[..|ts| - 1], j) + if ts[|ts| - 1] == j then 1 else 0
  }

  ghost predicate IsGraph(outEdges: seq<seq<nat>>) {
    forall s, k :: 0 <= s < |outEdges| && 0 <= k < |outEdges[s]| ==> outEdges[s][k] < |outEdges|
  }

  function Base(n: nat): real
    requires n > 0
  {
    (1.0 - DAMPING) / n as real
  }

  /** What one unit of outflow of a node is worth: to each out-edge, or to every node when there is none. */
  function Contribution(score: real, degree: nat, n: nat): real
    requires n > 0
  {
    if degree == 0 then DAMPING * score / n as real else DAMPING * score / degree as real
  }

  /** `c`, `k` times. */
  function Times(c: real, k: nat): real {
    c * k as real
  }

  function Share(score: real, targets: seq<nat>, n: nat, j: nat): real
    requires n > 0
  {
    var c := Contribution(score, |targets|, n);
    if |targets| == 0 then c else Times(c, Count(targets, j))
  }

  /** What the first `k` nodes give to node `j`. */
  function Inflow(score: seq<real>, outEdges: seq<seq<nat>>, k: nat, j: nat): real
    requires |score| == |outEdges| > 0 && k <= |score|
  {
    if k == 0 then 0.0
    else Inflow(score, outEdges, k - 1, j) + Share(score[k - 1], outEdges[k - 1], |score|, j)
  }

  /** The scores when the first `k` nodes have given. */
  function Partial(score: seq<real>, outEdges: seq<seq<nat>>, k: nat): (r: seq<real>)
    requires |score| == |outEdges| > 0 && k <= |score|
    ensures |r| == |score|
  {
    seq(|score|, j requires 0 <= j < |score| => Base(|score|) + Inflow(score, outEdges, k, j))
  }

  function NextScores(score: seq<real>, outEdges: seq<seq<nat>>): (r: seq<real>)
    requires |score| == |outEdges| > 0
    ensures |r| == |score|
  {
    Partial(score, outEdges, |score|)
  }

  function Iterate(k: nat, score: seq<real>, outEdges: seq<seq<nat>>): (r: seq<real>)
    requires |score| == |outEdges| > 0
    ensures |r| == |score|
  {
    if k == 0 then score else NextScores(Iterate(k - 1, score, outEdges), outEdges)
  }

  function Uniform(n: nat): (r: seq<real>)
    requires n > 0
    ensures |r| == n
  {
    seq(n, _ => 1.0 / n as real)
  }

  // ---------------------------------------------------------------- the equation of an iteration

  lemma {:induction false} CountUpTo(targets: seq<nat>, j: nat, hit: nat -> bool, n: nat)
    requires n <= |targets| && forall k: nat :: k < |targets| ==> (hit(k) <==> targets[k] == j)
    ensures Count(targets[..n], j) == |set k: nat | k < n && hit(k)|
  {
    if n == 0 {
      assert (set k: nat | k < 0 && hit(k)) == {};
    } else {
      CountUpTo(targets, j, hit, n - 1);
      OneMoreHit(hit, n - 1);
      assert targets[..n][..n - 1] == targets[..n - 1];
    }
  }

  /** How many edges of a node go to `j`. */
  lemma CountMeaning(targets: seq<nat>, j: nat)
    ensures Count(targets, j) == |set k: nat | k < |targets| && targets[k] == j|
  {
    var hit := (k: nat) => k < |targets| && targets[k] == j;
    CountUpTo(targets, j, hit, |targets|);
    assert targets[..|targets|] == targets;
    assert (set k: nat | k < |targets| && hit(k)) == (set k: nat | k < |targets| && targets[k] == j);
  }

  /** `flow` is what a node with this score and these targets gives to `j`: 0.85 of its score, dealt evenly to its edges, or to
      all nodes when it has none. */
  ghost predicate Flows(flow: real, score: real, targets: seq<nat>, n: nat, j: nat) {
    if |targets| == 0 then flow * n as real == 0.85 * score
    else
      var edges := |set k: nat | k < |targets| && targets[k] == j|;
      flow * |targets| as real == 0.85 * score * edges as real
  }

  lemma Dealt(c: real, degree: real, total: real, k: real)
    requires c * degree == total
    ensures (c * k) * degree == total * k
  {
    assert (c * k) * degree == (c * degree) * k;
  }

  lemma ShareFlows(score: real, targets: seq<nat>, n: nat, j: nat)
    requires n > 0
    ensures Flows(Share(score, targets, n, j), score, targets, n, j)
  {
    CountMeaning(targets, j);
    if |targets| == 0 {
      Cancel(0.85 * score, n);
    } else {
      var c := Contribution(score, |targets|, n);
      Cancel(0.85 * score, |targets|);
      Dealt(c, |targets| as real, 0.85 * score, Count(targets, j) as real);
    }
  }

  lemma {:induction false} InflowIsSum(score: seq<real>, outEdges: seq<seq<nat>>, k: nat, j: nat) returns (flows: seq<real>)
    requires |score| == |outEdges| > 0 && k <= |score|
    ensures |flows| == k && Inflow(score, outEdges, k, j) == Sum(flows)
    ensures forall i :: 0 <= i < k ==> Flows(flows[i], score[i], outEdges[i], |score|, j)
  {
    if k == 0 {
      flows := [];
    } else {
      var before := InflowIsSum(score, outEdges, k - 1, j);
      var flow := Share(score[k - 1], outEdges[k - 1], |score|, j);
      ShareFlows(score[k - 1], outEdges[k - 1], |score|, j);
      flows := before + [flow];
      assert flows[..k - 1] == before;
    }
  }

  /** One iteration gives a node 0.15 over the number of nodes, and the flows of all nodes. */
  lemma NextScoreEquation(score: seq<real>, outEdges: seq<seq<nat>>, j: nat) returns (flows: seq<real>)
    requires |score| == |outEdges| && j < |score|
    ensures |flows| == |score| && forall i :: 0 <= i < |flows| ==> Flows(flows[i], score[i], outEdges[i], |score|, j)
    ensures (NextScores(score, outEdges)[j] - Sum(flows)) * |score| as real == 0.15
  {
    flows := InflowIsSum(score, outEdges, |score|, j);
    Cancel(0.15, |score|);
  }

  // ---------------------------------------------------------------- no score is lost

  lemma {:induction false} SumOfSums(u: seq<real>, v: seq<real>, w: seq<real>)
    requires |u| == |v| == |w| && forall j :: 0 <= j < |u| ==> w[j] == u[j] + v[j]
    ensures Sum(w) == Sum(u) + Sum(v)
  {
    if |u| > 0 {
      var i := |u| - 1;
      SumOfSums(u[..i], v[..i], w[..i]);
    }
  }

  lemma {:induction false} SumOfConstant(v: seq<real>, c: real)
    requires forall j :: 0 <= j < |v| ==> v[j] == c
    ensures Sum(v) == |v| as real * c
  {
    if |v| > 0 {
      SumOfConstant(v[..|v| - 1], c);
    }
  }

  lemma {:induction false} SumUpdate(v: seq<real>, k: nat, more: real)
    requires k < |v|
    ensures Sum(v[k := v[k] + more]) == Sum(v) + more
  {
    var w := v[k := v[k] + more];
    if k == |v| - 1 {
      assert w[..|w| - 1] == v[..|v| - 1];
    } else {
      assert w[..|w| - 1] == v[..|v| - 1][k := v[k] + more];
      SumUpdate(v[..|v| - 1], k, more);
    }
  }

  function Spread(c: real, targets: seq<nat>, n: nat): (r: seq<real>)
    ensures |r| == n
  {
    seq(n, j requires 0 <= j < n => Times(c, Count(targets, j)))
  }

  lemma SpreadOneMore(c: real, targets: seq<nat>, n: nat)
    requires |targets| > 0 && targets[|targets| - 1] < n
    ensures var before, t := Spread(c, targets[..|targets| - 1], n), targets[|targets| - 1];
            Spread(c, targets, n) == before[t := before[t] + c]
  {
    var rest, t := targets[..|targets| - 1], targets[|targets| - 1];
    Distribute(c, Count(rest, t));
  }

  /** Dealing `c` to every target in a list deals out `c` times its length, repeated targets included. */
  lemma {:induction false} SumOfSpread(c: real, targets: seq<nat>, n: nat)
    requires forall k :: 0 <= k < |targets| ==> targets[k] < n
    ensures Sum(Spread(c, targets, n)) == Times(c, |targets|)
  {
    if |targets| == 0 {
      SumOfConstant(Spread(c, targets, n), 0.0);
    } else {
      var rest, t := targets[..|targets| - 1], targets[|targets| - 1];
      SumOfSpread(c, rest, n);
      SpreadOneMore(c, targets, n);
      SumUpdate(Spread(c, rest, n), t, c);
      Distribute(c, |rest|);
    }
  }

  lemma Distribute(c: real, k: nat)
    ensures Times(c, k + 1) == Times(c, k) + c
  {
  }

  function Shares(score: real, targets: seq<nat>, n: nat): (r: seq<real>)
    requires n > 0
    ensures |r| == n
  {
    seq(n, j requires 0 <= j < n => Share(score, targets, n, j))
  }

  /** A node gives away exactly its damped score. */
  lemma SharesSum(score: real, targets: seq<nat>, n: nat, shares: seq<real>)
    requires n > 0 && |shares| == n && forall j :: 0 <= j < n ==> shares[j] == Share(score, targets, n, j)
    requires forall k :: 0 <= k < |targets| ==> targets[k] < n
    ensures Sum(shares) == DAMPING * score
  {
    var c := Contribution(score, |targets|, n);
    if |targets| == 0 {
      SumOfConstant(shares, c);
      Cancel(DAMPING * score, n);
    } else {
      assert shares == Spread(c, targets, n);
      SumOfSpread(c, targets, n);
      Cancel(DAMPING * score, |targets|);
    }
  }

  lemma Cancel(x: real, k: nat)
    requires k > 0
    ensures x / k as real * k as real == x
    ensures k as real * (x / k as real) == x
  {
  }

  lemma {:induction false} PartialSum(score: seq<real>, outEdges: seq<seq<nat>>, k: nat)
    requires |score| == |outEdges| > 0 && k <= |score| && IsGraph(outEdges)
    ensures Sum(Partial(score, outEdges, k)) == 1.0 - DAMPING + DAMPING * Sum(score[..k])
  {
    var n := |score|;
    if k == 0 {
      SumOfConstant(Partial(score, outEdges, 0), Base(n));
      Cancel(1.0 - DAMPING, n);
    } else {
      PartialSum(score, outEdges, k - 1);
      PartialSumOneMore(score, outEdges, k);
      SumOneMore(score, k);
    }
  }

  lemma SumOneMore(score: seq<real>, k: nat)
    requires 0 < k <= |score|
    ensures Sum(score[..k]) == Sum(score[..k - 1]) + score[k - 1]
  {
    assert score[..k][..k - 1] == score[..k - 1];
  }

  lemma PartialSumOneMore(score: seq<real>, outEdges: seq<seq<nat>>, k: nat)
    requires |score| == |outEdges| > 0 && 0 < k <= |score| && IsGraph(outEdges)
    ensures Sum(Partial(score, outEdges, k)) == Sum(Partial(score, outEdges, k - 1)) + DAMPING * score[k - 1]
  {
    var n := |score|;
    var shares := Shares(score[k - 1], outEdges[k - 1], n);
    SharesSum(score[k - 1], outEdges[k - 1], n, shares);
    SumOfSums(Partial(score, outEdges, k - 1), shares, Partial(score, outEdges, k));
  }

  ghost predicate NonNegative(score: seq<real>) {
    forall j :: 0 <= j < |score| ==> score[j] >= 0.0
  }

  lemma QuotientNonNegative(x: real, k: nat)
    requires x >= 0.0 && k > 0
    ensures x / k as real >= 0.0
  {
    Cancel(x, k);
  }

  lemma {:induction false} InflowNonNegative(score: seq<real>, outEdges: seq<seq<nat>>, k: nat, j: nat)
    requires |score| == |outEdges| > 0 && k <= |score| && NonNegative(score)
    ensures Inflow(score, outEdges, k, j) >= 0.0
  {
    if k > 0 {
      InflowNonNegative(score, outEdges, k - 1, j);
      QuotientNonNegative(DAMPING * score[k - 1], |score|);
      if |outEdges[k - 1]| > 0 {
        QuotientNonNegative(DAMPING * score[k - 1], |outEdges[k - 1]|);
      }
    }
  }

  /** After every iteration the scores sum to one and none is below (1 - d)/n. */
  lemma {:induction false} ScoreIsConserved(k: nat, outEdges: seq<seq<nat>>)
    requires |outEdges| > 0 && IsGraph(outEdges)
    ensures var score := Iterate(k, Uniform(|outEdges|), outEdges);
            Sum(score) == 1.0 && forall j :: 0 <= j < |score| ==> score[j] >= Base(|outEdges|)
  {
    var n := |outEdges|;
    BaseBounds(n);
    if k == 0 {
      SumOfConstant(Uniform(n), 1.0 / n as real);
      Cancel(1.0, n);
    } else {
      ScoreIsConserved(k - 1, outEdges);
      var score := Iterate(k - 1, Uniform(n), outEdges);
      PartialSum(score, outEdges, n);
      assert score[..n] == score;
      forall j | 0 <= j < n
        ensures NextScores(score, outEdges)[j] >= Base(n)
      {
        InflowNonNegative(score, outEdges, n, j);
      }
    }
  }

  lemma BaseBounds(n: nat)
    requires n > 0
    ensures 0.0 <= Base(n) <= 1.0 / n as real
  {
    QuotientNonNegative(1.0 - DAMPING, n);
    QuotientNonNegative(DAMPING, n);
    assert 1.0 / n as real == Base(n) + DAMPING / n as real;
  }

  // ---------------------------------------------------------------- the program

  function Lookup(m: map<string, seq<nat>>, key: string): seq<nat> {
    if key in m then m[key] else []
  }

  ghost predicate IsIndex(m: map<string, seq<nat>>, xs: seq<string>) {
    forall x :: Lookup(m, x) == Indices(xs, x)
  }

  lemma IndexOneMore(m: map<string, seq<nat>>, xs: seq<string>, x: string)
    requires IsIndex(m, xs)
    ensures IsIndex(m[x := Lookup(m, x) + [|xs|]], xs + [x])
  {
    var m', ys := m[x := Lookup(m, x) + [|xs|]], xs + [x];
    assert ys[..|ys| - 1] == xs;
    forall y
      ensures Lookup(m', y) == Indices(ys, y)
    {
      assert Lookup(m, y) == Indices(xs, y);
    }
  }

  /** The first loop: the nodes and the two indexes. */
  method CollectNodes(files: seq<FileSymbols>)
    returns (nodes: seq<Symbol>, fileToDefs: map<string, seq<nat>>, nameToNodes: map<string, seq<nat>>)
    ensures nodes == Nodes(files, |files|)
    ensures IsIndex(fileToDefs, Owners(files, |files|)) && IsIndex(nameToNodes, Names(nodes))
  {
    nodes, fileToDefs, nameToNodes := [], map[], map[];
    ghost var owners: seq<string> := [];
    assert Names(nodes) == [];
    for i := 0 to |files|
      invariant nodes == Nodes(files, i) && owners == Owners(files, i) && |owners| == |nodes|
      invariant IsIndex(fileToDefs, owners) && IsIndex(nameToNodes, Names(nodes))
    {
      var f := files[i];
      ghost var nodes0, owners0 := nodes, owners;
      for k := 0 to |f.defs|
        invariant nodes == nodes0 + f.defs[..k] && |owners| == |nodes|
        invariant owners == owners0 + seq(k, _ => f.file)
        invariant IsIndex(fileToDefs, owners) && IsIndex(nameToNodes, Names(nodes))
      {
        var id, d := |nodes|, f.defs[k];
        IndexOneMore(fileToDefs, owners, f.file);
        IndexOneMore(nameToNodes, Names(nodes), d.name);
        assert Names(nodes + [d]) == Names(nodes) + [d.name];
        assert seq(k + 1, _ => f.file) == seq(k, _ => f.file) + [f.file];
        nodes := nodes + [d];
        owners := owners + [f.file];
        fileToDefs := fileToDefs[f.file := Lookup(fileToDefs, f.file) + [id]];
        nameToNodes := nameToNodes[d.name := Lookup(nameToNodes, d.name) + [id]];
      }
      assert f.defs[..|f.defs|] == f.defs;
    }
  }

  lemma HoldsOneMore(outEdges: seq<seq<nat>>, inDegree: seq<nat>, es: seq<Edge>, n: nat, src: nat, tgt: nat)
    requires Holds(outEdges, inDegree, es, n) && src < n && tgt < n
    ensures Holds(outEdges[src := outEdges[src] + [tgt]], inDegree[tgt := inDegree[tgt] + 1], es + [(src, tgt)], n)
  {
    var es' := es + [(src, tgt)];
    assert es'[..|es'| - 1] == es;
  }

  method ConnectOne(outEdges: array<seq<nat>>, inDegree: array<nat>, src: nat, tgt: nat, ghost es: seq<Edge>)
    requires src < outEdges.Length && tgt < outEdges.Length
    requires Holds(outEdges[..], inDegree[..], es, outEdges.Length)
    modifies outEdges, inDegree
    ensures Holds(outEdges[..], inDegree[..], es + [(src, tgt)], outEdges.Length)
  {
    HoldsOneMore(outEdges[..], inDegree[..], es, outEdges.Length, src, tgt);
    ghost var outs, ins := outEdges[..], inDegree[..];
    outEdges[src] := outEdges[src] + [tgt];
    inDegree[tgt] := inDegree[tgt] + 1;
    assert outEdges[..] == outs[src := outs[src] + [tgt]] && inDegree[..] == ins[tgt := ins[tgt] + 1];
  }

  lemma EdgesToOneMore(es: seq<Edge>, src: nat, targets: seq<nat>, m: nat)
    requires m < |targets|
    ensures var now := es + EdgesTo(src, targets, m);
            es + EdgesTo(src, targets, m + 1) == if targets[m] == src then now else now + [(src, targets[m])]
  {
  }

  lemma EdgesFromOneMore(es: seq<Edge>, srcs: seq<nat>, m: nat, targets: seq<nat>)
    requires m < |srcs|
    ensures es + EdgesFrom(srcs, m + 1, targets) == es + EdgesFrom(srcs, m, targets) + EdgesTo(srcs[m], targets, |targets|)
  {
  }

  /** The two inner loops for one source: an edge to every target but itself. */
  method Connect(outEdges: array<seq<nat>>, inDegree: array<nat>, src: nat, targets: seq<nat>, ghost es: seq<Edge>)
    requires src < outEdges.Length && forall k :: 0 <= k < |targets| ==> targets[k] < outEdges.Length
    requires Holds(outEdges[..], inDegree[..], es, outEdges.Length)
    modifies outEdges, inDegree
    ensures Holds(outEdges[..], inDegree[..], es + EdgesTo(src, targets, |targets|), outEdges.Length)
  {
    ghost var n := outEdges.Length;
    assert es + [] == es;
    for m := 0 to |targets|
      invariant Holds(outEdges[..], inDegree[..], es + EdgesTo(src, targets, m), n)
    {
      var tgt := targets[m];
      EdgesToOneMore(es, src, targets, m);
      if src == tgt {
        continue;
      }
      ConnectOne(outEdges, inDegree, src, tgt, es + EdgesTo(src, targets, m));
    }
  }

  ghost predicate Below(xs: seq<nat>, n: nat) {
    forall k :: 0 <= k < |xs| ==> xs[k] < n
  }

  lemma {:induction false} IndicesBelow(xs: seq<string>, x: string)
    ensures Below(Indices(xs, x), |xs|)
  {
    forall k | 0 <= k < |Indices(xs, x)|
      ensures Indices(xs, x)[k] < |xs|
    {
      IndicesMeaning(xs, x, Indices(xs, x)[k]);
    }
  }

  method ConnectAll(outEdges: array<seq<nat>>, inDegree: array<nat>, srcs: seq<nat>, targets: seq<nat>, ghost es: seq<Edge>)
    requires Below(srcs, outEdges.Length) && Below(targets, outEdges.Length)
    requires Holds(outEdges[..], inDegree[..], es, outEdges.Length)
    modifies outEdges, inDegree
    ensures Holds(outEdges[..], inDegree[..], es + EdgesFrom(srcs, |srcs|, targets), outEdges.Length)
  {
    assert es + [] == es;
    for m := 0 to |srcs|
      invariant Holds(outEdges[..], inDegree[..], es + EdgesFrom(srcs, m, targets), outEdges.Length)
    {
      EdgesFromOneMore(es, srcs, m, targets);
      Connect(outEdges, inDegree, srcs[m], targets, es + EdgesFrom(srcs, m, targets));
    }
  }

  method ConnectRefs(outEdges: array<seq<nat>>, inDegree: array<nat>, srcs: seq<nat>, refs: seq<string>,
                     nameToNodes: map<string, seq<nat>>, ghost names: seq<string>, ghost es: seq<Edge>)
    requires Below(srcs, outEdges.Length) && IsIndex(nameToNodes, names) && |names| == outEdges.Length
    requires Holds(outEdges[..], inDegree[..], es, outEdges.Length)
    modifies outEdges, inDegree
    ensures Holds(outEdges[..], inDegree[..], es + EdgesOfRefs(srcs, refs, |refs|, names), outEdges.Length)
  {
    assert es + [] == es;
    for m := 0 to |refs|
      invariant Holds(outEdges[..], inDegree[..], es + EdgesOfRefs(srcs, refs, m, names), outEdges.Length)
    {
      var targets := Lookup(nameToNodes, refs[m]);
      IndicesBelow(names, refs[m]);
      ghost var now, more := EdgesOfRefs(srcs, refs, m, names), EdgesFrom(srcs, |srcs|, targets);
      assert EdgesOfRefs(srcs, refs, m + 1, names) == now + more;
      Assoc(es, now, more);
      ConnectAll(outEdges, inDegree, srcs, targets, es + now);
    }
  }

  /** The edges of the graph, as the program finds them. */
  function Edges(files: seq<FileSymbols>): seq<Edge> {
    EdgesOfFiles(files, |files|, Owners(files, |files|), Names(Nodes(files, |files|)))
  }

  /** The out-edge lists of the graph. */
  function OutEdges(files: seq<FileSymbols>): (r: seq<seq<nat>>)
    ensures |r| == |Nodes(files, |files|)|
  {
    seq(|Nodes(files, |files|)|, s requires 0 <= s < |Nodes(files, |files|)| => TargetsOf(Edges(files), s))
  }

  method BuildGraph(files: seq<FileSymbols>, n: nat, fileToDefs: map<string, seq<nat>>, nameToNodes: map<string, seq<nat>>)
    returns (outEdges: array<seq<nat>>, inDegree: array<nat>)
    requires n == |Nodes(files, |files|)|
    requires IsIndex(fileToDefs, Owners(files, |files|)) && IsIndex(nameToNodes, Names(Nodes(files, |files|)))
    ensures fresh(outEdges) && fresh(inDegree)
    ensures Holds(outEdges[..], inDegree[..], Edges(files), n)
  {
    OneOwnerEach(files, |files|);
    outEdges := new seq<nat>[n](_ => []);
    inDegree := new nat[n](_ => 0);
    ConnectFiles(outEdges, inDegree, files, fileToDefs, nameToNodes, Owners(files, |files|), Names(Nodes(files, |files|)));
  }

  method ConnectFiles(outEdges: array<seq<nat>>, inDegree: array<nat>, files: seq<FileSymbols>,
                      fileToDefs: map<string, seq<nat>>, nameToNodes: map<string, seq<nat>>,
                      ghost owners: seq<string>, ghost names: seq<string>)
    requires |owners| == |names| == outEdges.Length && IsIndex(fileToDefs, owners) && IsIndex(nameToNodes, names)
    requires Holds(outEdges[..], inDegree[..], [], outEdges.Length)
    modifies outEdges, inDegree
    ensures Holds(outEdges[..], inDegree[..], EdgesOfFiles(files, |files|, owners, names), outEdges.Length)
  {
    ghost var es := [];
    for i := 0 to |files|
      invariant es == EdgesOfFiles(files, i, owners, names)
      invariant Holds(outEdges[..], inDegree[..], es, outEdges.Length)
    {
      var srcs := Lookup(fileToDefs, files[i].file);
      SourcesOf(fileToDefs, owners, files[i].file);
      EdgesOfFilesOneMore(files, i, owners, names);
      ConnectRefs(outEdges, inDegree, srcs, files[i].refs, nameToNodes, names, es);
      es := es + EdgesOfRefs(srcs, files[i].refs, |files[i].refs|, names);
    }
  }

  lemma SourcesOf(fileToDefs: map<string, seq<nat>>, owners: seq<string>, file: string)
    requires IsIndex(fileToDefs, owners)
    ensures Lookup(fileToDefs, file) == Indices(owners, file) && Below(Lookup(fileToDefs, file), |owners|)
  {
    IndicesBelow(owners, file);
  }

  lemma EdgesOfFilesOneMore(files: seq<FileSymbols>, m: nat, owners: seq<string>, names: seq<string>)
    requires m < |files|
    ensures EdgesOfFiles(files, m + 1, owners, names)
            == EdgesOfFiles(files, m, owners, names)
               + EdgesOfRefs(Indices(owners, files[m].file), files[m].refs, |files[m].refs|, names)
  {
  }

  lemma {:induction false} TargetsInRange(es: seq<Edge>, n: nat, s: nat)
    requires InRange(es, n)
    ensures Below(TargetsOf(es, s), n)
  {
    if |es| > 0 {
      TargetsInRange(es[..|es| - 1], n, s);
    }
  }

  lemma EdgesInRange(files: seq<FileSymbols>)
    ensures InRange(Edges(files), |Nodes(files, |files|)|)
    ensures IsGraph(OutEdges(files))
  {
    var es, n := Edges(files), |Nodes(files, |files|)|;
    OneOwnerEach(files, |files|);
    forall k | 0 <= k < |es|
      ensures es[k].0 < n && es[k].1 < n
    {
      EdgesMeaning(files, |files|, Owners(files, |files|), Names(Nodes(files, |files|)), es[k]);
    }
    forall s | 0 <= s < n
      ensures Below(OutEdges(files)[s], n)
    {
      TargetsInRange(es, n, s);
    }
  }

  /** One node gives: to everybody when it has no out-edge, otherwise along its out-edges. */
  method GiveAway(next: array<real>, score: real, targets: seq<nat>)
    requires next.Length > 0 && Below(targets, next.Length)
    modifies next
    ensures forall j :: 0 <= j < next.Length ==> next[j] == old(next[j]) + Share(score, targets, next.Length, j)
  {
    var n := next.Length;
    var contrib := Contribution(score, |targets|, n);
    if |targets| == 0 {
      for j := 0 to n
        invariant forall i :: 0 <= i < n ==> next[i] == old(next[i]) + if i < j then contrib else 0.0
      {
        next[j] := next[j] + contrib;
      }
      return;
    }
    for m := 0 to |targets|
      invariant forall i :: 0 <= i < n ==> next[i] == old(next[i]) + Times(contrib, Count(targets[..m], i))
    {
      var tgt := targets[m];
      assert targets[..m + 1][..m] == targets[..m];
      Distribute(contrib, Count(targets[..m], tgt));
      next[tgt] := next[tgt] + contrib;
    }
    assert targets[..|targets|] == targets;
  }

  /** One damping iteration. */
  method Damp(score: array<real>, next: array<real>, outEdges: array<seq<nat>>)
    requires score.Length == next.Length == outEdges.Length > 0 && score != next
    requires IsGraph(outEdges[..])
    modifies next
    ensures next[..] == NextScores(score[..], outEdges[..])
  {
    var n := score.Length;
    var base := (1.0 - DAMPING) / n as real;
    for i := 0 to n
      invariant forall k :: 0 <= k < i ==> next[k] == base
    {
      next[i] := base;
    }
    ghost var was, graph := score[..], outEdges[..];
    for src := 0 to n
      invariant score[..] == was && outEdges[..] == graph
      invariant next[..] == Partial(was, graph, src)
    {
      GiveAway(next, score[src], outEdges[src]);
    }
  }

  function ScoresOf(out: seq<ScoredSymbol>): (r: seq<real>)
    ensures |r| == |out|
  {
    seq(|out|, i requires 0 <= i < |out| => out[i].score)
  }

  function DegreesOf(out: seq<ScoredSymbol>): (r: seq<nat>)
    ensures |r| == |out|
  {
    seq(|out|, i requires 0 <= i < |out| => out[i].inDegree)
  }

  /** The damping iterations: two arrays, filled and swapped in turn. */
  method DampRepeatedly(outEdges: array<seq<nat>>) returns (score: array<real>)
    requires outEdges.Length > 0 && IsGraph(outEdges[..])
    ensures fresh(score) && score[..] == Iterate(ITERATIONS, Uniform(outEdges.Length), outEdges[..])
  {
    var n := outEdges.Length;
    score := new real[n](_ => 1.0 / n as real);
    var next := new real[n](_ => 0.0);
    assert score[..] == Uniform(n);
    for iter := 0 to ITERATIONS
      invariant score.Length == next.Length == n && score != next && fresh(score) && fresh(next)
      invariant score[..] == Iterate(iter, Uniform(n), outEdges[..])
    {
      Damp(score, next, outEdges);
      score, next := next, score;
    }
  }

  // ---------------------------------------------------------------- the ranking

  /** One entry for each node, in node order. */
  function Entries(files: seq<FileSymbols>): (r: seq<ScoredSymbol>)
    ensures |r| == |Nodes(files, |files|)|
  {
    var nodes, graph := Nodes(files, |files|), OutEdges(files);
    if |nodes| == 0 then []
    else
      var scores := Iterate(ITERATIONS, Uniform(|nodes|), graph);
      seq(|nodes|, i requires 0 <= i < |nodes| => ScoredSymbol(nodes[i], scores[i], CountTo(Edges(files), i)))
  }

  lemma SumCons(x: real, v: seq<real>)
    ensures Sum([x] + v) == x + Sum(v)
  {
    if |v| > 0 {
      SumCons(x, v[..|v| - 1]);
      assert ([x] + v)[..|v|] == [x] + v[..|v| - 1];
    }
  }

  lemma SumNatCons(x: nat, v: seq<nat>)
    ensures SumNat([x] + v) == x + SumNat(v)
  {
    if |v| > 0 {
      SumNatCons(x, v[..|v| - 1]);
      assert ([x] + v)[..|v|] == [x] + v[..|v| - 1];
    }
  }

  lemma EntriesCons(e: ScoredSymbol, out: seq<ScoredSymbol>)
    ensures Sum(ScoresOf([e] + out)) == e.score + Sum(ScoresOf(out))
    ensures SumNat(DegreesOf([e] + out)) == e.inDegree + SumNat(DegreesOf(out))
  {
    assert ScoresOf([e] + out) == [e.score] + ScoresOf(out);
    assert DegreesOf([e] + out) == [e.inDegree] + DegreesOf(out);
    SumCons(e.score, ScoresOf(out));
    SumNatCons(e.inDegree, DegreesOf(out));
  }

  /** Sorting keeps both sums. */
  lemma {:induction false} InsertKeepsSums(less: Less<ScoredSymbol>, e: ScoredSymbol, out: seq<ScoredSymbol>)
    ensures Sum(ScoresOf(Insert(less, e, out))) == e.score + Sum(ScoresOf(out))
    ensures SumNat(DegreesOf(Insert(less, e, out))) == e.inDegree + SumNat(DegreesOf(out))
  {
    EntriesCons(e, out);
    if |out| > 0 && less(out[0], e) {
      InsertKeepsSums(less, e, out[1..]);
      EntriesCons(out[0], Insert(less, e, out[1..]));
      EntriesCons(out[0], out[1..]);
      assert [out[0]] + out[1..] == out;
    }
  }

  lemma {:induction false} SortKeepsSums(less: Less<ScoredSymbol>, entries: seq<ScoredSymbol>)
    ensures Sum(ScoresOf(Sort(less, entries))) == Sum(ScoresOf(entries))
    ensures SumNat(DegreesOf(Sort(less, entries))) == SumNat(DegreesOf(entries))
  {
    if |entries| > 0 {
      SortKeepsSums(less, entries[1..]);
      InsertKeepsSums(less, entries[0], Sort(less, entries[1..]));
      EntriesCons(entries[0], entries[1..]);
      assert [entries[0]] + entries[1..] == entries;
    }
  }

  /** Whatever the graph, the scores sum to one, each is at least (1 - d)/n, and the in-degrees sum to the number of edges. */
  lemma EntriesConserve(files: seq<FileSymbols>)
    ensures var es := Entries(files);
            && (|es| > 0 ==> Sum(ScoresOf(es)) == 1.0)
            && (forall i :: 0 <= i < |es| ==> es[i].score >= Base(|es|))
            && SumNat(DegreesOf(es)) == |Edges(files)| == SumNat(OutDegrees(Edges(files), |es|))
  {
    var es := Entries(files);
    EdgesInRange(files);
    DegreesSum(Edges(files), |es|);
    assert DegreesOf(es) == InDegrees(Edges(files), |es|);
    if |es| > 0 {
      ScoreIsConserved(ITERATIONS, OutEdges(files));
      assert ScoresOf(es) == Iterate(ITERATIONS, Uniform(|es|), OutEdges(files));
    }
  }

  lemma SortedConserve(less: Less<ScoredSymbol>, entries: seq<ScoredSymbol>, base: real)
    requires forall i :: 0 <= i < |entries| ==> entries[i].score >= base
    ensures var out := Sort(less, entries);
            && |out| == |entries| && Sum(ScoresOf(out)) == Sum(ScoresOf(entries))
            && SumNat(DegreesOf(out)) == SumNat(DegreesOf(entries))
            && forall i :: 0 <= i < |out| ==> out[i].score >= base
  {
    var out := Sort(less, entries);
    SortKeepsSums(less, entries);
    SortPermutes(less, entries);
    assert |multiset(out)| == |multiset(entries)|;
    forall i | 0 <= i < |out|
      ensures out[i].score >= base
    {
      assert out[i] in multiset(out);
      assert out[i] in entries;
    }
  }

  /** The ranking: the nodes' entries by falling score, then by file, then by name, ties in node order. So none is left out or
      doubled, and the scores still sum to one and the in-degrees to the number of edges. */
  method Rank(files: seq<FileSymbols>) returns (out: seq<ScoredSymbol>)
    ensures SortedFrom(RanksBefore, out, Entries(files)) && multiset(out) == multiset(Entries(files))
    ensures forall i, j :: 0 <= i < j < |out| ==> MayStandBefore(out[i], out[j])
    ensures |out| == |Nodes(files, |files|)|
    ensures |out| > 0 ==> Sum(ScoresOf(out)) == 1.0
    ensures forall i :: 0 <= i < |out| ==> out[i].score >= Base(|out|)
    ensures SumNat(DegreesOf(out)) == |Edges(files)| == SumNat(OutDegrees(Edges(files), |out|))
  {
    var entries := RankInNodeOrder(files);
    out := Sort(RanksBefore, entries);
    RanksBeforeOrders();
    SortedIsSort(RanksBefore, out, entries);
    RankedMeaning(out);
    EntriesConserve(files);
    SortedConserve(RanksBefore, entries, if |entries| == 0 then 0.0 else Base(|entries|));
  }

  /** Everything before the sort. */
  method RankInNodeOrder(files: seq<FileSymbols>) returns (entries: seq<ScoredSymbol>)
    ensures entries == Entries(files)
  {
    var nodes, fileToDefs, nameToNodes := CollectNodes(files);
    var n := |nodes|;
    EdgesInRange(files);
    if n == 0 {
      return [];
    }
    var outEdges, inDegree := BuildGraph(files, n, fileToDefs, nameToNodes);
    assert outEdges[..] == OutEdges(files);
    var score := DampRepeatedly(outEdges);
    entries := seq(n, i requires 0 <= i < n reads score, inDegree => ScoredSymbol(nodes[i], score[i], inDegree[i]));
    assert forall i :: 0 <= i < n ==> entries[i].score == score[..][i];
  }
}
