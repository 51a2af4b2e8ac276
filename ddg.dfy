/**
 * Boa's data-dependence graph builder: live variables over a control-flow graph, def-use chains
 * formed from the live pairs, and links from the entry node to the nodes nothing else reaches.
 * Graph nodes are kept by id; each node holds its successor and predecessor ids and its edges.
 */
module DataDependence {
  import opened Base
  import opened Ast

  /**
   * A control-flow node: its id, statement or expression, the variable it defines ("" when none),
   * the variables it uses, its kind and its successors' ids.
   */
  datatype CFGNode = CFGNode(
    id: nat, stmt: Option<Stmt>, expr: Option<Expr>, defVar: string, useVars: set<string>, kind: nat, succs: seq<nat>)

  /** A control-flow graph, its nodes by id. */
  type CFG = map<nat, CFGNode>

  ghost predicate WellFormed(cfg: CFG) {
    forall id :: id in cfg ==> cfg[id].id == id
  }

  /** A variable together with the node that uses it; pairs are equal when both parts are. */
  datatype Pair = Pair(variable: string, node: nat)

  /** The live pairs on entry to a node and on exit from it. */
  datatype InOut = InOut(liveIn: set<Pair>, liveOut: set<Pair>)

  // ---------------------------------------------------------------------------------------------
  // Live variables
  // ---------------------------------------------------------------------------------------------

  /** The pairs live on entry to the successors that already have a value, in successor order. */
  function SuccIn(succs: seq<nat>, values: map<nat, InOut>): set<Pair> {
    if succs == [] then {}
    else
      var s := succs[|succs| - 1];
      SuccIn(succs[..|succs| - 1], values) + (if s in values then values[s].liveIn else {})
  }

  lemma {:induction false} SuccInMembers(succs: seq<nat>, values: map<nat, InOut>, p: Pair)
    ensures p in SuccIn(succs, values) <==> exists k :: 0 <= k < |succs| && succs[k] in values && p in values[succs[k]].liveIn
    decreases |succs|
  {
    if succs != [] {
      var n := |succs| - 1;
      SuccInMembers(succs[..n], values, p);
      if exists k :: 0 <= k < n && succs[k] in values && p in values[succs[k]].liveIn {
        var k :| 0 <= k < n && succs[k] in values && p in values[succs[k]].liveIn;
        assert succs[..n][k] == succs[k];
      }
      if exists k :: 0 <= k < |succs| && succs[k] in values && p in values[succs[k]].liveIn {
        var k :| 0 <= k < |succs| && succs[k] in values && p in values[succs[k]].liveIn;
        if k < n {
          assert succs[..n][k] == succs[k];
        }
      }
    }
  }

  /** The node defines a variable and the pair is about that variable. */
  predicate Kills(node: CFGNode, p: Pair) {
    node.defVar != "" && p.variable == node.defVar
  }

  /** The pairs a node's uses create. */
  function Gen(node: CFGNode): set<Pair> {
    set u | u in node.useVars :: Pair(u, node.id)
  }

  /** The value stored for a node so far, or empty sets on the first visit. */
  function Stored(node: CFGNode, values: map<nat, InOut>): InOut {
    if node.id in values then values[node.id] else InOut({}, {})
  }

  /**
   * One application of the live-variable transfer, as the traversal computes it: the stored sets
   * are extended, not replaced; out gains the successors' in, and in gains the node's uses and the
   * out pairs the node does not kill.
   */
  function Transfer(node: CFGNode, values: map<nat, InOut>): InOut {
    var start := Stored(node, values);
    var out := start.liveOut + SuccIn(node.succs, values);
    InOut(start.liveIn + Gen(node) + (set p | p in out && !Kills(node, p)), out)
  }

  /**
   * The transfer in words: a pair is live out exactly when it was live out before or is live on
   * entry to a successor; it is live in exactly when it was live in before, is a use of this node,
   * or is live out and not killed here.
   */
  lemma TransferMembers(node: CFGNode, values: map<nat, InOut>, p: Pair)
    ensures p in Transfer(node, values).liveOut <==>
      (node.id in values && p in values[node.id].liveOut)
      || exists k :: 0 <= k < |node.succs| && node.succs[k] in values && p in values[node.succs[k]].liveIn
    ensures p in Transfer(node, values).liveIn <==>
      (node.id in values && p in values[node.id].liveIn)
      || (p.node == node.id && p.variable in node.useVars)
      || (p in Transfer(node, values).liveOut && !Kills(node, p))
  {
    SuccInMembers(node.succs, values, p);
  }

  /** On a node's first visit the transfer is the textbook equation: out is the successors' in, in is uses plus out minus the killed pairs. */
  lemma TransferFirstVisit(node: CFGNode, values: map<nat, InOut>)
    requires node.id !in values
    ensures Transfer(node, values).liveOut == SuccIn(node.succs, values)
    ensures Transfer(node, values).liveIn == Gen(node) + (set p | p in SuccIn(node.succs, values) && !Kills(node, p))
  {
  }

  /** The transfer only adds: what was live in or out before stays so. */
  lemma TransferAccumulates(node: CFGNode, values: map<nat, InOut>)
    requires node.id in values
    ensures values[node.id].liveIn <= Transfer(node, values).liveIn
    ensures values[node.id].liveOut <= Transfer(node, values).liveOut
  {
  }

  /** Every pair of the values names a node of the graph. */
  ghost predicate PairsInGraph(values: map<nat, InOut>, cfg: CFG) {
    forall id, p :: id in values && (p in values[id].liveIn || p in values[id].liveOut) ==> p.node in cfg
  }

  /** A transfer at a node of the graph keeps every pair naming a node of the graph. */
  lemma TransferKeepsPairsInGraph(node: CFGNode, values: map<nat, InOut>, cfg: CFG)
    requires PairsInGraph(values, cfg) && node.id in cfg
    ensures PairsInGraph(values[node.id := Transfer(node, values)], cfg)
  {
    var r := Transfer(node, values);
    forall p | p in r.liveIn || p in r.liveOut
      ensures p.node in cfg
    {
      TransferMembers(node, values, p);
      if exists k :: 0 <= k < |node.succs| && node.succs[k] in values && p in values[node.succs[k]].liveIn {
        var k :| 0 <= k < |node.succs| && node.succs[k] in values && p in values[node.succs[k]].liveIn;
        assert p.node in cfg;
      }
    }
  }

  /** The fixpoint test: the new in set adds nothing to the previous one. */
  function FixpointReached(current: InOut, previous: InOut): (b: bool)
    ensures b <==> current.liveIn <= previous.liveIn
  {
    var rest := current.liveIn - previous.liveIn;
    assert rest == {} <==> current.liveIn <= previous.liveIn by {
      if !(current.liveIn <= previous.liveIn) {
        var x :| x in current.liveIn && x !in previous.liveIn;
        assert x in rest;
      }
    }
    |rest| == 0
  }

  /** Since the transfer only adds, the test holds exactly when the in set did not change. */
  lemma FixpointTestIsStability(node: CFGNode, values: map<nat, InOut>)
    requires node.id in values
    ensures FixpointReached(Transfer(node, values), values[node.id]) <==> Transfer(node, values).liveIn == values[node.id].liveIn
  {
    TransferAccumulates(node, values);
  }

  /** The transfer, step by step as the traversal runs it, over the values stored so far. */
  method PreTraverse(node: CFGNode, values: map<nat, InOut>) returns (current: InOut)
    ensures current == Transfer(node, values)
  {
    current := InOut({}, {});
    if node.id in values {
      current := values[node.id];
    }
    var out := AddSuccessorsIn(node, values, current.liveOut);
    var diff := WithoutKilled(node, out);
    var liveIn := AddUses(node, current.liveIn);
    current := InOut(liveIn + diff, out);
  }

  /** Out gains the in sets of the successors that have a value. */
  method AddSuccessorsIn(node: CFGNode, values: map<nat, InOut>, start: set<Pair>) returns (out: set<Pair>)
    ensures out == start + SuccIn(node.succs, values)
  {
    out := start;
    for k := 0 to |node.succs|
      invariant out == start + SuccIn(node.succs[..k], values)
    {
      var s := node.succs[k];
      if s in values {
        out := out + values[s].liveIn;
      }
      assert node.succs[..k + 1][..k] == node.succs[..k];
    }
    assert node.succs[..|node.succs|] == node.succs;
  }

  /** A copy of out without the pairs of the variable the node defines, when it defines one. */
  method WithoutKilled(node: CFGNode, out: set<Pair>) returns (diff: set<Pair>)
    ensures diff == set p | p in out && !Kills(node, p)
  {
    diff := out;
    if node.defVar != "" {
      var rest := out;
      while rest != {}
        invariant rest <= out
        invariant forall p :: p in diff <==> p in out && (p in rest || !Kills(node, p))
        decreases |rest|
      {
        var p :| p in rest;
        if p.variable == node.defVar {
          diff := diff - {p};
        }
        rest := rest - {p};
      }
    }
  }

  /** In gains a pair of each used variable with the node. */
  method AddUses(node: CFGNode, start: set<Pair>) returns (liveIn: set<Pair>)
    ensures liveIn == start + Gen(node)
  {
    liveIn := start;
    var uses := node.useVars;
    while uses != {}
      invariant uses <= node.useVars
      invariant liveIn == start + set u | u in node.useVars - uses :: Pair(u, node.id)
      decreases |uses|
    {
      var u :| u in uses;
      liveIn := liveIn + {Pair(u, node.id)};
      uses := uses - {u};
    }
    assert node.useVars - uses == node.useVars;
  }

  /** The live-variable traversal: the value stored per node id, and the last result of a flagged visit. */
  class LiveVariableTraversal {
    var outputMapObj: map<nat, InOut>
    var currentResult: InOut

    constructor ()
      ensures outputMapObj == map[] && currentResult == InOut({}, {})
    {
      outputMapObj := map[];
      currentResult := InOut({}, {});
    }

    /** A visit stores the node's transfer under its id; a flagged visit also keeps it as the current result. */
    method Traverse(node: CFGNode, flag: bool)
      modifies this
      ensures outputMapObj == old(outputMapObj)[node.id := Transfer(node, old(outputMapObj))]
      ensures currentResult == if flag then Transfer(node, old(outputMapObj)) else old(currentResult)
    {
      var r := PreTraverse(node, outputMapObj);
      if flag {
        currentResult := r;
      }
      outputMapObj := outputMapObj[node.id := r];
    }
  }

  /** The live variables the builder works on: the traversal's values without the exit node's. */
  function LiveVariables(traversed: map<nat, InOut>, nodeCount: nat): (live: map<nat, InOut>)
    ensures live.Keys == traversed.Keys - {nodeCount - 1}
    ensures forall id :: id in live ==> live[id] == traversed[id]
  {
    if nodeCount == 0 then traversed else traversed - {nodeCount - 1}
  }

  // ---------------------------------------------------------------------------------------------
  // ---------------------------------------------------------------------------------------------
  // Graph nodes and links
  // ---------------------------------------------------------------------------------------------

  /** A graph node's own data, copied from the control-flow node with its id. */
  datatype DDGNode = DDGNode(
    id: nat, stmt: Option<Stmt>, expr: Option<Expr>, defVar: string, useVars: set<string>, kind: nat)

  /** An edge between two graph nodes, labelled with a variable for a def-use edge. */
  datatype DDGEdge = DDGEdge(src: nat, dest: nat, variable: Option<string>)

  /** A new graph node for a control-flow node: its data copied. */
  function Fresh(c: CFGNode): (n: DDGNode)
    ensures n.id == c.id && n.stmt == c.stmt && n.expr == c.expr && n.defVar == c.defVar
    ensures n.useVars == c.useVars && n.kind == c.kind
  {
    DDGNode(c.id, c.stmt, c.expr, c.defVar, c.useVars, c.kind)
  }

  /**
   * A link from one node to another, as the builder adds it: the second node in the first one's
   * successor list, the first in the second one's predecessor list, and one edge in the first
   * one's out edges and the second one's in edges.
   */
  datatype Link = Link(def: nat, use: nat, variable: Option<string>)

  function EdgeOf(l: Link): DDGEdge {
    DDGEdge(l.def, l.use, l.variable)
  }

  /** The successor-list entries of the links, as (node, successor). */
  function SuccPairs(links: set<Link>): set<(nat, nat)> {
    set l | l in links :: (l.def, l.use)
  }

  /** The predecessor-list entries of the links, as (node, predecessor). */
  function PredPairs(links: set<Link>): set<(nat, nat)> {
    set l | l in links :: (l.use, l.def)
  }

  /** The edges of the links. */
  function Edges(links: set<Link>): set<DDGEdge> {
    set l | l in links :: EdgeOf(l)
  }

  /** The four relations the links make: successor entries, predecessor entries, out edges and in edges. */
  function Relations(links: set<Link>): (set<(nat, nat)>, set<(nat, nat)>, set<DDGEdge>, set<DDGEdge>) {
    (SuccPairs(links), PredPairs(links), Edges(links), Edges(links))
  }

  /** The list of node x in a relation of (node, entry) pairs. */
  function ListOf(rel: set<(nat, nat)>, x: nat): set<nat> {
    set p | p in rel && p.0 == x :: p.1
  }

  lemma LinkSetsAdd(links: set<Link>, l: Link)
    ensures SuccPairs(links + {l}) == SuccPairs(links) + {(l.def, l.use)}
    ensures PredPairs(links + {l}) == PredPairs(links) + {(l.use, l.def)}
    ensures Edges(links + {l}) == Edges(links) + {EdgeOf(l)}
  {
  }

  lemma LinkSetsNone()
    ensures SuccPairs({}) == {} && PredPairs({}) == {} && Edges({}) == {}
  {
  }

  /** Adding one more link to relations extended by links is extending them by one more entry. */
  lemma ExtendBy(succs: set<(nat, nat)>, preds: set<(nat, nat)>, outs: set<DDGEdge>, ins: set<DDGEdge>, done: set<Link>, l: Link)
    ensures succs + SuccPairs(done + {l}) == (succs + SuccPairs(done)) + {(l.def, l.use)}
    ensures preds + PredPairs(done + {l}) == (preds + PredPairs(done)) + {(l.use, l.def)}
    ensures outs + Edges(done + {l}) == (outs + Edges(done)) + {EdgeOf(l)}
    ensures ins + Edges(done + {l}) == (ins + Edges(done)) + {EdgeOf(l)}
  {
    LinkSetsAdd(done, l);
  }

  lemma ExtendNone(succs: set<(nat, nat)>, preds: set<(nat, nat)>, outs: set<DDGEdge>, ins: set<DDGEdge>)
    ensures succs + SuccPairs({}) == succs && preds + PredPairs({}) == preds
    ensures outs + Edges({}) == outs && ins + Edges({}) == ins
  {
    LinkSetsNone();
  }

  /** Every successor entry is between nodes of the graph. */
  ghost predicate Closed(keys: set<nat>, succs: set<(nat, nat)>) {
    forall a, b :: (a, b) in succs ==> a in keys && b in keys
  }

  /** b follows a exactly when a precedes b. */
  ghost predicate Symmetric(succs: set<(nat, nat)>, preds: set<(nat, nat)>) {
    forall a, b :: (a, b) in succs <==> (b, a) in preds
  }

  /** Every edge is both its source's out edge and its target's in edge, and follows a successor entry. */
  ghost predicate EdgesMatch(succs: set<(nat, nat)>, outs: set<DDGEdge>, ins: set<DDGEdge>) {
    outs == ins && forall e :: e in outs ==> (e.src, e.dest) in succs
  }

  /** The links all join nodes of the graph. */
  ghost predicate LinksWithin(links: set<Link>, keys: set<nat>) {
    forall l :: l in links ==> l.def in keys && l.use in keys
  }

  /** Links between nodes of the graph, added to all four relations, keep them closed, symmetric and matched. */
  lemma AddLinksKeepsShape(
    keys: set<nat>, succs: set<(nat, nat)>, preds: set<(nat, nat)>, outs: set<DDGEdge>, ins: set<DDGEdge>, links: set<Link>)
    requires Closed(keys, succs) && Symmetric(succs, preds) && EdgesMatch(succs, outs, ins)
    requires LinksWithin(links, keys)
    ensures Closed(keys, succs + SuccPairs(links))
    ensures Symmetric(succs + SuccPairs(links), preds + PredPairs(links))
    ensures EdgesMatch(succs + SuccPairs(links), outs + Edges(links), ins + Edges(links))
  {
    forall a, b | (a, b) in SuccPairs(links)
      ensures a in keys && b in keys && (b, a) in PredPairs(links)
    {
      var l :| l in links && (l.def, l.use) == (a, b);
    }
    forall a, b | (b, a) in PredPairs(links)
      ensures (a, b) in SuccPairs(links)
    {
      var l :| l in links && (l.use, l.def) == (b, a);
    }
    forall e | e in Edges(links)
      ensures (e.src, e.dest) in SuccPairs(links)
    {
      var l :| l in links && EdgeOf(l) == e;
    }
  }

  /** Links between nodes of the graph, on their own, are closed, symmetric and matched. */
  lemma LinksShaped(keys: set<nat>, links: set<Link>)
    requires LinksWithin(links, keys)
    ensures Closed(keys, SuccPairs(links)) && Symmetric(SuccPairs(links), PredPairs(links))
    ensures EdgesMatch(SuccPairs(links), Edges(links), Edges(links))
  {
    AddLinksKeepsShape(keys, {}, {}, {}, {}, links);
    assert {} + SuccPairs(links) == SuccPairs(links) && {} + PredPairs(links) == PredPairs(links);
    assert {} + Edges(links) == Edges(links);
  }

  // ---------------------------------------------------------------------------------------------
  // Def-use chains
  // ---------------------------------------------------------------------------------------------

  /** The def-use links of one node: the out pairs of the variable it defines, unless it is the entry node. */
  function LinksOf(nid: nat, pairs: set<Pair>, cfg: CFG): set<Link>
    requires nid in cfg
  {
    set p | p in pairs && nid != 0 && Kills(cfg[nid], p) :: Link(nid, p.node, Some(p.variable))
  }

  /** One more pair visited adds its link when it is one. */
  lemma LinksOfStep(nid: nat, pairs: set<Pair>, rest: set<Pair>, p: Pair, cfg: CFG)
    requires nid in cfg && p in rest && rest <= pairs
    ensures nid != 0 && Kills(cfg[nid], p) ==>
      LinksOf(nid, pairs - (rest - {p}), cfg) == LinksOf(nid, pairs - rest, cfg) + {Link(nid, p.node, Some(p.variable))}
    ensures !(nid != 0 && Kills(cfg[nid], p)) ==> LinksOf(nid, pairs - (rest - {p}), cfg) == LinksOf(nid, pairs - rest, cfg)
  {
    assert pairs - (rest - {p}) == (pairs - rest) + {p};
  }

  /** The def-use links of the nodes with the given ids. */
  ghost function LinksFrom(live: map<nat, InOut>, cfg: CFG, ids: set<nat>): set<Link>
    requires forall nid :: nid in live ==> nid in cfg
  {
    set nid, p | nid in ids && nid in live && p in live[nid].liveOut && nid != 0 && Kills(cfg[nid], p)
      :: Link(nid, p.node, Some(p.variable))
  }

  /** All def-use links of the live variables. */
  ghost function DefUseLinks(live: map<nat, InOut>, cfg: CFG): set<Link>
    requires forall nid :: nid in live ==> nid in cfg
  {
    LinksFrom(live, cfg, live.Keys)
  }

  /**
   * A def-use link joins a node other than the entry that defines a variable to a node in whose
   * pair that variable is live out of it, labelled with the variable; no other link is formed.
   */
  lemma DefUseLinksMembers(live: map<nat, InOut>, cfg: CFG, l: Link)
    requires forall nid :: nid in live ==> nid in cfg
    ensures l in DefUseLinks(live, cfg) <==>
      l.def in live && l.def != 0 && cfg[l.def].defVar != "" && l.variable == Some(cfg[l.def].defVar)
      && Pair(cfg[l.def].defVar, l.use) in live[l.def].liveOut
  {
    if l.def in live && l.def != 0 && cfg[l.def].defVar != "" && l.variable == Some(cfg[l.def].defVar)
      && Pair(cfg[l.def].defVar, l.use) in live[l.def].liveOut
    {
      var p := Pair(cfg[l.def].defVar, l.use);
      assert Link(l.def, p.node, Some(p.variable)) == l;
    }
  }

  /** The using ends of links. */
  function Uses(links: set<Link>): set<nat> {
    set l | l in links :: l.use
  }

  /** The defining ends of links. */
  function Defs(links: set<Link>): set<nat> {
    set l | l in links :: l.def
  }

  /** The using nodes of the links from d. */
  function Targets(links: set<Link>, d: nat): set<nat> {
    set l | l in links && l.def == d :: l.use
  }

  /** Visiting one more node of the live variables adds its links, and its node and its links' using nodes. */
  lemma FormStep(live: map<nat, InOut>, cfg: CFG, done: set<nat>, nid: nat)
    requires forall k :: k in live ==> k in cfg
    requires nid in live
    ensures LinksFrom(live, cfg, done) + LinksOf(nid, live[nid].liveOut, cfg) == LinksFrom(live, cfg, done + {nid})
    ensures done + Uses(LinksFrom(live, cfg, done)) + {nid} + Uses(LinksOf(nid, live[nid].liveOut, cfg))
         == (done + {nid}) + Uses(LinksFrom(live, cfg, done + {nid}))
  {
    assert LinksFrom(live, cfg, done) + LinksOf(nid, live[nid].liveOut, cfg) == LinksFrom(live, cfg, done + {nid});
    UsesUnion(LinksFrom(live, cfg, done), LinksOf(nid, live[nid].liveOut, cfg));
  }

  /** Before any node is visited there are no links and no nodes. */
  lemma FormStart(live: map<nat, InOut>, cfg: CFG)
    requires forall k :: k in live ==> k in cfg
    ensures var none := live.Keys - live.Keys;
      && none + Uses(LinksFrom(live, cfg, none)) == {} && LinksFrom(live, cfg, none) == {}
      && Made(cfg, {}) == map[] && Relations({}) == ({}, {}, {}, {}) && IsChain(map[], {})
  {
    assert live.Keys - live.Keys == {};
    assert LinksFrom(live, cfg, {}) == {};
    LinkSetsNone();
  }

  lemma MinusNone<T>(a: set<T>, b: set<T>)
    requires b == {}
    ensures a - b == a
  {
  }

  lemma UsesUnion(a: set<Link>, b: set<Link>)
    ensures Uses(a + b) == Uses(a) + Uses(b)
  {
  }

  /** One more link in the chain's bookkeeping: three ways of writing the same set. */
  /** One more out pair visited: the nodes and links so far grow by its link when it is one. */
  lemma PairStep(nid: nat, pairs: set<Pair>, rest: set<Pair>, p: Pair, cfg: CFG, created: set<nat>, links: set<Link>)
    requires nid in cfg && nid != 0 && p in rest && rest <= pairs
    ensures var done := LinksOf(nid, pairs - rest, cfg);
      var next := LinksOf(nid, pairs - (rest - {p}), cfg);
      && (Kills(cfg[nid], p) ==>
        (created + {nid} + Uses(done)) + {p.node} == created + {nid} + Uses(next)
        && (links + done) + {Link(nid, p.node, Some(p.variable))} == links + next)
      && (!Kills(cfg[nid], p) ==> next == done)
  {
    LinksOfStep(nid, pairs, rest, p, cfg);
    var done := LinksOf(nid, pairs - rest, cfg);
    UsesUnion(done, {Link(nid, p.node, Some(p.variable))});
  }

  lemma ChainSetsNone(created: set<nat>, nid: nat, links: set<Link>)
    ensures created + {nid} + Uses({}) == created + {nid}
    ensures links + {} == links
  {
  }

  /** The chain table of the links: each defining node maps to the nodes its links reach. */
  ghost predicate IsChain(chain: map<nat, set<nat>>, links: set<Link>) {
    chain.Keys == Defs(links) && forall d :: d in chain ==> chain[d] == Targets(links, d)
  }

  /** A chain table's entries are exactly its links, read as (defining node, using node). */
  lemma ChainMembers(chain: map<nat, set<nat>>, links: set<Link>, d: nat, u: nat)
    requires IsChain(chain, links)
    ensures (d in chain && u in chain[d]) <==> (d, u) in SuccPairs(links)
  {
    if (d, u) in SuccPairs(links) {
      var l :| l in links && (l.def, l.use) == (d, u);
      assert d in Defs(links);
    }
  }

  /** The builder's two chain updates for one link: an empty entry when the defining node has none, then the using node added. */
  lemma ChainStep(chain: map<nat, set<nat>>, links: set<Link>, l: Link)
    requires IsChain(chain, links)
    ensures var c := if l.def in chain then chain else chain[l.def := {}];
      IsChain(c[l.def := c[l.def] + {l.use}], links + {l})
  {
    var c := if l.def in chain then chain else chain[l.def := {}];
    var r := c[l.def := c[l.def] + {l.use}];
    assert Defs(links + {l}) == Defs(links) + {l.def};
    forall d | d in r
      ensures r[d] == Targets(links + {l}, d)
    {
      assert Targets(links + {l}, d) == Targets(links, d) + (if l.def == d then {l.use} else {});
      if d == l.def && l.def !in chain {
        assert forall m :: m in links ==> m.def in Defs(links);
      }
    }
  }

  /** Every chain entry's users are successors of the defining node, and every defining node is a node of the graph. */
  ghost predicate ChainsMatch(chain: map<nat, set<nat>>, keys: set<nat>, succs: set<(nat, nat)>) {
    forall d :: d in chain ==> d in keys && forall u :: u in chain[d] ==> (d, u) in succs
  }

  /** The chain table of links between nodes of the graph follows the links' successor entries. */
  lemma ChainOfLinksMatches(chain: map<nat, set<nat>>, links: set<Link>, keys: set<nat>)
    requires IsChain(chain, links) && LinksWithin(links, keys)
    ensures ChainsMatch(chain, keys, SuccPairs(links))
  {
    forall d | d in chain
      ensures d in keys && forall u :: u in chain[d] ==> (d, u) in SuccPairs(links)
    {
      var m :| m in links && m.def == d;
      forall u | u in chain[d]
        ensures (d, u) in SuccPairs(links)
      {
        var l :| l in links && l.def == d && l.use == u;
      }
    }
  }

  /** The graph every node of which is made from the control-flow node with its id. */
  ghost predicate KeyedBy(nodes: map<nat, DDGNode>) {
    forall x :: x in nodes ==> nodes[x].id == x
  }

  /** The graph nodes are those made for the given ids, each from the control-flow node with its id. */
  ghost predicate MadeFrom(nodes: map<nat, DDGNode>, cfg: CFG, ids: set<nat>) {
    ids <= cfg.Keys && nodes == Made(cfg, ids)
  }

  /** A node for each of the ids, made from the control-flow node with that id. */
  function Made(cfg: CFG, ids: set<nat>): (nodes: map<nat, DDGNode>)
    requires ids <= cfg.Keys
    ensures nodes.Keys == ids && forall x :: x in nodes ==> nodes[x] == Fresh(cfg[x])
  {
    map x | x in ids :: Fresh(cfg[x])
  }

  lemma MadeKeyed(nodes: map<nat, DDGNode>, cfg: CFG, ids: set<nat>)
    requires WellFormed(cfg) && MadeFrom(nodes, cfg, ids)
    ensures KeyedBy(nodes)
  {
  }

  /** Looking up or adding the node for x keeps the nodes made from the control-flow graph. */
  lemma MadeAdd(nodes: map<nat, DDGNode>, cfg: CFG, ids: set<nat>, x: nat)
    requires MadeFrom(nodes, cfg, ids) && x in cfg
    ensures MadeFrom(if x in nodes then nodes else nodes[x := Fresh(cfg[x])], cfg, ids + {x})
  {
    if x in nodes {
      assert ids + {x} == ids;
    } else {
      assert Made(cfg, ids + {x}) == Made(cfg, ids)[x := Fresh(cfg[x])];
    }
  }

  /**
   * The graph after the def-use chains are formed: a node for each node of the live variables and
   * each using node, the def-use links in all four relations, and their chain table.
   */
  lemma FormedShape(live: map<nat, InOut>, cfg: CFG)
    requires forall nid :: nid in live ==> nid in cfg
    ensures LinksWithin(DefUseLinks(live, cfg), live.Keys + Uses(DefUseLinks(live, cfg)))
  {
    forall l | l in DefUseLinks(live, cfg)
      ensures l.def in live.Keys && l.use in Uses(DefUseLinks(live, cfg))
    {
    }
  }

  /** The using ends of the def-use links are nodes of the graph. */
  lemma UsesInGraph(live: map<nat, InOut>, cfg: CFG, ids: set<nat>)
    requires forall nid :: nid in live ==> nid in cfg
    requires PairsInGraph(live, cfg)
    ensures Uses(LinksFrom(live, cfg, ids)) <= cfg.Keys
  {
    forall u | u in Uses(LinksFrom(live, cfg, ids))
      ensures u in cfg
    {
      var l :| l in LinksFrom(live, cfg, ids) && l.use == u;
      var nid, p :| nid in ids && nid in live && p in live[nid].liveOut && nid != 0 && Kills(cfg[nid], p)
        && l == Link(nid, p.node, Some(p.variable));
    }
  }

  /**
   * In the formed graph, d lists u as a successor, u lists d as a predecessor, and a def-use edge
   * joins them, exactly when d is a node other than the entry that defines a variable live out of
   * it in u's pair.
   */
  lemma FormedLinks(live: map<nat, InOut>, cfg: CFG, d: nat, u: nat)
    requires forall nid :: nid in live ==> nid in cfg
    ensures var links := DefUseLinks(live, cfg);
      var linked := d in live && d != 0 && cfg[d].defVar != "" && Pair(cfg[d].defVar, u) in live[d].liveOut;
      && ((d, u) in SuccPairs(links) <==> linked)
      && ((u, d) in PredPairs(links) <==> linked)
      && (linked ==> DDGEdge(d, u, Some(cfg[d].defVar)) in Edges(links))
  {
    var links := DefUseLinks(live, cfg);
    if (d, u) in SuccPairs(links) {
      var l :| l in links && (l.def, l.use) == (d, u);
      DefUseLinksMembers(live, cfg, l);
    }
    if (u, d) in PredPairs(links) {
      var l :| l in links && (l.use, l.def) == (u, d);
      DefUseLinksMembers(live, cfg, l);
    }
    if d in live && d != 0 && cfg[d].defVar != "" && Pair(cfg[d].defVar, u) in live[d].liveOut {
      var l := Link(d, u, Some(cfg[d].defVar));
      DefUseLinksMembers(live, cfg, l);
      assert (d, u) in SuccPairs(links) && (u, d) in PredPairs(links) && EdgeOf(l) in Edges(links);
    }
  }

  // ---------------------------------------------------------------------------------------------
  // Entry links
  // ---------------------------------------------------------------------------------------------

  /** A node nothing lists as a predecessor of, or only itself. */
  predicate Detached(preds: set<(nat, nat)>, i: nat) {
    var ps := ListOf(preds, i);
    ps == {} || ps == {i}
  }

  /** The unlabelled links from the entry node to every detached node with one of the given ids. */
  function EntryLinks(preds: set<(nat, nat)>, ids: set<nat>): set<Link> {
    set i | i in ids && i != 0 && Detached(preds, i) :: Link(0, i, None)
  }

  /** One more node visited adds its entry link when it is one, and the links so far leave its predecessors as they were. */
  lemma EntryStep(preds: set<(nat, nat)>, ids: set<nat>, todo: set<nat>, i: nat)
    requires todo <= ids && i in todo
    ensures i != 0 && Detached(preds, i) ==>
      EntryLinks(preds, ids - (todo - {i})) == EntryLinks(preds, ids - todo) + {Link(0, i, None)}
    ensures !(i != 0 && Detached(preds, i)) ==> EntryLinks(preds, ids - (todo - {i})) == EntryLinks(preds, ids - todo)
    ensures ListOf(preds + PredPairs(EntryLinks(preds, ids - todo)), i) == ListOf(preds, i)
  {
    assert ids - (todo - {i}) == (ids - todo) + {i};
    var links := EntryLinks(preds, ids - todo);
    assert forall l :: l in links ==> l.use in ids - todo;
  }

  lemma EntryLinksWithin(preds: set<(nat, nat)>, ids: set<nat>, keys: set<nat>)
    requires ids <= keys && (0 in keys || EntryLinks(preds, ids) == {})
    ensures LinksWithin(EntryLinks(preds, ids), keys)
  {
  }

  /**
   * After the entry links were added no node with one of the given ids other than the entry is
   * detached; each one that was gains the entry as a predecessor, the entry gains exactly those as
   * successors, and every other list stays as it was.
   */
  lemma EntryLinksAttach(succs: set<(nat, nat)>, preds: set<(nat, nat)>, ids: set<nat>)
    ensures var links := EntryLinks(preds, ids);
      && (forall i :: i in ids && i != 0 ==> !Detached(preds + PredPairs(links), i))
      && (forall i :: i in ids && i != 0 && Detached(preds, i) ==> ListOf(preds + PredPairs(links), i) == ListOf(preds, i) + {0})
      && (forall i :: !(i in ids && i != 0 && Detached(preds, i)) ==> ListOf(preds + PredPairs(links), i) == ListOf(preds, i))
      && ListOf(succs + SuccPairs(links), 0) == ListOf(succs, 0) + (set i | i in ids && i != 0 && Detached(preds, i))
      && (forall x :: x != 0 ==> ListOf(succs + SuccPairs(links), x) == ListOf(succs, x))
  {
    var links := EntryLinks(preds, ids);
    forall i
      ensures ListOf(preds + PredPairs(links), i) == ListOf(preds, i) + (if i in ids && i != 0 && Detached(preds, i) then {0} else {})
    {
      PredsAfterEntry(preds, ids, i);
    }
    forall i | i in ids && i != 0
      ensures !Detached(preds + PredPairs(links), i)
    {
      var after := ListOf(preds + PredPairs(links), i);
      if Detached(preds, i) {
        assert 0 in after && (after == {} || after == {i}) ==> false;
      }
    }
    forall x
      ensures ListOf(succs + SuccPairs(links), x)
           == ListOf(succs, x) + (if x == 0 then set i | i in ids && i != 0 && Detached(preds, i) else {})
    {
      SuccsAfterEntry(succs, preds, ids, x);
    }
  }

  lemma PredsAfterEntry(preds: set<(nat, nat)>, ids: set<nat>, i: nat)
    ensures ListOf(preds + PredPairs(EntryLinks(preds, ids)), i)
         == ListOf(preds, i) + (if i in ids && i != 0 && Detached(preds, i) then {0} else {})
  {
    var links := EntryLinks(preds, ids);
    if i in ids && i != 0 && Detached(preds, i) {
      assert Link(0, i, None) in links;
      assert (i, 0) in PredPairs(links);
    }
    forall x | x in ListOf(preds + PredPairs(links), i)
      ensures x in ListOf(preds, i) + (if i in ids && i != 0 && Detached(preds, i) then {0} else {})
    {
      var q :| q in preds + PredPairs(links) && q.0 == i && q.1 == x;
      if q !in preds {
        var l :| l in links && (l.use, l.def) == q;
      }
    }
  }

  lemma SuccsAfterEntry(succs: set<(nat, nat)>, preds: set<(nat, nat)>, ids: set<nat>, x: nat)
    ensures ListOf(succs + SuccPairs(EntryLinks(preds, ids)), x)
         == ListOf(succs, x) + (if x == 0 then set i | i in ids && i != 0 && Detached(preds, i) else {})
  {
    var links := EntryLinks(preds, ids);
    forall y | y in ListOf(succs + SuccPairs(links), x)
      ensures y in ListOf(succs, x) + (if x == 0 then set i | i in ids && i != 0 && Detached(preds, i) else {})
    {
      var q :| q in succs + SuccPairs(links) && q.0 == x && q.1 == y;
      if q !in succs {
        var l :| l in links && (l.def, l.use) == q;
      }
    }
    if x == 0 {
      forall i | i in ids && i != 0 && Detached(preds, i)
        ensures i in ListOf(succs + SuccPairs(links), x)
      {
        assert Link(0, i, None) in links;
        assert (0, i) in SuccPairs(links);
      }
    }
  }

  // ---------------------------------------------------------------------------------------------
  // The graph
  // ---------------------------------------------------------------------------------------------

  /** Node ids index the nodes, lists are symmetric and closed, edges match, and chains follow successor entries. */
  ghost predicate GraphValid(
    nodes: map<nat, DDGNode>, succs: set<(nat, nat)>, preds: set<(nat, nat)>, outs: set<DDGEdge>, ins: set<DDGEdge>,
    chain: map<nat, set<nat>>, entry: Option<DDGNode>)
  {
    KeyedBy(nodes) && Closed(nodes.Keys, succs) && Symmetric(succs, preds)
    && EdgesMatch(succs, outs, ins) && ChainsMatch(chain, nodes.Keys, succs)
    && (entry.Some? ==> 0 in nodes && entry.value == nodes[0])
  }

  /** The nodes made for the ids, the links in all four relations, and the links' chain table. */
  ghost predicate HoldsFor(
    nodes: map<nat, DDGNode>, succs: set<(nat, nat)>, preds: set<(nat, nat)>, outs: set<DDGEdge>, ins: set<DDGEdge>,
    chain: map<nat, set<nat>>, cfg: CFG, ids: set<nat>, links: set<Link>)
  {
    MadeFrom(nodes, cfg, ids)
    && (succs, preds, outs, ins) == Relations(links)
    && IsChain(chain, links)
  }

  /** The graph formed from the live variables, with no entry node yet, is valid. */
  lemma FormedValid(
    nodes: map<nat, DDGNode>, succs: set<(nat, nat)>, preds: set<(nat, nat)>, outs: set<DDGEdge>, ins: set<DDGEdge>,
    chain: map<nat, set<nat>>, live: map<nat, InOut>, cfg: CFG)
    requires WellFormed(cfg)
    requires forall nid :: nid in live ==> nid in cfg
    requires HoldsFor(nodes, succs, preds, outs, ins, chain, cfg, live.Keys + Uses(DefUseLinks(live, cfg)), DefUseLinks(live, cfg))
    ensures GraphValid(nodes, succs, preds, outs, ins, chain, None)
  {
    var links := DefUseLinks(live, cfg);
    var keys := live.Keys + Uses(links);
    MadeKeyed(nodes, cfg, keys);
    FormedShape(live, cfg);
    LinksShaped(keys, links);
    ChainOfLinksMatches(chain, links, keys);
  }

  /** Adding the entry links to a valid graph whose entry node is set keeps it valid. */
  lemma EntryValid(
    nodes: map<nat, DDGNode>, succs: set<(nat, nat)>, preds: set<(nat, nat)>, outs: set<DDGEdge>, ins: set<DDGEdge>,
    chain: map<nat, set<nat>>, entry: Option<DDGNode>, ids: set<nat>)
    requires GraphValid(nodes, succs, preds, outs, ins, chain, entry)
    requires ids <= nodes.Keys && (0 in nodes || EntryLinks(preds, ids) == {})
    ensures var links := EntryLinks(preds, ids);
      GraphValid(nodes, succs + SuccPairs(links), preds + PredPairs(links), outs + Edges(links), ins + Edges(links), chain,
        if 0 in nodes then Some(nodes[0]) else None)
  {
    EntryLinksWithin(preds, ids, nodes.Keys);
    AddLinksKeepsShape(nodes.Keys, succs, preds, outs, ins, EntryLinks(preds, ids));
  }

  /**
   * The data-dependence graph: its nodes by id, the successor and predecessor lists and the edge
   * lists of all nodes as relations, the def-use chain table and the entry node.
   */
  class DDG {
    var entryNode: Option<DDGNode>
    var nodes: map<nat, DDGNode>
    var successors: set<(nat, nat)>
    var predecessors: set<(nat, nat)>
    var outEdges: set<DDGEdge>
    var inEdges: set<DDGEdge>
    var defUseChain: map<nat, set<nat>>

    /** Node ids index the nodes, lists are symmetric and closed, edges match, and chains follow successor entries. */
    ghost predicate Valid()
      reads this
    {
      GraphValid(nodes, successors, predecessors, outEdges, inEdges, defUseChain, entryNode)
    }

    /** The nodes made for the ids, the links in all four relations, and the links' chain table. */
    ghost predicate Holds(cfg: CFG, ids: set<nat>, links: set<Link>)
      reads this
    {
      HoldsFor(nodes, successors, predecessors, outEdges, inEdges, defUseChain, cfg, ids, links)
    }

    /**
     * The graph of a control-flow graph, given the values its live-variable traversal stored:
     * the exit node's value is dropped, chains are formed, and the entry is linked to the
     * detached nodes.
     */
    constructor (cfg: CFG, traversed: map<nat, InOut>)
      requires WellFormed(cfg)
      requires forall nid :: nid in LiveVariables(traversed, |cfg|) ==> nid in cfg
      requires PairsInGraph(LiveVariables(traversed, |cfg|), cfg)
      requires var live := LiveVariables(traversed, |cfg|);
        var links := DefUseLinks(live, cfg);
        0 in live.Keys + Uses(links) || EntryLinks(PredPairs(links), live.Keys) == {}
      ensures Valid()
      ensures var live := LiveVariables(traversed, |cfg|);
        var links := DefUseLinks(live, cfg);
        var entry := EntryLinks(PredPairs(links), live.Keys);
        && MadeFrom(nodes, cfg, live.Keys + Uses(links))
        && IsChain(defUseChain, links)
        && successors == SuccPairs(links) + SuccPairs(entry) && predecessors == PredPairs(links) + PredPairs(entry)
        && outEdges == Edges(links) + Edges(entry) && inEdges == Edges(links) + Edges(entry)
        && entryNode == (if 0 in nodes then Some(nodes[0]) else None)
    {
      var liveVars := LiveVariables(traversed, |cfg|);
      entryNode := None;
      nodes := map[];
      successors, predecessors := {}, {};
      outEdges, inEdges := {}, {};
      defUseChain := map[];
      new;
      FormDefUseChains(liveVars, cfg);
      FormedValid(nodes, successors, predecessors, outEdges, inEdges, defUseChain, liveVars, cfg);
      ConstructDDG(liveVars.Keys);
    }

    /** Looks a node up by id, going through the nodes one by one. */
    method FindNode(id: nat) returns (r: Option<DDGNode>)
      ensures r.Some? ==> r.value in nodes.Values && r.value.id == id
      ensures r.None? ==> forall n :: n in nodes.Values ==> n.id != id
      ensures KeyedBy(nodes) ==> (r.Some? <==> id in nodes) && (r.Some? ==> r.value == nodes[id])
    {
      var rest := nodes.Values;
      while rest != {}
        invariant rest <= nodes.Values
        invariant forall n :: n in nodes.Values && n !in rest ==> n.id != id
        decreases |rest|
      {
        var n :| n in rest;
        if n.id == id {
          var k :| k in nodes && nodes[k] == n;
          return Some(n);
        }
        rest := rest - {n};
      }
      if id in nodes {
        assert nodes[id] in nodes.Values;
      }
      r := None;
    }

    /** The node for a control-flow node: the existing one with its id, or a new one, added. */
    method GetNode(c: CFGNode) returns (n: DDGNode)
      requires KeyedBy(nodes)
      modifies this`nodes
      ensures nodes == if c.id in old(nodes) then old(nodes) else old(nodes)[c.id := Fresh(c)]
      ensures c.id in nodes && n == nodes[c.id]
    {
      var found := FindNode(c.id);
      if found.Some? {
        return found.value;
      }
      n := Fresh(c);
      nodes := nodes[c.id := n];
    }

    /** The defining nodes of the chains whose defined variable is the given one. */
    method GetDefNodes(v: string) returns (defNodes: set<DDGNode>)
      requires Valid()
      ensures forall n :: n in defNodes <==> n.id in defUseChain && nodes[n.id] == n && n.defVar == v
    {
      defNodes := {};
      var rest := defUseChain.Keys;
      while rest != {}
        invariant rest <= defUseChain.Keys
        invariant forall n :: n in defNodes <==>
          n.id in defUseChain && n.id !in rest && nodes[n.id] == n && n.defVar == v
        decreases |rest|
      {
        var d :| d in rest;
        if nodes[d].defVar == v {
          defNodes := defNodes + {nodes[d]};
        }
        rest := rest - {d};
      }
    }

    /**
     * For every node of the live variables a graph node is made, and every node other than the
     * entry that defines a variable gets a chain entry, a successor, a predecessor and a labelled
     * edge for each out pair of that variable.
     */
    method FormDefUseChains(live: map<nat, InOut>, cfg: CFG)
      requires WellFormed(cfg)
      requires forall nid :: nid in live ==> nid in cfg
      requires PairsInGraph(live, cfg)
      requires nodes == map[] && defUseChain == map[] && entryNode.None?
      requires successors == {} && predecessors == {} && outEdges == {} && inEdges == {}
      modifies this`nodes, this`successors, this`predecessors, this`outEdges, this`inEdges, this`defUseChain
      ensures Holds(cfg, live.Keys + Uses(DefUseLinks(live, cfg)), DefUseLinks(live, cfg))
    {
      FormStart(live, cfg);
      var todo := live.Keys;
      while todo != {}
        invariant todo <= live.Keys
        invariant Holds(cfg, (live.Keys - todo) + Uses(LinksFrom(live, cfg, live.Keys - todo)), LinksFrom(live, cfg, live.Keys - todo))
        decreases |todo|
      {
        var nid :| nid in todo;
        FormNode(live, cfg, nid, todo);
        todo := todo - {nid};
      }
      MinusNone(live.Keys, todo);
    }

    /** One node of the live variables, in terms of the links of the nodes visited before it. */
    method FormNode(live: map<nat, InOut>, cfg: CFG, nid: nat, ghost todo: set<nat>)
      requires WellFormed(cfg)
      requires forall k :: k in live ==> k in cfg
      requires PairsInGraph(live, cfg)
      requires nid in todo && todo <= live.Keys
      requires var done := live.Keys - todo;
        Holds(cfg, done + Uses(LinksFrom(live, cfg, done)), LinksFrom(live, cfg, done))
      modifies this`nodes, this`successors, this`predecessors, this`outEdges, this`inEdges, this`defUseChain
      ensures var done := live.Keys - (todo - {nid});
        Holds(cfg, done + Uses(LinksFrom(live, cfg, done)), LinksFrom(live, cfg, done))
    {
      ghost var done := live.Keys - todo;
      ChainNode(live, cfg, nid, done + Uses(LinksFrom(live, cfg, done)), LinksFrom(live, cfg, done));
      FormStep(live, cfg, done, nid);
      assert live.Keys - (todo - {nid}) == done + {nid};
    }

    /** One node of the live variables: its graph node, then the links of its out pairs. */
    method ChainNode(live: map<nat, InOut>, cfg: CFG, nid: nat, ghost created: set<nat>, ghost links: set<Link>)
      requires WellFormed(cfg)
      requires forall k :: k in live ==> k in cfg
      requires PairsInGraph(live, cfg)
      requires nid in live
      requires Holds(cfg, created, links)
      modifies this`nodes, this`successors, this`predecessors, this`outEdges, this`inEdges, this`defUseChain
      ensures Holds(cfg, created + {nid} + Uses(LinksOf(nid, live[nid].liveOut, cfg)), links + LinksOf(nid, live[nid].liveOut, cfg))
    {
      var n := cfg[nid];
      MadeKeyed(nodes, cfg, created);
      MadeAdd(nodes, cfg, created, nid);
      var defNode := GetNode(n);
      ChainSetsNone(created, nid, links);
      var out := live[nid].liveOut;
      assert out - out == {};
      assert LinksOf(nid, out - out, cfg) == {};
      if nid != 0 {
        var rest := out;
        while rest != {}
          invariant rest <= out
          invariant Holds(cfg, created + {nid} + Uses(LinksOf(nid, out - rest, cfg)), links + LinksOf(nid, out - rest, cfg))
          decreases |rest|
        {
          var p :| p in rest;
          ghost var done := LinksOf(nid, out - rest, cfg);
          LinkPair(cfg, nid, p, created + {nid} + Uses(done), links + done);
          PairStep(nid, out, rest, p, cfg, created, links);
          rest := rest - {p};
        }
        assert out - rest == out;
      } else {
        assert LinksOf(nid, out, cfg) == {};
      }
    }

    /** One out pair of a node other than the entry: when it is of the variable the node defines, its link is added. */
    method LinkPair(cfg: CFG, nid: nat, p: Pair, ghost ids: set<nat>, ghost links: set<Link>)
      requires WellFormed(cfg)
      requires nid in cfg && p.node in cfg
      requires Holds(cfg, ids, links)
      modifies this`nodes, this`successors, this`predecessors, this`outEdges, this`inEdges, this`defUseChain
      ensures Kills(cfg[nid], p) ==> Holds(cfg, ids + {p.node}, links + {Link(nid, p.node, Some(p.variable))})
      ensures !Kills(cfg[nid], p) ==> Holds(cfg, ids, links)
    {
      var n := cfg[nid];
      if n.defVar != "" {
        if n.defVar == p.variable {
          var l := Link(nid, p.node, Some(p.variable));
          MadeKeyed(nodes, cfg, ids);
          MadeAdd(nodes, cfg, ids, p.node);
          var useNode := GetNode(cfg[p.node]);
          ChainStep(defUseChain, links, l);
          if !(nid in defUseChain) {
            defUseChain := defUseChain[nid := {}];
          }
          defUseChain := defUseChain[nid := defUseChain[nid] + {p.node}];
          successors := successors + {(nid, p.node)};
          predecessors := predecessors + {(p.node, nid)};
          var edge := DDGEdge(nid, p.node, Some(p.variable));
          outEdges := outEdges + {edge};
          inEdges := inEdges + {edge};
          LinkSetsAdd(links, l);
        }
      }
    }

    /**
     * The entry node is looked up; each detached node with one of the given ids other than the
     * entry gets the entry as its predecessor, and the entry it as its successor, with an
     * unlabelled edge between them.
     */
    method ConstructDDG(ids: set<nat>)
      requires Valid() && ids <= nodes.Keys
      requires 0 in nodes || EntryLinks(predecessors, ids) == {}
      modifies this`entryNode, this`successors, this`predecessors, this`outEdges, this`inEdges
      ensures Valid()
      ensures var links := EntryLinks(old(predecessors), ids);
        && successors == old(successors) + SuccPairs(links) && predecessors == old(predecessors) + PredPairs(links)
        && outEdges == old(outEdges) + Edges(links) && inEdges == old(inEdges) + Edges(links)
      ensures entryNode == if 0 in nodes then Some(nodes[0]) else None
    {
      ghost var entry0 := entryNode;
      entryNode := FindNode(0);
      ghost var succs0, preds0, outs0, ins0 := successors, predecessors, outEdges, inEdges;
      ExtendNone(succs0, preds0, outs0, ins0);
      assert ids - ids == {};
      assert EntryLinks(preds0, ids - ids) == {};
      var todo := ids;
      while todo != {}
        invariant todo <= ids
        invariant var done := EntryLinks(preds0, ids - todo);
          && successors == succs0 + SuccPairs(done) && predecessors == preds0 + PredPairs(done)
          && outEdges == outs0 + Edges(done) && inEdges == ins0 + Edges(done)
        invariant entryNode == if 0 in nodes then Some(nodes[0]) else None
        decreases |todo|
      {
        var i :| i in todo;
        LinkEntry(ids, todo, i, succs0, preds0, outs0, ins0);
        todo := todo - {i};
      }
      assert ids - todo == ids;
      EntryValid(nodes, succs0, preds0, outs0, ins0, defUseChain, entry0, ids);
    }

    /** One node of the given ids: when it is not the entry and is detached, the entry is linked to it. */
    method LinkEntry(
      ids: set<nat>, ghost todo: set<nat>, i: nat,
      ghost succs0: set<(nat, nat)>, ghost preds0: set<(nat, nat)>, ghost outs0: set<DDGEdge>, ghost ins0: set<DDGEdge>)
      requires KeyedBy(nodes) && ids <= nodes.Keys
      requires 0 in nodes || EntryLinks(preds0, ids) == {}
      requires todo <= ids && i in todo
      requires var done := EntryLinks(preds0, ids - todo);
        && successors == succs0 + SuccPairs(done) && predecessors == preds0 + PredPairs(done)
        && outEdges == outs0 + Edges(done) && inEdges == ins0 + Edges(done)
      requires entryNode == if 0 in nodes then Some(nodes[0]) else None
      modifies this`successors, this`predecessors, this`outEdges, this`inEdges
      ensures var done := EntryLinks(preds0, ids - (todo - {i}));
        && successors == succs0 + SuccPairs(done) && predecessors == preds0 + PredPairs(done)
        && outEdges == outs0 + Edges(done) && inEdges == ins0 + Edges(done)
    {
      ghost var done := EntryLinks(preds0, ids - todo);
      EntryStep(preds0, ids, todo, i);
      if i != 0 {
        var found := FindNode(i);
        var dest := found.value;
        var preds := ListOf(predecessors, dest.id);
        if preds == {} || preds == {dest.id} {
          assert Link(0, i, None) in EntryLinks(preds0, ids);
          var entry := entryNode.value;
          var l := Link(entry.id, dest.id, None);
          successors := successors + {(entry.id, dest.id)};
          predecessors := predecessors + {(dest.id, entry.id)};
          var edge := DDGEdge(entry.id, dest.id, None);
          outEdges := outEdges + {edge};
          inEdges := inEdges + {edge};
          ExtendBy(succs0, preds0, outs0, ins0, done, l);
        }
      }
    }
  }
}
