/** Governance graph and transition policy (policy.py). */
module Policy {
  import opened Base
  import opened Model

  // ----- Trails through the subordinate-domain graph -----

  /** A non-empty trail of domains, built one step at a time. */
  datatype Trail = Root(end: string) | Then(prior: Trail, end: string)
  {
    ghost function Start(): string {
      match this case Root(d) => d case Then(t, _) => t.Start()
    }

    ghost function Domains(): set<string> {
      match this case Root(d) => {d} case Then(t, d) => t.Domains() + {d}
    }

    /** The part of the trail from its last visit to `d` onwards. */
    ghost function From(d: string): Trail {
      if end == d || Root? then Root(end) else Then(prior.From(d), end)
    }
  }

  /** An edge between two declared domains; `has_cycle` ignores undeclared ones. */
  ghost predicate Edge(g: Governance, a: string, b: string) {
    a in g && b in g && b in g[a].subordinates
  }

  ghost predicate Walk(g: Governance, t: Trail) {
    t.Then? ==> Edge(g, t.prior.end, t.end) && Walk(g, t.prior)
  }

  ghost predicate Cyclic(g: Governance) {
    exists t: Trail :: t.Then? && t.Start() == t.end && Walk(g, t)
  }

  /** A ranking that every edge lowers rules cycles out. */
  ghost predicate Ranked(g: Governance, rank: map<string, nat>) {
    forall a, b | a in rank && Edge(g, a, b) :: b in rank && rank[b] < rank[a]
  }

  lemma RankExtends(g: Governance, rank: map<string, nat>, n: string, k: nat)
    requires Ranked(g, rank) && n !in rank
    requires forall d | d in rank :: rank[d] < k
    requires forall x | Edge(g, n, x) :: x in rank
    ensures Ranked(g, rank[n := k])
  {
    hide Edge;
  }

  lemma {:induction false} WalkDescends(g: Governance, rank: map<string, nat>, t: Trail)
    requires Ranked(g, rank) && t.Start() in rank && Walk(g, t)
    ensures t.end in rank && (if t.Root? then rank[t.end] == rank[t.Start()] else rank[t.end] < rank[t.Start()])
  {
    if t.Then? {
      WalkDescends(g, rank, t.prior);
    }
  }

  lemma {:induction false} WalkIsDeclared(g: Governance, t: Trail)
    requires t.Then? && Walk(g, t)
    ensures t.Start() in g
  {
    if t.prior.Then? {
      WalkIsDeclared(g, t.prior);
    }
  }

  lemma RankedIsAcyclic(g: Governance, rank: map<string, nat>)
    requires Ranked(g, rank) && g.Keys <= rank.Keys
    ensures !Cyclic(g)
  {
    forall t: Trail | t.Then? && Walk(g, t) ensures t.Start() != t.end {
      WalkIsDeclared(g, t);
      WalkDescends(g, rank, t);
    }
  }

  lemma {:induction false} SuffixWalks(g: Governance, t: Trail, d: string)
    requires Walk(g, t) && d in t.Domains()
    ensures Walk(g, t.From(d)) && t.From(d).Start() == d && t.From(d).end == t.end
  {
    if t.end != d {
      SuffixWalks(g, t.prior, d);
    }
  }

  /** The graph holds every declared domain with its subordinates. */
  ghost predicate IsGraphOf(graph: map<string, set<string>>, g: Governance) {
    graph.Keys == g.Keys && forall d | d in g :: graph[d] == g[d].subordinates
  }

  /** `{d: set(r.subordinate_domains) for d, r in governance.items()}`. */
  method GraphOf(governance: Governance) returns (graph: map<string, set<string>>)
    ensures IsGraphOf(graph, governance)
  {
    graph := map[];
    var todo := governance.Keys;
    while todo != {}
      invariant todo <= governance.Keys && graph.Keys == governance.Keys - todo
      invariant forall d | d in graph :: graph[d] == governance[d].subordinates
      decreases todo
    {
      var d :| d in todo;
      graph := graph[d := governance[d].subordinates];
      todo := todo - {d};
    }
  }

  /** The trail being explored visits exactly `visiting`. */
  ghost predicate Exploring(g: Governance, visiting: set<string>, done: set<string>, stack: Option<Trail>) {
    && visiting == (if stack.Some? then stack.value.Domains() else {})
    && visiting <= g.Keys
    && visiting !! done
    && (stack.Some? ==> Walk(g, stack.value))
  }

  /** Finished domains are ranked by the order in which they finished. */
  ghost predicate Finished(g: Governance, done: set<string>, rank: map<string, nat>) {
    && rank.Keys == done
    && Ranked(g, rank)
    && forall d | d in done :: rank[d] < |done|
  }

  lemma FinishedExtends(g: Governance, done: set<string>, rank: map<string, nat>, n: string)
    requires Finished(g, done, rank) && n !in done
    requires forall x | Edge(g, n, x) :: x in done
    ensures Finished(g, done + {n}, rank[n := |done|])
  {
    RankExtends(g, rank, n, |done|);
    assert |done + {n}| == |done| + 1;
  }

  /** The nested `dfs` of `has_cycle` with the two sets it mutates. */
  class CycleSearch {
    ghost const governance: Governance
    const graph: map<string, set<string>>
    var visiting: set<string>
    var done: set<string>
    ghost var stack: Option<Trail>        // the trail being explored
    ghost var rank: map<string, nat>      // order in which domains were finished

    ghost predicate Valid()
      reads this
    {
      && IsGraphOf(graph, governance)
      && Exploring(governance, visiting, done, stack)
      && Finished(governance, done, rank)
    }

    ghost predicate MayVisit(n: string)
      reads this
    {
      n in governance && (stack.Some? ==> Edge(governance, stack.value.end, n))
    }

    ghost function Push(n: string): Trail
      reads this
    {
      if stack.Some? then Then(stack.value, n) else Root(n)
    }

    constructor (governance: Governance, graph: map<string, set<string>>)
      requires IsGraphOf(graph, governance)
      ensures Valid() && this.governance == governance && this.graph == graph
      ensures visiting == {} && done == {} && stack == None
    {
      this.governance, this.graph := governance, graph;
      visiting, done := {}, {};
      stack, rank := None, map[];
    }

    lemma ClosesCycle(n: string)
      requires Valid() && MayVisit(n) && n in visiting
      ensures Cyclic(governance)
    {
      SuffixWalks(governance, stack.value, n);
      var t := Then(stack.value.From(n), n);
      assert t.Start() == t.end && Walk(governance, t);
    }

    method Enter(n: string)
      requires Valid() && MayVisit(n) && n !in visiting && n !in done
      modifies this
      ensures Valid() && stack == Some(old(Push(n)))
      ensures visiting == old(visiting) + {n} && done == old(done)
    {
      visiting := visiting + {n};
      stack := Some(Push(n));
    }

    method Leave(n: string, ghost outer: Option<Trail>)
      requires Valid() && n !in done && (outer.Some? ==> n !in outer.value.Domains())
      requires stack == Some(if outer.Some? then Then(outer.value, n) else Root(n))
      requires outer.Some? ==> Walk(governance, outer.value)
      requires forall x | Edge(governance, n, x) :: x in done
      modifies this
      ensures Valid() && stack == outer
      ensures visiting == old(visiting) - {n} && done == old(done) + {n}
    {
      hide Finished, Edge, Walk, IsGraphOf;
      FinishedExtends(governance, done, rank, n);
      rank := rank[n := |done|];
      visiting := visiting - {n};
      done := done + {n};
      stack := outer;
    }

    method Dfs(n: string) returns (found: bool)
      requires Valid() && MayVisit(n)
      modifies this
      ensures found ==> Cyclic(governance)
      ensures !found ==> Valid() && n in done && old(done) <= done
      ensures !found ==> visiting == old(visiting) && stack == old(stack)
      decreases governance.Keys - visiting
    {
      if n in visiting {
        ClosesCycle(n);
        return true;
      }
      if n in done {
        return false;
      }
      Enter(n);
      var todo := graph[n];
      while todo != {}
        invariant Valid() && todo <= graph[n] && n !in done
        invariant stack == Some(old(Push(n))) && visiting == old(visiting) + {n}
        invariant old(done) <= done
        invariant forall x | x in graph[n] - todo && x in graph :: x in done
        decreases todo
      {
        var x :| x in todo;
        todo := todo - {x};
        if x in graph {
          var cyclic := Dfs(x);
          if cyclic {
            return true;
          }
        }
      }
      Leave(n, old(stack));
      return false;
    }
  }

  /** The cycle test is exact, whichever order the sets are iterated in. */
  method HasCycle(governance: Governance) returns (cyclic: bool)
    ensures cyclic <==> Cyclic(governance)
  {
    var graph := GraphOf(governance);
    var search := new CycleSearch(governance, graph);
    var todo := graph.Keys;
    while todo != {}
      invariant search.Valid() && search.stack == None && todo <= governance.Keys
      invariant search.governance == governance
      invariant governance.Keys - todo <= search.done
      decreases todo
    {
      var d :| d in todo;
      todo := todo - {d};
      var found := search.Dfs(d);
      if found {
        return true;
      }
    }
    RankedIsAcyclic(governance, search.rank);
    return false;
  }

  // ----- Closure -----

  ghost predicate Governs(g: Governance, principal: string, d: string) {
    d in g && (g[d].controller == principal || principal in g[d].admins)
  }

  /** A descent: every step goes from a declared domain to a subordinate; only the last may be undeclared. */
  ghost predicate Descent(g: Governance, t: Trail) {
    t.Then? ==> t.prior.end in g && t.end in g[t.prior.end].subordinates && Descent(g, t.prior)
  }

  ghost predicate Leads(g: Governance, principal: string, t: Trail, d: string) {
    Governs(g, principal, t.Start()) && t.end == d && Descent(g, t)
  }

  ghost predicate Within(g: Governance, principal: string, d: string) {
    exists t :: Leads(g, principal, t, d)
  }

  // ----- The same on plain lists of domains -----

  function Listed(t: Trail): (path: seq<string>)
    ensures path != [] && path[|path| - 1] == t.end
  {
    match t case Root(d) => [d] case Then(prior, d) => Listed(prior) + [d]
  }

  function Trace(path: seq<string>): Trail
    requires path != []
  {
    var d := path[|path| - 1];
    if |path| == 1 then Root(d) else Then(Trace(path[..|path| - 1]), d)
  }

  lemma {:induction false} ListedTrace(path: seq<string>)
    requires path != []
    ensures Listed(Trace(path)) == path && Trace(path).end == path[|path| - 1]
  {
    if |path| > 1 {
      ListedTrace(path[..|path| - 1]);
    }
  }

  /** The `i`-th domain of the list is a subordinate of the one before it, which is declared. */
  predicate StepTo(g: Governance, path: seq<string>, i: nat)
    requires 0 < i < |path|
  {
    path[i - 1] in g && path[i] in g[path[i - 1]].subordinates
  }

  predicate StepsDown(g: Governance, path: seq<string>) {
    forall i | 0 < i < |path| :: StepTo(g, path, i)
  }

  lemma StepsGrow(g: Governance, path: seq<string>, d: string)
    requires path != []
    ensures var last := path[|path| - 1];
            StepsDown(g, path + [d]) <==> StepsDown(g, path) && last in g && d in g[last].subordinates
  {
    var q := path + [d];
    assert StepTo(g, q, |path|) <==> path[|path| - 1] in g && d in g[path[|path| - 1]].subordinates;
    assert forall i | 0 < i < |path| :: StepTo(g, q, i) <==> StepTo(g, path, i);
  }

  lemma {:induction false} DescentListed(g: Governance, t: Trail)
    ensures Listed(t)[0] == t.Start()
    ensures Descent(g, t) <==> StepsDown(g, Listed(t))
    ensures Walk(g, t) <==> StepsDown(g, Listed(t)) && (t.Then? ==> forall d | d in Listed(t) :: d in g)
  {
    if t.Then? {
      DescentListed(g, t.prior);
      StepsGrow(g, Listed(t.prior), t.end);
      assert Listed(t)[0] == Listed(t.prior)[0];
      if t.prior.Root? {
        assert Listed(t.prior) == [t.prior.end];
      }
      hide StepsDown;
    }
  }

  /** A directed cycle: at least one step, through declared domains only, back to where it began. */
  ghost predicate Cycle(g: Governance, path: seq<string>) {
    |path| > 1 && path[0] == path[|path| - 1] && StepsDown(g, path) && forall d | d in path :: d in g
  }

  /** The governance graph has a cycle exactly when some list of domains is one. */
  lemma CyclicExactly(g: Governance)
    ensures Cyclic(g) <==> exists path :: Cycle(g, path)
  {
    hide StepsDown, Walk;
    if Cyclic(g) {
      var t: Trail :| t.Then? && t.Start() == t.end && Walk(g, t);
      DescentListed(g, t);
      assert Cycle(g, Listed(t));
    }
    if path :| Cycle(g, path) {
      ListedTrace(path);
      DescentListed(g, Trace(path));
    }
  }

  /** The list begins with a domain the principal controls or administers and steps down to `d`. */
  ghost predicate PathTo(g: Governance, principal: string, path: seq<string>, d: string) {
    && path != [] && path[|path| - 1] == d && StepsDown(g, path)
    && path[0] in g && (g[path[0]].controller == principal || principal in g[path[0]].admins)
  }

  lemma WithinExactly(g: Governance, principal: string, d: string)
    ensures Within(g, principal, d) <==> exists path :: PathTo(g, principal, path, d)
  {
    hide StepsDown, Descent;
    if Within(g, principal, d) {
      var t :| Leads(g, principal, t, d);
      DescentListed(g, t);
      assert PathTo(g, principal, Listed(t), d);
    }
    if path :| PathTo(g, principal, path, d) {
      ListedTrace(path);
      DescentListed(g, Trace(path));
      assert Leads(g, principal, Trace(path), d);
    }
  }

  lemma WithinStep(g: Governance, principal: string, d: string, x: string)
    requires Within(g, principal, d) && d in g && x in g[d].subordinates
    ensures Within(g, principal, x)
  {
    var t :| Leads(g, principal, t, d);
    assert Leads(g, principal, Then(t, x), x);
  }

  ghost predicate ClosedUnder(g: Governance, s: set<string>) {
    forall d, x | d in s && d in g && x in g[d].subordinates :: x in s
  }

  lemma {:induction false} DescentStays(g: Governance, s: set<string>, t: Trail)
    requires t.Start() in s && ClosedUnder(g, s) && Descent(g, t)
    ensures t.end in s
  {
    if t.Then? {
      DescentStays(g, s, t.prior);
    }
  }

  lemma ElementsOfOne(x: string)
    ensures Elements([x]) == {x} && Elements<string>([]) == {}
  {}

  /** Enumerate a set in some order. */
  method Listing(s: set<string>) returns (q: seq<string>)
    ensures Elements(q) == s
  {
    q := [];
    var todo := s;
    while todo != {}
      invariant todo <= s && Elements(q) == s - todo
      decreases todo
    {
      var x :| x in todo;
      ElementsOfConcat(q, [x]);
      ElementsOfOne(x);
      todo := todo - {x};
      q := q + [x];
    }
  }

  ghost function Universe(g: Governance): set<string> {
    g.Keys + set d, x | d in g && x in g[d].subordinates :: x
  }

  lemma UniverseHasSubordinates(g: Governance, d: string)
    requires d in g
    ensures g[d].subordinates <= Universe(g) && d in Universe(g)
  {}

  lemma UniverseHasDeclared(g: Governance)
    ensures g.Keys <= Universe(g)
  {}

  /** What the worklist knows: found domains are within reach, and nothing in reach is forgotten. */
  ghost predicate Frontier(g: Governance, principal: string, seen: set<string>, waiting: set<string>) {
    && (forall d | d in seen + waiting :: Within(g, principal, d))
    && (forall d | Governs(g, principal, d) :: d in seen + waiting)
    && (forall d, x | d in seen && d in g && x in g[d].subordinates :: x in seen + waiting)
  }

  lemma FrontierStarts(g: Governance, principal: string, roots: set<string>)
    requires forall d :: d in roots <==> Governs(g, principal, d)
    ensures Frontier(g, principal, {}, roots)
  {
    forall d | d in {} + roots ensures Within(g, principal, d) {
      assert Leads(g, principal, Root(d), d);
    }
  }

  lemma FrontierExpands(g: Governance, principal: string, seen: set<string>, waiting: set<string>, d: string,
                        more: set<string>)
    requires Frontier(g, principal, seen, waiting + {d})
    requires more == if d in g then g[d].subordinates - (seen + {d}) else {}
    ensures Frontier(g, principal, seen + {d}, waiting + more)
  {
    hide Within;
    assert d in seen + (waiting + {d});
    forall x | x in more ensures Within(g, principal, x) {
      WithinStep(g, principal, d, x);
    }
    assert seen + {d} + (waiting + more) == seen + (waiting + {d}) + more;
  }

  lemma FrontierSkips(g: Governance, principal: string, seen: set<string>, waiting: set<string>, d: string)
    requires Frontier(g, principal, seen, waiting + {d}) && d in seen
    ensures Frontier(g, principal, seen, waiting)
  {
    hide Within;
    assert seen + (waiting + {d}) == seen + waiting;
  }

  lemma FrontierDone(g: Governance, principal: string, seen: set<string>)
    requires Frontier(g, principal, seen, {})
    ensures forall d :: d in seen <==> Within(g, principal, d)
  {
    assert seen + {} == seen;
    forall d | Within(g, principal, d) ensures d in seen {
      var t :| Leads(g, principal, t, d);
      DescentStays(g, seen, t);
    }
  }

  lemma ElementsOfConcat(a: seq<string>, b: seq<string>)
    ensures Elements(a + b) == Elements(a) + Elements(b)
  {}

  /** The closure is exactly the set of domains within reach of the principal, declared or not. */
  method Closure(g: Governance, principal: string) returns (seen: set<string>)
    ensures forall d :: d in seen <==> Within(g, principal, d)
  {
    hide Frontier, Within, Universe, Elements;
    seen := {};
    var q := Listing(set d | d in g && (g[d].controller == principal || principal in g[d].admins));
    FrontierStarts(g, principal, Elements(q));
    UniverseHasDeclared(g);
    while q != []
      invariant seen + Elements(q) <= Universe(g) && Frontier(g, principal, seen, Elements(q))
      decreases Universe(g) - seen, |q|
    {
      var d, rest := q[|q| - 1], q[..|q| - 1];
      assert q == rest + [d];
      ElementsOfConcat(rest, [d]);
      assert Elements(q) == Elements(rest) + {d} by { ElementsOfOne(d); }
      q := rest;
      if d in seen {
        FrontierSkips(g, principal, seen, Elements(rest), d);
      } else {
        var more := [];
        ElementsOfOne(d);
        if d in g {
          UniverseHasSubordinates(g, d);
          more := Listing(g[d].subordinates - (seen + {d}));
        }
        ElementsOfConcat(rest, more);
        FrontierExpands(g, principal, seen, Elements(rest), d, Elements(more));
        seen := seen + {d};
        q := q + more;
      }
    }
    ElementsOfOne("");
    FrontierDone(g, principal, seen);
  }

  // ----- Transition check -----

  datatype Denial =
    | EpochNotNext
    | OutsideClosure
    | SelfGovernance
    | Expansion
    | GovernanceCycle
    | CrossPrincipal

  ghost function Verdict(current: SystemState, proposed: SystemState, principal: string)
    : Result<AuthorityDelta, Denial>
  {
    var delta := DeltaOf(current, proposed);
    if proposed.epoch != current.epoch + 1 then Err(EpochNotNext)
    else if delta.mutation == NoMutation then Ok(delta)
    else if delta.changedDomains != {} then
      if exists d :: d in delta.changedDomains && !Within(current.governance, principal, d)
      then Err(OutsideClosure) else Err(SelfGovernance)
    else if Expands(current, proposed, delta.changedPairs) then Err(Expansion)
    else if Cyclic(proposed.governance) then Err(GovernanceCycle)
    else if exists pd :: pd in delta.changedPairs && pd.0 != principal then Err(CrossPrincipal)
    else Ok(delta)
  }

  /**
   What an accepted transition reports: exactly the pairs that change, no domains, and the class: a contraction
   when some pair loses a permission, nothing otherwise.
   */
  ghost predicate Reports(current: SystemState, proposed: SystemState, delta: AuthorityDelta) {
    && (forall p, d :: (p, d) in delta.changedPairs <==> proposed.Perms(p, d) != current.Perms(p, d))
    && delta.changedDomains == {}
    && delta.mutation == if exists p, d :: proposed.Perms(p, d) < current.Perms(p, d)
                         then PermissionContraction else NoMutation
  }

  lemma AcceptedReports(current: SystemState, proposed: SystemState, principal: string)
    ensures Verdict(current, proposed, principal).Ok? ==>
      Reports(current, proposed, Verdict(current, proposed, principal).value)
  {
    DeltaIsComplete(current, proposed);
    ClassifiesExactly(current, proposed);
    AcceptedExactly(current, proposed, principal);
    var delta := DeltaOf(current, proposed);
    if Verdict(current, proposed, principal).Ok? && delta.mutation == NoMutation {
      assert forall p, d :: proposed.Perms(p, d) == current.Perms(p, d);
    }
  }

  /** Which denial a transition gets, or none: exactly one of these cases holds. */
  lemma DeniedExactly(current: SystemState, proposed: SystemState, principal: string)
    ensures var next := proposed.epoch == current.epoch + 1;
            var same := proposed.governance == current.governance;
            var inside := forall d | Get(current.governance, d) != Get(proposed.governance, d) ::
                            Within(current.governance, principal, d);
            var gains := exists p, d :: !(proposed.Perms(p, d) <= current.Perms(p, d));
            var loses := exists p, d :: proposed.Perms(p, d) < current.Perms(p, d);
            var others := exists p, d :: p != principal && proposed.Perms(p, d) != current.Perms(p, d);
            match Verdict(current, proposed, principal)
            case Err(EpochNotNext) => !next
            case Err(OutsideClosure) => next && !same && !inside
            case Err(SelfGovernance) => next && !same && inside
            case Err(Expansion) => next && same && gains
            case Err(GovernanceCycle) => next && same && !gains && loses && Cyclic(proposed.governance)
            case Err(CrossPrincipal) => next && same && !gains && loses && !Cyclic(proposed.governance) && others
            case Ok(_) => next && same && !gains && (loses ==> !Cyclic(proposed.governance) && !others)
  {
    DeltaIsComplete(current, proposed);
    ClassifiesExactly(current, proposed);
    var delta := DeltaOf(current, proposed);
    hide Within, Cyclic;
    assert Expands(current, proposed, delta.changedPairs) <==>
        exists p, d :: !(proposed.Perms(p, d) <= current.Perms(p, d)) by {
      ExpandsExactly(current, proposed);
    }
    if Verdict(current, proposed, principal) == Err(CrossPrincipal) {
      var pd :| pd in delta.changedPairs && pd.0 != principal;
      assert (pd.0, pd.1) in delta.changedPairs;
    } else if Verdict(current, proposed, principal).Ok? && delta.mutation != NoMutation {
      forall p, d | p != principal ensures proposed.Perms(p, d) == current.Perms(p, d) {
        assert (p, d).0 == p && ((p, d) in delta.changedPairs <==> proposed.Perms(p, d) != current.Perms(p, d));
      }
    }
  }

  lemma ExpandsExactly(a: SystemState, b: SystemState)
    ensures Expands(a, b, DeltaOf(a, b).changedPairs) <==> exists p, d :: !(b.Perms(p, d) <= a.Perms(p, d))
  {
    DeltaIsComplete(a, b);
    if p, d :| !(b.Perms(p, d) <= a.Perms(p, d)) {
      assert (p, d) in DeltaOf(a, b).changedPairs;
    }
  }

  lemma OtherMember(s: set<string>, x: string)
    requires s != {} && s != {x}
    ensures exists y :: y in s && y != x
  {
    var y :| y in s;
    if y == x {
      assert s == {x} + (s - {x});
      var z :| z in s - {x};
    }
  }

  method ValidateTransition(current: SystemState, proposed: SystemState, principal: string)
    returns (r: Result<AuthorityDelta, Denial>)
    ensures r == Verdict(current, proposed, principal)
    ensures r.Ok? ==> Reports(current, proposed, r.value)
  {
    AcceptedReports(current, proposed, principal);
    if proposed.epoch != current.epoch + 1 {
      return Err(EpochNotNext);
    }
    var delta := Derive(current, proposed);
    var cl := Closure(current.governance, principal);
    if delta.mutation == NoMutation {
      return Ok(delta);
    }
    if delta.changedDomains != {} {
      if !(delta.changedDomains <= cl) {
        assert exists d :: d in delta.changedDomains && d !in cl;
        return Err(OutsideClosure);
      }
      return Err(SelfGovernance);
    }
    var todo := delta.changedPairs;
    while todo != {}
      invariant todo <= delta.changedPairs
      invariant !Expands(current, proposed, delta.changedPairs - todo)
      decreases todo
    {
      var pd :| pd in todo;
      if !(proposed.Perms(pd.0, pd.1) <= current.Perms(pd.0, pd.1)) {
        assert Expands(current, proposed, delta.changedPairs);
        return Err(Expansion);
      }
      todo := todo - {pd};
    }
    assert delta.changedPairs - todo == delta.changedPairs;
    var cyclic := HasCycle(proposed.governance);
    if cyclic {
      return Err(GovernanceCycle);
    }
    var changed := set pd | pd in delta.changedPairs :: pd.0;
    if changed != {} && changed != {principal} {
      OtherMember(changed, principal);
      return Err(CrossPrincipal);
    }
    assert forall pd | pd in delta.changedPairs :: pd.0 in changed;
    return Ok(delta);
  }

  /** No pair gains a permission, and only the acting principal's pairs change. */
  ghost predicate Attenuates(current: SystemState, proposed: SystemState, principal: string) {
    && proposed.governance == current.governance
    && (forall p, d :: proposed.Perms(p, d) <= current.Perms(p, d))
    && (forall p, d | p != principal :: proposed.Perms(p, d) == current.Perms(p, d))
  }

  ghost predicate SamePermissions(current: SystemState, proposed: SystemState) {
    forall p, d :: proposed.Perms(p, d) == current.Perms(p, d)
  }

  lemma AcceptedPair(current: SystemState, proposed: SystemState, principal: string, pd: (string, string))
    requires Verdict(current, proposed, principal).Ok?
    requires DeltaOf(current, proposed).mutation != NoMutation
    ensures proposed.Perms(pd.0, pd.1) <= current.Perms(pd.0, pd.1)
    ensures pd.0 != principal ==> proposed.Perms(pd.0, pd.1) == current.Perms(pd.0, pd.1)
  {
    var pairs := DeltaOf(current, proposed).changedPairs;
    if proposed.Perms(pd.0, pd.1) != current.Perms(pd.0, pd.1) {
      DeltaIsComplete(current, proposed);
      assert (pd.0, pd.1) in pairs;
      assert pd in pairs;
    }
  }

  /** Exactly which transitions are accepted. */
  lemma AcceptedExactly(current: SystemState, proposed: SystemState, principal: string)
    ensures Verdict(current, proposed, principal).Ok? <==>
      && proposed.epoch == current.epoch + 1
      && Attenuates(current, proposed, principal)
      && (SamePermissions(current, proposed) || !Cyclic(proposed.governance))
  {
    var delta := DeltaOf(current, proposed);
    DeltaIsComplete(current, proposed);
    if Attenuates(current, proposed, principal) {
      assert !Expands(current, proposed, delta.changedPairs);
      forall pd | pd in delta.changedPairs ensures pd.0 == principal {
        assert (pd.0, pd.1) in delta.changedPairs;
      }
    }
    if Verdict(current, proposed, principal).Ok? && delta.mutation != NoMutation {
      assert current.governance == proposed.governance;
      forall p, d
        ensures proposed.Perms(p, d) <= current.Perms(p, d)
        ensures p != principal ==> proposed.Perms(p, d) == current.Perms(p, d)
      {
        AcceptedPair(current, proposed, principal, (p, d));
      }
    }
  }
}
