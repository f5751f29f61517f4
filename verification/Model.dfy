/** Immutable authority states and the document form in which they are stored and digested (model.py). */
module Model {
  import opened Base
  import opened Ordering

  datatype MutationClass =
    | NoMutation
    | PermissionExpansion
    | PermissionContraction
    | GovernanceMutation
    | MetaGovernanceMutation

  datatype GovernanceRule = GovernanceRule(
    domain: string, controller: string, admins: set<string>, subordinates: set<string>)

  type Governance = map<string, GovernanceRule>

  datatype SystemState = SystemState(
    epoch: int, permissions: map<string, map<string, set<string>>>, governance: Governance)
  {
    function Perms(p: string, d: string): set<string> {
      if p in permissions && d in permissions[p] then permissions[p][d] else {}
    }

    /** The JSON document of `canonical()`: every set becomes its sorted list. */
    function Canonical(): StateDoc {
      StateDoc(epoch, Each(permissions, SortGrants), Each(governance, DocumentOf))
    }
  }

  /** `{k: f(v) for k, v in sorted(m.items())}` for the listed keys. */
  function Over<V, W>(m: map<string, V>, f: V -> W, keys: seq<string>): map<string, W>
    requires forall k | k in keys :: k in m
  {
    if keys == [] then map[]
    else
      var k := keys[|keys| - 1];
      Over(m, f, keys[..|keys| - 1])[k := f(m[k])]
  }

  lemma {:induction false} OverIsPointwise<V, W>(m: map<string, V>, f: V -> W, keys: seq<string>)
    requires forall k | k in keys :: k in m
    ensures forall k :: k in Over(m, f, keys) <==> k in keys
    ensures forall k | k in keys :: Over(m, f, keys)[k] == f(m[k])
  {
    if keys != [] {
      var front := keys[..|keys| - 1];
      assert keys == front + [keys[|keys| - 1]];
      OverIsPointwise(m, f, front);
    }
  }

  function Each<V, W>(m: map<string, V>, f: V -> W): (r: map<string, W>)
    ensures r.Keys == m.Keys && forall k | k in m :: r[k] == f(m[k])
  {
    SortedHasElements(m.Keys);
    OverIsPointwise(m, f, Sorted(m.Keys));
    Over(m, f, Sorted(m.Keys))
  }

  function SortGrants(grants: map<string, set<string>>): map<string, seq<string>> {
    Each(grants, Sorted)
  }

  function ReadGrants(grants: map<string, seq<string>>): map<string, set<string>> {
    Each(grants, (v: seq<string>) => Elements(v))
  }

  function DocumentOf(r: GovernanceRule): RuleDoc {
    RuleDoc(r.domain, r.controller, Sorted(r.admins), Sorted(r.subordinates))
  }

  function RuleOf(r: RuleDoc): GovernanceRule {
    GovernanceRule(r.domain, r.controller, Elements(r.admins), Elements(r.subordinates))
  }

  datatype RuleDoc = RuleDoc(
    domain: string, controller: string, admins: seq<string>, subordinates: seq<string>)

  datatype StateDoc = StateDoc(
    epoch: int, permissions: map<string, map<string, seq<string>>>, governance: map<string, RuleDoc>)
  {
    /** `Kernel._state`: read a stored document back. */
    function Revive(): SystemState {
      SystemState(epoch, Each(permissions, ReadGrants), Each(governance, RuleOf))
    }
  }

  lemma ElementsOfSorted(s: set<string>)
    ensures Elements(Sorted(s)) == s
  {
    SortedHasElements(s);
  }

  lemma ReadSorted(grants: map<string, set<string>>)
    ensures ReadGrants(SortGrants(grants)) == grants
  {
    hide Sorted, Elements, Over;
    var back := ReadGrants(SortGrants(grants));
    forall d | d in grants ensures d in back && back[d] == grants[d] {
      ElementsOfSorted(grants[d]);
    }
  }

  lemma RuleOfDocument(r: GovernanceRule)
    ensures RuleOf(DocumentOf(r)) == r
  {
    ElementsOfSorted(r.admins);
    ElementsOfSorted(r.subordinates);
  }

  /** Storing a state and reading it back loses nothing, so two states share a digest only if equal. */
  lemma ReviveCanonical(st: SystemState)
    ensures st.Canonical().Revive() == st
  {
    hide Sorted, Elements, Over, SortGrants, ReadGrants, DocumentOf, RuleOf;
    var back := st.Canonical().Revive();
    forall p | p in st.permissions ensures p in back.permissions && back.permissions[p] == st.permissions[p] {
      ReadSorted(st.permissions[p]);
    }
    forall d | d in st.governance ensures d in back.governance && back.governance[d] == st.governance[d] {
      RuleOfDocument(st.governance[d]);
    }
    assert back.permissions == st.permissions;
    assert back.governance == st.governance;
  }

  datatype AuthorityDelta = AuthorityDelta(
    changedPairs: set<(string, string)>, changedDomains: set<string>, mutation: MutationClass)

  function PairsOf(permissions: map<string, map<string, set<string>>>): set<(string, string)> {
    set p, d | p in permissions && d in permissions[p] :: (p, d)
  }

  function ChangedDomains(a: SystemState, b: SystemState): set<string> {
    set d | d in a.governance.Keys + b.governance.Keys && Get(a.governance, d) != Get(b.governance, d)
  }

  predicate IsMeta(a: SystemState, b: SystemState) {
    exists d | d in a.governance.Keys * b.governance.Keys ::
      || a.governance[d].admins != b.governance[d].admins
      || a.governance[d].subordinates != b.governance[d].subordinates
  }

  predicate Expands(a: SystemState, b: SystemState, pairs: set<(string, string)>) {
    exists pd | pd in pairs :: !(b.Perms(pd.0, pd.1) <= a.Perms(pd.0, pd.1))
  }

  function Classify(a: SystemState, b: SystemState, pairs: set<(string, string)>, domains: set<string>): MutationClass {
    if IsMeta(a, b) then MetaGovernanceMutation
    else if domains != {} then GovernanceMutation
    else if Expands(a, b, pairs) then PermissionExpansion
    else if pairs != {} then PermissionContraction
    else NoMutation
  }

  function DeltaOf(a: SystemState, b: SystemState): AuthorityDelta {
    var cp := set pd | pd in PairsOf(a.permissions) + PairsOf(b.permissions)
                       && a.Perms(pd.0, pd.1) != b.Perms(pd.0, pd.1);
    var cg := ChangedDomains(a, b);
    AuthorityDelta(cp, cg, Classify(a, b, cp, cg))
  }

  /** The pair-collecting loop of `derive`, for one of the two states. */
  method CollectPairs(permissions: map<string, map<string, set<string>>>, start: set<(string, string)>)
    returns (pairs: set<(string, string)>)
    ensures pairs == start + PairsOf(permissions)
  {
    pairs := start;
    var todo := permissions.Keys;
    while todo != {}
      invariant todo <= permissions.Keys
      invariant forall pd :: pd in pairs <==>
        pd in start || (pd.0 in permissions.Keys - todo && pd.1 in permissions[pd.0])
      decreases todo
    {
      var p :| p in todo;
      pairs := pairs + set d | d in permissions[p] :: (p, d);
      todo := todo - {p};
    }
  }

  method Derive(a: SystemState, b: SystemState) returns (delta: AuthorityDelta)
    ensures delta == DeltaOf(a, b)
  {
    var pairs := CollectPairs(a.permissions, {});
    pairs := CollectPairs(b.permissions, pairs);
    assert pairs == PairsOf(a.permissions) + PairsOf(b.permissions);
    var cp := set pd | pd in pairs && a.Perms(pd.0, pd.1) != b.Perms(pd.0, pd.1);
    var cg := ChangedDomains(a, b);
    delta := AuthorityDelta(cp, cg, Classify(a, b, cp, cg));
  }

  /** A permission is held exactly when it is listed for the principal and the domain. */
  lemma PermsExactly(st: SystemState, p: string, d: string, x: string)
    ensures x in st.Perms(p, d) <==> p in st.permissions && d in st.permissions[p] && x in st.permissions[p][d]
  {}

  /** The stored document lists every set in ascending order. */
  lemma CanonicalIsSorted(st: SystemState)
    ensures forall p, d | p in st.permissions && d in st.permissions[p] ::
      Ascending(st.Canonical().permissions[p][d])
    ensures forall d | d in st.governance ::
      Ascending(st.Canonical().governance[d].admins) && Ascending(st.Canonical().governance[d].subordinates)
  {
    hide Ascending, Sorted;
    forall p, d | p in st.permissions && d in st.permissions[p] ensures Ascending(st.Canonical().permissions[p][d]) {
      SortedAscends(st.permissions[p][d]);
    }
    forall d | d in st.governance
      ensures Ascending(st.Canonical().governance[d].admins) && Ascending(st.Canonical().governance[d].subordinates)
    {
      SortedAscends(st.governance[d].admins);
      SortedAscends(st.governance[d].subordinates);
    }
  }

  /** The changed pairs are exactly the pairs whose permissions differ, listed or not; likewise the domains. */
  lemma DeltaIsComplete(a: SystemState, b: SystemState)
    ensures forall p, d :: (p, d) in DeltaOf(a, b).changedPairs <==> a.Perms(p, d) != b.Perms(p, d)
    ensures forall d :: d in DeltaOf(a, b).changedDomains <==> Get(a.governance, d) != Get(b.governance, d)
    ensures DeltaOf(a, b).changedDomains == {} <==> a.governance == b.governance
    ensures DeltaOf(a, b).mutation == NoMutation <==>
      a.governance == b.governance && forall p, d :: a.Perms(p, d) == b.Perms(p, d)
  {
    forall p, d ensures (p, d) in DeltaOf(a, b).changedPairs <==> a.Perms(p, d) != b.Perms(p, d) {
      if a.Perms(p, d) != b.Perms(p, d) {
        assert (p, d) in PairsOf(a.permissions) + PairsOf(b.permissions);
      }
    }
    if ChangedDomains(a, b) == {} {
      forall d | d in a.governance.Keys + b.governance.Keys
        ensures Get(a.governance, d) == Get(b.governance, d)
      {
        assert d !in ChangedDomains(a, b);
      }
      assert forall d | d in a.governance :: d in a.governance.Keys + b.governance.Keys;
      assert forall d | d in b.governance :: d in a.governance.Keys + b.governance.Keys;
      assert a.governance == b.governance;
    }
    if forall p, d :: a.Perms(p, d) == b.Perms(p, d) {
      assert DeltaOf(a, b).changedPairs == {};
    } else {
      var p, d :| a.Perms(p, d) != b.Perms(p, d);
      assert (p, d) in DeltaOf(a, b).changedPairs;
    }
  }

  lemma MetaExactly(a: SystemState, b: SystemState)
    ensures IsMeta(a, b) <==> exists d :: d in a.governance && d in b.governance
                                          && (|| a.governance[d].admins != b.governance[d].admins
                                              || a.governance[d].subordinates != b.governance[d].subordinates)
    ensures IsMeta(a, b) ==> a.governance != b.governance
  {
    if d :| d in a.governance && d in b.governance
            && (|| a.governance[d].admins != b.governance[d].admins
                || a.governance[d].subordinates != b.governance[d].subordinates)
    {
      assert d in a.governance.Keys * b.governance.Keys;
    }
  }

  /** What each classification means, whichever pairs and domains happen to be listed. */
  lemma ClassifiesExactly(a: SystemState, b: SystemState)
    ensures var same := a.governance == b.governance;
            var gains := exists p, d :: !(b.Perms(p, d) <= a.Perms(p, d));
            var meta := exists d :: d in a.governance && d in b.governance
                                    && (|| a.governance[d].admins != b.governance[d].admins
                                        || a.governance[d].subordinates != b.governance[d].subordinates);
            match DeltaOf(a, b).mutation
            case MetaGovernanceMutation => !same && meta
            case GovernanceMutation => !same && !meta
            case PermissionExpansion => same && gains
            case PermissionContraction => same && !gains && exists p, d :: b.Perms(p, d) < a.Perms(p, d)
            case NoMutation => same && forall p, d :: b.Perms(p, d) == a.Perms(p, d)
  {
    DeltaIsComplete(a, b);
    MetaExactly(a, b);
    var delta := DeltaOf(a, b);
    if a.governance == b.governance {
      assert !IsMeta(a, b);
      if delta.mutation == PermissionExpansion {
        var pd :| pd in delta.changedPairs && !(b.Perms(pd.0, pd.1) <= a.Perms(pd.0, pd.1));
        assert !(b.Perms(pd.0, pd.1) <= a.Perms(pd.0, pd.1));
      } else {
        forall p, d ensures b.Perms(p, d) <= a.Perms(p, d) {
          assert (p, d) in delta.changedPairs <==> a.Perms(p, d) != b.Perms(p, d);
        }
        if delta.mutation == PermissionContraction {
          var pd :| pd in delta.changedPairs;
          assert b.Perms(pd.0, pd.1) < a.Perms(pd.0, pd.1);
        }
      }
    }
  }
}
