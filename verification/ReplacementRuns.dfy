/**
  Completing a credential replacement after anything else has happened: whatever operators and
  clients did to plans, keys, groups, routes and rules since it was prepared, completion moves
  every reference there is by then.
 */
module ReplacementRuns {
  import opened Text
  import opened Model
  import opened CredentialMigration
  import opened ReachableStates
  import opened ReplacementMeaning
  import G = Routing
  import Q = QuotaState

  /** The replacement's own step at the end of a run. */
  lemma RunThenReplace(s: Snapshot, edits: seq<Edit>, mapping: Mapping, complete: bool, order: seq<string>)
    requires Good(s) && AllPossible(edits) && Acceptable(mapping) && Enumerates(order, mapping)
    ensures AllPossible(edits + [ReplaceCredentials(mapping, complete, order)])
    ensures Run(s, edits + [ReplaceCredentials(mapping, complete, order)]) == Replaced(mapping, complete, order, Run(s, edits))
    decreases |edits|
  {
    hide Good, Acceptable, Enumerates, Replaced, AfterPlanEdit, AfterUse, AfterKeyEdit, AfterGroupEdit;
    var e := ReplaceCredentials(mapping, complete, order);
    var all := edits + [e];
    if edits == [] {
      assert all[1..] == [];
      GoodIsSound(s);
      StepKeepsGood(s, e);
      assert Run(After(s, e), []) == After(s, e);
    } else {
      assert all[0] == edits[0] && all[1..] == edits[1..] + [e];
      StepKeepsGood(s, edits[0]);
      hide After, Edit.Possible;
      RunThenReplace(After(s, edits[0]), edits[1..], mapping, complete, order);
    }
  }

  /** A rule mentions after completion exactly the references of before, the retired ones replaced. */
  ghost predicate MovedRule(mapping: Mapping, before: RouteRule, after: RouteRule) {
    && after == before.(ids := after.ids, deniedIds := after.deniedIds)
    && SetOf(after.ids) == Moved(mapping, true, SetOf(before.ids)) && SetOf(after.deniedIds) == Moved(mapping, true, SetOf(before.deniedIds))
  }

  lemma RuleMoves(mapping: Mapping, rule: RouteRule)
    ensures MovedRule(mapping, rule, MigratedRule(mapping, true, rule))
  {
    hide Migrated, Moved;
    ListMoves(mapping, true, rule.ids);
    ListMoves(mapping, true, rule.deniedIds);
  }

  /** Every rule of every route, group and key is moved. */
  ghost predicate AllMoved(mapping: Mapping, u: Snapshot, t: Snapshot) {
    && |t.routes| == |u.routes| && (forall i :: 0 <= i < |u.routes| ==> MovedRule(mapping, u.routes[i].rule, t.routes[i].rule))
    && |t.groups| == |u.groups| && (forall i :: 0 <= i < |u.groups| ==> MovedRule(mapping, u.groups[i].rule, t.groups[i].rule))
    && t.keys.Keys == u.keys.Keys && forall k :: k in u.keys ==> MovedRule(mapping, u.keys[k].bindings.rule, t.keys[k].bindings.rule)
  }

  lemma ReplacedMoves(mapping: Mapping, order: seq<string>, u: Snapshot)
    requires Enumerates(order, mapping)
    ensures AllMoved(mapping, u, Replaced(mapping, true, order, u))
  {
    hide MovedRule, MigratedRule, MoveAll, Enumerates;
    forall rule: RouteRule
      ensures MovedRule(mapping, rule, MigratedRule(mapping, true, rule))
    {
      RuleMoves(mapping, rule);
    }
  }

  /**
    Completing after any run: in the rules there are by then every reference has moved, none
    mentions a retired one, and each key stands as it did with the references replaced.
   */
  lemma CompletionAfterAnyRun(s: Snapshot, edits: seq<Edit>, mapping: Mapping, order: seq<string>, scope: string)
    requires Good(s) && AllPossible(edits) && Acceptable(mapping) && Enumerates(order, mapping)
    ensures AllPossible(edits + [ReplaceCredentials(mapping, true, order)])
    ensures var u, t := Run(s, edits), Run(s, edits + [ReplaceCredentials(mapping, true, order)]);
            && AllMoved(mapping, u, t) && (forall o :: o in mapping ==> !Uses(t, o))
            && (scope in u.keys ==>
                  && scope in t.keys
                  && G.StandingOf(t, Some(t.keys[scope])) == MovedStanding(mapping, true, G.StandingOf(u, Some(u.keys[scope]))))
  {
    hide Good, Run, Acceptable, Enumerates, Replaced, AllMoved, Uses, G.StandingOf, MovedStanding, Edit.Possible;
    var u := Run(s, edits);
    RunThenReplace(s, edits, mapping, true, order);
    AcceptableHasNoChains(mapping);
    ReplacedMoves(mapping, order, u);
    forall o | o in mapping
      ensures !Uses(Replaced(mapping, true, order, u), o)
    {
      CompletionRetires(mapping, order, u, o);
    }
    if scope in u.keys { StandingMoves(mapping, true, order, u, scope); }
  }
}
