/**
  Generation slots per API key, internal/billing/concurrency.go: every running generation
  holds one slot of its key's scope, counted even while the key is unlimited.
 */
module KeySlots {
  import opened Text
  import opened SlotCounts

  datatype SlotDecision = SlotDecision(allowed: bool, acquired: bool, limit: int, active: int)

  class SlotTable {
    var activeRequests: map<string, string>
    var activeByScope: map<string, int>

    /** The counters agree with the reservations, and only occupied scopes are listed. */
    ghost predicate Valid()
      reads this
    {
      && Counted(activeByScope, activeRequests)
      && (forall scope :: scope in activeByScope ==> activeByScope[scope] > 0)
      && (forall id :: id in activeRequests ==> id != "" && Trim(id) == id && activeRequests[id] != "")
    }

    constructor ()
      ensures Valid() && activeRequests == map[]
    {
      activeRequests, activeByScope := map[], map[];
      new;
      NobodyServed();
    }

    /**
      One reservation per request. A repeated request keeps the one it has and never counts
      as newly acquired; a finite limit is never exceeded by an admission.
     */
    method AcquireSlot(scope: string, requestID: string, limit: int) returns (d: SlotDecision)
      requires Valid()
      modifies this
      ensures Valid()
      ensures var name, id, before := Trim(scope), Trim(requestID), old(activeRequests);
              && d.limit == (if name == "" then 0 else limit)
              && (d.allowed <==>
                    if name == "" then true
                    else if id == "" then limit <= 0
                    else if id in before then before[id] == name
                    else limit <= 0 || Serving(before, name) < limit)
              && (d.acquired <==> d.allowed && name != "" && id != "" && id !in before)
              && activeRequests == (if d.acquired then before[id := name] else before)
              && (name != "" ==> d.active == Serving(activeRequests, name))
              && (d.acquired && limit > 0 ==> Serving(activeRequests, name) <= limit)
    {
      hide Counted, Serving, Trim;
      d := SlotDecision(true, false, 0, 0);
      var name, id := Trim(scope), Trim(requestID);
      if name == "" { return; }
      CountIs(activeByScope, activeRequests, name);
      d := d.(limit := limit, active := Get(activeByScope, name));
      if id == "" {
        return d.(allowed := d.limit <= 0);
      }
      if id in activeRequests {
        return d.(allowed := activeRequests[id] == name, acquired := false);
      }
      if d.limit > 0 && d.active >= d.limit {
        return d.(allowed := false);
      }
      TrimIdempotent(requestID);
      CountedMore(activeByScope, activeRequests, id, name);
      activeRequests := activeRequests[id := name];
      activeByScope := activeByScope[name := d.active + 1];
      CountIs(activeByScope, activeRequests, name);
      return d.(active := d.active + 1, acquired := true);
    }

    /** Frees exactly the slot of that request; unknown and repeated completions are harmless. */
    method ReleaseSlot(requestID: string) returns (released: bool)
      requires Valid()
      modifies this
      ensures Valid()
      ensures released <==> Trim(requestID) in old(activeRequests)
      ensures activeRequests == old(activeRequests) - {Trim(requestID)}
    {
      hide Counted, Serving, Trim;
      var id := Trim(requestID);
      if id == "" { return false; }
      if id !in activeRequests { return false; }
      var scope := activeRequests[id];
      CountedFewer(activeByScope, activeRequests, id);
      DroppedAtZero(activeByScope, activeRequests - {id}, scope);
      activeRequests := activeRequests - {id};
      if Get(activeByScope, scope) > 1 {
        activeByScope := activeByScope[scope := Get(activeByScope, scope) - 1];
      } else {
        activeByScope := activeByScope - {scope};
      }
      return true;
    }
  }

  lemma CountIs(active: map<string, int>, requests: map<string, string>, owner: string)
    requires Counted(active, requests)
    ensures Get(active, owner) == Serving(requests, owner)
  {
  }

  /** A counter that reaches zero may as well be dropped. */
  lemma DroppedAtZero(active: map<string, int>, requests: map<string, string>, scope: string)
    requires Counted(active[scope := Get(active, scope) - 1], requests)
    ensures Get(active, scope) >= 1
    ensures Get(active, scope) == 1 ==> Counted(active - {scope}, requests)
  {
    hide Serving;
    var less := active[scope := Get(active, scope) - 1];
    assert Get(less, scope) == Serving(requests, scope);
    if Get(active, scope) == 1 {
      forall owner
        ensures Get(active - {scope}, owner) == Serving(requests, owner)
      {
        assert Get(less, owner) == Serving(requests, owner);
      }
    }
  }
}
