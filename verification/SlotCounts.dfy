/**
  Counting held slots: which owner (a key scope or an account pool) each request occupies, and
  a counter per owner that has to agree.
 */
module SlotCounts {

  function Get(m: map<string, int>, owner: string): int {
    if owner in m then m[owner] else 0
  }

  ghost function Holders(requests: map<string, string>, owner: string): set<string> {
    set id | id in requests && requests[id] == owner
  }

  ghost function Serving(requests: map<string, string>, owner: string): nat {
    |Holders(requests, owner)|
  }

  /** Each owner's counter is the number of requests holding one of its slots. */
  ghost predicate Counted(active: map<string, int>, requests: map<string, string>) {
    forall owner :: Get(active, owner) == Serving(requests, owner)
  }

  lemma ServingMoreAt(requests: map<string, string>, id: string, taken: string, owner: string)
    requires id !in requests
    ensures Serving(requests[id := taken], owner) == Serving(requests, owner) + if owner == taken then 1 else 0
  {
    if owner == taken {
      assert Holders(requests[id := taken], owner) == Holders(requests, owner) + {id};
    } else {
      assert Holders(requests[id := taken], owner) == Holders(requests, owner);
    }
  }

  lemma ServingMore(requests: map<string, string>, id: string, taken: string)
    requires id !in requests
    ensures forall owner :: Serving(requests[id := taken], owner) == Serving(requests, owner) + if owner == taken then 1 else 0
  {
    hide Serving;
    forall owner
      ensures Serving(requests[id := taken], owner) == Serving(requests, owner) + if owner == taken then 1 else 0
    {
      ServingMoreAt(requests, id, taken, owner);
    }
  }

  lemma ServingFewer(requests: map<string, string>, id: string)
    requires id in requests
    ensures forall owner :: Serving(requests, owner) == Serving(requests - {id}, owner) + if owner == requests[id] then 1 else 0
  {
    ServingMore(requests - {id}, id, requests[id]);
    assert (requests - {id})[id := requests[id]] == requests;
  }

  lemma CountedMore(active: map<string, int>, requests: map<string, string>, id: string, taken: string)
    requires Counted(active, requests) && id !in requests
    ensures Counted(active[taken := Get(active, taken) + 1], requests[id := taken])
  {
    hide Serving;
    ServingMore(requests, id, taken);
    var more := active[taken := Get(active, taken) + 1];
    forall owner
      ensures Get(more, owner) == Serving(requests[id := taken], owner)
    {
      assert Get(active, owner) == Serving(requests, owner);
    }
  }

  lemma CountedFewer(active: map<string, int>, requests: map<string, string>, id: string)
    requires Counted(active, requests) && id in requests
    ensures Counted(active[requests[id] := Get(active, requests[id]) - 1], requests - {id})
  {
    hide Serving;
    ServingFewer(requests, id);
  }

  lemma NobodyServed()
    ensures Counted(map[], map[])
  {
    assert forall owner :: Holders(map[], owner) == {};
  }
}
