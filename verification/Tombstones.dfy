/** The bounded store of closed session ids. */
module Tombstones {
  import opened Sequences

  const CLOSED_SESSION_TOMBSTONE_CAPACITY: nat := 65_536

  /** The ring after one more id: an id it holds changes nothing, the oldest makes room for a new one. */
  function Entomb(ring: seq<string>, id: string): seq<string> {
    if id in ring then ring else Last(ring + [id], 65_536)
  }

  /** The insertions that found their id absent, oldest first. */
  ghost function Accepted(ids: seq<string>): seq<string> {
    if ids == [] then []
    else
      var before, id := Accepted(ids[..|ids| - 1]), ids[|ids| - 1];
      if id in Last(before, 65_536) then before else before + [id]
  }

  class ClosedSessionTombstones {
    var ring: seq<string>
    var members: set<string>
    // Every id `Insert` was given.
    ghost var history: seq<string>

    ghost predicate Valid()
      reads this
    {
      && members == Elements(ring) && Distinct(ring)
      && ring == Last(Accepted(history), 65_536)
    }

    constructor ()
      ensures Valid() && history == [] && ring == []
    {
      ring, members, history := [], {}, [];
    }

    method Insert(id: string)
      requires Valid()
      modifies this
      ensures Valid() && history == old(history) + [id]
      ensures ring == Entomb(old(ring), id)
    {
      AcceptedSnoc(history, id);
      history := history + [id];
      if id !in members {
        AddLast(ring, id);
        members := members + {id};
        ring := ring + [id];
        if |ring| > CLOSED_SESSION_TOMBSTONE_CAPACITY {
          var oldest := ring[0];
          DropFirst(ring);
          ring := ring[1..];
          members := members - {oldest};
        }
      }
    }

    method Contains(id: string) returns (r: bool)
      requires Valid()
      ensures r == (id in Last(Accepted(history), 65_536))
    {
      r := id in members;
    }
  }

  /** Entombing is keeping the last accepted insertions. */
  lemma AcceptedSnoc(ids: seq<string>, id: string)
    ensures Last(Accepted(ids + [id]), CLOSED_SESSION_TOMBSTONE_CAPACITY)
         == Entomb(Last(Accepted(ids), CLOSED_SESSION_TOMBSTONE_CAPACITY), id)
  {
    assert (ids + [id])[..|ids|] == ids;
    LastAppend(Accepted(ids), id, CLOSED_SESSION_TOMBSTONE_CAPACITY);
  }

  lemma EntombKeeps(ring: seq<string>, id: string)
    requires Distinct(ring) && |ring| <= CLOSED_SESSION_TOMBSTONE_CAPACITY
    ensures Distinct(Entomb(ring, id)) && |Entomb(ring, id)| <= CLOSED_SESSION_TOMBSTONE_CAPACITY
    ensures id in Entomb(ring, id)
  {
    if id !in ring {
      assert (ring + [id])[|ring|] == id;
      assert Entomb(ring, id)[|Entomb(ring, id)| - 1] == id;
    }
  }
}
