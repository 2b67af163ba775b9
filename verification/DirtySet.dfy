/**
 The conversations whose events were dropped: a set with a first-in first-out eviction
 order, which must stay one and the same bounded queue.
 */
module DirtySet {
  import opened Recent

  const MAX_DIRTY: nat := 64

  predicate NoDuplicates(order: seq<string>) {
    forall i, j :: 0 <= i < j < |order| ==> order[i] != order[j]
  }

  /** The order after a mark: a known id changes nothing; a new one goes last, and the oldest goes when 64 are there. */
  function Marked(order: seq<string>, id: string): seq<string> {
    if id in order then order else Last(order + [id], MAX_DIRTY)
  }

  class Dirty {
    var marked: set<string>
    var order: seq<string>

    /** The ids that were actually inserted since the last take. */
    ghost var inserted: seq<string>

    ghost predicate Valid()
      reads this
    {
      && NoDuplicates(order)
      && (forall id :: id in marked <==> id in order)
      && order == Last(inserted, MAX_DIRTY)
    }

    constructor ()
      ensures Valid() && order == [] && inserted == []
    {
      marked, order, inserted := {}, [], [];
    }

    /** markDirty. */
    method Mark(id: string)
      requires Valid()
      modifies this
      ensures Valid()
      ensures order == Marked(old(order), id)
      ensures inserted == if id in old(order) then old(inserted) else old(inserted) + [id]
    {
      if id in marked {
        return;
      }
      LastAppend(inserted, MAX_DIRTY, id);
      if |order| >= MAX_DIRTY {
        marked := marked - {order[0]};
        order := order[1..];
      }
      marked := marked + {id};
      order := order + [id];
      inserted := inserted + [id];
    }

    /** takeDirty: the marks in some order, and nothing left. */
    method Take() returns (out: seq<string>)
      requires Valid()
      modifies this
      ensures Valid() && order == [] && marked == {} && inserted == []
      ensures NoDuplicates(out) && |out| == |old(order)|
      ensures forall id :: id in out <==> id in old(order)
    {
      out := [];
      var rest := marked;
      SetOfOrder(order, marked);
      while rest != {}
        invariant rest <= marked && |out| + |rest| == |marked|
        invariant forall id :: id in out <==> id in marked && id !in rest
        invariant NoDuplicates(out)
        decreases |rest|
      {
        var id :| id in rest;
        rest := rest - {id};
        out := out + [id];
      }
      marked, order, inserted := {}, [], [];
    }
  }

  lemma {:induction false} SetOfOrder(order: seq<string>, marked: set<string>)
    requires NoDuplicates(order) && forall id :: id in marked <==> id in order
    ensures |marked| == |order|
  {
    if order == [] {
      assert marked == {};
    } else {
      var n := |order| - 1;
      SetOfOrder(order[..n], marked - {order[n]});
    }
  }

  /** An id that was not inserted again is among those a take returns until 64 others came, and no longer. */
  lemma MarkSurvivesExactly(inserted: seq<string>, i: nat)
    requires i < |inserted| && forall j :: 0 <= j < |inserted| && j != i ==> inserted[j] != inserted[i]
    ensures inserted[i] in Last(inserted, MAX_DIRTY) <==> |inserted| - i <= 64
  {
    StaysUntilPushedOut(inserted, MAX_DIRTY, i);
  }
}
