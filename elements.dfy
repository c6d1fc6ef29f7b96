/**
 * `GameElement`, declared identically in model.py and controller.py: an
 * element with a logical owner, a network owner that alone may change it,
 * and a dictionary of state.
 */
module Elements {
  /** A value stored in an element's state dictionary. */
  datatype Value = IntV(i: int) | StrV(s: string)

  /**
   * `dict.update`: every key of `changes` takes its new value, every other
   * key keeps its old one, and no key is lost.
   */
  function Updated(state: map<string, Value>, changes: map<string, Value>): (after: map<string, Value>)
    ensures after.Keys == state.Keys + changes.Keys
    ensures forall k :: k in changes ==> after[k] == changes[k]
    ensures forall k :: k in state && k !in changes ==> after[k] == state[k]
  {
    state + changes
  }

  /** Applying the same changes twice is the same as applying them once. */
  lemma UpdateIdempotent(state: map<string, Value>, changes: map<string, Value>)
    ensures Updated(Updated(state, changes), changes) == Updated(state, changes)
  {
    var once := Updated(state, changes);
    var twice := Updated(once, changes);
    assert twice.Keys == once.Keys;
    forall k | k in once
      ensures twice[k] == once[k]
    {
    }
  }

  /**
   * A game element owned by a player of type `P`.  Only the network owner
   * may modify it.
   */
  class GameElement<P(==)> {
    const id: string
    const owner: P
    var networkOwner: P
    var state: map<string, Value>

    /** `GameElement(id, owner)`: the owner also controls it on the network; its state is empty. */
    constructor (id: string, owner: P)
      ensures this.id == id && this.owner == owner && networkOwner == owner
      ensures state == map[]
    {
      this.id := id;
      this.owner := owner;
      networkOwner := owner;
      state := map[];
    }

    /** `can_modify`: `player` holds network control. */
    predicate CanModify(player: P)
      reads this
    {
      networkOwner == player
    }

    /**
     * `modify`: the changes are applied, and true returned, exactly when
     * `player` holds network control; otherwise the state is left alone.
     */
    method Modify(player: P, changes: map<string, Value>) returns (ok: bool)
      modifies this`state
      ensures ok <==> networkOwner == player
      ensures state == if ok then Updated(old(state), changes) else old(state)
    {
      if CanModify(player) {
        state := Updated(state, changes);
        return true;
      }
      return false;
    }
  }
}
