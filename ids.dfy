/**
  Identifier generation. The repository's getId helper is not part of this
  model; all that carts and items rely on is that every call hands out an
  identifier never handed out before. IdSource realises that with a counter,
  and its contract speaks only of the set of identifiers issued so far.
 */
module Ids {

  class IdSource {
    var next: nat
    /** Every identifier handed out so far. */
    ghost var issued: set<nat>

    ghost predicate Valid()
      reads this
    {
      forall x <- issued :: x < next
    }

    constructor ()
      ensures Valid() && issued == {}
    {
      next := 0;
      issued := {};
    }

    /** Hands out an identifier that differs from every one issued before. */
    method Next() returns (id: nat)
      requires Valid()
      modifies this
      ensures Valid()
      ensures id !in old(issued)
      ensures issued == old(issued) + {id}
    {
      id := next;
      next := next + 1;
      issued := issued + {id};
    }
  }
}
