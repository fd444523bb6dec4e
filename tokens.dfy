/** The source of fresh signing tokens (`uuidv4()` in the handlers).
    A random v4 uuid is treated as globally unique; the model makes that an
    explicit oracle: an injective generator `gen` that never yields the empty
    string, and a counter of how many tokens have been handed out. */
module Tokens {

  class TokenSource {
    const gen: nat -> string
    var next: nat

    ghost predicate Valid()
      reads this
    {
      && (forall i: nat, j: nat :: gen(i) == gen(j) ==> i == j)
      && (forall i: nat :: gen(i) != "")
    }

    /** Every token handed out so far. */
    ghost function Issued(): set<string>
      reads this
    {
      set i: nat | i < next :: gen(i)
    }

    constructor (gen: nat -> string)
      requires forall i: nat, j: nat :: gen(i) == gen(j) ==> i == j
      requires forall i: nat :: gen(i) != ""
      ensures Valid() && this.gen == gen && next == 0 && Issued() == {}
    {
      this.gen := gen;
      next := 0;
    }

    /** One `uuidv4()` call: a non-empty token never handed out before. */
    method Mint() returns (t: string)
      requires Valid()
      modifies this
      ensures Valid()
      ensures t == gen(old(next)) && next == old(next) + 1
      ensures t != "" && t !in old(Issued())
      ensures Issued() == old(Issued()) + {t}
    {
      t := gen(next);
      next := next + 1;
      assert forall i: nat :: i < old(next) ==> gen(i) != t;
      assert Issued() == old(Issued()) + {t} by {
        forall x | x in Issued() ensures x in old(Issued()) + {t} {
          var i: nat :| i < next && gen(i) == x;
          if i < old(next) { assert gen(i) in old(Issued()); }
        }
      }
    }
  }
}
