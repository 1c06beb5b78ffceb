/** Joining sequences: what the proofs of several modules need. */
module Sequences {
  lemma Assoc<T>(a: seq<T>, b: seq<T>, c: seq<T>)
    ensures (a + b) + c == a + (b + c)
  {
  }

  /** The parts one after the other. */
  function Flatten<T>(parts: seq<seq<T>>): seq<T> {
    if parts == [] then [] else Flatten(parts[..|parts| - 1]) + parts[|parts| - 1]
  }

  lemma {:induction false} FlattenFront<T>(part: seq<T>, parts: seq<seq<T>>)
    ensures Flatten([part] + parts) == part + Flatten(parts)
  {
    if parts == [] {
      assert [part] + parts == [part];
      assert [part][..0] == [];
    } else {
      assert ([part] + parts)[..|parts|] == [part] + parts[..|parts| - 1];
      FlattenFront(part, parts[..|parts| - 1]);
    }
  }

  lemma {:induction false} FlattenMonotone<T>(parts: seq<seq<T>>, more: seq<seq<T>>)
    ensures Flatten(parts) <= Flatten(parts + more)
  {
    if more == [] {
      assert parts + more == parts;
    } else {
      assert (parts + more)[..|parts + more| - 1] == parts + more[..|more| - 1];
      FlattenMonotone(parts, more[..|more| - 1]);
    }
  }

  /** f applied to each element. */
  function Each<T, U>(f: T -> U, s: seq<T>): seq<U> {
    seq(|s|, i requires 0 <= i < |s| => f(s[i]))
  }

  lemma EachOfSum<T, U>(f: T -> U, a: seq<T>, b: seq<T>)
    ensures Each(f, a + b) == Each(f, a) + Each(f, b)
  {
  }
}
