/** What several modules share. */
module Wrappers {

  datatype Option<+T> = None | Some(value: T)

  datatype Result<+T> = Ok(value: T) | Err

  /** Python's `max(1, i)`. */
  function AtLeastOne(i: int): int { if i < 1 then 1 else i }

  /** Above any finite set of ids there is a fresh one. */
  lemma {:induction false} FreshId(ids: set<nat>) returns (n: nat)
    ensures forall id :: id in ids ==> id < n
  {
    if ids == {} {
      n := 0;
    } else {
      var id :| id in ids;
      var m := FreshId(ids - {id});
      n := if id < m then m else id + 1;
      assert forall c :: c in ids ==> c == id || c in ids - {id};
    }
  }
}
