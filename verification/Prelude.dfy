/** Failure-carrying results shared by every module of the model. */
module Prelude {
  datatype Option<+T> = None | Some(value: T)

  datatype Result<+T> = Ok(value: T) | Err(error: string)

  /** One entry of a table may have changed or been added. */
  predicate OnlyChanged<T(==)>(before: map<nat, T>, after: map<nat, T>, id: nat) {
    after.Keys == before.Keys + {id} && forall i :: i in before && i != id ==> after[i] == before[i]
  }

  lemma ConcatAssociates<T>(a: seq<T>, b: seq<T>, c: seq<T>)
    ensures (a + b) + c == a + (b + c)
  {
  }

  /** A sequence around one element comes apart there. */
  lemma BothSides<T>(a: seq<T>, c: T, b: seq<T>)
    ensures var s := a + [c] + b; |s| == |a| + 1 + |b| && s[|a|] == c && s[|a| + 1..] == b && s[..|a|] == a
  {
  }
}
