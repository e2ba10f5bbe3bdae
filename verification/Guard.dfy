/**
 A marker for facts that are costly to unfold. Such a fact is stated as
 `forall n | Unfolded(n) :: Fact`, and a proof that needs it says `assert Unfolded(0)`.
 */
module Guard {
  predicate Unfolded(n: nat) { n >= 0 }
}
