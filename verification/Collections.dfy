/** Facts about sequences, texts and finite sets that several modules need. */
module Collections {

  /** The text `t` stands in `s` at index `i`. */
  predicate OccursAt(s: string, t: string, i: nat) {
    i + |t| <= |s| && s[i..i + |t|] == t
  }

  lemma Assoc<T>(a: seq<T>, b: seq<T>, c: seq<T>)
    ensures a + b + c == a + (b + c)
  {
  }

  /** Some number is beyond all numbers of a finite set. */
  lemma {:induction false} BeyondAll(ids: set<nat>) returns (bound: nat)
    ensures forall i :: i in ids ==> i < bound
  {
    if ids == {} {
      bound := 0;
    } else {
      var i :| i in ids;
      var beyond := BeyondAll(ids - {i});
      bound := if beyond <= i then i + 1 else beyond;
      assert forall j :: j in ids ==> j == i || j in ids - {i};
    }
  }
}
