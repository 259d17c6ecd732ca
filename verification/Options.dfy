/** The value-or-absent type shared by the models. */
module Options {
  datatype Option<+T> = None | Some(value: T)

  lemma SomeMember(s: set<int>)
    ensures s != {} ==> exists x :: x in s
  {
    if forall x :: x !in s {}
  }

  lemma OneFewerLeft(all: set<int>, todo: set<int>, x: int)
    requires x in todo
    ensures all - (todo - {x}) == (all - todo) + if x in all then {x} else {}
  {
  }
}
