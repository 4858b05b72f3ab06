// What several modules share: an optional value, and lists seen as sets.
module Common {

  datatype Option<T> = None | Some(value: T)

  ghost predicate NoRepeats<T>(xs: seq<T>) {
    forall i, j :: 0 <= i < j < |xs| ==> xs[i] != xs[j]
  }

  function SetOf<T(==)>(xs: seq<T>): set<T> {
    set x | x in xs
  }
}
