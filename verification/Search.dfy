/**
 * Searching a sequence from a place on.
 */
module Search {

  /** std::find: the first place from begin on that holds x, or the end. */
  method Find<T(==)>(s: seq<T>, begin: nat, x: T) returns (it: nat)
    requires begin <= |s|
    ensures begin <= it <= |s| && x !in s[begin..it] && (it < |s| ==> s[it] == x)
  {
    it := begin;
    while it < |s| && s[it] != x
      invariant begin <= it <= |s| && x !in s[begin..it]
    {
      it := it + 1;
    }
  }
}
