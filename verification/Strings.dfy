/** The '=' that separates a name from its value, in switches and in environment lines. */
module Strings {
  /** The index of the first '=', or the length. */
  function FindEquals(s: string): (n: nat)
    ensures n <= |s| && (n < |s| ==> s[n] == '=')
    ensures forall i :: 0 <= i < n ==> s[i] != '='
  {
    if s == "" || s[0] == '=' then 0 else 1 + FindEquals(s[1..])
  }

  lemma EqualsFound(s: string, n: nat)
    requires n <= |s| && (forall i :: 0 <= i < n ==> s[i] != '=') && (n < |s| ==> s[n] == '=')
    ensures FindEquals(s) == n
  {
  }
}
