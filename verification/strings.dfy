/** The two functions of Go's `strings` package the bearer check uses.
    Go strings are byte strings; the model uses `seq<char>`, which agrees
    on the ASCII prefix involved. */
module Strings {

  /** `strings.HasPrefix(s, prefix)` */
  predicate HasPrefix(s: string, prefix: string) {
    |prefix| <= |s| && s[..|prefix|] == prefix
  }

  /** `strings.TrimPrefix(s, prefix)`: removes one leading `prefix`, if any. */
  function TrimPrefix(s: string, prefix: string): (r: string)
    ensures HasPrefix(s, prefix) ==> prefix + r == s
    ensures !HasPrefix(s, prefix) ==> r == s
  {
    if HasPrefix(s, prefix) then s[|prefix|..] else s
  }
}
