/** NUL-terminated strings in character buffers. */
module CStrings {

  /** strlen: the index of the first NUL. */
  function Length(s: seq<char>): (n: nat)
    requires '\0' in s
    ensures n < |s| && s[n] == '\0'
    ensures forall i | 0 <= i < n :: s[i] != '\0'
  {
    if s[0] == '\0' then 0 else 1 + Length(s[1..])
  }

  function Text(s: seq<char>): string
    requires '\0' in s
  {
    s[..Length(s)]
  }

  lemma LengthUnique(s: seq<char>, n: nat)
    requires n < |s| && s[n] == '\0' && forall i | 0 <= i < n :: s[i] != '\0'
    ensures '\0' in s && Length(s) == n
  {}

  method StrLen(a: array<char>) returns (n: nat)
    requires '\0' in a[..]
    ensures n == Length(a[..])
  {
    n := 0;
    while a[n] != '\0'
      invariant n <= Length(a[..])
      decreases Length(a[..]) - n
    {
      n := n + 1;
    }
  }
}
