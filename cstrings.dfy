/** Character buffers that hold NUL-terminated strings, as the shell's
    fixed-size line buffer does, and the one library scan main applies
    to it (strcspn). */
module CStrings {

  /** The terminator of a C string. */
  const NUL: char := '\0'

  /** The longest prefix of s that holds none of the characters in stops:
      s itself when none occurs, otherwise everything before the first one. */
  function PrefixBefore(s: seq<char>, stops: set<char>): (r: seq<char>)
    ensures |r| <= |s| && r == s[..|r|]
    ensures forall k :: 0 <= k < |r| ==> r[k] !in stops
    ensures |r| < |s| ==> s[|r|] in stops
  {
    if s == [] || s[0] in stops then [] else [s[0]] + PrefixBefore(s[1..], stops)
  }

  /** The string a C function sees in buffer s: everything before the first NUL. */
  function CStr(s: seq<char>): seq<char>
  {
    PrefixBefore(s, {NUL})
  }

  /** A prefix free of stops that ends at a stop (or at the end of s) is the one PrefixBefore finds. */
  lemma PrefixBeforeAt(s: seq<char>, stops: set<char>, n: nat)
    requires n <= |s|
    requires forall k :: 0 <= k < n ==> s[k] !in stops
    requires n == |s| || s[n] in stops
    ensures PrefixBefore(s, stops) == s[..n]
  {
  }

  /** strcspn(buf, reject): the length of the initial part of the C string
      held in buf that contains no character of reject. The scan stops at a
      rejected character or at the terminator, whichever comes first. */
  method Strcspn(buf: array<char>, reject: set<char>) returns (n: nat)
    requires NUL in buf[..]
    ensures n < buf.Length && (buf[n] == NUL || buf[n] in reject)
    ensures buf[..n] == PrefixBefore(buf[..], reject + {NUL})
  {
    ghost var z :| 0 <= z < buf.Length && buf[z] == NUL;
    n := 0;
    while buf[n] != NUL && buf[n] !in reject
      invariant n <= z
      invariant forall k :: 0 <= k < n ==> buf[k] != NUL && buf[k] !in reject
      decreases z - n
    {
      n := n + 1;
    }
    PrefixBeforeAt(buf[..], reject + {NUL}, n);
  }
}
