/** The string helpers of Go's strings package that the models need. Case folding covers the
    ASCII letters only; white space is the full set of unicode.IsSpace. */
module Text {

  predicate IsSpace(c: char) {
    var n := c as int;
    9 <= n <= 13 || n == 0x20 || n == 0x85 || n == 0xA0 || n == 0x1680 || 0x2000 <= n <= 0x200A
    || n == 0x2028 || n == 0x2029 || n == 0x202F || n == 0x205F || n == 0x3000
  }

  function TrimLeft(s: string): (t: string)
    ensures t == [] || !IsSpace(t[0])
    ensures |t| <= |s| && t == s[|s| - |t|..]
  {
    if s != [] && IsSpace(s[0]) then TrimLeft(s[1..]) else s
  }

  function TrimRight(s: string): (t: string)
    ensures t == [] || !IsSpace(t[|t| - 1])
    ensures t <= s
  {
    if s != [] && IsSpace(s[|s| - 1]) then TrimRight(s[..|s| - 1]) else s
  }

  function Trim(s: string): string {
    TrimRight(TrimLeft(s))
  }

  ghost predicate Trimmed(s: string) {
    s == [] || (!IsSpace(s[0]) && !IsSpace(s[|s| - 1]))
  }

  lemma TrimIsTrimmed(s: string)
    ensures Trimmed(Trim(s))
  {
    var u := TrimLeft(s);
    var t := TrimRight(u);
    if t != [] {
      assert t[0] == u[0];
    }
  }

  /** Trimming takes white space off both ends and nothing else. */
  lemma {:induction false} TrimIs(s: string) returns (left: nat, right: nat)
    ensures left + |Trim(s)| + right == |s| && Trim(s) == s[left..left + |Trim(s)|]
    ensures forall i :: 0 <= i < left || |s| - right <= i < |s| ==> IsSpace(s[i])
  {
    hide IsSpace;
    left := LeftSpaces(s);
    right := RightSpaces(TrimLeft(s));
    assert TrimLeft(s) == s[left..];
  }

  lemma {:induction false} LeftSpaces(s: string) returns (left: nat)
    ensures left + |TrimLeft(s)| == |s| && TrimLeft(s) == s[left..] && forall i :: 0 <= i < left ==> IsSpace(s[i])
  {
    hide IsSpace;
    left := 0;
    if s != [] && IsSpace(s[0]) {
      left := LeftSpaces(s[1..]);
      left := left + 1;
    }
  }

  lemma {:induction false} RightSpaces(s: string) returns (right: nat)
    ensures |TrimRight(s)| + right == |s| && TrimRight(s) == s[..|s| - right]
    ensures forall i :: |s| - right <= i < |s| ==> IsSpace(s[i])
  {
    hide IsSpace;
    right := 0;
    if s != [] && IsSpace(s[|s| - 1]) {
      right := RightSpaces(s[..|s| - 1]);
      right := right + 1;
    }
  }

  lemma TrimKeepsTrimmed(s: string)
    requires Trimmed(s)
    ensures Trim(s) == s
  {
    assert TrimLeft(s) == s;
  }

  function LowerChar(c: char): char {
    if 'A' <= c <= 'Z' then (c as int + 32) as char else c
  }

  function Lower(s: string): (t: string)
    ensures |t| == |s|
    ensures forall i :: 0 <= i < |s| ==> t[i] == if 'A' <= s[i] <= 'Z' then (s[i] as int + 32) as char else s[i]
  {
    seq(|s|, i requires 0 <= i < |s| => LowerChar(s[i]))
  }

  lemma LowerIdempotent(s: string)
    ensures Lower(Lower(s)) == Lower(s)
  {
  }

  lemma LowerKeepsTrimmed(s: string)
    requires Trimmed(s)
    ensures Trimmed(Lower(s))
  {
  }
}
