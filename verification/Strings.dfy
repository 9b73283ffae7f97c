// The string clean-up the source does everywhere: trimming Unicode white space
// and lower-casing rune by rune.
module Strings {

  // What the runtime's Unicode tables map a rune's lower case to.
  type CaseMap = char -> char

  // The only fact about those tables the proofs use.
  ghost predicate Idempotent(lower: CaseMap) {
    forall c: char :: lower(lower(c)) == lower(c)
  }

  predicate IsSpace(c: char) {
    var n := c as int;
    || 0x09 <= n <= 0x0D || n == 0x20 || n == 0x85 || n == 0xA0
    || n == 0x1680 || 0x2000 <= n <= 0x200A || n == 0x2028 || n == 0x2029
    || n == 0x202F || n == 0x205F || n == 0x3000
  }

  function TrimLeft(s: string): string {
    if s != [] && IsSpace(s[0]) then TrimLeft(s[1..]) else s
  }

  function TrimRight(s: string): string {
    if s != [] && IsSpace(s[|s| - 1]) then TrimRight(s[..|s| - 1]) else s
  }

  function TrimSpace(s: string): string {
    TrimRight(TrimLeft(s))
  }

  function ToLower(lower: CaseMap, s: string): string {
    seq(|s|, i requires 0 <= i < |s| => lower(s[i]))
  }

  predicate Trimmed(s: string) {
    s != [] ==> !IsSpace(s[0]) && !IsSpace(s[|s| - 1])
  }

  lemma {:induction false} TrimLeftStarts(s: string)
    ensures var t := TrimLeft(s); t != [] ==> !IsSpace(t[0])
  {
    if s != [] && IsSpace(s[0]) {
      TrimLeftStarts(s[1..]);
    }
  }

  lemma {:induction false} TrimRightEnds(s: string)
    requires s != [] ==> !IsSpace(s[0])
    ensures Trimmed(TrimRight(s))
  {
    if s != [] && IsSpace(s[|s| - 1]) {
      TrimRightEnds(s[..|s| - 1]);
    }
  }

  // Trimming leaves no space at either end, so trimming again changes nothing.
  lemma TrimSpaceIsTrimmed(s: string)
    ensures Trimmed(TrimSpace(s))
    ensures TrimSpace(TrimSpace(s)) == TrimSpace(s)
  {
    TrimLeftStarts(s);
    TrimRightEnds(TrimLeft(s));
  }

  predicate Spaces(s: string) {
    forall i :: 0 <= i < |s| ==> IsSpace(s[i])
  }

  lemma {:induction false} TrimLeftCuts(s: string) returns (i: nat)
    ensures i <= |s| && TrimLeft(s) == s[i..] && Spaces(s[..i])
  {
    i := 0;
    if s != [] && IsSpace(s[0]) {
      var j := TrimLeftCuts(s[1..]);
      i := j + 1;
      assert s[1..][j..] == s[i..];
      forall k | 0 <= k < i
        ensures IsSpace(s[k])
      {
        assert k > 0 ==> s[1..][..j][k - 1] == s[k];
      }
    } else {
      assert s[0..] == s;
    }
  }

  lemma {:induction false} TrimRightCuts(s: string) returns (j: nat)
    ensures j <= |s| && TrimRight(s) == s[..j] && Spaces(s[j..])
  {
    j := |s|;
    if s != [] && IsSpace(s[|s| - 1]) {
      j := TrimRightCuts(s[..|s| - 1]);
      assert s[..|s| - 1][..j] == s[..j];
      forall k | 0 <= k < |s| - j
        ensures IsSpace(s[j..][k])
      {
        assert j + k < |s| - 1 ==> s[..|s| - 1][j..][k] == s[j..][k];
      }
    }
  }

  // Trimming cuts off white space at both ends and nothing else.
  lemma TrimSpaceCuts(s: string)
    ensures exists i, j :: 0 <= i <= j <= |s| && TrimSpace(s) == s[i..j] && Spaces(s[..i]) && Spaces(s[j..])
    ensures Trimmed(TrimSpace(s))
  {
    var i := TrimLeftCuts(s);
    var j := TrimRightCuts(TrimLeft(s));
    assert s[i..][..j] == s[i..i + j] && s[i..][j..] == s[i + j..];
    TrimSpaceIsTrimmed(s);
  }

  lemma ToLowerTwice(lower: CaseMap, s: string)
    requires Idempotent(lower)
    ensures ToLower(lower, ToLower(lower, s)) == ToLower(lower, s)
  {
  }
}
