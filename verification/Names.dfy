/** Provider, model and capability names, as Python's `lower()` and `strip()` treat ASCII text. */
module Names {

  function LowerChar(c: char): char {
    if 'A' <= c <= 'Z' then c - 'A' + 'a' else c
  }

  function Lower(s: string): string {
    seq(|s|, i requires 0 <= i < |s| => LowerChar(s[i]))
  }

  predicate IsSpace(c: char) {
    c == ' ' || '\t' <= c <= '\r' || 0x1c as char <= c <= 0x1f as char
  }

  function Strip(s: string): string {
    if s == "" then ""
    else if IsSpace(s[0]) then Strip(s[1..])
    else if IsSpace(s[|s| - 1]) then Strip(s[..|s| - 1])
    else s
  }

  lemma LowerIsIdempotent(s: string)
    ensures Lower(Lower(s)) == Lower(s)
  {
  }

  /** Capital letters become the small letters of the same rank, and nothing else changes. */
  lemma LowerMeans(s: string, i: nat)
    requires i < |s|
    ensures |Lower(s)| == |s|
    ensures 'A' <= s[i] <= 'Z' ==>
              'a' <= Lower(s)[i] <= 'z' && Lower(s)[i] as int - 'a' as int == s[i] as int - 'A' as int
    ensures !('A' <= s[i] <= 'Z') ==> Lower(s)[i] == s[i]
  {
  }

  ghost predicate Blank(s: string) {
    forall c :: c in s ==> IsSpace(c)
  }

  predicate Trimmed(s: string) {
    s == "" || (!IsSpace(s[0]) && !IsSpace(s[|s| - 1]))
  }

  /** Stripping removes blanks from both ends, all of them, and nothing else. */
  lemma {:induction false} StripMeans(s: string)
    ensures Trimmed(Strip(s))
    ensures exists left: string, right: string :: Blank(left) && Blank(right) && s == left + Strip(s) + right
  {
    if s == "" {
      assert Blank("") && s == "" + Strip(s) + "";
    } else if IsSpace(s[0]) {
      StripMeans(s[1..]);
      var left: string, right: string :|
        Blank(left) && Blank(right) && s[1..] == left + Strip(s[1..]) + right;
      assert Blank([s[0]] + left) && s == [s[0]] + left + Strip(s) + right;
    } else if IsSpace(s[|s| - 1]) {
      var front, last := s[..|s| - 1], s[|s| - 1];
      StripMeans(front);
      var left: string, right: string :| Blank(left) && Blank(right) && front == left + Strip(front) + right;
      assert Blank(right + [last]) && s == left + Strip(s) + (right + [last]);
    } else {
      assert Blank("") && s == "" + Strip(s) + "";
    }
  }

  lemma {:induction false} StripOfTrimmed(s: string)
    requires Trimmed(s)
    ensures Strip(s) == s
  {
  }
}
