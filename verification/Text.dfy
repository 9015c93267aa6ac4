/** Searching and splitting text. */
module Text {
  /** The first occurrence of a character at or after `i`, or the end. */
  function IndexOf(s: string, c: char, i: nat): (k: nat)
    requires i <= |s|
    ensures i <= k <= |s|
    ensures k < |s| ==> s[k] == c
    ensures forall j :: i <= j < k ==> s[j] != c
    decreases |s| - i
  {
    if i == |s| || s[i] == c then i else IndexOf(s, c, i + 1)
  }

  /** The parts between separators; there is always at least one. */
  function Split(s: string, c: char): (parts: seq<string>)
    ensures parts != []
    decreases |s|
  {
    var k := IndexOf(s, c, 0);
    if k == |s| then [s] else [s[..k]] + Split(s[k + 1..], c)
  }

  function Join(parts: seq<string>, c: char): string
    requires parts != []
  {
    if |parts| == 1 then parts[0] else parts[0] + [c] + Join(parts[1..], c)
  }

  /** Splitting undoes joining, if no part holds the separator. */
  lemma {:induction false} SplitJoins(parts: seq<string>, c: char)
    requires parts != [] && forall i :: 0 <= i < |parts| ==> c !in parts[i]
    ensures Split(Join(parts, c), c) == parts
  {
    var s := Join(parts, c);
    var k := IndexOf(s, c, 0);
    if |parts| == 1 {
      assert forall j :: 0 <= j < |s| ==> s[j] in parts[0];
    } else {
      assert s[|parts[0]|] == c;
      assert forall j :: 0 <= j < |parts[0]| ==> s[j] == parts[0][j] && s[j] in parts[0];
      assert k == |parts[0]|;
      assert s[..k] == parts[0] && s[k + 1..] == Join(parts[1..], c);
      SplitJoins(parts[1..], c);
    }
  }
}
