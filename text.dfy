/** The string operations the core relies on: str.endswith, str.isalnum
    (ASCII only) and "\n".join; the first- and last-occurrence searches that
    the email check is built from; and SplitLines, the reference inverse of
    the join used to state its round trip. */
module Text {

  /** Position of the first `c` in `s`, or |s| when `s` has none. */
  function IndexOf(s: string, c: char): (k: nat)
    ensures k <= |s|
    ensures k < |s| ==> s[k] == c
    ensures forall j :: 0 <= j < k ==> s[j] != c
  {
    if s == [] then 0
    else if s[0] == c then 0
    else 1 + IndexOf(s[1..], c)
  }

  /** Position of the last `c` in `s`, or -1 when `s` has none. */
  function LastIndexOf(s: string, c: char): (k: int)
    ensures -1 <= k < |s|
    ensures 0 <= k ==> s[k] == c
    ensures forall j :: k < j < |s| ==> s[j] != c
  {
    if s == [] then -1
    else if s[|s| - 1] == c then |s| - 1
    else LastIndexOf(s[..|s| - 1], c)
  }

  /** str.endswith */
  predicate EndsWith(s: string, suffix: string): (r: bool)
    ensures r <==> |suffix| <= |s| &&
                   forall i :: 0 <= i < |suffix| ==> s[|s| - |suffix| + i] == suffix[i]
  {
    |suffix| <= |s| && s[|s| - |suffix|..] == suffix
  }

  predicate IsAsciiLetter(c: char) {
    'A' <= c <= 'Z' || 'a' <= c <= 'z'
  }

  predicate IsAsciiDigit(c: char) {
    '0' <= c <= '9'
  }

  /** Every character of `s` satisfies `p`. */
  predicate AllChars(s: string, p: char -> bool) {
    forall i :: 0 <= i < |s| ==> p(s[i])
  }

  /** str.isalnum, restricted to ASCII letters and digits: false on "". */
  predicate IsAlnum(s: string): (r: bool)
    ensures r <==> |s| > 0 && forall i :: 0 <= i < |s| ==> IsAsciiLetter(s[i]) || IsAsciiDigit(s[i])
  {
    |s| > 0 && AllChars(s, c => IsAsciiLetter(c) || IsAsciiDigit(c))
  }

  /** "\n".join(lines) */
  function JoinLines(lines: seq<string>): (r: string)
    ensures lines == [] ==> r == ""
    ensures |lines| == 1 ==> r == lines[0]
  {
    if lines == [] then ""
    else if |lines| == 1 then lines[0]
    else lines[0] + "\n" + JoinLines(lines[1..])
  }

  /** s.split("\n"): always at least one piece, "" gives [""]. */
  function SplitLines(s: string): (r: seq<string>)
    ensures |r| >= 1
    decreases |s|
  {
    var k := IndexOf(s, '\n');
    if k == |s| then [s] else [s[..k]] + SplitLines(s[k + 1..])
  }

  predicate NoNewline(s: string) {
    forall i :: 0 <= i < |s| ==> s[i] != '\n'
  }

  /** Joining a non-empty list of newline-free lines and splitting the text
      again gives back the same lines in the same order. */
  lemma {:induction false} SplitJoinLines(lines: seq<string>)
    requires lines != []
    requires forall i :: 0 <= i < |lines| ==> NoNewline(lines[i])
    ensures SplitLines(JoinLines(lines)) == lines
  {
    var head := lines[0];
    assert NoNewline(head);
    if |lines| == 1 {
      assert IndexOf(head, '\n') == |head|;
    } else {
      var rest := JoinLines(lines[1..]);
      var s := head + "\n" + rest;
      assert s[|head|] == '\n';
      assert forall j :: 0 <= j < |head| ==> s[j] == head[j];
      assert IndexOf(s, '\n') == |head|;
      assert s[..|head|] == head;
      assert s[|head| + 1..] == rest;
      SplitJoinLines(lines[1..]);
      assert [head] + lines[1..] == lines;
    }
  }

  /** Total length of the lines. */
  function TotalLength(lines: seq<string>): nat {
    if lines == [] then 0 else |lines[0]| + TotalLength(lines[1..])
  }

  /** The joined text holds every character of the lines plus one separator
      between each two consecutive lines. */
  lemma {:induction false} JoinLinesLength(lines: seq<string>)
    requires lines != []
    ensures |JoinLines(lines)| == TotalLength(lines) + |lines| - 1
  {
    if |lines| > 1 {
      JoinLinesLength(lines[1..]);
    }
  }
}
