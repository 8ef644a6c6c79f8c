/** Searches over strings that the address reader and the message reader share. */
module Text {
  import opened Wrappers

  /** Position of the first occurrence of `c` in `s`. */
  function IndexOf(s: string, c: char): (r: Option<nat>)
    ensures r.Some? ==> r.value < |s| && s[r.value] == c && c !in s[..r.value]
    ensures r.None? ==> c !in s
    decreases |s|
  {
    if |s| == 0 then None
    else if s[0] == c then Some(0)
    else match IndexOf(s[1..], c)
      case None => None
      case Some(i) =>
        assert s[..i + 1] == [s[0]] + s[1..][..i];
        Some(i + 1)
  }

  /** Position of the last occurrence of `c` in `s`. */
  function LastIndexOf(s: string, c: char): (r: Option<nat>)
    ensures r.Some? ==> r.value < |s| && s[r.value] == c && c !in s[r.value + 1..]
    ensures r.None? ==> c !in s
    decreases |s|
  {
    if |s| == 0 then None
    else if s[|s| - 1] == c then Some(|s| - 1)
    else
      var r := LastIndexOf(s[..|s| - 1], c);
      assert s == s[..|s| - 1] + [s[|s| - 1]];
      assert r.Some? ==> s[r.value + 1..] == s[..|s| - 1][r.value + 1..] + [s[|s| - 1]];
      r
  }

  /** A carriage return followed by a line feed starts at position `k` of `s`. */
  predicate CrlfAt(s: string, k: int)
  {
    0 <= k && k + 1 < |s| && s[k] == '\r' && s[k + 1] == '\n'
  }

  /** Position of the first CRLF in `s`: the end of its first line. */
  function FindCrlf(s: string): (r: Option<nat>)
    ensures r.Some? ==> CrlfAt(s, r.value) && forall k :: 0 <= k < r.value ==> !CrlfAt(s, k)
    ensures r.None? ==> forall k :: 0 <= k < |s| ==> !CrlfAt(s, k)
    decreases |s|
  {
    if |s| < 2 then None
    else if s[0] == '\r' && s[1] == '\n' then Some(0)
    else match FindCrlf(s[1..])
      case None =>
        assert forall k :: 1 <= k < |s| ==> (CrlfAt(s, k) <==> CrlfAt(s[1..], k - 1));
        None
      case Some(i) =>
        assert forall k :: 1 <= k < |s| ==> (CrlfAt(s, k) <==> CrlfAt(s[1..], k - 1));
        Some(i + 1)
  }

  /** A line free of carriage returns ends exactly where the CRLF after it begins. */
  lemma FirstLineEnds(line: string, rest: string)
    requires '\r' !in line
    ensures FindCrlf(line + "\r\n" + rest) == Some(|line|)
  {
    var s := line + "\r\n" + rest;
    assert CrlfAt(s, |line|);
    forall k | 0 <= k < |line| ensures !CrlfAt(s, k) {
      assert s[k] == line[k];
    }
  }

  /** The first `c` after a prefix free of `c` is the one right behind that prefix. */
  lemma FirstAfterPrefix(prefix: string, c: char, rest: string)
    requires c !in prefix
    ensures IndexOf(prefix + [c] + rest, c) == Some(|prefix|)
  {
    var s := prefix + [c] + rest;
    assert s[|prefix|] == c;
    assert s[..|prefix|] == prefix;
  }

  /** The last `c` before a suffix free of `c` is the one right in front of that suffix. */
  lemma LastBeforeSuffix(prefix: string, c: char, suffix: string)
    requires c !in suffix
    ensures LastIndexOf(prefix + [c] + suffix, c) == Some(|prefix|)
  {
    var s := prefix + [c] + suffix;
    assert s[|prefix|] == c;
    assert s[|prefix| + 1..] == suffix;
  }
}
