/**
 * Go's `strings.Index`, `strings.Split` and `strings.Join` for a non-empty
 * separator, on `seq<char>`.
 */
module Text {

  /** `sep` occurs in `s` starting at index `i`. */
  predicate OccursAt(s: string, sep: string, i: int)
  {
    0 <= i && i + |sep| <= |s| && s[i..i + |sep|] == sep
  }

  /** `sep` occurs somewhere in `s`. */
  predicate Contains(s: string, sep: string)
  {
    exists i | 0 <= i <= |s| :: OccursAt(s, sep, i)
  }

  /** An occurrence in `u` is an occurrence in any extension `u + t`, and back. */
  lemma OccursInExtension(u: string, t: string, sep: string, i: int)
    requires 0 <= i && i + |sep| <= |u|
    ensures OccursAt(u, sep, i) <==> OccursAt(u + t, sep, i)
  {
    assert (u + t)[i..i + |sep|] == u[i..i + |sep|];
  }

  /** `strings.Index`: the first position of `sep` in `s`, or -1. */
  function Index(s: string, sep: string): (r: int)
    requires |sep| > 0
    ensures r == -1 || OccursAt(s, sep, r)
    ensures forall i | 0 <= i && (r == -1 || i < r) :: !OccursAt(s, sep, i)
    decreases |s|
  {
    if |s| < |sep| then -1
    else if s[..|sep|] == sep then 0
    else
      var j := Index(s[1..], sep);
      forall i | 1 <= i
        ensures OccursAt(s, sep, i) <==> OccursAt(s[1..], sep, i - 1)
      {
        OccursShifted(s, sep, i);
      }
      if j == -1 then -1 else j + 1
  }

  /** Past the first character, occurrences in `s` are occurrences in `s[1..]`, one place earlier. */
  lemma OccursShifted(s: string, sep: string, i: int)
    requires 1 <= i && |s| >= 1
    ensures OccursAt(s, sep, i) <==> OccursAt(s[1..], sep, i - 1)
  {
    if i + |sep| <= |s| {
      assert s[1..][i - 1..i - 1 + |sep|] == s[i..i + |sep|];
    }
  }

  /** `s` ends with `suffix`. */
  predicate EndsWith(s: string, suffix: string)
  {
    |suffix| <= |s| && s[|s| - |suffix|..] == suffix
  }

  /** A concatenation ends with its second part. */
  lemma EndsWithAppend(s: string, suffix: string)
    ensures EndsWith(s + suffix, suffix)
  {
    assert (s + suffix)[|s|..] == suffix;
  }

  /** `strings.Join`: the parts with `sep` between neighbours. */
  function Join(parts: seq<string>, sep: string): string
  {
    if |parts| == 0 then ""
    else if |parts| == 1 then parts[0]
    else parts[0] + sep + Join(parts[1..], sep)
  }

  /** Every part followed by `sep`: what a loop of `acc += part + sep` accumulates. */
  function Terminated(parts: seq<string>, sep: string): string
  {
    if |parts| == 0 then "" else parts[0] + sep + Terminated(parts[1..], sep)
  }

  /**
   * `strings.Split` with a non-empty separator: cut at every leftmost
   * non-overlapping occurrence of `sep`. There is always at least one part,
   * joining the parts gives `s` back, no part contains `sep`, and every
   * part but the last ends cleanly, so each cut is at the first occurrence
   * of `sep` in what remains (with `SplitOfJoin` this fixes the parts).
   */
  function Split(s: string, sep: string): (parts: seq<string>)
    requires |sep| > 0
    ensures |parts| >= 1
    ensures Join(parts, sep) == s
    ensures forall k | 0 <= k < |parts| :: !Contains(parts[k], sep)
    ensures forall k | 0 <= k < |parts| - 1 :: EndsCleanly(parts[k], sep)
    decreases |s|
  {
    var i := Index(s, sep);
    if i == -1 then [s]
    else
      var rest := Split(s[i + |sep|..], sep);
      FirstCut(s, sep, i);
      var parts := [s[..i]] + rest;
      assert parts[1..] == rest;
      assert Join(parts, sep) == s[..i] + sep + Join(rest, sep);
      assert forall k | 1 <= k < |parts| :: parts[k] == rest[k - 1];
      parts
  }

  /** What comes before the first occurrence of `sep` has none and ends cleanly before it. */
  lemma FirstCut(s: string, sep: string, i: int)
    requires |sep| > 0 && i == Index(s, sep) && i != -1
    ensures s == s[..i] + sep + s[i + |sep|..]
    ensures !Contains(s[..i], sep) && EndsCleanly(s[..i], sep)
  {
    assert s[i..i + |sep|] == sep;
    assert s == s[..i] + s[i..i + |sep|] + s[i + |sep|..];
    CutHasNone(s, sep, i);
    CutEndsCleanly(s, sep, i);
  }

  /** No occurrence of `sep` lies wholly before its first occurrence. */
  lemma CutHasNone(s: string, sep: string, i: int)
    requires |sep| > 0 && i == Index(s, sep) && i != -1
    ensures !Contains(s[..i], sep)
  {
    forall j | OccursAt(s[..i], sep, j)
      ensures false
    {
      assert s[..i] + s[i..] == s;
      OccursInExtension(s[..i], s[i..], sep, j);
    }
  }

  /** The text before the first occurrence of `sep` ends cleanly before it. */
  lemma CutEndsCleanly(s: string, sep: string, i: int)
    requires |sep| > 0 && i == Index(s, sep) && i != -1
    ensures EndsCleanly(s[..i], sep)
  {
    var u := s[..i + |sep|];
    assert s[..i] + sep == u;
    assert u + s[i + |sep|..] == s;
    assert OccursAt(u, sep, i);
    IndexOfExtension(u, s[i + |sep|..], sep);
  }

  /** A single-character separator occurs exactly when the character does. */
  lemma ContainsChar(s: string, c: char)
    ensures Contains(s, [c]) <==> c in s
  {
    if c in s {
      var i :| 0 <= i < |s| && s[i] == c;
      assert OccursAt(s, [c], i);
    }
    if Contains(s, [c]) {
      var i :| 0 <= i <= |s| && OccursAt(s, [c], i);
      assert s[i] == s[i..i + 1][0];
    }
  }

  /** The first occurrence in `u` stays the first occurrence once `u` is extended. */
  lemma IndexOfExtension(u: string, t: string, sep: string)
    requires |sep| > 0 && Index(u, sep) != -1
    ensures Index(u + t, sep) == Index(u, sep)
  {
    var r := Index(u, sep);
    var r' := Index(u + t, sep);
    OccursInExtension(u, t, sep, r);
    if r' != r {
      assert r' < r;
      OccursInExtension(u, t, sep, r');
    }
  }

  /** Splitting leaves a single part exactly when the separator does not occur. */
  lemma {:induction false} SplitSingle(s: string, sep: string)
    requires |sep| > 0
    ensures |Split(s, sep)| == 1 <==> !Contains(s, sep)
  {
    if Index(s, sep) == -1 {
      assert !Contains(s, sep);
    } else {
      assert OccursAt(s, sep, Index(s, sep));
    }
  }

  /**
   * `part` ends cleanly before `sep` when the first occurrence of `sep` in
   * `part + sep` is the appended one (for ",": `part` has no comma; for
   * "\n\n": `part` has no blank line and does not end in a newline).
   */
  predicate EndsCleanly(part: string, sep: string)
    requires |sep| > 0
  {
    Index(part + sep, sep) == |part|
  }

  /** Split undoes Join when every part but the last ends cleanly and the last has no separator. */
  lemma {:induction false} SplitOfJoin(parts: seq<string>, sep: string)
    requires |sep| > 0 && |parts| >= 1
    requires forall k | 0 <= k < |parts| - 1 :: EndsCleanly(parts[k], sep)
    requires !Contains(parts[|parts| - 1], sep)
    ensures Split(Join(parts, sep), sep) == parts
    decreases |parts|
  {
    if |parts| > 1 {
      var p := parts[0];
      var tail := Join(parts[1..], sep);
      assert Join(parts, sep) == (p + sep) + tail;
      SplitAtFirst(p, tail, sep);
      assert forall k | 0 <= k < |parts| - 2 :: parts[1..][k] == parts[k + 1];
      SplitOfJoin(parts[1..], sep);
      assert [p] + parts[1..] == parts;
    }
  }

  /** When `p` ends cleanly, splitting `p + sep + tail` cuts off `p` and splits `tail`. */
  lemma SplitAtFirst(p: string, tail: string, sep: string)
    requires |sep| > 0 && EndsCleanly(p, sep)
    ensures Split((p + sep) + tail, sep) == [p] + Split(tail, sep)
  {
    var s := (p + sep) + tail;
    IndexOfExtension(p + sep, tail, sep);
    assert s[..|p|] == p;
    assert s[|p| + |sep|..] == tail;
  }

  /** With a one-character separator, Split undoes Join whenever no part contains the character. */
  lemma SplitOfJoinChar(parts: seq<string>, c: char)
    requires |parts| >= 1
    requires forall k | 0 <= k < |parts| :: c !in parts[k]
    ensures Split(Join(parts, [c]), [c]) == parts
  {
    forall k | 0 <= k < |parts| - 1
      ensures EndsCleanly(parts[k], [c])
    {
      var p := parts[k];
      assert OccursAt(p + [c], [c], |p|);
      forall i | 0 <= i < |p|
        ensures !OccursAt(p + [c], [c], i)
      {
        assert (p + [c])[i] == p[i];
        assert (p + [c])[i..i + 1] == [p[i]];
      }
    }
    ContainsChar(parts[|parts| - 1], c);
    SplitOfJoin(parts, [c]);
  }

  /** Terminating every part is joining them and terminating the whole. */
  lemma {:induction false} TerminatedIsJoined(parts: seq<string>, sep: string)
    requires |parts| >= 1
    ensures Terminated(parts, sep) == Join(parts, sep) + sep
    decreases |parts|
  {
    if |parts| > 1 {
      TerminatedIsJoined(parts[1..], sep);
    }
  }

  /** Appending a part to the list appends it, terminated, to the accumulation. */
  lemma {:induction false} TerminatedSnoc(parts: seq<string>, p: string, sep: string)
    ensures Terminated(parts + [p], sep) == Terminated(parts, sep) + p + sep
    decreases |parts|
  {
    if |parts| == 0 {
      assert parts + [p] == [p];
    } else {
      assert (parts + [p])[1..] == parts[1..] + [p];
      TerminatedSnoc(parts[1..], p, sep);
    }
  }

  /** The accumulation over two lists of parts is the two accumulations in turn. */
  lemma {:induction false} TerminatedAppend(parts: seq<string>, more: seq<string>, sep: string)
    ensures Terminated(parts + more, sep) == Terminated(parts, sep) + Terminated(more, sep)
    decreases |parts|
  {
    if |parts| == 0 {
      assert parts + more == more;
    } else {
      assert (parts + more)[1..] == parts[1..] + more;
      TerminatedAppend(parts[1..], more, sep);
    }
  }

  /** Accumulating more parts onto an accumulation is accumulating the longer list. */
  lemma AccumulateMore(head: string, parts: seq<string>, more: seq<string>, sep: string, before: string, after: string)
    requires before == head + Terminated(parts, sep)
    requires after == before + Terminated(more, sep)
    ensures after == head + Terminated(parts + more, sep)
  {
    TerminatedAppend(parts, more, sep);
  }

  /** Accumulating the next part of a list extends the accumulation of its prefix by one. */
  lemma AccumulateNext(head: string, parts: seq<string>, j: nat, acc: string, part: string, sep: string)
    requires j < |parts| && part == parts[j]
    requires acc == head + Terminated(parts[..j], sep)
    ensures acc + part + sep == head + Terminated(parts[..j + 1], sep)
  {
    assert parts[..j + 1] == parts[..j] + [part];
    TerminatedSnoc(parts[..j], part, sep);
  }
}
