/** Text helpers: literal substring search and newline-separated lines. */
module Text {

  /** `sub` occurs in `s` starting at position `i`. */
  ghost predicate OccursAt(s: string, sub: string, i: nat) {
    i + |sub| <= |s| && s[i..i + |sub|] == sub
  }

  /** Unanchored search for the literal `sub` in `s`, as a regular expression made of one literal matches. */
  predicate Contains(s: string, sub: string)
    decreases |s|
  {
    |sub| <= |s| && (s[..|sub|] == sub || (0 < |s| && Contains(s[1..], sub)))
  }

  /** The search finds `sub` exactly when `sub` occurs at some position of `s`. */
  lemma {:induction false} ContainsIff(s: string, sub: string)
    ensures Contains(s, sub) <==> exists i: nat :: OccursAt(s, sub, i)
    decreases |s|
  {
    if |s| < |sub| {
      assert forall i: nat :: !OccursAt(s, sub, i);
    } else if s[..|sub|] == sub {
      assert OccursAt(s, sub, 0);
    } else {
      assert 0 < |s|;
      var t := s[1..];
      ContainsIff(t, sub);
      forall i: nat | OccursAt(t, sub, i)
        ensures OccursAt(s, sub, i + 1)
      {
        assert s[i + 1..i + 1 + |sub|] == t[i..i + |sub|];
      }
      forall i: nat | OccursAt(s, sub, i)
        ensures i > 0 && OccursAt(t, sub, i - 1)
      {
        assert t[i - 1..i - 1 + |sub|] == s[i..i + |sub|];
      }
    }
  }

  /** `Array#join("\n")`. */
  function JoinLines(lines: seq<string>): string {
    if |lines| == 0 then ""
    else if |lines| == 1 then lines[0]
    else lines[0] + "\n" + JoinLines(lines[1..])
  }

  /** Cuts `s` at every newline; the pieces keep empty lines, so the result is never empty. */
  function SplitLines(s: string): (r: seq<string>)
    ensures |r| >= 1
    decreases |s|
  {
    if |s| == 0 then [""]
    else if s[0] == '\n' then [""] + SplitLines(s[1..])
    else
      var rest := SplitLines(s[1..]);
      [[s[0]] + rest[0]] + rest[1..]
  }

  /** A line without a newline glues onto the first piece of what follows it. */
  lemma {:induction false} SplitLinesPrefix(a: string, t: string)
    requires '\n' !in a
    ensures SplitLines(a + t) == [a + SplitLines(t)[0]] + SplitLines(t)[1..]
    decreases |a|
  {
    if |a| == 0 {
      var r := SplitLines(t);
      assert a + t == t && a + r[0] == r[0];
      assert r == [r[0]] + r[1..];
    } else {
      SplitLinesPrefix(a[1..], t);
      assert (a + t)[0] == a[0];
      assert (a + t)[1..] == a[1..] + t;
      assert [a[0]] + (a[1..] + SplitLines(t)[0]) == a + SplitLines(t)[0];
    }
  }

  /** Joining lines that hold no newline and splitting the text again gives back the lines. */
  lemma {:induction false} SplitJoin(lines: seq<string>)
    requires |lines| >= 1
    requires forall l :: l in lines ==> '\n' !in l
    ensures SplitLines(JoinLines(lines)) == lines
    decreases |lines|
  {
    if |lines| == 1 {
      SplitLinesPrefix(lines[0], "");
      assert lines[0] + "" == lines[0];
    } else {
      var rest := JoinLines(lines[1..]);
      SplitJoin(lines[1..]);
      assert ("\n" + rest)[0] == '\n' && ("\n" + rest)[1..] == rest;
      assert SplitLines("\n" + rest) == [""] + lines[1..];
      SplitLinesPrefix(lines[0], "\n" + rest);
      assert lines[0] + "\n" + rest == lines[0] + ("\n" + rest);
      assert lines[0] + "" == lines[0];
      assert lines == [lines[0]] + lines[1..];
    }
  }

  /** The joined text ends with the last line: `join` adds no trailing separator. */
  lemma {:induction false} JoinLinesEndsWithLast(lines: seq<string>)
    requires |lines| >= 1
    ensures |lines[|lines| - 1]| <= |JoinLines(lines)|
    ensures JoinLines(lines)[|JoinLines(lines)| - |lines[|lines| - 1]|..] == lines[|lines| - 1]
    decreases |lines|
  {
    if |lines| > 1 {
      var last := lines[|lines| - 1];
      var head := lines[0] + "\n";
      var tail := JoinLines(lines[1..]);
      JoinLinesEndsWithLast(lines[1..]);
      assert lines[1..][|lines[1..]| - 1] == last;
      assert JoinLines(lines) == head + tail;
      assert (head + tail)[|head + tail| - |last|..] == tail[|tail| - |last|..];
    }
  }
}
