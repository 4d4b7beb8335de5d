/**
 * Joining an array of strings with a separator (JavaScript's
 * `Array.prototype.join`), which the alert formatter relies on, and splitting a
 * string at every occurrence of one character (`String.prototype.split` with a
 * one-character separator). Splitting is defined only to state that a joined
 * text splits back into its lines; `SplitJoin` and `JoinSplit` prove that it
 * inverts joining.
 */
module Text {

  /** `lines.join(sep)`: the elements separated by `sep`; `[].join(sep)` is `""`. */
  function Join(lines: seq<string>, sep: string): (r: string)
    ensures |lines| == 0 ==> r == ""
    decreases |lines|
  {
    if |lines| == 0 then ""
    else if |lines| == 1 then lines[0]
    else lines[0] + sep + Join(lines[1..], sep)
  }

  /** Joining adds one separator before each element after the first. */
  lemma JoinCons(head: string, tail: seq<string>, sep: string)
    requires |tail| > 0
    ensures Join([head] + tail, sep) == head + sep + Join(tail, sep)
  {
  }

  /** Six elements joined: each separator sits between two neighbours, none at the ends. */
  lemma JoinSix(a: string, b: string, c: string, d: string, e: string, f: string, sep: string)
    ensures Join([a, b, c, d, e, f], sep) == a + sep + b + sep + c + sep + d + sep + e + sep + f
  {
    JoinCons(e, [f], sep);
    var j4 := Join([e, f], sep);
    assert j4 == e + sep + f by { assert [e] + [f] == [e, f]; }
    JoinCons(d, [e, f], sep);
    var j3 := Join([d, e, f], sep);
    assert j3 == d + sep + j4 by { assert [d] + [e, f] == [d, e, f]; }
    JoinCons(c, [d, e, f], sep);
    var j2 := Join([c, d, e, f], sep);
    assert j2 == c + sep + j3 by { assert [c] + [d, e, f] == [c, d, e, f]; }
    JoinCons(b, [c, d, e, f], sep);
    var j1 := Join([b, c, d, e, f], sep);
    assert j1 == b + sep + j2 by { assert [b] + [c, d, e, f] == [b, c, d, e, f]; }
    JoinCons(a, [b, c, d, e, f], sep);
    assert Join([a, b, c, d, e, f], sep) == a + sep + j1 by { assert [a] + [b, c, d, e, f] == [a, b, c, d, e, f]; }
  }

  predicate EndsWith(s: string, suffix: string) {
    |suffix| <= |s| && s[|s| - |suffix|..] == suffix
  }

  /** A non-empty join ends with its last element: nothing is appended after it. */
  lemma {:induction false} JoinEndsWithLast(lines: seq<string>, sep: string)
    requires |lines| > 0
    ensures EndsWith(Join(lines, sep), lines[|lines| - 1])
    decreases |lines|
  {
    if |lines| > 1 {
      JoinEndsWithLast(lines[1..], sep);
      var rest := Join(lines[1..], sep);
      var last := lines[|lines| - 1];
      assert lines[1..][|lines| - 2] == last;
      var r := lines[0] + sep + rest;
      assert r[|r| - |last|..] == rest[|rest| - |last|..];
    }
  }

  /**
   * `s.split(c)`: the maximal runs between occurrences of `c`, in order; there is
   * always at least one piece (`"".split(c)` is `[""]`) and no piece contains `c`.
   */
  function Split(s: string, c: char): (r: seq<string>)
    ensures |r| >= 1
    ensures forall i :: 0 <= i < |r| ==> c !in r[i]
    decreases |s|
  {
    if |s| == 0 then [""]
    else
      var rest := Split(s[1..], c);
      if s[0] == c then [""] + rest
      else [[s[0]] + rest[0]] + rest[1..]
  }

  /** A string without the separator splits into itself alone. */
  lemma {:induction false} SplitWithoutSeparator(s: string, c: char)
    requires c !in s
    ensures Split(s, c) == [s]
    decreases |s|
  {
    if |s| > 0 {
      assert c !in s[1..];
      SplitWithoutSeparator(s[1..], c);
      assert s[0] != c;
      assert [s[0]] + s[1..] == s;
    }
  }

  /** The first occurrence of the separator ends the first piece. */
  lemma {:induction false} SplitAtFirstSeparator(a: string, b: string, c: char)
    requires c !in a
    ensures Split(a + [c] + b, c) == [a] + Split(b, c)
    decreases |a|
  {
    var s := a + [c] + b;
    if |a| == 0 {
      assert s == [c] + b;
      assert s[1..] == b;
    } else {
      assert s[0] == a[0];
      assert s[1..] == a[1..] + [c] + b;
      assert c !in a[1..];
      SplitAtFirstSeparator(a[1..], b, c);
      assert [a[0]] + a[1..] == a;
    }
  }

  /**
   * Splitting undoes joining: when no element contains the one-character
   * separator, `lines.join(c).split(c)` gives back exactly `lines`.
   */
  lemma {:induction false} SplitJoin(lines: seq<string>, c: char)
    requires |lines| >= 1
    requires forall i :: 0 <= i < |lines| ==> c !in lines[i]
    ensures Split(Join(lines, [c]), c) == lines
    decreases |lines|
  {
    if |lines| == 1 {
      SplitWithoutSeparator(lines[0], c);
    } else {
      var tail := lines[1..];
      assert forall i :: 0 <= i < |tail| ==> c !in tail[i] by {
        forall i | 0 <= i < |tail| ensures c !in tail[i] {
          assert tail[i] == lines[i + 1];
        }
      }
      SplitJoin(tail, c);
      assert c !in lines[0];
      SplitAtFirstSeparator(lines[0], Join(tail, [c]), c);
      assert [lines[0]] + tail == lines;
    }
  }

  /**
   * Joining undoes splitting: for every string, `s.split(c).join(c)` is `s`
   * again; with `SplitJoin`, the two are inverses on separator-free lists.
   */
  lemma {:induction false} JoinSplit(s: string, c: char)
    ensures Join(Split(s, c), [c]) == s
    decreases |s|
  {
    if |s| > 0 {
      var rest := Split(s[1..], c);
      JoinSplit(s[1..], c);
      assert [s[0]] + s[1..] == s;
      if s[0] == c {
        JoinCons("", rest, [c]);
      } else if |rest| == 1 {
        assert Split(s, c) == [[s[0]] + rest[0]];
      } else {
        JoinCons(rest[0], rest[1..], [c]);
        assert [rest[0]] + rest[1..] == rest;
        JoinCons([s[0]] + rest[0], rest[1..], [c]);
      }
    }
  }
}
