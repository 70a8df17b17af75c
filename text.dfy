/**
 * The JavaScript string builtins the callback relies on, `Array.prototype.join`
 * and a global one-character `replace`, together with `split` on a
 * one-character separator. The callback never splits; `Split` is the reader
 * through which the lines and columns of the joined output are stated.
 */
module Text {

  /** `parts.join(sep)`: the parts with one separator between each two. */
  function Join(parts: seq<string>, sep: char): string
  {
    if |parts| == 0 then ""
    else if |parts| == 1 then parts[0]
    else parts[0] + [sep] + Join(parts[1..], sep)
  }

  /** The position of the first `c` in `s`. */
  function FirstIndex(s: string, c: char): (i: nat)
    requires c in s
    ensures i < |s| && s[i] == c && c !in s[..i]
  {
    if s[0] == c then 0
    else
      var i := 1 + FirstIndex(s[1..], c);
      assert s[..i] == [s[0]] + s[1..][..i - 1];
      i
  }

  /** `s.split(sep)`: the maximal separator-free pieces, in order; "" splits into [""]. */
  function Split(s: string, sep: char): (parts: seq<string>)
    ensures |parts| >= 1
    ensures forall k :: 0 <= k < |parts| ==> sep !in parts[k]
    decreases |s|
  {
    if sep !in s then [s]
    else
      var i := FirstIndex(s, sep);
      [s[..i]] + Split(s[i + 1..], sep)
  }

  /** `s.replace(/from/g, to)` for a single character `from`. */
  function ReplaceAll(s: string, from: char, to: char): (r: string)
    ensures |r| == |s|
    ensures forall i :: 0 <= i < |s| ==> r[i] == (if s[i] == from then to else s[i])
    ensures from != to ==> from !in r
  {
    if s == [] then []
    else [if s[0] == from then to else s[0]] + ReplaceAll(s[1..], from, to)
  }

  lemma ReplaceAllUntouched(s: string, from: char, to: char)
    requires from !in s
    ensures ReplaceAll(s, from, to) == s
  {
  }

  /** The global replace works character by character, so it distributes over concatenation. */
  lemma {:induction false} ReplaceAllAppend(x: string, y: string, from: char, to: char)
    ensures ReplaceAll(x + y, from, to) == ReplaceAll(x, from, to) + ReplaceAll(y, from, to)
  {
    if x == [] {
      assert x + y == y;
    } else {
      assert (x + y)[0] == x[0];
      assert (x + y)[1..] == x[1..] + y;
      ReplaceAllAppend(x[1..], y, from, to);
    }
  }

  lemma ReplaceAllAround(a: string, b: string, from: char, to: char)
    ensures ReplaceAll(a + [from] + b, from, to) == ReplaceAll(a, from, to) + [to] + ReplaceAll(b, from, to)
  {
    ReplaceAllAppend(a + [from], b, from, to);
    ReplaceAllAppend(a, [from], from, to);
    assert ReplaceAll([from], from, to) == [to];
  }

  /** How many times `c` occurs in `s`. */
  function Occurrences(s: string, c: char): nat
  {
    if s == [] then 0 else (if s[0] == c then 1 else 0) + Occurrences(s[1..], c)
  }

  /** The occurrences of `c` across all parts. */
  function OccurrencesIn(parts: seq<string>, c: char): nat
  {
    if parts == [] then 0 else Occurrences(parts[0], c) + OccurrencesIn(parts[1..], c)
  }

  lemma OccurrencesInCons(head: string, rest: seq<string>, c: char)
    ensures OccurrencesIn([head] + rest, c) == Occurrences(head, c) + OccurrencesIn(rest, c)
  {
    assert ([head] + rest)[1..] == rest;
  }

  lemma {:induction false} OccurrencesInSnoc(parts: seq<string>, last: string, c: char)
    ensures OccurrencesIn(parts + [last], c) == OccurrencesIn(parts, c) + Occurrences(last, c)
  {
    if parts == [] {
      assert [] + [last] == [last];
      assert [last][1..] == [];
    } else {
      assert (parts + [last])[1..] == parts[1..] + [last];
      OccurrencesInSnoc(parts[1..], last, c);
    }
  }

  lemma {:induction false} OccurrencesAppend(a: string, b: string, c: char)
    ensures Occurrences(a + b, c) == Occurrences(a, c) + Occurrences(b, c)
  {
    if a != [] {
      assert (a + b)[1..] == a[1..] + b;
      OccurrencesAppend(a[1..], b, c);
    } else {
      assert a + b == b;
    }
  }

  lemma {:induction false} OccurrencesNone(s: string, c: char)
    ensures Occurrences(s, c) == 0 <==> c !in s
  {
    if s != [] {
      OccurrencesNone(s[1..], c);
      assert s == [s[0]] + s[1..];
    }
  }

  /** Replacing one character by another leaves the count of any third character unchanged. */
  lemma {:induction false} OccurrencesReplaceAll(s: string, from: char, to: char, c: char)
    requires c != from && c != to
    ensures Occurrences(ReplaceAll(s, from, to), c) == Occurrences(s, c)
  {
    if s != [] {
      var r := ReplaceAll(s, from, to);
      assert r[1..] == ReplaceAll(s[1..], from, to);
      OccurrencesReplaceAll(s[1..], from, to, c);
    }
  }

  /** Splitting yields one piece more than there are separators. */
  lemma {:induction false} SplitCount(s: string, sep: char)
    ensures |Split(s, sep)| == 1 + Occurrences(s, sep)
    decreases |s|
  {
    if sep in s {
      var i := FirstIndex(s, sep);
      assert s == s[..i] + ([sep] + s[i + 1..]);
      OccurrencesAppend(s[..i], [sep] + s[i + 1..], sep);
      OccurrencesNone(s[..i], sep);
      assert ([sep] + s[i + 1..])[1..] == s[i + 1..];
      SplitCount(s[i + 1..], sep);
    } else {
      OccurrencesNone(s, sep);
    }
  }

  /** A joined list holds one separator between each two parts, besides those inside the parts. */
  lemma {:induction false} JoinCount(parts: seq<string>, sep: char)
    requires |parts| >= 1
    ensures Occurrences(Join(parts, sep), sep) == |parts| - 1 + OccurrencesIn(parts, sep)
  {
    if |parts| == 1 {
      assert parts[1..] == [];
    } else {
      OccurrencesAppend(parts[0] + [sep], Join(parts[1..], sep), sep);
      OccurrencesAppend(parts[0], [sep], sep);
      assert [sep][1..] == [];
      JoinCount(parts[1..], sep);
    }
  }

  lemma LinesWithoutBreaks(first: string, rest: seq<string>, c: char)
    requires c !in first
    requires forall k :: 0 <= k < |rest| ==> c !in rest[k]
    ensures forall k :: 0 <= k < |[first] + rest| ==> c !in ([first] + rest)[k]
  {
  }

  /** In `head + [sep] + tail` with no separator in `head`, the first separator is the one after `head`. */
  lemma {:induction false} FirstIndexAfter(head: string, tail: string, sep: char)
    requires sep !in head
    ensures FirstIndex(head + [sep] + tail, sep) == |head|
  {
    if head != [] {
      assert (head + [sep] + tail)[1..] == head[1..] + [sep] + tail;
      FirstIndexAfter(head[1..], tail, sep);
    }
  }

  /** Splitting a joined list gives the list back, when no part holds the separator. */
  lemma {:induction false} SplitJoin(parts: seq<string>, sep: char)
    requires |parts| >= 1
    requires forall k :: 0 <= k < |parts| ==> sep !in parts[k]
    ensures Split(Join(parts, sep), sep) == parts
  {
    if |parts| > 1 {
      var head, tail := parts[0], parts[1..];
      var rest := Join(tail, sep);
      var s := head + [sep] + rest;
      assert Join(parts, sep) == s;
      assert s[|head|] == sep;
      FirstIndexAfter(head, rest, sep);
      assert s[..|head|] == head;
      assert s[|head| + 1..] == rest;
      assert Split(s, sep) == [head] + Split(rest, sep);
      SplitJoin(tail, sep);
      assert parts == [head] + tail;
    }
  }

  /** Joining the pieces of a split string gives the string back. */
  lemma {:induction false} JoinSplit(s: string, sep: char)
    ensures Join(Split(s, sep), sep) == s
    decreases |s|
  {
    if sep in s {
      var i := FirstIndex(s, sep);
      var rest := Split(s[i + 1..], sep);
      assert Split(s, sep) == [s[..i]] + rest;
      assert ([s[..i]] + rest)[1..] == rest;
      JoinSplit(s[i + 1..], sep);
      assert s == s[..i] + [sep] + s[i + 1..];
    }
  }

  lemma Join3(a: string, b: string, c: string, sep: char)
    ensures Join([a, b, c], sep) == a + [sep] + b + [sep] + c
  {
    assert [a, b, c][1..] == [b, c] && [b, c][1..] == [c];
    assert Join([c], sep) == c;
    assert Join([b, c], sep) == b + [sep] + c;
    assert Join([a, b, c], sep) == a + [sep] + (b + [sep] + c);
  }

  /** A joined list begins with its first part, followed by the separator if more parts come. */
  lemma JoinHead(parts: seq<string>, sep: char)
    requires |parts| >= 1
    ensures parts[0] <= Join(parts, sep)
    ensures |parts| == 1 <==> |Join(parts, sep)| == |parts[0]|
    ensures |parts| > 1 ==> Join(parts, sep)[|parts[0]|] == sep
  {
  }
}
