/** Joining and splitting strings. */
module Strings {

  /** The names joined by a separator, as a left fold over the list. */
  function Join(names: seq<string>, sep: string): string {
    if |names| == 0 then ""
    else if |names| == 1 then names[0]
    else FoldJoin(names[0], names[1..], sep)
  }

  /** std::accumulate with `a + sep + b` */
  function FoldJoin(acc: string, rest: seq<string>, sep: string): string
    decreases |rest|
  {
    if rest == [] then acc else FoldJoin(acc + sep + rest[0], rest[1..], sep)
  }

  /** The index of the first `c`, or the length. */
  function Find(s: string, c: char): (i: nat)
    ensures i <= |s|
    ensures i < |s| ==> s[i] == c
    ensures forall j :: 0 <= j < i ==> s[j] != c
  {
    if s == [] || s[0] == c then 0 else 1 + Find(s[1..], c)
  }

  /** The pieces between the occurrences of `c`; none for the empty string. */
  function Split(s: string, c: char): seq<string> { if s == [] then [] else Pieces(s, c) }

  function Pieces(s: string, c: char): seq<string>
    decreases |s|
  {
    var i := Find(s, c);
    if i == |s| then [s] else [s[..i]] + Pieces(s[i + 1..], c)
  }

  predicate Plain(name: string, c: char) { name != [] && c !in name }

  lemma FindAfter(a: string, b: string, c: char)
    requires c !in a
    ensures Find(a + [c] + b, c) == |a|
    ensures (a + [c] + b)[..|a|] == a && (a + [c] + b)[|a| + 1..] == b
  {
    var s := a + [c] + b;
    assert s[|a|] == c;
    assert forall j :: 0 <= j < |a| ==> s[j] == a[j];
  }

  lemma PiecesOfPlain(a: string, c: char)
    requires c !in a
    ensures Pieces(a, c) == [a]
  {
  }

  lemma PiecesAfter(a: string, b: string, c: char)
    requires c !in a
    ensures Pieces(a + [c] + b, c) == [a] + Pieces(b, c)
  {
    FindAfter(a, b, c);
  }

  /** Splitting what is in front of a separator and what is behind it. */
  lemma {:induction false} PiecesOfBoth(a: string, b: string, c: char)
    ensures Pieces(a + [c] + b, c) == Pieces(a, c) + Pieces(b, c)
    decreases |a|
  {
    var i := Find(a, c);
    if i == |a| {
      PiecesOfPlain(a, c);
      PiecesAfter(a, b, c);
    } else {
      var d, e := a[..i], a[i + 1..];
      assert a == d + [c] + e;
      assert a + [c] + b == d + [c] + (e + [c] + b);
      PiecesOfBoth(e, b, c);
      PiecesAfter(d, e + [c] + b, c);
      PiecesAfter(d, e, c);
    }
  }

  lemma {:induction false} PiecesOfFold(acc: string, rest: seq<string>, c: char)
    requires forall i :: 0 <= i < |rest| ==> Plain(rest[i], c)
    ensures Pieces(FoldJoin(acc, rest, [c]), c) == Pieces(acc, c) + rest
    decreases |rest|
  {
    if rest != [] {
      PiecesOfFold(acc + [c] + rest[0], rest[1..], c);
      PiecesOfBoth(acc, rest[0], c);
      PiecesOfPlain(rest[0], c);
      assert rest == [rest[0]] + rest[1..];
    }
  }

  lemma {:induction false} FoldIsLonger(acc: string, rest: seq<string>, sep: string)
    ensures |FoldJoin(acc, rest, sep)| >= |acc|
    decreases |rest|
  {
    if rest != [] { FoldIsLonger(acc + sep + rest[0], rest[1..], sep); }
  }

  /** Splitting undoes joining, for names that are not empty and do not contain the separator. */
  lemma SplitUndoesJoin(names: seq<string>, c: char)
    requires forall i :: 0 <= i < |names| ==> Plain(names[i], c)
    ensures Split(Join(names, [c]), c) == names
  {
    if |names| == 1 {
      PiecesOfPlain(names[0], c);
    } else if |names| > 1 {
      PiecesOfFold(names[0], names[1..], c);
      PiecesOfPlain(names[0], c);
      FoldIsLonger(names[0], names[1..], [c]);
      assert names == [names[0]] + names[1..];
    }
  }
}
