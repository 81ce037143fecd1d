/**
 The string primitives the plugin relies on, written out over `seq<char>`:
 `split` on a single separator, `join`, `indexOf`/`contains` for a substring,
 and the marker-stripping helper built from them.
 */
module Strings {
  import opened Wrappers

  /** `sub` occurs in `s` starting at position `i`. */
  ghost predicate OccursAt(s: string, sub: string, i: int)
  {
    0 <= i && i + |sub| <= |s| && s[i..i + |sub|] == sub
  }

  /** First occurrence of `sub` in `s` at or after position `k`. */
  function IndexOfFrom(s: string, sub: string, k: nat): (r: Option<nat>)
    requires k <= |s|
    ensures r.Some? ==> k <= r.value && OccursAt(s, sub, r.value)
    ensures r.Some? ==> forall j :: k <= j < r.value ==> !OccursAt(s, sub, j)
    ensures r.None? ==> forall j :: k <= j ==> !OccursAt(s, sub, j)
    decreases |s| - k
  {
    if k + |sub| > |s| then None
    else if s[k..k + |sub|] == sub then Some(k)
    else IndexOfFrom(s, sub, k + 1)
  }

  /** `s.indexOf(sub)`: the first position of `sub` in `s`, `None` standing for `-1`. */
  function IndexOf(s: string, sub: string): (r: Option<nat>)
    ensures r.Some? ==> OccursAt(s, sub, r.value)
    ensures r.Some? ==> forall j :: 0 <= j < r.value ==> !OccursAt(s, sub, j)
    ensures r.None? <==> forall j :: !OccursAt(s, sub, j)
  {
    IndexOfFrom(s, sub, 0)
  }

  /** `s.contains(sub)` (the host's alias of `includes`). */
  predicate Contains(s: string, sub: string)
  {
    IndexOf(s, sub).Some?
  }

  lemma ContainsMeansOccurs(s: string, sub: string)
    ensures Contains(s, sub) <==> exists i :: OccursAt(s, sub, i)
  {
    if Contains(s, sub) {
      assert OccursAt(s, sub, IndexOf(s, sub).value);
    }
  }

  /** An occurrence of `x + y` carries an occurrence of its tail `y`. */
  lemma {:induction false} ContainsTail(s: string, x: string, y: string)
    requires Contains(s, x + y)
    ensures Contains(s, y)
  {
    var i := IndexOf(s, x + y).value;
    assert s[i..i + |x + y|] == x + y;
    assert s[i + |x|..i + |x| + |y|] == (x + y)[|x|..];
    assert (x + y)[|x|..] == y;
    assert OccursAt(s, y, i + |x|);
    ContainsMeansOccurs(s, y);
  }

  /** `ps.join([sep])`; an empty list joins to the empty string. */
  function Join(ps: seq<string>, sep: char): string
  {
    if |ps| == 0 then ""
    else if |ps| == 1 then ps[0]
    else ps[0] + [sep] + Join(ps[1..], sep)
  }

  /**
   `s.split(sep)` for a one-character separator: the pieces between separators,
   empty pieces included, so there is always at least one piece.
   */
  function Split(s: string, sep: char): (r: seq<string>)
    ensures |r| >= 1
    ensures forall i :: 0 <= i < |r| ==> sep !in r[i]
    ensures Join(r, sep) == s
    decreases |s|
  {
    if |s| == 0 then [""]
    else
      var rest := Split(s[1..], sep);
      if s[0] == sep then
        assert [sep] + Join(rest, sep) == s;
        [""] + rest
      else
        var r := [[s[0]] + rest[0]] + rest[1..];
        assert r[1..] == rest[1..];
        assert Join(r, sep) == [s[0]] + Join(rest, sep);
        r
  }

  lemma {:induction false} SplitWithoutSeparator(p: string, sep: char)
    requires sep !in p
    ensures Split(p, sep) == [p]
    decreases |p|
  {
    if |p| > 0 {
      SplitWithoutSeparator(p[1..], sep);
      assert [p[0]] + p[1..] == p;
    }
  }

  /** A separator-free first piece is split off exactly. */
  lemma {:induction false} SplitAtSeparator(p: string, sep: char, t: string)
    requires sep !in p
    ensures Split(p + [sep] + t, sep) == [p] + Split(t, sep)
    decreases |p|
  {
    var s := p + [sep] + t;
    if |p| == 0 {
      assert s[1..] == t;
    } else {
      assert s[1..] == p[1..] + [sep] + t;
      SplitAtSeparator(p[1..], sep, t);
      assert [p[0]] + p[1..] == p;
    }
  }

  /** Splitting undoes joining when no piece holds the separator. */
  lemma {:induction false} SplitJoin(ps: seq<string>, sep: char)
    requires |ps| >= 1
    requires forall i :: 0 <= i < |ps| ==> sep !in ps[i]
    ensures Split(Join(ps, sep), sep) == ps
    decreases |ps|
  {
    if |ps| == 1 {
      SplitWithoutSeparator(ps[0], sep);
    } else {
      SplitJoin(ps[1..], sep);
      SplitAtSeparator(ps[0], sep, Join(ps[1..], sep));
      assert [ps[0]] + ps[1..] == ps;
    }
  }

  /**
   `removeFirstElement`: split on single spaces, drop the first token, join the
   rest with single spaces. The result is what follows the first space, or the
   empty string when there is no space.
   */
  function RemoveFirstElement(s: string): (r: string)
    ensures ' ' !in s ==> r == ""
    ensures forall i :: 0 <= i < |s| && s[i] == ' ' && ' ' !in s[..i] ==> r == s[i + 1..]
  {
    var pieces := Split(s, ' ');
    var r := Join(pieces[1..], ' ');
    if ' ' !in s then
      SplitWithoutSeparator(s, ' ');
      r
    else
      RemoveFirstElementAfterSpace(s);
      r
  }

  lemma RemoveFirstElementAfterSpace(s: string)
    ensures forall i :: 0 <= i < |s| && s[i] == ' ' && ' ' !in s[..i] ==>
      Join(Split(s, ' ')[1..], ' ') == s[i + 1..]
  {
    forall i | 0 <= i < |s| && s[i] == ' ' && ' ' !in s[..i]
      ensures Join(Split(s, ' ')[1..], ' ') == s[i + 1..]
    {
      assert s == s[..i] + [' '] + s[i + 1..];
      PiecesAfterFirstSpace(s[..i], s[i + 1..]);
    }
  }

  /** After a space-free head and one space, the remaining pieces join back to the tail. */
  lemma PiecesAfterFirstSpace(head: string, tail: string)
    requires ' ' !in head
    ensures Join(Split(head + [' '] + tail, ' ')[1..], ' ') == tail
  {
    SplitAtSeparator(head, ' ', tail);
    assert Split(head + [' '] + tail, ' ')[1..] == Split(tail, ' ');
  }

  /** Dropping a space-free leading token and its space leaves the remainder intact. */
  lemma RemoveFirstElementOfToken(tok: string, rest: string)
    requires ' ' !in tok
    ensures RemoveFirstElement(tok + " " + rest) == rest
  {
    var s := tok + " " + rest;
    assert s[|tok|] == ' ' && s[..|tok|] == tok;
    assert s[|tok| + 1..] == rest;
  }
}
