/**
 * The few Python `str` operations the modelled code relies on, over
 * `seq<char>`: `split` with a one-character separator, its inverse
 * `join`, the position of a character's last occurrence (what
 * `rsplit(sep, 1)` cuts at) and ASCII `lower`.
 */
module PyStr {
  import opened Wrappers

  /** Index of the last occurrence of `c` in `s`, if any. */
  function LastIndex(s: string, c: char): (r: Option<nat>)
    ensures r.None? <==> c !in s
    ensures r.Some? ==> r.value < |s| && s[r.value] == c && c !in s[r.value + 1..]
  {
    if |s| == 0 then None
    else if s[|s| - 1] == c then Some(|s| - 1)
    else
      var r := LastIndex(s[..|s| - 1], c);
      assert s[..|s| - 1] + [s[|s| - 1]] == s;
      r
  }

  /** Puts `parts` back together with `sep` between neighbours (Python's `sep.join`). */
  function Join(parts: seq<string>, sep: char): string
    requires |parts| >= 1
  {
    if |parts| == 1 then parts[0]
    else Join(parts[..|parts| - 1], sep) + [sep] + parts[|parts| - 1]
  }

  /**
   * Python's `s.split(sep)` for a one-character separator: the maximal
   * separator-free pieces of `s`, in order, empty pieces included.
   */
  function Split(s: string, sep: char): (parts: seq<string>)
    ensures |parts| >= 1
    ensures forall i :: 0 <= i < |parts| ==> sep !in parts[i]
    ensures Join(parts, sep) == s
    decreases |s|
  {
    match LastIndex(s, sep)
    case None => [s]
    case Some(k) =>
      var front := Split(s[..k], sep);
      assert s[..k] + [sep] + s[k + 1..] == s;
      front + [s[k + 1..]]
  }

  /** Splitting a joined sequence of separator-free pieces gives the pieces back. */
  lemma {:induction false} SplitJoin(parts: seq<string>, sep: char)
    requires |parts| >= 1
    requires forall i :: 0 <= i < |parts| ==> sep !in parts[i]
    ensures Split(Join(parts, sep), sep) == parts
    decreases |parts|
  {
    var s := Join(parts, sep);
    if |parts| == 1 {
      assert LastIndex(s, sep) == None;
    } else {
      var front := parts[..|parts| - 1];
      var last := parts[|parts| - 1];
      var js := Join(front, sep);
      assert s == js + [sep] + last;
      LastIndexAfterSeparator(js, sep, last);
      assert s[..|js|] == js;
      assert s[|js| + 1..] == last;
      SplitJoin(front, sep);
    }
  }

  /** The last separator of `a + [sep] + b`, where `b` has none, is the one between them. */
  lemma {:induction false} LastIndexAfterSeparator(a: string, sep: char, b: string)
    requires sep !in b
    ensures LastIndex(a + [sep] + b, sep) == Some(|a|)
    decreases |b|
  {
    if b != [] {
      var s := a + [sep] + b;
      var b' := b[..|b| - 1];
      assert s[|s| - 1] == b[|b| - 1];
      assert s[..|s| - 1] == a + [sep] + b';
      LastIndexAfterSeparator(a, sep, b');
    }
  }

  /** `c.lower()` for ASCII letters; every other character is left alone. */
  function LowerChar(c: char): (r: char)
    ensures 'A' <= c <= 'Z' ==> r as int == c as int + 32
    ensures !('A' <= c <= 'Z') ==> r == c
  {
    if 'A' <= c <= 'Z' then (c as int + 32) as char else c
  }

  /** `s.lower()`, character by character. */
  function Lower(s: string): (r: string)
    ensures |r| == |s|
    ensures forall i :: 0 <= i < |s| ==> r[i] == LowerChar(s[i])
  {
    seq(|s|, i requires 0 <= i < |s| => LowerChar(s[i]))
  }

  /** Lower-casing twice is lower-casing once. */
  lemma LowerIdempotent(s: string)
    ensures Lower(Lower(s)) == Lower(s)
  {
  }

  /** Lower-casing neither creates nor removes an '@'. */
  lemma LowerKeepsAt(s: string)
    ensures '@' in Lower(s) <==> '@' in s
  {
    if '@' in s {
      var i :| 0 <= i < |s| && s[i] == '@';
      assert Lower(s)[i] == '@';
    }
    if '@' in Lower(s) {
      var i :| 0 <= i < |s| && Lower(s)[i] == '@';
      assert s[i] == '@';
    }
  }
}
