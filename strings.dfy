/** The string operations of JavaScript that the core relies on. */
module Strings {

  /** `c.toUpperCase()` restricted to ASCII letters. */
  function UpperChar(c: char): (u: char)
    ensures 'a' <= c <= 'z' ==> u as int == c as int - 32
    ensures !('a' <= c <= 'z') ==> u == c
    ensures !('a' <= u <= 'z')
  {
    if 'a' <= c <= 'z' then (c as int - 32) as char else c
  }

  /** `s.toUpperCase()`, character by character. */
  function ToUpper(s: string): (r: string)
    ensures |r| == |s|
    ensures forall i :: 0 <= i < |s| ==> r[i] == UpperChar(s[i])
  {
    seq(|s|, i requires 0 <= i < |s| => UpperChar(s[i]))
  }

  /** Upper-casing twice is upper-casing once. */
  lemma ToUpperIdempotent(s: string)
    ensures ToUpper(ToUpper(s)) == ToUpper(s)
  {
    assert forall i :: 0 <= i < |s| ==> UpperChar(UpperChar(s[i])) == UpperChar(s[i]);
  }

  predicate StartsWith(s: string, p: string) {
    |p| <= |s| && s[..|p|] == p
  }

  /** `s.includes(p)`. */
  predicate Contains(s: string, p: string)
    decreases |s|
  {
    StartsWith(s, p) || (|s| > 0 && Contains(s[1..], p))
  }

  /** `includes` holds exactly when the pattern occurs at some position. */
  lemma {:induction false} ContainsAt(s: string, p: string)
    ensures Contains(s, p) <==> exists j :: 0 <= j <= |s| && OccursAt(s, p, j)
    decreases |s|
  {
    if Contains(s, p) {
      var i := FirstIndex(s, p);
      assert s[i..][..|p|] == s[i..i + |p|];
      assert OccursAt(s, p, i);
    }
    if j :| 0 <= j <= |s| && OccursAt(s, p, j) {
      if j > 0 {
        assert s[1..][j - 1..] == s[j..];
        assert OccursAt(s[1..], p, j - 1);
        ContainsAt(s[1..], p);
      } else {
        assert s[0..] == s;
      }
    }
  }

  /** A pattern whose first character does not occur in `s` does not occur in `s`. */
  lemma {:induction false} AbsentFirstChar(s: string, p: string)
    requires |p| > 0 && p[0] !in s
    ensures !Contains(s, p)
    decreases |s|
  {
    if |s| > 0 {
      assert s[0] != p[0];
      assert forall c :: c in s[1..] ==> c in s;
      AbsentFirstChar(s[1..], p);
    }
  }

  /** `p` occurs in `s` at position `j`. */
  predicate OccursAt(s: string, p: string, j: nat)
    requires j <= |s|
  {
    StartsWith(s[j..], p)
  }

  /** The position of the first occurrence of `p` in `s`. */
  function FirstIndex(s: string, p: string): (i: nat)
    requires Contains(s, p)
    ensures i + |p| <= |s| && s[i..i + |p|] == p
    ensures forall j :: 0 <= j < i ==> !OccursAt(s, p, j)
    decreases |s|
  {
    if StartsWith(s, p) then 0
    else
      var k := FirstIndex(s[1..], p);
      assert forall j :: 1 <= j <= |s| ==> OccursAt(s[1..], p, j - 1) == OccursAt(s, p, j) by {
        forall j | 1 <= j <= |s|
          ensures OccursAt(s[1..], p, j - 1) == OccursAt(s, p, j)
        {
          assert s[1..][j - 1..] == s[j..];
        }
      }
      1 + k
  }

  /** `s.replace(p, rep)` with a string pattern: only the first occurrence is replaced. */
  function ReplaceFirst(s: string, p: string, rep: string): (r: string)
    ensures !Contains(s, p) ==> r == s
    ensures |rep| <= |p| ==> |r| <= |s|
    decreases |s|
  {
    if StartsWith(s, p) then rep + s[|p|..]
    else if |s| == 0 then s
    else [s[0]] + ReplaceFirst(s[1..], p, rep)
  }

  /** When `p` occurs, exactly its first occurrence is replaced and nothing else changes. */
  lemma {:induction false} ReplaceFirstAt(s: string, p: string, rep: string)
    requires Contains(s, p)
    ensures var i := FirstIndex(s, p);
      ReplaceFirst(s, p, rep) == s[..i] + rep + s[i + |p|..]
    decreases |s|
  {
    if StartsWith(s, p) {
      assert FirstIndex(s, p) == 0;
      assert s[..0] + rep == rep;
    } else {
      var t := s[1..];
      ReplaceFirstAt(t, p, rep);
      var j := FirstIndex(t, p);
      assert FirstIndex(s, p) == 1 + j;
      assert s == [s[0]] + t;
      SpliceCons(s[0], t, j, |p|, rep);
    }
  }

  /** Splicing behind a leading character is splicing the rest. */
  lemma SpliceCons(c: char, t: string, j: nat, m: nat, rep: string)
    requires j + m <= |t|
    ensures var s := [c] + t;
      s[..1 + j] + rep + s[1 + j + m..] == [c] + (t[..j] + rep + t[j + m..])
  {
    var s := [c] + t;
    assert s[..1 + j] == [c] + t[..j];
    assert s[1 + j + m..] == t[j + m..];
  }

  /** `s.split(sep)` for a one-character separator; never empty. */
  function Split(s: string, sep: char): (r: seq<string>)
    ensures |r| >= 1
    ensures forall k :: 0 <= k < |r| ==> sep !in r[k]
    decreases |s|
  {
    if |s| == 0 then [""]
    else
      var rest := Split(s[1..], sep);
      if s[0] == sep then [""] + rest
      else [[s[0]] + rest[0]] + rest[1..]
  }

  /** `parts.join(sep)`, the inverse of Split. */
  function Join(parts: seq<string>, sep: char): string
    decreases |parts|
  {
    if |parts| == 0 then ""
    else if |parts| == 1 then parts[0]
    else parts[0] + [sep] + Join(parts[1..], sep)
  }

  /** Splitting loses nothing: joining the pieces gives back the input. */
  lemma {:induction false} SplitJoin(s: string, sep: char)
    ensures Join(Split(s, sep), sep) == s
    decreases |s|
  {
    if |s| > 0 {
      var rest := Split(s[1..], sep);
      SplitJoin(s[1..], sep);
      if s[0] == sep {
        assert Split(s, sep) == [""] + rest;
      } else {
        var r := Split(s, sep);
        assert r == [[s[0]] + rest[0]] + rest[1..];
        if |rest| == 1 {
          assert Join(r, sep) == [s[0]] + rest[0];
        } else {
          assert r[1..] == rest[1..];
          assert Join(rest, sep) == rest[0] + [sep] + Join(rest[1..], sep);
          assert Join(r, sep) == ([s[0]] + rest[0]) + [sep] + Join(rest[1..], sep);
        }
      }
    }
  }

  /** The number of pieces is one more than the number of separators. */
  lemma {:induction false} SplitCount(s: string, sep: char)
    ensures |Split(s, sep)| == 1 + multiset(s)[sep]
    decreases |s|
  {
    if |s| > 0 {
      SplitCount(s[1..], sep);
      assert s == [s[0]] + s[1..];
      assert multiset(s) == multiset([s[0]]) + multiset(s[1..]);
    }
  }
}
