/**
 * The pieces of Python's string handling the parsers rely on: str.split with
 * a one-character separator, str.strip with no argument, ASCII case mapping,
 * and the suffix of a path as pathlib computes it.
 */
module PyText {

  /** Occurrences of c in s. */
  function Count(s: string, c: char): nat
  {
    if |s| == 0 then 0 else (if s[0] == c then 1 else 0) + Count(s[1..], c)
  }

  /**
   * s.split(sep): the maximal runs between separators, in order. It is never
   * empty: "".split(",") is [""], and two adjacent separators give an empty
   * piece.
   */
  function Split(s: string, sep: char): (parts: seq<string>)
    ensures |parts| >= 1
  {
    if |s| == 0 then [""]
    else
      var rest := Split(s[1..], sep);
      if s[0] == sep then [""] + rest
      else [[s[0]] + rest[0]] + rest[1..]
  }

  /** sep.join(parts). */
  function Join(parts: seq<string>, sep: char): string
  {
    if |parts| == 0 then ""
    else if |parts| == 1 then parts[0]
    else parts[0] + [sep] + Join(parts[1..], sep)
  }

  /**
   * What split promises: joining the pieces with the separator gives the
   * string back, no piece contains the separator, and there is one piece more
   * than there are separators.
   */
  lemma {:induction false} SplitJoin(s: string, sep: char)
    ensures Join(Split(s, sep), sep) == s
    ensures forall i :: 0 <= i < |Split(s, sep)| ==> sep !in Split(s, sep)[i]
    ensures |Split(s, sep)| == Count(s, sep) + 1
  {
    if |s| > 0 {
      var rest := Split(s[1..], sep);
      SplitJoin(s[1..], sep);
      assert s == [s[0]] + s[1..];
      if s[0] == sep {
        assert Split(s, sep) == [""] + rest;
        assert Join([""] + rest, sep) == "" + [sep] + Join(rest, sep);
      } else {
        var parts := Split(s, sep);
        assert parts == [[s[0]] + rest[0]] + rest[1..];
        if |rest| == 1 {
          assert parts == [[s[0]] + rest[0]];
        } else {
          assert parts[1..] == rest[1..];
          assert Join(parts, sep) == ([s[0]] + rest[0]) + [sep] + Join(rest[1..], sep);
          assert Join(rest, sep) == rest[0] + [sep] + Join(rest[1..], sep);
        }
        forall i | 0 <= i < |parts|
          ensures sep !in parts[i]
        {
          if i > 0 {
            assert parts[i] == rest[i];
          }
        }
      }
    }
  }

  /** A string without the separator splits into just itself. */
  lemma {:induction false} SplitWithoutSeparator(s: string, sep: char)
    requires sep !in s
    ensures Split(s, sep) == [s]
  {
    if |s| > 0 {
      assert sep !in s[1..];
      SplitWithoutSeparator(s[1..], sep);
      assert [s[0]] + s[1..] == s;
    }
  }

  /** A piece without the separator, followed by the separator, is split off whole. */
  lemma {:induction false} SplitAfterPiece(a: string, t: string, sep: char)
    requires sep !in a
    ensures Split(a + [sep] + t, sep) == [a] + Split(t, sep)
  {
    var s := a + [sep] + t;
    if |a| == 0 {
      assert s == [sep] + t;
      assert s[1..] == t;
    } else {
      assert s[1..] == a[1..] + [sep] + t;
      assert sep !in a[1..];
      SplitAfterPiece(a[1..], t, sep);
      assert [a[0]] + a[1..] == a;
    }
  }

  /**
   * The other half of the round trip: pieces that do not contain the
   * separator are recovered by splitting their join.
   */
  lemma {:induction false} JoinSplit(parts: seq<string>, sep: char)
    requires |parts| >= 1
    requires forall i :: 0 <= i < |parts| ==> sep !in parts[i]
    ensures Split(Join(parts, sep), sep) == parts
  {
    if |parts| == 1 {
      SplitWithoutSeparator(parts[0], sep);
    } else {
      JoinSplit(parts[1..], sep);
      SplitAfterPiece(parts[0], Join(parts[1..], sep), sep);
      assert [parts[0]] + parts[1..] == parts;
    }
  }

  /** The characters Python's str.isspace accepts. */
  predicate IsSpace(c: char)
  {
    c == ' ' || '\t' <= c <= '\r' || '\U{1c}' <= c <= '\U{1f}' || c == '\U{85}' || c == '\U{a0}' ||
    c == '\U{1680}' || '\U{2000}' <= c <= '\U{200a}' || c == '\U{2028}' || c == '\U{2029}' ||
    c == '\U{202f}' || c == '\U{205f}' || c == '\U{3000}'
  }

  predicate AllSpace(s: string)
  {
    forall i :: 0 <= i < |s| ==> IsSpace(s[i])
  }

  /** Number of whitespace characters at the start of s. */
  function LeadingSpace(s: string): (n: nat)
    ensures n <= |s|
  {
    if |s| == 0 || !IsSpace(s[0]) then 0 else 1 + LeadingSpace(s[1..])
  }

  /** Number of whitespace characters at the end of s. */
  function TrailingSpace(s: string): (n: nat)
    ensures n <= |s|
  {
    if |s| == 0 || !IsSpace(s[|s| - 1]) then 0 else 1 + TrailingSpace(s[..|s| - 1])
  }

  /** s.strip(): s without its leading and trailing whitespace. */
  function Strip(s: string): string
  {
    var front := s[LeadingSpace(s)..];
    front[..|front| - TrailingSpace(front)]
  }

  lemma {:induction false} LeadingSpaceSpec(s: string)
    ensures AllSpace(s[..LeadingSpace(s)])
    ensures LeadingSpace(s) < |s| ==> !IsSpace(s[LeadingSpace(s)])
  {
    if |s| > 0 && IsSpace(s[0]) {
      LeadingSpaceSpec(s[1..]);
      assert s[..LeadingSpace(s)] == [s[0]] + s[1..][..LeadingSpace(s[1..])];
    }
  }

  lemma {:induction false} TrailingSpaceSpec(s: string)
    ensures AllSpace(s[|s| - TrailingSpace(s)..])
    ensures TrailingSpace(s) < |s| ==> !IsSpace(s[|s| - TrailingSpace(s) - 1])
  {
    if |s| > 0 && IsSpace(s[|s| - 1]) {
      var init := s[..|s| - 1];
      TrailingSpaceSpec(init);
      assert s[|s| - TrailingSpace(s)..] == init[|init| - TrailingSpace(init)..] + [s[|s| - 1]];
    }
  }

  /** strip removes a whitespace prefix and a whitespace suffix, and nothing else. */
  lemma {:induction false} StripBounds(s: string)
    ensures exists a, b :: 0 <= a <= b <= |s| && Strip(s) == s[a..b] && AllSpace(s[..a]) && AllSpace(s[b..])
  {
    var a := LeadingSpace(s);
    var front := s[a..];
    var t := TrailingSpace(front);
    var b := a + |front| - t;
    LeadingSpaceSpec(s);
    TrailingSpaceSpec(front);
    assert Strip(s) == s[a..b];
    assert s[b..] == front[|front| - t..];
  }

  /** What strip leaves neither starts nor ends with whitespace. */
  lemma {:induction false} StripEnds(s: string)
    ensures |Strip(s)| > 0 ==> !IsSpace(Strip(s)[0]) && !IsSpace(Strip(s)[|Strip(s)| - 1])
  {
    var a := LeadingSpace(s);
    var front := s[a..];
    var t := TrailingSpace(front);
    if |Strip(s)| > 0 {
      LeadingSpaceSpec(s);
      TrailingSpaceSpec(front);
      assert Strip(s)[0] == s[a];
      assert Strip(s)[|Strip(s)| - 1] == front[|front| - t - 1];
    }
  }

  /** A string that is all whitespace is all leading whitespace. */
  lemma {:induction false} LeadingAllSpace(s: string)
    requires AllSpace(s)
    ensures LeadingSpace(s) == |s|
  {
    if |s| > 0 {
      assert IsSpace(s[0]);
      assert AllSpace(s[1..]) by {
        forall i | 0 <= i < |s| - 1
          ensures IsSpace(s[1..][i])
        {
          assert s[1..][i] == s[i + 1];
        }
      }
      LeadingAllSpace(s[1..]);
    }
  }

  lemma {:induction false} AllSpaceConcat(x: string, y: string)
    requires AllSpace(x) && AllSpace(y)
    ensures AllSpace(x + y)
  {
    forall i | 0 <= i < |x + y|
      ensures IsSpace((x + y)[i])
    {
      if i < |x| {
        assert (x + y)[i] == x[i];
      } else {
        assert (x + y)[i] == y[i - |x|];
      }
    }
  }

  /** strip gives the empty string exactly when s is all whitespace. */
  lemma {:induction false} StripEmpty(s: string)
    ensures Strip(s) == "" <==> AllSpace(s)
  {
    var a := LeadingSpace(s);
    var front := s[a..];
    var t := TrailingSpace(front);
    if Strip(s) == "" {
      LeadingSpaceSpec(s);
      TrailingSpaceSpec(front);
      assert front[|front| - t..] == front;
      AllSpaceConcat(s[..a], front);
      assert s[..a] + front == s;
    } else if AllSpace(s) {
      LeadingAllSpace(s);
    }
  }

  /** A string that neither starts nor ends with whitespace is its own strip. */
  lemma {:induction false} StripUnchanged(s: string)
    requires |s| > 0 && !IsSpace(s[0]) && !IsSpace(s[|s| - 1])
    ensures Strip(s) == s
  {
    assert LeadingSpace(s) == 0;
    assert s[0..] == s;
    assert TrailingSpace(s) == 0;
  }

  /** ASCII upper case; every other character is left as it is. */
  function UpperChar(c: char): char
  {
    if 'a' <= c <= 'z' then (c as int - 32) as char else c
  }

  /** ASCII lower case; every other character is left as it is. */
  function LowerChar(c: char): char
  {
    if 'A' <= c <= 'Z' then (c as int + 32) as char else c
  }

  function Upper(s: string): (u: string)
    ensures |u| == |s| && forall i :: 0 <= i < |s| ==> u[i] == UpperChar(s[i])
  {
    seq(|s|, i requires 0 <= i < |s| => UpperChar(s[i]))
  }

  function Lower(s: string): (l: string)
    ensures |l| == |s| && forall i :: 0 <= i < |s| ==> l[i] == LowerChar(s[i])
  {
    seq(|s|, i requires 0 <= i < |s| => LowerChar(s[i]))
  }

  /** s occurs in t as a contiguous block: Python's `s in t` on strings. */
  predicate IsSubstring(s: string, t: string)
  {
    exists i, j :: 0 <= i <= j <= |t| && t[i..j] == s
  }

  /**
   * The final component of a POSIX path as pathlib sees it: separators are
   * '/', empty and "." components are dropped, and a path with no other
   * component has the name "".
   */
  function FinalComponent(parts: seq<string>): string
  {
    if |parts| == 0 then ""
    else if parts[|parts| - 1] == "" || parts[|parts| - 1] == "." then FinalComponent(parts[..|parts| - 1])
    else parts[|parts| - 1]
  }

  function PathName(path: string): string
  {
    FinalComponent(Split(path, '/'))
  }

  /** Index of the last c in s, or -1: str.rfind. */
  function LastIndexOf(s: string, c: char): (i: int)
    ensures -1 <= i < |s|
    ensures i >= 0 ==> s[i] == c && forall j :: i < j < |s| ==> s[j] != c
    ensures i == -1 ==> c !in s
  {
    if |s| == 0 then -1
    else if s[|s| - 1] == c then |s| - 1
    else LastIndexOf(s[..|s| - 1], c)
  }

  /**
   * PurePath.suffix: from the last dot of the name on, provided that dot is
   * neither the first nor the last character of the name; "" otherwise.
   */
  function Suffix(path: string): (suffix: string)
  {
    var name := PathName(path);
    var i := LastIndexOf(name, '.');
    if 0 < i < |name| - 1 then name[i..] else ""
  }

  /**
   * What the suffix is: empty, or a final part of the name that starts with
   * its only dot, has at least one more character, and is not the whole name.
   */
  lemma {:induction false} SuffixSpec(path: string)
    ensures var name := PathName(path);
            var suffix := Suffix(path);
            suffix == "" ||
            (2 <= |suffix| < |name| && name[|name| - |suffix|..] == suffix &&
             suffix[0] == '.' && '.' !in suffix[1..])
  {
    var name := PathName(path);
    var i := LastIndexOf(name, '.');
    if 0 < i < |name| - 1 {
      var suffix := name[i..];
      assert forall j :: 1 <= j < |suffix| ==> suffix[j] == name[i + j];
    }
  }

  /**
   * A plain file name (no '/', no dot in its stem) followed by an extension
   * that starts with its only dot has that extension as its suffix.
   */
  lemma SuffixOfPlainName(stem: string, ext: string)
    requires |stem| > 0 && '/' !in stem && '.' !in stem
    requires |ext| >= 2 && ext[0] == '.' && '.' !in ext[1..] && '/' !in ext
    ensures Suffix(stem + ext) == ext
  {
    var path := stem + ext;
    PlainName(stem, ext);
    LastDot(stem, ext);
    assert path[|stem|..] == ext;
  }

  /** A name with no '/' that does not start with a dot is its own final component. */
  lemma PlainName(stem: string, ext: string)
    requires |stem| > 0 && '/' !in stem && '.' !in stem && '/' !in ext
    ensures PathName(stem + ext) == stem + ext
  {
    var path := stem + ext;
    assert '/' !in path by {
      assert forall k :: 0 <= k < |path| ==> path[k] == (if k < |stem| then stem[k] else ext[k - |stem|]);
    }
    SplitWithoutSeparator(path, '/');
    assert path[0] == stem[0];
  }

  /** The last dot of stem + ext is the first character of ext. */
  lemma LastDot(stem: string, ext: string)
    requires '.' !in stem && |ext| >= 1 && ext[0] == '.' && '.' !in ext[1..]
    ensures LastIndexOf(stem + ext, '.') == |stem|
  {
    var path := stem + ext;
    assert path[|stem|] == '.';
    assert forall k :: |stem| < k < |path| ==> path[k] == ext[1..][k - |stem| - 1];
    assert forall k :: 0 <= k < |stem| ==> path[k] == stem[k];
  }
}
