/** The string primitives the source relies on: `String.prototype.split` with a
    one-character separator, the matching join, `trim` and `toLowerCase`. */
module Strings {
  import opened Wrappers

  /** `s.split(sep)` for a one-character separator: the pieces between separators,
      so a string with n separators gives n + 1 pieces (the empty string gives [""]). */
  function Split(s: string, sep: char): (parts: seq<string>)
    ensures |parts| >= 1
    ensures forall i :: 0 <= i < |parts| ==> sep !in parts[i]
    decreases |s|
  {
    if |s| == 0 then [""]
    else
      var rest := Split(s[1..], sep);
      if s[0] == sep then [""] + rest
      else [[s[0]] + rest[0]] + rest[1..]
  }

  /** `parts.join(sep)`: the pieces with `sep` between neighbours; no piece, no text. */
  function Join(parts: seq<string>, sep: string): string
    decreases |parts|
  {
    if |parts| == 0 then ""
    else if |parts| == 1 then parts[0]
    else parts[0] + sep + Join(parts[1..], sep)
  }

  /** A join of two or more pieces starts with the first piece and the separator. */
  lemma JoinCons(parts: seq<string>, sep: string, tail: string)
    requires |parts| >= 2
    ensures Join(parts, sep) + tail == parts[0] + (sep + (Join(parts[1..], sep) + tail))
  {
  }

  /** Splitting a separator-free piece followed by the separator peels that piece off. */
  lemma {:induction false} SplitCons(a: string, sep: char, rest: string)
    requires sep !in a
    ensures Split(a + [sep] + rest, sep) == [a] + Split(rest, sep)
    decreases |a|
  {
    if |a| == 0 {
      assert a + [sep] + rest == [sep] + rest;
      assert ([sep] + rest)[1..] == rest;
    } else {
      SplitCons(a[1..], sep, rest);
      assert (a + [sep] + rest)[1..] == a[1..] + [sep] + rest;
      assert [a[0]] + a[1..] == a;
    }
  }

  /** A separator-free string splits into itself alone. */
  lemma {:induction false} SplitNoSep(a: string, sep: char)
    requires sep !in a
    ensures Split(a, sep) == [a]
    decreases |a|
  {
    if |a| > 0 {
      SplitNoSep(a[1..], sep);
      assert [a[0]] + a[1..] == a;
    }
  }

  /** Split undoes Join when no piece contains the separator. */
  lemma {:induction false} SplitJoin(parts: seq<string>, sep: char)
    requires |parts| >= 1
    requires forall i :: 0 <= i < |parts| ==> sep !in parts[i]
    ensures Split(Join(parts, [sep]), sep) == parts
    decreases |parts|
  {
    if |parts| == 1 {
      SplitNoSep(parts[0], sep);
    } else {
      SplitJoin(parts[1..], sep);
      SplitCons(parts[0], sep, Join(parts[1..], [sep]));
      assert [parts[0]] + parts[1..] == parts;
    }
  }

  /** Join undoes Split: no character is lost or added. */
  lemma {:induction false} JoinSplit(s: string, sep: char)
    ensures Join(Split(s, sep), [sep]) == s
    decreases |s|
  {
    if |s| > 0 {
      JoinSplit(s[1..], sep);
      var rest := Split(s[1..], sep);
      if s[0] != sep {
        var parts := [[s[0]] + rest[0]] + rest[1..];
        assert parts[1..] == rest[1..];
        if |rest| > 1 {
          assert rest == [rest[0]] + rest[1..];
          assert Join(rest, [sep]) == rest[0] + [sep] + Join(rest[1..], [sep]);
        }
      } else {
        assert ([""] + rest)[1..] == rest;
      }
    }
  }

  /** Appending a separator and a separator-free piece adds exactly that piece. */
  lemma {:induction false} SplitSnoc(s: string, sep: char, b: string)
    requires sep !in b
    ensures Split(s + [sep] + b, sep) == Split(s, sep) + [b]
    decreases |s|
  {
    if |s| == 0 {
      assert s + [sep] + b == [sep] + b;
      assert ([sep] + b)[1..] == b;
      SplitNoSep(b, sep);
    } else {
      SplitSnoc(s[1..], sep, b);
      assert (s + [sep] + b)[1..] == s[1..] + [sep] + b;
    }
  }

  /** The text before the first `c` and the text after it, if `s` holds a `c`. */
  function UpTo(s: string, c: char): (r: Option<(string, string)>)
    ensures r.Some? ==> |r.value.1| < |s|
    decreases |s|
  {
    if s == [] then None
    else if s[0] == c then Some(([], s[1..]))
    else match UpTo(s[1..], c)
      case None => None
      case Some(p) => Some(([s[0]] + p.0, p.1))
  }

  /** Scanning a `c`-free text followed by `c` finds that `c`. */
  lemma {:induction false} UpToFirst(a: string, c: char, b: string)
    requires c !in a
    ensures UpTo(a + [c] + b, c) == Some((a, b))
    decreases |a|
  {
    if a == [] {
      assert a + [c] + b == [c] + b;
    } else {
      UpToFirst(a[1..], c, b);
      assert (a + [c] + b)[1..] == a[1..] + [c] + b;
      assert [a[0]] + a[1..] == a;
    }
  }

  // ---------------------------------------------------------------------------
  // trim and toLowerCase

  /** The characters `String.prototype.trim` removes: ECMAScript WhiteSpace and
      LineTerminator code points. */
  predicate IsWhitespace(c: char) {
    c == ' ' || c == '\t' || c == '\n' || c == '\r' || c == '\U{B}' || c == '\U{C}'
    || c == '\U{A0}' || c == '\U{1680}' || ('\U{2000}' <= c <= '\U{200A}')
    || c == '\U{2028}' || c == '\U{2029}' || c == '\U{202F}' || c == '\U{205F}'
    || c == '\U{3000}' || c == '\U{FEFF}'
  }

  predicate AllWhitespace(s: string) {
    forall i :: 0 <= i < |s| ==> IsWhitespace(s[i])
  }

  /** Neither end of `s` is whitespace. */
  predicate Trimmed(s: string) {
    s == [] || (!IsWhitespace(s[0]) && !IsWhitespace(s[|s| - 1]))
  }

  function TrimStart(s: string): string
    decreases |s|
  {
    if |s| > 0 && IsWhitespace(s[0]) then TrimStart(s[1..]) else s
  }

  function TrimEnd(s: string): string
    decreases |s|
  {
    if |s| > 0 && IsWhitespace(s[|s| - 1]) then TrimEnd(s[..|s| - 1]) else s
  }

  /** TrimStart cuts a whitespace prefix and stops at the first other character. */
  lemma {:induction false} TrimStartSpec(s: string)
    ensures |TrimStart(s)| <= |s| && TrimStart(s) == s[|s| - |TrimStart(s)|..]
    ensures TrimStart(s) == [] || !IsWhitespace(TrimStart(s)[0])
    ensures AllWhitespace(s[..|s| - |TrimStart(s)|])
    decreases |s|
  {
    if |s| > 0 && IsWhitespace(s[0]) {
      TrimStartSpec(s[1..]);
      var r := TrimStart(s[1..]);
      var n := |s| - |r|;
      assert s[1..][|s| - 1 - |r|..] == s[n..];
      forall k | 0 <= k < n ensures IsWhitespace(s[..n][k]) {
        if k > 0 { assert s[..n][k] == s[1..][..n - 1][k - 1]; }
      }
    }
  }

  /** TrimEnd cuts a whitespace suffix and stops at the last other character. */
  lemma {:induction false} TrimEndSpec(s: string)
    ensures |TrimEnd(s)| <= |s| && TrimEnd(s) == s[..|TrimEnd(s)|]
    ensures TrimEnd(s) == [] || !IsWhitespace(TrimEnd(s)[|TrimEnd(s)| - 1])
    ensures AllWhitespace(s[|TrimEnd(s)|..])
    decreases |s|
  {
    if |s| > 0 && IsWhitespace(s[|s| - 1]) {
      var m := |s| - 1;
      TrimEndSpec(s[..m]);
      var r := TrimEnd(s[..m]);
      assert s[..m][..|r|] == s[..|r|];
      forall k | |r| <= k < |s| ensures IsWhitespace(s[k]) {
        if k < m { assert s[..m][|r|..][k - |r|] == s[k]; }
      }
    }
  }

  /** `s.trim()`: `s` without its leading and trailing whitespace. */
  function Trim(s: string): string
  {
    TrimEnd(TrimStart(s))
  }

  /** Trim returns a trimmed infix of its argument, and only whitespace is cut away. */
  lemma TrimSpec(s: string)
    ensures Trimmed(Trim(s))
    ensures exists i :: (0 <= i <= |s| - |Trim(s)| && Trim(s) == s[i..i + |Trim(s)|]
                         && AllWhitespace(s[..i]) && AllWhitespace(s[i + |Trim(s)|..]))
  {
    var t := TrimStart(s);
    TrimStartSpec(s);
    TrimEndSpec(t);
    var r := TrimEnd(t);
    var i := |s| - |t|;
    assert r == s[i..i + |r|];
    assert s[i + |r|..] == t[|r|..];
    if r != [] {
      assert r[0] == t[0];
    }
  }

  /** Trimming twice is trimming once. */
  lemma TrimIdempotent(s: string)
    ensures Trim(Trim(s)) == Trim(s)
  {
    TrimSpec(s);
    TrimmedFixed(Trim(s));
  }

  lemma TrimmedFixed(s: string)
    requires Trimmed(s)
    ensures Trim(s) == s
  {
  }

  /** Trim gives the empty string exactly for blank (whitespace-only) strings. */
  lemma TrimEmptyIffBlank(s: string)
    ensures Trim(s) == [] <==> AllWhitespace(s)
  {
    var t := TrimStart(s);
    TrimStartSpec(s);
    TrimEndSpec(t);
    if AllWhitespace(s) {
      assert t == [];
    }
    if Trim(s) == [] {
      // a non-empty TrimStart begins with a character TrimEnd keeps
      assert t == [];
      assert s[..|s|] == s;
    }
  }

  /** `toLowerCase` on the ASCII letters; every other character is kept. */
  predicate IsUpper(c: char) {
    'A' <= c <= 'Z'
  }

  function ToLower(s: string): (r: string)
    ensures |r| == |s|
  {
    seq(|s|, i requires 0 <= i < |s| => if IsUpper(s[i]) then (s[i] as int + 32) as char else s[i])
  }

  /** Lowering leaves no capital letter behind. */
  lemma ToLowerNoUpper(s: string)
    ensures forall i :: 0 <= i < |ToLower(s)| ==> !IsUpper(ToLower(s)[i])
  {
  }

  /** A string without capital letters is its own lower case. */
  lemma ToLowerUnchanged(s: string)
    requires forall i :: 0 <= i < |s| ==> !IsUpper(s[i])
    ensures ToLower(s) == s
  {
  }

  /** Lowering twice is lowering once. */
  lemma ToLowerIdempotent(s: string)
    ensures ToLower(ToLower(s)) == ToLower(s)
  {
    ToLowerNoUpper(s);
    ToLowerUnchanged(ToLower(s));
  }

  /** A string lower-cases to "yes" exactly when it is "yes" in any mix of cases. */
  lemma LowerIsYes(s: string)
    ensures ToLower(s) == "yes" <==>
              |s| == 3 && s[0] in "yY" && s[1] in "eE" && s[2] in "sS"
  {
    if |s| == 3 && s[0] in "yY" && s[1] in "eE" && s[2] in "sS" {
      assert ToLower(s)[0] == 'y' && ToLower(s)[1] == 'e' && ToLower(s)[2] == 's';
    }
    if ToLower(s) == "yes" {
      assert ToLower(s)[0] == 'y' && ToLower(s)[1] == 'e' && ToLower(s)[2] == 's';
    }
  }
}
