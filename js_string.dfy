/** The `String.prototype` methods the core uses: `toLowerCase` (restricted to
    ASCII letters), `trim` and `split` on a one-character separator, with
    `Array.prototype.join` as the inverse of `split`. */
module JsString {

  /** An ASCII upper-case letter. */
  predicate IsUpper(c: char)
  {
    'A' <= c <= 'Z'
  }

  /** The ASCII lower-case of `c`; every other character is left alone. */
  function LowerChar(c: char): (r: char)
    ensures !IsUpper(r)
    ensures IsUpper(c) ==> r as int == c as int + 32
    ensures !IsUpper(c) ==> r == c
  {
    if IsUpper(c) then (c as int + 32) as char else c
  }

  /** `s.toLowerCase()` over ASCII: same length, no upper-case letter left,
      each upper-case letter moved to its lower-case code point and every
      other character kept. */
  function ToLower(s: string): (r: string)
    ensures |r| == |s|
    ensures forall i :: 0 <= i < |r| ==> !IsUpper(r[i])
    ensures forall i :: 0 <= i < |s| && !IsUpper(s[i]) ==> r[i] == s[i]
    ensures forall i :: 0 <= i < |s| && IsUpper(s[i]) ==> r[i] as int == s[i] as int + 32
  {
    seq(|s|, i requires 0 <= i < |s| => LowerChar(s[i]))
  }

  /** Lower-casing is idempotent, and a string with no upper-case letter is
      its own lower-case. */
  lemma ToLowerProperties(s: string)
    ensures ToLower(ToLower(s)) == ToLower(s)
    ensures (forall i :: 0 <= i < |s| ==> !IsUpper(s[i])) ==> ToLower(s) == s
  {
  }

  /** The code points ECMAScript's `trim` removes: WhiteSpace (tab, vertical tab,
      form feed, space, no-break space, zero-width no-break space and the
      space separators of Unicode category Zs) and LineTerminator (line feed,
      carriage return, line and paragraph separators). */
  predicate IsWhitespace(c: char)
  {
    || c == '\t' || c == '\n' || c == '\U{000B}' || c == '\U{000C}' || c == '\r'
    || c == ' ' || c == '\U{00A0}' || c == '\U{1680}'
    || ('\U{2000}' <= c <= '\U{200A}')
    || c == '\U{2028}' || c == '\U{2029}' || c == '\U{202F}' || c == '\U{205F}'
    || c == '\U{3000}' || c == '\U{FEFF}'
  }

  /** `s` with its leading whitespace removed. */
  function TrimStart(s: string): (r: string)
    ensures |r| <= |s| && r == s[|s| - |r|..]
    ensures forall i :: 0 <= i < |s| - |r| ==> IsWhitespace(s[i])
    ensures r != [] ==> !IsWhitespace(r[0])
  {
    if s != [] && IsWhitespace(s[0]) then TrimStart(s[1..]) else s
  }

  /** `s` with its trailing whitespace removed. */
  function TrimEnd(s: string): (r: string)
    ensures |r| <= |s| && r == s[..|r|]
    ensures forall i :: |r| <= i < |s| ==> IsWhitespace(s[i])
    ensures r != [] ==> !IsWhitespace(r[|r| - 1])
  {
    if s != [] && IsWhitespace(s[|s| - 1]) then TrimEnd(s[..|s| - 1]) else s
  }

  /** `s.trim()`: the part of `s` left between a whitespace-only prefix and a
      whitespace-only suffix, neither starting nor ending with whitespace. */
  function Trim(s: string): (r: string)
    ensures exists k :: WhitespaceAround(s, r, k)
    ensures r != [] ==> !IsWhitespace(r[0]) && !IsWhitespace(r[|r| - 1])
  {
    var t := TrimStart(s);
    var r := TrimEnd(t);
    var k := |s| - |t|;
    assert WhitespaceAround(s, r, k) by {
      assert t == s[k..] && r == t[..|r|];
      assert r == s[k..k + |r|];
      forall i | k + |r| <= i < |s| ensures IsWhitespace(s[i]) {
        assert s[i] == t[i - k];
      }
    }
    r
  }

  /** `r` sits at index `k` of `s`, with only whitespace before and after it. */
  ghost predicate WhitespaceAround(s: string, r: string, k: int)
  {
    && 0 <= k <= |s| - |r| && r == s[k..k + |r|]
    && (forall i :: 0 <= i < k ==> IsWhitespace(s[i]))
    && (forall i :: k + |r| <= i < |s| ==> IsWhitespace(s[i]))
  }

  /** `!s.trim()`: the trimmed string is the empty (falsy) string, which
      happens exactly when every character of `s` is whitespace. */
  predicate IsBlank(s: string)
    ensures IsBlank(s) <==> forall i :: 0 <= i < |s| ==> IsWhitespace(s[i])
  {
    Trim(s) == ""
  }

  /** `s.split(sep)` for a one-character separator: the maximal pieces between
      separators, so `""` splits to `[""]` and `"a/"` to `["a", ""]`. */
  function Split(s: string, sep: char): (parts: seq<string>)
    ensures |parts| >= 1
    ensures forall i :: 0 <= i < |parts| ==> sep !in parts[i]
  {
    if s == [] then [""]
    else
      var rest := Split(s[1..], sep);
      if s[0] == sep then [""] + rest
      else [[s[0]] + rest[0]] + rest[1..]
  }

  /** The total length of the pieces. */
  function PiecesLength(parts: seq<string>): nat
  {
    if parts == [] then 0 else |parts[0]| + PiecesLength(parts[1..])
  }

  /** `parts.join(sep)`: the pieces with exactly one separator between each
      two neighbours, so its length is theirs plus one per gap. */
  function Join(parts: seq<string>, sep: char): (r: string)
    ensures parts != [] ==> |r| == PiecesLength(parts) + |parts| - 1
  {
    if parts == [] then ""
    else if |parts| == 1 then parts[0]
    else parts[0] + [sep] + Join(parts[1..], sep)
  }

  /** Joining the pieces of a split gives back the original string. */
  lemma {:induction false} JoinSplit(s: string, sep: char)
    ensures Join(Split(s, sep), sep) == s
  {
    if s != [] {
      JoinSplit(s[1..], sep);
      var rest := Split(s[1..], sep);
      if s[0] != sep {
        if |rest| == 1 {
          assert Split(s, sep) == [[s[0]] + rest[0]];
        } else {
          assert Split(s, sep)[1..] == rest[1..];
          assert Join(rest, sep) == rest[0] + [sep] + Join(rest[1..], sep);
        }
      }
    }
  }

  /** Splitting a join of separator-free pieces gives back the pieces. */
  lemma {:induction false} SplitJoin(parts: seq<string>, sep: char)
    requires |parts| >= 1
    requires forall i :: 0 <= i < |parts| ==> sep !in parts[i]
    ensures Split(Join(parts, sep), sep) == parts
  {
    if |parts| == 1 {
      SplitNoSeparator(parts[0], sep);
    } else {
      SplitJoin(parts[1..], sep);
      SplitPrefix(parts[0], Join(parts[1..], sep), sep);
      assert Join(parts, sep) == parts[0] + ([sep] + Join(parts[1..], sep));
      assert [parts[0]] + parts[1..] == parts;
    }
  }

  /** A string without the separator splits into itself alone. */
  lemma {:induction false} SplitNoSeparator(s: string, sep: char)
    requires sep !in s
    ensures Split(s, sep) == [s]
  {
    if s != [] {
      SplitNoSeparator(s[1..], sep);
      assert [s[0]] + s[1..] == s;
    }
  }

  /** A separator-free prefix followed by the separator becomes the first piece. */
  lemma {:induction false} SplitPrefix(a: string, b: string, sep: char)
    requires sep !in a
    ensures Split(a + ([sep] + b), sep) == [a] + Split(b, sep)
  {
    if a == [] {
      assert a + ([sep] + b) == [sep] + b;
      assert ([sep] + b)[1..] == b;
    } else {
      assert (a + ([sep] + b))[1..] == a[1..] + ([sep] + b);
      SplitPrefix(a[1..], b, sep);
      assert [a[0]] + a[1..] == a;
    }
  }

  /** The last piece of a split (`split(sep).pop()`) is the longest suffix of
      `s` without the separator: it is preceded by a separator or it is all of
      `s`, and it is all of `s` exactly when there was nothing to split. */
  lemma {:induction false} SplitLast(s: string, sep: char)
    ensures var parts := Split(s, sep);
      var last := parts[|parts| - 1];
      && |last| <= |s| && last == s[|s| - |last|..]
      && sep !in last
      && (|last| == |s| || s[|s| - |last| - 1] == sep)
      && (|parts| == 1 <==> |last| == |s|)
  {
    if s != [] {
      SplitLast(s[1..], sep);
      var rest := Split(s[1..], sep);
      var last := rest[|rest| - 1];
      if s[0] != sep && |rest| == 1 {
        JoinSplit(s[1..], sep);
        assert Split(s, sep) == [[s[0]] + s[1..]];
        assert [s[0]] + s[1..] == s;
      } else {
        var parts := Split(s, sep);
        assert parts[|parts| - 1] == last;
        assert s[1..][|s| - 1 - |last|..] == s[|s| - |last|..];
        if |last| < |s| - 1 {
          assert s[1..][|s| - 1 - |last| - 1] == s[|s| - |last| - 1];
        }
      }
    }
  }
}
