/** The JavaScript string idioms the dashboard components rely on, over `string`
    (a sequence of Unicode scalar values): `String.prototype.trim`, `split(sep).pop()`,
    `s || ''` on a nullable string and `s || null` on a string. */
module Text {
  import opened Common

  /** The code points `trim` strips: ECMAScript's WhiteSpace (TAB, VT, FF, ZWNBSP and the
      space separators) and LineTerminator (LF, CR, LS, PS). */
  predicate IsJsWhitespace(c: char) {
    || c == '\t' || c == '\n' || c == '\U{0B}' || c == '\U{0C}' || c == '\r'
    || c == ' ' || c == '\U{A0}' || c == '\U{1680}'
    || ('\U{2000}' <= c <= '\U{200A}')
    || c == '\U{2028}' || c == '\U{2029}' || c == '\U{202F}' || c == '\U{205F}'
    || c == '\U{3000}' || c == '\U{FEFF}'
  }

  /** `s` with its leading whitespace removed: a suffix of `s`, everything cut was
      whitespace, and the first character kept is not. */
  function TrimStart(s: string): (r: string)
    ensures |r| <= |s| && r == s[|s| - |r|..]
    ensures forall i {:trigger IsJsWhitespace(s[i])} :: 0 <= i < |s| - |r| ==> IsJsWhitespace(s[i])
    ensures r != [] ==> !IsJsWhitespace(r[0])
  {
    if s != [] && IsJsWhitespace(s[0]) then TrimStart(s[1..]) else s
  }

  /** `s` with its trailing whitespace removed: a prefix of `s`, everything cut was
      whitespace, and the last character kept is not. */
  function TrimEnd(s: string): (r: string)
    ensures |r| <= |s| && r == s[..|r|]
    ensures forall i {:trigger IsJsWhitespace(s[i])} :: |r| <= i < |s| ==> IsJsWhitespace(s[i])
    ensures r != [] ==> !IsJsWhitespace(r[|r| - 1])
  {
    if s != [] && IsJsWhitespace(s[|s| - 1]) then TrimEnd(s[..|s| - 1]) else s
  }

  /** JavaScript's `s.trim()`: a contiguous piece of `s` that neither starts nor ends
      with whitespace, everything cut on either side being whitespace. */
  function Trim(s: string): (r: string)
    ensures r == [] || (!IsJsWhitespace(r[0]) && !IsJsWhitespace(r[|r| - 1]))
    ensures var k := |s| - |TrimStart(s)|;
              && k + |r| <= |s| && s[k..k + |r|] == r
              && (forall i {:trigger IsJsWhitespace(s[i])} :: 0 <= i < k ==> IsJsWhitespace(s[i]))
              && (forall i {:trigger IsJsWhitespace(s[i])} :: k + |r| <= i < |s| ==> IsJsWhitespace(s[i]))
  {
    var t := TrimStart(s);
    var r := TrimEnd(t);
    PrefixOfSuffix(s, t, r);
    TailWhitespace(s, t, |r|);
    r
  }

  /** Whitespace at the end of a suffix `t` of `s` is whitespace at the end of `s`. */
  lemma TailWhitespace(s: string, t: string, n: nat)
    requires |t| <= |s| && t == s[|s| - |t|..] && n <= |t|
    requires forall j {:trigger IsJsWhitespace(t[j])} :: n <= j < |t| ==> IsJsWhitespace(t[j])
    ensures forall i {:trigger IsJsWhitespace(s[i])} :: |s| - |t| + n <= i < |s| ==> IsJsWhitespace(s[i])
  {
    var k := |s| - |t|;
    forall i | k + n <= i < |s| ensures IsJsWhitespace(s[i]) {
      assert s[i] == t[i - k];
    }
  }

  /** `!s.trim()`: the trimmed string is the falsy empty string exactly when every
      character of `s` is whitespace (the empty string included). */
  lemma TrimEmptyIffBlank(s: string)
    ensures Trim(s) == [] <==> forall i {:trigger IsJsWhitespace(s[i])} :: 0 <= i < |s| ==> IsJsWhitespace(s[i])
  {
  }

  /** `o || ''` for a nullable string: `null` becomes the empty string. */
  function OrEmpty(o: Option<string>): string {
    match o
    case None => ""
    case Some(s) => s
  }

  /** `s || null` for a string: the (falsy) empty string becomes `null`. */
  function NullIfEmpty(s: string): Option<string> {
    if s == "" then None else Some(s)
  }

  /** Sending a text field through `|| null` and reading it back through `|| ''` gives
      the text back; the other way round only an empty (non-null) string is lost. */
  lemma NullIfEmptyRoundTrip(s: string, o: Option<string>)
    ensures OrEmpty(NullIfEmpty(s)) == s
    ensures NullIfEmpty(OrEmpty(o)) == (if o == Some("") then None else o)
  {
  }

  /** JavaScript's `s.split(sep)` for a one-character separator: the pieces between
      separators, left to right; never empty, no piece holds `sep`, and there is one
      piece exactly when `sep` does not occur. */
  function Split(s: string, sep: char): (parts: seq<string>)
    ensures |parts| >= 1
    ensures forall i :: 0 <= i < |parts| ==> sep !in parts[i]
    ensures sep !in s <==> parts == [s]
  {
    if s == [] then [[]]
    else
      var rest := Split(s[1..], sep);
      if s[0] == sep then [[]] + rest
      else
        assert sep !in s[1..] <==> rest == [s[1..]];
        var parts := [[s[0]] + rest[0]] + rest[1..];
        assert parts == [s] ==> rest == [s[1..]] by {
          if parts == [s] {
            assert |rest| == 1;
            assert parts[0] == s;
            assert [s[0]] + rest[0] == s;
            assert rest[0] == s[1..];
          }
        }
        assert rest == [s[1..]] ==> parts == [s] by {
          if rest == [s[1..]] {
            assert [s[0]] + s[1..] == s;
          }
        }
        parts
  }

  /** JavaScript's `parts.join(sep)`. */
  function Join(parts: seq<string>, sep: char): string
    requires |parts| >= 1
  {
    if |parts| == 1 then parts[0] else parts[0] + [sep] + Join(parts[1..], sep)
  }

  /** The last element, as `pop()` returns it. */
  function Last<T>(xs: seq<T>): T
    requires xs != []
  {
    xs[|xs| - 1]
  }

  /** Joining the pieces of a split restores the string. */
  lemma {:induction false} JoinSplit(s: string, sep: char)
    ensures Join(Split(s, sep), sep) == s
  {
    if s != [] {
      var rest := Split(s[1..], sep);
      JoinSplit(s[1..], sep);
      if s[0] == sep {
        assert Split(s, sep)[1..] == rest;
        assert [sep] + s[1..] == s;
      } else if |rest| == 1 {
        assert [s[0]] + s[1..] == s;
      } else {
        var parts := Split(s, sep);
        assert parts[1..] == rest[1..];
        assert Join(rest, sep) == rest[0] + [sep] + Join(rest[1..], sep);
        assert [s[0]] + s[1..] == s;
        assert Join(parts, sep) == [s[0]] + rest[0] + [sep] + Join(rest[1..], sep);
      }
    }
  }

  /** Splitting at a separator splits each side independently. */
  lemma {:induction false} SplitAround(a: string, b: string, sep: char)
    ensures Split(a + [sep] + b, sep) == Split(a, sep) + Split(b, sep)
  {
    var s := a + [sep] + b;
    if a == [] {
      assert s[1..] == b && Split(a, sep) == [[]];
    } else {
      assert s[0] == a[0] && s[1..] == a[1..] + [sep] + b;
      SplitAround(a[1..], b, sep);
      var rest, front := Split(s[1..], sep), Split(a[1..], sep);
      assert rest == front + Split(b, sep);
      var back := Split(b, sep);
      if a[0] == sep {
        assert Split(s, sep) == [[]] + (front + back);
        assert Split(a, sep) == [[]] + front;
        AppendAssoc([[]], front, back);
      } else {
        assert rest[0] == front[0] && rest[1..] == front[1..] + back;
        assert Split(s, sep) == [[a[0]] + front[0]] + (front[1..] + back);
        assert Split(a, sep) == [[a[0]] + front[0]] + front[1..];
        AppendAssoc([[a[0]] + front[0]], front[1..], back);
      }
    }
  }

  /** Splitting a join of separator-free pieces gives the pieces back. */
  lemma {:induction false} SplitJoin(parts: seq<string>, sep: char)
    requires |parts| >= 1
    requires forall i :: 0 <= i < |parts| ==> sep !in parts[i]
    ensures Split(Join(parts, sep), sep) == parts
  {
    if |parts| > 1 {
      SplitJoin(parts[1..], sep);
      SplitAround(parts[0], Join(parts[1..], sep), sep);
      assert Split(parts[0], sep) == [parts[0]];
      assert parts == [parts[0]] + parts[1..];
    }
  }

  /** A join ends with a separator and the last piece, when there are several. */
  lemma {:induction false} JoinLast(parts: seq<string>, sep: char)
    requires |parts| >= 2
    ensures Join(parts, sep) == Join(parts[..|parts| - 1], sep) + [sep] + Last(parts)
  {
    if |parts| > 2 {
      JoinLast(parts[1..], sep);
      assert parts[1..][..|parts| - 2] == parts[1..|parts| - 1];
      assert parts[..|parts| - 1][1..] == parts[1..|parts| - 1];
    }
  }
}
