/**
 * The few JavaScript string built-ins the editor's core relies on, written
 * out over `string` (a sequence of UTF-16 code units in JavaScript; here a
 * sequence of `char`): `trim` (as used by the blank checks), `endsWith`,
 * `Array.prototype.join` on strings and `split` on a one-character separator.
 */
module JsText {

  datatype Option<T> = None | Some(value: T)

  /** The characters `String.prototype.trim` strips: ECMAScript's WhiteSpace
      (tab, vertical tab, form feed, space, no-break space, the byte order mark
      and the Unicode space separators) and its LineTerminators. */
  predicate IsJsWhitespace(c: char) {
    || c == '\t' || c == '\U{000B}' || c == '\U{000C}' || c == ' '
    || c == '\U{00A0}' || c == '\U{FEFF}'
    || c == '\U{1680}' || ('\U{2000}' <= c <= '\U{200A}')
    || c == '\U{202F}' || c == '\U{205F}' || c == '\U{3000}'
    || c == '\n' || c == '\r' || c == '\U{2028}' || c == '\U{2029}'
  }

  /** `s` with its leading whitespace removed. */
  function TrimStart(s: string): (r: string)
    ensures |r| <= |s| && r == s[|s| - |r|..]
    ensures forall i :: 0 <= i < |s| - |r| ==> IsJsWhitespace(s[i])
    ensures r == [] || !IsJsWhitespace(r[0])
  {
    if s != [] && IsJsWhitespace(s[0]) then TrimStart(s[1..]) else s
  }

  /** `s` with its trailing whitespace removed. */
  function TrimEnd(s: string): (r: string)
    ensures |r| <= |s| && r == s[..|r|]
    ensures forall i :: |r| <= i < |s| ==> IsJsWhitespace(s[i])
    ensures r == [] || !IsJsWhitespace(r[|r| - 1])
  {
    if s != [] && IsJsWhitespace(s[|s| - 1]) then TrimEnd(s[..|s| - 1]) else s
  }

  /** `String.prototype.trim`: the text between the leading and the
      trailing whitespace, which neither begins nor ends with whitespace. */
  function Trim(s: string): (r: string)
    ensures |r| <= |s|
    ensures exists i, j :: 0 <= i <= j <= |s| && r == s[i..j]
                           && forall k :: (0 <= k < i || j <= k < |s|) ==> IsJsWhitespace(s[k])
    ensures r == [] || (!IsJsWhitespace(r[0]) && !IsJsWhitespace(r[|r| - 1]))
  {
    var t := TrimStart(s);
    WindowOf(s, t, TrimEnd(t));
    TrimEnd(t)
  }

  /** A whitespace-only stretch cut from the front of `s`, then one cut from
      the back of what remains, leave a window of `s`. */
  lemma WindowOf(s: string, t: string, u: string)
    requires |t| <= |s| && t == s[|s| - |t|..]
    requires forall k :: 0 <= k < |s| - |t| ==> IsJsWhitespace(s[k])
    requires |u| <= |t| && u == t[..|u|]
    requires forall k :: |u| <= k < |t| ==> IsJsWhitespace(t[k])
    ensures var i := |s| - |t|;
            && u == s[i..i + |u|]
            && forall k :: (0 <= k < i || i + |u| <= k < |s|) ==> IsJsWhitespace(s[k])
  {
    var i := |s| - |t|;
    forall k | i + |u| <= k < |s|
      ensures IsJsWhitespace(s[k])
    {
      assert s[k] == t[k - i];
    }
  }

  /** The source's blank test `!s.trim()`: the trimmed string is the empty,
      falsy, string. */
  predicate IsBlank(s: string) {
    Trim(s) == ""
  }

  /** A string is blank exactly when every one of its characters is
      whitespace; in particular the empty string is blank and a non-blank
      string is not empty. */
  lemma BlankIffAllWhitespace(s: string)
    ensures IsBlank(s) <==> forall i :: 0 <= i < |s| ==> IsJsWhitespace(s[i])
  {
    var t := TrimStart(s);
    if !forall i :: 0 <= i < |s| ==> IsJsWhitespace(s[i]) {
      assert t != [];
    }
  }

  lemma NonBlankIsNonEmpty(s: string)
    requires !IsBlank(s)
    ensures |s| > 0
  {
    BlankIffAllWhitespace(s);
  }

  /** A text whose first character is not whitespace is not blank. */
  lemma LeadingCharNotBlank(s: string)
    requires s != [] && !IsJsWhitespace(s[0])
    ensures !IsBlank(s)
  {
    BlankIffAllWhitespace(s);
  }

  /** `String.prototype.endsWith`. */
  predicate EndsWith(s: string, suffix: string) {
    |suffix| <= |s| && s[|s| - |suffix|..] == suffix
  }

  /** `Array.prototype.join` on an array of strings. */
  function Join(parts: seq<string>, sep: string): string {
    if parts == [] then ""
    else parts[0] + (if |parts| == 1 then "" else sep + Join(parts[1..], sep))
  }

  /** Joining the concatenation of two non-empty lists puts one separator
      between the two joined halves. */
  lemma {:induction false} JoinAppend(a: seq<string>, b: seq<string>, sep: string)
    requires a != [] && b != []
    ensures Join(a + b, sep) == Join(a, sep) + sep + Join(b, sep)
  {
    var ab := a + b;
    assert ab[0] == a[0] && |ab| > 1;
    if |a| == 1 {
      assert ab[1..] == b;
      assert Join(ab, sep) == a[0] + (sep + Join(b, sep));
    } else {
      assert ab[1..] == a[1..] + b;
      JoinAppend(a[1..], b, sep);
      assert Join(ab, sep) == a[0] + (sep + Join(a[1..] + b, sep));
      assert Join(a, sep) == a[0] + (sep + Join(a[1..], sep));
    }
  }

  /** `String.prototype.split` on a one-character separator: the pieces between
      the separators, at least one of them, each free of the separator, and
      joined back by the separator they give the input. */
  function Split(s: string, sep: char): (r: seq<string>)
    ensures |r| >= 1
    ensures forall i :: 0 <= i < |r| ==> sep !in r[i]
    ensures Join(r, [sep]) == s
  {
    if s == [] then [""]
    else
      var rest := Split(s[1..], sep);
      if s[0] == sep then [""] + rest
      else
        assert Join(rest, [sep]) == rest[0] + (if |rest| == 1 then "" else [sep] + Join(rest[1..], [sep]));
        [[s[0]] + rest[0]] + rest[1..]
  }

  /** Split is the only way of cutting `s` into separator-free pieces that
      joined back give `s`. */
  lemma {:induction false} SplitUnique(s: string, sep: char, parts: seq<string>)
    requires |parts| >= 1
    requires forall i :: 0 <= i < |parts| ==> sep !in parts[i]
    requires Join(parts, [sep]) == s
    ensures parts == Split(s, sep)
  {
    if s == [] {
    } else if parts[0] == "" {
      assert s == [sep] + Join(parts[1..], [sep]);
      assert s[1..] == Join(parts[1..], [sep]);
      SplitUnique(s[1..], sep, parts[1..]);
    } else {
      var c, t := parts[0][0], parts[0][1..];
      assert parts[0] == [c] + t;
      var parts' := [t] + parts[1..];
      assert parts'[1..] == parts[1..];
      assert Join(parts', [sep]) == s[1..];
      forall i | 0 <= i < |parts'| ensures sep !in parts'[i] {
        if i == 0 {
          assert forall j :: 0 <= j < |t| ==> t[j] == parts[0][j + 1];
        } else {
          assert parts'[i] == parts[i];
        }
      }
      SplitUnique(s[1..], sep, parts');
      assert s[0] == c;
      assert c != sep by { assert parts[0][0] == c; }
    }
  }
}
