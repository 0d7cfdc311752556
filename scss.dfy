/**
 * The style "compiler" of the editor (client/App.tsx, compileSCSS): blank
 * input compiles to the empty string; otherwise every variable declaration
 * head, a `$`, one or more name characters and a `:` (the global pattern
 * `\$[\w-]+:`), is wrapped in a CSS comment, and everything else is kept.
 */
module Scss {
  import opened JsText

  /** `[\w-]`: an ASCII letter or digit, an underscore or a hyphen. */
  predicate IsNameChar(c: char) {
    ('A' <= c <= 'Z') || ('a' <= c <= 'z') || ('0' <= c <= '9') || c == '_' || c == '-'
  }

  /** The length of the longest run of name characters that `s` starts with. */
  function NameRun(s: string): (n: nat)
    ensures n <= |s|
    ensures forall i :: 0 <= i < n ==> IsNameChar(s[i])
    ensures n < |s| ==> !IsNameChar(s[n])
  {
    if s != [] && IsNameChar(s[0]) then 1 + NameRun(s[1..]) else 0
  }

  /** A text the pattern `\$[\w-]+:` matches as a whole, such as `$primary-color:`. */
  predicate IsVariableHead(t: string) {
    && |t| >= 3 && t[0] == '$' && t[|t| - 1] == ':'
    && forall i :: 1 <= i < |t| - 1 ==> IsNameChar(t[i])
  }

  /** The length of the match of the pattern that starts at the first character
      of `s`, if there is one: the greedy `[\w-]+` takes the whole run of name
      characters, and the match needs a `:` right after it. */
  function MatchAt(s: string): (r: Option<nat>)
    ensures r.Some? ==> 3 <= r.value <= |s| && IsVariableHead(s[..r.value])
  {
    if s != [] && s[0] == '$' then
      var k := NameRun(s[1..]);
      if 0 < k && k + 1 < |s| && s[k + 1] == ':' then Some(k + 2) else None
    else None
  }

  /** The pattern matches the first `n` characters of `s` exactly when the
      scanner reports a match of length `n` there. */
  lemma MatchAtIsTheMatch(s: string, n: nat)
    requires n <= |s|
    ensures IsVariableHead(s[..n]) <==> MatchAt(s) == Some(n)
  {
    if IsVariableHead(s[..n]) {
      var k := NameRun(s[1..]);
      assert forall i :: 0 <= i < n - 2 ==> IsNameChar(s[1..][i]) by {
        forall i | 0 <= i < n - 2 ensures IsNameChar(s[1..][i]) {
          assert s[1..][i] == s[..n][i + 1];
        }
      }
      assert s[1..][n - 2] == s[..n][n - 1];
      assert k == n - 2;
    }
  }

  /** One step of the scan: a character left as it is, or a declaration head
      that the replacement wraps in a comment. */
  datatype Piece = Kept(c: char) | Commented(head: string)

  /** The global replacement's scan: at each position the match that starts
      there, if any, and otherwise the character, after which the scan goes
      on where the piece ends. */
  function Scan(s: string): seq<Piece>
    decreases |s|
  {
    if s == [] then []
    else match MatchAt(s)
      case Some(n) => [Commented(s[..n])] + Scan(s[n..])
      case None => [Kept(s[0])] + Scan(s[1..])
  }

  /** The text a piece was cut from. */
  function Text(p: Piece): string {
    match p
    case Kept(c) => [c]
    case Commented(h) => h
  }

  /** The text the pieces were cut from. */
  function Source(ps: seq<Piece>): string {
    if ps == [] then [] else Text(ps[0]) + Source(ps[1..])
  }

  lemma SourceCons(p: Piece, ps: seq<Piece>)
    ensures Source([p] + ps) == Text(p) + Source(ps)
  {
    assert ([p] + ps)[1..] == ps;
  }

  /** The replacement text `/*$&*/` in place of each match. */
  function Render(ps: seq<Piece>): string {
    if ps == [] then []
    else (match ps[0] case Kept(c) => [c] case Commented(h) => "/*" + h + "*/") + Render(ps[1..])
  }

  /** The number of matches. */
  function Matches(ps: seq<Piece>): nat {
    if ps == [] then 0 else (if ps[0].Commented? then 1 else 0) + Matches(ps[1..])
  }

  /** The leftmost, non-overlapping reading of `s` that a global regular
      expression replacement makes: every piece is a match of the pattern
      where one starts, or otherwise a single character at which no match
      starts. */
  predicate IsLeftmostScan(s: string, ps: seq<Piece>)
    decreases ps
  {
    if ps == [] then s == []
    else match ps[0]
      case Kept(c) =>
        && s != [] && s[0] == c
        && (forall n :: 0 <= n <= |s| ==> !IsVariableHead(s[..n]))
        && IsLeftmostScan(s[1..], ps[1..])
      case Commented(h) =>
        IsVariableHead(h) && h <= s && IsLeftmostScan(s[|h|..], ps[1..])
  }

  /** Scan is the leftmost reading of `s`, and the only one. */
  lemma {:induction false} ScanIsLeftmost(s: string, ps: seq<Piece>)
    ensures IsLeftmostScan(s, ps) <==> ps == Scan(s)
    decreases |s|
  {
    if s != [] {
      var rest := if ps == [] then [] else ps[1..];
      match MatchAt(s)
      case Some(n) =>
        ScanIsLeftmost(s[n..], rest);
        LeftmostAtMatch(s, ps, n);
      case None =>
        ScanIsLeftmost(s[1..], rest);
        LeftmostAtNoMatch(s, ps);
    }
  }

  /** One step of ScanIsLeftmost where a match starts. */
  lemma LeftmostAtMatch(s: string, ps: seq<Piece>, n: nat)
    requires s != [] && MatchAt(s) == Some(n)
    requires ps != [] ==> (IsLeftmostScan(s[n..], ps[1..]) <==> ps[1..] == Scan(s[n..]))
    ensures IsLeftmostScan(s, ps) <==> ps == Scan(s)
  {
    MatchAtIsTheMatch(s, n);
    if ps != [] && IsLeftmostScan(s, ps) && ps[0].Commented? {
      var h := ps[0].head;
      assert s[..|h|] == h;
      MatchAtIsTheMatch(s, |h|);
    }
  }

  /** One step of ScanIsLeftmost where no match starts. */
  lemma LeftmostAtNoMatch(s: string, ps: seq<Piece>)
    requires s != [] && MatchAt(s) == None
    requires ps != [] ==> (IsLeftmostScan(s[1..], ps[1..]) <==> ps[1..] == Scan(s[1..]))
    ensures IsLeftmostScan(s, ps) <==> ps == Scan(s)
  {
    forall n | 0 <= n <= |s| ensures !IsVariableHead(s[..n]) {
      MatchAtIsTheMatch(s, n);
    }
  }

  /** The first piece of a non-empty text's scan, and its length. */
  lemma ScanStep(s: string) returns (p: Piece, n: nat)
    requires s != []
    ensures 1 <= n <= |s| && Text(p) == s[..n] && Scan(s) == [p] + Scan(s[n..])
  {
    if MatchAt(s).Some? {
      n := MatchAt(s).value;
      p := Commented(s[..n]);
    } else {
      n, p := 1, Kept(s[0]);
      assert Text(p) == s[..1];
    }
  }

  /** The scan cuts `s` into pieces without losing, adding or reordering any
      character. */
  lemma {:induction false} ScanKeepsSource(s: string)
    ensures Source(Scan(s)) == s
    decreases |s|
  {
    if s != [] {
      var p, n := ScanStep(s);
      ScanKeepsSource(s[n..]);
      SourceCons(p, Scan(s[n..]));
      assert s == s[..n] + s[n..];
    }
  }

  /** Each match grows the text by the four characters of `/*` and `*/`. */
  lemma {:induction false} RenderLength(ps: seq<Piece>)
    ensures |Render(ps)| == |Source(ps)| + 4 * Matches(ps)
  {
    if ps != [] {
      RenderLength(ps[1..]);
    }
  }

  /** A text without a `$` has no match at all. */
  lemma {:induction false} NoDollarNoMatch(s: string)
    requires '$' !in s
    ensures Render(Scan(s)) == s && Matches(Scan(s)) == 0
    decreases |s|
  {
    if s != [] {
      assert s[0] != '$';
      NoDollarNoMatch(s[1..]);
    }
  }

  /** `compileSCSS`. The `catch` branch of the source, which hands back the
      input, is unreachable: the replacement cannot throw. */
  function CompileScss(scss: string): (r: string)
    ensures IsBlank(scss) ==> r == ""
    ensures !IsBlank(scss) ==> r == Render(Scan(scss)) && r != ""
    ensures !IsBlank(scss) ==> |r| == |scss| + 4 * Matches(Scan(scss))
    ensures !IsBlank(scss) && '$' !in scss ==> r == scss
  {
    if IsBlank(scss) then ""
    else
      NonBlankIsNonEmpty(scss);
      ScanKeepsSource(scss);
      RenderLength(Scan(scss));
      assert '$' !in scss ==> Render(Scan(scss)) == scss by {
        if '$' !in scss {
          NoDollarNoMatch(scss);
        }
      }
      Render(Scan(scss))
  }
}
