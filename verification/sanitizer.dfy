/**
 * Escaping of user text for HTML output, and turning user text into a safe
 * file name.
 */
module Sanitizer {
  import opened Wrappers
  import opened Text
  import Seqs

  /** The characters the HTML escaper replaces by an entity. */
  predicate IsEscaped(c: char) {
    c == '&' || c == '<' || c == '>' || c == '"' || c == '\'' || c == '/' || c == '`' || c == '='
  }

  /** The characters that may not appear in escaped output at all ('&' may, as the start of an entity). */
  predicate IsMarkup(c: char) {
    c == '<' || c == '>' || c == '"' || c == '\'' || c == '/' || c == '`' || c == '='
  }

  /** The entity map: each escaped character's entity; every other character stands for itself. */
  function Entity(c: char): (r: string)
    ensures IsEscaped(c) ==> |r| >= 4 && r[0] == '&' && r[|r| - 1] == ';'
    ensures !IsEscaped(c) ==> r == [c]
    ensures forall i :: 0 <= i < |r| ==> !IsMarkup(r[i])
  {
    match c
    case '&' => "&amp;"
    case '<' => "&lt;"
    case '>' => "&gt;"
    case '"' => "&quot;"
    case '\'' => "&#39;"
    case '/' => "&#x2F;"
    case '`' => "&#x60;"
    case '=' => "&#x3D;"
    case _ => [c]
  }

  /** `String(text).replace(/[&<>"'`=\/]/g, s => entityMap[s])`. */
  function Escape(s: string): (r: string)
    ensures forall i :: 0 <= i < |r| ==> !IsMarkup(r[i])
    ensures |r| >= |s|
    decreases |s|
  {
    if s == [] then [] else Entity(s[0]) + Escape(s[1..])
  }

  /** `sanitize`: the empty string for a missing text. */
  function Sanitize(text: Option<string>): (r: string)
    ensures text.None? ==> r == []
    ensures forall i :: 0 <= i < |r| ==> !IsMarkup(r[i])
  {
    match text
    case None => []
    case Some(s) => Escape(s)
  }

  /** Escaping replaces each character on its own and keeps their order. */
  lemma {:induction false} EscapeAppend(a: string, b: string)
    ensures Escape(a + b) == Escape(a) + Escape(b)
    decreases |a|
  {
    if a == [] {
      assert a + b == b;
    } else {
      assert (a + b)[0] == a[0];
      assert (a + b)[1..] == a[1..] + b;
      EscapeAppend(a[1..], b);
    }
  }

  // ---------------------------------------------------------------- the inverse

  /** The character whose entity `t` starts with, if any. */
  function EntityAt(t: string): Option<char> {
    if StartsWith(t, "&amp;") then Some('&')
    else if StartsWith(t, "&lt;") then Some('<')
    else if StartsWith(t, "&gt;") then Some('>')
    else if StartsWith(t, "&quot;") then Some('"')
    else if StartsWith(t, "&#39;") then Some('\'')
    else if StartsWith(t, "&#x2F;") then Some('/')
    else if StartsWith(t, "&#x60;") then Some('`')
    else if StartsWith(t, "&#x3D;") then Some('=')
    else None
  }

  /** A text that starts with an entity agrees with it on the three characters after the '&'. */
  lemma StartsWithAgrees(t: string, e: string)
    requires |e| >= 4
    ensures StartsWith(t, e) ==> t[1] == e[1] && t[2] == e[2] && t[3] == e[3]
  {
    if StartsWith(t, e) {
      assert t[..|e|][1] == t[1] && t[..|e|][2] == t[2] && t[..|e|][3] == t[3];
    }
  }

  lemma EntityAtEntity(c: char, rest: string)
    ensures EntityAt(Entity(c) + rest) == if IsEscaped(c) then Some(c) else None
  {
    var t := Entity(c) + rest;
    assert t[..|Entity(c)|] == Entity(c);
    if IsEscaped(c) {
      assert t[1] == Entity(c)[1] && t[2] == Entity(c)[2] && t[3] == Entity(c)[3];
      StartsWithAgrees(t, "&amp;");
      StartsWithAgrees(t, "&lt;");
      StartsWithAgrees(t, "&gt;");
      StartsWithAgrees(t, "&quot;");
      StartsWithAgrees(t, "&#39;");
      StartsWithAgrees(t, "&#x2F;");
      StartsWithAgrees(t, "&#x60;");
    }
  }

  lemma EntityAtWithoutAmpersand(t: string)
    requires t != [] && t[0] != '&'
    ensures EntityAt(t) == None
  {
  }

  /** Decoding of the eight entities: the inverse of `Escape`. */
  function Unescape(t: string): string
    decreases |t|
  {
    if t == [] then []
    else match EntityAt(t)
      case Some(c) => [c] + Unescape(t[|Entity(c)|..])
      case None => [t[0]] + Unescape(t[1..])
  }

  /** Decoding the escaped text gives back the original text. */
  lemma {:induction false} UnescapeEscape(s: string)
    ensures Unescape(Escape(s)) == s
    decreases |s|
  {
    if s != [] {
      var c := s[0];
      var t := Escape(s);
      assert t == Entity(c) + Escape(s[1..]);
      EntityAtEntity(c, Escape(s[1..]));
      if IsEscaped(c) {
        assert t[|Entity(c)|..] == Escape(s[1..]);
      } else {
        assert t[0] == c && t[1..] == Escape(s[1..]);
      }
      UnescapeEscape(s[1..]);
    }
  }

  // ---------------------------------------------------------------- file names

  /** `[a-zA-Z0-9_.-]`: the characters a file name keeps. */
  predicate IsFileNameChar(c: char) {
    ('a' <= c <= 'z') || ('A' <= c <= 'Z') || ('0' <= c <= '9') || c == '_' || c == '.' || c == '-'
  }

  /** `replace(/\s+/g, '_')`: every maximal run of white space becomes one underscore. */
  function CollapseSpaces(s: string): (r: string)
    ensures forall i :: 0 <= i < |r| ==> !IsSpace(r[i])
    decreases |s|
  {
    if s == [] then []
    else if IsSpace(s[0]) then
      "_" + CollapseSpaces(TrimStart(s))
    else [s[0]] + CollapseSpaces(s[1..])
  }

  /** `sanitizeForFilename`: "download" for a missing text; otherwise trimmed, spaces collapsed to `_`, unsafe characters dropped. */
  function SanitizeForFilename(text: Option<string>): (r: string)
    ensures text.None? ==> r == "download"
    ensures forall i :: 0 <= i < |r| ==> IsFileNameChar(r[i])
  {
    match text
    case None => "download"
    case Some(s) => Seqs.Filter(CollapseSpaces(Trim(s)), IsFileNameChar)
  }

  /** A run of white space followed by a non-space becomes a single underscore. */
  lemma CollapseRun(spaces: string, rest: string)
    requires spaces != [] && forall i :: 0 <= i < |spaces| ==> IsSpace(spaces[i])
    requires rest == [] || !IsSpace(rest[0])
    ensures CollapseSpaces(spaces + rest) == "_" + CollapseSpaces(rest)
  {
    TrimStartRun(spaces, rest);
  }

  lemma {:induction false} TrimStartRun(spaces: string, rest: string)
    requires forall i :: 0 <= i < |spaces| ==> IsSpace(spaces[i])
    requires rest == [] || !IsSpace(rest[0])
    ensures TrimStart(spaces + rest) == rest
    decreases |spaces|
  {
    if spaces == [] {
      assert spaces + rest == rest;
    } else {
      assert (spaces + rest)[1..] == spaces[1..] + rest;
      TrimStartRun(spaces[1..], rest);
    }
  }

  lemma {:induction false} CollapseWithoutSpaces(s: string)
    requires forall i :: 0 <= i < |s| ==> !IsSpace(s[i])
    ensures CollapseSpaces(s) == s
    decreases |s|
  {
    if s != [] {
      CollapseWithoutSpaces(s[1..]);
    }
  }

  lemma FileNameHasNoSpace(r: string)
    requires forall i :: 0 <= i < |r| ==> IsFileNameChar(r[i])
    ensures forall i :: 0 <= i < |r| ==> !IsSpace(r[i])
  {
    forall i | 0 <= i < |r|
      ensures !IsSpace(r[i])
    {
      assert IsFileNameChar(r[i]);
    }
  }

  /** Sanitizing a file name twice changes nothing more. */
  lemma SanitizeForFilenameIdempotent(text: Option<string>)
    ensures SanitizeForFilename(Some(SanitizeForFilename(text))) == SanitizeForFilename(text)
  {
    SafeNameUnchanged(SanitizeForFilename(text));
  }

  /** A name made only of safe characters is its own sanitized form. */
  lemma SafeNameUnchanged(r: string)
    requires forall i :: 0 <= i < |r| ==> IsFileNameChar(r[i])
    ensures SanitizeForFilename(Some(r)) == r
  {
    FileNameHasNoSpace(r);
    TrimNoSpace(r);
    CollapseWithoutSpaces(r);
    Seqs.FilterKeepsAll(r, IsFileNameChar);
  }

}
