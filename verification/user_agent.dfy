/**
 * The device description shown in the login history: browser, a mobile
 * marker and operating system read off a user-agent string.  The regular
 * expressions of the original are written out as searches over positions:
 * a match is the leftmost one, and at one position the alternatives are
 * tried in the order written.
 */
module UserAgent {
  import opened Wrappers
  import opened Text

  // ------------------------------------------------------------ mobile marker

  /** `/Android|webOS|iPhone|iPad|iPod|BlackBerry|IEMobile|Opera Mini/i`: a marker occurs, ignoring case. */
  predicate IsMobile(ua: string) {
    var lower := ToLower(ua);
    Contains(lower, "android") || Contains(lower, "webos") || Contains(lower, "iphone") || Contains(lower, "ipad")
    || Contains(lower, "ipod") || Contains(lower, "blackberry") || Contains(lower, "iemobile") || Contains(lower, "opera mini")
  }

  /** The marker test ignores case: lower-casing the user agent first changes nothing. */
  lemma IsMobileIgnoresCase(ua: string)
    ensures IsMobile(ToLower(ua)) == IsMobile(ua)
  {
    assert ToLower(ToLower(ua)) == ToLower(ua);
  }

  // ------------------------------------------------------------ browser token

  predicate IsVersionChar(c: char) {
    ('0' <= c <= '9') || c == '.'
  }

  /** `name/` followed by at least one digit or dot, starting at position `p`. */
  predicate TokenAt(ua: string, p: nat, name: string) {
    p + |name| + 1 < |ua| && ua[p..p + |name|] == name && ua[p + |name|] == '/' && IsVersionChar(ua[p + |name| + 1])
  }

  /** The first alternative of `(Edg|Chrome|Firefox|Safari|Opera)\/([\d.]+)` that matches at `p`. */
  function TokenNameAt(ua: string, p: nat): (r: Option<string>)
    ensures r.Some? ==> TokenAt(ua, p, r.value)
    ensures r.None? <==> !TokenAt(ua, p, "Edg") && !TokenAt(ua, p, "Chrome") && !TokenAt(ua, p, "Firefox")
                         && !TokenAt(ua, p, "Safari") && !TokenAt(ua, p, "Opera")
  {
    if TokenAt(ua, p, "Edg") then Some("Edg")
    else if TokenAt(ua, p, "Chrome") then Some("Chrome")
    else if TokenAt(ua, p, "Firefox") then Some("Firefox")
    else if TokenAt(ua, p, "Safari") then Some("Safari")
    else if TokenAt(ua, p, "Opera") then Some("Opera")
    else None
  }

  /** The leftmost browser token at or after `p`: its position and name. */
  function FirstToken(ua: string, p: nat): (r: Option<(nat, string)>)
    ensures r.Some? ==> p <= r.value.0 && TokenNameAt(ua, r.value.0) == Some(r.value.1)
    ensures r.Some? ==> forall q :: p <= q < r.value.0 ==> TokenNameAt(ua, q).None?
    ensures r.None? ==> forall q :: p <= q < |ua| ==> TokenNameAt(ua, q).None?
    decreases |ua| - p
  {
    if p >= |ua| then None
    else match TokenNameAt(ua, p)
      case Some(name) => Some((p, name))
      case None => FirstToken(ua, p + 1)
  }

  /** The browser as written: the leftmost token, `Edg` renamed `Edge`, or `'Browser'` without one. */
  function BrowserOf(ua: string): (r: string)
    ensures FirstToken(ua, 0).None? ==> r == "Browser"
    ensures FirstToken(ua, 0).Some? && FirstToken(ua, 0).value.1 == "Edg" ==> r == "Edge"
    ensures FirstToken(ua, 0).Some? && FirstToken(ua, 0).value.1 != "Edg" ==> r == FirstToken(ua, 0).value.1
  {
    match FirstToken(ua, 0)
    case None => "Browser"
    case Some((_, name)) => if name == "Edg" then "Edge" else name
  }

  // ------------------------------------------------------------ OS group

  /** The first `)` at or after `from`. */
  function FirstClose(ua: string, from: nat): (r: Option<nat>)
    ensures r.Some? ==> from <= r.value < |ua| && ua[r.value] == ')'
    ensures r.Some? ==> forall k :: from <= k < r.value ==> ua[k] != ')'
    ensures r.None? ==> forall k :: from <= k < |ua| ==> ua[k] != ')'
    decreases |ua| - from
  {
    if from >= |ua| then None
    else if ua[from] == ')' then Some(from)
    else FirstClose(ua, from + 1)
  }

  /** `\(([^)]+)\)` matches `ua[i..c + 1]`: `(` at `i`, `)` at `c`, and at least one character, none of them `)`, between. */
  predicate GroupAt(ua: string, i: int, c: int) {
    0 <= i && i + 1 < c < |ua| && ua[i] == '(' && ua[c] == ')' && forall k :: i < k < c ==> ua[k] != ')'
  }

  /** `/\(([^)]+)\)/` from position `p`: the text of the leftmost non-empty parenthesised group. */
  function ParenGroup(ua: string, p: nat): (r: Option<string>)
    ensures r.Some? ==> exists i, c :: p <= i && GroupAt(ua, i, c) && r.value == ua[i + 1..c]
                                       && forall j, d :: p <= j < i ==> !GroupAt(ua, j, d)
    ensures r.None? ==> forall i, c :: p <= i ==> !GroupAt(ua, i, c)
    decreases |ua| - p
  {
    if p >= |ua| then None
    else if ua[p] == '(' && FirstClose(ua, p + 1).Some? && FirstClose(ua, p + 1).value > p + 1 then
      var q := FirstClose(ua, p + 1).value;
      assert GroupAt(ua, p, q);
      Some(ua[p + 1..q])
    else ParenGroup(ua, p + 1)
  }

  /** The operating system as written: the group is tested for Windows, Macintosh, Linux, Android, iPhone or iPad, in that order. */
  function OsOf(group: Option<string>): (r: string)
    ensures group.None? ==> r == "Unknown OS"
    ensures group.Some? ==> var info := group.value;
      && (r == "Windows" <==> Contains(info, "Windows"))
      && (r == "macOS" <==> !Contains(info, "Windows") && Contains(info, "Macintosh"))
      && (r == "Linux" <==> !Contains(info, "Windows") && !Contains(info, "Macintosh") && Contains(info, "Linux"))
      && (r == "Android" <==> !Contains(info, "Windows") && !Contains(info, "Macintosh") && !Contains(info, "Linux")
                              && Contains(info, "Android"))
  {
    match group
    case None => "Unknown OS"
    case Some(info) =>
      if Contains(info, "Windows") then "Windows"
      else if Contains(info, "Macintosh") then "macOS"
      else if Contains(info, "Linux") then "Linux"
      else if Contains(info, "Android") then "Android"
      else if Contains(info, "iPhone") || Contains(info, "iPad") then "iOS"
      else "Unknown OS"
  }

  // ------------------------------------------------------------ the description

  /** `${browser}${isMobile ? ' Mobile' : ''} on ${os}`. */
  function Describe(browser: string, mobile: bool, os: string): string {
    browser + (if mobile then " Mobile" else "") + " on " + os
  }

  /** `parseUserAgent`: `'Unknown Device'` for an empty string, otherwise browser, mobile marker and OS. */
  function ParseUserAgent(ua: string): (r: string)
    ensures ua == [] ==> r == "Unknown Device"
    ensures ua != [] ==> r == Describe(BrowserOf(ua), IsMobile(ua), OsOf(ParenGroup(ua, 0)))
  {
    if ua == [] then "Unknown Device"
    else Describe(BrowserOf(ua), IsMobile(ua), OsOf(ParenGroup(ua, 0)))
  }

  predicate NoSpace(s: string) {
    forall i :: 0 <= i < |s| ==> s[i] != ' '
  }

  /** Two texts that each begin with a space-free word followed by a space agree on that word. */
  lemma SplitAtSpace(b1: string, r1: string, b2: string, r2: string)
    requires NoSpace(b1) && NoSpace(b2) && r1 != [] && r2 != [] && r1[0] == ' ' && r2[0] == ' '
    requires b1 + r1 == b2 + r2
    ensures b1 == b2 && r1 == r2
  {
    var d := b1 + r1;
    assert d[|b1|] == ' ' && d[|b2|] == ' ';
    assert forall i :: 0 <= i < |b1| ==> d[i] == b1[i];
    assert forall i :: 0 <= i < |b2| ==> d[i] == b2[i];
    assert |b1| == |b2|;
    assert b1 == d[..|b1|] == b2;
    assert r1 == d[|b1|..] == r2;
  }

  /** The description can be read back: browser names carry no space, so the parts are recovered from the text. */
  lemma DescribeInjective(b1: string, m1: bool, o1: string, b2: string, m2: bool, o2: string)
    requires NoSpace(b1) && NoSpace(b2)
    requires Describe(b1, m1, o1) == Describe(b2, m2, o2)
    ensures b1 == b2 && m1 == m2 && o1 == o2
  {
    var rest1 := (if m1 then " Mobile" else "") + " on " + o1;
    var rest2 := (if m2 then " Mobile" else "") + " on " + o2;
    assert Describe(b1, m1, o1) == b1 + rest1;
    assert Describe(b2, m2, o2) == b2 + rest2;
    SplitAtSpace(b1, rest1, b2, rest2);
    assert rest1[1] == (if m1 then 'M' else 'o') && rest2[1] == (if m2 then 'M' else 'o');
    var k := if m1 then 11 else 4;
    assert o1 == rest1[k..] == o2;
  }

  /** Every non-empty user agent gets a description that names a known browser (or `Browser`) and a known OS (or `Unknown OS`). */
  lemma DescriptionParts(ua: string)
    requires ua != []
    ensures BrowserOf(ua) in {"Edge", "Chrome", "Firefox", "Safari", "Opera", "Browser"}
    ensures OsOf(ParenGroup(ua, 0)) in {"Windows", "macOS", "Linux", "Android", "iOS", "Unknown OS"}
  {
  }

  // ------------------------------------------------------------ as written versus as intended

  /**
   * A real Edge user agent carries `Chrome/…` before `Edg/…`: the leftmost
   * token wins, so Edge is reported as Chrome.
   */
  lemma EdgeReportedAsChrome(ua: string, p: nat, q: nat)
    requires p < q && TokenAt(ua, p, "Chrome") && TokenAt(ua, q, "Edg")
    requires forall k :: 0 <= k < p ==> TokenNameAt(ua, k).None?
    ensures BrowserOf(ua) == "Chrome"
  {
    assert ua[p..p + 6][2] == 'r';
    assert TokenNameAt(ua, p) == Some("Chrome");
    FirstTokenIs(ua, 0, p);
  }

  lemma {:induction false} FirstTokenIs(ua: string, from: nat, p: nat)
    requires from <= p && TokenNameAt(ua, p).Some?
    requires forall k :: from <= k < p ==> TokenNameAt(ua, k).None?
    ensures FirstToken(ua, from) == Some((p, TokenNameAt(ua, p).value))
    decreases p - from
  {
    if from < p {
      FirstTokenIs(ua, from + 1, p);
    }
  }

  /** The shape of an Edge user agent after its platform part satisfies the premises above. */
  lemma EdgeExample()
    ensures var ua := "Chrome/120.0 Edg/120.0";
            TokenAt(ua, 0, "Chrome") && TokenAt(ua, 13, "Edg") && BrowserOf(ua) == "Chrome"
  {
    var ua := "Chrome/120.0 Edg/120.0";
    assert ua[0..6] == "Chrome";
    assert ua[13..16] == "Edg";
    EdgeReportedAsChrome(ua, 0, 13);
  }

  /** An `Edg/` token anywhere at or after `p`. */
  predicate HasTokenFrom(ua: string, p: nat, name: string)
    decreases |ua| - p
  {
    p < |ua| && (TokenAt(ua, p, name) || HasTokenFrom(ua, p + 1, name))
  }

  lemma {:induction false} HasTokenFromAt(ua: string, p: nat, q: nat, name: string)
    requires p <= q && TokenAt(ua, q, name)
    ensures HasTokenFrom(ua, p, name)
    decreases q - p
  {
    if p < q {
      HasTokenFromAt(ua, p + 1, q, name);
    }
  }

  /** The browser as intended: Edge whenever an Edge token is present, otherwise as before. */
  function BrowserIntended(ua: string): (r: string)
    ensures !HasTokenFrom(ua, 0, "Edg") ==> r == BrowserOf(ua)
  {
    if HasTokenFrom(ua, 0, "Edg") then "Edge" else BrowserOf(ua)
  }

  /** Any user agent with an Edge token is reported as Edge. */
  lemma EdgeRecognised(ua: string, q: nat)
    requires TokenAt(ua, q, "Edg")
    ensures BrowserIntended(ua) == "Edge"
  {
    HasTokenFromAt(ua, 0, q, "Edg");
  }

  /**
   * Android user agents read `(Linux; Android …)`: the Linux test comes
   * first, so Android is reported as Linux.
   */
  lemma AndroidReportedAsLinux(info: string)
    requires info == "Linux; Android 10"
    ensures Contains(info, "Android") && OsOf(Some(info)) == "Linux"
  {
    ExampleNames(info);
    NotContainsFirstLetter(info, "Windows");
    NotContainsFirstLetter(info, "Macintosh");
  }

  /** The platform part of an Android user agent names both Linux and Android. */
  lemma ExampleNames(info: string)
    requires info == "Linux; Android 10"
    ensures Contains(info, "Linux") && Contains(info, "Android")
  {
    assert info[7..14] == "Android";
    ContainsAt(info, "Android", 7);
    assert info[0..5] == "Linux";
    ContainsAt(info, "Linux", 0);
  }

  lemma ContainsAt(s: string, part: string, i: nat)
    requires i + |part| <= |s| && s[i..i + |part|] == part
    ensures Contains(s, part)
  {
    ContainsIffOccurs(s, part);
    assert OccursAt(s, part, i);
  }

  /** A text without the first letter of `part` does not contain `part`. */
  lemma NotContainsFirstLetter(info: string, part: string)
    requires part != [] && forall i :: 0 <= i < |info| ==> info[i] != part[0]
    ensures !Contains(info, part)
  {
    ContainsIffOccurs(info, part);
    forall i | 0 <= i && i + |part| <= |info|
      ensures !OccursAt(info, part, i)
    {
      assert info[i..i + |part|][0] == info[i];
    }
  }

  /** The operating system as intended: Android is recognised before the Linux it runs on. */
  function OsIntended(group: Option<string>): (r: string)
    ensures group.Some? && Contains(group.value, "Android") ==> r == "Android"
    ensures group.Some? && !Contains(group.value, "Android") ==> r == OsOf(group)
    ensures group.None? ==> r == "Unknown OS"
  {
    match group
    case None => "Unknown OS"
    case Some(info) => if Contains(info, "Android") then "Android" else OsOf(group)
  }

  /** `parseUserAgent` with both corrections. */
  function ParseUserAgentIntended(ua: string): (r: string)
    ensures ua == [] ==> r == "Unknown Device"
    ensures ua != [] ==> r == Describe(BrowserIntended(ua), IsMobile(ua), OsIntended(ParenGroup(ua, 0)))
  {
    if ua == [] then "Unknown Device"
    else Describe(BrowserIntended(ua), IsMobile(ua), OsIntended(ParenGroup(ua, 0)))
  }

  /** The corrected description of the Android example names Android. */
  lemma AndroidRecognised(info: string)
    requires info == "Linux; Android 10"
    ensures OsIntended(Some(info)) == "Android"
  {
    AndroidReportedAsLinux(info);
  }
}
