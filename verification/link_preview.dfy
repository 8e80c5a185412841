/** The study-link helpers around a shared URL: the scheme added on
    submission, and the two pattern matches that decide whether a card
    embeds a YouTube player or an Instagram post. Both patterns are modelled
    as the regular-expression engine runs them: which position wins, which
    alternative is tried first, how far a repetition reaches. */
module LinkPreview {
  import opened Base
  import opened Text

  /** `^https?:\/\/` tested case-insensitively. */
  predicate HasScheme(u: string) {
    StartsWith(Lower(u), "http://") || StartsWith(Lower(u), "https://")
  }

  /** The URL stored for a new link: kept when it already has an http or
      https scheme in any letter case, otherwise prefixed with "https://". */
  function NormalizeUrl(u: string): (r: string)
    ensures HasScheme(r)
    ensures HasScheme(u) ==> r == u
    ensures !HasScheme(u) ==> r == "https://" + u
  {
    if HasScheme(u) then u
    else
      assert Lower("https://" + u)[..8] == "https://";
      "https://" + u
  }

  /** Normalising twice is normalising once, and the typed text is always
      the tail of the stored URL. */
  lemma NormalizeIdempotent(u: string)
    ensures NormalizeUrl(NormalizeUrl(u)) == NormalizeUrl(u)
    ensures var r := NormalizeUrl(u); |u| <= |r| && r[|r| - |u|..] == u
  {
  }

  /** An upper-case scheme is recognised; nothing is prefixed. */
  lemma UpperCaseSchemeKept(rest: string)
    ensures NormalizeUrl("HTTPS://" + rest) == "HTTPS://" + rest
  {
    assert Lower("HTTPS://" + rest)[..8] == "https://";
  }

  /** Characters `.` does not match. */
  predicate LineTerminator(c: char) {
    c == '\n' || c == '\r' || c == '\U{2028}' || c == '\U{2029}'
  }

  /** `\w`. */
  predicate IsWord(c: char) {
    ('A' <= c <= 'Z') || ('a' <= c <= 'z') || ('0' <= c <= '9') || c == '_'
  }

  /** The characters `[^#&?]` stops at. */
  predicate IsStop(c: char) {
    c == '#' || c == '&' || c == '?'
  }

  /** How far `^.*` can reach: up to the first line terminator. */
  function ReachOfDotStar(s: string): (l: nat)
    ensures l <= |s|
    ensures forall k :: 0 <= k < l ==> !LineTerminator(s[k])
    ensures l == |s| || LineTerminator(s[l])
    decreases |s|
  {
    if |s| == 0 || LineTerminator(s[0]) then 0
    else 1 + ReachOfDotStar(s[1..])
  }

  /** `s` spells the literal `w` from position `p` on. */
  predicate Lit(s: string, p: nat, w: string) {
    p + |w| <= |s| && s[p..p + |w|] == w
  }

  /** The alternation `(youtu.be\/|v\/|u\/\w\/|embed\/|watch\?v=|&v=)` at
      position `p`: the length of the first alternative, in written order,
      that matches there. The `.` in the first one is any character but a
      line terminator. */
  function AltAt(s: string, p: nat): (n: Option<nat>)
    ensures n.Some? ==> p + n.value <= |s|
  {
    if Lit(s, p, "youtu") && p + 9 <= |s| && !LineTerminator(s[p + 5]) && Lit(s, p + 6, "be/") then Some(9)
    else if Lit(s, p, "v/") then Some(2)
    else if p + 4 <= |s| && s[p] == 'u' && s[p + 1] == '/' && IsWord(s[p + 2]) && s[p + 3] == '/' then Some(4)
    else if Lit(s, p, "embed/") then Some(6)
    else if Lit(s, p, "watch?v=") then Some(8)
    else if Lit(s, p, "&v=") then Some(3)
    else None
  }

  /** Backtracking of the greedy `^.*`: the largest position at most `q`
      where the alternation matches. */
  function LastAlt(s: string, q: nat): (m: Option<nat>)
    requires q <= |s|
    ensures m.Some? ==> m.value <= q && AltAt(s, m.value).Some?
    ensures m.Some? ==> forall k :: m.value < k <= q ==> AltAt(s, k).None?
    ensures m.None? ==> forall k :: 0 <= k <= q ==> AltAt(s, k).None?
    decreases q
  {
    if AltAt(s, q).Some? then Some(q)
    else if q == 0 then None
    else LastAlt(s, q - 1)
  }

  /** The end of the run `[^#&?]*` starting at `i` (it crosses line
      terminators). */
  function RunEnd(s: string, i: nat): (j: nat)
    requires i <= |s|
    ensures i <= j <= |s|
    ensures forall k :: i <= k < j ==> !IsStop(s[k])
    ensures j == |s| || IsStop(s[j])
    decreases |s| - i
  {
    if i == |s| || IsStop(s[i]) then i else RunEnd(s, i + 1)
  }

  /** `g` is a whole run of non-stop characters starting at `i` in `s`. */
  predicate RunAt(s: string, g: string, i: int) {
    WindowAt(s, g, i) && (forall k :: 0 <= k < |g| ==> !IsStop(g[k]))
    && (i + |g| == |s| || IsStop(s[i + |g|]))
  }

  /** Group 2 of `^.*(alternation)([^#&?]*).*`, or `None` when the pattern
      does not match: the run after the last alternation within the reach
      of `.*`. */
  function YouTubeGroup(s: string): (g: Option<string>)
    ensures g.Some? ==>
              && LastAlt(s, ReachOfDotStar(s)).Some?
              && var p := LastAlt(s, ReachOfDotStar(s)).value;
                 RunAt(s, g.value, p + AltAt(s, p).value)
    ensures g.None? <==> forall k :: 0 <= k <= ReachOfDotStar(s) ==> AltAt(s, k).None?
  {
    match LastAlt(s, ReachOfDotStar(s))
    case None => None
    case Some(p) =>
      var i := p + AltAt(s, p).value;
      RunEndIsRun(s, i);
      Some(s[i..RunEnd(s, i)])
  }

  /** The characters from `i` up to `RunEnd(s, i)` form a whole run. */
  lemma RunEndIsRun(s: string, i: nat)
    requires i <= |s|
    ensures RunAt(s, s[i..RunEnd(s, i)], i)
  {
    var j := RunEnd(s, i);
    assert forall k :: 0 <= k < j - i ==> s[i..j][k] == s[i + k];
  }

  /** `getYouTubeId(url)`: nothing for a missing or empty URL; otherwise
      group 2 when the pattern matches and it has exactly 11 characters. */
  function YouTubeId(url: Option<string>): (id: Option<string>)
    ensures !Truthy(url) ==> id.None?
    ensures id.Some? ==> && |id.value| == 11
                         && (forall k :: 0 <= k < 11 ==> !IsStop(id.value[k]))
                         && exists i :: 0 <= i <= |url.value| && RunAt(url.value, id.value, i)
    ensures Truthy(url) ==>
              (id.Some? <==> YouTubeGroup(url.value).Some? && |YouTubeGroup(url.value).value| == 11)
    ensures id.Some? ==> id == YouTubeGroup(url.value)
  {
    if !Truthy(url) then None
    else
      match YouTubeGroup(url.value)
      case Some(g) => if |g| == 11 then Some(g) else None
      case None => None
  }

  /** The characters of video ids and Instagram shortcodes,
      `[a-zA-Z0-9_-]`. */
  predicate IsIdChar(c: char) {
    IsWord(c) || c == '-'
  }

  predicate IdText(id: string) {
    forall k :: 0 <= k < |id| ==> IsIdChar(id[k])
  }


  /** A literal is not spelled where one of its characters differs. */
  lemma NotLitAt(s: string, p: nat, w: string, j: nat)
    requires j < |w| && p + j < |s| && s[p + j] != w[j]
    ensures !Lit(s, p, w)
  {
    if p + |w| <= |s| {
      assert s[p..p + |w|][j] == s[p + j];
    }
  }

  /** No alternative starts with a character other than y, v, u, e, w or &. */
  lemma NoAltStart(s: string, k: nat)
    requires k < |s| && s[k] !in "yvuew&"
    ensures AltAt(s, k).None?
  {
    NotLitAt(s, k, "youtu", 0);
    NotLitAt(s, k, "v/", 0);
    NotLitAt(s, k, "embed/", 0);
    NotLitAt(s, k, "watch?v=", 0);
    NotLitAt(s, k, "&v=", 0);
  }

  /** No alternative starts in a tail of id characters: each needs a '/',
      '?' or '&' there. */
  lemma NoAltInId(s: string, k: nat)
    requires k < |s| && forall m :: k <= m < |s| ==> IsIdChar(s[m])
    ensures AltAt(s, k).None?
  {
    NotLitAt(s, k, "&v=", 0);
    if k + 1 < |s| {
      assert IsIdChar(s[k + 1]);
      NotLitAt(s, k, "v/", 1);
    }
    if k + 5 < |s| {
      assert IsIdChar(s[k + 5]);
      NotLitAt(s, k, "embed/", 5);
      NotLitAt(s, k, "watch?v=", 5);
    }
    if k + 8 < |s| {
      assert IsIdChar(s[k + 8]);
      NotLitAt(s, k + 6, "be/", 2);
    }
  }

  /** No alternative starts after the 'w' of "watch?v=" when id characters
      follow it to the end. */
  lemma NoAltAfterWatch(s: string, w: nat)
    requires w + 8 <= |s| && s[w..w + 8] == "watch?v="
    requires forall m :: w + 8 <= m < |s| ==> IsIdChar(s[m])
    ensures forall k :: w < k <= |s| ==> AltAt(s, k).None?
  {
    forall k | w < k <= |s| ensures AltAt(s, k).None? {
      if k < w + 8 {
        assert s[k] == s[w..w + 8][k - w];
        if k == w + 6 {
          assert s[k + 1] == s[w..w + 8][7];
          NotLitAt(s, k, "v/", 1);
          NoAltStartButV(s, k);
        } else {
          NoAltStart(s, k);
        }
      } else if k < |s| {
        NoAltInId(s, k);
      }
    }
  }

  /** At a 'v' not followed by '/', nothing starts. */
  lemma NoAltStartButV(s: string, k: nat)
    requires k + 1 < |s| && s[k] == 'v' && s[k + 1] != '/'
    ensures AltAt(s, k).None?
  {
    NotLitAt(s, k, "youtu", 0);
    NotLitAt(s, k, "v/", 1);
    NotLitAt(s, k, "embed/", 0);
    NotLitAt(s, k, "watch?v=", 0);
    NotLitAt(s, k, "&v=", 0);
  }

  /** On a line without terminators whose last "watch?v=" is followed
      by id characters to the end, group 2 is those characters. */
  lemma GroupAfterWatch(s: string, w: nat)
    requires w + 8 <= |s| && s[w..w + 8] == "watch?v="
    requires forall m :: w + 8 <= m < |s| ==> IsIdChar(s[m])
    requires forall k :: 0 <= k < |s| ==> !LineTerminator(s[k])
    ensures YouTubeGroup(s) == Some(s[w + 8..])
  {
    assert ReachOfDotStar(s) == |s|;
    NoAltAfterWatch(s, w);
    WatchAlt(s, w);
    LastAltIs(s, |s|, w);
    RunToEnd(s, w + 8);
    assert s[w + 8..|s|] == s[w + 8..];
  }

  /** "watch?v=" is the fifth alternative: the four before it do not
      start with a 'w'. */
  lemma WatchAlt(s: string, w: nat)
    requires w + 8 <= |s| && s[w..w + 8] == "watch?v="
    ensures AltAt(s, w) == Some(8)
  {
    assert s[w] == s[w..w + 8][0];
    NotLitAt(s, w, "youtu", 0);
    NotLitAt(s, w, "v/", 0);
    NotLitAt(s, w, "embed/", 0);
  }

  /** The last alternation up to `q` is at `w` when one matches at `w`
      and none after it. */
  lemma LastAltIs(s: string, q: nat, w: nat)
    requires w <= q <= |s| && AltAt(s, w).Some?
    requires forall k :: w < k <= q ==> AltAt(s, k).None?
    ensures LastAlt(s, q) == Some(w)
  {
  }

  /** A run of id characters reaches the end: none of them stops it. */
  lemma RunToEnd(s: string, i: nat)
    requires i <= |s| && forall m :: i <= m < |s| ==> IsIdChar(s[m])
    ensures RunEnd(s, i) == |s|
  {
  }

  /** The last alternation of `pre + "watch?v=" + id` is the "watch?v="
      itself, and the run after it is the whole id. */
  lemma WatchUrlGroup(pre: string, id: string)
    requires forall k :: 0 <= k < |pre| ==> !LineTerminator(pre[k])
    requires IdText(id)
    ensures YouTubeGroup(pre + "watch?v=" + id) == Some(id)
  {
    var s := pre + "watch?v=" + id;
    var w := |pre|;
    assert s[w..w + 8] == "watch?v=";
    assert s[w + 8..] == id;
    forall m | w + 8 <= m < |s| ensures IsIdChar(s[m]) {
      assert s[m] == id[m - w - 8];
    }
    forall k | 0 <= k < |s| ensures !LineTerminator(s[k]) {
      if k < w { assert s[k] == pre[k]; }
      else if k < w + 8 { assert s[k] == s[w..w + 8][k - w]; }
    }
    GroupAfterWatch(s, w);
  }

  /** A watch URL whose id is 11 id characters yields that id, whatever
      comes before "watch?v=" on the line. */
  lemma WatchUrlRoundTrip(pre: string, id: string)
    requires forall k :: 0 <= k < |pre| ==> !LineTerminator(pre[k])
    requires |id| == 11 && IdText(id)
    ensures YouTubeId(Some(pre + "watch?v=" + id)) == Some(id)
  {
    WatchUrlGroup(pre, id);
  }

  /** The same URL with an id of any other length yields nothing. */
  lemma WatchUrlWrongLength(pre: string, id: string)
    requires forall k :: 0 <= k < |pre| ==> !LineTerminator(pre[k])
    requires |id| != 11 && IdText(id)
    ensures YouTubeId(Some(pre + "watch?v=" + id)).None?
  {
    WatchUrlGroup(pre, id);
  }

  /** The Instagram hosts, `instagram\.com|instagr\.am`, in order: the
      length of the one spelled at `p`. */
  function HostAt(s: string, p: nat): (n: Option<nat>)
    ensures n.Some? ==> p + n.value <= |s|
    ensures n == Some(13) <==> Lit(s, p, "instagram.com")
    ensures n == Some(10) <==> !Lit(s, p, "instagram.com") && Lit(s, p, "instagr.am")
    ensures n.None? <==> !Lit(s, p, "instagram.com") && !Lit(s, p, "instagr.am")
  {
    if Lit(s, p, "instagram.com") then Some(13)
    else if Lit(s, p, "instagr.am") then Some(10)
    else None
  }

  /** The post kinds, `p|reel|tv`, followed by a slash: the length with the
      slash. */
  function KindAt(s: string, p: nat): (n: Option<nat>)
    ensures n.Some? ==> p + n.value <= |s|
    ensures n == Some(2) <==> Lit(s, p, "p/")
    ensures n == Some(5) <==> !Lit(s, p, "p/") && Lit(s, p, "reel/")
    ensures n == Some(3) <==> !Lit(s, p, "p/") && !Lit(s, p, "reel/") && Lit(s, p, "tv/")
    ensures n.None? <==> !Lit(s, p, "p/") && !Lit(s, p, "reel/") && !Lit(s, p, "tv/")
  {
    if Lit(s, p, "p/") then Some(2)
    else if Lit(s, p, "reel/") then Some(5)
    else if Lit(s, p, "tv/") then Some(3)
    else None
  }

  /** The end of the run `[a-zA-Z0-9_-]*` starting at `i`. */
  function IdRunEnd(s: string, i: nat): (j: nat)
    requires i <= |s|
    ensures i <= j <= |s|
    ensures forall k :: i <= k < j ==> IsIdChar(s[k])
    ensures j == |s| || !IsIdChar(s[j])
    decreases |s| - i
  {
    if i == |s| || !IsIdChar(s[i]) then i else IdRunEnd(s, i + 1)
  }

  /** Where the shortcode starts when host, slash, kind and slash are
      spelled from `p` on. */
  function CodeStart(s: string, p: nat): (i: Option<nat>)
    ensures i.Some? <==> && HostAt(s, p).Some? && Lit(s, p + HostAt(s, p).value, "/")
                         && KindAt(s, p + HostAt(s, p).value + 1).Some?
    ensures i.Some? ==> i.value == p + HostAt(s, p).value + 1 + KindAt(s, p + HostAt(s, p).value + 1).value
    ensures i.Some? ==> i.value <= |s|
  {
    match HostAt(s, p)
    case None => None
    case Some(h) =>
      if !Lit(s, p + h, "/") then None
      else
        match KindAt(s, p + h + 1)
        case None => None
        case Some(k) => Some(p + h + 1 + k)
  }

  /** The whole pattern at position `p`: host, slash, kind and slash, then
      the shortcode (group 1: at least one character, as many as
      possible). */
  function ShortcodeAt(s: string, p: nat): (c: Option<string>)
    ensures c.Some? ==> |c.value| > 0 && IdText(c.value)
    ensures c.Some? <==> && CodeStart(s, p).Some? && CodeStart(s, p).value < |s|
                         && IsIdChar(s[CodeStart(s, p).value])
    ensures c.Some? ==> && Lit(s, CodeStart(s, p).value, c.value)
                        && (CodeStart(s, p).value + |c.value| == |s| || !IsIdChar(s[CodeStart(s, p).value + |c.value|]))
  {
    match CodeStart(s, p)
    case None => None
    case Some(i) =>
      if IdRunEnd(s, i) == i then None
      else
        IdRunSlice(s, i);
        Some(s[i..IdRunEnd(s, i)])
  }

  /** The run from `i` is spelled at `i` and made of code characters. */
  lemma IdRunSlice(s: string, i: nat)
    requires i <= |s|
    ensures Lit(s, i, s[i..IdRunEnd(s, i)]) && IdText(s[i..IdRunEnd(s, i)])
  {
    var j := IdRunEnd(s, i);
    assert forall m :: 0 <= m < j - i ==> s[i..j][m] == s[i + m];
  }

  /** The unanchored search: the leftmost position from `p` on where the
      pattern matches. */
  function FirstMatch(s: string, p: nat): (q: Option<nat>)
    requires p <= |s|
    ensures q.Some? ==> p <= q.value <= |s| && ShortcodeAt(s, q.value).Some?
    ensures q.Some? ==> forall k :: p <= k < q.value ==> ShortcodeAt(s, k).None?
    ensures q.None? ==> forall k :: p <= k <= |s| ==> ShortcodeAt(s, k).None?
    decreases |s| - p
  {
    if ShortcodeAt(s, p).Some? then Some(p)
    else if p == |s| then None
    else FirstMatch(s, p + 1)
  }

  /** The embed address of a shortcode. */
  function EmbedUrl(code: string): string {
    "https://www.instagram.com/p/" + code + "/embed"
  }

  /** `getInstagramEmbedUrl(url)`: nothing for a missing or empty URL;
      otherwise the embed address of the leftmost shortcode, whatever the
      post kind was. */
  function InstagramEmbed(url: Option<string>): (e: Option<string>)
    ensures !Truthy(url) ==> e.None?
    ensures e.Some? ==> exists q :: && 0 <= q <= |url.value| && ShortcodeAt(url.value, q).Some?
                                    && (forall k :: 0 <= k < q ==> ShortcodeAt(url.value, k).None?)
                                    && e.value == EmbedUrl(ShortcodeAt(url.value, q).value)
    ensures Truthy(url) && (exists q :: 0 <= q <= |url.value| && ShortcodeAt(url.value, q).Some?) ==> e.Some?
  {
    if !Truthy(url) then None
    else
      match FirstMatch(url.value, 0)
      case None => None
      case Some(q) => Some(EmbedUrl(ShortcodeAt(url.value, q).value))
  }

  /** Nothing matches where no 'i' starts a host. */
  lemma NoHostStart(s: string, q: nat)
    requires q < |s| && s[q] != 'i'
    ensures ShortcodeAt(s, q).None?
  {
    NotLitAt(s, q, "instagram.com", 0);
    NotLitAt(s, q, "instagr.am", 0);
  }

  /** At a host spelled "instagram.com" or "instagr.am", then a slash, a
      kind and a slash, then a code followed by a non-code character or
      nothing, the pattern matches with group 1 the code. */
  lemma ShortcodeAtHost(s: string, w: nat, host: string, kind: string, code: string)
    requires host == "instagram.com" || host == "instagr.am"
    requires kind == "p" || kind == "reel" || kind == "tv"
    requires |code| > 0 && IdText(code)
    requires Lit(s, w, host) && Lit(s, w + |host|, "/") && Lit(s, w + |host| + 1, kind + "/")
    requires Lit(s, w + |host| + 2 + |kind|, code)
    requires w + |host| + 2 + |kind| + |code| == |s| || !IsIdChar(s[w + |host| + 2 + |kind| + |code|])
    ensures ShortcodeAt(s, w) == Some(code)
  {
    HostAtLit(s, w, host);
    KindAtLit(s, w + |host| + 1, kind);
    var i := w + |host| + 2 + |kind|;
    CodeStartAt(s, w, |host|, |kind| + 1);
    IdRunEndAt(s, i, code);
    ShortcodeFrom(s, w, i);
  }

  /** Host, slash and kind recognised one after the other put the code
      right after them. */
  lemma CodeStartAt(s: string, w: nat, h: nat, k: nat)
    requires HostAt(s, w) == Some(h) && Lit(s, w + h, "/") && KindAt(s, w + h + 1) == Some(k)
    ensures CodeStart(s, w) == Some(w + h + 1 + k)
  {
  }

  /** With the code starting at `i`, the capture is the run from `i`. */
  lemma ShortcodeFrom(s: string, w: nat, i: nat)
    requires CodeStart(s, w) == Some(i) && IdRunEnd(s, i) > i
    ensures ShortcodeAt(s, w) == Some(s[i..IdRunEnd(s, i)])
  {
  }

  /** A host spelled at `w` is recognised with its length. */
  lemma HostAtLit(s: string, w: nat, host: string)
    requires host == "instagram.com" || host == "instagr.am"
    requires Lit(s, w, host)
    ensures HostAt(s, w) == Some(|host|)
  {
    if host == "instagr.am" {
      assert s[w + 7] == s[w..w + 10][7];
      NotLitAt(s, w, "instagram.com", 7);
    }
  }

  /** A kind spelled with its slash is recognised with that length. */
  lemma KindAtLit(s: string, q: nat, kind: string)
    requires kind == "p" || kind == "reel" || kind == "tv"
    requires Lit(s, q, kind + "/")
    ensures KindAt(s, q) == Some(|kind| + 1)
  {
    assert s[q] == s[q..q + |kind| + 1][0];
    if kind != "p" {
      NotLitAt(s, q, "p/", 0);
    }
    if kind == "tv" {
      NotLitAt(s, q, "reel/", 0);
    }
  }

  /** A code spelled at `i` and not followed by a code character is the
      whole run from `i`. */
  lemma IdRunEndAt(s: string, i: nat, code: string)
    requires IdText(code) && Lit(s, i, code)
    requires i + |code| == |s| || !IsIdChar(s[i + |code|])
    ensures IdRunEnd(s, i) == i + |code|
  {
    forall k | i <= k < i + |code| ensures IsIdChar(s[k]) {
      assert s[k] == s[i..i + |code|][k - i];
    }
  }

  /** When the pattern matches at `w` and no 'i' comes before, the
      leftmost match is at `w`. */
  lemma LeftmostAt(s: string, w: nat)
    requires w <= |s| && ShortcodeAt(s, w).Some?
    requires forall q :: 0 <= q < w ==> s[q] != 'i'
    ensures InstagramEmbed(Some(s)) == Some(EmbedUrl(ShortcodeAt(s, w).value))
  {
    forall q | 0 <= q < w ensures ShortcodeAt(s, q).None? {
      NoHostStart(s, q);
    }
    assert FirstMatch(s, 0) == Some(w);
  }

  /** A literal appended to a text is spelled where it starts. */
  lemma LitAppended(x: string, y: string)
    ensures Lit(x + y, |x|, y) && Lit(x + y, 0, x)
  {
    assert (x + y)[|x|..|x| + |y|] == y;
    assert (x + y)[0..|x|] == x;
  }

  /** Appending text keeps every literal already spelled. */
  lemma LitExtend(x: string, y: string, p: nat, w: string)
    requires Lit(x, p, w)
    ensures Lit(x + y, p, w)
  {
    assert (x + y)[p..p + |w|] == x[p..p + |w|];
  }

  /** Two literals spelled one after the other spell their concatenation,
      and a concatenation spells both parts. */
  lemma LitJoin(s: string, p: nat, u: string, v: string)
    ensures Lit(s, p, u) && Lit(s, p + |u|, v) <==> Lit(s, p, u + v)
  {
    if p + |u| + |v| <= |s| {
      assert s[p..p + |u| + |v|] == s[p..p + |u|] + s[p + |u|..p + |u| + |v|];
      if s[p..p + |u| + |v|] == u + v {
        assert s[p..p + |u|] == (u + v)[..|u|];
        assert s[p + |u|..p + |u| + |v|] == (u + v)[|u|..];
      }
    }
  }

  /** A post, reel or TV link on the main host gives the embed address of
      its shortcode when the text before the host has no 'i' (so the
      leftmost match is the host's) and the code is followed by a
      non-code character or nothing. */
  lemma InstagramRoundTrip(pre: string, kind: string, code: string, rest: string)
    requires forall k :: 0 <= k < |pre| ==> pre[k] != 'i'
    requires kind == "p" || kind == "reel" || kind == "tv"
    requires |code| > 0 && IdText(code)
    requires rest == [] || !IsIdChar(rest[0])
    ensures InstagramEmbed(Some(pre + "instagram.com/" + kind + "/" + code + rest)) == Some(EmbedUrl(code))
  {
    RoundTripLits(pre, kind, code, rest);
    EmbedAtHost(pre + "instagram.com/" + kind + "/" + code + rest, |pre|, kind, code);
  }

  /** Where each part of a post link sits in the link. */
  lemma RoundTripLits(pre: string, kind: string, code: string, rest: string)
    requires forall k :: 0 <= k < |pre| ==> pre[k] != 'i'
    requires rest == [] || !IsIdChar(rest[0])
    ensures var s := pre + "instagram.com/" + kind + "/" + code + rest;
            var w := |pre|;
            && Lit(s, w, "instagram.com") && Lit(s, w + 13, "/") && Lit(s, w + 14, kind + "/")
            && Lit(s, w + 15 + |kind|, code)
            && (w + 15 + |kind| + |code| == |s| || !IsIdChar(s[w + 15 + |kind| + |code|]))
            && (forall q :: 0 <= q < w ==> s[q] != 'i')
  {
    HostLits(pre, kind, code, rest);
    KindLits(pre, kind, code, rest);
    CodeLits(pre, kind, code, rest);
  }

  /** The host and its slash follow the text before it, which keeps its
      characters. */
  lemma HostLits(pre: string, kind: string, code: string, rest: string)
    requires forall k :: 0 <= k < |pre| ==> pre[k] != 'i'
    ensures var s := pre + "instagram.com/" + kind + "/" + code + rest;
            && Lit(s, |pre|, "instagram.com") && Lit(s, |pre| + 13, "/")
            && (forall q :: 0 <= q < |pre| ==> s[q] != 'i')
  {
    var host := "instagram.com/";
    var s1 := pre + host;
    var s2 := s1 + kind;
    var s3 := s2 + "/";
    var s4 := s3 + code;
    var s := s4 + rest;
    var w := |pre|;
    LitAppended(pre, host);
    LitExtend(s1, kind, w, host);
    LitExtend(s2, "/", w, host);
    LitExtend(s3, code, w, host);
    LitExtend(s4, rest, w, host);
    LitExtend(s1, kind, 0, pre);
    LitExtend(s2, "/", 0, pre);
    LitExtend(s3, code, 0, pre);
    LitExtend(s4, rest, 0, pre);
    assert host == "instagram.com" + "/";
    LitJoin(s, w, "instagram.com", "/");
    forall q | 0 <= q < w ensures s[q] != 'i' {
      assert s[q] == s[0..w][q];
    }
  }

  /** The kind and its slash follow the host's slash. */
  lemma KindLits(pre: string, kind: string, code: string, rest: string)
    ensures var s := pre + "instagram.com/" + kind + "/" + code + rest;
            Lit(s, |pre| + 14, kind + "/")
  {
    var s1 := pre + "instagram.com/";
    var s2 := s1 + kind;
    var s3 := s2 + "/";
    var s4 := s3 + code;
    var s := s4 + rest;
    var w := |pre|;
    LitAppended(s1, kind);
    LitExtend(s2, "/", w + 14, kind);
    LitExtend(s3, code, w + 14, kind);
    LitExtend(s4, rest, w + 14, kind);
    LitAppended(s2, "/");
    LitExtend(s3, code, |s2|, "/");
    LitExtend(s4, rest, |s2|, "/");
    LitJoin(s, w + 14, kind, "/");
  }

  /** The code follows the kind's slash and ends where `rest` begins. */
  lemma CodeLits(pre: string, kind: string, code: string, rest: string)
    requires rest == [] || !IsIdChar(rest[0])
    ensures var s := pre + "instagram.com/" + kind + "/" + code + rest;
            var e := |pre| + 15 + |kind| + |code|;
            && Lit(s, |pre| + 15 + |kind|, code)
            && (e == |s| || !IsIdChar(s[e]))
  {
    var s3 := pre + "instagram.com/" + kind + "/";
    var s4 := s3 + code;
    var s := s4 + rest;
    LitAppended(s3, code);
    LitExtend(s4, rest, |s3|, code);
    if rest != [] { assert s[|s4|] == rest[0]; }
  }

  /** The embed address when the main host, the kind and the code are
      spelled at `w` and no 'i' comes before. */
  lemma EmbedAtHost(s: string, w: nat, kind: string, code: string)
    requires kind == "p" || kind == "reel" || kind == "tv"
    requires |code| > 0 && IdText(code)
    requires Lit(s, w, "instagram.com") && Lit(s, w + 13, "/") && Lit(s, w + 14, kind + "/")
    requires Lit(s, w + 15 + |kind|, code)
    requires w + 15 + |kind| + |code| == |s| || !IsIdChar(s[w + 15 + |kind| + |code|])
    requires forall q :: 0 <= q < w ==> s[q] != 'i'
    ensures InstagramEmbed(Some(s)) == Some(EmbedUrl(code))
  {
    ShortcodeAtHost(s, w, "instagram.com", kind, code);
    LeftmostAt(s, w);
  }

  /** Every post kind is embedded through the `/p/` address. */
  lemma ReelEmbedsAsPost(code: string)
    requires |code| > 0 && IdText(code)
    ensures InstagramEmbed(Some("https://www.instagram.com/reel/" + code + "/"))
            == InstagramEmbed(Some("https://www.instagram.com/p/" + code + "/"))
            == Some(EmbedUrl(code))
  {
    assert "https://www.instagram.com/reel/" + code + "/" == "https://www." + "instagram.com/" + "reel" + "/" + code + "/";
    assert "https://www.instagram.com/p/" + code + "/" == "https://www." + "instagram.com/" + "p" + "/" + code + "/";
    InstagramRoundTrip("https://www.", "reel", code, "/");
    InstagramRoundTrip("https://www.", "p", code, "/");
  }
}
