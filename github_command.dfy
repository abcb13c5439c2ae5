/** The `/github`, `/issue` and `/pull` commands of
    src/commands/githubCommand.ts. The GitHub lookups are parameters:
    `fetch` stands for `getIssueOrPull`, `search` for the first hit of
    `searchIssuesOrPulls`; `getPull` and `relative` are passed on to the
    embed builder. */
module GithubCommand {
  import opened Common
  import IssueEmbed
  import CommandHandler

  const Description := "Link an issue or pull request"

  /** The three names share one description and one option list (lines 20-58). */
  const GithubHandler := CommandHandler.Handler(
    "GithubCommand",
    [CommandHandler.CommandData("github", Description, None),
     CommandHandler.CommandData("issue", Description, None),
     CommandHandler.CommandData("pull", Description, None)],
    false, false, false, None)

  const OptionNames: seq<string> := ["number", "query", "url"]

  // ---- URL_REGEX (line 17) ---------------------------------------------------

  /** The characters `.` does not match in a JavaScript regular expression. */
  predicate IsLineTerminator(c: char)
  {
    c == '\n' || c == '\r' || c == '\U{2028}' || c == '\U{2029}'
  }

  /** The text between the wildcard after "github" and the kind. */
  const RepoPath := "com/SerenityOS/serenity/"

  /** `p` occurs in `s` at `j`, character by character. */
  predicate Spelled(s: string, p: string, j: nat)
  {
    j + |p| <= |s| && forall i :: j <= i < j + |p| ==> s[i] == p[i - j]
  }

  lemma SpelledOccurs(s: string, p: string, j: nat)
    ensures Spelled(s, p, j) <==> OccursAt(s, p, j)
  {
    if j + |p| <= |s| {
      if Spelled(s, p, j) {
        assert s[j..j + |p|] == p;
      }
      if OccursAt(s, p, j) {
        assert forall i :: j <= i < j + |p| ==> s[i] == s[j..j + |p|][i - j];
      }
    }
  }

  /** Where the issue number begins when the address part of the pattern,
      `github.com\/SerenityOS\/serenity\/(?:issues|pull)\/\d`, matches at
      `p`. The dot of "github.com" is unescaped and matches any character
      but a line terminator. */
  function DigitsStart(s: string, p: nat): (d: Option<nat>)
    ensures d.Some? ==> p < d.value < |s| && IsDigit(s[d.value])
    ensures d.Some? ==> OccursAt(s, "github", p)
  {
    var q := p + 7 + |RepoPath|;
    SpelledOccurs(s, "github", p);
    if Spelled(s, "github", p) && p + 6 < |s| && !IsLineTerminator(s[p + 6]) && Spelled(s, RepoPath, p + 7) then
      if Spelled(s, "issues/", q) && q + 7 < |s| && IsDigit(s[q + 7]) then Some(q + 7)
      else if Spelled(s, "pull/", q) && q + 5 < |s| && IsDigit(s[q + 5]) then Some(q + 5)
      else None
    else None
  }

  /** The end of the line that `st` is on. */
  function LineEnd(s: string, st: nat): (e: nat)
    requires st <= |s|
    ensures st <= e <= |s| && (e < |s| ==> IsLineTerminator(s[e]))
    ensures forall i :: st <= i < e ==> !IsLineTerminator(s[i])
    decreases |s| - st
  {
    if st == |s| || IsLineTerminator(s[st]) then st else LineEnd(s, st + 1)
  }

  /** The address part as a matcher over positions of `s`. */
  function Address(s: string): nat -> Option<nat>
  {
    (p: nat) => DigitsStart(s, p)
  }

  lemma AddressReports(s: string)
    ensures Reports(s, Address(s))
  {
    forall p: nat | Address(s)(p).Some?
      ensures Address(s)(p).value < |s| && IsDigit(s[Address(s)(p).value])
    {
      assert Address(s)(p) == DigitsStart(s, p);
    }
  }

  /** A matcher that reports only the start of a number inside `s`. */
  ghost predicate Reports(s: string, address: nat -> Option<nat>)
  {
    forall p :: address(p).Some? ==> address(p).value < |s| && IsDigit(s[address(p).value])
  }

  /** The greedy `.+` backs off one character at a time: the largest
      position in `(lo, hi]` where the address part matches. */
  function LastHit(address: nat -> Option<nat>, lo: nat, hi: nat): (p: Option<nat>)
    ensures p.Some? ==> lo < p.value <= hi && address(p.value).Some?
    ensures p.Some? ==> forall j :: p.value < j <= hi ==> address(j).None?
    ensures p.None? ==> forall j :: lo < j <= hi ==> address(j).None?
    decreases hi
  {
    if hi <= lo then None
    else if address(hi).Some? then Some(hi)
    else LastHit(address, lo, hi - 1)
  }

  /** The capture group when the search starts at `st`: the leftmost start
      at which `.+` can consume at least one character of its line before
      the address part, and for it the last address on the line. `\d+` is
      greedy and `.*` matches whatever follows. */
  function MatchFrom(s: string, address: nat -> Option<nat>, st: nat): (m: Option<string>)
    requires st <= |s| && Reports(s, address)
    ensures m.Some? ==> |m.value| >= 1 && AllDigits(m.value)
    decreases |s| - st
  {
    if st == |s| then None
    else
      match LastHit(address, st, LineEnd(s, st))
      case Some(p) => Some(Capture(s, address(p).value))
      case None => MatchFrom(s, address, st + 1)
  }

  /** `(\d+)` from `d` on. */
  function Capture(s: string, d: nat): (c: string)
    requires d < |s| && IsDigit(s[d])
    ensures |c| >= 1 && AllDigits(c)
  {
    DigitsFromSound(s, d);
    s[d..d + DigitsFrom(s, d)]
  }

  /** `url.match(URL_REGEX)[1]`. */
  function UrlDigits(url: string): (m: Option<string>)
    ensures m.Some? ==> |m.value| >= 1 && AllDigits(m.value)
  {
    MatchFrom(url, Address(url), 0)
  }

  /** An address after `st` with a character of its own line in front of it. */
  predicate HitAfter(s: string, address: nat -> Option<nat>, st: nat)
  {
    exists p :: st < p <= |s| && !IsLineTerminator(s[p - 1]) && address(p).Some?
  }

  /** A match from `st` on exists exactly when some address after `st`
      has a character of its own line in front of it. */
  lemma {:induction false} MatchFromExists(s: string, address: nat -> Option<nat>, st: nat)
    requires st <= |s| && Reports(s, address)
    ensures MatchFrom(s, address, st).Some? <==> HitAfter(s, address, st)
    decreases |s| - st
  {
    if st < |s| {
      var e := LineEnd(s, st);
      match LastHit(address, st, e)
      case Some(p) =>
        assert st <= p - 1 < e;
      case None =>
        MatchFromExists(s, address, st + 1);
        LineMiss(s, address, st);
    }
  }

  /** Without an address on the line of `st`, a hit after `st` is a hit
      after `st + 1`: the one right after `st` would be on that line. */
  lemma LineMiss(s: string, address: nat -> Option<nat>, st: nat)
    requires st < |s| && Reports(s, address) && LastHit(address, st, LineEnd(s, st)).None?
    ensures HitAfter(s, address, st) <==> HitAfter(s, address, st + 1)
  {
    if HitAfter(s, address, st) {
      var p :| st < p <= |s| && !IsLineTerminator(s[p - 1]) && address(p).Some?;
      if p == st + 1 {
        assert false;
      }
    }
  }

  /** `URL_REGEX.test(url)` holds exactly when the address part occurs
      with at least one character of its line before it. */
  lemma UrlMatches(url: string)
    ensures UrlDigits(url).Some? <==> HitAfter(url, Address(url), 0)
  {
    AddressReports(url);
    MatchFromExists(url, Address(url), 0);
  }

  /** The address of an issue or a pull request on the web site, written
      as the parts the address pattern looks at. */
  function Link(kind: string, digits: string): string
  {
    "https://" + "github" + "." + RepoPath + kind + "/" + digits
  }

  /** Only the first letter of "github" is a 'g', and the address text
      has no line terminator. */
  lemma AddressLetters()
    ensures forall j :: 0 < j < 6 ==> "github"[j] != 'g'
    ensures forall j :: 0 <= j < |RepoPath| ==> RepoPath[j] != 'g' && !IsLineTerminator(RepoPath[j])
    ensures forall j :: 0 <= j < 6 ==> !IsLineTerminator("github"[j])
    ensures forall j :: 0 <= j < 8 ==> !IsLineTerminator("https://"[j])
  {
  }

  /** Inside a link only its own "github" starts with 'g'. */
  lemma LinkLetters(kind: string, digits: string)
    requires kind == "issues" || kind == "pull"
    requires AllDigits(digits)
    ensures forall j :: 8 < j < |Link(kind, digits)| ==> Link(kind, digits)[j] != 'g'
    ensures forall j :: 0 <= j < |Link(kind, digits)| ==> !IsLineTerminator(Link(kind, digits)[j])
  {
    AddressLetters();
    assert forall j :: 0 <= j < |kind| ==> kind[j] != 'g' && !IsLineTerminator(kind[j]);
  }

  /** A text occurs where it was put between two others. */
  lemma OccursBetween(a: string, p: string, b: string)
    ensures OccursAt(a + p + b, p, |a|)
  {
    assert (a + p + b)[|a|..|a| + |p|] == p;
  }

  /** Where the parts of a link sit. */
  lemma LinkParts(kind: string, digits: string)
    ensures var l := Link(kind, digits);
            && |l| == 16 + |RepoPath| + |kind| + |digits|
            && OccursAt(l, "github", 8) && l[14] == '.' && OccursAt(l, RepoPath, 15)
            && OccursAt(l, kind, 15 + |RepoPath|) && l[15 + |RepoPath| + |kind|] == '/'
            && l[|l| - |digits|..] == digits
  {
    SevenParts("https://", "github", ".", RepoPath, kind, "/", digits);
  }

  /** Where each of seven joined texts sits in the whole. */
  lemma SevenParts(a: string, b: string, c: string, d: string, e: string, f: string, g: string)
    requires |c| == 1 && |f| == 1
    ensures var l := a + b + c + d + e + f + g;
            && |l| == |a| + |b| + 1 + |d| + |e| + 1 + |g|
            && OccursAt(l, b, |a|) && l[|a| + |b|] == c[0] && OccursAt(l, d, |a| + |b| + 1)
            && OccursAt(l, e, |a| + |b| + 1 + |d|) && l[|a| + |b| + 1 + |d| + |e|] == f[0]
            && l[|l| - |g|..] == g
  {
    var x1 := a + b;
    var x2 := x1 + c;
    var x3 := x2 + d;
    var x4 := x3 + e;
    var x5 := x4 + f;
    OccursAtEnd(a, b);
    OccursInPrefix(x1, c, b, |a|);
    OccursInPrefix(x2, d, b, |a|);
    OccursInPrefix(x3, e, b, |a|);
    OccursInPrefix(x4, f, b, |a|);
    OccursInPrefix(x5, g, b, |a|);
    OccursAtEnd(x2, d);
    OccursInPrefix(x3, e, d, |x2|);
    OccursInPrefix(x4, f, d, |x2|);
    OccursInPrefix(x5, g, d, |x2|);
    OccursAtEnd(x3, e);
    OccursInPrefix(x4, f, e, |x3|);
    OccursInPrefix(x5, g, e, |x3|);
    assert (x5 + g)[|x1|] == x2[|x1|] == c[0];
    assert (x5 + g)[|x4|] == x5[|x4|] == f[0];
    assert (x5 + g)[|x5|..] == g;
  }

  /** A text occurs at the end of what it was appended to. */
  lemma OccursAtEnd(x: string, p: string)
    ensures OccursAt(x + p, p, |x|)
  {
    assert (x + p)[|x|..|x| + |p|] == p;
  }

  /** Appending text keeps an occurrence where it was. */
  lemma OccursInPrefix(x: string, y: string, p: string, j: nat)
    requires OccursAt(x, p, j)
    ensures OccursAt(x + y, p, j)
  {
    assert (x + y)[j..j + |p|] == x[j..j + |p|];
  }

  /** The address part matches at `p` when "github", one more character,
      the repository path and a kind with its slash follow, and a digit
      after them. */
  lemma DigitsStartAt(s: string, p: nat, kind: string)
    requires kind == "issues" || kind == "pull"
    requires OccursAt(s, "github", p) && p + 6 < |s| && !IsLineTerminator(s[p + 6]) && OccursAt(s, RepoPath, p + 7)
    requires OccursAt(s, kind, p + 7 + |RepoPath|) && p + 7 + |RepoPath| + |kind| < |s|
    requires s[p + 7 + |RepoPath| + |kind|] == '/'
    requires p + 7 + |RepoPath| + |kind| + 1 < |s| && IsDigit(s[p + 7 + |RepoPath| + |kind| + 1])
    ensures DigitsStart(s, p) == Some(p + 7 + |RepoPath| + |kind| + 1)
  {
    var q := p + 7 + |RepoPath|;
    assert s[q..q + |kind| + 1] == s[q..q + |kind|] + [s[q + |kind|]];
    assert s[q] == s[q..q + |kind|][0] == kind[0];
    if kind == "pull" {
      assert !OccursAt(s, "issues/", q);
    }
  }

  /** In a link the address part matches at the "github" after the scheme
      and the number starts right after the kind. */
  lemma LinkHit(kind: string, digits: string)
    requires kind == "issues" || kind == "pull"
    requires |digits| >= 1 && AllDigits(digits)
    ensures DigitsStart(Link(kind, digits), 8) == Some(|Link(kind, digits)| - |digits|)
    ensures Link(kind, digits)[|Link(kind, digits)| - |digits|..] == digits
  {
    var l := Link(kind, digits);
    LinkParts(kind, digits);
    assert l[|l| - |digits|] == l[|l| - |digits|..][0] == digits[0];
    DigitsStartAt(l, 8, kind);
  }

  /** The address part looks only at the text from its own position on. */
  lemma DigitsStartShift(before: string, l: string, p: nat)
    ensures DigitsStart(before + l, |before| + p)
            == if DigitsStart(l, p).Some? then Some(|before| + DigitsStart(l, p).value) else None
  {
    var q := p + 7 + |RepoPath|;
    SpelledShift(before, l, "github", p);
    SpelledShift(before, l, RepoPath, p + 7);
    SpelledShift(before, l, "issues/", q);
    SpelledShift(before, l, "pull/", q);
  }

  lemma SpelledShift(a: string, b: string, p: string, j: nat)
    ensures Spelled(a + b, p, |a| + j) <==> Spelled(b, p, j)
  {
    SpelledOccurs(a + b, p, |a| + j);
    SpelledOccurs(b, p, j);
    OccursAtShift(a, b, p, j);
  }

  /** The greedy step on any text shaped like a link: the address part at
      position 8, the number at the end, no other "github" after it. */
  lemma {:induction false} LastLinkWins(before: string, l: string, digits: string)
    requires |digits| >= 1 && AllDigits(digits) && |digits| <= |l| && l[|l| - |digits|..] == digits
    requires DigitsStart(l, 8) == Some(|l| - |digits|)
    requires forall j :: 8 < j < |l| ==> l[j] != 'g'
    requires forall j :: 0 <= j < |l| ==> !IsLineTerminator(l[j])
    requires forall j :: 0 <= j < |before| ==> !IsLineTerminator(before[j])
    ensures UrlDigits(before + l) == Some(digits)
  {
    var s := before + l;
    var p := |before| + 8;
    LinkAddresses(before, l, digits);
    AddressReports(s);
    OneLine(before, l);
    CaptureLast(s, Address(s), p);
    EndCapture(before, l, digits);
  }

  lemma OneLine(before: string, l: string)
    requires forall j :: 0 <= j < |l| ==> !IsLineTerminator(l[j])
    requires forall j :: 0 <= j < |before| ==> !IsLineTerminator(before[j])
    ensures forall j :: 0 <= j < |before + l| ==> !IsLineTerminator((before + l)[j])
  {
  }

  lemma EndCapture(before: string, l: string, digits: string)
    requires |digits| >= 1 && AllDigits(digits) && |digits| <= |l| && l[|l| - |digits|..] == digits
    ensures Capture(before + l, |before + l| - |digits|) == digits
  {
    var s := before + l;
    assert s[|s| - |digits|..] == l[|l| - |digits|..];
    CaptureAtEnd(s, digits);
  }

  /** In a text ending in such a link, the link's own address is the last one. */
  lemma LinkAddresses(before: string, l: string, digits: string)
    requires |digits| <= |l| && DigitsStart(l, 8) == Some(|l| - |digits|)
    requires forall j :: 8 < j < |l| ==> l[j] != 'g'
    ensures var s := before + l;
            && Address(s)(|before| + 8) == Some(|s| - |digits|)
            && forall j :: |before| + 8 < j <= |s| ==> Address(s)(j).None?
  {
    var s := before + l;
    assert forall j :: |before| + 8 < j < |s| ==> s[j] == l[j - |before|];
    DigitsStartShift(before, l, 8);
    NoAddressAfter(s, |before| + 8);
  }

  /** On a one-line text the capture is the number at the last address. */
  lemma CaptureLast(s: string, address: nat -> Option<nat>, p: nat)
    requires Reports(s, address) && forall j :: 0 <= j < |s| ==> !IsLineTerminator(s[j])
    requires 0 < p <= |s| && address(p).Some?
    requires forall j :: p < j <= |s| ==> address(j).None?
    ensures MatchFrom(s, address, 0) == Some(Capture(s, address(p).value))
  {
    LastOnOneLine(s, address, p);
    MatchOnFirstLine(s, address, p);
  }

  /** A match on the first line is read from the last address there. */
  lemma MatchOnFirstLine(s: string, address: nat -> Option<nat>, p: nat)
    requires Reports(s, address) && 0 < |s| && LastHit(address, 0, LineEnd(s, 0)) == Some(p)
    ensures MatchFrom(s, address, 0) == Some(Capture(s, address(p).value))
  {
  }

  /** On a text that is one line, the greedy step picks the last address. */
  lemma LastOnOneLine(s: string, address: nat -> Option<nat>, p: nat)
    requires forall j :: 0 <= j < |s| ==> !IsLineTerminator(s[j])
    requires 0 < p <= |s| && address(p).Some?
    requires forall j :: p < j <= |s| ==> address(j).None?
    ensures LineEnd(s, 0) == |s| && LastHit(address, 0, |s|) == Some(p)
  {
  }

  /** No "github" after `p` means no address after `p`. */
  lemma NoAddressAfter(s: string, p: nat)
    requires forall j :: p < j < |s| ==> s[j] != 'g'
    ensures forall j :: p < j <= |s| ==> DigitsStart(s, j).None?
  {
    forall j | p < j <= |s|
      ensures DigitsStart(s, j).None?
    {
      if j + 6 <= |s| {
        assert s[j..j + 6][0] == s[j];
      }
    }
  }

  /** Digits that run to the end of the text are captured whole. */
  lemma CaptureAtEnd(s: string, digits: string)
    requires |digits| <= |s| && s[|s| - |digits|..] == digits && AllDigits(digits)
    ensures |digits| >= 1 ==> Capture(s, |s| - |digits|) == digits
  {
    var d := |s| - |digits|;
    assert forall j :: d <= j < |s| ==> s[j] == digits[j - d];
    DigitsFromExactly(s, d, |digits|);
  }

  /** A link at the end of a line is recognised and its whole number is
      captured, whatever text on the same line comes before it: the
      greedy `.+` makes the last link on the line win. */
  lemma LinkAtLineEnd(before: string, kind: string, digits: string)
    requires kind == "issues" || kind == "pull"
    requires |digits| >= 1 && AllDigits(digits)
    requires forall j :: 0 <= j < |before| ==> !IsLineTerminator(before[j])
    ensures UrlDigits(before + Link(kind, digits)) == Some(digits)
  {
    LinkLetters(kind, digits);
    LinkHit(kind, digits);
    LastLinkWins(before, Link(kind, digits), digits);
  }

  /** Without a character in front of it (no scheme, nothing before it) a
      lone address is not recognised. */
  lemma BareAddressIgnored(kind: string, digits: string)
    requires kind == "issues" || kind == "pull"
    requires AllDigits(digits)
    ensures UrlDigits("github" + "." + RepoPath + kind + "/" + digits).None?
  {
    var s := "github" + "." + RepoPath + kind + "/" + digits;
    AddressLetters();
    assert forall j :: 0 <= j < |kind| ==> kind[j] != 'g';
    assert forall j :: 0 < j < |s| ==> s[j] != 'g';
    NoAddressAfter(s, 0);
    assert forall p :: 0 < p <= |s| ==> Address(s)(p).None?;
    UrlMatches(s);
  }

  // ---- handleCommand (lines 60-93) -------------------------------------------

  datatype Reply = Embeds(embed: IssueEmbed.Embed) | Ephemeral(content: string)

  /** The embed for the number in the link, when the link matches. */
  function ByUrl(url: Option<string>, fetch: int -> Option<IssueEmbed.Issue>,
                 getPull: nat -> Option<IssueEmbed.Pull>,
                 relative: string -> string): Option<IssueEmbed.Embed>
  {
    if IssueEmbed.Truthy(url) && UrlDigits(url.value).Some? then
      match ParseInt(UrlDigits(url.value).value)
      case Some(n) => IssueEmbed.EmbedFor(fetch(n), getPull, relative)
      case None => None
    else None
  }

  /** The number is tried first, then the link, then the search; the
      first that yields an embed is shown, and when none does the refusal
      is ephemeral. */
  function Handle(number: Option<int>, query: Option<string>, url: Option<string>,
                  fetch: int -> Option<IssueEmbed.Issue>, search: string -> Option<IssueEmbed.Issue>,
                  getPull: nat -> Option<IssueEmbed.Pull>,
                  relative: string -> string, sadcaret: Option<string>): (r: Reply)
    ensures r.Ephemeral? <==>
              (number.None? || fetch(number.value).None?) && ByUrl(url, fetch, getPull, relative).None?
              && (!IssueEmbed.Truthy(query) || search(query.value).None?)
    ensures r.Ephemeral? ==> r.content == IssueEmbed.NoMatchingFound(sadcaret)
  {
    var byNumber := if number.Some? then IssueEmbed.EmbedFor(fetch(number.value), getPull, relative) else None;
    var byUrl := ByUrl(url, fetch, getPull, relative);
    var byQuery := if IssueEmbed.Truthy(query) then IssueEmbed.EmbedFor(search(query.value), getPull, relative) else None;
    if byNumber.Some? then Embeds(byNumber.value)
    else if byUrl.Some? then Embeds(byUrl.value)
    else if byQuery.Some? then Embeds(byQuery.value)
    else Ephemeral(IssueEmbed.NoMatchingFound(sadcaret))
  }

  /** Precedence: a number that is found wins; a link is used only when
      the number is absent or unknown; the query only when both fail; the
      refusal comes exactly when all three fail. Number 0 is looked up
      like any other. */
  lemma Precedence(number: Option<int>, query: Option<string>, url: Option<string>,
                   fetch: int -> Option<IssueEmbed.Issue>, search: string -> Option<IssueEmbed.Issue>,
                   getPull: nat -> Option<IssueEmbed.Pull>,
                   relative: string -> string, sadcaret: Option<string>)
    ensures var r := Handle(number, query, url, fetch, search, getPull, relative, sadcaret);
            && (number.Some? && fetch(number.value).Some? ==>
                  r == Embeds(IssueEmbed.EmbedFor(fetch(number.value), getPull, relative).value))
            && ((number.None? || fetch(number.value).None?) && ByUrl(url, fetch, getPull, relative).Some? ==>
                  r == Embeds(ByUrl(url, fetch, getPull, relative).value))
            && (r.Ephemeral? <==>
                  (number.None? || fetch(number.value).None?) && ByUrl(url, fetch, getPull, relative).None?
                  && (!IssueEmbed.Truthy(query) || search(query.value).None?))
            && (r.Ephemeral? && sadcaret.None? ==> r.content == "No matching issues or pull requests found :^(")
  {
  }

  /** Pasting the link of an item shows that item, whatever precedes the
      link on its line: the captured digits are read back as the number. */
  lemma LinkShowsItem(before: string, kind: string, n: nat, query: Option<string>,
                      fetch: int -> Option<IssueEmbed.Issue>, search: string -> Option<IssueEmbed.Issue>,
                      getPull: nat -> Option<IssueEmbed.Pull>,
                      relative: string -> string, sadcaret: Option<string>)
    requires kind == "issues" || kind == "pull"
    requires forall j :: 0 <= j < |before| ==> !IsLineTerminator(before[j])
    requires fetch(n).Some?
    ensures Handle(None, query, Some(before + Link(kind, NatToDecimal(n))), fetch, search, getPull, relative, sadcaret)
            == Embeds(IssueEmbed.EmbedFor(fetch(n), getPull, relative).value)
  {
    var url := before + Link(kind, NatToDecimal(n));
    LinkAtLineEnd(before, kind, NatToDecimal(n));
    NumberOfLink(url, n, fetch, getPull, relative);
  }

  /** A link whose captured digits spell `n` is looked up as `n`. */
  lemma NumberOfLink(url: string, n: nat, fetch: int -> Option<IssueEmbed.Issue>,
                     getPull: nat -> Option<IssueEmbed.Pull>, relative: string -> string)
    requires UrlDigits(url) == Some(NatToDecimal(n))
    ensures ByUrl(Some(url), fetch, getPull, relative) == IssueEmbed.EmbedFor(fetch(n), getPull, relative)
  {
    var d := NatToDecimal(n);
    ParseIntDigits(d);
    NatToDecimalValue(n);
    assert ParseInt(d) == Some(n);
    assert IssueEmbed.Truthy(Some(url)) by { assert |url| > 0; }
  }
}
