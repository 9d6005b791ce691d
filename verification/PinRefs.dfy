/** Which text the pin tooling reads as a dependency, which it writes, and which ref a pin becomes. */
module PinRefs {
  import opened Basics
  import opened TextLines
  import opened PinDeps
  import opened PinReth
  import opened PinRoundTrip

  // ---- The ref of a pin ----

  const HEX_DIGITS := "0123456789abcdefABCDEF"

  ghost predicate IsCommit(s: string) {
    |s| == 40 && forall c :: c in s ==> c in HEX_DIGITS
  }

  /** The dependency points where the pin says: to its commit if it is given by a commit, and else to its tag. */
  ghost predicate HoldsPin(d: GitDep, pin: Pin) {
    && d.git == pin.repository
    && if IsCommit(pin.reference) then d.kind == Rev && d.value == pin.rev
       else d.kind == Tag && d.value == pin.reference
  }

  lemma HexDigits(c: char)
    ensures IsHex(c) <==> c in HEX_DIGITS
  {
  }

  lemma CommitIsFullSha(s: string)
    ensures IsFullSha(s) <==> IsCommit(s)
  {
    forall c: char ensures IsHex(c) <==> c in HEX_DIGITS {
      HexDigits(c);
    }
  }

  lemma RepinnedHoldsPin(d: GitDep, e: GitDep, pin: Pin)
    ensures e == Repinned(d, pin) <==> HoldsPin(e, pin) && e.name == d.name && e.rest == d.rest
  {
    CommitIsFullSha(pin.reference);
  }

  /** Verification accepts exactly dependencies that all hold the pin, up to the spelling of its repository. */
  lemma VerifyAcceptsIff(deps: seq<GitDep>, pin: Pin, normalize: string -> string)
    ensures Verify(deps, pin, normalize) == Ok(()) <==>
            && deps != []
            && forall d :: d in deps ==>
                 normalize(d.git) == normalize(pin.repository) && HoldsPin(d.(git := pin.repository), pin)
  {
    CommitIsFullSha(pin.reference);
    if deps != [] {
      assert deps[0] in deps;
    }
  }

  // ---- What a rewrite leaves ----

  /** The same crates with the same options in the same order, all holding the pin. */
  ghost predicate AllHoldPin(before: seq<GitDep>, after: seq<GitDep>, pin: Pin) {
    && |after| == |before|
    && forall i :: 0 <= i < |after| ==>
         HoldsPin(after[i], pin) && after[i].name == before[i].name && after[i].rest == before[i].rest
  }

  lemma AllRepinnedHoldPin(before: seq<GitDep>, after: seq<GitDep>, pin: Pin)
    ensures after == AllRepinned(before, pin) <==> AllHoldPin(before, after, pin)
  {
    forall i | 0 <= i < |before| && i < |after|
      ensures after[i] == Repinned(before[i], pin) <==>
              HoldsPin(after[i], pin) && after[i].name == before[i].name && after[i].rest == before[i].rest
    {
      RepinnedHoldsPin(before[i], after[i], pin);
    }
  }

  /** What the tooling promises of a rewrite. */
  ghost predicate IsPinned(text: string, rewritten: string, pin: Pin, normalize: string -> string)
    requires Parse(text).Ok?
  {
    && Parse(rewritten).Ok? && AllHoldPin(Parse(text).value, Parse(rewritten).value, pin)
    && Verify(Parse(rewritten).value, pin, normalize) == Ok(())
    && Rewrite(rewritten, pin, normalize) == Ok(rewritten)
    && KeepsOthers(text, rewritten)
  }

  /** What a pin is written with, and that it can be. */
  ghost predicate CanBeWritten(pin: Pin) {
    IsClean(pin.repository) && IsClean(if IsCommit(pin.reference) then pin.rev else pin.reference)
  }

  /**
   * A rewrite that succeeds leaves every dependency at the pin, by its commit if it is given by a commit and
   * by its tag otherwise, with the same crates, options and other text, so that verifying accepts it and
   * rewriting again does nothing, if and only if what it writes is nonempty and free of quotes and line
   * breaks, and every git line but the last line of the section ends in a line feed.
   */
  lemma RewritePinsIff(text: string, pin: Pin, normalize: string -> string)
    requires Rewrite(text, pin, normalize).Ok?
    ensures IsPinned(text, Rewrite(text, pin, normalize).value, pin, normalize)
       <==> CanBeWritten(pin) && GitLinesEndInNewline(Lines(Section(text)))
  {
    var rewritten := Rewrite(text, pin, normalize).value;
    RewriteIsFaithfulIff(text, pin, normalize);
    CommitIsFullSha(pin.reference);
    if Parse(rewritten).Ok? {
      AllRepinnedHoldPin(Parse(text).value, Parse(rewritten).value, pin);
    }
  }

  // ---- The text of a dependency ----

  ghost function KindWord(kind: Kind): string {
    if kind == Rev then "rev" else "tag"
  }

  /** What may stand between quotes. */
  ghost predicate IsQuotable(v: string) {
    v != "" && '"' !in v
  }

  /** White space at the nine places where the grammar allows it. */
  datatype Gaps = Gaps(
    beforeEquals: string,
    beforeBrace: string,
    beforeGit: string,
    afterGit: string,
    beforeUrl: string,
    afterUrl: string,
    beforeKind: string,
    afterKind: string,
    beforeValue: string)
  {
    ghost predicate AllBlank() {
      && AllSpace(beforeEquals) && AllSpace(beforeBrace) && AllSpace(beforeGit) && AllSpace(afterGit)
      && AllSpace(beforeUrl) && AllSpace(afterUrl) && AllSpace(beforeKind) && AllSpace(afterKind)
      && AllSpace(beforeValue)
    }
  }

  /** The text of a dependency with the given white space. */
  ghost function Spelled(d: GitDep, g: Gaps): string {
    d.name + g.beforeEquals + "=" + g.beforeBrace + "{" + g.beforeGit + "git" + g.afterGit + "=" + g.beforeUrl
    + "\"" + d.git + "\"" + g.afterUrl + "," + g.beforeKind + KindWord(d.kind) + g.afterKind + "="
    + g.beforeValue + "\"" + d.value + "\"" + d.rest
  }

  const SINGLE := Gaps(" ", " ", " ", " ", " ", "", " ", " ", " ")

  // The same text, grouped as the reader takes it.

  ghost function RefPart(kind: Kind, value: string, rest: string, a: string, b: string, c: string): string {
    a + KindWord(kind) + (b + "=" + (c + ("\"" + value + "\"") + rest))
  }

  ghost function UrlPart(git: string, a: string, b: string, ref: string): string {
    a + ("\"" + git + "\"") + (b + "," + ref)
  }

  ghost function OpeningPart(a: string, b: string, c: string, d: string, url: string): string {
    a + "=" + (b + "{" + (c + "git" + (d + "=" + url)))
  }

  ghost function Grouped(d: GitDep, g: Gaps): string {
    var ref := RefPart(d.kind, d.value, d.rest, g.beforeKind, g.afterKind, g.beforeValue);
    var url := UrlPart(d.git, g.beforeUrl, g.afterUrl, ref);
    d.name + OpeningPart(g.beforeEquals, g.beforeBrace, g.beforeGit, g.afterGit, url)
  }

  lemma GroupRef<T>(a: seq<T>, b: seq<T>, c: seq<T>, d: seq<T>, e: seq<T>, q: seq<T>, v: seq<T>, r: seq<T>)
    ensures a + b + (c + d + (e + (q + v + q) + r)) == a + b + c + d + e + q + v + q + r
  {
  }

  lemma GroupOpening<T>(n: seq<T>, a: seq<T>, b: seq<T>, c: seq<T>, d: seq<T>, e: seq<T>, f: seq<T>, g: seq<T>,
                        u: seq<T>)
    ensures n + (a + b + (c + d + (e + f + (g + b + u)))) == (n + a + b + c + d + e + f + g + b) + u
  {
  }

  lemma GroupUrl<T>(h: seq<T>, a: seq<T>, q: seq<T>, v: seq<T>, b: seq<T>, c: seq<T>, r: seq<T>)
    ensures h + (a + (q + v + q) + (b + c + r)) == (h + a + q + v + q + b + c) + r
  {
  }

  lemma GroupEnd<T>(h: seq<T>, a: seq<T>, b: seq<T>, c: seq<T>, d: seq<T>, e: seq<T>, q: seq<T>, v: seq<T>, r: seq<T>)
    ensures h + (a + b + c + d + e + q + v + q + r) == h + a + b + c + d + e + q + v + q + r
  {
  }

  lemma GroupedIsSpelled(d: GitDep, g: Gaps)
    ensures Grouped(d, g) == Spelled(d, g)
  {
    var ref := RefPart(d.kind, d.value, d.rest, g.beforeKind, g.afterKind, g.beforeValue);
    var url := UrlPart(d.git, g.beforeUrl, g.afterUrl, ref);
    var head := d.name + g.beforeEquals + "=" + g.beforeBrace + "{" + g.beforeGit + "git" + g.afterGit + "=";
    GroupOpening(d.name, g.beforeEquals, "=", g.beforeBrace, "{", g.beforeGit, "git", g.afterGit, url);
    GroupUrl(head, g.beforeUrl, "\"", d.git, g.afterUrl, ",", ref);
    GroupRef(g.beforeKind, KindWord(d.kind), g.afterKind, "=", g.beforeValue, "\"", d.value, d.rest);
    GroupEnd(head + g.beforeUrl + "\"" + d.git + "\"" + g.afterUrl + ",", g.beforeKind, KindWord(d.kind),
             g.afterKind, "=", g.beforeValue, "\"", d.value, d.rest);
  }

  /** A dependency is written with single spaces, none of them before the comma. */
  lemma WriteIsSpelled(d: GitDep)
    ensures Write(d) == Spelled(d, SINGLE)
  {
    GroupedIsSpelled(d, SINGLE);
    assert [] + "," == ",";
  }

  /** What a line is made of: its indentation, a text, and a line feed if it had one. */
  ghost predicate IsMadeOf(made: string, line: string, text: string) {
    made == line[..Indent(line)] + text + if line != "" && line[|line| - 1] == '\n' then "\n" else ""
  }

  lemma RewriteLineUnfolds(line: string, pin: Pin, d: GitDep)
    requires Read(Strip(line)) == Some(d)
    ensures IsMadeOf(RewriteLine(line, pin), line, Write(Repinned(d, pin)))
  {
  }

  /** A rewritten line spells the same crate and options at the pin, after the same indentation. */
  lemma RewrittenLineSpells(line: string, pin: Pin, d: GitDep, e: GitDep)
    requires Read(Strip(line)) == Some(d)
    requires HoldsPin(e, pin) && e.name == d.name && e.rest == d.rest
    ensures exists text :: text == Spelled(e, SINGLE) && IsMadeOf(RewriteLine(line, pin), line, text)
  {
    RepinnedHoldsPin(d, e, pin);
    RewriteLineUnfolds(line, pin, d);
    WriteIsSpelled(e);
  }

  /** A line that spells no dependency is left as it is. */
  lemma OtherLineIsKept(line: string, pin: Pin)
    requires Read(Strip(line)).None?
    ensures RewriteLine(line, pin) == line
  {
  }

  // ---- Reading takes any white space ----

  lemma KindReadsAfter(w: string, kind: Kind, t: string)
    requires AllSpace(w)
    ensures ReadKind(w + KindWord(kind) + t) == Some((kind, t))
  {
    TokenReads(w, KindWord(kind), t);
    if kind == Tag {
      assert w + "tag" + t == w + ("tag" + t);
      SkipReads(w, "tag" + t);
      assert ("tag" + t)[0] == 't' && "rev"[0] == 'r';
    }
  }

  lemma RefPartReads(kind: Kind, value: string, rest: string, a: string, b: string, c: string)
    requires AllSpace(a) && AllSpace(b) && AllSpace(c) && IsQuotable(value)
    ensures ReadRef(RefPart(kind, value, rest, a, b, c)) == Some((kind, value, rest))
  {
    var after := c + ("\"" + value + "\"") + rest;
    KindReadsAfter(a, kind, b + "=" + after);
    TokenReads(b, "=", after);
    QuotedReads(c, value, rest);
  }

  lemma UrlPartReads(git: string, a: string, b: string, ref: string)
    requires AllSpace(a) && AllSpace(b) && IsQuotable(git)
    ensures ReadRepository(UrlPart(git, a, b, ref)) == Some((git, ref))
  {
    QuotedReads(a, git, b + "," + ref);
    TokenReads(b, ",", ref);
  }

  lemma TokensReadAfter(a: string, first: string, b: string, second: string, t: string)
    requires AllSpace(a) && AllSpace(b)
    requires first != "" && second != "" && !IsSpace(first[0]) && !IsSpace(second[0])
    ensures ReadTokens(a + first + (b + second + t), first, second) == Some(t)
  {
    TokenReads(a, first, b + second + t);
    TokenReads(b, second, t);
  }

  lemma OpeningPartReads(a: string, b: string, c: string, d: string, url: string)
    requires AllSpace(a) && AllSpace(b) && AllSpace(c) && AllSpace(d)
    ensures ReadOpening(OpeningPart(a, b, c, d, url)) == Some(url)
  {
    var inner := c + "git" + (d + "=" + url);
    var outer := a + "=" + (b + "{" + inner);
    TokensReadAfter(a, "=", b, "{", inner);
    TokensReadAfter(c, "git", d, "=", url);
    OpeningReadsVia(outer, inner, url);
  }

  lemma OpeningReadsVia(s: string, t: string, u: string)
    requires ReadTokens(s, "=", "{") == Some(t) && ReadTokens(t, "git", "=") == Some(u)
    ensures ReadOpening(s) == Some(u)
  {
  }

  lemma OpeningStartsPlainly(a: string, b: string, c: string, d: string, url: string)
    requires AllSpace(a)
    ensures var t := OpeningPart(a, b, c, d, url); t != "" && !IsNameChar(t[0])
  {
    var t := OpeningPart(a, b, c, d, url);
    if a == "" {
      assert t[0] == '=';
    } else {
      assert t[0] == a[0] && a[0] in a;
    }
  }

  lemma GroupedReads(d: GitDep, g: Gaps)
    requires g.AllBlank() && IsRethName(d.name) && IsQuotable(d.git) && IsQuotable(d.value)
    ensures Read(Grouped(d, g)) == Some(d)
  {
    var ref := RefPart(d.kind, d.value, d.rest, g.beforeKind, g.afterKind, g.beforeValue);
    var url := UrlPart(d.git, g.beforeUrl, g.afterUrl, ref);
    OpeningStartsPlainly(g.beforeEquals, g.beforeBrace, g.beforeGit, g.afterGit, url);
    NameReads(d.name, OpeningPart(g.beforeEquals, g.beforeBrace, g.beforeGit, g.afterGit, url));
    OpeningPartReads(g.beforeEquals, g.beforeBrace, g.beforeGit, g.afterGit, url);
    UrlPartReads(d.git, g.beforeUrl, g.afterUrl, ref);
    RefPartReads(d.kind, d.value, d.rest, g.beforeKind, g.afterKind, g.beforeValue);
  }

  // ---- Reading takes nothing else ----

  /** The white space before what is read next. */
  ghost function Blank(s: string): string {
    s[..Indent(s)]
  }

  lemma TokenSplits(s: string, literal: string)
    requires ReadToken(s, literal).Some?
    ensures s == Blank(s) + literal + ReadToken(s, literal).value && AllSpace(Blank(s))
  {
    var t := SkipSpaces(s);
    assert s == Blank(s) + t && t == literal + t[|literal|..];
    Associative(Blank(s), literal, t[|literal|..]);
  }

  lemma QuotedSplits(s: string)
    requires ReadQuoted(s).Some?
    ensures var (v, t) := ReadQuoted(s).value;
            s == Blank(s) + ("\"" + v + "\"") + t && AllSpace(Blank(s)) && IsQuotable(v)
  {
    var t := SkipSpaces(s);
    var n := FirstQuote(t[1..]);
    assert s == Blank(s) + t;
    QuotedParts(t, n);
    Associative(Blank(s), "\"" + t[1..][..n] + "\"", t[n + 2..]);
  }

  lemma QuotedParts(t: string, n: nat)
    requires n + 1 < |t| && t[0] == '"' && t[n + 1] == '"'
    ensures t == "\"" + t[1..][..n] + "\"" + t[n + 2..]
  {
  }

  lemma KindSplits(s: string)
    requires ReadKind(s).Some?
    ensures var (kind, t) := ReadKind(s).value; s == Blank(s) + KindWord(kind) + t && AllSpace(Blank(s))
  {
    if ReadToken(s, "rev").Some? {
      TokenSplits(s, "rev");
    } else {
      TokenSplits(s, "tag");
    }
  }

  lemma RefSplits(s: string) returns (a: string, b: string, c: string)
    requires ReadRef(s).Some?
    ensures AllSpace(a) && AllSpace(b) && AllSpace(c)
    ensures var (kind, value, rest) := ReadRef(s).value; s == RefPart(kind, value, rest, a, b, c) && IsQuotable(value)
  {
    var (kind, t) := ReadKind(s).value;
    var u := ReadToken(t, "=").value;
    a, b, c := Blank(s), Blank(t), Blank(u);
    KindSplits(s);
    TokenSplits(t, "=");
    QuotedSplits(u);
  }

  lemma UrlSplits(s: string) returns (a: string, b: string)
    requires ReadRepository(s).Some?
    ensures AllSpace(a) && AllSpace(b)
    ensures var (git, ref) := ReadRepository(s).value; s == UrlPart(git, a, b, ref) && IsQuotable(git)
  {
    var (git, t) := ReadQuoted(s).value;
    a, b := Blank(s), Blank(t);
    QuotedSplits(s);
    TokenSplits(t, ",");
  }

  lemma TokensSplit(s: string, first: string, second: string) returns (a: string, b: string)
    requires ReadTokens(s, first, second).Some?
    ensures AllSpace(a) && AllSpace(b)
    ensures s == a + first + (b + second + ReadTokens(s, first, second).value)
  {
    var t := ReadToken(s, first).value;
    a, b := Blank(s), Blank(t);
    TokenSplits(s, first);
    TokenSplits(t, second);
  }

  lemma OpeningSplits(s: string) returns (a: string, b: string, c: string, d: string)
    requires ReadOpening(s).Some?
    ensures AllSpace(a) && AllSpace(b) && AllSpace(c) && AllSpace(d)
    ensures s == OpeningPart(a, b, c, d, ReadOpening(s).value)
  {
    a, b := TokensSplit(s, "=", "{");
    c, d := TokensSplit(ReadTokens(s, "=", "{").value, "git", "=");
  }

  lemma ReadIsGrouped(s: string) returns (g: Gaps)
    requires Read(s).Some?
    ensures var d := Read(s).value;
            && g.AllBlank() && s == Grouped(d, g)
            && IsRethName(d.name) && IsQuotable(d.git) && IsQuotable(d.value)
  {
    var (_, t) := ReadName(s).value;
    var u := ReadOpening(t).value;
    var (_, v) := ReadRepository(u).value;
    var a, b, c, d := OpeningSplits(t);
    var e, f := UrlSplits(u);
    var k, l, m := RefSplits(v);
    g := Gaps(a, b, c, d, e, f, k, l, m);
  }

  /**
   * A line is read as a dependency exactly if it spells it: a Reth crate, a repository and a `rev` or `tag` in
   * quotes, with any white space between the parts, and anything after.
   */
  lemma ReadsExactlyWhatIsSpelled(s: string, d: GitDep)
    ensures Read(s) == Some(d) <==>
            && IsRethName(d.name) && IsQuotable(d.git) && IsQuotable(d.value)
            && exists g: Gaps :: g.AllBlank() && s == Spelled(d, g)
  {
    if Read(s) == Some(d) {
      var g := ReadIsGrouped(s);
      GroupedIsSpelled(d, g);
    }
    if IsRethName(d.name) && IsQuotable(d.git) && IsQuotable(d.value)
       && exists g: Gaps :: g.AllBlank() && s == Spelled(d, g)
    {
      var g: Gaps :| g.AllBlank() && s == Spelled(d, g);
      GroupedIsSpelled(d, g);
      GroupedReads(d, g);
    }
  }

  // ---- The words and characters of the grammar ----

  const LOWER := "abcdefghijklmnopqrstuvwxyz"
  const UPPER := "ABCDEFGHIJKLMNOPQRSTUVWXYZ"
  const DIGITS := "0123456789"
  const BREAKS := "\n\r\U{0B}\U{0C}\U{1C}\U{1D}\U{1E}\U{85}\U{2028}\U{2029}"

  lemma Lower(c: char)
    ensures 'a' <= c <= 'z' <==> c in LOWER
  {
  }

  lemma Upper(c: char)
    ensures 'A' <= c <= 'Z' <==> c in UPPER
  {
  }

  lemma Digits(c: char)
    ensures '0' <= c <= '9' <==> c in DIGITS
  {
  }

  lemma NameChars(c: char)
    ensures IsNameChar(c) <==> c in LOWER || c in UPPER || c in DIGITS || c == '-'
  {
    Lower(c);
    Upper(c);
    Digits(c);
  }

  lemma BreakChars(c: char)
    ensures IsBreak(c) <==> c in BREAKS
  {
  }

  const BLANKS := " \t\U{1F}\U{A0}\U{1680}\U{2000}\U{2001}\U{2002}\U{2003}\U{2004}\U{2005}\U{2006}\U{2007}"
                  + "\U{2008}\U{2009}\U{200A}\U{202F}\U{205F}\U{3000}"

  lemma SpaceChars(c: char)
    ensures IsSpace(c) <==> c in BREAKS || c in BLANKS
  {
    BreakChars(c);
  }

  /** Letters, digits and dashes. */
  ghost predicate IsTail(tail: string) {
    tail != "" && forall c :: c in tail ==> c in LOWER || c in UPPER || c in DIGITS || c == '-'
  }

  lemma TailIs(tail: string)
    ensures IsTail(tail) <==> tail != "" && forall c :: c in tail ==> IsNameChar(c)
  {
    forall c: char ensures IsNameChar(c) <==> c in LOWER || c in UPPER || c in DIGITS || c == '-' {
      NameChars(c);
    }
  }

  /** The crate names: `reth` itself, and `reth-` before at least one letter, digit or dash. */
  lemma RethNames(name: string)
    ensures IsRethName(name) <==> name == "reth" || exists tail :: name == "reth-" + tail && IsTail(tail)
  {
    if IsRethName(name) && name != "reth" {
      assert name == "reth-" + name[5..];
      TailIs(name[5..]);
    }
    forall tail | name == "reth-" + tail && IsTail(tail) ensures IsRethName(name) {
      TailIs(tail);
      assert name[..5] == "reth-";
    }
  }

  // ---- Which lines are taken ----

  ghost predicate Has(s: string, part: string) {
    exists before, after :: s == before + part + after
  }

  lemma ContainsHas(s: string, part: string, i: nat)
    requires i <= |s| && part <= s[i..]
    ensures Has(s, part)
  {
    assert s == s[..i] + s[i..] && s[i..] == part + s[i..][|part|..];
    Associative(s[..i], part, s[i..][|part|..]);
  }

  lemma HasContains(before: string, part: string, after: string)
    ensures Contains(before + part + after, part)
  {
    Associative(before, part, after);
    assert (before + (part + after))[|before|..] == part + after;
  }

  lemma ContainsIs(s: string, part: string)
    ensures Contains(s, part) <==> Has(s, part)
  {
    if Contains(s, part) {
      var i :| 0 <= i <= |s| && part <= s[i..];
      ContainsHas(s, part, i);
    }
    if Has(s, part) {
      var before, after :| s == before + part + after;
      HasContains(before, part, after);
    }
  }

  /** The key of a line: what stands before its first equals sign, without the white space around it. */
  ghost predicate IsKey(s: string, key: string) {
    exists before :: before <= s && '=' !in before && (|before| < |s| ==> s[|before|] == '=') && key == Strip(before)
  }

  lemma {:induction false} NoEquals(s: string)
    requires '=' !in s
    ensures BeforeEquals(s) == s
  {
    if s != "" {
      assert s == [s[0]] + s[1..];
      NoEquals(s[1..]);
    }
  }

  lemma KeyIs(s: string, key: string)
    ensures IsKey(s, key) <==> key == Strip(BeforeEquals(s))
  {
    forall before | before <= s && '=' !in before && (|before| < |s| ==> s[|before|] == '=')
      ensures before == BeforeEquals(s)
    {
      if |before| < |s| {
        BeforeEqualsIs(s, |before|);
      } else {
        NoEquals(s);
      }
    }
  }

  /** A line is taken as a dependency exactly if it spells one. */
  lemma TakenIff(line: string, d: GitDep)
    ensures Classify(line) == Dep(d) <==> Read(Strip(line)) == Some(d)
  {
    GitLineIsDep(line);
  }

  ghost predicate IsVersionOnly(s: string) {
    Has(s, "version") && !Has(s, "git")
  }

  lemma VersionOnlyIs(s: string)
    ensures IsVersionOnly(s) <==> IsReleased(s)
  {
    ContainsIs(s, "version");
    ContainsIs(s, "git");
  }

  /**
   * A line is refused exactly if its key names a Reth crate, it is no comment, it spells no dependency, and
   * it is not a mere version, with the word `version` and without the word `git`.
   */
  lemma RefusedIff(line: string, name: string)
    ensures var s := Strip(line);
            Classify(line) == Bad(name) <==>
              IsKey(s, name) && IsRethName(name) && s[0] != '#' && Read(s).None? && !IsVersionOnly(s)
  {
    var s := Strip(line);
    KeyIs(s, name);
    VersionOnlyIs(s);
  }
}
