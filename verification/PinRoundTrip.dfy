/** When rewriting the pins does what it is for, and exactly when it does not. */
module PinRoundTrip {
  import opened Basics
  import opened TextLines
  import opened PinDeps
  import opened PinReth

  // ---- One line ----

  lemma NoBreaksInPart(s: string, n: nat, i: nat, j: nat)
    requires n <= |s| && NoBreaks(s[..n]) && i <= j <= n
    ensures NoBreaks(s[i..j])
  {
    assert s[i..j] == s[..n][i..j];
  }

  /** The terminator of a line is all white space. */
  lemma TailIsSpace(line: string)
    requires IsLine(line)
    ensures forall i :: FirstBreak(line) <= i < |line| ==> IsSpace(line[i])
  {
    FirstBreakOfLine(line);
  }

  lemma MiddleOf<T>(w: seq<T>, s: seq<T>, v: seq<T>)
    ensures (w + s + v)[..|w|] == w && (w + s + v)[|w|..|w| + |s|] == s
    ensures s != [] ==> (w + s + v)[|w| + |s| - 1] == s[|s| - 1]
  {
  }

  /** Stripping a line takes off its terminator, so what is left and the indentation have no breaks. */
  lemma StrippedLine(line: string)
    requires IsLine(line)
    ensures NoBreaks(Strip(line))
    ensures Strip(line) != "" ==> NoBreaks(line[..Indent(line)]) && AllSpace(line[..Indent(line)])
  {
    var w, v := StripSplits(line);
    var s := Strip(line);
    if s != "" {
      MiddleOf(w, s, v);
      TailIsSpace(line);
      var n := FirstBreak(line);
      assert |w| + |s| - 1 < n;
      NoBreaksInPart(line, n, |w|, |w| + |s|);
      NoBreaksInPart(line, n, 0, |w|);
    }
  }

  lemma NameIsPlain(name: string)
    requires IsRethName(name)
    ensures NoBreaks(name) && name[0] == 'r' && !IsSpace(name[0])
  {
    if name != "reth" {
      assert name[..5][0] == 'r';
    }
  }

  lemma RestIsPlain(rest: string, s: string)
    requires IsSuffix(rest, s) && IsStripped(s) && NoBreaks(s)
    ensures NoBreaks(rest) && (rest != "" ==> !IsSpace(rest[|rest| - 1]))
  {
    if rest != "" {
      assert rest[|rest| - 1] == s[|s| - 1];
    }
  }

  lemma NoBreaksAdd(a: string, b: string)
    requires NoBreaks(a) && NoBreaks(b)
    ensures NoBreaks(a + b)
  {
  }

  lemma RefIsPlain(kind: Kind, value: string, rest: string)
    requires NoBreaks(value) && NoBreaks(rest)
    ensures var t := WriteRef(kind, value, rest);
            NoBreaks(t) && t != "" && t[|t| - 1] == if rest == "" then '"' else rest[|rest| - 1]
  {
    NoBreaksAdd("\"" + value + "\"", rest);
  }

  lemma OpeningIsPlain(t: string)
    requires NoBreaks(t) && t != ""
    ensures NoBreaks(WriteOpening(t)) && WriteOpening(t) != ""
    ensures WriteOpening(t)[|WriteOpening(t)| - 1] == t[|t| - 1]
  {
    NoBreaksAdd(" " + "=", t);
    NoBreaksAdd(" " + "git", " " + "=" + t);
  }

  lemma WriteIsPlain(d: GitDep)
    requires NoBreaks(d.name) && d.name != "" && NoBreaks(d.git) && NoBreaks(d.value) && NoBreaks(d.rest)
    ensures Write(d) != "" && NoBreaks(Write(d)) && Write(d)[0] == d.name[0]
    ensures Write(d)[|Write(d)| - 1] == if d.rest == "" then '"' else d.rest[|d.rest| - 1]
  {
    var ref := WriteRef(d.kind, d.value, d.rest);
    RefIsPlain(d.kind, d.value, d.rest);
    NoBreaksAdd(" " + Quote(d.git), "," + ref);
    OpeningIsPlain(WritePin(d));
    NoBreaksAdd(d.name, WriteOpening(WritePin(d)));
  }

  /** A dependency that can stand on a line of its own. */
  ghost predicate IsWritable(d: GitDep) {
    && IsRethName(d.name) && IsClean(d.git) && IsClean(d.value)
    && NoBreaks(d.rest) && (d.rest != "" ==> !IsSpace(d.rest[|d.rest| - 1]))
  }

  lemma ReadIsWritable(s: string)
    requires IsStripped(s) && NoBreaks(s)
    ensures Read(s).Some? ==> IsWritable(Read(s).value)
  {
    ReadFacts(s);
    if Read(s).Some? {
      RestIsPlain(Read(s).value.rest, s);
    }
  }

  ghost predicate IsPlain(t: string) {
    t != "" && IsStripped(t) && NoBreaks(t) && t[0] == 'r'
  }

  lemma WrittenIsPlain(d: GitDep)
    requires IsWritable(d)
    ensures IsPlain(Write(d))
  {
    NameIsPlain(d.name);
    WriteIsPlain(d);
  }

  // ---- One rewritten line ----

  ghost predicate IsCleanPin(pin: Pin) {
    IsClean(pin.repository) && IsClean(CargoRef(pin).1)
  }

  lemma AssembledStrips(w: string, t: string, v: string)
    requires AllSpace(w) && NoBreaks(w) && IsPlain(t) && (v == "" || v == "\n")
    ensures var line := w + t + v;
            && IsLine(line) && Strip(line) == t && line[..Indent(line)] == w
            && (Terminated(line) <==> v != "") && (EndsInNewline(line) <==> v != "") && line[0] != '\n'
  {
    var line := w + t + v;
    StripReads(w, t, v);
    assert line[..|w|] == w;
    NoBreaksAdd(w, t);
    assert line[..|w + t|] == w + t;
    FirstBreakIs(line, |w + t|);
  }

  /** What a rewritten git line looks like, and that rewriting it again does nothing. */
  lemma RewrittenLine(line: string, pin: Pin)
    requires IsLine(line) && IsGitLine(line) && IsCleanPin(pin)
    ensures var rewritten := RewriteLine(line, pin);
            && IsLine(rewritten) && rewritten[0] != '\n'
            && (Terminated(rewritten) <==> EndsInNewline(line)) && (EndsInNewline(rewritten) <==> EndsInNewline(line))
            && Read(Strip(rewritten)) == Some(Repinned(Read(Strip(line)).value, pin))
            && RewriteLine(rewritten, pin) == rewritten
  {
    var s := Strip(line);
    var _, _ := StripSplits(line);
    StrippedLine(line);
    ReadIsWritable(s);
    ReadFacts(s);
    var e := Repinned(Read(s).value, pin);
    WrittenIsPlain(e);
    ReadOfWrite(e);
    AssembledStrips(line[..Indent(line)], Write(e), if EndsInNewline(line) then "\n" else "");
  }

  // ---- Git lines are the lines parsed as dependencies ----

  lemma ContainsInSuffix(s: string, t: string, part: string)
    requires IsSuffix(t, s) && Contains(t, part)
    ensures Contains(s, part)
  {
    var i :| 0 <= i <= |t| && part <= t[i..];
    assert s[|s| - |t| + i..] == t[i..];
  }

  lemma TokenFacts(s: string, literal: string)
    requires ReadToken(s, literal).Some?
    ensures literal <= s[Indent(s)..] && Contains(s, literal)
  {
  }

  lemma OpeningFacts(t: string)
    requires ReadOpening(t).Some?
    ensures Indent(t) < |t| && t[Indent(t)] == '=' && Contains(t, "git")
  {
    TokenFacts(t, "=");
    var v := ReadTokens(t, "=", "{").value;
    TokenFacts(v, "git");
    ContainsInSuffix(t, v, "git");
  }

  lemma BeforeEqualsIs(s: string, n: nat)
    requires n < |s| && s[n] == '=' && '=' !in s[..n]
    ensures BeforeEquals(s) == s[..n]
  {
    var r := BeforeEquals(s);
    forall i | 0 <= i < n ensures s[i] != '=' {
      assert s[i] == s[..n][i];
    }
    forall i | 0 <= i < |r| ensures s[i] != '=' {
      assert s[i] == r[i];
    }
    assert |r| == n;
  }

  lemma NameStrips(name: string, w: string)
    requires IsRethName(name) && AllSpace(w)
    ensures Strip(name + w) == name
  {
    NameIsPlain(name);
    assert name[|name| - 1] in name;
    assert [] + name + w == name + w;
    StripReads([], name, w);
  }

  /** The name before the equals sign is the one the grammar reads. */
  lemma NameBeforeEquals(s: string, name: string, t: string)
    requires IsRethName(name) && s == name + t && Indent(t) < |t| && t[Indent(t)] == '='
    ensures Strip(BeforeEquals(s)) == name
  {
    var w, n := t[..Indent(t)], |name| + Indent(t);
    assert s[..n] == name + w && s[n] == '=';
    assert '=' !in name && '=' !in w;
    BeforeEqualsIs(s, n);
    NameStrips(name, w);
  }

  /** What matches the grammar names a Reth crate and is no released version. */
  lemma ReadNamesReth(s: string)
    ensures Read(s).Some? ==> NamesReth(s) && !IsReleased(s)
  {
    if Read(s).Some? {
      var (name, t) := ReadName(s).value;
      NameIsPlain(name);
      OpeningFacts(t);
      NameBeforeEquals(s, name, t);
      ContainsInSuffix(s, t, "git");
    }
  }

  /** A line that matches the grammar is never passed over and never refused. */
  lemma GitLineIsDep(line: string)
    ensures IsGitLine(line) ==> Classify(line) == Dep(Read(Strip(line)).value)
  {
    ReadNamesReth(Strip(line));
  }

  // ---- All lines ----

  /** Every git line but the last line of the section ends in a line feed. */
  predicate GitLinesEndInNewline(lines: seq<string>) {
    forall i :: 0 <= i < |lines| - 1 && IsGitLine(lines[i]) ==> EndsInNewline(lines[i])
  }

  /** How a line and what replaces it compare. */
  ghost predicate KeepsShape(l: string, n: string) {
    && IsLine(l) && IsLine(n)
    && (EndsInNewline(n) <==> EndsInNewline(l))
    && (n[0] == '[' <==> l[0] == '[')
    && (n == l || (n[0] != '\n' && (Terminated(n) <==> EndsInNewline(n))))
  }

  lemma RewrittenKeepsShape(line: string, pin: Pin)
    requires IsLine(line) && IsCleanPin(pin)
    ensures KeepsShape(line, RewriteLine(line, pin))
  {
    if IsGitLine(line) {
      RewrittenLine(line, pin);
      GitLineStarts(line);
      GitLineStarts(RewriteLine(line, pin));
    }
  }

  /** Lines replaced one by one; all but the last that change end in a line feed. */
  ghost predicate KeepsShapes(lines: seq<string>, news: seq<string>) {
    && |news| == |lines|
    && (forall i :: 0 <= i < |lines| ==> KeepsShape(lines[i], news[i]))
    && (forall i :: 0 <= i < |lines| - 1 ==> news[i] == lines[i] || EndsInNewline(lines[i]))
  }

  lemma RewrittenKeepsShapes(lines: seq<string>, pin: Pin)
    requires (forall l :: l in lines ==> IsLine(l)) && IsCleanPin(pin) && GitLinesEndInNewline(lines)
    ensures KeepsShapes(lines, RewriteLines(lines, pin))
  {
    forall i | 0 <= i < |lines| ensures KeepsShape(lines[i], RewriteLine(lines[i], pin)) {
      RewrittenKeepsShape(lines[i], pin);
    }
  }

  lemma StaysSeparate(l: string, m: string, l': string, m': string)
    requires KeepsShape(l, l') && KeepsShape(m, m') && Separate(l, m) && (l' == l || EndsInNewline(l))
    ensures Separate(l', m')
  {
  }

  lemma {:induction false} StaysWellSplit(lines: seq<string>, news: seq<string>)
    requires WellSplit(lines) && KeepsShapes(lines, news)
    ensures WellSplit(news)
  {
    if lines != [] {
      assert forall i :: 0 <= i < |lines[1..]| ==> lines[1..][i] == lines[i + 1] && news[1..][i] == news[i + 1];
      StaysWellSplit(lines[1..], news[1..]);
      if |lines| > 1 {
        StaysSeparate(lines[0], lines[1], news[0], news[1]);
      }
    }
  }

  ghost function RepinnedClass(c: Class, pin: Pin): Class {
    match c
    case Dep(d) => Dep(Repinned(d, pin))
    case _ => c
  }

  lemma ClassStays(line: string, pin: Pin)
    requires IsLine(line) && IsCleanPin(pin)
    ensures Classify(RewriteLine(line, pin)) == RepinnedClass(Classify(line), pin)
  {
    if IsGitLine(line) {
      RewrittenLine(line, pin);
      GitLineIsDep(line);
      GitLineIsDep(RewriteLine(line, pin));
    }
  }

  ghost function RepinnedClasses(classes: seq<Class>, pin: Pin): seq<Class> {
    Map(c => RepinnedClass(c, pin), classes)
  }

  lemma {:induction false} GatherRepinned(classes: seq<Class>, pin: Pin)
    requires Gather(classes).Ok?
    ensures Gather(RepinnedClasses(classes, pin)) == Ok(AllRepinned(Gather(classes).value, pin))
  {
    if classes == [] {
      assert RepinnedClasses(classes, pin) == [] && AllRepinned([], pin) == [];
    } else {
      var n := |classes| - 1;
      GatherRepinned(classes[..n], pin);
      assert RepinnedClasses(classes, pin)[..n] == RepinnedClasses(classes[..n], pin);
      var deps := Gather(classes[..n]).value;
      if classes[n].Dep? {
        assert AllRepinned(deps + [classes[n].dep], pin) == AllRepinned(deps, pin) + [Repinned(classes[n].dep, pin)];
      }
    }
  }

  lemma RewrittenParses(lines: seq<string>, pin: Pin)
    requires (forall l :: l in lines ==> IsLine(l)) && IsCleanPin(pin) && ParseLines(lines).Ok?
    ensures ParseLines(RewriteLines(lines, pin)) == Ok(AllRepinned(ParseLines(lines).value, pin))
  {
    var classes, rewritten := Classes(lines), Classes(RewriteLines(lines, pin));
    forall i | 0 <= i < |lines| ensures rewritten[i] == RepinnedClass(classes[i], pin) {
      ClassStays(lines[i], pin);
    }
    assert rewritten == RepinnedClasses(classes, pin);
    GatherRepinned(classes, pin);
  }

  lemma {:induction false} WellSplitAreLines(lines: seq<string>)
    requires WellSplit(lines)
    ensures forall l :: l in lines ==> IsLine(l)
  {
    if lines != [] {
      WellSplitAreLines(lines[1..]);
      assert lines == [lines[0]] + lines[1..];
    }
  }

  lemma RewritingTwice(lines: seq<string>, pin: Pin)
    requires (forall l :: l in lines ==> IsLine(l)) && IsCleanPin(pin)
    ensures RewriteLines(RewriteLines(lines, pin), pin) == RewriteLines(lines, pin)
  {
    forall i | 0 <= i < |lines|
      ensures RewriteLine(RewriteLine(lines[i], pin), pin) == RewriteLine(lines[i], pin)
    {
      if IsGitLine(lines[i]) {
        RewrittenLine(lines[i], pin);
      }
    }
  }

  // ---- The section's boundaries ----

  /** No line after the first opens a section. */
  ghost predicate OpensNone(lines: seq<string>) {
    |lines| > 1 ==> !(EndsInNewline(lines[0]) && lines[1] != "" && lines[1][0] == '[') && OpensNone(lines[1..])
  }

  ghost predicate NoBracketAfterNewline(s: string) {
    forall i :: 0 < i < |s| && s[i] == '[' ==> s[i - 1] != '\n'
  }

  lemma LineHasNoBracketAfterNewline(l: string)
    requires IsLine(l)
    ensures NoBracketAfterNewline(l)
  {
    FirstBreakOfLine(l);
    forall i | 0 < i < |l| && l[i] == '[' ensures l[i - 1] != '\n' {
      if i - 1 < FirstBreak(l) {
        assert l[i - 1] in l[..FirstBreak(l)];
      }
    }
  }

  lemma BracketsAdd(l: string, t: string)
    ensures NoBracketAfterNewline(l + t) <==>
              NoBracketAfterNewline(l) && NoBracketAfterNewline(t) && !(EndsInNewline(l) && t != "" && t[0] == '[')
  {
    var s := l + t;
    if NoBracketAfterNewline(s) {
      forall i | 0 < i < |t| && t[i] == '[' ensures t[i - 1] != '\n' {
        assert s[|l| + i] == t[i] && s[|l| + i - 1] == t[i - 1];
      }
      forall i | 0 < i < |l| && l[i] == '[' ensures l[i - 1] != '\n' {
        assert s[i] == l[i] && s[i - 1] == l[i - 1];
      }
      if l != "" && t != "" {
        assert s[|l|] == t[0] && s[|l| - 1] == l[|l| - 1];
      }
    }
  }

  lemma {:induction false} SectionsByLines(lines: seq<string>)
    requires WellSplit(lines)
    ensures NoBracketAfterNewline(Concat(lines)) <==> OpensNone(lines)
  {
    if lines != [] {
      var t := lines[1..];
      SectionsByLines(t);
      LineHasNoBracketAfterNewline(lines[0]);
      BracketsAdd(lines[0], Concat(t));
      if t != [] {
        ConcatStarts(t);
      }
    }
  }

  lemma {:induction false} StaysOpeningNone(lines: seq<string>, news: seq<string>)
    requires KeepsShapes(lines, news) && OpensNone(lines)
    ensures OpensNone(news)
  {
    if |lines| > 1 {
      assert forall i :: 0 <= i < |lines[1..]| ==> lines[1..][i] == lines[i + 1] && news[1..][i] == news[i + 1];
      StaysOpeningNone(lines[1..], news[1..]);
      assert KeepsShape(lines[0], news[0]) && KeepsShape(lines[1], news[1]);
    }
  }

  lemma LineStarts(line: string)
    ensures Strip(line) != "" && Strip(line)[0] == 'r' ==> line != "" && line[0] != '['
  {
    if Indent(line) > 0 {
      assert line[0] in line[..Indent(line)];
    }
  }

  lemma ReadStarts(s: string)
    ensures Read(s).Some? ==> s != "" && s[0] == 'r'
  {
    if ReadName(s).Some? {
      NameIsPlain(ReadName(s).value.0);
    }
  }

  /** A git line starts with white space or with its name. */
  lemma GitLineStarts(line: string)
    ensures IsGitLine(line) ==> line != "" && line[0] != '['
  {
    if IsGitLine(line) {
      ReadStarts(Strip(line));
      LineStarts(line);
    }
  }

  lemma {:induction false} LastLineEnds(lines: seq<string>)
    requires WellSplit(lines) && lines != []
    ensures EndsInNewline(Concat(lines)) <==> EndsInNewline(lines[|lines| - 1])
  {
    var rest := lines[1..];
    if rest == [] {
      assert Concat(lines) == lines[0] + "" == lines[0];
    } else {
      LastLineEnds(rest);
      ConcatStarts(rest);
      var t := Concat(rest);
      assert (lines[0] + t)[|lines[0]| + |t| - 1] == t[|t| - 1];
    }
  }

  // ---- The whole text ----

  lemma FirstLineHolds(header: string, body: string)
    requires header != "" && NoBreaks(header)
    ensures var lines := Lines(header + body);
            && lines != [] && header <= lines[0]
            && (body != "" ==> |lines[0]| > |header| && lines[0][|header|] == body[0])
  {
    var s := header + body;
    if body == "" {
      assert s == header && s[..|s|] == s;
      FirstBreakIs(s, |header|);
    } else {
      LineEndAfter(header, body);
    }
    assert Lines(s)[0] == s[..LineEnd(s)];
  }

  lemma HeaderHasNoBreaks()
    ensures NoBreaks(HEADER)
  {
  }

  /** The header line is not a git line. */
  lemma HeaderLineStays(line: string)
    requires HEADER <= line
    ensures !IsGitLine(line)
  {
    GitLineStarts(line);
    assert line[0] == HEADER[0];
  }

  /** A section body with no line that opens another section. */
  ghost predicate IsBody(body: string) {
    forall i :: 0 <= i < |body| ==> !OpensSection(body, i)
  }

  lemma BodyHasNoBrackets(header: string, body: string)
    requires NoBreaks(header) && header != ""
    ensures NoBracketAfterNewline(header + body) <==> NoBracketAfterNewline(body)
    ensures IsBody(body) <==> NoBracketAfterNewline(body) && (body != "" ==> body[0] != '[')
  {
    BracketsAdd(header, body);
    forall i | 0 < i < |header| && header[i] == '[' ensures header[i - 1] != '\n' {
      assert header[i - 1] in header;
    }
    assert header[|header| - 1] in header;
    if IsBody(body) {
      forall i | 0 < i < |body| && body[i] == '[' ensures body[i - 1] != '\n' {
        assert !OpensSection(body, i);
      }
      if body != "" {
        assert !OpensSection(body, 0);
      }
    }
  }

  lemma ConcatOfFirst(lines: seq<string>, header: string)
    requires lines != [] && header <= lines[0]
    ensures header <= Concat(lines)
    ensures |header| < |lines[0]| ==> |header| < |Concat(lines)| && Concat(lines)[|header|] == lines[0][|header|]
  {
  }

  lemma PrefixSplits<T>(p: seq<T>, s: seq<T>)
    requires p <= s
    ensures s == p + s[|p|..]
  {
  }

  /** The header line is kept, and the rest of the section is split into lines as before. */
  lemma RewrittenStart(body: string, lines: seq<string>, pin: Pin)
    requires lines == Lines(HEADER + body)
    ensures WellSplit(lines) && Concat(lines) == HEADER + body && lines != [] && HEADER <= lines[0]
    ensures RewriteLine(lines[0], pin) == lines[0]
    ensures body != "" ==> |lines[0]| > |HEADER| && lines[0][|HEADER|] == body[0]
  {
    HeaderHasNoBreaks();
    LinesAreWellSplit(HEADER + body);
    FirstLineHolds(HEADER, body);
    HeaderLineStays(lines[0]);
  }

  lemma OnlyHeader(header: string, lines: seq<string>)
    requires WellSplit(lines) && Concat(lines) == header && lines != [] && header <= lines[0]
    ensures lines == [header]
  {
    var rest := lines[1..];
    assert |lines[0]| + |Concat(rest)| == |header|;
    if rest != [] {
      ConcatStarts(rest);
    }
    assert lines[0] == header && lines == [lines[0]];
  }

  /** The rewritten section starts with the header, opens no other section and ends as before. */
  lemma RewrittenBody(body: string, pin: Pin) returns (rewritten: string)
    requires IsBody(body) && IsCleanPin(pin) && GitLinesEndInNewline(Lines(HEADER + body))
    ensures var news := RewriteLines(Lines(HEADER + body), pin);
            Concat(news) == HEADER + rewritten && Lines(HEADER + rewritten) == news
    ensures IsBody(rewritten) && (body == "" ==> rewritten == "") && (EndsInNewline(body) ==> EndsInNewline(rewritten))
  {
    var lines := Lines(HEADER + body);
    var news := RewriteLines(lines, pin);
    RewrittenStart(body, lines, pin);
    WellSplitAreLines(lines);
    RewrittenKeepsShapes(lines, pin);
    StaysWellSplit(lines, news);
    LinesOfConcat(news);
    HeaderHasNoBreaks();
    rewritten := ReplacedBody(HEADER, body, lines, news);
  }

  /** Replacing lines after the header by lines of the same shape gives another section body. */
  lemma ReplacedBody(header: string, body: string, lines: seq<string>, news: seq<string>) returns (rewritten: string)
    requires NoBreaks(header) && header != "" && IsBody(body)
    requires WellSplit(lines) && Concat(lines) == header + body && WellSplit(news) && KeepsShapes(lines, news)
    requires lines != [] && header <= lines[0] && news[0] == lines[0]
    requires body != "" ==> |lines[0]| > |header| && lines[0][|header|] == body[0]
    ensures Concat(news) == header + rewritten
    ensures IsBody(rewritten) && (body == "" ==> rewritten == "") && (EndsInNewline(body) ==> EndsInNewline(rewritten))
  {
    ConcatOfFirst(news, header);
    rewritten := Concat(news)[|header|..];
    PrefixSplits(header, Concat(news));
    if body == "" {
      assert header + body == header;
      OnlyHeader(header, lines);
      assert news == lines;
    }
    ReplacedBodyIsBody(header, body, rewritten, lines, news);
    ReplacedBodyEnds(header, body, rewritten, lines, news);
  }

  lemma ReplacedBodyIsBody(header: string, body: string, rewritten: string, lines: seq<string>, news: seq<string>)
    requires NoBreaks(header) && header != "" && IsBody(body) && (body == "" ==> rewritten == "")
    requires WellSplit(lines) && Concat(lines) == header + body && WellSplit(news) && KeepsShapes(lines, news)
    requires lines != [] && header <= lines[0] && news[0] == lines[0] && Concat(news) == header + rewritten
    requires body != "" ==> |lines[0]| > |header| && lines[0][|header|] == body[0]
    ensures IsBody(rewritten)
  {
    BodyHasNoBrackets(header, body);
    SectionsByLines(lines);
    StaysOpeningNone(lines, news);
    SectionsByLines(news);
    BodyHasNoBrackets(header, rewritten);
    ConcatOfFirst(news, header);
  }

  lemma ReplacedBodyEnds(header: string, body: string, rewritten: string, lines: seq<string>, news: seq<string>)
    requires NoBreaks(header) && header != ""
    requires WellSplit(lines) && Concat(lines) == header + body && WellSplit(news) && KeepsShapes(lines, news)
    requires lines != [] && Concat(news) == header + rewritten
    ensures EndsInNewline(body) ==> EndsInNewline(rewritten)
  {
    LastLineEnds(lines);
    LastLineEnds(news);
    assert KeepsShape(lines[|lines| - 1], news[|news| - 1]);
    assert header[|header| - 1] in header;
  }

  lemma SameBeforeHeader(before: string, header: string, rest: string, rest': string, i: nat)
    requires i < |before|
    ensures StandsAt(before + header + rest, header, i) <==> StandsAt(before + header + rest', header, i)
  {
    var s, t := before + header + rest, before + header + rest';
    var both := before + header;
    assert s[..|both|] == both && t[..|both|] == both;
    assert s[i..i + |header|] == both[i..i + |header|] && t[i..i + |header|] == both[i..i + |header|];
  }

  lemma NewCut(text: string, header: string, before: string, body: string, after: string, body': string)
    requires IsCut(text, header, before, body, after)
    requires IsBody(body') && (body == "" ==> body' == "") && (EndsInNewline(body) ==> EndsInNewline(body'))
    ensures IsCut(before + header + body' + after, header, before, body', after)
  {
    var rewritten := before + header + body' + after;
    assert text == before + header + (body + after) && rewritten == before + header + (body' + after);
    forall i | 0 <= i < |before| ensures !StandsAt(rewritten, header, i) {
      SameBeforeHeader(before, header, body + after, body' + after, i);
    }
  }

  /** All text but the git lines of the section is where it was and as it was. */
  ghost predicate KeepsOthers(text: string, rewritten: string)
    requires Span(text).Some?
  {
    && Span(rewritten).Some?
    && var (start, end) := Span(text).value;
       var (start', end') := Span(rewritten).value;
       && start' == start && rewritten[..start] == text[..start] && rewritten[end'..] == text[end..]
       && KeepsLines(Lines(Section(text)), Lines(Section(rewritten)))
  }

  ghost predicate KeepsLines(lines: seq<string>, news: seq<string>) {
    |news| == |lines| && forall i :: 0 <= i < |lines| && !IsGitLine(lines[i]) ==> news[i] == lines[i]
  }

  /** What rewriting is for. */
  ghost predicate IsFaithful(text: string, rewritten: string, pin: Pin, normalize: string -> string)
    requires Parse(text).Ok?
  {
    && Parse(rewritten) == Ok(AllRepinned(Parse(text).value, pin))
    && Verify(Parse(rewritten).value, pin, normalize) == Ok(())
    && Rewrite(rewritten, pin, normalize) == Ok(rewritten)
    && KeepsOthers(text, rewritten)
  }

  lemma SectionOfCut(text: string, before: string, body: string, after: string)
    requires IsCut(text, HEADER, before, body, after)
    ensures Span(text) == Some((|before|, |before| + |HEADER| + |body|))
    ensures Section(text) == HEADER + body && text[..|before|] == before
    ensures text[|before| + |HEADER| + |body|..] == after
  {
    CutIsSpan(text, HEADER, before, body, after);
    Slices(before, HEADER, body, after);
  }

  lemma RepinnedVerifies(deps: seq<GitDep>, pin: Pin, normalize: string -> string)
    requires deps != []
    ensures Uniform(AllRepinned(deps, pin), normalize) && Verify(AllRepinned(deps, pin), pin, normalize) == Ok(())
  {
  }

  /** The rewritten text, by its parts. */
  lemma RewrittenParts(text: string, pin: Pin, normalize: string -> string)
    returns (before: string, body: string, after: string)
    requires Rewrite(text, pin, normalize).Ok?
    ensures IsCut(text, HEADER, before, body, after) && Section(text) == HEADER + body
    ensures Rewrite(text, pin, normalize).value == before + Concat(RewriteLines(Lines(HEADER + body), pin)) + after
  {
    before, body, after := SpanCuts(text, HEADER);
    SectionOfCut(text, before, body, after);
  }

  /** The same text around a section whose lines are the rewritten ones. */
  ghost predicate IsRewritten(text: string, rewritten: string, pin: Pin)
    requires Span(text).Some?
  {
    && Span(rewritten).Some?
    && var (start, end) := Span(text).value;
       var (start', end') := Span(rewritten).value;
       && start' == start && rewritten[..start] == text[..start] && rewritten[end'..] == text[end..]
       && Section(rewritten) == Concat(RewriteLines(Lines(Section(text)), pin))
       && Lines(Section(rewritten)) == RewriteLines(Lines(Section(text)), pin)
  }

  lemma Reassociate<T>(a: seq<T>, b: seq<T>, c: seq<T>, d: seq<T>)
    ensures a + (b + c) + d == a + b + c + d
  {
  }

  lemma PartsAreRewritten(text: string, rewritten: string, before: string, body: string, body': string, after: string,
                          pin: Pin)
    requires IsCut(text, HEADER, before, body, after) && IsCut(rewritten, HEADER, before, body', after)
    requires Concat(RewriteLines(Lines(HEADER + body), pin)) == HEADER + body'
    requires Lines(HEADER + body') == RewriteLines(Lines(HEADER + body), pin)
    ensures Span(text).Some? && IsRewritten(text, rewritten, pin)
  {
    SectionOfCut(text, before, body, after);
    SectionOfCut(rewritten, before, body', after);
  }

  lemma CleanRewrite(text: string, pin: Pin, normalize: string -> string)
    requires Rewrite(text, pin, normalize).Ok?
    requires IsCleanPin(pin) && GitLinesEndInNewline(Lines(Section(text)))
    ensures IsRewritten(text, Rewrite(text, pin, normalize).value, pin)
  {
    var before, body, after := RewrittenParts(text, pin, normalize);
    var body' := RewrittenBody(body, pin);
    var rewritten := before + HEADER + body' + after;
    NewCut(text, HEADER, before, body, after, body');
    PartsAreRewritten(text, rewritten, before, body, body', after, pin);
    Reassociate(before, HEADER, body', after);
  }

  lemma SectionAreLines(text: string)
    requires Span(text).Some?
    ensures forall l :: l in Lines(Section(text)) ==> IsLine(l)
  {
    LinesAreWellSplit(Section(text));
    WellSplitAreLines(Lines(Section(text)));
  }

  lemma RewrittenParsesBack(text: string, rewritten: string, pin: Pin)
    requires Parse(text).Ok? && IsCleanPin(pin)
    ensures IsRewritten(text, rewritten, pin) ==> Parse(rewritten) == Ok(AllRepinned(Parse(text).value, pin))
  {
    SectionAreLines(text);
    RewrittenParses(Lines(Section(text)), pin);
  }

  lemma ThreeSlices<T>(s: seq<T>, i: nat, j: nat)
    requires i <= j <= |s|
    ensures s[..i] + s[i..j] + s[j..] == s
  {
  }

  lemma RewriteIsIdentity(text: string, pin: Pin, normalize: string -> string)
    requires Parse(text).Ok? && Uniform(Parse(text).value, normalize)
    ensures RewriteLines(Lines(Section(text)), pin) == Lines(Section(text)) ==>
              Rewrite(text, pin, normalize) == Ok(text)
  {
    if RewriteLines(Lines(Section(text)), pin) == Lines(Section(text)) {
      LinesAreWellSplit(Section(text));
      ThreeSlices(text, Span(text).value.0, Span(text).value.1);
    }
  }

  lemma RewrittenRewrites(text: string, rewritten: string, pin: Pin, normalize: string -> string)
    requires Parse(text).Ok? && IsCleanPin(pin)
    ensures IsRewritten(text, rewritten, pin) ==> Rewrite(rewritten, pin, normalize) == Ok(rewritten)
  {
    if IsRewritten(text, rewritten, pin) {
      RewrittenParsesBack(text, rewritten, pin);
      RepinnedVerifies(Parse(text).value, pin, normalize);
      SectionAreLines(text);
      RewritingTwice(Lines(Section(text)), pin);
      RewriteIsIdentity(rewritten, pin, normalize);
    }
  }

  lemma RewrittenKeeps(text: string, rewritten: string, pin: Pin)
    requires Span(text).Some?
    ensures IsRewritten(text, rewritten, pin) ==> KeepsOthers(text, rewritten)
  {
  }

  lemma CleanRewriteIsFaithful(text: string, pin: Pin, normalize: string -> string)
    requires Rewrite(text, pin, normalize).Ok?
    requires IsCleanPin(pin) && GitLinesEndInNewline(Lines(Section(text)))
    ensures IsFaithful(text, Rewrite(text, pin, normalize).value, pin, normalize)
  {
    var rewritten := Rewrite(text, pin, normalize).value;
    CleanRewrite(text, pin, normalize);
    RewrittenParsesBack(text, rewritten, pin);
    RepinnedVerifies(Parse(text).value, pin, normalize);
    RewrittenRewrites(text, rewritten, pin, normalize);
    RewrittenKeeps(text, rewritten, pin);
  }

  // ---- Only then ----

  lemma {:induction false} GatheredFrom(classes: seq<Class>, d: GitDep)
    requires Gather(classes).Ok? && d in Gather(classes).value
    ensures Dep(d) in classes
  {
    var n := |classes| - 1;
    if classes[n] != Dep(d) {
      GatheredFrom(classes[..n], d);
    }
  }

  /** Whatever is parsed has a nonempty repository and ref without quotes or line breaks. */
  lemma ParsedIsClean(text: string, d: GitDep)
    requires Parse(text).Ok? && d in Parse(text).value
    ensures IsClean(d.git) && IsClean(d.value)
  {
    var lines := Lines(Section(text));
    GatheredFrom(Classes(lines), d);
    var i :| 0 <= i < |lines| && Classes(lines)[i] == Dep(d);
    assert Classify(lines[i]) == Dep(d);
    SectionAreLines(text);
    StrippedLine(lines[i]);
    ReadFacts(Strip(lines[i]));
  }

  lemma FaithfulIsClean(text: string, rewritten: string, pin: Pin)
    requires Parse(text).Ok? && Parse(rewritten) == Ok(AllRepinned(Parse(text).value, pin))
    ensures IsCleanPin(pin)
  {
    var d := AllRepinned(Parse(text).value, pin)[0];
    ParsedIsClean(rewritten, d);
  }

  lemma RewrittenAreLines(lines: seq<string>, pin: Pin)
    requires (forall l :: l in lines ==> IsLine(l)) && IsCleanPin(pin)
    ensures forall i :: 0 <= i < |lines| ==> IsLine(RewriteLines(lines, pin)[i])
  {
    forall i | 0 <= i < |lines| ensures IsLine(RewriteLines(lines, pin)[i]) {
      RewrittenKeepsShape(lines[i], pin);
    }
  }

  /** A git line in the middle that does not end in a line feed loses its terminator and a line is lost. */
  lemma UnterminatedLosesALine(lines: seq<string>, pin: Pin)
    requires (forall l :: l in lines ==> IsLine(l)) && IsCleanPin(pin) && !GitLinesEndInNewline(lines)
    ensures |Lines(Concat(RewriteLines(lines, pin)))| < |lines|
  {
    var k :| 0 <= k < |lines| - 1 && IsGitLine(lines[k]) && !EndsInNewline(lines[k]);
    RewrittenLine(lines[k], pin);
    RewrittenAreLines(lines, pin);
    FewerLines(RewriteLines(lines, pin), k);
  }

  lemma SectionOfRewritten(text: string, pin: Pin, normalize: string -> string)
    requires Rewrite(text, pin, normalize).Ok?
    requires KeepsOthers(text, Rewrite(text, pin, normalize).value)
    ensures Section(Rewrite(text, pin, normalize).value) == Concat(RewriteLines(Lines(Section(text)), pin))
  {
    var rewritten := Rewrite(text, pin, normalize).value;
    var (start, end) := Span(text).value;
    var (_, end') := Span(rewritten).value;
    var section := Concat(RewriteLines(Lines(Section(text)), pin));
    assert rewritten == text[..start] + section + text[end..];
    assert |rewritten[end'..]| == |text[end..]|;
    MiddleIs(text[..start], section, text[end..], end');
  }

  lemma MiddleIs(before: string, middle: string, after: string, end: nat)
    requires |before| <= end <= |before + middle + after| && |(before + middle + after)[end..]| == |after|
    ensures (before + middle + after)[|before|..end] == middle
  {
  }

  /**
   * A rewrite that succeeds parses back to the same crates and options at the pin, verifies, is idempotent
   * and leaves all other text alone, if and only if the pin's repository and ref are nonempty and free of
   * quotes and line breaks, and every git line but the last line of the section ends in a line feed.
   */
  lemma RewriteIsFaithfulIff(text: string, pin: Pin, normalize: string -> string)
    requires Rewrite(text, pin, normalize).Ok?
    ensures IsFaithful(text, Rewrite(text, pin, normalize).value, pin, normalize)
       <==> IsCleanPin(pin) && GitLinesEndInNewline(Lines(Section(text)))
  {
    var rewritten := Rewrite(text, pin, normalize).value;
    if IsFaithful(text, rewritten, pin, normalize) {
      FaithfulIsClean(text, rewritten, pin);
      SectionAreLines(text);
      SectionOfRewritten(text, pin, normalize);
      if !GitLinesEndInNewline(Lines(Section(text))) {
        UnterminatedLosesALine(Lines(Section(text)), pin);
      }
    }
    if IsCleanPin(pin) && GitLinesEndInNewline(Lines(Section(text))) {
      CleanRewriteIsFaithful(text, pin, normalize);
    }
  }

  // ---- An input on which it fails ----

  /** A body whose only dependency line ends in a form feed. */
  ghost function FormFeedBody(written: string): string {
    "\n" + ((written + "\U{0C}") + "\n")
  }

  ghost function FormFeedLines(header: string, written: string): seq<string> {
    [header + "\n", written + "\U{0C}", "\n"]
  }

  lemma PlainThenBreak(s: string, c: char)
    requires NoBreaks(s) && IsBreak(c)
    ensures IsLine(s + [c]) && Terminated(s + [c])
  {
    assert (s + [c])[..|s|] == s;
    FirstBreakIs(s + [c], |s|);
  }

  lemma ThreeLines(a: string, b: string, c: string)
    requires IsLine(a) && IsLine(b) && IsLine(c) && Separate(a, b) && Separate(b, c)
    ensures Lines(a + (b + c)) == [a, b, c]
  {
    LastLineReads(c);
    LineReads(b, c);
    LineReads(a, b + c);
  }

  lemma FormFeedSplits(header: string, written: string)
    requires NoBreaks(header) && IsPlain(written)
    ensures Lines(header + FormFeedBody(written)) == FormFeedLines(header, written)
  {
    PlainThenBreak(header, '\n');
    PlainThenBreak(written, '\U{0C}');
    assert [] + "\n" == "\n";
    PlainThenBreak([], '\n');
    ThreeLines(header + "\n", written + "\U{0C}", "\n");
    Associative(header, "\n", (written + "\U{0C}") + "\n");
  }

  lemma FormFeedBodyIsBody(written: string)
    requires IsPlain(written)
    ensures IsBody(FormFeedBody(written))
  {
    var body := FormFeedBody(written);
    forall i | 0 <= i < |body| ensures !OpensSection(body, i) {
      if 1 < i <= |written| {
        assert body[i - 1] == written[i - 2] && written[i - 2] in written;
      }
    }
  }

  lemma StripStarts(s: string)
    requires s != "" && !IsSpace(s[0])
    ensures Strip(s) != "" && Strip(s)[0] == s[0]
  {
    IndentIs(s, 0);
    assert s[0..] == s;
    SpaceAt(s, Trimmed(s), |s|);
  }

  lemma BracketIsNoName(s: string)
    requires s != "" && s[0] == '['
    ensures !IsRethName(Strip(BeforeEquals(s)))
  {
    var before := BeforeEquals(s);
    assert before != "" && before[0] == s[0];
    StripStarts(before);
    if IsRethName(Strip(before)) {
      NameIsPlain(Strip(before));
    }
  }

  lemma BracketIsSkipped(line: string)
    requires line != "" && line[0] == '['
    ensures Classify(line) == Skipped
  {
    StripStarts(line);
    BracketIsNoName(Strip(line));
  }

  lemma BlankIsSkipped()
    ensures Classify("\n") == Skipped
  {
    assert Strip("\n") == "";
  }

  lemma FormFeedIsDep(d: GitDep)
    requires IsWritable(d)
    ensures var line := Write(d) + "\U{0C}";
            IsGitLine(line) && Classify(line) == Dep(d)
  {
    var line := Write(d) + "\U{0C}";
    WrittenIsPlain(d);
    assert [] + Write(d) + "\U{0C}" == line;
    StripReads([], Write(d), "\U{0C}");
    ReadOfWrite(d);
    GitLineIsDep(line);
  }

  lemma HeaderFirst(header: string, body: string)
    requires IsBody(body)
    ensures IsCut(header + body, header, [], body, [])
  {
    assert header + body == [] + header + body + [];
  }

  lemma FormFeedParses(d: GitDep)
    requires IsWritable(d)
    ensures var text := HEADER + FormFeedBody(Write(d));
            && Parse(text) == Ok([d])
            && Lines(Section(text)) == FormFeedLines(HEADER, Write(d))
  {
    var body := FormFeedBody(Write(d));
    var text := HEADER + body;
    WrittenIsPlain(d);
    HeaderHasNoBreaks();
    FormFeedBodyIsBody(Write(d));
    HeaderFirst(HEADER, body);
    SectionOfCut(text, [], body, []);
    FormFeedSplits(HEADER, Write(d));
    FormFeedGathers(d);
  }

  lemma GatherOne(d: GitDep)
    ensures Gather([Skipped, Dep(d), Skipped]) == Ok([d])
  {
    var one, two, three := [Skipped], [Skipped, Dep(d)], [Skipped, Dep(d), Skipped];
    assert one[..|one| - 1] == [] && two[..|two| - 1] == one && three[..|three| - 1] == two;
    assert Gather(one) == Ok([]);
    assert Gather(two) == Ok([] + [d]) && [] + [d] == [d];
  }

  lemma FormFeedGathers(d: GitDep)
    requires IsWritable(d)
    ensures ParseLines(FormFeedLines(HEADER, Write(d))) == Ok([d])
  {
    var lines := FormFeedLines(HEADER, Write(d));
    BracketIsSkipped(lines[0]);
    FormFeedIsDep(d);
    BlankIsSkipped();
    MapOfThree(Classify, lines[0], lines[1], lines[2]);
    GatherOne(d);
  }

  lemma MapOfThree<A, B>(f: A -> B, a: A, b: A, c: A)
    ensures Map(f, [a, b, c]) == [f(a), f(b), f(c)]
  {
  }

  lemma UnterminatedIsNotFaithful(text: string, d: GitDep, pin: Pin, normalize: string -> string)
    requires Parse(text) == Ok([d])
    ensures var lines := Lines(Section(text));
            |lines| == 3 && IsGitLine(lines[1]) && !EndsInNewline(lines[1]) ==>
              && Rewrite(text, pin, normalize).Ok?
              && !IsFaithful(text, Rewrite(text, pin, normalize).value, pin, normalize)
  {
    OneDepRewrites(text, d, pin, normalize);
    RewriteIsFaithfulIff(text, pin, normalize);
    SecondLineUnterminated(Lines(Section(text)));
  }

  lemma OneDepRewrites(text: string, d: GitDep, pin: Pin, normalize: string -> string)
    requires Parse(text) == Ok([d])
    ensures Rewrite(text, pin, normalize).Ok?
  {
    UniformOne(d, normalize);
  }

  lemma UniformOne(d: GitDep, normalize: string -> string)
    ensures Uniform([d], normalize)
  {
  }

  lemma SecondLineUnterminated(lines: seq<string>)
    ensures |lines| == 3 && IsGitLine(lines[1]) && !EndsInNewline(lines[1]) ==> !GitLinesEndInNewline(lines)
  {
  }

  /** Whatever the dependency and the pin, a git line that ends in a form feed is not rewritten faithfully. */
  lemma FormFeedIsNotFaithful(d: GitDep, pin: Pin, normalize: string -> string, text: string)
    requires IsWritable(d) && text == HEADER + FormFeedBody(Write(d))
    ensures Rewrite(text, pin, normalize).Ok?
    ensures !IsFaithful(text, Rewrite(text, pin, normalize).value, pin, normalize)
  {
    FormFeedParses(d);
    FormFeedIsDep(d);
    UnterminatedIsNotFaithful(text, d, pin, normalize);
  }
}
