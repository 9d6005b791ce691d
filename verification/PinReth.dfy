/** Reading, rewriting and verifying the git pins of the Reth crates in a workspace `Cargo.toml`. */
module PinReth {
  import opened Basics
  import opened TextLines
  import opened PinDeps

  datatype Error = MissingSection | NotAPin(name: string) | NoGitDeps | MixedPins | WrongRepository | WrongRef

  datatype Pin = Pin(repository: string, reference: string, rev: string)

  predicate IsHex(c: char) {
    '0' <= c <= '9' || 'a' <= c <= 'f' || 'A' <= c <= 'F'
  }

  predicate IsFullSha(s: string) {
    |s| == 40 && forall c :: c in s ==> IsHex(c)
  }

  /** A pin whose reference is a full SHA is written as its revision, any other as a tag. */
  function CargoRef(pin: Pin): (Kind, string) {
    if IsFullSha(pin.reference) then (Rev, pin.rev) else (Tag, pin.reference)
  }

  /** A dependency moved to the pin: same name, same trailing options. */
  function Repinned(d: GitDep, pin: Pin): GitDep {
    d.(git := pin.repository, kind := CargoRef(pin).0, value := CargoRef(pin).1)
  }

  function AllRepinned(deps: seq<GitDep>, pin: Pin): seq<GitDep> {
    Map(d => Repinned(d, pin), deps)
  }

  // ---- The section ----

  const HEADER := "[workspace.dependencies]"

  predicate StandsAt(text: string, header: string, i: nat) {
    i + |header| <= |text| && text[i..i + |header|] == header
  }

  /** The first place where a header stands. */
  function Find(text: string, header: string, from: nat): (r: Option<nat>)
    requires from <= |text|
    ensures r.Some? ==> from <= r.value && StandsAt(text, header, r.value)
    ensures forall i :: from <= i < (if r.Some? then r.value else |text|) ==> !StandsAt(text, header, i)
    decreases |text| - from
  {
    if StandsAt(text, header, from) then Some(from)
    else if from == |text| then None
    else Find(text, header, from + 1)
  }

  /** Whether a bracket opens a line here; only a line feed starts a line for the pattern. */
  predicate OpensSection(s: string, i: nat)
    requires i < |s|
  {
    s[i] == '[' && (i == 0 || s[i - 1] == '\n')
  }

  function NextSection(s: string, from: nat): (r: nat)
    requires from <= |s|
    ensures from <= r <= |s| && (r < |s| ==> OpensSection(s, r))
    ensures forall i :: from <= i < r ==> !OpensSection(s, i)
    decreases |s| - from
  {
    if from == |s| || OpensSection(s, from) then from else NextSection(s, from + 1)
  }

  /** The section with a header, from the header to the next section or the end of the text. */
  function SpanOf(text: string, header: string): (r: Option<(nat, nat)>)
    ensures r.Some? ==> r.value.0 + |header| <= r.value.1 <= |text|
  {
    match Find(text, header, 0)
    case None => None
    case Some(start) =>
      var after := start + |header|;
      Some((start, after + NextSection(text[after..], 0)))
  }

  /** A text cut at its section: before it, the section after its header, and what follows. */
  ghost predicate IsCut(text: string, header: string, before: string, body: string, after: string) {
    && text == before + header + body + after
    && (forall i :: 0 <= i < |before| ==> !StandsAt(text, header, i))
    && (forall i :: 0 <= i < |body| ==> !OpensSection(body, i))
    && (after != "" ==> after[0] == '[' && (body == "" || body[|body| - 1] == '\n'))
  }

  lemma CutTwice<T>(s: seq<T>, i: nat, j: nat, k: nat)
    requires i <= j <= k <= |s|
    ensures s == s[..i] + s[i..j] + s[j..k] + s[k..] && s[j..] == s[j..k] + s[k..]
  {
  }

  lemma SpanCuts(text: string, header: string) returns (before: string, body: string, after: string)
    requires SpanOf(text, header).Some?
    ensures IsCut(text, header, before, body, after)
    ensures SpanOf(text, header) == Some((|before|, |before| + |header| + |body|))
  {
    var (start, end) := SpanOf(text, header).value;
    var rest := text[start + |header|..];
    before, body, after := text[..start], text[start + |header|..end], text[end..];
    CutTwice(text, start, start + |header|, end);
    assert text[start..start + |header|] == header;
    forall i | 0 <= i < |body| ensures !OpensSection(body, i) {
      assert !OpensSection(rest, i);
    }
    if after != "" {
      assert OpensSection(rest, |body|);
    }
  }

  lemma Slices<T>(a: seq<T>, h: seq<T>, b: seq<T>, c: seq<T>)
    ensures var s := a + h + b + c;
            && s[..|a|] == a && s[|a|..|a| + |h|] == h && s[|a| + |h|..] == b + c
            && s[|a|..|a| + |h| + |b|] == h + b && s[|a| + |h| + |b|..] == c
  {
  }

  lemma NextSectionIs(body: string, after: string)
    requires forall i :: 0 <= i < |body| ==> !OpensSection(body, i)
    requires after != "" ==> after[0] == '[' && (body == "" || body[|body| - 1] == '\n')
    ensures NextSection(body + after, 0) == |body|
  {
    var rest := body + after;
    if after != "" {
      assert OpensSection(rest, |body|);
    }
    forall i | 0 <= i < |body| ensures !OpensSection(rest, i) {
      assert !OpensSection(body, i);
    }
  }

  lemma FindIs(text: string, header: string, n: nat)
    requires n <= |text| && StandsAt(text, header, n)
    requires forall i :: 0 <= i < n ==> !StandsAt(text, header, i)
    ensures Find(text, header, 0) == Some(n)
  {
  }

  lemma CutStandsAt(before: string, header: string, rest: string)
    ensures StandsAt(before + header + rest, header, |before|)
    ensures (before + header + rest)[|before| + |header|..] == rest
  {
  }

  lemma CutIsSpan(text: string, header: string, before: string, body: string, after: string)
    requires IsCut(text, header, before, body, after)
    ensures SpanOf(text, header) == Some((|before|, |before| + |header| + |body|))
  {
    var rest := body + after;
    assert text == before + header + rest;
    CutStandsAt(before, header, rest);
    FindIs(text, header, |before|);
    NextSectionIs(body, after);
  }

  function Span(text: string): (r: Option<(nat, nat)>)
    ensures r.Some? ==> r.value.0 <= r.value.1 <= |text|
  {
    SpanOf(text, HEADER)
  }

  // ---- Parsing ----

  datatype Class = Skipped | Dep(dep: GitDep) | Bad(name: string)

  predicate Contains(s: string, part: string) {
    exists i :: 0 <= i <= |s| && part <= s[i..]
  }

  function BeforeEquals(s: string): (r: string)
    ensures r <= s && '=' !in r && (|r| < |s| ==> s[|r|] == '=')
  {
    if s == "" || s[0] == '=' then "" else [s[0]] + BeforeEquals(s[1..])
  }

  /** Whether the key of a stripped line is the name of a Reth crate. */
  predicate NamesReth(s: string) {
    s != "" && s[0] != '#' && IsRethName(Strip(BeforeEquals(s)))
  }

  predicate IsReleased(s: string) {
    Contains(s, "version") && !Contains(s, "git")
  }

  /** How one line is taken: blank lines, comments, other crates and released versions are passed over. */
  function Classify(line: string): Class {
    var s := Strip(line);
    if !NamesReth(s) || IsReleased(s) then Skipped
    else
      match Read(s)
      case None => Bad(Strip(BeforeEquals(s)))
      case Some(d) => Dep(d)
  }

  function Classes(lines: seq<string>): seq<Class> {
    Map(Classify, lines)
  }

  /** The dependencies in order; the first refused line is an error. */
  function Gather(classes: seq<Class>): Result<seq<GitDep>, Error> {
    if classes == [] then Ok([])
    else
      match Gather(classes[..|classes| - 1])
      case Err(e) => Err(e)
      case Ok(deps) =>
        match classes[|classes| - 1]
        case Skipped => Ok(deps)
        case Dep(d) => Ok(deps + [d])
        case Bad(name) => Err(NotAPin(name))
  }

  function ParseLines(lines: seq<string>): Result<seq<GitDep>, Error> {
    Gather(Classes(lines))
  }

  function Section(text: string): (r: string)
    requires Span(text).Some?
  {
    text[Span(text).value.0..Span(text).value.1]
  }

  function Parse(text: string): Result<seq<GitDep>, Error> {
    if Span(text).None? then Err(MissingSection)
    else
      match ParseLines(Lines(Section(text)))
      case Err(e) => Err(e)
      case Ok(deps) => if deps == [] then Err(NoGitDeps) else Ok(deps)
  }

  lemma TakeOneMore<T>(s: seq<T>, i: nat)
    requires i < |s|
    ensures s[..i + 1] == s[..i] + [s[i]]
  {
  }

  lemma GatherOneMore(classes: seq<Class>, c: Class)
    requires Gather(classes).Ok?
    ensures Gather(classes + [c])
         == match c
            case Skipped => Gather(classes)
            case Dep(d) => Ok(Gather(classes).value + [d])
            case Bad(name) => Err(NotAPin(name))
  {
    assert (classes + [c])[..|classes|] == classes;
  }

  method ParseEach(lines: seq<string>) returns (r: Result<seq<GitDep>, Error>)
    ensures r == ParseLines(lines)
  {
    ghost var classes := Classes(lines);
    var deps: seq<GitDep> := [];
    for i := 0 to |lines|
      invariant Gather(classes[..i]) == Ok(deps)
    {
      var taken := Classify(lines[i]);
      TakeOneMore(classes, i);
      GatherOneMore(classes[..i], taken);
      match taken
      case Skipped =>
      case Dep(d) => deps := deps + [d];
      case Bad(name) =>
        FirstErrorStays(classes, i + 1);
        return Err(NotAPin(name));
    }
    assert classes[..|lines|] == classes;
    return Ok(deps);
  }

  method ParseGitDeps(text: string) returns (r: Result<seq<GitDep>, Error>)
    ensures r == Parse(text)
  {
    var span := Span(text);
    if span.None? {
      return Err(MissingSection);
    }
    r := ParseEach(Lines(text[span.value.0..span.value.1]));
    if r == Ok([]) {
      return Err(NoGitDeps);
    }
  }

  lemma {:induction false} FirstErrorStays(classes: seq<Class>, n: nat)
    requires n <= |classes| && Gather(classes[..n]).Err?
    ensures Gather(classes) == Gather(classes[..n])
  {
    if n == |classes| {
      assert classes[..n] == classes;
    } else {
      assert classes[..|classes| - 1][..n] == classes[..n];
      FirstErrorStays(classes[..|classes| - 1], n);
    }
  }

  // ---- Uniformity and verification ----

  /** Whether all pins name one repository, up to normalization, and one ref. */
  predicate Uniform(deps: seq<GitDep>, normalize: string -> string) {
    && deps != []
    && (forall d :: d in deps ==> normalize(d.git) == normalize(deps[0].git))
    && (forall d :: d in deps ==> d.kind == deps[0].kind && d.value == deps[0].value)
  }

  function Verify(deps: seq<GitDep>, pin: Pin, normalize: string -> string): Result<(), Error> {
    if !Uniform(deps, normalize) then Err(MixedPins)
    else if normalize(deps[0].git) != normalize(pin.repository) then Err(WrongRepository)
    else if (deps[0].kind, deps[0].value) != CargoRef(pin) then Err(WrongRef)
    else Ok(())
  }

  // ---- Rewriting ----

  predicate EndsInNewline(line: string) {
    line != "" && line[|line| - 1] == '\n'
  }

  predicate IsGitLine(line: string) {
    Read(Strip(line)).Some?
  }

  /** A git line keeps its indentation and a final line feed; any other line is kept as it is. */
  function RewriteLine(line: string, pin: Pin): string {
    match Read(Strip(line))
    case None => line
    case Some(d) =>
      line[..Indent(line)] + Write(Repinned(d, pin)) + if EndsInNewline(line) then "\n" else ""
  }

  function RewriteLines(lines: seq<string>, pin: Pin): seq<string> {
    Map(line => RewriteLine(line, pin), lines)
  }

  function Rewrite(text: string, pin: Pin, normalize: string -> string): Result<string, Error> {
    match Parse(text)
    case Err(e) => Err(e)
    case Ok(deps) =>
      if !Uniform(deps, normalize) then Err(MixedPins)
      else
        var (start, end) := Span(text).value;
        Ok(text[..start] + Concat(RewriteLines(Lines(Section(text)), pin)) + text[end..])
  }

  lemma {:induction false} ConcatAppends(lines: seq<string>, line: string)
    ensures Concat(lines + [line]) == Concat(lines) + line
  {
    if lines != [] {
      assert (lines + [line])[1..] == lines[1..] + [line];
      ConcatAppends(lines[1..], line);
    }
  }

  lemma OneMoreLine(lines: seq<string>, i: nat, pin: Pin)
    requires i < |lines|
    ensures RewriteLines(lines[..i + 1], pin) == RewriteLines(lines[..i], pin) + [RewriteLine(lines[i], pin)]
  {
    assert lines[..i + 1] == lines[..i] + [lines[i]];
  }

  method RewriteEach(lines: seq<string>, pin: Pin) returns (section: string)
    ensures section == Concat(RewriteLines(lines, pin))
  {
    section := "";
    for i := 0 to |lines|
      invariant section == Concat(RewriteLines(lines[..i], pin))
    {
      var line := RewriteLine(lines[i], pin);
      ConcatAppends(RewriteLines(lines[..i], pin), line);
      OneMoreLine(lines, i, pin);
      section := section + line;
    }
    assert lines[..|lines|] == lines;
  }

  method RewriteGitDeps(text: string, pin: Pin, normalize: string -> string) returns (r: Result<string, Error>)
    ensures r == Rewrite(text, pin, normalize)
  {
    var deps := ParseGitDeps(text);
    if deps.Err? {
      return Err(deps.error);
    }
    if !Uniform(deps.value, normalize) {
      return Err(MixedPins);
    }
    var (start, end) := Span(text).value;
    var section := RewriteEach(Lines(text[start..end]), pin);
    return Ok(text[..start] + section + text[end..]);
  }
}
