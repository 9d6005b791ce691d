/** The grammar of one git dependency line of a crate named `reth` or `reth-…`, and how such a line is written. */
module PinDeps {
  import opened Basics
  import opened TextLines

  datatype Kind = Rev | Tag

  datatype GitDep = GitDep(name: string, git: string, kind: Kind, value: string, rest: string)

  function KindText(kind: Kind): string {
    match kind
    case Rev => "rev"
    case Tag => "tag"
  }

  predicate IsNameChar(c: char) {
    'a' <= c <= 'z' || 'A' <= c <= 'Z' || '0' <= c <= '9' || c == '-'
  }

  predicate IsRethName(name: string) {
    || name == "reth"
    || (|name| > 5 && name[..5] == "reth-" && forall c :: c in name ==> IsNameChar(c))
  }

  ghost predicate IsSuffix(t: string, s: string) {
    |t| <= |s| && s[|s| - |t|..] == t
  }

  lemma SuffixOfSuffix(t: string, s: string, r: string)
    requires IsSuffix(t, s) && IsSuffix(s, r)
    ensures IsSuffix(t, r)
  {
  }

  // ---- Reading ----

  function NameLength(s: string): (n: nat)
    ensures n <= |s| && (forall i :: 0 <= i < n ==> IsNameChar(s[i]))
    ensures n < |s| ==> !IsNameChar(s[n])
  {
    if s == "" || !IsNameChar(s[0]) then 0 else NameLength(s[1..]) + 1
  }

  /** The crate name at the start: the longest run of name characters, since no name character may follow it. */
  function ReadName(s: string): (r: Option<(string, string)>)
    ensures r.Some? ==> IsRethName(r.value.0) && s == r.value.0 + r.value.1
  {
    var n := NameLength(s);
    if IsRethName(s[..n]) then Some((s[..n], s[n..])) else None
  }

  /** Optional white space and then a literal. */
  function ReadToken(s: string, literal: string): (r: Option<string>)
    ensures r.Some? ==> IsSuffix(r.value, s)
  {
    var t := SkipSpaces(s);
    if literal <= t then Some(t[|literal|..]) else None
  }

  function FirstQuote(s: string): (n: nat)
    ensures n <= |s| && '"' !in s[..n]
    ensures n < |s| ==> s[n] == '"'
  {
    if s == "" || s[0] == '"' then 0
    else
      var n := FirstQuote(s[1..]) + 1;
      assert s[..n] == [s[0]] + s[1..][..n - 1];
      n
  }

  /** Optional white space and then a nonempty string in quotes. */
  function ReadQuoted(s: string): (r: Option<(string, string)>)
    ensures r.Some? ==> IsSuffix(r.value.1, s) && r.value.0 != "" && '"' !in r.value.0
    ensures r.Some? ==> forall c :: c in r.value.0 ==> c in s
  {
    var t := SkipSpaces(s);
    if t == "" || t[0] != '"' then None
    else
      var n := FirstQuote(t[1..]);
      if n == 0 || n == |t| - 1 then None else Some((t[1..][..n], t[n + 2..]))
  }

  function ReadKind(s: string): (r: Option<(Kind, string)>)
    ensures r.Some? ==> IsSuffix(r.value.1, s)
  {
    match ReadToken(s, "rev")
    case Some(t) => Some((Rev, t))
    case None =>
      match ReadToken(s, "tag")
      case Some(t) => Some((Tag, t))
      case None => None
  }

  /** The ref of a dependency and what is left of the line. */
  function ReadRef(s: string): (r: Option<(Kind, string, string)>)
    ensures r.Some? ==> IsSuffix(r.value.2, s) && r.value.1 != "" && '"' !in r.value.1
    ensures r.Some? ==> forall c :: c in r.value.1 ==> c in s
  {
    match ReadKind(s)
    case None => None
    case Some((kind, t)) =>
      match ReadToken(t, "=")
      case None => None
      case Some(u) =>
        match ReadQuoted(u)
        case None => None
        case Some((value, rest)) => Some((kind, value, rest))
  }

  /** Two literals, each after optional white space. */
  function ReadTokens(s: string, first: string, second: string): (r: Option<string>)
    ensures r.Some? ==> IsSuffix(r.value, s)
  {
    match ReadToken(s, first)
    case None => None
    case Some(t) => ReadToken(t, second)
  }

  /** What is left after `= { git =`. */
  function ReadOpening(s: string): (r: Option<string>)
    ensures r.Some? ==> IsSuffix(r.value, s)
  {
    match ReadTokens(s, "=", "{")
    case None => None
    case Some(t) => ReadTokens(t, "git", "=")
  }

  /** A repository and what is left of the line after the comma. */
  function ReadRepository(s: string): (r: Option<(string, string)>)
    ensures r.Some? ==> IsSuffix(r.value.1, s) && r.value.0 != "" && '"' !in r.value.0
    ensures r.Some? ==> forall c :: c in r.value.0 ==> c in s
  {
    match ReadQuoted(s)
    case None => None
    case Some((git, t)) =>
      match ReadToken(t, ",")
      case None => None
      case Some(u) => Some((git, u))
  }

  function ReadGit(s: string): (r: Option<(string, string)>)
    ensures r.Some? ==> IsSuffix(r.value.1, s) && r.value.0 != "" && '"' !in r.value.0
    ensures r.Some? ==> forall c :: c in r.value.0 ==> c in s
  {
    match ReadOpening(s)
    case None => None
    case Some(t) => ReadRepository(t)
  }

  /** Reads a stripped line; whatever follows the ref is kept as it is. */
  function Read(s: string): Option<GitDep> {
    match ReadName(s)
    case None => None
    case Some((name, t)) =>
      match ReadGit(t)
      case None => None
      case Some((git, u)) =>
        match ReadRef(u)
        case None => None
        case Some((kind, value, rest)) => Some(GitDep(name, git, kind, value, rest))
  }

  // ---- Writing ----

  function Quote(s: string): string {
    "\"" + s + "\""
  }

  /** ` kind = "value"` and the rest of the line. */
  function WriteRef(kind: Kind, value: string, rest: string): string {
    " " + KindText(kind) + (" " + "=" + (" " + Quote(value) + rest))
  }

  /** ` "repository", kind = "value"` and the rest of the line. */
  function WritePin(d: GitDep): string {
    " " + Quote(d.git) + ("," + WriteRef(d.kind, d.value, d.rest))
  }

  /** ` = { git =` and the text after it. */
  function WriteOpening(after: string): string {
    " " + "=" + (" " + "{" + (" " + "git" + (" " + "=" + after)))
  }

  /** `name = { git = "repository", kind = "value"` and the rest of the line. */
  function Write(d: GitDep): string {
    d.name + WriteOpening(WritePin(d))
  }

  /** What a quoted field can hold: something, without quotes or line breaks. */
  predicate IsClean(s: string) {
    s != "" && '"' !in s && NoBreaks(s)
  }

  lemma NameReads(name: string, t: string)
    requires IsRethName(name) && t != "" && !IsNameChar(t[0])
    ensures ReadName(name + t) == Some((name, t))
  {
    var s := name + t;
    assert forall i :: 0 <= i < |name| ==> s[i] == name[i] && IsNameChar(name[i]);
    assert s[|name|] == t[0];
    assert NameLength(s) == |name|;
    assert s[..|name|] == name && s[|name|..] == t;
  }

  lemma TokenReads(w: string, literal: string, t: string)
    requires AllSpace(w) && literal != "" && !IsSpace(literal[0])
    ensures ReadToken(w + literal + t, literal) == Some(t)
  {
    assert w + literal + t == w + (literal + t);
    SkipReads(w, literal + t);
    assert literal <= literal + t && (literal + t)[|literal|..] == t;
  }

  lemma FirstQuoteIs(s: string, n: nat)
    requires n < |s| && '"' !in s[..n] && s[n] == '"'
    ensures FirstQuote(s) == n
  {
    var m := FirstQuote(s);
    forall i | 0 <= i < n ensures s[i] != '"' {
      assert s[i] == s[..n][i];
    }
    forall i | 0 <= i < m ensures s[i] != '"' {
      assert s[i] == s[..m][i];
    }
  }

  lemma QuotedReads(w: string, v: string, t: string)
    requires AllSpace(w) && v != "" && '"' !in v
    ensures ReadQuoted(w + Quote(v) + t) == Some((v, t))
  {
    var q := Quote(v) + t;
    assert w + Quote(v) + t == w + q;
    SkipReads(w, q);
    var u := q[1..];
    assert u == v + "\"" + t;
    assert u[..|v|] == v && u[|v|] == '"';
    FirstQuoteIs(u, |v|);
    assert q[|v| + 2..] == t;
  }

  lemma KindReads(kind: Kind, t: string)
    ensures ReadKind(" " + KindText(kind) + t) == Some((kind, t))
  {
    TokenReads(" ", KindText(kind), t);
    if kind == Tag {
      assert " " + KindText(kind) + t == " " + (KindText(kind) + t);
      SkipReads(" ", KindText(kind) + t);
      assert (KindText(kind) + t)[0] == 't' && "rev"[0] == 'r';
    }
  }

  lemma RefReads(kind: Kind, value: string, rest: string)
    requires IsClean(value)
    ensures ReadRef(WriteRef(kind, value, rest)) == Some((kind, value, rest))
  {
    var after := " " + Quote(value) + rest;
    KindReads(kind, " " + "=" + after);
    TokenReads(" ", "=", after);
    QuotedReads(" ", value, rest);
  }

  lemma TokensRead(first: string, second: string, t: string)
    requires first != "" && second != "" && !IsSpace(first[0]) && !IsSpace(second[0])
    ensures ReadTokens(" " + first + (" " + second + t), first, second) == Some(t)
  {
    TokenReads(" ", first, " " + second + t);
    TokenReads(" ", second, t);
  }

  lemma OpeningReads(t: string)
    ensures ReadOpening(WriteOpening(t)) == Some(t)
  {
    var git := " " + "git" + (" " + "=" + t);
    TokensRead("=", "{", git);
    TokensRead("git", "=", t);
  }

  lemma RepositoryReads(git: string, t: string)
    requires IsClean(git)
    ensures ReadRepository(" " + Quote(git) + ("," + t)) == Some((git, t))
  {
    QuotedReads(" ", git, "," + t);
    assert [] + "," + t == "," + t;
    TokenReads([], ",", t);
  }

  /** Reading undoes writing, for every dependency with clean fields. */
  lemma ReadOfWrite(d: GitDep)
    requires IsRethName(d.name) && IsClean(d.git) && IsClean(d.value)
    ensures Read(Write(d)) == Some(d)
  {
    var pin := WritePin(d);
    NameReads(d.name, WriteOpening(pin));
    OpeningReads(pin);
    RepositoryReads(d.git, WriteRef(d.kind, d.value, d.rest));
    RefReads(d.kind, d.value, d.rest);
  }

  /** What reading a line says about the line. */
  lemma ReadFacts(s: string)
    ensures Read(s).Some? ==>
              var d := Read(s).value;
              && IsRethName(d.name) && d.name <= s && IsSuffix(d.rest, s)
              && (NoBreaks(s) ==> IsClean(d.git) && IsClean(d.value))
  {
    if Read(s).Some? {
      var (name, t) := ReadName(s).value;
      var (git, u) := ReadGit(t).value;
      assert IsSuffix(t, s);
      SuffixOfSuffix(u, t, s);
      SuffixOfSuffix(ReadRef(u).value.2, u, s);
    }
  }
}
