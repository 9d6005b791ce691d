/** White space and line boundaries as Python's string methods see them. */
module TextLines {

  /** The characters at which `splitlines` breaks. */
  predicate IsBreak(c: char) {
    || c == '\n' || c == '\r' || c == '\U{0B}' || c == '\U{0C}'
    || '\U{1C}' <= c <= '\U{1E}' || c == '\U{85}' || c == '\U{2028}' || c == '\U{2029}'
  }

  /** The characters that `strip` removes and `\s` matches. */
  predicate IsSpace(c: char) {
    || IsBreak(c) || c == ' ' || c == '\t' || c == '\U{1F}' || c == '\U{A0}' || c == '\U{1680}'
    || '\U{2000}' <= c <= '\U{200A}' || c == '\U{202F}' || c == '\U{205F}' || c == '\U{3000}'
  }

  predicate AllSpace(s: string) {
    forall c :: c in s ==> IsSpace(c)
  }

  predicate NoBreaks(s: string) {
    forall c :: c in s ==> !IsBreak(c)
  }

  // ---- Stripping ----

  /** The length of the leading white space. */
  function Indent(s: string): (n: nat)
    ensures n <= |s| && AllSpace(s[..n])
    ensures n < |s| ==> !IsSpace(s[n])
  {
    if s == "" || !IsSpace(s[0]) then 0
    else
      var n := Indent(s[1..]) + 1;
      assert s[..n] == [s[0]] + s[1..][..n - 1];
      n
  }

  /** The length without the trailing white space. */
  function Trimmed(s: string): (n: nat)
    ensures n <= |s| && AllSpace(s[n..])
    ensures n > 0 ==> !IsSpace(s[n - 1])
  {
    if s == "" || !IsSpace(s[|s| - 1]) then |s|
    else
      var n := Trimmed(s[..|s| - 1]);
      assert s[n..] == s[..|s| - 1][n..] + [s[|s| - 1]];
      n
  }

  function SkipSpaces(s: string): string {
    s[Indent(s)..]
  }

  function Strip(s: string): string {
    var t := SkipSpaces(s);
    t[..Trimmed(t)]
  }

  /** What holds of all characters of a part holds at each of its places. */
  lemma SpaceAt(s: string, i: nat, j: nat)
    requires i <= j <= |s| && AllSpace(s[i..j])
    ensures forall k :: i <= k < j ==> IsSpace(s[k])
  {
    forall k | i <= k < j ensures IsSpace(s[k]) {
      assert s[k] == s[i..j][k - i];
    }
  }

  lemma IndentIs(s: string, n: nat)
    requires n <= |s| && AllSpace(s[..n]) && (n < |s| ==> !IsSpace(s[n]))
    ensures Indent(s) == n
  {
    SpaceAt(s, 0, n);
    SpaceAt(s, 0, Indent(s));
  }

  lemma TrimmedIs(s: string, n: nat)
    requires n <= |s| && AllSpace(s[n..]) && (n > 0 ==> !IsSpace(s[n - 1]))
    ensures Trimmed(s) == n
  {
    SpaceAt(s, n, |s|);
    SpaceAt(s, Trimmed(s), |s|);
  }

  lemma SkipReads(w: string, t: string)
    requires AllSpace(w) && t != "" && !IsSpace(t[0])
    ensures Indent(w + t) == |w| && SkipSpaces(w + t) == t
  {
    assert (w + t)[..|w|] == w;
    IndentIs(w + t, |w|);
  }

  ghost predicate IsStripped(s: string) {
    s != "" ==> !IsSpace(s[0]) && !IsSpace(s[|s| - 1])
  }

  lemma StripReads(w: string, t: string, v: string)
    requires AllSpace(w) && AllSpace(v) && t != "" && IsStripped(t)
    ensures Strip(w + t + v) == t && Indent(w + t + v) == |w|
  {
    assert w + t + v == w + (t + v);
    SkipReads(w, t + v);
    assert (t + v)[|t|..] == v;
    TrimmedIs(t + v, |t|);
  }

  /** Stripping takes white space off both ends and nothing else. */
  lemma StripSplits(s: string) returns (w: string, v: string)
    ensures s == w + Strip(s) + v && AllSpace(w) && AllSpace(v) && IsStripped(Strip(s))
    ensures Strip(s) != "" ==> w == s[..Indent(s)]
  {
    var t := SkipSpaces(s);
    w, v := s[..Indent(s)], t[Trimmed(t)..];
    assert s == w + t && t == Strip(s) + v;
    if Strip(s) != "" {
      assert t[0] == s[Indent(s)];
    }
  }

  // ---- Lines ----

  function FirstBreak(s: string): (n: nat)
    ensures n <= |s| && NoBreaks(s[..n])
    ensures n < |s| ==> IsBreak(s[n])
  {
    if s == "" || IsBreak(s[0]) then 0
    else
      var n := FirstBreak(s[1..]) + 1;
      assert s[..n] == [s[0]] + s[1..][..n - 1];
      n
  }

  lemma NoBreakAt(s: string, n: nat)
    requires n <= |s| && NoBreaks(s[..n])
    ensures forall k :: 0 <= k < n ==> !IsBreak(s[k])
  {
    forall k | 0 <= k < n ensures !IsBreak(s[k]) {
      assert s[k] == s[..n][k];
    }
  }

  lemma FirstBreakIs(s: string, n: nat)
    requires n <= |s| && NoBreaks(s[..n]) && (n < |s| ==> IsBreak(s[n]))
    ensures FirstBreak(s) == n
  {
    NoBreakAt(s, n);
    NoBreakAt(s, FirstBreak(s));
  }

  /** Where the first line of a text ends, its terminator included. */
  function LineEnd(s: string): (n: nat)
    requires s != ""
    ensures 0 < n <= |s|
  {
    EndAfter(s, FirstBreak(s))
  }

  /** Where the terminator at `b` ends. */
  function EndAfter(s: string, b: nat): (n: nat)
    requires b <= |s|
    ensures b <= n <= |s| && (b < |s| ==> b < n)
  {
    if b == |s| then b
    else if s[b] == '\r' && b + 1 < |s| && s[b + 1] == '\n' then b + 2
    else b + 1
  }

  /** The lines of a text with their terminators. */
  function Lines(s: string): seq<string>
    decreases |s|
  {
    if s == "" then [] else [s[..LineEnd(s)]] + Lines(s[LineEnd(s)..])
  }

  function Concat(lines: seq<string>): string {
    if lines == [] then "" else lines[0] + Concat(lines[1..])
  }

  /** A single line, terminated or not. */
  ghost predicate IsLine(s: string) {
    s != "" && LineEnd(s) == |s|
  }

  ghost predicate Terminated(s: string) {
    s != "" && IsBreak(s[|s| - 1])
  }

  /** Whether two neighbours would join at a carriage return and a line feed. */
  ghost predicate Joins(s: string, t: string) {
    s != "" && t != "" && s[|s| - 1] == '\r' && t[0] == '\n'
  }

  lemma FirstBreakOfLine(s: string)
    requires IsLine(s)
    ensures if Terminated(s) then FirstBreak(s) == |s| - 1 || (FirstBreak(s) == |s| - 2 && s[|s| - 2..] == "\r\n")
            else FirstBreak(s) == |s|
  {
    var b := FirstBreak(s);
    NoBreakAt(s, b);
    LineEndsAt(s, b);
  }

  lemma LineEndsAt(s: string, b: nat)
    requires s != "" && b <= |s| && EndAfter(s, b) == |s|
    requires (forall k :: 0 <= k < b ==> !IsBreak(s[k])) && (b < |s| ==> IsBreak(s[b]))
    ensures if Terminated(s) then b == |s| - 1 || (b == |s| - 2 && s[|s| - 2..] == "\r\n") else b == |s|
  {
  }

  lemma LineReads(l: string, t: string)
    requires IsLine(l) && Terminated(l) && !Joins(l, t)
    ensures Lines(l + t) == [l] + Lines(t)
  {
    FirstBreakOfLine(l);
    var s, b := l + t, FirstBreak(l);
    assert s[..b] == l[..b];
    FirstBreakIs(s, b);
    assert LineEnd(s) == |l|;
    assert s[..|l|] == l && s[|l|..] == t;
  }

  /** Whether a line stays a line when another follows it. */
  ghost predicate Separate(l: string, next: string) {
    Terminated(l) && !Joins(l, next)
  }

  /** Single lines, each separate from the next. */
  ghost predicate WellSplit(lines: seq<string>) {
    lines != [] ==>
      && IsLine(lines[0])
      && (|lines| > 1 ==> Separate(lines[0], lines[1]))
      && WellSplit(lines[1..])
  }

  lemma LastLineReads(l: string)
    requires IsLine(l)
    ensures Lines(l) == [l]
  {
    assert l[..|l|] == l && Lines(l[|l|..]) == [];
  }

  lemma ConcatStarts(lines: seq<string>)
    requires lines != [] && lines[0] != ""
    ensures Concat(lines) != "" && Concat(lines)[0] == lines[0][0]
  {
  }

  /** Splitting undoes the concatenation of well-split lines. */
  lemma {:induction false} LinesOfConcat(lines: seq<string>)
    requires WellSplit(lines)
    ensures Lines(Concat(lines)) == lines
  {
    if |lines| == 1 {
      assert lines == [lines[0]] && Concat(lines[1..]) == "" && lines[0] + "" == lines[0];
      LastLineReads(lines[0]);
    } else if |lines| > 1 {
      var t := lines[1..];
      LinesOfConcat(t);
      assert t[0] == lines[1];
      ConcatStarts(t);
      LineReads(lines[0], Concat(t));
      assert lines == [lines[0]] + t;
    }
  }

  lemma FirstLine(s: string)
    requires s != ""
    ensures var n := LineEnd(s);
            IsLine(s[..n]) && (n < |s| ==> Separate(s[..n], s[n..]))
  {
    var n, b := LineEnd(s), FirstBreak(s);
    assert s[..n][..b] == s[..b];
    FirstBreakIs(s[..n], b);
  }

  lemma LinesStart(s: string)
    requires s != ""
    ensures Lines(s) != [] && Lines(s)[0] != "" && Lines(s)[0][0] == s[0]
  {
  }

  lemma WellSplitCons(l: string, rest: seq<string>)
    requires IsLine(l) && WellSplit(rest) && (rest != [] ==> Separate(l, rest[0]))
    ensures WellSplit([l] + rest) && Concat([l] + rest) == l + Concat(rest)
  {
    assert ([l] + rest)[1..] == rest;
  }

  lemma {:induction false} LinesAreWellSplit(s: string)
    ensures WellSplit(Lines(s)) && Concat(Lines(s)) == s
    decreases |s|
  {
    if s != "" {
      var n := LineEnd(s);
      var first, after := s[..n], s[n..];
      var rest := Lines(after);
      LinesAreWellSplit(after);
      FirstLine(s);
      if after != "" {
        LinesStart(after);
        SeparateFrom(first, after, rest[0]);
      }
      WellSplitCons(first, rest);
      assert s == first + after;
    }
  }

  lemma SeparateFrom(l: string, t: string, u: string)
    requires Separate(l, t) && t != "" && u != "" && t[0] == u[0]
    ensures Separate(l, u)
  {
  }

  // ---- Counting lines ----

  lemma BreakAfter(l: string, t: string)
    requires NoBreaks(l)
    ensures FirstBreak(l + t) == |l| + FirstBreak(t)
  {
    var s, b := l + t, FirstBreak(t);
    assert s[..|l| + b] == l + t[..b];
    FirstBreakIs(s, |l| + b);
  }

  lemma LineEndAfter(l: string, t: string)
    requires NoBreaks(l) && t != ""
    ensures LineEnd(l + t) == |l| + LineEnd(t)
  {
    BreakAfter(l, t);
    assert forall i :: 0 <= i < |t| ==> (l + t)[|l| + i] == t[i];
  }

  lemma DropPast<T>(a: seq<T>, b: seq<T>, i: nat)
    requires i <= |b|
    ensures (a + b)[|a| + i..] == b[i..]
  {
  }

  lemma SameRest(s: string, n: nat, t: string, m: nat)
    requires s != "" && n == LineEnd(s) && t != "" && m == LineEnd(t) && s[n..] == t[m..]
    ensures |Lines(s)| == |Lines(t)|
  {
  }

  lemma UnterminatedReads(l: string, t: string)
    requires NoBreaks(l) && t != ""
    ensures |Lines(l + t)| == |Lines(t)|
  {
    var s, m := l + t, LineEnd(t);
    LineEndAfter(l, t);
    DropPast(l, t, m);
    SameRest(s, |l| + m, t, m);
  }

  lemma UnterminatedHasNoBreaks(l: string)
    requires IsLine(l) && !Terminated(l)
    ensures NoBreaks(l)
  {
    FirstBreakOfLine(l);
    assert l[..|l|] == l;
  }

  lemma JoinedReads(l: string, t: string)
    requires IsLine(l) && Joins(l, t)
    ensures |Lines(l + t)| == |Lines(t)|
  {
    FirstBreakOfLine(l);
    var s, b := l + t, |l| - 1;
    assert s[..b] == l[..b];
    FirstBreakIs(s, b);
    FirstBreakIs(t, 0);
    assert s[LineEnd(s)..] == t[LineEnd(t)..];
  }

  lemma AtMostOneMore(l: string, t: string)
    requires IsLine(l)
    ensures |Lines(l + t)| <= 1 + |Lines(t)|
  {
    if t == "" {
      assert l + t == l;
      LastLineReads(l);
    } else if !Terminated(l) {
      UnterminatedHasNoBreaks(l);
      UnterminatedReads(l, t);
    } else if Joins(l, t) {
      JoinedReads(l, t);
    } else {
      LineReads(l, t);
    }
  }

  lemma {:induction false} AtMostAsManyLines(lines: seq<string>)
    requires forall i :: 0 <= i < |lines| ==> IsLine(lines[i])
    ensures |Lines(Concat(lines))| <= |lines|
  {
    if lines != [] {
      AtMostAsManyLines(lines[1..]);
      AtMostOneMore(lines[0], Concat(lines[1..]));
    }
  }

  /** A line that loses its terminator runs into the next one, and the text has fewer lines. */
  lemma {:induction false} FewerLines(lines: seq<string>, k: nat)
    requires forall i :: 0 <= i < |lines| ==> IsLine(lines[i])
    requires k < |lines| - 1 && !Terminated(lines[k])
    ensures |Lines(Concat(lines))| < |lines|
  {
    var t := lines[1..];
    if k == 0 {
      assert t[0] == lines[1];
      AtMostAsManyLines(t);
      UnterminatedHasNoBreaks(lines[0]);
      UnterminatedReads(lines[0], Concat(t));
    } else {
      FewerLines(t, k - 1);
      AtMostOneMore(lines[0], Concat(t));
    }
  }
}
