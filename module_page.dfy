/** The module page: the classifier that turns each line of a module's content into a block, and
    the previous/next module links. */
module ModulePage {
  import opened Wrappers
  import opened Seqs
  import opened Schema

  // ----- `content.split('\n')`

  /** The pieces between line feeds; there is always one more piece than line feeds. */
  function SplitLines(s: string): (lines: seq<string>)
    ensures |lines| >= 1
    ensures forall i :: 0 <= i < |lines| ==> '\n' !in lines[i]
  {
    if |s| == 0 then [""]
    else
      var rest := SplitLines(s[1..]);
      if s[0] == '\n' then [""] + rest
      else [[s[0]] + rest[0]] + rest[1..]
  }

  /** `lines.join('\n')`. */
  function JoinLines(lines: seq<string>): string
    requires |lines| >= 1
  {
    if |lines| == 1 then lines[0] else lines[0] + "\n" + JoinLines(lines[1..])
  }

  function LineFeeds(s: string): nat {
    if |s| == 0 then 0 else (if s[0] == '\n' then 1 else 0) + LineFeeds(s[1..])
  }

  /** Splitting loses nothing: joining the pieces gives the content back. */
  lemma {:induction false} JoinSplit(s: string)
    ensures JoinLines(SplitLines(s)) == s
    ensures |SplitLines(s)| == LineFeeds(s) + 1
  {
    if |s| > 0 {
      JoinSplit(s[1..]);
      var rest := SplitLines(s[1..]);
      if s[0] == '\n' {
        assert ([""] + rest)[1..] == rest;
      } else {
        var lines := [[s[0]] + rest[0]] + rest[1..];
        if |rest| > 1 {
          assert lines[1..] == rest[1..];
          assert JoinLines(rest) == rest[0] + "\n" + JoinLines(rest[1..]);
        }
      }
      assert s == [s[0]] + s[1..];
    }
  }

  /** Splitting a join of line-feed-free pieces gives the pieces back. */
  lemma {:induction false} SplitJoin(lines: seq<string>)
    requires |lines| >= 1
    requires forall i :: 0 <= i < |lines| ==> '\n' !in lines[i]
    ensures SplitLines(JoinLines(lines)) == lines
  {
    if |lines| == 1 {
      NoFeedSingle(lines[0]);
    } else {
      SplitJoin(lines[1..]);
      SplitPrefix(lines[0], JoinLines(lines[1..]));
      assert [lines[0]] + lines[1..] == lines;
    }
  }

  lemma {:induction false} NoFeedSingle(s: string)
    requires '\n' !in s
    ensures SplitLines(s) == [s]
  {
    if |s| > 0 {
      assert s[1..] == s[1..];
      assert forall c :: c in s[1..] ==> c in s;
      NoFeedSingle(s[1..]);
      assert [s[0]] + s[1..] == s;
    }
  }

  lemma {:induction false} SplitPrefix(a: string, b: string)
    requires '\n' !in a
    ensures SplitLines(a + "\n" + b) == [a] + SplitLines(b)
  {
    if |a| == 0 {
      assert a + "\n" + b == "\n" + b;
      assert ("\n" + b)[1..] == b;
    } else {
      assert (a + "\n" + b)[1..] == a[1..] + "\n" + b;
      assert forall c :: c in a[1..] ==> c in a;
      SplitPrefix(a[1..], b);
      assert [a[0]] + a[1..] == a;
    }
  }

  // ----- Character classes of the page's regular expressions

  /** `\d`: an ASCII digit. */
  predicate IsDigit(c: char) {
    '0' <= c <= '9'
  }

  /** The characters `.` does not match. */
  predicate IsLineTerminator(c: char) {
    c == '\n' || c == '\r' || c == '\U{2028}' || c == '\U{2029}'
  }

  /** What `String.prototype.trim` strips: white space and line terminators. */
  predicate IsTrimmed(c: char) {
    || c == '\t' || c == '\U{000B}' || c == '\U{000C}' || c == ' ' || c == '\U{00A0}' || c == '\U{FEFF}'
    || c == '\U{1680}' || ('\U{2000}' <= c <= '\U{200A}') || c == '\U{202F}' || c == '\U{205F}'
    || c == '\U{3000}' || IsLineTerminator(c)
  }

  /** `String.prototype.trim`'s leading half: strip trimmed characters from the front. */
  function TrimStart(s: string): (r: string)
    ensures |r| <= |s| && r == s[|s| - |r|..]
    ensures forall i :: 0 <= i < |s| - |r| ==> IsTrimmed(s[i])
    ensures |r| > 0 ==> !IsTrimmed(r[0])
  {
    if |s| > 0 && IsTrimmed(s[0]) then TrimStart(s[1..]) else s
  }

  /** The trailing half: strip trimmed characters from the back. */
  function TrimEnd(s: string): (r: string)
    ensures |r| <= |s| && r == s[..|r|]
    ensures forall i :: |r| <= i < |s| ==> IsTrimmed(s[i])
    ensures |r| > 0 ==> !IsTrimmed(r[|r| - 1])
  {
    if |s| > 0 && IsTrimmed(s[|s| - 1]) then TrimEnd(s[..|s| - 1]) else s
  }

  /** `String.prototype.trim`. */
  function Trim(s: string): string {
    TrimEnd(TrimStart(s))
  }

  /** `line.trim() === ''`: every character is one that trim strips. */
  function IsBlank(line: string): (r: bool)
    ensures r <==> Trim(line) == ""
  {
    TrimEmptyIffAllTrimmed(line);
    forall i :: 0 <= i < |line| ==> IsTrimmed(line[i])
  }

  lemma TrimEmptyIffAllTrimmed(s: string)
    ensures Trim(s) == "" <==> forall i :: 0 <= i < |s| ==> IsTrimmed(s[i])
  {
    var t := TrimStart(s);
    assert |t| > 0 ==> t[0] == s[|s| - |t|];
  }

  predicate StartsWith(s: string, prefix: string) {
    |prefix| <= |s| && s[..|prefix|] == prefix
  }

  /** The separator between a bold term and its explanation: `** — `. */
  const BoldEnd: string := "** \U{2014} "

  /** Length of the run of digits starting at `i` (what a greedy `\d+` takes). */
  function DigitRun(s: string, i: nat): (n: nat)
    requires i <= |s|
    ensures i + n <= |s|
    ensures forall j :: i <= j < i + n ==> IsDigit(s[j])
    ensures i + n == |s| || !IsDigit(s[i + n])
    decreases |s| - i
  {
    if i < |s| && IsDigit(s[i]) then 1 + DigitRun(s, i + 1) else 0
  }

  /** Length of the run of non-terminators starting at `i` (what a greedy `.+` or `.*` takes). */
  function LineRun(s: string, i: nat): (n: nat)
    requires i <= |s|
    ensures i + n <= |s|
    ensures forall j :: i <= j < i + n ==> !IsLineTerminator(s[j])
    ensures i + n == |s| || IsLineTerminator(s[i + n])
    decreases |s| - i
  {
    if i < |s| && !IsLineTerminator(s[i]) then 1 + LineRun(s, i + 1) else 0
  }

  /** What a greedy `(.+)` or `(.*)` captures from `i`: everything up to the next line terminator. */
  function RestOfLine(s: string, i: nat): (r: string)
    requires i <= |s|
    ensures |r| == LineRun(s, i) && r == s[i..i + |r|]
    ensures (|r| >= 1) == (i < |s| && !IsLineTerminator(s[i]))
  {
    s[i..i + LineRun(s, i)]
  }

  /** No line terminator among `s[a..b]`: what `.` accepts at each of those positions. */
  predicate NoTerminator(s: string, a: nat, b: nat) {
    b <= |s| && forall i :: a <= i < b ==> !IsLineTerminator(s[i])
  }

  /** `** — ` occurs at position `i`. */
  predicate SeparatorAt(s: string, i: nat) {
    i + 5 <= |s| && s[i] == '*' && s[i + 1] == '*' && s[i + 2] == ' ' && s[i + 3] == '\U{2014}' && s[i + 4] == ' '
  }

  lemma SeparatorIsBoldEnd(s: string, i: nat)
    requires i <= |s|
    ensures SeparatorAt(s, i) <==> StartsWith(s[i..], BoldEnd)
  {
    if i + 5 <= |s| {
      assert |BoldEnd| == 5;
      assert StartsWith(s[i..], BoldEnd) <==> s[i..i + 5] == BoldEnd;
      assert s[i..i + 5] == BoldEnd <==> s[i..i + 5] == ['*', '*', ' ', '\U{2014}', ' '];
    }
  }

  /** A term of `j` characters starting at `start` can end there: `** — ` follows it, and one
      more character the greedy `(.+)` can take. */
  predicate TermEndsAt(s: string, start: nat, j: nat) {
    start + j + 5 < |s| && SeparatorAt(s, start + j) && !IsLineTerminator(s[start + j + 5])
  }

  /** The length of the lazy group of `(.+?)\*\* — (.+)` matched at `start`, trying `k`
      characters and then more: the shortest terminator-free term that can end, or None when
      there is none. */
  function LazyEnd(s: string, start: nat, k: nat): (r: Option<nat>)
    requires start <= |s| && k >= 1
    ensures r.Some? ==> k <= r.value && TermEndsAt(s, start, r.value) && NoTerminator(s, start + k - 1, start + r.value)
    ensures r.Some? ==> forall i :: k <= i < r.value ==> !TermEndsAt(s, start, i)
    ensures r.None? ==> forall j :: k <= j && NoTerminator(s, start + k - 1, start + j) ==> !TermEndsAt(s, start, j)
    decreases |s| - start - k + 1
  {
    if start + k > |s| || IsLineTerminator(s[start + k - 1]) then None
    else if TermEndsAt(s, start, k) then Some(k)
    else
      var r := LazyEnd(s, start, k + 1);
      assert r.Some? ==> NoTerminator(s, start + k - 1, start + r.value) by {
        if r.Some? {
          forall i | start + k - 1 <= i < start + r.value ensures !IsLineTerminator(s[i]) {
          }
        }
      }
      assert r.None? ==> forall j :: k <= j && NoTerminator(s, start + k - 1, start + j) ==> !TermEndsAt(s, start, j) by {
        if r.None? {
          forall j | k <= j && NoTerminator(s, start + k - 1, start + j) ensures !TermEndsAt(s, start, j) {
            if j > k {
              assert NoTerminator(s, start + k, start + j);
            }
          }
        }
      }
      r
  }

  /** `(.+?)\*\* — (.+)` matched at `start`: the lazy term and the greedy text after `** — `. */
  function LazyTerm(s: string, start: nat): (r: Option<(string, string)>)
    requires start <= |s|
    ensures r.Some? <==> LazyEnd(s, start, 1).Some?
    ensures r.Some? ==>
              var j := LazyEnd(s, start, 1).value;
              && r.value.0 == s[start..start + j] && |r.value.0| >= 1
              && start + j + 5 < |s| && SeparatorAt(s, start + j)
              && r.value.1 == RestOfLine(s, start + j + 5) && |r.value.1| >= 1
  {
    match LazyEnd(s, start, 1)
    case None => None
    case Some(j) => Some((s[start..start + j], RestOfLine(s, start + j + 5)))
  }

  /** `- **` opens at `q` and the rest of the pattern matches after it. */
  predicate BoldBulletAt(s: string, q: nat) {
    q <= |s| && StartsWith(s[q..], "- **") && LazyTerm(s, q + 4).Some?
  }

  /** The leftmost position from `p` on where the bold-bullet pattern matches. */
  function FirstBoldBullet(s: string, p: nat): (r: Option<nat>)
    requires p <= |s|
    ensures r.Some? ==> p <= r.value <= |s| && BoldBulletAt(s, r.value)
    ensures r.Some? ==> forall q :: p <= q < r.value ==> !BoldBulletAt(s, q)
    ensures r.None? ==> forall q :: p <= q ==> !BoldBulletAt(s, q)
    decreases |s| - p
  {
    if BoldBulletAt(s, p) then Some(p)
    else if p == |s| then
      assert forall q :: p <= q ==> !BoldBulletAt(s, q) by {
        forall q | p <= q ensures !BoldBulletAt(s, q) {
          if q <= |s| { assert |s[q..]| == 0; }
        }
      }
      None
    else FirstBoldBullet(s, p + 1)
  }

  /** `/- \*\*(.+?)\*\* — (.+)/` tried at every position from `p` on, leftmost first: the
      groups of the leftmost match, or none when the pattern matches nowhere. */
  function SearchBoldBullet(s: string, p: nat): (r: Option<(string, string)>)
    requires p <= |s|
    ensures r.None? <==> forall q :: p <= q ==> !BoldBulletAt(s, q)
    ensures r.Some? ==> FirstBoldBullet(s, p).Some? && r == LazyTerm(s, FirstBoldBullet(s, p).value + 4)
  {
    match FirstBoldBullet(s, p)
    case None => None
    case Some(q) =>
      assert BoldBulletAt(s, q);
      LazyTerm(s, q + 4)
  }

  /** `/^(\d+)\. \*\*(.+?)\*\* — (.+)/`: the digits, then the bold term and its text. */
  function MatchNumberedBold(s: string): (r: Option<(string, string, string)>)
    ensures var n := DigitRun(s, 0);
            r.Some? <==> n >= 1 && StartsWith(s[n..], ". **") && LazyTerm(s, n + 4).Some?
    ensures r.Some? ==> var n := DigitRun(s, 0);
              && r.value.0 == s[..n] && |r.value.0| >= 1
              && (forall i :: 0 <= i < n ==> IsDigit(r.value.0[i]))
              && LazyTerm(s, n + 4) == Some((r.value.1, r.value.2))
  {
    var n := DigitRun(s, 0);
    if n >= 1 && StartsWith(s[n..], ". **") then
      match LazyTerm(s, n + 4)
      case Some(g) => Some((s[..n], g.0, g.1))
      case None => None
    else None
  }

  /** `/^(\d+)\. (.+)/`: the digits, then everything up to the first line terminator. */
  function MatchNumbered(s: string): (r: Option<(string, string)>)
    ensures var n := DigitRun(s, 0);
            r.Some? <==> n >= 1 && StartsWith(s[n..], ". ") && n + 2 < |s| && !IsLineTerminator(s[n + 2])
    ensures r.Some? ==>
              var e := |r.value.0| + 2 + |r.value.1|;
              && r.value.0 == s[..DigitRun(s, 0)]
              && |r.value.0| >= 1 && (forall i :: 0 <= i < |r.value.0| ==> IsDigit(r.value.0[i]))
              && |r.value.1| >= 1 && (forall i :: 0 <= i < |r.value.1| ==> !IsLineTerminator(r.value.1[i]))
              && e <= |s| && s[..e] == r.value.0 + ". " + r.value.1
              && (e == |s| || IsLineTerminator(s[e]))
  {
    var n := DigitRun(s, 0);
    if n >= 1 && StartsWith(s[n..], ". ") && LineRun(s, n + 2) >= 1 then
      var text := s[n + 2..n + 2 + LineRun(s, n + 2)];
      assert s[..n + 2 + |text|] == s[..n] + ". " + text by {
        assert s[n..n + 2] == s[n..][..2] == ". ";
      }
      Some((s[..n], text))
    else None
  }

  // ----- The line classifier

  datatype Block =
    | H1(text: string) | H2(text: string) | H3(text: string) | H4(text: string)
    | BoldBullet(term: string, text: string)
    | Bullet(text: string)
    | NumberedBold(number: string, term: string, text: string)
    | Numbered(number: string, text: string)
    | Spacer
    | Paragraph(text: string)

  /** The four heading tests. */
  function HeadingBlock(line: string): (r: Option<Block>)
    ensures r.Some? <==> StartsWith(line, "# ") || StartsWith(line, "## ") || StartsWith(line, "### ") || StartsWith(line, "#### ")
    ensures r.Some? ==> (r.value.H1? || r.value.H2? || r.value.H3? || r.value.H4?)
    ensures r.Some? && r.value.H1? <==> StartsWith(line, "# ")
    ensures r.Some? && r.value.H1? ==> line == "# " + r.value.text
    ensures r.Some? && r.value.H2? ==> line == "## " + r.value.text
    ensures r.Some? && r.value.H3? ==> line == "### " + r.value.text
    ensures r.Some? && r.value.H4? ==> line == "#### " + r.value.text
  {
    if StartsWith(line, "# ") then Some(H1(line[2..]))
    else if StartsWith(line, "## ") then Some(H2(line[3..]))
    else if StartsWith(line, "### ") then Some(H3(line[4..]))
    else if StartsWith(line, "#### ") then Some(H4(line[5..]))
    else None
  }

  /** The bold-bullet test, then the plain-bullet test. */
  function BulletBlock(line: string): (r: Option<Block>)
    ensures r.Some? <==> StartsWith(line, "- ")
    ensures r.Some? ==> r.value.BoldBullet? || r.value.Bullet?
    ensures r.Some? && r.value.BoldBullet? <==> StartsWith(line, "- **") && SearchBoldBullet(line, 0).Some?
    ensures r.Some? && r.value.BoldBullet? ==> SearchBoldBullet(line, 0) == Some((r.value.term, r.value.text))
    ensures r.Some? && !r.value.BoldBullet? ==> r.value == Bullet(line[2..]) && line == "- " + r.value.text
  {
    assert StartsWith(line, "- **") ==> StartsWith(line, "- ") by {
      if StartsWith(line, "- **") { assert line[..2] == line[..4][..2]; }
    }
    if StartsWith(line, "- **") && SearchBoldBullet(line, 0).Some? then
      var g := SearchBoldBullet(line, 0).value;
      Some(BoldBullet(g.0, g.1))
    else if StartsWith(line, "- ") then Some(Bullet(line[2..]))
    else None
  }

  /** The numbered-bold test, then the numbered test. */
  function NumberedBlock(line: string): (r: Option<Block>)
    ensures r.Some? ==> DigitRun(line, 0) >= 1 && StartsWith(line[DigitRun(line, 0)..], ". ")
    ensures r.Some? ==> (r.value.NumberedBold? || r.value.Numbered?) && r.value.number == line[..DigitRun(line, 0)]
    ensures r.Some? ==> StartsWith(line, r.value.number + ". ") && |r.value.number| >= 1
    ensures r.Some? ==> forall i :: 0 <= i < |r.value.number| ==> IsDigit(r.value.number[i])
    ensures r.Some? && r.value.NumberedBold? <==> MatchNumberedBold(line).Some?
    ensures r.Some? && r.value.NumberedBold? ==> MatchNumberedBold(line) == Some((r.value.number, r.value.term, r.value.text))
    ensures r.Some? && r.value.Numbered? <==> MatchNumberedBold(line).None? && MatchNumbered(line).Some?
    ensures r.Some? && r.value.Numbered? ==> MatchNumbered(line) == Some((r.value.number, r.value.text))
  {
    var n := DigitRun(line, 0);
    assert StartsWith(line[n..], ". **") ==> StartsWith(line[n..], ". ") by {
      if StartsWith(line[n..], ". **") { assert line[n..][..2] == line[n..][..4][..2]; }
    }
    assert StartsWith(line[n..], ". ") ==> line[..n] + ". " == line[..n + 2];
    if n >= 1 && StartsWith(line[n..], ". **") && MatchNumberedBold(line).Some? then
      var g := MatchNumberedBold(line).value;
      Some(NumberedBold(g.0, g.1, g.2))
    else if n >= 1 && StartsWith(line[n..], ". ") && MatchNumbered(line).Some? then
      var g := MatchNumbered(line).value;
      Some(Numbered(g.0, g.1))
    else None
  }

  /** The if-chain of the content renderer, in its order. */
  function Classify(line: string): (b: Block)
    ensures b.H1? <==> StartsWith(line, "# ")
    ensures b.H1? ==> line == "# " + b.text
    ensures b.H2? ==> line == "## " + b.text
    ensures b.H3? ==> line == "### " + b.text
    ensures b.H4? ==> line == "#### " + b.text
    ensures b.BoldBullet? ==> StartsWith(line, "- **")
    ensures b.Bullet? ==> line == "- " + b.text
    ensures (b.Numbered? || b.NumberedBold?) ==> |b.number| >= 1 && StartsWith(line, b.number + ". ")
    ensures (b.Numbered? || b.NumberedBold?) ==> forall i :: 0 <= i < |b.number| ==> IsDigit(b.number[i])
    ensures b.Spacer? <==> IsBlank(line)
    ensures b.Paragraph? ==> b.text == line
  {
    BlankHasNoMarker(line);
    match HeadingBlock(line)
    case Some(h) => h
    case None => ListBlock(line)
  }

  /** The tests after the headings: bullets, numbered items, the spacer, the paragraph. */
  function ListBlock(line: string): (b: Block)
    ensures !(b.H1? || b.H2? || b.H3? || b.H4?)
    ensures b.BoldBullet? ==> StartsWith(line, "- **")
    ensures b.Bullet? ==> line == "- " + b.text
    ensures (b.Numbered? || b.NumberedBold?) ==> |b.number| >= 1 && StartsWith(line, b.number + ". ")
    ensures (b.Numbered? || b.NumberedBold?) ==> forall i :: 0 <= i < |b.number| ==> IsDigit(b.number[i])
    ensures b.Spacer? <==> IsBlank(line)
    ensures b.Paragraph? ==> b.text == line
  {
    BlankHasNoMarker(line);
    match BulletBlock(line)
    case Some(u) => u
    case None =>
      match NumberedBlock(line)
      case Some(k) => k
      case None => if IsBlank(line) then Spacer else Paragraph(line)
  }

  /** A blank line starts with none of the markers, so it always reaches the spacer test. */
  lemma BlankHasNoMarker(line: string)
    ensures IsBlank(line) ==> !StartsWith(line, "# ") && !StartsWith(line, "## ") && !StartsWith(line, "### ")
                              && !StartsWith(line, "#### ") && !StartsWith(line, "- ") && DigitRun(line, 0) == 0
  {
    if IsBlank(line) && |line| > 0 {
      assert IsTrimmed(line[0]);
    }
  }

  /** The page's output: one block per line of the content, in order. */
  function Render(content: string): (blocks: seq<Block>)
    ensures |blocks| == |SplitLines(content)|
    ensures forall i :: 0 <= i < |blocks| ==> blocks[i] == Classify(SplitLines(content)[i])
  {
    var lines := SplitLines(content);
    seq(|lines|, i requires 0 <= i < |lines| => Classify(lines[i]))
  }

  /** A content of n line feeds renders as n + 1 blocks. */
  lemma BlockPerLine(content: string)
    ensures |Render(content)| == LineFeeds(content) + 1
  {
    JoinSplit(content);
  }

  // ----- Which lines become which blocks

  /** The four heading prefixes are told apart by their exact marker. */
  lemma HeadingLevels(line: string)
    ensures Classify(line).H2? <==> StartsWith(line, "## ")
    ensures Classify(line).H3? <==> StartsWith(line, "### ")
    ensures Classify(line).H4? <==> StartsWith(line, "#### ")
  {
    assert StartsWith(line, "## ") || StartsWith(line, "### ") || StartsWith(line, "#### ") ==> !StartsWith(line, "# ") by {
      if StartsWith(line, "## ") || StartsWith(line, "### ") || StartsWith(line, "#### ") {
        assert line[1] == '#';
      }
    }
    assert StartsWith(line, "### ") || StartsWith(line, "#### ") ==> !StartsWith(line, "## ") by {
      if StartsWith(line, "### ") || StartsWith(line, "#### ") {
        assert line[2] == '#';
      }
    }
    assert StartsWith(line, "#### ") ==> !StartsWith(line, "### ") by {
      if StartsWith(line, "#### ") {
        assert line[3] == '#';
      }
    }
  }

  /** No `** — ` starts inside the term, so the lazy group cannot stop before the term ends. */
  predicate NoSeparatorInside(a: string) {
    forall i :: 0 <= i < |a| ==> !SeparatorAt(a + BoldEnd, i)
  }

  /** A term without `*` has no separator starting inside it. */
  lemma StarFreeTerm(a: string)
    requires forall i :: 0 <= i < |a| ==> a[i] != '*'
    ensures NoSeparatorInside(a)
  {
    forall i | 0 <= i < |a| ensures !SeparatorAt(a + BoldEnd, i) {
      assert (a + BoldEnd)[i] == a[i];
    }
  }

  /** From `k` on, the lazy group of `a ** — b` stops exactly after `a`. */
  lemma {:induction false} LazyEndFinds(s: string, start: nat, k: nat, a: string, b: string)
    requires 1 <= k <= |a| && start <= |s|
    requires s[start..] == a + BoldEnd + b
    requires NoSeparatorInside(a) && forall i :: 0 <= i < |a| ==> !IsLineTerminator(a[i])
    requires |b| >= 1 && !IsLineTerminator(b[0])
    ensures LazyEnd(s, start, k) == Some(|a|)
    decreases |a| - k
  {
    assert |s| == start + |a| + 5 + |b|;
    assert s[start + k - 1] == (a + BoldEnd + b)[k - 1] == a[k - 1];
    forall i | start + k <= i < start + k + 5 ensures s[i] == (a + BoldEnd)[i - start] {
      assert s[i] == (a + BoldEnd + b)[i - start];
    }
    assert SeparatorAt(s, start + k) == SeparatorAt(a + BoldEnd, k);
    if k < |a| {
      LazyEndFinds(s, start, k + 1, a, b);
    } else {
      assert (a + BoldEnd)[|a|..] == BoldEnd;
      assert SeparatorAt(s, start + k);
      assert s[start + k + 5] == (a + BoldEnd + b)[|a| + 5] == b[0];
    }
  }

  /** The lazy term of `a ** — b` is `a` and the text is `b`, when no separator starts inside
      `a` and neither contains a line terminator. */
  lemma LazyTermFinds(s: string, start: nat, a: string, b: string)
    requires start <= |s| && s[start..] == a + BoldEnd + b
    requires |a| >= 1 && NoSeparatorInside(a) && forall i :: 0 <= i < |a| ==> !IsLineTerminator(a[i])
    requires |b| >= 1 && forall i :: 0 <= i < |b| ==> !IsLineTerminator(b[i])
    ensures LazyTerm(s, start) == Some((a, b))
  {
    LazyEndFinds(s, start, 1, a, b);
    var tail := start + |a| + 5;
    assert s[tail..] == (a + BoldEnd + b)[|a| + 5..] == b;
    forall j | tail <= j < |s| ensures !IsLineTerminator(s[j]) {
      assert s[j] == b[j - tail];
    }
    LineRunToEnd(s, tail);
    assert RestOfLine(s, tail) == s[tail..|s|] == b;
    assert s[start..start + |a|] == (a + BoldEnd + b)[..|a|] == a;
    assert LazyTerm(s, start) == Some((s[start..start + |a|], RestOfLine(s, tail)));
  }

  lemma LineRunToEnd(s: string, i: nat)
    requires i <= |s| && forall j :: i <= j < |s| ==> !IsLineTerminator(s[j])
    ensures LineRun(s, i) == |s| - i
  {
  }

  /** Where the lazy group stops, a separator starts. */
  lemma LazyEndSeparator(s: string, start: nat)
    requires start <= |s|
    ensures LazyEnd(s, start, 1).Some? ==> SeparatorAt(s, start + LazyEnd(s, start, 1).value)
  {
  }

  /** A line in which `** — ` never occurs has no bold match of either kind. */
  lemma NoSeparatorNoBold(line: string)
    requires forall i :: 0 <= i < |line| ==> !SeparatorAt(line, i)
    ensures SearchBoldBullet(line, 0).None? && MatchNumberedBold(line).None?
  {
    forall q | 0 <= q ensures !BoldBulletAt(line, q) {
      if q + 4 <= |line| { LazyEndSeparator(line, q + 4); }
    }
    var n := DigitRun(line, 0);
    if n + 4 <= |line| { LazyEndSeparator(line, n + 4); }
  }

  /** `- **A** — B` becomes a bold bullet of A and B. */
  lemma BoldBulletLine(a: string, b: string)
    requires |a| >= 1 && NoSeparatorInside(a) && forall i :: 0 <= i < |a| ==> !IsLineTerminator(a[i])
    requires |b| >= 1 && forall i :: 0 <= i < |b| ==> !IsLineTerminator(b[i])
    ensures Classify("- **" + a + BoldEnd + b) == BoldBullet(a, b)
  {
    var line := "- **" + a + BoldEnd + b;
    BoldBulletBlock(line, a, b);
    assert HeadingBlock(line).None? by {
      assert line[0] == '-';
    }
  }

  lemma BoldBulletBlock(line: string, a: string, b: string)
    requires |a| >= 1 && NoSeparatorInside(a) && forall i :: 0 <= i < |a| ==> !IsLineTerminator(a[i])
    requires |b| >= 1 && forall i :: 0 <= i < |b| ==> !IsLineTerminator(b[i])
    requires line == "- **" + a + BoldEnd + b
    ensures BulletBlock(line) == Some(BoldBullet(a, b))
  {
    assert line[4..] == a + BoldEnd + b;
    LazyTermFinds(line, 4, a, b);
    assert StartsWith(line, "- **");
    assert line[0..] == line;
    assert BoldBulletAt(line, 0);
    assert FirstBoldBullet(line, 0) == Some(0);
  }

  /** A line opening with `- ` that the bold pattern does not match, whether or not it opens
      with `- **`, is a plain bullet without its first two characters. */
  lemma PlainBulletLine(line: string)
    requires StartsWith(line, "- ")
    requires !StartsWith(line, "- **") || SearchBoldBullet(line, 0).None?
    ensures Classify(line) == Bullet(line[2..])
  {
    assert line[0] == '-';
  }

  /** An unclosed bold marker falls through to the plain bullet. */
  lemma UnclosedBoldBullet()
    ensures Classify("- **x") == Bullet("**x")
  {
    var line := "- **x";
    forall i | 0 <= i < |line| ensures !SeparatorAt(line, i) {
      assert i + 5 <= |line| ==> i == 0;
    }
    NoSeparatorNoBold(line);
    assert StartsWith(line, "- ") by { assert line[..2] == "- "; }
    PlainBulletLine(line);
    assert line[2..] == "**x";
  }

  /** `N. **A** — B` becomes a numbered bold item of N, A and B. */
  lemma NumberedBoldLine(n: string, a: string, b: string)
    requires |n| >= 1 && forall i :: 0 <= i < |n| ==> IsDigit(n[i])
    requires |a| >= 1 && NoSeparatorInside(a) && forall i :: 0 <= i < |a| ==> !IsLineTerminator(a[i])
    requires |b| >= 1 && forall i :: 0 <= i < |b| ==> !IsLineTerminator(b[i])
    ensures Classify(n + ". **" + a + BoldEnd + b) == NumberedBold(n, a, b)
  {
    var line := n + ". **" + a + BoldEnd + b;
    NumberedBoldBlock(line, n, a, b);
    assert line[0] == n[0];
    DigitLineNoMarker(line);
  }

  lemma NumberedBoldBlock(line: string, n: string, a: string, b: string)
    requires |n| >= 1 && forall i :: 0 <= i < |n| ==> IsDigit(n[i])
    requires |a| >= 1 && NoSeparatorInside(a) && forall i :: 0 <= i < |a| ==> !IsLineTerminator(a[i])
    requires |b| >= 1 && forall i :: 0 <= i < |b| ==> !IsLineTerminator(b[i])
    requires line == n + ". **" + a + BoldEnd + b
    ensures NumberedBlock(line) == Some(NumberedBold(n, a, b))
  {
    DigitPrefix(line, n);
    assert line[|n|..] == ". **" + a + BoldEnd + b;
    assert StartsWith(line[|n|..], ". **");
    assert line[|n| + 4..] == a + BoldEnd + b;
    LazyTermFinds(line, |n| + 4, a, b);
    assert line[..|n|] == n;
    assert MatchNumberedBold(line) == Some((n, a, b));
  }

  /** A line opening with a digit is neither a heading nor a bullet. */
  lemma DigitLineNoMarker(line: string)
    requires |line| > 0 && IsDigit(line[0])
    ensures HeadingBlock(line).None? && BulletBlock(line).None?
  {
    assert !StartsWith(line, "# ") && !StartsWith(line, "## ") && !StartsWith(line, "### ")
           && !StartsWith(line, "#### ") && !StartsWith(line, "- ");
  }

  /** `N. text` with non-empty text becomes a numbered item of N and text whenever the bold
      pattern does not match, including texts that open with an unclosed `**`. */
  lemma NumberedLine(n: string, t: string)
    requires |n| >= 1 && forall i :: 0 <= i < |n| ==> IsDigit(n[i])
    requires |t| >= 1 && forall i :: 0 <= i < |t| ==> !IsLineTerminator(t[i])
    requires MatchNumberedBold(n + ". " + t).None?
    ensures Classify(n + ". " + t) == Numbered(n, t)
  {
    var line := n + ". " + t;
    NumberedBlockPlain(line, n, t);
    assert line[0] == n[0];
    DigitLineNoMarker(line);
  }

  lemma NumberedBlockPlain(line: string, n: string, t: string)
    requires |n| >= 1 && forall i :: 0 <= i < |n| ==> IsDigit(n[i])
    requires |t| >= 1 && forall i :: 0 <= i < |t| ==> !IsLineTerminator(t[i])
    requires line == n + ". " + t
    requires MatchNumberedBold(line).None?
    ensures NumberedBlock(line) == Some(Numbered(n, t))
  {
    DigitPrefix(line, n);
    assert line[|n|..] == ". " + t;
    assert StartsWith(line[|n|..], ". ");
    assert line[|n| + 2..] == t;
    LineRunToEnd(line, |n| + 2);
    assert |n| + 2 + LineRun(line, |n| + 2) == |line|;
    assert line[|n| + 2..|line|] == t;
    assert line[..|n|] == n;
    assert MatchNumbered(line) == Some((n, t));
  }

  /** A text that does not open with `**` never matches the numbered bold pattern. */
  lemma PlainNumberedText(n: string, t: string)
    requires |n| >= 1 && forall i :: 0 <= i < |n| ==> IsDigit(n[i])
    requires !StartsWith(t, "**")
    ensures MatchNumberedBold(n + ". " + t).None?
  {
    var line := n + ". " + t;
    DigitPrefix(line, n);
    assert line[|n|..] == ". " + t;
    assert !StartsWith(line[|n|..], ". **") by {
      if |t| >= 2 {
        assert line[|n|..][2..4] == t[..2];
      }
    }
  }

  /** An unclosed bold marker after a number falls through to the plain numbered item. */
  lemma UnclosedBoldNumbered()
    ensures Classify("1. **x") == Numbered("1", "**x")
  {
    var line := "1. **x";
    forall i | 0 <= i < |line| ensures !SeparatorAt(line, i) {
      assert i + 5 <= |line| ==> i <= 1;
    }
    NoSeparatorNoBold(line);
    assert line == "1" + ". " + "**x";
    NumberedLine("1", "**x");
  }

  lemma DigitPrefix(line: string, n: string)
    requires |n| >= 1 && forall i :: 0 <= i < |n| ==> IsDigit(n[i])
    requires |line| > |n| && line[..|n|] == n && line[|n|] == '.'
    ensures DigitRun(line, 0) == |n|
  {
    DigitRunFrom(line, 0, |n|);
  }

  lemma {:induction false} DigitRunFrom(s: string, i: nat, e: nat)
    requires i <= e < |s| && forall j :: i <= j < e ==> IsDigit(s[j])
    requires !IsDigit(s[e])
    ensures DigitRun(s, i) == e - i
    decreases e - i
  {
    if i < e {
      DigitRunFrom(s, i + 1, e);
    }
  }

  // ----- Previous and next module

  /** `prevModule` and `nextModule` around module `id` in the list ordered by `orderIndex`; an
      absent list has neither, and an absent id counts as index -1. */
  function Neighbours(modules: Option<seq<CourseModule>>, id: string): (r: (Option<CourseModule>, Option<CourseModule>))
    ensures modules.None? ==> r.0.None? && r.1.None?
    ensures modules.Some? ==>
              var sorted := SortBy(modules.value, (m: CourseModule) => m.orderIndex);
              var found := FirstIndex(sorted, (m: CourseModule) => m.id == id);
              var idx := if found.Some? then found.value as int else -1;
              && (r.0.Some? <==> idx > 0)
              && (r.0.Some? ==> r.0.value == sorted[idx - 1])
              && (r.1.Some? <==> idx < |sorted| - 1)
              && (r.1.Some? ==> r.1.value == sorted[idx + 1])
  {
    match modules
    case None => (None, None)
    case Some(ms) =>
      var sorted := SortBy(ms, (m: CourseModule) => m.orderIndex);
      var idx := match FirstIndex(sorted, (m: CourseModule) => m.id == id)
        case Some(i) => i as int
        case None => -1;
      (if idx > 0 then Some(sorted[idx - 1]) else None,
       if idx < |sorted| - 1 then Some(sorted[idx + 1]) else None)
  }

  /** A module missing from the list has no previous module, and the first module comes next. */
  lemma AbsentModuleNeighbours(modules: seq<CourseModule>, id: string)
    requires forall m :: m in modules ==> m.id != id
    requires |modules| >= 1
    ensures Neighbours(Some(modules), id).0.None?
    ensures Neighbours(Some(modules), id) .1 == Some(SortBy(modules, (m: CourseModule) => m.orderIndex)[0])
  {
    var sorted := SortBy(modules, (m: CourseModule) => m.orderIndex);
    assert forall j :: 0 <= j < |sorted| ==> sorted[j] in modules;
  }

  /** The neighbours are adjacent in `orderIndex` order: the previous one's key is not above the
      current module's, and the next one's not below. */
  lemma NeighboursOrdered(modules: seq<CourseModule>, id: string, current: CourseModule)
    requires current in modules && current.id == id
    requires forall m :: m in modules && m.id == id ==> m == current
    ensures var r := Neighbours(Some(modules), id);
            && (r.0.Some? ==> r.0.value.orderIndex <= current.orderIndex)
            && (r.1.Some? ==> current.orderIndex <= r.1.value.orderIndex)
  {
    var sorted := SortBy(modules, (m: CourseModule) => m.orderIndex);
    var f := FirstIndex(sorted, (m: CourseModule) => m.id == id);
    assert current in sorted;
    var i := f.value;
    assert sorted[i] in modules;
    assert sorted[i] == current;
  }
}
