/** `ContractService.toBlocks`: the contract text is pre-normalised with a
    chain of regular-expression rewrites, cut into trimmed non-empty lines,
    and the lines are grouped into headings, items, subitems and paragraphs. */
module ContractBlocks {
  import opened Wrappers
  import opened Text

  datatype Block = Heading(text: string) | Item(text: string) | Subitem(text: string) | Para(text: string)

  /* ---------------- pre-normalisation ---------------- */

  /** `/\r\n/g`, replaced by "\n". */
  function CrLfMatch(s: string, i: nat): Match {
    if i + 1 < |s| && s[i] == '\r' && s[i + 1] == '\n' then Match(2, "\n") else NoMatch
  }

  /** `/\s*CONTATO\b\s*\/gi`, replaced by "\nCONTATO\n". */
  function ContatoMatch(s: string, i: nat): Match {
    var w := i + SpaceRun(s, i);
    if EqCIAt(s, w, "CONTATO") && IsBoundary(s, w + 7)
    then Match(w + 7 + SpaceRun(s, w + 7) - i, "\nCONTATO\n")
    else NoMatch
  }

  /** `/\s*(\d+\)\s+)/g`, replaced by "\n$1". */
  function ParenMatch(s: string, i: nat): Match {
    var w := i + SpaceRun(s, i);
    var d := DigitRun(s, w);
    if d > 0 && w + d < |s| && s[w + d] == ')' && SpaceRun(s, w + d + 1) > 0
    then
      var e := w + d + 1 + SpaceRun(s, w + d + 1);
      Match(e - i, "\n" + s[w..e])
    else NoMatch
  }

  /** The greedy `(?:\d+\.)*` at `j`: how many groups it takes and their
      total length. */
  function DotGroups(s: string, j: nat): (g: (nat, nat))
    ensures g.0 == 0 <==> g.1 == 0
    ensures g.1 == 0 || j + g.1 <= |s|
    decreases |s| - j
  {
    var d := DigitRun(s, j);
    if d > 0 && j + d < |s| && s[j + d] == '.'
    then
      var r := DotGroups(s, j + d + 1);
      (r.0 + 1, r.1 + d + 1)
    else (0, 0)
  }

  /** `/\s+((?:\d+\.){2,}\s+)/g`, replaced by "\n$1". */
  function SubitemMatch(s: string, i: nat): Match {
    var sp := SpaceRun(s, i);
    var g := DotGroups(s, i + sp);
    var e := i + sp + g.1;
    if sp > 0 && g.0 >= 2 && SpaceRun(s, e) > 0
    then Match(e + SpaceRun(s, e) - i, "\n" + s[i + sp..e + SpaceRun(s, e)])
    else NoMatch
  }

  /** `/\s+(\d+\.\s+)/g`, replaced by "\n$1". */
  function ItemMatch(s: string, i: nat): Match {
    var sp := SpaceRun(s, i);
    var d := DigitRun(s, i + sp);
    var e := i + sp + d + 1;
    if sp > 0 && d > 0 && i + sp + d < |s| && s[i + sp + d] == '.' && SpaceRun(s, e) > 0
    then Match(e + SpaceRun(s, e) - i, "\n" + s[i + sp..e + SpaceRun(s, e)])
    else NoMatch
  }

  predicate IsBlank(c: char) { c == ' ' || c == '\t' }
  predicate IsNewline(c: char) { c == '\n' }

  /** `/[ \t]+/g`, replaced by " ". */
  function BlanksMatch(s: string, i: nat): Match {
    if Run(s, i, IsBlank) > 0 then Match(Run(s, i, IsBlank), " ") else NoMatch
  }

  /** `/\n{3,}/g`, replaced by "\n\n". */
  function NewlinesMatch(s: string, i: nat): Match {
    if Run(s, i, IsNewline) >= 3 then Match(Run(s, i, IsNewline), "\n\n") else NoMatch
  }

  /** The text after the rewrites, before it is cut into lines. */
  function Prepared(raw: string): string {
    var t := Trim(ReplaceAll(raw, CrLfMatch));
    var t := ReplaceAll(ReplaceAll(ReplaceAll(ReplaceAll(t, ContatoMatch), ParenMatch), SubitemMatch), ItemMatch);
    ReplaceAll(ReplaceAll(t, BlanksMatch), NewlinesMatch)
  }

  predicate NonEmpty(s: string) { s != [] }

  /** `t.split('\n').map(s => s.trim()).filter(Boolean)`. */
  function ContractLines(raw: string): seq<string> {
    Filter(MapSeq(Split(Prepared(raw), '\n'), Trim), NonEmpty)
  }

  /* ---------------- line classes ---------------- */

  /** `/^CONTATO$/i`. */
  predicate IsContatoLine(s: string) { |s| == 7 && EqCIAt(s, 0, "CONTATO") }

  /** `/^\d+\)\s+/`. */
  predicate IsNumbered(s: string) {
    var d := DigitRun(s, 0);
    d > 0 && d < |s| && s[d] == ')' && SpaceRun(s, d + 1) > 0
  }

  /** `/^(?:\d+\.){2,}\s+/`. */
  predicate IsSubitemLine(s: string) {
    var g := DotGroups(s, 0);
    g.0 >= 2 && SpaceRun(s, g.1) > 0
  }

  /** `/^\d+\.\s+/`. */
  predicate IsItemLine(s: string) {
    var d := DigitRun(s, 0);
    d > 0 && d < |s| && s[d] == '.' && SpaceRun(s, d + 1) > 0
  }

  /** A line that only extends the pending paragraph. */
  predicate IsPlain(s: string) {
    !IsContatoLine(s) && !IsNumbered(s) && !IsSubitemLine(s) && !IsItemLine(s)
  }

  /** What `.` does not match. */
  predicate IsLineTerminator(c: char) {
    c == '\n' || c == '\r' || c == '\U{2028}' || c == '\U{2029}'
  }

  predicate HasLineTerminator(r: string) {
    exists k :: 0 <= k < |r| && IsLineTerminator(r[k])
  }

  /** `/\s[\p{Lu}][\p{Ll}]/u` at position `j`. */
  predicate BreakAt(r: string, j: nat) {
    j + 2 < |r| && IsSpace(r[j]) && IsUpperLetter(r[j + 1]) && IsLowerLetter(r[j + 2])
  }

  /** `r.search(/\s[\p{Lu}][\p{Ll}]/u)` from position `j` on. */
  function BreakFrom(r: string, j: nat): (idx: int)
    ensures idx == -1 || (j <= idx && BreakAt(r, idx))
    ensures idx >= 0 ==> forall k :: j <= k < idx ==> !BreakAt(r, k)
    ensures idx == -1 ==> forall k :: j <= k < |r| ==> !BreakAt(r, k)
    decreases |r| - j
  {
    if j + 2 >= |r| then -1 else if BreakAt(r, j) then j else BreakFrom(r, j + 1)
  }

  /** Where `rest` starts in a numbered line: after the number, the `)` and
      the spaces that follow. */
  function RestStart(s: string): (n: nat)
    requires IsNumbered(s)
    ensures DigitRun(s, 0) + 1 < n <= |s|
  {
    var d := DigitRun(s, 0);
    d + 1 + SpaceRun(s, d + 1)
  }

  /** `${num} ${heading}` with the text before the break trimmed and its
      whitespace runs collapsed. */
  function HeadingText(num: string, before: string): (t: string)
    ensures |t| > |num| && t[..|num| + 1] == num + " "
  {
    num + " " + CollapseSpaces(Trim(before))
  }

  /** The blocks of a line "N) rest": `^(\d+\))\s+(.+)$` takes the number and
      the rest; a break "space, upper-case letter, lower-case letter" in the
      rest splits it into the heading "N) <before>" and a paragraph. */
  function NumberedBlocks(s: string): (bs: seq<Block>)
    requires IsNumbered(s)
    ensures forall k :: 0 <= k < |bs| ==> bs[k].text != []
  {
    var rest := s[RestStart(s)..];
    if rest == [] || HasLineTerminator(rest) then [Heading(s)]
    else
      var idx := BreakFrom(rest, 0);
      if idx > -1 then BrokenHeading(s[..DigitRun(s, 0) + 1], rest, idx) else [Heading(s)]
  }

  /** The heading "N) <before the break>", then the trimmed text from the
      break's upper-case letter on as a paragraph when it is not empty. */
  function BrokenHeading(num: string, rest: string, idx: nat): (bs: seq<Block>)
    requires idx < |rest|
    ensures forall k :: 0 <= k < |bs| ==> bs[k].text != []
  {
    var body := Trim(rest[idx + 1..]);
    [Heading(HeadingText(num, rest[..idx]))] + (if body != [] then [Para(body)] else [])
  }

  /* ---------------- grouping ---------------- */

  /** The loop state: blocks emitted, the pending paragraph lines and the
      flag raised by a CONTATO heading. */
  datatype Grouping = Grouping(blocks: seq<Block>, buf: seq<string>, afterContato: bool)

  const Start := Grouping([], [], false)

  /** `flushPara`: the pending lines become one space-joined paragraph. */
  function Flush(g: Grouping): Grouping {
    if |g.buf| > 0 then g.(blocks := g.blocks + [Para(Join(g.buf, " "))], buf := []) else g
  }

  /** A flush, then the blocks of the current line. */
  function Emit(g: Grouping, bs: seq<Block>): Grouping {
    var f := Flush(g);
    f.(blocks := f.blocks + bs)
  }

  /** One iteration of the loop over the lines. */
  function Step(g: Grouping, s: string): Grouping {
    if IsContatoLine(s) then Emit(g, [Heading("CONTATO")]).(afterContato := true)
    else if g.afterContato then Emit(g, [Para(s)]).(afterContato := false)
    else if IsNumbered(s) then Emit(g, NumberedBlocks(s))
    else if IsSubitemLine(s) then Emit(g, [Subitem(s)])
    else if IsItemLine(s) then Emit(g, [Item(s)])
    else g.(buf := g.buf + [s])
  }

  /** The state after the lines `ls`, in order. */
  function Group(g: Grouping, ls: seq<string>): Grouping
    decreases |ls|
  {
    if ls == [] then g else Step(Group(g, ls[..|ls| - 1]), ls[|ls| - 1])
  }

  /** `toBlocks(raw)`. */
  function ToBlocks(raw: string): seq<Block> {
    Flush(Group(Start, ContractLines(raw))).blocks
  }

  /* ---------------- the loop ---------------- */

  method FlushPara(blocks: seq<Block>, buf: seq<string>) returns (blocks': seq<Block>, buf': seq<string>)
    ensures Grouping(blocks', buf', false) == Flush(Grouping(blocks, buf, false))
  {
    blocks', buf' := blocks, buf;
    if |buf| > 0 {
      blocks' := blocks + [Para(Join(buf, " "))];
      buf' := [];
    }
  }

  method ContractToBlocks(raw: string) returns (blocks: seq<Block>)
    ensures blocks == ToBlocks(raw)
  {
    var lines := ContractLines(raw);
    blocks := GroupLines(lines);
  }

  /** The loop over the lines, with `flushPara` after it. */
  method GroupLines(lines: seq<string>) returns (blocks: seq<Block>)
    ensures blocks == Flush(Group(Start, lines)).blocks
  {
    blocks := [];
    var buf: seq<string> := [];
    var afterContato := false;
    for i := 0 to |lines|
      invariant Grouping(blocks, buf, afterContato) == Group(Start, lines[..i])
    {
      var s := lines[i];
      assert lines[..i + 1][..i] == lines[..i];
      if IsContatoLine(s) {
        blocks, buf := FlushPara(blocks, buf);
        blocks := blocks + [Heading("CONTATO")];
        afterContato := true;
        continue;
      }
      if afterContato {
        blocks, buf := FlushPara(blocks, buf);
        blocks := blocks + [Para(s)];
        afterContato := false;
        continue;
      }
      if IsNumbered(s) {
        blocks, buf := FlushPara(blocks, buf);
        blocks := blocks + NumberedBlocks(s);
        continue;
      }
      if IsSubitemLine(s) {
        blocks, buf := FlushPara(blocks, buf);
        blocks := blocks + [Subitem(s)];
        continue;
      }
      if IsItemLine(s) {
        blocks, buf := FlushPara(blocks, buf);
        blocks := blocks + [Item(s)];
        continue;
      }
      buf := buf + [s];
    }
    assert lines[..|lines|] == lines;
    blocks, buf := FlushPara(blocks, buf);
  }

  /* ---------------- properties ---------------- */

  /** Every line handed to the loop is non-empty, has no whitespace at
      either end and holds no newline. */
  lemma {:induction false} ContractLinesShape(raw: string)
    ensures forall k :: 0 <= k < |ContractLines(raw)| ==> ShapedLine(ContractLines(raw)[k])
  {
    TrimmedLinesShape(Split(Prepared(raw), '\n'));
  }

  lemma {:induction false} TrimmedLinesShape(parts: seq<string>)
    requires forall k :: 0 <= k < |parts| ==> '\n' !in parts[k]
    ensures forall k :: 0 <= k < |Filter(MapSeq(parts, Trim), NonEmpty)| ==> ShapedLine(Filter(MapSeq(parts, Trim), NonEmpty)[k])
  {
    var trimmed := MapSeq(parts, Trim);
    var lines := Filter(trimmed, NonEmpty);
    forall k | 0 <= k < |lines| ensures ShapedLine(lines[k]) {
      var x := lines[k];
      FilterMember(trimmed, NonEmpty, x);
      var j :| 0 <= j < |trimmed| && trimmed[j] == x;
      TrimmedPart(parts[j]);
    }
  }

  predicate ShapedLine(x: string) {
    x != [] && !IsSpace(x[0]) && !IsSpace(x[|x| - 1]) && '\n' !in x
  }

  lemma {:induction false} TrimmedPart(p: string)
    requires '\n' !in p
    ensures Trim(p) != [] ==> ShapedLine(Trim(p))
  {
    TrimSpec(p);
    SliceLacks(p, Trim(p), |p| - |TrimStart(p)|, '\n');
  }

  /** A slice lacks whatever its string lacks. */
  lemma {:induction false} SliceLacks(p: string, r: string, a: nat, c: char)
    requires a + |r| <= |p| && r == p[a..a + |r|] && c !in p
    ensures c !in r
  {
    forall k | 0 <= k < |r| ensures r[k] != c {
      assert r[k] == p[a + k];
    }
  }

  /** No block is emitted with an empty text. */
  lemma {:induction false} BlocksNonEmpty(raw: string)
    ensures forall b :: b in ToBlocks(raw) ==> b.text != []
  {
    ContractLinesShape(raw);
    var lines := ContractLines(raw);
    GroupNonEmpty(Start, lines);
    FlushNonEmpty(Group(Start, lines));
  }

  predicate NonEmptyState(g: Grouping) {
    (forall b :: b in g.blocks ==> b.text != []) && (forall x :: x in g.buf ==> x != [])
  }

  lemma {:induction false} JoinNonEmpty(parts: seq<string>, sep: string)
    requires parts != [] && parts[0] != []
    ensures Join(parts, sep) != []
  {
  }

  lemma {:induction false} FlushNonEmpty(g: Grouping)
    requires NonEmptyState(g)
    ensures NonEmptyState(Flush(g))
  {
    if |g.buf| > 0 {
      assert g.buf[0] in g.buf;
      JoinNonEmpty(g.buf, " ");
    }
  }

  lemma {:induction false} EmitNonEmpty(g: Grouping, bs: seq<Block>)
    requires NonEmptyState(g)
    requires forall k :: 0 <= k < |bs| ==> bs[k].text != []
    ensures NonEmptyState(Emit(g, bs))
  {
    FlushNonEmpty(g);
  }

  lemma {:induction false} StepNonEmpty(g: Grouping, s: string)
    requires NonEmptyState(g) && s != []
    ensures NonEmptyState(Step(g, s))
  {
    if IsContatoLine(s) {
      EmitNonEmpty(g, [Heading("CONTATO")]);
    } else if g.afterContato {
      EmitNonEmpty(g, [Para(s)]);
    } else if IsNumbered(s) {
      EmitNonEmpty(g, NumberedBlocks(s));
    } else if IsSubitemLine(s) {
      EmitNonEmpty(g, [Subitem(s)]);
    } else if IsItemLine(s) {
      EmitNonEmpty(g, [Item(s)]);
    }
  }

  lemma {:induction false} GroupNonEmpty(g: Grouping, ls: seq<string>)
    requires NonEmptyState(g)
    requires forall k :: 0 <= k < |ls| ==> ShapedLine(ls[k])
    ensures NonEmptyState(Group(g, ls))
    decreases |ls|
  {
    if ls != [] {
      GroupNonEmpty(g, ls[..|ls| - 1]);
      StepNonEmpty(Group(g, ls[..|ls| - 1]), ls[|ls| - 1]);
    }
  }

  /** Grouping works line by line: the lines `a + b` give the state of `b`
      started from the state of `a`, so the blocks follow the line order. */
  lemma {:induction false} GroupConcat(g: Grouping, a: seq<string>, b: seq<string>)
    ensures Group(g, a + b) == Group(Group(g, a), b)
    decreases |b|
  {
    if b == [] {
      assert a + b == a;
    } else {
      var b' := b[..|b| - 1];
      assert (a + b)[..|a + b| - 1] == a + b';
      assert (a + b)[|a + b| - 1] == b[|b| - 1];
      GroupConcat(g, a, b');
    }
  }

  /** Consecutive plain lines only accumulate: they join the pending
      paragraph, and nothing is emitted until a heading, an item, a subitem
      or the end flushes them as one paragraph. */
  lemma {:induction false} PlainLinesMerge(g: Grouping, ls: seq<string>)
    requires !g.afterContato
    requires forall k :: 0 <= k < |ls| ==> IsPlain(ls[k])
    ensures Group(g, ls) == g.(buf := g.buf + ls)
    decreases |ls|
  {
    if ls == [] {
      assert g.buf + ls == g.buf;
    } else {
      var init := ls[..|ls| - 1];
      PlainLinesMerge(g, init);
      assert g.buf + init + [ls[|ls| - 1]] == g.buf + ls;
    }
  }

  /** A run of plain lines at the start of a contract (or after a flush)
      ends up as exactly one paragraph: their texts joined by spaces. */
  lemma {:induction false} PlainParagraph(ls: seq<string>)
    requires ls != []
    requires forall k :: 0 <= k < |ls| ==> IsPlain(ls[k])
    ensures Flush(Group(Start, ls)).blocks == [Para(Join(ls, " "))]
  {
    PlainLinesMerge(Start, ls);
    assert [] + ls == ls;
  }

  /** A line that is not plain flushes the pending paragraph before its own
      blocks, and leaves nothing pending; blocks already emitted stay first. */
  lemma {:induction false} StructuredLineFlushes(g: Grouping, s: string)
    requires !IsPlain(s)
    ensures Step(g, s).buf == []
    ensures Step(g, s).blocks[..|Flush(g).blocks|] == Flush(g).blocks
    ensures |g.buf| > 0 ==> Step(g, s).blocks[|g.blocks|] == Para(Join(g.buf, " "))
  {
  }

  /** A CONTATO line gives the heading "CONTATO", and the next line, unless
      it is CONTATO again, becomes a paragraph on its own whatever it looks
      like. */
  lemma {:induction false} ContatoThenLine(g: Grouping, c: string, s: string)
    requires IsContatoLine(c) && !IsContatoLine(s)
    ensures Group(g, [c, s]) == Grouping(Flush(g).blocks + [Heading("CONTATO"), Para(s)], [], false)
  {
    assert [c, s][..1] == [c] && [c, s][1] == s;
    assert [c][..0] == [];
    var g1 := Step(g, c);
    assert Group(g, [c]) == g1;
    assert g1 == Grouping(Flush(g).blocks + [Heading("CONTATO")], [], true);
    assert Flush(g1) == g1;
    assert Step(g1, s) == Grouping(Flush(g).blocks + [Heading("CONTATO"), Para(s)], [], false);
  }

  /** A numbered line "N) rest" becomes a heading that starts with "N) ";
      when the rest has a break, the heading is followed by the paragraph
      that starts at the break's upper-case letter. */
  lemma {:induction false} NumberedShape(s: string)
    requires IsNumbered(s)
    ensures var bs := NumberedBlocks(s); var num := s[..DigitRun(s, 0) + 1];
      bs == [Heading(s)] || BrokenShape(num, bs)
  {
    var rest := s[RestStart(s)..];
    if rest != [] && !HasLineTerminator(rest) {
      var idx := BreakFrom(rest, 0);
      if idx > -1 {
        BrokenHeadingShape(s[..DigitRun(s, 0) + 1], rest, idx);
      }
    }
  }

  /** A heading "N) ..." followed by a paragraph that opens with an
      upper-case and then a lower-case letter. */
  predicate BrokenShape(num: string, bs: seq<Block>) {
    |bs| == 2 && bs[0] == Heading(bs[0].text) && bs[1] == Para(bs[1].text)
    && |bs[0].text| > |num| && bs[0].text[..|num| + 1] == num + " "
    && |bs[1].text| >= 2 && IsUpperLetter(bs[1].text[0]) && IsLowerLetter(bs[1].text[1])
  }

  lemma {:induction false} BrokenHeadingShape(num: string, rest: string, idx: nat)
    requires BreakAt(rest, idx)
    ensures BrokenShape(num, BrokenHeading(num, rest, idx))
  {
    var tail := rest[idx + 1..];
    assert tail[0] == rest[idx + 1] && tail[1] == rest[idx + 2];
    TrimKeepsHead(tail);
  }

  /** Trimming a text whose first two characters are not whitespace keeps them. */
  lemma {:induction false} TrimKeepsHead(t: string)
    requires |t| >= 2 && !IsSpace(t[0]) && !IsSpace(t[1])
    ensures |Trim(t)| >= 2 && Trim(t)[0] == t[0] && Trim(t)[1] == t[1]
  {
    assert TrimStart(t) == t;
    TrimEndDrops(t);
  }

  lemma {:induction false} TrimEndDrops(t: string)
    ensures forall k :: |TrimEnd(t)| <= k < |t| ==> IsSpace(t[k])
    decreases |t|
  {
    if t != [] && IsSpace(t[|t| - 1]) {
      TrimEndDrops(t[..|t| - 1]);
    }
  }

  /** The three numbered line classes exclude each other, so the order in
      which the loop tests them does not matter. */
  lemma {:induction false} LineClassesDisjoint(s: string)
    ensures IsNumbered(s) ==> !IsItemLine(s) && !IsSubitemLine(s)
    ensures IsSubitemLine(s) ==> !IsItemLine(s)
  {
    var d := DigitRun(s, 0);
    if IsSubitemLine(s) {
      var r := DotGroups(s, d + 1);
      assert r.0 >= 1;
      assert IsDigit(s[d + 1]);
    }
  }
}
