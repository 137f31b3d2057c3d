/** The line splitter of the SDK's `SSEStream`: text arrives in chunks cut anywhere, lines end in
    CRLF, CR or LF (section 9.2.5 of the WHATWG HTML Standard), and a CR at the end of a chunk may
    be the first half of a CRLF. */
module SseLines {

  // ---- One-shot split -------------------------------------------------------------------------

  predicate IsBreak(c: char) {
    c == '\r' || c == '\n'
  }

  ghost predicate BreakFree(s: string) {
    forall i :: 0 <= i < |s| ==> !IsBreak(s[i])
  }

  /** How many characters the line break at the head of `t` takes: CRLF is tried before CR. */
  function BreakLength(t: string): (n: nat)
    requires t != "" && IsBreak(t[0])
    ensures 1 <= n <= |t|
  {
    if t[0] == '\r' && |t| > 1 && t[1] == '\n' then 2 else 1
  }

  /** Writes `head` in front of the first piece. */
  function Glue(head: string, pieces: seq<string>): (r: seq<string>)
    requires |pieces| > 0
    ensures |r| == |pieces|
  {
    [head + pieces[0]] + pieces[1..]
  }

  /** `t.split(/\r\n|\r|\n/)`. */
  function Split(t: string): (pieces: seq<string>)
    ensures |pieces| > 0
    decreases |t|
  {
    if t == "" then [""]
    else if IsBreak(t[0]) then [""] + Split(t[BreakLength(t)..])
    else Glue(t[..1], Split(t[1..]))
  }

  /** The terminated lines of `t`. */
  function Lines(t: string): seq<string> {
    var pieces := Split(t);
    pieces[..|pieces| - 1]
  }

  /** What follows the last line break of `t`. */
  function Tail(t: string): string {
    var pieces := Split(t);
    pieces[|pieces| - 1]
  }

  predicate EndsWithCr(t: string) {
    t != "" && t[|t| - 1] == '\r'
  }

  predicate StartsWithLf(t: string) {
    t != "" && t[0] == '\n'
  }

  /** A cut between `a` and `b` that does not fall inside a CRLF. */
  predicate CleanCut(a: string, b: string) {
    !(EndsWithCr(a) && StartsWithLf(b))
  }

  /** Splitting a concatenation: the lines of the left part stand, and only its unterminated tail
      is read again together with the right part. */
  lemma {:induction false} SplitConcat(a: string, b: string)
    requires CleanCut(a, b)
    ensures Split(a + b) == Lines(a) + Split(Tail(a) + b)
    decreases |a|
  {
    if a == "" {
      assert a + b == b && Tail(a) + b == b;
    } else if IsBreak(a[0]) {
      SplitConcatAtBreak(a, b);
    } else {
      SplitConcatAtText(a, b);
    }
  }

  /** A character that is no line break joins the first piece of what follows. */
  lemma SplitAfterChar(c: string, t: string)
    requires |c| == 1 && !IsBreak(c[0])
    ensures Split(c + t) == Glue(c, Split(t))
  {
  }

  lemma {:induction false} SplitConcatAtText(a: string, b: string)
    requires a != "" && !IsBreak(a[0]) && CleanCut(a, b)
    ensures Split(a + b) == Lines(a) + Split(Tail(a) + b)
    decreases |a|, 0
  {
    var c, rest := a[..1], a[1..];
    SplitConcat(rest, b);
    FirstChar(a, b);
    SplitConcatGlued(c, rest, b);
  }

  lemma FirstChar(a: string, b: string)
    requires a != ""
    ensures a[..1] + a[1..] == a && a[..1] + (a[1..] + b) == a + b
  {
  }

  /** One character in front. */
  lemma SplitConcatGlued(c: string, a: string, b: string)
    requires |c| == 1 && !IsBreak(c[0])
    requires Split(a + b) == Lines(a) + Split(Tail(a) + b)
    ensures Split(c + (a + b)) == Lines(c + a) + Split(Tail(c + a) + b)
  {
    SplitAfterChar(c, a + b);
    SplitAfterChar(c, a);
    TailGlued(c, a, b);
    GluedWhole(c, Split(a), Split(Tail(a) + b), Split(Tail(c + a) + b));
  }

  /** A character in front reaches the tail only when there is no line break. */
  lemma TailGlued(c: string, a: string, b: string)
    requires |c| == 1 && !IsBreak(c[0])
    requires Split(c + a) == Glue(c, Split(a))
    ensures |Split(a)| == 1 ==> Split(Tail(c + a) + b) == Glue(c, Split(Tail(a) + b))
    ensures |Split(a)| > 1 ==> Tail(c + a) == Tail(a)
  {
    if |Split(a)| == 1 {
      assert Tail(c + a) + b == c + (Tail(a) + b);
      SplitAfterChar(c, Tail(a) + b);
    }
  }

  /** `Glue` commutes with re-reading the last piece. */
  lemma GluedWhole(c: string, pieces: seq<string>, more: seq<string>, end: seq<string>)
    requires |pieces| > 0 && |more| > 0
    requires end == if |pieces| == 1 then Glue(c, more) else more
    ensures
      var n := |pieces| - 1;
      Glue(c, pieces[..n] + more) == Glue(c, pieces)[..n] + end
  {
  }

  lemma {:induction false} SplitConcatAtBreak(a: string, b: string)
    requires a != "" && IsBreak(a[0]) && CleanCut(a, b)
    ensures Split(a + b) == Lines(a) + Split(Tail(a) + b)
    decreases |a|, 0
  {
    var n := BreakLength(a);
    var a' := a[n..];
    var more := Split(Tail(a') + b);
    assert Split(a + b) == [""] + (Lines(a') + more) by {
      SplitConcat(a', b);
      assert BreakLength(a + b) == n;
      assert (a + b)[n..] == a' + b;
    }
    assert Split(a) == [""] + Split(a');
    assert [""] + (Lines(a') + more) == Lines(a) + more by {
      assert Lines(a) == [""] + Lines(a');
    }
  }

  lemma LinesConcat(a: string, b: string)
    requires CleanCut(a, b)
    ensures Lines(a + b) == Lines(a) + Lines(Tail(a) + b)
    ensures Tail(a + b) == Tail(Tail(a) + b)
  {
    SplitConcat(a, b);
  }

  // ---- The inverse: writing lines with a break after each --------------------------------------

  datatype Eol = CrLf | Cr | Lf

  function EolText(e: Eol): string {
    match e
    case CrLf => "\r\n"
    case Cr => "\r"
    case Lf => "\n"
  }

  /** Each line followed by the line break chosen for it. */
  function Render(lines: seq<string>, eols: seq<Eol>): string
    requires |lines| == |eols|
  {
    if lines == [] then "" else lines[0] + EolText(eols[0]) + Render(lines[1..], eols[1..])
  }

  /** No CR break is directly followed by an empty line that ends in a bare LF: written next to one
      another those two are one CRLF. */
  ghost predicate Unambiguous(lines: seq<string>, eols: seq<Eol>)
    requires |lines| == |eols|
  {
    forall i :: 0 <= i < |lines| - 1 ==> !(eols[i] == Cr && lines[i + 1] == "" && eols[i + 1] == Lf)
  }

  lemma {:induction false} BreakFreeSplit(s: string, t: string)
    requires BreakFree(s)
    ensures Split(s + t) == Glue(s, Split(t))
    decreases |s|
  {
    if s == "" {
      assert s + t == t;
      assert s + Split(t)[0] == Split(t)[0];
    } else {
      BreakFreeSplit(s[1..], t);
      assert (s + t)[..1] == s[..1] && (s + t)[1..] == s[1..] + t;
      assert s[..1] + (s[1..] + Split(t)[0]) == s + Split(t)[0];
    }
  }

  /** One rendered line is read back, unless its CR break meets an LF. */
  lemma SplitRenderedLine(line: string, e: Eol, t: string)
    requires BreakFree(line)
    requires !(e == Cr && StartsWithLf(t))
    ensures Split(line + EolText(e) + t) == [line] + Split(t)
  {
    var u := EolText(e) + t;
    assert line + EolText(e) + t == line + u;
    BreakFreeSplit(line, u);
    assert u[|EolText(e)|..] == t && BreakLength(u) == |EolText(e)|;
    assert Split(u) == [""] + Split(t);
    assert line + "" == line;
  }

  /** A rendering starts with LF exactly when its first line is empty and ends in a bare LF. */
  lemma RenderHead(lines: seq<string>, eols: seq<Eol>)
    requires |lines| == |eols|
    requires forall i :: 0 <= i < |lines| ==> BreakFree(lines[i])
    ensures StartsWithLf(Render(lines, eols)) <==> lines != [] && lines[0] == "" && eols[0] == Lf
  {
  }

  lemma UnambiguousLater(lines: seq<string>, eols: seq<Eol>)
    requires 0 < |lines| == |eols| && Unambiguous(lines, eols)
    ensures Unambiguous(lines[1..], eols[1..])
    ensures |lines| > 1 ==> !(eols[0] == Cr && lines[1] == "" && eols[1] == Lf)
  {
    forall i | 0 <= i < |lines[1..]| - 1
      ensures !(eols[1..][i] == Cr && lines[1..][i + 1] == "" && eols[1..][i + 1] == Lf)
    {
      assert eols[1..][i] == eols[i + 1] && lines[1..][i + 1] == lines[i + 2];
    }
  }

  lemma {:induction false} SplitRendered(lines: seq<string>, eols: seq<Eol>)
    requires |lines| == |eols| && Unambiguous(lines, eols)
    requires forall i :: 0 <= i < |lines| ==> BreakFree(lines[i])
    ensures Split(Render(lines, eols)) == lines + [""]
    decreases |lines|
  {
    if lines != [] {
      UnambiguousLater(lines, eols);
      RenderHead(lines[1..], eols[1..]);
      SplitRenderedLine(lines[0], eols[0], Render(lines[1..], eols[1..]));
      SplitRendered(lines[1..], eols[1..]);
    }
  }

  lemma SplitAfterLf(rest: string)
    requires StartsWithLf(rest)
    ensures Split(rest) == [""] + Split(rest[1..])
  {
    assert BreakLength(rest) == 1;
  }

  /** A CR break that meets an LF: the two make one break, so a line is lost. */
  lemma MergedBreak(line: string, rest: string)
    requires BreakFree(line) && StartsWithLf(rest)
    ensures Split(line + "\r" + rest) == [line] + Split(rest[1..])
    ensures Split(rest) == [""] + Split(rest[1..])
  {
    SplitAfterLf(rest);
    assert line + "\r" + rest == line + EolText(CrLf) + rest[1..];
    SplitRenderedLine(line, CrLf, rest[1..]);
  }

  function Blanks(lines: seq<string>): nat {
    if lines == [] then 0 else (if lines[0] == "" then 1 else 0) + Blanks(lines[1..])
  }

  lemma {:induction false} BlanksConcat(a: seq<string>, b: seq<string>)
    ensures Blanks(a + b) == Blanks(a) + Blanks(b)
    decreases |a|
  {
    if a == [] {
      assert a + b == b;
    } else {
      assert (a + b)[1..] == a[1..] + b;
      BlanksConcat(a[1..], b);
    }
  }

  lemma BlanksCons(line: string, more: seq<string>)
    ensures Blanks([line] + more) == (if line == "" then 1 else 0) + Blanks(more)
  {
    assert ([line] + more)[1..] == more;
  }

  /** The empty lines of a text with one written line in front. */
  lemma BlanksInFront(line: string, e: Eol, rest: string)
    requires BreakFree(line)
    ensures
      var merged := e == Cr && StartsWithLf(rest);
      var t := line + EolText(e) + rest;
      && Blanks(Split(t)) == (if line == "" then 1 else 0) + Blanks(Split(rest)) - (if merged then 1 else 0)
      && Tail(t) == Tail(rest)
  {
    if e == Cr && StartsWithLf(rest) {
      MergedBreak(line, rest);
      BlanksCons(line, Split(rest[1..]));
      BlanksCons("", Split(rest[1..]));
    } else {
      SplitRenderedLine(line, e, rest);
      BlanksCons(line, Split(rest));
    }
  }

  lemma {:induction false} SplitRenderBlanks(lines: seq<string>, eols: seq<Eol>)
    requires |lines| == |eols|
    requires forall i :: 0 <= i < |lines| ==> BreakFree(lines[i])
    ensures Blanks(Split(Render(lines, eols))) <= Blanks(lines) + 1
    ensures !Unambiguous(lines, eols) ==> Blanks(Split(Render(lines, eols))) <= Blanks(lines)
    ensures Tail(Render(lines, eols)) == ""
    decreases |lines|
  {
    if lines != [] {
      SplitRenderBlanks(lines[1..], eols[1..]);
      BlanksInFront(lines[0], eols[0], Render(lines[1..], eols[1..]));
      RenderHead(lines[1..], eols[1..]);
      if !Unambiguous(lines, eols) && !(eols[0] == Cr && StartsWithLf(Render(lines[1..], eols[1..]))) {
        AmbiguousLater(lines, eols);
      }
    }
  }

  lemma AmbiguousLater(lines: seq<string>, eols: seq<Eol>)
    requires 0 < |lines| == |eols| && !Unambiguous(lines, eols)
    requires |lines| > 1 ==> !(eols[0] == Cr && lines[1] == "" && eols[1] == Lf)
    ensures !Unambiguous(lines[1..], eols[1..])
  {
    var i :| 0 <= i < |lines| - 1 && eols[i] == Cr && lines[i + 1] == "" && eols[i + 1] == Lf;
    assert i > 0;
    assert eols[1..][i - 1] == Cr && lines[1..][i] == "" && eols[1..][i] == Lf;
  }

  lemma BlankAtEnd(pieces: seq<string>)
    requires |pieces| > 0 && pieces[|pieces| - 1] == ""
    ensures Blanks(pieces) == Blanks(pieces[..|pieces| - 1]) + 1
  {
    assert pieces == pieces[..|pieces| - 1] + [""];
    BlanksConcat(pieces[..|pieces| - 1], [""]);
  }

  lemma LinesBlanks(t: string)
    requires Tail(t) == ""
    ensures Blanks(Split(t)) == Blanks(Lines(t)) + 1
  {
    BlankAtEnd(Split(t));
  }

  /** What an ambiguous choice of breaks costs: at least one empty line is not read back. */
  lemma MergingLosesBlank(lines: seq<string>, eols: seq<Eol>)
    requires |lines| == |eols| && !Unambiguous(lines, eols)
    requires forall i :: 0 <= i < |lines| ==> BreakFree(lines[i])
    ensures Blanks(Lines(Render(lines, eols))) < Blanks(lines)
  {
    SplitRenderBlanks(lines, eols);
    LinesBlanks(Render(lines, eols));
  }

  /** Reading back what was written gives the same lines exactly when the choice of breaks was
      unambiguous. */
  lemma LinesRenderIff(lines: seq<string>, eols: seq<Eol>)
    requires |lines| == |eols|
    requires forall i :: 0 <= i < |lines| ==> BreakFree(lines[i])
    ensures Lines(Render(lines, eols)) == lines <==> Unambiguous(lines, eols)
    ensures Tail(Render(lines, eols)) == ""
  {
    SplitRenderBlanks(lines, eols);
    if Unambiguous(lines, eols) {
      SplitRendered(lines, eols);
    } else {
      MergingLosesBlank(lines, eols);
    }
  }

  lemma {:induction false} PiecesBreakFree(t: string)
    ensures forall i :: 0 <= i < |Split(t)| ==> BreakFree(Split(t)[i])
    decreases |t|
  {
    if t != "" {
      if IsBreak(t[0]) {
        PiecesBreakFree(t[BreakLength(t)..]);
      } else {
        PiecesBreakFree(t[1..]);
        GlueKeepsBreakFree(t[..1], Split(t[1..]));
      }
    }
  }

  /** The line breaks of `t`, in order. */
  function Breaks(t: string): (eols: seq<Eol>)
    ensures |eols| == |Split(t)| - 1
    decreases |t|
  {
    if t == "" then []
    else if IsBreak(t[0]) then
      [if BreakLength(t) == 2 then CrLf else if t[0] == '\r' then Cr else Lf] + Breaks(t[BreakLength(t)..])
    else Breaks(t[1..])
  }

  /** Every text is its own lines, each with its break, and the tail: nothing is dropped or
      invented. */
  lemma {:induction false} SplitSound(t: string)
    ensures t == Render(Lines(t), Breaks(t)) + Tail(t)
    decreases |t|
  {
    if t != "" {
      if IsBreak(t[0]) {
        var rest := t[BreakLength(t)..];
        var e := Breaks(t)[0];
        assert t == EolText(e) + rest;
        SplitSound(rest);
        PrependBreak(e, Split(rest), Breaks(rest));
      } else {
        SplitSound(t[1..]);
        assert t == t[..1] + t[1..];
        PrependText(t[..1], Split(t[1..]), Breaks(t[1..]));
      }
    }
  }

  /** A text given by its pieces and breaks. */
  function Joined(pieces: seq<string>, eols: seq<Eol>): string
    requires |pieces| == |eols| + 1
  {
    Render(pieces[..|eols|], eols) + pieces[|eols|]
  }

  lemma PrependBreak(e: Eol, pieces: seq<string>, eols: seq<Eol>)
    requires |pieces| == |eols| + 1
    ensures Joined([""] + pieces, [e] + eols) == EolText(e) + Joined(pieces, eols)
  {
    var lines := ([""] + pieces)[..|eols| + 1];
    assert lines[1..] == pieces[..|eols|] && ([e] + eols)[1..] == eols;
    assert "" + EolText(e) == EolText(e);
  }

  lemma PrependText(c: string, pieces: seq<string>, eols: seq<Eol>)
    requires |pieces| == |eols| + 1
    ensures Joined(Glue(c, pieces), eols) == c + Joined(pieces, eols)
  {
    var n := |eols|;
    if n == 0 {
      assert Render(pieces[..n], eols) == "";
    } else {
      var lines := pieces[..n];
      assert Glue(c, pieces)[..n] == Glue(c, lines);
      assert Glue(c, lines)[1..] == lines[1..];
      assert Render(Glue(c, lines), eols) == c + Render(lines, eols);
    }
  }

  lemma GlueKeepsBreakFree(head: string, pieces: seq<string>)
    requires BreakFree(head) && |pieces| > 0
    requires forall i :: 0 <= i < |pieces| ==> BreakFree(pieces[i])
    ensures forall i :: 0 <= i < |pieces| ==> BreakFree(Glue(head, pieces)[i])
  {
  }

  // ---- The incremental splitter ----------------------------------------------------------------

  /** The received text without a final CR, which may yet turn out to be half of a CRLF. */
  function Held(t: string): string {
    if EndsWithCr(t) then t[..|t| - 1] else t
  }

  /** What the buffer holds once `t` has been received and drained. */
  function Kept(t: string): string {
    Tail(Held(t)) + t[|Held(t)|..]
  }

  /** Draining after one more chunk: the buffer and the chunk alone decide the new lines. */
  lemma DrainStep(text: string, chunk: string)
    ensures Lines(Held(text + chunk)) == Lines(Held(text)) + Lines(Held(Kept(text) + chunk))
    ensures Kept(text + chunk) == Kept(Kept(text) + chunk)
  {
    var a := Held(text);
    var h := text[|a|..];
    var b := h + chunk;
    assert text == a + h;
    assert a + b == text + chunk && Tail(a) + b == Kept(text) + chunk;
    HeldConcat(a, b);
    TailEndsWithoutCr(a);
    HeldConcat(Tail(a), b);
    LinesConcat(a, Held(b));
  }

  lemma FinishStep(text: string, flush: string)
    ensures Lines(text + flush) == Lines(Held(text)) + Lines(Kept(text) + flush)
    ensures Tail(text + flush) == Tail(Kept(text) + flush)
  {
    var a := Held(text);
    var h := text[|a|..];
    assert text == a + h;
    assert text + flush == a + (h + flush);
    assert Kept(text) + flush == Tail(a) + (h + flush);
    LinesConcat(a, h + flush);
  }

  /** Holding back a CR at the end of a concatenation only touches the right part. */
  lemma HeldConcat(a: string, b: string)
    requires b != "" || !EndsWithCr(a)
    ensures Held(a + b) == a + Held(b)
    ensures (a + b)[|Held(a + b)|..] == b[|Held(b)|..]
  {
  }

  lemma TailEndsWithoutCr(t: string)
    ensures !EndsWithCr(Tail(t))
  {
    PiecesBreakFree(t);
  }

  class SseStream {
    var buffer: string

    constructor ()
      ensures buffer == ""
    {
      buffer := "";
    }

    /** `drainCompleteLines`: yields the terminated lines of the buffer and keeps the rest. */
    method DrainCompleteLines(streamEnded: bool) returns (lines: seq<string>)
      modifies this
      ensures !streamEnded ==> lines == Lines(Held(old(buffer))) && buffer == Kept(old(buffer))
      ensures streamEnded ==> lines == Lines(old(buffer)) && buffer == Tail(old(buffer))
    {
      var mayBeSplitCrlf := !streamEnded && EndsWithCr(buffer);
      var scannable := if mayBeSplitCrlf then buffer[..|buffer| - 1] else buffer;
      var pieces := Split(scannable);
      var incompleteLine := pieces[|pieces| - 1];
      lines := pieces[..|pieces| - 1];
      buffer := if mayBeSplitCrlf then incompleteLine + "\r" else incompleteLine;
    }

    /** `readLines`: whatever the chunks, the lines are those of the whole text. `flush` is what the
        text decoder still holds when the stream ends. */
    method ReadLines(chunks: seq<string>, flush: string) returns (lines: seq<string>)
      requires buffer == ""
      modifies this
      ensures lines == Lines(Concat(chunks) + flush)
      ensures buffer == Tail(Concat(chunks) + flush)
    {
      lines := [];
      ghost var text := "";
      for i := 0 to |chunks|
        invariant text == Concat(chunks[..i])
        invariant lines == Lines(Held(text))
        invariant buffer == Kept(text)
      {
        DrainStep(text, chunks[i]);
        ConcatSnoc(chunks, i);
        buffer := buffer + chunks[i];
        var more := DrainCompleteLines(false);
        lines := lines + more;
        text := text + chunks[i];
      }
      assert chunks[..|chunks|] == chunks;
      FinishStep(text, flush);
      buffer := buffer + flush;
      var more := DrainCompleteLines(true);
      lines := lines + more;
    }
  }

  function Concat(chunks: seq<string>): string {
    if chunks == [] then "" else chunks[0] + Concat(chunks[1..])
  }

  lemma {:induction false} ConcatSnoc(chunks: seq<string>, i: nat)
    requires i < |chunks|
    ensures Concat(chunks[..i + 1]) == Concat(chunks[..i]) + chunks[i]
    decreases |chunks|
  {
    if i == 0 {
      assert chunks[..1] == [chunks[0]] && chunks[..0] == [];
      assert Concat([chunks[0]]) == chunks[0] + Concat([]);
    } else {
      ConcatSnoc(chunks[1..], i - 1);
      assert chunks[..i + 1][1..] == chunks[1..][..i];
      assert chunks[..i][1..] == chunks[1..][..i - 1];
    }
  }

  /** Lines already yielded are never taken back, and at most one terminated line is late. */
  lemma HeldBackAtMostOne(text: string, more: string)
    ensures Lines(Held(text)) <= Lines(text + more)
    ensures |Lines(Held(text))| <= |Lines(text)| <= |Lines(Held(text))| + 1
  {
    FinishStep(text, more);
    FinishStep(text, "");
    assert text + "" == text;
    var a := Held(text);
    var h := text[|a|..];
    PiecesBreakFree(a);
    BreakFreeSplit(Tail(a), h);
    assert h == "" || h == "\r";
    assert Kept(text) + "" == Tail(a) + h;
  }
}
