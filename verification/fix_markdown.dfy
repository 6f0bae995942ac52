/** The line rewrite of fix_markdown.py: every line loses its trailing
    whitespace, and blank lines are inserted around headings, list blocks
    and code fences. The file is split into `lines` and joined back by the
    caller; only the loop over the lines is modelled here.

    The decisions of the loop depend on a few facts per line (its stripped
    text, its branch, whether it is blank or a list item as written), so
    they are stated on the summaries `Infos(lines)`. */
module MarkdownFix {
  import opened Text
  import opened LineLayout
  import opened MarkdownPatterns

  /** The summary of every input line. */
  function Infos(lines: seq<string>): (r: seq<LineInfo>)
    ensures |r| == |lines|
    decreases |lines|, 1
  {
    if lines == [] then [] else InfosCons(lines)
  }

  /** The summary of the first line, then those of the rest. */
  function InfosCons(lines: seq<string>): (r: seq<LineInfo>)
    requires lines != []
    ensures |r| == |lines|
    decreases |lines|, 0
  {
    [InfoOf(lines[0])] + Infos(lines[1..])
  }

  lemma {:induction false} InfoAt(lines: seq<string>, i: nat)
    requires i < |lines|
    ensures Infos(lines)[i] == InfoOf(lines[i])
  {
    assert Infos(lines) == InfosCons(lines);
    if i > 0 {
      InfoAt(lines[1..], i - 1);
    }
  }

  /** `fs` summarises the lines around line `i`. */
  predicate SummarisesNear(fs: seq<LineInfo>, lines: seq<string>, i: nat) {
    && i < |fs| == |lines| && AllConsistent(fs)
    && fs[i] == InfoOf(lines[i])
    && (i > 0 ==> fs[i - 1] == InfoOf(lines[i - 1]))
    && (i + 1 < |lines| ==> fs[i + 1] == InfoOf(lines[i + 1]))
  }

  lemma InfosNear(lines: seq<string>, i: nat)
    requires i < |lines|
    ensures SummarisesNear(Infos(lines), lines, i)
  {
    InfosConsistent(lines);
    InfoAt(lines, i);
    if i > 0 {
      InfoAt(lines, i - 1);
    }
    if i + 1 < |lines| {
      InfoAt(lines, i + 1);
    }
  }

  predicate AllConsistent(fs: seq<LineInfo>) {
    forall i :: 0 <= i < |fs| ==> Consistent(fs[i])
  }

  lemma InfosConsistent(lines: seq<string>)
    ensures AllConsistent(Infos(lines))
  {
    forall i | 0 <= i < |lines| ensures Consistent(Infos(lines)[i]) {
      InfoAt(lines, i);
      InfoConsistent(lines[i]);
    }
  }

  // ---------------------------------------------------------------------
  // What each iteration decides
  // ---------------------------------------------------------------------

  /** Whether a blank line follows line `i`; the neighbour is tested as
      written in the input. */
  predicate BlankAfter(fs: seq<LineInfo>, i: nat)
    requires i < |fs|
  {
    match fs[i].kind
    case Heading => i < |fs| - 1 && !fs[i + 1].blank
    case Fence => i < |fs| - 1 && !fs[i + 1].blank
    case ListItem => i < |fs| - 1 && !fs[i + 1].blank && !fs[i + 1].listItem
    case Plain => false
  }

  /** The output so far ends in text: line `i - 1` was written last and is
      not blank. */
  predicate AfterText(fs: seq<LineInfo>, i: nat)
    requires 0 < i <= |fs|
  {
    !BlankAfter(fs, i - 1) && !fs[i - 1].blank
  }

  /** Whether a blank line is inserted before line `i`. */
  predicate BlankBefore(fs: seq<LineInfo>, i: nat)
    requires i < |fs|
  {
    match fs[i].kind
    case Heading => i > 0 && AfterText(fs, i)
    case Fence => i > 0 && AfterText(fs, i)
    case ListItem => i > 0 && AfterText(fs, i) && !fs[i - 1].listItem
    case Plain => false
  }

  /** What iteration `i` decides. */
  function StepOf(fs: seq<LineInfo>, i: nat): Step
    requires i < |fs|
  {
    Step(BlankBefore(fs, i), fs[i].text, BlankAfter(fs, i))
  }

  /** The decisions of every iteration. */
  function Plan(fs: seq<LineInfo>): (r: seq<Step>)
    ensures |r| == |fs| && forall i :: 0 <= i < |r| ==> r[i] == StepOf(fs, i)
  {
    seq(|fs|, i requires 0 <= i < |fs| => StepOf(fs, i))
  }

  /** The output the decisions produce. */
  function Output(fs: seq<LineInfo>): (r: seq<string>)
    ensures |r| > 0 ==> r[|r| - 1] == ""
    ensures |fs| > 0 ==> |r| > 0
  {
    Close(Layout(Plan(fs)))
  }

  /** Where line `i` lands in the output. */
  function At(fs: seq<LineInfo>, i: nat): nat
    requires i < |fs|
  {
    Offset(Plan(fs), i)
  }

  /** The whole output: the lines and their blanks, then a final "" unless
      the last line written already is "". */
  function Fixed(lines: seq<string>): seq<string> {
    Output(Infos(lines))
  }

  /** Where input line `i` lands in the output. */
  function Pos(lines: seq<string>, i: nat): nat
    requires i < |lines|
  {
    At(Infos(lines), i)
  }

  // ---------------------------------------------------------------------
  // The loop
  // ---------------------------------------------------------------------

  /** The output so far ends as the loop invariant says. */
  predicate EndsAfter(fs: seq<LineInfo>, i: nat, fixed: seq<string>)
    requires i <= |fs|
  {
    i > 0 ==> |fixed| > 0 && fixed[|fixed| - 1] == if BlankAfter(fs, i - 1) then "" else fs[i - 1].text
  }

  /** The last line written is blank exactly when the previous line asked
      for a blank after itself or was blank. */
  lemma LastWritten(fs: seq<LineInfo>, i: nat, fixed: seq<string>)
    requires 0 < i <= |fs| && AllConsistent(fs) && EndsAfter(fs, i, fixed)
    ensures |fixed| > 0 && (IsBlank(fixed[|fixed| - 1]) <==> !AfterText(fs, i))
  {
    assert Consistent(fs[i - 1]);
    assert IsBlank("");
    if IsBlank(fs[i - 1].text) {
      TrimmedBlankIsEmpty(fs[i - 1].text);
    }
  }

  /** The decisions of a heading or fence iteration, as the loop tests them. */
  lemma HeadingOrFenceStep(lines: seq<string>, fs: seq<LineInfo>, i: nat, fixed: seq<string>)
    requires SummarisesNear(fs, lines, i) && KindOf(RStrip(lines[i])) in {Heading, Fence}
    requires EndsAfter(fs, i, fixed)
    ensures StepOf(fs, i)
            == Step(i > 0 && |fixed| > 0 && !IsBlank(fixed[|fixed| - 1]),
                    RStrip(lines[i]),
                    i < |lines| - 1 && !IsBlank(lines[i + 1]))
  {
    if i > 0 {
      LastWritten(fs, i, fixed);
    }
  }

  /** The decisions of a list-item iteration, as the loop tests them. */
  lemma ListItemStep(lines: seq<string>, fs: seq<LineInfo>, i: nat, fixed: seq<string>)
    requires SummarisesNear(fs, lines, i) && KindOf(RStrip(lines[i])) == ListItem
    requires EndsAfter(fs, i, fixed)
    ensures StepOf(fs, i)
            == Step(i > 0 && |fixed| > 0 && !IsBlank(fixed[|fixed| - 1])
                      && !IsBullet(lines[i - 1]) && !IsNumbered(lines[i - 1]),
                    RStrip(lines[i]),
                    i < |lines| - 1 && !IsBlank(lines[i + 1])
                      && !IsBullet(lines[i + 1]) && !IsNumbered(lines[i + 1]))
  {
    if i > 0 {
      LastWritten(fs, i, fixed);
    }
  }

  /** The heading branch and the fence branch of the loop body (the same
      code): a blank before the line unless the output so far ends in one,
      a blank after it unless the next line is blank. */
  method FixBlockLine(lines: seq<string>, ghost fs: seq<LineInfo>, i: nat, fixed: seq<string>)
    returns (next: seq<string>)
    requires SummarisesNear(fs, lines, i) && KindOf(RStrip(lines[i])) in {Heading, Fence}
    requires EndsAfter(fs, i, fixed)
    ensures next == fixed + Piece(StepOf(fs, i))
  {
    var line := RStrip(lines[i]);
    HeadingOrFenceStep(lines, fs, i, fixed);
    next := fixed;
    if i > 0 && |next| > 0 && !IsBlank(next[|next| - 1]) {
      next := next + [""];
    }
    next := next + [line];
    if i < |lines| - 1 && !IsBlank(lines[i + 1]) {
      next := next + [""];
    }
    AppendPiece(fixed, StepOf(fs, i));
  }

  /** The list branch of the loop body: as a block line, except that no
      blank separates the line from a list item next to it. */
  method FixListLine(lines: seq<string>, ghost fs: seq<LineInfo>, i: nat, fixed: seq<string>)
    returns (next: seq<string>)
    requires SummarisesNear(fs, lines, i) && KindOf(RStrip(lines[i])) == ListItem
    requires EndsAfter(fs, i, fixed)
    ensures next == fixed + Piece(StepOf(fs, i))
  {
    var line := RStrip(lines[i]);
    ListItemStep(lines, fs, i, fixed);
    next := fixed;
    if i > 0 && |next| > 0 && !IsBlank(next[|next| - 1])
       && !IsBullet(lines[i - 1]) && !IsNumbered(lines[i - 1]) {
      next := next + [""];
    }
    next := next + [line];
    if i < |lines| - 1 && !IsBlank(lines[i + 1])
       && !IsBullet(lines[i + 1]) && !IsNumbered(lines[i + 1]) {
      next := next + [""];
    }
    AppendPiece(fixed, StepOf(fs, i));
  }

  /** One pass of the loop body: line `i` with the blanks its branch
      inserts around it. */
  method FixLine(lines: seq<string>, ghost fs: seq<LineInfo>, i: nat, fixed: seq<string>)
    returns (next: seq<string>)
    requires SummarisesNear(fs, lines, i) && EndsAfter(fs, i, fixed)
    ensures next == fixed + Piece(StepOf(fs, i))
  {
    var line := RStrip(lines[i]);
    StartsWithItself("```");
    if IsHeading(line) {
      next := FixBlockLine(lines, fs, i, fixed);
    } else if IsBullet(line) || IsNumbered(line) {
      next := FixListLine(lines, fs, i, fixed);
    } else if StartsWith(Strip(line), "```") {
      next := FixBlockLine(lines, fs, i, fixed);
    } else if Strip(line) == "```" && i < |lines| - 1 {
      // The language-tagging branch: a line whose stripped text is
      // exactly ``` already took the branch above.
      assert false;
    } else {
      next := fixed + [line];
      AppendPiece(fixed, StepOf(fs, i));
    }
  }

  /** One iteration appends the piece its decisions call for, which keeps
      the loop invariant. */
  lemma Advance(fs: seq<LineInfo>, i: nat, before: seq<string>, fixed: seq<string>)
    requires i < |fs| && before == Layout(Plan(fs)[..i])
    requires fixed == before + Piece(StepOf(fs, i))
    ensures fixed == Layout(Plan(fs)[..i + 1]) && EndsAfter(fs, i + 1, fixed)
  {
    LayoutStep(Plan(fs), i);
  }

  /** The loop of `fix_markdown_file`, on the lines of the file. */
  method FixMarkdownLines(lines: seq<string>) returns (fixed: seq<string>)
    ensures fixed == Fixed(lines)
  {
    ghost var fs := Infos(lines);
    fixed := [];
    var i := 0;
    while i < |lines|
      invariant 0 <= i <= |lines|
      invariant fixed == Layout(Plan(fs)[..i])
      invariant EndsAfter(fs, i, fixed)
    {
      ghost var before := fixed;
      InfosNear(lines, i);
      fixed := FixLine(lines, fs, i, fixed);
      Advance(fs, i, before, fixed);
      i := i + 1;
    }
    assert Plan(fs)[..|lines|] == Plan(fs);
    if |fixed| > 0 && fixed[|fixed| - 1] != "" {
      fixed := fixed + [""];
    }
  }

  // ---------------------------------------------------------------------
  // Where the blanks land, on line summaries
  // ---------------------------------------------------------------------

  /** The "" inserted before line `i` sits just before it. */
  lemma BlankBeforePlaced(fs: seq<LineInfo>, i: nat)
    requires i < |fs| && BlankBefore(fs, i)
    ensures 0 < At(fs, i) < |Output(fs)| && Output(fs)[At(fs, i) - 1] == ""
  {
    var steps := Plan(fs);
    assert steps[i] == StepOf(fs, i);
    StepPlaced(steps, i);
  }

  /** The "" inserted after line `i` sits just after it. */
  lemma BlankAfterPlaced(fs: seq<LineInfo>, i: nat)
    requires i < |fs| && BlankAfter(fs, i)
    ensures At(fs, i) + 1 < |Output(fs)| && Output(fs)[At(fs, i) + 1] == ""
  {
    var steps := Plan(fs);
    assert steps[i] == StepOf(fs, i);
    StepPlaced(steps, i);
  }

  /** What the output holds just before line `i > 0` when no blank is
      inserted there: "" when the previous line is followed by a blank or is
      itself blank, and otherwise that line, directly. */
  lemma NoBlankBefore(fs: seq<LineInfo>, i: nat)
    requires 0 < i < |fs| && AllConsistent(fs) && !BlankBefore(fs, i)
    ensures 0 < At(fs, i) < |Output(fs)|
    ensures !AfterText(fs, i) ==> Output(fs)[At(fs, i) - 1] == ""
    ensures AfterText(fs, i) ==> At(fs, i) == At(fs, i - 1) + 1
  {
    var steps := Plan(fs);
    assert steps[i] == StepOf(fs, i) && steps[i - 1] == StepOf(fs, i - 1);
    assert Consistent(fs[i - 1]);
    Predecessor(steps, i);
  }

  /** Line `i + 1` follows line `i` directly when neither inserts a blank
      between them. */
  lemma NextDirect(fs: seq<LineInfo>, i: nat)
    requires i + 1 < |fs| && !BlankAfter(fs, i) && !BlankBefore(fs, i + 1)
    ensures At(fs, i + 1) == At(fs, i) + 1 < |Output(fs)|
    ensures Output(fs)[At(fs, i) + 1] == fs[i + 1].text
  {
    var steps := Plan(fs);
    assert steps[i] == StepOf(fs, i);
    assert steps[i + 1] == StepOf(fs, i + 1);
    SuccessorWithin(steps, i);
  }

  /** The blank line `i + 1` inserts before itself follows line `i`
      directly when line `i` inserts none after itself. */
  lemma NextBlank(fs: seq<LineInfo>, i: nat)
    requires i + 1 < |fs| && !BlankAfter(fs, i) && BlankBefore(fs, i + 1)
    ensures At(fs, i) + 1 < |Output(fs)| && Output(fs)[At(fs, i) + 1] == ""
  {
    var steps := Plan(fs);
    assert steps[i] == StepOf(fs, i);
    assert steps[i + 1] == StepOf(fs, i + 1);
    SuccessorWithin(steps, i);
  }

  /** The closing "" follows the last line when that line is not "". */
  lemma LastLineClosed(fs: seq<LineInfo>)
    requires |fs| > 0 && !BlankAfter(fs, |fs| - 1) && fs[|fs| - 1].text != ""
    ensures At(fs, |fs| - 1) + 1 < |Output(fs)| && Output(fs)[At(fs, |fs| - 1) + 1] == ""
  {
    var steps := Plan(fs);
    assert steps[|fs| - 1] == StepOf(fs, |fs| - 1);
    SuccessorAtEnd(steps);
  }

  /** What follows line `i` that is not "" and asks for no blank after
      itself: "" when it is the last line, when the next line is blank or
      asks for a blank before itself; otherwise the next line, directly. */
  lemma NoBlankAfter(fs: seq<LineInfo>, i: nat)
    requires i < |fs| && AllConsistent(fs) && !BlankAfter(fs, i) && fs[i].text != ""
    ensures At(fs, i) + 1 < |Output(fs)|
    ensures Output(fs)[At(fs, i) + 1] == ""
            || (i + 1 < |fs| && !fs[i + 1].blank && At(fs, i + 1) == At(fs, i) + 1)
  {
    if i + 1 == |fs| {
      LastLineClosed(fs);
    } else if BlankBefore(fs, i + 1) {
      NextBlank(fs, i);
    } else {
      NextDirect(fs, i);
      assert Consistent(fs[i + 1]);
    }
  }

  /** A "" line always follows a heading or a fence. */
  lemma HeadingOrFenceFollowed(fs: seq<LineInfo>, i: nat)
    requires i < |fs| && AllConsistent(fs) && fs[i].kind in {Heading, Fence}
    ensures At(fs, i) + 1 < |Output(fs)| && Output(fs)[At(fs, i) + 1] == ""
  {
    assert Consistent(fs[i]);
    if BlankAfter(fs, i) {
      BlankAfterPlaced(fs, i);
    } else {
      NoBlankAfter(fs, i);
    }
  }

  /** A heading or a fence at position > 0 comes right after a "" line. */
  lemma HeadingOrFencePreceded(fs: seq<LineInfo>, i: nat)
    requires 0 < i < |fs| && AllConsistent(fs) && fs[i].kind in {Heading, Fence}
    ensures 0 < At(fs, i) < |Output(fs)| && Output(fs)[At(fs, i) - 1] == ""
  {
    if BlankBefore(fs, i) {
      BlankBeforePlaced(fs, i);
    } else {
      NoBlankBefore(fs, i);
    }
  }

  /** A list item is followed by a "" line or directly by the next line,
      itself a list item as written. */
  lemma ListItemFollowed(fs: seq<LineInfo>, i: nat)
    requires i < |fs| && AllConsistent(fs) && fs[i].kind == ListItem
    ensures At(fs, i) + 1 < |Output(fs)|
    ensures Output(fs)[At(fs, i) + 1] == ""
            || (i + 1 < |fs| && fs[i + 1].listItem && At(fs, i + 1) == At(fs, i) + 1)
  {
    assert Consistent(fs[i]);
    if BlankAfter(fs, i) {
      BlankAfterPlaced(fs, i);
    } else {
      NoBlankAfter(fs, i);
    }
  }

  /** A list item at position > 0 is preceded by a "" line or directly by
      the previous line, itself a list item as written. */
  lemma ListItemPreceded(fs: seq<LineInfo>, i: nat)
    requires 0 < i < |fs| && AllConsistent(fs) && fs[i].kind == ListItem
    ensures 0 < At(fs, i) < |Output(fs)|
    ensures Output(fs)[At(fs, i) - 1] == ""
            || (fs[i - 1].listItem && At(fs, i) == At(fs, i - 1) + 1)
  {
    if BlankBefore(fs, i) {
      BlankBeforePlaced(fs, i);
    } else {
      NoBlankBefore(fs, i);
    }
  }

  // ---------------------------------------------------------------------
  // Properties of the output, on the input lines
  // ---------------------------------------------------------------------

  /** Every input line, right-stripped. */
  function StrippedLines(lines: seq<string>): (r: seq<string>)
    ensures |r| == |lines| && forall i :: 0 <= i < |r| ==> r[i] == RStrip(lines[i])
  {
    seq(|lines|, i requires 0 <= i < |lines| => RStrip(lines[i]))
  }

  /** The output is the input lines, each right-stripped, in their order,
      with only "" lines inserted. */
  lemma OnlyBlanksInserted(lines: seq<string>)
    ensures BlanksInserted(StrippedLines(lines), Fixed(lines))
  {
    var fs := Infos(lines);
    OutputInsertsBlanks(Plan(fs));
    forall i | 0 <= i < |lines| ensures Texts(Plan(fs))[i] == StrippedLines(lines)[i] {
      InfoAt(lines, i);
    }
    assert Texts(Plan(fs)) == StrippedLines(lines);
  }

  /** Line `i`, right-stripped, sits at `Pos(i)`, after every earlier line. */
  lemma LinePlaced(lines: seq<string>, i: nat)
    requires i < |lines|
    ensures Pos(lines, i) < |Fixed(lines)| && Fixed(lines)[Pos(lines, i)] == RStrip(lines[i])
    ensures forall j :: 0 <= j < i ==> Pos(lines, j) < Pos(lines, i)
  {
    var fs := Infos(lines);
    InfoAt(lines, i);
    StepPlaced(Plan(fs), i);
    forall j | 0 <= j < i ensures Pos(lines, j) < Pos(lines, i) {
      OffsetsIncrease(Plan(fs), j, i);
    }
  }

  /** No output line ends in whitespace. */
  lemma NoTrailingWhitespace(lines: seq<string>)
    ensures forall j :: 0 <= j < |Fixed(lines)| ==> Trimmed(Fixed(lines)[j])
  {
    var fs := Infos(lines);
    InfosConsistent(lines);
    OutputElements(Plan(fs));
    var texts := Texts(Plan(fs));
    forall k | 0 <= k < |texts| ensures Trimmed(texts[k]) {
      assert Consistent(fs[k]);
    }
  }

  /** Line `i` as the summary sees it: its branch and, next to it, whether
      its neighbours are list items as written. */
  lemma SummaryOfLine(lines: seq<string>, fs: seq<LineInfo>, i: nat)
    requires fs == Infos(lines) && i < |lines|
    ensures AllConsistent(fs) && fs[i].kind == KindOf(RStrip(lines[i]))
    ensures i > 0 ==> fs[i - 1].listItem == IsListItem(lines[i - 1])
    ensures i + 1 < |lines| ==> fs[i + 1].listItem == IsListItem(lines[i + 1])
  {
    InfosNear(lines, i);
  }

  /** A heading or a fence is surrounded by "" lines in the output (the
      first line of the file has nothing before it). `fs` stands for the
      summaries of `lines`, so `Output(fs)` is `Fixed(lines)` and `At(fs, i)`
      is `Pos(lines, i)`. */
  lemma HeadingAndFenceSpacing(lines: seq<string>, fs: seq<LineInfo>, i: nat)
    requires fs == Infos(lines) && i < |lines| && KindOf(RStrip(lines[i])) in {Heading, Fence}
    ensures At(fs, i) + 1 < |Output(fs)| && Output(fs)[At(fs, i) + 1] == ""
    ensures i > 0 ==> 0 < At(fs, i) && Output(fs)[At(fs, i) - 1] == ""
  {
    SummaryOfLine(lines, fs, i);
    HeadingOrFenceFollowed(fs, i);
    if i > 0 {
      HeadingOrFencePreceded(fs, i);
    }
  }

  /** A list item is preceded by a "" line or directly by the previous
      line, itself a list item as written; it is followed by a "" line or
      directly by the next line, itself a list item as written. `fs` stands
      for the summaries of `lines`, as above. */
  lemma ListItemSpacing(lines: seq<string>, fs: seq<LineInfo>, i: nat)
    requires fs == Infos(lines) && i < |lines| && KindOf(RStrip(lines[i])) == ListItem
    ensures At(fs, i) + 1 < |Output(fs)|
    ensures Output(fs)[At(fs, i) + 1] == ""
            || (i + 1 < |lines| && IsListItem(lines[i + 1]) && At(fs, i + 1) == At(fs, i) + 1)
    ensures i > 0 ==> 0 < At(fs, i) &&
                      (Output(fs)[At(fs, i) - 1] == ""
                       || (IsListItem(lines[i - 1]) && At(fs, i) == At(fs, i - 1) + 1))
  {
    SummaryOfLine(lines, fs, i);
    ListItemFollowed(fs, i);
    if i > 0 {
      ListItemPreceded(fs, i);
    }
  }

  /** Two consecutive list items stay adjacent: no blank between them. */
  lemma ListItemsAdjacent(lines: seq<string>, i: nat)
    requires i + 1 < |lines| && IsListItem(RStrip(lines[i])) && IsListItem(RStrip(lines[i + 1]))
    ensures Pos(lines, i + 1) == Pos(lines, i) + 1
  {
    var fs := Infos(lines);
    ListItemNotHeading(RStrip(lines[i]));
    ListItemNotHeading(RStrip(lines[i + 1]));
    ListItemExtends(RStrip(lines[i]), lines[i]);
    ListItemExtends(RStrip(lines[i + 1]), lines[i + 1]);
    InfoAt(lines, i);
    InfoAt(lines, i + 1);
    NextDirect(fs, i);
  }
}
