/** The shape of the markdown fixer's output, apart from the rules that
    decide it: each input line becomes one step — an optional "" before,
    the line's text, an optional "" after — and the output is the steps
    laid end to end, closed by a final "" unless it already ends in one. */
module LineLayout {

  datatype Step = Step(blankBefore: bool, text: string, blankAfter: bool)

  /** What one step contributes. */
  function Piece(st: Step): (r: seq<string>)
    ensures |r| == (if st.blankBefore then 1 else 0) + 1 + (if st.blankAfter then 1 else 0)
  {
    (if st.blankBefore then [""] else []) + [st.text] + (if st.blankAfter then [""] else [])
  }

  /** Appending a piece is the three appends that write it out. */
  lemma AppendPiece(b: seq<string>, st: Step)
    ensures var b1 := if st.blankBefore then b + [""] else b;
            var b2 := b1 + [st.text];
            b + Piece(st) == if st.blankAfter then b2 + [""] else b2
  {
  }

  /** The steps laid end to end. */
  function Layout(steps: seq<Step>): (r: seq<string>)
    ensures |r| >= |steps|
    decreases |steps|
  {
    if steps == [] then [] else Layout(steps[..|steps| - 1]) + Piece(steps[|steps| - 1])
  }

  /** The final newline: a "" is added unless the output is empty or already
      ends in "". */
  function Close(b: seq<string>): (r: seq<string>)
    ensures b <= r && |r| <= |b| + 1
    ensures |r| > 0 ==> r[|r| - 1] == ""
    ensures |b| > 0 ==> |r| > 0
  {
    if |b| > 0 && b[|b| - 1] != "" then b + [""] else b
  }

  /** Where the text of step `i` lands. */
  function Offset(steps: seq<Step>, i: nat): nat
    requires i < |steps|
  {
    |Layout(steps[..i])| + if steps[i].blankBefore then 1 else 0
  }

  lemma LayoutStep(steps: seq<Step>, i: nat)
    requires i < |steps|
    ensures Layout(steps[..i + 1]) == Layout(steps[..i]) + Piece(steps[i])
  {
    assert steps[..i + 1][..i] == steps[..i];
  }

  lemma {:induction false} LayoutGrows(steps: seq<Step>, k: nat, m: nat)
    requires k <= m <= |steps|
    ensures Layout(steps[..k]) <= Layout(steps[..m])
    decreases m - k
  {
    if k < m {
      LayoutGrows(steps, k, m - 1);
      LayoutStep(steps, m - 1);
    }
  }

  /** The output after `k` steps is a prefix of the closed output. */
  lemma PrefixOfOutput(steps: seq<Step>, k: nat)
    requires k <= |steps|
    ensures Layout(steps[..k]) <= Close(Layout(steps))
  {
    LayoutGrows(steps, k, |steps|);
    assert steps[..|steps|] == steps;
  }

  /** Where the pieces of step `i` sit in the closed output. */
  lemma StepPlaced(steps: seq<Step>, i: nat)
    requires i < |steps|
    ensures var out := Close(Layout(steps));
            var o := Offset(steps, i);
            && |Layout(steps[..i + 1])| == o + 1 + (if steps[i].blankAfter then 1 else 0)
            && o + (if steps[i].blankAfter then 1 else 0) < |out| && out[o] == steps[i].text
            && (steps[i].blankBefore ==> out[o - 1] == "")
            && (steps[i].blankAfter ==> out[o + 1] == "")
  {
    LayoutStep(steps, i);
    PrefixOfOutput(steps, i + 1);
    var b := Layout(steps[..i]);
    var p := Piece(steps[i]);
    var o := Offset(steps, i);
    assert (b + p)[o] == steps[i].text;
    assert steps[i].blankBefore ==> (b + p)[o - 1] == "";
    assert steps[i].blankAfter ==> (b + p)[o + 1] == "";
  }

  /** Texts appear in the order of their steps. */
  lemma {:induction false} OffsetsIncrease(steps: seq<Step>, i: nat, j: nat)
    requires i < j < |steps|
    ensures Offset(steps, i) < Offset(steps, j)
    decreases j - i
  {
    StepPlaced(steps, i);
    if i + 1 < j {
      OffsetsIncrease(steps, i + 1, j);
    } else {
      LayoutStep(steps, i);
    }
  }

  /** What comes just before the text of step `i > 0`. */
  lemma Predecessor(steps: seq<Step>, i: nat)
    requires 0 < i < |steps|
    ensures var out := Close(Layout(steps));
            var o := Offset(steps, i);
            && 0 < o < |out|
            && (steps[i].blankBefore ==> out[o - 1] == "")
            && (!steps[i].blankBefore ==>
                  out[o - 1] == (if steps[i - 1].blankAfter then "" else steps[i - 1].text)
                  && o == Offset(steps, i - 1) + 1 + (if steps[i - 1].blankAfter then 1 else 0))
  {
    StepPlaced(steps, i);
    StepPlaced(steps, i - 1);
    PrefixOfOutput(steps, i);
    LayoutStep(steps, i - 1);
    var b := Layout(steps[..i]);
    assert b[|b| - 1] == Piece(steps[i - 1])[|Piece(steps[i - 1])| - 1];
  }

  /** Just after the text of step `i` that has no trailing "", when a step
      follows: the "" before that step, or else its text. */
  lemma SuccessorWithin(steps: seq<Step>, i: nat)
    requires i + 1 < |steps| && !steps[i].blankAfter
    ensures var out := Close(Layout(steps));
            var o := Offset(steps, i);
            && o + 1 < |out|
            && (steps[i + 1].blankBefore ==> out[o + 1] == "")
            && (!steps[i + 1].blankBefore ==> Offset(steps, i + 1) == o + 1 && out[o + 1] == steps[i + 1].text)
  {
    OffsetNext(steps, i);
    StepPlaced(steps, i + 1);
  }

  /** The text of step `i + 1` follows that of step `i` after their "". */
  lemma OffsetNext(steps: seq<Step>, i: nat)
    requires i + 1 < |steps|
    ensures Offset(steps, i + 1) == Offset(steps, i) + 1 + (if steps[i].blankAfter then 1 else 0)
                                    + (if steps[i + 1].blankBefore then 1 else 0)
  {
    LayoutStep(steps, i);
  }

  /** Just after the text of the last step that has no trailing "": the
      closing "", unless the text already is "" and ends the output. */
  lemma SuccessorAtEnd(steps: seq<Step>)
    requires |steps| > 0 && !steps[|steps| - 1].blankAfter
    ensures var out := Close(Layout(steps));
            var o := Offset(steps, |steps| - 1);
            && (steps[|steps| - 1].text != "" ==> o + 1 < |out| && out[o + 1] == "")
            && (steps[|steps| - 1].text == "" ==> o + 1 == |out|)
  {
    var i := |steps| - 1;
    StepPlaced(steps, i);
    assert steps[..i + 1] == steps;
    var b := Layout(steps);
    assert |b| == Offset(steps, i) + 1;
    assert b[|b| - 1] == Close(b)[|b| - 1];
  }

  /** The texts of the steps, in order. */
  function Texts(steps: seq<Step>): (r: seq<string>)
    ensures |r| == |steps| && forall i :: 0 <= i < |r| ==> r[i] == steps[i].text
  {
    seq(|steps|, i requires 0 <= i < |steps| => steps[i].text)
  }

  /** `b` is `a` with "" elements inserted. */
  predicate BlanksInserted(a: seq<string>, b: seq<string>)
    decreases |b|
  {
    if b == [] then a == []
    else (a != [] && a[|a| - 1] == b[|b| - 1] && BlanksInserted(a[..|a| - 1], b[..|b| - 1]))
         || (b[|b| - 1] == "" && BlanksInserted(a, b[..|b| - 1]))
  }

  lemma AppendText(a: seq<string>, b: seq<string>, x: string)
    requires BlanksInserted(a, b)
    ensures BlanksInserted(a + [x], b + [x])
  {
    assert (a + [x])[..|a|] == a;
    assert (b + [x])[..|b|] == b;
  }

  lemma AppendBlank(a: seq<string>, b: seq<string>)
    requires BlanksInserted(a, b)
    ensures BlanksInserted(a, b + [""])
  {
    assert (b + [""])[..|b|] == b;
  }

  lemma {:induction false} LayoutInsertsBlanks(steps: seq<Step>)
    ensures BlanksInserted(Texts(steps), Layout(steps))
    decreases |steps|
  {
    if steps != [] {
      var n := |steps| - 1;
      var init := steps[..n];
      LayoutInsertsBlanks(init);
      PieceInsertsBlanks(Texts(init), Layout(init), steps[n]);
      assert Texts(steps) == Texts(init) + [steps[n].text];
    }
  }

  /** A piece adds its text and nothing but "" around it. */
  lemma PieceInsertsBlanks(a: seq<string>, b: seq<string>, st: Step)
    requires BlanksInserted(a, b)
    ensures BlanksInserted(a + [st.text], b + Piece(st))
  {
    var b1 := if st.blankBefore then b + [""] else b;
    if st.blankBefore { AppendBlank(a, b); }
    AppendText(a, b1, st.text);
    if st.blankAfter { AppendBlank(a + [st.text], b1 + [st.text]); }
    AppendPiece(b, st);
  }

  /** The closed output is the step texts, in order, with only "" elements
      inserted. */
  lemma OutputInsertsBlanks(steps: seq<Step>)
    ensures BlanksInserted(Texts(steps), Close(Layout(steps)))
  {
    LayoutInsertsBlanks(steps);
    if Close(Layout(steps)) != Layout(steps) {
      AppendBlank(Texts(steps), Layout(steps));
    }
  }

  /** Every element of the output is "" or the text of some step. */
  lemma {:induction false} OutputElements(steps: seq<Step>)
    ensures forall j :: 0 <= j < |Close(Layout(steps))| ==>
              Close(Layout(steps))[j] == "" || Close(Layout(steps))[j] in Texts(steps)
    decreases |steps|
  {
    if steps != [] {
      var n := |steps| - 1;
      OutputElements(steps[..n]);
      assert Texts(steps) == Texts(steps[..n]) + [steps[n].text];
      var b := Layout(steps[..n]);
      var out := Close(Layout(steps));
      forall j | 0 <= j < |out| ensures out[j] == "" || out[j] in Texts(steps) {
        if j < |b| {
          assert out[j] == Close(b)[j];
        } else if j < |Layout(steps)| {
          assert out[j] == Piece(steps[n])[j - |b|];
        }
      }
    }
  }
}
