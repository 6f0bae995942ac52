/** The line patterns of fix_markdown.py: headings, list items and code
    fences, as character tests and as a regular-expression matcher reads
    them, and the branch of the fixing loop each line takes. */
module MarkdownPatterns {
  import opened Text

  // ---------------------------------------------------------------------
  // The three patterns, as character tests
  // ---------------------------------------------------------------------

  /** Length of the run of '#' that starts `s`. */
  function HashRun(s: string): (n: nat)
    ensures n <= |s|
    ensures forall k :: 0 <= k < n ==> s[k] == '#'
    ensures n < |s| ==> s[n] != '#'
  {
    if |s| > 0 && s[0] == '#' then 1 + HashRun(s[1..]) else 0
  }

  /** Length of the run of decimal digits that starts `s`. */
  function DigitRun(s: string): (n: nat)
    ensures n <= |s|
    ensures forall k :: 0 <= k < n ==> IsDigit(s[k])
    ensures n < |s| ==> !IsDigit(s[n])
  {
    if |s| > 0 && IsDigit(s[0]) then 1 + DigitRun(s[1..]) else 0
  }

  /** `^#{1,6}\s+`: one to six '#' followed by whitespace. */
  predicate IsHeading(s: string) {
    var h := HashRun(s);
    1 <= h <= 6 && h < |s| && IsSpace(s[h])
  }

  predicate IsBulletMark(c: char) {
    c == '-' || c == '*' || c == '+'
  }

  /** `^\s*[-*+]\s+`: optional indentation, a bullet mark, whitespace. */
  predicate IsBullet(s: string) {
    var t := LStrip(s);
    |t| >= 2 && IsBulletMark(t[0]) && IsSpace(t[1])
  }

  /** `^\s*\d+\.\s+`: optional indentation, digits, a dot, whitespace. */
  predicate IsNumbered(s: string) {
    var t := LStrip(s);
    var d := DigitRun(t);
    d >= 1 && d + 1 < |t| && t[d] == '.' && IsSpace(t[d + 1])
  }

  predicate IsListItem(s: string) {
    IsBullet(s) || IsNumbered(s)
  }

  /** `line.strip().startswith("```")`. */
  predicate IsFence(s: string) {
    StartsWith(Strip(s), "```")
  }

  // ---------------------------------------------------------------------
  // The patterns as a regular-expression matcher reads them: some split of
  // the line's start into the pattern's pieces
  // ---------------------------------------------------------------------

  predicate HeadingMatchAt(s: string, h: int) {
    1 <= h <= 6 && h < |s| && (forall k :: 0 <= k < h ==> s[k] == '#') && IsSpace(s[h])
  }

  predicate BulletMatchAt(s: string, w: int) {
    0 <= w && w + 1 < |s| && AllSpace(s[..w]) && IsBulletMark(s[w]) && IsSpace(s[w + 1])
  }

  predicate NumberedMatchAt(s: string, w: int, d: int) {
    0 <= w && 1 <= d && w + d + 1 < |s| && AllSpace(s[..w]) && AllDigits(s[w..w + d])
    && s[w + d] == '.' && IsSpace(s[w + d + 1])
  }

  lemma HeadingIffMatch(s: string)
    ensures IsHeading(s) <==> exists h :: HeadingMatchAt(s, h)
  {
    if IsHeading(s) {
      assert HeadingMatchAt(s, HashRun(s));
    }
    if exists h :: HeadingMatchAt(s, h) {
      var h :| HeadingMatchAt(s, h);
      assert HashRun(s) == h;
    }
  }

  /** The indentation `LStrip` removes is the only split that can put a
      non-space character at `w` after nothing but spaces. */
  lemma {:induction false} IndentUnique(s: string, w: int)
    requires 0 <= w < |s| && AllSpace(s[..w]) && !IsSpace(s[w])
    ensures |s| - |LStrip(s)| == w
  {
    if w > 0 {
      assert IsSpace(s[..w][0]);
      assert s[1..][..w - 1] == s[..w][1..];
      IndentUnique(s[1..], w - 1);
    }
  }

  lemma BulletIffMatch(s: string)
    ensures IsBullet(s) <==> exists w :: BulletMatchAt(s, w)
  {
    var t := LStrip(s);
    var w0 := |s| - |t|;
    if IsBullet(s) {
      assert s[w0] == t[0] && s[w0 + 1] == t[1];
      assert BulletMatchAt(s, w0);
    }
    if exists w :: BulletMatchAt(s, w) {
      var w :| BulletMatchAt(s, w);
      IndentUnique(s, w);
      assert t[0] == s[w] && t[1] == s[w + 1];
    }
  }

  lemma NumberedIffMatch(s: string)
    ensures IsNumbered(s) <==> exists w, d :: NumberedMatchAt(s, w, d)
  {
    if IsNumbered(s) {
      NumberedHasMatch(s);
    }
    if exists w, d :: NumberedMatchAt(s, w, d) {
      var w, d :| NumberedMatchAt(s, w, d);
      MatchIsNumbered(s, w, d);
    }
  }

  lemma NumberedHasMatch(s: string)
    requires IsNumbered(s)
    ensures exists w, d :: NumberedMatchAt(s, w, d)
  {
    var t := LStrip(s);
    var w0 := |s| - |t|;
    var d := DigitRun(t);
    StrippedMatch(s, t, w0, d);
  }

  /** A numbered marker at the start of the stripped line is one at `w` in
      the line. */
  lemma StrippedMatch(s: string, t: string, w: int, d: int)
    requires 0 <= w <= |s| && t == s[w..] && AllSpace(s[..w])
    requires 1 <= d && d + 1 < |t| && (forall k :: 0 <= k < d ==> IsDigit(t[k]))
    requires t[d] == '.' && IsSpace(t[d + 1])
    ensures NumberedMatchAt(s, w, d)
  {
    IndentedAt(s, t, w);
    var run := s[w..w + d];
    forall k | 0 <= k < d ensures IsDigit(run[k]) {
      assert run[k] == t[k];
    }
    assert s[w + d] == t[d] && s[w + d + 1] == t[d + 1];
  }

  lemma MatchIsNumbered(s: string, w: int, d: int)
    requires NumberedMatchAt(s, w, d)
    ensures IsNumbered(s)
  {
    assert IsDigit(s[w..w + d][0]);
    IndentUnique(s, w);
    var t := LStrip(s);
    IndentedAt(s, t, w);
    var run := s[w..w + d];
    forall k | 0 <= k < d ensures IsDigit(t[k]) {
      assert run[k] == t[k];
    }
    assert t[d] == s[w + d] && t[d + 1] == s[w + d + 1];
    DigitRunExact(t, d);
  }

  /** A run of `d` digits ended by a non-digit has length `d`. */
  lemma {:induction false} DigitRunExact(t: string, d: nat)
    requires d <= |t| && (forall k :: 0 <= k < d ==> IsDigit(t[k])) && (d < |t| ==> !IsDigit(t[d]))
    ensures DigitRun(t) == d
  {
    if d > 0 {
      DigitRunExact(t[1..], d - 1);
    }
  }

  /** The characters of the stripped line are those of the line from `w`. */
  lemma IndentedAt(s: string, t: string, w: int)
    requires 0 <= w <= |s| && t == s[w..]
    ensures |t| == |s| - w && forall k :: 0 <= k < |t| ==> t[k] == s[w + k]
  {
  }

  /** A list item stays one when more text follows it: the patterns only
      look at a prefix of the line. */
  lemma ListItemExtends(p: string, s: string)
    requires p <= s && IsListItem(p)
    ensures IsListItem(s)
  {
    if IsBullet(p) {
      BulletIffMatch(p);
      var w :| BulletMatchAt(p, w);
      BulletMatchExtends(p, s, w);
      BulletIffMatch(s);
    } else {
      NumberedIffMatch(p);
      var w, d :| NumberedMatchAt(p, w, d);
      NumberedMatchExtends(p, s, w, d);
      NumberedIffMatch(s);
    }
  }

  lemma BulletMatchExtends(p: string, s: string, w: int)
    requires p <= s && BulletMatchAt(p, w)
    ensures BulletMatchAt(s, w)
  {
    assert s[..w] == p[..w];
  }

  lemma NumberedMatchExtends(p: string, s: string, w: int, d: int)
    requires p <= s && NumberedMatchAt(p, w, d)
    ensures NumberedMatchAt(s, w, d)
  {
    assert s[..w] == p[..w] && s[w..w + d] == p[w..w + d];
  }

  /** No line is both a list item and a heading: a list item starts with
      whitespace, a bullet mark or a digit. */
  lemma ListItemNotHeading(s: string)
    requires IsListItem(s)
    ensures !IsHeading(s)
  {
    var t := LStrip(s);
    if |s| > 0 && !IsSpace(s[0]) {
      assert t == s;
      if IsNumbered(s) { assert IsDigit(t[0]); }
    }
  }

  // ---------------------------------------------------------------------
  // What the loop produces, line by line
  // ---------------------------------------------------------------------

  /** The branch of the loop a (right-stripped) line takes. */
  datatype Kind = Heading | ListItem | Fence | Plain

  function KindOf(line: string): Kind {
    if IsHeading(line) then Heading
    else if IsListItem(line) then ListItem
    else if IsFence(line) then Fence
    else Plain
  }

  /** What the fixing loop needs to know about one input line. */
  datatype LineInfo = LineInfo(
    text: string,     // the line without its trailing whitespace
    kind: Kind,       // the branch the loop takes for it
    blank: bool,      // the line, as written, is blank
    listItem: bool)   // the line, as written, is a list item

  function InfoOf(line: string): LineInfo {
    var text := RStrip(line);
    LineInfo(text, KindOf(text), IsBlank(line), IsListItem(line))
  }

  /** The facts about a line summary that hold for every line. */
  predicate Consistent(f: LineInfo) {
    && Trimmed(f.text)
    && (f.blank <==> f.text == "")
    && (f.kind != Plain ==> f.text != "")
    && (f.kind == ListItem ==> f.listItem)
  }

  lemma InfoConsistent(line: string)
    ensures Consistent(InfoOf(line))
  {
    var text := RStrip(line);
    if IsBlank(line) {
      BlankIffAllSpace(line);
      RStripOfSpace(line);
    }
    if KindOf(text) == ListItem {
      ListItemExtends(text, line);
    }
    if KindOf(text) == Fence {
      assert Strip(text) != "";
    }
  }
}
