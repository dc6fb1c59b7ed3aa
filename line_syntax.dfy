/** The three patterns `formatLine` of src/components/Line.tsx highlights in
    a source line: a label, an instruction mnemonic and a comment. Each is
    found on the original text and reported as a span of character
    positions `[start, end)`. */
module LineSyntax {
  import opened Js

  /** `\s` of a JavaScript regular expression: white space and line terminators. */
  predicate IsSpace(c: char) {
    || c == '\t' || c == '\n' || c == '\U{B}' || c == '\U{C}' || c == '\r' || c == ' '
    || c == '\U{A0}' || c == '\U{1680}' || ('\U{2000}' <= c <= '\U{200A}')
    || c == '\U{2028}' || c == '\U{2029}' || c == '\U{202F}' || c == '\U{205F}'
    || c == '\U{3000}' || c == '\U{FEFF}'
  }

  /** The characters `.` does not match. */
  predicate IsLineTerminator(c: char) {
    c == '\n' || c == '\r' || c == '\U{2028}' || c == '\U{2029}'
  }

  /** `\w` without the `u` flag. */
  predicate IsWordChar(c: char) {
    ('a' <= c <= 'z') || ('A' <= c <= 'Z') || ('0' <= c <= '9') || c == '_'
  }

  datatype Span = Span(start: nat, end: nat)

  // The label pattern `^([^\s;*]+)`.

  predicate IsLabelChar(c: char) {
    !IsSpace(c) && c != ';' && c != '*'
  }

  /** The end of the run of label characters starting at `j`. */
  function LabelRunEnd(s: string, j: nat): (k: nat)
    requires j <= |s|
    ensures j <= k <= |s|
    ensures forall q :: j <= q < k ==> IsLabelChar(s[q])
    ensures k == |s| || !IsLabelChar(s[k])
    decreases |s| - j
  {
    if j == |s| || !IsLabelChar(s[j]) then j else LabelRunEnd(s, j + 1)
  }

  /** The label match: present exactly when the line starts with a label
      character, and then the whole run of them from column 0. */
  function LabelSpan(s: string): (r: Option<Span>)
    ensures r.Some? <==> |s| > 0 && IsLabelChar(s[0])
    ensures r.Some? ==> && r.value.start == 0 && 0 < r.value.end <= |s|
                        && (forall q :: 0 <= q < r.value.end ==> IsLabelChar(s[q]))
                        && (r.value.end == |s| || !IsLabelChar(s[r.value.end]))
  {
    if |s| > 0 && IsLabelChar(s[0]) then Some(Span(0, LabelRunEnd(s, 0))) else None
  }

  // The comment pattern `((;|\s\*|^\*).*)`.

  /** How many characters the alternative `;`, `\s\*` or `^\*` matching at
      `p` takes; zero when none matches there. */
  function OpenerLength(s: string, p: nat): (n: nat)
    requires p < |s|
    ensures n <= 2 && p + n <= |s|
  {
    if s[p] == ';' then 1
    else if IsSpace(s[p]) && p + 1 < |s| && s[p + 1] == '*' then 2
    else if p == 0 && s[p] == '*' then 1
    else 0
  }

  /** Where `.*` starting at `j` stops: the next line terminator, or the end. */
  function LineEnd(s: string, j: nat): (k: nat)
    requires j <= |s|
    ensures j <= k <= |s|
    ensures forall q :: j <= q < k ==> !IsLineTerminator(s[q])
    ensures k == |s| || IsLineTerminator(s[k])
    decreases |s| - j
  {
    if j == |s| || IsLineTerminator(s[j]) then j else LineEnd(s, j + 1)
  }

  /** The leftmost comment match at or after `p`. */
  function FindComment(s: string, p: nat): (r: Option<Span>)
    requires p <= |s|
    ensures r.Some? ==> && p <= r.value.start < |s| && OpenerLength(s, r.value.start) > 0
                        && (forall q :: p <= q < r.value.start ==> OpenerLength(s, q) == 0)
                        && r.value.end == LineEnd(s, r.value.start + OpenerLength(s, r.value.start))
    ensures r.None? ==> forall q :: p <= q < |s| ==> OpenerLength(s, q) == 0
    decreases |s| - p
  {
    if p == |s| then None
    else if OpenerLength(s, p) > 0 then Some(Span(p, LineEnd(s, p + OpenerLength(s, p))))
    else FindComment(s, p + 1)
  }

  function CommentSpan(s: string): Option<Span> {
    FindComment(s, 0)
  }

  // The mnemonic pattern
  // `(?<![;*])(?<=\s|:)((<vocabulary>|blo|dblo|dbra)(\.(b|w|l|s))?)\b`, flag `i`.

  /** Case folding as the `i` flag applies it to ASCII letters. */
  function Lower(c: char): char {
    if 'A' <= c <= 'Z' then (c as int + 32) as char else c
  }

  /** `w` occurs at `p`, ignoring the case of ASCII letters. */
  predicate WordAt(s: string, p: nat, w: string) {
    p + |w| <= |s| && forall q :: 0 <= q < |w| ==> Lower(s[p + q]) == Lower(w[q])
  }

  /** A size suffix `.b`, `.w`, `.l` or `.s` occurs at `q`. */
  predicate SuffixAt(s: string, q: nat) {
    q + 2 <= |s| && s[q] == '.' && Lower(s[q + 1]) in "bwls"
  }

  /** `\b` holds at position `q`. */
  predicate IsBoundary(s: string, q: nat)
    requires q <= |s|
  {
    (0 < q && IsWordChar(s[q - 1])) != (q < |s| && IsWordChar(s[q]))
  }

  /** Where a match of the alternative `w` at `p` ends: the optional suffix is
      tried first, and given up when no word boundary follows it. */
  function AlternativeEnd(s: string, p: nat, w: string): (r: Option<nat>)
    requires p <= |s|
    ensures r.Some? ==> && WordAt(s, p, w) && r.value <= |s| && IsBoundary(s, r.value)
                        && (r.value == p + |w| || (r.value == p + |w| + 2 && SuffixAt(s, p + |w|)))
    ensures r.None? <==> !WordAt(s, p, w)
                         || (!(SuffixAt(s, p + |w|) && IsBoundary(s, p + |w| + 2)) && !IsBoundary(s, p + |w|))
    ensures WordAt(s, p, w) && SuffixAt(s, p + |w|) && IsBoundary(s, p + |w| + 2) ==> r == Some(p + |w| + 2)
  {
    if !WordAt(s, p, w) then None
    else if SuffixAt(s, p + |w|) && IsBoundary(s, p + |w| + 2) then Some(p + |w| + 2)
    else if IsBoundary(s, p + |w|) then Some(p + |w|)
    else None
  }

  /** The end of the match of the first alternative, in order, that matches at `p`. */
  function FirstAlternativeEnd(s: string, p: nat, alts: seq<string>): (r: Option<nat>)
    requires p <= |s|
    ensures r.Some? ==> exists j :: 0 <= j < |alts| && AlternativeEnd(s, p, alts[j]) == r
                                    && forall i :: 0 <= i < j ==> AlternativeEnd(s, p, alts[i]).None?
    ensures r.None? ==> forall i :: 0 <= i < |alts| ==> AlternativeEnd(s, p, alts[i]).None?
  {
    if alts == [] then None
    else
      var here := AlternativeEnd(s, p, alts[0]);
      if here.Some? then here
      else
        var r := FirstAlternativeEnd(s, p, alts[1..]);
        assert forall i :: 1 <= i < |alts| ==> alts[i] == alts[1..][i - 1];
        r
  }

  /** Both lookbehinds hold at `p`: the previous character is white space or
      `:`, and is not `;` or `*`. */
  predicate MnemonicMayStart(s: string, p: nat) {
    0 < p <= |s| && !(s[p - 1] == ';' || s[p - 1] == '*') && (IsSpace(s[p - 1]) || s[p - 1] == ':')
  }

  predicate MnemonicAt(s: string, p: nat, alts: seq<string>)
    requires p <= |s|
  {
    MnemonicMayStart(s, p) && FirstAlternativeEnd(s, p, alts).Some?
  }

  /** The leftmost mnemonic match at or after `p`. */
  function FindMnemonic(s: string, p: nat, alts: seq<string>): (r: Option<Span>)
    requires p <= |s|
    ensures r.Some? ==> && p <= r.value.start <= |s| && MnemonicAt(s, r.value.start, alts)
                        && Some(r.value.end) == FirstAlternativeEnd(s, r.value.start, alts)
                        && forall q :: p <= q < r.value.start ==> !MnemonicAt(s, q, alts)
    ensures r.None? ==> forall q :: p <= q <= |s| ==> !MnemonicAt(s, q, alts)
    decreases |s| - p
  {
    var here := FirstAlternativeEnd(s, p, alts);
    if MnemonicMayStart(s, p) && here.Some? then Some(Span(p, here.value))
    else if p == |s| then None
    else
      assert !MnemonicAt(s, p, alts);
      FindMnemonic(s, p + 1, alts)
  }

  /** The alternatives of the mnemonic pattern: the analyser's mnemonics in
      their order, then three spellings of its own. */
  function Alternatives(vocabulary: seq<string>): seq<string> {
    vocabulary + ["blo", "dblo", "dbra"]
  }

  function MnemonicSpan(s: string, vocabulary: seq<string>): Option<Span> {
    FindMnemonic(s, 0, Alternatives(vocabulary))
  }

  /** A mnemonic match never starts at column 0, follows white space or `:`,
      is one of the alternatives (in any letter case) optionally followed by a
      size suffix, and ends at a word boundary. */
  lemma MnemonicShape(s: string, vocabulary: seq<string>)
    ensures var r := MnemonicSpan(s, vocabulary);
            r.Some? ==>
              && 0 < r.value.start <= r.value.end <= |s|
              && (IsSpace(s[r.value.start - 1]) || s[r.value.start - 1] == ':')
              && IsBoundary(s, r.value.end)
              && exists w :: w in Alternatives(vocabulary) && WordAt(s, r.value.start, w)
                             && (r.value.end == r.value.start + |w|
                                 || (r.value.end == r.value.start + |w| + 2 && SuffixAt(s, r.value.start + |w|)))
  {
    var r := MnemonicSpan(s, vocabulary);
    if r.Some? {
      var alts := Alternatives(vocabulary);
      var j :| 0 <= j < |alts| && AlternativeEnd(s, r.value.start, alts[j]) == Some(r.value.end);
      assert alts[j] in alts;
    }
  }

  // `formatLine`

  datatype Region = Label | Mnemonic | Comment

  /** The match of `region` among the three matches `l`, `m`, `c`. */
  function Pick(l: Option<Span>, m: Option<Span>, c: Option<Span>, region: Region): Option<Span> {
    match region
    case Label => l
    case Mnemonic => m
    case Comment => c
  }

  function RegionSpan(line: string, vocabulary: seq<string>, region: Region): Option<Span> {
    Pick(LabelSpan(line), MnemonicSpan(line, vocabulary), CommentSpan(line), region)
  }

  function Rank(region: Region): nat {
    match region
    case Label => 0
    case Mnemonic => 1
    case Comment => 2
  }

  /** One highlighted region of the line. */
  datatype Mark = Mark(region: Region, span: Span)

  /** `marks` with a mark for `region` appended when its match `o` is present. */
  function MarkIf(marks: seq<Mark>, region: Region, o: Option<Span>): seq<Mark> {
    if o.Some? then marks + [Mark(region, o.value)] else marks
  }

  /** The marks of the present matches, in the order they are applied. */
  function Applied(l: Option<Span>, m: Option<Span>, c: Option<Span>): seq<Mark> {
    MarkIf(MarkIf(MarkIf([], Label, l), Mnemonic, m), Comment, c)
  }

  /** Each present match gets exactly its own mark, absent ones none, in rank order. */
  lemma AppliedMarks(l: Option<Span>, m: Option<Span>, c: Option<Span>)
    ensures var marks := Applied(l, m, c);
            && (marks == [] <==> forall region :: Pick(l, m, c, region).None?)
            && (forall k :: 0 <= k < |marks| ==> Some(marks[k].span) == Pick(l, m, c, marks[k].region))
            && (forall region :: Pick(l, m, c, region).Some? ==>
                  exists k :: 0 <= k < |marks| && marks[k].region == region)
            && (forall j, k :: 0 <= j < k < |marks| ==> Rank(marks[j].region) < Rank(marks[k].region))
  {
    var marks := Applied(l, m, c);
    assert Pick(l, m, c, Label) == l && Pick(l, m, c, Mnemonic) == m && Pick(l, m, c, Comment) == c;
    forall region | Pick(l, m, c, region).Some?
      ensures exists k :: 0 <= k < |marks| && marks[k].region == region
    {
      match region
      case Label =>
        assert marks[0].region == Label;
      case Mnemonic =>
        var k := if l.Some? then 1 else 0;
        assert marks[k].region == Mnemonic;
      case Comment =>
        assert marks[|marks| - 1].region == Comment;
    }
    if marks == [] {
      assert l.None? && m.None? && c.None?;
    }
  }

  /** `formatLine`: the label, mnemonic and comment matches, each found on
      the original text and applied in that order when present. The line is
      left as it is, with no mark, exactly when none of them matches. */
  method FormatLine(line: string, vocabulary: seq<string>) returns (marks: seq<Mark>)
    ensures marks == [] <==> forall region :: RegionSpan(line, vocabulary, region).None?
    ensures forall k :: 0 <= k < |marks| ==> Some(marks[k].span) == RegionSpan(line, vocabulary, marks[k].region)
    ensures forall region :: RegionSpan(line, vocabulary, region).Some? ==>
              exists k :: 0 <= k < |marks| && marks[k].region == region
    ensures forall j, k :: 0 <= j < k < |marks| ==> Rank(marks[j].region) < Rank(marks[k].region)
  {
    var labelMatch := LabelSpan(line);
    var mnemMatch := MnemonicSpan(line, vocabulary);
    var commentMatch := CommentSpan(line);
    marks := [];
    if labelMatch.Some? {
      marks := marks + [Mark(Label, labelMatch.value)];
    }
    assert marks == MarkIf([], Label, labelMatch);
    if mnemMatch.Some? {
      marks := marks + [Mark(Mnemonic, mnemMatch.value)];
    }
    assert marks == MarkIf(MarkIf([], Label, labelMatch), Mnemonic, mnemMatch);
    if commentMatch.Some? {
      marks := marks + [Mark(Comment, commentMatch.value)];
    }
    assert marks == Applied(labelMatch, mnemMatch, commentMatch);
    AppliedMarks(labelMatch, mnemMatch, commentMatch);
    if forall region :: RegionSpan(line, vocabulary, region).None? {
      assert RegionSpan(line, vocabulary, Label).None? && RegionSpan(line, vocabulary, Mnemonic).None?
             && RegionSpan(line, vocabulary, Comment).None?;
    }
  }

  // Consequences.

  /** A line starting with `*` has no label, and, holding no line terminator,
      is a comment from its first character to its last. */
  lemma StarLineIsComment(s: string)
    requires |s| > 0 && s[0] == '*'
    requires forall q :: 0 <= q < |s| ==> !IsLineTerminator(s[q])
    ensures LabelSpan(s).None?
    ensures CommentSpan(s) == Some(Span(0, |s|))
  {
  }

  /** A comment match runs to the end of a line without line terminators, and
      starts at the leftmost `;`, white space followed by `*`, or `*` in column 0. */
  lemma CommentRunsToEnd(s: string)
    requires forall q :: 0 <= q < |s| ==> !IsLineTerminator(s[q])
    ensures var r := CommentSpan(s);
            && (r.Some? ==> r.value.end == |s| && OpenerLength(s, r.value.start) > 0
                            && forall q :: 0 <= q < r.value.start ==> OpenerLength(s, q) == 0)
            && (r.None? ==> forall q :: 0 <= q < |s| ==> OpenerLength(s, q) == 0)
  {
  }

  /** A label that reads like a mnemonic is still only a label: in column 0
      nothing precedes it, so the mnemonic pattern cannot start there. */
  lemma ColumnZeroIsNeverMnemonic(s: string, vocabulary: seq<string>)
    ensures !MnemonicAt(s, 0, Alternatives(vocabulary))
  {
  }

  /** The comment match starts at the first position where an opener
      alternative matches, and runs to the end of the line there. */
  lemma LeftmostComment(s: string, n: nat)
    requires n < |s| && OpenerLength(s, n) > 0
    requires forall q :: 0 <= q < n ==> OpenerLength(s, q) == 0
    ensures CommentSpan(s) == Some(Span(n, LineEnd(s, n + OpenerLength(s, n))))
  {
    var r := FindComment(s, 0);
    assert r.Some?;
    assert r.value.start == n;
  }

  /** The mnemonic match starts at the first position where one matches. */
  lemma LeftmostMnemonic(s: string, n: nat, alts: seq<string>)
    requires n <= |s| && MnemonicAt(s, n, alts)
    requires forall q :: 0 <= q < n ==> !MnemonicAt(s, q, alts)
    ensures FindMnemonic(s, 0, alts) == Some(Span(n, FirstAlternativeEnd(s, n, alts).value))
  {
    var r := FindMnemonic(s, 0, alts);
    assert r.Some?;
    assert r.value.start == n;
  }

  /** Without `;` before `n`, nor `*` up to `n`, no comment starts before `n`. */
  lemma NoOpenerBefore(s: string, n: nat)
    requires n < |s|
    requires ';' !in s[..n] && '*' !in s[..n + 1]
    ensures forall q :: 0 <= q < n ==> OpenerLength(s, q) == 0
  {
    forall q | 0 <= q < n ensures OpenerLength(s, q) == 0 {
      assert s[..n][q] == s[q] && s[..n + 1][q] == s[q] && s[..n + 1][q + 1] == s[q + 1];
    }
  }

  /** The label of the example line `L move.l ;x`. */
  lemma ExampleLabel()
    ensures LabelSpan("L move.l ;x") == Some(Span(0, 1))
  {
    var s := "L move.l ;x";
    assert IsLabelChar(s[0]) && !IsLabelChar(s[1]);
  }

  /** The mnemonic of the example line, `move.l`, the size suffix included. */
  lemma ExampleMnemonic()
    ensures MnemonicSpan("L move.l ;x", ["move"]) == Some(Span(2, 8))
  {
    var s := "L move.l ;x";
    var alts := Alternatives(["move"]);
    assert alts[0] == "move";
    assert !MnemonicMayStart(s, 0) && !MnemonicMayStart(s, 1);
    assert WordAt(s, 2, "move") && SuffixAt(s, 6) && IsBoundary(s, 8);
    assert AlternativeEnd(s, 2, alts[0]) == Some(8);
    LeftmostMnemonic(s, 2, alts);
  }

  /** The comment of the example line, from `;` to the end. */
  lemma ExampleComment()
    ensures CommentSpan("L move.l ;x") == Some(Span(9, 11))
  {
    var s := "L move.l ;x";
    assert ';' !in s[..9] && '*' !in s[..10];
    NoOpenerBefore(s, 9);
    assert OpenerLength(s, 9) == 1;
    assert !IsLineTerminator(s[10]);
    LeftmostComment(s, 9);
  }

  /** The lookbehind `(?<![;*])` adds nothing to `(?<=\s|:)`: neither `;`
      nor `*` is white space or `:`. */
  lemma LookbehindRedundant(s: string, p: nat)
    ensures MnemonicMayStart(s, p) <==> 0 < p <= |s| && (IsSpace(s[p - 1]) || s[p - 1] == ':')
  {
  }

  /** So a mnemonic inside a comment is still highlighted. */
  lemma MnemonicInsideComment()
    ensures MnemonicSpan("* move", ["move"]) == Some(Span(2, 6))
    ensures CommentSpan("* move") == Some(Span(0, 6))
  {
    var s := "* move";
    var alts := Alternatives(["move"]);
    assert alts[0] == "move";
    assert !MnemonicMayStart(s, 0) && !MnemonicMayStart(s, 1);
    assert WordAt(s, 2, "move") && IsBoundary(s, 6);
    assert AlternativeEnd(s, 2, alts[0]) == Some(6);
    LeftmostMnemonic(s, 2, alts);
    StarLineIsComment(s);
  }
}
