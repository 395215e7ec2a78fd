/** The word wrapper of the share-card poster (internal/share/poster.go). */
module LineWrap {

  // ----- Splitting into words -----

  /** Reading left to right: the words that have ended and the one in progress. */
  function Scan(s: string): (seq<string>, string) {
    if s == [] then ([], "")
    else
      var (words, word) := Scan(s[..|s|-1]);
      var c := s[|s|-1];
      if c != ' ' then (words, word + [c])
      else (EndWord(words, word), "")
  }

  function EndWord(words: seq<string>, word: string): seq<string> {
    if word == "" then words else words + [word]
  }

  function Words(s: string): seq<string> {
    EndWord(Scan(s).0, Scan(s).1)
  }

  method SplitWords(s: string) returns (out: seq<string>)
    ensures out == Words(s)
  {
    out := [];
    var start := 0;
    for i := 0 to |s|
      invariant 0 <= start <= i
      invariant Scan(s[..i]) == (out, s[start..i])
    {
      assert s[..i+1][..i] == s[..i];
      if s[i] == ' ' {
        assert start == i ==> s[start..i] == "";
        if i > start {
          out := out + [s[start..i]];
        }
        start := i + 1;
        assert s[start..i+1] == "";
      } else {
        assert s[start..i+1] == s[start..i] + [s[i]];
      }
    }
    assert s[..|s|] == s;
    if start < |s| {
      out := out + [s[start..]];
    }
  }

  predicate IsWord(w: string) {
    w != "" && ' ' !in w
  }

  lemma {:induction false} ScanWord(a: string, b: string)
    requires ' ' !in b
    ensures Scan(a + b) == (Scan(a).0, Scan(a).1 + b)
  {
    if b == [] {
      assert a + b == a && Scan(a).1 + b == Scan(a).1;
    } else {
      var c, rest := b[|b|-1], b[..|b|-1];
      ScanWord(a, rest);
      assert (a + b)[..|a + b|-1] == a + rest;
      assert Scan(a).1 + rest + [c] == Scan(a).1 + b;
    }
  }

  lemma {:induction false} ScanAfterSpace(a: string, b: string)
    ensures Scan(a + " " + b) == (Words(a) + Scan(b).0, Scan(b).1)
  {
    var s := a + " " + b;
    if b == [] {
      assert s[..|s|-1] == a && s[|s|-1] == ' ';
      assert Words(a) + Scan(b).0 == Words(a);
    } else {
      var rest := b[..|b|-1];
      ScanAfterSpace(a, rest);
      assert s[..|s|-1] == a + " " + rest && s[|s|-1] == b[|b|-1];
      assert Words(a) + EndWord(Scan(rest).0, Scan(rest).1) == EndWord(Words(a) + Scan(rest).0, Scan(rest).1);
    }
  }

  /** A space separates the words before it from those after it, and a string without
      spaces is one word: together these determine `Words`. */
  lemma SplitAtSpace(a: string, b: string)
    ensures Words(a + " " + b) == Words(a) + Words(b)
  {
    ScanAfterSpace(a, b);
    assert Words(a) + EndWord(Scan(b).0, Scan(b).1) == EndWord(Words(a) + Scan(b).0, Scan(b).1);
  }

  lemma OneWord(w: string)
    requires IsWord(w)
    ensures Words(w) == [w]
  {
    ScanWord("", w);
    assert "" + w == w;
  }

  lemma {:induction false} ScanWords(s: string)
    ensures forall w :: w in Scan(s).0 ==> IsWord(w)
    ensures ' ' !in Scan(s).1
  {
    if s != [] {
      ScanWords(s[..|s|-1]);
    }
  }

  /** Words split off are never empty and hold no space. */
  lemma WordsAreWords(s: string)
    ensures forall w :: w in Words(s) ==> IsWord(w)
  {
    ScanWords(s);
  }

  // ----- Lines -----

  /** Words set on one line, with single spaces between them. */
  function Join(words: seq<string>): string {
    if |words| == 0 then ""
    else if |words| == 1 then words[0]
    else Join(words[..|words|-1]) + " " + words[|words|-1]
  }

  /** Splitting a drawn line gives back the words set on it. */
  lemma {:induction false} JoinSplit(words: seq<string>)
    requires forall w :: w in words ==> IsWord(w)
    ensures Words(Join(words)) == words
  {
    if |words| == 1 {
      assert words[0] in words;
      OneWord(words[0]);
    } else if |words| > 1 {
      var last := |words| - 1;
      JoinSplit(words[..last]);
      OneWord(words[last]);
      SplitAtSpace(Join(words[..last]), words[last]);
      assert words == words[..last] + [words[last]];
    }
  }

  /** Every rune of Face7x13 is 7 pixels wide. */
  const ADVANCE: nat := 7

  type Scale = n: int | n >= 1 witness 1

  function Pixels(runes: nat, scale: Scale): nat {
    ADVANCE * runes * scale
  }

  /** The longest line, in runes, that is no wider than maxWidth. */
  function Capacity(maxWidth: int, scale: Scale): int {
    maxWidth / (ADVANCE * scale)
  }

  predicate Fits(capacity: int, line: string) {
    |line| <= capacity
  }

  /** Counting runes is measuring pixels. */
  lemma FitsByPixels(line: string, maxWidth: int, scale: Scale)
    ensures Fits(Capacity(maxWidth, scale), line) <==> Pixels(|line|, scale) <= maxWidth
    ensures Pixels(|line|, scale) == 7 * |line| * scale
  {
    var unit, n := ADVANCE * scale, |line|;
    assert Pixels(n, scale) == n * unit;
    assert maxWidth == unit * (maxWidth / unit) + maxWidth % unit;
    if n <= maxWidth / unit {
      MulMonotone(n, maxWidth / unit, unit);
    } else {
      MulMonotone(maxWidth / unit + 1, n, unit);
    }
  }

  lemma MulMonotone(a: int, b: int, c: nat)
    requires a <= b
    ensures a * c <= b * c
  {
  }

  /** Greedy breaking: the lines that are finished and the one being filled. */
  function Break(capacity: int, words: seq<string>): (seq<seq<string>>, seq<string>) {
    if words == [] then ([], [])
    else
      var (lines, line) := Break(capacity, words[..|words|-1]);
      var w := words[|words|-1];
      if Fits(capacity, Join(line + [w])) then (lines, line + [w])
      else (EndLine(lines, line), [w])
  }

  function EndLine(lines: seq<seq<string>>, line: seq<string>): seq<seq<string>> {
    if line == [] then lines else lines + [line]
  }

  function Lines(capacity: int, words: seq<string>): seq<seq<string>> {
    EndLine(Break(capacity, words).0, Break(capacity, words).1)
  }

  datatype Text = Text(y: int, line: string)

  /** drawText draws nothing for an empty string. */
  function Draw(canvas: seq<Text>, y: int, line: string): seq<Text> {
    if line == "" then canvas else canvas + [Text(y, line)]
  }

  /** The height of a slot: one line height below the slot above. */
  function SlotY(y: int, lineHeight: int, slot: nat): int {
    if slot == 0 then y else SlotY(y, lineHeight, slot - 1) + lineHeight
  }

  /** The k-th line goes k + skip line heights below y. */
  function Placed(lines: seq<seq<string>>, y: int, lineHeight: int, skip: nat): seq<Text> {
    seq(|lines|, k requires 0 <= k < |lines| => Text(SlotY(y, lineHeight, k + skip), Join(lines[k])))
  }

  /** When the first word alone is too wide, the wrapper leaves the first slot blank. */
  function Skipped(capacity: int, words: seq<string>): nat {
    if words != [] && !Fits(capacity, words[0]) then 1 else 0
  }

  lemma {:induction false} BreakIsOpen(capacity: int, words: seq<string>)
    requires words != [] && forall w :: w in words ==> IsWord(w)
    ensures Break(capacity, words).1 != [] && Join(Break(capacity, words).1) != ""
  {
    var last := |words| - 1;
    assert words[last] in words;
    var line := Break(capacity, words[..last]).1;
    assert (line + [words[last]])[..|line|] == line;
  }

  lemma JoinAppend(line: seq<string>, w: string)
    ensures Join(line + [w]) == if line == [] then w else Join(line) + " " + w
  {
    assert (line + [w])[..|line|] == line;
  }

  lemma PlacedAppend(lines: seq<seq<string>>, line: seq<string>, y: int, lineHeight: int, skip: nat)
    ensures Placed(lines + [line], y, lineHeight, skip)
         == Placed(lines, y, lineHeight, skip) + [Text(SlotY(y, lineHeight, |lines| + skip), Join(line))]
  {
  }

  datatype Pen = Pen(line: string, y: int, canvas: seq<Text>)

  function TakeWord(pen: Pen, w: string, maxWidth: int, lineHeight: int, scale: Scale): Pen {
    var next := if pen.line != "" then pen.line + " " + w else w;
    if Pixels(|next|, scale) > maxWidth
    then Pen(w, pen.y + lineHeight, Draw(pen.canvas, pen.y, pen.line))
    else pen.(line := next)
  }

  /** The state of the wrapping loop after the given words. */
  function WrapLoop(words: seq<string>, y0: int, maxWidth: int, lineHeight: int, scale: Scale): Pen {
    if words == [] then Pen("", y0, [])
    else
      var pen := WrapLoop(words[..|words|-1], y0, maxWidth, lineHeight, scale);
      TakeWord(pen, words[|words|-1], maxWidth, lineHeight, scale)
  }

  /** What has been drawn, and where, in terms of the lines. */
  ghost predicate Wrapping(capacity: int, words: seq<string>, y0: int, lineHeight: int, pen: Pen) {
    var (lines, open) := Break(capacity, words);
    var skip := Skipped(capacity, words);
    && pen.line == Join(open) && (pen.line == "" <==> words == [])
    && pen.y == SlotY(y0, lineHeight, |lines| + skip)
    && pen.canvas == Placed(lines, y0, lineHeight, skip)
  }

  lemma WrapSameLine(capacity: int, words: seq<string>, w: string, y0: int, lineHeight: int, pen: Pen, next: string)
    requires IsWord(w) && Wrapping(capacity, words, y0, lineHeight, pen)
    requires next == (if pen.line != "" then pen.line + " " + w else w) && Fits(capacity, next)
    requires words != [] ==> Break(capacity, words).1 != []
    ensures Wrapping(capacity, words + [w], y0, lineHeight, pen.(line := next))
  {
    assert (words + [w])[..|words|] == words;
    JoinAppend(Break(capacity, words).1, w);
  }

  lemma WrapNewLine(capacity: int, words: seq<string>, w: string, y0: int, lineHeight: int, pen: Pen, next: string)
    requires IsWord(w) && Wrapping(capacity, words, y0, lineHeight, pen)
    requires next == (if pen.line != "" then pen.line + " " + w else w) && !Fits(capacity, next)
    requires words != [] ==> Break(capacity, words).1 != []
    ensures Wrapping(capacity, words + [w], y0, lineHeight,
                     Pen(w, pen.y + lineHeight, Draw(pen.canvas, pen.y, pen.line)))
  {
    var (lines, open) := Break(capacity, words);
    assert (words + [w])[..|words|] == words;
    JoinAppend(open, w);
    PlacedAppend(lines, open, y0, lineHeight, Skipped(capacity, words));
  }

  lemma {:induction false} WrapLoopIs(words: seq<string>, y0: int, maxWidth: int, lineHeight: int, scale: Scale)
    requires forall v :: v in words ==> IsWord(v)
    ensures Wrapping(Capacity(maxWidth, scale), words, y0, lineHeight, WrapLoop(words, y0, maxWidth, lineHeight, scale))
  {
    if words != [] {
      var front, w := words[..|words|-1], words[|words|-1];
      var pen := WrapLoop(front, y0, maxWidth, lineHeight, scale);
      WrapLoopIs(front, y0, maxWidth, lineHeight, scale);
      assert front + [w] == words && w in words;
      if front != [] {
        BreakIsOpen(Capacity(maxWidth, scale), front);
      }
      var next := if pen.line != "" then pen.line + " " + w else w;
      FitsByPixels(next, maxWidth, scale);
      if Fits(Capacity(maxWidth, scale), next) {
        WrapSameLine(Capacity(maxWidth, scale), front, w, y0, lineHeight, pen, next);
      } else {
        WrapNewLine(Capacity(maxWidth, scale), front, w, y0, lineHeight, pen, next);
      }
    }
  }

  lemma WrapEnd(capacity: int, words: seq<string>, y0: int, lineHeight: int, pen: Pen)
    requires forall v :: v in words ==> IsWord(v)
    requires Wrapping(capacity, words, y0, lineHeight, pen)
    ensures Draw(pen.canvas, pen.y, pen.line)
         == Placed(Lines(capacity, words), y0, lineHeight, Skipped(capacity, words))
  {
    if words != [] {
      BreakIsOpen(capacity, words);
      PlacedAppend(Break(capacity, words).0, Break(capacity, words).1, y0, lineHeight, Skipped(capacity, words));
    }
  }

  method Wrap(s: string, y0: int, maxWidth: int, lineHeight: int, scale: Scale) returns (canvas: seq<Text>)
    ensures var capacity := Capacity(maxWidth, scale);
            canvas == Placed(Lines(capacity, Words(s)), y0, lineHeight, Skipped(capacity, Words(s)))
  {
    canvas := [];
    var words := SplitWords(s);
    var y := y0;
    var line := "";
    for i := 0 to |words|
      invariant Pen(line, y, canvas) == WrapLoop(words[..i], y0, maxWidth, lineHeight, scale)
    {
      var w := words[i];
      assert words[..i+1][..i] == words[..i];
      var next := w;
      if line != "" {
        next := line + " " + w;
      }
      if Pixels(|next|, scale) > maxWidth {
        if line != "" {
          canvas := canvas + [Text(y, line)];
        }
        y := y + lineHeight;
        line := w;
      } else {
        line := next;
      }
    }
    assert words[..|words|] == words;
    WordsAreWords(s);
    WrapLoopIs(words, y0, maxWidth, lineHeight, scale);
    WrapEnd(Capacity(maxWidth, scale), words, y0, lineHeight, Pen(line, y, canvas));
    if line != "" {
      canvas := canvas + [Text(y, line)];
    }
  }

  // ----- What the wrapper promises -----

  function Flatten(lines: seq<seq<string>>): seq<string> {
    if lines == [] then [] else Flatten(lines[..|lines|-1]) + lines[|lines|-1]
  }

  predicate LineOk(capacity: int, line: seq<string>) {
    line != [] && (Fits(capacity, Join(line)) || |line| == 1)
  }

  lemma FlattenAppend(lines: seq<seq<string>>, line: seq<string>)
    ensures Flatten(lines + [line]) == Flatten(lines) + line
  {
    assert (lines + [line])[..|lines|] == lines;
  }

  lemma {:induction false} BreakKeepsWords(capacity: int, words: seq<string>)
    ensures Flatten(Break(capacity, words).0) + Break(capacity, words).1 == words
  {
    if words != [] {
      var last := |words| - 1;
      BreakKeepsWords(capacity, words[..last]);
      var (lines, line) := Break(capacity, words[..last]);
      FlattenAppend(lines, line);
      assert words == words[..last] + [words[last]];
      assert Flatten(lines) + (line + [words[last]]) == Flatten(lines) + line + [words[last]];
    }
  }

  lemma {:induction false} BreakLinesOk(capacity: int, words: seq<string>)
    ensures forall l :: l in Break(capacity, words).0 ==> LineOk(capacity, l)
    ensures words != [] ==> LineOk(capacity, Break(capacity, words).1)
  {
    if words != [] {
      BreakLinesOk(capacity, words[..|words|-1]);
    }
  }

  /** No word is lost, added or moved, and every line fits or is one over-wide word. */
  lemma Lossless(capacity: int, words: seq<string>)
    ensures Flatten(Lines(capacity, words)) == words
    ensures forall l :: l in Lines(capacity, words) ==> LineOk(capacity, l)
  {
    BreakKeepsWords(capacity, words);
    BreakLinesOk(capacity, words);
    FlattenAppend(Break(capacity, words).0, Break(capacity, words).1);
  }

  lemma {:induction false} JoinLength(a: seq<string>, b: seq<string>)
    ensures |Join(a)| <= |Join(a + b)| && |Join(b)| <= |Join(a + b)|
  {
    if b == [] {
      assert a + b == a;
    } else {
      var last := |b| - 1;
      JoinLength(a, b[..last]);
      assert a + b == (a + b[..last]) + [b[last]] && b == b[..last] + [b[last]];
      JoinAppend(a + b[..last], b[last]);
      JoinAppend(b[..last], b[last]);
    }
  }

  /** Another way to set the words: nonempty lines, each fitting or one over-wide word. */
  ghost predicate Setting(capacity: int, words: seq<string>, lines: seq<seq<string>>) {
    Flatten(lines) == words && forall l :: l in lines ==> LineOk(capacity, l)
  }

  /** The last line of a setting without its last word. */
  lemma SettingWithoutLast(capacity: int, words: seq<string>, lines: seq<seq<string>>)
    requires words != [] && Setting(capacity, words, lines)
    ensures lines != []
    ensures var last := lines[|lines|-1]; var front := lines[..|lines|-1];
            && last != [] && last[|last|-1] == words[|words|-1]
            && Setting(capacity, words[..|words|-1], if |last| == 1 then front else front + [last[..|last|-1]])
  {
    assert lines != [];
    var last, front := lines[|lines|-1], lines[..|lines|-1];
    assert last in lines && LineOk(capacity, last);
    var shorter := last[..|last|-1];
    assert last == shorter + [last[|last|-1]];
    assert words == Flatten(front) + last;
    assert words[..|words|-1] == Flatten(front) + shorter;
    assert forall l :: l in front ==> l in lines;
    FlattenAppend(front, shorter);
    if |last| > 1 {
      JoinLength(shorter, [last[|last|-1]]);
    } else {
      assert Flatten(front) + shorter == Flatten(front);
    }
  }

  /** Greedy stays ahead: no setting has fewer lines, and one with as many lines has at
      least as many words on its last line. */
  lemma {:induction false} GreedyAhead(capacity: int, words: seq<string>, other: seq<seq<string>>)
    requires Setting(capacity, words, other)
    ensures |Lines(capacity, words)| <= |other|
    ensures words != [] && |Lines(capacity, words)| == |other| ==>
              |Break(capacity, words).1| <= |other[|other|-1]|
  {
    if words != [] {
      var prefix, w := words[..|words|-1], words[|words|-1];
      var (lines, line) := Break(capacity, prefix);
      SettingWithoutLast(capacity, words, other);
      var last, front := other[|other|-1], other[..|other|-1];
      BreakKeepsWords(capacity, prefix);
      if |last| == 1 {
        GreedyAhead(capacity, prefix, front);
      } else {
        var shorter := last[..|last|-1];
        GreedyAhead(capacity, prefix, front + [shorter]);
        assert last in other && last == shorter + [w];
        if |Lines(capacity, prefix)| == |other| {
          LastLineFits(capacity, prefix, front, shorter, line, lines, w);
        }
      }
    }
  }

  /** A last line that also takes w shows that the shorter greedy line takes it too. */
  lemma LastLineFits(capacity: int, prefix: seq<string>, front: seq<seq<string>>, shorter: seq<string>,
                     line: seq<string>, lines: seq<seq<string>>, w: string)
    requires Flatten(front + [shorter]) == prefix && Flatten(lines) + line == prefix
    requires |line| <= |shorter| && Fits(capacity, Join(shorter + [w]))
    ensures Fits(capacity, Join(line + [w]))
  {
    FlattenAppend(front, shorter);
    var extra := shorter[..|shorter|-|line|];
    assert line == prefix[|prefix|-|line|..];
    assert shorter == prefix[|prefix|-|shorter|..];
    assert shorter == extra + line;
    assert shorter + [w] == extra + (line + [w]);
    JoinLength(extra, line + [w]);
  }

  /** No other way of setting the words uses fewer lines. */
  lemma GreedyIsOptimal(capacity: int, words: seq<string>, other: seq<seq<string>>)
    requires Setting(capacity, words, other)
    ensures |Lines(capacity, words)| <= |other|
    ensures Setting(capacity, words, Lines(capacity, words))
  {
    GreedyAhead(capacity, words, other);
    Lossless(capacity, words);
  }
}
