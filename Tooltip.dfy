/**
 * The text side of `Tooltip`: the markup is cut into lines at "<br>", each
 * line is scanned into plain and `<font …>…</font>` parts, and each part
 * gets a font size and colour. Also the shift that keeps the tooltip's box
 * on the canvas.
 *
 * The regular-expression reads of a tagged part (the `size="…"` and
 * `color="…"` attributes and the body between the tags) and `Number(…)` are
 * a `FontTagReader` the caller supplies; the "<font" test and the "<br>"
 * split are exact.
 */
module Tooltips {
  import opened Wrappers
  import opened Vectors

  const LineBreak: string := "<br>"

  /** `s` has "<br>" starting at `i`. */
  predicate BreakAt(s: string, i: nat)
  {
    i + 4 <= |s| && s[i..i + 4] == LineBreak
  }

  /** `s` holds no "<br>". */
  ghost predicate NoBreak(s: string)
  {
    forall i: nat :: !BreakAt(s, i)
  }

  /** The lines put back together with "<br>" between them. */
  function JoinLines(lines: seq<string>): string
    requires |lines| > 0
  {
    if |lines| == 1 then lines[0] else lines[0] + LineBreak + JoinLines(lines[1..])
  }

  /** A char in front of a break-free prefix of the rest of the text, where no break starts, leaves it break-free. */
  lemma NoBreakCons(text: string, r: string)
    requires |text| > 0 && !BreakAt(text, 0)
    requires r <= text[1..] && NoBreak(r)
    ensures NoBreak([text[0]] + r)
  {
    var s := [text[0]] + r;
    assert s[1..] == r;
    forall i: nat
      ensures !BreakAt(s, i)
    {
      if i == 0 && 4 <= |s| {
        assert s[..4] == text[..4] by {
          assert s[0] == text[0];
          assert forall j :: 1 <= j < 4 ==> s[j] == r[j - 1] == text[1..][j - 1];
        }
      } else if 0 < i && i + 4 <= |s| {
        assert s[i..i + 4] == s[1..][i - 1..i + 3];
        assert !BreakAt(r, i - 1);
      }
    }
  }

  /**
   * `text.split('<br>')`: the pieces between the leftmost, non-overlapping
   * occurrences of "<br>". Joining them back gives the text, and no piece
   * holds a "<br>".
   */
  function SplitLines(text: string): (r: seq<string>)
    ensures |r| > 0
    ensures JoinLines(r) == text
    ensures r[0] <= text
    ensures forall k :: 0 <= k < |r| ==> NoBreak(r[k])
    decreases |text|
  {
    if |text| == 0 then [""]
    else if BreakAt(text, 0) then
      var rest := SplitLines(text[4..]);
      JoinAfterEmptyLine(rest);
      assert text == LineBreak + text[4..];
      [""] + rest
    else
      var rest := SplitLines(text[1..]);
      var first := [text[0]] + rest[0];
      NoBreakCons(text, rest[0]);
      JoinWithFirstExtended(text[0], rest);
      assert text == [text[0]] + text[1..];
      [first] + rest[1..]
  }

  /** An empty first line contributes only the "<br>" after it. */
  lemma JoinAfterEmptyLine(rest: seq<string>)
    requires |rest| > 0
    ensures JoinLines([""] + rest) == LineBreak + JoinLines(rest)
  {
    var r := [""] + rest;
    assert |r| != 1 && r[0] == "" && r[1..] == rest;
    var tail := JoinLines(rest);
    assert JoinLines(r) == r[0] + LineBreak + tail;
    EmptyFront(LineBreak);
  }

  lemma EmptyFront(s: string)
    ensures "" + s == s
  {
  }

  /** Putting a char in front of the first line puts it in front of the joined text. */
  lemma JoinWithFirstExtended(c: char, rest: seq<string>)
    requires |rest| > 0
    ensures JoinLines([[c] + rest[0]] + rest[1..]) == [c] + JoinLines(rest)
  {
    var first := [c] + rest[0];
    var r := [first] + rest[1..];
    if |rest| == 1 {
      assert r == [first];
    } else {
      assert r[0] == first && r[1..] == rest[1..];
      BreakJoinAssoc(c, rest[0], JoinLines(rest[1..]));
    }
  }

  lemma BreakJoinAssoc(c: char, line: string, tail: string)
    ensures [c] + (line + LineBreak + tail) == ([c] + line) + LineBreak + tail
  {
  }

  /** A text without "<br>" is a single line. */
  lemma {:induction false} UnbrokenTextIsOneLine(text: string)
    requires NoBreak(text)
    ensures SplitLines(text) == [text]
    decreases |text|
  {
    if |text| > 0 {
      assert !BreakAt(text, 0);
      var rest := text[1..];
      forall i: nat
        ensures !BreakAt(rest, i)
      {
        if i + 4 <= |rest| {
          assert rest[i..i + 4] == text[i + 1..i + 5];
          assert !BreakAt(text, i + 1);
        }
      }
      UnbrokenTextIsOneLine(rest);
      assert [text[0]] + rest == text;
    }
  }

  /** The scanner's variables: the parts pushed so far, `tmpPart` and `tagStartFound`. */
  datatype ScanState = ScanState(parts: seq<string>, pending: string, inTag: bool)

  /** `text[i]` opens a tag: outside a tag, a '<' not followed by a backslash (the end of the text counts as not one). */
  predicate OpensTag(text: string, i: nat, inTag: bool)
    requires i < |text|
  {
    !inTag && text[i] == '<' && (i + 1 == |text| || text[i + 1] != '\\')
  }

  /** `text[i]` closes a tag: inside a tag, a '>' right after a 't'. */
  predicate ClosesTag(text: string, i: nat, inTag: bool)
    requires i < |text|
  {
    inTag && text[i] == '>' && i > 0 && text[i - 1] == 't'
  }

  /** One char of the scan, without the push at the end of the text. */
  function Step(text: string, i: nat, st: ScanState): ScanState
    requires i < |text|
  {
    if OpensTag(text, i, st.inTag) then ScanState(st.parts + [st.pending], "<", true)
    else if ClosesTag(text, i, st.inTag) then ScanState(st.parts + [st.pending + ">"], "", false)
    else ScanState(st.parts, st.pending + [text[i]], st.inTag)
  }

  /** The scanner's variables after the first `n` chars. */
  function ScanAfter(text: string, n: nat): ScanState
    requires n <= |text|
  {
    if n == 0 then ScanState([], "", false) else Step(text, n - 1, ScanAfter(text, n - 1))
  }

  /** The last char is plain text, so the pending part is pushed when the text ends. */
  predicate EndsInText(text: string)
  {
    |text| > 0 &&
    var st := ScanAfter(text, |text| - 1);
    !OpensTag(text, |text| - 1, st.inTag) && !ClosesTag(text, |text| - 1, st.inTag)
  }

  /** What `parseStringIntoTextParts` returns. */
  function TextParts(text: string): (r: seq<string>)
    ensures text == "" ==> r == []
  {
    var st := ScanAfter(text, |text|);
    st.parts + (if EndsInText(text) then [st.pending] else [])
  }

  /** The parts run together. */
  function Concat(parts: seq<string>): string
  {
    if |parts| == 0 then "" else Concat(parts[..|parts| - 1]) + parts[|parts| - 1]
  }

  lemma ConcatPush(parts: seq<string>, p: string)
    ensures Concat(parts + [p]) == Concat(parts) + p
  {
    assert (parts + [p])[..|parts|] == parts;
  }

  /** The pushed parts followed by the pending one are exactly the chars scanned so far. */
  lemma {:induction false} ScanReassembles(text: string, n: nat)
    requires n <= |text|
    ensures Concat(ScanAfter(text, n).parts) + ScanAfter(text, n).pending == text[..n]
  {
    if n > 0 {
      var prev := ScanAfter(text, n - 1);
      ScanReassembles(text, n - 1);
      var c := text[n - 1];
      assert text[..n] == text[..n - 1] + [c];
      var st := ScanAfter(text, n);
      assert st == Step(text, n - 1, prev);
      if OpensTag(text, n - 1, prev.inTag) {
        ConcatPush(prev.parts, prev.pending);
        assert [c] == "<";
      } else if ClosesTag(text, n - 1, prev.inTag) {
        ConcatPush(prev.parts, prev.pending + ">");
        assert [c] == ">";
      } else {
        assert st.parts == prev.parts && st.pending == prev.pending + [c];
      }
    }
  }

  /** Inside a tag the pending part is the tag, and it begins with its '<'. */
  lemma {:induction false} TagPendingStartsWithOpener(text: string, n: nat)
    requires n <= |text|
    ensures ScanAfter(text, n).inTag ==> |ScanAfter(text, n).pending| > 0 && ScanAfter(text, n).pending[0] == '<'
  {
    if n > 0 {
      TagPendingStartsWithOpener(text, n - 1);
    }
  }

  /**
   * The parts run together give back the text, except that a '<' at the
   * very end that opens a tag is dropped.
   */
  lemma ParseReassembles(text: string)
    ensures |text| > 0 && OpensTag(text, |text| - 1, ScanAfter(text, |text| - 1).inTag) ==>
      Concat(TextParts(text)) == text[..|text| - 1]
    ensures !(|text| > 0 && OpensTag(text, |text| - 1, ScanAfter(text, |text| - 1).inTag)) ==>
      Concat(TextParts(text)) == text
  {
    var n := |text|;
    ScanReassembles(text, n);
    assert text[..n] == text;
    if n > 0 {
      var prev := ScanAfter(text, n - 1);
      var st := ScanAfter(text, n);
      assert st == Step(text, n - 1, prev);
      if OpensTag(text, n - 1, prev.inTag) {
        assert st.pending == "<" && TextParts(text) == st.parts;
        assert Concat(st.parts) == (Concat(st.parts) + "<")[..n - 1];
      } else if ClosesTag(text, n - 1, prev.inTag) {
        assert st.pending == "" && TextParts(text) == st.parts;
        assert Concat(st.parts) + "" == Concat(st.parts);
      } else {
        assert TextParts(text) == st.parts + [st.pending];
        ConcatPush(st.parts, st.pending);
      }
    }
  }

  /**
   * A tag part is pushed at the '>' that closes it: it begins with '<',
   * ends with "t>", and is the text up to and including that '>'.
   */
  lemma ClosedTagPart(text: string, i: nat)
    requires i < |text| && ClosesTag(text, i, ScanAfter(text, i).inTag)
    ensures var after := ScanAfter(text, i + 1).parts;
      |after| > 0 &&
      var p := after[|after| - 1];
      |p| >= 2 && p[0] == '<' && p[|p| - 2] == 't' && p[|p| - 1] == '>' &&
      i + 1 >= |p| && p == text[i + 1 - |p|..i + 1]
  {
    var st := ScanAfter(text, i);
    var next := ScanAfter(text, i + 1);
    var p := st.pending + ">";
    assert next == Step(text, i, st);
    assert next.parts == st.parts + [p];
    TagPendingStartsWithOpener(text, i);
    ScanReassembles(text, i);
    var c := Concat(st.parts);
    assert text[..i] == c + st.pending;
    assert text[i - 1] == text[..i][i - 1] == st.pending[|st.pending| - 1];
    assert text[..i + 1] == text[..i] + [text[i]];
    assert text[..i + 1] == c + p;
    assert text[i + 1 - |p|..i + 1] == text[..i + 1][|c|..];
  }

  /**
   * An opening tag without attributes ends in "t>" itself, so it closes at
   * once and becomes a part of its own, between the plain text before it
   * and the plain text after it.
   */
  lemma BareFontTagIsItsOwnPart(before: string, after: string)
    requires forall k :: 0 <= k < |before| ==> before[k] != '<'
    requires forall k :: 0 <= k < |after| ==> after[k] != '<'
    ensures TextParts(before + "<font>" + after) == [before, "<font>"] + (if after == "" then [] else [after])
  {
    var text := before + "<font>" + after;
    var a := |before|;
    assert text[0..a] == before && "" + before == before;
    assert text[a..a + 6] == "<font>" && text[a + 6..|text|] == after;
    PlainRun(text, 0, a, [], "");
    BareFontTagCloses(text, a, [], before);
    PlainRun(text, a + 6, |text|, [before, "<font>"], "");
    assert "" + after == after;
    var st := ScanAfter(text, |text|);
    assert st == ScanState([before, "<font>"], after, false);
    if after == "" {
      assert !EndsInText(text);
      assert TextParts(text) == st.parts;
    } else {
      PlainRun(text, a + 6, |text| - 1, [before, "<font>"], "");
      assert text[|text| - 1] == after[|after| - 1];
      assert EndsInText(text);
      assert TextParts(text) == st.parts + [after];
    }
  }

  /** Outside a tag, "<font>" pushes the pending part and then itself. */
  lemma BareFontTagCloses(text: string, a: nat, parts: seq<string>, pending: string)
    requires a + 6 <= |text| && text[a..a + 6] == "<font>"
    requires ScanAfter(text, a) == ScanState(parts, pending, false)
    ensures ScanAfter(text, a + 5).inTag
    ensures ScanAfter(text, a + 6) == ScanState(parts + [pending, "<font>"], "", false)
  {
    assert text[a] == '<' && text[a + 1] == 'f' && text[a + 2] == 'o';
    assert text[a + 3] == 'n' && text[a + 4] == 't' && text[a + 5] == '>';
    assert ScanAfter(text, a + 1) == ScanState(parts + [pending], "<", true);
    assert ScanAfter(text, a + 2) == ScanState(parts + [pending], "<f", true);
    assert ScanAfter(text, a + 3) == ScanState(parts + [pending], "<fo", true);
    assert ScanAfter(text, a + 4) == ScanState(parts + [pending], "<fon", true);
    assert ScanAfter(text, a + 5) == ScanState(parts + [pending], "<font", true);
    assert "<font" + ">" == "<font>";
    assert parts + [pending] + ["<font>"] == parts + [pending, "<font>"];
  }

  /** A line without '<' is one plain part, or none when it is empty. */
  lemma PlainLineIsOnePart(text: string)
    requires forall k :: 0 <= k < |text| ==> text[k] != '<'
    ensures TextParts(text) == (if text == "" then [] else [text])
  {
    PlainRun(text, 0, |text|, [], "");
    assert "" + text[0..|text|] == text;
    if |text| > 0 {
      PlainRun(text, 0, |text| - 1, [], "");
      assert text[|text| - 1] != '<';
    }
  }

  /** Outside a tag, a run of chars without '<' only extends the pending part. */
  lemma {:induction false} PlainRun(text: string, m: nat, n: nat, parts: seq<string>, pending: string)
    requires m <= n <= |text|
    requires ScanAfter(text, m) == ScanState(parts, pending, false)
    requires forall k :: m <= k < n ==> text[k] != '<'
    ensures ScanAfter(text, n) == ScanState(parts, pending + text[m..n], false)
    decreases n
  {
    if n > m {
      PlainRun(text, m, n - 1, parts, pending);
      assert text[m..n] == text[m..n - 1] + [text[n - 1]];
    } else {
      assert text[m..n] == [];
    }
  }

  /**
   * `parseStringIntoTextParts`: the char loop, with the previous and next
   * char read at the neighbouring indices (absent at the ends).
   */
  method ParseStringIntoTextParts(text: string) returns (result: seq<string>)
    ensures result == TextParts(text)
  {
    result := [];
    var tmpPart := "";
    var tagStartFound := false;
    var i := 0;
    while i < |text|
      invariant 0 <= i <= |text|
      invariant tmpPart == ScanAfter(text, i).pending && tagStartFound == ScanAfter(text, i).inTag
      invariant result == ScanAfter(text, i).parts + (if i == |text| && EndsInText(text) then [tmpPart] else [])
    {
      var currentChar := text[i];
      if !tagStartFound && currentChar == '<' && (i + 1 == |text| || text[i + 1] != '\\') {
        tagStartFound := true;
        result := result + [tmpPart];
        tmpPart := "<";
      } else if tagStartFound && currentChar == '>' && i > 0 && text[i - 1] == 't' {
        tagStartFound := false;
        tmpPart := tmpPart + [currentChar];
        result := result + [tmpPart];
        tmpPart := "";
      } else {
        tmpPart := tmpPart + [currentChar];
        if i == |text| - 1 {
          result := result + [tmpPart];
        }
      }
      i := i + 1;
    }
  }

  /** One line part with its font size and colour. */
  datatype TextPart = TextPart(textPart: string, size: real, color: string)

  /**
   * The regular-expression reads of a tagged part: `attribute(part, name)`
   * is the capture of `name="(.*?)"`, `body(part)` the capture of
   * `<font.*>(.*)<\/font>` (absent when that does not match), and `number`
   * is `Number(…)`.
   */
  datatype FontTagReader = FontTagReader(
    attribute: (string, string) -> Option<string>,
    body: string -> Option<string>,
    number: string -> real)

  /** A tagged part whose body the reader cannot find: reading `[1]` of `null` throws. */
  datatype MissingBody = MissingBody(part: string)

  predicate OccursAt(s: string, pat: string, i: nat)
  {
    i + |pat| <= |s| && s[i..i + |pat|] == pat
  }

  /** `s.match(/<font/)` succeeds. */
  predicate HasFontTag(s: string)
  {
    exists i :: 0 <= i <= |s| && OccursAt(s, "<font", i)
  }

  /** Only a part holding a '<' can hold "<font". */
  lemma FontTagNeedsOpener(s: string)
    requires forall k :: 0 <= k < |s| ==> s[k] != '<'
    ensures !HasFontTag(s)
  {
    forall i | 0 <= i <= |s|
      ensures !OccursAt(s, "<font", i)
    {
      if i + 5 <= |s| {
        assert s[i..i + 5][0] == s[i];
      }
    }
  }

  /** A non-empty capture, or nothing: an empty capture is falsy. */
  function NonEmptyCapture(c: Option<string>): (r: Option<string>)
    ensures r.Some? <==> c.Some? && c.value != ""
    ensures r.Some? ==> r == c
  {
    if c.Some? && c.value != "" then c else None
  }

  /**
   * One part in the special format: a part without "<font" keeps its text
   * with the defaults; a tagged part takes its body and whichever of size
   * and colour its attributes give, the defaults standing in for missing
   * or empty ones; a tagged part without a body fails.
   */
  function ConvertPart(part: string, defaultFontSize: real, defaultTextColor: string, reader: FontTagReader): (r: Option<TextPart>)
    ensures !HasFontTag(part) ==> r == Some(TextPart(part, defaultFontSize, defaultTextColor))
    ensures HasFontTag(part) ==> (r.None? <==> reader.body(part).None?)
    ensures HasFontTag(part) && r.Some? ==>
      r.value.textPart == reader.body(part).value &&
      (NonEmptyCapture(reader.attribute(part, "size")).None? ==> r.value.size == defaultFontSize) &&
      (NonEmptyCapture(reader.attribute(part, "size")).Some? ==> r.value.size == reader.number(reader.attribute(part, "size").value)) &&
      (NonEmptyCapture(reader.attribute(part, "color")).None? ==> r.value.color == defaultTextColor) &&
      (NonEmptyCapture(reader.attribute(part, "color")).Some? ==> r.value.color == reader.attribute(part, "color").value)
  {
    if HasFontTag(part) then
      var sizeMatch := NonEmptyCapture(reader.attribute(part, "size"));
      var size := if sizeMatch.Some? then reader.number(sizeMatch.value) else defaultFontSize;
      var colorMatch := NonEmptyCapture(reader.attribute(part, "color"));
      var color := if colorMatch.Some? then colorMatch.value else defaultTextColor;
      match reader.body(part)
      case None => None
      case Some(body) => Some(TextPart(body, size, color))
    else Some(TextPart(part, defaultFontSize, defaultTextColor))
  }

  /**
   * The conversion of a line's parts: every part in order, or the first
   * tagged part without a body.
   */
  function ConvertAll(parts: seq<string>, defaultFontSize: real, defaultTextColor: string, reader: FontTagReader): (r: Result<seq<TextPart>, MissingBody>)
    ensures r.Success? <==> forall i :: 0 <= i < |parts| ==> ConvertPart(parts[i], defaultFontSize, defaultTextColor, reader).Some?
    ensures r.Success? ==> (|r.value| == |parts| &&
      forall i :: 0 <= i < |parts| ==> ConvertPart(parts[i], defaultFontSize, defaultTextColor, reader) == Some(r.value[i]))
    ensures r.Failure? ==>
      exists i :: (0 <= i < |parts| && FirstFailure(parts, defaultFontSize, defaultTextColor, reader, i) && r.error == MissingBody(parts[i]))
  {
    if |parts| == 0 then Success([])
    else
      var rest := ConvertAll(parts[1..], defaultFontSize, defaultTextColor, reader);
      match ConvertPart(parts[0], defaultFontSize, defaultTextColor, reader)
      case None =>
        assert FirstFailure(parts, defaultFontSize, defaultTextColor, reader, 0);
        Failure(MissingBody(parts[0]))
      case Some(p) =>
        if rest.Failure? then
          var i :| 0 <= i < |parts[1..]| && FirstFailure(parts[1..], defaultFontSize, defaultTextColor, reader, i) &&
            rest.error == MissingBody(parts[1..][i]);
          assert FirstFailure(parts, defaultFontSize, defaultTextColor, reader, i + 1);
          Failure(rest.error)
        else
          assert forall i :: 1 <= i < |parts| ==> parts[i] == parts[1..][i - 1];
          Success([p] + rest.value)
  }

  /** Part `i` fails and every part before it converts. */
  predicate FirstFailure(parts: seq<string>, defaultFontSize: real, defaultTextColor: string, reader: FontTagReader, i: nat)
  {
    i < |parts| && ConvertPart(parts[i], defaultFontSize, defaultTextColor, reader).None? &&
    forall j :: 0 <= j < i ==> ConvertPart(parts[j], defaultFontSize, defaultTextColor, reader).Some?
  }

  /** A non-empty line without '<' becomes one part with the default size and colour. */
  lemma PlainLineKeepsDefaults(line: string, defaultFontSize: real, defaultTextColor: string, reader: FontTagReader)
    requires line != "" && forall k :: 0 <= k < |line| ==> line[k] != '<'
    ensures ConvertAll(TextParts(line), defaultFontSize, defaultTextColor, reader) == Success([TextPart(line, defaultFontSize, defaultTextColor)])
  {
    PlainLineIsOnePart(line);
    FontTagNeedsOpener(line);
    var r := ConvertAll([line], defaultFontSize, defaultTextColor, reader);
    assert ConvertPart(line, defaultFontSize, defaultTextColor, reader) == Some(TextPart(line, defaultFontSize, defaultTextColor));
    assert r.Success?;
    assert r.value == [TextPart(line, defaultFontSize, defaultTextColor)];
  }

  /** `convertTextPartsToSpecialFormat`: the loop over the parts, each read as `ConvertPart` says. */
  method ConvertTextPartsToSpecialFormat(textParts: seq<string>, defaultFontSize: real, defaultTextColor: string, reader: FontTagReader)
    returns (r: Result<seq<TextPart>, MissingBody>)
    ensures r == ConvertAll(textParts, defaultFontSize, defaultTextColor, reader)
  {
    var result: seq<TextPart> := [];
    var i := 0;
    while i < |textParts|
      invariant 0 <= i <= |textParts| && |result| == i
      invariant forall k :: 0 <= k < i ==> ConvertPart(textParts[k], defaultFontSize, defaultTextColor, reader) == Some(result[k])
    {
      var textPart := textParts[i];
      if HasFontTag(textPart) {
        var sizeMatch := reader.attribute(textPart, "size");
        var size := defaultFontSize;
        if sizeMatch.Some? && sizeMatch.value != "" {
          size := reader.number(sizeMatch.value);
        }
        var colorMatch := reader.attribute(textPart, "color");
        var color := defaultTextColor;
        if colorMatch.Some? && colorMatch.value != "" {
          color := colorMatch.value;
        }
        var body := reader.body(textPart);
        if body.None? {
          assert FirstFailure(textParts, defaultFontSize, defaultTextColor, reader, i);
          FirstFailureIsUnique(textParts, defaultFontSize, defaultTextColor, reader, i);
          return Failure(MissingBody(textPart));
        }
        result := result + [TextPart(body.value, size, color)];
      } else {
        result := result + [TextPart(textPart, defaultFontSize, defaultTextColor)];
      }
      i := i + 1;
    }
    var all := ConvertAll(textParts, defaultFontSize, defaultTextColor, reader);
    assert all.Success?;
    assert all.value == result;
    return Success(result);
  }

  /** The first failing part is the one the conversion reports. */
  lemma FirstFailureIsUnique(parts: seq<string>, defaultFontSize: real, defaultTextColor: string, reader: FontTagReader, i: nat)
    requires FirstFailure(parts, defaultFontSize, defaultTextColor, reader, i)
    ensures ConvertAll(parts, defaultFontSize, defaultTextColor, reader) == Failure(MissingBody(parts[i]))
  {
    var r := ConvertAll(parts, defaultFontSize, defaultTextColor, reader);
    var j :| 0 <= j < |parts| && FirstFailure(parts, defaultFontSize, defaultTextColor, reader, j) && r.error == MissingBody(parts[j]);
    if j < i {
    } else if i < j {
    }
  }

  /** The lines of `assembleTooltipLines`: each "<br>"-separated line scanned and converted, or the first failure. */
  function AssembleAll(lines: seq<string>, defaultFontSize: real, defaultTextColor: string, reader: FontTagReader): (r: Result<seq<seq<TextPart>>, MissingBody>)
    ensures r.Success? ==> (|r.value| == |lines| &&
      forall i :: 0 <= i < |lines| ==> ConvertAll(TextParts(lines[i]), defaultFontSize, defaultTextColor, reader) == Success(r.value[i]))
    ensures r.Success? <==> forall i :: 0 <= i < |lines| ==> ConvertAll(TextParts(lines[i]), defaultFontSize, defaultTextColor, reader).Success?
  {
    if |lines| == 0 then Success([])
    else
      var rest := AssembleAll(lines[1..], defaultFontSize, defaultTextColor, reader);
      assert forall i :: 1 <= i < |lines| ==> lines[i] == lines[1..][i - 1];
      match ConvertAll(TextParts(lines[0]), defaultFontSize, defaultTextColor, reader)
      case Failure(e) => Failure(e)
      case Success(line) =>
        if rest.Failure? then Failure(rest.error)
        else Success([line] + rest.value)
  }

  /** `done` in front of the lines still to come, or the failure among them. */
  function Prepend(done: seq<seq<TextPart>>, r: Result<seq<seq<TextPart>>, MissingBody>): Result<seq<seq<TextPart>>, MissingBody>
  {
    match r
    case Failure(e) => Failure(e)
    case Success(rest) => Success(done + rest)
  }

  /** The lines from `i` on: line `i` converted, then the rest. */
  lemma AssembleFrom(lines: seq<string>, i: nat, defaultFontSize: real, defaultTextColor: string, reader: FontTagReader)
    requires i < |lines|
    ensures AssembleAll(lines[i..], defaultFontSize, defaultTextColor, reader) ==
      match ConvertAll(TextParts(lines[i]), defaultFontSize, defaultTextColor, reader)
      case Failure(e) => Failure(e)
      case Success(line) => Prepend([line], AssembleAll(lines[i + 1..], defaultFontSize, defaultTextColor, reader))
  {
    assert lines[i..][0] == lines[i] && lines[i..][1..] == lines[i + 1..];
  }

  /** Prepending twice is prepending the two runs together. */
  lemma PrependTwice(a: seq<seq<TextPart>>, b: seq<seq<TextPart>>, r: Result<seq<seq<TextPart>>, MissingBody>)
    ensures Prepend(a, Prepend(b, r)) == Prepend(a + b, r)
  {
    if r.Success? {
      assert a + (b + r.value) == (a + b) + r.value;
    }
  }

  /**
   * `assembleTooltipLines`: one line of parts per "<br>"-separated piece of
   * the text, in order.
   */
  method AssembleTooltipLines(text: string, defaultFontSize: real, defaultTextColor: string, reader: FontTagReader)
    returns (r: Result<seq<seq<TextPart>>, MissingBody>)
    ensures r == AssembleAll(SplitLines(text), defaultFontSize, defaultTextColor, reader)
  {
    var textSplittedIntoLines := SplitLines(text);
    var result: seq<seq<TextPart>> := [];
    var i := 0;
    assert textSplittedIntoLines[0..] == textSplittedIntoLines;
    match AssembleAll(textSplittedIntoLines, defaultFontSize, defaultTextColor, reader) {
      case Failure(e) =>
      case Success(all) => assert [] + all == all;
    }
    while i < |textSplittedIntoLines|
      invariant 0 <= i <= |textSplittedIntoLines|
      invariant AssembleAll(textSplittedIntoLines, defaultFontSize, defaultTextColor, reader) ==
        Prepend(result, AssembleAll(textSplittedIntoLines[i..], defaultFontSize, defaultTextColor, reader))
    {
      AssembleFrom(textSplittedIntoLines, i, defaultFontSize, defaultTextColor, reader);
      var textParts := ParseStringIntoTextParts(textSplittedIntoLines[i]);
      var converted := ConvertTextPartsToSpecialFormat(textParts, defaultFontSize, defaultTextColor, reader);
      if converted.Failure? {
        return Failure(converted.error);
      }
      PrependTwice(result, [converted.value], AssembleAll(textSplittedIntoLines[i + 1..], defaultFontSize, defaultTextColor, reader));
      result := result + [converted.value];
      i := i + 1;
    }
    assert textSplittedIntoLines[i..] == [];
    assert result + [] == result;
    return Success(result);
  }

  /** A text without "<br>" yields exactly one line. */
  lemma UnbrokenTextAssemblesOneLine(text: string, defaultFontSize: real, defaultTextColor: string, reader: FontTagReader)
    requires NoBreak(text)
    ensures var r := AssembleAll(SplitLines(text), defaultFontSize, defaultTextColor, reader);
      r.Success? ==> |r.value| == 1
  {
    UnbrokenTextIsOneLine(text);
  }

  /** The sizes the corner test reads: the background box, its padding, the line height and the canvas. */
  datatype TooltipBox = TooltipBox(backgroundWidth: real, backgroundHeight: real, backgroundPadding: real, lineHeight: real,
                                   canvasWidth: real, canvasHeight: real)

  function RightCorner(b: TooltipBox, p: Vector2): real
  {
    (p.x + b.backgroundWidth / 2.0) + b.backgroundWidth / 2.0 - b.backgroundPadding / 2.0
  }

  function LeftCorner(b: TooltipBox, p: Vector2): real
  {
    (p.x - b.backgroundWidth / 2.0) + b.backgroundWidth / 2.0 - b.backgroundPadding / 2.0
  }

  function UpCorner(b: TooltipBox, p: Vector2): real
  {
    (p.y - b.backgroundHeight / 2.0) + b.backgroundHeight / 2.0 - b.backgroundPadding / 2.0 - b.lineHeight / 2.0
  }

  function DownCorner(b: TooltipBox, p: Vector2): real
  {
    (p.y + b.backgroundHeight / 2.0) + b.backgroundHeight / 2.0 - b.backgroundPadding / 2.0 - b.lineHeight / 2.0
  }

  /**
   * `getOffsetWhenTooltipIsNearCorners`: a box past the right edge moves
   * left until it touches that edge, a box past the left edge moves right
   * until it touches that one (this rule wins when both apply); a box past
   * the top edge moves down, and one past the bottom edge moves up (this
   * rule wins). A box that fits keeps its coordinate.
   */
  function OffsetWhenNearCorners(b: TooltipBox, position: Vector2): (r: Vector2)
    ensures LeftCorner(b, position) < 0.0 ==> LeftCorner(b, r) == 0.0
    ensures 0.0 <= LeftCorner(b, position) && RightCorner(b, position) > b.canvasWidth ==> RightCorner(b, r) == b.canvasWidth
    ensures 0.0 <= LeftCorner(b, position) && RightCorner(b, position) <= b.canvasWidth ==> r.x == position.x
    ensures DownCorner(b, position) > b.canvasHeight ==> DownCorner(b, r) == b.canvasHeight
    ensures UpCorner(b, position) < 0.0 && DownCorner(b, position) <= b.canvasHeight ==> UpCorner(b, r) == 0.0
    ensures 0.0 <= UpCorner(b, position) && DownCorner(b, position) <= b.canvasHeight ==> r.y == position.y
  {
    var right := RightCorner(b, position);
    var left := LeftCorner(b, position);
    var up := UpCorner(b, position);
    var down := DownCorner(b, position);
    var offsetX := if right > b.canvasWidth then right - b.canvasWidth else 0.0;
    var offsetX' := if left < 0.0 then (0.0 - left) * -1.0 else offsetX;
    var offsetY := if up < 0.0 then (0.0 - up) * -1.0 else 0.0;
    var offsetY' := if down > b.canvasHeight then down - b.canvasHeight else offsetY;
    Subtract(position, Vec(Vector2(offsetX', offsetY')))
  }

  /**
   * A box no wider (no taller) than the canvas ends up wholly inside it
   * horizontally (vertically), wherever it was asked to go.
   */
  lemma SmallBoxEndsOnCanvas(b: TooltipBox, position: Vector2)
    ensures 0.0 <= b.backgroundWidth <= b.canvasWidth ==>
      var r := OffsetWhenNearCorners(b, position);
      0.0 <= LeftCorner(b, r) && RightCorner(b, r) <= b.canvasWidth
    ensures 0.0 <= b.backgroundHeight <= b.canvasHeight ==>
      var r := OffsetWhenNearCorners(b, position);
      0.0 <= UpCorner(b, r) && DownCorner(b, r) <= b.canvasHeight
  {
    var r := OffsetWhenNearCorners(b, position);
    assert RightCorner(b, r) - LeftCorner(b, r) == b.backgroundWidth;
    assert DownCorner(b, r) - UpCorner(b, r) == b.backgroundHeight;
    assert RightCorner(b, position) - LeftCorner(b, position) == b.backgroundWidth;
    assert DownCorner(b, position) - UpCorner(b, position) == b.backgroundHeight;
  }
}
