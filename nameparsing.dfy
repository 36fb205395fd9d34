/**
 How the wheel turns the text of its input box into names and codes: every
 line of the trimmed input is one entry; the line is trimmed and split at
 commas; the first piece is the name and the second, if any, the code.
 Blank interior lines are kept (as an empty name with an empty code) and the
 pieces themselves are not trimmed.
 */
module NameParsing {
  import opened JsText

  /** The first comma-separated piece of a line: `t.split(",")[0]`. */
  function FirstPiece(t: string): string {
    Split(t, ',')[0]
  }

  /** The second comma-separated piece of a line, or `""`: `t.split(",")[1] || ""`
      (an empty second piece and a missing one both give `""`). */
  function SecondPiece(t: string): string {
    var parts := Split(t, ',');
    if |parts| > 1 then parts[1] else ""
  }

  /** `line.trim().split(",")[0]` */
  function ParseName(line: string): string {
    FirstPiece(Trim(line))
  }

  /** `line.trim().split(",")[1] || ""` */
  function ParseCode(line: string): string {
    SecondPiece(Trim(line))
  }

  /** `text.split("\n")` */
  function Lines(text: string): seq<string> {
    Split(text, '\n')
  }

  /** `lines.map(line => line.trim().split(",")[0])` */
  function NamesOfLines(lines: seq<string>): (r: seq<string>)
    ensures |r| == |lines| && forall i :: 0 <= i < |lines| ==> r[i] == ParseName(lines[i])
  {
    seq(|lines|, i requires 0 <= i < |lines| => ParseName(lines[i]))
  }

  /** `lines.map(line => line.trim().split(",")[1] || "")` */
  function CodesOfLines(lines: seq<string>): (r: seq<string>)
    ensures |r| == |lines| && forall i :: 0 <= i < |lines| ==> r[i] == ParseCode(lines[i])
  {
    seq(|lines|, i requires 0 <= i < |lines| => ParseCode(lines[i]))
  }

  /** The names of the entries in `text`, one per line. */
  function NamesOf(text: string): seq<string> {
    NamesOfLines(Lines(text))
  }

  /** The codes of the entries in `text`, one per line. */
  function CodesOf(text: string): seq<string> {
    CodesOfLines(Lines(text))
  }

  /** The name of a line is its trimmed text up to the first comma, or all of
      it when there is no comma. The code is the text between the first and
      the second comma (or the end), or empty when there is no comma; text
      after a second comma is dropped. Neither contains a comma. */
  lemma ParseLine(line: string)
    ensures var t, name, code := Trim(line), ParseName(line), ParseCode(line);
      ',' !in name && ',' !in code
      && |name| <= |t| && t[..|name|] == name
      && (',' !in t ==> name == t && code == "")
      && (',' in t ==>
            |name| < |t| && t[|name|] == ','
            && |name| + 1 + |code| <= |t|
            && t[|name| + 1..|name| + 1 + |code|] == code
            && (|name| + 1 + |code| == |t| || t[|name| + 1 + |code|] == ','))
  {
    FirstTwoPieces(Trim(line));
  }

  /** `ParseLine` for a line that is already trimmed. */
  lemma FirstTwoPieces(t: string)
    ensures var name, code := FirstPiece(t), SecondPiece(t);
      ',' !in name && ',' !in code
      && |name| <= |t| && t[..|name|] == name
      && (',' !in t ==> name == t && code == "")
      && (',' in t ==>
            |name| < |t| && t[|name|] == ','
            && |name| + 1 + |code| <= |t|
            && t[|name| + 1..|name| + 1 + |code|] == code
            && (|name| + 1 + |code| == |t| || t[|name| + 1 + |code|] == ','))
  {
    SplitPieces(t, ',');
    SplitFirstPiece(t, ',');
    if ',' in t {
      SplitSecondPiece(t, ',');
    }
  }

  /** A whitespace-only line is not skipped: it gives an empty name and an
      empty code. */
  lemma BlankLineEntry(line: string)
    requires AllWhitespace(line)
    ensures ParseName(line) == "" && ParseCode(line) == ""
  {
    TrimEmptyIffBlank(line);
  }

  /** A line is trimmed once: leading and trailing whitespace of the line
      never reaches the name or the code. */
  lemma ParseIgnoresSurroundingWhitespace(line: string)
    ensures ParseName(Trim(line)) == ParseName(line)
    ensures ParseCode(Trim(line)) == ParseCode(line)
  {
    TrimIdempotent(line);
  }

  /** One entry per line: the input yields exactly one name and one code per
      newline in it plus one, including blank lines, in input order;
      joining the lines back gives the text. */
  lemma {:induction false} EntriesPerLine(text: string)
    ensures |NamesOf(text)| == |CodesOf(text)| == multiset(text)['\n'] + 1
    ensures Join(Lines(text), '\n') == text
    ensures forall i :: 0 <= i < |Lines(text)| ==>
      NamesOf(text)[i] == ParseName(Lines(text)[i]) && CodesOf(text)[i] == ParseCode(Lines(text)[i])
  {
    SplitCount(text, '\n');
    SplitPieces(text, '\n');
  }

  /** Entries of consecutive lines: the text of a blank-free list of lines
      joined by newlines parses line by line. */
  lemma {:induction false} EntriesOfLines(lines: seq<string>)
    requires |lines| >= 1
    requires forall k :: 0 <= k < |lines| ==> '\n' !in lines[k]
    ensures NamesOf(Join(lines, '\n')) == NamesOfLines(lines)
    ensures CodesOf(Join(lines, '\n')) == CodesOfLines(lines)
  {
    SplitJoin(lines, '\n');
  }

  /** A field that parses back to itself: non-empty, without a comma or a
      newline, and not starting or ending with whitespace. */
  predicate Plain(s: string) {
    s != [] && ',' !in s && '\n' !in s && !IsWhitespace(s[0]) && !IsWhitespace(s[|s| - 1])
  }

  /** A plain line is a name with an empty code. */
  lemma PlainLine(line: string)
    requires Plain(line)
    ensures ParseName(line) == line && ParseCode(line) == ""
  {
    assert Trim(line) == line;
    SplitNoSeparator(line, ',');
  }

  /** A line `name,code` whose two ends are not whitespace gives that name
      and that code, spaces next to the comma included. */
  lemma CodedLine(name: string, code: string)
    requires ',' !in name && ',' !in code
    requires name != [] && code != []
    requires !IsWhitespace(name[0]) && !IsWhitespace(code[|code| - 1])
    ensures ParseName(name + "," + code) == name && ParseCode(name + "," + code) == code
  {
    var line := name + "," + code;
    assert line[0] == name[0] && line[|line| - 1] == code[|code| - 1];
    assert Trim(line) == line;
    assert line == Join([name, code], ',');
    SplitJoin([name, code], ',');
  }

  /** Input with a coded line, a plain line, a blank line and a line with
      spaces around its comma, followed by a trailing space: four entries,
      the blank line kept as an empty entry, and the spaces next to the
      comma kept in the name and the code. */
  lemma MixedInput(alice: string, a1: string, bob: string, carol: string, c3: string)
    requires Plain(alice) && Plain(a1) && Plain(bob) && Plain(carol) && Plain(c3)
    ensures var input := alice + "," + a1 + "\n" + bob + "\n\n" + carol + " , " + c3 + " ";
      NamesOf(Trim(input)) == [alice, bob, "", carol + " "]
      && CodesOf(Trim(input)) == [a1, "", "", " " + c3]
  {
    var lines := [alice + "," + a1, bob, "", carol + " , " + c3];
    MixedInputLines(alice, a1, bob, carol, c3);
    EntriesOfLines(lines);
    MixedInputEntries(alice, a1, bob, carol, c3);
  }

  lemma MixedInputLines(alice: string, a1: string, bob: string, carol: string, c3: string)
    requires Plain(alice) && Plain(a1) && Plain(bob) && Plain(carol) && Plain(c3)
    ensures var input := alice + "," + a1 + "\n" + bob + "\n\n" + carol + " , " + c3 + " ";
      var lines := [alice + "," + a1, bob, "", carol + " , " + c3];
      Trim(input) == Join(lines, '\n')
      && forall k :: 0 <= k < |lines| ==> '\n' !in lines[k]
  {
    var first := alice + "," + a1;
    var last := carol + " , " + c3;
    var input := alice + "," + a1 + "\n" + bob + "\n\n" + carol + " , " + c3 + " ";
    assert input == first + "\n" + bob + "\n\n" + last + " ";
    assert first[0] == alice[0] && last[|last| - 1] == c3[|c3| - 1];
    assert '\n' !in first && '\n' !in last;
    LinesAroundBlank(first, bob, last);
  }

  /** Three lines with a blank line before the last and a trailing space:
      trimming removes only the space. */
  lemma LinesAroundBlank(first: string, middle: string, last: string)
    requires first != [] && last != []
    requires !IsWhitespace(first[0]) && !IsWhitespace(last[|last| - 1])
    ensures Trim(first + "\n" + middle + "\n\n" + last + " ") == Join([first, middle, "", last], '\n')
  {
    var text := first + "\n" + middle + "\n" + "" + "\n" + last;
    FourLinesJoined(first, middle, "", last);
    assert first + "\n" + middle + "\n\n" + last + " " == text + " ";
    assert text[0] == first[0] && text[|text| - 1] == last[|last| - 1];
    TrailingSpaceTrimmed(text);
  }

  lemma FourLinesJoined(w: string, x: string, y: string, z: string)
    ensures Join([w, x, y, z], '\n') == w + "\n" + x + "\n" + y + "\n" + z
  {
    var lines := [w, x, y, z];
    assert Join(lines[3..], '\n') == z;
    assert Join(lines[2..], '\n') == y + "\n" + z;
    assert Join(lines[1..], '\n') == x + "\n" + (y + "\n" + z);
    assert Join(lines, '\n') == w + "\n" + (x + "\n" + (y + "\n" + z));
  }

  lemma TrailingSpaceTrimmed(text: string)
    requires text != [] && !IsWhitespace(text[0]) && !IsWhitespace(text[|text| - 1])
    ensures Trim(text + " ") == text
  {
    var input := text + " ";
    assert TrimStart(input) == input;
    assert input[..|input| - 1] == text;
    assert TrimEnd(text) == text;
  }

  lemma MixedInputEntries(alice: string, a1: string, bob: string, carol: string, c3: string)
    requires Plain(alice) && Plain(a1) && Plain(bob) && Plain(carol) && Plain(c3)
    ensures var lines := [alice + "," + a1, bob, "", carol + " , " + c3];
      NamesOfLines(lines) == [alice, bob, "", carol + " "]
      && CodesOfLines(lines) == [a1, "", "", " " + c3]
  {
    CodedLine(alice, a1);
    PlainLine(bob);
    BlankLineEntry("");
    PaddedCommaLine(carol, c3);
    var lines := [alice + "," + a1, bob, "", carol + " , " + c3];
    var names, codes := NamesOfLines(lines), CodesOfLines(lines);
    assert names[0] == alice && names[1] == bob && names[2] == "" && names[3] == carol + " ";
    assert names == [alice, bob, "", carol + " "];
    assert codes[0] == a1 && codes[1] == "" && codes[2] == "" && codes[3] == " " + c3;
    assert codes == [a1, "", "", " " + c3];
  }

  /** The spaces on both sides of the comma stay in the name and the code. */
  lemma PaddedCommaLine(name: string, code: string)
    requires Plain(name) && Plain(code)
    ensures ParseName(name + " , " + code) == name + " "
    ensures ParseCode(name + " , " + code) == " " + code
  {
    assert name + " , " + code == (name + " ") + "," + (" " + code);
    CodedLine(name + " ", " " + code);
  }

  /** Plain lines joined by newlines give one name per line and empty
      codes. */
  lemma PlainLines(lines: seq<string>)
    requires |lines| >= 1
    requires forall k :: 0 <= k < |lines| ==> Plain(lines[k])
    ensures NamesOf(Join(lines, '\n')) == lines
    ensures CodesOf(Join(lines, '\n')) == seq(|lines|, _ => "")
  {
    EntriesOfLines(lines);
    PlainLinesParse(lines);
  }

  lemma PlainLinesParse(lines: seq<string>)
    requires forall k :: 0 <= k < |lines| ==> Plain(lines[k])
    ensures NamesOfLines(lines) == lines
    ensures CodesOfLines(lines) == seq(|lines|, _ => "")
  {
    forall k | 0 <= k < |lines| ensures ParseName(lines[k]) == lines[k] && ParseCode(lines[k]) == "" {
      PlainLine(lines[k]);
    }
  }

  /** Typing plain lines, one per line, into the input box: the input is
      not blank and its entries are those lines with empty codes. */
  lemma PlainInput(lines: seq<string>)
    requires |lines| >= 1
    requires forall k :: 0 <= k < |lines| ==> Plain(lines[k])
    ensures var input := Join(lines, '\n');
      !AllWhitespace(input) && Trim(input) != []
      && NamesOf(Trim(input)) == lines && CodesOf(Trim(input)) == seq(|lines|, _ => "")
  {
    var input := Join(lines, '\n');
    assert Plain(lines[0]) && Plain(lines[|lines| - 1]);
    PlainInputTrimmed(lines);
    PlainLines(lines);
    TrimEmptyIffBlank(input);
    JoinFirstPiece(lines, '\n');
  }

  /** Lines joined by newlines, the first and the last of them plain, are
      already trimmed. */
  lemma PlainInputTrimmed(lines: seq<string>)
    requires |lines| >= 1 && Plain(lines[0]) && Plain(lines[|lines| - 1])
    ensures Trim(Join(lines, '\n')) == Join(lines, '\n')
  {
    var text := Join(lines, '\n');
    var first, last := lines[0], lines[|lines| - 1];
    JoinFirstPiece(lines, '\n');
    JoinLastPiece(lines, '\n');
    assert text[0] == first[0] && text[|text| - 1] == last[|last| - 1];
    TrimUnchanged(text);
  }

  lemma {:induction false} JoinLastPiece(lines: seq<string>, sep: char)
    requires |lines| >= 1 && lines[|lines| - 1] != []
    ensures var text, last := Join(lines, sep), lines[|lines| - 1];
      text != [] && text[|text| - 1] == last[|last| - 1]
  {
    if |lines| > 1 {
      JoinLastPiece(lines[1..], sep);
    }
  }
}
