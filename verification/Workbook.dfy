/**
 The sheets of the exported workbook: cell texts are cut, cleaned, escaped and put between fixed tags.

 A text is its Unicode characters. The cut counts UTF-16 units, and half of a character that it leaves
 behind becomes the replacement character when the file is encoded. The reader knows the tags and the
 rules of XML 1.0 that concern them: its character range (section 2.2), line ends (section 2.11) and
 the white space of attributes (section 3.3.3). No cell content can be taken for markup.
*/
module Workbook {
  import opened Digits
  import opened Prelude

  // ---- Escaping ----

  /** Control characters that XML does not allow. */
  predicate Forbidden(ch: char) {
    var n := ch as int;
    n <= 8 || n == 0xb || n == 0xc || 0xe <= n <= 0x1f
  }

  /** XML 1.0's character range: control characters aside, two values are outside. */
  predicate XmlChar(ch: char) {
    !Forbidden(ch) && ch as int != 0xfffe && ch as int != 0xffff
  }

  predicate AllXml(s: string) {
    forall i :: 0 <= i < |s| ==> XmlChar(s[i])
  }

  function Clean(s: string): string {
    if s == "" then "" else (if Forbidden(s[0]) then "" else [s[0]]) + Clean(s[1..])
  }

  function Entity(ch: char): string {
    if ch == '&' then "&amp;" else if ch == '<' then "&lt;" else if ch == '>' then "&gt;"
    else if ch == '"' then "&quot;" else if ch == '\'' then "&apos;" else [ch]
  }

  function Escaped(s: string): string {
    if s == "" then "" else Entity(s[0]) + Escaped(s[1..])
  }

  function Xml(value: string): string {
    Escaped(Clean(value))
  }

  /** The character an escaped text starts with, and what follows. */
  function ReadChar(s: string): Option<(char, string)> {
    if s == "" || s[0] in "<>\"'" || !XmlChar(s[0]) then None
    else if s[0] != '&' then Some((s[0], s[1..]))
    else if "&amp;" <= s then Some(('&', s[5..]))
    else if "&lt;" <= s then Some(('<', s[4..]))
    else if "&gt;" <= s then Some(('>', s[4..]))
    else if "&quot;" <= s then Some(('"', s[6..]))
    else if "&apos;" <= s then Some(('\'', s[6..]))
    else None
  }

  function Unescaped(s: string): Option<string> {
    if s == "" then Some("")
    else
      var c := ReadChar(s);
      if c.None? then None
      else
        var rest := Unescaped(c.value.1);
        if rest.None? then None else Some([c.value.0] + rest.value)
  }

  lemma ReadCharOf(ch: char, rest: string)
    ensures ReadChar(Entity(ch) + rest) == if XmlChar(ch) then Some((ch, rest)) else None
  {
    var s := Entity(ch) + rest;
    assert s[|Entity(ch)|..] == rest;
    assert Entity(ch) <= s;
    if ch == '<' {
      NotPrefix("&amp;", s, 1);
    } else if ch == '>' {
      NotPrefix("&amp;", s, 1);
      NotPrefix("&lt;", s, 1);
    } else if ch == '"' {
      NotPrefix("&amp;", s, 1);
      NotPrefix("&lt;", s, 1);
      NotPrefix("&gt;", s, 1);
    } else if ch == '\'' {
      NotPrefix("&amp;", s, 2);
      NotPrefix("&lt;", s, 1);
      NotPrefix("&gt;", s, 1);
      NotPrefix("&quot;", s, 1);
    }
  }

  lemma NotPrefix(p: string, s: string, k: nat)
    requires k < |p| && k < |s| && p[k] != s[k]
    ensures !(p <= s)
  {
  }

  /** Unescaping gives the escaped text back, or nothing if a character is out of range. */
  lemma {:induction false} UnescapeEscaped(s: string)
    ensures Unescaped(Escaped(s)) == if AllXml(s) then Some(s) else None
  {
    hide ReadChar, Entity, XmlChar;
    if s != "" {
      ReadCharOf(s[0], Escaped(s[1..]));
      UnescapeEscaped(s[1..]);
      assert s == [s[0]] + s[1..];
      assert AllXml(s) <==> XmlChar(s[0]) && AllXml(s[1..]);
      EntityNotEmpty(s[0]);
    }
  }

  lemma EntityNotEmpty(ch: char)
    ensures Entity(ch) != ""
  {
  }

  predicate Without(s: string, ch: char) {
    forall i :: 0 <= i < |s| ==> s[i] != ch
  }

  /** Escaped text has no markup character but the ampersand. */
  lemma {:induction false} EscapedIsInert(s: string, ch: char)
    requires ch in "<>\"'"
    ensures Without(Escaped(s), ch)
  {
    if s != "" {
      EscapedIsInert(s[1..], ch);
      assert Without(Entity(s[0]), ch);
    }
  }

  // ---- Line ends and white space ----

  /** A reader sees every line end, however written, as one line feed. */
  function LineEnds(s: string): string {
    if s == "" then ""
    else if s[0] != '\r' then [s[0]] + LineEnds(s[1..])
    else if |s| > 1 && s[1] == '\n' then LineEnds(s[1..])
    else "\n" + LineEnds(s[1..])
  }

  /** In an attribute, tabs and line feeds count as blanks. */
  function Blanked(s: string): (r: string)
    ensures |r| == |s|
  {
    seq(|s|, i requires 0 <= i < |s| => if s[i] == '\t' || s[i] == '\n' then ' ' else s[i])
  }

  lemma {:induction false} EscapedMore(ch: char, rest: string)
    ensures Escaped([ch] + rest) == Entity(ch) + Escaped(rest)
  {
    assert ([ch] + rest)[1..] == rest;
  }

  lemma {:induction false} LineEndsMore(ch: char, rest: string)
    ensures LineEnds([ch] + rest) ==
      if ch != '\r' then [ch] + LineEnds(rest)
      else if rest != "" && rest[0] == '\n' then LineEnds(rest)
      else "\n" + LineEnds(rest)
  {
    assert ([ch] + rest)[1..] == rest;
  }

  lemma EntityHasNoReturn(ch: char)
    ensures Entity('\r') == "\r" && Entity('\n') == "\n" && (ch != '\r' ==> Without(Entity(ch), '\r'))
  {
  }

  /** Line ends are the same in a text and in its escaped form. */
  lemma {:induction false} LineEndsEscaped(s: string)
    ensures LineEnds(Escaped(s)) == Escaped(LineEnds(s))
  {
    hide Entity;
    if s == "" {
      assert LineEnds("") == "" && Escaped("") == "";
    } else {
      LineEndsEscaped(s[1..]);
      LineEndsEscapedMore(s[0], s[1..]);
      assert s == [s[0]] + s[1..];
    }
  }

  lemma {:induction false} LineEndsEscapedMore(ch: char, rest: string)
    requires LineEnds(Escaped(rest)) == Escaped(LineEnds(rest))
    ensures LineEnds(Escaped([ch] + rest)) == Escaped(LineEnds([ch] + rest))
  {
    FirstEscaped(rest);
    hide Entity, Escaped, LineEnds, Without;
    EntityHasNoReturn(ch);
    EscapedMore(ch, rest);
    LineEndsMore(ch, rest);
    EscapedMore(ch, LineEnds(rest));
    EscapedMore('\n', LineEnds(rest));
    if ch == '\r' {
      LineEndsMore('\r', Escaped(rest));
    } else {
      LineEndsAfter(Entity(ch), Escaped(rest));
    }
  }

  lemma {:induction false} FirstEscaped(s: string)
    ensures (Escaped(s) != "" && Escaped(s)[0] == '\n') <==> (s != "" && s[0] == '\n')
  {
  }

  lemma {:induction false} LineEndsAfter(front: string, rest: string)
    requires Without(front, '\r')
    ensures LineEnds(front + rest) == front + LineEnds(rest)
  {
    if front == "" {
      assert front + rest == rest;
    } else {
      assert (front + rest)[1..] == front[1..] + rest;
      LineEndsAfter(front[1..], rest);
      assert [front[0]] + (front[1..] + LineEnds(rest)) == front + LineEnds(rest);
    }
  }

  lemma BlankedConcat(a: string, b: string)
    ensures Blanked(a + b) == Blanked(a) + Blanked(b)
  {
  }

  lemma BlankedEntity(ch: char)
    ensures Blanked([ch]) == [Blanked([ch])[0]] && Blanked(Entity(ch)) == Entity(Blanked([ch])[0])
  {
    if ch in "&<>\"'" {
      assert Blanked([ch]) == [ch];
      assert forall i :: 0 <= i < |Entity(ch)| ==> Entity(ch)[i] != '\t' && Entity(ch)[i] != '\n';
      assert Blanked(Entity(ch)) == Entity(ch);
    }
  }

  lemma {:induction false} BlankedEscaped(s: string)
    ensures Blanked(Escaped(s)) == Escaped(Blanked(s))
  {
    if s == "" {
      assert Blanked("") == "" && Escaped("") == "";
    } else {
      hide Entity, Blanked;
      BlankedEscaped(s[1..]);
      BlankedEntity(s[0]);
      BlankedConcat(Entity(s[0]), Escaped(s[1..]));
      BlankedConcat([s[0]], s[1..]);
      assert s == [s[0]] + s[1..];
      EscapedMore(Blanked([s[0]])[0], Blanked(s[1..]));
    }
  }

  /** A text keeps its line ends exactly when it has no carriage return. */
  lemma {:induction false} LineEndsKeepExactly(s: string)
    ensures LineEnds(s) == s <==> Without(s, '\r')
    ensures |LineEnds(s)| <= |s| && Without(LineEnds(s), '\r')
  {
    if s != "" {
      LineEndsKeepExactly(s[1..]);
      assert s == [s[0]] + s[1..];
      if s[0] != '\r' {
        assert LineEnds(s) == [s[0]] + LineEnds(s[1..]);
        assert LineEnds(s)[1..] == LineEnds(s[1..]);
      } else {
        assert LineEnds(s) == LineEnds(s[1..]) || LineEnds(s)[0] == '\n';
      }
    }
  }

  // ---- The cut ----

  const REPLACEMENT := 0xfffd as char

  /** UTF-16 units of a character. */
  function Units(ch: char): (n: nat)
    ensures 1 <= n <= 2
  {
    if ch as int >= 0x10000 then 2 else 1
  }

  function Utf16Length(s: string): nat {
    if s == "" then 0 else Units(s[0]) + Utf16Length(s[1..])
  }

  /** The first `room` units; half a character is encoded as the replacement character. */
  function CutAt(s: string, room: nat): string {
    if s == "" || room == 0 then ""
    else if Units(s[0]) > room then [REPLACEMENT]
    else [s[0]] + CutAt(s[1..], room - Units(s[0]))
  }

  lemma {:induction false} CutFits(s: string, room: nat)
    ensures Utf16Length(CutAt(s, room)) <= room
  {
    if s != "" && room > 0 {
      if Units(s[0]) > room {
        assert [REPLACEMENT][1..] == "";
      } else {
        CutFits(s[1..], room - Units(s[0]));
        assert CutAt(s, room)[1..] == CutAt(s[1..], room - Units(s[0]));
      }
    }
  }

  lemma {:induction false} CutOfShort(s: string, room: nat)
    requires Utf16Length(s) <= room
    ensures CutAt(s, room) == s
  {
    if s != "" {
      CutOfShort(s[1..], room - Units(s[0]));
      assert s == [s[0]] + s[1..];
    }
  }

  /** A character of two units that the limit falls into is lost. */
  lemma {:induction false} CutSplitsCharacter(front: string, ch: char, rest: string, room: nat)
    requires Utf16Length(front) + 1 == room && ch as int >= 0x1_0000
    ensures CutAt(front + ([ch] + rest), room) == front + [0xfffd as char]
  {
    if front == "" {
      assert front + ([ch] + rest) == [ch] + rest;
    } else {
      assert (front + ([ch] + rest))[1..] == front[1..] + ([ch] + rest);
      CutSplitsCharacter(front[1..], ch, rest, room - Units(front[0]));
      assert front == [front[0]] + front[1..];
    }
  }

  /** Characters below 2^16 take one unit, so a text of such is measured by its length. */
  lemma {:induction false} BasicTextLength(s: string)
    requires forall i :: 0 <= i < |s| ==> (s[i] as int) < 0x1_0000
    ensures Utf16Length(s) == |s|
  {
    if s != "" {
      BasicTextLength(s[1..]);
    }
  }

  /** The cut keeps a text exactly when its UTF-16 length is within the limit. */
  lemma {:induction false} CutKeepsExactly(s: string, room: nat)
    ensures CutAt(s, room) == s <==> Utf16Length(s) <= room
  {
    CutFits(s, room);
    if Utf16Length(s) <= room {
      CutOfShort(s, room);
    }
  }

  // ---- Tags ----

  /** How many characters come before the first `ch`. */
  function Before(s: string, ch: char): (n: nat)
    ensures n <= |s| && Without(s[..n], ch) && (n < |s| ==> s[n] == ch)
  {
    if s != "" && s[0] != ch then 1 + Before(s[1..], ch) else 0
  }

  lemma {:induction false} BeforeOf(text: string, ch: char, rest: string)
    requires Without(text, ch) && rest != "" && rest[0] == ch
    ensures Before(text + rest, ch) == |text|
  {
    if text == "" {
      assert text + rest == rest;
    } else {
      assert (text + rest)[1..] == text[1..] + rest;
      BeforeOf(text[1..], ch, rest);
    }
  }

  /** Text between two tags that has no `<` of its own, and what follows. */
  function ReadTagged(s: string, open: string, close: string): (r: Option<(string, string)>)
    ensures r.Some? && open != "" ==> |r.value.1| < |s|
  {
    if !(open <= s) then None
    else
      var body := s[|open|..];
      var n := Before(body, '<');
      if close <= body[n..] then Some((body[..n], body[n..][|close|..])) else None
  }

  lemma ReadTaggedOf(open: string, text: string, close: string, rest: string)
    requires Without(text, '<') && close != "" && close[0] == '<'
    ensures ReadTagged(open + text + close + rest, open, close) == Some((text, rest))
  {
    var s := open + text + close + rest;
    assert s == open + (text + (close + rest));
    assert s[|open|..] == text + (close + rest);
    BeforeOf(text, '<', close + rest);
    assert (text + (close + rest))[..|text|] == text && (text + (close + rest))[|text|..] == close + rest;
  }

  // ---- Cells ----

  /** A finite number as JavaScript prints it, a text (also for the other numbers), or null. */
  datatype Cell = Number(printed: string) | Text(text: string) | Null

  /** Printed numbers have digits, signs, a point and an exponent. */
  predicate Valid(c: Cell) {
    c.Number? ==> forall i :: 0 <= i < |c.printed| ==> IsDigit(c.printed[i]) || c.printed[i] in "+-.e"
  }

  const MAX_TEXT := 32767

  function NumberOpen(): string { "<c><v>" }
  function NumberClose(): string { "</v></c>" }
  function TextOpen(): string { "<c t=\"inlineStr\"><is><t xml:space=\"preserve\">" }
  function TextClose(): string { "</t></is></c>" }
  function RowOpen(): string { "<row r=\"" }
  function RowClose(): string { "</row>" }
  function SheetClose(): string { "</sheetData>" }

  function Cut(s: string): string {
    CutAt(s, MAX_TEXT)
  }

  function TextOf(c: Cell): string
    requires !c.Number?
  {
    Cut(if c.Text? then c.text else "")
  }

  function CellXml(c: Cell): string {
    if c.Number? then NumberOpen() + c.printed + NumberClose() else TextOpen() + Xml(TextOf(c)) + TextClose()
  }

  /** A number goes between value tags; a text, cut, cleaned and escaped, between those of an inline string. */
  lemma CellMarkup(c: Cell)
    ensures c.Number? ==> CellXml(c) == "<c><v>" + c.printed + "</v></c>"
    ensures var open := "<c t=\"inlineStr\"><is><t xml:space=\"preserve\">";
      && (c.Text? ==> CellXml(c) == open + Escaped(Clean(CutAt(c.text, 32_767))) + "</t></is></c>")
      && (c.Null? ==> CellXml(c) == open + "</t></is></c>")
  {
    if c.Null? {
      NothingToWrite();
    }
    hide Escaped, Clean, CutAt;
  }

  lemma NothingToWrite()
    ensures Escaped(Clean(CutAt("", MAX_TEXT))) == ""
  {
  }

  function RowXml(cells: seq<Cell>): string {
    if cells == [] then "" else CellXml(cells[0]) + RowXml(cells[1..])
  }

  /** The rows from number `r` on, the first row being number 1. */
  function RowsXml(rows: seq<seq<Cell>>, r: nat): string {
    if rows == [] then ""
    else RowOpen() + (NatText(r + 1) + ("\">" + (RowXml(rows[0]) + (RowClose() + RowsXml(rows[1..], r + 1)))))
  }

  // ---- Reading a sheet ----

  datatype Shown = ShownNumber(printed: string) | ShownText(text: string)

  function ReadCell(s: string): (r: Option<(Shown, string)>)
    ensures r.Some? ==> |r.value.1| < |s|
  {
    var n := ReadTagged(s, NumberOpen(), NumberClose());
    var t := ReadTagged(s, TextOpen(), TextClose());
    if n.Some? then Some((ShownNumber(n.value.0), n.value.1))
    else if t.Some? && Unescaped(LineEnds(t.value.0)).Some?
      then Some((ShownText(Unescaped(LineEnds(t.value.0)).value), t.value.1))
    else None
  }

  /** Cells up to the end of the row. */
  function ReadCells(s: string): (r: Option<(seq<Shown>, string)>)
    ensures r.Some? ==> |r.value.1| <= |s|
    decreases |s|
  {
    if RowClose() <= s then Some(([], s[|RowClose()|..]))
    else
      var c := ReadCell(s);
      if c.None? then None
      else
        var more := ReadCells(c.value.1);
        if more.None? then None else Some(([c.value.0] + more.value.0, more.value.1))
  }

  /** A row with its number, and what follows. */
  function ReadRow(s: string): (r: Option<((string, seq<Shown>), string)>)
    ensures r.Some? ==> |r.value.1| < |s|
  {
    if !(RowOpen() <= s) then None
    else
      var tail := s[|RowOpen()|..];
      var n := DigitRun(tail);
      if !("\">" <= tail[n..]) then None
      else
        var cells := ReadCells(tail[n..][2..]);
        if cells.None? then None else Some(((tail[..n], cells.value.0), cells.value.1))
  }

  /** Rows up to the end of the sheet's data. */
  function ReadRows(s: string): Option<seq<(string, seq<Shown>)>>
    decreases |s|
  {
    if SheetClose() <= s then Some([])
    else
      var row := ReadRow(s);
      if row.None? then None
      else
        var more := ReadRows(row.value.1);
        if more.None? then None else Some([row.value.0] + more.value)
  }

  /** What a reader should see of a cell. */
  function ShownCell(c: Cell): Shown {
    if c.Number? then ShownNumber(c.printed) else ShownText(LineEnds(Clean(TextOf(c))))
  }

  /** An XML reader accepts the cell's characters. */
  predicate Readable(c: Cell) {
    !c.Number? ==> AllXml(Clean(TextOf(c)))
  }

  predicate ReadableRow(cells: seq<Cell>) {
    forall i :: 0 <= i < |cells| ==> Readable(cells[i])
  }

  predicate ReadableRows(rows: seq<seq<Cell>>) {
    forall r :: 0 <= r < |rows| ==> ReadableRow(rows[r])
  }

  function ShownRow(cells: seq<Cell>): seq<Shown> {
    seq(|cells|, i requires 0 <= i < |cells| => ShownCell(cells[i]))
  }

  function ShownRows(rows: seq<seq<Cell>>, r: nat): seq<(string, seq<Shown>)> {
    seq(|rows|, i requires 0 <= i < |rows| => (NatText(r + i + 1), ShownRow(rows[i])))
  }

  lemma TagsDiffer(rest: string)
    ensures !(NumberOpen() <= TextOpen() + rest) && !(RowClose() <= TextOpen() + rest)
      && !(RowClose() <= NumberOpen() + rest)
    ensures !(SheetClose() <= RowOpen() + rest)
    ensures NumberClose() != "" && NumberClose()[0] == '<' && TextClose() != "" && TextClose()[0] == '<'
    ensures NumberOpen() != "" && TextOpen() != "" && RowClose() != "" && RowOpen() != "" && SheetClose() != ""
  {
    assert TextOpen()[1] == 'c' && TextOpen()[2] == ' ';
    NotPrefix(NumberOpen(), TextOpen() + rest, 2);
    NotPrefix(RowClose(), TextOpen() + rest, 1);
    NotPrefix(RowClose(), NumberOpen() + rest, 1);
    NotPrefix(SheetClose(), RowOpen() + rest, 1);
  }

  lemma ReadCellOf(c: Cell, rest: string)
    requires Valid(c)
    ensures ReadCell(CellXml(c) + rest) == if Readable(c) then Some((ShownCell(c), rest)) else None
    ensures !(RowClose() <= CellXml(c) + rest)
  {
    hide NumberOpen, NumberClose, TextOpen, TextClose, RowClose, ReadTagged, Clean, LineEnds, Unescaped, Escaped,
      XmlChar;
    if c.Number? {
      TagsDiffer(c.printed + NumberClose() + rest);
      assert NumberOpen() + c.printed + NumberClose() + rest == NumberOpen() + (c.printed + NumberClose() + rest);
      ReadTaggedOf(NumberOpen(), c.printed, NumberClose(), rest);
    } else {
      var body := Xml(TextOf(c));
      EscapedIsInert(Clean(TextOf(c)), '<');
      LineEndsEscaped(Clean(TextOf(c)));
      LineEndsStayXml(Clean(TextOf(c)));
      UnescapeEscaped(LineEnds(Clean(TextOf(c))));
      TagsDiffer(body + TextClose() + rest);
      assert TextOpen() + body + TextClose() + rest == TextOpen() + (body + TextClose() + rest);
      ReadTaggedOf(TextOpen(), body, TextClose(), rest);
      NotTagged(TextOpen() + body + TextClose() + rest, NumberOpen(), NumberClose());
    }
  }

  lemma {:induction false} LineEndsStayXml(s: string)
    ensures AllXml(LineEnds(s)) <==> AllXml(s)
  {
    hide Forbidden;
    if s != "" {
      LineEndsStayXml(s[1..]);
      assert s == [s[0]] + s[1..];
      assert AllXml(s) <==> XmlChar(s[0]) && AllXml(s[1..]);
      CarriageReturnIsXml();
      FirstAndRest('\n', LineEnds(s[1..]));
      FirstAndRest(s[0], LineEnds(s[1..]));
    }
  }

  lemma FirstAndRest(ch: char, rest: string)
    ensures AllXml([ch] + rest) <==> XmlChar(ch) && AllXml(rest)
  {
    hide XmlChar;
    assert ([ch] + rest)[0] == ch;
    assert forall i :: 0 <= i < |rest| ==> ([ch] + rest)[i + 1] == rest[i];
  }

  lemma CarriageReturnIsXml()
    ensures XmlChar('\r') && XmlChar('\n')
  {
  }

  lemma NotTagged(s: string, open: string, close: string)
    requires !(open <= s)
    ensures ReadTagged(s, open, close).None?
  {
  }

  lemma {:induction false} ReadCellsOf(cells: seq<Cell>, rest: string)
    requires forall i :: 0 <= i < |cells| ==> Valid(cells[i])
    ensures ReadCells(RowXml(cells) + (RowClose() + rest))
      == if ReadableRow(cells) then Some((ShownRow(cells), rest)) else None
  {
    hide RowClose, ReadCell, CellXml, ShownCell, Valid, Readable;
    if cells == [] {
      assert RowXml(cells) + (RowClose() + rest) == RowClose() + rest;
      assert (RowClose() + rest)[|RowClose()|..] == rest;
      assert ShownRow(cells) == [];
    } else {
      var tail := RowXml(cells[1..]) + (RowClose() + rest);
      assert RowXml(cells) + (RowClose() + rest) == CellXml(cells[0]) + tail;
      ReadCellOf(cells[0], tail);
      ReadCellsOf(cells[1..], rest);
      assert ReadableRow(cells) <==> Readable(cells[0]) && ReadableRow(cells[1..]);
      assert ShownRow(cells) == [ShownCell(cells[0])] + ShownRow(cells[1..]);
    }
  }

  ghost predicate AllValid(rows: seq<seq<Cell>>) {
    forall r, i :: 0 <= r < |rows| && 0 <= i < |rows[r]| ==> Valid(rows[r][i])
  }

  lemma RowHead(number: string, rest: string)
    requires AllDigits(number)
    ensures var tail := number + ("\">" + rest);
      DigitRun(tail) == |number| && tail[..|number|] == number && "\">" <= tail[|number|..]
        && tail[|number|..][2..] == rest
  {
    DigitRunOf(number, "\">" + rest);
    var tail := number + ("\">" + rest);
    assert tail[|number|..] == "\">" + rest;
  }

  lemma {:induction false} ReadRowOf(number: string, cells: seq<Cell>, rest: string)
    requires AllDigits(number)
    requires forall i :: 0 <= i < |cells| ==> Valid(cells[i])
    ensures ReadRow(RowOpen() + (number + ("\">" + (RowXml(cells) + (RowClose() + rest)))))
      == if ReadableRow(cells) then Some(((number, ShownRow(cells)), rest)) else None
    ensures !(SheetClose() <= RowOpen() + (number + ("\">" + (RowXml(cells) + (RowClose() + rest)))))
  {
    hide RowClose, RowOpen, SheetClose, ReadCells, RowXml, ShownRow, Valid, ReadableRow;
    var inner := RowXml(cells) + (RowClose() + rest);
    var tail := number + ("\">" + inner);
    TagsDiffer(tail);
    RowHead(number, inner);
    assert (RowOpen() + tail)[|RowOpen()|..] == tail;
    ReadCellsOf(cells, rest);
  }

  /**
   Reading a sheet gives its rows in order, each with its number and its cells: numbers as printed,
   texts cut, without control characters and with line feeds for line ends. It fails exactly when some
   text has a character that XML does not allow.
  */
  lemma {:induction false} SheetReadsBack(rows: seq<seq<Cell>>, r: nat, rest: string)
    requires AllValid(rows)
    ensures ReadRows(RowsXml(rows, r) + (SheetClose() + rest))
      == if ReadableRows(rows) then Some(ShownRows(rows, r)) else None
  {
    hide RowClose, RowOpen, SheetClose, ReadRow, RowXml, ShownRow, NatText, Valid, ReadableRow;
    if rows == [] {
      assert RowsXml(rows, r) + (SheetClose() + rest) == SheetClose() + rest;
      assert ShownRows(rows, r) == [];
    } else {
      var more := RowsXml(rows[1..], r + 1) + (SheetClose() + rest);
      var number := NatText(r + 1);
      ReadRowOf(number, rows[0], more);
      RowsSplit(rows, r, SheetClose() + rest);
      SheetReadsBack(rows[1..], r + 1, rest);
      assert ReadableRows(rows) <==> ReadableRow(rows[0]) && ReadableRows(rows[1..]);
      assert ShownRows(rows, r) == [(number, ShownRow(rows[0]))] + ShownRows(rows[1..], r + 1);
    }
  }

  /** Rows are numbered from one. */
  lemma RowMarkup(rows: seq<seq<Cell>>, r: nat)
    requires rows != []
    ensures RowsXml(rows, r)
      == "<row r=\"" + (NatText(r + 1) + ("\">" + (RowXml(rows[0]) + ("</row>" + RowsXml(rows[1..], r + 1)))))
  {
    hide RowXml, NatText;
  }

  lemma RowsSplit(rows: seq<seq<Cell>>, r: nat, rest: string)
    requires rows != []
    ensures RowsXml(rows, r) + rest
      == RowOpen() + (NatText(r + 1) + ("\">" + (RowXml(rows[0]) + (RowClose() + (RowsXml(rows[1..], r + 1) + rest)))))
  {
    hide RowClose, RowOpen, RowXml, NatText;
  }

  /** What a reader makes of an attribute's text. */
  function AttributeText(raw: string): Option<string> {
    Unescaped(Blanked(LineEnds(raw)))
  }

  /**
   A sheet's name, written into an attribute, ends at the attribute's closing quote and reads back
   with blanks for other white space.
  */
  lemma {:induction false} NameReadsBack(name: string, rest: string)
    ensures var s := Xml(name) + ("\"" + rest);
      Before(s, '"') == |Xml(name)| &&
      AttributeText(s[..Before(s, '"')]) == if AllXml(Clean(name)) then Some(Blanked(LineEnds(Clean(name)))) else None
  {
    hide Unescaped, Escaped, LineEnds, Blanked, Clean, XmlChar;
    var clean := Clean(name);
    EscapedIsInert(clean, '"');
    BeforeOf(Xml(name), '"', "\"" + rest);
    assert (Xml(name) + ("\"" + rest))[..|Xml(name)|] == Xml(name);
    LineEndsEscaped(clean);
    BlankedEscaped(LineEnds(clean));
    UnescapeEscaped(Blanked(LineEnds(clean)));
    LineEndsStayXml(clean);
    BlankedStaysXml(LineEnds(clean));
  }

  lemma BlankedStaysXml(s: string)
    ensures AllXml(Blanked(s)) <==> AllXml(s)
  {
    assert XmlChar(' ') && XmlChar('\t') && XmlChar('\n');
    hide XmlChar;
    if AllXml(Blanked(s)) {
      forall i | 0 <= i < |s|
        ensures XmlChar(s[i])
      {
        assert XmlChar(Blanked(s)[i]);
      }
    }
  }

  predicate Allowed(s: string) {
    forall i :: 0 <= i < |s| ==> !Forbidden(s[i])
  }

  lemma {:induction false} CleanOfAllowed(s: string)
    requires Allowed(s)
    ensures Clean(s) == s
  {
    if s != "" {
      CleanOfAllowed(s[1..]);
      assert s == [s[0]] + s[1..];
    }
  }

  lemma {:induction false} CleanIsAllowed(s: string)
    ensures Allowed(Clean(s))
  {
    if s != "" {
      CleanIsAllowed(s[1..]);
    }
  }

  lemma {:induction false} CleanShrinks(s: string)
    ensures |Clean(s)| <= |s|
  {
    if s != "" {
      CleanShrinks(s[1..]);
    }
  }

  lemma {:induction false} CutIsNoLonger(s: string, room: nat)
    ensures |CutAt(s, room)| <= |s|
  {
    if s != "" && room > 0 && Units(s[0]) <= room {
      CutIsNoLonger(s[1..], room - Units(s[0]));
    }
  }

  /**
   A text cell reads back as its own text exactly when it is short enough, in XML's range and without
   carriage return.
  */
  lemma {:induction false} TextSurvivesExactlyWhen(text: string, rest: string)
    ensures ReadCell(CellXml(Text(text)) + rest) == Some((ShownText(text), rest))
       <==> Utf16Length(text) <= 32_767 && AllXml(text) && Without(text, '\r')
  {
    hide ReadCell, CellXml, Clean, LineEnds, Utf16Length, CutAt, XmlChar;
    ReadCellOf(Text(text), rest);
    var cut := Cut(text);
    CutKeepsExactly(text, MAX_TEXT);
    CutIsNoLonger(text, MAX_TEXT);
    CleanShrinks(cut);
    LineEndsKeepExactly(Clean(cut));
    if LineEnds(Clean(cut)) == text {
      CutWithout(text, MAX_TEXT, '\r');
      CleanWithout(cut, '\r');
      CleanOfWhole(cut);
    }
    if AllXml(text) {
      XmlIsAllowed(text);
      CleanOfAllowed(text);
    }
  }

  // The failing cells: too long, a carriage return, and a character that XML does not allow.

  lemma {:induction false} LongTextIsLost(text: string, rest: string)
    requires Utf16Length(text) > 32_767
    ensures ReadCell(CellXml(Text(text)) + rest) != Some((ShownText(text), rest))
  {
    hide ReadCell, CellXml, Utf16Length;
    TextSurvivesExactlyWhen(text, rest);
  }

  lemma OneCharacter(ch: char)
    requires !Forbidden(ch)
    ensures TextOf(Text([ch])) == [ch] && Clean([ch]) == [ch]
  {
    assert [ch][1..] == "" && Utf16Length("") == 0;
    CutOfShort([ch], MAX_TEXT);
    CleanOfAllowed([ch]);
  }

  lemma CarriageReturnIsLost(rest: string)
    ensures ReadCell(CellXml(Text(['\r'])) + rest) == Some((ShownText(['\n']), rest))
  {
    hide ReadCell, CellXml, TextOf, Clean, XmlChar, LineEnds;
    CarriageReturnIsXml();
    OneCharacter('\r');
    LineEndsMore('\r', "");
    assert ['\r'] + "" == ['\r'];
    NoLineEnds();
    ReadCellOf(Text(['\r']), rest);
  }

  lemma NoLineEnds()
    ensures LineEnds("") == "" && "\n" + "" == ['\n']
  {
  }

  lemma NoncharacterIsRefused(ch: char, rest: string)
    requires ch as int == 0xfffe || ch as int == 0xffff
    ensures ReadCell(CellXml(Text([ch])) + rest) == None
  {
    hide ReadCell, CellXml, TextOf, Clean, LineEnds;
    OneCharacter(ch);
    assert !XmlChar([ch][0]);
    ReadCellOf(Text([ch]), rest);
  }

  lemma {:induction false} CutWithout(s: string, room: nat, ch: char)
    requires Without(s, ch) && ch != REPLACEMENT
    ensures Without(CutAt(s, room), ch)
  {
    if s != "" && room > 0 && Units(s[0]) <= room {
      CutWithout(s[1..], room - Units(s[0]), ch);
    }
  }

  lemma {:induction false} CleanWithout(s: string, ch: char)
    requires Without(s, ch)
    ensures Without(Clean(s), ch)
  {
    if s != "" {
      CleanWithout(s[1..], ch);
    }
  }

  lemma XmlIsAllowed(s: string)
    requires AllXml(s)
    ensures Allowed(s)
  {
  }

  /** Cleaning that removes nothing changes nothing. */
  lemma {:induction false} CleanOfWhole(s: string)
    requires |Clean(s)| == |s|
    ensures Clean(s) == s
  {
    if s != "" {
      CleanShrinks(s[1..]);
      CleanOfWhole(s[1..]);
      assert s == [s[0]] + s[1..];
    }
  }
}
