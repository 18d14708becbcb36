/** SP_HW4/part3/convert.c: a text dictionary becomes a file of fixed-length records. Each entry
    is a word line, lines of definition, and a blank line. */
module DictionaryFile {
  import opened CStrings

  const WORD: nat := 32
  const TEXT: nat := 480

  /** The two fields, byte by byte. */
  datatype Record = Record(word: string, text: string)

  /** strlen: the characters before the first NUL. */
  function StrLen(s: string): (n: nat)
    ensures n <= |s| && (n < |s| ==> s[n] == '\0') && forall i :: 0 <= i < n ==> s[i] != '\0'
  {
    if s == [] || s[0] == '\0' then 0 else 1 + StrLen(s[1..])
  }

  /** The C string that starts a field or buffer. */
  function CStr(s: string): string { s[..StrLen(s)] }

  lemma {:induction false} CStrOf(w: string, rest: string)
    requires '\0' !in w && (rest == [] || rest[0] == '\0')
    ensures StrLen(w + rest) == |w| && CStr(w + rest) == w
  {
    if w == [] {
      assert w + rest == rest;
    } else {
      assert w[0] != '\0' && (w + rest)[1..] == w[1..] + rest;
      CStrOf(w[1..], rest);
    }
  }

  function Zeros(n: nat): string { seq(n, _ => '\0') }

  function Padded(s: string, n: nat): string
    requires |s| <= n
  {
    s + Zeros(n - |s|)
  }

  // ----- the text file

  /** Raw lines, as getline returns them. */
  datatype Entry = Entry(word: string, lines: seq<string>)

  datatype Definition = Definition(lines: seq<string>, rest: string, complete: bool)

  /** Up to and including the first newline, or everything. */
  function LineLength(s: string): (n: nat)
    requires s != []
    ensures 0 < n <= |s| && (forall i :: 0 <= i < n - 1 ==> s[i] != '\n') && (n < |s| ==> s[n - 1] == '\n')
  {
    if s[0] == '\n' || |s| == 1 then 1 else 1 + LineLength(s[1..])
  }

  /** The lines up to a blank one; not complete if there is none. */
  function ReadDefinition(s: string): (d: Definition)
    ensures |d.rest| <= |s|
    decreases |s|
  {
    if s == [] then Definition([], "", false)
    else
      var n := LineLength(s);
      if s[..n] == "\n" then Definition([], s[n..], true)
      else
        var d := ReadDefinition(s[n..]);
        d.(lines := [s[..n]] + d.lines)
  }

  /** The definition behind the first line. */
  function HeadDefinition(s: string): (d: Definition)
    requires s != []
    ensures |d.rest| < |s|
  {
    ReadDefinition(s[LineLength(s)..])
  }

  function HeadEntry(s: string): Entry
    requires s != []
  {
    Entry(s[..LineLength(s)], HeadDefinition(s).lines)
  }

  /** The entries that are followed by a blank line. */
  function Entries(s: string): seq<Entry>
    decreases |s|
  {
    if s != [] && HeadDefinition(s).complete then [HeadEntry(s)] + Entries(HeadDefinition(s).rest) else []
  }

  // ----- records

  /** The lines, each with a NUL behind it. */
  function TextOf(lines: seq<string>): string {
    if lines == [] then "" else CStr(lines[0]) + ("\0" + TextOf(lines[1..]))
  }

  predicate Fits(e: Entry) { StrLen(e.word) + 1 <= WORD && |TextOf(e.lines)| <= TEXT }

  function RecordOf(e: Entry): Record
    requires Fits(e)
  {
    Record(Padded(CStr(e.word), WORD), Padded(TextOf(e.lines), TEXT))
  }

  predicate AllFit(entries: seq<Entry>) { forall i :: 0 <= i < |entries| ==> Fits(entries[i]) }

  function Records(entries: seq<Entry>): seq<Record>
    requires AllFit(entries)
  {
    seq(|entries|, i requires 0 <= i < |entries| => RecordOf(entries[i]))
  }

  /** What the buffers of the program are sized for; the entry that the file leaves incomplete is
      read into them as well. */
  predicate FileFits(s: string)
    decreases |s|
  {
    s == [] || (Fits(HeadEntry(s)) && (HeadDefinition(s).complete ==> FileFits(HeadDefinition(s).rest)))
  }

  lemma {:induction false} FileFitsEntries(s: string)
    requires FileFits(s)
    ensures AllFit(Entries(s))
    decreases |s|
  {
    if s != [] && HeadDefinition(s).complete {
      FileFitsEntries(HeadDefinition(s).rest);
    }
  }

  // ----- printing and reading back

  /** A full line: one newline, at its end. */
  predicate IsLine(line: string) {
    line != [] && line[|line| - 1] == '\n' && forall i :: 0 <= i < |line| - 1 ==> line[i] != '\n'
  }

  predicate IsEntry(e: Entry) {
    IsLine(e.word) && forall i :: 0 <= i < |e.lines| ==> IsLine(e.lines[i]) && e.lines[i] != "\n"
  }

  function PrintLines(lines: seq<string>): string {
    if lines == [] then "" else lines[0] + PrintLines(lines[1..])
  }

  /** The text of a dictionary. */
  function Print(entries: seq<Entry>): string {
    if entries == [] then ""
    else entries[0].word + (PrintLines(entries[0].lines) + ("\n" + Print(entries[1..])))
  }

  lemma {:induction false} LineLengthOf(line: string, rest: string)
    requires IsLine(line)
    ensures LineLength(line + rest) == |line|
    ensures (line + rest)[..|line|] == line && (line + rest)[|line|..] == rest
  {
    if |line| > 1 {
      assert line[0] != '\n' && (line + rest)[1..] == line[1..] + rest;
      LineLengthOf(line[1..], rest);
    }
  }

  lemma DefinitionLine(line: string, rest: string)
    requires IsLine(line) && line != "\n"
    ensures var d := ReadDefinition(rest);
      ReadDefinition(line + rest) == Definition([line] + d.lines, d.rest, d.complete)
  {
    LineLengthOf(line, rest);
  }

  lemma DefinitionEnd(tail: string)
    ensures ReadDefinition("\n" + tail) == Definition([], tail, true)
  {
    LineLengthOf("\n", tail);
  }

  lemma PrintLinesSplit(lines: seq<string>, tail: string)
    requires lines != []
    ensures PrintLines(lines) + tail == lines[0] + (PrintLines(lines[1..]) + tail)
  {
  }

  lemma {:induction false} DefinitionOfPrint(lines: seq<string>, tail: string)
    requires forall i :: 0 <= i < |lines| ==> IsLine(lines[i]) && lines[i] != "\n"
    ensures ReadDefinition(PrintLines(lines) + ("\n" + tail)) == Definition(lines, tail, true)
  {
    if lines == [] {
      DefinitionEnd(tail);
      assert PrintLines(lines) + ("\n" + tail) == "\n" + tail;
    } else {
      DefinitionOfPrint(lines[1..], tail);
      DefinitionLine(lines[0], PrintLines(lines[1..]) + ("\n" + tail));
      PrintLinesSplit(lines, "\n" + tail);
    }
  }

  lemma EntryOfPrint(e: Entry, tail: string)
    requires IsEntry(e)
    ensures var s := e.word + (PrintLines(e.lines) + ("\n" + tail));
      s != [] && HeadEntry(s) == e && HeadDefinition(s).complete && HeadDefinition(s).rest == tail
  {
    DefinitionOfPrint(e.lines, tail);
    LineLengthOf(e.word, PrintLines(e.lines) + ("\n" + tail));
  }

  lemma PrintSplit(entries: seq<Entry>, tail: string)
    requires entries != []
    ensures Print(entries) + tail
            == entries[0].word + (PrintLines(entries[0].lines) + ("\n" + (Print(entries[1..]) + tail)))
  {
  }

  lemma ConsAppend<T>(s: seq<T>, t: seq<T>)
    requires s != []
    ensures [s[0]] + (s[1..] + t) == s + t
  {
  }

  /** Reading a printed dictionary gives its entries back, in order, and goes on with what
      follows it. */
  lemma {:induction false} EntriesOfPrint(entries: seq<Entry>, tail: string)
    requires forall i :: 0 <= i < |entries| ==> IsEntry(entries[i])
    ensures Entries(Print(entries) + tail) == entries + Entries(tail)
  {
    if entries == [] {
      assert Print(entries) + tail == tail;
    } else {
      EntriesOfPrint(entries[1..], tail);
      EntryOfPrint(entries[0], Print(entries[1..]) + tail);
      PrintSplit(entries, tail);
      ConsAppend(entries, Entries(tail));
    }
  }

  /** Two newlines in a row: a line that ends before a blank one. */
  predicate HasBlankLine(s: string) {
    |s| >= 2 && ((s[0] == '\n' && s[1] == '\n') || HasBlankLine(s[1..]))
  }

  lemma HasBlankLineCons(s: string)
    requires s != []
    ensures HasBlankLine("\n" + s) <==> s[0] == '\n' || HasBlankLine(s)
  {
    assert ("\n" + s)[1..] == s;
  }

  lemma {:induction false} BlankLineBehind(s: string)
    requires s != []
    ensures HasBlankLine(s) <==> HasBlankLine("\n" + s[LineLength(s)..])
  {
    if s[0] == '\n' {
      assert s == "\n" + s[1..];
    } else if |s| > 1 {
      BlankLineBehind(s[1..]);
      assert s[1..][LineLength(s[1..])..] == s[LineLength(s)..];
    }
  }

  lemma {:induction false} CompleteIff(s: string)
    ensures ReadDefinition(s).complete <==> HasBlankLine("\n" + s)
    decreases |s|
  {
    if s != [] {
      CompleteIff(s[LineLength(s)..]);
      HasBlankLineCons(s);
      BlankLineBehind(s);
      assert s[..LineLength(s)] == "\n" <==> s[0] == '\n';
    }
  }

  /** A text has no entry exactly when it has no blank line behind its first line: what is left
      unterminated at the end of a file is dropped. */
  lemma NoEntryIff(s: string)
    ensures Entries(s) == [] <==> !HasBlankLine(s)
  {
    if s != [] {
      CompleteIff(s[LineLength(s)..]);
      BlankLineBehind(s);
    }
  }

  // ----- every file is a printed dictionary and a rest

  lemma FirstLine(s: string)
    requires s != []
    ensures var n := LineLength(s);
      s == s[..n] + s[n..] && (n < |s| ==> IsLine(s[..n]))
  {
  }

  predicate AreDefinition(lines: seq<string>) {
    forall i :: 0 <= i < |lines| ==> IsLine(lines[i]) && lines[i] != "\n"
  }

  lemma DefinitionCons(line: string, lines: seq<string>)
    requires AreDefinition(lines) && IsLine(line) && line != "\n"
    ensures AreDefinition([line] + lines)
    ensures PrintLines([line] + lines) == line + PrintLines(lines)
  {
    assert ([line] + lines)[1..] == lines;
  }

  lemma Reassociate(a: string, b: string, c: string)
    ensures a + (b + c) == (a + b) + c
  {
  }

  lemma {:induction false} DefinitionIsPrinted(s: string)
    requires ReadDefinition(s).complete
    ensures var d := ReadDefinition(s);
      AreDefinition(d.lines) && s == PrintLines(d.lines) + ("\n" + d.rest)
    decreases |s|
  {
    var n := LineLength(s);
    FirstLine(s);
    if s[..n] == "\n" {
      assert PrintLines([]) + ("\n" + s[n..]) == "\n" + s[n..];
    } else {
      var d := ReadDefinition(s[n..]);
      DefinitionIsPrinted(s[n..]);
      DefinitionCons(s[..n], d.lines);
      Reassociate(s[..n], PrintLines(d.lines), "\n" + d.rest);
    }
  }

  lemma HeadIsPrinted(s: string)
    requires s != [] && HeadDefinition(s).complete
    ensures var e := HeadEntry(s);
      IsEntry(e) && s == e.word + (PrintLines(e.lines) + ("\n" + HeadDefinition(s).rest))
  {
    FirstLine(s);
    DefinitionIsPrinted(s[LineLength(s)..]);
  }

  lemma PrintCons(e: Entry, entries: seq<Entry>, tail: string)
    ensures Print([e] + entries) + tail == e.word + (PrintLines(e.lines) + ("\n" + (Print(entries) + tail)))
  {
    PrintSplit([e] + entries, tail);
    assert ([e] + entries)[1..] == entries;
  }

  /** Any text is the print of its entries and a rest without an entry. */
  lemma {:induction false} FileIsPrinted(s: string) returns (tail: string)
    ensures forall i :: 0 <= i < |Entries(s)| ==> IsEntry(Entries(s)[i])
    ensures s == Print(Entries(s)) + tail && Entries(tail) == []
    decreases |s|
  {
    if s != [] && HeadDefinition(s).complete {
      HeadIsPrinted(s);
      tail := FileIsPrinted(HeadDefinition(s).rest);
      PrintCons(HeadEntry(s), Entries(HeadDefinition(s).rest), tail);
    } else {
      tail := s;
      assert Print([]) + s == s;
    }
  }

  /** So the entries of a text are `entries` exactly when it is their print and a rest in which no
      blank line follows the first line. */
  lemma EntriesIff(s: string, entries: seq<Entry>)
    ensures Entries(s) == entries <==>
      && (forall i :: 0 <= i < |entries| ==> IsEntry(entries[i]))
      && exists tail :: s == Print(entries) + tail && !HasBlankLine(tail)
  {
    if Entries(s) == entries {
      var tail := FileIsPrinted(s);
      NoEntryIff(tail);
    }
    if (forall i :: 0 <= i < |entries| ==> IsEntry(entries[i]))
       && exists tail :: s == Print(entries) + tail && !HasBlankLine(tail) {
      var tail :| s == Print(entries) + tail && !HasBlankLine(tail);
      EntriesOfPrint(entries, tail);
      NoEntryIff(tail);
      assert entries + [] == entries;
    }
  }

  /** The strings in a text field, which end at an empty one. */
  function Strings(text: string): seq<string>
    decreases |text|
  {
    var n := StrLen(text);
    if n == 0 then []
    else [text[..n]] + (if n < |text| then Strings(text[n + 1..]) else [])
  }

  lemma FirstString(line: string, rest: string)
    requires '\0' !in line
    ensures var text := line + ("\0" + rest);
      StrLen(text) == |line| < |text| && text[..|line|] == line && text[|line| + 1..] == rest
  {
    CStrOf(line, "\0" + rest);
  }

  lemma StringsCons(text: string, n: nat)
    requires 0 < n == StrLen(text) < |text|
    ensures Strings(text) == [text[..n]] + Strings(text[n + 1..])
  {
  }

  lemma TextOfSplit(lines: seq<string>, tail: string)
    requires lines != [] && '\0' !in lines[0]
    ensures TextOf(lines) + tail == lines[0] + ("\0" + (TextOf(lines[1..]) + tail))
  {
    CStrOf(lines[0], "");
    assert lines[0] + "" == lines[0];
  }

  /** Splitting the text field at its NULs gives back the lines of the definition. */
  lemma {:induction false} StringsOfText(lines: seq<string>, k: nat)
    requires forall i :: 0 <= i < |lines| ==> lines[i] != [] && '\0' !in lines[i]
    ensures Strings(TextOf(lines) + Zeros(k)) == lines
  {
    if lines == [] {
      assert TextOf(lines) + Zeros(k) == Zeros(k);
    } else {
      StringsOfText(lines[1..], k);
      TextOfSplit(lines, Zeros(k));
      FirstString(lines[0], TextOf(lines[1..]) + Zeros(k));
      StringsCons(TextOf(lines) + Zeros(k), |lines[0]|);
    }
  }

  predicate NoNul(e: Entry) {
    '\0' !in e.word && forall i :: 0 <= i < |e.lines| ==> '\0' !in e.lines[i]
  }

  /** The length of lines with a NUL behind each. */
  function TextLength(lines: seq<string>): nat {
    if lines == [] then 0 else |lines[0]| + 1 + TextLength(lines[1..])
  }

  lemma {:induction false} TextOfLength(lines: seq<string>)
    requires forall i :: 0 <= i < |lines| ==> '\0' !in lines[i]
    ensures |TextOf(lines)| == TextLength(lines)
  {
    if lines != [] {
      TextOfLength(lines[1..]);
      CStrOf(lines[0], "");
      assert lines[0] + "" == lines[0];
    }
  }

  lemma PaddedHolds(s: string, n: nat)
    requires '\0' !in s && |s| <= n
    ensures |Padded(CStr(s), n)| == n && CStr(Padded(CStr(s), n)) == s
  {
    CStrOf(s, "");
    assert s + "" == s;
    CStrOf(s, Zeros(n - |s|));
  }

  lemma TextHolds(lines: seq<string>, n: nat)
    requires forall i :: 0 <= i < |lines| ==> lines[i] != [] && '\0' !in lines[i]
    requires |TextOf(lines)| <= n
    ensures |Padded(TextOf(lines), n)| == n && Strings(Padded(TextOf(lines), n)) == lines
  {
    StringsOfText(lines, n - |TextOf(lines)|);
  }

  /** The record of an entry holds its word line, its text field all its lines, and everything
      behind them is NUL. */
  lemma RecordHolds(e: Entry)
    requires IsEntry(e) && NoNul(e) && Fits(e)
    ensures |RecordOf(e).word| == 32 && |RecordOf(e).text| == 480
    ensures CStr(RecordOf(e).word) == e.word && Strings(RecordOf(e).text) == e.lines
    ensures forall i :: |e.word| <= i < WORD ==> RecordOf(e).word[i] == '\0'
    ensures forall i :: TextLength(e.lines) <= i < TEXT ==> RecordOf(e).text[i] == '\0'
  {
    TextOfLength(e.lines);
    PaddedHolds(e.word, WORD);
    TextHolds(e.lines, TEXT);
  }

  lemma RecordsCons(e: Entry, entries: seq<Entry>)
    requires Fits(e) && AllFit(entries)
    ensures AllFit([e] + entries) && Records([e] + entries) == [RecordOf(e)] + Records(entries)
  {
  }

  /** The records of a file. */
  function Converted(s: string): seq<Record>
    requires FileFits(s)
  {
    FileFitsEntries(s);
    Records(Entries(s))
  }

  lemma ConvertedCons(s: string)
    requires FileFits(s) && s != [] && HeadDefinition(s).complete
    ensures FileFits(HeadDefinition(s).rest) && Fits(HeadEntry(s))
    ensures Converted(s) == [RecordOf(HeadEntry(s))] + Converted(HeadDefinition(s).rest)
  {
    FileFitsEntries(s);
    FileFitsEntries(HeadDefinition(s).rest);
    RecordsCons(HeadEntry(s), Entries(HeadDefinition(s).rest));
  }

  lemma Snoc<T>(s: seq<T>, x: T, t: seq<T>, u: seq<T>)
    requires u == [x] + t
    ensures s + u == (s + [x]) + t
  {
  }

  /** `out` and the records still to come from `s` are all the records. */
  predicate Progress(all: seq<Record>, out: seq<Record>, s: string) { FileFits(s) && all == out + Converted(s) }

  lemma ProgressStart(s: string)
    requires FileFits(s)
    ensures Progress(Converted(s), [], s)
  {
    assert [] + Converted(s) == Converted(s);
  }

  lemma ProgressTurn(all: seq<Record>, out: seq<Record>, s: string)
    requires Progress(all, out, s) && s != [] && HeadDefinition(s).complete
    ensures Progress(all, out + [RecordOf(HeadEntry(s))], HeadDefinition(s).rest)
  {
    ConvertedCons(s);
    Snoc(out, RecordOf(HeadEntry(s)), Converted(HeadDefinition(s).rest), Converted(s));
  }

  lemma ProgressEnd(all: seq<Record>, out: seq<Record>, s: string)
    requires Progress(all, out, s) && (s == [] || !HeadDefinition(s).complete)
    ensures all == out
  {
    assert Converted(s) == [];
    assert out + [] == out;
  }

  lemma {:induction false} FileFitsPrint(entries: seq<Entry>, tail: string)
    requires AllFit(entries) && FileFits(tail)
    requires forall i :: 0 <= i < |entries| ==> IsEntry(entries[i])
    ensures FileFits(Print(entries) + tail)
  {
    if entries == [] {
      assert Print(entries) + tail == tail;
    } else {
      FileFitsPrint(entries[1..], tail);
      EntryOfPrint(entries[0], Print(entries[1..]) + tail);
      PrintSplit(entries, tail);
    }
  }

  /** Converting a printed dictionary gives one record per entry, in order; an unterminated entry
      at the end is dropped. */
  lemma ConvertedPrint(entries: seq<Entry>, tail: string)
    requires forall i :: 0 <= i < |entries| ==> IsEntry(entries[i])
    requires AllFit(entries) && FileFits(tail) && !HasBlankLine(tail)
    ensures FileFits(Print(entries) + tail) && Converted(Print(entries) + tail) == Records(entries)
  {
    FileFitsPrint(entries, tail);
    EntriesOfPrint(entries, tail);
    NoEntryIff(tail);
    assert entries + [] == entries;
  }

  /** Of definition `d` the lines that make up `text` were read, and `now` is still to come. */
  predicate IsRest(d: Definition, text: string, now: Definition) {
    now.rest == d.rest && now.complete == d.complete && text + TextOf(now.lines) == TextOf(d.lines)
  }

  lemma TextOfRest(d: Definition, text: string, now: Definition)
    requires IsRest(d, text, now) && now.lines != []
    ensures var line := CStr(now.lines[0]) + "\0";
      |text| + |line| <= |TextOf(d.lines)| && IsRest(d, text + line, now.(lines := now.lines[1..]))
  {
    var line := CStr(now.lines[0]);
    assert text + (line + ("\0" + TextOf(now.lines[1..]))) == (text + (line + "\0")) + TextOf(now.lines[1..]);
  }

  // ----- the program

  class Converter {
    const word: array<char>  // the static record `blank`
    const text: array<char>
    var rest: string         // the input not yet read
    var eof: bool            // feof(in)
    var out: seq<Record>

    ghost predicate Valid()
      reads this
    {
      word.Length == WORD && text.Length == TEXT && (eof ==> rest == [])
    }

    constructor (file: string)
      ensures Valid() && fresh(word) && fresh(text) && rest == file && !eof && out == []
    {
      word := new char[WORD];
      text := new char[TEXT];
      rest, eof, out := file, false, [];
    }

    /** getline: None is -1. End of file is noticed only when the line has no newline. */
    method GetLine() returns (line: Option<string>)
      requires Valid()
      modifies `rest, `eof
      ensures Valid()
      ensures old(rest) == [] ==> line == None && rest == [] && eof
      ensures old(rest) != [] ==>
        var n := LineLength(old(rest));
        && line == Some(old(rest)[..n]) && rest == old(rest)[n..]
        && eof == (old(rest)[n - 1] != '\n')
    {
      if rest == [] {
        eof := true;
        return None;
      }
      var n := LineLength(rest);
      line := Some(rest[..n]);
      eof := rest[n - 1] != '\n';
      rest := rest[n..];
    }

    method Clear()
      requires Valid()
      modifies word, text
      ensures word[..] == Zeros(WORD) && text[..] == Zeros(TEXT)
    {
      for k := 0 to TEXT
        invariant forall i :: 0 <= i < k ==> text[i] == '\0'
      {
        text[k] := '\0';
      }
      for k := 0 to WORD
        invariant forall i :: 0 <= i < k ==> word[i] == '\0'
        invariant text[..] == Zeros(TEXT)
      {
        word[k] := '\0';
      }
    }

    /** The loop that fills the word field, which stops early at an empty line. */
    method CopyWord(line: string)
      requires Valid() && word[..] == Zeros(WORD) && StrLen(line) + 1 <= WORD
      requires line != [] && (line[0] == '\n' ==> |line| == 1)
      modifies word
      ensures word[..] == Padded(CStr(line), WORD)
    {
      var i := 0;
      while i < StrLen(line) + 1
        invariant i <= StrLen(line) + 1
        invariant forall k :: 0 <= k < i && k < StrLen(line) ==> word[k] == line[k]
        invariant forall k :: 0 <= k < WORD && (k >= i || k >= StrLen(line)) ==> word[k] == '\0'
      {
        word[i] := if i < |line| then line[i] else '\0';
        if i == 0 && word[0] == '\n' {
          break;
        }
        i := i + 1;
      }
    }

    /** The loop that appends one line of the definition, NUL included. */
    method AppendLine(line: string, index: nat) returns (next: nat)
      requires Valid() && index + StrLen(line) + 1 <= TEXT && text[index..] == Zeros(TEXT - index)
      modifies text
      ensures next == index + StrLen(line) + 1
      ensures text[..next] == old(text[..index]) + (CStr(line) + "\0") && text[next..] == Zeros(TEXT - next)
    {
      ghost var before, added := text[..index], CStr(line) + "\0";
      var j := 0;
      next := index;
      while j < StrLen(line) + 1
        invariant j <= |added| && next == index + j
        invariant forall k :: 0 <= k < index ==> text[k] == before[k]
        invariant forall k :: index <= k < next ==> text[k] == added[k - index]
        invariant forall k :: next <= k < TEXT ==> text[k] == '\0'
      {
        text[next] := if j < |line| then line[j] else '\0';
        j, next := j + 1, next + 1;
      }
      assert text[..next] == before + added;
    }

    /** The inner loop over the definition. */
    method ReadText() returns (ghost d: Definition)
      requires Valid() && text[..] == Zeros(TEXT)
      requires |TextOf(ReadDefinition(rest).lines)| <= TEXT
      modifies text, `rest, `eof
      ensures Valid() && d == ReadDefinition(old(rest)) && rest == d.rest && eof == !d.complete
      ensures text[..] == Padded(TextOf(d.lines), TEXT)
    {
      d := ReadDefinition(rest);
      var index: nat, done := 0, false;
      while !done
        invariant Valid() && index <= TEXT && text[index..] == Zeros(TEXT - index)
        invariant !done ==> IsRest(d, text[..index], ReadDefinition(rest))
        invariant done ==> rest == d.rest && eof == !d.complete && text[..index] == TextOf(d.lines)
        decreases if done then 0 else |rest| + 1
      {
        ghost var now, before := ReadDefinition(rest), text[..index];
        var line := GetLine();
        if line.None? || line.value == "\n" {
          done := true;
        } else {
          TextOfRest(d, before, now);
          index := AppendLine(line.value, index);
        }
      }
    }

    /** One turn of the main loop: a record goes out unless the file ended. */
    method ReadEntry()
      requires Valid() && FileFits(rest)
      modifies this`rest, this`eof, this`out, word, text
      ensures Valid() && (old(rest) == [] ==> eof)
      ensures old(rest) != [] ==> eof == !HeadDefinition(old(rest)).complete && rest == HeadDefinition(old(rest)).rest
      ensures out == if eof then old(out) else old(out) + [RecordOf(HeadEntry(old(rest)))]
    {
      Clear();
      var buffer := GetLine();
      if buffer.Some? {
        CopyWord(buffer.value);
      }
      var d := ReadText();
      if !eof {
        out := out + [Record(word[..], text[..])];
      }
    }

    /** The main loop. */
    method Convert()
      requires Valid() && !eof && FileFits(rest) && out == []
      modifies this`rest, this`eof, this`out, word, text
      ensures out == Converted(old(rest))
    {
      ghost var all := Converted(rest);
      ProgressStart(rest);
      while !eof
        invariant Valid() && if eof then out == all else Progress(all, out, rest)
        decreases if eof then 0 else |rest| + 1
      {
        ghost var before := rest;
        if before == [] || !HeadDefinition(before).complete {
          ProgressEnd(all, out, before);
        } else {
          ProgressTurn(all, out, before);
        }
        ReadEntry();
      }
    }
  }
}
