/** How the shell of SP_HW4/part2 reads a line and prepares the child's argument vector:
    parse.c, is_background.c, redirect_in.c, redirect_out.c, pipe_present.c and run_command.c. */
module CommandLine {
  import opened CStrings
  import opened Common

  const DELIM := " \t\n"

  // ----- parse

  /** A NULL-terminated vector; None is NULL. */
  type Argv = seq<Option<string>>

  /** The strings before the first NULL. */
  function Words(v: Argv): seq<string> {
    if v == [] || v[0].None? then [] else [v[0].value] + Words(v[1..])
  }

  /** Some entry is NULL. */
  predicate Terminated(v: Argv) { |Words(v)| < |v| }

  function WithNull(words: seq<string>): Argv {
    seq(|words|, i requires 0 <= i < |words| => Some(words[i])) + [None]
  }

  /** The tokens from `token` on, when strtok has returned `token` and stands at `rest`. */
  function ToCome(token: Option<string>, rest: string): seq<string> {
    if token.None? then [] else [token.value] + Tokens(rest, DELIM)
  }

  lemma NoTokens()
    ensures Tokens("\n", DELIM) == []
  {
    TokensOfBlank("\n", "", DELIM);
    assert "\n" + "" == "\n";
  }

  /** One call of strtok: skip delimiters, take a word, and step over the delimiter after it. */
  method StrTok(s: string) returns (token: Option<string>, rest: string)
    ensures Tokens(s, DELIM) == ToCome(token, rest)
    ensures token.Some? ==> |rest| < |s|
  {
    rest := s;
    while rest != [] && rest[0] in DELIM
      invariant Tokens(rest, DELIM) == Tokens(s, DELIM) && |rest| <= |s|
      decreases |rest|
    {
      rest := rest[1..];
    }
    if rest == [] {
      return None, rest;
    }
    var n := WordLength(rest, DELIM);
    token := Some(rest[..n]);
    rest := if n < |rest| then rest[n + 1..] else [];
  }

  /** `parse`: None for a line without tokens, or else the tokens followed by NULL. */
  method Parse(line: string) returns (argv: Option<Argv>)
    ensures argv == if Tokens(line, DELIM) == [] then None else Some(WithNull(Tokens(line, DELIM)))
  {
    if line == "\n" {
      NoTokens();
      return None;
    }
    var token, rest := StrTok(line);
    if token.None? {
      return None;
    }
    var newArgv: seq<string> := [token.value];
    token, rest := StrTok(rest);
    while token.Some?
      invariant newArgv != []
      invariant Tokens(line, DELIM) == newArgv + ToCome(token, rest)
      decreases if token.Some? then |rest| + 1 else 0
    {
      ghost var before, found := newArgv, token;
      newArgv := newArgv + [token.value];
      token, rest := StrTok(rest);
      assert before + ([found.value] + ToCome(token, rest)) == newArgv + ToCome(token, rest);
    }
    assert newArgv == Tokens(line, DELIM);
    return Some(WithNull(newArgv));
  }

  /** `tokens` written out with the given blanks before, between and after them. */
  function Render(tokens: seq<string>, blanks: seq<string>): string
    requires |blanks| == |tokens| + 1
  {
    if tokens == [] then blanks[0] else blanks[0] + (tokens[0] + Render(tokens[1..], blanks[1..]))
  }

  /** Blanks of spaces, tabs and newlines only, and at least one between two tokens. */
  predicate Separates(blanks: seq<string>, tokens: seq<string>) {
    && |blanks| == |tokens| + 1
    && (forall i :: 0 <= i < |blanks| ==> IsBlank(blanks[i], " \t\n"))
    && (forall i :: 0 < i < |tokens| ==> blanks[i] != [])
  }

  predicate AreWords(tokens: seq<string>) {
    forall i :: 0 <= i < |tokens| ==> IsWord(tokens[i], " \t\n")
  }

  ghost predicate IsRendering(line: string, tokens: seq<string>) {
    AreWords(tokens) && exists blanks :: Separates(blanks, tokens) && line == Render(tokens, blanks)
  }

  lemma {:induction false} RenderStart(tokens: seq<string>, blanks: seq<string>)
    requires Separates(blanks, tokens) && blanks[0] != []
    ensures Render(tokens, blanks) != [] && Render(tokens, blanks)[0] in DELIM
  {
  }

  lemma {:induction false} TokensOfRender(tokens: seq<string>, blanks: seq<string>)
    requires AreWords(tokens) && Separates(blanks, tokens)
    ensures Tokens(Render(tokens, blanks), DELIM) == tokens
  {
    if tokens == [] {
      TokensOfBlank(blanks[0], "", DELIM);
      assert blanks[0] + "" == blanks[0];
    } else {
      var rest := Render(tokens[1..], blanks[1..]);
      TokensOfRender(tokens[1..], blanks[1..]);
      TokensOfBlank(blanks[0], tokens[0] + rest, DELIM);
      assert IsBlank(blanks[1], DELIM);
      if blanks[1] != [] {
        RenderStart(tokens[1..], blanks[1..]);
      } else {
        assert tokens[1..] == [] && rest == [];
      }
      TokensOfWord(tokens[0], rest, DELIM);
    }
  }

  lemma RenderMoreBlank(tokens: seq<string>, blanks: seq<string>, b: string)
    requires Separates(blanks, tokens) && IsBlank(b, DELIM)
    ensures Separates(blanks[0 := b + blanks[0]], tokens)
    ensures Render(tokens, blanks[0 := b + blanks[0]]) == b + Render(tokens, blanks)
  {
    var longer := blanks[0 := b + blanks[0]];
    assert longer[1..] == blanks[1..];
    if tokens != [] {
      var rest := tokens[0] + Render(tokens[1..], blanks[1..]);
      assert b + blanks[0] + rest == b + (blanks[0] + rest);
    }
  }

  lemma RenderMoreWord(w: string, tokens: seq<string>, blanks: seq<string>)
    requires Separates(blanks, tokens) && (tokens != [] ==> blanks[0] != [])
    ensures Separates([""] + blanks, [w] + tokens)
    ensures Render([w] + tokens, [""] + blanks) == w + Render(tokens, blanks)
  {
    assert ([""] + blanks)[1..] == blanks && ([w] + tokens)[1..] == tokens;
    assert "" + (w + Render(tokens, blanks)) == w + Render(tokens, blanks);
  }

  /** Every line is a rendering of its tokens. */
  lemma {:induction false} LineIsRendering(line: string) returns (blanks: seq<string>)
    ensures Separates(blanks, Tokens(line, DELIM)) && line == Render(Tokens(line, DELIM), blanks)
    ensures line != [] && line[0] in DELIM ==> blanks[0] != []
    decreases |line|
  {
    if line == [] {
      blanks := [""];
    } else if line[0] in DELIM {
      var b := LineIsRendering(line[1..]);
      RenderMoreBlank(Tokens(line[1..], DELIM), b, line[..1]);
      blanks := b[0 := line[..1] + b[0]];
    } else {
      var n := WordLength(line, DELIM);
      var rest := line[n..];
      var b := LineIsRendering(rest);
      assert rest != [] ==> rest[0] == line[n];
      RenderMoreWord(line[..n], Tokens(rest, DELIM), b);
      blanks := [""] + b;
    }
  }

  /** Parsing gives `tokens` exactly for the blank-separated renderings of `tokens`. */
  lemma ParseIff(line: string, tokens: seq<string>)
    ensures Tokens(line, DELIM) == tokens <==> IsRendering(line, tokens)
  {
    if Tokens(line, DELIM) == tokens {
      var blanks := LineIsRendering(line);
      TokensAreWords(line, DELIM);
    }
    if IsRendering(line, tokens) {
      var blanks :| Separates(blanks, tokens) && line == Render(tokens, blanks);
      TokensOfRender(tokens, blanks);
    }
  }

  // ----- vectors changed in place

  lemma {:induction false} WordsAt(v: Argv)
    ensures |Words(v)| <= |v|
    ensures forall i :: 0 <= i < |Words(v)| ==> v[i] == Some(Words(v)[i])
    ensures |Words(v)| < |v| ==> v[|Words(v)|] == None
  {
    if v != [] && v[0].Some? {
      WordsAt(v[1..]);
      assert v == [v[0]] + v[1..];
    }
  }

  lemma {:induction false} WordsOf(v: Argv, words: seq<string>)
    requires |words| < |v| && v[|words|].None?
    requires forall i :: 0 <= i < |words| ==> v[i] == Some(words[i])
    ensures Words(v) == words && Terminated(v)
  {
    if words != [] {
      WordsOf(v[1..], words[1..]);
    }
  }

  lemma {:induction false} WordsFrom(v: Argv, k: nat)
    requires k <= |Words(v)|
    ensures k <= |v| && Words(v[k..]) == Words(v)[k..]
    ensures Terminated(v) ==> Terminated(v[k..])
  {
    WordsAt(v);
    if k > 0 {
      WordsFrom(v[1..], k - 1);
      assert v[k..] == v[1..][k - 1..];
    }
  }

  // ----- searching

  function UpTo(words: seq<string>, w: string): seq<string> { words[..First(words, w)] }

  /** The search loop shared by is_background, redirect_in, redirect_out and pipe_present. */
  method Search(v: Argv, w: string) returns (i: nat)
    requires Terminated(v)
    ensures i == First(Words(v), w) && i < |v|
    ensures v[i] == if i < |Words(v)| then Some(w) else None
  {
    ghost var words := Words(v);
    WordsAt(v);
    i := 0;
    while v[i].Some? && v[i].value != w
      invariant 0 <= i <= |words|
      invariant forall k :: 0 <= k < i ==> words[k] != w
      decreases |words| - i
    {
      i := i + 1;
    }
    FirstIs(words, w, i);
  }

  // ----- is_background, redirect_in, redirect_out, pipe_present

  /** 0 both when there is no "&" and when it comes first. */
  function BackgroundIndex(words: seq<string>): nat {
    if First(words, "&") < |words| then First(words, "&") else 0
  }

  lemma InWords(words: seq<string>, w: string)
    ensures w in words <==> First(words, w) < |words|
  {
  }

  /** The line asks for the background: an "&" that is not its first word. */
  predicate InBackground(words: seq<string>) { "&" in words && words[0] != "&" }

  /** The index is that of the first "&" of such a line, and 0 on every other. */
  lemma BackgroundIff(words: seq<string>)
    ensures BackgroundIndex(words) > 0 <==> InBackground(words)
    ensures BackgroundIndex(words) > 0 ==>
      && BackgroundIndex(words) < |words| && words[BackgroundIndex(words)] == "&"
      && forall k :: 0 <= k < BackgroundIndex(words) ==> words[k] != "&"
  {
    InWords(words, "&");
  }

  method IsBackground(v: Argv) returns (i: nat)
    requires Terminated(v)
    ensures i == BackgroundIndex(Words(v))
    ensures i > 0 <==> "&" in Words(v) && Words(v)[0] != "&"
  {
    WordsAt(v);
    BackgroundIff(Words(v));
    if v[0].None? {
      return 0;
    }
    i := Search(v, "&");
    if v[i].None? {
      return 0;
    }
  }

  /** The name given to freopen, which is NULL when the operator is the last word. */
  datatype Redirection = Kept | Reopened(name: Option<string>)

  function NameAt(words: seq<string>, i: nat): Option<string> {
    if i < |words| then Some(words[i]) else None
  }

  function RedirectionAt(words: seq<string>, op: string): Redirection {
    if First(words, op) < |words| then Reopened(NameAt(words, First(words, op) + 1)) else Kept
  }

  /** The word behind the first operator is what is opened. */
  lemma RedirectionNamed(words: seq<string>, op: string, i: nat)
    ensures op !in words ==> RedirectionAt(words, op) == Kept
    ensures i < |words| && words[i] == op && op !in words[..i] ==>
      RedirectionAt(words, op) == Reopened(if i + 1 < |words| then Some(words[i + 1]) else None)
  {
    InWords(words, op);
    if i < |words| && words[i] == op && op !in words[..i] {
      assert forall k :: 0 <= k < i ==> words[k] == words[..i][k];
      FirstIs(words, op, i);
    }
  }

  /** `redirect_in` with "<" and `redirect_out` with ">". */
  method Redirect(argv: array<Option<string>>, op: string) returns (r: Redirection)
    requires Terminated(argv[..])
    modifies argv
    ensures Terminated(argv[..])
    ensures Words(argv[..]) == UpTo(old(Words(argv[..])), op)
    ensures r == RedirectionAt(old(Words(argv[..])), op)
  {
    ghost var words := Words(argv[..]);
    WordsAt(argv[..]);
    var i := Search(argv[..], op);
    if argv[i].None? {
      return Kept;
    }
    r := Reopened(argv[i + 1]);
    argv[i] := None;
    argv[i + 1] := None;
    WordsOf(argv[..], words[..i]);
  }

  /** -1 if the first or the last word is "|", 0 if no word is, and its index otherwise. */
  function PipeIndex(words: seq<string>): int
    requires words != []
  {
    if words[0] == "|" || words[|words| - 1] == "|" then -1
    else if First(words, "|") == |words| then 0
    else First(words, "|")
  }

  /** The second loop of pipe_present: how many words come before the NULL. */
  method Length(v: Argv) returns (n: nat)
    requires Terminated(v)
    ensures n == |Words(v)|
  {
    WordsAt(v);
    n := 0;
    while v[n].Some?
      invariant 0 <= n <= |Words(v)|
      decreases |Words(v)| - n
    {
      n := n + 1;
    }
  }

  lemma PipeInside(words: seq<string>)
    requires words != [] && PipeIndex(words) > 0
    ensures PipeIndex(words) == First(words, "|") < |words| - 1 && words[|words| - 1] != "|"
  {
  }

  /** Like the code, this needs a first word. */
  method PipePresent(v: Argv) returns (index: int)
    requires Terminated(v) && Words(v) != []
    ensures index == PipeIndex(Words(v))
  {
    WordsAt(v);
    var k := Search(v, "|");
    var i := Length(v);
    if v[0] == Some("|") || v[i - 1] == Some("|") {
      return -1;
    } else if v[k].None? {
      return 0;
    } else {
      return k;
    }
  }

  // ----- run_command

  function WithoutBackground(words: seq<string>): seq<string> {
    if BackgroundIndex(words) > 0 then UpTo(words, "&") else words
  }

  /** What the child's vector holds when it looks for a pipe. */
  function ChildWords(words: seq<string>): seq<string> {
    UpTo(UpTo(WithoutBackground(words), "<"), ">")
  }

  function ChildInput(words: seq<string>): Redirection {
    RedirectionAt(WithoutBackground(words), "<")
  }

  function ChildOutput(words: seq<string>): Redirection {
    RedirectionAt(UpTo(WithoutBackground(words), "<"), ">")
  }

  /** The child's changes to its own copy of the vector, in the order of run_command. */
  method PrepareChild(argv: array<Option<string>>, background: nat) returns (input: Redirection, output: Redirection)
    requires Terminated(argv[..]) && background == BackgroundIndex(Words(argv[..]))
    modifies argv
    ensures Terminated(argv[..]) && Words(argv[..]) == ChildWords(old(Words(argv[..])))
    ensures input == ChildInput(old(Words(argv[..]))) && output == ChildOutput(old(Words(argv[..])))
  {
    ghost var words := Words(argv[..]);
    WordsAt(argv[..]);
    if background > 0 {
      argv[background] := None;
      WordsOf(argv[..], words[..background]);
    }
    input := Redirect(argv, "<");
    output := Redirect(argv, ">");
  }

  datatype Launch =
    | Crash     // strcmp(NULL, "|")
    | Execute   // execvp of the whole vector
    | Pipeline  // pipe_and_exec

  function LaunchOf(words: seq<string>): Launch {
    if words == [] then Crash
    else if PipeIndex(words) > 0 then Pipeline
    else Execute
  }

  /** Which of the three it is, from the words alone. */
  lemma LaunchIff(words: seq<string>)
    ensures LaunchOf(words).Crash? <==> words == []
    ensures LaunchOf(words).Pipeline? <==>
            "|" in words && words[0] != "|" && words[|words| - 1] != "|"
  {
    InWords(words, "|");
  }

  /** `run_command` up to execvp or pipe_and_exec. The child works on a copy of the vector, as
      fork gives it one: the parent's stays as it was for free_argv. */
  method RunCommand(argv: array<Option<string>>)
    returns (child: array<Option<string>>, waits: bool, input: Redirection, output: Redirection, launch: Launch)
    requires Terminated(argv[..])
    ensures fresh(child) && Terminated(child[..])
    ensures Words(child[..]) == ChildWords(Words(argv[..])) && launch == LaunchOf(Words(child[..]))
    ensures input == ChildInput(Words(argv[..])) && output == ChildOutput(Words(argv[..]))
    ensures waits <==> !("&" in Words(argv[..]) && Words(argv[..])[0] != "&")
  {
    var background := IsBackground(argv[..]);
    BackgroundIff(Words(argv[..]));
    waits := background == 0;
    child := new Option<string>[argv.Length](i requires 0 <= i < argv.Length reads argv => argv[i]);
    assert child[..] == argv[..];
    input, output := PrepareChild(child, background);
    WordsAt(child[..]);
    if child[0].None? {
      launch := Crash;
    } else {
      var hasPipe := PipePresent(child[..]);
      launch := if hasPipe > 0 then Pipeline else Execute;
    }
  }

  // ----- what that means for the command line

  predicate Special(w: string) { w == "&" || w == "<" || w == ">" }

  /** `p` is the longest prefix of `words` without a special word. */
  predicate IsLongestPlainPrefix(p: seq<string>, words: seq<string>) {
    && p <= words
    && (forall i :: 0 <= i < |p| ==> !Special(p[i]))
    && (|p| < |words| ==> Special(words[|p|]))
  }

  lemma FirstAfter(words: seq<string>, op: string, w: string)
    ensures First(UpTo(words, op), w) == Min(First(words, w), First(words, op))
    ensures UpTo(UpTo(words, op), w) == words[..Min(First(words, w), First(words, op))]
  {
    FirstIs(UpTo(words, op), w, Min(First(words, w), First(words, op)));
  }

  lemma CutTwice(words: seq<string>)
    ensures UpTo(UpTo(words, "<"), ">") == words[..Min(First(words, "<"), First(words, ">"))]
  {
    FirstAfter(words, "<", ">");
  }

  lemma PlainPrefix(words: seq<string>, n: nat)
    requires n == Min(First(words, "&"), Min(First(words, "<"), First(words, ">")))
    ensures IsLongestPlainPrefix(words[..n], words)
  {
  }

  /** The child's vector is the longest prefix free of "&", "<" and ">" exactly when the first
      word is not "&". */
  lemma ChildWordsIff(words: seq<string>)
    requires words != []
    ensures IsLongestPlainPrefix(ChildWords(words), words) <==> words[0] != "&"
  {
    CutTwice(WithoutBackground(words));
    FirstAfter(words, "&", "<");
    FirstAfter(words, "&", ">");
    if words[0] != "&" {
      assert WithoutBackground(words) == UpTo(words, "&");
      PlainPrefix(words, Min(First(words, "&"), Min(First(words, "<"), First(words, ">"))));
    } else {
      assert ChildWords(words)[0] == "&" && Special("&");
    }
  }

  /** The child dereferences NULL exactly when the line starts with a redirection. */
  lemma CrashIff(words: seq<string>)
    requires words != []
    ensures LaunchOf(ChildWords(words)).Crash? <==> words[0] == "<" || words[0] == ">"
  {
    CutTwice(WithoutBackground(words));
    FirstAfter(words, "&", "<");
    FirstAfter(words, "&", ">");
  }

  /** The redirections the line asks for: those before the first "&". */
  predicate InputExpected(words: seq<string>) { First(words, "<") < First(words, "&") }

  predicate OutputExpected(words: seq<string>) { First(words, ">") < First(words, "&") }

  /** Standard input is redirected exactly as expected, except when the line starts with "&" and
      has a "<". */
  lemma InputRedirectedIff(words: seq<string>)
    ensures (ChildInput(words).Reopened? <==> InputExpected(words))
            <==> !(First(words, "&") == 0 && "<" in words)
  {
    FirstAfter(words, "&", "<");
    InWords(words, "<");
  }

  /** Standard output is, except in the same case and when a "<" comes before the ">", which
      then is lost. */
  lemma OutputRedirectedIff(words: seq<string>)
    ensures (ChildOutput(words).Reopened? <==> OutputExpected(words))
            <==> !((First(words, "&") == 0 && ">" in UpTo(words, "<"))
                   || First(words, "<") < First(words, ">") < First(words, "&"))
  {
    FirstAfter(words, "<", ">");
    InWords(UpTo(words, "<"), ">");
    OutputIs(words);
  }

  /** The ">" that counts is the first, and stands before the "<" and before what is left of "&". */
  lemma OutputIs(words: seq<string>)
    ensures ChildOutput(words).Reopened? <==>
            First(words, ">") < First(words, "<") && (First(words, "&") > 0 ==> First(words, ">") < First(words, "&"))
  {
    FirstAfter(WithoutBackground(words), "<", ">");
    FirstAfter(words, "&", "<");
    FirstAfter(words, "&", ">");
  }

  /** Where the words end that can be opened: for the input at an "&" that is not in front, for
      the output at the first "<" as well. */
  function InputEnd(words: seq<string>): nat {
    if First(words, "&") == 0 then |words| else First(words, "&")
  }

  function OutputEnd(words: seq<string>): nat { Min(First(words, "<"), InputEnd(words)) }

  lemma FirstBefore(words: seq<string>, n: nat, w: string)
    requires n <= |words|
    ensures First(words[..n], w) == Min(First(words, w), n)
  {
    FirstIs(words[..n], w, Min(First(words, w), n));
  }

  lemma InputWords(words: seq<string>)
    ensures InputEnd(words) <= |words| && WithoutBackground(words) == words[..InputEnd(words)]
  {
    assert words[..|words|] == words;
  }

  lemma OutputWords(words: seq<string>)
    ensures OutputEnd(words) <= InputEnd(words) <= |words|
    ensures UpTo(WithoutBackground(words), "<") == words[..OutputEnd(words)]
  {
    InputWords(words);
    FirstBefore(words, InputEnd(words), "<");
  }

  /** The redirection of the first `n` words: what stands behind the first operator, if that is
      one of them, and NULL if nothing stands between it and their end. */
  lemma PrefixRedirection(words: seq<string>, n: nat, op: string)
    requires n <= |words|
    ensures var i := First(words, op);
      RedirectionAt(words[..n], op)
      == if i < n then Reopened(if i + 1 < n then Some(words[i + 1]) else None) else Kept
  {
    FirstBefore(words, n, op);
  }

  /** The input comes from the file named behind the first "<", if that stands before the end. */
  lemma InputFile(words: seq<string>)
    ensures var i, end := First(words, "<"), InputEnd(words);
      && end <= |words|
      && ChildInput(words)
         == if i < end then Reopened(if i + 1 < end then Some(words[i + 1]) else None) else Kept
  {
    InputWords(words);
    PrefixRedirection(words, InputEnd(words), "<");
  }

  /** And the output goes to the file named behind the first ">", if that stands before its end. */
  lemma OutputFile(words: seq<string>)
    ensures var i, end := First(words, ">"), OutputEnd(words);
      && end <= |words|
      && ChildOutput(words)
         == if i < end then Reopened(if i + 1 < end then Some(words[i + 1]) else None) else Kept
  {
    OutputWords(words);
    PrefixRedirection(words, OutputEnd(words), ">");
  }

  /** "ls > out" writes to out. */
  lemma OutputGoesToTheFile()
    ensures ChildOutput(["ls", ">", "out"]) == Reopened(Some("out")) && ChildInput(["ls", ">", "out"]) == Kept
  {
    var words := ["ls", ">", "out"];
    FirstIs(words, "&", 3);
    FirstIs(words, "<", 3);
    FirstIs(words, ">", 1);
    InputFile(words);
    OutputFile(words);
  }

  /** "cmd < in > out" writes to the terminal. */
  lemma OutputLost()
    ensures var words := ["cmd", "<", "in", ">", "out"];
      OutputExpected(words) && ChildOutput(words) == Kept && ChildInput(words) == Reopened(Some("in"))
  {
    var words := ["cmd", "<", "in", ">", "out"];
    FirstIs(words, "&", 5);
    FirstIs(words, "<", 1);
    FirstIs(words, ">", 3);
    FirstIs(["cmd"], ">", 1);
    assert UpTo(words, "<") == ["cmd"];
  }

  /** "&" alone stays in the vector. */
  lemma AmpersandStays()
    ensures ChildWords(["&"]) == ["&"] && !IsLongestPlainPrefix(["&"], ["&"])
  {
    FirstIs(["&"], "<", 1);
    FirstIs(["&"], ">", 1);
    assert UpTo(["&"], "<") == ["&"] && UpTo(["&"], ">") == ["&"];
    assert Special("&");
  }

  /** "& < in" has its input redirected, although "&" ends the command before the "<". */
  lemma AmpersandRedirects()
    ensures var words := ["&", "<", "in"];
      !InputExpected(words) && ChildInput(words) == Reopened(Some("in"))
  {
    var words := ["&", "<", "in"];
    FirstIs(words, "&", 0);
    FirstIs(words, "<", 1);
  }

  /** "< in" leaves the child without a command. */
  lemma OnlyRedirection()
    ensures LaunchOf(ChildWords(["<", "in"])) == Crash
  {
    CrashIff(["<", "in"]);
  }

}
