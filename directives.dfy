/**
  The four directives of tabs.py. `tabs` resets the scratch state, lets the
  parser run the directives nested in its content, and puts a header menu built
  from the accumulated headers before the panels. `tab` decodes its title line
  and registers itself. `group-tab` and `code-tab` rewrite their content into a
  `tab` invocation and have it parsed.

  The generic parser is not part of this model: a tabs block's content is given
  as the sequence of invocations the parser finds in it, and a panel's body is
  kept as the lines handed to the parser.
*/
module Directives {
  import opened Wrappers
  import opened PyStr
  import opened Slugify
  import opened TabArgs
  import opened Tracker

  /** One header entry of the menu: its classes and its text. */
  datatype MenuEntry = MenuEntry(classes: seq<string>, text: string)

  datatype Node =
    | Container(classes: seq<string>, children: seq<Node>)
    | Menu(classes: seq<string>, entries: seq<MenuEntry>)
    | PanelNode(panel: Panel)
    | Prose(lines: seq<string>)
    | Problem(error: Error)

  /** What the parser finds inside a tabs block. */
  datatype Invocation =
    | TabCall(content: seq<string>)
    | GroupTabCall(content: seq<string>)
    | CodeTabCall(content: seq<string>)
    | OtherContent(lines: seq<string>)

  const TabsClasses: seq<string> := ["sphinx-tabs"]
  const MenuClasses: seq<string> := ["ui", "top", "attached", "tabular", "menu", "sphinx-menu"]

  // ---------------------------------------------------------------------------
  // The header menu

  function HeaderClasses(idx: nat, token: string): seq<string> {
    (if idx > 0 then ["item"] else ["active", "item"]) + [token]
  }

  /** One menu entry per accumulated header, in order. */
  function MenuEntries(titles: seq<Header>): seq<MenuEntry> {
    seq(|titles|, i requires 0 <= i < |titles| => MenuEntry(HeaderClasses(i, titles[i].token), titles[i].title))
  }

  /** The loop that appends one entry per accumulated header. */
  method BuildMenu(titles: seq<Header>) returns (entries: seq<MenuEntry>)
    ensures entries == MenuEntries(titles)
  {
    entries := [];
    var idx := 0;
    while idx < |titles|
      invariant 0 <= idx <= |titles|
      invariant entries == MenuEntries(titles[..idx])
    {
      var classes := if idx > 0 then ["item"] else ["active", "item"];
      classes := classes + [titles[idx].token];
      entries := entries + [MenuEntry(classes, titles[idx].title)];
      idx := idx + 1;
    }
    assert titles[..idx] == titles;
  }

  /** Only the first header entry is active, and every entry ends with its header's token. */
  lemma MenuActiveOnlyFirst(titles: seq<Header>)
    requires forall h :: h in titles ==> IsToken(h.token)
    ensures forall i :: 0 <= i < |titles| ==>
      var c := MenuEntries(titles)[i].classes;
      && c[|c| - 1] == titles[i].token
      && MenuEntries(titles)[i].text == titles[i].title
      && ("active" in c <==> i == 0)
  {
  }

  // ---------------------------------------------------------------------------
  // What the parser hands a nested directive

  /** The length of a line's leading whitespace. */
  function Indentation(line: string): nat {
    |line| - |TrimStart(line)|
  }

  /** A line that `strip()` empties. */
  predicate Blank(line: string) {
    AllSpace(line)
  }

  /** `get_indented`'s indentation of a block: the smallest indentation of
      its non-blank lines, or None when every line is blank. */
  function CommonIndent(lines: seq<string>): Option<nat>
    decreases |lines|
  {
    if lines == [] then None else Narrower(lines[0], CommonIndent(lines[1..]))
  }

  /** The common indentation of a line and the lines after it, given theirs. */
  function Narrower(line: string, rest: Option<nat>): Option<nat> {
    if Blank(line) then rest
    else if rest.Some? && rest.value < Indentation(line) then rest
    else Some(Indentation(line))
  }

  /** An indentation shifted right by n columns. */
  function Shifted(indent: Option<nat>, n: nat): Option<nat> {
    match indent
    case None => None
    case Some(k) => Some(k + n)
  }

  /** The common indentation is the least indentation of a non-blank line. */
  lemma {:induction false} CommonIndentIsLeast(lines: seq<string>)
    ensures CommonIndent(lines).None? <==> forall i :: 0 <= i < |lines| ==> Blank(lines[i])
    ensures CommonIndent(lines).Some? ==>
      && (forall i :: 0 <= i < |lines| && !Blank(lines[i]) ==> CommonIndent(lines).value <= Indentation(lines[i]))
      && (exists i :: 0 <= i < |lines| && !Blank(lines[i]) && Indentation(lines[i]) == CommonIndent(lines).value)
    decreases |lines|
  {
    if lines != [] {
      var tail := lines[1..];
      CommonIndentIsLeast(tail);
      assert forall i :: 1 <= i < |lines| ==> tail[i - 1] == lines[i];
      var rest := CommonIndent(tail);
      var m := Narrower(lines[0], rest);
      assert CommonIndent(lines) == m;
      if m.Some? {
        var w: nat;
        if rest.Some? && m == rest {
          var j :| 0 <= j < |tail| && !Blank(tail[j]) && Indentation(tail[j]) == rest.value;
          w := j + 1;
        } else {
          w := 0;
        }
        assert !Blank(lines[w]) && Indentation(lines[w]) == m.value;
      }
    }
  }

  /** `StringList.trim_left(n)`: every line loses its first n characters; a shorter line becomes empty. */
  function TrimLeft(lines: seq<string>, n: nat): seq<string> {
    seq(|lines|, i requires 0 <= i < |lines| => if n <= |lines[i]| then lines[i][n..] else "")
  }

  /** An indented block with its common indentation removed, as `get_indented` returns it. */
  function Unindent(lines: seq<string>): seq<string> {
    match CommonIndent(lines)
    case None => lines
    case Some(n) => TrimLeft(lines, n)
  }

  /** The block without its trailing blank lines, as `parse_directive_block` leaves it. */
  function TrimTrailingBlank(lines: seq<string>): (r: seq<string>)
    ensures |r| <= |lines| && r == lines[..|r|]
    ensures forall i :: |r| <= i < |lines| ==> Blank(lines[i])
    ensures r == [] || !Blank(r[|r| - 1])
  {
    if lines != [] && Blank(lines[|lines| - 1]) then TrimTrailingBlank(lines[..|lines| - 1]) else lines
  }

  /** What a directive receives as content from the indented lines below its marker line. */
  function NestedBlock(lines: seq<string>): seq<string> {
    TrimTrailingBlank(Unindent(lines))
  }

  lemma {:induction false} TrimStartPadded(pad: string, line: string)
    requires AllSpace(pad)
    ensures TrimStart(pad + line) == TrimStart(line)
    decreases |pad|
  {
    if pad == [] {
      assert pad + line == line;
    } else {
      assert (pad + line)[0] == pad[0];
      assert (pad + line)[1..] == pad[1..] + line;
      TrimStartPadded(pad[1..], line);
    }
  }

  /** Whitespace in front of a line adds to its indentation and keeps it blank or not. */
  lemma PaddedLine(pad: string, line: string)
    requires AllSpace(pad)
    ensures Indentation(pad + line) == |pad| + Indentation(line)
    ensures Blank(pad + line) <==> Blank(line)
  {
    TrimStartPadded(pad, line);
    BlankPadded(pad, line);
  }

  lemma BlankPadded(pad: string, line: string)
    requires AllSpace(pad)
    ensures AllSpace(pad + line) <==> AllSpace(line)
  {
    var x := pad + line;
    if AllSpace(line) {
      forall i | 0 <= i < |x| ensures IsSpace(x[i]) {
        if i >= |pad| {
          assert x[i] == line[i - |pad|];
        }
      }
    }
    if AllSpace(x) {
      forall i | 0 <= i < |line| ensures IsSpace(line[i]) {
        assert x[|pad| + i] == line[i];
      }
    }
  }

  lemma {:induction false} CommonIndentPadded(lines: seq<string>, pad: string)
    requires AllSpace(pad)
    ensures CommonIndent(Indented(lines, pad)) == Shifted(CommonIndent(lines), |pad|)
    decreases |lines|
  {
    if lines != [] {
      var padded := Indented(lines, pad);
      assert padded[0] == pad + lines[0];
      assert padded[1..] == Indented(lines[1..], pad);
      CommonIndentPadded(lines[1..], pad);
      NarrowerPadded(pad, lines[0], CommonIndent(lines[1..]));
    }
  }

  lemma NarrowerPadded(pad: string, line: string, rest: Option<nat>)
    requires AllSpace(pad)
    ensures Narrower(pad + line, Shifted(rest, |pad|)) == Shifted(Narrower(line, rest), |pad|)
  {
    PaddedLine(pad, line);
  }

  lemma AllBlankTrimmed(lines: seq<string>)
    requires forall i :: 0 <= i < |lines| ==> Blank(lines[i])
    ensures TrimTrailingBlank(lines) == []
  {
  }

  lemma TrimLeftPadded(lines: seq<string>, pad: string, n: nat)
    ensures TrimLeft(Indented(lines, pad), n + |pad|) == TrimLeft(lines, n)
  {
    forall i | 0 <= i < |lines| && n <= |lines[i]|
      ensures (pad + lines[i])[n + |pad|..] == lines[i][n..]
    {
    }
  }

  lemma AllBlankPadded(lines: seq<string>, pad: string)
    requires AllSpace(pad)
    requires CommonIndent(lines) == None
    ensures NestedBlock(Indented(lines, pad)) == [] == NestedBlock(lines)
  {
    CommonIndentPadded(lines, pad);
    CommonIndentIsLeast(lines);
    CommonIndentIsLeast(Indented(lines, pad));
    AllBlankTrimmed(lines);
    AllBlankTrimmed(Indented(lines, pad));
  }

  /** Indenting a block by whitespace does not change the content a nested directive receives from it. */
  lemma NestedBlockPadded(lines: seq<string>, pad: string)
    requires AllSpace(pad)
    ensures NestedBlock(Indented(lines, pad)) == NestedBlock(lines)
  {
    CommonIndentPadded(lines, pad);
    match CommonIndent(lines)
    case None =>
      AllBlankPadded(lines, pad);
    case Some(n) =>
      TrimLeftPadded(lines, pad, n);
      assert Unindent(Indented(lines, pad)) == TrimLeft(Indented(lines, pad), n + |pad|);
      assert Unindent(Indented(lines, pad)) == Unindent(lines);
  }

  /** Lines as the parser delivers a directive's content (ending on a non-blank
      line, with a non-blank line at indentation zero) pass through unchanged. */
  lemma NestedBlockUnchanged(lines: seq<string>)
    requires lines != [] ==> !Blank(lines[|lines| - 1]) && CommonIndent(lines) == Some(0)
    ensures NestedBlock(lines) == lines
  {
    if lines != [] {
      forall i | 0 <= i < |lines| ensures lines[i][0..] == lines[i] {
      }
      assert TrimLeft(lines, 0) == lines;
      assert Unindent(lines) == lines;
    }
  }

  /** A body whose lines are all indented loses that indentation: a group-tab
      that receives `Linux`, a blank line and `   body` (its name written on a
      line of its own) gives the nested tab the body `body`. */
  lemma NestedBlockDedents(pad: string, text: string)
    requires AllSpace(pad)
    requires text != [] && !IsSpace(text[0])
    ensures NestedBlock([pad + text]) == [text]
  {
    var one: seq<string> := [pad + text];
    assert one[1..] == [];
    assert TrimStart(text) == text && !Blank(text);
    NarrowerFlush(pad, text, None);
    assert CommonIndent(one) == Some(|pad|);
    assert (pad + text)[|pad|..] == text;
    assert TrimLeft(one, |pad|) == [text];
  }

  lemma {:induction false} TrimTrailingBlankCons(a: string, lines: seq<string>)
    requires Blank(a)
    ensures TrimTrailingBlank([a] + lines) ==
      (if TrimTrailingBlank(lines) == [] then [] else [a] + TrimTrailingBlank(lines))
    decreases |lines|
  {
    var x := [a] + lines;
    if lines == [] {
      assert x[..0] == [];
    } else {
      assert x[|x| - 1] == lines[|lines| - 1];
      if Blank(lines[|lines| - 1]) {
        assert x[..|x| - 1] == [a] + lines[..|lines| - 1];
        TrimTrailingBlankCons(a, lines[..|lines| - 1]);
      }
    }
  }

  /** The body of the `tab` a shorthand writes (a marker line, a blank line,
      then an indented block) is what the parser makes of the indented block. */
  lemma BodyAfterBlankLine(payload: string, lines: seq<string>)
    ensures Body([payload] + NestedBlock([""] + lines)) == NestedBlock(lines)
  {
    NestedBlockBlankFirst(lines);
    BodyOfHeaded(payload, NestedBlock(lines));
  }

  /** A title line, then an empty line unless nothing follows it, then the lines: the body is the lines. */
  lemma BodyOfHeaded(payload: string, t: seq<string>)
    ensures Body([payload] + (if t == [] then [] else [""] + t)) == t
  {
    if t == [] {
      assert [payload] + [] == [payload];
    } else {
      var x := [payload] + ([""] + t);
      assert |x| >= 2 && x[2..] == t;
    }
  }

  /** A leading empty line stays in front of a block unless nothing else of it is left. */
  lemma NestedBlockBlankFirst(lines: seq<string>)
    ensures NestedBlock([""] + lines) == (if NestedBlock(lines) == [] then [] else [""] + NestedBlock(lines))
  {
    UnindentBlankFirst(lines);
    TrimTrailingBlankCons("", Unindent(lines));
  }

  /** A leading empty line stays in front and does not change the common indentation. */
  lemma UnindentBlankFirst(lines: seq<string>)
    ensures Unindent([""] + lines) == [""] + Unindent(lines)
  {
    var x := [""] + lines;
    assert x[0] == "" && x[1..] == lines;
    assert CommonIndent(x) == CommonIndent(lines);
    match CommonIndent(lines)
    case None =>
    case Some(n) =>
      assert TrimLeft(x, n) == [""] + TrimLeft(lines, n);
  }

  /** The code-block line starts at its first column. */
  lemma CodeBlockLineFlush(lang: string)
    ensures !Blank(CodeBlockLine(lang)) && Indentation(CodeBlockLine(lang)) == 0
  {
    assert !IsSpace(CodeBlockLine(lang)[0]);
  }

  /** A blank second line does not count towards the common indentation. */
  lemma CommonIndentBlankSecond(first: string, second: string, rest: seq<string>)
    requires Blank(second)
    ensures CommonIndent([first, second] + rest) == Narrower(first, CommonIndent(rest))
  {
    var x := [first, second] + rest;
    assert x[0] == first && x[1..] == [second] + rest;
    assert ([second] + rest)[0] == second && ([second] + rest)[1..] == rest;
  }

  /** A line that starts after whitespace padding, above lines indented further, sets the common indentation. */
  lemma NarrowerFlush(pad: string, line: string, below: Option<nat>)
    requires AllSpace(pad) && !Blank(line) && Indentation(line) == 0
    requires below.Some? ==> below.value > |pad|
    ensures Narrower(pad + line, below) == Some(|pad|)
  {
    PaddedLine(pad, line);
  }

  lemma IndentsAreSpace()
    ensures AllSpace(Indent3) && |Indent3| == 3
    ensures AllSpace(Indent6) && |Indent6| == 6
    ensures Indent6 == Indent3 + Indent3
  {
  }

  /** A flush line behind padding, a blank line, then lines padded further:
      the padding of the first line is the common indentation. */
  lemma CommonIndentOfHeaded(pad: string, line: string, deep: string, lines: seq<string>)
    requires AllSpace(pad) && AllSpace(deep) && |pad| < |deep|
    requires !Blank(line) && Indentation(line) == 0
    ensures CommonIndent([pad + line, ""] + Indented(lines, deep)) == Some(|pad|)
  {
    CommonIndentBlankSecond(pad + line, "", Indented(lines, deep));
    CommonIndentPadded(lines, deep);
    NarrowerFlush(pad, line, Shifted(CommonIndent(lines), |deep|));
  }

  /** The code-block line sets the common indentation of the code-tab block to three. */
  lemma CodeBlockIndent(lang: string, code: seq<string>)
    ensures CommonIndent([Indent3 + CodeBlockLine(lang), ""] + Indented(code, Indent6)) == Some(3)
  {
    IndentsAreSpace();
    CodeBlockLineFlush(lang);
    CommonIndentOfHeaded(Indent3, CodeBlockLine(lang), Indent6, code);
  }

  lemma CodeBlockTrimmed(lang: string, code: seq<string>)
    ensures TrimLeft([Indent3 + CodeBlockLine(lang), ""] + Indented(code, Indent6), 3) == CodeBlockLines(lang, code)
  {
    var x := [Indent3 + CodeBlockLine(lang), ""] + Indented(code, Indent6);
    assert Indent6 == Indent3 + Indent3;
    forall i | 0 <= i < |code|
      ensures TrimLeft(x, 3)[i + 2] == Indent3 + code[i]
    {
      assert x[i + 2] == Indent3 + (Indent3 + code[i]);
    }
    assert (Indent3 + CodeBlockLine(lang))[3..] == CodeBlockLine(lang);
  }

  /** The code-tab block below the blank line, an indented code-block line, a
      blank line and the code indented twice, reaches the nested tab as a
      code-block directive holding the code. */
  lemma CodeBlockUnindented(lang: string, code: seq<string>)
    ensures NestedBlock([Indent3 + CodeBlockLine(lang), ""] + Indented(code, Indent6))
         == TrimTrailingBlank(CodeBlockLines(lang, code))
  {
    CodeBlockIndent(lang, code);
    CodeBlockTrimmed(lang, code);
  }

  // ---------------------------------------------------------------------------
  // Content rewriting for the shorthand directives

  const Indent3: string := "   "
  const Indent6: string := "      "
  const TabMarker: string := ".. tab:: "

  /** Every line with the padding in front. */
  function Indented(lines: seq<string>, pad: string): seq<string> {
    seq(|lines|, i requires 0 <= i < |lines| => pad + lines[i])
  }

  /** The loop that prefixes every line, one index at a time. The source
      assigns into `content.data`; here the updated sequence is returned. */
  method IndentLines(data: seq<string>, pad: string) returns (out: seq<string>)
    ensures out == Indented(data, pad)
  {
    out := data;
    var idx := 0;
    while idx < |out|
      invariant 0 <= idx <= |out| == |data|
      invariant forall k :: 0 <= k < idx ==> out[k] == pad + data[k]
      invariant forall k :: idx <= k < |out| ==> out[k] == data[k]
    {
      out := out[idx := pad + out[idx]];
      idx := idx + 1;
    }
  }

  /** The loop that inserts the synthetic lines, one at a time, in front of the content. */
  method InsertLines(front: seq<string>, data: seq<string>) returns (out: seq<string>)
    ensures out == front + data
  {
    out := data;
    var idx := 0;
    while idx < |front|
      invariant 0 <= idx <= |front|
      invariant out == front[..idx] + data
    {
      out := out[..idx] + [front[idx]] + out[idx..];
      idx := idx + 1;
    }
    assert front[..idx] == front;
  }

  function CodeBlockLine(lang: string): string {
    ".. code-block:: " + lang
  }

  /** A code-block directive for the language whose content is the code lines. */
  function CodeBlockLines(lang: string, code: seq<string>): seq<string> {
    [CodeBlockLine(lang), ""] + Indented(code, Indent3)
  }

  /** `content[2:]`: the lines of a tab's content after its title line and the line after it. */
  function Body(content: seq<string>): seq<string> {
    if |content| >= 2 then content[2..] else []
  }

  /** Content made of a marker line, a blank line and a block, read back as a
      `tab` directive: its title line is what follows the marker, and its body
      is what the parser makes of the block. */
  lemma MarkedBlock(marker: string, payload: string, block: seq<string>)
    ensures var data := [marker + payload, ""] + block;
      var tabContent := [data[0][|marker|..]] + NestedBlock(data[1..]);
      && tabContent[0] == payload
      && Body(tabContent) == NestedBlock(block)
  {
    var data := [marker + payload, ""] + block;
    assert data[0] == marker + payload && (marker + payload)[|marker|..] == payload;
    assert data[1..] == [""] + block;
    BodyAfterBlankLine(payload, block);
  }

  /** The group-tab rewrite: indent the body by three spaces, put a `tab` line
      carrying the encoded record and a blank line in front, and let the parser
      read the result as a `tab` directive. Its title line is the encoded
      record; its body is what the parser makes of the group-tab body. */
  method ExpandGroupTab(rec: TabRecord, body: seq<string>, dumps: TabRecord -> string)
    returns (tabContent: seq<string>)
    ensures |tabContent| >= 1 && tabContent[0] == dumps(rec)
    ensures Body(tabContent) == NestedBlock(body)
  {
    var data := IndentLines(body, Indent3);
    data := InsertLines([TabMarker + dumps(rec), ""], data);
    tabContent := [data[0][|TabMarker|..]] + NestedBlock(data[1..]);
    MarkedBlock(TabMarker, dumps(rec), Indented(body, Indent3));
    IndentsAreSpace();
    NestedBlockPadded(body, Indent3);
  }

  /** The code-tab rewrite: indent the code by six spaces, put a `tab` line
      carrying the encoded record, a blank line, an indented code-block line
      and a blank line in front, and let the parser read the result as a `tab`
      directive. Its body is a code-block directive holding the code. */
  method ExpandCodeTab(ct: CodeTab, code: seq<string>, dumps: TabRecord -> string)
    returns (tabContent: seq<string>)
    ensures |tabContent| >= 1 && tabContent[0] == dumps(ct.record)
    ensures Body(tabContent) == TrimTrailingBlank(CodeBlockLines(ct.lang, code))
  {
    var data := IndentLines(code, Indent6);
    var front := [TabMarker + dumps(ct.record), "", Indent3 + CodeBlockLine(ct.lang), ""];
    data := InsertLines(front, data);
    tabContent := [data[0][|TabMarker|..]] + NestedBlock(data[1..]);
    var block := [Indent3 + CodeBlockLine(ct.lang), ""] + Indented(code, Indent6);
    assert front == [TabMarker + dumps(ct.record), ""] + [Indent3 + CodeBlockLine(ct.lang), ""];
    assert data == [TabMarker + dumps(ct.record), ""] + block;
    MarkedBlock(TabMarker, dumps(ct.record), block);
    CodeBlockUnindented(ct.lang, code);
  }

  // ---------------------------------------------------------------------------
  // The directives

  /** A `tab` with the given title line and body: a title line the decoder
      rejects is MalformedTitle and changes nothing; otherwise the decoded
      fields are registered with the body. */
  twostate predicate TitledTab(env: TempData, line: string, body: seq<string>,
                               decode: string -> Option<TabRecord>, new r: Result<Panel, Error>)
    reads env
  {
    match DecodeTitleLine(line, decode)
    case Err(_) => r == Err(MalformedTitle) && env.State() == old(env.State())
    case Ok(args) => TabAdded(env, args, body, r)
  }

  /** `tab`: decode the first content line, then register with `content[2:]` as body. */
  method RunTab(env: TempData, content: seq<string>, decode: string -> Option<TabRecord>)
    returns (r: Result<Panel, Error>)
    modifies env
    ensures content == [] ==> r == Err(ContentRequired) && unchanged(env)
    ensures content != [] ==> TitledTab(env, content[0], Body(content), decode, r)
  {
    if content == [] {
      return Err(ContentRequired);
    }
    match DecodeTitleLine(content[0], decode) {
      case Err(e) =>
        return Err(e);
      case Ok(args) =>
        r := env.AddTab(args, Body(content));
    }
  }

  /** `group-tab`: the group name is the title and its slug the id. The
      rewritten content is parsed as a `tab` whose title line is the encoded
      record and whose body is the group-tab's lines after the first two. */
  method RunGroupTab(env: TempData, content: seq<string>,
                     decode: string -> Option<TabRecord>, dumps: TabRecord -> string)
    returns (r: Result<Panel, Error>)
    modifies env
    ensures content == [] ==> r == Err(ContentRequired) && unchanged(env)
    ensures |content| == 1 ==> r == Err(TrimTooLarge) && unchanged(env)
    ensures |content| >= 2 ==>
      TitledTab(env, dumps(GroupTabRecord(content[0])), NestedBlock(content[2..]), decode, r)
  {
    if content == [] {
      return Err(ContentRequired);
    }
    if |content| < 2 {
      return Err(TrimTooLarge);
    }
    var tabContent := ExpandGroupTab(GroupTabRecord(content[0]), content[2..], dumps);
    r := RunTab(env, tabContent, decode);
  }

  /** `code-tab`: the first line names the language and optionally the title;
      the remaining lines become the content of a code block. */
  method RunCodeTab(env: TempData, content: seq<string>, lexers: map<string, string>,
                    decode: string -> Option<TabRecord>, dumps: TabRecord -> string)
    returns (r: Result<Panel, Error>)
    modifies env
    ensures content == [] ==> r == Err(ContentRequired) && unchanged(env)
    ensures |content| == 1 ==> r == Err(TrimTooLarge) && unchanged(env)
    ensures |content| >= 2 && CodeTabArgs(content[0], lexers).Err? ==>
      r == Err(CodeTabArgs(content[0], lexers).error) && unchanged(env)
    ensures |content| >= 2 && CodeTabArgs(content[0], lexers).Ok? ==>
      var ct := CodeTabArgs(content[0], lexers).value;
      TitledTab(env, dumps(ct.record), TrimTrailingBlank(CodeBlockLines(ct.lang, content[2..])), decode, r)
  {
    if content == [] {
      return Err(ContentRequired);
    }
    if |content| < 2 {
      return Err(TrimTooLarge);
    }
    var parsed := CodeTabArgs(content[0], lexers);
    if parsed.Err? {
      return Err(parsed.error);
    }
    var ct := parsed.value;
    var tabContent := ExpandCodeTab(ct, content[2..], dumps);
    r := RunTab(env, tabContent, decode);
  }

  // ---------------------------------------------------------------------------
  // One invocation inside a tabs block, as a function of the scratch state

  /** What an invocation does to the block, decided before the scratch state
      is consulted: keep its lines, report an error in place, raise an error
      that ends the block, or register a tab. */
  datatype Action =
    | Keep(lines: seq<string>)
    | Report(problem: Error)
    | Raise(failure: Error)
    | Enroll(args: TitleArgs, body: seq<string>)

  /** Registering under a title line: the decoded fields, or the decoding error. */
  function TitledAction(line: string, body: seq<string>, decode: string -> Option<TabRecord>): (a: Action)
    ensures a.Raise? || a.Enroll?
    ensures a.Raise? <==> DecodeTitleLine(line, decode).Err?
    ensures a.Raise? ==> a.failure == MalformedTitle
    ensures a.Enroll? ==> Ok(a.args) == DecodeTitleLine(line, decode) && a.body == body
  {
    match DecodeTitleLine(line, decode)
    case Ok(args) => Enroll(args, body)
    case Err(e) => Raise(e)
  }

  /** The action of an invocation: other content is kept, a directive without
      content is reported in place, and any other directive either raises the
      error it meets before registering or registers its tab. */
  function ActionOf(inv: Invocation, lexers: map<string, string>,
                    decode: string -> Option<TabRecord>, dumps: TabRecord -> string): (a: Action)
    ensures inv.OtherContent? <==> a.Keep?
    ensures a.Keep? ==> a.lines == inv.lines
    ensures a.Report? <==> !inv.OtherContent? && inv.content == []
    ensures a.Report? ==> a.problem == ContentRequired
    ensures a.Raise? ==> !a.failure.Reported()
  {
    if inv.OtherContent? then Keep(inv.lines)
    else if inv.content == [] then Report(ContentRequired)
    else match inv
      case TabCall(c) =>
        TitledAction(c[0], Body(c), decode)
      case GroupTabCall(c) =>
        if |c| < 2 then Raise(TrimTooLarge)
        else TitledAction(dumps(GroupTabRecord(c[0])), NestedBlock(c[2..]), decode)
      case CodeTabCall(c) =>
        if |c| < 2 then Raise(TrimTooLarge)
        else match CodeTabArgs(c[0], lexers)
          case Err(e) => Raise(e)
          case Ok(ct) => TitledAction(dumps(ct.record), TrimTrailingBlank(CodeBlockLines(ct.lang, c[2..])), decode)
  }

  /** A registration without an explicit id: it takes the next serial number. */
  predicate AutoAction(a: Action) {
    a.Enroll? && a.args.ExplicitId().None?
  }

  /** One action on the scratch state: the new state and the node it leaves,
      or the error that ends the block. */
  function Step(s: Scratch, a: Action): (out: (Scratch, Result<Node, Error>))
    ensures out.0.hasBlockKeys == s.hasBlockKeys
    ensures out.0.serial == s.serial + (if AutoAction(a) then 1 else 0)
    ensures a.Enroll? && out.1.Ok? ==> out.1.value.PanelNode? && out.1.value.panel.token == TabToken(ResolvedId(a.args, s.serial))
    ensures !a.Enroll? ==> out.0 == s
    ensures out.1.Ok? && out.1.value.PanelNode? <==> a.Enroll? && out.1.Ok?
    ensures a.Enroll? && s.hasBlockKeys ==> (out.1.Ok? <==> a.args.Name().Some?)
    ensures a.Enroll? && out.1.Ok? ==>
      && a.args.Name().Some?
      && out.1.value.panel.body == a.body
      && IsToken(out.1.value.panel.token)
      && out.1.value.panel.active == s.isFirstTab
      && out.0.tabTitles == s.tabTitles + [Header(out.1.value.panel.token, a.args.Name().value)]
      && !out.0.isFirstTab
  {
    match a
    case Keep(lines) => (s, Ok(Prose(lines)))
    case Report(e) => (s, Ok(Problem(e)))
    case Raise(e) => (s, Err(e))
    case Enroll(args, body) =>
      var reg := Register(s, args, body);
      (reg.0, if reg.1.Ok? then Ok(PanelNode(reg.1.value)) else Err(reg.1.error))
  }

  /** What a directive's result becomes inside the block: its panel, a problem
      node for a reported error, or the error itself, which ends the block. */
  function Delivered(p: Result<Panel, Error>): Result<Node, Error> {
    match p
    case Ok(panel) => Ok(PanelNode(panel))
    case Err(e) => if e.Reported() then Ok(Problem(e)) else Err(e)
  }

  /** A registration under a title line, delivered into the block, is the step
      of registering under that line. */
  lemma StepTitled(before: Scratch, after: Scratch, line: string, body: seq<string>,
                   decode: string -> Option<TabRecord>, p: Result<Panel, Error>)
    requires match DecodeTitleLine(line, decode)
      case Err(_) => p == Err(MalformedTitle) && after == before
      case Ok(args) => (after, p) == Register(before, args, body)
    ensures (after, Delivered(p)) == Step(before, TitledAction(line, body, decode))
  {
    match DecodeTitleLine(line, decode)
    case Err(_) =>
      assert TitledAction(line, body, decode) == Raise(MalformedTitle);
    case Ok(args) =>
      assert TitledAction(line, body, decode) == Enroll(args, body);
      assert p.Err? ==> !p.error.Reported();
  }

  /** One invocation found by the parser inside a tabs block: run the directive
      it names, and turn a reported directive error into a problem node. */
  method Dispatch(env: TempData, inv: Invocation, lexers: map<string, string>,
                  decode: string -> Option<TabRecord>, dumps: TabRecord -> string)
    returns (r: Result<Node, Error>)
    modifies env
    ensures (env.State(), r) == Step(old(env.State()), ActionOf(inv, lexers, decode, dumps))
  {
    ghost var before := env.State();
    var p: Result<Panel, Error>;
    match inv {
      case OtherContent(lines) =>
        return Ok(Prose(lines));
      case TabCall(content) =>
        p := RunTab(env, content, decode);
        if content != [] {
          StepTitled(before, env.State(), content[0], Body(content), decode, p);
        }
      case GroupTabCall(content) =>
        p := RunGroupTab(env, content, decode, dumps);
        if |content| >= 2 {
          StepTitled(before, env.State(), dumps(GroupTabRecord(content[0])), NestedBlock(content[2..]), decode, p);
        }
      case CodeTabCall(content) =>
        p := RunCodeTab(env, content, lexers, decode, dumps);
        if |content| >= 2 && CodeTabArgs(content[0], lexers).Ok? {
          var ct := CodeTabArgs(content[0], lexers).value;
          StepTitled(before, env.State(), dumps(ct.record), TrimTrailingBlank(CodeBlockLines(ct.lang, content[2..])), decode, p);
        }
    }
    r := Delivered(p);
  }

  /** A group tab inside a block, when the decoder reads back the encoded
      record: its panel and header carry the token of the slug of the group
      name, whichever block it is in, its title is the group name, and no
      serial number is taken. */
  lemma GroupTabStep(s: Scratch, c: seq<string>, lexers: map<string, string>,
                     decode: string -> Option<TabRecord>, dumps: TabRecord -> string)
    requires s.hasBlockKeys && |c| >= 2
    requires |Split(dumps(GroupTabRecord(c[0])))| > 1
    requires decode(Strip(dumps(GroupTabRecord(c[0])))) == Some(GroupTabRecord(c[0]))
    ensures var out := Step(s, ActionOf(GroupTabCall(c), lexers, decode, dumps));
      var t := TabToken(Slug(c[0]));
      && out.1 == Ok(PanelNode(Panel(t, PanelClasses([], t, s.isFirstTab), s.isFirstTab, NestedBlock(c[2..]))))
      && out.0.tabTitles == s.tabTitles + [Header(t, c[0])]
      && out.0.serial == s.serial
  {
    var rec := GroupTabRecord(c[0]);
    EncodedTitleDecodes(rec, decode, dumps);
    assert ActionOf(GroupTabCall(c), lexers, decode, dumps) == Enroll(Structured(rec), NestedBlock(c[2..]));
    StepStructured(s, rec, NestedBlock(c[2..]));
  }

  /** A code tab inside a block with a known language, when the decoder reads
      back the encoded record: its token is that of the slug of its title, its
      panel carries the class `code-tab` and a code-block directive for the
      language holding the code, and no serial number is taken. */
  lemma CodeTabStep(s: Scratch, c: seq<string>, lexers: map<string, string>,
                    decode: string -> Option<TabRecord>, dumps: TabRecord -> string)
    requires s.hasBlockKeys && |c| >= 2 && CodeTabArgs(c[0], lexers).Ok?
    requires |Split(dumps(CodeTabArgs(c[0], lexers).value.record))| > 1
    requires decode(Strip(dumps(CodeTabArgs(c[0], lexers).value.record))) == Some(CodeTabArgs(c[0], lexers).value.record)
    ensures var ct := CodeTabArgs(c[0], lexers).value;
      var title := CodeTabTitle(Split(c[0]), lexers).value;
      var t := TabToken(Slug(title));
      var out := Step(s, ActionOf(CodeTabCall(c), lexers, decode, dumps));
      && out.1 == Ok(PanelNode(Panel(t, PanelClasses(["code-tab"], t, s.isFirstTab), s.isFirstTab,
                                     TrimTrailingBlank(CodeBlockLines(ct.lang, c[2..])))))
      && out.0.tabTitles == s.tabTitles + [Header(t, title)]
      && out.0.serial == s.serial
  {
    var ct := CodeTabArgs(c[0], lexers).value;
    var body := TrimTrailingBlank(CodeBlockLines(ct.lang, c[2..]));
    CodeTabAction(c, lexers, decode, dumps);
    StepStructured(s, ct.record, body);
  }

  /** A code tab with a known language, when the decoder reads back the
      encoded record, registers that record with the code-block body. */
  lemma CodeTabAction(c: seq<string>, lexers: map<string, string>,
                      decode: string -> Option<TabRecord>, dumps: TabRecord -> string)
    requires |c| >= 2 && CodeTabArgs(c[0], lexers).Ok?
    requires |Split(dumps(CodeTabArgs(c[0], lexers).value.record))| > 1
    requires decode(Strip(dumps(CodeTabArgs(c[0], lexers).value.record))) == Some(CodeTabArgs(c[0], lexers).value.record)
    ensures var ct := CodeTabArgs(c[0], lexers).value;
      ActionOf(CodeTabCall(c), lexers, decode, dumps)
      == Enroll(Structured(ct.record), TrimTrailingBlank(CodeBlockLines(ct.lang, c[2..])))
  {
    var ct := CodeTabArgs(c[0], lexers).value;
    CodeTabCallAction(c, ct, lexers, decode, dumps);
    EncodedTitleDecodes(ct.record, decode, dumps);
  }

  /** A code tab with two or more lines whose first line parses registers
      under the encoded record with the code-block body. */
  lemma CodeTabCallAction(c: seq<string>, ct: CodeTab, lexers: map<string, string>,
                          decode: string -> Option<TabRecord>, dumps: TabRecord -> string)
    requires |c| >= 2 && CodeTabArgs(c[0], lexers) == Ok(ct)
    ensures ActionOf(CodeTabCall(c), lexers, decode, dumps)
         == TitledAction(dumps(ct.record), TrimTrailingBlank(CodeBlockLines(ct.lang, c[2..])), decode)
  {
    var inv := CodeTabCall(c);
    assert !inv.OtherContent? && inv.content == c && c != [] && !(|c| < 2);
  }

  /** Registering a structured record with a name and an explicit id inside a
      block: the id's token, no serial number, and the flag consumed. */
  lemma StepStructured(s: Scratch, rec: TabRecord, body: seq<string>)
    requires s.hasBlockKeys && rec.name.Some? && rec.id.Some?
    ensures var t := TabToken(rec.id.value);
      var out := Step(s, Enroll(Structured(rec), body));
      && out.1 == Ok(PanelNode(Panel(t, PanelClasses(rec.classes, t, s.isFirstTab), s.isFirstTab, body)))
      && out.0.tabTitles == s.tabTitles + [Header(t, rec.name.value)]
      && out.0.serial == s.serial
  {
    var args := Structured(rec);
    assert args.Name() == rec.name && args.ExplicitId() == rec.id && args.Classes() == rec.classes;
    assert ResolvedId(args, s.serial) == rec.id.value;
  }

  // ---------------------------------------------------------------------------
  // The tabs block

  /** The actions of a block's invocations, in order. */
  function Actions(content: seq<Invocation>, lexers: map<string, string>,
                   decode: string -> Option<TabRecord>, dumps: TabRecord -> string): seq<Action>
  {
    seq(|content|, k requires 0 <= k < |content| => ActionOf(content[k], lexers, decode, dumps))
  }

  /** The actions run in order: the state after them and the nodes they leave,
      or the first error, which ends the block. */
  function Block(s: Scratch, actions: seq<Action>): (out: (Scratch, Result<seq<Node>, Error>))
    ensures out.0.hasBlockKeys == s.hasBlockKeys && out.0.serial >= s.serial
    decreases |actions|
  {
    if actions == [] then (s, Ok([]))
    else
      var first := Step(s, actions[0]);
      if first.1.Err? then (first.0, Err(first.1.error))
      else
        var rest := Block(first.0, actions[1..]);
        (rest.0, if rest.1.Ok? then Ok([first.1.value] + rest.1.value) else rest.1)
  }

  /** An action that does not end a block: one that keeps lines or reports an
      error in place, or the registration of a tab that has a name. */
  predicate Accepted(a: Action) {
    a.Keep? || a.Report? || (a.Enroll? && a.args.Name().Some?)
  }

  /** The node an accepted action leaves. */
  predicate Fits(a: Action, n: Node) {
    match a
    case Keep(lines) => n == Prose(lines)
    case Report(e) => n == Problem(e)
    case Raise(_) => false
    case Enroll(_, body) => n.PanelNode? && n.panel.body == body
  }

  /** The panels among the nodes, in order. */
  function PanelsIn(nodes: seq<Node>): seq<Panel>
    decreases |nodes|
  {
    if nodes == [] then []
    else (if nodes[0].PanelNode? then [nodes[0].panel] else []) + PanelsIn(nodes[1..])
  }

  /** The tab names the registering actions carry, in source order. */
  function Names(actions: seq<Action>): seq<string>
    decreases |actions|
  {
    if actions == [] then []
    else
      var a := actions[0];
      (if a.Enroll? && a.args.Name().Some? then [a.args.Name().value] else []) + Names(actions[1..])
  }

  /** The headers for the given panels and names, pairwise. */
  function HeadersFor(ps: seq<Panel>, names: seq<string>): seq<Header>
    requires |ps| == |names|
  {
    seq(|ps|, i requires 0 <= i < |ps| => Header(ps[i].token, names[i]))
  }

  /** Inside a block, the actions go through exactly when each is accepted. */
  lemma {:induction false} BlockAccepts(s: Scratch, actions: seq<Action>)
    requires s.hasBlockKeys
    ensures Block(s, actions).1.Ok? <==> forall k :: 0 <= k < |actions| ==> Accepted(actions[k])
    decreases |actions|
  {
    if actions != [] {
      var first := Step(s, actions[0]);
      if first.1.Ok? {
        BlockAccepts(first.0, actions[1..]);
        assert forall k :: 1 <= k < |actions| ==> actions[1..][k - 1] == actions[k];
      }
    }
  }

  /** Each action of a block that goes through leaves one node, in order. */
  lemma {:induction false} BlockNodes(s: Scratch, actions: seq<Action>)
    ensures var out := Block(s, actions);
      out.1.Ok? ==>
        && |out.1.value| == |actions|
        && forall k :: 0 <= k < |actions| ==> Fits(actions[k], out.1.value[k])
    decreases |actions|
  {
    if actions != [] {
      var first := Step(s, actions[0]);
      if first.1.Ok? {
        BlockNodes(first.0, actions[1..]);
        var rest := Block(first.0, actions[1..]);
        if rest.1.Ok? {
          var nodes := [first.1.value] + rest.1.value;
          assert forall k :: 1 <= k < |actions| ==> actions[1..][k - 1] == actions[k] && nodes[k] == rest.1.value[k - 1];
        }
      }
    }
  }

  /** The headers a block appends follow its panels: header i carries the token
      of panel i and the name its action registered. */
  lemma {:induction false} BlockTitles(s: Scratch, actions: seq<Action>)
    requires s.hasBlockKeys
    ensures var out := Block(s, actions);
      out.1.Ok? ==>
        var ps := PanelsIn(out.1.value);
        && |Names(actions)| == |ps|
        && out.0.tabTitles == s.tabTitles + HeadersFor(ps, Names(actions))
    decreases |actions|
  {
    if actions != [] {
      var first := Step(s, actions[0]);
      if first.1.Ok? {
        var rest := Block(first.0, actions[1..]);
        BlockTitles(first.0, actions[1..]);
        if rest.1.Ok? {
          var n := first.1.value;
          var nodes := [n] + rest.1.value;
          assert nodes[0] == n && nodes[1..] == rest.1.value;
          var ps' := PanelsIn(rest.1.value);
          var names' := Names(actions[1..]);
          if n.PanelNode? {
            assert actions[0].Enroll? && actions[0].args.Name().Some?;
            var name := actions[0].args.Name().value;
            assert PanelsIn(nodes) == [n.panel] + ps';
            assert Names(actions) == [name] + names';
            assert HeadersFor([n.panel] + ps', [name] + names') == [Header(n.panel.token, name)] + HeadersFor(ps', names');
          } else {
            assert !actions[0].Enroll?;
            assert PanelsIn(nodes) == ps';
            assert Names(actions) == names';
          }
        }
      }
    }
  }

  /** Only the first panel of a block that starts with the flag set is active,
      and the flag stays set only while no panel was produced. */
  lemma {:induction false} BlockActive(s: Scratch, actions: seq<Action>)
    ensures var out := Block(s, actions);
      out.1.Ok? ==>
        var ps := PanelsIn(out.1.value);
        && (forall i :: 0 <= i < |ps| ==> IsToken(ps[i].token) && (ps[i].active <==> i == 0 && s.isFirstTab))
        && (out.0.isFirstTab <==> s.isFirstTab && |ps| == 0)
    decreases |actions|
  {
    if actions != [] {
      var first := Step(s, actions[0]);
      if first.1.Ok? {
        var rest := Block(first.0, actions[1..]);
        BlockActive(first.0, actions[1..]);
        if rest.1.Ok? {
          assert forall j :: 0 <= j < |PanelsIn(rest.1.value)| ==>
            IsToken(PanelsIn(rest.1.value)[j].token) && (PanelsIn(rest.1.value)[j].active <==> j == 0 && first.0.isFirstTab);
          var n := first.1.value;
          var nodes := [n] + rest.1.value;
          assert nodes[0] == n && nodes[1..] == rest.1.value;
          var ps' := PanelsIn(rest.1.value);
          assert Block(s, actions) == (rest.0, Ok(nodes));
          if n.PanelNode? {
            var ps := [n.panel] + ps';
            assert PanelsIn(nodes) == ps;
            assert actions[0].Enroll?;
            forall i | 0 <= i < |ps|
              ensures IsToken(ps[i].token) && (ps[i].active <==> i == 0 && s.isFirstTab)
            {
              if i > 0 {
                assert ps[i] == ps'[i - 1];
              }
            }
          } else {
            assert !actions[0].Enroll?;
            assert PanelsIn(nodes) == ps';
          }
        }
      }
    }
  }

  /** The serial number each action of a run finds on the counter, starting
      from lo: only registrations without an explicit id advance it. */
  function Serials(lo: nat, actions: seq<Action>): (r: seq<nat>)
    ensures |r| == |actions|
    decreases |actions|
  {
    if actions == [] then []
    else [lo] + Serials(lo + (if AutoAction(actions[0]) then 1 else 0), actions[1..])
  }

  /** The serial numbers start at lo, and the one a registration without an
      explicit id takes is below every later one. */
  lemma {:induction false} SerialsIncrease(lo: nat, actions: seq<Action>)
    ensures forall k :: 0 <= k < |actions| ==> lo <= Serials(lo, actions)[k]
    ensures forall i, j :: 0 <= i < j < |actions| && AutoAction(actions[i]) ==>
      Serials(lo, actions)[i] < Serials(lo, actions)[j]
    decreases |actions|
  {
    if actions != [] {
      var next := lo + (if AutoAction(actions[0]) then 1 else 0);
      var r := Serials(lo, actions);
      var rest := Serials(next, actions[1..]);
      SerialsIncrease(next, actions[1..]);
      assert r[0] == lo;
      assert forall k :: 1 <= k < |actions| ==> r[k] == rest[k - 1] && actions[k] == actions[1..][k - 1];
    }
  }

  /** In a run that goes through, a registration without an explicit id
      leaves a panel whose token is built from the serial number it found,
      and that number is below the counter the run ends with. */
  lemma {:induction false} BlockSerials(s: Scratch, actions: seq<Action>)
    ensures var out := Block(s, actions);
      out.1.Ok? ==>
        && |out.1.value| == |actions|
        && forall k :: 0 <= k < |actions| && AutoAction(actions[k]) ==>
             var n := Serials(s.serial, actions)[k];
             && out.1.value[k].PanelNode?
             && out.1.value[k].panel.token == TabToken(DecimalString(n))
             && n < out.0.serial
    decreases |actions|
  {
    if actions != [] {
      var first := Step(s, actions[0]);
      if first.1.Ok? {
        var rest := Block(first.0, actions[1..]);
        BlockSerials(first.0, actions[1..]);
        if rest.1.Ok? {
          var nodes := [first.1.value] + rest.1.value;
          var r := Serials(s.serial, actions);
          var r' := Serials(first.0.serial, actions[1..]);
          assert r[0] == s.serial;
          assert forall k :: 1 <= k < |actions| ==>
            r[k] == r'[k - 1] && nodes[k] == rest.1.value[k - 1] && actions[k] == actions[1..][k - 1];
          if AutoAction(actions[0]) {
            assert ResolvedId(actions[0].args, s.serial) == DecimalString(s.serial);
          }
        }
      }
    }
  }

  /** Within one block, two panels registered without an explicit id have
      different tokens. */
  lemma AutoTokensDistinctInBlock(s: Scratch, actions: seq<Action>)
    ensures var out := Block(s, actions);
      out.1.Ok? ==>
        && |out.1.value| == |actions|
        && forall i, j :: 0 <= i < j < |actions| && AutoAction(actions[i]) && AutoAction(actions[j]) ==>
             out.1.value[i].PanelNode? && out.1.value[j].PanelNode?
             && out.1.value[i].panel.token != out.1.value[j].panel.token
  {
    BlockSerials(s, actions);
    SerialsIncrease(s.serial, actions);
    var r := Serials(s.serial, actions);
    forall i, j | 0 <= i < j < |actions| && AutoAction(actions[i]) && AutoAction(actions[j])
      ensures TabToken(DecimalString(r[i])) != TabToken(DecimalString(r[j]))
    {
      AutoTokensDistinct(r[i], r[j]);
    }
  }

  /** Two blocks run one after the other on the same counter, the second
      starting where the first ended or later: no panel of the first and
      panel of the second registered without an explicit id share a token. */
  lemma AutoTokensDistinctAcrossBlocks(s: Scratch, first: seq<Action>, t: Scratch, second: seq<Action>)
    requires Block(s, first).0.serial <= t.serial
    ensures var out1 := Block(s, first);
      var out2 := Block(t, second);
      out1.1.Ok? && out2.1.Ok? ==>
        && |out1.1.value| == |first| && |out2.1.value| == |second|
        && forall i, j :: 0 <= i < |first| && 0 <= j < |second| && AutoAction(first[i]) && AutoAction(second[j]) ==>
             out1.1.value[i].PanelNode? && out2.1.value[j].PanelNode?
             && out1.1.value[i].panel.token != out2.1.value[j].panel.token
  {
    BlockSerials(s, first);
    BlockSerials(t, second);
    SerialsIncrease(t.serial, second);
    var r1 := Serials(s.serial, first);
    var r2 := Serials(t.serial, second);
    if Block(s, first).1.Ok? && Block(t, second).1.Ok? {
      forall i, j | 0 <= i < |first| && 0 <= j < |second| && AutoAction(first[i]) && AutoAction(second[j])
        ensures TabToken(DecimalString(r1[i])) != TabToken(DecimalString(r2[j]))
      {
        AutoTokensDistinct(r1[i], r2[j]);
      }
    }
  }

  /** The pairing of accumulated headers with the panels of a block: one header
      per panel with the same token, no nested menu, and exactly the first
      panel active. */
  predicate Paired(titles: seq<Header>, nodes: seq<Node>) {
    && (forall k :: 0 <= k < |nodes| ==> !nodes[k].Menu? && !nodes[k].Container?)
    && |titles| == |PanelsIn(nodes)|
    && (forall i :: 0 <= i < |titles| ==> titles[i].token == PanelsIn(nodes)[i].token && IsToken(titles[i].token))
    && (forall i :: 0 <= i < |titles| ==> (PanelsIn(nodes)[i].active <==> i == 0))
  }

  /** The output of a tabs block: a container whose first child is the header
      menu built from the accumulated headers, followed by the nodes of the
      nested invocations paired with those headers. */
  predicate TabsBlock(n: Node, titles: seq<Header>) {
    && n.Container?
    && n.classes == TabsClasses
    && |n.children| >= 1
    && n.children[0] == Menu(MenuClasses, MenuEntries(titles))
    && Paired(titles, n.children[1..])
  }

  function HeaderTitles(titles: seq<Header>): seq<string> {
    seq(|titles|, i requires 0 <= i < |titles| => titles[i].title)
  }

  /** A block's nodes after the reset: paired with the headers, one per action, in order. */
  lemma BlockFromStart(s: Scratch, actions: seq<Action>)
    requires s.tabTitles == [] && s.isFirstTab && s.hasBlockKeys
    ensures var out := Block(s, actions);
      out.1.Ok? ==>
        && Paired(out.0.tabTitles, out.1.value)
        && |out.1.value| == |actions|
        && (forall k :: 0 <= k < |actions| ==> Fits(actions[k], out.1.value[k]))
        && HeaderTitles(out.0.tabTitles) == Names(actions)
  {
    BlockNodes(s, actions);
    BlockTitles(s, actions);
    BlockActive(s, actions);
    var out := Block(s, actions);
    if out.1.Ok? {
      PairedFrom(out.0.tabTitles, out.1.value, actions);
    }
  }

  /** Headers built pairwise from the panels among nodes that fit the actions
      pair with those nodes, when the panels carry tokens and only the first is active. */
  lemma PairedFrom(titles: seq<Header>, nodes: seq<Node>, actions: seq<Action>)
    requires |nodes| == |actions| && forall k :: 0 <= k < |actions| ==> Fits(actions[k], nodes[k])
    requires |Names(actions)| == |PanelsIn(nodes)| && titles == HeadersFor(PanelsIn(nodes), Names(actions))
    requires forall i :: 0 <= i < |PanelsIn(nodes)| ==>
      IsToken(PanelsIn(nodes)[i].token) && (PanelsIn(nodes)[i].active <==> i == 0)
    ensures Paired(titles, nodes) && HeaderTitles(titles) == Names(actions)
  {
    forall k | 0 <= k < |nodes| ensures !nodes[k].Menu? && !nodes[k].Container? {
      assert Fits(actions[k], nodes[k]);
    }
  }

  /** `tabs` as a function of the scratch state: reset it, run the nested
      invocations in order, then put the menu built from the accumulated
      headers in front of their nodes. */
  function TabsOutcome(s: Scratch, content: seq<Invocation>, lexers: map<string, string>,
                       decode: string -> Option<TabRecord>, dumps: TabRecord -> string): (out: (Scratch, Result<Node, Error>))
    ensures content == [] ==> out == (s, Err(ContentRequired))
    ensures content != [] ==> out.0.hasBlockKeys && out.0.serial >= s.serial
    ensures var actions := Actions(content, lexers, decode, dumps);
      // the block fails exactly when one of its invocations raises or registers a tab without a name
      && (content != [] ==> (out.1.Ok? <==> forall k :: 0 <= k < |actions| ==> Accepted(actions[k])))
      // one child per invocation after the menu, in source order; headers and panels paired
      && (out.1.Ok? ==>
        && TabsBlock(out.1.value, out.0.tabTitles)
        && |out.1.value.children| == |actions| + 1
        && (forall k :: 0 <= k < |actions| ==> Fits(actions[k], out.1.value.children[k + 1]))
        && HeaderTitles(out.0.tabTitles) == Names(actions))
  {
    if content == [] then (s, Err(ContentRequired))
    else TabsOf(BlockStart(s), Actions(content, lexers, decode, dumps))
  }

  /** The block run from the reset state, with the menu put first. */
  function TabsOf(s: Scratch, actions: seq<Action>): (out: (Scratch, Result<Node, Error>))
    requires s.tabTitles == [] && s.isFirstTab && s.hasBlockKeys
    ensures out.0.hasBlockKeys && out.0.serial >= s.serial
    ensures out.1.Ok? <==> forall k :: 0 <= k < |actions| ==> Accepted(actions[k])
    ensures out.1.Ok? ==>
      && TabsBlock(out.1.value, out.0.tabTitles)
      && |out.1.value.children| == |actions| + 1
      && (forall k :: 0 <= k < |actions| ==> Fits(actions[k], out.1.value.children[k + 1]))
      && HeaderTitles(out.0.tabTitles) == Names(actions)
  {
    var b := Block(s, actions);
    BlockAccepts(s, actions);
    BlockFromStart(s, actions);
    if b.1.Err? then (b.0, Err(b.1.error))
    else
      var children := [Menu(MenuClasses, MenuEntries(b.0.tabTitles))] + b.1.value;
      assert children[1..] == b.1.value;
      (b.0, Ok(Container(TabsClasses, children)))
  }

  /** Two tabs blocks run one after the other on the same scratch state (the
      counter never goes down between them): every panel either block
      registers without an explicit id has a token of its own. */
  lemma AutoTokensDistinctAcrossTabs(s: Scratch, c1: seq<Invocation>, t: Scratch, c2: seq<Invocation>,
                                     lexers: map<string, string>, decode: string -> Option<TabRecord>,
                                     dumps: TabRecord -> string)
    requires TabsOutcome(s, c1, lexers, decode, dumps).0.serial <= t.serial
    ensures var a1 := Actions(c1, lexers, decode, dumps);
      var a2 := Actions(c2, lexers, decode, dumps);
      var o1 := TabsOutcome(s, c1, lexers, decode, dumps);
      var o2 := TabsOutcome(t, c2, lexers, decode, dumps);
      o1.1.Ok? && o2.1.Ok? ==>
        forall i, j :: 0 <= i < |a1| && 0 <= j < |a2| && AutoAction(a1[i]) && AutoAction(a2[j]) ==>
          o1.1.value.children[i + 1].PanelNode? && o2.1.value.children[j + 1].PanelNode?
          && o1.1.value.children[i + 1].panel.token != o2.1.value.children[j + 1].panel.token
  {
    var a1 := Actions(c1, lexers, decode, dumps);
    var a2 := Actions(c2, lexers, decode, dumps);
    var o1 := TabsOutcome(s, c1, lexers, decode, dumps);
    var o2 := TabsOutcome(t, c2, lexers, decode, dumps);
    if o1.1.Ok? && o2.1.Ok? {
      var b1 := Block(BlockStart(s), a1);
      var b2 := Block(BlockStart(t), a2);
      assert o1.0 == b1.0 && o1.1.value.children[1..] == b1.1.value;
      assert o2.1.value.children[1..] == b2.1.value;
      AutoTokensDistinctAcrossBlocks(BlockStart(s), a1, BlockStart(t), a2);
      forall i, j | 0 <= i < |a1| && 0 <= j < |a2| && AutoAction(a1[i]) && AutoAction(a2[j])
        ensures o1.1.value.children[i + 1] == b1.1.value[i] && o2.1.value.children[j + 1] == b2.1.value[j]
      {
      }
    }
  }

  /** The outcome of the actions still to run, behind the nodes already produced. */
  function Behind(nodes: seq<Node>, rest: (Scratch, Result<seq<Node>, Error>)): (Scratch, Result<seq<Node>, Error>) {
    (rest.0, if rest.1.Ok? then Ok(nodes + rest.1.value) else rest.1)
  }

  /** Before any action has run, nothing is behind. */
  lemma BlockBegun(s: Scratch, actions: seq<Action>)
    ensures Block(s, actions) == Behind([], Block(s, actions[0..]))
  {
    assert actions[0..] == actions;
    var out := Block(s, actions);
    assert out.1.Ok? ==> [] + out.1.value == out.1.value;
  }

  /** Running the action at k either ends the block with its error or moves
      its node behind. */
  lemma BlockAdvance(start: Scratch, actions: seq<Action>, k: nat, done: seq<Node>, s: Scratch)
    requires k < |actions|
    requires Block(start, actions) == Behind(done, Block(s, actions[k..]))
    ensures var first := Step(s, actions[k]);
      && (first.1.Err? ==> Block(start, actions) == (first.0, Err(first.1.error)))
      && (first.1.Ok? ==>
            Block(start, actions) == Behind(done + [first.1.value], Block(first.0, actions[k + 1..])))
  {
    assert actions[k..][0] == actions[k];
    assert actions[k..][1..] == actions[k + 1..];
    var first := Step(s, actions[k]);
    if first.1.Ok? {
      var rest := Block(first.0, actions[k + 1..]);
      assert rest.1.Ok? ==> done + ([first.1.value] + rest.1.value) == (done + [first.1.value]) + rest.1.value;
    }
  }

  /** After the last action, the block's outcome is the state reached and the
      nodes behind. */
  lemma BlockEnded(start: Scratch, actions: seq<Action>, done: seq<Node>, s: Scratch)
    requires Block(start, actions) == Behind(done, Block(s, actions[|actions|..]))
    ensures Block(start, actions) == (s, Ok(done))
  {
    assert actions[|actions|..] == [];
    assert done + [] == done;
  }

  /** `tabs`: reset the state, run the nested invocations in order, then put
      the header menu first. */
  method RunTabs(env: TempData, content: seq<Invocation>, lexers: map<string, string>,
                 decode: string -> Option<TabRecord>, dumps: TabRecord -> string)
    returns (r: Result<Node, Error>)
    modifies env
    ensures content == [] ==> r == Err(ContentRequired) && unchanged(env)
    ensures (env.State(), r) == TabsOutcome(old(env.State()), content, lexers, decode, dumps)
  {
    if content == [] {
      return Err(ContentRequired);
    }
    env.BeginBlock();
    ghost var start := env.State();
    ghost var actions := Actions(content, lexers, decode, dumps);
    var children: seq<Node> := [];
    var k := 0;
    BlockBegun(start, actions);
    while k < |content|
      invariant 0 <= k <= |content|
      invariant Block(start, actions) == Behind(children, Block(env.State(), actions[k..]))
    {
      BlockAdvance(start, actions, k, children, env.State());
      assert actions[k] == ActionOf(content[k], lexers, decode, dumps);
      var n := Dispatch(env, content[k], lexers, decode, dumps);
      if n.Err? {
        return Err(n.error);
      }
      children := children + [n.value];
      k := k + 1;
    }
    BlockEnded(start, actions, children, env.State());
    var entries := BuildMenu(env.tabTitles);
    r := Ok(Container(TabsClasses, [Menu(MenuClasses, entries)] + children));
  }

  /** What a renderer relies on in a tabs block: the menu comes first and is the
      only menu; it has one entry per panel; entry i ends with the token of
      panel i and carries its header's title; and exactly the first entry and
      the first panel are active. */
  lemma BlockShape(n: Node, titles: seq<Header>)
    requires TabsBlock(n, titles)
    ensures n.children[0].Menu?
    ensures forall k :: 1 <= k < |n.children| ==> !n.children[k].Menu?
    ensures var entries := n.children[0].entries;
      var panels := PanelsIn(n.children[1..]);
      && |entries| == |panels|
      && (forall i :: 0 <= i < |entries| ==>
            && entries[i].classes[|entries[i].classes| - 1] == panels[i].token
            && entries[i].text == titles[i].title
            && ("active" in entries[i].classes <==> i == 0)
            && (panels[i].active <==> i == 0))
  {
  }

  // ---------------------------------------------------------------------------
  // The two-tab example

  /** A tab registered under a one-word title inside a block takes the next
      serial number as its id and no extra classes. */
  lemma RegisterBare(s: Scratch, w: string, body: seq<string>)
    requires s.hasBlockKeys
    ensures var t := TabToken(DecimalString(s.serial));
      Register(s, BareTitle(w), body)
      == (Scratch(s.tabTitles + [Header(t, w)], false, true, s.serial + 1),
          Ok(Panel(t, PanelClasses([], t, s.isFirstTab), s.isFirstTab, body)))
  {
    assert ResolvedId(BareTitle(w), s.serial) == DecimalString(s.serial);
    assert BareTitle(w).Classes() == [];
  }

  /** The step of registering under a one-word title inside a block. */
  lemma StepBare(s: Scratch, w: string, body: seq<string>)
    requires s.hasBlockKeys
    ensures var t := TabToken(DecimalString(s.serial));
      Step(s, Enroll(BareTitle(w), body))
      == (Scratch(s.tabTitles + [Header(t, w)], false, true, s.serial + 1),
          Ok(PanelNode(Panel(t, PanelClasses([], t, s.isFirstTab), s.isFirstTab, body))))
  {
    RegisterBare(s, w, body);
  }

  /** The blocks of two registrations under one-word titles from the reset
      state: the two panels in order, numbered consecutively. */
  lemma TwoBareBlock(s: Scratch, a: string, b: string, bodyA: seq<string>, bodyB: seq<string>)
    ensures var ta := TabToken(DecimalString(s.serial));
      var tb := TabToken(DecimalString(s.serial + 1));
      Block(BlockStart(s), [Enroll(BareTitle(a), bodyA), Enroll(BareTitle(b), bodyB)])
      == (Scratch([Header(ta, a), Header(tb, b)], false, true, s.serial + 2),
          Ok([PanelNode(Panel(ta, PanelClasses([], ta, true), true, bodyA)),
              PanelNode(Panel(tb, PanelClasses([], tb, false), false, bodyB))]))
  {
    var ta := TabToken(DecimalString(s.serial));
    var tb := TabToken(DecimalString(s.serial + 1));
    var s0 := BlockStart(s);
    var s1 := Scratch([Header(ta, a)], false, true, s.serial + 1);
    StepBare(s0, a, bodyA);
    StepBare(s1, b, bodyB);
    assert s0.serial == s.serial && [] + [Header(ta, a)] == s1.tabTitles;
    assert s1.tabTitles + [Header(tb, b)] == [Header(ta, a), Header(tb, b)];
    BlockOfTwo(s0, Enroll(BareTitle(a), bodyA), Enroll(BareTitle(b), bodyB));
  }

  /** A block of two actions that both succeed holds their two nodes in order. */
  lemma BlockOfTwo(s: Scratch, x: Action, y: Action)
    requires Step(s, x).1.Ok? && Step(Step(s, x).0, y).1.Ok?
    ensures Block(s, [x, y])
      == (Step(Step(s, x).0, y).0, Ok([Step(s, x).1.value, Step(Step(s, x).0, y).1.value]))
  {
    var actions := [x, y];
    var first := Step(s, x);
    var second := Step(first.0, y);
    assert actions[0] == x && actions[1..] == [y] && [y][0] == y && [y][1..] == [];
    assert Block(second.0, []) == (second.0, Ok([]));
    assert Block(first.0, [y]) == (second.0, Ok([second.1.value] + []));
    assert [second.1.value] + [] == [second.1.value];
    assert [first.1.value] + [second.1.value] == [first.1.value, second.1.value];
  }

  /** Two registrations under one-word titles from the reset state: two
      headers with consecutive serial numbers in order, the first menu entry
      and panel active and the second not. */
  lemma TwoBareTabs(s: Scratch, a: string, b: string, bodyA: seq<string>, bodyB: seq<string>)
    ensures var ta := TabToken(DecimalString(s.serial));
      var tb := TabToken(DecimalString(s.serial + 1));
      TabsOf(BlockStart(s), [Enroll(BareTitle(a), bodyA), Enroll(BareTitle(b), bodyB)])
      == (Scratch([Header(ta, a), Header(tb, b)], false, true, s.serial + 2),
          Ok(Container(TabsClasses, [
            Menu(MenuClasses, [MenuEntry(["active", "item", ta], a), MenuEntry(["item", tb], b)]),
            PanelNode(Panel(ta, PanelClasses([], ta, true), true, bodyA)),
            PanelNode(Panel(tb, PanelClasses([], tb, false), false, bodyB))])))
  {
    var actions := [Enroll(BareTitle(a), bodyA), Enroll(BareTitle(b), bodyB)];
    var ta := TabToken(DecimalString(s.serial));
    var tb := TabToken(DecimalString(s.serial + 1));
    var s0 := BlockStart(s);
    var s2 := Scratch([Header(ta, a), Header(tb, b)], false, true, s.serial + 2);
    var pa := PanelNode(Panel(ta, PanelClasses([], ta, true), true, bodyA));
    var pb := PanelNode(Panel(tb, PanelClasses([], tb, false), false, bodyB));
    TwoBareBlock(s, a, b, bodyA, bodyB);
    assert Block(s0, actions) == (s2, Ok([pa, pb]));
    assert HeaderClasses(0, ta) == ["active", "item", ta] && HeaderClasses(1, tb) == ["item", tb];
    var menu := Menu(MenuClasses, MenuEntries(s2.tabTitles));
    assert MenuEntries(s2.tabTitles) == [MenuEntry(["active", "item", ta], a), MenuEntry(["item", tb], b)];
    assert [menu] + [pa, pb] == [menu, pa, pb];
    assert TabsOf(s0, actions) == (s2, Ok(Container(TabsClasses, [menu, pa, pb])));
  }

  /** A `tab` directive whose first line is one word and whose second is
      blank registers under that word with the lines after the blank one. */
  lemma BareTabAction(w: string, body: seq<string>, lexers: map<string, string>,
                      decode: string -> Option<TabRecord>, dumps: TabRecord -> string)
    requires IsWord(w)
    ensures ActionOf(TabCall([w, ""] + body), lexers, decode, dumps) == Enroll(BareTitle(w), body)
  {
    BareTitleOfWord(w, decode);
    assert Body([w, ""] + body) == body;
  }

  lemma ActionsOfTwo(x: Invocation, y: Invocation, lexers: map<string, string>,
                     decode: string -> Option<TabRecord>, dumps: TabRecord -> string)
    ensures Actions([x, y], lexers, decode, dumps) == [ActionOf(x, lexers, decode, dumps), ActionOf(y, lexers, decode, dumps)]
  {
  }

  /** Two `tab` directives with one-word titles, in a tabs block: the
      outcome of the two registrations above. */
  lemma TwoTabs(s: Scratch, a: string, b: string, bodyA: seq<string>, bodyB: seq<string>,
                lexers: map<string, string>, decode: string -> Option<TabRecord>, dumps: TabRecord -> string)
    requires IsWord(a) && IsWord(b)
    ensures var ta := TabToken(DecimalString(s.serial));
      var tb := TabToken(DecimalString(s.serial + 1));
      TabsOutcome(s, [TabCall([a, ""] + bodyA), TabCall([b, ""] + bodyB)], lexers, decode, dumps)
      == (Scratch([Header(ta, a), Header(tb, b)], false, true, s.serial + 2),
          Ok(Container(TabsClasses, [
            Menu(MenuClasses, [MenuEntry(["active", "item", ta], a), MenuEntry(["item", tb], b)]),
            PanelNode(Panel(ta, PanelClasses([], ta, true), true, bodyA)),
            PanelNode(Panel(tb, PanelClasses([], tb, false), false, bodyB))])))
  {
    var content := [TabCall([a, ""] + bodyA), TabCall([b, ""] + bodyB)];
    BareTabAction(a, bodyA, lexers, decode, dumps);
    BareTabAction(b, bodyB, lexers, decode, dumps);
    ActionsOfTwo(content[0], content[1], lexers, decode, dumps);
    TwoBareTabs(s, a, b, bodyA, bodyB);
  }

  /** Scenario: "Unix" then "Windows" in a new document, each a `tab`
      directive with a one-line body. */
  method UnixWindowsExample(lexers: map<string, string>, decode: string -> Option<TabRecord>, dumps: TabRecord -> string)
    returns (r: Result<Node, Error>)
    ensures r.Ok? && r.value.Container? && |r.value.children| == 3
    ensures r.value.children[0] == Menu(MenuClasses, [
      MenuEntry(["active", "item", TabToken("0")], "Unix"),
      MenuEntry(["item", TabToken("1")], "Windows")])
    ensures r.value.children[1] == PanelNode(Panel(TabToken("0"), PanelClasses([], TabToken("0"), true), true, ["Unix text"]))
    ensures r.value.children[2] == PanelNode(Panel(TabToken("1"), PanelClasses([], TabToken("1"), false), false, ["Windows text"]))
  {
    var env := new TempData();
    var unix: seq<string> := ["Unix", ""] + ["Unix text"];
    var windows: seq<string> := ["Windows", ""] + ["Windows text"];
    UnixWindowsWords();
    TwoTabs(Scratch([], false, false, 0), "Unix", "Windows", ["Unix text"], ["Windows text"], lexers, decode, dumps);
    r := RunTabs(env, [TabCall(unix), TabCall(windows)], lexers, decode, dumps);
  }

  /** The facts about the example's literals the scenario needs. */
  lemma UnixWindowsWords()
    ensures IsWord("Unix") && IsWord("Windows")
    ensures DecimalString(0) == "0" && DecimalString(0 + 1) == "1"
  {
  }
}
