# sphinx-tabs: tab directives as a verified Dafny model

sphinx-tabs adds four directives to Sphinx. `tabs` opens a tabbed container.
`tab`, `group-tab` and `code-tab` add one panel to it. This project models the
per-document logic in `sphinx_tabs/tabs.py` that turns these directives into
two things: a header menu, and the panels that follow it.

- **`wrappers.dfy`** (`Wrappers`): `Option` and `Result`.
- **`pystr.dfy`** (`PyStr`): the Python string operations the directives use,
  on ASCII text. These are `str.isspace`, `lower`, `strip`, `split()`,
  `join` and the decimal formatting of a serial number. The module also proves
  the facts about splitting and joining that the other modules need.
- **`slug.dfy`** (`Slugify`): the id rule `'-'.join(s.lower().split())` and
  its properties:
  - its output has no whitespace and no upper-case letter;
  - it is idempotent;
  - letter case, the length of whitespace runs and outer whitespace do not
    change it.
- **`tabargs.dfy`** (`TabArgs`): the fields a tab is registered with, and the
  error kinds. It decodes the first line of a `tab` into a bare title or a
  structured record, builds the group-tab record, resolves the code-tab title
  and builds the `sphinx-data-tab-<id>` token.
- **`tracker.dfy`** (`Tracker`): the class `TempData`, the scratch state kept
  in `env.temp_data`. It holds the header accumulator `tab_titles`, the
  `is_first_tab` flag, the serial counter behind `env.new_serialno('tab_id')`,
  and whether a tabs block has set the keys up. Its methods are `BeginBlock`,
  `NewSerial` and `AddTab`. The effect of a registration is stated once, as
  the function `Register` on the state as a value (`Scratch`). The two-state
  predicate `TabAdded` ties `AddTab` to it.
- **`directives.dfy`** (`Directives`): `RunTab`, `RunGroupTab`, `RunCodeTab`
  and `RunTabs`.
  - The menu-building loop is a method, `BuildMenu`. So are the loops that
    indent content and insert synthetic lines, `IndentLines` and
    `InsertLines`. The source assigns into `content.data`; these methods
    return the updated sequence instead.
  - What an invocation inside a block does is decided by `ActionOf`: keep
    its lines, report an error in place, raise an error that ends the block,
    or register a tab. `Step` applies one action to the scratch state.
    `Block` and `TabsOutcome` run a block's actions in order and put the
    menu first.
  - `Dispatch` and `RunTabs` are proved to produce exactly what `Step` and
    `TabsOutcome` say. The lemmas about `Block` give success, one child per
    invocation, the header order and the active panel.
  - `TabsBlock` and `BlockShape` state the pairing between headers and panels.
  - `GroupTabStep` and `CodeTabStep` give the token a shorthand's panel and
    header get: that of the slug of the group name or title, whichever block
    the shorthand is in.
  - `AutoTokensDistinctInBlock` and `AutoTokensDistinctAcrossTabs` state that
    tabs without an explicit id never share a token within a document.
  - `UnixWindowsExample` builds a block with the tabs "Unix" and "Windows"
    on a new document, and its contract gives the exact menu and panels.

Opaque parts are parameters:
- the JSON decoder is `decode: string -> Option<TabRecord>`;
- the JSON encoder used to write the synthetic `.. tab::` line is
  `dumps: TabRecord -> string`;
- the language table `LEXER_MAP` is `lexers: map<string, string>`.

The shorthands write `dumps(record)` into their synthetic `tab` line, and the
nested `tab` decodes that line with `decode` like any other title line.
`EncodedTitleDecodes` states when this gives back the shorthand's own record:
the decoder must read back what the encoder wrote, and the encoded line must
have more than one word.

The generic parser is not modelled. A tabs block's content is given as the
sequence of invocations the parser finds in it (`Invocation`). A panel keeps
as its body the lines it would hand to the parser.

What docutils does with a nested directive's lines is modelled as far as the
shorthands need (`NestedBlock`). docutils removes the common indentation of
the non-blank lines (`CommonIndent`, `Unindent`) and drops trailing blank
lines (`TrimTrailingBlank`).
- For a `group-tab`, the nested `tab` therefore gets the group-tab's lines
  after the first two, dedented as a block. They come through unchanged when
  some non-blank line is at indentation zero (`NestedBlockUnchanged`).
  When the group name is written on the marker line (`.. group-tab:: Linux`),
  docutils hands the group-tab its body already dedented. So this holds
  whenever the group-tab's second content line is blank and its body has a
  non-blank line.
- When every body line is indented, that indentation is removed too
  (`NestedBlockDedents`). This happens when the group name sits on its own
  line. For `.. group-tab::`, then `   Linux`, a blank line and `      body`,
  docutils removes only the name line's indentation. The group-tab then
  receives `Linux`, a blank line and `   body`, and the panel's body is `body`.
- For a `code-tab`, the synthetic code-block line at indentation three fixes
  the common indentation (`CodeBlockUnindented`).

Error handling follows the code rather than a per-invocation isolation of all
errors.
- An empty directive body fails `assert_has_content`. That is a directive
  error: the parser reports it in place (`Problem` node) and the block goes
  on.
- Every other failure is a Python exception and ends the block (`Err` out of
  `RunTabs`). These are a JSON error, a missing `tab_name`, a `tab` outside
  any `tabs` block, a shorthand with a single content line, a blank code-tab
  line and an unknown language.

This distinction, and the `IndexError` raised by `StringList.trim_start(2)` on
one line, are docutils behaviour. docutils is not part of this model.

Details the model keeps from the code:
- A record without `tab_id` takes a serial number before it fails on a
  missing `tab_name` (lines 92-97).
- A `tab` after a finished block still finds that block's keys, and its
  header is appended to the old accumulator.
  - It is active when that block registered no tab. Only a registration
    clears `is_first_tab` (lines 107-109), so the flag is then still set.
  - Otherwise it is not active.
- A group name is used as the title without stripping.
- A group name that is the decimal text of a serial number, such as `0` or
  `12`, gets the same token as the automatically numbered tab with that number
  (`GroupTokenCanMatchAutoToken`).
  - Tokens are compared as text. A name with a leading zero, such as `07`,
    shares no token with any automatically numbered tab
    (`LeadingZeroLabelIsNoAutoToken`), because `"{}".format` writes no
    leading zero (`DecimalString`).

## Model

| member | source | states |
|---|---|---|
| PyStr.Lower | sphinx_tabs/tabs.py:131 | no upper-case letter is left, the length is kept, and every position holds whitespace exactly when it did before |
| PyStr.Strip | sphinx_tabs/tabs.py:86 | the result is the input with a whitespace-only prefix and a whitespace-only suffix removed, and it neither starts nor ends with whitespace |
| PyStr.Split | sphinx_tabs/tabs.py:87 | every word of `split()` is non-empty and free of whitespace |
| PyStr.SplitStrip | sphinx_tabs/tabs.py:158 | stripping before splitting does not change the words |
| PyStr.StrippedSingleWord | sphinx_tabs/tabs.py:86-88 | a line with exactly one word strips to that word, so a bare title is the word itself |
| PyStr.SplitJoin | sphinx_tabs/tabs.py:162 | words joined by single spaces split back into the same words |
| PyStr.Join | sphinx_tabs/tabs.py:162 | no contract of its own; `SplitJoin` proves that words joined by a whitespace separator split back into the same words, and `JoinNoSpace`/`JoinNoUpper` that joining keeps the words' character classes |
| PyStr.DecimalString | sphinx_tabs/tabs.py:93-95 | the text of a serial number is non-empty and all decimal digits, and starts with `0` only for the number zero; `DecimalRoundTrip` reads the number back from it |
| PyStr.DecimalRoundTrip | sphinx_tabs/tabs.py:93-95 | the decimal text of a serial number reads back as that number |
| PyStr.DecimalInjective | sphinx_tabs/tabs.py:93-95 | distinct serial numbers format to distinct ids |
| Slugify.Slug | sphinx_tabs/tabs.py:131 | the slug contains no whitespace and no upper-case letter |
| Slugify.SlugIdempotent | sphinx_tabs/tabs.py:131 | slugging a slug gives it back unchanged |
| Slugify.SlugIgnoresCase | sphinx_tabs/tabs.py:131 | strings that differ only in letter case have the same slug |
| Slugify.SlugCollapsesSpaceRun | sphinx_tabs/tabs.py:131 | replacing one whitespace run by another, of any length, keeps the slug |
| Slugify.SlugIgnoresOuterSpace | sphinx_tabs/tabs.py:131 | leading and trailing whitespace do not change the slug |
| Slugify.SlugOfSpacedWords | sphinx_tabs/tabs.py:168 | lower-case words joined by spaces slug to the same words joined by hyphens |
| Slugify.SlugExample | sphinx_tabs/tabs.py:131 | "My Example" and "my   example" both slug to "my-example" |
| TabArgs.TabToken | sphinx_tabs/tabs.py:95 | no contract of its own; `TabTokenInjective` proves that every token starts with `sphinx-data-tab-` and that the token determines its id |
| TabArgs.TabTokenInjective | sphinx_tabs/tabs.py:95 | every token starts with `sphinx-data-tab-`, and two tokens are equal exactly when their ids are |
| TabArgs.AutoTokensDistinct | sphinx_tabs/tabs.py:92-95 | automatic ids from distinct serial numbers give distinct tokens |
| TabArgs.DecodeTitleLine | sphinx_tabs/tabs.py:86-90 | the line is a bare title exactly when it has one word, and that word is the title; otherwise the result is the decoder's record for the stripped line, or MalformedTitle when the decoder rejects it |
| TabArgs.BareTitleOfWord | sphinx_tabs/tabs.py:86-88 | a one-word title line such as "Unix" decodes to that word as a bare title, whatever the JSON decoder does |
| TabArgs.EncodedTitleDecodes | sphinx_tabs/tabs.py:86-90 | when the decoder reads back what the encoder wrote and the encoded line has more than one word, a shorthand's synthetic title line decodes to the record it was written from |
| TabArgs.GroupTabRecord | sphinx_tabs/tabs.py:130-133 | a group tab's title is its group name, its id is exactly the slug of that name (so free of whitespace and upper case), and it has no classes |
| TabArgs.GroupTokensAgree | sphinx_tabs/tabs.py:130-133 | group names with the same lower-cased words give the same token, whichever blocks they are in |
| TabArgs.GroupTokenCanMatchAutoToken | sphinx_tabs/tabs.py:93-95 | for every serial number, the group name that is its decimal text gets the same token as the tab automatically given that number |
| TabArgs.LeadingZeroLabelIsNoAutoToken | sphinx_tabs/tabs.py:93-95 | the group name "07" gets a token different from that of every automatically numbered tab |
| TabArgs.CodeTabTitle | sphinx_tabs/tabs.py:161-162 | with title words, the title is those words joined by single spaces, and it splits back into them; with none, the title is the table's entry for the language, and an unknown language is UnknownLanguage |
| TabArgs.CodeTabTitleIgnoresTable | sphinx_tabs/tabs.py:162 | with title words present, the title does not depend on the lexer table |
| TabArgs.CodeTabArgs | sphinx_tabs/tabs.py:158-171 | a blank line is MissingLanguage; otherwise the language is the first word, and the record has the resolved title, the slug of that title as id and the single class `code-tab` |
| TabArgs.CodeTabExample | sphinx_tabs/tabs.py:158-171 | "python" with the table entry "Python" gives title "Python", id "python" and class `code-tab` |
| Tracker.PanelClasses | sphinx_tabs/tabs.py:102-109 | no contract of its own; `PanelClassOrder` states the order of the classes and when `active` is among them |
| Tracker.PanelClassOrder | sphinx_tabs/tabs.py:102-109 | the panel classes are the six base classes, then the supplied classes in order, then the token, then `active`; when no supplied class is `active`, the marker is there exactly for the active panel |
| Tracker.ResolvedId | sphinx_tabs/tabs.py:92-93 | an explicit id is used verbatim; otherwise the id is a non-empty string of decimal digits whose value is the serial number, with a leading `0` only for serial number zero |
| Tracker.BlockStart | sphinx_tabs/tabs.py:58-59 | the reset state has no headers, the first-tab flag set, the block keys present and the serial counter unchanged; `TempData.BeginBlock` is proved to produce exactly it |
| Tracker.Register | sphinx_tabs/tabs.py:92-109 | the serial counter advances exactly when no explicit id is given, even when registration then fails. Registration fails outside a block (NoEnclosingTabs) or without a name (MissingTabName), leaving headers and flag unchanged. On success the token is built from the resolved id, `(token, name)` is appended, the panel gets the ordered class list and the body, it is active exactly when the flag was set, and the flag is cleared |
| Tracker.TempData.BeginBlock | sphinx_tabs/tabs.py:58-59 | the header accumulator is emptied, the first-tab flag is set and the serial counter is kept |
| Tracker.TempData.NewSerial | sphinx_tabs/tabs.py:93 | returns the current serial number and advances the counter by one |
| Tracker.TempData.AddTab | sphinx_tabs/tabs.py:92-109 | the new scratch state and the result are exactly those of `Register` on the old state |
| Directives.BuildMenu | sphinx_tabs/tabs.py:62-69 | the loop builds one entry per accumulated header, in order: `['active','item',token]` at index 0 and `['item',token]` after it, with the header's title |
| Directives.HeaderClasses | sphinx_tabs/tabs.py:66-67 | no contract of its own; `MenuActiveOnlyFirst` proves that the classes of entry i end with its token and contain `active` exactly for i = 0 |
| Directives.MenuEntries | sphinx_tabs/tabs.py:63-69 | no contract of its own; `BuildMenu` is proved to produce it, and `MenuActiveOnlyFirst` states its entries' classes and texts |
| Directives.MenuActiveOnlyFirst | sphinx_tabs/tabs.py:63-67 | every entry ends with its header's token and carries its title, and only entry 0 contains `active` |
| Directives.IndentLines | sphinx_tabs/tabs.py:127-128 | the loop puts the padding in front of every content line and changes nothing else |
| Directives.InsertLines | sphinx_tabs/tabs.py:140-142 | inserting the synthetic lines one by one at indices 0, 1, ... puts them in front of the content in order |
| Directives.NestedBlock | sphinx_tabs/tabs.py:144-145 | no contract of its own; what the nested directive receives from its lines is stated by `CommonIndentIsLeast`, `NestedBlockPadded`, `NestedBlockUnchanged`, `NestedBlockDedents` and `BodyAfterBlankLine` |
| Directives.CommonIndentIsLeast | sphinx_tabs/tabs.py:145 | the common indentation of a nested block is absent exactly when every line is blank; otherwise it is at most the indentation of every non-blank line and equal to that of one of them |
| Directives.NestedBlockPadded | sphinx_tabs/tabs.py:127-145 | indenting every line of a block by whitespace does not change what a nested directive receives from it |
| Directives.NestedBlockUnchanged | sphinx_tabs/tabs.py:144-145 | lines that end on a non-blank line and have a non-blank line at indentation zero reach the nested directive unchanged |
| Directives.NestedBlockDedents | sphinx_tabs/tabs.py:124-145 | a one-line body indented by whitespace loses that indentation: `   body` reaches the nested tab as `body` |
| Directives.Body | sphinx_tabs/tabs.py:111 | no contract of its own; `BodyAfterBlankLine` proves that for content made of a title line, a blank line and a block, it is what the parser makes of the block |
| Directives.BodyAfterBlankLine | sphinx_tabs/tabs.py:135-145 | for content made of a title line, a blank line and a block, the body after the first two lines is what the parser makes of the block |
| Directives.CodeBlockUnindented | sphinx_tabs/tabs.py:164-185 | the code-block line at indentation three fixes the common indentation, so the nested tab receives a code-block directive for the language holding the code indented by three, with trailing blank lines dropped |
| Directives.ExpandGroupTab | sphinx_tabs/tabs.py:124-145 | the nested tab's title line is exactly the encoded record, and its body is what the parser makes of the group tab's lines after the first two |
| Directives.ExpandCodeTab | sphinx_tabs/tabs.py:158-185 | the nested tab's title line is exactly the encoded record, and its body is a code-block directive for the language whose content is the code lines indented by three, with trailing blank lines dropped |
| Directives.RunTab | sphinx_tabs/tabs.py:81-112 | empty content is ContentRequired and a rejected title line is MalformedTitle, both without a state change; otherwise the decoded fields are registered with the lines after the first two as body |
| Directives.RunGroupTab | sphinx_tabs/tabs.py:120-146 | empty content is ContentRequired and one line is TrimTooLarge, both without a state change; otherwise a tab is registered under the encoded group record, as the nested tab decodes it, with what the parser makes of the lines after the first two |
| Directives.RunCodeTab | sphinx_tabs/tabs.py:154-186 | errors come in the source's order, without a state change; otherwise a tab is registered under the encoded code-tab record, as the nested tab decodes it, with a code-block directive for the language that holds the code lines |
| Directives.TitledAction | sphinx_tabs/tabs.py:86-90 | a title line the decoder rejects raises MalformedTitle; otherwise the decoded fields are registered with the given body |
| Directives.ActionOf | sphinx_tabs/tabs.py:81-186 | other content is kept as it is; a directive without content is reported in place as ContentRequired; an error met before registering is raised and is never one reported in place; otherwise the directive registers under its title line |
| Directives.Step | sphinx_tabs/tabs.py:92-109 | only a registration changes the state. The serial counter advances by one exactly for a registration without an explicit id, and is kept otherwise. A registration yields a panel exactly when it succeeds, and inside a block it succeeds exactly when the fields carry a name. Its panel has the action's body and the token of the resolved id, and is active exactly when the flag was set. One header with that token and the name is appended, and the flag is cleared |
| Directives.Dispatch | sphinx_tabs/tabs.py:60 | the new scratch state and the node are exactly what `Step` gives for the invocation's action: a panel for a registered tab, the lines for other content, a problem node for empty content, and otherwise the error that ends the block |
| Directives.GroupTabStep | sphinx_tabs/tabs.py:124-133 | when the decoder reads back the encoded record, a group tab inside a block yields a panel whose token is that of the slug of its group name, in whichever block it stands, with no extra classes and the dedented body. Its header carries that token and the group name, and no serial number is taken |
| Directives.CodeTabStep | sphinx_tabs/tabs.py:158-185 | when the decoder reads back the encoded record, a code tab with a known language yields a panel whose token is that of the slug of its title. The panel has the class `code-tab` and a code-block directive for the language holding the code. Its header carries that token and the title, and no serial number is taken |
| Directives.Block | sphinx_tabs/tabs.py:60 | the block keys are kept and the serial counter never decreases; `BlockAccepts`, `BlockNodes`, `BlockTitles`, `BlockActive` and `BlockSerials` state the rest |
| Directives.BlockAccepts | sphinx_tabs/tabs.py:60 | inside a block, a run of actions goes through exactly when every action keeps lines, reports in place or registers a named tab |
| Directives.BlockNodes | sphinx_tabs/tabs.py:60 | a run that goes through leaves one node per action, in order, and node k fits action k |
| Directives.BlockTitles | sphinx_tabs/tabs.py:97 | the headers a block appends are one per panel, in order: header i carries the token of panel i and the name the i-th registering action carries |
| Directives.BlockActive | sphinx_tabs/tabs.py:107-109 | in a block started with the flag set, exactly the first panel is active, and the flag stays set only while no panel has been produced |
| Directives.Serials | sphinx_tabs/tabs.py:92-93 | one serial number per action; `SerialsIncrease` and `BlockSerials` state what they are |
| Directives.SerialsIncrease | sphinx_tabs/tabs.py:92-93 | the serial numbers a run finds start at the counter's value, and the one a registration without an explicit id takes is below every later one |
| Directives.BlockSerials | sphinx_tabs/tabs.py:92-95 | in a block that goes through, a registration without an explicit id leaves a panel whose token is built from the serial number it found, and that number is below the counter the block ends with |
| Directives.AutoTokensDistinctInBlock | sphinx_tabs/tabs.py:92-95 | within one block, two panels registered without an explicit id have different tokens |
| Directives.AutoTokensDistinctAcrossBlocks | sphinx_tabs/tabs.py:92-95 | two runs on a counter that does not go down in between: a panel of the first and a panel of the second, both registered without an explicit id, have different tokens |
| Directives.BlockFromStart | sphinx_tabs/tabs.py:58-60 | after the reset, the block's nodes are paired with the accumulated headers, one node per action |
| Directives.TabsOutcome | sphinx_tabs/tabs.py:44-73 | empty content is ContentRequired. Otherwise the block succeeds exactly when every invocation is accepted. Then it is a container with the menu first and one child per invocation after it, child k+1 fits invocation k, headers and panels are paired with exactly the first active, and the header titles are the registered names in source order |
| Directives.RunTabs | sphinx_tabs/tabs.py:44-73 | empty content is ContentRequired without a state change; otherwise the new scratch state and the result are exactly those of `TabsOutcome` |
| Directives.AutoTokensDistinctAcrossTabs | sphinx_tabs/tabs.py:92-95 | two tabs blocks run one after the other on the same scratch state: every panel either block registers without an explicit id has a token of its own |
| Directives.BlockShape | sphinx_tabs/tabs.py:62-71 | the menu is the first and only menu of the block. It has one entry per panel, and entry i ends with panel i's token and carries header i's title. Exactly entry 0 and panel 0 are active |
| Directives.TwoTabs | sphinx_tabs/tabs.py:44-112 | a block of two `tab` directives with one-word titles gives two headers with consecutive serial numbers in source order, the menu with the first entry active, the first panel active and the second not, and advances the counter by two |
| Directives.UnixWindowsExample | sphinx_tabs/tabs.py:44-112 | on a new document, the block with the tabs "Unix" and "Windows" gives the menu `['active','item','sphinx-data-tab-0']` "Unix" and `['item','sphinx-data-tab-1']` "Windows", then the active Unix panel and the inactive Windows panel |

## Left out

- `add_assets`, `copy_assets` and `setup` (lines 189-229) are host registration, logging and file copying, outside the directive logic.
- The construction of `LEXER_MAP` from pygments (lines 33-36): the table is the parameter `lexers`.
- `json.loads` and `json.dumps` are the opaque parameters `decode` and `dumps`. The model does not assume that one inverts the other; `EncodedTitleDecodes` states what follows when it does.
- Python's `str.isspace` and `str.lower` beyond ASCII: whitespace is the ASCII part of `isspace`, and only `A`..`Z` are lower-cased.
- docutils nodes, `nested_parse` and source offsets (`content.items`). Panels keep their body as lines, and a tabs block's content is the list of invocations the parser finds directly in it.
- Tab directives nested below another directive of the block, for example inside a tab body or a note. Registration works on the shared scratch state, so such a tab also appends a header (line 97), but its panel is not a direct child of the block. `Invocation` represents only direct children. The pairing that `TabsOutcome`, `TabsBlock` and `BlockShape` state therefore holds for blocks whose tab directives are all direct children.
- Nested `tabs` blocks inside a tab body: the inner block would reset the shared scratch state, and the code makes no promise about that. Bodies are not parsed here.
- The rest of docutils' block handling beyond `NestedBlock`, such as where an indented block ends and the source offsets, is not part of this model.
- Duplicate explicit ids: like the code, the model does not detect them.
