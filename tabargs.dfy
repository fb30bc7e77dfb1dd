/**
  The fields a tab is built from, and how each directive form produces them:
  the first content line of `tab` (a bare title or a structured record), the
  label of `group-tab`, and the language line of `code-tab`.
*/
module TabArgs {
  import opened Wrappers
  import opened PyStr
  import opened Slugify

  /** Why a directive produced no panel. Only ContentRequired is a directive
      error that the parser reports in place; the others are exceptions that
      end the processing of the document. */
  datatype Error =
    | ContentRequired              // the directive has no content lines
    | MalformedTitle               // json.loads rejects a title line that is not a single word
    | MissingTabName               // the structured record has no tab_name
    | NoEnclosingTabs              // a tab outside any tabs block: the block keys are missing
    | TrimTooLarge                 // fewer than two content lines to trim
    | MissingLanguage              // the code-tab line holds no word
    | UnknownLanguage(lang: string) // the language has no entry in the lexer table
  {
    predicate Reported() {
      ContentRequired?
    }
  }

  /** The keys of a structured title record: tab_name, tab_id, classes. */
  datatype TabRecord = TabRecord(name: Option<string>, id: Option<string>, classes: seq<string>)

  /** A decoded title line. */
  datatype TitleArgs = BareTitle(title: string) | Structured(record: TabRecord)
  {
    function Name(): Option<string> {
      match this
      case BareTitle(t) => Some(t)
      case Structured(r) => r.name
    }

    function ExplicitId(): Option<string> {
      match this
      case BareTitle(_) => None
      case Structured(r) => r.id
    }

    function Classes(): seq<string> {
      match this
      case BareTitle(_) => []
      case Structured(r) => r.classes
    }
  }

  const TokenPrefix: string := "sphinx-data-tab-"

  /** The token that binds a header entry to its panel. */
  function TabToken(id: string): string {
    TokenPrefix + id
  }

  predicate IsToken(t: string) {
    |TokenPrefix| <= |t| && t[..|TokenPrefix|] == TokenPrefix
  }

  /** A token determines its id: tokens are equal exactly when their ids are. */
  lemma TabTokenInjective(a: string, b: string)
    ensures IsToken(TabToken(a))
    ensures TabToken(a) == TabToken(b) <==> a == b
  {
  }

  /** Distinct serial numbers give distinct automatic tokens. */
  lemma AutoTokensDistinct(m: nat, n: nat)
    requires m != n
    ensures TabToken(DecimalString(m)) != TabToken(DecimalString(n))
  {
    DecimalInjective(m, n);
    TabTokenInjective(DecimalString(m), DecimalString(n));
  }

  /** The first content line of a tab: one word after stripping is a bare
      title; anything else is handed to the JSON decoder, which yields the
      record or rejects the text. */
  function DecodeTitleLine(line: string, decode: string -> Option<TabRecord>): (r: Result<TitleArgs, Error>)
    ensures (r.Ok? && r.value.BareTitle?) <==> |Split(line)| == 1
    ensures r.Ok? && r.value.BareTitle? ==> r.value.title == Split(line)[0]
    ensures |Split(line)| != 1 ==> (r.Ok? <==> decode(Strip(line)).Some?)
    ensures r.Ok? && r.value.Structured? ==> Some(r.value.record) == decode(Strip(line))
    ensures r.Err? ==> r.error == MalformedTitle
  {
    var args := Strip(line);
    SplitStrip(line);
    if |Split(args)| == 1 then
      StrippedSingleWord(line);
      Ok(BareTitle(args))
    else
      match decode(args)
      case Some(rec) => Ok(Structured(rec))
      case None => Err(MalformedTitle)
  }

  /** The fields a group-tab hands on: its label as title and the label's slug as id. */
  function GroupTabRecord(groupName: string): (rec: TabRecord)
    ensures rec.name == Some(groupName) && rec.classes == []
    ensures rec.id == Some(Slug(groupName))
    ensures NoSpace(rec.id.value) && NoUpper(rec.id.value)
  {
    TabRecord(Some(groupName), Some(Slug(groupName)), [])
  }

  /** Group labels that differ only in letter case or in whitespace runs give the same token. */
  lemma GroupTokensAgree(a: string, b: string)
    requires Split(Lower(a)) == Split(Lower(b))
    ensures TabToken(GroupTabRecord(a).id.value) == TabToken(GroupTabRecord(b).id.value)
  {
  }

  /** A group label may spell an automatic id: the label that is the decimal
      text of a serial number shares its token with the tab that number is
      given to. */
  lemma GroupTokenCanMatchAutoToken(n: nat)
    ensures TabToken(GroupTabRecord(DecimalString(n)).id.value) == TabToken(DecimalString(n))
  {
    var w := DecimalString(n);
    assert IsWord(w) && NoUpper(w);
    LowerKeepsLower(w);
    SplitWord(w);
    assert Join("-", [w]) == w;
  }

  /** Tokens compare as text: the label "07" is not the decimal text of any
      serial number, so it shares no token with an automatically numbered tab. */
  lemma LeadingZeroLabelIsNoAutoToken(n: nat)
    ensures TabToken(GroupTabRecord("07").id.value) != TabToken(DecimalString(n))
  {
    assert IsWord("07") && NoUpper("07");
    LowerKeepsLower("07");
    SplitWord("07");
    assert Join("-", ["07"]) == "07";
    TabTokenInjective("07", DecimalString(n));
  }

  /** The title of a code tab: the words after the language joined by single
      spaces, or else the lexer table's name for the language. */
  function CodeTabTitle(words: seq<string>, lexers: map<string, string>): (r: Result<string, Error>)
    requires |words| >= 1
    requires forall w :: w in words ==> IsWord(w)
    ensures |words| > 1 ==> r == Ok(Join(" ", words[1..])) && Split(r.value) == words[1..]
    ensures |words| == 1 ==> (r.Ok? <==> words[0] in lexers)
    ensures |words| == 1 && r.Ok? ==> r.value == lexers[words[0]]
    ensures r.Err? ==> r.error == UnknownLanguage(words[0])
  {
    if |words| > 1 then
      SplitJoin(" ", words[1..]);
      Ok(Join(" ", words[1..]))
    else if words[0] in lexers then
      Ok(lexers[words[0]])
    else
      Err(UnknownLanguage(words[0]))
  }

  /** An explicit code-tab title never consults the lexer table. */
  lemma CodeTabTitleIgnoresTable(words: seq<string>, m1: map<string, string>, m2: map<string, string>)
    requires |words| > 1
    requires forall w :: w in words ==> IsWord(w)
    ensures CodeTabTitle(words, m1) == CodeTabTitle(words, m2)
  {
  }

  /** What a code tab hands on: the language and the tab record. */
  datatype CodeTab = CodeTab(lang: string, record: TabRecord)

  /** The fields of a code tab from its first content line. */
  function CodeTabArgs(line: string, lexers: map<string, string>): (r: Result<CodeTab, Error>)
    ensures Split(line) == [] ==> r == Err(MissingLanguage)
    ensures Split(line) != [] ==> r.Ok? == CodeTabTitle(Split(line), lexers).Ok?
    ensures r.Ok? ==>
      var title := CodeTabTitle(Split(line), lexers).value;
      && r.value.lang == Split(line)[0]
      && r.value.record == TabRecord(Some(title), Some(Slug(title)), ["code-tab"])
    ensures r.Err? && Split(line) != [] ==> r.error == UnknownLanguage(Split(line)[0])
  {
    var words := Split(Strip(line));
    SplitStrip(line);
    if words == [] then
      Err(MissingLanguage)
    else
      match CodeTabTitle(words, lexers)
      case Err(e) => Err(e)
      case Ok(title) => Ok(CodeTab(words[0], TabRecord(Some(title), Some(Slug(title)), ["code-tab"])))
  }

  /** A title line that is a single word, such as "Unix", is a bare title
      whatever the JSON decoder would say. */
  lemma BareTitleOfWord(w: string, decode: string -> Option<TabRecord>)
    requires IsWord(w)
    ensures DecodeTitleLine(w, decode) == Ok(BareTitle(w))
  {
    SplitWord(w);
  }

  /** When the decoder reads back what the encoder wrote, the synthetic title
      line of a shorthand decodes to the record it was written from. An encoded
      object with two or more keys always has more than one word. */
  lemma EncodedTitleDecodes(rec: TabRecord, decode: string -> Option<TabRecord>, dumps: TabRecord -> string)
    requires |Split(dumps(rec))| > 1
    requires decode(Strip(dumps(rec))) == Some(rec)
    ensures DecodeTitleLine(dumps(rec), decode) == Ok(Structured(rec))
  {
  }

  /** A code tab for "python" without a title takes the table's name and slugs it for its id. */
  lemma CodeTabExample()
    ensures CodeTabArgs("python", map["python" := "Python"])
         == Ok(CodeTab("python", TabRecord(Some("Python"), Some("python"), ["code-tab"])))
  {
    assert IsWord("python");
    SplitWord("python");
    assert Lower("Python") == "python";
    SplitWord("python");
    assert Join("-", ["python"]) == "python";
  }
}
