/**
  The per-document scratch state that tabs.py keeps in `env.temp_data`: the
  header accumulator `tab_titles`, the `is_first_tab` flag and the serial
  counter behind `env.new_serialno('tab_id')`, together with the two
  operations that change it: the reset at the start of a tabs block and the
  registration of one tab (tabs.py lines 58-59 and 92-109).
*/
module Tracker {
  import opened Wrappers
  import opened PyStr
  import opened TabArgs

  /** One accumulated `(data_tab, tab_name)` pair. */
  datatype Header = Header(token: string, title: string)

  /** A tab panel: its token, its class list, whether it was marked active and
      the content lines handed to the nested parse. */
  datatype Panel = Panel(token: string, classes: seq<string>, active: bool, body: seq<string>)

  const PanelBase: seq<string> := ["ui", "bottom", "attached", "sphinx-tab", "tab", "segment"]

  /** The class list of a panel, in the order the source builds it. */
  function PanelClasses(supplied: seq<string>, token: string, active: bool): seq<string> {
    PanelBase + supplied + [token] + (if active then ["active"] else [])
  }

  /** Base classes first, then the supplied classes in order, then the token,
      then the active marker; the marker is present exactly for the active
      panel when the supplied classes do not themselves name it. */
  lemma PanelClassOrder(supplied: seq<string>, id: string, active: bool)
    ensures var r := PanelClasses(supplied, TabToken(id), active);
      && r[..|PanelBase|] == PanelBase
      && r[|PanelBase|..|PanelBase| + |supplied|] == supplied
      && r[|PanelBase| + |supplied|] == TabToken(id)
      && |r| == |PanelBase| + |supplied| + 1 + (if active then 1 else 0)
      && ("active" !in supplied ==> ("active" in r <==> active))
  {
  }

  /** The id a tab is registered under: its explicit id verbatim, or else the
      decimal form of the next serial number. */
  function ResolvedId(args: TitleArgs, serial: nat): (id: string)
    ensures args.ExplicitId().Some? ==> Some(id) == args.ExplicitId()
    ensures args.ExplicitId().None? ==>
      && |id| >= 1 && (id[0] == '0' ==> serial == 0)
      && (forall i :: 0 <= i < |id| ==> '0' <= id[i] <= '9') && DecimalValue(id) == serial
  {
    match args.ExplicitId()
    case Some(id) => id
    case None => DecimalRoundTrip(serial); DecimalString(serial)
  }

  /** The scratch state as a value: the header accumulator, the first-tab
      flag, whether a tabs block has set the keys up, and the serial counter. */
  datatype Scratch = Scratch(tabTitles: seq<Header>, isFirstTab: bool, hasBlockKeys: bool, serial: nat)

  /** The reset at the start of a tabs block. */
  function BlockStart(s: Scratch): (r: Scratch)
    ensures r.tabTitles == [] && r.isFirstTab && r.hasBlockKeys && r.serial == s.serial
  {
    s.(tabTitles := [], isFirstTab := true, hasBlockKeys := true)
  }

  /** Registering a tab with the given fields and body on the scratch state:
      resolve its id, append its header, build its class list and consume the
      first-tab flag. */
  function Register(s: Scratch, args: TitleArgs, body: seq<string>): (out: (Scratch, Result<Panel, Error>))
    // the serial counter advances exactly when no explicit id is given, also when registration then fails
    ensures out.0.hasBlockKeys == s.hasBlockKeys
    ensures out.0.serial == s.serial + (if args.ExplicitId().None? then 1 else 0)
    // it fails outside a tabs block or without a name, and then headers and flag are untouched
    ensures out.1.Ok? <==> s.hasBlockKeys && args.Name().Some?
    ensures out.1.Err? ==>
      && out.1.error == (if s.hasBlockKeys then MissingTabName else NoEnclosingTabs)
      && out.0.tabTitles == s.tabTitles
      && out.0.isFirstTab == s.isFirstTab
    // otherwise one header is appended and the panel is active exactly when the flag was set
    ensures out.1.Ok? ==>
      var p := out.1.value;
      && IsToken(p.token)
      && p.token == TabToken(ResolvedId(args, s.serial))
      && p.classes == PanelClasses(args.Classes(), p.token, s.isFirstTab)
      && p.active == s.isFirstTab
      && p.body == body
      && out.0.tabTitles == s.tabTitles + [Header(p.token, args.Name().value)]
      && !out.0.isFirstTab
  {
    var serial := if args.ExplicitId().None? then s.serial + 1 else s.serial;
    var token := TabToken(ResolvedId(args, s.serial));
    TabTokenInjective(ResolvedId(args, s.serial), "");
    if !s.hasBlockKeys then
      (s.(serial := serial), Err(NoEnclosingTabs))
    else if args.Name().None? then
      (s.(serial := serial), Err(MissingTabName))
    else
      var panel := Panel(token, PanelClasses(args.Classes(), token, s.isFirstTab), s.isFirstTab, body);
      (Scratch(s.tabTitles + [Header(token, args.Name().value)], false, true, serial), Ok(panel))
  }

  class TempData {
    var tabTitles: seq<Header>
    var isFirstTab: bool
    /** Whether a tabs block has put `tab_titles` and `is_first_tab` into the
        scratch data; they stay there after the block ends. */
    var hasBlockKeys: bool
    /** The next value `new_serialno('tab_id')` hands out. */
    var serial: nat

    function State(): Scratch
      reads this
    {
      Scratch(tabTitles, isFirstTab, hasBlockKeys, serial)
    }

    /** The scratch state of a document before any directive ran. */
    constructor ()
      ensures tabTitles == [] && !isFirstTab && !hasBlockKeys && serial == 0
    {
      tabTitles := [];
      isFirstTab := false;
      hasBlockKeys := false;
      serial := 0;
    }

    /** The reset at the start of every tabs block; the serial counter is kept. */
    method BeginBlock()
      modifies this
      ensures tabTitles == [] && isFirstTab && hasBlockKeys
      ensures serial == old(serial)
    {
      tabTitles := [];
      isFirstTab := true;
      hasBlockKeys := true;
    }

    /** `new_serialno`: the current count, which then advances. */
    method NewSerial() returns (n: nat)
      modifies this`serial
      ensures n == old(serial) && serial == old(serial) + 1
    {
      n := serial;
      serial := serial + 1;
    }

    /** Registering one tab, in the order of the source: take a serial number
        when no id is given, fail on missing block keys or a missing name,
        append the header, build the class list and consume the flag. */
    method AddTab(args: TitleArgs, body: seq<string>) returns (r: Result<Panel, Error>)
      modifies this
      ensures TabAdded(this, args, body, r)
    {
      var id: string;
      match args.ExplicitId() {
        case Some(explicit) =>
          id := explicit;
        case None =>
          var n := NewSerial();
          id := DecimalString(n);
      }
      var token := TabToken(id);
      if !hasBlockKeys {
        return Err(NoEnclosingTabs);
      }
      if args.Name().None? {
        return Err(MissingTabName);
      }
      tabTitles := tabTitles + [Header(token, args.Name().value)];
      var classes := PanelBase + args.Classes() + [token];
      var active := isFirstTab;
      if isFirstTab {
        classes := classes + ["active"];
        isFirstTab := false;
      }
      assert classes == PanelClasses(args.Classes(), token, active);
      return Ok(Panel(token, classes, active, body));
    }
  }

  /** The registration of a tab changed the object's state as `Register` says
      and returned its result. */
  twostate predicate TabAdded(env: TempData, args: TitleArgs, body: seq<string>, new r: Result<Panel, Error>)
    reads env
  {
    (env.State(), r) == Register(old(env.State()), args, body)
  }
}
