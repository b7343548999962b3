/** The configured phone menus: validation, and the menu a live session stands in. */
module PhoneMenus {
  import opened Text
  import opened PhoneSession

  datatype MenuOption = MenuOption(key: string, digit: char, action: Action, targetMenu: Option<string>)

  datatype Menu = Menu(key: string, options: seq<MenuOption>)

  datatype MenuConfig = MenuConfig(defaultMenuKey: string, ownerMenuKey: Option<string>, menus: seq<Menu>)

  datatype Validation = Valid(config: MenuConfig) | UndefinedTarget(target: Option<string>)

  // ------------------------------------------------------- validation

  predicate Clashes(kept: seq<MenuOption>, o: MenuOption) {
    exists i | 0 <= i < |kept| :: kept[i].digit == o.digit || kept[i].key == o.key
  }

  // The first option of every digit and key wins.
  function DedupedOptions(options: seq<MenuOption>): seq<MenuOption> {
    if options == [] then []
    else
      var kept, o := DedupedOptions(options[..|options| - 1]), options[|options| - 1];
      if Clashes(kept, o) then kept else kept + [o]
  }

  method DedupeOptions(options: seq<MenuOption>) returns (kept: seq<MenuOption>)
    ensures kept == DedupedOptions(options)
    ensures forall i, j | 0 <= i < j < |kept| :: kept[i].digit != kept[j].digit && kept[i].key != kept[j].key
  {
    kept := [];
    var digits, keys := {}, {};
    for i := 0 to |options|
      invariant kept == DedupedOptions(options[..i])
      invariant forall d :: d in digits <==> exists k | 0 <= k < |kept| :: kept[k].digit == d
      invariant forall s :: s in keys <==> exists k | 0 <= k < |kept| :: kept[k].key == s
      invariant forall k, j | 0 <= k < j < |kept| :: kept[k].digit != kept[j].digit && kept[k].key != kept[j].key
    {
      assert options[..i + 1][..i] == options[..i];
      var o := options[i];
      if o.digit !in digits && o.key !in keys {
        ghost var before := kept;
        digits, keys := digits + {o.digit}, keys + {o.key};
        kept := kept + [o];
        assert kept[|before|] == o && forall k | 0 <= k < |before| :: kept[k] == before[k];
      }
    }
    assert options[..|options|] == options;
  }

  function Keys(menus: seq<Menu>): set<string> {
    set i | 0 <= i < |menus| :: menus[i].key
  }

  // The first menu of every key wins; menus without a key are dropped.
  function DedupedMenus(menus: seq<Menu>): seq<Menu> {
    if menus == [] then []
    else
      var kept, m := DedupedMenus(menus[..|menus| - 1]), menus[|menus| - 1];
      if m.key == "" || m.key in Keys(kept) then kept else kept + [m]
  }

  method DedupeMenus(menus: seq<Menu>) returns (kept: seq<Menu>)
    ensures kept == DedupedMenus(menus)
  {
    kept := [];
    var seen := {};
    for i := 0 to |menus|
      invariant kept == DedupedMenus(menus[..i]) && seen == Keys(kept)
    {
      assert menus[..i + 1][..i] == menus[..i];
      if menus[i].key != "" && menus[i].key !in seen {
        KeysAppend(kept, menus[i]);
        seen := seen + {menus[i].key};
        kept := kept + [menus[i]];
      }
    }
    assert menus[..|menus|] == menus;
  }

  lemma {:induction false} KeysAppend(menus: seq<Menu>, m: Menu)
    ensures Keys(menus + [m]) == Keys(menus) + {m.key}
  {
    var all := menus + [m];
    assert all[|menus|] == m;
    assert forall i | 0 <= i < |menus| :: all[i] == menus[i];
    assert forall k | k in Keys(menus) + {m.key} :: k in Keys(all) by {
      forall k | k in Keys(menus) ensures k in Keys(all) {
        var i :| 0 <= i < |menus| && menus[i].key == k;
        assert all[i].key == k;
      }
    }
  }

  /** Dropping repeated menus keeps every key, once: no reference is broken by it. */
  lemma {:induction false} DedupeKeepsKeys(menus: seq<Menu>)
    ensures Keys(DedupedMenus(menus)) == Keys(menus) - {""}
    ensures forall i, j | 0 <= i < j < |DedupedMenus(menus)| ::
              DedupedMenus(menus)[i].key != DedupedMenus(menus)[j].key
  {
    if menus != [] {
      var n := |menus| - 1;
      DedupeKeepsKeys(menus[..n]);
      assert menus == menus[..n] + [menus[n]];
      KeysAppend(menus[..n], menus[n]);
      KeysAppend(DedupedMenus(menus[..n]), menus[n]);
      KeysAt(DedupedMenus(menus[..n]));
    }
  }

  // The first menu of its key stands at i.
  predicate FirstOfKey(menus: seq<Menu>, i: int) {
    0 <= i < |menus| && menus[i].key != "" && forall j | 0 <= j < i :: menus[j].key != menus[i].key
  }

  /** What is kept is the first menu of each key. */
  lemma {:induction false} DedupeKeepsFirst(menus: seq<Menu>, m: Menu)
    ensures m in DedupedMenus(menus) <==> exists i :: FirstOfKey(menus, i) && menus[i] == m
  {
    if menus != [] {
      var n := |menus| - 1;
      var before, last := menus[..n], menus[n];
      DedupeKeepsFirst(before, m);
      LastIsFirst(menus);
      forall i | 0 <= i < n ensures FirstOfKey(menus, i) <==> FirstOfKey(before, i) {}
      if m == last && FirstOfKey(menus, n) {
        assert m in DedupedMenus(menus);
      }
      if m in DedupedMenus(before) {
        var i :| FirstOfKey(before, i) && before[i] == m;
        assert FirstOfKey(menus, i) && menus[i] == m;
      }
      if i :| FirstOfKey(menus, i) && menus[i] == m && i < n {
        assert FirstOfKey(before, i) && before[i] == m;
      }
    }
  }

  lemma {:induction false} LastIsFirst(menus: seq<Menu>)
    requires menus != []
    ensures var n := |menus| - 1;
            FirstOfKey(menus, n) <==> menus[n].key != "" && menus[n].key !in Keys(DedupedMenus(menus[..n]))
  {
    var n := |menus| - 1;
    DedupeKeepsKeys(menus[..n]);
    KeysAt(menus[..n]);
    assert forall j | 0 <= j < n :: menus[..n][j] == menus[j];
  }

  lemma {:induction false} KeysAt(menus: seq<Menu>)
    ensures forall i | 0 <= i < |menus| :: menus[i].key in Keys(menus)
  {}

  predicate TargetsDefined(menus: seq<Menu>, keys: set<string>) {
    forall i, j | 0 <= i < |menus| && 0 <= j < |menus[i].options| ::
      menus[i].options[j].action.Submenu? ==>
        menus[i].options[j].targetMenu.Some? && menus[i].options[j].targetMenu.value in keys
  }

  // The keys after validation: unknown ones fall back to the first menu, or to none.
  function DefaultKey(c: MenuConfig): string {
    if c.defaultMenuKey != "" && c.defaultMenuKey !in Keys(c.menus) && c.menus != [] then c.menus[0].key
    else c.defaultMenuKey
  }

  function OwnerKey(c: MenuConfig): Option<string> {
    if c.ownerMenuKey.Some? && c.ownerMenuKey.value != "" && c.ownerMenuKey.value !in Keys(c.menus) then None
    else c.ownerMenuKey
  }

  method ValidateMenuReferences(c: MenuConfig) returns (v: Validation)
    ensures v.Valid? <==> TargetsDefined(c.menus, Keys(c.menus))
    ensures v.Valid? ==> v.config == MenuConfig(DefaultKey(c), OwnerKey(c), c.menus)
  {
    var keys := Keys(c.menus);
    var d, o := c.defaultMenuKey, c.ownerMenuKey;
    if d != "" && d !in keys && c.menus != [] {
      d := c.menus[0].key;
    }
    if o.Some? && o.value != "" && o.value !in keys {
      o := None;
    }
    for i := 0 to |c.menus|
      invariant TargetsDefined(c.menus[..i], keys)
    {
      var options := c.menus[i].options;
      for j := 0 to |options|
        invariant forall k | 0 <= k < j :: options[k].action.Submenu? ==>
                    options[k].targetMenu.Some? && options[k].targetMenu.value in keys
      {
        if options[j].action.Submenu? && (options[j].targetMenu.None? || options[j].targetMenu.value !in keys) {
          return UndefinedTarget(options[j].targetMenu);
        }
      }
    }
    assert c.menus[..|c.menus|] == c.menus;
    return Valid(MenuConfig(d, o, c.menus));
  }

  // What validation leaves.
  predicate Validated(c: MenuConfig) {
    && TargetsDefined(c.menus, Keys(c.menus))
    && (forall i | 0 <= i < |c.menus| :: c.menus[i].key != "")
    && (c.menus != [] && c.defaultMenuKey != "" ==> c.defaultMenuKey in Keys(c.menus))
    && (c.ownerMenuKey.Some? && c.ownerMenuKey.value != "" ==> c.ownerMenuKey.value in Keys(c.menus))
  }

  /** Deduplicating and validating a raw configuration leaves a validated one. */
  lemma {:induction false} ValidationValidates(raw: MenuConfig)
    requires TargetsDefined(DedupedMenus(raw.menus), Keys(DedupedMenus(raw.menus)))
    ensures var c := raw.(menus := DedupedMenus(raw.menus));
            Validated(MenuConfig(DefaultKey(c), OwnerKey(c), c.menus))
  {
    DedupeKeepsKeys(raw.menus);
    KeysAt(DedupedMenus(raw.menus));
    var c := raw.(menus := DedupedMenus(raw.menus));
    assert forall i | 0 <= i < |c.menus| :: c.menus[i].key in Keys(raw.menus) - {""};
  }

  /** Validation repairs only what is broken: a validated configuration stays as it is, an undefined
      default key becomes the first menu's, and an undefined owner key is dropped. */
  lemma {:induction false} RepairsOnlyBroken(c: MenuConfig)
    ensures Validated(c) ==> DefaultKey(c) == c.defaultMenuKey && OwnerKey(c) == c.ownerMenuKey
    ensures DefaultKey(c) != c.defaultMenuKey ==>
              c.defaultMenuKey !in Keys(c.menus) && c.menus != [] && DefaultKey(c) == c.menus[0].key
    ensures OwnerKey(c) != c.ownerMenuKey ==>
              OwnerKey(c).None? && c.ownerMenuKey.Some? && c.ownerMenuKey.value !in Keys(c.menus)
  {}

  // ------------------------------------------------------- the service's lookups

  function DefaultMenuKey(c: MenuConfig): string {
    if c.defaultMenuKey != "" then c.defaultMenuKey
    else if c.menus != [] then c.menus[0].key
    else "public_main"
  }

  function OwnerMenuKey(c: MenuConfig): Option<string> {
    if c.ownerMenuKey.Some? && c.ownerMenuKey.value != "" then c.ownerMenuKey else None
  }

  function MenuByKey(menus: seq<Menu>, key: string): (m: Option<Menu>)
    ensures m.Some? <==> key != "" && exists i | 0 <= i < |menus| :: menus[i].key == key
    ensures m.Some? ==> m.value in menus && m.value.key == key
  {
    if menus == [] || key == "" then None
    else if menus[0].key == key then Some(menus[0])
    else
      assert forall i | 1 <= i < |menus| :: menus[i] == menus[1..][i - 1];
      assert forall i | 0 <= i < |menus| - 1 :: menus[1..][i] == menus[i + 1];
      MenuByKey(menus[1..], key)
  }

  function OptionByKey(options: seq<MenuOption>, key: string): (o: Option<MenuOption>)
    ensures o.Some? ==> o.value in options && o.value.key == key
  {
    if options == [] then None
    else if options[0].key == key then Some(options[0])
    else OptionByKey(options[1..], key)
  }

  function ResolveMenuOption(c: MenuConfig, menuKey: string, choice: string): (o: Option<MenuOption>) {
    var m := MenuByKey(c.menus, menuKey);
    if choice == "" || m.None? then None else OptionByKey(m.value.options, choice)
  }

  // ------------------------------------------------------- where a session stands

  datatype Place = Place(mode: string, menuKey: string, closed: bool)

  // `tag` is the caller's option key or trust level, which names the mode of a closing announcement.
  // A start is refused when no caller can be resolved for it.
  datatype Move =
    | Start(mode: string)
    | StartRefused(mode: string)
    | PinAccepted
    | Choose(choice: string, tag: string)

  predicate MenuMode(mode: string) {
    mode in {"screening", "owner_menu"}
  }

  // Mode and menu key of an accepted stream start.
  function StreamStart(c: MenuConfig, mode: string): (string, string) {
    if mode == "owner_menu" then (mode, Or(OwnerMenuKey(c), DefaultMenuKey(c)))
    else if mode == "screening" then (mode, DefaultMenuKey(c))
    else (mode, "")
  }

  function PinRoute(c: MenuConfig): (string, string) {
    var owner := OwnerMenuKey(c);
    if owner.Some? && MenuByKey(c.menus, owner.value).Some? then ("owner_menu", owner.value) else ("owner", "")
  }

  predicate HangsUp(a: Action) {
    a.SayThenHangup? || a.TimeAnnouncement?
  }

  function Route(c: MenuConfig, menuKey: string, o: MenuOption, tag: string): (string, string) {
    match o.action
    case OwnerConversation => ("owner", "")
    case Submenu =>
      var target := Or(o.targetMenu, "");
      (if target == Or(OwnerMenuKey(c), "") then "owner_menu" else "screening", target)
    case WorkspaceAssistant => ("workspace_assistant", "")
    case SayThenHangup => (tag, menuKey)
    case TimeAnnouncement => (tag, menuKey)
  }

  function At(p: Place, to: (string, string)): Place {
    Place(to.0, to.1, p.closed)
  }

  // A refused start has already taken over the mode, keeps the menu key and closes the session.
  function Next(c: MenuConfig, p: Place, move: Move): Place {
    match move
    case Start(mode) => At(p, StreamStart(c, mode))
    case StartRefused(mode) => p.(mode := mode, closed := true)
    case PinAccepted => if p.mode == "owner_pin" then At(p, PinRoute(c)) else p
    case Choose(choice, tag) =>
      var o := ResolveMenuOption(c, p.menuKey, choice);
      if MenuMode(p.mode) && p.menuKey != "" && o.Some? then
        At(p, Route(c, p.menuKey, o.value, tag)).(closed := p.closed || HangsUp(o.value.action))
      else p
  }

  function Walk(c: MenuConfig, moves: seq<Move>): Place {
    if moves == [] then Place("owner", "", false) else Next(c, Walk(c, moves[..|moves| - 1]), moves[|moves| - 1])
  }

  predicate Defined(c: MenuConfig, key: string) {
    MenuByKey(c.menus, key).Some?
  }

  // The menu key never names an undefined menu, and names one in every menu mode of an open session.
  predicate Standing(c: MenuConfig, p: Place) {
    && (p.menuKey != "" ==> Defined(c, p.menuKey))
    && (MenuMode(p.mode) && !p.closed ==> Defined(c, p.menuKey))
  }

  lemma {:induction false} KeyDefined(c: MenuConfig, key: string)
    requires Validated(c) && key in Keys(c.menus)
    ensures Defined(c, key)
  {}

  lemma {:induction false} DefaultDefined(c: MenuConfig)
    requires Validated(c) && c.menus != []
    ensures Defined(c, DefaultMenuKey(c))
  {
    KeysAt(c.menus);
    KeyDefined(c, DefaultMenuKey(c));
  }

  lemma {:induction false} TargetDefined(c: MenuConfig, menuKey: string, choice: string)
    requires Validated(c)
    ensures var o := ResolveMenuOption(c, menuKey, choice);
            o.Some? && o.value.action.Submenu? ==> o.value.targetMenu.Some? && Defined(c, o.value.targetMenu.value)
  {
    var o := ResolveMenuOption(c, menuKey, choice);
    if o.Some? && o.value.action.Submenu? {
      var m := MenuByKey(c.menus, menuKey).value;
      var i :| 0 <= i < |c.menus| && c.menus[i] == m;
      var j :| 0 <= j < |m.options| && m.options[j] == o.value;
      assert c.menus[i].options[j].action.Submenu?;
      KeyDefined(c, o.value.targetMenu.value);
    }
  }

  /** A session started in the owner's menu mode stands where a PIN leads whenever that is a menu; one
      started for screening stands in the default menu, which is the configured one if there is one. */
  lemma {:induction false} StartExactly(c: MenuConfig)
    requires Validated(c) && c.menus != []
    ensures PinRoute(c).0 == "owner_menu" ==> StreamStart(c, "owner_menu") == PinRoute(c)
    ensures c.defaultMenuKey != "" ==> StreamStart(c, "screening") == ("screening", c.defaultMenuKey)
    ensures c.ownerMenuKey.None? ==> StreamStart(c, "owner_menu").1 == StreamStart(c, "screening").1
    ensures PinRoute(c).0 == "owner_menu" <==> c.ownerMenuKey.Some? && Defined(c, c.ownerMenuKey.value)
  {}

  /** A choice is the menu's own option of that key, and only an open menu has options. */
  lemma {:induction false} ChoiceExactly(c: MenuConfig, p: Place, choice: string, tag: string)
    ensures var p' := Next(c, p, Choose(choice, tag));
            p' != p ==>
              && MenuMode(p.mode) && Defined(c, p.menuKey)
              && exists o | o in MenuByKey(c.menus, p.menuKey).value.options ::
                   && o.key == choice && (p'.mode, p'.menuKey) == Route(c, p.menuKey, o, tag)
                   && (p'.closed <==> p.closed || HangsUp(o.action))
  {}

  lemma {:induction false} NextStands(c: MenuConfig, p: Place, move: Move)
    requires Validated(c) && c.menus != [] && Standing(c, p)
    ensures Standing(c, Next(c, p, move))
  {
    match move {
      case Start(mode) =>
        DefaultDefined(c);
        if OwnerMenuKey(c).Some? { KeyDefined(c, OwnerMenuKey(c).value); }
      case StartRefused(_) =>
      case PinAccepted =>
      case Choose(choice, tag) =>
        TargetDefined(c, p.menuKey, choice);
    }
  }

  lemma {:induction false} WalkStands(c: MenuConfig, moves: seq<Move>)
    requires Validated(c) && c.menus != []
    ensures Standing(c, Walk(c, moves))
  {
    if moves != [] {
      WalkStands(c, moves[..|moves| - 1]);
      NextStands(c, Walk(c, moves[..|moves| - 1]), moves[|moves| - 1]);
    }
  }

  /** Whatever starts, refusals, PINs and choices came before: an open session in a menu mode stands in a
      defined menu, and no session names an undefined one, exactly when the configuration has a menu. */
  lemma {:induction false} MenusClosedExactly(c: MenuConfig)
    requires Validated(c)
    ensures (forall moves: seq<Move> :: Standing(c, Walk(c, moves))) <==> c.menus != []
  {
    if c.menus != [] {
      forall moves: seq<Move> ensures Standing(c, Walk(c, moves)) {
        WalkStands(c, moves);
      }
    } else {
      var moves := [Start("screening")];
      assert moves[..0] == [];
      assert Walk(c, moves).menuKey == DefaultMenuKey(c);
      assert !Standing(c, Walk(c, moves));
    }
  }
}
