/**
 * The settings screen: four boolean preferences, the seven rows that show them,
 * and how a click on a row or on its switch changes them.
 */
module Settings {
  import opened Types

  datatype Key = Notifications | DarkMode | Privacy | AutoSave

  /** The preferences object. */
  datatype Toggles = Toggles(notifications: bool, darkMode: bool, privacy: bool, autoSave: bool)
  {
    function Get(k: Key): bool
    {
      match k
      case Notifications => notifications
      case DarkMode => darkMode
      case Privacy => privacy
      case AutoSave => autoSave
    }
  }

  function InitialToggles(): Toggles
  {
    Toggles(notifications := true, darkMode := false, privacy := false, autoSave := true)
  }

  /** `toggleSwitch(key)`: a copy of the preferences with that one negated. */
  function Flip(t: Toggles, k: Key): (r: Toggles)
    ensures r.Get(k) == !t.Get(k)
    ensures forall other :: other != k ==> r.Get(other) == t.Get(other)
  {
    match k
    case Notifications => t.(notifications := !t.notifications)
    case DarkMode => t.(darkMode := !t.darkMode)
    case Privacy => t.(privacy := !t.privacy)
    case AutoSave => t.(autoSave := !t.autoSave)
  }

  /** Two preferences agreeing on every key are the same. */
  lemma SameWhenAgree(a: Toggles, b: Toggles)
    requires forall k :: a.Get(k) == b.Get(k)
    ensures a == b
  {
    assert a.Get(Notifications) == b.Get(Notifications) && a.Get(DarkMode) == b.Get(DarkMode);
    assert a.Get(Privacy) == b.Get(Privacy) && a.Get(AutoSave) == b.Get(AutoSave);
  }

  /** Toggling the same preference twice restores it. */
  lemma FlipTwice(t: Toggles, k: Key)
    ensures Flip(Flip(t, k), k) == t
  {
    SameWhenAgree(Flip(Flip(t, k), k), t);
  }

  /** Toggles of different preferences can happen in either order. */
  lemma FlipCommutes(t: Toggles, a: Key, b: Key)
    ensures Flip(Flip(t, a), b) == Flip(Flip(t, b), a)
  {
    SameWhenAgree(Flip(Flip(t, a), b), Flip(Flip(t, b), a));
  }

  /**
   * The props of one `SettingRow`: a chevron row carries neither a value nor a toggle;
   * a switch row shows `value` and calls `onToggle`.
   */
  datatype Row = Row(caption: string, value: Option<bool>, onToggle: Option<Key>, hasChevron: bool)

  function ChevronRow(caption: string): Row
  {
    Row(caption, None, None, true)
  }

  function SwitchRow(caption: string, t: Toggles, k: Key): Row
  {
    Row(caption, Some(t.Get(k)), Some(k), false)
  }

  /** The rows in screen order (Account, Preferences, Security & Privacy, Support): caption and toggled key. */
  const Layout: seq<(string, Option<Key>)> := [
    ("Profile Information", None),
    ("Subscription (Pro)", None),
    ("Push Notifications", Some(Notifications)),
    ("Dark Appearance", Some(DarkMode)),
    ("Language", None),
    ("Private Profile", Some(Privacy)),
    ("Help Center", None)]

  /** A row with a toggled key is a switch row; one without is a chevron row. */
  function RowFor(caption: string, toggled: Option<Key>, t: Toggles): Row
  {
    match toggled
    case None => ChevronRow(caption)
    case Some(k) => SwitchRow(caption, t, k)
  }

  function Rows(t: Toggles): seq<Row>
  {
    seq(|Layout|, i requires 0 <= i < |Layout| => RowFor(Layout[i].0, Layout[i].1, t))
  }

  /**
   * Of the seven rows, rows 2, 3 and 5 are the switches for notifications, dark mode
   * and privacy, each showing the current value; every other row is a chevron row
   * with neither a value nor a toggle.
   */
  lemma RowsLayout(t: Toggles)
    ensures |Rows(t)| == 7
    ensures Rows(t)[2].onToggle == Some(Notifications) && Rows(t)[3].onToggle == Some(DarkMode)
            && Rows(t)[5].onToggle == Some(Privacy)
    ensures forall i :: 0 <= i < |Rows(t)| && i != 2 && i != 3 && i != 5 ==>
      Rows(t)[i].hasChevron && Rows(t)[i].onToggle == None && Rows(t)[i].value == None
    ensures forall i :: 0 <= i < |Rows(t)| && Rows(t)[i].onToggle.Some? ==>
      !Rows(t)[i].hasChevron && Rows(t)[i].value == Some(t.Get(Rows(t)[i].onToggle.value))
  {
  }

  /** No two rows toggle the same preference, and none toggles auto-save. */
  lemma LayoutKeys()
    ensures forall i, j :: 0 <= i < j < |Layout| && Layout[i].1.Some? ==> Layout[i].1 != Layout[j].1
    ensures forall i :: 0 <= i < |Layout| ==> Layout[i].1 != Some(AutoSave)
  {
  }

  /** Where a click lands: the row's body, or the switch button drawn inside it. */
  datatype Target = Body | Switch

  /**
   * The toggles one click fires. The body's handler is `onToggle` only on a row that
   * has one and no chevron. A chevron row draws no switch, so a click there reaches the
   * body. The switch calls `onToggle` and stops the event before it reaches the body.
   */
  function Fired(row: Row, target: Target): (fired: seq<Key>)
    ensures |fired| <= 1
    ensures row.hasChevron ==> fired == []
    ensures !row.hasChevron && row.onToggle.Some? ==> fired == [row.onToggle.value]
  {
    var bodyHandler := if row.onToggle.Some? && !row.hasChevron then [row.onToggle.value] else [];
    match target
    case Body => bodyHandler
    case Switch => if row.hasChevron then bodyHandler else (if row.onToggle.Some? then [row.onToggle.value] else [])
  }

  /** The preferences after the fired toggles have run, in order. */
  function ApplyAll(t: Toggles, keys: seq<Key>): Toggles
    decreases |keys|
  {
    if keys == [] then t else ApplyAll(Flip(t, keys[0]), keys[1..])
  }

  function Click(t: Toggles, row: Row, target: Target): Toggles
  {
    ApplyAll(t, Fired(row, target))
  }

  /**
   * Had the switch let the event bubble, one click would run the toggle twice,
   * which leaves every preference as it was.
   */
  lemma BubblingWouldCancel(t: Toggles, k: Key)
    ensures ApplyAll(t, [k, k]) == t
  {
    assert [k, k][1..] == [k] && [k][1..] == [];
    assert ApplyAll(t, [k, k]) == ApplyAll(Flip(t, k), [k]);
    assert ApplyAll(Flip(t, k), [k]) == Flip(Flip(t, k), k);
    FlipTwice(t, k);
  }

  /** Every switch row shows the current value of the preference it toggles. */
  lemma RowsShowValues(t: Toggles, i: nat)
    requires i < |Layout|
    ensures Rows(t)[i].onToggle.Some? ==>
      !Rows(t)[i].hasChevron && Rows(t)[i].value == Some(t.Get(Rows(t)[i].onToggle.value))
    ensures Rows(t)[i].hasChevron <==> Rows(t)[i].onToggle.None?
  {
  }

  /** A click on a switch row runs that row's toggle exactly once, wherever it lands. */
  lemma ClickSwitchRow(t: Toggles, i: nat, target: Target)
    requires i < |Layout| && Layout[i].1.Some?
    ensures Click(t, Rows(t)[i], target) == Flip(t, Layout[i].1.value)
  {
    var k := Layout[i].1.value;
    assert Fired(Rows(t)[i], target) == [k];
    assert [k][1..] == [];
  }

  /**
   * A click anywhere on a switch row negates exactly the value that row shows, and
   * every other row shows what it showed before; a click on a chevron row changes nothing.
   */
  lemma ClickNegatesShownValue(t: Toggles, i: nat, target: Target)
    requires i < |Layout|
    ensures Rows(t)[i].hasChevron ==> Click(t, Rows(t)[i], target) == t
    ensures !Rows(t)[i].hasChevron ==>
      Rows(Click(t, Rows(t)[i], target))[i].value == Some(!Rows(t)[i].value.value)
      && forall j :: 0 <= j < |Layout| && j != i ==> Rows(Click(t, Rows(t)[i], target))[j] == Rows(t)[j]
  {
    if Layout[i].1.Some? {
      var k := Layout[i].1.value;
      ClickSwitchRow(t, i, target);
      var after := Flip(t, k);
      var before, now := Rows(t), Rows(after);
      LayoutKeys();
      forall j | 0 <= j < |Layout| && j != i ensures now[j] == before[j] {
        if Layout[j].1.Some? {
          assert Layout[j].1.value != k;
        }
      }
      assert now[i].value == Some(!before[i].value.value);
    }
  }

  /** No row toggles auto-save: no click ever changes it. */
  lemma AutoSaveUnreachable(t: Toggles, i: nat, target: Target)
    requires i < |Layout|
    ensures Click(t, Rows(t)[i], target).autoSave == t.autoSave
  {
    if Layout[i].1.Some? {
      ClickSwitchRow(t, i, target);
      LayoutKeys();
    }
  }

  /** The settings component's state. */
  class SettingsPanel {
    var toggles: Toggles

    constructor ()
      ensures toggles == InitialToggles()
    {
      toggles := InitialToggles();
    }

    method ToggleSwitch(k: Key)
      modifies this
      ensures toggles == Flip(old(toggles), k)
    {
      toggles := Flip(toggles, k);
    }

    function Shown(): seq<Row>
      reads this
    {
      Rows(toggles)
    }

    /** A click on the `i`-th row, on its body or on its switch. */
    method ClickRow(i: nat, target: Target)
      requires i < |Layout|
      modifies this
      ensures toggles == Click(old(toggles), Rows(old(toggles))[i], target)
      ensures toggles.autoSave == old(toggles).autoSave
    {
      AutoSaveUnreachable(toggles, i, target);
      ClickNegatesShownValue(toggles, i, target);
      if Layout[i].1.Some? {
        ClickSwitchRow(toggles, i, target);
        ToggleSwitch(Layout[i].1.value);
      }
    }
  }
}
