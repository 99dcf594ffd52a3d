/**
 * CDockAreaTitleBar: the undock drag state machine, the table from
 * configuration flags to title bar buttons with its setters, and the tabs
 * menu cache. The tab bar, the dock area, the floating widgets and the dock
 * manager are not modelled; what the title bar asks of them (tab states,
 * container counts, the drag distance, the user's allow-move handler) is
 * given to each event as input.
 */
module DockAreaTitleBar {
  import opened Wrappers
  import opened TitleBarButtons

  /** eDragState, the values the title bar uses. */
  datatype DragState = DraggingInactive | DraggingMousePressed | DraggingFloatingWidget

  /** A mouse position (QPoint). */
  datatype Point = Point(x: int, y: int)

  function Minus(a: Point, b: Point): Point {
    Point(a.x - b.x, a.y - b.y)
  }

  function Abs(n: int): nat {
    if n < 0 then -n else n
  }

  /** QPoint::manhattanLength: |x| + |y|, zero only at the origin. */
  function ManhattanLength(p: Point): (r: nat)
    ensures r == 0 <==> p == Point(0, 0)
    ensures r >= Abs(p.x) && r >= Abs(p.y)
  {
    Abs(p.x) + Abs(p.y)
  }

  /** The CDockManager configuration flags this title bar reads. */
  datatype ConfigFlag =
    | DockAreaHasTabsMenuButton
    | DockAreaHasSettingButton
    | DockAreaHasPlayPauseButton
    | DockAreaHasDefaultSetButton
    | DockAreaHasCaptureButton
    | DockAreaHasUndockButton
    | DockAreaHasCloseButton
    | DockAreaCloseButtonClosesTab
    | DockAreaHideDisabledButtons
    | DockAreaDynamicTabsMenuButtonVisibility
    | OpaqueUndocking
    | FocusHighlighting

  /** The floating widget makeAreaFloating creates: a real container or a drag preview. */
  datatype FloatingWidgetKind = FloatingDockContainer | FloatingDragPreview

  /** The TitleBarButton selector of button(); any other value of the enum is OtherButton. */
  datatype TitleBarButtonKind =
    | TitleBarButtonTabsMenu
    | TitleBarButtonUndock
    | TitleBarButtonClose
    | OtherButton(code: int)

  /** What the title bar sees of one tab: whether it is open and whether its title is elided. */
  datatype TabInfo = TabInfo(open: bool, elided: bool)

  /** How mouseMoveEvent ended. */
  datatype MoveReaction =
    | MoveIgnored       // moves disallowed by the dock area or the handler
    | DragCancelled     // left button not held, or no drag going on
    | FloatingMoved     // the floating widget follows the mouse
    | LastAreaKept      // the only visible area of a floating container stays put
    | BelowThreshold    // not moved far enough yet
    | FloatingStarted   // the area was undocked into a floating widget

  /** Whether a call completed or dereferenced a null button. */
  datatype CallOutcome = Completed | NullDereference

  /** The tooltip texts of the buttons, which are translation resources. */
  datatype ButtonTexts = ButtonTexts(
    tabsMenu: string,
    setting: string, settingPositive: string, settingNegative: string,
    pausePositive: string, playNegative: string,
    defaultSet: string, capture: string, undock: string,
    closeTab: string, closeArea: string)

  const SettingIcon := Resource(":/images/setting32.png")
  const PauseIcon := Resource(":/images/pause64.png")
  const PlayIcon := Resource(":/images/player64.png")
  const ResetIcon := Resource(":/images/reset64.png")
  const CaptureIcon := Resource(":/images/graghshot64.png")
  const UndockIcon := Resource(":/images/load32.png")
  const TabsMenuIcon := StyleIcon("SP_TitleBarUnshadeButton")
  const CloseIcon := StyleIcon("SP_TitleBarCloseButton")

  /** The flags that can address a button in Config2Button. */
  const ButtonFlags: set<ConfigFlag> := {DockAreaHasSettingButton, DockAreaHasPlayPauseButton,
    DockAreaHasDefaultSetButton, DockAreaHasCaptureButton, DockAreaHasUndockButton, DockAreaHasCloseButton}

  /** Some open tab shows an elided title. */
  ghost predicate SomeOpenTabElided(tabs: seq<TabInfo>) {
    exists i :: 0 <= i < |tabs| && tabs[i].open && tabs[i].elided
  }

  /** The menu entries are exactly the indices of the open tabs, in increasing order. */
  ghost predicate ListsOpenTabs(entries: seq<int>, tabs: seq<TabInfo>) {
    && (forall k :: 0 <= k < |entries| ==> 0 <= entries[k] < |tabs| && tabs[entries[k]].open)
    && (forall k, l :: 0 <= k < l < |entries| ==> entries[k] < entries[l])
    && (forall i :: 0 <= i < |tabs| && tabs[i].open ==> i in entries)
  }

  /** The kind of floating widget makeAreaFloating creates for a drag state. */
  function FloatingKindFor(opaqueUndocking: bool, newState: DragState): (r: FloatingWidgetKind)
    ensures r == FloatingDragPreview <==> !opaqueUndocking && newState == DraggingFloatingWidget
  {
    if opaqueUndocking || newState != DraggingFloatingWidget then FloatingDockContainer
    else FloatingDragPreview
  }

  /** Moves are refused by the dock area or by the user's allow-move handler. */
  predicate MoveBlocked(areaAllowsMove: bool, moveHandler: Option<bool>) {
    !areaAllowsMove || moveHandler == Some(false)
  }

  /** The conditions under which a double click undocks the area. */
  predicate DoubleClickUndocks(moveHandler: Option<bool>, containerFloating: bool,
                               containerDockAreaCount: int, areaFloatable: bool)
  {
    moveHandler != Some(false) && !(containerFloating && containerDockAreaCount == 1) && areaFloatable
  }

  /** Config2Button as createButtons fills it: the undock and close buttons and the optional buttons made. */
  function ButtonTableOf(sb: TitleBarButton?, pp: TitleBarButton?, ds: TitleBarButton?, cb: TitleBarButton?,
                         ub: TitleBarButton, cl: TitleBarButton): (r: map<ConfigFlag, TitleBarButton>)
    ensures DockAreaHasUndockButton in r && DockAreaHasCloseButton in r
    ensures DockAreaHasSettingButton in r <==> sb != null
    ensures DockAreaHasPlayPauseButton in r <==> pp != null
    ensures DockAreaHasDefaultSetButton in r <==> ds != null
    ensures DockAreaHasCaptureButton in r <==> cb != null
    ensures r.Keys <= ButtonFlags
    ensures r[DockAreaHasUndockButton] == ub && r[DockAreaHasCloseButton] == cl
    ensures sb != null ==> r[DockAreaHasSettingButton] == sb
    ensures pp != null ==> r[DockAreaHasPlayPauseButton] == pp
    ensures ds != null ==> r[DockAreaHasDefaultSetButton] == ds
    ensures cb != null ==> r[DockAreaHasCaptureButton] == cb
  {
    var t0 := map[DockAreaHasUndockButton := ub, DockAreaHasCloseButton := cl];
    var t1 := if sb != null then t0[DockAreaHasSettingButton := sb] else t0;
    var t2 := if pp != null then t1[DockAreaHasPlayPauseButton := pp] else t1;
    var t3 := if ds != null then t2[DockAreaHasDefaultSetButton := ds] else t2;
    if cb != null then t3[DockAreaHasCaptureButton := cb] else t3
  }

  /** Two nullable buttons are different objects, or the first is absent. */
  predicate Apart(a: TitleBarButton?, b: TitleBarButton?) {
    a == null || a != b
  }

  /**
   * Distinct buttons make a table in which no two flags address the same
   * button, and which does not hold the tabs menu button.
   */
  lemma ButtonTableInjective(tm: TitleBarButton, sb: TitleBarButton?, pp: TitleBarButton?, ds: TitleBarButton?,
                             cb: TitleBarButton?, ub: TitleBarButton, cl: TitleBarButton)
    requires Apart(sb, pp) && Apart(sb, ds) && Apart(sb, cb) && Apart(sb, ub) && Apart(sb, cl)
    requires Apart(pp, ds) && Apart(pp, cb) && Apart(pp, ub) && Apart(pp, cl)
    requires Apart(ds, cb) && Apart(ds, ub) && Apart(ds, cl)
    requires Apart(cb, ub) && Apart(cb, cl) && ub != cl
    requires Apart(sb, tm) && Apart(pp, tm) && Apart(ds, tm) && Apart(cb, tm) && ub != tm && cl != tm
    ensures var r := ButtonTableOf(sb, pp, ds, cb, ub, cl);
      && (forall f, g :: f in r && g in r && f != g ==> r[f] != r[g])
      && (forall f :: f in r ==> r[f] != tm)
  {
    var r := ButtonTableOf(sb, pp, ds, cb, ub, cl);
    forall f, g | f in r && g in r && f != g
      ensures r[f] != r[g]
    {
      assert f in ButtonFlags && g in ButtonFlags;
    }
    forall f | f in r
      ensures r[f] != tm
    {
      assert f in ButtonFlags;
    }
  }

  /** The tabs menu button of createButtons: hidden and disabled until enough tabs exist. */
  method NewTabsMenuButton(configured: bool, hideDisabled: bool, tip: string) returns (b: TitleBarButton)
    ensures fresh(b) && !b.isStateButton && b.configuredVisible == configured && b.hideWhenDisabled == hideDisabled
    ensures !b.visible && !b.enabled && b.icon == TabsMenuIcon && b.toolTip == tip
  {
    b := new TitleBarButton.Plain(configured, hideDisabled);
    b.ForceVisible(false);
    b.SetEnabled(false);
    b.SetVisible(false);
    b.SetIcon(TabsMenuIcon);
    b.SetToolTip(tip);
  }

  /** The setting button: a checkable state button whose tooltip is then overwritten with a fixed text. */
  method NewSetButton(texts: ButtonTexts, hideDisabled: bool) returns (b: TitleBarButton)
    ensures fresh(b) && b.isStateButton && b.checkable && !b.checked && b.configuredVisible
    ensures b.state && b.icon == SettingIcon && b.toolTip == texts.setting
    ensures b.positiveTip == texts.settingPositive && b.negativeTip == texts.settingNegative
    ensures b.enabled && b.visible && b.hideWhenDisabled == hideDisabled
  {
    b := new TitleBarButton.Stateful(SettingIcon, SettingIcon, texts.settingPositive,
                                     texts.settingNegative, true, hideDisabled);
    b.SetCheckable(true);
    b.SetToolTip(texts.setting);
    b.SetVisible(true);
  }

  /** The play/pause button: a state button showing pause when positive and play when negative. */
  method NewPlayPauseButton(texts: ButtonTexts, hideDisabled: bool) returns (b: TitleBarButton)
    ensures fresh(b) && b.isStateButton && b.configuredVisible
    ensures b.state && b.TipFollowsState() && b.IconFollowsState()
    ensures b.positiveIcon == PauseIcon && b.negativeIcon == PlayIcon
    ensures b.enabled && b.visible && b.hideWhenDisabled == hideDisabled
  {
    b := new TitleBarButton.Stateful(PauseIcon, PlayIcon, texts.pausePositive,
                                     texts.playNegative, true, hideDisabled);
    b.SetVisible(true);
  }

  /** The default-set and capture buttons: plain buttons with a tooltip and an icon, shown. */
  method NewActionButton(tip: string, icon: Icon, hideDisabled: bool) returns (b: TitleBarButton)
    ensures fresh(b) && !b.isStateButton && b.configuredVisible
    ensures b.toolTip == tip && b.icon == icon
    ensures b.enabled && b.visible && b.hideWhenDisabled == hideDisabled
  {
    b := new TitleBarButton.Plain(true, hideDisabled);
    b.SetToolTip(tip);
    b.SetIcon(icon);
    b.SetVisible(true);
  }

  method NewUndockButton(configured: bool, hideDisabled: bool, tip: string) returns (b: TitleBarButton)
    ensures fresh(b) && !b.isStateButton && b.configuredVisible == configured && b.hideWhenDisabled == hideDisabled
    ensures b.toolTip == tip && b.icon == UndockIcon
  {
    b := new TitleBarButton.Plain(configured, hideDisabled);
    b.SetToolTip(tip);
    b.SetIcon(UndockIcon);
  }

  /** The close button: its tooltip says whether it closes the tab or the whole area. */
  method NewCloseButton(configured: bool, closesTab: bool, hideDisabled: bool, texts: ButtonTexts)
    returns (b: TitleBarButton)
    ensures fresh(b) && !b.isStateButton && b.configuredVisible == configured && b.hideWhenDisabled == hideDisabled
    ensures b.toolTip == (if closesTab then texts.closeTab else texts.closeArea) && b.icon == CloseIcon
  {
    b := new TitleBarButton.Plain(configured, hideDisabled);
    b.SetIcon(CloseIcon);
    if closesTab {
      b.SetToolTip(texts.closeTab);
    } else {
      b.SetToolTip(texts.closeArea);
    }
  }

  /** The optional buttons of createButtons: each one exists exactly when its flag is configured. */
  method NewOptionalButtons(flags: set<ConfigFlag>, texts: ButtonTexts, hideDisabled: bool)
    returns (sb: TitleBarButton?, pp: TitleBarButton?, ds: TitleBarButton?, cb: TitleBarButton?)
    ensures sb != null <==> DockAreaHasSettingButton in flags
    ensures pp != null <==> DockAreaHasPlayPauseButton in flags
    ensures ds != null <==> DockAreaHasDefaultSetButton in flags
    ensures cb != null <==> DockAreaHasCaptureButton in flags
    ensures sb != null ==>
      && fresh(sb) && sb.isStateButton && sb.checkable && sb.state && sb.icon == SettingIcon
      && sb.toolTip == texts.setting && sb.enabled && sb.visible && !sb.checked
    ensures pp != null ==>
      && fresh(pp) && pp.isStateButton && pp.state && pp.TipFollowsState() && pp.IconFollowsState()
      && pp.enabled && pp.visible
    ensures ds != null ==>
      && fresh(ds) && !ds.isStateButton && ds.toolTip == texts.defaultSet && ds.icon == ResetIcon
      && ds.enabled && ds.visible
    ensures cb != null ==>
      && fresh(cb) && !cb.isStateButton && cb.toolTip == texts.capture && cb.icon == CaptureIcon
      && cb.enabled && cb.visible
    ensures sb != pp || sb == null
    ensures sb != ds || sb == null
    ensures sb != cb || sb == null
    ensures pp != ds || pp == null
    ensures pp != cb || pp == null
    ensures ds != cb || ds == null
  {
    sb, pp, ds, cb := null, null, null, null;
    if DockAreaHasSettingButton in flags {
      sb := NewSetButton(texts, hideDisabled);
    }
    if DockAreaHasPlayPauseButton in flags {
      pp := NewPlayPauseButton(texts, hideDisabled);
    }
    if DockAreaHasDefaultSetButton in flags {
      ds := NewActionButton(texts.defaultSet, ResetIcon, hideDisabled);
    }
    if DockAreaHasCaptureButton in flags {
      cb := NewActionButton(texts.capture, CaptureIcon, hideDisabled);
    }
  }

  /** CDockManager's global configuration flags. */
  class DockManagerConfig {
    var flags: set<ConfigFlag>

    constructor (initial: set<ConfigFlag>)
      ensures flags == initial
    {
      flags := initial;
    }

    /** setConfigFlag: one flag turned on or off, the others kept. */
    method SetConfigFlag(flag: ConfigFlag, on: bool)
      modifies this`flags
      ensures flags == if on then old(flags) + {flag} else old(flags) - {flag}
      ensures flag in flags <==> on
    {
      if on {
        flags := flags + {flag};
      } else {
        flags := flags - {flag};
      }
    }
  }

  class TitleBar {
    const config: DockManagerConfig
    const tabsMenuButton: TitleBarButton
    const setButton: TitleBarButton?
    const playPauseButton: TitleBarButton?
    const defaultSetButton: TitleBarButton?
    const captureButton: TitleBarButton?
    const undockButton: TitleBarButton
    const closeButton: TitleBarButton
    /** Config2Button: the buttons that a configuration flag addresses. */
    const config2Button: map<ConfigFlag, TitleBarButton>

    var visible: bool
    var dragState: DragState
    var dragStartMousePos: Point
    var floatingWidget: Option<FloatingWidgetKind>
    var menuOutdated: bool
    /** The data (tab index) of each action of the tabs menu. */
    var tabsMenu: seq<int>

    /**
     * The button table holds the undock and close buttons and the optional
     * buttons that were created; the setting and play/pause buttons are
     * state buttons and the setting button is checkable. A floating drag
     * always has a floating widget to move and finish.
     */
    ghost predicate Valid()
      reads this, setButton
    {
      && !tabsMenuButton.isStateButton && !undockButton.isStateButton && !closeButton.isStateButton
      && (setButton != null ==> setButton.isStateButton && setButton.checkable)
      && (playPauseButton != null ==> playPauseButton.isStateButton)
      && (defaultSetButton != null ==> !defaultSetButton.isStateButton)
      && (captureButton != null ==> !captureButton.isStateButton)
      && DockAreaHasTabsMenuButton !in config2Button
      && DockAreaHasUndockButton in config2Button && DockAreaHasCloseButton in config2Button
      && config2Button[DockAreaHasUndockButton] == undockButton
      && config2Button[DockAreaHasCloseButton] == closeButton
      && (DockAreaHasSettingButton in config2Button <==> setButton != null)
      && (setButton != null ==> config2Button[DockAreaHasSettingButton] == setButton)
      && (DockAreaHasPlayPauseButton in config2Button <==> playPauseButton != null)
      && (playPauseButton != null ==> config2Button[DockAreaHasPlayPauseButton] == playPauseButton)
      && (DockAreaHasDefaultSetButton in config2Button <==> defaultSetButton != null)
      && (defaultSetButton != null ==> config2Button[DockAreaHasDefaultSetButton] == defaultSetButton)
      && (DockAreaHasCaptureButton in config2Button <==> captureButton != null)
      && (captureButton != null ==> config2Button[DockAreaHasCaptureButton] == captureButton)
      && config2Button.Keys <= ButtonFlags
      && (forall f, g :: f in config2Button && g in config2Button && f != g ==> config2Button[f] != config2Button[g])
      && (forall f :: f in config2Button ==> config2Button[f] != tabsMenuButton)
      && (dragState == DraggingFloatingWidget ==> floatingWidget.Some?)
    }

    /**
     * The constructor with createButtons: the optional buttons exist exactly
     * when their flag is configured; the tabs menu button starts hidden and
     * disabled; the setting button's tooltip is overwritten after its state
     * set it.
     */
    constructor (cfg: DockManagerConfig, texts: ButtonTexts)
      ensures Valid()
      ensures config == cfg
      ensures setButton != null <==> DockAreaHasSettingButton in cfg.flags
      ensures playPauseButton != null <==> DockAreaHasPlayPauseButton in cfg.flags
      ensures defaultSetButton != null <==> DockAreaHasDefaultSetButton in cfg.flags
      ensures captureButton != null <==> DockAreaHasCaptureButton in cfg.flags
      ensures !tabsMenuButton.visible && !tabsMenuButton.enabled
      ensures tabsMenuButton.configuredVisible <==> DockAreaHasTabsMenuButton in cfg.flags
      ensures undockButton.configuredVisible <==> DockAreaHasUndockButton in cfg.flags
      ensures closeButton.configuredVisible <==> DockAreaHasCloseButton in cfg.flags
      ensures closeButton.toolTip ==
        if DockAreaCloseButtonClosesTab in cfg.flags then texts.closeTab else texts.closeArea
      ensures setButton != null ==>
        && setButton.state && setButton.icon == SettingIcon && setButton.toolTip == texts.setting
        && setButton.enabled && setButton.visible && !setButton.checked
      ensures playPauseButton != null ==>
        playPauseButton.state && playPauseButton.TipFollowsState() && playPauseButton.IconFollowsState()
      ensures dragState == DraggingInactive && floatingWidget == None && menuOutdated
    {
      var flags := cfg.flags;
      var hideDisabled := DockAreaHideDisabledButtons in flags;
      var tm := NewTabsMenuButton(DockAreaHasTabsMenuButton in flags, hideDisabled, texts.tabsMenu);
      var sb, pp, ds, cb := NewOptionalButtons(flags, texts, hideDisabled);
      var ub := NewUndockButton(DockAreaHasUndockButton in flags, hideDisabled, texts.undock);
      var cl := NewCloseButton(DockAreaHasCloseButton in flags, DockAreaCloseButtonClosesTab in flags,
                               hideDisabled, texts);

      config := cfg;
      tabsMenuButton := tm;
      setButton := sb;
      playPauseButton := pp;
      defaultSetButton := ds;
      captureButton := cb;
      undockButton := ub;
      closeButton := cl;
      config2Button := ButtonTableOf(sb, pp, ds, cb, ub, cl);
      ButtonTableInjective(tm, sb, pp, ds, cb, ub, cl);
      visible := false;
      dragState := DraggingInactive;
      dragStartMousePos := Point(0, 0);
      floatingWidget := None;
      menuOutdated := true;
      tabsMenu := [];
    }

    /** getButton: the button a flag addresses, or null for a flag outside the table. */
    function GetButton(witch: ConfigFlag): (r: TitleBarButton?)
      ensures r == null <==> witch !in config2Button
      ensures r != null ==> r == config2Button[witch]
    {
      if witch in config2Button then config2Button[witch] else null
    }

    /** The objects a setter addressed by a flag may change. */
    function Slot(witch: ConfigFlag): set<TitleBarButton> {
      if witch in config2Button then {config2Button[witch]} else {}
    }

    /** The objects a state-button setter addressed by a flag may change: a state button only. */
    function StateSlot(witch: ConfigFlag): set<TitleBarButton> {
      if witch in config2Button && config2Button[witch].isStateButton then {config2Button[witch]} else {}
    }

    /** The setting button, when it exists. */
    function SettingSlot(): set<TitleBarButton> {
      if setButton != null then {setButton} else {}
    }

    /**
     * The tabs menu flag never has a button in the table, and the
     * undock and close flags always do.
     */
    lemma ButtonTable()
      requires Valid()
      ensures GetButton(DockAreaHasTabsMenuButton) == null
      ensures GetButton(DockAreaHasUndockButton) == undockButton
      ensures GetButton(DockAreaHasCloseButton) == closeButton
      ensures GetButton(DockAreaHasSettingButton) == setButton
      ensures GetButton(DockAreaHasPlayPauseButton) == playPauseButton
    {
    }

    /** button(): only the tabs menu, undock and close buttons can be asked for. */
    function Button(which: TitleBarButtonKind): (r: TitleBarButton?)
      ensures r != null <==> !which.OtherButton?
      ensures which == TitleBarButtonTabsMenu ==> r == tabsMenuButton
      ensures which == TitleBarButtonUndock ==> r == undockButton
      ensures which == TitleBarButtonClose ==> r == closeButton
    {
      match which
      case TitleBarButtonTabsMenu => tabsMenuButton
      case TitleBarButtonUndock => undockButton
      case TitleBarButtonClose => closeButton
      case OtherButton(_) => null
    }

    /**
     * setButtonVisable: for a flag in the table, the global flag follows
     * show and the button is asked to show or hide; otherwise nothing changes.
     */
    method SetButtonVisable(witch: ConfigFlag, show: bool)
      requires Valid()
      modifies config`flags, Slot(witch)`visible
      ensures Valid()
      ensures witch in config2Button ==>
        && config.flags == (if show then old(config.flags) + {witch} else old(config.flags) - {witch})
        && config2Button[witch].visible == EffectivelyVisible(show, config2Button[witch].configuredVisible,
                                                              config2Button[witch].hideWhenDisabled,
                                                              config2Button[witch].enabled)
      ensures witch !in config2Button ==> config.flags == old(config.flags)
    {
      if witch in config2Button {
        config.SetConfigFlag(witch, show);
        config2Button[witch].SetVisible(show);
      }
    }

    /** set_button_visible: the addressed button is asked to show or hide; an absent flag changes nothing. */
    method SetButtonVisible(witch: ConfigFlag, show: bool)
      requires Valid()
      modifies Slot(witch)`visible
      ensures Valid()
      ensures witch in config2Button ==>
        config2Button[witch].visible == EffectivelyVisible(show, config2Button[witch].configuredVisible,
                                                           config2Button[witch].hideWhenDisabled,
                                                           config2Button[witch].enabled)
    {
      var button := GetButton(witch);
      if button != null {
        button.SetVisible(show);
      }
    }

    /** set_button_tip: the addressed button takes the tooltip; an absent flag changes nothing. */
    method SetButtonTip(witch: ConfigFlag, tip: string)
      requires Valid()
      modifies Slot(witch)`toolTip
      ensures Valid()
      ensures witch in config2Button ==> config2Button[witch].toolTip == tip
    {
      var button := GetButton(witch);
      if button != null {
        button.SetToolTip(tip);
      }
    }

    /** set_button_icon: the addressed button takes the icon; an absent flag changes nothing. */
    method SetButtonIcon(witch: ConfigFlag, icon: Icon)
      requires Valid()
      modifies Slot(witch)`icon
      ensures Valid()
      ensures witch in config2Button ==> config2Button[witch].icon == icon
    {
      var button := GetButton(witch);
      if button != null {
        button.SetIcon(icon);
      }
    }

    /**
     * set_state_button_icon: only a state button takes new icons; it keeps
     * its state and shows the icon and tooltip of that state. A plain button
     * is left alone.
     */
    method SetStateButtonIcon(witch: ConfigFlag, positiveIcon: Icon, negativeIcon: Icon)
      requires Valid()
      modifies StateSlot(witch)`positiveIcon, StateSlot(witch)`negativeIcon,
               StateSlot(witch)`state, StateSlot(witch)`toolTip, StateSlot(witch)`icon
      ensures Valid()
      ensures witch in config2Button && config2Button[witch].isStateButton ==>
        && config2Button[witch].positiveIcon == positiveIcon
        && config2Button[witch].negativeIcon == negativeIcon
        && config2Button[witch].state == old(config2Button[witch].state)
        && config2Button[witch].IconFollowsState() && config2Button[witch].TipFollowsState()
      ensures witch in config2Button && !config2Button[witch].isStateButton ==> unchanged(config2Button[witch])
    {
      var button := GetButton(witch);
      if button != null && button.isStateButton {
        button.SetIcons(positiveIcon, negativeIcon);
      }
    }

    /** reset_state: a state button goes back to the positive state; anything else is left alone. */
    method ResetState(witch: ConfigFlag)
      requires Valid()
      modifies StateSlot(witch)`state, StateSlot(witch)`toolTip, StateSlot(witch)`icon
      ensures Valid()
      ensures witch in config2Button && config2Button[witch].isStateButton ==>
        && config2Button[witch].state
        && config2Button[witch].TipFollowsState() && config2Button[witch].IconFollowsState()
      ensures witch in config2Button && !config2Button[witch].isStateButton ==> unchanged(config2Button[witch])
    {
      var button := GetButton(witch);
      if button != null && button.isStateButton {
        button.ResetState();
      }
    }

    /**
     * set_state_button_tips: only a state button takes new tooltips; it keeps
     * its state and shows the tooltip of that state. A plain button is left
     * alone.
     */
    method SetStateButtonTips(witch: ConfigFlag, positiveTip: string, negativeTip: string)
      requires Valid()
      modifies StateSlot(witch)`positiveTip, StateSlot(witch)`negativeTip, StateSlot(witch)`toolTip
      ensures Valid()
      ensures witch in config2Button && config2Button[witch].isStateButton ==>
        && config2Button[witch].positiveTip == positiveTip
        && config2Button[witch].negativeTip == negativeTip
        && config2Button[witch].state == old(config2Button[witch].state)
        && config2Button[witch].TipFollowsState()
      ensures witch in config2Button && !config2Button[witch].isStateButton ==> unchanged(config2Button[witch])
    {
      var button := GetButton(witch);
      if button != null && button.isStateButton {
        button.SetTips(positiveTip, negativeTip);
      }
    }

    /**
     * set_button_checked as written: the button is dereferenced before the
     * null check, so a flag outside the table dereferences null.
     */
    method SetButtonCheckedAsWritten(witch: ConfigFlag, isChecked: bool) returns (outcome: CallOutcome)
      requires Valid()
      modifies Slot(witch)`checked, StateSlot(witch)`state, StateSlot(witch)`toolTip, StateSlot(witch)`icon
      ensures Valid()
      ensures outcome == NullDereference <==> witch !in config2Button
    {
      var button := GetButton(witch);
      if button == null {
        return NullDereference;
      }
      button.SetChecked(isChecked);
      if button.isStateButton {
        button.SetState(!isChecked);
      }
      return Completed;
    }

    /**
     * set_button_checked with the null check first: an absent flag changes
     * nothing; a checkable button takes the checked state and a state button
     * goes to the state opposite to it.
     */
    method SetButtonChecked(witch: ConfigFlag, isChecked: bool)
      requires Valid()
      modifies Slot(witch)`checked, StateSlot(witch)`state, StateSlot(witch)`toolTip, StateSlot(witch)`icon
      ensures Valid()
      ensures witch in config2Button ==>
        config2Button[witch].checked == if config2Button[witch].checkable then isChecked
                                        else old(config2Button[witch].checked)
      ensures witch in config2Button && config2Button[witch].isStateButton ==>
        && config2Button[witch].state == !isChecked
        && config2Button[witch].TipFollowsState() && config2Button[witch].IconFollowsState()
    {
      var button := GetButton(witch);
      if button != null {
        button.SetChecked(isChecked);
        if button.isStateButton {
          button.SetState(!isChecked);
        }
      }
    }

    /**
     * markTabsMenuOutdated: the menu is always marked outdated. Under the
     * dynamic visibility flag it also asks for the tabs menu button to be
     * shown exactly when an open tab has an elided title and there is more
     * than one tab (the request is queued, so it is returned, not applied).
     */
    method MarkTabsMenuOutdated(tabs: seq<TabInfo>) returns (requested: Option<bool>)
      modifies this`menuOutdated
      ensures menuOutdated
      ensures requested.Some? <==> DockAreaDynamicTabsMenuButtonVisibility in config.flags
      ensures requested.Some? ==> (requested.value <==> SomeOpenTabElided(tabs) && |tabs| > 1)
    {
      requested := None;
      if DockAreaDynamicTabsMenuButtonVisibility in config.flags {
        var hasElidedTabTitle := false;
        var i := 0;
        while i < |tabs|
          invariant 0 <= i <= |tabs|
          invariant !hasElidedTabTitle ==> forall j :: 0 <= j < i ==> !(tabs[j].open && tabs[j].elided)
          invariant hasElidedTabTitle ==> SomeOpenTabElided(tabs)
        {
          if !tabs[i].open {
            i := i + 1;
            continue;
          }
          if tabs[i].elided {
            hasElidedTabTitle := true;
            break;
          }
          i := i + 1;
        }
        requested := Some(hasElidedTabTitle && |tabs| > 1);
      }
      menuOutdated := true;
    }

    /**
     * onTabsMenuAboutToShow: an up-to-date menu is kept; an outdated one is
     * rebuilt from the open tabs, in tab order, and marked up to date.
     */
    method OnTabsMenuAboutToShow(tabs: seq<TabInfo>)
      modifies this`menuOutdated, this`tabsMenu
      ensures !old(menuOutdated) ==> !menuOutdated && tabsMenu == old(tabsMenu)
      ensures old(menuOutdated) ==> !menuOutdated && ListsOpenTabs(tabsMenu, tabs)
    {
      if !menuOutdated {
        return;
      }
      var entries: seq<int> := [];
      var i := 0;
      while i < |tabs|
        invariant 0 <= i <= |tabs|
        invariant forall k :: 0 <= k < |entries| ==> 0 <= entries[k] < i && tabs[entries[k]].open
        invariant forall k, l :: 0 <= k < l < |entries| ==> entries[k] < entries[l]
        invariant forall j :: 0 <= j < i && tabs[j].open ==> j in entries
      {
        if !tabs[i].open {
          i := i + 1;
          continue;
        }
        entries := entries + [i];
        i := i + 1;
      }
      tabsMenu := entries;
      menuOutdated := false;
    }

    /** The tabInserted handler: past five tabs the tabs menu button is enabled and shown as configured. */
    method OnTabInserted(tabCount: int)
      modifies tabsMenuButton`visible, tabsMenuButton`enabled
      ensures tabCount > 5 ==>
        tabsMenuButton.enabled && tabsMenuButton.visible == tabsMenuButton.configuredVisible
      ensures tabCount <= 5 ==> unchanged(tabsMenuButton)
    {
      if tabCount > 5 {
        tabsMenuButton.ForceVisible(true);
        tabsMenuButton.SetEnabled(true);
        tabsMenuButton.SetVisible(true);
      }
    }

    /** The removingTab handler: below five tabs the tabs menu button is disabled and hidden. */
    method OnRemovingTab(tabCount: int)
      modifies tabsMenuButton`visible, tabsMenuButton`enabled
      ensures tabCount < 5 ==> !tabsMenuButton.enabled && !tabsMenuButton.visible
      ensures tabCount >= 5 ==> unchanged(tabsMenuButton)
    {
      if tabCount < 5 {
        tabsMenuButton.ForceVisible(false);
        tabsMenuButton.SetEnabled(false);
        tabsMenuButton.SetVisible(false);
      }
    }

    /** setVisible: the menu is marked outdated, and hiding ends any drag. */
    method SetVisible(v: bool, tabs: seq<TabInfo>) returns (requested: Option<bool>)
      requires Valid()
      modifies this`visible, this`menuOutdated, this`dragState
      ensures Valid()
      ensures visible == v && menuOutdated
      ensures !v ==> dragState == DraggingInactive
      ensures v ==> dragState == old(dragState)
      ensures requested.Some? <==> DockAreaDynamicTabsMenuButtonVisibility in config.flags
      ensures requested.Some? ==> (requested.value <==> SomeOpenTabElided(tabs) && |tabs| > 1)
    {
      visible := v;
      requested := MarkTabsMenuOutdated(tabs);
      if !v {
        dragState := DraggingInactive;
      }
    }

    /** mousePressEvent: a left press records where the drag starts; other buttons change nothing. */
    method MousePressEvent(leftButton: bool, pos: Point)
      requires Valid()
      modifies this`dragState, this`dragStartMousePos
      ensures Valid()
      ensures leftButton ==> dragState == DraggingMousePressed && dragStartMousePos == pos
      ensures !leftButton ==> dragState == old(dragState) && dragStartMousePos == old(dragStartMousePos)
    {
      if leftButton {
        dragStartMousePos := pos;
        dragState := DraggingMousePressed;
      }
    }

    /**
     * mouseReleaseEvent: a left release ends any drag and clears the start
     * position; the floating widget finishes dragging only when it was being
     * dragged.
     */
    method MouseReleaseEvent(leftButton: bool) returns (finishedDragging: bool)
      requires Valid()
      modifies this`dragState, this`dragStartMousePos
      ensures Valid()
      ensures leftButton ==> dragState == DraggingInactive && dragStartMousePos == Point(0, 0)
      ensures finishedDragging <==> leftButton && old(dragState) == DraggingFloatingWidget
      ensures finishedDragging ==> floatingWidget.Some?
      ensures !leftButton ==> dragState == old(dragState) && dragStartMousePos == old(dragStartMousePos)
    {
      finishedDragging := false;
      if leftButton {
        var currentDragState := dragState;
        dragStartMousePos := Point(0, 0);
        dragState := DraggingInactive;
        if currentDragState == DraggingFloatingWidget {
          finishedDragging := true;
        }
      }
    }

    /**
     * makeAreaFloating as written: the drag state becomes the one given and
     * the floating widget is made, then the setting button is reset without
     * a null check, so a title bar without a setting button dereferences null.
     */
    method MakeAreaFloatingAsWritten(offset: Point, newState: DragState)
      returns (kind: FloatingWidgetKind, outcome: CallOutcome)
      requires Valid()
      modifies this`dragState, SettingSlot()`state, SettingSlot()`toolTip, SettingSlot()`icon,
               SettingSlot()`checked
      ensures dragState == newState
      ensures kind == FloatingKindFor(OpaqueUndocking in config.flags, newState)
      ensures outcome == NullDereference <==> setButton == null
      ensures setButton != null ==>
        && setButton.state && !setButton.checked
        && setButton.TipFollowsState() && setButton.IconFollowsState()
    {
      dragState := newState;
      var opaqueUndocking := OpaqueUndocking in config.flags || newState != DraggingFloatingWidget;
      if opaqueUndocking {
        kind := FloatingDockContainer;
      } else {
        kind := FloatingDragPreview;
      }
      if setButton == null {
        return kind, NullDereference;
      }
      setButton.ResetState();
      setButton.SetChecked(false);
      outcome := Completed;
    }

    /**
     * makeAreaFloating with the setting button tested for null: the drag
     * state becomes the one given; an opaque container is made unless a drag
     * starts with opaque undocking off; a setting button ends positive and
     * unchecked, showing its positive tooltip and icon, its other fields kept.
     */
    method MakeAreaFloating(offset: Point, newState: DragState) returns (kind: FloatingWidgetKind)
      requires Valid()
      modifies this`dragState, SettingSlot()`state, SettingSlot()`toolTip, SettingSlot()`icon,
               SettingSlot()`checked
      ensures dragState == newState
      ensures kind == FloatingKindFor(OpaqueUndocking in config.flags, newState)
      ensures setButton != null ==>
        && setButton.state && !setButton.checked
        && setButton.TipFollowsState() && setButton.IconFollowsState()
      ensures newState != DraggingFloatingWidget ==> Valid()
    {
      dragState := newState;
      var opaqueUndocking := OpaqueUndocking in config.flags || newState != DraggingFloatingWidget;
      if opaqueUndocking {
        kind := FloatingDockContainer;
      } else {
        kind := FloatingDragPreview;
      }
      if setButton != null {
        setButton.ResetState();
        setButton.SetChecked(false);
      }
    }

    /** startFloating: the area is made floating as a drag, and the floating widget is kept. */
    method StartFloating(offset: Point)
      requires Valid()
      modifies this`dragState, this`floatingWidget, SettingSlot()`state, SettingSlot()`toolTip,
               SettingSlot()`icon, SettingSlot()`checked
      ensures Valid()
      ensures dragState == DraggingFloatingWidget
      ensures floatingWidget == Some(FloatingKindFor(OpaqueUndocking in config.flags, DraggingFloatingWidget))
      ensures setButton != null ==>
        && setButton.state && !setButton.checked
        && setButton.TipFollowsState() && setButton.IconFollowsState()
    {
      var kind := MakeAreaFloating(offset, DraggingFloatingWidget);
      floatingWidget := Some(kind);
    }

    /** The draggingCanceled handler of a drag preview: the drag ends. */
    method OnDraggingCanceled()
      requires Valid()
      modifies this`dragState
      ensures Valid()
      ensures dragState == DraggingInactive
    {
      dragState := DraggingInactive;
    }

    /** The mouse move that undocks the area: a pressed left button dragged far enough. */
    predicate StartsFloating(areaAllowsMove: bool, moveHandler: Option<bool>, leftButtonHeld: bool, pos: Point,
                             containerFloating: bool, visibleDockAreaCount: int, startDragDistance: int)
      reads this
    {
      && !MoveBlocked(areaAllowsMove, moveHandler)
      && leftButtonHeld && dragState == DraggingMousePressed
      && !(containerFloating && visibleDockAreaCount == 1)
      && ManhattanLength(Minus(dragStartMousePos, pos)) >= startDragDistance
    }

    /**
     * mouseMoveEvent: blocked moves change nothing; without the left button
     * or a drag the drag ends; a floating drag moves its widget; a pressed
     * button undocks the area once dragged startDragDistance away, unless
     * the area is the last visible one of a floating container.
     */
    method MouseMoveEvent(areaAllowsMove: bool, moveHandler: Option<bool>, leftButtonHeld: bool, pos: Point,
                          containerFloating: bool, visibleDockAreaCount: int, startDragDistance: int)
      returns (reaction: MoveReaction)
      requires Valid()
      modifies this`dragState, this`floatingWidget, SettingSlot()`state, SettingSlot()`toolTip,
               SettingSlot()`icon, SettingSlot()`checked
      ensures Valid()
      ensures reaction == MoveIgnored <==> MoveBlocked(areaAllowsMove, moveHandler)
      ensures reaction == DragCancelled <==>
        !MoveBlocked(areaAllowsMove, moveHandler) && (!leftButtonHeld || old(dragState) == DraggingInactive)
      ensures reaction == FloatingMoved <==>
        !MoveBlocked(areaAllowsMove, moveHandler) && leftButtonHeld && old(dragState) == DraggingFloatingWidget
      ensures reaction == LastAreaKept <==>
        && !MoveBlocked(areaAllowsMove, moveHandler) && leftButtonHeld && old(dragState) == DraggingMousePressed
        && containerFloating && visibleDockAreaCount == 1
      ensures reaction == BelowThreshold <==>
        && !MoveBlocked(areaAllowsMove, moveHandler) && leftButtonHeld && old(dragState) == DraggingMousePressed
        && !(containerFloating && visibleDockAreaCount == 1)
        && ManhattanLength(Minus(dragStartMousePos, pos)) < startDragDistance
      ensures reaction == DragCancelled ==> dragState == DraggingInactive && floatingWidget == old(floatingWidget)
      ensures reaction == FloatingStarted <==>
        old(StartsFloating(areaAllowsMove, moveHandler, leftButtonHeld, pos,
                           containerFloating, visibleDockAreaCount, startDragDistance))
      ensures reaction == FloatingStarted ==>
        && dragState == DraggingFloatingWidget
        && floatingWidget == Some(FloatingKindFor(OpaqueUndocking in config.flags, DraggingFloatingWidget))
        && (setButton != null ==>
              && setButton.state && !setButton.checked
              && setButton.TipFollowsState() && setButton.IconFollowsState())
      ensures reaction != FloatingStarted ==> unchanged(SettingSlot())
      ensures reaction != FloatingStarted && reaction != DragCancelled ==>
        dragState == old(dragState) && floatingWidget == old(floatingWidget)
      ensures dragState == DraggingFloatingWidget ==>
        old(dragState) == DraggingFloatingWidget || reaction == FloatingStarted
    {
      if !areaAllowsMove {
        return MoveIgnored;
      }
      if moveHandler == Some(false) {
        return MoveIgnored;
      }
      if !leftButtonHeld || dragState == DraggingInactive {
        dragState := DraggingInactive;
        return DragCancelled;
      }
      if dragState == DraggingFloatingWidget {
        return FloatingMoved;
      }
      if containerFloating && visibleDockAreaCount == 1 {
        return LastAreaKept;
      }
      var dragDistance := ManhattanLength(Minus(dragStartMousePos, pos));
      if dragDistance >= startDragDistance {
        StartFloating(dragStartMousePos);
        return FloatingStarted;
      }
      return BelowThreshold;
    }

    /**
     * mouseDoubleClickEvent: unless moves are refused, the area is the last
     * one of a floating container, or it is not floatable, the area is made
     * floating as an opaque container without starting a drag.
     */
    method MouseDoubleClickEvent(moveHandler: Option<bool>, containerFloating: bool,
                                 containerDockAreaCount: int, areaFloatable: bool, pos: Point)
      returns (made: Option<FloatingWidgetKind>)
      requires Valid()
      modifies this`dragState, SettingSlot()`state, SettingSlot()`toolTip, SettingSlot()`icon,
               SettingSlot()`checked
      ensures Valid()
      ensures made.Some? <==> DoubleClickUndocks(moveHandler, containerFloating, containerDockAreaCount, areaFloatable)
      ensures made.Some? ==> made.value == FloatingDockContainer && dragState == DraggingInactive
      ensures made.Some? && setButton != null ==>
        && setButton.state && !setButton.checked
        && setButton.TipFollowsState() && setButton.IconFollowsState()
      ensures made.None? ==> dragState == old(dragState) && unchanged(SettingSlot())
    {
      if moveHandler == Some(false) {
        return None;
      }
      if containerFloating && containerDockAreaCount == 1 {
        return None;
      }
      if !areaFloatable {
        return None;
      }
      var kind := MakeAreaFloating(pos, DraggingInactive);
      return Some(kind);
    }

    /** onUndockButtonClicked as written: a floatable area is made floating by makeAreaFloating as written. */
    method OnUndockButtonClickedAsWritten(areaFloatable: bool, cursorPos: Point)
      returns (made: Option<FloatingWidgetKind>, outcome: CallOutcome)
      requires Valid()
      modifies this`dragState, SettingSlot()`state, SettingSlot()`toolTip, SettingSlot()`icon,
               SettingSlot()`checked
      ensures made.Some? <==> areaFloatable
      ensures outcome == NullDereference <==> areaFloatable && setButton == null
    {
      made, outcome := None, Completed;
      if areaFloatable {
        var kind;
        kind, outcome := MakeAreaFloatingAsWritten(cursorPos, DraggingInactive);
        made := Some(kind);
      }
    }

    /** onUndockButtonClicked: a floatable area is made floating as an opaque container without a drag. */
    method OnUndockButtonClicked(areaFloatable: bool, cursorPos: Point) returns (made: Option<FloatingWidgetKind>)
      requires Valid()
      modifies this`dragState, SettingSlot()`state, SettingSlot()`toolTip, SettingSlot()`icon,
               SettingSlot()`checked
      ensures Valid()
      ensures made.Some? <==> areaFloatable
      ensures made.Some? ==> made.value == FloatingDockContainer && dragState == DraggingInactive
      ensures made.Some? && setButton != null ==>
        && setButton.state && !setButton.checked
        && setButton.TipFollowsState() && setButton.IconFollowsState()
      ensures made.None? ==> dragState == old(dragState) && unchanged(SettingSlot())
    {
      made := None;
      if areaFloatable {
        var kind := MakeAreaFloating(cursorPos, DraggingInactive);
        made := Some(kind);
      }
    }
  }

  /**
   * set_button_checked as written dereferences null for the tabs menu flag
   * on every title bar, because that flag never has a button in the table.
   */
  method TabsMenuFlagCheckedDereferencesNull(t: TitleBar, isChecked: bool) returns (outcome: CallOutcome)
    requires t.Valid()
    ensures outcome == NullDereference
  {
    t.ButtonTable();
    outcome := t.SetButtonCheckedAsWritten(DockAreaHasTabsMenuButton, isChecked);
  }

  /**
   * The undock drag: after a left press, a move shorter than the start drag
   * distance keeps the press, and a later move that reaches the distance
   * undocks the area into a floating widget.
   */
  method PressThenDrag(t: TitleBar, press: Point, near: Point, far: Point, startDragDistance: int)
    returns (first: MoveReaction, second: MoveReaction)
    requires t.Valid()
    requires ManhattanLength(Minus(press, near)) < startDragDistance <= ManhattanLength(Minus(press, far))
    modifies t`dragState, t`dragStartMousePos, t`floatingWidget, t.SettingSlot()`state,
             t.SettingSlot()`toolTip, t.SettingSlot()`icon, t.SettingSlot()`checked
    ensures first == BelowThreshold && second == FloatingStarted
    ensures t.Valid() && t.dragState == DraggingFloatingWidget && t.floatingWidget.Some?
  {
    t.MousePressEvent(true, press);
    first := t.MouseMoveEvent(true, None, true, near, false, 2, startDragDistance);
    second := t.MouseMoveEvent(true, None, true, far, false, 2, startDragDistance);
  }

  /**
   * onUndockButtonClicked as written, on a floatable dock area whose title
   * bar has no setting button (DockAreaHasSettingButton unset): makeAreaFloating
   * resets the missing setting button and dereferences null. Dragging the
   * area out and double-clicking its title bar reach the same call.
   */
  method UndockWithoutSettingButtonDereferencesNull(t: TitleBar, cursorPos: Point) returns (outcome: CallOutcome)
    requires t.Valid() && DockAreaHasSettingButton !in t.config2Button
    modifies t`dragState
    ensures outcome == NullDereference
  {
    var made;
    made, outcome := t.OnUndockButtonClickedAsWritten(true, cursorPos);
  }
}
