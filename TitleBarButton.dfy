/**
 * CTitleBarButton and its subclass CTitleBarStateButton. A state button is a
 * title bar button whose isStateButton is true (the dynamic_cast in the
 * source); it carries a positive/negative state that picks its tooltip and
 * icon.
 */
module TitleBarButtons {

  /** An icon: none, an image resource, or an icon of the widget style. */
  datatype Icon = NoIcon | Resource(path: string) | StyleIcon(name: string)

  /** The visibility CTitleBarButton::setVisible gives a button asked to show or hide. */
  ghost predicate EffectivelyVisible(requested: bool, configuredVisible: bool, hideWhenDisabled: bool, enabled: bool) {
    requested && configuredVisible && (!hideWhenDisabled || enabled)
  }

  class TitleBarButton {
    /** Visible: whether the configuration lets this button show at all. */
    const configuredVisible: bool
    /** HideWhenDisabled: read from DockAreaHideDisabledButtons when the button is made. */
    const hideWhenDisabled: bool
    /** True for a CTitleBarStateButton. */
    const isStateButton: bool

    var enabled: bool
    var visible: bool
    var checkable: bool
    var checked: bool
    var toolTip: string
    var icon: Icon

    // CTitleBarStateButton part
    var state: bool
    var positiveIcon: Icon
    var negativeIcon: Icon
    var positiveTip: string
    var negativeTip: string

    /** The tooltip shown is the one of the current state. */
    predicate TipFollowsState()
      reads this
    {
      toolTip == if state then positiveTip else negativeTip
    }

    /** The icon shown is the one of the current state. */
    predicate IconFollowsState()
      reads this
    {
      icon == if state then positiveIcon else negativeIcon
    }

    /** CTitleBarButton(visible): a plain button. */
    constructor Plain(visible: bool, hideDisabledButtons: bool)
      ensures configuredVisible == visible && hideWhenDisabled == hideDisabledButtons && !isStateButton
      ensures enabled && !this.visible && !checkable && !checked
      ensures toolTip == "" && icon == NoIcon
    {
      configuredVisible := visible;
      hideWhenDisabled := hideDisabledButtons;
      isStateButton := false;
      enabled := true;
      this.visible := false;
      checkable := false;
      checked := false;
      toolTip := "";
      icon := NoIcon;
      state := true;
      positiveIcon, negativeIcon := NoIcon, NoIcon;
      positiveTip, negativeTip := "", "";
    }

    /** CTitleBarStateButton: starts in the positive state, showing the positive tooltip and icon. */
    constructor Stateful(posIcon: Icon, negIcon: Icon, posTip: string, negTip: string,
                         visible: bool, hideDisabledButtons: bool)
      ensures configuredVisible == visible && hideWhenDisabled == hideDisabledButtons && isStateButton
      ensures enabled && !this.visible && !checkable && !checked
      ensures positiveIcon == posIcon && negativeIcon == negIcon
      ensures positiveTip == posTip && negativeTip == negTip
      ensures state && TipFollowsState() && IconFollowsState()
    {
      configuredVisible := visible;
      hideWhenDisabled := hideDisabledButtons;
      isStateButton := true;
      enabled := true;
      this.visible := false;
      checkable := false;
      checked := false;
      positiveIcon, negativeIcon := posIcon, negIcon;
      positiveTip, negativeTip := posTip, negTip;
      new;
      SetState(true);
    }

    /**
     * setVisible: the button shows only when asked to, when its
     * configuration allows it, and, if it hides when disabled, when enabled.
     */
    method SetVisible(requested: bool)
      modifies this`visible
      ensures visible == EffectivelyVisible(requested, configuredVisible, hideWhenDisabled, enabled)
    {
      var v := requested && configuredVisible;
      if v && hideWhenDisabled {
        v := enabled;
      }
      visible := v;
    }

    /** force_visible: the base visibility, bypassing the configuration. */
    method ForceVisible(v: bool)
      modifies this`visible
      ensures visible == v
    {
      visible := v;
    }

    method SetEnabled(e: bool)
      modifies this`enabled
      ensures enabled == e
    {
      enabled := e;
    }

    method SetCheckable(c: bool)
      modifies this`checkable
      ensures checkable == c
    {
      checkable := c;
    }

    /** QAbstractButton::setChecked: only a checkable button takes the checked state. */
    method SetChecked(c: bool)
      modifies this`checked
      ensures checked == if checkable then c else old(checked)
    {
      if checkable {
        checked := c;
      }
    }

    method SetToolTip(tip: string)
      modifies this`toolTip
      ensures toolTip == tip
    {
      toolTip := tip;
    }

    method SetIcon(i: Icon)
      modifies this`icon
      ensures icon == i
    {
      icon := i;
    }

    /** setState: the state changes and the tooltip and icon follow it. */
    method SetState(s: bool)
      requires isStateButton
      modifies this`state, this`toolTip, this`icon
      ensures state == s && TipFollowsState() && IconFollowsState()
    {
      state := s;
      if state {
        toolTip := positiveTip;
        icon := positiveIcon;
      } else {
        toolTip := negativeTip;
        icon := negativeIcon;
      }
    }

    /** resetState: back to the positive state. */
    method ResetState()
      requires isStateButton
      modifies this`state, this`toolTip, this`icon
      ensures state && TipFollowsState() && IconFollowsState()
    {
      SetState(true);
    }

    /** setIcons: new icons, the state kept, the icon of the state shown. */
    method SetIcons(posIcon: Icon, negIcon: Icon)
      requires isStateButton
      modifies this`positiveIcon, this`negativeIcon, this`state, this`toolTip, this`icon
      ensures positiveIcon == posIcon && negativeIcon == negIcon
      ensures state == old(state) && TipFollowsState() && IconFollowsState()
    {
      positiveIcon := posIcon;
      negativeIcon := negIcon;
      SetState(state);
    }

    /** setTips: new tooltips, the state and icon kept, the tooltip of the state shown. */
    method SetTips(posTip: string, negTip: string)
      requires isStateButton
      modifies this`positiveTip, this`negativeTip, this`toolTip
      ensures positiveTip == posTip && negativeTip == negTip
      ensures TipFollowsState()
    {
      positiveTip := posTip;
      negativeTip := negTip;
      if state {
        toolTip := positiveTip;
      } else {
        toolTip := negativeTip;
      }
    }

    /** event(MouseButtonRelease): a click toggles the state. */
    method OnMouseRelease()
      requires isStateButton
      modifies this`state, this`toolTip, this`icon
      ensures state == !old(state) && TipFollowsState() && IconFollowsState()
    {
      SetState(!state);
    }
  }
}
