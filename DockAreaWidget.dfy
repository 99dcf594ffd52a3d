/**
 * The tab-stack part of CDockAreaWidget: selecting, moving and removing dock
 * widgets through its contents layout, the queries that filter out closed
 * dock widgets, the feature fold, the minimum-area predicates and the dock
 * area flags. Whether a dock widget is closed and what features it has belong
 * to the dock widget, so they are given as functions of the widget.
 */
module DockAreaWidget {
  import opened Wrappers
  import opened WidgetList
  import opened DockAreaLayout

  /** CDockWidget::DockWidgetFeature, one element per flag bit. */
  datatype DockWidgetFeature =
    | Closable | Movable | Floatable | DeleteOnClose | CustomCloseHandling
    | Focusable | ForceCloseWithArea | NoTab

  /** CDockWidget::DockWidgetFeatures, a flag set. */
  type Features = set<DockWidgetFeature>

  const AllDockWidgetFeatures: Features :=
    {Closable, Movable, Floatable, Focusable, DeleteOnClose, CustomCloseHandling}
  const NoDockWidgetFeatures: Features := {}

  datatype BitwiseOperator = BitwiseAnd | BitwiseOr

  /** CDockAreaWidget::eDockAreaFlag. */
  datatype DockAreaFlag = HideSingleWidgetTitleBar

  const DefaultFlags: set<DockAreaFlag> := {}

  /** What removeDockWidget does after taking the widget out of its list. */
  datatype RemovalFollowUp =
    | SelectedNext(next: Widget)  // another open dock widget was made current
    | AreaEmptied                 // the area is empty and is removed from its container
    | AreaHidden                  // the current widget went and no open one is left: the area hides
    | NoFollowUp

  /** What a dock container tells a dock area about itself (the container is not modelled). */
  datatype ContainerView = ContainerView(hasTopLevelDockWidget: bool, isFloating: bool)

  /**
   * The dock widgets that are not closed, in list order: the value
   * openedDockWidgets builds.
   */
  function OpenOnly(ws: seq<Widget>, isClosed: Widget -> bool): (r: seq<Widget>)
    ensures |r| <= |ws|
  {
    if ws == [] then []
    else
      var n := |ws| - 1;
      assert ws == ws[..n] + [ws[n]];
      OpenOnly(ws[..n], isClosed) + (if isClosed(ws[n]) then [] else [ws[n]])
  }

  /** The filter keeps exactly the open dock widgets of the list. */
  lemma {:induction false} OpenOnlyMembers(ws: seq<Widget>, isClosed: Widget -> bool)
    ensures forall x :: x in OpenOnly(ws, isClosed) <==> x in ws && !isClosed(x)
  {
    if ws != [] {
      var n := |ws| - 1;
      OpenOnlyMembers(ws[..n], isClosed);
      assert ws == ws[..n] + [ws[n]];
    }
  }

  /** Filtering a prefix one element longer adds that element when it is open. */
  lemma OpenOnlyStep(ws: seq<Widget>, isClosed: Widget -> bool, i: nat)
    requires i < |ws|
    ensures OpenOnly(ws[..i + 1], isClosed) == OpenOnly(ws[..i], isClosed) + (if isClosed(ws[i]) then [] else [ws[i]])
  {
    assert ws[..i + 1][..i] == ws[..i];
  }

  lemma {:induction false} OpenOnlyDistinct(ws: seq<Widget>, isClosed: Widget -> bool)
    requires Distinct(ws)
    ensures Distinct(OpenOnly(ws, isClosed))
  {
    if ws != [] {
      var n := |ws| - 1;
      OpenOnlyDistinct(ws[..n], isClosed);
      OpenOnlyMembers(ws[..n], isClosed);
      assert ws[n] !in ws[..n];
    }
  }

  /**
   * The first open dock widget of the list heads the list of open ones: the
   * index indexOfFirstOpenDockWidget returns and the first element of
   * openedDockWidgets name the same dock widget.
   */
  lemma {:induction false} FirstOpenHeadsOpened(ws: seq<Widget>, isClosed: Widget -> bool, i: nat)
    requires i < |ws| && !isClosed(ws[i])
    requires forall j :: 0 <= j < i ==> isClosed(ws[j])
    ensures OpenOnly(ws, isClosed) != [] && OpenOnly(ws, isClosed)[0] == ws[i]
  {
    var n := |ws| - 1;
    if n == i {
      var prefix := OpenOnly(ws[..n], isClosed);
      OpenOnlyMembers(ws[..n], isClosed);
      if prefix != [] {
        assert prefix[0] in prefix;
      }
    } else {
      FirstOpenHeadsOpened(ws[..n], isClosed, i);
    }
  }

  /**
   * nextOpenDockWidget: the dock widget to select when w goes away: the open
   * dock widget after w, the one before it when w is the last open one, the
   * first open one when w is not open, and none when no other is open.
   */
  function NextOpenDockWidget(ws: seq<Widget>, isClosed: Widget -> bool, w: Widget): (r: Option<Widget>)
    ensures r.Some? ==> r.value in ws && !isClosed(r.value)
  {
    var open := OpenOnly(ws, isClosed);
    OpenOnlyMembers(ws, isClosed);
    if |open| > 1 || (|open| == 1 && open[0] != w) then
      if open[|open| - 1] == w then Some(open[|open| - 2])
      else Some(open[IndexOf(open, w) + 1])
    else None
  }

  /**
   * nextOpenDockWidget finds nothing exactly when no open dock widget other
   * than w exists; otherwise it finds an open dock widget other than w, the
   * successor of w among the open ones, or its predecessor when w is last.
   */
  lemma NextOpenDockWidgetChoice(ws: seq<Widget>, isClosed: Widget -> bool, w: Widget)
    requires Distinct(ws)
    ensures var r := NextOpenDockWidget(ws, isClosed, w);
      && (r.None? <==> forall x :: x in ws && !isClosed(x) ==> x == w)
      && (r.Some? ==> r.value != w && r.value in ws && !isClosed(r.value))
    ensures var open := OpenOnly(ws, isClosed);
      var k := IndexOf(open, w);
      && (0 <= k < |open| - 1 ==> NextOpenDockWidget(ws, isClosed, w) == Some(open[k + 1]))
      && (0 <= k && k == |open| - 1 && |open| > 1 ==> NextOpenDockWidget(ws, isClosed, w) == Some(open[k - 1]))
      && (k < 0 && |open| > 0 ==> NextOpenDockWidget(ws, isClosed, w) == Some(open[0]))
  {
    var open := OpenOnly(ws, isClosed);
    OpenOnlyDistinct(ws, isClosed);
    OpenOnlyMembers(ws, isClosed);
    if |open| > 1 {
      assert open[0] != open[1];
      assert open[0] in open && open[1] in open;
    } else if |open| == 1 {
      assert open[0] in open;
    }
  }

  /**
   * allow_move: without a minimum-area handler moving is always allowed;
   * with one, only while more dock areas are visible than its minimum.
   */
  function AllowMove(minArea: Option<int>, visibleDockAreaCount: int): (r: bool)
    ensures minArea.None? ==> r
    ensures minArea.Some? && r ==> visibleDockAreaCount >= minArea.value + 1
  {
    if minArea.None? then true
    else visibleDockAreaCount > minArea.value
  }

  /** A move allowed with some number of visible dock areas stays allowed with more of them. */
  lemma AllowMoveMonotone(minArea: Option<int>, visibleDockAreaCount: int, more: int)
    requires visibleDockAreaCount <= more && AllowMove(minArea, visibleDockAreaCount)
    ensures AllowMove(minArea, more)
  {
  }

  /**
   * allow_close_area: refused only for the single dock widget (count 1) of an
   * area when no more dock areas are visible than the handler's minimum.
   */
  function AllowCloseArea(minArea: Option<int>, visibleDockAreaCount: int, dockWidgetsCount: int): (r: bool)
    ensures minArea.None? ==> r
    ensures dockWidgetsCount != 1 ==> r
    ensures !r ==> !AllowMove(minArea, visibleDockAreaCount)
  {
    if minArea.Some? && visibleDockAreaCount <= minArea.value && dockWidgetsCount == 1 then false
    else true
  }

  /**
   * is_visible_area_eq_min_area: with a handler, an area of two dock widgets
   * when no more dock areas are visible than the handler's minimum.
   */
  function IsVisibleAreaEqMinArea(minArea: Option<int>, visibleDockAreaCount: int, dockWidgetsCount: int): (r: bool)
    ensures r ==> minArea.Some? && dockWidgetsCount == 2
    ensures r ==> !AllowMove(minArea, visibleDockAreaCount)
    ensures r ==> AllowCloseArea(minArea, visibleDockAreaCount, dockWidgetsCount)
  {
    if minArea.None? then false
    else if dockWidgetsCount == 2 && visibleDockAreaCount <= minArea.value then true
    else false
  }

  /**
   * The three minimum-area predicates agree: closing is refused exactly when
   * moving is refused and one dock widget is left, and the area sits at the
   * minimum exactly when moving is refused and it holds two dock widgets.
   */
  lemma MinimumAreaPredicatesAgree(minArea: Option<int>, visibleDockAreaCount: int, dockWidgetsCount: int)
    ensures AllowCloseArea(minArea, visibleDockAreaCount, dockWidgetsCount)
        <==> AllowMove(minArea, visibleDockAreaCount) || dockWidgetsCount != 1
    ensures IsVisibleAreaEqMinArea(minArea, visibleDockAreaCount, dockWidgetsCount)
        <==> !AllowMove(minArea, visibleDockAreaCount) && dockWidgetsCount == 2
  {
  }

  /**
   * updateTitleBarVisibility: the visibility given to the title bar, or none
   * when it is left alone (no container, or tabs always shown). A single
   * open dock widget in an area with HideSingleWidgetTitleBar hides it.
   */
  function TitleBarVisibility(container: Option<ContainerView>, alwaysShowTabs: bool,
                              hideSingleCentralWidgetTitleBar: bool,
                              flags: set<DockAreaFlag>, openDockWidgetsCount: int): (r: Option<bool>)
    ensures r.Some? <==> container.Some? && !alwaysShowTabs
    ensures r == Some(true) ==> !(HideSingleWidgetTitleBar in flags && openDockWidgetsCount == 1)
    ensures r == Some(true) ==> !container.value.hasTopLevelDockWidget || (!container.value.isFloating && !hideSingleCentralWidgetTitleBar)
  {
    if container.None? || alwaysShowTabs then None
    else
      var hidden := (container.value.hasTopLevelDockWidget
                     && (container.value.isFloating || hideSingleCentralWidgetTitleBar))
                    || (HideSingleWidgetTitleBar in flags && openDockWidgetsCount == 1);
      Some(!hidden)
  }

  class DockAreaWidget {
    /** The contents layout (d->ContentsLayout). */
    const contents: AreaLayout
    /** The dock area flags (d->Flags). */
    var flags: set<DockAreaFlag>

    ghost predicate Valid()
      reads this, contents
    {
      contents.Valid()
    }

    constructor ()
      ensures Valid() && fresh(contents)
      ensures contents.widgets == [] && contents.currentIndex == -1
      ensures flags == DefaultFlags
    {
      contents := new AreaLayout();
      flags := DefaultFlags;
    }

    /** currentDockWidget: the widget at the current index, which is the layout's current widget. */
    function CurrentDockWidget(): (r: Option<Widget>)
      reads this, contents
      requires Valid()
      ensures r == contents.currentWidget
      ensures r.Some? ==> r.value in contents.widgets
    {
      if contents.currentIndex < 0 then None
      else contents.WidgetAt(contents.currentIndex)
    }

    /**
     * setCurrentIndex: an index outside the tab bar is refused; a target
     * that is already current and shown is left as it is; otherwise the
     * target becomes current. The tab bar holds one tab per dock widget, and
     * whether the target widget is hidden is given.
     */
    method SetCurrentIndex(index: int, targetHidden: bool) returns (switched: bool)
      requires Valid()
      modifies contents
      ensures Valid()
      ensures contents.widgets == old(contents.widgets)
      ensures switched <==>
        && 0 <= index < |contents.widgets|
        && !(old(contents.currentWidget) == Some(contents.widgets[index]) && !targetHidden)
      ensures !switched ==>
        contents.currentIndex == old(contents.currentIndex) && contents.currentWidget == old(contents.currentWidget)
      ensures 0 <= index < |contents.widgets| ==>
        contents.currentIndex == index && contents.currentWidget == Some(contents.widgets[index])
    {
      if index < 0 || index > |contents.widgets| - 1 {
        return false;
      }
      var cw := contents.currentWidget;
      var nw := contents.WidgetAt(index);
      if cw == nw && !targetHidden {
        return false;
      }
      contents.SetCurrentIndex(index);
      switched := true;
    }

    /**
     * reorderDockWidget: out-of-range or equal indices change nothing;
     * otherwise the dock widget at fromIndex is removed and re-inserted at
     * toIndex, which becomes current; the count and the multiset of dock
     * widgets stay the same.
     */
    method ReorderDockWidget(fromIndex: int, toIndex: int)
      requires Valid()
      modifies contents
      ensures Valid()
      ensures var n := |old(contents.widgets)|;
        if fromIndex >= n || fromIndex < 0 || toIndex >= n || toIndex < 0 || fromIndex == toIndex then
          && contents.widgets == old(contents.widgets)
          && contents.currentIndex == old(contents.currentIndex)
          && contents.currentWidget == old(contents.currentWidget)
        else
          && contents.widgets == Moved(old(contents.widgets), fromIndex, toIndex)
          && |contents.widgets| == n
          && multiset(contents.widgets) == multiset(old(contents.widgets))
          && contents.widgets[toIndex] == old(contents.widgets)[fromIndex]
          && contents.currentIndex == toIndex
          && contents.currentWidget == Some(old(contents.widgets)[fromIndex])
    {
      var n := |contents.widgets|;
      if fromIndex >= n || fromIndex < 0 || toIndex >= n || toIndex < 0 || fromIndex == toIndex {
        return;
      }
      ghost var before := contents.widgets;
      MovedFacts(before, fromIndex, toIndex);
      var w := contents.widgets[fromIndex];
      IndexOfDistinct(before, fromIndex);
      RemoveAtDistinct(before, fromIndex);
      contents.RemoveWidget(w);
      contents.InsertWidget(toIndex, w);
      // insertWidget re-parents the moved widget, which hides it
      var _ := SetCurrentIndex(toIndex, true);
    }

    /**
     * removeDockWidget, list part: the widget leaves the list. When it was
     * current and another dock widget is open, that one (chosen by
     * nextOpenDockWidget) becomes current unless a saved state is being
     * restored; otherwise an emptied area is removed from its container and
     * an area that lost its current widget hides.
     */
    method RemoveDockWidget(w: Widget, isClosed: Widget -> bool, restoringState: bool,
                            containerDockAreaCount: int) returns (followUp: RemovalFollowUp)
      requires Valid()
      requires w in contents.widgets
      modifies contents
      ensures Valid()
      ensures contents.widgets == RemoveAt(old(contents.widgets), IndexOf(old(contents.widgets), w))
      ensures var wasCurrent := old(contents.currentWidget) == Some(w);
        var next := if wasCurrent then NextOpenDockWidget(old(contents.widgets), isClosed, w) else None;
        var emptied := contents.widgets == [] && containerDockAreaCount >= 1;
        && (next.Some? ==> followUp == (if restoringState then NoFollowUp else SelectedNext(next.value)))
        && (next.None? && emptied ==> followUp == AreaEmptied)
        && (next.None? && !emptied && wasCurrent ==> followUp == AreaHidden)
        && (next.None? && !emptied && !wasCurrent ==> followUp == NoFollowUp)
      ensures followUp.SelectedNext? ==>
        && followUp.next != w && !isClosed(followUp.next)
        && contents.currentWidget == Some(followUp.next)
      ensures old(contents.currentWidget) == Some(w) && !followUp.SelectedNext? ==> contents.currentWidget == None
      ensures old(contents.currentWidget) != Some(w) ==> contents.currentWidget == old(contents.currentWidget)
    {
      var currentDockWidget := CurrentDockWidget();
      var next := if currentDockWidget == Some(w) then NextOpenDockWidget(contents.widgets, isClosed, w) else None;
      NextOpenDockWidgetChoice(contents.widgets, isClosed, w);
      ghost var before := contents.widgets;
      contents.RemoveWidget(w);
      if next.Some? {
        if restoringState {
          // setCurrentDockWidget does nothing while a state is restored
          followUp := NoFollowUp;
        } else {
          var index := IndexOf(contents.widgets, next.value);
          RemoveAtKeepsOthers(before, IndexOf(before, w), next.value);
          // the removed widget was current, so the guard on an already shown target is not met
          var _ := SetCurrentIndex(index, true);
          followUp := SelectedNext(next.value);
        }
      } else if contents.widgets == [] && containerDockAreaCount >= 1 {
        followUp := AreaEmptied;
      } else if currentDockWidget == Some(w) {
        followUp := AreaHidden;
      } else {
        followUp := NoFollowUp;
      }
    }

    /** openDockWidgetsCount: the number of dock widgets that are not closed. */
    method OpenDockWidgetsCount(isClosed: Widget -> bool) returns (count: nat)
      ensures count == |OpenOnly(contents.widgets, isClosed)|
    {
      var ws := contents.widgets;
      count := 0;
      var i := 0;
      while i < |ws|
        invariant 0 <= i <= |ws|
        invariant count == |OpenOnly(ws[..i], isClosed)|
      {
        OpenOnlyStep(ws, isClosed, i);
        if !isClosed(ws[i]) {
          count := count + 1;
        }
        i := i + 1;
      }
      assert ws[..i] == ws;
    }

    /** openedDockWidgets: the dock widgets that are not closed, in list order. */
    method OpenedDockWidgets(isClosed: Widget -> bool) returns (list: seq<Widget>)
      ensures list == OpenOnly(contents.widgets, isClosed)
      ensures forall x :: x in list <==> x in contents.widgets && !isClosed(x)
    {
      var ws := contents.widgets;
      list := [];
      var i := 0;
      while i < |ws|
        invariant 0 <= i <= |ws|
        invariant list == OpenOnly(ws[..i], isClosed)
      {
        OpenOnlyStep(ws, isClosed, i);
        var dockWidget := ws[i];
        if !isClosed(dockWidget) {
          list := list + [dockWidget];
        }
        i := i + 1;
      }
      assert ws[..i] == ws;
      OpenOnlyMembers(ws, isClosed);
    }

    /** indexOfFirstOpenDockWidget: the smallest index of an open dock widget, or -1 when none is open. */
    method IndexOfFirstOpenDockWidget(isClosed: Widget -> bool) returns (index: int)
      ensures -1 <= index < |contents.widgets|
      ensures index == -1 <==> forall j :: 0 <= j < |contents.widgets| ==> isClosed(contents.widgets[j])
      ensures 0 <= index ==>
        && !isClosed(contents.widgets[index])
        && forall j :: 0 <= j < index ==> isClosed(contents.widgets[j])
    {
      var i := 0;
      while i < |contents.widgets|
        invariant 0 <= i <= |contents.widgets|
        invariant forall j :: 0 <= j < i ==> isClosed(contents.widgets[j])
      {
        if !isClosed(contents.widgets[i]) {
          return i;
        }
        i := i + 1;
      }
      return -1;
    }

    /**
     * features: with BitwiseAnd, the features every dock widget has (all
     * features for an empty area); otherwise the features some dock widget
     * has (none for an empty area).
     */
    method Features(mode: BitwiseOperator, featuresOf: Widget -> Features) returns (r: Features)
      ensures mode == BitwiseAnd ==>
        forall f :: f in r <==>
          f in AllDockWidgetFeatures && forall j :: 0 <= j < |contents.widgets| ==> f in featuresOf(contents.widgets[j])
      ensures mode == BitwiseAnd ==> forall j :: 0 <= j < |contents.widgets| ==> r <= featuresOf(contents.widgets[j])
      ensures mode != BitwiseAnd ==>
        forall f :: f in r <==> exists j :: 0 <= j < |contents.widgets| && f in featuresOf(contents.widgets[j])
      ensures mode != BitwiseAnd ==> forall j :: 0 <= j < |contents.widgets| ==> featuresOf(contents.widgets[j]) <= r
      ensures contents.widgets == [] ==>
        r == if mode == BitwiseAnd then AllDockWidgetFeatures else NoDockWidgetFeatures
    {
      var ws := contents.widgets;
      if mode == BitwiseAnd {
        r := AllDockWidgetFeatures;
        var i := 0;
        while i < |ws|
          invariant 0 <= i <= |ws|
          invariant forall f :: f in r <==>
            f in AllDockWidgetFeatures && forall j :: 0 <= j < i ==> f in featuresOf(ws[j])
        {
          r := r * featuresOf(ws[i]);
          i := i + 1;
        }
      } else {
        r := NoDockWidgetFeatures;
        var i := 0;
        while i < |ws|
          invariant 0 <= i <= |ws|
          invariant forall f :: f in r <==> exists j :: 0 <= j < i && f in featuresOf(ws[j])
        {
          r := r + featuresOf(ws[i]);
          i := i + 1;
        }
      }
    }

    /**
     * setDockAreaFlags: the flags are replaced; the title bar visibility is
     * recomputed exactly when HideSingleWidgetTitleBar changed.
     */
    method SetDockAreaFlags(newFlags: set<DockAreaFlag>) returns (titleBarUpdated: bool)
      modifies this`flags
      ensures flags == newFlags
      ensures titleBarUpdated <==> ((HideSingleWidgetTitleBar in old(flags)) != (HideSingleWidgetTitleBar in newFlags))
    {
      var changedFlags := (flags - newFlags) + (newFlags - flags);
      flags := newFlags;
      titleBarUpdated := HideSingleWidgetTitleBar in changedFlags;
    }

    /** setDockAreaFlag: one flag switched on or off, the others kept. */
    method SetDockAreaFlag(flag: DockAreaFlag, on: bool) returns (titleBarUpdated: bool)
      modifies this`flags
      ensures flags == if on then old(flags) + {flag} else old(flags) - {flag}
      ensures titleBarUpdated <==> ((HideSingleWidgetTitleBar in old(flags)) != (HideSingleWidgetTitleBar in flags))
    {
      var newFlags := if on then flags + {flag} else flags - {flag};
      titleBarUpdated := SetDockAreaFlags(newFlags);
    }
  }
}
