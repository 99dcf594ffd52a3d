# Dock area tab stack and title bar, modelled in Dafny

This project models two parts of the WidgetDockSystem docking framework, a
variant of the Qt Advanced Docking System.

- **The tab stack of a dock area** (`dock_system/DockAreaWidget.cpp`).
  - `CDockAreaLayout` keeps the list of dock widgets of one area, together with the index and identity of the widget currently shown.
  - `CDockAreaWidget` builds on that list: it selects a dock widget, reorders and removes dock widgets, filters out closed ones, folds their feature flags, and answers the minimum-area questions and the dock area flags.
- **The title bar of a dock area** (`dock_system/DockAreaTitleBar.cpp`).
  - The undock drag state machine: inactive, mouse pressed, floating widget.
  - The plain and two-state title bar buttons.
  - The table from configuration flags to buttons, with its setters.
  - The tabs menu cache and the tabs menu button threshold.

Files:

- `Wrappers.dfy`: the `Option` type, standing in for null pointers.
- `WidgetList.dfy`: the list operations the layout uses (`indexOf`, `insert`, `removeAt`, `removeOne`, a move) as functions on sequences, with their facts.
- `DockAreaLayout.dfy`: `CDockAreaLayout` as a class whose methods update the list and the current index and widget in place.
- `DockAreaWidget.dfy`: the list part of `CDockAreaWidget`.
  - The counting and accumulating loops are methods. `OpenDockWidgetsCount` and `OpenedDockWidgets` are proved against a filter function; `IndexOfFirstOpenDockWidget` and `Features` against quantified characterisations of their results.
  - `nextOpenDockWidget` and the minimum-area predicates are pure functions.
- `TitleBarButton.dfy`: `CTitleBarButton` and `CTitleBarStateButton` as one class. The `isStateButton` field plays the part of the `dynamic_cast`.
- `DockAreaTitleBar.dfy`: `CDockAreaTitleBar` and its private data. Title bar events are methods that change the drag state, the menu cache and the buttons.

How the model represents the program:

- A dock widget is an opaque number.
- Whatever the title bar or dock area asks of classes outside these two files is passed in as an argument:
  - whether a dock widget is closed, and its features;
  - the container's counts and floating state;
  - the tab states and the start drag distance;
  - the answer of the user's allow-move and minimum-area handlers.

## Model

| member | source | states |
|---|---|---|
| WidgetList.IndexOf | dock_system/DockAreaWidget.cpp:218-221 | the result is -1 exactly when the widget is absent, otherwise the position of its first occurrence |
| WidgetList.InsertAt | dock_system/DockAreaWidget.cpp:105-112 | inserting grows the list by one, puts the widget at the position, keeps the widgets before it and shifts those after it by one |
| WidgetList.RemoveAt | dock_system/DockAreaWidget.cpp:129-146 | removing shrinks the list by one, keeps the widgets before the position, shifts those after it back, and removes exactly one occurrence from the multiset |
| WidgetList.IndexOfDistinct | dock_system/DockAreaWidget.cpp:218-221 | in a list without repetitions, indexOf finds every element at its own position |
| WidgetList.RemoveOneUndoesInsertAt | dock_system/DockAreaWidget.cpp:105-146 | after inserting a widget that was absent, indexOf finds it at the insertion index and removeOne restores the original list |
| WidgetList.MovedFacts | dock_system/DockAreaWidget.cpp:812-826 | remove-then-insert keeps the length and the multiset, puts the moved widget at the target index and keeps the list free of repetitions |
| DockAreaLayout.AreaLayout.constructor | dock_system/DockAreaWidget.cpp:79-91 | a new layout is empty with index -1 and no current widget, and satisfies the layout invariant |
| DockAreaLayout.AreaLayout.WidgetAt | dock_system/DockAreaWidget.cpp:226-229 | widget(index) finds a widget exactly when the index is inside the list |
| DockAreaLayout.AreaLayout.InsertWidget | dock_system/DockAreaWidget.cpp:105-124 | a negative index appends; the new list is the insertion; with nothing current the inserted widget becomes current at its index, otherwise the same widget stays current and its index moves up when the insertion is at or before it; the invariant is kept |
| DockAreaLayout.AreaLayout.RemoveWidget | dock_system/DockAreaWidget.cpp:129-146 | the widget leaves the list; removing the current widget clears index and widget; removing an earlier one moves the index down so the same widget stays current; a later one leaves it; the invariant is kept |
| DockAreaLayout.AreaLayout.SetCurrentIndex | dock_system/DockAreaWidget.cpp:159-197 | an index past the end changes nothing; any other index becomes current together with its widget; the list is unchanged and the invariant is kept |
| DockAreaWidget.OpenOnlyMembers | dock_system/DockAreaWidget.cpp:767-779 | the list of open dock widgets holds exactly the dock widgets of the area that are not closed |
| DockAreaWidget.OpenOnlyDistinct | dock_system/DockAreaWidget.cpp:767-779 | filtering a list without repetitions gives a list without repetitions |
| DockAreaWidget.FirstOpenHeadsOpened | dock_system/DockAreaWidget.cpp:767-794 | the dock widget at the index of the first open dock widget is the first element of the opened dock widgets |
| DockAreaWidget.NextOpenDockWidget | dock_system/DockAreaWidget.cpp:903-925 | any dock widget chosen is in the area and open |
| DockAreaWidget.NextOpenDockWidgetChoice | dock_system/DockAreaWidget.cpp:903-925 | none exactly when no open dock widget other than the argument exists; otherwise an open one different from it: the next open one, the previous open one when the argument is last, the first open one when the argument is not open |
| DockAreaWidget.MinimumAreaPredicatesAgree | dock_system/DockAreaWidget.cpp:586-646 | closing is refused exactly when moving is refused and one dock widget is left; the area is at the minimum exactly when moving is refused and it holds two dock widgets |
| DockAreaWidget.AllowMove | dock_system/DockAreaWidget.cpp:630-634 | without a minimum-area handler moving is always allowed; with one, an allowed move means more dock areas are visible than the minimum |
| DockAreaWidget.AllowMoveMonotone | dock_system/DockAreaWidget.cpp:630-634 | a move allowed with some number of visible dock areas stays allowed with more of them |
| DockAreaWidget.AllowCloseArea | dock_system/DockAreaWidget.cpp:586-594 | closing is always allowed without a handler and for an area not holding exactly one dock widget; a refused close means moving is refused too |
| DockAreaWidget.IsVisibleAreaEqMinArea | dock_system/DockAreaWidget.cpp:636-646 | true only with a handler and two dock widgets; an area at the minimum cannot be moved but may be closed |
| DockAreaWidget.TitleBarVisibility | dock_system/DockAreaWidget.cpp:839-859 | the title bar is left alone exactly without a container or with tabs always shown; it is never shown for a single open dock widget under HideSingleWidgetTitleBar, nor for a top-level dock widget in a floating container |
| DockAreaWidget.DockAreaWidget.constructor | dock_system/DockAreaWidget.cpp:372-393 | a new dock area has an empty layout with nothing current and the default flags |
| DockAreaWidget.DockAreaWidget.CurrentDockWidget | dock_system/DockAreaWidget.cpp:649-658 | the current dock widget is the layout's current widget and belongs to the area |
| DockAreaWidget.DockAreaWidget.SetCurrentIndex | dock_system/DockAreaWidget.cpp:687-709 | the selection changes exactly when the index is inside the list and the target is not already current and shown; otherwise nothing changes; a valid index always ends current |
| DockAreaWidget.DockAreaWidget.ReorderDockWidget | dock_system/DockAreaWidget.cpp:812-826 | out-of-range or equal indices change nothing; otherwise the list is the move, the count and the multiset are kept, and the moved dock widget sits at the target index and is current |
| DockAreaWidget.DockAreaWidget.RemoveDockWidget | dock_system/DockAreaWidget.cpp:467-519 | the dock widget leaves the list. If it was current and another is open, that one becomes current, unless a saved state is being restored. Otherwise an emptied area is removed from its container and an area that lost its current widget hides. A non-current removal keeps the current widget |
| DockAreaWidget.DockAreaWidget.OpenDockWidgetsCount | dock_system/DockAreaWidget.cpp:752-763 | the count equals the length of the list of open dock widgets |
| DockAreaWidget.DockAreaWidget.OpenedDockWidgets | dock_system/DockAreaWidget.cpp:767-779 | the result is the order-preserving filter of the dock widgets that are not closed |
| DockAreaWidget.DockAreaWidget.IndexOfFirstOpenDockWidget | dock_system/DockAreaWidget.cpp:783-794 | -1 exactly when every dock widget is closed, otherwise the smallest index of an open one |
| DockAreaWidget.DockAreaWidget.Features | dock_system/DockAreaWidget.cpp:929-949 | AND gives the features every dock widget has, a subset of each dock widget's features, and all features for an empty area. OR gives the features some dock widget has, a superset of each, and none for an empty area |
| DockAreaWidget.DockAreaWidget.SetDockAreaFlags | dock_system/DockAreaWidget.cpp:990-998 | the flags are replaced; the title bar is updated exactly when HideSingleWidgetTitleBar changed |
| DockAreaWidget.DockAreaWidget.SetDockAreaFlag | dock_system/DockAreaWidget.cpp:1002-1007 | one flag is switched on or off, the others kept, with the same title bar update rule |
| TitleBarButtons.TitleBarButton.Plain | dock_system/DockAreaTitleBar.cpp:931-936 | a plain button keeps its configured visibility and reads HideWhenDisabled from the configuration |
| TitleBarButtons.TitleBarButton.Stateful | dock_system/DockAreaTitleBar.cpp:974-981 | a state button starts positive, showing the positive tooltip and icon |
| TitleBarButtons.TitleBarButton.SetVisible | dock_system/DockAreaTitleBar.cpp:953-965 | the button shows exactly when requested, configured visible, and either not hidden when disabled or enabled |
| TitleBarButtons.TitleBarButton.ForceVisible | dock_system/DockAreaTitleBar.cpp:967-969 | the visibility is set as given, bypassing the configuration |
| TitleBarButtons.TitleBarButton.SetState | dock_system/DockAreaTitleBar.cpp:988-1003 | the state is set and the tooltip and icon follow it |
| TitleBarButtons.TitleBarButton.ResetState | dock_system/DockAreaTitleBar.cpp:1006-1009 | the button returns to the positive state, with tooltip and icon following |
| TitleBarButtons.TitleBarButton.SetIcons | dock_system/DockAreaTitleBar.cpp:1012-1016 | the icons are replaced, the state is kept and the icon of the state is shown |
| TitleBarButtons.TitleBarButton.SetTips | dock_system/DockAreaTitleBar.cpp:1019-1026 | the tooltips are replaced, the state is kept and the tooltip of the state is shown |
| TitleBarButtons.TitleBarButton.OnMouseRelease | dock_system/DockAreaTitleBar.cpp:1029-1037 | a mouse release toggles the state, with tooltip and icon following |
| DockAreaTitleBar.ManhattanLength | dock_system/DockAreaTitleBar.cpp:725 | the drag distance is never negative, is zero only for no movement, and bounds each coordinate's distance |
| DockAreaTitleBar.FloatingKindFor | dock_system/DockAreaTitleBar.cpp:341-356 | a drag preview is made exactly when a drag starts with opaque undocking off |
| DockAreaTitleBar.DockManagerConfig.SetConfigFlag | dock_system/DockAreaTitleBar.cpp:313 | one global flag is switched on or off, the others kept |
| DockAreaTitleBar.ButtonTableOf | dock_system/DockAreaTitleBar.cpp:200-295 | Config2Button always holds the undock and close buttons, holds an optional button exactly when it was made, and holds no other flag |
| DockAreaTitleBar.NewTabsMenuButton | dock_system/DockAreaTitleBar.cpp:164-196 | the tabs menu button starts hidden and disabled, with the configured visibility of its flag and the configured hide-when-disabled setting |
| DockAreaTitleBar.NewSetButton | dock_system/DockAreaTitleBar.cpp:206-218 | the setting button is a checkable, unchecked state button in the positive state, enabled and shown, whose tooltip is then overwritten with the fixed setting text |
| DockAreaTitleBar.NewPlayPauseButton | dock_system/DockAreaTitleBar.cpp:221-233 | the play/pause button is an enabled, shown state button showing pause when positive and play when negative, starting positive |
| DockAreaTitleBar.NewActionButton | dock_system/DockAreaTitleBar.cpp:236-264 | the default-set and capture buttons are plain, configured visible, enabled and shown, with their tooltip and icon |
| DockAreaTitleBar.NewUndockButton | dock_system/DockAreaTitleBar.cpp:266-276 | the undock button takes the configured visibility of its flag and the configured hide-when-disabled setting, with its tooltip and icon |
| DockAreaTitleBar.NewCloseButton | dock_system/DockAreaTitleBar.cpp:278-295 | the close button's tooltip says whether it closes the tab or the area, depending on the configuration; it takes the configured visibility and hide-when-disabled setting |
| DockAreaTitleBar.NewOptionalButtons | dock_system/DockAreaTitleBar.cpp:206-264 | each optional button exists exactly when its configuration flag is set; each one made is enabled and shown, and they are distinct objects |
| DockAreaTitleBar.TitleBar.constructor | dock_system/DockAreaTitleBar.cpp:393-413 | the title bar starts inactive with no floating widget and an outdated menu; optional buttons exist exactly when configured, and a setting button is enabled, shown and unchecked; the table invariant holds |
| DockAreaTitleBar.ButtonTableInjective | dock_system/DockAreaTitleBar.cpp:200-295 | the buttons createButtons makes are distinct objects, so no two flags of Config2Button address the same button and none addresses the tabs menu button |
| DockAreaTitleBar.TitleBar.GetButton | dock_system/DockAreaTitleBar.cpp:300-304 | null exactly for a flag outside Config2Button, otherwise the table's button |
| DockAreaTitleBar.TitleBar.ButtonTable | dock_system/DockAreaTitleBar.cpp:200-304 | the tabs menu flag never finds a button; the undock and close flags always find theirs |
| DockAreaTitleBar.TitleBar.Button | dock_system/DockAreaTitleBar.cpp:626-636 | only the tabs menu, undock and close selectors give a button, each its own; every other value gives null |
| DockAreaTitleBar.TitleBar.SetButtonVisable | dock_system/DockAreaTitleBar.cpp:308-316 | for a flag in the table, the global flag follows the request and the button gets its effective visibility; otherwise the configuration is unchanged. Only the global flags and the addressed button's visibility may change: its tooltip, icon, state and enabled flag stay |
| DockAreaTitleBar.TitleBar.SetButtonVisible | dock_system/DockAreaTitleBar.cpp:807-814 | the addressed button gets its effective visibility and nothing else of it changes; an absent flag changes nothing |
| DockAreaTitleBar.TitleBar.SetButtonTip | dock_system/DockAreaTitleBar.cpp:818-825 | the addressed button takes the tooltip and nothing else of it changes; an absent flag changes nothing |
| DockAreaTitleBar.TitleBar.SetButtonIcon | dock_system/DockAreaTitleBar.cpp:920-927 | the addressed button takes the icon and nothing else of it changes; an absent flag changes nothing |
| DockAreaTitleBar.TitleBar.SetStateButtonIcon | dock_system/DockAreaTitleBar.cpp:829-838 | a state button takes the icons, keeps its state and shows the icon and tooltip of that state; only its icons, state, tooltip and icon may change. A plain button or an absent flag is left unchanged |
| DockAreaTitleBar.TitleBar.ResetState | dock_system/DockAreaTitleBar.cpp:841-849 | a state button returns to the positive state, showing the positive tooltip and icon; only those three fields may change. A plain button or an absent flag is left unchanged |
| DockAreaTitleBar.TitleBar.SetStateButtonTips | dock_system/DockAreaTitleBar.cpp:863-871 | a state button takes the tooltips, keeps its state and shows the tooltip of that state; its icon stays. A plain button or an absent flag is left unchanged |
| DockAreaTitleBar.TitleBar.SetButtonCheckedAsWritten | dock_system/DockAreaTitleBar.cpp:851-860 | as written, the call dereferences null exactly when the flag has no button |
| DockAreaTitleBar.TabsMenuFlagCheckedDereferencesNull | dock_system/DockAreaTitleBar.cpp:851-860 | as written, checking the tabs menu flag dereferences null on every title bar |
| DockAreaTitleBar.TitleBar.SetButtonChecked | dock_system/DockAreaTitleBar.cpp:851-860 | with the null check first: a checkable button takes the checked state and any other keeps it; a state button goes to the opposite state and shows its tooltip and icon; a plain button changes only its checked state; an absent flag changes nothing |
| DockAreaTitleBar.TitleBar.MarkTabsMenuOutdated | dock_system/DockAreaTitleBar.cpp:460-482 | the menu is always marked outdated; a visibility request is made exactly under the dynamic flag, asking to show the button exactly when an open tab is elided and there is more than one tab |
| DockAreaTitleBar.TitleBar.OnTabsMenuAboutToShow | dock_system/DockAreaTitleBar.cpp:485-507 | an up-to-date menu is kept; an outdated one becomes exactly the open tab indices in increasing order and is marked up to date |
| DockAreaTitleBar.TitleBar.OnTabInserted | dock_system/DockAreaTitleBar.cpp:177-184 | with more than five tabs the tabs menu button is enabled and visible as configured, its tooltip and icon kept; otherwise it is untouched |
| DockAreaTitleBar.TitleBar.OnRemovingTab | dock_system/DockAreaTitleBar.cpp:185-191 | with fewer than five tabs the tabs menu button is disabled and hidden, its tooltip and icon kept; otherwise it is untouched |
| DockAreaTitleBar.TitleBar.SetVisible | dock_system/DockAreaTitleBar.cpp:640-647 | the menu is marked outdated; a tabs menu button visibility request is made exactly under the dynamic visibility flag, asking to show it exactly when an open tab is elided and there is more than one tab; hiding the title bar ends any drag, showing it keeps the drag state |
| DockAreaTitleBar.TitleBar.MousePressEvent | dock_system/DockAreaTitleBar.cpp:651-666 | a left press records the start position and enters the pressed state; other buttons change nothing |
| DockAreaTitleBar.TitleBar.MouseReleaseEvent | dock_system/DockAreaTitleBar.cpp:670-687 | a left release always ends inactive with the start position cleared; dragging is finished exactly when the state was floating, and a floating widget then exists |
| DockAreaTitleBar.TitleBar.MakeAreaFloatingAsWritten | dock_system/DockAreaTitleBar.cpp:337-382 | as written, the drag state and floating widget are set and the call dereferences null exactly when the title bar has no setting button |
| DockAreaTitleBar.TitleBar.OnUndockButtonClickedAsWritten | dock_system/DockAreaTitleBar.cpp:535-541 | as written, a floatable area is made floating, and the call dereferences null exactly when the area is floatable and the title bar has no setting button |
| DockAreaTitleBar.UndockWithoutSettingButtonDereferencesNull | dock_system/DockAreaTitleBar.cpp:535-541 | as written, the undock handler on a floatable area whose title bar has no setting button dereferences null |
| DockAreaTitleBar.TitleBar.MakeAreaFloating | dock_system/DockAreaTitleBar.cpp:337-382 | with the setting button tested for null: the drag state becomes the argument; a preview is made only for a drag with opaque undocking off; a setting button ends positive and unchecked, showing its positive tooltip and icon, with its tips, icons, visibility and enabled flag kept |
| DockAreaTitleBar.TitleBar.StartFloating | dock_system/DockAreaTitleBar.cpp:386-389 | the area floats as a drag and the floating widget is kept, which restores the invariant; a setting button ends positive and unchecked, its other fields kept |
| DockAreaTitleBar.TitleBar.OnDraggingCanceled | dock_system/DockAreaTitleBar.cpp:352-355 | a cancelled preview drag ends inactive |
| DockAreaTitleBar.TitleBar.MouseMoveEvent | dock_system/DockAreaTitleBar.cpp:691-735 | a move is ignored exactly when blocked, and then changes nothing. The drag is cancelled exactly when an unblocked move comes without the left button or without a drag, and it then ends inactive with the floating widget kept. A floating drag only moves its widget. The floating state is entered exactly from a pressed button dragged at least the start distance, unless the area is the last visible one of a floating container; a shorter drag keeps the pressed state. The setting button changes only when the area starts floating, and is then reset to positive, showing the positive tooltip and icon, and unchecked |
| DockAreaTitleBar.PressThenDrag | dock_system/DockAreaTitleBar.cpp:651-735 | after a left press, a move shorter than the start drag distance keeps the press and a later move reaching it undocks the area into a floating widget |
| DockAreaTitleBar.TitleBar.MouseDoubleClickEvent | dock_system/DockAreaTitleBar.cpp:739-758 | the area floats exactly when moves are allowed, it is not the last area of a floating container, and it is floatable; it then becomes an opaque container, the state is inactive and a setting button is reset to positive, showing the positive tooltip and icon, and unchecked. A refused double click leaves the drag state and the setting button unchanged |
| DockAreaTitleBar.TitleBar.OnUndockButtonClicked | dock_system/DockAreaTitleBar.cpp:535-541 | a floatable area floats as an opaque container with the state inactive and a setting button reset to positive, showing the positive tooltip and icon, and unchecked; otherwise the drag state and the setting button are unchanged |

## Left out

- Painting, geometry, size policies, icon sizes, style sheets and object names are not modelled: they only affect rendering.
- Qt layout and parenting calls inside the layout operations are not modelled: `takeAt`, `addWidget`, `setParent`, `setUpdatesEnabled` and `hide`. Only the list and index effect is.
- Signals, slots and `emit` are not modelled, and neither are queued `invokeMethod` calls. The queued visibility request of `markTabsMenuOutdated` is returned rather than applied. The queued `setVisible` that `CTitleBarButton::event` issues when a button hiding while disabled changes its enabled state is not modelled.
- Implicit visibility of child widgets shown with their parent is not modelled. A button's `visible` field records only explicit `setVisible`, `show`, `hide` and `force_visible` calls.
- The user callbacks are given values, not behaviour: close, allow-move, minimum area, play/pause, setting, dock state and tab change. The same goes for the per-dock-widget handlers that `makeAreaFloating` runs.
- `saveState` is not modelled: it writes XML.
- Floating containers, splitters, overlays and the dock manager are not modelled; their answers are inputs. This covers `finishDragging`, `moveFloating`, `startFloating` of the floating widget, the overlay's allowed areas and `hideEmptyParentSplitters`.
- `insertDockWidget`, `addDockWidget`, `closeArea`, `closeOtherAreas`, `toggleView`, `hideAreaWithNoVisibleContent`, `onTabCloseRequested`, `onCloseButtonClicked`, `onCurrentTabChanged`, `updateDockWidgetActionsButtons`, `onTabsMenuActionTriggered`, `contextMenuEvent`, `hide_buttons`/`show_buttons` and the forwarding `set_button_*` members of `CDockAreaWidget` are not modelled. They act mostly through the tab bar, the container and signals.
- `dock_system/main_title_bar.cpp` and `dock_system/main_title_bar.hpp` are not part of this model.
- The tooltip texts of the buttons are parameters (`ButtonTexts`). The source's string literals are not preserved in readable form.
- The tab bar is not modelled. `setCurrentIndex` compares the index with the tab count, and the model takes the tab bar to hold one tab per dock widget of the layout.
- DockAreaLayout.AreaLayout.InsertWidget: requires the widget not to be in the area already. A dock widget belongs to one area once, so the layout invariant includes that the list has no repetitions.
- DockAreaLayout.AreaLayout.RemoveWidget: requires the widget to be in the list. For an absent widget, `indexOf` gives -1, which would wrongly move the current index down.
- DockAreaWidget.DockAreaWidget.SetCurrentIndex: whether the target dock widget is hidden is an input, because widget visibility is not modelled. `ReorderDockWidget` passes "hidden", because `insertWidget` re-parents the moved widget.
- DockAreaWidget.DockAreaWidget.Features: `DockWidget.h` is not part of this model. The feature enum and `AllDockWidgetFeatures` follow the upstream Qt Advanced Docking System header: Closable, Movable, Floatable, Focusable, DeleteOnClose and CustomCloseHandling, without ForceCloseWithArea and NoTab.
- `MakeAreaFloating`, and the drag, double-click and undock handlers that call it, test the setting button for null before resetting it. The source does not; see "Findings".
- DockAreaTitleBar.TitleBar.constructor: the visibility argument of `CTitleBarStateButton` is taken to default to true, because the header is not part of this model.
- DockAreaTitleBar.ManhattanLength: integer overflow of the coordinates is not modelled.
- DockAreaTitleBar.TitleBar.MousePressEvent: focusing the current tab under `FocusHighlighting` is not modelled.

## Findings

| source | as written | input that shows it | evidently intended | confidence | as-written member | corrected member |
|---|---|---|---|---|---|---|
| dock_system/DockAreaTitleBar.cpp:378-379 | `makeAreaFloating` calls `resetState` and `setChecked` on SetButton without testing it for null, and SetButton is made only under DockAreaHasSettingButton (lines 206-218) | a title bar configured without DockAreaHasSettingButton, on a floatable dock area: clicking the undock button (lines 535-541), double-clicking the title bar (739-758) or dragging it past the start distance (691-735) calls `makeAreaFloating`, which dereferences the null SetButton | reset the setting button only when it exists, as the destructor tests it (line 444) | not executed | DockAreaTitleBar.TitleBar.MakeAreaFloatingAsWritten | DockAreaTitleBar.TitleBar.MakeAreaFloating |
| dock_system/DockAreaTitleBar.cpp:851-860 | `set_button_checked` calls `setChecked` on the looked-up button before testing it for null | `set_button_checked(DockAreaHasTabsMenuButton, true)` on any title bar: the tabs menu flag never has a button in Config2Button, so the lookup gives null and it is dereferenced. Likewise any optional flag that is not configured | test for null first, as the sibling setters do, so that an absent flag changes nothing | not executed | DockAreaTitleBar.TitleBar.SetButtonCheckedAsWritten | DockAreaTitleBar.TitleBar.SetButtonChecked |
