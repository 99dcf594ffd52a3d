/**
 * CDockAreaLayout: the list of dock widgets of one dock area together with
 * the index and identity of the widget currently shown. Only the list and
 * index bookkeeping is modelled; the Qt layout and parenting calls are not.
 */
module DockAreaLayout {
  import opened Wrappers
  import opened WidgetList

  class AreaLayout {
    var widgets: seq<Widget>
    var currentIndex: int
    var currentWidget: Option<Widget>

    /**
     * The layout invariant: the index is -1 exactly when no widget is
     * current, and otherwise it points at the current widget. A dock widget
     * belongs to one dock area and occurs in its list once.
     */
    ghost predicate Valid()
      reads this
    {
      && Distinct(widgets)
      && (currentIndex == -1 <==> currentWidget == None)
      && (currentIndex != -1 ==>
            0 <= currentIndex < |widgets| && currentWidget == Some(widgets[currentIndex]))
    }

    constructor ()
      ensures Valid()
      ensures widgets == [] && currentIndex == -1 && currentWidget == None
    {
      widgets := [];
      currentIndex := -1;
      currentWidget := None;
    }

    /** widget(index): the widget at index, or none past the end of the list. */
    function WidgetAt(index: int): (r: Option<Widget>)
      reads this
      requires 0 <= index
      ensures r.Some? <==> index < |widgets|
      ensures r.Some? ==> r.value in widgets
    {
      if index < |widgets| then Some(widgets[index]) else None
    }

    /**
     * insertWidget: a negative index appends. An empty selection selects the
     * inserted widget; otherwise the same widget stays current, its index
     * moving up by one when the insertion happens at or before it.
     */
    method InsertWidget(index: int, w: Widget)
      requires Valid()
      requires index <= |widgets|
      requires w !in widgets
      modifies this
      ensures Valid()
      ensures var at := if index < 0 then |old(widgets)| else index;
        && widgets == InsertAt(old(widgets), at, w)
        && (old(currentIndex) < 0 ==> currentIndex == at && currentWidget == Some(w))
        && (old(currentIndex) >= 0 ==>
              && currentWidget == old(currentWidget)
              && currentIndex == (if at <= old(currentIndex) then old(currentIndex) + 1 else old(currentIndex)))
    {
      var at := if index < 0 then |widgets| else index;
      InsertAtDistinct(widgets, at, w);
      widgets := InsertAt(widgets, at, w);
      if currentIndex < 0 {
        SetCurrentIndex(at);
      } else if at <= currentIndex {
        currentIndex := currentIndex + 1;
      }
    }

    /**
     * removeWidget: removing the current widget clears the selection;
     * removing a widget before it moves its index down by one, so the same
     * widget stays current; removing a later one leaves the index alone.
     */
    method RemoveWidget(w: Widget)
      requires Valid()
      requires w in widgets
      modifies this
      ensures Valid()
      ensures var i := IndexOf(old(widgets), w);
        && widgets == RemoveAt(old(widgets), i)
        && (old(currentWidget) == Some(w) ==> currentIndex == -1 && currentWidget == None)
        && (old(currentWidget) != Some(w) ==>
              && currentWidget == old(currentWidget)
              && currentIndex == (if i < old(currentIndex) then old(currentIndex) - 1 else old(currentIndex)))
    {
      if currentWidget == Some(w) {
        currentWidget := None;
        currentIndex := -1;
      } else if IndexOf(widgets, w) < currentIndex {
        currentIndex := currentIndex - 1;
      }
      RemoveAtDistinct(widgets, IndexOf(widgets, w));
      widgets := RemoveOne(widgets, w);
    }

    /**
     * setCurrentIndex: an index past the end changes nothing; any other
     * index becomes current together with the widget it holds.
     */
    method SetCurrentIndex(index: int)
      requires Valid()
      requires 0 <= index
      modifies this
      ensures Valid()
      ensures widgets == old(widgets)
      ensures index < |widgets| ==> currentIndex == index && currentWidget == Some(widgets[index])
      ensures index >= |widgets| ==> currentIndex == old(currentIndex) && currentWidget == old(currentWidget)
    {
      var prev := currentWidget;
      var next := WidgetAt(index);
      if next.None? || (next == prev && currentWidget.None?) {
        return;
      }
      currentIndex := index;
      currentWidget := next;
    }
  }
}
