/**
 * The list operations the dock area layout performs on its widget list
 * (Qt's QList::indexOf, insert, removeAt and removeOne), as functions on
 * sequences, with the facts the layout relies on.
 */
module WidgetList {

  /** A widget, identified by an opaque number (the pointer in the source). */
  type Widget = nat

  /** No widget occurs twice. */
  ghost predicate Distinct(s: seq<Widget>) {
    forall i, j :: 0 <= i < j < |s| ==> s[i] != s[j]
  }

  /** QList::indexOf: the position of the first occurrence of w, or -1. */
  function IndexOf(s: seq<Widget>, w: Widget): (r: int)
    ensures -1 <= r < |s|
    ensures r == -1 <==> w !in s
    ensures 0 <= r ==> s[r] == w && w !in s[..r]
  {
    if |s| == 0 then -1
    else if s[0] == w then 0
    else
      var k := IndexOf(s[1..], w);
      if k == -1 then -1
      else
        assert s[..k + 1] == [s[0]] + s[1..][..k];
        k + 1
  }

  /** QList::insert: w placed at position i, everything from i on shifted right. */
  function InsertAt(s: seq<Widget>, i: nat, w: Widget): (r: seq<Widget>)
    requires i <= |s|
    ensures |r| == |s| + 1 && r[i] == w
    ensures forall k :: 0 <= k < i ==> r[k] == s[k]
    ensures forall k :: i <= k < |s| ==> r[k + 1] == s[k]
    ensures multiset(r) == multiset(s) + multiset{w}
  {
    assert s == s[..i] + s[i..];
    s[..i] + [w] + s[i..]
  }

  /** QList::removeAt: the element at position i dropped, everything after it shifted left. */
  function RemoveAt(s: seq<Widget>, i: nat): (r: seq<Widget>)
    requires i < |s|
    ensures |r| == |s| - 1
    ensures forall k :: 0 <= k < i ==> r[k] == s[k]
    ensures forall k :: i <= k < |r| ==> r[k] == s[k + 1]
    ensures multiset(r) == multiset(s) - multiset{s[i]}
  {
    assert s == s[..i] + [s[i]] + s[i + 1..];
    s[..i] + s[i + 1..]
  }

  /** QList::removeOne: the first occurrence of w dropped; the list is unchanged when w is absent. */
  function RemoveOne(s: seq<Widget>, w: Widget): seq<Widget> {
    var i := IndexOf(s, w);
    if i < 0 then s else RemoveAt(s, i)
  }

  /** The widget at position from taken out and put back at position to. */
  function Moved(s: seq<Widget>, from: nat, to: nat): seq<Widget>
    requires from < |s| && to < |s|
  {
    InsertAt(RemoveAt(s, from), to, s[from])
  }

  /** In a list without repetitions, IndexOf finds every element at its own position. */
  lemma IndexOfDistinct(s: seq<Widget>, i: nat)
    requires Distinct(s) && i < |s|
    ensures IndexOf(s, s[i]) == i
  {
  }

  lemma InsertAtDistinct(s: seq<Widget>, i: nat, w: Widget)
    requires Distinct(s) && i <= |s| && w !in s
    ensures Distinct(InsertAt(s, i, w))
  {
    var r := InsertAt(s, i, w);
    forall a, b | 0 <= a < b < |r| ensures r[a] != r[b] {
      if a == i || b == i {
        var other := if a == i then b else a;
        var k := if other < i then other else other - 1;
        assert r[other] == s[k];
      } else {
        var ka := if a < i then a else a - 1;
        var kb := if b < i then b else b - 1;
        assert r[a] == s[ka] && r[b] == s[kb];
      }
    }
  }

  lemma RemoveAtDistinct(s: seq<Widget>, i: nat)
    requires Distinct(s) && i < |s|
    ensures Distinct(RemoveAt(s, i))
    ensures s[i] !in RemoveAt(s, i)
  {
    var r := RemoveAt(s, i);
    forall a, b | 0 <= a < b < |r| ensures r[a] != r[b] {
      var ka := if a < i then a else a + 1;
      var kb := if b < i then b else b + 1;
      assert r[a] == s[ka] && r[b] == s[kb];
    }
  }

  /** Removing the element at one position keeps every other element. */
  lemma RemoveAtKeepsOthers(s: seq<Widget>, i: nat, x: Widget)
    requires i < |s| && x in s && x != s[i]
    ensures x in RemoveAt(s, i)
  {
    assert x in multiset(RemoveAt(s, i));
  }

  /**
   * Removing a widget that was just inserted restores the list: insert and
   * removeOne are inverse to each other on a widget that was not there.
   */
  lemma {:induction false} RemoveOneUndoesInsertAt(s: seq<Widget>, i: nat, w: Widget)
    requires i <= |s| && w !in s
    ensures IndexOf(InsertAt(s, i, w), w) == i
    ensures RemoveOne(InsertAt(s, i, w), w) == s
  {
    var r := InsertAt(s, i, w);
    var q := RemoveAt(r, i);
    assert |q| == |s|;
    forall j | 0 <= j < |s| ensures q[j] == s[j] {
      if j >= i {
        assert q[j] == r[j + 1];
      }
    }
  }

  /**
   * Moving a widget keeps the length and the multiset of widgets, puts the
   * moved widget at its target position and keeps the list free of repetitions.
   */
  lemma MovedFacts(s: seq<Widget>, from: nat, to: nat)
    requires from < |s| && to < |s|
    ensures |Moved(s, from, to)| == |s|
    ensures multiset(Moved(s, from, to)) == multiset(s)
    ensures Moved(s, from, to)[to] == s[from]
    ensures Distinct(s) ==> Distinct(Moved(s, from, to))
  {
    var rest := RemoveAt(s, from);
    assert s[from] in multiset(s);
    if Distinct(s) {
      RemoveAtDistinct(s, from);
      InsertAtDistinct(rest, to, s[from]);
    }
  }
}
