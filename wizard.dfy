/** The link wizard's reading of the picked items: which parts to include
    and which actions to run, in pick order. */
module Wizard {
  import opened Text

  /** The item with a leading icon reference `$(icon) ` removed, as the
      anchored pattern `^\$\([^)]+\) ` does; other labels are left alone. */
  function StripIcon(item: string): string
  {
    if |item| < 2 || item[0] != '$' || item[1] != '(' then item
    else match IndexOf(item[2..], ')')
      case None => item
      case Some(k) =>
        if k == 0 || 2 + k + 1 >= |item| || item[2 + k + 1] != ' ' then item
        else item[2 + k + 2..]
  }

  /** Only a prefix `$(icon) ` is ever removed, with a non-empty icon name free of `)`. */
  lemma StripIconRemovesPrefix(item: string)
    ensures |StripIcon(item)| <= |item| && StripIcon(item) == item[|item| - |StripIcon(item)|..]
    ensures StripIcon(item) != item ==>
              var n := |item| - |StripIcon(item)|;
              n >= 5 && item[..2] == "$(" && item[n - 2..n] == ") " && ')' !in item[2..n - 2]
  {
    if StripIcon(item) != item {
      var k := IndexOf(item[2..], ')').value;
      assert item[2..2 + k] == item[2..][..k];
    }
  }

  /** Removing the icon from `$(icon) text` gives back `text`. */
  lemma StripIconRoundTrip(icon: string, text: string)
    requires |icon| > 0 && ')' !in icon
    ensures StripIcon("$(" + icon + ") " + text) == text
  {
    var item := "$(" + icon + ") " + text;
    assert item[2..] == icon + ") " + text;
    assert item[2..][|icon|] == ')';
    var k := IndexOf(item[2..], ')').value;
    assert k == |icon|;
    assert item[2 + k + 2..] == text;
  }

  /** A item that does not begin with `$(` is left as it is. */
  lemma StripIconWithoutIcon(item: string)
    requires !(|item| >= 2 && item[..2] == "$(")
    ensures StripIcon(item) == item
  {
    if |item| >= 2 {
      assert item[..2] == [item[0], item[1]];
    }
  }

  predicate IsAction(text: string)
  {
    text == "Open" || text == "Copy"
  }

  /** The actions among the picked labels, in pick order. */
  function PickedActions(labels: seq<string>): (actions: seq<string>)
    ensures |actions| <= |labels|
    ensures forall k :: 0 <= k < |actions| ==> IsAction(actions[k])
  {
    if labels == [] then []
    else
      var text := StripIcon(labels[|labels| - 1]);
      PickedActions(labels[..|labels| - 1]) + (if IsAction(text) then [text] else [])
  }

  lemma PickedActionsStep(labels: seq<string>, i: nat)
    requires i < |labels|
    ensures PickedActions(labels[..i + 1]) ==
              PickedActions(labels[..i]) + (if IsAction(StripIcon(labels[i])) then [StripIcon(labels[i])] else [])
  {
    assert labels[..i + 1][..i] == labels[..i];
  }

  /** Picking `a` and then `b` yields the actions of `a` followed by those of `b`. */
  lemma {:induction false} PickedActionsConcat(a: seq<string>, b: seq<string>)
    ensures PickedActions(a + b) == PickedActions(a) + PickedActions(b)
    decreases |b|
  {
    if b == [] {
      assert a + b == a;
      assert PickedActions(a) + [] == PickedActions(a);
    } else {
      var b' := b[..|b| - 1];
      assert (a + b)[..|a + b| - 1] == a + b';
      assert (a + b)[|a + b| - 1] == b[|b| - 1];
      PickedActionsConcat(a, b');
      var text := StripIcon(b[|b| - 1]);
      var last := if IsAction(text) then [text] else [];
      assert PickedActions(b) == PickedActions(b') + last;
      assert PickedActions(a + b) == PickedActions(a) + PickedActions(b') + last;
    }
  }

  /** An action is run exactly when some picked item reads as that action. */
  lemma {:induction false} PickedActionsMembers(labels: seq<string>, action: string)
    requires IsAction(action)
    ensures action in PickedActions(labels) <==> Picked(labels, action)
    decreases |labels|
  {
    if labels != [] {
      var init := labels[..|labels| - 1];
      PickedActionsMembers(init, action);
      var text := StripIcon(labels[|labels| - 1]);
      assert PickedActions(labels) == PickedActions(init) + (if IsAction(text) then [text] else []);
    }
  }

  /** Some picked label reads as `text` once its icon is removed. */
  predicate Picked(labels: seq<string>, text: string)
  {
    labels != [] && (Picked(labels[..|labels| - 1], text) || StripIcon(labels[|labels| - 1]) == text)
  }

  /** `Picked` holds exactly when one of the labels reads as `text`. */
  lemma {:induction false} PickedSomeLabel(labels: seq<string>, text: string)
    ensures Picked(labels, text) <==> exists i :: 0 <= i < |labels| && StripIcon(labels[i]) == text
    decreases |labels|
  {
    if labels != [] {
      var n := |labels|;
      var init := labels[..n - 1];
      PickedSomeLabel(init, text);
      if Picked(init, text) {
        var i :| 0 <= i < |init| && StripIcon(init[i]) == text;
        assert labels[i] == init[i];
      }
      if exists i :: 0 <= i < n && StripIcon(labels[i]) == text {
        var i :| 0 <= i < n && StripIcon(labels[i]) == text;
        if i < n - 1 {
          assert init[i] == labels[i];
        }
      }
    }
  }


  lemma PickedStep(labels: seq<string>, i: nat, text: string)
    requires i < |labels|
    ensures Picked(labels[..i + 1], text) <==> Picked(labels[..i], text) || StripIcon(labels[i]) == text
  {
    assert labels[..i + 1][..i] == labels[..i];
  }

  /** The wizard loop: goes through the picked labels in order, sets the include
      flags, and appends every `Open` or `Copy` to the action list. */
  method ParsePicks(labels: seq<string>)
    returns (includeBranch: bool, includeHash: bool, includeRegion: bool, actions: seq<string>)
    ensures includeBranch <==> Picked(labels, "Include Branch")
    ensures includeHash <==> Picked(labels, "Include Hash")
    ensures includeRegion <==> Picked(labels, "Include Selection")
    ensures actions == PickedActions(labels)
  {
    includeBranch, includeHash, includeRegion := false, false, false;
    actions := [];
    var i := 0;
    while i < |labels|
      invariant 0 <= i <= |labels|
      invariant includeBranch <==> Picked(labels[..i], "Include Branch")
      invariant includeHash <==> Picked(labels[..i], "Include Hash")
      invariant includeRegion <==> Picked(labels[..i], "Include Selection")
      invariant actions == PickedActions(labels[..i])
    {
      var text := StripIcon(labels[i]);
      PickedStep(labels, i, "Include Branch");
      PickedStep(labels, i, "Include Hash");
      PickedStep(labels, i, "Include Selection");
      PickedActionsStep(labels, i);
      if text == "Include Branch" {
        includeBranch := true;
      } else if text == "Include Hash" {
        includeHash := true;
      } else if text == "Include Selection" {
        includeRegion := true;
      } else if IsAction(text) {
        actions := actions + [text];
      }
      i := i + 1;
    }
    assert labels[..i] == labels;
  }
}
