/** The footer of the phone layout (src/app/main-page/layout.tsx): five
    buttons, the active one found from the current path, a click that
    selects or deselects, and each button's zoom around the active one. */
module FooterNav {
  import opened Basics
  import opened Sequences

  /** The buttons' `to` paths in display order. */
  function Buttons(): seq<string> {
    [ "/phone/comming-soon1",
      "/phone/infractructure-path",
      "/phone/green-trail",
      "/phone/storylines",
      "/phone/comming-soon2" ]
  }

  /** `pathname.startsWith(to)`. */
  predicate StartsWith(pathname: string, to: string) {
    to <= pathname
  }

  /** The effect on `pathname`: the first button whose path starts the
      current path, or `None` (the source's `null`). */
  function ActiveIndexFor(pathname: string): (a: Option<nat>)
    ensures a.Some? ==> a.value < |Buttons()| && StartsWith(pathname, Buttons()[a.value])
    ensures a.Some? ==> forall j :: 0 <= j < a.value ==> !StartsWith(pathname, Buttons()[j])
    ensures a.None? <==> forall j :: 0 <= j < |Buttons()| ==> !StartsWith(pathname, Buttons()[j])
  {
    FirstIndex(Buttons(), (to: string) => StartsWith(pathname, to))
  }

  /** No button's path starts another's, so a path matches at most one
      button. */
  lemma ButtonsPrefixFree(i: nat, j: nat)
    requires i < |Buttons()| && j < |Buttons()| && i != j
    ensures !(Buttons()[i] <= Buttons()[j])
  {
    var b := Buttons();
    if (i == 0 && j == 4) || (i == 4 && j == 0) {
      assert b[i][19] != b[j][19];
    } else {
      assert b[i][7] != b[j][7];
    }
  }

  /** Whichever button's path starts the current path is the active one. */
  lemma MatchingButtonIsActive(pathname: string, i: nat)
    requires i < |Buttons()| && StartsWith(pathname, Buttons()[i])
    ensures ActiveIndexFor(pathname) == Some(i)
  {
    var a := ActiveIndexFor(pathname);
    assert a.Some?;
    if a.value != i {
      var b := Buttons();
      var k := a.value;
      if |b[i]| <= |b[k]| {
        assert b[i] == pathname[..|b[i]|] == b[k][..|b[i]|];
        ButtonsPrefixFree(i, k);
      } else {
        assert b[k] == pathname[..|b[k]|] == b[i][..|b[k]|];
        ButtonsPrefixFree(k, i);
      }
    }
  }

  /** `buttonClick`: the active button deselects and goes to "/phone"; any
      other becomes active and goes to its path. */
  function Click(active: Option<nat>, i: nat, to: string): (r: (Option<nat>, string))
    ensures active == Some(i) ==> r == (None, "/phone")
    ensures active != Some(i) ==> r == (Some(i), to)
  {
    if active == Some(i) then (None, "/phone") else (Some(i), to)
  }

  /** Clicking the same button twice leaves nothing active and ends on
      "/phone" when it was not active before, on its path when it was. */
  lemma ClickTwice(active: Option<nat>, i: nat, to: string)
    ensures active != Some(i) ==> Click(Click(active, i, to).0, i, to) == (None, "/phone")
    ensures active == Some(i) ==> Click(Click(active, i, to).0, i, to) == (Some(i), to)
  {
  }

  /** "/phone" is shorter than every button's path, so it matches none. */
  lemma HomeMatchesNoButton()
    ensures ActiveIndexFor("/phone") == None
  {
    forall j | 0 <= j < |Buttons()| ensures !StartsWith("/phone", Buttons()[j]) {
      assert |Buttons()[j]| > |"/phone"|;
    }
  }

  /** The path a click navigates to makes the path effect choose what the
      click chose: following a button's path activates that same button,
      and the deselect click's "/phone" activates none. */
  lemma ClickAgreesWithPath(active: Option<nat>, i: nat)
    requires i < |Buttons()|
    ensures ActiveIndexFor(Click(active, i, Buttons()[i]).1) == Click(active, i, Buttons()[i]).0
  {
    if active == Some(i) {
      HomeMatchesNoButton();
    } else {
      MatchingButtonIsActive(Buttons()[i], i);
    }
  }

  /** `|i - a|`. */
  function Distance(i: nat, a: nat): nat {
    if i >= a then i - a else a - i
  }

  /** The zoom of button `i`: 0.85 for all when none is active, otherwise
      1 for the active one falling by 0.15 per step to a floor of 0.7. */
  function Zoom(active: Option<nat>, i: nat): (z: real)
    ensures 0.7 <= z <= 1.0
    ensures active.None? ==> z == 0.85
    ensures active.Some? && i == active.value ==> z == 1.0
    ensures active.Some? && Distance(i, active.value) == 1 ==> z == 0.85
    ensures active.Some? && Distance(i, active.value) >= 2 ==> z == 0.7
  {
    match active
    case None => 0.85
    case Some(a) => Max(0.7, 1.0 - Distance(i, a) as real * 0.15)
  }

  /** Farther from the active button is never larger. */
  lemma ZoomFallsWithDistance(a: nat, i: nat, j: nat)
    requires Distance(i, a) <= Distance(j, a)
    ensures Zoom(Some(a), i) >= Zoom(Some(a), j)
  {
  }

  /** The footer's `activeIndex` state. */
  class Footer {
    var activeIndex: Option<nat>

    constructor()
      ensures activeIndex.None?
    {
      activeIndex := None;
    }

    /** The effect run when the path changes. */
    method OnPathname(pathname: string)
      modifies this
      ensures activeIndex == ActiveIndexFor(pathname)
      ensures activeIndex.Some? ==> StartsWith(pathname, Buttons()[activeIndex.value])
    {
      activeIndex := ActiveIndexFor(pathname);
    }

    /** Returns the path the router is sent to. */
    method ButtonClick(to: string, i: nat) returns (target: string)
      modifies this
      ensures (activeIndex, target) == Click(old(activeIndex), i, to)
    {
      if activeIndex == Some(i) {
        activeIndex := None;
        target := "/phone";
      } else {
        activeIndex := Some(i);
        target := to;
      }
    }
  }
}
