/** The selection viewport of a scrolling list (src/scroll.rs): a selected row,
    the first row on screen, and whether the view follows new rows. */
module Scroll {
  import opened Usize

  /** The fields of a `ScrollState`, as a value. `offset` is the first row on
      screen, `selected` the highlighted row, `autoScroll` whether the view
      follows the end of the list. */
  datatype Viewport = Viewport(offset: nat, selected: nat, autoScroll: bool)
  {
    /** The selection is on screen: at or below the first shown row and
        among the `visible` rows shown from there. */
    predicate Shows(visible: nat) {
      offset <= selected < offset + visible
    }

    /** Both indices are within a list of `total` rows: the selection names a
        row (or is 0 when there is none) and the window never starts past the
        last full screen. */
    predicate Within(total: nat, visible: nat) {
      (if total == 0 then selected == 0 else selected < total)
      && offset <= SatSub(total, visible)
    }

    /** `select_up`: move the selection up by `amount` rows, stopping at the
        first, and scroll up just far enough to keep it on screen. */
    function SelectUp(amount: nat): (r: Viewport)
      ensures !r.autoScroll
      ensures r.selected + amount == selected || (amount >= selected && r.selected == 0)
      ensures r.offset <= offset && r.offset <= r.selected
      ensures r.offset == offset || r.offset == r.selected
    {
      var sel := SatSub(selected, amount);
      Viewport(if sel < offset then sel else offset, sel, false)
    }

    /** `select_down`: move the selection down by `amount` rows, stopping at
        the last, scroll down just far enough to keep it on screen, and follow
        the list exactly when the last row is selected. An empty list changes
        nothing. Rust computes `visible - 1` when the selection ends at or
        below the first shown row, so that case needs a visible row. */
    function SelectDown(amount: nat, total: nat, visible: nat): (r: Viewport)
      requires total == 0 || visible >= 1 || Min(selected + amount, total - 1) < offset
      ensures total == 0 ==> r == this
      ensures total > 0 ==>
        && r.selected == Min(selected + amount, total - 1)
        && r.selected < total
        && r.selected < r.offset + visible
        && offset <= r.offset
        && (r.autoScroll <==> r.selected == total - 1)
        && (offset <= r.selected ==> r.offset <= r.selected)
        && (r.offset == offset || r.offset + visible == r.selected + 1)
    {
      if total == 0 then this
      else
        var sel := Min(selected + amount, total - 1);
        var off := if sel >= offset + visible then SatSub(sel, visible - 1) else offset;
        Viewport(off, sel, sel >= SatSub(total, 1))
    }

    /** `select_top`: select the first row, show it first, stop following. */
    function SelectTop(): (r: Viewport)
      ensures r.Within(0, 0) && !r.autoScroll
    {
      Viewport(0, 0, false)
    }

    /** `select_bottom`: select the last row, show the last full screen, and
        follow the list. An empty list changes nothing. */
    function SelectBottom(total: nat, visible: nat): (r: Viewport)
      ensures total == 0 ==> r == this
      ensures total > 0 ==>
        && r.autoScroll
        && r.selected == total - 1
        && r.offset + Min(visible, total) == total
    {
      if total == 0 then this
      else Viewport(SatSub(total, visible), total - 1, true)
    }

    /** `clamp`: pull both indices back into a list of `total` rows, moving
        each only as far as needed. `autoScroll` is left alone. */
    function Clamp(total: nat, visible: nat): (r: Viewport)
      ensures r.Within(total, visible) && r.autoScroll == autoScroll
      ensures r.selected <= selected && r.offset <= offset
      ensures Within(total, visible) ==> r == this
      ensures total > 0 && selected < total ==> r.selected == selected
      ensures total > 0 ==> r.selected == selected || r.selected == total - 1
      ensures offset <= SatSub(total, visible) ==> r.offset == offset
      ensures r.offset == offset || r.offset == SatSub(total, visible)
    {
      if total == 0 then Viewport(0, 0, autoScroll)
      else Viewport(Min(offset, SatSub(total, visible)), Min(selected, total - 1), autoScroll)
    }

    /** `auto_follow`: while following a non-empty list, jump to its end as
        `select_bottom` does; otherwise change nothing. */
    function AutoFollow(total: nat, visible: nat): (r: Viewport)
      ensures autoScroll && total > 0 ==> r == SelectBottom(total, visible)
      ensures !(autoScroll && total > 0) ==> r == this
    {
      if autoScroll && total > 0 then Viewport(SatSub(total, visible), total - 1, autoScroll)
      else this
    }
  }

  /** `ScrollState::new`: first row selected and shown, following the list. */
  const Initial := Viewport(0, 0, true)

  /** Keeping the selection on screen is an invariant of every operation for a
      fixed, non-zero screen height: whatever row is selected can be seen.
      Moving down needs the selection to name a row of the list, since
      `select_down` clamps it to the last row first. */
  lemma SelectUpShows(v: Viewport, amount: nat, visible: nat)
    requires v.Shows(visible)
    ensures v.SelectUp(amount).Shows(visible)
  {
  }

  lemma SelectDownShows(v: Viewport, amount: nat, total: nat, visible: nat)
    requires v.Shows(visible) && visible >= 1 && (total == 0 || v.selected < total)
    ensures v.SelectDown(amount, total, visible).Shows(visible)
  {
  }

  lemma SelectBottomShows(v: Viewport, total: nat, visible: nat)
    requires v.Shows(visible)
    ensures v.SelectBottom(total, visible).Shows(visible)
  {
  }

  lemma ClampShows(v: Viewport, total: nat, visible: nat)
    requires v.Shows(visible)
    ensures v.Clamp(total, visible).Shows(visible)
  {
  }

  lemma AutoFollowShows(v: Viewport, total: nat, visible: nat)
    requires v.Shows(visible)
    ensures v.AutoFollow(total, visible).Shows(visible)
  {
  }

  /** Every operation keeps both indices within the list; `select_up` and
      `select_top` need nothing, the others only that the list does not
      shrink. */
  lemma OperationsStayWithin(v: Viewport, amount: nat, total: nat, visible: nat)
    requires v.Within(total, visible) && (total == 0 || visible >= 1)
    ensures v.SelectUp(amount).Within(total, visible)
    ensures v.SelectDown(amount, total, visible).Within(total, visible)
    ensures v.SelectTop().Within(total, visible)
    ensures v.SelectBottom(total, visible).Within(total, visible)
    ensures v.AutoFollow(total, visible).Within(total, visible)
  {
  }

  /** A list that grows keeps a viewport that was within it within it. */
  lemma WithinGrows(v: Viewport, total: nat, more: nat, visible: nat)
    requires v.Within(total, visible) && total <= more
    ensures v.Within(more, visible)
  {
  }

  /** `clamp` and `auto_follow` are idempotent, and `select_bottom` leaves
      nothing for `auto_follow` to do. */
  lemma ClampIdempotent(v: Viewport, total: nat, visible: nat)
    ensures v.Clamp(total, visible).Clamp(total, visible) == v.Clamp(total, visible)
  {
  }

  lemma AutoFollowIdempotent(v: Viewport, total: nat, visible: nat)
    ensures v.AutoFollow(total, visible).AutoFollow(total, visible) == v.AutoFollow(total, visible)
  {
  }

  lemma SelectBottomFollowed(v: Viewport, total: nat, visible: nat)
    ensures v.SelectBottom(total, visible).AutoFollow(total, visible) == v.SelectBottom(total, visible)
  {
  }

  /** The unit tests of src/scroll.rs, as facts about the model. */
  lemma ScrollUpFromZero()
    ensures Initial.SelectUp(1).selected == 0 && Initial.SelectUp(1).offset == 0
  {
  }

  lemma ScrollDownClampsToTotal()
    ensures Initial.SelectDown(100, 5, 10).selected == 4
  {
  }

  lemma ScrollDownAdjustsOffset()
    ensures var s := Initial.SelectDown(1, 10, 3).SelectDown(1, 10, 3).SelectDown(1, 10, 3)
                            .SelectDown(1, 10, 3).SelectDown(1, 10, 3);
      s.selected == 5 && s.offset + 3 > s.selected
  {
  }

  lemma ScrollUpAdjustsOffset()
    ensures var s := Initial.SelectBottom(10, 3).SelectUp(5);
      s.selected == 4 && s.offset <= s.selected
  {
  }

  lemma SelectTopResets()
    ensures var s := Initial.SelectDown(5, 10, 3).SelectTop();
      s.selected == 0 && s.offset == 0
  {
  }

  lemma SelectBottomJumpsToEnd()
    ensures var s := Initial.SelectBottom(10, 3);
      s.selected == 9 && s.offset == 7
  {
  }

  lemma AutoFollowWhenEnabled()
    ensures var s := Viewport(0, 0, true).AutoFollow(10, 5);
      s.selected == 9 && s.offset == 5
  {
  }

  lemma AutoFollowNoopWhenDisabled()
    ensures var s := Viewport(0, 0, false).AutoFollow(10, 5);
      s.selected == 0 && s.offset == 0
  {
  }

  /** `ScrollState`: the viewport of one list, updated in place. */
  class ScrollState {
    var offset: nat
    var selected: nat
    var autoScroll: bool

    /** The current fields as a value. */
    function View(): Viewport
      reads this
    {
      Viewport(offset, selected, autoScroll)
    }

    constructor ()
      ensures View() == Initial
    {
      offset := 0;
      selected := 0;
      autoScroll := true;
    }

    method SelectUp(amount: nat)
      modifies this
      ensures View() == old(View()).SelectUp(amount)
    {
      autoScroll := false;
      selected := SatSub(selected, amount);
      if selected < offset {
        offset := selected;
      }
    }

    method SelectDown(amount: nat, total: nat, visible: nat)
      requires total == 0 || visible >= 1 || Min(selected + amount, total - 1) < offset
      modifies this
      ensures View() == old(View()).SelectDown(amount, total, visible)
    {
      if total == 0 {
        return;
      }
      selected := Min(selected + amount, total - 1);
      if selected >= offset + visible {
        offset := SatSub(selected, visible - 1);
      }
      autoScroll := selected >= SatSub(total, 1);
    }

    method SelectTop()
      modifies this
      ensures View() == old(View()).SelectTop()
    {
      autoScroll := false;
      selected := 0;
      offset := 0;
    }

    method SelectBottom(total: nat, visible: nat)
      modifies this
      ensures View() == old(View()).SelectBottom(total, visible)
    {
      if total == 0 {
        return;
      }
      autoScroll := true;
      selected := total - 1;
      offset := SatSub(total, visible);
    }

    method Clamp(total: nat, visible: nat)
      modifies this
      ensures View() == old(View()).Clamp(total, visible)
    {
      if total == 0 {
        selected := 0;
        offset := 0;
      } else {
        selected := Min(selected, total - 1);
        offset := Min(offset, SatSub(total, visible));
      }
    }

    method AutoFollow(total: nat, visible: nat)
      modifies this
      ensures View() == old(View()).AutoFollow(total, visible)
    {
      if autoScroll && total > 0 {
        selected := total - 1;
        offset := SatSub(total, visible);
      }
    }
  }
}
