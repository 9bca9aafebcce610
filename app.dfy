/** The application state (src/app.rs): a collector, one scroll position per
    panel, and which panel has the keyboard. */
module App {
  import opened Usize
  import Message
  import Collector

  /** The two panels: the stream table and the event log. */
  datatype Panel = Stream | Events
  {
    /** The panel `toggle_panel` switches to: always the other one. */
    function Toggled(): (r: Panel)
      ensures r != this
    {
      match this
      case Stream => Events
      case Events => Stream
    }
  }

  /** Toggling twice returns to the panel one started on. */
  lemma ToggleTwice(p: Panel)
    ensures p.Toggled().Toggled() == p
  {
  }

  /** The fields of a panel's `ScrollState`, as a value: the first row on
      screen and whether the panel follows the end of its list. */
  datatype PanelView = PanelView(offset: nat, autoScroll: bool)
  {
    /** The window never starts past the last full screen of `total` rows. */
    predicate Within(total: nat, visible: nat) {
      offset <= SatSub(total, visible)
    }

    /** A following panel shows the last full screen. */
    predicate Following(total: nat, visible: nat) {
      autoScroll ==> offset == SatSub(total, visible)
    }

    /** `scroll_up`: move the window up by `amount` rows, stopping at the
        first, and stop following. */
    function ScrollUp(amount: nat): (r: PanelView)
      ensures !r.autoScroll
      ensures r.offset + amount == offset || (amount >= offset && r.offset == 0)
    {
      PanelView(SatSub(offset, amount), false)
    }

    /** `scroll_down`: move the window down by `amount` rows, stopping at the
        last full screen; reaching it turns following on, and nothing here
        turns it off. */
    function ScrollDown(amount: nat, total: nat, visible: nat): (r: PanelView)
      ensures r.Within(total, visible)
      ensures r.offset == Min(offset + amount, SatSub(total, visible))
      ensures r.autoScroll <==> autoScroll || r.offset == SatSub(total, visible)
    {
      var off := Min(offset + amount, SatSub(total, visible));
      PanelView(off, if off >= SatSub(total, visible) then true else autoScroll)
    }

    /** `scroll_to_top`: show the first row and stop following. */
    function ScrollToTop(): (r: PanelView)
      ensures r.offset == 0 && !r.autoScroll
    {
      PanelView(0, false)
    }

    /** `scroll_to_bottom`: show the last full screen and follow. */
    function ScrollToBottom(total: nat, visible: nat): (r: PanelView)
      ensures r.autoScroll && r.Within(total, visible) && r.Following(total, visible)
    {
      PanelView(SatSub(total, visible), true)
    }

    /** `auto_follow`: a following panel jumps to the last full screen as
        `scroll_to_bottom` does; any other is left alone. */
    function AutoFollow(total: nat, visible: nat): (r: PanelView)
      ensures autoScroll ==> r == ScrollToBottom(total, visible)
      ensures !autoScroll ==> r == this
    {
      if autoScroll then PanelView(SatSub(total, visible), autoScroll) else this
    }

    /** What one navigation key does to the active panel, given the length of
        its list and the height of the screen. */
    function Apply(move: Move, total: nat, visible: nat): (r: PanelView)
      ensures (move.Up? || move.Top?) ==> !r.autoScroll && r.offset <= offset
      ensures move.Bottom? ==> r.autoScroll
      ensures move.Down? && autoScroll ==> r.autoScroll
      ensures (move.Down? || move.Bottom?) ==> r.Within(total, visible)
    {
      match move
      case Up(amount) => ScrollUp(amount)
      case Down(amount) => ScrollDown(amount, total, visible)
      case Top => ScrollToTop()
      case Bottom => ScrollToBottom(total, visible)
    }
  }

  /** `ScrollState::new`: first row shown, following the list. */
  const InitialView := PanelView(0, true)

  /** The navigation keys once decoded: Up/`k` and PageUp move up by one row
      or one screen, Down/`j` and PageDown down, `g` and `G` jump to the ends. */
  datatype Move = Up(amount: nat) | Down(amount: nat) | Top | Bottom

  /** A following panel stays at the end of its list under every navigation
      key, and redrawing (which calls `auto_follow`) puts any following
      panel there, whatever the list's new length. */
  lemma ApplyKeepsFollowing(v: PanelView, move: Move, total: nat, visible: nat)
    requires v.Following(total, visible)
    ensures v.Apply(move, total, visible).Following(total, visible)
  {
  }

  lemma AutoFollowFollows(v: PanelView, total: nat, visible: nat)
    ensures v.AutoFollow(total, visible).Following(total, visible)
  {
  }

  /** Moving down and then up by the same amount returns to the same row,
      unless moving down stopped at the last full screen. */
  lemma ScrollDownUp(v: PanelView, amount: nat, total: nat, visible: nat)
    requires v.offset + amount <= SatSub(total, visible)
    ensures v.ScrollDown(amount, total, visible).ScrollUp(amount).offset == v.offset
  {
  }

  /** A window within a list stays within it as the list grows, and every
      navigation key keeps it within. */
  lemma ApplyStaysWithin(v: PanelView, move: Move, total: nat, more: nat, visible: nat)
    requires v.Within(total, visible) && total <= more
    ensures v.Within(more, visible)
    ensures v.Apply(move, more, visible).Within(more, visible)
  {
  }

  lemma AutoFollowIdempotent(v: PanelView, total: nat, visible: nat)
    ensures v.AutoFollow(total, visible).AutoFollow(total, visible) == v.AutoFollow(total, visible)
  {
  }

  /** A panel's `ScrollState`, updated in place. */
  class ScrollState {
    var offset: nat
    var autoScroll: bool

    function View(): PanelView
      reads this
    {
      PanelView(offset, autoScroll)
    }

    constructor ()
      ensures View() == InitialView
    {
      offset := 0;
      autoScroll := true;
    }

    method ScrollUp(amount: nat)
      modifies this
      ensures View() == old(View()).ScrollUp(amount)
    {
      autoScroll := false;
      offset := SatSub(offset, amount);
    }

    method ScrollDown(amount: nat, total: nat, visible: nat)
      modifies this
      ensures View() == old(View()).ScrollDown(amount, total, visible)
    {
      offset := Min(offset + amount, SatSub(total, visible));
      if offset >= SatSub(total, visible) {
        autoScroll := true;
      }
    }

    method ScrollToTop()
      modifies this
      ensures View() == old(View()).ScrollToTop()
    {
      autoScroll := false;
      offset := 0;
    }

    method ScrollToBottom(total: nat, visible: nat)
      modifies this
      ensures View() == old(View()).ScrollToBottom(total, visible)
    {
      autoScroll := true;
      offset := SatSub(total, visible);
    }

    method AutoFollow(total: nat, visible: nat)
      modifies this
      ensures View() == old(View()).AutoFollow(total, visible)
    {
      if autoScroll {
        offset := SatSub(total, visible);
      }
    }
  }

  /** `App`: the collector, the two panels' scroll states and the active panel. */
  class App {
    const collector: Collector.Collector
    const streamScroll: ScrollState
    const eventsScroll: ScrollState
    var activePanel: Panel

    /** The collector is consistent and each panel has its own scroll state. */
    ghost predicate Valid()
      reads this, collector
    {
      collector.Valid() && streamScroll != eventsScroll
    }

    /** `App::new`: an empty collector, both panels at the top and following,
        the stream panel active. */
    constructor ()
      ensures Valid() && fresh(collector) && collector.pushed == []
      ensures streamScroll.View() == InitialView && eventsScroll.View() == InitialView
      ensures activePanel == Stream
    {
      collector := new Collector.Collector();
      streamScroll := new ScrollState();
      eventsScroll := new ScrollState();
      activePanel := Stream;
    }

    /** `App::push`: hand a message to the collector. */
    method Push(msg: Message.MavMsg)
      requires Valid() && Collector.Ingestible(msg)
      modifies collector
      ensures Valid() && collector.pushed == old(collector.pushed) + [msg]
      ensures collector.State() == Collector.Ingest(old(collector.State()), msg)
    {
      collector.Push(msg);
    }

    /** `App::toggle_panel`. */
    method TogglePanel()
      modifies this
      ensures activePanel == old(activePanel).Toggled()
    {
      activePanel := match activePanel
        case Stream => Events
        case Events => Stream;
    }

    /** `App::active_scroll`: the scroll state of the active panel. */
    function ActiveScroll(): (r: ScrollState)
      reads this
      ensures activePanel == Stream ==> r == streamScroll
      ensures activePanel == Events ==> r == eventsScroll
    {
      match activePanel
      case Stream => streamScroll
      case Events => eventsScroll
    }

    /** `App::active_total`: the length of the active panel's list, which is
        the number of distinct stream keys pushed so far for the stream panel
        and the number of events pushed so far for the event panel. */
    function ActiveTotal(): (n: nat)
      reads this, collector
      requires collector.Valid()
      ensures activePanel == Stream ==> n == |Collector.StreamKeys(collector.pushed)|
      ensures activePanel == Events ==> n == |Collector.EventLog(collector.pushed)|
    {
      match activePanel
      case Stream => |collector.Stream()|
      case Events => |collector.Events()|
    }

    /** A navigation key in `App::run`: `self.active_scroll().<op>(…)` with the
        active list's length and the screen height. Only the active panel
        moves; the other panel and the collector are untouched. */
    method Navigate(move: Move, visible: nat)
      requires Valid()
      modifies ActiveScroll()
      ensures ActiveScroll().View() == old(ActiveScroll().View()).Apply(move, old(ActiveTotal()), visible)
      ensures activePanel == Stream ==> eventsScroll.View() == old(eventsScroll.View())
      ensures activePanel == Events ==> streamScroll.View() == old(streamScroll.View())
    {
      var total := ActiveTotal();
      var scroll := ActiveScroll();
      match move
      case Up(amount) => scroll.ScrollUp(amount);
      case Down(amount) => scroll.ScrollDown(amount, total, visible);
      case Top => scroll.ScrollToTop();
      case Bottom => scroll.ScrollToBottom(total, visible);
    }
  }
}
