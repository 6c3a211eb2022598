/**
 * The application object and its input loop. `App` keeps the four fields of
 * the menu application and updates them in place; each method is proved to
 * move the object's state exactly as the matching function of `MenuModel`
 * does, so the lemmas proved there hold of the object too.
 */
module MenuApp {
  import opened MenuContent
  import opened MenuModel

  class App {
    var items: seq<string>
    var selected: nat
    var result: string
    var selectedText: string

    /** The object's fields as a value. */
    ghost function State(): AppState
      reads this
    {
      AppState(items, selected, result, selectedText)
    }

    /** The entries are the fixed menu and the highlighted index lies inside it. */
    ghost predicate Valid()
      reads this
    {
      Inv(State())
    }

    /** The six entries, the first highlighted, both texts empty; no description is computed yet. */
    constructor()
      ensures Valid() && State() == Init()
      ensures selected == 0 && result == "" && selectedText == ""
    {
      items := ["Item 1", "Item 2", "Item 3", "Item 4", "Item 5", "Quit"];
      selected := 0;
      result := "";
      selectedText := "";
    }

    /** The highlighted label; it is one of the menu's, so neither table falls back on it. */
    function SelectedItem(): (name: string)
      reads this
      requires Valid()
      ensures name == SelectedLabel(State()) && name in Labels
      ensures ExecuteResult(name) != UnknownItem && Description(name) != UnknownSelection
    {
      items[selected]
    }

    /** Show the description of the highlighted entry; nothing else changes. */
    method UpdateSelectedText()
      modifies this
      requires Valid()
      ensures Valid() && State() == RefreshState(old(State()))
      ensures selectedText == Description(SelectedItem()) && selectedText != UnknownSelection
      ensures items == old(items) && selected == old(selected) && result == old(result)
    {
      selectedText := Description(SelectedItem());
    }

    /** Highlight the next entry, wrapping from "Quit" to "Item 1", and show its description. */
    method Next()
      modifies this
      requires Valid()
      ensures Valid() && State() == NextState(old(State()))
      ensures selected == if old(selected) == |Labels| - 1 then 0 else old(selected) + 1
      ensures selectedText == Description(SelectedItem())
      ensures items == old(items) && result == old(result)
    {
      selected := (selected + 1) % |items|;
      UpdateSelectedText();
    }

    /** Highlight the previous entry, wrapping from "Item 1" to "Quit", and show its description. */
    method Previous()
      modifies this
      requires Valid()
      ensures Valid() && State() == PreviousState(old(State()))
      ensures selected == (old(selected) - 1) % |Labels|
      ensures selectedText == Description(SelectedItem())
      ensures items == old(items) && result == old(result)
    {
      if selected > 0 {
        selected := selected - 1;
      } else {
        selected := |items| - 1;
      }
      UpdateSelectedText();
    }

    /** Show the result of running the highlighted entry; nothing else changes. */
    method ExecuteSelectedItem()
      modifies this
      requires Valid()
      ensures Valid() && State() == ExecuteState(old(State()))
      ensures result == ExecuteResult(old(SelectedItem())) && result != UnknownItem
      ensures items == old(items) && selected == old(selected) && selectedText == old(selectedText)
    {
      result := ExecuteResult(SelectedItem());
    }

    /**
     * One iteration of the input loop on event `ev`: returns whether the loop
     * ends ('q', or Enter while "Quit" is highlighted, with nothing changed),
     * otherwise applies the operation the key is bound to.
     */
    method Step(ev: Event) returns (terminate: bool)
      modifies this
      requires Valid()
      ensures Valid() && (State(), terminate) == StepState(old(State()), ev)
      ensures terminate <==> ev == Key(Char('q')) || (ev == Key(Enter) && old(SelectedItem()) == QuitLabel)
      ensures terminate ==> State() == old(State())
    {
      terminate := false;
      match ev
      case NonKey =>
      case Key(code) =>
        match code
        case Char(c) =>
          terminate := c == 'q';
        case Down =>
          Next();
        case Up =>
          Previous();
        case Enter =>
          if SelectedItem() == "Quit" {
            terminate := true;
          } else {
            ExecuteSelectedItem();
          }
        case OtherKey =>
    }
  }

  /**
   * The input loop, fed the events in order: it stops at the first event that
   * ends it, and reports whether one did; if the events run out first, the
   * loop is still going. The panes never come to show a fallback text.
   */
  method RunApp(app: App, events: seq<Event>) returns (terminated: bool)
    modifies app
    requires app.Valid()
    ensures app.Valid() && (app.State(), terminated) == RunEvents(old(app.State()), events)
    ensures Displayed(old(app.State())) ==> Displayed(app.State())
  {
    ghost var start := app.State();
    terminated := false;
    var i := 0;
    while i < |events| && !terminated
      invariant 0 <= i <= |events| && app.Valid()
      invariant RunEvents(old(app.State()), events) ==
        if terminated then (app.State(), true) else RunEvents(app.State(), events[i..])
      decreases |events| - i
    {
      assert events[i..][0] == events[i] && events[i..][1..] == events[i + 1..];
      terminated := app.Step(events[i]);
      i := i + 1;
    }
    if !terminated {
      assert events[i..] == [];
    }
    if Displayed(start) {
      RunDisplayed(start, events);
    }
  }
}
