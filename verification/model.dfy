/**
 * The menu application's state as a value, and one step of its input loop as
 * a function of the current state and one input event. These functions are
 * the specification the `App` class is proved against; the lemmas below state
 * what the application promises about them.
 */
module MenuModel {
  import opened MenuContent

  /** The keys the input loop tells apart; every other key code is `OtherKey`. */
  datatype KeyCode = Char(c: char) | Down | Up | Enter | OtherKey

  /** One input event: a key press, or anything else (mouse, resize, ...). */
  datatype Event = Key(code: KeyCode) | NonKey

  /** The fields of the application: the entries, the highlighted index, and the two texts shown. */
  datatype AppState = AppState(items: seq<string>, selected: nat, result: string, selectedText: string)

  /** The entries are the fixed menu and the highlighted index lies inside it. */
  predicate Inv(s: AppState)
  {
    s.items == Labels && s.selected < |s.items|
  }

  /** The state the application starts in: first entry highlighted, both texts empty. */
  function Init(): (s: AppState)
    ensures Inv(s)
  {
    AppState(Labels, 0, "", "")
  }

  /** The label of the highlighted entry; under `Inv` neither table falls back on it. */
  function SelectedLabel(s: AppState): (name: string)
    requires Inv(s)
    ensures name in Labels
    ensures ExecuteResult(name) != UnknownItem && Description(name) != UnknownSelection
  {
    s.items[s.selected]
  }

  /** Refresh the description to that of the highlighted entry; nothing else changes. */
  function RefreshState(s: AppState): (r: AppState)
    requires Inv(s)
    ensures Inv(r) && r.selectedText == Description(SelectedLabel(r))
    ensures r.items == s.items && r.selected == s.selected && r.result == s.result
  {
    s.(selectedText := Description(SelectedLabel(s)))
  }

  /** Move the highlight one entry down, wrapping from the last entry to the first. */
  function NextState(s: AppState): (r: AppState)
    requires Inv(s)
    ensures Inv(r)
    ensures r.selected == if s.selected == |Labels| - 1 then 0 else s.selected + 1
    ensures r.selectedText == Description(SelectedLabel(r))
    ensures r.items == s.items && r.result == s.result
  {
    assert |s.items| == 6 && (s.selected + 1) % 6 == if s.selected == 5 then 0 else s.selected + 1;
    RefreshState(s.(selected := (s.selected + 1) % |s.items|))
  }

  /** Move the highlight one entry up, wrapping from the first entry to the last. */
  function PreviousState(s: AppState): (r: AppState)
    requires Inv(s)
    ensures Inv(r)
    ensures r.selected == (s.selected - 1) % |Labels|
    ensures r.selectedText == Description(SelectedLabel(r))
    ensures r.items == s.items && r.result == s.result
  {
    assert |s.items| == 6 && (s.selected - 1) % 6 == if s.selected > 0 then s.selected - 1 else 5;
    var i := if s.selected > 0 then s.selected - 1 else |s.items| - 1;
    RefreshState(s.(selected := i))
  }

  /** Run the highlighted entry: show its result text; nothing else changes. */
  function ExecuteState(s: AppState): (r: AppState)
    requires Inv(s)
    ensures Inv(r)
    ensures r.result == ExecuteResult(SelectedLabel(s)) && r.result != UnknownItem
    ensures r.items == s.items && r.selected == s.selected && r.selectedText == s.selectedText
  {
    s.(result := ExecuteResult(SelectedLabel(s)))
  }

  /**
   * One iteration of the input loop: the new state, and whether the loop ends.
   * The loop ends on 'q' and on Enter while "Quit" is highlighted, and then
   * nothing changes.
   */
  function StepState(s: AppState, ev: Event): (r: (AppState, bool))
    requires Inv(s)
    ensures Inv(r.0)
    ensures r.1 <==> ev == Key(Char('q')) || (ev == Key(Enter) && SelectedLabel(s) == QuitLabel)
    ensures r.1 ==> r.0 == s
  {
    match ev
    case NonKey => (s, false)
    case Key(code) =>
      match code
      case Char(c) => (s, c == 'q')
      case Down => (NextState(s), false)
      case Up => (PreviousState(s), false)
      case Enter =>
        if SelectedLabel(s) == "Quit" then (s, true)
        else (ExecuteState(s), false)
      case OtherKey => (s, false)
  }

  /**
   * The input loop over a finite sequence of events: the state after the
   * events up to and including the one that ends the loop, and whether one did.
   */
  function RunEvents(s: AppState, events: seq<Event>): (r: (AppState, bool))
    requires Inv(s)
    ensures Inv(r.0)
    decreases |events|
  {
    if events == [] then (s, false)
    else
      var (t, stop) := StepState(s, events[0]);
      if stop then (t, true) else RunEvents(t, events[1..])
  }

  // ---------------------------------------------------------------------
  // Properties of single steps
  // ---------------------------------------------------------------------

  /** Down then Up restores the highlight, and the description is that of the restored entry. */
  lemma NextThenPrevious(s: AppState)
    requires Inv(s)
    ensures PreviousState(NextState(s)) == RefreshState(s)
  {
  }

  /** Up then Down restores the highlight, and the description is that of the restored entry. */
  lemma PreviousThenNext(s: AppState)
    requires Inv(s)
    ensures NextState(PreviousState(s)) == RefreshState(s)
  {
    assert NextState(PreviousState(s)).selected == s.selected;
  }

  /** Down moves the highlight as `NextState` and Up as `PreviousState`; neither ends the loop. */
  lemma ArrowKeysMove(s: AppState)
    requires Inv(s)
    ensures StepState(s, Key(Down)) == (NextState(s), false)
    ensures StepState(s, Key(Up)) == (PreviousState(s), false)
  {
  }

  /** 'q' ends the loop from any state and changes nothing. */
  lemma QuitKeyTerminates(s: AppState)
    requires Inv(s)
    ensures StepState(s, Key(Char('q'))) == (s, true)
  {
  }

  /** Enter while "Quit" is highlighted ends the loop and changes nothing, in particular not the result. */
  lemma EnterOnQuitTerminates(s: AppState)
    requires Inv(s) && SelectedLabel(s) == QuitLabel
    ensures StepState(s, Key(Enter)) == (s, true)
  {
  }

  /**
   * Enter on a generic item runs it: the result pane shows that item's canned
   * result, the loop goes on, and the highlight and description stay.
   */
  lemma EnterOnItemExecutes(s: AppState)
    requires Inv(s) && SelectedLabel(s) != QuitLabel
    ensures StepState(s, Key(Enter)) == (ExecuteState(s), false)
    ensures ExecuteState(s).result == CannedResult(SelectedLabel(s))
  {
  }

  /** Events other than 'q', Down, Up and Enter change nothing and do not end the loop. */
  lemma IgnoredEvents(s: AppState, ev: Event)
    requires Inv(s)
    requires ev.NonKey? || ev.code.OtherKey? || (ev.code.Char? && ev.code.c != 'q')
    ensures StepState(s, ev) == (s, false)
  {
  }

  /**
   * The result pane after running a generic item tells which item was run:
   * two states whose runs show the same result highlight the same entry.
   */
  lemma {:induction false} ResultIdentifiesItem(s: AppState, t: AppState)
    requires Inv(s) && Inv(t) && SelectedLabel(s) != QuitLabel && SelectedLabel(t) != QuitLabel
    requires ExecuteState(s).result == ExecuteState(t).result
    ensures s.selected == t.selected
  {
    CannedResultInjective(SelectedLabel(s), SelectedLabel(t));
    LabelsDistinct();
  }

  /**
   * The description pane tells which entry is highlighted: two states whose
   * refreshed descriptions agree highlight the same entry.
   */
  lemma {:induction false} DescriptionIdentifiesEntry(s: AppState, t: AppState)
    requires Inv(s) && Inv(t)
    requires RefreshState(s).selectedText == RefreshState(t).selectedText
    ensures s.selected == t.selected
  {
    var a, b := SelectedLabel(s), SelectedLabel(t);
    LabelsDistinct();
    if a != QuitLabel && b != QuitLabel {
      CannedDescriptionInjective(a, b);
    }
  }

  // ---------------------------------------------------------------------
  // Properties of event sequences
  // ---------------------------------------------------------------------

  /** The same event `n` times in a row. */
  function Repeat(ev: Event, n: nat): (r: seq<Event>)
    ensures |r| == n && forall k :: 0 <= k < n ==> r[k] == ev
  {
    if n == 0 then [] else [ev] + Repeat(ev, n - 1)
  }

  /** The index after `n` single steps down from `i`, each wrapping from 5 to 0. */
  function DownIndex(i: nat, n: nat): nat
    decreases n
  {
    if n == 0 then i else DownIndex(if i == 5 then 0 else i + 1, n - 1)
  }

  /** The index after `n` single steps up from `i`, each wrapping from 0 to 5. */
  function UpIndex(i: nat, n: nat): nat
    decreases n
  {
    if n == 0 then i else UpIndex(if i > 0 then i - 1 else 5, n - 1)
  }

  /** `n` steps down from `i` < 6 land on (i + n) mod 6. */
  lemma {:induction false} DownIndexWraps(i: nat, n: nat)
    requires i < 6
    ensures DownIndex(i, n) == (i + n) % 6
    decreases n
  {
    if n > 0 {
      DownIndexWraps(if i == 5 then 0 else i + 1, n - 1);
    }
  }

  /** `n` steps up from `i` < 6 land on (i - n) mod 6, the remainder taken in 0..5. */
  lemma {:induction false} UpIndexWraps(i: nat, n: nat)
    requires i < 6
    ensures UpIndex(i, n) == (i - n) % 6
    decreases n
  {
    if n > 0 {
      UpIndexWraps(if i > 0 then i - 1 else 5, n - 1);
    }
  }

  /** Pressing Down `n` times moves the highlight by `DownIndex`, keeps the result, and the loop goes on. */
  lemma {:induction false} RunDownsIndex(s: AppState, n: nat)
    requires Inv(s)
    ensures RunEvents(s, Repeat(Key(Down), n)).1 == false
    ensures RunEvents(s, Repeat(Key(Down), n)).0.selected == DownIndex(s.selected, n)
    ensures RunEvents(s, Repeat(Key(Down), n)).0.result == s.result
    ensures n > 0 ==> var t := RunEvents(s, Repeat(Key(Down), n)).0;
      t.selectedText == Description(SelectedLabel(t))
    decreases n
  {
    var events := Repeat(Key(Down), n);
    if n > 0 {
      assert events[0] == Key(Down) && events[1..] == Repeat(Key(Down), n - 1);
      var t := NextState(s);
      assert StepState(s, Key(Down)) == (t, false);
      assert RunEvents(s, events) == RunEvents(t, Repeat(Key(Down), n - 1));
      RunDownsIndex(t, n - 1);
    }
  }

  /** Running two event sequences back to back is running the first, then the second if the loop is still going. */
  lemma {:induction false} RunAppend(s: AppState, first: seq<Event>, second: seq<Event>)
    requires Inv(s)
    ensures var (t, stop) := RunEvents(s, first);
      RunEvents(s, first + second) == if stop then (t, true) else RunEvents(t, second)
    decreases |first|
  {
    if first == [] {
      assert first + second == second;
    } else {
      assert (first + second)[0] == first[0] && (first + second)[1..] == first[1..] + second;
      var (t, stop) := StepState(s, first[0]);
      if !stop {
        RunAppend(t, first[1..], second);
      }
    }
  }

  /** Pressing Up `n` times moves the highlight by `UpIndex`, keeps the result, and the loop goes on. */
  lemma {:induction false} RunUpsIndex(s: AppState, n: nat)
    requires Inv(s)
    ensures RunEvents(s, Repeat(Key(Up), n)).1 == false
    ensures RunEvents(s, Repeat(Key(Up), n)).0.selected == UpIndex(s.selected, n)
    ensures RunEvents(s, Repeat(Key(Up), n)).0.result == s.result
    ensures n > 0 ==> var t := RunEvents(s, Repeat(Key(Up), n)).0;
      t.selectedText == Description(SelectedLabel(t))
    decreases n
  {
    var events := Repeat(Key(Up), n);
    if n > 0 {
      assert events[0] == Key(Up) && events[1..] == Repeat(Key(Up), n - 1);
      var t := PreviousState(s);
      assert StepState(s, Key(Up)) == (t, false);
      assert RunEvents(s, events) == RunEvents(t, Repeat(Key(Up), n - 1));
      RunUpsIndex(t, n - 1);
    }
  }

  // ---------------------------------------------------------------------
  // What the panes can show
  // ---------------------------------------------------------------------

  /**
   * The invariant of every state the loop reaches from the start: the
   * description is that of the highlighted entry, unless nothing has been
   * highlighted yet; the result pane is empty or shows the canned result of a
   * generic item.
   */
  predicate Displayed(s: AppState)
  {
    Inv(s) &&
    (s.selectedText == Description(SelectedLabel(s)) || (s.selectedText == "" && s.selected == 0)) &&
    (s.result == "" || exists i :: 0 <= i < ItemCount && s.result == CannedResult(Labels[i]))
  }

  lemma InitDisplayed()
    ensures Displayed(Init())
  {
  }

  lemma StepDisplayed(s: AppState, ev: Event)
    requires Displayed(s)
    ensures Displayed(StepState(s, ev).0)
  {
    match ev
    case Key(Enter) =>
      if SelectedLabel(s) != QuitLabel {
        LabelsDistinct();
        var i := s.selected;
        assert i < ItemCount && ExecuteState(s).result == CannedResult(Labels[i]);
      }
    case Key(Down) =>
      var t := NextState(s);
      assert t.result == s.result && t.selectedText == Description(SelectedLabel(t));
    case Key(Up) =>
      var t := PreviousState(s);
      assert t.result == s.result && t.selectedText == Description(SelectedLabel(t));
    case _ =>
  }

  lemma {:induction false} RunDisplayed(s: AppState, events: seq<Event>)
    requires Displayed(s)
    ensures Displayed(RunEvents(s, events).0)
    decreases |events|
  {
    if events != [] {
      StepDisplayed(s, events[0]);
      var (t, stop) := StepState(s, events[0]);
      if !stop {
        RunDisplayed(t, events[1..]);
      }
    }
  }

  /**
   * Whatever the events, the result pane never shows the quitting message or
   * the "Unknown Item" fallback, and the description pane never shows the
   * "Unknown selection" fallback.
   */
  lemma {:induction false} FallbacksNeverShown(events: seq<Event>)
    ensures var t := RunEvents(Init(), events).0;
      t.result != QuitMessage && t.result != UnknownItem && t.selectedText != UnknownSelection
  {
    InitDisplayed();
    RunDisplayed(Init(), events);
    var t := RunEvents(Init(), events).0;
    if t.result != "" {
      var i :| 0 <= i < ItemCount && t.result == CannedResult(Labels[i]);
      LabelsDistinct();
      assert ExecuteResult(Labels[i]) == t.result;
    }
  }

  // ---------------------------------------------------------------------
  // Scenarios
  // ---------------------------------------------------------------------

  /** Up at the start wraps to the last entry, "Quit". */
  lemma UpFromStartWraps()
    ensures StepState(Init(), Key(Up)) == (AppState(Labels, 5, "", "You have selected Quit"), false)
  {
  }

  /**
   * Down five times highlights "Quit"; Up once highlights "Item 5" and shows
   * its description; Enter shows its canned result and keeps the highlight;
   * then 'q' ends the loop, and the event after it is never looked at.
   */
  lemma MenuWalkthrough()
    ensures RunEvents(Init(), [Key(Down), Key(Down), Key(Down), Key(Down), Key(Down)] +
                              [Key(Up), Key(Enter), Key(Char('q')), Key(Down)]) ==
      (AppState(Labels, 4, Item5Function(), CannedDescription("Item 5")), true)
  {
    var tail := [Key(Up), Key(Enter), Key(Char('q')), Key(Down)];
    var last := AppState(Labels, 5, "", "You have selected Quit");
    var item5 := AppState(Labels, 4, "", CannedDescription("Item 5"));
    AfterDowns(tail);
    assert StepState(last, Key(Up)) == (item5, false);
    assert StepState(item5, Key(Enter)) == (item5.(result := Item5Function()), false);
    assert tail[1..][1..] == [Key(Char('q')), Key(Down)];
  }

  /** Five presses of Down from the start reach "Quit", whatever comes after them. */
  lemma AfterDowns(rest: seq<Event>)
    ensures RunEvents(Init(), [Key(Down), Key(Down), Key(Down), Key(Down), Key(Down)] + rest) ==
      RunEvents(AppState(Labels, 5, "", "You have selected Quit"), rest)
  {
    var downs := [Key(Down), Key(Down), Key(Down), Key(Down), Key(Down)];
    var s := Init();
    var i := 0;
    while i < 5
      invariant 0 <= i <= 5 && Inv(s) && s.selected == i && s.result == ""
      invariant i > 0 ==> s.selectedText == Description(SelectedLabel(s))
      invariant RunEvents(Init(), downs) == RunEvents(s, downs[i..])
    {
      assert downs[i..][0] == Key(Down) && downs[i..][1..] == downs[i + 1..];
      s := NextState(s);
      i := i + 1;
    }
    assert SelectedLabel(s) == "Quit";
    RunAppend(Init(), downs, rest);
  }
}
