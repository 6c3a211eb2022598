/**
 * The fixed content of the menu: the six entry labels, the canned result of
 * each generic item, and the two tables keyed by label that the application
 * consults: the text shown when an entry is run, and the description of the
 * highlighted entry. Each table is a match on the label whose wildcard arm
 * gives a fallback text.
 *
 * The canned texts of the five generic items differ only in the label they
 * mention, so they are written here as one text with the label spliced in;
 * the strings are the same, character for character.
 */
module MenuContent {

  const QuitLabel: string := "Quit"
  const QuitMessage: string := "Quitting the application..."
  const UnknownItem: string := "Unknown Item"
  const UnknownSelection: string := "Unknown selection"

  /** Number of generic items; they precede the final "Quit" entry. */
  const ItemCount: nat := 5

  /** The menu entries in display order: "Item 1" to "Item 5", then "Quit". */
  const Labels: seq<string> := ["Item 1", "Item 2", "Item 3", "Item 4", "Item 5", "Quit"]

  /** The labels are pairwise distinct, and "Quit" is the last of them. */
  lemma LabelsDistinct()
    ensures |Labels| == ItemCount + 1 && Labels[ItemCount] == QuitLabel
    ensures forall i, j :: 0 <= i < j < |Labels| ==> Labels[i] != Labels[j]
  {
  }

  /** The canned result text of the generic item labelled `name`. */
  function CannedResult(name: string): string
  {
    "Result of " + name + ": This is a detailed description of what happens when " + name + " is selected."
  }

  /** The canned description text of the generic item labelled `name`. */
  function CannedDescription(name: string): string
  {
    " You have selected " + name + " You have selected " + name
  }

  /** The canned result of entry 1, "Item 1". */
  function Item1Function(): (r: string)
    ensures r == CannedResult(Labels[0])
  {
    CannedResult("Item 1")
  }
  /** The canned result of entry 2, "Item 2". */
  function Item2Function(): (r: string)
    ensures r == CannedResult(Labels[1])
  {
    CannedResult("Item 2")
  }
  /** The canned result of entry 3, "Item 3". */
  function Item3Function(): (r: string)
    ensures r == CannedResult(Labels[2])
  {
    CannedResult("Item 3")
  }
  /** The canned result of entry 4, "Item 4". */
  function Item4Function(): (r: string)
    ensures r == CannedResult(Labels[3])
  {
    CannedResult("Item 4")
  }
  /** The canned result of entry 5, "Item 5". */
  function Item5Function(): (r: string)
    ensures r == CannedResult(Labels[4])
  {
    CannedResult("Item 5")
  }

  /**
   * The text shown in the result pane when the entry labelled `name` is run.
   * For a generic item it is that item's canned result; it is the quitting
   * message exactly for "Quit", the "Unknown Item" fallback exactly for a
   * label that is not in the menu, and never empty.
   */
  function ExecuteResult(name: string): (r: string)
    ensures name in Labels && name != QuitLabel ==> r == CannedResult(name)
    ensures r == QuitMessage <==> name == QuitLabel
    ensures r == UnknownItem <==> name !in Labels
    ensures r != ""
  {
    if name == "Item 1" then Item1Function()
    else if name == "Item 2" then Item2Function()
    else if name == "Item 3" then Item3Function()
    else if name == "Item 4" then Item4Function()
    else if name == "Item 5" then Item5Function()
    else if name == "Quit" then QuitMessage
    else UnknownItem
  }

  /**
   * The description shown for the highlighted entry labelled `name`: the
   * canned description of a generic item, "You have selected Quit" for the
   * last entry, the "Unknown selection" fallback exactly for a label that is
   * not in the menu, and never empty.
   */
  function Description(name: string): (r: string)
    ensures name in Labels && name != QuitLabel ==> r == CannedDescription(name)
    ensures name == QuitLabel ==> r == "You have selected " + name
    ensures r == UnknownSelection <==> name !in Labels
    ensures r != ""
  {
    if name == "Item 1" then CannedDescription("Item 1")
    else if name == "Item 2" then CannedDescription("Item 2")
    else if name == "Item 3" then CannedDescription("Item 3")
    else if name == "Item 4" then CannedDescription("Item 4")
    else if name == "Item 5" then CannedDescription("Item 5")
    else if name == "Quit" then "You have selected Quit"
    else UnknownSelection
  }

  /** Distinct labels give distinct canned results: the result pane names the item that was run. */
  lemma {:induction false} CannedResultInjective(a: string, b: string)
    requires CannedResult(a) == CannedResult(b)
    ensures a == b
  {
    assert |a| == |b|;
    assert CannedResult(a)[10..10 + |a|] == a;
    assert CannedResult(b)[10..10 + |b|] == b;
  }

  /** Distinct labels give distinct canned descriptions: the description pane names the highlighted item. */
  lemma {:induction false} CannedDescriptionInjective(a: string, b: string)
    requires CannedDescription(a) == CannedDescription(b)
    ensures a == b
  {
    assert |a| == |b|;
    assert CannedDescription(a)[19..19 + |a|] == a;
    assert CannedDescription(b)[19..19 + |b|] == b;
  }
}
