/**
 * Normalisation of the panel list the story analysis returns: numbered
 * placeholder panels are appended, in place, while the list is shorter than
 * the panel count, and the result is the first `num_panels` entries.
 */
module Panels {
  import opened PyStr

  /** One panel as the story analysis gives it. A missing "dialogue" key is
      read as "" by the application, so it is the empty dialogue here. */
  datatype Panel = Panel(description: string, dialogue: string)

  const DummyLabel := "패널 "
  const DummyDialogue := "안녕하세요!"

  /** The placeholder for the 1-based position `position`. */
  function DummyPanel(position: nat): Panel {
    Panel(DummyLabel + NatToString(position), DummyDialogue)
  }

  /** The placeholders for the positions `done + 1` up to `total`. */
  function Dummies(done: nat, total: nat): (r: seq<Panel>)
    ensures |r| == if total >= done then total - done else 0
    ensures forall k :: 0 <= k < |r| ==> r[k] == DummyPanel(done + k + 1)
    decreases total
  {
    if total <= done then [] else Dummies(done, total - 1) + [DummyPanel(total)]
  }

  /** The panel list used for the rest of the run. */
  function Normalised(panels: seq<Panel>, numPanels: nat): (r: seq<Panel>)
    ensures |r| == numPanels
    // the panels returned come first, as many as fit; placeholders fill the rest
    ensures forall i :: 0 <= i < numPanels ==>
      r[i] == if i < |panels| then panels[i] else DummyPanel(i + 1)
  {
    (panels + Dummies(|panels|, numPanels))[..numPanels]
  }

  /** A placeholder's description is "패널 " followed by the decimal text of its
      position, which reads back as that position; its dialogue is the
      greeting. */
  lemma DummyDescriptionNumbers(position: nat)
    ensures DummyLabel <= DummyPanel(position).description
    ensures DummyPanel(position).dialogue == DummyDialogue
    ensures
      var digits := DummyPanel(position).description[|DummyLabel|..];
      |digits| >= 1 && (forall i :: 0 <= i < |digits| ==> '0' <= digits[i] <= '9')
      && DigitsValue(digits) == position
  {
    var d := DummyPanel(position).description;
    assert d[|DummyLabel|..] == NatToString(position);
    NatToStringValue(position);
  }

  /** Normalising a normalised list changes nothing. */
  lemma NormalisedIdempotent(panels: seq<Panel>, numPanels: nat)
    ensures Normalised(Normalised(panels, numPanels), numPanels) == Normalised(panels, numPanels)
  {
    var once := Normalised(panels, numPanels);
    var twice := Normalised(once, numPanels);
    assert forall i :: 0 <= i < numPanels ==> twice[i] == once[i];
  }

  /** The list the analysis result holds, which the padding loop extends. */
  class PanelList {
    var items: seq<Panel>

    constructor (items: seq<Panel>)
      ensures this.items == items
    {
      this.items := items;
    }
  }

  /** The padding loop and the slice: the caller's list keeps the appended
      placeholders (it is not cut), and the result is the normalised list. */
  method NormalisePanels(data: PanelList, numPanels: nat) returns (r: seq<Panel>)
    modifies data
    ensures data.items == old(data.items) + Dummies(|old(data.items)|, numPanels)
    ensures r == Normalised(old(data.items), numPanels)
  {
    while |data.items| < numPanels
      invariant |old(data.items)| <= |data.items|
      invariant |data.items| <= numPanels || data.items == old(data.items)
      invariant data.items == old(data.items) + Dummies(|old(data.items)|, |data.items|)
      decreases numPanels - |data.items|
    {
      data.items := data.items + [Panel(DummyLabel + NatToString(|data.items| + 1), DummyDialogue)];
    }
    r := data.items[..numPanels];
  }
}
