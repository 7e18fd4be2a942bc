/** The trait picker of `components/quiz/steps/traits-step.tsx`: a list of
    selected labels that a tap on a card toggles, capped at ten. */
module TraitsStep {
  import opened Wrappers

  /** `minTraits` and `maxTraits`; the picker asks for exactly ten. */
  const MinTraits: nat := 10
  const MaxTraits: nat := 10

  /** `selected.filter(t => t !== trait)`. */
  function Without(selected: seq<string>, traitLabel: string): (rest: seq<string>)
    ensures traitLabel !in rest
    ensures forall t :: t != traitLabel ==> (t in rest <==> t in selected)
    ensures |rest| <= |selected|
    decreases |selected|
  {
    if selected == [] then []
    else (if selected[0] == traitLabel then [] else [selected[0]]) + Without(selected[1..], traitLabel)
  }

  /** No label is selected twice. */
  predicate NoDuplicates(s: seq<string>) {
    forall i, j :: 0 <= i < j < |s| ==> s[i] != s[j]
  }

  /** The state `toggleTrait(trait)` leaves behind when `selected` was the
      selection: a selected label is removed, an unselected one is appended
      while fewer than `MaxTraits` are selected, and otherwise nothing changes. */
  function Toggled(selected: seq<string>, traitLabel: string): (next: seq<string>)
    ensures traitLabel in selected ==> traitLabel !in next
    ensures traitLabel !in selected && |selected| < MaxTraits ==> |next| == |selected| + 1 && next[|selected|] == traitLabel && next[..|selected|] == selected
    ensures forall t :: t != traitLabel ==> (t in next <==> t in selected)
  {
    if traitLabel in selected then Without(selected, traitLabel)
    else if |selected| < MaxTraits then selected + [traitLabel]
    else selected
  }

  /** What the component shows for a selection it keeps: at most ten labels,
      none twice. */
  predicate ValidSelection(s: seq<string>) {
    |s| <= MaxTraits && NoDuplicates(s)
  }

  /** Removing a label keeps the others distinct, and when the label occurred
      once it shortens the list by exactly one. */
  lemma {:induction false} WithoutFacts(s: seq<string>, traitLabel: string)
    requires NoDuplicates(s)
    ensures NoDuplicates(Without(s, traitLabel))
    ensures traitLabel in s ==> |Without(s, traitLabel)| == |s| - 1
    ensures traitLabel !in s ==> Without(s, traitLabel) == s
    decreases |s|
  {
    if s != [] {
      var tail := s[1..];
      assert NoDuplicates(tail) by {
        forall i, j | 0 <= i < j < |tail| ensures tail[i] != tail[j] {
          assert tail[i] == s[i + 1] && tail[j] == s[j + 1];
        }
      }
      WithoutFacts(tail, traitLabel);
      var rest := Without(tail, traitLabel);
      assert s[0] !in tail by {
        forall j | 0 <= j < |tail| ensures tail[j] != s[0] {
          assert tail[j] == s[j + 1];
        }
      }
      if s[0] == traitLabel {
        assert traitLabel !in tail;
      } else {
        var out := [s[0]] + rest;
        assert s[0] !in rest;
        forall i, j | 0 <= i < j < |out| ensures out[i] != out[j] {
          if i > 0 {
            assert out[i] == rest[i - 1] && out[j] == rest[j - 1];
          } else {
            assert out[j] in rest by { assert out[j] == rest[j - 1]; }
          }
        }
        if traitLabel in s {
          assert traitLabel in tail;
        }
        if traitLabel !in s {
          assert traitLabel !in tail;
          assert s == [s[0]] + tail;
        }
      }
    }
  }

  /** `toggleTrait` keeps the selection valid. */
  lemma ToggleKeepsValid(s: seq<string>, traitLabel: string)
    requires ValidSelection(s)
    ensures ValidSelection(Toggled(s, traitLabel))
  {
    WithoutFacts(s, traitLabel);
    if traitLabel !in s && |s| < MaxTraits {
      var next := s + [traitLabel];
      forall i, j | 0 <= i < j < |next| ensures next[i] != next[j] {
        if j == |s| {
          assert next[i] == s[i];
        } else {
          assert next[i] == s[i] && next[j] == s[j];
        }
      }
    }
  }

  /** Adding a label and taking it away again restores the selection. */
  lemma ToggleTwiceRestores(s: seq<string>, traitLabel: string)
    requires traitLabel !in s && |s| < MaxTraits
    ensures Toggled(Toggled(s, traitLabel), traitLabel) == s
  {
    WithoutAppended(s, traitLabel);
  }

  /** Dropping a label that was appended to a list without it gives the list back. */
  lemma {:induction false} WithoutAppended(s: seq<string>, traitLabel: string)
    requires traitLabel !in s
    ensures Without(s + [traitLabel], traitLabel) == s
    decreases |s|
  {
    if s == [] {
      assert Without([traitLabel], traitLabel) == [] + Without([], traitLabel);
    } else {
      assert (s + [traitLabel])[1..] == s[1..] + [traitLabel];
      WithoutAppended(s[1..], traitLabel);
      assert s == [s[0]] + s[1..];
    }
  }

  /** A full selection changes only by removal: tapping a label that is not
      selected does nothing. */
  lemma FullSelectionOnlyShrinks(s: seq<string>, traitLabel: string)
    requires |s| >= MaxTraits && traitLabel !in s
    ensures Toggled(s, traitLabel) == s
  {
  }

  class TraitsPicker {
    /** `selectedTraits`. */
    var selectedTraits: seq<string>

    /** `useState(initialTraits)`. */
    constructor(initialTraits: seq<string>)
      ensures selectedTraits == initialTraits
    {
      selectedTraits := initialTraits;
    }

    /** `toggleTrait(trait)`. */
    method ToggleTrait(traitLabel: string)
      modifies this
      ensures selectedTraits == Toggled(old(selectedTraits), traitLabel)
      ensures old(ValidSelection(selectedTraits)) ==> ValidSelection(selectedTraits)
    {
      ghost var before := selectedTraits;
      if traitLabel in selectedTraits {
        selectedTraits := Without(selectedTraits, traitLabel);
      } else if |selectedTraits| < MaxTraits {
        selectedTraits := selectedTraits + [traitLabel];
      }
      if ValidSelection(before) {
        ToggleKeepsValid(before, traitLabel);
      }
    }

    /** `handleSubmit`: `onSubmit` receives the selection (`submitted`) once
        at least `MinTraits` labels are selected, and is not called before. */
    method HandleSubmit() returns (submitted: Option<seq<string>>)
      ensures submitted.Some? <==> |selectedTraits| >= MinTraits
      ensures submitted.Some? ==> submitted.value == selectedTraits
    {
      if |selectedTraits| >= MinTraits {
        submitted := Some(selectedTraits);
      } else {
        submitted := None;
      }
    }

    /** `canProceed`. */
    predicate CanProceed()
      reads this
      ensures ValidSelection(selectedTraits) ==> (CanProceed() <==> |selectedTraits| >= MinTraits)
    {
      |selectedTraits| == MinTraits
    }

    /** `isAtMax`. */
    predicate IsAtMax()
      reads this
      ensures ValidSelection(selectedTraits) ==> (IsAtMax() <==> |selectedTraits| == MaxTraits)
    {
      |selectedTraits| >= MaxTraits
    }

    /** `isDisabled` of the card showing `trait`. */
    predicate IsDisabled(traitLabel: string)
      reads this
      ensures IsDisabled(traitLabel) <==> Toggled(selectedTraits, traitLabel) == selectedTraits
    {
      var s := selectedTraits;
      assert traitLabel in s ==> traitLabel !in Toggled(s, traitLabel);
      assert traitLabel !in s && |s| < MaxTraits ==> |Toggled(s, traitLabel)| == |s| + 1;
      traitLabel !in selectedTraits && IsAtMax()
    }
  }

  /** With a valid selection the three readings agree: the button is enabled,
      the maximum is reached and the submit handler fires all at once. */
  lemma ReadyIffFull(picker: TraitsPicker)
    requires ValidSelection(picker.selectedTraits)
    ensures picker.CanProceed() <==> picker.IsAtMax()
    ensures picker.CanProceed() <==> |picker.selectedTraits| >= MinTraits
  {
  }
}
