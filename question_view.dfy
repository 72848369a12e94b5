/**
 * The `Question` component: one `Option` per alternative, the checked flag
 * derived from the selection it is given, and the index each option hands back
 * when pressed. It keeps no state of its own.
 */
module QuestionView {
  import opened Wrappers

  /**
   * One rendered `Option`: the number in its key (`option-<n>`), its title,
   * whether it is drawn checked, and the index its `onPress` passes to the
   * selection setter.
   */
  datatype OptionView = OptionView(keyNumber: nat, title: string, checked: bool, pressSelects: nat)

  /** `alternatives.map((alternative, index) => <Option .../>)` with `index` starting at `first`. */
  function OptionsFrom(alternatives: seq<string>, selected: Option<int>, first: nat): (opts: seq<OptionView>)
    ensures |opts| == |alternatives|
    ensures forall i :: 0 <= i < |opts| ==>
              opts[i].title == alternatives[i] && opts[i].keyNumber == first + i + 1 &&
              opts[i].pressSelects == first + i && (opts[i].checked <==> selected == Some(first + i))
    decreases |alternatives|
  {
    if alternatives == [] then []
    else [OptionView(first + 1, alternatives[0], selected == Some(first), first)]
         + OptionsFrom(alternatives[1..], selected, first + 1)
  }

  /** The options of a question: option `i` shows alternative `i` and is checked iff the selection is `i`. */
  function Options(alternatives: seq<string>, selected: Option<int>): (opts: seq<OptionView>)
    ensures |opts| == |alternatives|
    ensures forall i :: 0 <= i < |opts| ==> opts[i].title == alternatives[i] && opts[i].pressSelects == i
    ensures forall i :: 0 <= i < |opts| ==> (opts[i].checked <==> selected == Some(i))
  {
    OptionsFrom(alternatives, selected, 0)
  }

  /** At most one option is checked, none without a selection, and the selected one when it exists. */
  lemma CheckedIsTheSelection(alternatives: seq<string>, selected: Option<int>)
    ensures forall i, j :: 0 <= i < j < |alternatives| ==>
              !(Options(alternatives, selected)[i].checked && Options(alternatives, selected)[j].checked)
    ensures selected.None? ==> forall i :: 0 <= i < |alternatives| ==> !Options(alternatives, selected)[i].checked
    ensures selected.Some? && 0 <= selected.value < |alternatives| ==>
              Options(alternatives, selected)[selected.value].checked
  {
  }

  /** Option keys are distinct, as React requires of siblings. */
  lemma KeysDistinct(alternatives: seq<string>, selected: Option<int>)
    ensures forall i, j :: 0 <= i < j < |alternatives| ==>
              Options(alternatives, selected)[i].keyNumber != Options(alternatives, selected)[j].keyNumber
  {
    var opts := OptionsFrom(alternatives, selected, 0);
    assert forall i :: 0 <= i < |opts| ==> opts[i].keyNumber == i + 1;
  }

}
