/**
 * How the options of the current question are coloured once it is answered.
 * The screen decides the button fill, the text colour and the marker in front
 * of the option text with three separate helpers; each repeats the same two
 * tests (is this the right answer and has anything been chosen; is this the
 * chosen option). `Classify` states once what the three are meant to agree on.
 */
module OptionHighlight {
  import opened Optional

  /** What an option shows about the answer given to its question. */
  datatype Highlight = Correct | Incorrect | Neutral

  /** The option button's style: the base style alone, or with the green or the dark fill added. */
  datatype ButtonStyle = Plain | CorrectFill | IncorrectFill

  /** The option text's style. */
  datatype TextStyle = WhiteText | BlackText

  /** One rendered option: button style, text style and the text shown (marker then option). */
  datatype OptionView = OptionView(button: ButtonStyle, text: TextStyle, caption: string)

  const CorrectMarker: string := "\U{2705} "
  const IncorrectMarker: string := "\U{274C} "

  /** An option is the right one when it equals the stored answer string; once chosen, it is then drawn as Correct, otherwise as Incorrect. */
  function IsCorrect(option: string, answer: string): (r: bool)
    ensures r <==> Classify(Some(option), option, answer) == Correct
    ensures !r <==> Classify(Some(option), option, answer) == Incorrect
  {
    option == answer
  }

  /**
   * The intended classification, written from its meaning rather than from
   * the screen's tests: before an answer is chosen nothing is highlighted;
   * afterwards the right option is Correct and the chosen option, when it is
   * not the right one, is Incorrect.
   */
  function Classify(selected: Option<string>, option: string, answer: string): Highlight
  {
    match selected
    case None => Neutral
    case Some(chosen) =>
      if option == answer then Correct
      else if option == chosen then Incorrect
      else Neutral
  }

  /** The button style of one option, tested in the screen's order. */
  function OptionStyle(selected: Option<string>, option: string, answer: string): (r: ButtonStyle)
    ensures r == CorrectFill <==> Classify(selected, option, answer) == Correct
    ensures r == IncorrectFill <==> Classify(selected, option, answer) == Incorrect
    ensures r == Plain <==> Classify(selected, option, answer) == Neutral
  {
    var isCorrectOption := IsCorrect(option, answer);
    var isSelected := selected == Some(option);
    if isCorrectOption && selected.Some? then CorrectFill
    else if isSelected then IncorrectFill
    else Plain
  }

  /** The text style of one option: white on a filled button, black otherwise. */
  function OptionTextStyle(selected: Option<string>, option: string, answer: string): (r: TextStyle)
    ensures r == WhiteText <==> Classify(selected, option, answer) != Neutral
    ensures r == WhiteText <==> OptionStyle(selected, option, answer) != Plain
  {
    var isCorrectOption := IsCorrect(option, answer);
    var isSelected := selected == Some(option);
    if (isCorrectOption && selected.Some?) || isSelected then WhiteText
    else BlackText
  }

  /** The marker put in front of an option's text. */
  function PrefixIcon(selected: Option<string>, option: string, answer: string): (r: string)
    ensures r == CorrectMarker <==> Classify(selected, option, answer) == Correct
    ensures r == IncorrectMarker <==> Classify(selected, option, answer) == Incorrect
    ensures r == "" <==> Classify(selected, option, answer) == Neutral
  {
    var isCorrectOption := IsCorrect(option, answer);
    var isSelected := selected == Some(option);
    if isCorrectOption && selected.Some? then CorrectMarker
    else if isSelected then IncorrectMarker
    else ""
  }

  /** The classification stated directly on the inputs, in both directions. */
  lemma ClassifyCases(selected: Option<string>, option: string, answer: string)
    ensures Classify(selected, option, answer) == Correct <==> selected.Some? && option == answer
    ensures Classify(selected, option, answer) == Incorrect <==> selected == Some(option) && option != answer
    ensures Classify(selected, option, answer) == Neutral <==>
              selected.None? || (option != answer && selected != Some(option))
  {
  }

  /** The three helpers always agree with one another on every option. */
  lemma StylesAgree(selected: Option<string>, option: string, answer: string)
    ensures OptionStyle(selected, option, answer) == Plain
        <==> OptionTextStyle(selected, option, answer) == BlackText
    ensures OptionStyle(selected, option, answer) == Plain
        <==> PrefixIcon(selected, option, answer) == ""
    ensures OptionStyle(selected, option, answer) == CorrectFill
        <==> PrefixIcon(selected, option, answer) == CorrectMarker
    ensures OptionStyle(selected, option, answer) == IncorrectFill
        <==> PrefixIcon(selected, option, answer) == IncorrectMarker
  {
  }

  /** One option as the options list draws it: the marker matching its fill, then the option text. */
  function RenderOption(selected: Option<string>, option: string, answer: string): (r: OptionView)
    ensures r.button == Plain ==> r.caption == option && r.text == BlackText
    ensures r.button == CorrectFill ==> r.caption == CorrectMarker + option && r.text == WhiteText
    ensures r.button == IncorrectFill ==> r.caption == IncorrectMarker + option && r.text == WhiteText
    ensures r.button == OptionStyle(selected, option, answer)
  {
    OptionView(OptionStyle(selected, option, answer),
               OptionTextStyle(selected, option, answer),
               PrefixIcon(selected, option, answer) + option)
  }

  /**
   * The options of one question as drawn, in order. Before an answer is chosen
   * every option is plain, black and unmarked; afterwards exactly the options
   * equal to the answer are green and the chosen option is dark when it is wrong.
   */
  function RenderOptions(options: seq<string>, selected: Option<string>, answer: string): (r: seq<OptionView>)
    ensures |r| == |options|
    ensures selected.None? ==> forall i :: 0 <= i < |r| ==> r[i] == OptionView(Plain, BlackText, options[i])
    ensures forall i :: 0 <= i < |r| ==>
              (r[i].button == CorrectFill <==> selected.Some? && options[i] == answer)
    ensures forall i :: 0 <= i < |r| ==>
              (r[i].button == IncorrectFill <==> selected == Some(options[i]) && options[i] != answer)
    ensures forall i :: 0 <= i < |r| ==> (r[i].text == WhiteText <==> r[i].button != Plain)
    ensures forall i :: 0 <= i < |r| ==>
              r[i].caption == (if r[i].button == CorrectFill then CorrectMarker
                               else if r[i].button == IncorrectFill then IncorrectMarker
                               else "") + options[i]
  {
    if options == [] then []
    else [RenderOption(selected, options[0], answer)] + RenderOptions(options[1..], selected, answer)
  }

  /** With distinct options, at most one option is ever marked wrong. */
  lemma AtMostOneIncorrect(options: seq<string>, selected: Option<string>, answer: string, i: int, j: int)
    requires forall a, b :: 0 <= a < b < |options| ==> options[a] != options[b]
    requires 0 <= i < |options| && 0 <= j < |options|
    requires RenderOptions(options, selected, answer)[i].button == IncorrectFill
    requires RenderOptions(options, selected, answer)[j].button == IncorrectFill
    ensures i == j
  {
  }
}
