/**
 * A quiz question (Pregunta): an immutable record of a statement, four
 * options and the correct letter, with its two text renderings.
 */
module Questions {
  import opened Text

  datatype Question = Question(
    prompt: String,
    optionA: String,
    optionB: String,
    optionC: String,
    optionD: String,
    correct: char)
  {
    /** `toHttpBody`: a "PREGUNTA: " line with the statement, then one line
        per option, every line ended by '\n'. */
    function HttpBody(): String {
      "PREGUNTA: " + prompt + "\n" + optionA + "\n" + optionB + "\n"
        + optionC + "\n" + optionD + "\n"
    }

    /** `toString`: the statement followed by the letter in brackets. */
    function ToString(): String {
      prompt + " [" + [correct] + "]"
    }

    /** No field contains a line break. */
    predicate SingleLineFields() {
      '\n' !in prompt && '\n' !in optionA && '\n' !in optionB
        && '\n' !in optionC && '\n' !in optionD
    }
  }

  /** One of the four answer letters, A to D. */
  predicate IsAnswerLetter(c: char) { 'A' <= c <= 'D' }

  /** The constructor: every field as given, except the letter, which is
      stored upper-cased. */
  function NewQuestion(prompt: String, a: String, b: String, c: String, d: String, letter: char): (q: Question)
    ensures q.prompt == prompt && q.optionA == a && q.optionB == b
    ensures q.optionC == c && q.optionD == d
    ensures q.correct == UpperChar(letter)
    ensures 'a' <= letter <= 'd' ==> q.correct as int == letter as int - 32
  {
    Question(prompt, a, b, c, d, UpperChar(letter))
  }

  /** An upper- or lower-case letter A-D is stored as the matching capital. */
  lemma {:induction false} NewQuestionLetter(letter: char)
    ensures NewQuestion("", "", "", "", "", letter).correct in "ABCD" <==> letter in "ABCDabcd"
  {
    var u := UpperChar(letter);
    if u in "ABCD" {
      assert 'A' <= u <= 'D';
    }
  }

  /** With single-line fields the body is exactly five '\n'-terminated lines:
      the statement line and the four options, in order. */
  lemma {:induction false} HttpBodyLines(q: Question)
    requires q.SingleLineFields()
    ensures Pieces(q.HttpBody(), '\n') == ["PREGUNTA: " + q.prompt, q.optionA, q.optionB, q.optionC, q.optionD, ""]
    ensures q.optionD != [] ==> Split(q.HttpBody(), '\n') == ["PREGUNTA: " + q.prompt, q.optionA, q.optionB, q.optionC, q.optionD]
  {
    var p := "PREGUNTA: " + q.prompt;
    assert '\n' !in p by {
      assert forall i :: 0 <= i < |"PREGUNTA: "| ==> "PREGUNTA: "[i] != '\n';
    }
    var lines := [p, q.optionA, q.optionB, q.optionC, q.optionD];
    TerminatedFive(p, q.optionA, q.optionB, q.optionC, q.optionD, '\n');
    RegroupFiveLines("PREGUNTA: ", q.prompt, "\n", q.optionA, q.optionB, q.optionC, q.optionD);
    assert Terminated(lines, '\n') == q.HttpBody();
    PiecesTerminated(lines, '\n');
    assert q.HttpBody()[|p|] == '\n';
    var e: String := [];
    var withEmpty := lines + [e];
    assert withEmpty[..|withEmpty| - 1] == lines;
    assert DropTrailingEmpty(withEmpty) == DropTrailingEmpty(lines);
    if q.optionD != [] {
      assert DropTrailingEmpty(lines) == lines;
    }
  }

  /** The rendering keeps the statement as a prefix and the letter just
      before the closing bracket. */
  lemma {:induction false} ToStringShape(q: Question)
    ensures var s := q.ToString();
      |s| == |q.prompt| + 4 && s[..|q.prompt|] == q.prompt && s[|s| - 2] == q.correct && s[|s| - 1] == ']'
  {
  }
}
