/**
 * A connected player (Jugador): a fixed name, an accumulated score and the
 * per-round answer slot, which only the first answer of a round fills.
 */
module Players {
  import opened Text

  /** The "no answer" letter stored between rounds. */
  const NoAnswer: char := '\0'

  class Player {
    const name: String
    var score: int
    var answer: char
    /** Millisecond timestamp of the accepted answer; 0 when there is none. */
    var answerTime: int
    var answered: bool

    /** The answer slot is empty, as after `resetearRespuesta`. */
    predicate Cleared()
      reads this
    {
      answer == NoAnswer && answerTime == 0 && !answered
    }

    constructor(name: String)
      ensures this.name == name && score == 0 && Cleared()
    {
      this.name := name;
      score := 0;
      answer := NoAnswer;
      answerTime := 0;
      answered := false;
    }

    /** `sumarPuntos`: the score grows by exactly `points`; nothing else changes. */
    method AddPoints(points: int)
      modifies this
      ensures score == old(score) + points
      ensures answer == old(answer) && answerTime == old(answerTime) && answered == old(answered)
    {
      score := score + points;
    }

    /** `responder`: the first answer of a round is stored upper-cased with
        the time it arrived; any later one is refused and changes nothing. */
    method Respond(letter: char, now: int) returns (accepted: bool)
      modifies this
      ensures accepted == !old(answered)
      ensures answered
      ensures accepted ==> answer == UpperChar(letter) && answerTime == now
      ensures !accepted ==> answer == old(answer) && answerTime == old(answerTime)
      ensures score == old(score)
    {
      if answered {
        return false;
      }
      answer := UpperChar(letter);
      answerTime := now;
      answered := true;
      accepted := true;
    }

    /** `resetearRespuesta`: empty the answer slot, keep the score. */
    method ResetAnswer()
      modifies this
      ensures Cleared()
      ensures score == old(score)
    {
      answer := NoAnswer;
      answerTime := 0;
      answered := false;
    }

    /** `compareTo` (`Integer.compare(otro.puntuacion, this.puntuacion)`):
        the player with the higher score sorts first. */
    function CompareTo(other: Player): (r: int)
      reads this, other
      ensures r == -1 || r == 0 || r == 1
      ensures r < 0 <==> score > other.score
      ensures r == 0 <==> score == other.score
      ensures r > 0 <==> score < other.score
    {
      if other.score < score then -1
      else if other.score == score then 0
      else 1
    }

    /** `toString`: "name - score pts". */
    function ToString(): String
      reads this
    {
      name + " - " + IntToString(score) + " pts"
    }
  }

  /** The comparison is antisymmetric. */
  lemma {:induction false} CompareAntisymmetric(a: Player, b: Player)
    ensures a.CompareTo(b) == -b.CompareTo(a)
  {
  }

  /** The comparison is transitive, as Collections.sort requires. */
  lemma {:induction false} CompareTransitive(a: Player, b: Player, c: Player)
    requires a.CompareTo(b) <= 0 && b.CompareTo(c) <= 0
    ensures a.CompareTo(c) <= 0
  {
  }

  /** First write wins: a second answer before a reset is refused and the
      first one stays stored. */
  method RespondTwice(p: Player, first: char, second: char, t1: int, t2: int)
      returns (ok1: bool, ok2: bool)
    requires p.Cleared()
    modifies p
    ensures ok1 && !ok2
    ensures p.answer == UpperChar(first) && p.answerTime == t1 && p.answered
    ensures p.score == old(p.score)
  {
    ok1 := p.Respond(first, t1);
    ok2 := p.Respond(second, t2);
  }
}
