/**
 * The quiz coordinator (ServidorJuego), run sequentially: the configuration
 * defaults, the player list, the per-round answer bookkeeping, the 15/10/8
 * scoring rule, the phase flags, and the ranking and lobby texts.
 */
module Game {
  import opened Wrappers
  import opened Text
  import opened Names
  import opened Players
  import opened Questions

  // ---------------------------------------------------------- configuration

  /** The answer time used when the operator's entry is unusable. */
  const DefaultSeconds: int := 30

  /** The answer time read from the operator's line: a positive number is
      kept; zero, a negative number, or a line `parseInt` refuses gives 30. */
  function ConfiguredSeconds(line: String): (t: int)
    ensures 0 < t <= MaxInt
    ensures t == DefaultSeconds || ParseInt(Trim(line)) == Some(t)
    ensures ParseInt(Trim(line)).Some? && ParseInt(Trim(line)).value > 0 ==> t == ParseInt(Trim(line)).value
  {
    match ParseInt(Trim(line))
    case None => DefaultSeconds
    case Some(v) => if v <= 0 then DefaultSeconds else v
  }

  /** The number of rounds read from the operator's line: a number between 1
      and the pool size is kept; anything else gives the pool size. */
  function ConfiguredCount(line: String, pool: nat): (n: int)
    requires pool <= MaxInt
    ensures pool >= 1 ==> 1 <= n <= pool
    ensures n == pool || (ParseInt(Trim(line)) == Some(n) && 1 <= n <= pool)
    ensures ParseInt(Trim(line)).Some? && 1 <= ParseInt(Trim(line)).value <= pool ==> n == ParseInt(Trim(line)).value
  {
    match ParseInt(Trim(line))
    case None => pool
    case Some(v) => if v <= 0 || v > pool then pool else v
  }

  // ---------------------------------------------------------------- scoring

  /** Points for the correct answer at arrival position `i` (from 0) among
      `k` correct answers: a lone correct answer gets 15; otherwise the
      first gets 15, the last 8 and every one in between 10. */
  function Award(i: nat, k: nat): (p: int)
    requires i < k
    ensures p == 8 || p == 10 || p == 15
    ensures p == 15 <==> i == 0
    ensures p == 8 <==> (k >= 2 && i == k - 1)
  {
    if k == 1 then 15
    else if i == 0 then 15
    else if i == k - 1 then 8
    else 10
  }

  /** The points handed to the first `n` of `k` correct answers. */
  function AwardSum(n: nat, k: nat): int
    requires n <= k
  {
    if n == 0 then 0 else AwardSum(n - 1, k) + Award(n - 1, k)
  }

  /** The points of a round with `k` correct answers add up to 0, 15, or
      23 + 10 * (k - 2). */
  lemma {:induction false} RoundTotal(k: nat)
    ensures AwardSum(k, k) == if k == 0 then 0 else if k == 1 then 15 else 23 + 10 * (k - 2)
  {
    if k >= 2 {
      AwardPrefix(k - 1, k);
    }
  }

  lemma {:induction false} AwardPrefix(n: nat, k: nat)
    requires k >= 2 && 1 <= n < k
    ensures AwardSum(n, k) == 15 + 10 * (n - 1)
  {
    if n > 1 {
      AwardPrefix(n - 1, k);
    }
  }

  /** The players of `arrivals` whose stored answer is `correct`, in arrival order. */
  function Winners(arrivals: seq<Player>, correct: char): (ws: seq<Player>)
    reads arrivals
    ensures |ws| <= |arrivals|
    ensures forall p :: p in ws ==> p in arrivals && p.answer == correct
    ensures forall p :: p in arrivals && p.answer == correct ==> p in ws
  {
    if arrivals == [] then []
    else
      var last := arrivals[|arrivals| - 1];
      var rest := Winners(arrivals[..|arrivals| - 1], correct);
      if last.answer == correct then rest + [last] else rest
  }

  /** What `p` collects from the first `n` positions of the winners `ws`. */
  function Earned(p: Player, ws: seq<Player>, n: nat): int
    requires n <= |ws|
  {
    if n == 0 then 0
    else Earned(p, ws, n - 1) + (if ws[n - 1] == p then Award(n - 1, |ws|) else 0)
  }

  /** A player who is not among the winners earns nothing. */
  lemma {:induction false} EarnedAbsent(p: Player, ws: seq<Player>, n: nat)
    requires n <= |ws| && p !in ws
    ensures Earned(p, ws, n) == 0
  {
    if n > 0 {
      EarnedAbsent(p, ws, n - 1);
    }
  }

  /** Each winner appears once in the arrival order (an answer is recorded
      only when `responder` accepted it), so the winner at position `i`
      earns exactly the award of that position. */
  lemma {:induction false} EarnedOnce(ws: seq<Player>, i: nat, n: nat)
    requires i < |ws| && n <= |ws|
    requires forall a, b :: 0 <= a < b < |ws| ==> ws[a] != ws[b]
    ensures Earned(ws[i], ws, n) == if i < n then Award(i, |ws|) else 0
  {
    if n > 0 {
      EarnedOnce(ws, i, n - 1);
    }
  }

  // ---------------------------------------------------------------- ranking

  /** One player's line of the ranking, as it stood when the snapshot was taken. */
  datatype Standing = Standing(name: String, score: int)

  /** The name and score of every player, in list order. */
  function Snapshot(ps: seq<Player>): (st: seq<Standing>)
    reads ps
    ensures |st| == |ps|
    ensures forall i :: 0 <= i < |ps| ==> st[i] == Standing(ps[i].name, ps[i].score)
  {
    if ps == [] then []
    else Snapshot(ps[..|ps| - 1]) + [Standing(ps[|ps| - 1].name, ps[|ps| - 1].score)]
  }

  /** Scores never increase along `st`. */
  predicate NonIncreasing(st: seq<Standing>) {
    forall i, j :: 0 <= i < j < |st| ==> st[i].score >= st[j].score
  }

  /** `[e]` when `e` has score `v`, else nothing. */
  function Keep(e: Standing, v: int): seq<Standing> {
    if e.score == v then [e] else []
  }

  /** The entries of `st` with score `v`, in order. */
  function WithScore(st: seq<Standing>, v: int): seq<Standing> {
    if st == [] then [] else WithScore(st[..|st| - 1], v) + Keep(st[|st| - 1], v)
  }

  /** Place `e` after every entry whose score is at least its own. */
  function Insert(st: seq<Standing>, e: Standing): seq<Standing> {
    if st == [] then [e]
    else if st[0].score < e.score then [e] + st
    else [st[0]] + Insert(st[1..], e)
  }

  /** `Collections.sort` with `compareTo`: descending by score, and stable. */
  function RankOrder(st: seq<Standing>): seq<Standing> {
    if st == [] then []
    else Insert(RankOrder(st[..|st| - 1]), st[|st| - 1])
  }

  lemma {:induction false} InsertMultiset(st: seq<Standing>, e: Standing)
    ensures multiset(Insert(st, e)) == multiset(st) + multiset{e}
    decreases |st|
  {
    if st != [] && st[0].score >= e.score {
      InsertMultiset(st[1..], e);
      ConsTail(st);
    }
  }

  lemma {:induction false} InsertFirst(st: seq<Standing>, e: Standing)
    ensures Insert(st, e) != []
    ensures Insert(st, e)[0] == if st == [] || st[0].score < e.score then e else st[0]
  {
  }

  lemma {:induction false} ConsSorted(a: Standing, st: seq<Standing>)
    requires NonIncreasing(st)
    requires st != [] ==> a.score >= st[0].score
    ensures NonIncreasing([a] + st)
  {
    var s := [a] + st;
    forall i, j | 0 <= i < j < |s|
      ensures s[i].score >= s[j].score
    {
      if i == 0 && j > 1 {
        assert s[1] == st[0] && s[j] == st[j - 1];
      }
    }
  }

  lemma {:induction false} InsertSorted(st: seq<Standing>, e: Standing)
    requires NonIncreasing(st)
    ensures NonIncreasing(Insert(st, e))
    decreases |st|
  {
    if st == [] {
    } else if st[0].score < e.score {
      ConsSorted(e, st);
    } else {
      var rest := Insert(st[1..], e);
      NonIncreasingTail(st);
      InsertSorted(st[1..], e);
      InsertFirst(st[1..], e);
      if |st| > 1 {
        assert st[0].score >= st[1].score;
      }
      ConsSorted(st[0], rest);
    }
  }

  /** The ranking lists every player, in non-increasing score order. */
  lemma {:induction false} RankOrderSorted(st: seq<Standing>)
    ensures NonIncreasing(RankOrder(st))
    ensures multiset(RankOrder(st)) == multiset(st)
    decreases |st|
  {
    if st != [] {
      var init, last := st[..|st| - 1], st[|st| - 1];
      RankOrderSorted(init);
      InsertSorted(RankOrder(init), last);
      InsertMultiset(RankOrder(init), last);
      InitLast(st);
    }
  }

  lemma {:induction false} WithScoreCons(a: Standing, st: seq<Standing>, v: int)
    ensures WithScore([a] + st, v) == Keep(a, v) + WithScore(st, v)
    decreases |st|
  {
    var s := [a] + st;
    if st != [] {
      var init := st[..|st| - 1];
      assert s[..|s| - 1] == [a] + init;
      WithScoreCons(a, init, v);
    }
  }

  lemma {:induction false} WithScoreNone(st: seq<Standing>, v: int)
    requires forall i :: 0 <= i < |st| ==> st[i].score < v
    ensures WithScore(st, v) == []
    decreases |st|
  {
    if st != [] {
      WithScoreNone(st[..|st| - 1], v);
    }
  }

  lemma {:induction false} InsertStable(st: seq<Standing>, e: Standing, v: int)
    requires NonIncreasing(st)
    ensures WithScore(Insert(st, e), v) == WithScore(st, v) + Keep(e, v)
    decreases |st|
  {
    if st == [] {
      WithScoreCons(e, [], v);
    } else if st[0].score < e.score {
      InsertStableFront(st, e, v);
    } else {
      var rest := st[1..];
      var ins := Insert(rest, e);
      assert Insert(st, e) == [st[0]] + ins;
      NonIncreasingTail(st);
      InsertStable(rest, e, v);
      WithScoreCons(st[0], ins, v);
      ConsTail(st);
      WithScoreCons(st[0], rest, v);
      AppendAssoc(Keep(st[0], v), WithScore(rest, v), Keep(e, v));
    }
  }

  lemma {:induction false} NonIncreasingTail(st: seq<Standing>)
    requires NonIncreasing(st) && st != []
    ensures NonIncreasing(st[1..])
  {
    var rest := st[1..];
    forall i, j | 0 <= i < j < |rest|
      ensures rest[i].score >= rest[j].score
    {
      assert rest[i] == st[i + 1] && rest[j] == st[j + 1];
    }
  }

  lemma {:induction false} InsertStableFront(st: seq<Standing>, e: Standing, v: int)
    requires NonIncreasing(st) && st != [] && st[0].score < e.score
    ensures WithScore([e] + st, v) == WithScore(st, v) + Keep(e, v)
  {
    WithScoreCons(e, st, v);
    if e.score == v {
      WithScoreNone(st, v);
    }
  }

  /** The sort is stable: the players with any given score appear in the
      ranking in the order they joined. */
  lemma {:induction false} RankOrderStable(st: seq<Standing>, v: int)
    ensures WithScore(RankOrder(st), v) == WithScore(st, v)
    decreases |st|
  {
    if st != [] {
      var init := st[..|st| - 1];
      RankOrderStable(init, v);
      RankOrderSorted(init);
      InsertStable(RankOrder(init), st[|st| - 1], v);
    }
  }

  /** The first and the last line of the ranking, without their line breaks. */
  const RankingTop: String := "========== RANKING =========="
  const RankingBottom: String := "============================="

  /** `String.format("  #%d  %-10s  %d pts", position, name, score)`. */
  function RankBody(position: nat, s: Standing): String {
    "  #" + NatToString(position) + "  " + PadRight(s.name, 10) + "  " + IntToString(s.score) + " pts"
  }

  /** The body of every line of the ranking `st`, numbered from 1. */
  function RankBodies(st: seq<Standing>): (r: seq<String>)
    ensures |r| == |st|
  {
    seq(|st|, i requires 0 <= i < |st| => RankBody(i + 1, st[i]))
  }

  /** The first `n` lines of the ranking `r`, each with its line break. */
  function RankedLines(r: seq<Standing>, n: nat): String
    requires n <= |r|
  {
    if n == 0 then [] else RankedLines(r, n - 1) + RankBody(n, r[n - 1]) + "\n"
  }

  /** `obtenerRanking` on a snapshot: the banners around one line per player, best first. */
  function RankingText(st: seq<Standing>): String {
    var r := RankOrder(st);
    RankingTop + "\n" + RankedLines(r, |r|) + RankingBottom + "\n"
  }

  lemma {:induction false} RankedLinesTerminated(r: seq<Standing>, n: nat)
    requires n <= |r|
    ensures RankedLines(r, n) == Terminated(RankBodies(r)[..n], '\n')
  {
    var bodies := RankBodies(r);
    if n == 0 {
    } else {
      RankedLinesTerminated(r, n - 1);
      assert bodies[n - 1] == RankBody(n, r[n - 1]);
      TakeSnoc(bodies, n - 1);
      TerminatedSnoc(bodies[..n - 1], RankBody(n, r[n - 1]), '\n');
    }
  }

  lemma {:induction false} TerminatedSnoc(xs: seq<String>, y: String, d: char)
    ensures Terminated(xs + [y], d) == Terminated(xs, d) + y + [d]
    decreases |xs|
  {
    if xs == [] {
      assert Terminated([y], d) == y + [d] + Terminated([], d);
    } else {
      var ys := xs + [y];
      assert ys[0] == xs[0];
      assert ys[1..] == xs[1..] + [y];
      TerminatedSnoc(xs[1..], y, d);
    }
  }

  lemma {:induction false} PadNoBreak(s: String, w: nat)
    requires NoBreak(s)
    ensures NoBreak(PadRight(s, w))
  {
    var p := PadRight(s, w);
    forall i | 0 <= i < |p|
      ensures !IsBreak(p[i])
    {
      if i < |s| {
        assert p[i] == p[..|s|][i];
      }
    }
  }

  lemma {:induction false} RankBodyNoBreak(position: nat, s: Standing)
    requires NoBreak(s.name)
    ensures NoBreak(RankBody(position, s))
  {
    var number := NatToString(position);
    var pad := PadRight(s.name, 10);
    var score := IntToString(s.score);
    DigitsNoBreak(number);
    PadNoBreak(s.name, 10);
    if s.score < 0 {
      DigitsNoBreak(NatToString(-s.score));
      NoBreakConcat("-", NatToString(-s.score));
    } else {
      DigitsNoBreak(score);
    }
    assert NoBreak("  #") && NoBreak("  ") && NoBreak(" pts");
    NoBreakConcat("  #", number);
    NoBreakConcat("  #" + number, "  ");
    NoBreakConcat("  #" + number + "  ", pad);
    NoBreakConcat("  #" + number + "  " + pad, "  ");
    NoBreakConcat("  #" + number + "  " + pad + "  ", score);
    NoBreakConcat("  #" + number + "  " + pad + "  " + score, " pts");
  }

  /** When no name holds a line break, the ranking cut at its line breaks is
      the top banner, one "  #i  name  score pts" line per player in ranking
      order, the bottom banner, and nothing after the final break. */
  lemma {:induction false} RankingLines(st: seq<Standing>)
    requires forall i :: 0 <= i < |st| ==> NoBreak(st[i].name)
    ensures Pieces(RankingText(st), '\n') ==
      [RankingTop] + RankBodies(RankOrder(st)) + [RankingBottom] + [[]]
  {
    var sorted := RankOrder(st);
    SortedNamesNoBreak(st);
    var bodies := RankBodies(sorted);
    BodiesNoBreak(sorted);
    BannersNoBreak();
    var lines := [RankingTop] + bodies + [RankingBottom];
    FramedNoBreak(RankingTop, bodies, RankingBottom);
    RankingTextShape(st);
    PiecesTerminated(lines, '\n');
  }

  lemma {:induction false} SortedNamesNoBreak(st: seq<Standing>)
    requires forall i :: 0 <= i < |st| ==> NoBreak(st[i].name)
    ensures forall i :: 0 <= i < |RankOrder(st)| ==> NoBreak(RankOrder(st)[i].name)
  {
    var sorted := RankOrder(st);
    RankOrderSorted(st);
    forall i | 0 <= i < |sorted|
      ensures NoBreak(sorted[i].name)
    {
      assert sorted[i] in multiset(st);
      var j :| 0 <= j < |st| && st[j] == sorted[i];
    }
  }

  lemma {:induction false} BodiesNoBreak(sorted: seq<Standing>)
    requires forall i :: 0 <= i < |sorted| ==> NoBreak(sorted[i].name)
    ensures forall i :: 0 <= i < |RankBodies(sorted)| ==> '\n' !in RankBodies(sorted)[i]
  {
    var bodies := RankBodies(sorted);
    forall i | 0 <= i < |bodies|
      ensures '\n' !in bodies[i]
    {
      RankBodyNoBreak(i + 1, sorted[i]);
      assert bodies[i] == RankBody(i + 1, sorted[i]);
      NoBreakNoNewline(bodies[i]);
    }
  }

  lemma {:induction false} BannersNoBreak()
    ensures '\n' !in RankingTop && '\n' !in RankingBottom
  {
  }

  lemma {:induction false} FramedNoBreak(top: String, xs: seq<String>, bottom: String)
    requires '\n' !in top && '\n' !in bottom
    requires forall i :: 0 <= i < |xs| ==> '\n' !in xs[i]
    ensures forall i :: 0 <= i < |[top] + xs + [bottom]| ==> '\n' !in ([top] + xs + [bottom])[i]
  {
    var lines := [top] + xs + [bottom];
    forall i | 0 <= i < |lines|
      ensures '\n' !in lines[i]
    {
      if 0 < i <= |xs| {
        assert lines[i] == xs[i - 1];
      }
    }
  }

  lemma {:induction false} RankingTextShape(st: seq<Standing>)
    ensures RankingText(st) ==
      Terminated([RankingTop] + RankBodies(RankOrder(st)) + [RankingBottom], '\n')
  {
    var r := RankOrder(st);
    var bodies := RankBodies(r);
    var front := [RankingTop] + bodies;
    RankedLinesTerminated(r, |r|);
    TakeAll(bodies);
    TerminatedSnoc(front, RankingBottom, '\n');
    assert front[0] == RankingTop && front[1..] == bodies;
    assert Terminated(front, '\n') == RankingTop + "\n" + Terminated(bodies, '\n');
  }

  /** The `StringBuilder` loop of `obtenerRanking`, over a snapshot: the
      numbered lines are appended one by one between the two banners. */
  method FormatRanking(st: seq<Standing>) returns (text: String)
    ensures text == RankingText(st)
  {
    var ranking := RankOrder(st);
    var lines: String := [];
    var i := 0;
    while i < |ranking|
      invariant 0 <= i <= |ranking|
      invariant lines == RankedLines(ranking, i)
    {
      lines := lines + RankBody(i + 1, ranking[i]) + "\n";
      i := i + 1;
    }
    text := RankingTop + "\n" + lines + RankingBottom + "\n";
  }

  // -------------------------------------------------------------- the lobby

  /** Every player's name, in list order. */
  function PlayerNames(ps: seq<Player>): (r: seq<String>)
    ensures |r| == |ps|
  {
    seq(|ps|, i requires 0 <= i < |ps| => ps[i].name)
  }

  /** `obtenerListaJugadores` cut at its commas gives every name back, in
      list order, when no name is empty or contains a comma; with no player
      the list is the empty string. */
  lemma {:induction false} PlayerListNames(ps: seq<Player>)
    requires forall i :: 0 <= i < |ps| ==> ps[i].name != [] && ',' !in ps[i].name
    ensures ps == [] ==> Join(PlayerNames(ps), ',') == []
    ensures ps != [] ==> Pieces(Join(PlayerNames(ps), ','), ',') == PlayerNames(ps)
    ensures ps != [] ==> var list := Join(PlayerNames(ps), ','); list[0] != ',' && list[|list| - 1] != ','
  {
    if ps != [] {
      var names := PlayerNames(ps);
      PiecesJoin(names, ',');
      JoinEnds(names, ',');
    }
  }

  /** A join of non-empty strings starts with the first one's first
      character and ends with the last one's last character. */
  lemma {:induction false} JoinEnds(xs: seq<String>, sep: char)
    requires xs != []
    requires forall i :: 0 <= i < |xs| ==> xs[i] != []
    ensures var s := Join(xs, sep); s != [] && s[0] == xs[0][0] && s[|s| - 1] == xs[|xs| - 1][|xs[|xs| - 1]| - 1]
    decreases |xs|
  {
    if |xs| > 1 {
      JoinEnds(xs[1..], sep);
    }
  }

  // ------------------------------------------------------------ coordinator

  /** The coordinator's state: configuration, phase flags, the player list
      and the answer bookkeeping of the current round. */
  class GameServer {
    /** The name registry (`validadorNombre`). */
    const names: NameRegistry
    /** Every question loaded (`todasLasPreguntas`). */
    var pool: seq<Question>
    var selected: seq<Question>
    /** Seconds allowed per question (`tiempoRespuesta`). */
    var seconds: int
    /** Number of rounds announced (`cantidadPreguntas`). */
    var total: int
    var started: bool
    var finished: bool
    var current: Option<Question>
    /** 1-based number of the current round (`numPreguntaActual`). */
    var roundNumber: int
    var players: seq<Player>
    /** Answers accepted this round (`respuestasRecibidas`). */
    var received: int
    /** Players in the order their answers were accepted (`ordenRespuestas`). */
    var arrivals: seq<Player>
    var nextRequested: bool

    /** The counter always equals the length of the arrival list, and the
        game can only have finished once it has started. */
    predicate Valid()
      reads this
    {
      received == |arrivals| && (finished ==> started)
    }

    twostate predicate SameConfig()
      reads this
    {
      pool == old(pool) && selected == old(selected) && seconds == old(seconds) && total == old(total)
    }

    twostate predicate SameRound()
      reads this
    {
      && current == old(current) && roundNumber == old(roundNumber)
      && received == old(received) && arrivals == old(arrivals) && nextRequested == old(nextRequested)
    }

    constructor(pool: seq<Question>)
      ensures Valid()
      ensures fresh(names) && names.reserved == {}
      ensures this.pool == pool && selected == [] && seconds == 0 && total == 0
      ensures !started && !finished && current == None && roundNumber == 0
      ensures players == [] && received == 0 && arrivals == [] && !nextRequested
    {
      names := new NameRegistry();
      this.pool := pool;
      selected := [];
      seconds := 0;
      total := 0;
      started := false;
      finished := false;
      current := None;
      roundNumber := 0;
      players := [];
      received := 0;
      arrivals := [];
      nextRequested := false;
    }

    /** `seleccionarPreguntasAleatorias`: some shuffle of the pool, cut to
        `min(count, pool size)` questions; the pool itself is untouched. */
    method SelectQuestions(count: int) returns (chosen: seq<Question>)
      requires count >= 0
      ensures |chosen| == if count < |pool| then count else |pool|
      ensures multiset(chosen) <= multiset(pool)
    {
      assert multiset(pool) == multiset(pool);
      var shuffled: seq<Question> :| multiset(shuffled) == multiset(pool);
      assert |shuffled| == |multiset(shuffled)| == |pool|;
      var n := if count < |shuffled| then count else |shuffled|;
      chosen := shuffled[..n];
      assert shuffled == chosen + shuffled[n..];
    }

    /** The configuration step: time and round count from the operator's
        two lines, then the questions of the game. */
    method Configure(timeLine: String, countLine: String)
      requires pool != [] && |pool| <= MaxInt
      requires Valid()
      modifies this
      ensures Valid()
      ensures pool == old(pool) && players == old(players)
      ensures seconds == ConfiguredSeconds(timeLine)
      ensures total == ConfiguredCount(countLine, |pool|)
      ensures |selected| == total && multiset(selected) <= multiset(pool)
      ensures started == old(started) && finished == old(finished) && SameRound()
    {
      seconds := ConfiguredSeconds(timeLine);
      total := ConfiguredCount(countLine, |pool|);
      selected := SelectQuestions(total);
    }

    /** `registrarJugador`: append to the player list; nothing else changes. */
    method RegisterPlayer(p: Player)
      requires Valid()
      modifies this
      ensures Valid()
      ensures players == old(players) + [p]
      ensures started == old(started) && finished == old(finished)
      ensures SameConfig() && SameRound()
    {
      players := players + [p];
    }

    /** `registrarRespuesta`: one more answer counted and `p` appended to
        the arrival order; nothing else changes. */
    method RecordAnswer(p: Player)
      requires Valid()
      modifies this
      ensures Valid()
      ensures received == old(received) + 1 && arrivals == old(arrivals) + [p]
      ensures current == old(current) && roundNumber == old(roundNumber) && nextRequested == old(nextRequested)
      ensures players == old(players) && started == old(started) && finished == old(finished)
      ensures SameConfig()
      // an answer never reopens a round, and the one that brings the count
      // up to the number of players closes it whatever the time
      ensures forall e :: old(RoundOver(e)) ==> RoundOver(e)
      ensures old(received) + 1 == |players| ==> forall e :: RoundOver(e)
    {
      received := received + 1;
      arrivals := arrivals + [p];
    }

    /** The operator's INICIAR: refused while nobody has joined, otherwise
        the game starts; the flag never goes back. */
    method Start() returns (ok: bool)
      requires Valid()
      modifies this
      ensures Valid()
      ensures ok <==> players != []
      ensures started == (old(started) || ok)
      ensures finished == old(finished) && players == old(players)
      ensures SameConfig() && SameRound()
    {
      if players == [] {
        return false;
      }
      started := true;
      ok := true;
    }

    /** The operator's NEXT: the current round is to end now. */
    method RequestNext()
      requires Valid()
      modifies this
      ensures Valid()
      ensures nextRequested
      ensures forall e :: RoundOver(e)
      ensures current == old(current) && roundNumber == old(roundNumber)
      ensures received == old(received) && arrivals == old(arrivals)
      ensures players == old(players) && started == old(started) && finished == old(finished)
      ensures SameConfig()
    {
      nextRequested := true;
    }

    /** The reset before round `i` (from 0): its number and question are
        published, NEXT is cleared, the bookkeeping emptied and every
        player's answer slot cleared; scores stay. */
    method StartRound(i: nat)
      requires Valid()
      requires i < |selected|
      modifies this, set p | p in players
      ensures Valid()
      ensures players == old(players) && started == old(started) && finished == old(finished)
      ensures SameConfig()
      ensures roundNumber == i + 1 && current == Some(selected[i]) && !nextRequested
      ensures received == 0 && arrivals == []
      ensures forall p :: p in players ==> p.Cleared() && p.score == old(p.score)
      // with players present the new round runs until its deadline, and no longer
      ensures forall e :: RoundOver(e) <==> e >= seconds * 1000 || players == []
    {
      roundNumber := i + 1;
      current := Some(selected[i]);
      nextRequested := false;
      received := 0;
      arrivals := [];
      var k := 0;
      while k < |players|
        modifies set p | p in players
        invariant 0 <= k <= |players|
        invariant forall j :: 0 <= j < k ==> players[j].Cleared()
        invariant forall p :: p in players ==> p.score == old(p.score)
      {
        players[k].ResetAnswer();
        k := k + 1;
      }
    }

    /** The exit test of the waiting loop, `elapsed` milliseconds into the round. */
    predicate RoundOver(elapsed: int)
      reads this
    {
      elapsed >= seconds * 1000 || received >= |players| || nextRequested
    }

    /** The filtering half of `calcularPuntuacionesRonda`: the players of
        the arrival order whose stored answer is `correct`, in that order. */
    method CorrectAnswers(correct: char) returns (winners: seq<Player>)
      ensures winners == Winners(arrivals, correct)
    {
      winners := [];
      var i := 0;
      while i < |arrivals|
        invariant 0 <= i <= |arrivals|
        invariant winners == Winners(arrivals[..i], correct)
      {
        assert arrivals[..i + 1][..i] == arrivals[..i];
        if arrivals[i].answer == correct {
          winners := winners + [arrivals[i]];
        }
        i := i + 1;
      }
      assert arrivals[..i] == arrivals;
    }

    /** `calcularPuntuacionesRonda`: every player collects, over the
        positions at which they appear among the correct answers in arrival
        order, the award of each position; answers are left as they are. */
    method ScoreRound(q: Question)
      modifies set p | p in arrivals
      ensures var ws := old(Winners(arrivals, q.correct));
        forall p :: p in players || p in arrivals ==> p.score == old(p.score) + Earned(p, ws, |ws|)
      ensures forall p :: p in arrivals ==>
        p.answer == old(p.answer) && p.answerTime == old(p.answerTime) && p.answered == old(p.answered)
    {
      var winners := CorrectAnswers(q.correct);
      if winners == [] {
        return;
      }
      var j := 0;
      while j < |winners|
        invariant 0 <= j <= |winners|
        invariant forall p :: p in winners ==> p in arrivals
        invariant forall p :: p in players || p in arrivals ==> p.score == old(p.score) + Earned(p, winners, j)
        invariant forall p :: p in arrivals ==>
          p.answer == old(p.answer) && p.answerTime == old(p.answerTime) && p.answered == old(p.answered)
      {
        winners[j].AddPoints(Award(j, |winners|));
        j := j + 1;
      }
    }

    /** The end of the game: finished, and no current question. */
    method Finish()
      requires Valid() && started
      modifies this
      ensures Valid()
      ensures finished && current == None
      ensures started == old(started) && players == old(players)
      ensures roundNumber == old(roundNumber) && received == old(received)
      ensures arrivals == old(arrivals) && nextRequested == old(nextRequested)
      ensures SameConfig()
    {
      finished := true;
      current := None;
    }

    /** `obtenerRanking`: the players' current names and scores, best
        first, one numbered line each between the banners. */
    method Ranking() returns (text: String)
      ensures text == RankingText(Snapshot(players))
    {
      text := FormatRanking(Snapshot(players));
    }

    /** `obtenerListaJugadores`: the names in list order, a comma between neighbours. */
    method PlayerList() returns (list: String)
      ensures list == Join(PlayerNames(players), ',')
    {
      var names := PlayerNames(players);
      list := [];
      var i := 0;
      while i < |players|
        invariant 0 <= i <= |players|
        invariant list == Join(names[..i], ',')
      {
        assert names[..i + 1] == names[..i] + [players[i].name];
        if i > 0 {
          JoinSnoc(names[..i], players[i].name, ',');
          list := list + ",";
        } else {
          assert names[..1] == [players[0].name];
        }
        list := list + players[i].name;
        i := i + 1;
      }
      assert names[..i] == names;
    }
  }

  /** The validator accepts a name with a comma, so the lobby list cannot
      always be cut back into names: one player "ana,bob" and two players
      "ana" and "bob" give the same list. */
  lemma {:induction false} CommaNameAmbiguous()
    ensures Validate({}, "ana,bob") == None
    ensures Join(["ana,bob"], ',') == Join(["ana", "bob"], ',')
  {
    assert Trim("ana,bob") == "ana,bob";
    assert ToLower("ana,bob") == "ana,bob";
    assert IsLetter("ana,bob"[0]);
    assert "ana,bob" !in Forbidden;
    assert Join(["bob"], ',') == "bob";
  }

  /** No player appears twice in `ps`. */
  predicate Distinct(ps: seq<Player>) {
    forall i, j :: 0 <= i < j < |ps| ==> ps[i] != ps[j]
  }

  /** The players listed in `ps`. */
  function Members(ps: seq<Player>): set<Player> {
    set p | p in ps
  }

  /** A list has at most as many members as entries, and exactly as many
      when no player appears twice. */
  lemma {:induction false} MembersSize(ps: seq<Player>)
    ensures |Members(ps)| <= |ps|
    ensures Distinct(ps) ==> |Members(ps)| == |ps|
  {
    if ps != [] {
      MembersSize(ps[1..]);
      assert Members(ps) == {ps[0]} + Members(ps[1..]);
      if Distinct(ps) {
        assert ps[0] !in Members(ps[1..]) by {
          forall j | 0 <= j < |ps[1..]|
            ensures ps[1..][j] != ps[0]
          {
            assert ps[1..][j] == ps[j + 1];
          }
        }
      }
    }
  }

  /** Waiting is monotone: once the round is over, it stays over as time passes. */
  lemma {:induction false} RoundOverLater(g: GameServer, elapsed: int, later: int)
    requires elapsed <= later && g.RoundOver(elapsed)
    ensures g.RoundOver(later)
  {
  }

  /** Before the deadline and without NEXT, when answers are accepted at most
      once per player and only from listed players (as POST /respuesta
      ensures), the round ends exactly when every listed player has answered. */
  lemma {:induction false} RoundEndsEarlyExactly(g: GameServer, elapsed: int)
    requires g.Valid()
    requires elapsed < 1000 * g.seconds && !g.nextRequested
    requires Distinct(g.players) && Distinct(g.arrivals)
    requires forall p :: p in g.arrivals ==> p in g.players
    ensures g.RoundOver(elapsed) <==> forall p :: p in g.players ==> p in g.arrivals
  {
    MembersSize(g.players);
    MembersSize(g.arrivals);
    if forall p :: p in g.players ==> p in g.arrivals {
      SubsetSize(Members(g.players), Members(g.arrivals));
    } else {
      var missing :| missing in g.players && missing !in g.arrivals;
      SubsetSize(Members(g.arrivals), Members(g.players) - {missing});
      assert Members(g.players) == (Members(g.players) - {missing}) + {missing};
    }
  }
}
