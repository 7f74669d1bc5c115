/**
 * One client connection (ManejadorCliente): the routing of a parsed request
 * to its handler, the handlers' status codes and sentinel bodies, the
 * player the connection is bound to, and the name release on disconnect.
 */
module Session {
  import opened Wrappers
  import opened Text
  import opened Names
  import opened Players
  import opened Questions
  import opened Game
  import Wire
  import ClientWire

  // ---------------------------------------------------------------- replies

  /** What a handler answers, before it is framed by one of the four
      `construirRespuestaXXX` wrappers. */
  datatype Reply = Ok(body: String) | BadRequest(body: String) | Forbidden(body: String) | NotFound(body: String)

  function Code(r: Reply): int {
    match r
    case Ok(_) => 200
    case BadRequest(_) => 400
    case Forbidden(_) => 403
    case NotFound(_) => 404
  }

  function Reason(r: Reply): String {
    match r
    case Ok(_) => "OK"
    case BadRequest(_) => "Bad Request"
    case Forbidden(_) => "Forbidden"
    case NotFound(_) => "Not Found"
  }

  /** The text written to the socket for a reply. */
  function Render(r: Reply): String {
    match r
    case Ok(b) => Wire.BuildOk(b)
    case BadRequest(b) => Wire.BuildBadRequest(b)
    case Forbidden(b) => Wire.BuildForbidden(b)
    case NotFound(b) => Wire.BuildNotFound(b)
  }

  /** The client reads every reply back with its code, reason and body, and
      counts only 200 as a success, when the body has as many characters as
      UTF-8 bytes. */
  lemma {:induction false} RenderRoundTrip(r: Reply, more: String)
    requires Utf8Length(r.body) == |r.body| <= MaxInt
    ensures ClientWire.ParseResponse(Render(r) + more) == Wire.Done(Wire.Response(Code(r), Reason(r), r.body), more)
    ensures ClientWire.IsSuccess(Wire.Response(Code(r), Reason(r), r.body)) <==> r.Ok?
  {
    ReasonNoBreak(r);
    ClientWire.ResponseRoundTrip(Code(r), Reason(r), r.body, more);
  }

  lemma {:induction false} ReasonNoBreak(r: Reply)
    ensures NoBreak(Reason(r))
  {
  }

  // ---------------------------------------------------------------- routing

  /** The handlers `procesarPeticion` dispatches to. */
  datatype Route = Register | GetQuestion | Answer | GetRanking | GetState | Waiting | Next

  /** The route of a path, or None for a path the switch does not know. */
  function RouteOf(path: String): Option<Route> {
    if path == "/registro" then Some(Register)
    else if path == "/pregunta" then Some(GetQuestion)
    else if path == "/respuesta" then Some(Answer)
    else if path == "/ranking" then Some(GetRanking)
    else if path == "/estado" then Some(GetState)
    else if path == "/esperando" then Some(Waiting)
    else if path == "/next" then Some(Next)
    else None
  }

  /** The path of each route. */
  function PathOf(r: Route): String {
    match r
    case Register => "/registro"
    case GetQuestion => "/pregunta"
    case Answer => "/respuesta"
    case GetRanking => "/ranking"
    case GetState => "/estado"
    case Waiting => "/esperando"
    case Next => "/next"
  }

  /** The only method each route accepts. */
  function VerbOf(r: Route): String {
    if r == Register || r == Answer || r == Next then "POST" else "GET"
  }

  /** The switch knows exactly the seven paths, one route each. */
  lemma {:induction false} RouteOfPath(path: String, r: Route)
    ensures RouteOf(PathOf(r)) == Some(r)
    ensures RouteOf(path) == Some(r) ==> path == PathOf(r)
  {
  }

  /** The answer to a known path asked with the wrong method. */
  function WrongMethod(r: Route): Reply {
    BadRequest("Metodo no permitido. Use " + VerbOf(r) + ".")
  }

  /** The answer to an unknown path. */
  function UnknownPath(path: String): Reply {
    NotFound("Ruta no encontrada: " + path)
  }

  const NotRegistered: String := "Debes registrarte primero."

  /** The phase as GET /estado reports it: finished first, then running,
      else waiting. */
  function StateBody(started: bool, finished: bool): String {
    if finished then "ESTADO:TERMINADA"
    else if started then "ESTADO:EN_CURSO"
    else "ESTADO:ESPERANDO"
  }

  /** The body of GET /pregunta while a question is up. */
  function QuestionBody(number: int, total: int, q: Question): String {
    "PREGUNTA:" + IntToString(number) + "/" + IntToString(total) + "\n" + q.HttpBody()
  }

  lemma {:induction false} QuestionBodyPrefix(number: int, total: int, q: Question)
    ensures StartsWith(QuestionBody(number, total, q), "PREGUNTA:")
  {
    var p: String := "PREGUNTA:";
    var s1 := p + IntToString(number);
    StartsWithConcat(p, IntToString(number));
    StartsWithExtend(s1, p, "/");
    StartsWithExtend(s1 + "/", p, IntToString(total));
    StartsWithExtend(s1 + "/" + IntToString(total), p, "\n");
    StartsWithExtend(s1 + "/" + IntToString(total) + "\n", p, q.HttpBody());
  }

  /** The client cuts a question reply into the "PREGUNTA:n/total" line,
      the statement line and the four options. */
  lemma {:induction false} QuestionBodyLines(number: int, total: int, q: Question)
    requires q.SingleLineFields()
    ensures Pieces(QuestionBody(number, total, q), '\n') ==
      ["PREGUNTA:" + IntToString(number) + "/" + IntToString(total),
       "PREGUNTA: " + q.prompt, q.optionA, q.optionB, q.optionC, q.optionD, ""]
  {
    var head := "PREGUNTA:" + IntToString(number) + "/" + IntToString(total);
    var body := q.HttpBody();
    var six := ["PREGUNTA: " + q.prompt, q.optionA, q.optionB, q.optionC, q.optionD, ""];
    assert QuestionBody(number, total, q) == head + ['\n'] + body;
    HeaderNoBreak(number, total);
    PiecesCons(head, body, '\n');
    HttpBodyLines(q);
    ConsSix(head, six);
  }

  lemma {:induction false} HeaderNoBreak(number: int, total: int)
    ensures '\n' !in "PREGUNTA:" + IntToString(number) + "/" + IntToString(total)
  {
    IntNoBreak(number);
    IntNoBreak(total);
    assert NoBreak("PREGUNTA:") && NoBreak("/");
    NoBreakConcat("PREGUNTA:", IntToString(number));
    NoBreakConcat("PREGUNTA:" + IntToString(number), "/");
    NoBreakConcat("PREGUNTA:" + IntToString(number) + "/", IntToString(total));
    NoBreakNoNewline("PREGUNTA:" + IntToString(number) + "/" + IntToString(total));
  }

  lemma {:induction false} IntNoBreak(i: int)
    ensures NoBreak(IntToString(i))
  {
    if i < 0 {
      DigitsNoBreak(NatToString(-i));
      assert NoBreak("-");
      NoBreakConcat("-", NatToString(-i));
    } else {
      DigitsNoBreak(NatToString(i));
    }
  }

  /** The prefix of the lobby reply. */
  const WaitingPrefix: String := "ESPERANDO:"

  /** The lobby reply gives every player's name back, in joining order. */
  lemma {:induction false} WaitingNames(ps: seq<Player>)
    requires ps != []
    requires forall i :: 0 <= i < |ps| ==> ps[i].name != [] && ',' !in ps[i].name
    ensures var body := WaitingPrefix + Join(PlayerNames(ps), ',');
      body[..|WaitingPrefix|] == WaitingPrefix
      && Pieces(body[|WaitingPrefix|..], ',') == PlayerNames(ps)
  {
    var list := Join(PlayerNames(ps), ',');
    PlayerListNames(ps);
    assert (WaitingPrefix + list)[|WaitingPrefix|..] == list;
  }

  // ------------------------------------------------------------- connection

  class ClientHandler {
    const server: GameServer
    /** The player bound to this connection (`jugador`), None before registration. */
    var player: Option<Player>
    var connected: bool

    /** The bound player is in the server's list, and the server's own
        bookkeeping is consistent. */
    predicate Valid()
      reads this, server
    {
      server.Valid() && (player.Some? ==> player.value in server.players)
    }

    /** The objects a handler may change besides the server: the bound player. */
    function Bound(): set<object>
      reads this
    {
      if player.Some? then {player.value} else {}
    }

    /** The name `procesarRegistro` binds for `name` in the current state:
        none when a player is already bound or the validator refuses the
        name, the automatic name for an empty one, else the trimmed name. */
    ghost function RegisteredName(name: String): Option<String>
      reads this, server, server.names
    {
      if player.Some? then None
      else if Trim(name) == [] then Some(AutoName(server.names.reserved))
      else if Validate(server.names.reserved, name).Some? then None
      else Some(Trim(name))
    }

    /** The reply of `procesarRegistro` for `name` in the current state. */
    ghost function RegisterReply(name: String): Reply
      reads this, server, server.names
    {
      if player.Some? then BadRequest("Ya estas registrado como: " + player.value.name)
      else if Trim(name) == [] then Ok("REGISTRO_OK:" + AutoName(server.names.reserved))
      else if Validate(server.names.reserved, name).Some? then
        Forbidden(Message(Validate(server.names.reserved, name).value))
      else Ok("REGISTRO_OK:" + Trim(name))
    }

    /** The state after `procesarRegistro(name)`: a new player under
        `RegisteredName(name)` bound, reserved and listed, or nothing
        changed when there is no such name; phase, configuration and round
        bookkeeping untouched either way. */
    twostate predicate RegisterEffect(name: String)
      reads this, server, server.names, Bound()
    {
      && connected == old(connected)
      && server.started == old(server.started) && server.finished == old(server.finished)
      && server.SameConfig() && server.SameRound()
      && match old(RegisteredName(name))
         case None =>
           && player == old(player)
           && server.players == old(server.players)
           && server.names.reserved == old(server.names.reserved)
         case Some(n) =>
           && player.Some? && fresh(player.value)
           && player.value.name == n && player.value.score == 0 && player.value.Cleared()
           && server.players == old(server.players) + [player.value]
           && server.names.reserved == old(server.names.reserved) + {Key(n)}
    }

    /** The reply of `procesarRespuesta` for `text` in the current state. */
    function AnswerReply(text: String): Reply
      reads this, server, Bound()
    {
      if player.None? then Forbidden(NotRegistered)
      else if !server.started || server.finished then BadRequest("La partida no esta en curso.")
      else if text == [] then BadRequest("Respuesta vacia.")
      else if UpperChar(text[0]) !in "ABCD" then BadRequest("Respuesta invalida. Debe ser A, B, C o D.")
      else if player.value.answered then BadRequest("Ya has respondido a esta pregunta.")
      else Ok("RESPUESTA_OK:" + [UpperChar(text[0])])
    }

    /** The state after `procesarRespuesta(text)` at time `now`: an accepted
        answer is stored in the bound player and appended once to the
        arrival order; a refused one changes nothing. Players, phase,
        configuration, round and scores are untouched either way. */
    twostate predicate AnswerEffect(text: String, now: int)
      reads this, server, Bound()
    {
      && player == old(player) && connected == old(connected)
      && server.players == old(server.players)
      && server.started == old(server.started) && server.finished == old(server.finished)
      && server.SameConfig()
      && server.current == old(server.current) && server.roundNumber == old(server.roundNumber)
      && server.nextRequested == old(server.nextRequested)
      && (player.Some? ==> player.value.score == old(player.value.score))
      && (old(AnswerReply(text)).Ok? ==>
            && player.Some? && text != []
            && player.value.answer == UpperChar(text[0]) && player.value.answerTime == now && player.value.answered
            && server.arrivals == old(server.arrivals) + [player.value]
            && server.received == old(server.received) + 1)
      && (!old(AnswerReply(text)).Ok? ==>
            && server.arrivals == old(server.arrivals) && server.received == old(server.received)
            && (player.Some? ==> player.value.answer == old(player.value.answer)
                                 && player.value.answered == old(player.value.answered)))
    }

    constructor(server: GameServer)
      requires server.Valid()
      ensures Valid()
      ensures this.server == server && player == None && connected
    {
      this.server := server;
      player := None;
      connected := true;
    }

    /** The steps `autoRegistrar` and `procesarRegistro` share: bind a new
        player under `name`, reserve the name and list the player. */
    method Bind(name: String)
      requires Valid()
      modifies this, server, server.names
      ensures Valid()
      ensures player.Some? && fresh(player.value)
      ensures player.value.name == name && player.value.score == 0 && player.value.Cleared()
      ensures server.names.reserved == old(server.names.reserved) + {Key(name)}
      ensures server.players == old(server.players) + [player.value]
      ensures server.started == old(server.started) && server.finished == old(server.finished)
      ensures server.SameConfig() && server.SameRound()
      ensures connected == old(connected)
    {
      var p := new Player(name);
      server.names.Register(name);
      server.RegisterPlayer(p);
      player := Some(p);
    }

    /** `autoRegistrar`: bind a new player under the automatic name. */
    method AutoRegister()
      requires Valid()
      modifies this, server, server.names
      ensures Valid()
      ensures player.Some? && fresh(player.value)
      ensures player.value.name == AutoName(old(server.names.reserved))
      ensures player.value.score == 0 && player.value.Cleared()
      ensures server.names.reserved == old(server.names.reserved) + {Key(player.value.name)}
      ensures server.players == old(server.players) + [player.value]
      ensures server.started == old(server.started) && server.finished == old(server.finished)
      ensures server.SameConfig() && server.SameRound()
      ensures connected == old(connected)
    {
      var name := server.names.GenerateAutomaticName();
      Bind(name);
    }

    /** `procesarRegistro`, on the trimmed body. */
    method ProcessRegister(name: String) returns (reply: Reply)
      requires Valid()
      modifies this, server, server.names
      ensures Valid()
      ensures connected == old(connected)
      ensures server.started == old(server.started) && server.finished == old(server.finished)
      ensures server.SameConfig() && server.SameRound()
      // already bound: refused, nothing changes
      ensures old(player).Some? ==>
        && reply == BadRequest("Ya estas registrado como: " + old(player).value.name)
        && player == old(player)
        && server.players == old(server.players)
        && server.names.reserved == old(server.names.reserved)
      // empty name: the automatic one
      ensures old(player).None? && Trim(name) == [] ==>
        && player.Some? && fresh(player.value)
        && reply == Ok("REGISTRO_OK:" + player.value.name)
        && player.value.name == AutoName(old(server.names.reserved))
        && server.names.reserved == old(server.names.reserved) + {Key(player.value.name)}
        && server.players == old(server.players) + [player.value]
      // refused by the validator: its message, nothing changes
      ensures old(player).None? && Trim(name) != [] && Validate(old(server.names.reserved), name).Some? ==>
        && reply == Forbidden(Message(Validate(old(server.names.reserved), name).value))
        && player == None
        && server.players == old(server.players)
        && server.names.reserved == old(server.names.reserved)
      // accepted: bound, reserved and listed under the trimmed name
      ensures old(player).None? && Trim(name) != [] && Validate(old(server.names.reserved), name).None? ==>
        && player.Some? && fresh(player.value)
        && player.value.name == Trim(name) && player.value.score == 0
        && reply == Ok("REGISTRO_OK:" + Trim(name))
        && server.names.reserved == old(server.names.reserved) + {Key(Trim(name))}
        && server.players == old(server.players) + [player.value]
      ensures reply == old(RegisterReply(name)) && RegisterEffect(name)
    {
      if player.Some? {
        return BadRequest("Ya estas registrado como: " + player.value.name);
      }
      if Trim(name) == [] {
        AutoRegister();
        return Ok("REGISTRO_OK:" + player.value.name);
      }
      var error := Validate(server.names.reserved, name);
      if error.Some? {
        return Forbidden(Message(error.value));
      }
      Bind(Trim(name));
      reply := Ok("REGISTRO_OK:" + player.value.name);
    }

    /** `procesarObtenerPregunta`. */
    function QuestionReply(): (r: Reply)
      reads this, server
      ensures r.Forbidden? <==> player.None?
      ensures r.Ok? && StartsWith(r.body, "PREGUNTA:") <==>
        player.Some? && server.started && !server.finished && server.current.Some?
    {
      if player.None? then Forbidden(NotRegistered)
      else if !server.started then
        DifferentAt("ESTADO:ESPERANDO", "PREGUNTA:", 0);
        Ok("ESTADO:ESPERANDO")
      else if server.finished then
        DifferentAt("ESTADO:TERMINADA", "PREGUNTA:", 0);
        Ok("ESTADO:TERMINADA")
      else if server.current.None? then
        DifferentAt("ESTADO:SIN_PREGUNTA", "PREGUNTA:", 0);
        Ok("ESTADO:SIN_PREGUNTA")
      else
        QuestionBodyPrefix(server.roundNumber, server.total, server.current.value);
        Ok(QuestionBody(server.roundNumber, server.total, server.current.value))
    }

    /** `procesarObtenerEstado`. */
    function StateReply(): (r: Reply)
      reads this, server
      ensures r.Forbidden? <==> player.None?
      ensures r.body == "ESTADO:TERMINADA" <==> player.Some? && server.finished
      ensures r.body == "ESTADO:EN_CURSO" <==> player.Some? && server.started && !server.finished
      ensures r.body == "ESTADO:ESPERANDO" <==> player.Some? && !server.started && !server.finished
    {
      if player.None? then Forbidden(NotRegistered)
      else Ok(StateBody(server.started, server.finished))
    }

    /** `procesarEsperando`. */
    function WaitingReply(): (r: Reply)
      reads this, server
      ensures r.Forbidden? <==> player.None?
      ensures r.Ok? && StartsWith(r.body, WaitingPrefix) <==> player.Some? && !server.started
    {
      if player.None? then Forbidden(NotRegistered)
      else if server.started then
        DifferentAt("ESTADO:INICIADA", WaitingPrefix, 2);
        Ok("ESTADO:INICIADA")
      else
        StartsWithConcat(WaitingPrefix, Join(PlayerNames(server.players), ','));
        Ok(WaitingPrefix + Join(PlayerNames(server.players), ','))
    }

    /** `procesarObtenerRanking`. */
    method ProcessRanking() returns (reply: Reply)
      ensures player.None? ==> reply == Forbidden(NotRegistered)
      ensures player.Some? ==> reply == Ok(RankingText(Snapshot(server.players)))
    {
      if player.None? {
        return Forbidden(NotRegistered);
      }
      var text := server.Ranking();
      reply := Ok(text);
    }

    /** `procesarRespuesta`, on the trimmed body: accepted only from a bound
        player during the game, for a letter A-D, once per round. */
    method ProcessAnswer(text: String, now: int) returns (reply: Reply)
      requires Valid()
      modifies server, Bound()
      ensures Valid()
      ensures server.players == old(server.players)
      ensures server.started == old(server.started) && server.finished == old(server.finished)
      ensures server.SameConfig()
      ensures server.current == old(server.current) && server.roundNumber == old(server.roundNumber)
      ensures server.nextRequested == old(server.nextRequested)
      ensures player.None? ==> reply == Forbidden(NotRegistered)
      ensures player.Some? && (!server.started || server.finished) ==>
        reply == BadRequest("La partida no esta en curso.")
      ensures player.Some? && server.started && !server.finished && text == [] ==>
        reply == BadRequest("Respuesta vacia.")
      ensures player.Some? && server.started && !server.finished && text != [] && UpperChar(text[0]) !in "ABCD" ==>
        reply == BadRequest("Respuesta invalida. Debe ser A, B, C o D.")
      ensures (player.Some? && server.started && !server.finished && text != [] && UpperChar(text[0]) in "ABCD"
               && old(player.value.answered)) ==>
        reply == BadRequest("Ya has respondido a esta pregunta.")
      ensures reply.Ok? <==>
        (player.Some? && server.started && !server.finished && text != [] && UpperChar(text[0]) in "ABCD"
         && !old(player.value.answered))
      ensures reply.Ok? ==>
        && reply == Ok("RESPUESTA_OK:" + [UpperChar(text[0])])
        && player.value.answer == UpperChar(text[0]) && player.value.answerTime == now && player.value.answered
        && server.arrivals == old(server.arrivals) + [player.value]
        && server.received == old(server.received) + 1
      ensures !reply.Ok? ==>
        && server.arrivals == old(server.arrivals) && server.received == old(server.received)
        && (player.Some? ==> player.value.answer == old(player.value.answer))
      ensures player.Some? ==> player.value.score == old(player.value.score)
      ensures reply == old(AnswerReply(text)) && AnswerEffect(text, now)
    {
      if player.None? {
        return Forbidden(NotRegistered);
      }
      if !server.started || server.finished {
        return BadRequest("La partida no esta en curso.");
      }
      if text == [] {
        return BadRequest("Respuesta vacia.");
      }
      var letter := UpperChar(text[0]);
      if letter != 'A' && letter != 'B' && letter != 'C' && letter != 'D' {
        return BadRequest("Respuesta invalida. Debe ser A, B, C o D.");
      }
      var p := player.value;
      var accepted := p.Respond(letter, now);
      if !accepted {
        return BadRequest("Ya has respondido a esta pregunta.");
      }
      server.RecordAnswer(p);
      reply := Ok("RESPUESTA_OK:" + [letter]);
    }

    /** The handler a route runs once its method matches; only registration
        and answers change anything. */
    method Serve(r: Route, body: String, now: int) returns (reply: Reply)
      requires Valid()
      modifies this, server, server.names, Bound()
      ensures Valid()
      ensures r == Next ==> reply == Ok("NEXT_OK")
      ensures r == GetQuestion ==> reply == old(QuestionReply())
      ensures r == GetState ==> reply == old(StateReply())
      ensures r == Waiting ==> reply == old(WaitingReply())
      ensures r == GetRanking && old(player).None? ==> reply == Forbidden(NotRegistered)
      ensures r == GetRanking && old(player).Some? ==> reply == Ok(old(RankingText(Snapshot(server.players))))
      ensures r != Register && r != Answer ==>
        && player == old(player) && connected == old(connected)
        && unchanged(server) && unchanged(server.names) && unchanged(old(Bound()))
      // registration and answers see the trimmed body
      ensures r == Register ==> reply == old(RegisterReply(Trim(body))) && RegisterEffect(Trim(body))
      ensures r == Answer ==>
        reply == old(AnswerReply(Trim(body))) && AnswerEffect(Trim(body), now) && unchanged(server.names)
      // no route moves the phase flags
      ensures server.started == old(server.started) && server.finished == old(server.finished)
    {
      match r {
        case Register =>
          reply := ProcessRegister(Trim(body));
        case GetQuestion =>
          reply := QuestionReply();
        case Answer =>
          reply := ProcessAnswer(Trim(body), now);
        case GetRanking =>
          reply := ProcessRanking();
        case GetState =>
          reply := StateReply();
        case Waiting =>
          reply := WaitingReply();
        case Next =>
          reply := Ok("NEXT_OK");
      }
    }

    /** `procesarPeticion`: an unknown path gets 404, a known one asked with
        the wrong method 400, and otherwise the route's handler answers. */
    method Process(req: Wire.Request, now: int) returns (reply: Reply)
      requires Valid()
      modifies this, server, server.names, Bound()
      ensures Valid()
      ensures RouteOf(req.path).None? ==> reply == UnknownPath(req.path)
      ensures RouteOf(req.path).Some? && req.verb != VerbOf(RouteOf(req.path).value) ==>
        reply == WrongMethod(RouteOf(req.path).value)
      ensures RouteOf(req.path) == Some(Next) && req.verb == "POST" ==> reply == Ok("NEXT_OK")
      ensures RouteOf(req.path) == Some(GetQuestion) && req.verb == "GET" ==> reply == old(QuestionReply())
      ensures RouteOf(req.path) == Some(GetState) && req.verb == "GET" ==> reply == old(StateReply())
      ensures RouteOf(req.path) == Some(Waiting) && req.verb == "GET" ==> reply == old(WaitingReply())
      ensures RouteOf(req.path) == Some(GetRanking) && req.verb == "GET" && old(player).None? ==>
        reply == Forbidden(NotRegistered)
      ensures RouteOf(req.path) == Some(GetRanking) && req.verb == "GET" && old(player).Some? ==>
        reply == Ok(old(RankingText(Snapshot(server.players))))
      // only registration and answers change anything
      ensures (!(RouteOf(req.path) == Some(Register) && req.verb == "POST")
               && !(RouteOf(req.path) == Some(Answer) && req.verb == "POST")) ==>
        && player == old(player) && connected == old(connected)
        && unchanged(server) && unchanged(server.names) && unchanged(old(Bound()))
      // registration and answers see the trimmed body
      ensures RouteOf(req.path) == Some(Register) && req.verb == "POST" ==>
        reply == old(RegisterReply(Trim(req.body))) && RegisterEffect(Trim(req.body))
      ensures RouteOf(req.path) == Some(Answer) && req.verb == "POST" ==>
        && reply == old(AnswerReply(Trim(req.body))) && AnswerEffect(Trim(req.body), now)
        && unchanged(server.names)
      // no request moves the phase flags
      ensures server.started == old(server.started) && server.finished == old(server.finished)
    {
      var route := RouteOf(req.path);
      if route.None? {
        return UnknownPath(req.path);
      }
      var r := route.value;
      if req.verb != VerbOf(r) {
        return WrongMethod(r);
      }
      reply := Serve(r, req.body, now);
    }

    /** `desconectar`: the connection closes and the bound player's name is
        released; the player stays in the server's list. */
    method Disconnect()
      modifies this, server.names
      ensures !connected && player == old(player)
      ensures old(player).Some? ==> server.names.reserved == old(server.names.reserved) - {Key(old(player).value.name)}
      ensures old(player).None? ==> server.names.reserved == old(server.names.reserved)
      ensures server.players == old(server.players)
    {
      connected := false;
      if player.Some? {
        server.names.Release(player.value.name);
      }
    }
  }

  /** Registering under a name, disconnecting, then registering again on a
      new connection under the same name is accepted: the name was released. */
  lemma {:induction false} ReleasedNameFree(reserved: set<String>, name: String)
    requires Validate(reserved, name) == None
    ensures Validate(reserved + {Key(Trim(name))} - {Key(Trim(name))}, name) == None
  {
    TrimOfTrimmed(name);
    AcceptedExactly(reserved, name);
    AcceptedExactly(reserved + {Key(Trim(name))} - {Key(Trim(name))}, name);
  }
}
