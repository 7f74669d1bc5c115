# ServerSocketblooket in Dafny

A model of the sequential core of ServerSocketblooket, a classroom quiz game
("Kahoot"-like). A Java server keeps a list of players, asks a series of
multiple-choice questions, scores the answers by arrival order and shows a
ranking. Clients talk to it over a small hand-written HTTP/1.1 dialect, and the
Kahoot client also understands a line-per-message JSON dialect and a legacy
plain-text one.

The project proves properties of:

- the name policy;
- the player and question records;
- the coordinator's round bookkeeping and its 15/10/8 scoring rule;
- the request routing of a connection;
- the HTTP codecs of both sides;
- the question file parser;
- the client's hand-rolled JSON scanner, escaping and wire-mode detection.

Modules, one file each, directly in this directory:

| file | module | Java source |
|---|---|---|
| wrappers.dfy | Wrappers | Java `null` results (as `Option`) |
| text.dfy | Text | the subset of `java.lang.String` the code uses: trim, case mapping, `indexOf`, `split`, `replace`, decimal printing and `Integer.parseInt`, UTF-8 length, `readLine` |
| names.dfy | Names | `ValidadorNombre` |
| player.dfy | Players | `Jugador` |
| question.dfy | Questions | `Pregunta` |
| game.dfy | Game | `ServidorJuego` |
| session.dfy | Session | `ManejadorCliente` |
| wire.dfy | Wire | `HttpUtil` |
| client_wire.dfy | ClientWire | `ClienteHttpUtil` |
| loader.dfy | Loader | `CargadorPreguntas` |
| kahoot.dfy | Kahoot | `ClienteKahoot` (JSON helpers, wire modes, framing) |

The form of the model follows the source:

- Objects whose fields the Java code updates are Dafny classes with `modifies` clauses:
  - the name registry (`Names.NameRegistry`);
  - `Players.Player`;
  - the coordinator (`Game.GameServer`);
  - the connection handler (`Session.ClientHandler`);
  - the Kahoot client's wire mode (`Kahoot.Client`).
- Java loops are methods with loop invariants, each proved equal to a recursive specification function.
- The properties are lemmas about those functions.
- The input stream is an explicit `seq<char>`. Parsers return what they read together with the unread rest.
- Clocks are parameters (`now`, `elapsed`).
- The shuffle is an arbitrary permutation.

## Model

| member | source | states |
|---|---|---|
| Names.Validate | servidor/src/main/java/org/hlanz/servidor/ValidadorNombre.java:46-93 | the error returned is a check that fails on the trimmed name, and every check earlier in the chain (empty, length, symbols-only, denylist, no letter, duplicate) passes; no error exactly when every check passes |
| Names.AcceptedExactly | servidor/src/main/java/org/hlanz/servidor/ValidadorNombre.java:46-93 | a name is accepted iff its trim is non-empty, at most 10 characters, contains a letter, and its lower-case form is neither denied nor reserved |
| Names.DigitsOnlyNeedLetter | servidor/src/main/java/org/hlanz/servidor/ValidadorNombre.java:66-86 | a digits-only name passes the symbols-only check and is rejected by the letter check |
| Names.ReservedInAnyCase | servidor/src/main/java/org/hlanz/servidor/ValidadorNombre.java:71-74 | after an accepted name is reserved, any spelling with the same trimmed lower-case form is reported as in use |
| Names.SameKeySameClass | servidor/src/main/java/org/hlanz/servidor/ValidadorNombre.java:77-86 | names equal up to case have letters and letters-or-digits in the same places, so the letter and symbols-only checks agree on them |
| Names.AdminRefused | servidor/src/main/java/org/hlanz/servidor/ValidadorNombre.java:24-34 | "Admin" is refused by the denylist |
| Names.AnaInUse | servidor/src/main/java/org/hlanz/servidor/ValidadorNombre.java:89-91 | after reserving "Ana", "ANA" is reported as in use |
| Names.ForbiddenLetterFirst | servidor/src/main/java/org/hlanz/servidor/ValidadorNombre.java:24-34 | every denied name starts with a letter |
| Names.LowerKeepsClass | servidor/src/main/java/org/hlanz/servidor/ValidadorNombre.java:71 | lower-casing a character does not change whether it is a letter or a letter-or-digit |
| Names.SuffixedInjective | servidor/src/main/java/org/hlanz/servidor/ValidadorNombre.java:120-123 | different suffixes give different automatic names |
| Names.AutoNameUnique | servidor/src/main/java/org/hlanz/servidor/ValidadorNombre.java:114-124 | at most one name is free and is "juan", or "juan"+k with every smaller suffix from 2 taken |
| Names.AutoNameMeetsIsAutoName | servidor/src/main/java/org/hlanz/servidor/ValidadorNombre.java:114-124 | the computed automatic name is free: "juan" when free, else "juan"+k for the smallest free k >= 2 |
| Names.IsAutoNameExactly | servidor/src/main/java/org/hlanz/servidor/ValidadorNombre.java:114-124 | a name meets that description iff it is the computed automatic name |
| Names.TakenBetweenAll | servidor/src/main/java/org/hlanz/servidor/ValidadorNombre.java:120-122 | when every suffix in a range is taken, each one in it is reserved |
| Names.TakenExtend | servidor/src/main/java/org/hlanz/servidor/ValidadorNombre.java:120-122 | one more taken suffix extends the taken range by one |
| Names.SuffixedRangeAbove | servidor/src/main/java/org/hlanz/servidor/ValidadorNombre.java:120-122 | a suffix below a range does not name any member of it |
| Names.TakenCount | servidor/src/main/java/org/hlanz/servidor/ValidadorNombre.java:120-122 | a taken range of suffixes names exactly that many distinct reserved names |
| Names.TakenBound | servidor/src/main/java/org/hlanz/servidor/ValidadorNombre.java:120-122 | the suffix loop cannot pass the number of reserved names plus 2, so it ends |
| Names.FreeFromFree | servidor/src/main/java/org/hlanz/servidor/ValidadorNombre.java:119-123 | the first free suffix from k on is at least k, is free, and all suffixes before it are taken |
| Names.NameRegistry.Register | servidor/src/main/java/org/hlanz/servidor/ValidadorNombre.java:99-101 | the reserved set gains exactly the trimmed lower-case name |
| Names.NameRegistry.Release | servidor/src/main/java/org/hlanz/servidor/ValidadorNombre.java:106-108 | the reserved set loses exactly the trimmed lower-case name |
| Names.NameRegistry.GenerateAutomaticName | servidor/src/main/java/org/hlanz/servidor/ValidadorNombre.java:114-124 | returns the automatic name of the current set and changes nothing |
| Names.NameRegistry.constructor | servidor/src/main/java/org/hlanz/servidor/ValidadorNombre.java:39-41 | no name is reserved |
| Players.Player.constructor | servidor/src/main/java/org/hlanz/servidor/Jugador.java:15-19 | the given name, score 0 and an empty answer slot |
| Players.Player.AddPoints | servidor/src/main/java/org/hlanz/servidor/Jugador.java:29-31 | the score grows by exactly the points and the answer slot is untouched |
| Players.Player.Respond | servidor/src/main/java/org/hlanz/servidor/Jugador.java:48-56 | accepted iff not yet answered; when accepted, the upper-cased letter and time are stored; when refused, nothing changes; the score never changes |
| Players.Player.ResetAnswer | servidor/src/main/java/org/hlanz/servidor/Jugador.java:61-65 | the answer slot is empty and the score is kept |
| Players.Player.CompareTo | servidor/src/main/java/org/hlanz/servidor/Jugador.java:68-71 | negative iff this player has the higher score, zero iff the scores are equal, positive iff lower |
| Players.CompareAntisymmetric | servidor/src/main/java/org/hlanz/servidor/Jugador.java:68-71 | the comparison is antisymmetric |
| Players.CompareTransitive | servidor/src/main/java/org/hlanz/servidor/Jugador.java:68-71 | the comparison is transitive |
| Players.RespondTwice | servidor/src/main/java/org/hlanz/servidor/Jugador.java:48-56 | of two answers before a reset the first is accepted and kept, the second refused |
| Players.Player.ToString | servidor/src/main/java/org/hlanz/servidor/Jugador.java:74-76 | `toString`: the name, " - ", the decimal score, " pts" |
| Questions.NewQuestion | servidor/src/main/java/org/hlanz/servidor/Pregunta.java:15-22 | every field is kept as given except the letter, which is stored upper-cased |
| Questions.NewQuestionLetter | servidor/src/main/java/org/hlanz/servidor/Pregunta.java:21 | the stored letter is one of A-D iff the given one is one of A-D or a-d |
| Questions.HttpBodyLines | servidor/src/main/java/org/hlanz/servidor/Pregunta.java:51-59 | with single-line fields the body cut at '\n' is the "PREGUNTA: " line and the four options, every line terminated |
| Questions.ToStringShape | servidor/src/main/java/org/hlanz/servidor/Pregunta.java:62-64 | the text is the statement, " [", the letter and "]" |
| Questions.Question.HttpBody | servidor/src/main/java/org/hlanz/servidor/Pregunta.java:51-59 | `toHttpBody`: "PREGUNTA: " and the statement, then the four options, each followed by a line feed |
| Questions.Question.ToString | servidor/src/main/java/org/hlanz/servidor/Pregunta.java:62-64 | `toString`: the statement, " [", the answer letter, "]" |
| Game.ConfiguredSeconds | servidor/src/main/java/org/hlanz/servidor/ServidorJuego.java:136-145 | a positive number on the line is kept; anything else gives 30 |
| Game.ConfiguredCount | servidor/src/main/java/org/hlanz/servidor/ServidorJuego.java:149-158 | a number in 1..pool size is kept; anything else gives the pool size |
| Game.Award | servidor/src/main/java/org/hlanz/servidor/ServidorJuego.java:449-464 | 15 exactly for the first correct answer, 8 exactly for the last of two or more, 10 otherwise |
| Game.RoundTotal | servidor/src/main/java/org/hlanz/servidor/ServidorJuego.java:445-464 | a round with k correct answers hands out 0, 15, or 23 + 10(k-2) points |
| Game.AwardPrefix | servidor/src/main/java/org/hlanz/servidor/ServidorJuego.java:449-462 | the first n of k >= 2 correct answers collect 15 + 10(n-1) |
| Game.Winners | servidor/src/main/java/org/hlanz/servidor/ServidorJuego.java:436-443 | exactly the arrivals whose stored answer is the correct letter |
| Game.EarnedAbsent | servidor/src/main/java/org/hlanz/servidor/ServidorJuego.java:445-464 | a player who is not among the correct answers earns nothing |
| Game.EarnedOnce | servidor/src/main/java/org/hlanz/servidor/ServidorJuego.java:449-464 | with no player twice in the arrival order, the winner at position i earns exactly the award of i |
| Game.Snapshot | servidor/src/main/java/org/hlanz/servidor/ServidorJuego.java:491 | each player's name and score, in list order |
| Game.RankOrderSorted | servidor/src/main/java/org/hlanz/servidor/ServidorJuego.java:491-492 | the ranking is in non-increasing score order and is a permutation of the players |
| Game.RankOrderStable | servidor/src/main/java/org/hlanz/servidor/ServidorJuego.java:492 | players with equal scores keep list order (the sort is stable) |
| Game.InsertMultiset | servidor/src/main/java/org/hlanz/servidor/ServidorJuego.java:492 | an insertion step adds exactly the inserted entry |
| Game.InsertSorted | servidor/src/main/java/org/hlanz/servidor/ServidorJuego.java:492 | an insertion step keeps the order non-increasing |
| Game.InsertStable | servidor/src/main/java/org/hlanz/servidor/ServidorJuego.java:492 | an insertion step puts the entry after those with its score |
| Game.RankingLines | servidor/src/main/java/org/hlanz/servidor/ServidorJuego.java:494-501 | with line-free names the ranking is the top banner, one "  #i  name  score pts" line per player best first, and the bottom banner |
| Game.RankingTextShape | servidor/src/main/java/org/hlanz/servidor/ServidorJuego.java:494-501 | the ranking is those lines, each ended by '\n' |
| Game.RankBodyNoBreak | servidor/src/main/java/org/hlanz/servidor/ServidorJuego.java:498 | a ranking line has no line break when the name has none |
| Game.FormatRanking | servidor/src/main/java/org/hlanz/servidor/ServidorJuego.java:494-501 | the `StringBuilder` loop yields the ranking text |
| Game.PlayerListNames | servidor/src/main/java/org/hlanz/servidor/ServidorJuego.java:507-514 | the list is "" without players; otherwise it cuts back at its commas into the names, and has no leading or trailing comma |
| Game.GameServer.constructor | servidor/src/main/java/org/hlanz/servidor/ServidorJuego.java:32-54 | the initial state: no players, no round, both phase flags false |
| Game.GameServer.SelectQuestions | servidor/src/main/java/org/hlanz/servidor/ServidorJuego.java:419-423 | min(count, pool size) questions taken from the pool |
| Game.GameServer.Configure | servidor/src/main/java/org/hlanz/servidor/ServidorJuego.java:136-161 | time and count follow the default rules, and that many questions are selected |
| Game.GameServer.RegisterPlayer | servidor/src/main/java/org/hlanz/servidor/ServidorJuego.java:518-520 | the player is appended and nothing else changes |
| Game.GameServer.RecordAnswer | servidor/src/main/java/org/hlanz/servidor/ServidorJuego.java:522-527 | the counter grows by one, the player is appended to the arrival order, and the counter stays equal to the list length; an answer never reopens a round, and the answer that brings the count to the number of players ends it whatever the time |
| Game.GameServer.Start | servidor/src/main/java/org/hlanz/servidor/ServidorJuego.java:211-235 | starting succeeds iff some player has joined, and the started flag never reverts |
| Game.GameServer.RequestNext | servidor/src/main/java/org/hlanz/servidor/ServidorJuego.java:238-245 | the NEXT flag is set, so the round is over at any elapsed time, and nothing else changes |
| Game.GameServer.StartRound | servidor/src/main/java/org/hlanz/servidor/ServidorJuego.java:251-262 | the round number is i+1, the question is round i's, NEXT is cleared, the bookkeeping is empty and every player's slot is cleared with the score kept; with players present the new round is over exactly once the deadline has passed |
| Game.GameServer.CorrectAnswers | servidor/src/main/java/org/hlanz/servidor/ServidorJuego.java:436-443 | the filter loop yields the correct arrivals in order |
| Game.GameServer.ScoreRound | servidor/src/main/java/org/hlanz/servidor/ServidorJuego.java:432-465 | every player's score grows by the awards of their positions among the correct answers, and answers are untouched |
| Game.GameServer.Finish | servidor/src/main/java/org/hlanz/servidor/ServidorJuego.java:324-325 | the game is finished with no current question |
| Game.GameServer.Ranking | servidor/src/main/java/org/hlanz/servidor/ServidorJuego.java:490-502 | the ranking text of the current players |
| Game.GameServer.PlayerList | servidor/src/main/java/org/hlanz/servidor/ServidorJuego.java:507-514 | the names joined by commas, in list order |
| Game.GameServer.RoundOver | servidor/src/main/java/org/hlanz/servidor/ServidorJuego.java:280-296 | the exit test of the waiting loop: elapsed time at least the round length, answers at least the player count, or NEXT requested |
| Game.RoundOverLater | servidor/src/main/java/org/hlanz/servidor/ServidorJuego.java:280-296 | once the waiting loop may exit, it may exit at any later time too |
| Game.RoundEndsEarlyExactly | servidor/src/main/java/org/hlanz/servidor/ServidorJuego.java:280-296 | before the deadline and without NEXT, with each listed player answering at most once, the round is over exactly when every listed player has answered |
| Game.CommaNameAmbiguous | servidor/src/main/java/org/hlanz/servidor/ServidorJuego.java:507-514 | counterexample: the validator accepts "ana,bob", and the list of that one player equals the list of the two players "ana" and "bob" |
| Session.RenderRoundTrip | servidor/src/main/java/org/hlanz/servidor/HttpUtil.java:131-154 | every handler reply, framed by its wrapper, is read back by the client with its code, reason and body (for a body whose UTF-8 size is its length), and counts as a success iff it is a 200 |
| Session.ReasonNoBreak | servidor/src/main/java/org/hlanz/servidor/HttpUtil.java:131-154 | the four reason phrases hold no line break |
| Session.RouteOfPath | servidor/src/main/java/org/hlanz/servidor/ManejadorCliente.java:91-136 | the switch knows exactly the seven paths, one route each |
| Session.Render | servidor/src/main/java/org/hlanz/servidor/HttpUtil.java:131-154 | the reply framed by the wrapper of its status: 200 "OK", 400 "Bad Request", 403 "Forbidden", 404 "Not Found" |
| Session.RouteOf | servidor/src/main/java/org/hlanz/servidor/ManejadorCliente.java:91-136 | the `switch` on the path: the route of each of the seven paths, none for any other |
| Session.QuestionBodyPrefix | servidor/src/main/java/org/hlanz/servidor/ManejadorCliente.java:188-191 | a question reply starts with "PREGUNTA:" |
| Session.QuestionBodyLines | servidor/src/main/java/org/hlanz/servidor/ManejadorCliente.java:188-191 | with single-line fields a question reply cuts into the "PREGUNTA:n/total" line, the statement line and the four options |
| Session.HeaderNoBreak | servidor/src/main/java/org/hlanz/servidor/ManejadorCliente.java:190 | the "PREGUNTA:n/total" line holds no line break |
| Session.IntNoBreak | servidor/src/main/java/org/hlanz/servidor/ManejadorCliente.java:190 | a printed `int` holds no line break |
| Session.WaitingNames | servidor/src/main/java/org/hlanz/servidor/ManejadorCliente.java:268 | the lobby reply is "ESPERANDO:" followed by a list that cuts back into every name, in joining order |
| Session.ClientHandler.constructor | servidor/src/main/java/org/hlanz/servidor/ManejadorCliente.java:29-34 | connected, with no player bound |
| Session.ClientHandler.Bind | servidor/src/main/java/org/hlanz/servidor/ManejadorCliente.java:159-161 | a new player with score 0 is bound and listed, and its name is reserved |
| Session.ClientHandler.AutoRegister | servidor/src/main/java/org/hlanz/servidor/ManejadorCliente.java:76-82 | the bound player carries the automatic name of the reserved set as it was, that name is reserved, and the player is appended to the list |
| Session.ClientHandler.RegisteredName | servidor/src/main/java/org/hlanz/servidor/ManejadorCliente.java:142-165 | the name `procesarRegistro` binds: none when bound or refused, the automatic name for an empty one, else the trimmed name |
| Session.ClientHandler.RegisterReply | servidor/src/main/java/org/hlanz/servidor/ManejadorCliente.java:142-165 | the reply of `procesarRegistro`, by the precedence bound, empty, refused, accepted |
| Session.ClientHandler.RegisterEffect | servidor/src/main/java/org/hlanz/servidor/ManejadorCliente.java:142-165 | a new player with score 0 under the registered name is bound, reserved and appended, or nothing changes; phase, configuration and round untouched |
| Session.ClientHandler.AnswerReply | servidor/src/main/java/org/hlanz/servidor/ManejadorCliente.java:197-227 | the reply of `procesarRespuesta`, by the precedence unbound, not running, empty, invalid letter, already answered, accepted |
| Session.ClientHandler.AnswerEffect | servidor/src/main/java/org/hlanz/servidor/ManejadorCliente.java:197-227 | an accepted answer is stored with its time and appended once; a refused one changes nothing; players, phase, round and scores untouched |
| Session.ClientHandler.ProcessRegister | servidor/src/main/java/org/hlanz/servidor/ManejadorCliente.java:142-165 | already bound: 400 and nothing changes; empty name: auto-registration; refused name: 403 with the validator's message and nothing changes; accepted name: 200 "REGISTRO_OK:<trimmed name>", bound, reserved and listed; reply and new state are `RegisterReply` and `RegisterEffect` of the old state |
| Session.ClientHandler.QuestionReply | servidor/src/main/java/org/hlanz/servidor/ManejadorCliente.java:170-192 | 403 iff unbound; a "PREGUNTA:" body iff bound, started, not finished and a question is up (otherwise the waiting, finished or no-question sentinel) |
| Session.ClientHandler.StateReply | servidor/src/main/java/org/hlanz/servidor/ManejadorCliente.java:242-254 | 403 iff unbound; TERMINADA iff finished, EN_CURSO iff started and not finished, ESPERANDO iff neither |
| Session.ClientHandler.WaitingReply | servidor/src/main/java/org/hlanz/servidor/ManejadorCliente.java:259-269 | 403 iff unbound; an "ESPERANDO:" list iff bound and not started (otherwise "ESTADO:INICIADA") |
| Session.ClientHandler.ProcessRanking | servidor/src/main/java/org/hlanz/servidor/ManejadorCliente.java:232-237 | 403 when unbound, otherwise 200 with the ranking text |
| Session.ClientHandler.ProcessAnswer | servidor/src/main/java/org/hlanz/servidor/ManejadorCliente.java:197-227 | 403 when unbound; 400 with the matching message when the game is not running, the answer is empty, its upper-cased first character is not A-D, or the player already answered, and then score, answer and arrival order are unchanged; otherwise 200 "RESPUESTA_OK:X", the letter stored and the player appended once; reply and new state are `AnswerReply` and `AnswerEffect` of the old state |
| Session.ClientHandler.Serve | servidor/src/main/java/org/hlanz/servidor/ManejadorCliente.java:91-136 | each route runs its handler; registration and answers get the trimmed body and their reply and new state are those of `RegisterReply`/`RegisterEffect` and `AnswerReply`/`AnswerEffect`; NEXT always gives 200 "NEXT_OK"; other routes change nothing; no route moves the phase flags |
| Session.ClientHandler.Process | servidor/src/main/java/org/hlanz/servidor/ManejadorCliente.java:87-137 | unknown path: 404 "Ruta no encontrada: <path>"; known path with the wrong method: 400 "Metodo no permitido. Use <method>."; POST /registro and POST /respuesta act on the trimmed body as `RegisterReply`/`RegisterEffect` and `AnswerReply`/`AnswerEffect` say; POST /next: 200 "NEXT_OK" and no flag set; the read-only routes answer from the state unchanged; the phase flags never move |
| Session.ClientHandler.Disconnect | servidor/src/main/java/org/hlanz/servidor/ManejadorCliente.java:289-294 | disconnected, the bound player's name released, the player list untouched |
| Session.ReleasedNameFree | servidor/src/main/java/org/hlanz/servidor/ManejadorCliente.java:289-294 | an accepted name that was reserved and then released is accepted again |
| Wire.ReadHeaders | servidor/src/main/java/org/hlanz/servidor/HttpUtil.java:96-106 | the header loop consumes a suffix-preserving prefix of the input and stops at the first empty line or at the end of input |
| Wire.HeadersNormal | servidor/src/main/java/org/hlanz/servidor/HttpUtil.java:99-105 | every stored header name is trimmed and lower case and every stored value is trimmed, whatever lines arrive |
| Wire.ReadBody | servidor/src/main/java/org/hlanz/servidor/HttpUtil.java:108-121 | no Content-Length: empty body, nothing consumed; a value `parseInt` refuses or a negative one escapes as an exception (exactly then); otherwise exactly min(declared, remaining) characters are taken and body + rest is the input |
| Wire.ParseRequest | servidor/src/main/java/org/hlanz/servidor/HttpUtil.java:79-124 | `null` exactly for a missing or empty request line or one with fewer than two space-separated fields; a parsed request never grows the input |
| Wire.ParseResponse | servidor/src/main/java/org/hlanz/servidor/HttpUtil.java:216-262 | `null` exactly for a missing or empty status line or fewer than two fields; a parsed response never grows the input |
| Wire.ReceiveHeaders | servidor/src/main/java/org/hlanz/servidor/HttpUtil.java:96-106 | the `readLine` loop yields exactly the headers and remaining input of the header specification |
| Wire.ReceiveBody | servidor/src/main/java/org/hlanz/servidor/HttpUtil.java:108-121 | filling a `char[]` of the declared length with reads of any positive size yields exactly the body specification |
| Wire.ReceiveRequest | servidor/src/main/java/org/hlanz/servidor/HttpUtil.java:79-124 | the stream reader gives exactly `ParseRequest` of the input |
| Wire.ReceiveResponse | servidor/src/main/java/org/hlanz/servidor/HttpUtil.java:216-262 | the stream reader gives exactly the server's `ParseResponse` of the input |
| Wire.ReadHeaderBlock | servidor/src/main/java/org/hlanz/servidor/HttpUtil.java:167-172 | a block of well-formed built header lines and the empty line after it are read into the map the fields describe, later fields winning, and nothing further is consumed |
| Wire.StatusLineParts | servidor/src/main/java/org/hlanz/servidor/HttpUtil.java:168 | a built status line splits (limit 3) back into version, code and the whole reason |
| Wire.RequestLineParts | servidor/src/main/java/org/hlanz/servidor/HttpUtil.java:184 | a built request line with a space-free path splits back into method, path and version |
| Wire.ResponseFraming | servidor/src/main/java/org/hlanz/servidor/HttpUtil.java:159-175 | parsing a built response recovers code and reason, and takes as many characters as the body has UTF-8 bytes from the body and what follows |
| Wire.ResponseRoundTrip | servidor/src/main/java/org/hlanz/servidor/HttpUtil.java:159-175 | a response whose body has as many characters as UTF-8 bytes parses back to its code, reason and body, leaving the next message unread |
| Wire.MultibyteBodyOverreads | servidor/src/main/java/org/hlanz/servidor/HttpUtil.java:170 | counterexample: the body "ñ" declares 2 bytes, so the reader takes "ñX", swallowing the first character of the next message |
| Wire.PostFraming | servidor/src/main/java/org/hlanz/servidor/HttpUtil.java:194-211 | parsing a built POST recovers method, path and the four header fields, taking as many body characters as UTF-8 bytes |
| Wire.PostRoundTrip | servidor/src/main/java/org/hlanz/servidor/HttpUtil.java:194-211 | a built POST with a single-byte-per-character body parses back to POST, its path and its body, leaving the rest unread |
| Wire.GetRoundTrip | servidor/src/main/java/org/hlanz/servidor/HttpUtil.java:182-189 | a built GET parses back to GET, its path, header fields host and connection, an empty body, and nothing consumed past its empty line |
| Wire.GetHeaderIgnoresCase | servidor/src/main/java/org/hlanz/servidor/HttpUtil.java:45-47 | `getHeader` gives the same value for names that agree up to case |
| Wire.DeclaredLength | servidor/src/main/java/org/hlanz/servidor/HttpUtil.java:112 | the Content-Length a builder writes parses back to that number |
| Wire.GetHeader | servidor/src/main/java/org/hlanz/servidor/HttpUtil.java:45-47 | the value stored under the lower-cased name, or "" when absent |
| Wire.BuildResponse | servidor/src/main/java/org/hlanz/servidor/HttpUtil.java:159-175 | status line, Content-Type text/plain with UTF-8, Content-Length as the UTF-8 byte count of the body, Connection keep-alive, an empty line, the body |
| Wire.BuildOk | servidor/src/main/java/org/hlanz/servidor/HttpUtil.java:131-133 | `BuildResponse` with 200 "OK" |
| Wire.BuildBadRequest | servidor/src/main/java/org/hlanz/servidor/HttpUtil.java:138-140 | `BuildResponse` with 400 "Bad Request" |
| Wire.BuildForbidden | servidor/src/main/java/org/hlanz/servidor/HttpUtil.java:145-147 | `BuildResponse` with 403 "Forbidden" |
| Wire.BuildNotFound | servidor/src/main/java/org/hlanz/servidor/HttpUtil.java:152-154 | `BuildResponse` with 404 "Not Found" |
| Wire.BuildGet | servidor/src/main/java/org/hlanz/servidor/HttpUtil.java:182-189 | a GET request line, Host localhost, Connection keep-alive, an empty line, no body |
| Wire.BuildPost | servidor/src/main/java/org/hlanz/servidor/HttpUtil.java:194-211 | a POST request line, Host localhost, Content-Type, Content-Length as the UTF-8 byte count of the body, Connection keep-alive, an empty line, the body |
| ClientWire.ParseResponse | cliente/src/main/java/org/hlanz/cliente/ClienteHttpUtil.java:73-121 | `null` exactly for a missing or empty status line, fewer than two fields, or a status code `parseInt` refuses; a parsed response never grows the input |
| ClientWire.ReceiveResponse | cliente/src/main/java/org/hlanz/cliente/ClienteHttpUtil.java:73-121 | the stream reader gives exactly the client's `ParseResponse` of the input |
| ClientWire.AgreesWithServer | cliente/src/main/java/org/hlanz/cliente/ClienteHttpUtil.java:85-90 | the client's parser agrees with the server's except on an unparsable status code, where the client gives `null` and the server throws |
| ClientWire.ResponseRoundTrip | cliente/src/main/java/org/hlanz/cliente/ClienteHttpUtil.java:73-121 | the client reads back any response the server builds with a single-byte-per-character body, leaving the rest unread |
| ClientWire.BuiltSuccess | cliente/src/main/java/org/hlanz/cliente/ClienteHttpUtil.java:31-33 | of the server's four canned responses only the 200 one counts as success |
| ClientWire.PostReachesServer | cliente/src/main/java/org/hlanz/cliente/ClienteHttpUtil.java:51-68 | a POST the client builds parses on the server to POST, its path, its Host and its body, leaving the rest unread, for single-byte-per-character bodies |
| ClientWire.GetReachesServer | cliente/src/main/java/org/hlanz/cliente/ClienteHttpUtil.java:39-46 | a GET the client builds parses on the server to GET, its path, its Host and an empty body, consuming nothing after it |
| ClientWire.BuildGet | cliente/src/main/java/org/hlanz/cliente/ClienteHttpUtil.java:39-46 | a GET request line, the given Host, Connection keep-alive, an empty line; no Content-Length and no body |
| ClientWire.BuildPost | cliente/src/main/java/org/hlanz/cliente/ClienteHttpUtil.java:51-68 | a POST request line, the given Host, Content-Type, Content-Length as the UTF-8 byte count of the body, Connection keep-alive, an empty line, then the body last |
| ClientWire.IsSuccess | cliente/src/main/java/org/hlanz/cliente/ClienteHttpUtil.java:31-33 | `esExitosa`: a status code from 200 to 299 |
| Loader.ParseLine | servidor/src/main/java/org/hlanz/servidor/CargadorPreguntas.java:148-175 | a line that parses always carries an answer letter A-D |
| Loader.ParseFields | servidor/src/main/java/org/hlanz/servidor/CargadorPreguntas.java:152-170 | fields that parse always carry an answer letter A-D |
| Loader.FieldsRoundTrip | servidor/src/main/java/org/hlanz/servidor/CargadorPreguntas.java:152-170 | the six fields of a question whose texts are trimmed and free of ';' parse back to that question, whatever fields trail them |
| Loader.RecordRoundTrip | servidor/src/main/java/org/hlanz/servidor/CargadorPreguntas.java:148-175 | a question written as a ';'-separated record parses back to the same question |
| Loader.ExtraFieldIgnored | servidor/src/main/java/org/hlanz/servidor/CargadorPreguntas.java:152-170 | a seventh field after a record does not change the question read |
| Loader.EmptyAnswerFieldRejected | servidor/src/main/java/org/hlanz/servidor/CargadorPreguntas.java:152-156 | five fields and an empty sixth ("a;b;c;d;e;") are rejected, because `split` drops trailing empty fields |
| Loader.LowerCaseAnswer | servidor/src/main/java/org/hlanz/servidor/CargadorPreguntas.java:163 | a lower-case answer letter is stored as its capital |
| Loader.LowerCaseField | servidor/src/main/java/org/hlanz/servidor/CargadorPreguntas.java:163 | the same at the level of fields: a lower-case sixth field gives the question with the capital letter |
| Loader.Load | servidor/src/main/java/org/hlanz/servidor/CargadorPreguntas.java:20-39 | the line loop of `cargarDesdeLocal` returns exactly the questions of the lines after the first, in order |
| Loader.KeptAppend | servidor/src/main/java/org/hlanz/servidor/CargadorPreguntas.java:31-34 | keeping the parsed lines respects order across concatenation |
| Loader.KeptMembers | servidor/src/main/java/org/hlanz/servidor/CargadorPreguntas.java:31-34 | a question is kept exactly when some line's result holds it |
| Loader.LoadedMembers | servidor/src/main/java/org/hlanz/servidor/CargadorPreguntas.java:20-39 | a question is loaded exactly when some line after the header parses to it |
| Loader.LoadedAppend | servidor/src/main/java/org/hlanz/servidor/CargadorPreguntas.java:20-39 | lines appended to a file add their questions after the file's own |
| Loader.HeaderIgnored | servidor/src/main/java/org/hlanz/servidor/CargadorPreguntas.java:27-30 | the first line never contributes, whatever it holds |
| Loader.LoadedFrom | servidor/src/main/java/org/hlanz/servidor/CargadorPreguntas.java:31-34 | every line after the header that parses contributes its question |
| Loader.WrapInt | servidor/src/main/java/org/hlanz/servidor/CargadorPreguntas.java:96 | Java `int` arithmetic: the result is in range and equals the exact value when that is in range |
| Loader.ReadPassive | servidor/src/main/java/org/hlanz/servidor/CargadorPreguntas.java:88-96 | a PASV reply lacking '(' or ')' is reported as unexpected, exactly then |
| Loader.PassiveRoundTrip | servidor/src/main/java/org/hlanz/servidor/CargadorPreguntas.java:88-96 | a reply carrying "(h1,h2,h3,h4,p1,p2)" gives host "h1.h2.h3.h4" and port p1 * 256 + p2 in `int` arithmetic |
| Loader.PassivePort | servidor/src/main/java/org/hlanz/servidor/CargadorPreguntas.java:88-96 | for octet fields the port is the 16-bit value whose high and low bytes are p1 and p2 |
| Loader.ClosedBeforeOpened | servidor/src/main/java/org/hlanz/servidor/CargadorPreguntas.java:89-94 | a ')' before the first '(' makes `substring` throw |
| Kahoot.EscapeJson | cliente/src/main/java/org/hlanz/cliente/ClienteKahoot.java:454-463 | `escapeJson`: backslash, quote, CR and LF replaced in that order over the whole text |
| Kahoot.UnescapeJson | cliente/src/main/java/org/hlanz/cliente/ClienteKahoot.java:465-474 | `unescapeJson`: the escapes of LF, CR, quote and backslash replaced back in that order |
| Kahoot.EscapeIsEachChar | cliente/src/main/java/org/hlanz/cliente/ClienteKahoot.java:454-463 | the chain of four `replace` calls escapes each character on its own: backslash, quote, CR and LF become two-character escapes, and no later replacement rewrites an earlier one's output |
| Kahoot.EscapeNoBreak | cliente/src/main/java/org/hlanz/cliente/ClienteKahoot.java:454-463 | escaped text holds no line break, so it fits on one line of the JSON dialect |
| Kahoot.UnescapeEscaped | cliente/src/main/java/org/hlanz/cliente/ClienteKahoot.java:465-474 | unescaping the escape of any character but backslash gives the character back and leaves the following text to be unescaped on its own |
| Kahoot.EscapeRoundTrip | cliente/src/main/java/org/hlanz/cliente/ClienteKahoot.java:454-474 | unescaping escaped text without backslashes gives the text back |
| Kahoot.BackslashBreaksRoundTrip | cliente/src/main/java/org/hlanz/cliente/ClienteKahoot.java:465-474 | counterexample: the text backslash-n escapes to backslash-backslash-n, which unescapes to a backslash and a line feed, not to the original |
| Kahoot.KeyColon | cliente/src/main/java/org/hlanz/cliente/ClienteKahoot.java:349-357 | the position found is -1 or a ':' inside the text |
| Kahoot.KeyColonAtStart | cliente/src/main/java/org/hlanz/cliente/ClienteKahoot.java:349-357 | a text that starts with the quoted key and a colon has the colon right after the key |
| Kahoot.KeyColonAfter | cliente/src/main/java/org/hlanz/cliente/ClienteKahoot.java:349-357 | after any quote-free prefix, the quoted key followed by a colon is the one found |
| Kahoot.QuoteEnd | cliente/src/main/java/org/hlanz/cliente/ClienteKahoot.java:362-375 | the scan for the closing quote stops at the first unescaped '"' or at the end of the text |
| Kahoot.StringCases | cliente/src/main/java/org/hlanz/cliente/ClienteKahoot.java:345-380 | `extraerJsonString` gives null exactly when key, colon or opening quote is missing or the closing quote never comes; otherwise the unescaped text between the opening quote and the first unescaped '"' |
| Kahoot.ExtractString | cliente/src/main/java/org/hlanz/cliente/ClienteKahoot.java:345-380 | the scanning loop over `fin` and `escape` computes exactly the extracted string |
| Kahoot.StringRoundTrip | cliente/src/main/java/org/hlanz/cliente/ClienteKahoot.java:345-380 | after any quote-free prefix, the key followed by a colon and an escaped, quoted value without backslashes gives the value back, whatever follows |
| Kahoot.NumberValue | cliente/src/main/java/org/hlanz/cliente/ClienteKahoot.java:382-407 | null when the key or colon is missing; a value found is a non-empty run of digits |
| Kahoot.NumberPlace | cliente/src/main/java/org/hlanz/cliente/ClienteKahoot.java:395-406 | the number starts after the whitespace following the colon and is the maximal run of digits there; an empty run gives null |
| Kahoot.ExtractNumber | cliente/src/main/java/org/hlanz/cliente/ClienteKahoot.java:382-407 | the two scanning loops compute exactly the extracted number |
| Kahoot.NumberRoundTrip | cliente/src/main/java/org/hlanz/cliente/ClienteKahoot.java:382-407 | a decimal written after the key and colon, followed by a non-digit or nothing, reads back as its digits, which `parseInt` maps back to the number when it fits in an `int` |
| Kahoot.ArrayValue | cliente/src/main/java/org/hlanz/cliente/ClienteKahoot.java:409-424 | empty when the key, the colon, the '[' after it or the ']' after that is missing, or when the brackets hold only trimmable characters |
| Kahoot.ExtractArray | cliente/src/main/java/org/hlanz/cliente/ClienteKahoot.java:409-452 | `extraerJsonArray` with its loop computes exactly the array specification |
| Kahoot.ScanItems | cliente/src/main/java/org/hlanz/cliente/ClienteKahoot.java:429-450 | the character loop with `enCadena`, `escape` and the buffer collects exactly the items of its specification |
| Kahoot.ArrayRoundTrip | cliente/src/main/java/org/hlanz/cliente/ClienteKahoot.java:409-452 | an array of quoted elements free of quotes, backslashes and ']' reads back as exactly those elements, in order, whatever follows it |
| Kahoot.NextMode | cliente/src/main/java/org/hlanz/cliente/ClienteKahoot.java:218-237 | a request line always switches to HTTP; otherwise an unknown mode becomes JSON on a '{' line and legacy on any other, and a known mode is kept; the mode is never unknown afterwards |
| Kahoot.ModeSettles | cliente/src/main/java/org/hlanz/cliente/ClienteKahoot.java:223-235 | after any message the mode stays known, and without request lines a known mode never changes |
| Kahoot.FirstLineDecides | cliente/src/main/java/org/hlanz/cliente/ClienteKahoot.java:227-235 | without request lines, the first line of a conversation fixes the mode: JSON when it starts with '{', legacy otherwise |
| Kahoot.EstablishedModeTags | cliente/src/main/java/org/hlanz/cliente/ClienteKahoot.java:227-236 | once the mode is known, a non-request line leaves it unchanged; a '{' line is tagged with the current mode and any other line as legacy |
| Kahoot.NonBlankLine | cliente/src/main/java/org/hlanz/cliente/ClienteKahoot.java:269-277 | a line found has non-blank trimmed text and no line break, and the input left is shorter |
| Kahoot.ReadNonBlank | cliente/src/main/java/org/hlanz/cliente/ClienteKahoot.java:269-277 | the `readLine` loop returns exactly the first non-blank line and the input after it |
| Kahoot.ParseIntOr0 | cliente/src/main/java/org/hlanz/cliente/ClienteKahoot.java:337-343 | `parseIntSeguro` gives an `int`, and 0 for any text `parseInt` refuses |
| Kahoot.HeaderLength | cliente/src/main/java/org/hlanz/cliente/ClienteKahoot.java:240-250 | the header loop consumes part of the input and hands back the rest |
| Kahoot.ReadHttp | cliente/src/main/java/org/hlanz/cliente/ClienteKahoot.java:239-266 | the body is a prefix of the input after the headers; no positive Content-Length gives an empty body; otherwise at most the declared number of characters, fewer only when the input runs out |
| Kahoot.ReadBody | cliente/src/main/java/org/hlanz/cliente/ClienteKahoot.java:251-259 | filling the `char[]` with reads of any positive size takes exactly min(max(length, 0), available) characters and leaves the rest |
| Kahoot.ReceiveHttp | cliente/src/main/java/org/hlanz/cliente/ClienteKahoot.java:239-266 | the header loop, body loop and terminator skip compute exactly `ReadHttp` |
| Kahoot.Receive | cliente/src/main/java/org/hlanz/cliente/ClienteKahoot.java:218-237 | with only blank lines left nothing is read and the mode is kept; otherwise the new mode is `NextMode` of the first non-blank line |
| Kahoot.Client.constructor | cliente/src/main/java/org/hlanz/cliente/ClienteKahoot.java:31 | a new client starts in the unknown mode |
| Kahoot.Client.ReadEntry | cliente/src/main/java/org/hlanz/cliente/ClienteKahoot.java:218-237 | `leerEntrada` returns the message and updates the mode exactly as `Receive` specifies; a known mode stays known |
| Kahoot.FrameRoundTrip | cliente/src/main/java/org/hlanz/cliente/ClienteKahoot.java:279-288 | a frame `enviarHttp` writes, read back from any mode, gives an HTTP message with exactly its body and mode HTTP, and leaves what follows unread |
| Kahoot.LengthHeaderRead | cliente/src/main/java/org/hlanz/cliente/ClienteKahoot.java:246-248 | the Content-Length line `enviarHttp` writes is read back, case-insensitively, as the body's length |
| Kahoot.FrameDeclaresChars | cliente/src/main/java/org/hlanz/cliente/ClienteKahoot.java:283 | the frame declares the body's length in characters both sides agree on, which equals its UTF-8 byte count exactly for ASCII bodies |
| Kahoot.LoneLineFeedSwallows | cliente/src/main/java/org/hlanz/cliente/ClienteKahoot.java:260-265 | after a body, one lone line feed is consumed together with the character after it, so the next message loses its first character |
| Kahoot.NonNumericLength | cliente/src/main/java/org/hlanz/cliente/ClienteKahoot.java:246-251 | a Content-Length `parseInt` refuses counts as 0: no body is read |
| Kahoot.SendLines | cliente/src/main/java/org/hlanz/cliente/ClienteKahoot.java:182-216 | outside HTTP every message is one line; in JSON it holds no line break; in legacy and unknown modes the name and answer are sent as typed |
| Kahoot.AnswerRoundTrip | cliente/src/main/java/org/hlanz/cliente/ClienteKahoot.java:194-204 | the HTTP answer frame reads back as its JSON body, whose "answer" field is the answer typed |
| Kahoot.NameRoundTrip | cliente/src/main/java/org/hlanz/cliente/ClienteKahoot.java:182-192 | the HTTP name frame reads back as its JSON body, whose "playerName" field is the name typed |
| Kahoot.ExitRoundTrip | cliente/src/main/java/org/hlanz/cliente/ClienteKahoot.java:206-216 | the HTTP exit frame reads back as the empty object |
| Kahoot.HttpFrame | cliente/src/main/java/org/hlanz/cliente/ClienteKahoot.java:279-288 | `enviarHttp`: start line, Content-Type application/json, Content-Length as the character count of the body, an empty line, the body and a final CR LF |
| Kahoot.SendName | cliente/src/main/java/org/hlanz/cliente/ClienteKahoot.java:182-192 | `enviarNombre`: an HTTP frame to /player/name, a JSON NAME line, or the name as typed, by mode |
| Kahoot.SendAnswer | cliente/src/main/java/org/hlanz/cliente/ClienteKahoot.java:194-204 | `enviarRespuesta`: an HTTP frame to /quiz/answer, a JSON ANSWER line, or the answer as typed, by mode |
| Kahoot.SendExit | cliente/src/main/java/org/hlanz/cliente/ClienteKahoot.java:206-216 | `enviarExit`: an HTTP frame to /player/exit with "{}", a JSON EXIT line, or "/salir", by mode |

## Left out

- TLS: the keystore, the `keytool` subprocess and the trust-all managers of both ends are foreign library calls and process I/O.
- Threads: the accept loop, the daemon threads and the NEXT listener thread are not modelled. The server is a single object whose methods run one at a time, so `volatile`, `AtomicInteger`, `CopyOnWriteArrayList` and `synchronized` add nothing, and the race between a round reset and a late answer is outside the model.
- Clocks: `System.currentTimeMillis` in `Jugador.responder` and in the round loop are parameters (`now`, `elapsed`). The polling loop with its sleeps is reduced to the round-exit predicate.
- Shuffle: `Collections.shuffle` is an arbitrary permutation of the pool. `Game.GameServer.SelectQuestions` promises only that min(count, pool size) questions are drawn from the pool, not which ones. It requires a count of at least 0, since `subList` throws on a negative one and the configuration step never passes one.
- Console: the `Scanner` menus of `iniciar`, `mostrarResultadosRonda`, the client user interfaces and every `println` to the console. Only the default rules for the operator's entries are kept.
- `ClienteKahoot`: the display side (`procesarJson`, `mostrarPregunta` and the other screen routines) and the socket set-up and shutdown.
- FTP: the control and data conversation of `cargarDesdeFTP` and the reading of local files. Kept are the line parser, the header-skipping loop over a sequence of lines and the passive-mode reply arithmetic.
- `ClienteJuego` is not part of this model: it is an interactive terminal loop of blocking reads and sleeps around `ClienteHttpUtil`, which is modelled.
- Streams: each parser reads from an explicit string and returns the unread rest. The characters a fresh `BufferedReader` reads ahead and then drops are not modelled.
- The `run` loop of `ManejadorCliente` (read, process, write until the client leaves) is not modelled; `Process` is one turn of it. Because `run` auto-registers every connection first, POST /registro through `run` always meets a bound player.
- Java `null`: `escapeJson(null)`, a null body in `enviarHttp` and null arguments to the extractors cannot arise, since Dafny strings are never null.
- Characters: `Character.isLetter`, `isLetterOrDigit`, `isWhitespace`, `isDigit`, the digits `Integer.parseInt` accepts and case mapping are their ASCII parts, so `parseInt` here refuses the non-ASCII decimal digits Java accepts. `CharsetEncoder.canEncode` is always true, because a Dafny `char` is a Unicode scalar value and never a lone surrogate. So the encodability check of `validar` never fires.
- Lengths: `String.length()` counts UTF-16 units, while the model counts scalar values, so a character outside the Basic Multilingual Plane counts 1 instead of 2.
- Integers: scores, the automatic name suffix and the round counters are unbounded, so their `int` overflow on absurdly long runs is not modelled. `Integer.parseInt` and the passive-port arithmetic are modelled with the `int` range and wrap-around.
- Exceptions: an exception the Java code lets escape (`NumberFormatException`, `NegativeArraySizeException`, `StringIndexOutOfBoundsException`) is a `Thrown` or `Crashed` result. The way it then ends the connection or the load is not modelled.
- Kahoot.EscapeRoundTrip: stated only for text without backslashes, because the unescape order does not undo the escape of a backslash (`Kahoot.BackslashBreaksRoundTrip` shows the input).
- Wire.ResponseRoundTrip, Wire.PostRoundTrip and ClientWire.ResponseRoundTrip: stated only for bodies with as many characters as UTF-8 bytes, because the builders declare bytes while the parsers read characters (`Wire.MultibyteBodyOverreads` shows the input).
- Kahoot.ReadHttp: a lone line feed after a body is consumed together with the character after it, as the code is written (`Kahoot.LoneLineFeedSwallows`); the intended skip of just the line feed is not modelled.
