/**
 * The question loader (CargadorPreguntas): the parser for one
 * `;`-separated record, the loop that skips the header line and keeps the
 * records that parse, and the data endpoint read from an FTP passive-mode
 * reply (reply code 227, section 4.2 of RFC 959).
 */
module Loader {
  import opened Wrappers
  import opened Text
  import opened Questions

  const Separator: char := ';'

  /** `parsearLinea`: a blank line gives none; otherwise the line's fields
      decide. */
  function ParseLine(line: String): (r: Option<Question>)
    ensures r.Some? ==> IsAnswerLetter(r.value.correct)
  {
    if Trim(line) == [] then None else ParseFields(Split(line, Separator))
  }

  /** The fields of a non-blank line: fewer than six (once trailing empty
      fields are dropped), a blank answer field (`charAt(0)` throws and the
      exception is caught) or an answer outside A-D give none; otherwise the
      first five fields trimmed and the upper-cased answer letter. Fields
      after the sixth are ignored. */
  function ParseFields(fields: seq<String>): (r: Option<Question>)
    ensures r.Some? ==> IsAnswerLetter(r.value.correct)
  {
    if |fields| < 6 then None
    else
      var answer := Trim(fields[5]);
      if answer == [] then None
      else
        var letter := UpperChar(answer[0]);
        if !IsAnswerLetter(letter) then None
        else Some(NewQuestion(Trim(fields[0]), Trim(fields[1]), Trim(fields[2]),
                              Trim(fields[3]), Trim(fields[4]), letter))
  }

  /** A question written as a record: five fields and the answer letter. */
  function Record(q: Question): String {
    Join(RecordFieldsOf(q), Separator)
  }

  function RecordFieldsOf(q: Question): seq<String> {
    [q.prompt, q.optionA, q.optionB, q.optionC, q.optionD, [q.correct]]
  }

  /** The fields a record can carry unchanged: already trimmed, no separator. */
  predicate Storable(f: String) {
    IsTrimmed(f) && Separator !in f
  }

  predicate StorableQuestion(q: Question) {
    && Storable(q.prompt) && Storable(q.optionA) && Storable(q.optionB)
    && Storable(q.optionC) && Storable(q.optionD) && IsAnswerLetter(q.correct)
  }

  /** A one-letter field that is not blank trims to itself. */
  lemma {:induction false} LetterTrimmed(c: char)
    requires !IsTrimmable(c)
    ensures Trim([c]) == [c]
  {
    TrimIdentity([c]);
  }

  /** Trimmed fields and an answer letter give back the question they came from. */
  lemma {:induction false} FieldsOf(fs: seq<String>, q: Question, letter: char)
    requires |fs| >= 6 && Trim(fs[5]) == [letter]
    requires Trim(fs[0]) == q.prompt && Trim(fs[1]) == q.optionA && Trim(fs[2]) == q.optionB
    requires Trim(fs[3]) == q.optionC && Trim(fs[4]) == q.optionD
    requires IsAnswerLetter(q.correct) && UpperChar(letter) == q.correct
    ensures ParseFields(fs) == Some(q)
  {
    var answer := Trim(fs[5]);
    assert answer[0] == letter;
    assert NewQuestion(Trim(fs[0]), Trim(fs[1]), Trim(fs[2]), Trim(fs[3]), Trim(fs[4]), q.correct) == q;
  }

  /** The fields of a storable question parse back to it, whatever trails them. */
  lemma {:induction false} FieldsRoundTrip(q: Question, rest: seq<String>)
    requires StorableQuestion(q)
    ensures ParseFields(RecordFieldsOf(q) + rest) == Some(q)
  {
    var fs := RecordFieldsOf(q) + rest;
    SixFields(q.prompt, q.optionA, q.optionB, q.optionC, q.optionD, [q.correct], rest);
    StoredFields(q);
    LetterTrimmed(q.correct);
    FieldsOf(fs, q, q.correct);
  }

  /** The five text fields of a storable question trim to themselves. */
  lemma {:induction false} StoredFields(q: Question)
    requires StorableQuestion(q)
    ensures Trim(q.prompt) == q.prompt && Trim(q.optionA) == q.optionA
    ensures Trim(q.optionB) == q.optionB && Trim(q.optionC) == q.optionC
    ensures Trim(q.optionD) == q.optionD
  {
    TrimIdentity(q.prompt);
    TrimIdentity(q.optionA);
    TrimIdentity(q.optionB);
    TrimIdentity(q.optionC);
    TrimIdentity(q.optionD);
  }

  /** A lower-case answer letter in the sixth field is stored as its capital. */
  lemma {:induction false} LowerCaseField(q: Question)
    requires StorableQuestion(q)
    ensures ParseFields(RecordFieldsOf(q)[5 := [LowerChar(q.correct)]]) == Some(q)
  {
    var lower := LowerChar(q.correct);
    var fs := RecordFieldsOf(q)[5 := [lower]];
    SixFields(q.prompt, q.optionA, q.optionB, q.optionC, q.optionD, [lower], []);
    assert fs == [q.prompt, q.optionA, q.optionB, q.optionC, q.optionD, [lower]] + [];
    StoredFields(q);
    LetterTrimmed(lower);
    FieldsOf(fs, q, lower);
  }

  lemma {:induction false} RecordFields(q: Question)
    requires StorableQuestion(q)
    ensures Split(Record(q), Separator) == RecordFieldsOf(q)
    ensures Trim(Record(q)) != []
  {
    var xs := RecordFieldsOf(q);
    SplitJoin(xs, Separator);
    JoinSnoc(xs[..5], [q.correct], Separator);
    InitLast(xs);
    var line := Record(q);
    assert line[|line| - 1] == q.correct;
    TrimEmpty(line);
  }

  /** Writing a question as a record and parsing it gives the question back. */
  lemma {:induction false} RecordRoundTrip(q: Question)
    requires StorableQuestion(q)
    ensures ParseLine(Record(q)) == Some(q)
  {
    RecordFields(q);
    FieldsRoundTrip(q, []);
    AppendEmpty(RecordFieldsOf(q));
  }

  /** A record followed by a separator and more text splits into the six
      fields and, when that text is not empty, the text. */
  lemma {:induction false} ExtraSplit(q: Question, extra: String)
    requires StorableQuestion(q) && Separator !in extra
    ensures Split(Record(q) + [Separator] + extra, Separator)
            == RecordFieldsOf(q) + (if extra == [] then [] else [extra])
  {
    var xs := RecordFieldsOf(q);
    assert xs[5] == [q.correct];
    SplitJoinExtra(xs, extra, Separator);
  }

  /** A line that starts with a record is not blank. */
  lemma {:induction false} RecordNotBlank(q: Question, tail: String)
    requires StorableQuestion(q)
    ensures Trim(Record(q) + tail) != []
  {
    var line := Record(q) + tail;
    RecordFields(q);
    assert line[..|Record(q)|] == Record(q);
    TrimEmpty(Record(q));
    TrimEmpty(line);
  }

  /** Fields after the sixth are ignored. */
  lemma {:induction false} ExtraFieldIgnored(q: Question, extra: String)
    requires StorableQuestion(q) && Separator !in extra
    ensures ParseLine(Record(q) + [Separator] + extra) == Some(q)
  {
    ExtraSplit(q, extra);
    RecordNotBlank(q, [Separator] + extra);
    AppendAssoc(Record(q), [Separator], extra);
    FieldsRoundTrip(q, if extra == [] then [] else [extra]);
  }

  /** An empty sixth field is dropped by `split`, so the line has too few
      fields: "a;b;c;d;e;" is rejected. */
  lemma {:induction false} EmptyAnswerFieldRejected(xs: seq<String>)
    requires |xs| == 5
    requires forall i :: 0 <= i < |xs| ==> Separator !in xs[i]
    ensures ParseLine(Join(xs + [[]], Separator)).None?
  {
    var ys := xs + [[]];
    var line := Join(ys, Separator);
    PiecesJoin(ys, Separator);
    JoinSnoc(xs, [], Separator);
    assert line[|Join(xs, Separator)|] == Separator;
    InitLast(ys);
    assert |Split(line, Separator)| <= 5;
  }

  /** A lower-case answer letter is stored as its capital. */
  lemma {:induction false} LowerCaseAnswer(q: Question)
    requires StorableQuestion(q)
    ensures ParseLine(Join(RecordFieldsOf(q)[5 := [LowerChar(q.correct)]], Separator)) == Some(q)
  {
    var xs := RecordFieldsOf(q)[5 := [LowerChar(q.correct)]];
    SplitJoin(xs, Separator);
    var line := Join(xs, Separator);
    JoinSnoc(xs[..5], [LowerChar(q.correct)], Separator);
    InitLast(xs);
    assert line[|line| - 1] == LowerChar(q.correct);
    TrimEmpty(line);
    LowerCaseField(q);
  }

  // ------------------------------------------------------------ loading

  /** What each line parses to. */
  function Results(lines: seq<String>): (r: seq<Option<Question>>)
    ensures |r| == |lines|
  {
    Map(ParseLine, lines)
  }

  lemma {:induction false} ResultsIndex(lines: seq<String>, i: int)
    requires 0 <= i < |lines|
    ensures Results(lines)[i] == ParseLine(lines[i])
  {
    MapIndex(ParseLine, lines, i);
  }

  /** The present values, in order. */
  function Kept<T>(xs: seq<Option<T>>): seq<T>
    decreases |xs|
  {
    if xs == [] then []
    else
      var init := Kept(xs[..|xs| - 1]);
      match xs[|xs| - 1]
      case None => init
      case Some(x) => init + [x]
  }

  /** What `cargarDesdeLocal` returns: the first line is a header, every
      other line that parses gives a question. */
  function Loaded(lines: seq<String>): seq<Question> {
    if lines == [] then [] else Kept(Results(lines)[1..])
  }

  /** The questions of the first `i` lines. */
  function LoadedUpTo(lines: seq<String>, i: nat): seq<Question>
    requires i <= |lines|
  {
    if i == 0 then [] else Kept(Results(lines)[1..i])
  }

  /** The loop of `cargarDesdeLocal` over the file's lines. */
  method Load(lines: seq<String>) returns (questions: seq<Question>)
    ensures questions == Loaded(lines)
  {
    questions := [];
    var firstLine := true;
    var i := 0;
    while i < |lines|
      invariant 0 <= i <= |lines|
      invariant firstLine <==> i == 0
      invariant questions == LoadedUpTo(lines, i)
    {
      if firstLine {
        firstLine := false;
        SkipHeader(lines);
      } else {
        var p := ParseLine(lines[i]);
        LoadStep(lines, i, questions);
        questions := Keep(questions, p);
      }
      i := i + 1;
    }
    LoadEnd(lines);
  }

  lemma {:induction false} SkipHeader(lines: seq<String>)
    requires lines != []
    ensures LoadedUpTo(lines, 1) == []
  {
    SliceEmpty(Results(lines), 1);
  }

  lemma {:induction false} LoadStep(lines: seq<String>, i: nat, acc: seq<Question>)
    requires 1 <= i < |lines| && acc == LoadedUpTo(lines, i)
    ensures LoadedUpTo(lines, i + 1)
            == Keep(acc, ParseLine(lines[i]))
  {
    KeptStep(Results(lines), i, acc);
    ResultsIndex(lines, i);
  }

  lemma {:induction false} LoadEnd(lines: seq<String>)
    ensures LoadedUpTo(lines, |lines|) == Loaded(lines)
  {
    if lines != [] {
      assert Results(lines)[1..|lines|] == Results(lines)[1..];
    }
  }

  /** `if (p != null) list.add(p)`. */
  function Keep<T>(acc: seq<T>, p: Option<T>): seq<T> {
    if p.Some? then acc + [p.value] else acc
  }

  /** The loop step of loading, on any sequence of results. */
  lemma {:induction false} KeptStep<T>(xs: seq<Option<T>>, i: nat, acc: seq<T>)
    requires 1 <= i < |xs| && acc == Kept(xs[1..i])
    ensures (if xs[i].Some? then acc + [xs[i].value] else acc) == Kept(xs[1..i + 1])
  {
    KeptSnoc(xs, 1, i + 1);
  }

  /** One more element at the end of a stretch adds its value, if any. */
  lemma {:induction false} KeptSnoc<T>(xs: seq<Option<T>>, lo: nat, hi: nat)
    requires lo < hi <= |xs|
    ensures Kept(xs[lo..hi]) == if xs[hi - 1].Some? then Kept(xs[lo..hi - 1]) + [xs[hi - 1].value]
                                else Kept(xs[lo..hi - 1])
  {
    SliceInit(xs, lo, hi);
  }

  /** Keeping the present values respects order: those of two stretches
      are those of the first stretch, then those of the second. */
  lemma {:induction false} KeptAppend<T>(a: seq<Option<T>>, b: seq<Option<T>>)
    ensures Kept(a + b) == Kept(a) + Kept(b)
    decreases |b|
  {
    if b == [] {
      AppendEmpty(a);
      AppendEmpty(Kept(a));
    } else {
      AppendInit(a, b);
      KeptAppend(a, b[..|b| - 1]);
      match b[|b| - 1] {
        case None =>
        case Some(x) => AppendAssoc(Kept(a), Kept(b[..|b| - 1]), [x]);
      }
    }
  }

  /** A value is kept exactly when it is present. */
  lemma {:induction false} KeptMembers<T>(xs: seq<Option<T>>, x: T)
    ensures x in Kept(xs) <==> Some(x) in xs
    decreases |xs|
  {
    if xs != [] {
      var init := xs[..|xs| - 1];
      KeptMembers(init, x);
      InitLast(xs);
      InSnoc(Some(x), init, xs[|xs| - 1]);
      match xs[|xs| - 1] {
        case None =>
        case Some(y) => InSnoc(x, Kept(init), y);
      }
    }
  }

  /** A line after the header that parses gives a loaded question. */
  lemma {:induction false} LoadedFrom(lines: seq<String>, q: Question, i: int)
    requires 1 <= i < |lines| && ParseLine(lines[i]) == Some(q)
    ensures q in Loaded(lines)
  {
    var rs := Results(lines)[1..];
    ResultsIndex(lines, i);
    SliceIndex(Results(lines), 1, i - 1);
    KeptMembers(rs, q);
  }

  /** A result present after the header comes from some line after it. */
  lemma {:induction false} ResultLine(lines: seq<String>, q: Question) returns (i: int)
    requires lines != [] && Some(q) in Results(lines)[1..]
    ensures 1 <= i < |lines| && ParseLine(lines[i]) == Some(q)
  {
    var j :| 0 <= j < |lines| - 1 && Results(lines)[1..][j] == Some(q);
    i := j + 1;
    SliceIndex(Results(lines), 1, j);
    ResultsIndex(lines, i);
  }

  /** Every loaded question comes from a line after the header. */
  lemma {:induction false} LoadedHas(lines: seq<String>, q: Question) returns (i: int)
    requires q in Loaded(lines)
    ensures 1 <= i < |lines| && ParseLine(lines[i]) == Some(q)
  {
    KeptMembers(Results(lines)[1..], q);
    i := ResultLine(lines, q);
  }

  /** A question is loaded exactly when some line after the header parses to it. */
  lemma {:induction false} LoadedMembers(lines: seq<String>, q: Question)
    ensures q in Loaded(lines) <==> exists i :: 1 <= i < |lines| && ParseLine(lines[i]) == Some(q)
  {
    if q in Loaded(lines) {
      var i := LoadedHas(lines, q);
    }
    if exists i :: 1 <= i < |lines| && ParseLine(lines[i]) == Some(q) {
      var i :| 1 <= i < |lines| && ParseLine(lines[i]) == Some(q);
      LoadedFrom(lines, q, i);
    }
  }

  /** Parsing lines one by one distributes over concatenation. */
  lemma {:induction false} ResultsAppend(a: seq<String>, b: seq<String>)
    ensures Results(a + b) == Results(a) + Results(b)
  {
    MapAppend(ParseLine, a, b);
  }

  /** Loading keeps file order: more lines after a file add their questions
      after the file's own. */
  lemma {:induction false} LoadedAppend(lines: seq<String>, more: seq<String>)
    requires lines != []
    ensures Loaded(lines + more) == Loaded(lines) + Kept(Results(more))
  {
    ResultsAppend(lines, more);
    SliceAppend(Results(lines), Results(more), 1);
    KeptAppend(Results(lines)[1..], Results(more));
  }

  /** The header line takes no part: any header gives the same questions. */
  lemma {:induction false} HeaderIgnored(h1: String, h2: String, rest: seq<String>)
    ensures Loaded([h1] + rest) == Loaded([h2] + rest) == Kept(Results(rest))
  {
    ResultsAppend([h1], rest);
    ResultsAppend([h2], rest);
    DropFirst(ParseLine(h1), Results(rest));
    DropFirst(ParseLine(h2), Results(rest));
  }

  // --------------------------------------------------------- passive mode

  /** Java `int` arithmetic: the value modulo 2^32, in the signed range. */
  function WrapInt(x: int): (r: int)
    ensures MinInt <= r <= MaxInt
    ensures MinInt <= x <= MaxInt ==> r == x
  {
    (x - MinInt) % 0x1_0000_0000 + MinInt
  }

  /** The data connection's host and port. */
  datatype Endpoint = Endpoint(host: String, port: int)

  /** How reading a PASV reply ends: the endpoint; the IOException for a
      missing parenthesis; or a runtime exception from `substring`, the
      array index or `parseInt`. */
  datatype Passive = Data(endpoint: Endpoint) | Unexpected | Crashed

  /** The host and port between the first '(' and the first ')': the first
      four comma-separated fields joined by '.', and the fifth times 256
      plus the sixth, in `int` arithmetic. */
  function ReadPassive(reply: String): (r: Passive)
    ensures r.Unexpected? <==> '(' !in reply || ')' !in reply
  {
    var open := IndexOf(reply, '(');
    var close := IndexOf(reply, ')');
    IndexOfNone(reply, '(');
    IndexOfNone(reply, ')');
    if open == -1 || close == -1 then Unexpected
    else if close < open + 1 then Crashed
    else
      var parts := Split(reply[open + 1..close], ',');
      if |parts| < 6 then Crashed
      else
        match (ParseInt(Trim(parts[4])), ParseInt(Trim(parts[5])))
        case (Some(high), Some(low)) =>
          Data(Endpoint(parts[0] + "." + parts[1] + "." + parts[2] + "." + parts[3],
                        WrapInt(WrapInt(high * 256) + low)))
        case _ => Crashed
  }

  /** The fields inside the parentheses of a 227 reply. */
  function PassiveFields(host: seq<String>, high: nat, low: nat): String
    requires |host| == 4
  {
    Join(host + [NatToString(high), NatToString(low)], ',')
  }

  lemma {:induction false} NatPrints(n: nat)
    requires n <= MaxInt
    ensures IsTrimmed(NatToString(n)) && ',' !in NatToString(n) && ')' !in NatToString(n)
    ensures ParseInt(Trim(NatToString(n))) == Some(n)
  {
    NatTrimmed(n);
    assert AllDigits(NatToString(n));
    IntRoundTrip(n);
  }

  /** In `before(inner)after` with no parenthesis before and no ')' inside,
      the first '(' and the first ')' enclose exactly `inner`. */
  lemma {:induction false} Parenthesised(before: String, inner: String, after: String)
    requires '(' !in before && ')' !in before && ')' !in inner
    ensures var reply := before + "(" + inner + ")" + after;
      && IndexOf(reply, '(') == |before| && IndexOf(reply, ')') == |before| + 1 + |inner|
      && reply[|before| + 1..|before| + 1 + |inner|] == inner
  {
    var reply := before + "(" + inner + ")" + after;
    assert reply == before + ("(" + (inner + ")" + after));
    IndexOfAppend(before, "(" + (inner + ")" + after), '(');
    assert reply == (before + "(" + inner) + (")" + after);
    IndexOfAppend(before + "(" + inner, ")" + after, ')');
    assert reply[|before| + 1..|before| + 1 + |inner|] == inner;
  }

  /** The six fields split back apart and hold no ')'. */
  lemma {:induction false} PassiveFieldsSplit(host: seq<String>, high: nat, low: nat)
    requires |host| == 4 && forall i :: 0 <= i < 4 ==> ',' !in host[i] && ')' !in host[i]
    requires high <= MaxInt && low <= MaxInt
    ensures Split(PassiveFields(host, high, low), ',') == host + [NatToString(high), NatToString(low)]
    ensures ')' !in PassiveFields(host, high, low)
  {
    var xs := host + [NatToString(high), NatToString(low)];
    NatPrints(high);
    NatPrints(low);
    assert forall i :: 0 <= i < |xs| ==> ',' !in xs[i] && ')' !in xs[i];
    SplitJoin(xs, ',');
    JoinFree(xs, ',', ')');
  }

  /** The fields decode to the host and the wrapped port. */
  lemma {:induction false} PassiveParts(host: seq<String>, high: nat, low: nat)
    requires |host| == 4 && high <= MaxInt && low <= MaxInt
    ensures var parts := host + [NatToString(high), NatToString(low)];
      && |parts| == 6 && parts[0] == host[0] && parts[1] == host[1]
      && parts[2] == host[2] && parts[3] == host[3]
      && ParseInt(Trim(parts[4])) == Some(high) && ParseInt(Trim(parts[5])) == Some(low)
  {
    NatPrints(high);
    NatPrints(low);
    AppendIndex(host, [NatToString(high), NatToString(low)], 4);
    AppendIndex(host, [NatToString(high), NatToString(low)], 5);
  }

  /** Once the parentheses are found and the fields split and parsed, the
      endpoint is the one the fields give. */
  lemma {:induction false} PassiveOf(reply: String, open: nat, close: nat, parts: seq<String>, high: int, low: int)
    requires IndexOf(reply, '(') == open && IndexOf(reply, ')') == close && open + 1 <= close
    requires Split(reply[open + 1..close], ',') == parts && |parts| >= 6
    requires ParseInt(Trim(parts[4])) == Some(high) && ParseInt(Trim(parts[5])) == Some(low)
    ensures ReadPassive(reply) == Data(Endpoint(parts[0] + "." + parts[1] + "." + parts[2] + "." + parts[3],
                                                WrapInt(WrapInt(high * 256) + low)))
  {
    assert IndexOf(reply, '(') != -1 && IndexOf(reply, ')') != -1;
    assert (ParseInt(Trim(parts[4])), ParseInt(Trim(parts[5]))) == (Some(high), Some(low));
  }

  /** A reply carrying `(h1,h2,h3,h4,p1,p2)` after any text without
      parentheses gives back host "h1.h2.h3.h4" and port p1 * 256 + p2,
      wrapped to `int`. */
  lemma {:induction false} PassiveRoundTrip(before: String, host: seq<String>, high: nat, low: nat, after: String)
    requires '(' !in before && ')' !in before
    requires |host| == 4 && forall i :: 0 <= i < 4 ==> ',' !in host[i] && ')' !in host[i]
    requires high <= MaxInt && low <= MaxInt
    ensures ReadPassive(before + "(" + PassiveFields(host, high, low) + ")" + after) ==
      Data(Endpoint(host[0] + "." + host[1] + "." + host[2] + "." + host[3],
                    WrapInt(WrapInt(high * 256) + low)))
  {
    var inner := PassiveFields(host, high, low);
    var reply := before + "(" + inner + ")" + after;
    var parts := host + [NatToString(high), NatToString(low)];
    PassiveFieldsSplit(host, high, low);
    Parenthesised(before, inner, after);
    PassiveParts(host, high, low);
    PassiveOf(reply, |before|, |before| + 1 + |inner|, parts, high, low);
  }

  /** For octets the port is the 16-bit value p1 * 256 + p2. */
  lemma {:induction false} PassivePort(before: String, host: seq<String>, high: nat, low: nat, after: String)
    requires '(' !in before && ')' !in before
    requires |host| == 4 && forall i :: 0 <= i < 4 ==> ',' !in host[i] && ')' !in host[i]
    requires high < 256 && low < 256
    ensures var r := ReadPassive(before + "(" + PassiveFields(host, high, low) + ")" + after);
      && r.Data? && r.endpoint.port == high * 256 + low
      && 0 <= r.endpoint.port < 0x1_0000
      && r.endpoint.port / 256 == high && r.endpoint.port % 256 == low
  {
    PassiveRoundTrip(before, host, high, low, after);
  }

  /** A ')' before the '(' makes `substring` throw. */
  lemma {:induction false} ClosedBeforeOpened(before: String, middle: String, after: String)
    requires '(' !in before && ')' !in before && '(' !in middle
    ensures ReadPassive(before + ")" + middle + "(" + after) == Crashed
  {
    var reply := before + ")" + middle + "(" + after;
    assert reply == before + (")" + middle + "(" + after);
    IndexOfAppend(before, ")" + middle + "(" + after, ')');
    assert reply == (before + ")" + middle) + ("(" + after);
    IndexOfAppend(before + ")" + middle, "(" + after, '(');
  }
}
