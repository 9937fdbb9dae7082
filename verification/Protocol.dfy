/** From the server's game to the client's mirror (libhtttp.c, payload.c,
    libtetrisprotocol/protocol.c): snapshot, request, text and back. */
module Protocol {
  import opened Hypertext
  import opened Payload
  import opened Tetromino
  import Board
  import Bag
  import opened Kicks
  import opened Engine
  import EngineRuns

  // ----- Methods -----

  datatype Method = Unknown | ReqMove | ReqDrop | ReqRotate | ReqState | ReqAttack | ReqAction | ReqRoster

  const METHODS: seq<(string, Method)> :=
    [("MOVE", ReqMove), ("DROP", ReqDrop), ("ROTATE", ReqRotate), ("STATE", ReqState), ("ATTACK", ReqAttack),
     ("ACTION", ReqAction), ("ROSTER", ReqRoster)]

  function LookUp(s: string, i: nat): Method
    decreases |METHODS| - i
  {
    if i >= |METHODS| then Unknown else if METHODS[i].0 == s then METHODS[i].1 else LookUp(s, i + 1)
  }

  function StringToMethod(s: string): Method {
    LookUp(s, 0)
  }

  function NameOf(m: Method, i: nat): Option<string>
    decreases |METHODS| - i
  {
    if i >= |METHODS| then None else if METHODS[i].1 == m then Some(METHODS[i].0) else NameOf(m, i + 1)
  }

  function MethodToString(m: Method): Option<string> {
    if m == Unknown then None else NameOf(m, 0)
  }

  /** Names and methods are each other's inverse. */
  lemma MethodRoundTrip(m: Method)
    requires m != Unknown
    ensures MethodToString(m).Some? && StringToMethod(MethodToString(m).value) == m
  {
    var k := match m
      case Unknown => 0
      case ReqMove => 0
      case ReqDrop => 1
      case ReqRotate => 2
      case ReqState => 3
      case ReqAttack => 4
      case ReqAction => 5
      case ReqRoster => 6;
    assert METHODS[k].1 == m;
    EntryFound(k);
  }

  lemma {:induction false} FoundEntry(s: string, i: nat) returns (k: nat)
    requires LookUp(s, i) != Unknown
    ensures k < |METHODS| && METHODS[k] == (s, LookUp(s, i))
    decreases |METHODS| - i
  {
    if METHODS[i].0 == s {
      k := i;
    } else {
      k := FoundEntry(s, i + 1);
    }
  }

  /** A name that stands for a method is that method's name. */
  lemma NameRoundTrip(s: string)
    requires StringToMethod(s) != Unknown
    ensures MethodToString(StringToMethod(s)) == Some(s)
  {
    var k := FoundEntry(s, 0);
    EntryFound(k);
  }

  lemma EntryFound(k: nat)
    requires k < |METHODS|
    ensures NameOf(METHODS[k].1, 0) == Some(METHODS[k].0) && LookUp(METHODS[k].0, 0) == METHODS[k].1
  {
    EntryFoundFrom(k, 0);
  }

  lemma {:induction false} EntryFoundFrom(k: nat, i: nat)
    requires i <= k < |METHODS|
    ensures NameOf(METHODS[k].1, i) == Some(METHODS[k].0) && LookUp(METHODS[k].0, i) == METHODS[k].1
    decreases k - i
  {
    if i < k {
      assert METHODS[i].0 != METHODS[k].0 by {
        var a, b := METHODS[i].0, METHODS[k].0;
        assert a[0] != b[0] || a[1] != b[1] || a[2] != b[2];
      }
      assert METHODS[i].1 != METHODS[k].1;
      EntryFoundFrom(k, i + 1);
    }
  }

  // ----- Requests -----

  const VERSION: string := "HTTTP/1.0"

  function PathOf(id: nat): string {
    "/room/0/player/" + PrintInt(id)
  }

  /** The request that carries a payload body; the date is an input. */
  function RequestOf(name: string, id: nat, contentType: string, date: string, body: string): Msg {
    Msg(name, PathOf(id), VERSION,
        [Header("Player-Id", PrintInt(id)), Header("Content-Type", contentType), Header("Date", date),
         Header("Content-Length", PrintInt(|body|))],
        body)
  }

  /** The value of the first Player-Id header, 0 if there is none. */
  function PlayerIdOf(hs: seq<Header>): int {
    if hs == [] then 0
    else if hs[0].field == "Player-Id" then
      match ScanInt(hs[0].value, 0)
      case None => 0
      case Some((x, _)) => x
    else PlayerIdOf(hs[1..])
  }

  function Extracted(m: Msg): (Method, int, string) {
    (StringToMethod(m.token1), PlayerIdOf(m.headers), m.body)
  }

  predicate LegalValue(v: string) {
    forall i | 0 <= i < |v| :: v[i] != '\r' && v[i] != '\n' && v[i] != NUL
  }

  lemma NumberIsLegal(x: int)
    ensures LegalValue(PrintInt(x)) && ' ' !in PrintInt(x)
  {
    PrintIntChars(x);
  }

  lemma VersionIsLegal()
    ensures forall i :: !Occurs(VERSION, CRLF, i)
  {
    forall i ensures !Occurs(VERSION, CRLF, i) {
      if 0 <= i < |VERSION| {
        NotOccurs(VERSION, CRLF, i, 0);
      }
    }
  }

  /** Every request built this way is legal, so parsing its text gives it back. */
  lemma RequestIsLegal(name: string, id: nat, contentType: string, date: string, body: string)
    requires ' ' !in name && LegalValue(contentType) && LegalValue(date)
    ensures Legal(RequestOf(name, id, contentType, date, body))
  {
    NumberIsLegal(id);
    NumberIsLegal(|body|);
    VersionIsLegal();
    var m := RequestOf(name, id, contentType, date, body);
    forall i | 0 <= i < |m.headers| ensures LegalHeader(m.headers[i]) {
      match i
      case 0 => LegalField("Player-Id", PrintInt(id));
      case 1 => LegalField("Content-Type", contentType);
      case 2 => LegalField("Date", date);
      case _ => LegalField("Content-Length", PrintInt(|body|));
    }
  }

  lemma LegalField(field: string, value: string)
    requires field in {"Player-Id", "Content-Type", "Date", "Content-Length"} && LegalValue(value)
    ensures LegalHeader(Header(field, value))
  {}

  /** The receiver gets the method, the player id and the body that were sent. */
  lemma ExtractRoundTrip(m: Method, id: nat, contentType: string, date: string, body: string)
    requires m != Unknown && LegalValue(contentType) && LegalValue(date)
    ensures var name := MethodToString(m);
            name.Some? && Parse(Text(RequestOf(name.value, id, contentType, date, body)))
                          == Some(RequestOf(name.value, id, contentType, date, body))
            && Extracted(RequestOf(name.value, id, contentType, date, body)) == (m, id, body)
  {
    MethodRoundTrip(m);
    var name := MethodToString(m).value;
    NameHasNoSpace(m);
    RequestIsLegal(name, id, contentType, date, body);
    ParseUndoesPrint(RequestOf(name, id, contentType, date, body));
    hide Parse, Text;
    assert Stands(PrintInt(id), 0, PrintInt(id));
    IntRoundTrip(PrintInt(id), 0, id);
  }

  lemma NameHasNoSpace(m: Method)
    requires m != Unknown && MethodToString(m).Some?
    ensures ' ' !in MethodToString(m).value && NUL !in MethodToString(m).value && |MethodToString(m).value| <= 6
  {
    var i := MethodIndex(m, 0);
  }

  lemma {:induction false} MethodIndex(m: Method, i: nat) returns (k: nat)
    requires i <= |METHODS| && NameOf(m, i).Some?
    ensures k < |METHODS| && METHODS[k].0 == NameOf(m, i).value
    ensures ' ' !in METHODS[k].0 && NUL !in METHODS[k].0 && |METHODS[k].0| <= 6
    decreases |METHODS| - i
  {
    if METHODS[i].1 == m {
      k := i;
    } else {
      k := MethodIndex(m, i + 1);
    }
  }

  // ----- The state payload -----

  /** What the server sends about one game; `nextType` is never set by the server. */
  datatype Snapshot = Snapshot(
    board: seq<seq<nat>>,
    currentType: int, currentRot: int, currentX: int, currentY: int, nextType: int,
    preview0: int, preview1: int, preview2: int,
    heldType: int, hasHeld: int,
    playerId: int, score: int, level: int, linesCleared: int, combo: int, b2b: int, tSpins: int, tetrises: int,
    pending: int, targetId: int, targetMode: int, gameOver: int, winner: int)

  function FieldList(p: Snapshot): (xs: seq<int>)
    ensures |xs| == 23
  {
    [p.currentType, p.currentRot, p.currentX, p.currentY, p.nextType, p.preview0, p.preview1, p.preview2, p.heldType,
     p.hasHeld, p.playerId, p.score, p.level, p.linesCleared, p.combo, p.b2b, p.tSpins, p.tetrises, p.pending,
     p.targetId, p.targetMode, p.gameOver, p.winner]
  }

  function FromFields(board: seq<seq<nat>>, xs: seq<int>): Snapshot
    requires |xs| == 23
  {
    Snapshot(board, xs[0], xs[1], xs[2], xs[3], xs[4], xs[5], xs[6], xs[7], xs[8], xs[9], xs[10], xs[11], xs[12],
        xs[13],
             xs[14], xs[15], xs[16], xs[17], xs[18], xs[19], xs[20], xs[21], xs[22])
  }

  ghost predicate Sendable(p: Snapshot) {
    |p.board| == HEIGHT && SmallBoard(p.board, WIDTH)
  }

  ghost predicate Words(p: Snapshot) {
    forall i | 0 <= i < 23 :: Word(FieldList(p)[i])
  }

  ghost function EncodeState(p: Snapshot): string
    requires Sendable(p)
  {
    BoardText(p.board) + Fields(FieldList(p))
  }

  function DecodeState(s: string): Option<(seq<seq<int>>, seq<int>)> {
    if |s| < HEIGHT * WIDTH then None
    else
      match ScanFields(s, HEIGHT * WIDTH, 23)
      case None => None
      case Some(xs) => Some((ScanBoard(s, HEIGHT, WIDTH), xs))
  }

  /** Board and fields are read back exactly. */
  lemma StateRoundTrip(p: Snapshot)
    requires Sendable(p)
    ensures DecodeState(EncodeState(p)) == Some((p.board, FieldList(p)))
    ensures FromFields(p.board, FieldList(p)) == p
  {
    hide FieldList, BoardText, Fields, ScanFields, ScanBoard;
    var s := EncodeState(p);
    assert Stands(s, 0, s);
    StandsSplit(s, 0, BoardText(p.board), Fields(FieldList(p)));
    BoardTextLength(p.board, WIDTH);
    BoardRoundTrip(s, p.board, WIDTH);
    FieldsRoundTrip(s, HEIGHT * WIDTH, FieldList(p));
    FieldsAreAll(p);
  }

  lemma FieldsAreAll(p: Snapshot)
    ensures FromFields(p.board, FieldList(p)) == p
  {}

  // ----- Snapshot and mirror -----

  function Bit(b: bool): int {
    if b then 1 else 0
  }

  function ModeNumber(m: TargetMode): int {
    match m
    case Manual => 0
    case Random => 1
    case Ko => 2
  }

  function ModeOf(x: int): TargetMode {
    if x == 0 then Manual else if x == 1 then Random else Ko
  }

  function SnapshotOf(g: Game, nextType: int): Snapshot {
    var p := Bag.Preview(g.bag);
    Snapshot(g.board, g.current.t, g.current.rot, g.current.x, g.current.y, nextType, p[0], p[1], p[2], g.held,
             Bit(g.hasHeld), g.playerId, g.score, g.level, g.linesCleared, g.combo, Bit(g.b2b), g.tSpins, g.tetrises,
             g.pending, g.targetId, ModeNumber(g.targetMode), Bit(g.gameOver), g.winner)
  }

  /** Fields whose values stand for pieces, rotations and counts. */
  predicate WellTyped(p: Snapshot) {
    && |p.board| == HEIGHT && (forall y | 0 <= y < HEIGHT :: |p.board[y]| == WIDTH)
    && 1 <= p.currentType <= 7 && 0 <= p.currentRot < 4
    && 1 <= p.preview0 <= 7 && 1 <= p.preview1 <= 7 && 1 <= p.preview2 <= 7 && 0 <= p.heldType <= 7
    && 0 <= p.playerId && 0 <= p.score && 0 <= p.level && 0 <= p.linesCleared && 0 <= p.tSpins && 0 <= p.tetrises
    && 0 <= p.pending && 0 <= p.targetId && 0 <= p.winner
  }

  /** The client's copy after taking over a snapshot; what is not sent stays as it was. */
  function Mirrored(p: Snapshot, old': Game): Game
    requires WellTyped(p)
  {
    var slots := old'.bag.slots;
    old'.(
      board := p.board,
      current := Piece(p.currentType, p.currentRot, p.currentX, p.currentY),
      bag := Bag.Slots([p.preview0, p.preview1, p.preview2] + slots[3..], 0),
      held := p.heldType, hasHeld := p.hasHeld != 0, playerId := p.playerId, score := p.score, level := p.level,
      linesCleared := p.linesCleared, combo := p.combo, b2b := p.b2b != 0, tSpins := p.tSpins, tetrises := p.tetrises,
      pending := p.pending, targetId := p.targetId, targetMode := ModeOf(p.targetMode), gameOver := p.gameOver != 0,
      winner := p.winner)
  }

  /** The mirror shows what the server knows: board, piece, the next three pieces, hold,
      counters, target and result. */
  ghost predicate Agrees(m: Game, g: Game) {
    && m.board == g.board && m.current == g.current && Bag.Preview(m.bag) == Bag.Preview(g.bag)
    && m.held == g.held && m.hasHeld == g.hasHeld && m.playerId == g.playerId && m.score == g.score
    && m.level == g.level && m.linesCleared == g.linesCleared && m.combo == g.combo && m.b2b == g.b2b
    && m.tSpins == g.tSpins && m.tetrises == g.tetrises && m.pending == g.pending && m.targetId == g.targetId
    && m.targetMode == g.targetMode && m.gameOver == g.gameOver && m.winner == g.winner
  }

  lemma MirrorAgrees(g: Game, nextType: int, mirror: Game)
    ensures WellTyped(SnapshotOf(g, nextType)) && Agrees(Mirrored(SnapshotOf(g, nextType), mirror), g)
  {
    var p, m := SnapshotOf(g, nextType), Mirrored(SnapshotOf(g, nextType), mirror);
    var q := Bag.Preview(g.bag);
    assert m.bag.slots[0] == q[0] && m.bag.slots[1] == q[1] && m.bag.slots[2] == q[2];
  }

  // ----- End to end -----

  function StateRequest(id: nat, date: string, body: string): Msg {
    RequestOf("STATE", id, "application/state-payload", date, body)
  }

  ghost predicate LegalDate(date: string) {
    LegalValue(date) && |date| <= 29
  }

  lemma HeaderTextOf(a: Header, b: Header, d: Header, e: Header)
    ensures HeaderText([a, b, d, e]) == Line(a) + CRLF + (Line(b) + CRLF + (Line(d) + CRLF + (Line(e) + CRLF)))
  {
    var h4: seq<Header> := [e];
    var h3: seq<Header> := [d, e];
    var h2: seq<Header> := [b, d, e];
    var h1: seq<Header> := [a, b, d, e];
    assert h1[1..] == h2 && h2[1..] == h3 && h3[1..] == h4 && h4[1..] == [];
    HeaderTextCons(h1);
    HeaderTextCons(h2);
    HeaderTextCons(h3);
    HeaderTextCons(h4);
    assert HeaderText([]) == "";
    assert Line(e) + CRLF + "" == Line(e) + CRLF;
  }

  /** No terminator inside, and at most `n` characters. */
  ghost predicate Clean(s: string, n: nat) {
    |s| <= n && forall k | 0 <= k < |s| :: s[k] != NUL
  }

  lemma CleanAppend(a: string, m: nat, b: string, n: nat)
    requires Clean(a, m) && Clean(b, n)
    ensures Clean(a + b, m + n)
  {}

  lemma CleanLine(field: string, value: string, n: nat)
    requires field in {"Player-Id", "Content-Type", "Date", "Content-Length"} && Clean(value, n)
    ensures Clean(Line(Header(field, value)) + CRLF, n + 18)
  {
    assert Clean(field, 14);
    assert Clean(": ", 2) && Clean(CRLF, 2);
    hide Clean;
    CleanAppend(field, 14, ": ", 2);
    CleanAppend(field + ": ", 16, value, n);
    CleanAppend(field + ": " + value, 16 + n, CRLF, 2);
  }

  lemma CleanRequestLine(id: nat, date: string, body: string)
    requires Clean(PrintInt(id), 10)
    ensures Clean(RequestLine(StateRequest(id, date, body)), 60)
  {
    var p := PrintInt(id);
    assert Clean("STATE ", 6) && Clean("/room/0/player/", 15) && Clean(" ", 1) && Clean(VERSION, 9) && Clean(CRLF, 2);
    var path := "/room/0/player/" + p;
    assert RequestLine(StateRequest(id, date, body)) == "STATE " + path + " " + VERSION + CRLF by {
      assert "STATE" + " " == "STATE ";
    }
    hide Clean, RequestLine, StateRequest;
    CleanAppend("/room/0/player/", 15, p, 10);
    CleanAppend("STATE ", 6, path, 25);
    CleanAppend("STATE " + path, 31, " ", 1);
    CleanAppend("STATE " + path + " ", 32, VERSION, 9);
    CleanAppend("STATE " + path + " " + VERSION, 41, CRLF, 2);
    CleanWeaken(RequestLine(StateRequest(id, date, body)), 43, 60);
  }

  lemma CleanWeaken(s: string, m: nat, n: nat)
    requires Clean(s, m) && m <= n
    ensures Clean(s, n)
  {}

  lemma CleanHeaders(id: nat, date: string, body: string)
    requires Clean(PrintInt(id), 10) && Clean(PrintInt(|body|), 10) && Clean(date, 29)
    ensures Clean(HeaderText(StateRequest(id, date, body).headers), 200)
  {
    var i, l, t := PrintInt(id), PrintInt(|body|), "application/state-payload";
    assert Clean(t, 25);
    var m := StateRequest(id, date, body);
    var a, b, d, e := Header("Player-Id", i), Header("Content-Type", t), Header("Date", date),
        Header("Content-Length", l);
    assert m.headers == [a, b, d, e];
    HeaderTextOf(a, b, d, e);
    hide Clean, HeaderText, Line;
    CleanLine("Player-Id", i, 10);
    CleanLine("Content-Type", t, 25);
    CleanLine("Date", date, 29);
    CleanLine("Content-Length", l, 10);
    CleanAppend(Line(d) + CRLF, 47, Line(e) + CRLF, 28);
    CleanAppend(Line(b) + CRLF, 43, Line(d) + CRLF + (Line(e) + CRLF), 75);
    CleanAppend(Line(a) + CRLF, 28, Line(b) + CRLF + (Line(d) + CRLF + (Line(e) + CRLF)), 118);
    CleanWeaken(HeaderText(m.headers), 146, 200);
  }

  /** Every state message leaves plenty of room in the buffer and contains no terminator. */
  lemma StateTextFits(id: nat, date: string, body: string)
    requires Word(id) && LegalDate(date) && |body| <= 476 && NUL !in body
    ensures |Text(StateRequest(id, date, body))| < MAX_BUF && NUL !in Text(StateRequest(id, date, body))
  {
    var m := StateRequest(id, date, body);
    WordLength(id);
    WordLength(|body|);
    NumberIsLegal(id);
    NumberIsLegal(|body|);
    CleanRequestLine(id, date, body);
    CleanHeaders(id, date, body);
    hide RequestLine, HeaderText, PrintInt, Word;
    var r, h := RequestLine(m), HeaderText(m.headers);
    CleanAppend(r, 60, h, 200);
    CleanAppend(r + h, 260, CRLF, 2);
    CleanAppend(r + h + CRLF, 262, body, 476);
  }

  lemma StateBodySize(p: Snapshot)
    requires Sendable(p) && Words(p)
    ensures |EncodeState(p)| <= 476 && NUL !in EncodeState(p)
  {
    hide FieldList, Word;
    BoardTextLength(p.board, WIDTH);
    BoardChars(p.board, WIDTH);
    FieldsLength(FieldList(p));
    FieldsChars(FieldList(p));
  }

  ghost predicate CountersFit(g: Game) {
    && Word(g.playerId) && Word(g.score) && Word(g.level) && Word(g.linesCleared) && Word(g.combo) && Word(g.tSpins)
    && Word(g.tetrises) && Word(g.targetId) && Word(g.winner)
  }

  lemma SnapshotIsSendable(g: Game, nextType: int)
    requires EngineRuns.Inv(g) && CountersFit(g) && Word(nextType)
    ensures Sendable(SnapshotOf(g, nextType)) && Words(SnapshotOf(g, nextType))
  {
    PlaceFits(g);
    hide Word, EngineRuns.PieceOk, Board.NoFullRow, Bag.Stocked;
    var p := SnapshotOf(g, nextType);
    forall y, x | 0 <= y < |p.board| && 0 <= x < |p.board[y]| ensures p.board[y][x] < 10 {
      assert Board.SmallRow(g.board[y]);
    }
    SnapshotWords(g, nextType);
  }

  /** A piece inside the walls and not too high is at a place that fits 32 bits. */
  lemma PlaceFits(g: Game)
    requires EngineRuns.Inv(g)
    ensures Word(g.current.x) && Word(g.current.y)
  {
    hide Board.NoFullRow, Board.SmallCells, Bag.Stocked, EngineRuns.TimersOk, EngineRuns.CountersOk, Cell;
    var p := g.current;
    CellInBox(p.t, p.rot, 0);
    assert Board.Cells(p.t, p.rot, p.x, p.y)[0] in Board.Cells(p.t, p.rot, p.x, p.y);
  }

  lemma SnapshotWords(g: Game, nextType: int)
    requires CountersFit(g) && Word(nextType) && g.pending <= HEIGHT && Word(g.current.x) && Word(g.current.y)
    ensures Words(SnapshotOf(g, nextType))
  {
    var p := SnapshotOf(g, nextType);
    assert Word(Bit(g.hasHeld)) && Word(Bit(g.b2b)) && Word(Bit(g.gameOver)) && Word(ModeNumber(g.targetMode));
    assert Word(g.current.t) && Word(g.current.rot) && Word(g.held) && Word(g.pending);
    assert Word(p.preview0) && Word(p.preview1) && Word(p.preview2);
    hide Word;
    forall i | 0 <= i < 23 ensures Word(FieldList(p)[i]) {}
  }

  /** Snapshot, encode, print, parse, extract, decode and apply: for every game the engine
      can be in, with counters that fit 32 bits, the text fits the buffer and the client's
      mirror ends up agreeing with the server, whatever it showed before. */
  lemma ServerStateReachesClient(g: Game, nextType: int, date: string, mirror: Game)
    requires EngineRuns.Inv(g) && CountersFit(g) && Word(nextType) && LegalDate(date)
    ensures Sendable(SnapshotOf(g, nextType))
    ensures var p := SnapshotOf(g, nextType);
            var m := StateRequest(g.playerId, date, EncodeState(p));
            && |Text(m)| < MAX_BUF && NUL !in Text(m) && HeadersFit(Text(m)) && Parse(Text(m)) == Some(m)
            && Extracted(m) == (ReqState, g.playerId, EncodeState(p))
            && DecodeState(m.body) == Some((p.board, FieldList(p)))
            && WellTyped(FromFields(p.board, FieldList(p)))
            && Agrees(Mirrored(FromFields(p.board, FieldList(p)), mirror), g)
  {
    hide EngineRuns.Inv, CountersFit, Text, Parse, EncodeState, DecodeState, Extracted, FieldList, FromFields,
        Mirrored, Agrees, HeadersFit;
    SnapshotIsSendable(g, nextType);
    var p := SnapshotOf(g, nextType);
    StateBodySize(p);
    IdFits(g);
    StateTextFits(g.playerId, date, EncodeState(p));
    ContentTypeIsLegal();
    ExtractRoundTrip(ReqState, g.playerId, "application/state-payload", date, EncodeState(p));
    StateRoundTrip(p);
    MirrorAgrees(g, nextType, mirror);
    StateIsTheName();
    RequestHeadersFit("STATE", g.playerId, "application/state-payload", date, EncodeState(p));
  }

  /** A request has four headers. */
  lemma RequestHeadersFit(name: string, id: nat, contentType: string, date: string, body: string)
    requires ' ' !in name && LegalValue(contentType) && LegalValue(date)
    ensures HeadersFit(Text(RequestOf(name, id, contentType, date, body)))
  {
    hide Text, Legal, HeadersFit;
    RequestIsLegal(name, id, contentType, date, body);
    PrintedHeadersFit(RequestOf(name, id, contentType, date, body));
  }

  lemma IdFits(g: Game)
    requires CountersFit(g)
    ensures Word(g.playerId)
  {}

  lemma ContentTypeIsLegal()
    ensures LegalValue("application/state-payload")
  {}

  lemma StateIsTheName()
    ensures MethodToString(ReqState) == Some("STATE")
  {
    EntryFound(3);
  }

  /** The same for the state a player's game has after any run. */
  lemma EveryRunReachesClient(d: EngineRuns.Deal, es: seq<EngineRuns.Event>, nextType: int, date: string, mirror: Game)
    requires EngineRuns.WellFormedRun(es) && CountersFit(EngineRuns.Run(EngineRuns.StartOf(d), es))
    requires Word(nextType) && LegalDate(date)
    ensures var g := EngineRuns.Run(EngineRuns.StartOf(d), es);
            var p := SnapshotOf(g, nextType);
            && Sendable(p)
            && var m := StateRequest(g.playerId, date, EncodeState(p));
               && |Text(m)| < MAX_BUF && HeadersFit(Text(m)) && Parse(Text(m)) == Some(m)
               && DecodeState(Extracted(m).2) == Some((p.board, FieldList(p)))
               && WellTyped(FromFields(p.board, FieldList(p)))
               && Agrees(Mirrored(FromFields(p.board, FieldList(p)), mirror), g)
  {
    hide EngineRuns.Inv, CountersFit, Text, Parse, EncodeState, DecodeState, Extracted, FieldList, FromFields, Mirrored,
         Agrees, EngineRuns.Run, EngineRuns.StartOf, SnapshotOf, HeadersFit;
    EngineRuns.EveryRun(d, es);
    ServerStateReachesClient(EngineRuns.Run(EngineRuns.StartOf(d), es), nextType, date, mirror);
  }
}
