/** The snapshot code as it runs (libtetrisprotocol/protocol.c, libhtttp/payload.c): fields
    copied one by one between the game and the payload, characters written and read at a
    running offset. Each call is proved to do what modules Payload and Protocol say. */
module PayloadBuffers {
  import opened Tetromino
  import opened Board
  import opened BoardArrays
  import opened Engine
  import opened GameStates
  import opened Hypertext
  import opened HypertextBuffers
  import opened Payload
  import opened Protocol
  import Bag
  import Kicks

  // ----- Characters at a running offset -----

  /** The board, one digit per cell, row by row. */
  method WriteBoard(buf: array<char>, board: seq<seq<nat>>) returns (offset: nat)
    requires |board| == HEIGHT && SmallBoard(board, WIDTH) && HEIGHT * WIDTH <= buf.Length
    modifies buf
    ensures offset == HEIGHT * WIDTH && buf[..offset] == BoardText(board)
    ensures buf[offset..] == old(buf[offset..])
  {
    offset := 0;
    for row := 0 to HEIGHT
      invariant offset == row * WIDTH && buf[..offset] == BoardText(board[..row])
      invariant forall k | HEIGHT * WIDTH <= k < buf.Length :: buf[k] == old(buf[k])
    {
      ghost var before := buf[..offset];
      for col := 0 to WIDTH
        invariant offset == row * WIDTH + col && buf[..row * WIDTH] == before
        invariant forall k | 0 <= k < col :: buf[row * WIDTH + k] == Digit(board[row][k])
        invariant forall k | HEIGHT * WIDTH <= k < buf.Length :: buf[k] == old(buf[k])
      {
        buf[offset] := Digit(board[row][col]);
        offset := offset + 1;
      }
      assert buf[..offset] == before + RowText(board[row]);
      OneMoreRow(board, row);
    }
    assert board[..HEIGHT] == board;
  }

  lemma OneMoreRow(board: seq<seq<nat>>, row: nat)
    requires row < |board| && forall y, x | 0 <= y < |board| && 0 <= x < |board[y]| :: board[y][x] < 10
    ensures BoardText(board[..row + 1]) == BoardText(board[..row]) + RowText(board[row])
  {
    assert board[..row + 1][..row] == board[..row];
  }

  /** The whole payload, terminated. */
  method EncodeStateInto(buf: array<char>, p: Snapshot)
    requires Sendable(p) && |EncodeState(p)| < buf.Length
    modifies buf
    ensures NUL !in EncodeState(p) && CStr(buf[..], 0) == EncodeState(p)
  {
    hide FieldList, BoardText, Fields;
    BoardTextLength(p.board, WIDTH);
    BoardChars(p.board, WIDTH);
    FieldsChars(FieldList(p));
    var offset := WriteBoard(buf, p.board);
    ghost var board := BoardText(p.board);
    var text := Fields(FieldList(p));
    for k := 0 to |text|
      invariant buf[..offset] == board
      invariant forall j | 0 <= j < k :: buf[offset + j] == text[j]
    {
      buf[offset + k] := text[k];
    }
    buf[offset + |text|] := NUL;
    assert buf[..offset + |text|] == board + text;
    PrefixReads(buf[..], board + text);
  }

  lemma PrefixReads(s: string, text: string)
    requires |text| < |s| && s[..|text|] == text && s[|text|] == NUL && NUL !in text
    ensures CStr(s, 0) == text
  {
    forall k | 0 <= k < |text| ensures s[k] == text[k] {
      assert s[..|text|][k] == text[k];
    }
    BodyReads(s, text, 0);
  }

  /** The board read back, row by row. */
  method ReadBoard(s: string) returns (board: seq<seq<int>>, offset: nat)
    requires HEIGHT * WIDTH <= |s|
    ensures offset == HEIGHT * WIDTH && board == ScanBoard(s, HEIGHT, WIDTH)
  {
    board, offset := [], 0;
    for row := 0 to HEIGHT
      invariant offset == row * WIDTH && board == ScanBoard(s, row, WIDTH)
    {
      var cells: seq<int> := [];
      for col := 0 to WIDTH
        invariant offset == row * WIDTH + col && |cells| == col
        invariant forall k | 0 <= k < col :: cells[k] == s[row * WIDTH + k] as int - '0' as int
      {
        cells := cells + [s[offset] as int - '0' as int];
        offset := offset + 1;
      }
      assert cells == ScanRow(s, row * WIDTH, WIDTH);
      board := board + [cells];
    }
  }

  // ----- Game and payload -----

  method CopyCells(a: array2<nat>) returns (board: seq<seq<nat>>)
    ensures board == GridOf(a)
  {
    board := [];
    for y := 0 to a.Length0
      invariant |board| == y && forall k | 0 <= k < y :: board[k] == GridOf(a)[k]
    {
      var row: seq<nat> := [];
      for x := 0 to a.Length1
        invariant |row| == x && forall k | 0 <= k < x :: row[k] == a[y, k]
      {
        row := row + [a[y, x]];
      }
      assert row == GridOf(a)[y];
      board := board + [row];
    }
  }

  /** The server flattens its game; `nextType` is whatever the unset field holds. */
  method BuildStatePayload(g: GameState, nextType: int) returns (p: Snapshot)
    requires g.Valid()
    ensures p == SnapshotOf(g.View(), nextType)
  {
    var board := CopyCells(g.cells);
    var preview := [];
    for i := 0 to 3
      invariant |preview| == i && forall k | 0 <= k < i :: preview[k] == g.bag[(g.bagIndex + k) % 14]
    {
      preview := preview + [g.bag[(g.bagIndex + i) % 14]];
    }
    p := Snapshot(board, g.current.t, g.current.rot, g.current.x, g.current.y, nextType, preview[0], preview[1],
        preview[2],
                  g.held, Bit(g.hasHeld), g.playerId, g.score, g.level, g.linesCleared, g.combo, Bit(g.b2b), g.tSpins,
                  g.tetrises, g.pending, g.targetId, ModeNumber(g.targetMode), Bit(g.gameOver), g.winner);
  }

  method PasteCells(a: array2<nat>, board: seq<seq<nat>>)
    requires a.Length0 == |board| && forall y | 0 <= y < |board| :: |board[y]| == a.Length1
    modifies a
    ensures GridOf(a) == board
  {
    for y := 0 to a.Length0
      invariant forall r, c | 0 <= r < y && 0 <= c < a.Length1 :: a[r, c] == board[r][c]
    {
      for x := 0 to a.Length1
        invariant forall r, c | 0 <= r < y && 0 <= c < a.Length1 :: a[r, c] == board[r][c]
        invariant forall c | 0 <= c < x :: a[y, c] == board[y][c]
      {
        a[y, x] := board[y][x];
      }
    }
    SameGrid(GridOf(a), board, a.Length1);
  }

  method PastePreview(bag: array<PieceType>, p: Snapshot)
    requires bag.Length == 14 && WellTyped(p)
    modifies bag
    ensures bag[..] == [p.preview0, p.preview1, p.preview2] + old(bag[..])[3..]
  {
    var preview: seq<PieceType> := [p.preview0, p.preview1, p.preview2];
    for i := 0 to 3
      invariant forall k | 0 <= k < i :: bag[k] == preview[k]
      invariant forall k | 3 <= k < 14 :: bag[k] == old(bag[k])
    {
      bag[i] := preview[i];
    }
    assert bag[..] == bag[..3] + bag[3..] && bag[3..] == old(bag[..])[3..] && bag[..3] == preview;
  }

  method PastePiece(p: Snapshot, g: GameState)
    requires g.Valid() && WellTyped(p)
    modifies g`current, g`bagIndex, g`held, g`hasHeld, g.bag
    ensures g.Valid() && g.current == Kicks.Piece(p.currentType, p.currentRot, p.currentX, p.currentY)
    ensures g.Stock() == Bag.Slots([p.preview0, p.preview1, p.preview2] + old(g.bag[..])[3..], 0)
    ensures g.held == p.heldType && g.hasHeld == (p.hasHeld != 0)
  {
    g.current := Kicks.Piece(p.currentType, p.currentRot, p.currentX, p.currentY);
    g.bagIndex := 0;
    PastePreview(g.bag, p);
    g.held, g.hasHeld := p.heldType, p.hasHeld != 0;
  }

  method PasteCounters(p: Snapshot, g: GameState)
    requires WellTyped(p)
    modifies g`score, g`level, g`linesCleared, g`combo, g`b2b, g`tSpins, g`tetrises
    ensures g.score == p.score && g.level == p.level && g.linesCleared == p.linesCleared && g.combo == p.combo
    ensures g.b2b == (p.b2b != 0) && g.tSpins == p.tSpins && g.tetrises == p.tetrises
  {
    g.score, g.level, g.linesCleared := p.score, p.level, p.linesCleared;
    g.combo, g.b2b, g.tSpins, g.tetrises := p.combo, p.b2b != 0, p.tSpins, p.tetrises;
  }

  method PasteStatus(p: Snapshot, g: GameState)
    requires WellTyped(p)
    modifies g`playerId, g`pending, g`targetId, g`targetMode, g`gameOver, g`winner
    ensures g.playerId == p.playerId && g.pending == p.pending && g.targetId == p.targetId
    ensures g.targetMode == ModeOf(p.targetMode) && g.gameOver == (p.gameOver != 0) && g.winner == p.winner
  {
    g.playerId, g.pending, g.targetId, g.targetMode := p.playerId, p.pending, p.targetId, ModeOf(p.targetMode);
    g.gameOver, g.winner := p.gameOver != 0, p.winner;
  }

  /** The client copies a snapshot into its mirror; what is not sent stays as it was. */
  method ApplyStatePayload(p: Snapshot, g: GameState)
    requires g.Valid() && WellTyped(p)
    modifies g, g.cells, g.bag
    ensures g.Valid() && g.View() == Mirrored(p, old(g.View()))
  {
    hide GridOf;
    PasteCells(g.cells, p.board);
    PastePiece(p, g);
    PasteCounters(p, g);
    PasteStatus(p, g);
  }

  /** A snapshot taken from one game and applied to another makes them agree. */
  method Mirror(server: GameState, client: GameState, nextType: int)
    requires server.Valid() && client.Valid()
    requires server != client && server.cells != client.cells && server.bag != client.bag
    modifies client, client.cells, client.bag
    ensures server.Valid() && client.Valid() && server.View() == old(server.View())
        && Agrees(client.View(), server.View())
  {
    hide SnapshotOf, Mirrored, Agrees, GridOf;
    MirrorAgrees(server.View(), nextType, client.View());
    var p := BuildStatePayload(server, nextType);
    ApplyStatePayload(p, client);
  }
}
