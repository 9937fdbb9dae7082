/** The parser and the printer as they work on a fixed buffer of characters
    (libhypertext.c): the parser overwrites each delimiter with zero characters and keeps
    offsets; the printer appends pieces at a running offset. */
module HypertextBuffers {
  import opened Hypertext

  /** The C string that starts at offset `i`. */
  function CStr(s: string, i: nat): string
    decreases |s| - i
  {
    if i >= |s| || s[i] == NUL then "" else [s[i]] + CStr(s, i + 1)
  }

  lemma {:induction false} CStrIs(s: string, i: nat, e: nat)
    requires i <= e < |s| && s[e] == NUL && forall k | i <= k < e :: s[k] != NUL
    ensures CStr(s, i) == s[i..e]
    decreases e - i
  {
    if i < e {
      CStrIs(s, i + 1, e);
      assert s[i..e] == [s[i]] + s[i + 1..e];
    }
  }

  /** From offset `i` on, the buffer still holds `text` and its terminator. */
  ghost predicate Holds(buf: array<char>, text: string, i: int)
    reads buf
  {
    |text| < buf.Length && buf[|text|] == NUL && NUL !in text && forall k | 0 <= i <= k < |text| :: buf[k] == text[k]
  }

  /** `text[i..e]` can be read as a C string at `i`. */
  ghost predicate Piece(s: string, text: string, i: nat, e: nat) {
    i <= e <= |text| < |s| && s[e] == NUL && NUL !in text && forall k | i <= k < e :: s[k] == text[k]
  }

  lemma PieceReads(s: string, text: string, i: nat, e: nat)
    requires Piece(s, text, i, e)
    ensures CStr(s, i) == text[i..e]
  {
    CStrIs(s, i, e);
    assert s[i..e] == text[i..e];
  }

  // ----- Parsing in place -----

  method MatchesAt(buf: array<char>, p: nat, delim: string, ghost text: string) returns (yes: bool)
    requires Holds(buf, text, p) && p <= |text| && NUL !in delim
    ensures yes == Occurs(text, delim, p)
  {
    for j := 0 to |delim|
      invariant p + j <= |text| && forall k | 0 <= k < j :: text[p + k] == delim[k]
    {
      if buf[p + j] != delim[j] {
        NotOccurs(text, delim, p, j);
        return false;
      }
      assert p + j < |text|;
    }
    assert text[p..p + |delim|] == delim;
    return true;
  }

  /** The search for a delimiter in the C string at `start`. */
  method StrStr(buf: array<char>, start: nat, delim: string, ghost text: string) returns (p: int)
    requires Holds(buf, text, start) && start <= |text| && delim != "" && NUL !in delim
    ensures p == Find(text, delim, start)
  {
    p := start;
    while buf[p] != NUL
      invariant start <= p <= |text| && forall k | start <= k < p :: !Occurs(text, delim, k)
      decreases |text| - p
    {
      var yes := MatchesAt(buf, p, delim, text);
      if yes {
        FindIs(text, delim, start, p);
        return;
      }
      p := p + 1;
    }
    assert p == |text|;
    return -1;
  }

  /** Ends the token at `pos` by overwriting its delimiter; the position behind it, or -1. */
  method NextToken(buf: array<char>, pos: nat, delim: string, ghost text: string) returns (next: int)
    requires Holds(buf, text, pos) && pos <= |text| && delim != "" && NUL !in delim
    modifies buf
    ensures var p := Find(text, delim, pos);
            next == if p < 0 then -1 else p + |delim|
    ensures next < 0 ==> buf[..] == old(buf[..])
    ensures next >= 0 ==> next <= |text| && Holds(buf, text, next) && Piece(buf[..], text, pos, Find(text, delim, pos))
    ensures forall k | 0 <= k < pos :: buf[k] == old(buf[k])
  {
    var p := StrStr(buf, pos, delim, text);
    if p < 0 {
      return -1;
    }
    for j := 0 to |delim|
      invariant forall k | 0 <= k < buf.Length :: buf[k] == if p <= k < p + j then NUL else old(buf[k])
    {
      buf[p + j] := NUL;
    }
    next := p + |delim|;
  }

  method CountHeaderLines(buf: array<char>, start: nat, ghost text: string) returns (n: nat)
    requires Holds(buf, text, start) && start <= |text|
    ensures n == CountHeaders(text, start)
  {
    var end := StrStr(buf, start, BLANK, text);
    var ptr := start;
    n := 0;
    while ptr < end
      invariant start <= ptr <= |text| && n + CountLines(text, ptr, end) == CountHeaders(text, start)
      decreases end - ptr
    {
      var q := StrStr(buf, ptr, CRLF, text);
      if q < 0 {
        break;
      }
      ptr := q + 2;
      n := n + 1;
    }
  }

  /** What the parser stores: where each C string starts. */
  datatype Offsets = Offsets(token1: nat, token2: nat, token3: nat, headers: seq<(nat, nat)>, body: nat)

  ghost function ReadHeaders(s: string, hs: seq<(nat, nat)>): (r: seq<Header>)
    ensures |r| == |hs|
  {
    seq(|hs|, i requires 0 <= i < |hs| => Header(CStr(s, hs[i].0), CStr(s, hs[i].1)))
  }

  ghost function ReadBack(s: string, o: Offsets): Msg {
    Msg(CStr(s, o.token1), CStr(s, o.token2), CStr(s, o.token3), ReadHeaders(s, o.headers), CStr(s, o.body))
  }

  /** Offsets whose C strings are the parsed headers. */
  ghost predicate HeaderPiecesOk(s: string, text: string, hs: seq<(nat, nat)>, ends: seq<(nat, nat)>, limit: int) {
    && |ends| == |hs|
    && forall i | 0 <= i < |hs| ::
         && Piece(s, text, hs[i].0, ends[i].0) && Piece(s, text, hs[i].1, ends[i].1)
         && ends[i].0 < limit && ends[i].1 < limit
  }

  ghost function HeadersAt(text: string, hs: seq<(nat, nat)>, ends: seq<(nat, nat)>): (r: seq<Header>)
    requires |ends| == |hs|
    requires forall i | 0 <= i < |hs| :: hs[i].0 <= ends[i].0 <= |text| && hs[i].1 <= ends[i].1 <= |text|
    ensures |r| == |hs|
  {
    seq(|hs|, i requires 0 <= i < |hs| => Header(text[hs[i].0..ends[i].0], text[hs[i].1..ends[i].1]))
  }

  /** Writes behind `limit` leave earlier pieces readable. */
  lemma PiecesStay(s: string, t: string, text: string, hs: seq<(nat, nat)>, ends: seq<(nat, nat)>, limit: int,
      limit': int)
    requires HeaderPiecesOk(s, text, hs, ends, limit) && |t| == |s| && limit <= limit'
    requires forall k | 0 <= k < limit && k < |s| :: t[k] == s[k]
    ensures HeaderPiecesOk(t, text, hs, ends, limit')
  {}

  lemma PieceStays(s: string, t: string, text: string, i: nat, e: nat)
    requires Piece(s, text, i, e) && |t| == |s| && forall k | 0 <= k <= e :: t[k] == s[k]
    ensures Piece(t, text, i, e)
  {}

  /** One header more, read behind the first `n`. */
  lemma NextHeader(text: string, start: nat, n: nat, done: seq<Header>, pos: nat)
    requires ParseHeaders(text, start, n) == Some((done, pos))
    ensures var a := Find(text, ": ", pos);
            var b := if a < 0 then -1 else Find(text, CRLF, a + 2);
            ParseHeaders(text, start, n + 1) ==
              if b < 0 then None else Some((done + [Header(text[pos..a], text[a + 2..b])], b + 2))
  {
    hide Find;
    HeadersSplit(text, start, n, 1);
    var a := Find(text, ": ", pos);
    var b := if a < 0 then -1 else Find(text, CRLF, a + 2);
    if b >= 0 {
      var h := Header(text[pos..a], text[a + 2..b]);
      assert ParseHeaders(text, b + 2, 0) == Some(([], b + 2)) && [h] + [] == [h];
      assert ParseHeaders(text, pos, 1) == Some(([h], b + 2));
    }
  }

  /** Cuts one header: the field at `field`, its value, and where the next line starts. */
  method CutHeader(buf: array<char>, field: nat, ghost text: string) returns (value: int, next: int)
    requires Holds(buf, text, field) && field <= |text|
    modifies buf
    ensures forall k | 0 <= k < field :: buf[k] == old(buf[k])
    ensures var a := Find(text, ": ", field);
            var b := if a < 0 then -1 else Find(text, CRLF, a + 2);
            if b < 0 then next == -1
            else value == a + 2 && next == b + 2 <= |text| && Holds(buf, text, next)
                 && Piece(buf[..], text, field, a) && Piece(buf[..], text, value, b)
  {
    hide Find;
    next := -1;
    value := NextToken(buf, field, ": ", text);
    if value < 0 {
      return;
    }
    ghost var s1 := buf[..];
    next := NextToken(buf, value, CRLF, text);
    if next >= 0 {
      PieceStays(s1, buf[..], text, field, value - 2);
    }
  }

  /** At most the first `MAX_HEADERS`. */
  function Stored<T>(s: seq<T>): seq<T> {
    if |s| <= MAX_HEADERS then s else s[..MAX_HEADERS]
  }

  /** Cuts `n` headers and stores where they start. There are `MAX_HEADERS` places for them;
      `inside` says whether all that were cut had one. */
  method ParseHeadersInPlace(buf: array<char>, start: nat, n: nat, ghost text: string)
    returns (pos: int, hs: seq<(nat, nat)>, inside: bool, ghost all: seq<(nat, nat)>, ghost ends: seq<(nat, nat)>)
    requires Holds(buf, text, start) && start <= |text|
    modifies buf
    ensures forall k | 0 <= k < start :: buf[k] == old(buf[k])
    ensures var r := ParseHeaders(text, start, n);
            if r.None? then pos == -1
            else
              && pos == r.value.1 <= |text| && Holds(buf, text, pos) && HeaderPiecesOk(buf[..], text, all, ends, pos)
              && HeadersAt(text, all, ends) == r.value.0 && hs == Stored(all)
    ensures inside <==> n <= MAX_HEADERS || ParseHeaders(text, start, MAX_HEADERS + 1).None?
  {
    hide Find, ParseHeaders, Stored;
    StoreNone<(nat, nat)>();
    pos, hs, inside, all, ends := start, [], true, [], [];
    NoHeaders(text, start);
    for i := 0 to n
      invariant start <= pos <= |text| && |all| == i && hs == Stored(all) && inside == (i <= MAX_HEADERS)
      invariant Holds(buf, text, pos) && HeaderPiecesOk(buf[..], text, all, ends, pos)
      invariant forall k | 0 <= k < start :: buf[k] == old(buf[k])
      invariant ParseHeaders(text, start, i) == Some((HeadersAt(text, all, ends), pos))
    {
      ghost var before := buf[..];
      NextHeader(text, start, i, HeadersAt(text, all, ends), pos);
      var value, next := CutHeader(buf, pos, text);
      if next < 0 {
        LastStored(text, start, i, n);
        return -1, [], inside, [], [];
      }
      hide HeadersAt;
      PiecesStay(before, buf[..], text, all, ends, pos, next);
      HeadersAppend(text, all, ends, (pos, value as nat), (value - 2, next - 2));
      StoreOne(all, (pos, value as nat));
      if i < MAX_HEADERS {
        hs := hs + [(pos, value)];
      } else {
        inside := false;
      }
      all := all + [(pos, value as nat)];
      ends := ends + [(value - 2, next - 2)];
      pos := next;
    }
    HeadersCounted(text, start, n);
  }

  lemma StoreNone<T>()
    ensures Stored<T>([]) == []
  {}

  lemma StoreOne<T>(s: seq<T>, x: T)
    ensures Stored(s + [x]) == if |s| < MAX_HEADERS then Stored(s) + [x] else Stored(s)
  {}

  lemma NoHeaders(text: string, start: nat)
    ensures ParseHeaders(text, start, 0) == Some(([], start))
  {}

  /** Reading stopped behind the first `i` headers; they all had a place iff there are enough
      places for what is counted or the header behind the last place cannot be read. */
  lemma LastStored(text: string, start: nat, i: nat, n: nat)
    requires i < n && ParseHeaders(text, start, i).Some? && ParseHeaders(text, start, i + 1).None?
    ensures i <= MAX_HEADERS <==> n <= MAX_HEADERS || ParseHeaders(text, start, MAX_HEADERS + 1).None?
    ensures ParseHeaders(text, start, n).None?
  {
    hide ParseHeaders;
    HeadersSplit(text, start, i + 1, n - i - 1);
    if i <= MAX_HEADERS {
      HeadersSplit(text, start, i + 1, MAX_HEADERS - i);
    } else {
      HeadersSplit(text, start, MAX_HEADERS + 1, i - MAX_HEADERS - 1);
    }
  }

  lemma HeadersAppend(text: string, hs: seq<(nat, nat)>, ends: seq<(nat, nat)>, h: (nat, nat), e: (nat, nat))
    requires |ends| == |hs| && forall i | 0 <= i < |hs| ::
      hs[i].0 <= ends[i].0 <= |text| && hs[i].1 <= ends[i].1 <= |text|
    requires h.0 <= e.0 <= |text| && h.1 <= e.1 <= |text|
    ensures HeadersAt(text, hs + [h], ends + [e])
        == HeadersAt(text, hs, ends) + [Header(text[h.0..e.0], text[h.1..e.1])]
  {}

  lemma HeadersRead(s: string, text: string, hs: seq<(nat, nat)>, ends: seq<(nat, nat)>, limit: int)
    requires HeaderPiecesOk(s, text, hs, ends, limit)
    ensures ReadHeaders(s, hs) == HeadersAt(text, hs, ends)
  {
    forall i | 0 <= i < |hs| ensures ReadHeaders(s, hs)[i] == HeadersAt(text, hs, ends)[i] {
      PieceReads(s, text, hs[i].0, ends[i].0);
      PieceReads(s, text, hs[i].1, ends[i].1);
    }
  }

  /** The three tokens of the request line can be read. */
  ghost predicate LinePieces(s: string, text: string, p2: nat, p3: nat, p4: nat) {
    && 1 <= p2 < p3 && p3 + 2 <= p4
    && Piece(s, text, 0, p2 - 1) && Piece(s, text, p2, p3 - 1) && Piece(s, text, p3, p4 - 2)
  }

  lemma LineStays(s: string, t: string, text: string, p2: nat, p3: nat, p4: nat)
    requires LinePieces(s, text, p2, p3, p4) && |t| == |s| && forall k | 0 <= k < p4 :: k < |s| ==> t[k] == s[k]
    ensures LinePieces(t, text, p2, p3, p4)
  {}

  method ParseRequestLine(buf: array<char>, ghost text: string) returns (p2: int, p3: int, p4: int)
    requires Holds(buf, text, 0)
    modifies buf
    ensures var a := Find(text, " ", 0);
            var b := if a < 0 then -1 else Find(text, " ", a + 1);
            var c := if b < 0 then -1 else Find(text, CRLF, b + 1);
            if c < 0 then p4 == -1
            else
              && p2 == a + 1 && p3 == b + 1 && p4 == c + 2 <= |text|
              && Holds(buf, text, p4) && LinePieces(buf[..], text, p2, p3, p4)
  {
    hide Find;
    p2, p3, p4 := -1, -1, -1;
    p2 := NextToken(buf, 0, " ", text);
    if p2 < 0 {
      return;
    }
    ghost var s1 := buf[..];
    p3 := NextToken(buf, p2, " ", text);
    if p3 < 0 {
      return;
    }
    ghost var s2 := buf[..];
    PieceStays(s1, s2, text, 0, p2 - 1);
    p4 := NextToken(buf, p3, CRLF, text);
    if p4 < 0 {
      return;
    }
    PieceStays(s2, buf[..], text, 0, p2 - 1);
    PieceStays(s2, buf[..], text, p2, p3 - 1);
  }

  lemma LineReads(s: string, text: string, p2: nat, p3: nat, p4: nat)
    requires LinePieces(s, text, p2, p3, p4)
    ensures CStr(s, 0) == text[..p2 - 1] && CStr(s, p2) == text[p2..p3 - 1] && CStr(s, p3) == text[p3..p4 - 2]
  {
    PieceReads(s, text, 0, p2 - 1);
    PieceReads(s, text, p2, p3 - 1);
    PieceReads(s, text, p3, p4 - 2);
  }

  /** Cutting the buffer in place yields exactly the message that `Parse` describes: the C
      strings left at the stored offsets are its parts, and all its headers are stored iff
      they fit the message's `MAX_HEADERS` places. */
  method ParseHypertext(buf: array<char>, ghost text: string) returns (ok: bool, o: Offsets, inside: bool)
    requires Holds(buf, text, 0)
    modifies buf
    ensures inside == HeadersFit(text)
    ensures ok == Parse(text).Some?
    ensures ok ==> ReadBack(buf[..], o) == Parse(text).value.(headers := Stored(Parse(text).value.headers))
    ensures ok && inside ==> ReadBack(buf[..], o) == Parse(text).value
  {
    hide Find, ParseHeaders, CountHeaders, Piece, CStr, ReadBack, Stored, HeadersAt, LinePieces, HeaderPiecesOk;
    hide Parse, HeadersFit;
    ParseParts(text);
    o, inside := Offsets(0, 0, 0, [], 0), true;
    var p2, p3, p4 := ParseRequestLine(buf, text);
    if p4 < 0 {
      return false, o, true;
    }
    ghost var s1 := buf[..];
    var n := CountHeaderLines(buf, p4, text);
    var pos, hs;
    ghost var all, ends;
    pos, hs, inside, all, ends := ParseHeadersInPlace(buf, p4, n, text);
    if pos < 0 {
      return false, o, inside;
    }
    HeadersCounted(text, p4, n);
    ghost var s2 := buf[..];
    LineStays(s1, s2, text, p2, p3, p4);
    var body := NextToken(buf, pos, CRLF, text);
    if body < 0 {
      return false, o, inside;
    }
    LineStays(s2, buf[..], text, p2, p3, p4);
    PiecesStay(s2, buf[..], text, all, ends, pos, body);
    ok, o := true, Offsets(0, p2, p3, hs, body);
    Assembled(buf[..], text, p2, p3, p4, all, ends, body);
    if inside {
      StoredAll(Parse(text).value.headers);
    }
  }

  /** What parsing comes down to once the request line is found. */
  lemma ParseParts(text: string)
    ensures var a := Find(text, " ", 0);
            var b := if a < 0 then -1 else Find(text, " ", a + 1);
            var c := if b < 0 then -1 else Find(text, CRLF, b + 1);
            if c < 0 then Parse(text).None? && HeadersFit(text)
            else
              var n := CountHeaders(text, c + 2);
              var r := ParseHeaders(text, c + 2, n);
              && HeadersFit(text) == (n <= MAX_HEADERS || ParseHeaders(text, c + 2, MAX_HEADERS + 1).None?)
              && if r.None? then Parse(text).None?
                 else
                   var e := Find(text, CRLF, r.value.1);
                   Parse(text) == if e < 0 then None
                                  else Some(Msg(text[..a], text[a + 1..b], text[b + 1..c], r.value.0, text[e + 2..]))
  {
    hide Find, ParseHeaders, CountHeaders;
  }

  /** The pieces of a text whose request line, headers and body have been cut. */
  lemma Assembled(s: string, text: string, p2: nat, p3: nat, p4: nat, all: seq<(nat, nat)>, ends: seq<(nat, nat)>,
      body: nat)
    requires LinePieces(s, text, p2, p3, p4) && HeaderPiecesOk(s, text, all, ends, body)
    requires |text| < |s| && s[|text|] == NUL && NUL !in text && body <= |text|
    requires forall k | body <= k < |text| :: s[k] == text[k]
    ensures ReadBack(s, Offsets(0, p2, p3, Stored(all), body)) ==
            Msg(text[..p2 - 1], text[p2..p3 - 1], text[p3..p4 - 2], Stored(HeadersAt(text, all, ends)), text[body..])
  {
    hide CStr, Piece;
    LineReads(s, text, p2, p3, p4);
    HeadersRead(s, text, all, ends, body);
    StoredRead(s, all);
    BodyReads(s, text, body);
  }

  lemma StoredAll<T>(s: seq<T>)
    ensures |s| <= MAX_HEADERS ==> Stored(s) == s
  {}

  lemma HeadersCounted(text: string, start: nat, n: nat)
    requires ParseHeaders(text, start, n).Some?
    ensures |ParseHeaders(text, start, n).value.0| == n
    ensures n > MAX_HEADERS ==> ParseHeaders(text, start, MAX_HEADERS + 1).Some?
  {
    if n > MAX_HEADERS {
      HeadersSplit(text, start, MAX_HEADERS + 1, n - MAX_HEADERS - 1);
    }
  }

  lemma StoredRead(s: string, all: seq<(nat, nat)>)
    ensures ReadHeaders(s, Stored(all)) == Stored(ReadHeaders(s, all))
  {
    hide CStr;
  }

  lemma BodyReads(s: string, text: string, body: nat)
    requires |text| < |s| && s[|text|] == NUL && NUL !in text && body <= |text|
    requires forall k | body <= k < |text| :: s[k] == text[k]
    ensures CStr(s, body) == text[body..]
  {
    PieceReads(s, text, body, |text|);
    assert text[body..|text|] == text[body..];
  }

  // ----- Printing -----

  /** The buffer after printing `text` into it: the text, cut to leave room for a terminator,
      and zero characters to the end. */
  function Printed(text: string): (s: string)
    ensures |s| == MAX_BUF
  {
    seq(MAX_BUF, i requires 0 <= i => if i < |text| && i < MAX_BUF - 1 then text[i] else NUL)
  }

  /** `snprintf` of one piece at a running offset; nothing fits once the buffer is full. */
  method Append(buf: array<char>, offset: nat, piece: string, ghost before: string) returns (next: nat)
    requires buf.Length == MAX_BUF && offset == |before| && buf[..] == Printed(before)
    modifies buf
    ensures next == offset + |piece| && buf[..] == Printed(before + piece)
  {
    for i := 0 to |piece|
      invariant buf[..] == Printed(before + piece[..i])
    {
      if offset + i < MAX_BUF - 1 {
        buf[offset + i] := piece[i];
      }
      assert (before + piece[..i + 1]) == (before + piece[..i]) + [piece[i]];
    }
    assert piece[..|piece|] == piece;
    next := offset + |piece|;
  }

  /** The offset at which the body is printed: headers are printed while the buffer is not full. */
  function HeadEndFrom(n: nat, hs: seq<Header>): nat
    decreases |hs|
  {
    if hs == [] || n >= MAX_BUF then n else HeadEndFrom(n + |Line(hs[0])| + 2, hs[1..])
  }

  function HeadEnd(m: Msg): nat {
    HeadEndFrom(|RequestLine(m)|, m.headers)
  }

  /** Some of the headers fill the buffer to its last place exactly. */
  ghost predicate FillsExactly(n: nat, hs: seq<Header>) {
    exists k :: 0 <= k <= |hs| && n + |HeaderText(hs[..k])| == MAX_BUF
  }

  lemma {:induction false} HeadEndFits(n: nat, hs: seq<Header>)
    ensures HeadEndFrom(n, hs) <= MAX_BUF <==> n + |HeaderText(hs)| <= MAX_BUF || FillsExactly(n, hs)
    decreases |hs|
  {
    assert hs[..0] == [] && HeaderText([]) == "";
    if hs != [] && n < MAX_BUF {
      var n' := n + |Line(hs[0])| + 2;
      HeadEndFits(n', hs[1..]);
      forall k | 0 < k <= |hs| ensures n + |HeaderText(hs[..k])| == n' + |HeaderText(hs[1..][..k - 1])| {
        assert hs[..k][1..] == hs[1..][..k - 1];
      }
      if FillsExactly(n', hs[1..]) {
        var k :| 0 <= k <= |hs| - 1 && n' + |HeaderText(hs[1..][..k])| == MAX_BUF;
        assert n + |HeaderText(hs[..k + 1])| == MAX_BUF;
      }
    }
  }

  /** The body is printed at an offset inside the buffer, or right behind it, where nothing is
      written, if and only if the request line and the headers fit the buffer, or some of the
      headers fill it exactly. */
  lemma BodyHasPlace(m: Msg)
    ensures HeadEnd(m) <= MAX_BUF <==>
            |RequestLine(m) + HeaderText(m.headers)| <= MAX_BUF || FillsExactly(|RequestLine(m)|, m.headers)
  {
    hide RequestLine, HeaderText;
    HeadEndFits(|RequestLine(m)|, m.headers);
  }

  /** One header longer than the buffer leaves the body no place in it. */
  lemma LongHeaderLeavesNoPlace(value: string)
    requires |value| >= MAX_BUF
    ensures var m := Msg("A", "B", "C", [Header("f", value)], ""); HeadEnd(m) > MAX_BUF
  {
    var m := Msg("A", "B", "C", [Header("f", value)], "");
    assert |RequestLine(m)| == 7 && |Line(m.headers[0])| == 3 + |value|;
    assert m.headers[1..] == [] && HeadEndFrom(12 + |value|, []) == 12 + |value|;
    assert HeadEnd(m) == HeadEndFrom(7 + (3 + |value|) + 2, m.headers[1..]);
  }

  /** Prints a message piece by piece. It reports failure exactly when the text is longer
      than the buffer. `place` is the size the printing of the body is told it may use; when
      it is negative the body is not for this buffer. */
  method ConvertToHypertext(m: Msg, buf: array<char>) returns (ok: bool, place: int)
    requires buf.Length == MAX_BUF
    modifies buf
    ensures ok == (|Text(m)| <= MAX_BUF) && place == MAX_BUF - HeadEnd(m) && (ok ==> place >= 0)
    ensures ok ==> buf[..] == Printed(Text(m))
  {
    hide Printed;
    for i := 0 to MAX_BUF
      invariant forall k | 0 <= k < i :: buf[k] == NUL
    {
      buf[i] := NUL;
    }
    BlankIsPrinted(buf[..]);
    var offset := Append(buf, 0, RequestLine(m), "");
    ghost var done := RequestLine(m);
    assert "" + RequestLine(m) == done;
    var i := 0;
    while i < |m.headers| && offset < MAX_BUF
      invariant 0 <= i <= |m.headers| && offset == |done| && buf[..] == Printed(done)
      invariant HeadEndFrom(offset, m.headers[i..]) == HeadEnd(m)
      invariant done + HeaderText(m.headers[i..]) == RequestLine(m) + HeaderText(m.headers)
    {
      var line := m.headers[i].field + ": " + m.headers[i].value + CRLF;
      offset := Append(buf, offset, line, done);
      assert m.headers[i..][1..] == m.headers[i + 1..];
      assert done + (line + HeaderText(m.headers[i + 1..])) == done + line + HeaderText(m.headers[i + 1..]);
      done := done + line;
      i := i + 1;
    }
    assert |Text(m)| == |done| + |HeaderText(m.headers[i..])| + 2 + |m.body|;
    place := MAX_BUF - offset;
    offset := Append(buf, offset, CRLF + m.body, done);
    if offset > MAX_BUF {
      return false, place;
    }
    assert m.headers[i..] == [];
    assert done + (CRLF + m.body) == Text(m);
    return true, place;
  }

  lemma BlankIsPrinted(s: string)
    requires |s| == MAX_BUF && forall k | 0 <= k < MAX_BUF :: s[k] == NUL
    ensures s == Printed("")
  {}

  /** A printed text can be read back whole if and only if it leaves room for the
      terminator: at exactly the buffer's length the printer reports success but the last
      character is lost. */
  lemma PrintedIsWhole(text: string)
    requires NUL !in text
    ensures CStr(Printed(text), 0) == text <==> |text| < MAX_BUF
  {
    var s := Printed(text);
    var e := if |text| < MAX_BUF then |text| else MAX_BUF - 1;
    forall k | 0 <= k < e ensures s[k] != NUL {
      assert s[k] == text[k];
    }
    CStrIs(s, 0, e);
    assert s[0..e] == text[..e];
    if |text| < MAX_BUF {
      assert text[..e] == text;
    }
  }

  /** Printing into a buffer and parsing that buffer in place gives back the message, for
      every legal message with a header whose text is shorter than the buffer; all its headers
      have a place iff there are at most `MAX_HEADERS`. */
  method PrintThenParse(m: Msg, buf: array<char>) returns (ok: bool, o: Offsets, inside: bool)
    requires buf.Length == MAX_BUF && Legal(m) && m.headers != [] && NUL !in Text(m) && |Text(m)| < MAX_BUF
    modifies buf
    ensures ok && inside == (|m.headers| <= MAX_HEADERS)
    ensures ReadBack(buf[..], o) == m.(headers := Stored(m.headers)) && (inside ==> ReadBack(buf[..], o) == m)
  {
    var place;
    ok, place := ConvertToHypertext(m, buf);
    PrintedHolds(buf, Text(m));
    ParseUndoesPrint(m);
    PrintedHeadersFit(m);
    ok, o, inside := ParseHypertext(buf, Text(m));
  }

  lemma PrintedHolds(buf: array<char>, text: string)
    requires buf.Length == MAX_BUF && |text| < MAX_BUF && NUL !in text && buf[..] == Printed(text)
    ensures Holds(buf, text, 0)
  {
    forall k | 0 <= k < |text| ensures buf[k] == text[k] {
      assert buf[..][k] == Printed(text)[k];
    }
    assert buf[..][|text|] == NUL;
  }
}
