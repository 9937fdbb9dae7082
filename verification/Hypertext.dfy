/** HTTTP text (libhypertext.c): the printer, the parser that cuts its buffer into C strings
    in place, and exactly when one undoes the other. */
module Hypertext {

  const MAX_BUF := 2048
  const MAX_HEADERS := 16
  const NUL := '\0'
  const CRLF: string := "\r\n"
  const BLANK: string := "\r\n\r\n"

  // ----- Finding substrings -----

  predicate Occurs(s: string, pat: string, i: int) {
    0 <= i && i + |pat| <= |s| && s[i..i + |pat|] == pat
  }

  /** First occurrence at or after `i`, or -1. */
  function Find(s: string, pat: string, i: nat): (p: int)
    ensures p == -1 || (i <= p && Occurs(s, pat, p))
    ensures forall k | i <= k && (p == -1 || k < p) :: !Occurs(s, pat, k)
    decreases |s| - i
  {
    if i + |pat| > |s| then -1
    else if Occurs(s, pat, i) then i
    else Find(s, pat, i + 1)
  }

  lemma FindIs(s: string, pat: string, i: nat, p: nat)
    requires i <= p && Occurs(s, pat, p) && forall k | i <= k < p :: !Occurs(s, pat, k)
    ensures Find(s, pat, i) == p
  {}

  lemma SkipFind(s: string, pat: string, i: nat, j: nat)
    requires i <= j && forall k | i <= k < j :: !Occurs(s, pat, k)
    ensures Find(s, pat, i) == Find(s, pat, j)
  {
    var p := Find(s, pat, j);
    if p >= 0 {
      FindIs(s, pat, i, p);
    }
  }

  lemma NotOccurs(s: string, pat: string, k: nat, j: nat)
    requires j < |pat| && (k + j >= |s| || s[k + j] != pat[j])
    ensures !Occurs(s, pat, k)
  {
    if k + |pat| <= |s| {
      assert s[k..k + |pat|][j] == s[k + j];
    }
  }

  // ----- Messages -----

  datatype Option<T> = None | Some(value: T)

  datatype Header = Header(field: string, value: string)

  datatype Msg = Msg(token1: string, token2: string, token3: string, headers: seq<Header>, body: string)

  function HeaderText(hs: seq<Header>): string {
    if hs == [] then "" else hs[0].field + ": " + hs[0].value + CRLF + HeaderText(hs[1..])
  }

  function RequestLine(m: Msg): string {
    m.token1 + " " + m.token2 + " " + m.token3 + CRLF
  }

  /** The printed form of a message. */
  function Text(m: Msg): string {
    RequestLine(m) + HeaderText(m.headers) + CRLF + m.body
  }

  // ----- What the parser computes -----

  function CountLines(text: string, p: nat, end: int): nat
    decreases |text| - p
  {
    if p >= end || p >= |text| then 0
    else
      var q := Find(text, CRLF, p);
      if q < 0 then 0 else 1 + CountLines(text, q + 2, end)
  }

  function CountHeaders(text: string, i: nat): nat {
    CountLines(text, i, Find(text, BLANK, i))
  }

  function ParseHeaders(text: string, i: nat, n: nat): (r: Option<(seq<Header>, nat)>)
    ensures r.Some? ==> |r.value.0| == n && i <= r.value.1 && (i <= |text| ==> r.value.1 <= |text|)
    decreases n
  {
    if n == 0 then Some(([], i))
    else
      var a := Find(text, ": ", i);
      if a < 0 then None
      else
        var b := Find(text, CRLF, a + 2);
        if b < 0 then None
        else
          match ParseHeaders(text, b + 2, n - 1)
          case None => None
          case Some((hs, d)) => Some(([Header(text[i..a], text[a + 2..b])] + hs, d))
  }

  /** Parsing the first `n` headers, then `m` more. */
  lemma {:induction false} HeadersSplit(text: string, i: nat, n: nat, m: nat)
    ensures var p, r := ParseHeaders(text, i, n), ParseHeaders(text, i, n + m);
            if p.None? then r.None?
            else
              var q := ParseHeaders(text, p.value.1, m);
              r == if q.None? then None else Some((p.value.0 + q.value.0, q.value.1))
    decreases n
  {
    hide Find, ParseHeaders;
    if n == 0 {
      NoneRead(text, i, m);
    } else {
      FirstHeader(text, i, n);
      FirstHeader(text, i, n + m);
      var a := Find(text, ": ", i);
      var b := if a < 0 then -1 else Find(text, CRLF, a + 2);
      if b >= 0 {
        HeadersSplit(text, b + 2, n - 1, m);
        var p := ParseHeaders(text, b + 2, n - 1);
        if p.Some? && ParseHeaders(text, p.value.1, m).Some? {
          Regrouped(Header(text[i..a], text[a + 2..b]), p.value.0, ParseHeaders(text, p.value.1, m).value.0);
        }
      }
    }
  }

  lemma NoneRead(text: string, i: nat, m: nat)
    ensures ParseHeaders(text, i, 0) == Some(([], i))
    ensures ParseHeaders(text, i, m).Some? ==>
              [] + ParseHeaders(text, i, m).value.0 == ParseHeaders(text, i, m).value.0
  {
    hide Find;
  }

  lemma FirstHeader(text: string, pos: nat, left: nat)
    requires left > 0
    ensures var a := Find(text, ": ", pos);
            var b := if a < 0 then -1 else Find(text, CRLF, a + 2);
            var r := ParseHeaders(text, pos, left);
            if b < 0 then r.None?
            else
              var q := ParseHeaders(text, b + 2, left - 1);
              r == if q.None? then None else Some(([Header(text[pos..a], text[a + 2..b])] + q.value.0, q.value.1))
  {
    hide Find;
  }

  lemma Regrouped(h: Header, a: seq<Header>, b: seq<Header>)
    ensures [h] + (a + b) == [h] + a + b
  {}

  /** Where the headers start in a text with a request line, or -1. */
  function HeadersFrom(text: string): int {
    var a := Find(text, " ", 0);
    var b := if a < 0 then -1 else Find(text, " ", a + 1);
    var c := if b < 0 then -1 else Find(text, CRLF, b + 1);
    if c < 0 then -1 else c + 2
  }

  /** The parser stores no more headers than a message has places for: no more are counted, or
      the one after the last place cannot be read. */
  predicate HeadersFit(text: string) {
    var h := HeadersFrom(text);
    h < 0 || CountHeaders(text, h) <= MAX_HEADERS || ParseHeaders(text, h, MAX_HEADERS + 1).None?
  }

  function Parse(text: string): Option<Msg> {
    var a := Find(text, " ", 0);
    if a < 0 then None
    else
      var b := Find(text, " ", a + 1);
      if b < 0 then None
      else
        var c := Find(text, CRLF, b + 1);
        if c < 0 then None
        else
          match ParseHeaders(text, c + 2, CountHeaders(text, c + 2))
          case None => None
          case Some((hs, d)) =>
            var e := Find(text, CRLF, d);
            if e < 0 then None
            else Some(Msg(text[..a], text[a + 1..b], text[b + 1..c], hs, text[e + 2..]))
  }

  // ----- Legal messages -----

  /** What `msg_add_header` accepts. */
  predicate LegalHeader(h: Header) {
    && (forall i | 0 <= i < |h.field| :: h.field[i] != '\r' && h.field[i] != '\n' && h.field[i] != ':')
    && (forall i | 0 <= i < |h.value| :: h.value[i] != '\r' && h.value[i] != '\n')
  }

  ghost predicate Legal(m: Msg) {
    && ' ' !in m.token1 && ' ' !in m.token2 && (forall i :: !Occurs(m.token3, CRLF, i))
    && (forall i | 0 <= i < |m.headers| :: LegalHeader(m.headers[i]))
  }

  // ----- Parsing undoes printing -----

  /** `part` stands at position `i` of `text`. */
  ghost predicate Stands(text: string, i: int, part: string) {
    0 <= i && i + |part| <= |text| && forall k | 0 <= k < |part| :: text[i + k] == part[k]
  }

  lemma StandsSplit(text: string, i: int, a: string, b: string)
    ensures Stands(text, i, a + b) <==> Stands(text, i, a) && Stands(text, i + |a|, b)
  {
    if Stands(text, i, a + b) {
      forall k | 0 <= k < |a| ensures text[i + k] == a[k] {
        assert (a + b)[k] == a[k];
      }
      forall k | 0 <= k < |b| ensures text[i + |a| + k] == b[k] {
        assert (a + b)[|a| + k] == b[k];
      }
    }
    if Stands(text, i, a) && Stands(text, i + |a|, b) {
      forall k | 0 <= k < |a + b| ensures text[i + k] == (a + b)[k] {
        if k >= |a| {
          assert text[i + |a| + (k - |a|)] == b[k - |a|];
        }
      }
    }
  }

  lemma StandsOccurs(text: string, i: int, part: string)
    ensures Stands(text, i, part) <==> Occurs(text, part, i)
  {}

  lemma StandsSlice(text: string, i: int, part: string)
    requires Stands(text, i, part)
    ensures text[i..i + |part|] == part
  {}

  /** A token without the delimiter's first character ends at the delimiter. */
  lemma TokenEnds(text: string, i: nat, token: string, delim: string)
    requires Stands(text, i, token) && Stands(text, i + |token|, delim)
    requires delim != "" && delim[0] !in token
    ensures Find(text, delim, i) == i + |token|
  {
    StandsOccurs(text, i + |token|, delim);
    forall k | i <= k < i + |token| ensures !Occurs(text, delim, k) {
      assert text[k] == token[k - i];
      NotOccurs(text, delim, k, 0);
    }
    FindIs(text, delim, i, i + |token|);
  }

  /** A token without line ends ends at the line end, whatever follows. */
  lemma LineEnds(text: string, i: nat, token: string)
    requires Stands(text, i, token) && Stands(text, i + |token|, CRLF)
    requires forall k :: !Occurs(token, CRLF, k)
    ensures Find(text, CRLF, i) == i + |token|
  {
    StandsOccurs(text, i + |token|, CRLF);
    forall k | i <= k < i + |token| ensures !Occurs(text, CRLF, k) {
      if k + 1 < i + |token| {
        assert text[k] == token[k - i] && text[k + 1] == token[k + 1 - i];
        assert !Occurs(token, CRLF, k - i);
        assert token[k - i..k - i + 2] == [token[k - i], token[k - i + 1]];
        assert text[k..k + 2] == [text[k], text[k + 1]];
      } else {
        assert text[k + 1] == CRLF[0];
        NotOccurs(text, CRLF, k, 1);
      }
    }
    FindIs(text, CRLF, i, i + |token|);
  }

  function Line(h: Header): string {
    h.field + ": " + h.value
  }

  lemma LineIsClean(h: Header)
    requires LegalHeader(h)
    ensures |Line(h)| >= 2 && forall k | 0 <= k < |Line(h)| :: Line(h)[k] != '\r' && Line(h)[k] != '\n'
  {}

  lemma HeaderTextCons(hs: seq<Header>)
    requires hs != []
    ensures HeaderText(hs) == Line(hs[0]) + CRLF + HeaderText(hs[1..])
  {}

  lemma NoHeaderText(hs: seq<Header>)
    requires hs == []
    ensures HeaderText(hs) == ""
  {}

  ghost predicate AllLegal(hs: seq<Header>) {
    forall i | 0 <= i < |hs| :: LegalHeader(hs[i])
  }

  /** The pieces of the first header line. */
  lemma FirstLineStands(text: string, i: nat, hs: seq<Header>)
    requires hs != [] && Stands(text, i, HeaderText(hs))
    ensures var l := Line(hs[0]);
            && Stands(text, i, l) && Stands(text, i + |l|, CRLF) && Stands(text, i + |l| + 2, HeaderText(hs[1..]))
  {
    HeaderTextCons(hs);
    var l := Line(hs[0]);
    StandsSplit(text, i, l + CRLF, HeaderText(hs[1..]));
    StandsSplit(text, i, l, CRLF);
  }

  lemma HeaderPieces(text: string, i: nat, h: Header)
    requires LegalHeader(h) && Stands(text, i, Line(h)) && Stands(text, i + |Line(h)|, CRLF)
    ensures Find(text, ": ", i) == i + |h.field|
    ensures Find(text, CRLF, i + |h.field| + 2) == i + |Line(h)|
    ensures text[i..i + |h.field|] == h.field && text[i + |h.field| + 2..i + |Line(h)|] == h.value
  {
    hide Stands, Find;
    StandsSplit(text, i, h.field + ": ", h.value);
    StandsSplit(text, i, h.field, ": ");
    TokenEnds(text, i, h.field, ": ");
    TokenEnds(text, i + |h.field| + 2, h.value, CRLF);
    StandsSlice(text, i, h.field);
    StandsSlice(text, i + |h.field| + 2, h.value);
  }

  lemma ParseHeadersStep(text: string, i: nat, n: nat, a: nat, b: nat, hs: seq<Header>, d: nat)
    requires n > 0 && Find(text, ": ", i) == a && Find(text, CRLF, a + 2) == b
    requires ParseHeaders(text, b + 2, n - 1) == Some((hs, d))
    ensures ParseHeaders(text, i, n) == Some(([Header(text[i..a], text[a + 2..b])] + hs, d))
  {
    hide Find;
  }

  /** One header line parses if the rest does. */
  lemma OneMoreHeader(text: string, i: nat, hs: seq<Header>)
    requires hs != [] && AllLegal(hs) && Stands(text, i, HeaderText(hs))
    requires var j := i + |Line(hs[0])| + 2;
             ParseHeaders(text, j, |hs| - 1) == Some((hs[1..], j + |HeaderText(hs[1..])|))
    ensures ParseHeaders(text, i, |hs|) == Some((hs, i + |HeaderText(hs)|))
  {
    hide Find, Stands, LegalHeader, HeaderText, ParseHeaders;
    var h, l := hs[0], Line(hs[0]);
    FirstLineStands(text, i, hs);
    HeaderPieces(text, i, h);
    HeaderTextCons(hs);
    ParseHeadersStep(text, i, |hs|, i + |h.field|, i + |l|, hs[1..], i + |HeaderText(hs)|);
    assert [h] + hs[1..] == hs;
  }

  lemma {:induction false} HeadersParse(text: string, i: nat, hs: seq<Header>)
    requires AllLegal(hs) && Stands(text, i, HeaderText(hs))
    ensures ParseHeaders(text, i, |hs|) == Some((hs, i + |HeaderText(hs)|))
    decreases |hs|
  {
    hide Find, LegalHeader, Stands;
    if hs != [] {
      FirstLineStands(text, i, hs);
      HeadersParse(text, i + |Line(hs[0])| + 2, hs[1..]);
      OneMoreHeader(text, i, hs);
    }
  }

  /** No blank line starts inside a header line, nor at its end if another header follows. */
  lemma NoBlankInLine(text: string, i: nat, l: string, more: bool)
    requires Stands(text, i, l) && Stands(text, i + |l|, CRLF)
    requires forall k | 0 <= k < |l| :: l[k] != '\r' && l[k] != '\n'
    requires more ==> i + |l| + 2 < |text| && text[i + |l| + 2] != '\r'
    ensures forall k | i <= k < i + |l| + (if more then 2 else 0) :: !Occurs(text, BLANK, k)
  {
    forall k | i <= k < i + |l| + (if more then 2 else 0) ensures !Occurs(text, BLANK, k) {
      if k < i + |l| {
        assert text[k] == l[k - i];
        NotOccurs(text, BLANK, k, 0);
      } else if k == i + |l| {
        NotOccurs(text, BLANK, k, 2);
      } else {
        assert text[k] == CRLF[1];
        NotOccurs(text, BLANK, k, 0);
      }
    }
  }

  /** The blank line is found right behind the last header. */
  lemma {:induction false} BlankAfterHeaders(text: string, i: nat, hs: seq<Header>)
    requires hs != [] && AllLegal(hs) && Stands(text, i, HeaderText(hs)) && Stands(text, i + |HeaderText(hs)|, CRLF)
    ensures Find(text, BLANK, i) == i + |HeaderText(hs)| - 2
    decreases |hs|
  {
    hide Stands, Find, HeaderText, LegalHeader, Line, Occurs;
    FirstLineStands(text, i, hs);
    HeaderTextCons(hs);
    LineIsClean(hs[0]);
    var l := Line(hs[0]);
    if |hs| == 1 {
      NoHeaderText(hs[1..]);
      NoBlankInLine(text, i, l, false);
      StandsSplit(text, i + |l|, CRLF, CRLF);
      assert CRLF + CRLF == BLANK;
      StandsOccurs(text, i + |l|, BLANK);
      FindIs(text, BLANK, i, i + |l|);
    } else {
      FirstLineStands(text, i + |l| + 2, hs[1..]);
      LineIsClean(hs[1]);
      FirstChar(text, i + |l| + 2, Line(hs[1]));
      NoBlankInLine(text, i, l, true);
      SkipFind(text, BLANK, i, i + |l| + 2);
      BlankAfterHeaders(text, i + |l| + 2, hs[1..]);
    }
  }

  lemma FirstChar(text: string, i: int, part: string)
    requires Stands(text, i, part) && part != ""
    ensures 0 <= i < |text| && text[i] == part[0]
  {}

  lemma {:induction false} LinesCount(text: string, i: nat, hs: seq<Header>, end: int)
    requires AllLegal(hs) && Stands(text, i, HeaderText(hs)) && end == i + |HeaderText(hs)| - 2
    ensures CountLines(text, i, end) == |hs|
    decreases |hs|
  {
    hide Stands, Find, HeaderText, LegalHeader, Line;
    if hs == [] {
      NoHeaderText(hs);
    } else {
      FirstLineStands(text, i, hs);
      HeaderTextCons(hs);
      LineIsClean(hs[0]);
      var l := Line(hs[0]);
      TokenEnds(text, i, l, CRLF);
      LinesCount(text, i + |l| + 2, hs[1..], end);
    }
  }

  /** Where the parts of a printed message stand. */
  lemma TextStands(m: Msg)
    ensures var t := Text(m);
            var b := |m.token1| + 1;
            var d := b + |m.token2| + 1;
            var h := d + |m.token3| + 2;
            var e := h + |HeaderText(m.headers)|;
            && Stands(t, 0, m.token1) && Stands(t, |m.token1|, " ")
            && Stands(t, b, m.token2) && Stands(t, b + |m.token2|, " ")
            && Stands(t, d, m.token3) && Stands(t, d + |m.token3|, CRLF)
            && Stands(t, h, HeaderText(m.headers)) && Stands(t, e, CRLF) && Stands(t, e + 2, m.body)
                && |t| == e + 2 + |m.body|
  {
    hide Text, Stands, HeaderText, RequestLine;
    FourParts(m);
    RequestLineStands(Text(m), m);
  }

  lemma FourParts(m: Msg)
    ensures var t, r, h := Text(m), |RequestLine(m)|, |HeaderText(m.headers)|;
            && Stands(t, 0, RequestLine(m)) && Stands(t, r, HeaderText(m.headers)) && Stands(t, r + h, CRLF)
            && Stands(t, r + h + 2, m.body) && |t| == r + h + 2 + |m.body|
  {
    hide HeaderText, RequestLine;
    SplitFour(Text(m), RequestLine(m), HeaderText(m.headers), CRLF, m.body);
  }

  lemma SplitFour(t: string, a: string, b: string, d: string, e: string)
    requires t == a + b + d + e
    ensures Stands(t, 0, a) && Stands(t, |a|, b) && Stands(t, |a| + |b|, d) && Stands(t, |a| + |b| + |d|, e)
  {
    assert Stands(t, 0, a + b + d + e);
    hide Stands;
    StandsSplit(t, 0, a + b + d, e);
    StandsSplit(t, 0, a + b, d);
    StandsSplit(t, 0, a, b);
  }

  lemma RequestLineStands(t: string, m: Msg)
    requires Stands(t, 0, RequestLine(m))
    ensures var b := |m.token1| + 1;
            var d := b + |m.token2| + 1;
            && Stands(t, 0, m.token1) && Stands(t, |m.token1|, " ")
            && Stands(t, b, m.token2) && Stands(t, b + |m.token2|, " ")
            && Stands(t, d, m.token3) && Stands(t, d + |m.token3|, CRLF) && |RequestLine(m)| == d + |m.token3| + 2
  {
    hide Stands;
    StandsSplit(t, 0, m.token1 + " " + m.token2 + " " + m.token3, CRLF);
    StandsSplit(t, 0, m.token1 + " " + m.token2 + " ", m.token3);
    StandsSplit(t, 0, m.token1 + " " + m.token2, " ");
    StandsSplit(t, 0, m.token1 + " ", m.token2);
    StandsSplit(t, 0, m.token1, " ");
  }

  /** The request line of a printed legal message is found. */
  lemma RequestLineParses(m: Msg)
    requires Legal(m)
    ensures var t := Text(m);
            var b := |m.token1| + 1;
            var d := b + |m.token2| + 1;
            && Find(t, " ", 0) == |m.token1| && Find(t, " ", b) == b + |m.token2| && Find(t, CRLF, d) == d + |m.token3|
            && t[..|m.token1|] == m.token1 && t[b..b + |m.token2|] == m.token2 && t[d..d + |m.token3|] == m.token3
  {
    TextStands(m);
    var t := Text(m);
    var b := |m.token1| + 1;
    var d := b + |m.token2| + 1;
    hide Text, Stands, Find;
    TokenEnds(t, 0, m.token1, " ");
    TokenEnds(t, b, m.token2, " ");
    LineEnds(t, d, m.token3);
    StandsSlice(t, 0, m.token1);
    StandsSlice(t, b, m.token2);
    StandsSlice(t, d, m.token3);
  }

  /** Where the headers of a printed message begin. */
  function HeaderStart(m: Msg): nat {
    |m.token1| + |m.token2| + |m.token3| + 4
  }

  lemma BodyParses(m: Msg)
    ensures var t := Text(m);
            var e := HeaderStart(m) + |HeaderText(m.headers)|;
            Find(t, CRLF, e) == e && t[e + 2..] == m.body
  {
    TextStands(m);
    var t := Text(m);
    hide Text;
    var e := HeaderStart(m) + |HeaderText(m.headers)|;
    StandsOccurs(t, e, CRLF);
    FindIs(t, CRLF, e, e);
    StandsSlice(t, e + 2, m.body);
  }

  /** The parser's result, given where it finds its delimiters. */
  lemma ParseFrom(text: string, a: nat, b: nat, c: nat, hs: seq<Header>, d: nat, e: nat)
    requires Find(text, " ", 0) == a && Find(text, " ", a + 1) == b && Find(text, CRLF, b + 1) == c
    requires ParseHeaders(text, c + 2, CountHeaders(text, c + 2)) == Some((hs, d)) && Find(text, CRLF, d) == e
    ensures Parse(text) == Some(Msg(text[..a], text[a + 1..b], text[b + 1..c], hs, text[e + 2..]))
  {
    hide Find, ParseHeaders, CountHeaders;
  }

  lemma MsgOf(m: Msg, text: string, d: nat)
    requires ParseHeaders(text, HeaderStart(m), CountHeaders(text, HeaderStart(m))) == Some((m.headers, d))
    requires Legal(m) && text == Text(m) && d == HeaderStart(m) + |HeaderText(m.headers)|
    ensures Parse(text) == Some(m)
  {
    hide ParseHeaders, CountHeaders, HeaderText, Parse, Text, Find, Legal;
    RequestLineParses(m);
    BodyParses(m);
    var b := |m.token1| + 1 + |m.token2|;
    ParseFrom(text, |m.token1|, b, b + 1 + |m.token3|, m.headers, d, d);
  }

  /** Parsing undoes printing for every legal message with at least one header, whatever its
      body. */
  lemma ParseUndoesPrint(m: Msg)
    requires Legal(m) && m.headers != []
    ensures Parse(Text(m)) == Some(m)
  {
    hide Find, ParseHeaders, CountLines, HeaderText, Parse, Text, Stands, LegalHeader;
    var t, h := Text(m), HeaderStart(m);
    TextStands(m);
    BlankAfterHeaders(t, h, m.headers);
    LinesCount(t, h, m.headers, h + |HeaderText(m.headers)| - 2);
    HeadersParse(t, h, m.headers);
    MsgOf(m, t, h + |HeaderText(m.headers)|);
  }

  /** The text of a legal message fits the parser's header array iff the message does. */
  lemma PrintedHeadersFit(m: Msg)
    requires Legal(m) && m.headers != []
    ensures HeadersFit(Text(m)) <==> |m.headers| <= MAX_HEADERS
  {
    hide Find, ParseHeaders, CountLines, HeaderText, Text, Stands, LegalHeader;
    var t, h := Text(m), HeaderStart(m);
    TextStands(m);
    RequestLineParses(m);
    assert HeadersFrom(t) == h;
    BlankAfterHeaders(t, h, m.headers);
    LinesCount(t, h, m.headers, h + |HeaderText(m.headers)| - 2);
    HeadersParse(t, h, m.headers);
    if |m.headers| > MAX_HEADERS {
      HeadersSplit(t, h, MAX_HEADERS + 1, |m.headers| - MAX_HEADERS - 1);
    }
  }

  /** Seventeen short headers: a legal text of 112 characters that is read back, but not into a
      message with sixteen places. */
  lemma SeventeenHeaders()
    ensures var m := Msg("A", "B", "C", seq(17, _ => Header("f", "v")), "x");
            && Legal(m) && |Text(m)| == 112 && Parse(Text(m)) == Some(m) && !HeadersFit(Text(m))
  {
    var hs := seq(17, _ => Header("f", "v"));
    var m := Msg("A", "B", "C", hs, "x");
    forall i ensures !Occurs(m.token3, CRLF, i) {
    }
    assert Legal(m);
    PrintedHeadersFit(m);
    ParseUndoesPrint(m);
    SameHeaders(hs, Header("f", "v"));
    hide HeaderText;
    assert |Line(Header("f", "v"))| == 4 && |RequestLine(m)| == 7;
  }

  lemma {:induction false} SameHeaders(hs: seq<Header>, h: Header)
    requires forall i | 0 <= i < |hs| :: hs[i] == h
    ensures |HeaderText(hs)| == |hs| * (|Line(h)| + 2)
  {
    if hs != [] {
      SameHeaders(hs[1..], h);
      HeaderTextCons(hs);
    }
  }

  lemma HeaderCountIsKept(text: string, m: Msg)
    requires Parse(text) == Some(m) && Find(text, " ", 0) >= 0
    requires var a := Find(text, " ", 0); Find(text, " ", a + 1) >= 0
    requires var b := Find(text, " ", Find(text, " ", 0) + 1); Find(text, CRLF, b + 1) >= 0
    ensures var c := Find(text, CRLF, Find(text, " ", Find(text, " ", 0) + 1) + 1);
            |m.headers| == CountHeaders(text, c + 2)
  {
    hide Find, ParseHeaders, CountHeaders;
  }

  /** Without headers, parsing undoes printing exactly when no blank line can be found
      behind the end of the request line. */
  lemma HeaderlessRoundTrip(m: Msg)
    requires Legal(m) && m.headers == []
    ensures Parse(Text(m)) == Some(m) <==> Find(CRLF + m.body, BLANK, 0) <= 0
  {
    var t, h := Text(m), HeaderStart(m);
    HeaderlessTail(m);
    FindShift(t, BLANK, h);
    FirstLineEnd(m);
    HeaderlessCount(m);
    hide Find, CountLines, Parse, Text, Legal;
    if Find(t, BLANK, h) <= h {
      MsgOf(m, t, h);
    } else if Parse(t) == Some(m) {
      RequestLineParses(m);
      HeaderCountIsKept(t, m);
    }
  }

  /** A message without headers that is not read back: its body has a blank line inside. */
  lemma HeaderlessCanFail()
    ensures var m := Msg("A", "B", "C", [], "x\r\n\r\ny"); Legal(m) && Parse(Text(m)) != Some(m)
  {
    var m := Msg("A", "B", "C", [], "x\r\n\r\ny");
    forall i ensures !Occurs(m.token3, CRLF, i) {
    }
    var tail := CRLF + m.body;
    assert Occurs(tail, BLANK, 3);
    forall k | 0 <= k < 3 ensures !Occurs(tail, BLANK, k) {
      NotOccurs(tail, BLANK, k, if k == 0 then 2 else 0);
    }
    FindIs(tail, BLANK, 0, 3);
    HeaderlessRoundTrip(m);
  }

  lemma HeaderlessTail(m: Msg)
    requires m.headers == []
    ensures HeaderStart(m) <= |Text(m)| && Text(m)[HeaderStart(m)..] == CRLF + m.body
  {
    TextStands(m);
    var t, h := Text(m), HeaderStart(m);
    hide Text;
    StandsSplit(t, h, CRLF, m.body);
    StandsSlice(t, h, CRLF + m.body);
  }

  lemma FirstLineEnd(m: Msg)
    requires m.headers == []
    ensures Find(Text(m), CRLF, HeaderStart(m)) == HeaderStart(m)
  {
    BodyParses(m);
  }

  lemma HeaderlessCount(m: Msg)
    requires m.headers == []
    ensures var t, h := Text(m), HeaderStart(m);
            CountHeaders(t, h) == 0 <==> Find(t, BLANK, h) <= h
  {
    FirstLineEnd(m);
    HeaderlessTail(m);
    hide Text, Find;
  }

  lemma OccursShift(s: string, pat: string, h: nat, k: nat)
    requires h <= |s|
    ensures Occurs(s[h..], pat, k) == Occurs(s, pat, k + h)
  {
    StandsOccurs(s[h..], k, pat);
    StandsOccurs(s, k + h, pat);
  }

  lemma FindShift(s: string, pat: string, h: nat)
    requires h <= |s|
    ensures Find(s, pat, h) == if Find(s[h..], pat, 0) < 0 then -1 else Find(s[h..], pat, 0) + h
  {
    forall k: nat ensures Occurs(s[h..], pat, k) == Occurs(s, pat, k + h) {
      OccursShift(s, pat, h, k);
    }
    var p := Find(s[h..], pat, 0);
    if p >= 0 {
      forall k | h <= k < p + h ensures !Occurs(s, pat, k) {
        assert !Occurs(s[h..], pat, k - h);
      }
      FindIs(s, pat, h, p + h);
    } else {
      forall k | h <= k ensures !Occurs(s, pat, k) {
        assert !Occurs(s[h..], pat, k - h);
      }
    }
  }
}
