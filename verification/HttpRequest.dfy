/** HTTP requests: the scanning parser and the printer. */
module HttpRequest {
  import opened Options
  import opened Seqs

  // ---- Strings as the source uses them ----

  const CRLF := "\r\n"

  /** `s.compare(i, 2, CRLF) == 0`. */
  predicate CrlfAt(s: string, i: nat) { i + 2 <= |s| && s[i] == '\r' && s[i + 1] == '\n' }

  ghost predicate CrlfFree(s: string) { forall i: nat :: !CrlfAt(s, i) }

  /** `s.find(c, from)`; `None` stands for `npos`. */
  function Find(s: string, c: char, from: nat): (pos: Option<nat>)
    ensures pos.Some? ==>
      from <= pos.value < |s| && s[pos.value] == c && forall i :: from <= i < pos.value ==> s[i] != c
    ensures pos == None ==> forall i :: from <= i < |s| ==> s[i] != c
    decreases |s| - from
  {
    if from >= |s| then None else if s[from] == c then Some(from) else Find(s, c, from + 1)
  }

  /** `pos + k` in `size_t`, for k > 0: `npos` is the largest value, so it wraps to k - 1. */
  function Plus(pos: Option<nat>, k: nat): nat
    requires k > 0
  {
    match pos case None => k - 1 case Some(p) => p + k
  }

  /** `a - b` in `size_t`; `None` stands for a number beyond the length of any string. */
  function Minus(a: Option<nat>, b: nat): Option<nat> {
    if a.Some? && a.value >= b then Some(a.value - b) else None
  }

  /** `s.substr(pos, count)`, which throws `out_of_range` when `pos` is beyond the end. */
  function Substr(s: string, pos: nat, count: Option<nat>): Option<string> {
    if pos > |s| then None
    else if count.Some? && pos + count.value <= |s| then Some(s[pos..pos + count.value])
    else Some(s[pos..])
  }

  // ---- The header map ----

  datatype Header = Header(key: string, value: string)

  /** `std::string`'s order. */
  predicate Less(a: string, b: string) {
    if a == [] then b != []
    else b != [] && (a[0] < b[0] || (a[0] == b[0] && Less(a[1..], b[1..])))
  }

  /** A `std::map` is its entries in ascending order of keys. */
  ghost predicate Sorted(headers: seq<Header>) {
    forall i, j :: 0 <= i < j < |headers| ==> Less(headers[i].key, headers[j].key)
  }

  /** `headers[key] = value`. */
  function Put(headers: seq<Header>, key: string, value: string): seq<Header> {
    if headers == [] then [Header(key, value)]
    else if headers[0].key == key then [Header(key, value)] + headers[1..]
    else if Less(key, headers[0].key) then [Header(key, value)] + headers
    else [headers[0]] + Put(headers[1..], key, value)
  }

  ghost function Lookup(headers: seq<Header>, key: string): Option<string> {
    if headers == [] then None
    else if headers[0].key == key then Some(headers[0].value)
    else Lookup(headers[1..], key)
  }

  lemma {:induction false} LessIsOrder(a: string, b: string, c: string)
    ensures !(Less(a, b) && Less(b, a))
    ensures Less(a, b) || a == b || Less(b, a)
    ensures Less(a, b) && Less(b, c) ==> Less(a, c)
    decreases |a|
  {
    if a != [] && b != [] {
      LessIsOrder(a[1..], b[1..], if c == [] then [] else c[1..]);
      assert a == [a[0]] + a[1..] && b == [b[0]] + b[1..];
    }
  }

  /** Putting a key keeps the map sorted and changes that key only. */
  lemma {:induction false} PutIsUpdate(headers: seq<Header>, key: string, value: string, other: string)
    requires Sorted(headers)
    ensures Sorted(Put(headers, key, value))
    ensures Lookup(Put(headers, key, value), other) == if other == key then Some(value) else Lookup(headers, other)
    ensures forall h :: h in Put(headers, key, value) ==> h == Header(key, value) || h in headers
  {
    if headers != [] {
      var rest := headers[1..];
      PutIsUpdate(rest, key, value, other);
      LessIsOrder(key, headers[0].key, key);
      if headers[0].key == key {
        forall h | h in rest ensures Less(key, h.key) {}
      } else if Less(key, headers[0].key) {
        forall h | h in rest ensures Less(key, h.key) { LessIsOrder(key, headers[0].key, h.key); }
      } else {
        forall h | h in Put(rest, key, value) ensures Less(headers[0].key, h.key) {}
      }
    }
  }

  /** A key beyond all others goes to the end. */
  lemma {:induction false} PutLast(headers: seq<Header>, key: string, value: string)
    requires forall h :: h in headers ==> Less(h.key, key)
    ensures Put(headers, key, value) == headers + [Header(key, value)]
  {
    if headers != [] {
      LessIsOrder(key, headers[0].key, key);
      PutLast(headers[1..], key, value);
    }
  }

  // ---- Parsing ----

  datatype Part = REQUEST_LINE | HEADERS | BODY

  datatype Request = Request(method_: string, uri: string, version: string, headers: seq<Header>, body: string)

  const EMPTY := Request("", "", "", [], "")

  function RequestLine(r: Request, line: string): Option<Request> {
    var pos1 := Find(line, ' ', 0);
    var pos2 := Find(line, ' ', Plus(pos1, 1));
    var method_ := Substr(line, 0, pos1);
    var uri := Substr(line, Plus(pos1, 1), Minus(pos2, Plus(pos1, 1)));
    var version := Substr(line, Plus(pos2, 1), None);
    if method_.Some? && uri.Some? && version.Some?
    then Some(r.(method_ := method_.value, uri := uri.value, version := version.value))
    else None
  }

  /** The line from `begin` to the CRLF at `end`. The colon is looked for up to the end of the whole request. */
  function TakeLine(s: string, part: Part, begin: nat, end: nat, r: Request): Option<Request>
    requires begin <= end <= |s|
  {
    match part
    case REQUEST_LINE => RequestLine(r, s[begin..end])
    case HEADERS =>
      var pos := Find(s, ':', begin);
      var key := Substr(s, begin, Minus(pos, begin));
      var value := Substr(s, Plus(pos, 2), Minus(Some(end), Plus(pos, 2)));
      if key.Some? && value.Some? then Some(r.(headers := Put(r.headers, key.value, value.value))) else None
    case BODY => Some(r.(body := s[begin..end]))
  }

  /** The state of the loop: `None` when an exception has left the constructor. */
  function Scan(s: string, part: Part, begin: nat, end: nat, r: Request): Option<Request>
    requires begin <= end <= |s|
    decreases |s| - end
  {
    if end == |s| then Some(r)
    else if CrlfAt(s, end) then
      match TakeLine(s, part, begin, end, r)
      case None => None
      case Some(r') =>
        var part' := if part == REQUEST_LINE then HEADERS else part;
        if CrlfAt(s, end + 2) then Scan(s, if part' == HEADERS then BODY else part', end + 4, end + 4, r')
        else Scan(s, part', end + 2, end + 2, r')
    else Scan(s, part, begin, end + 1, r)
  }

  function Parse(s: string): Option<Request> { Scan(s, REQUEST_LINE, 0, 0, EMPTY) }

  // ---- Printing ----

  function PrintHeader(h: Header): string { h.key + ": " + h.value }

  function PrintHeaders(headers: seq<Header>): string {
    if headers == [] then "" else PrintHeader(headers[0]) + CRLF + PrintHeaders(headers[1..])
  }

  function PrintRequestLine(r: Request): string { r.method_ + " " + r.uri + " " + r.version }

  function Print(r: Request): string {
    PrintRequestLine(r) + CRLF + PrintHeaders(r.headers) + CRLF + r.body
  }

  /** Lines as a message has them, each ended by a line break. */
  function Joined(lines: seq<string>): string {
    if lines == [] then "" else lines[0] + CRLF + Joined(lines[1..])
  }

  /** The line of a header: its key, a colon, a space and its value. */
  function HeaderLines(headers: seq<Header>): seq<string> {
    seq(|headers|, i requires 0 <= i < |headers| => headers[i].key + [':', ' '] + headers[i].value)
  }

  lemma {:induction false} PrintedHeaders(headers: seq<Header>)
    ensures PrintHeaders(headers) == Joined(HeaderLines(headers))
  {
    if headers != [] {
      PrintedHeaders(headers[1..]);
      assert HeaderLines(headers)[1..] == HeaderLines(headers[1..]);
    }
  }

  lemma {:induction false} JoinedAppend(a: seq<string>, b: seq<string>)
    ensures Joined(a + b) == Joined(a) + Joined(b)
  {
    if a == [] {
      assert a + b == b;
    } else {
      JoinedAppend(a[1..], b);
      assert (a + b)[1..] == a[1..] + b && (a + b)[0] == a[0];
      Reassociate(a[0] + CRLF, Joined(a[1..]), Joined(b));
    }
  }

  /** A printed request is its request line, the three fields apart by one space, one line for each header,
    and an empty line, each ended by a line break, and then the body. */
  lemma PrintedForm(r: Request)
    ensures Print(r) ==
      Joined([r.method_ + [' '] + r.uri + [' '] + r.version] + HeaderLines(r.headers) + [""]) + r.body
  {
    var line := r.method_ + [' '] + r.uri + [' '] + r.version;
    PrintedHeaders(r.headers);
    JoinedAppend([line] + HeaderLines(r.headers), [""]);
    JoinedAppend([line], HeaderLines(r.headers));
    assert Joined([]) == "" && Joined([line]) == line + CRLF + "" && Joined([""]) == "" + CRLF + "";
    assert PrintRequestLine(r) == line;
  }

  // ---- Round trip ----

  /** Fields that can be told apart again: no line break in the request line, no space in the method
    and the target, no colon in a key. */
  ghost predicate HeadFields(r: Request) {
    && CrlfFree(r.method_) && CrlfFree(r.uri) && CrlfFree(r.version)
    && ' ' !in r.method_ && ' ' !in r.uri
    && Sorted(r.headers)
    && (forall h :: h in r.headers ==> ':' !in h.key)
  }

  ghost predicate PlainHeaders(headers: seq<Header>) {
    forall h :: h in headers ==> CrlfFree(h.key) && CrlfFree(h.value)
  }

  ghost predicate WellFormed(r: Request) { HeadFields(r) && PlainHeaders(r.headers) }

  /** `line` stands at position `begin` of `s`, ended by a line break. */
  ghost predicate LineAt(s: string, begin: nat, line: string) {
    begin + |line| + 2 <= |s| && s[begin..begin + |line|] == line && CrlfAt(s, begin + |line|) && CrlfFree(line)
  }

  lemma JoinCrlfFree(a: string, c: char, b: string)
    requires CrlfFree(a) && CrlfFree(b) && c != '\r' && c != '\n'
    ensures CrlfFree(a + [c] + b)
  {
    var s := a + [c] + b;
    forall i: nat ensures !CrlfAt(s, i) {
      if i + 2 <= |a| {
        assert !CrlfAt(a, i);
      } else if i > |a| {
        assert !CrlfAt(b, i - |a| - 1);
      }
    }
  }

  /** Inside a line there is no line break, and none starts at its last character. */
  lemma {:induction false} SkipLine(s: string, part: Part, begin: nat, end: nat, r: Request, line: string)
    requires LineAt(s, begin, line) && begin <= end <= begin + |line|
    ensures Scan(s, part, begin, end, r) == Scan(s, part, begin, begin + |line|, r)
    decreases |s| - end
  {
    if end < begin + |line| {
      assert s[end] == line[end - begin];
      assert !CrlfAt(line, end - begin);
      assert end + 1 < begin + |line| ==> s[end + 1] == line[end + 1 - begin];
      SkipLine(s, part, begin, end + 1, r, line);
    }
  }

  lemma FindAt(s: string, c: char, from: nat, pos: nat)
    requires from <= pos < |s| && s[pos] == c && c !in s[from..pos]
    ensures Find(s, c, from) == Some(pos)
  {
    assert forall i :: from <= i < pos ==> s[from..pos][i - from] == s[i];
  }

  lemma RequestLineReadsBack(r: Request, acc: Request)
    requires ' ' !in r.method_ && ' ' !in r.uri
    ensures RequestLine(acc, PrintRequestLine(r))
      == Some(acc.(method_ := r.method_, uri := r.uri, version := r.version))
  {
    var line := PrintRequestLine(r);
    var m, u := |r.method_|, |r.uri|;
    assert line[m] == ' ' && line[0..m] == r.method_;
    assert line[m + 1 + u] == ' ' && line[m + 1..m + 1 + u] == r.uri;
    assert line[m + 1 + u + 1..] == r.version;
    hide PrintRequestLine, Find;
    FindAt(line, ' ', 0, m);
    FindAt(line, ' ', m + 1, m + 1 + u);
  }

  lemma HeaderReadsBack(s: string, begin: nat, h: Header, r: Request)
    requires LineAt(s, begin, PrintHeader(h)) && ':' !in h.key
    requires forall g :: g in r.headers ==> Less(g.key, h.key)
    ensures TakeLine(s, HEADERS, begin, begin + |PrintHeader(h)|, r) == Some(r.(headers := r.headers + [h]))
  {
    var line := PrintHeader(h);
    var k := |h.key|;
    hide CrlfFree, CrlfAt, Less, Put;
    assert line[k] == ':' && line[..k] == h.key && line[k + 2..] == h.value;
    assert forall i :: 0 <= i < |line| ==> s[begin + i] == line[i];
    assert s[begin..begin + k] == h.key;
    FindAt(s, ':', begin, begin + k);
    assert s[begin + k + 2..begin + |line|] == h.value;
    PutLast(r.headers, h.key, h.value);
  }

  lemma HeaderIsLine(s: string, begin: nat, h: Header, rest: string)
    requires begin <= |s| && s[begin..] == PrintHeader(h) + CRLF + rest && CrlfFree(h.key) && CrlfFree(h.value)
    ensures LineAt(s, begin, PrintHeader(h)) && s[begin + |PrintHeader(h)| + 2..] == rest
  {
    var line := PrintHeader(h);
    assert CrlfFree(" " + h.value) by { JoinCrlfFree("", ' ', h.value); assert "" + [' '] + h.value == " " + h.value; }
    JoinCrlfFree(h.key, ':', " " + h.value);
    assert line == h.key + [':'] + (" " + h.value);
    Cut(s, begin, line, rest);
  }

  lemma Cut(s: string, begin: nat, line: string, rest: string)
    requires begin <= |s| && s[begin..] == line + CRLF + rest
    ensures begin + |line| + 2 <= |s| && s[begin..begin + |line|] == line && CrlfAt(s, begin + |line|)
    ensures s[begin + |line| + 2..] == rest
  {
    var t := s[begin..];
    assert t[..|line|] == line && t[|line|] == '\r' && t[|line| + 1] == '\n' && t[|line| + 2..] == rest;
  }

  /** The fields of the headers are fit to print. */
  ghost predicate Printable(headers: seq<Header>) {
    forall h :: h in headers ==> CrlfFree(h.key) && CrlfFree(h.value) && ':' !in h.key
  }

  /** What follows a head line: the block of headers, the blank line and the rest. */
  function Block(headers: seq<Header>, tail: string): string { PrintHeaders(headers) + CRLF + tail }

  lemma BlockUnfold(headers: seq<Header>, tail: string)
    ensures headers == [] ==> Block(headers, tail) == CRLF + tail
    ensures headers != [] ==> Block(headers, tail) == PrintHeader(headers[0]) + CRLF + Block(headers[1..], tail)
  {
  }

  /** After a head line, a blank line is ahead just when no header is. */
  lemma BlankAhead(s: string, p: nat, headers: seq<Header>, tail: string)
    requires p <= |s| && s[p..] == Block(headers, tail) && Printable(headers)
    ensures CrlfAt(s, p) <==> headers == []
    ensures headers == [] ==> p + 2 + |tail| == |s| && s[p + 2..] == tail
  {
    BlockUnfold(headers, tail);
    if headers == [] {
      Cut(s, p, "", tail);
    } else {
      var h := headers[0];
      HeaderIsLine(s, p, h, Block(headers[1..], tail));
      assert !CrlfAt(PrintHeader(h), 0);
      assert s[p] == s[p..][0] == PrintHeader(h)[0] && s[p + 1] == s[p..][1] == PrintHeader(h)[1];
    }
  }

  /** What the loop does at the end of a line of the head. */
  lemma LineTaken(s: string, part: Part, begin: nat, end: nat, r: Request)
    requires begin <= end < |s| && CrlfAt(s, end) && part != BODY && TakeLine(s, part, begin, end, r).Some?
    ensures var r' := TakeLine(s, part, begin, end, r).value;
      && end + 2 <= |s|
      && Scan(s, part, begin, end, r)
           == if CrlfAt(s, end + 2) then Scan(s, BODY, end + 4, end + 4, r') else Scan(s, HEADERS, end + 2, end + 2, r')
  {
  }

  /** One header line is taken. */
  lemma OneHeader(s: string, begin: nat, h: Header, rest: string, r: Request)
    requires begin <= |s| && s[begin..] == PrintHeader(h) + CRLF + rest
    requires CrlfFree(h.key) && CrlfFree(h.value) && ':' !in h.key
    requires forall g :: g in r.headers ==> Less(g.key, h.key)
    ensures var next, r' := begin + |PrintHeader(h)| + 2, r.(headers := r.headers + [h]);
      && next <= |s| && s[next..] == rest
      && Scan(s, HEADERS, begin, begin, r)
           == if CrlfAt(s, next) then Scan(s, BODY, next + 2, next + 2, r') else Scan(s, HEADERS, next, next, r')
  {
    hide Scan, PrintHeader, TakeLine, CrlfFree, Less;
    HeaderIsLine(s, begin, h, rest);
    SkipLine(s, HEADERS, begin, begin, r, PrintHeader(h));
    HeaderReadsBack(s, begin, h, r);
    LineTaken(s, HEADERS, begin, begin + |PrintHeader(h)|, r);
  }

  lemma SortedSplit(front: seq<Header>, headers: seq<Header>)
    requires Sorted(front + headers) && headers != []
    ensures forall g :: g in front ==> Less(g.key, headers[0].key)
    ensures front + headers == (front + [headers[0]]) + headers[1..]
  {
    forall g | g in front ensures Less(g.key, headers[0].key) {
      var i :| 0 <= i < |front| && front[i] == g;
      assert (front + headers)[i] == g && (front + headers)[|front|] == headers[0];
    }
  }

  /** A non-empty block of headers reads back, and leaves the scan at the body. */
  lemma {:induction false} HeadersReadBack(s: string, begin: nat, headers: seq<Header>, tail: string, r: Request)
    requires headers != [] && begin <= |s| && s[begin..] == Block(headers, tail)
    requires Sorted(r.headers + headers) && Printable(headers)
    ensures |tail| <= |s| && s[|s| - |tail|..] == tail
    ensures Scan(s, HEADERS, begin, begin, r)
      == Scan(s, BODY, |s| - |tail|, |s| - |tail|, r.(headers := r.headers + headers))
    decreases |headers|
  {
    hide Scan, PrintHeader, PrintHeaders, Block, CrlfAt, CrlfFree, Sorted, Less;
    var h, rest := headers[0], headers[1..];
    BlockUnfold(headers, tail);
    SortedSplit(r.headers, headers);
    OneHeader(s, begin, h, Block(rest, tail), r);
    var next := begin + |PrintHeader(h)| + 2;
    BlankAhead(s, next, rest, tail);
    if rest == [] {
      assert r.headers + headers == r.headers + [h];
    } else {
      HeadersReadBack(s, next, rest, tail, r.(headers := r.headers + [h]));
    }
  }

  lemma RequestLineIsLine(s: string, r: Request, rest: string)
    requires s == PrintRequestLine(r) + CRLF + rest
    requires CrlfFree(r.method_) && CrlfFree(r.uri) && CrlfFree(r.version)
    ensures LineAt(s, 0, PrintRequestLine(r)) && s[|PrintRequestLine(r)| + 2..] == rest
  {
    var line := PrintRequestLine(r);
    JoinCrlfFree(r.uri, ' ', r.version);
    JoinCrlfFree(r.method_, ' ', r.uri + [' '] + r.version);
    assert line == r.method_ + [' '] + (r.uri + [' '] + r.version);
    assert s[0..] == s;
    Cut(s, 0, line, rest);
  }

  /** The request line is taken. */
  lemma OneRequestLine(s: string, r: Request, rest: string)
    requires s == PrintRequestLine(r) + CRLF + rest
    requires CrlfFree(r.method_) && CrlfFree(r.uri) && CrlfFree(r.version) && ' ' !in r.method_ && ' ' !in r.uri
    ensures var next, r' := |PrintRequestLine(r)| + 2, EMPTY.(method_ := r.method_, uri := r.uri, version := r.version);
      && next <= |s| && s[next..] == rest
      && Parse(s) == if CrlfAt(s, next) then Scan(s, BODY, next + 2, next + 2, r') else Scan(s, HEADERS, next, next, r')
  {
    hide Scan, PrintRequestLine, RequestLine, CrlfFree;
    var line := PrintRequestLine(r);
    RequestLineIsLine(s, r, rest);
    SkipLine(s, REQUEST_LINE, 0, 0, EMPTY, line);
    RequestLineReadsBack(r, EMPTY);
    assert s[0..|line|] == line;
    LineTaken(s, REQUEST_LINE, 0, |line|, EMPTY);
  }

  /** The head of a well-formed request reads back, whatever follows it. */
  lemma HeadReadsBack(r: Request, tail: string)
    requires WellFormed(r)
    ensures var s := Print(r.(body := tail));
      && |tail| <= |s| && s[|s| - |tail|..] == tail
      && Parse(s) == Scan(s, BODY, |s| - |tail|, |s| - |tail|, r.(body := ""))
  {
    hide Parse, Scan, Print, PrintRequestLine, PrintHeaders, Block, Less, Sorted, CrlfFree, CrlfAt, Printable;
    var s := Print(r.(body := tail));
    HeadSplits(r, tail);
    OneRequestLine(s, r, Block(r.headers, tail));
    var next, r' := |PrintRequestLine(r)| + 2, EMPTY.(method_ := r.method_, uri := r.uri, version := r.version);
    BlankAhead(s, next, r.headers, tail);
    if r.headers != [] {
      HeadersReadBack(s, next, r.headers, tail, r');
    }
  }

  lemma HeadSplits(r: Request, tail: string)
    requires WellFormed(r)
    ensures Print(r.(body := tail)) == PrintRequestLine(r) + CRLF + Block(r.headers, tail)
    ensures Printable(r.headers) && EMPTY.headers + r.headers == r.headers
  {
  }

  /** What the scan of a body keeps: the head, and a body without line breaks. */
  lemma {:induction false} BodyScan(s: string, begin: nat, end: nat, r: Request)
    requires begin <= end <= |s| && CrlfFree(r.body)
    requires forall i :: begin <= i < end ==> !CrlfAt(s, i)
    ensures Scan(s, BODY, begin, end, r).Some?
    ensures var r' := Scan(s, BODY, begin, end, r).value; r' == r.(body := r'.body) && CrlfFree(r'.body)
    ensures (forall i :: end <= i ==> !CrlfAt(s, i)) ==> Scan(s, BODY, begin, end, r).value.body == r.body
    decreases |s| - end
  {
    if end < |s| && CrlfAt(s, end) {
      var r' := r.(body := s[begin..end]);
      forall i: nat ensures !CrlfAt(r'.body, i) { assert i + 2 <= end - begin ==> !CrlfAt(s, begin + i); }
      if CrlfAt(s, end + 2) {
        BodyScan(s, end + 4, end + 4, r');
      } else {
        BodyScan(s, end + 2, end + 2, r');
      }
    } else if end < |s| {
      BodyScan(s, begin, end + 1, r);
    }
  }

  lemma TailCrlf(s: string, tail: string, i: nat)
    requires |tail| <= |s| && s[|s| - |tail|..] == tail && i >= |s| - |tail|
    ensures CrlfAt(s, i) <==> CrlfAt(tail, i - (|s| - |tail|))
  {
    var n := |s| - |tail|;
    assert forall k :: 0 <= k < |tail| ==> s[n + k] == tail[k];
  }

  /** A printed well-formed request reads back just when its body is empty. */
  lemma RoundTrip(r: Request)
    requires WellFormed(r)
    ensures Parse(Print(r)) == Some(r) <==> r.body == ""
  {
    HeadReadsBack(r, r.body);
    assert r.(body := r.body) == r;
    var s := Print(r);
    var n := |s| - |r.body|;
    BodyScan(s, n, n, r.(body := ""));
    if CrlfFree(r.body) {
      forall i | n <= i ensures !CrlfAt(s, i) { TailCrlf(s, r.body, i); }
    }
  }

  /** With a line break appended, it reads back just when its body has no line break inside. */
  lemma RoundTripWithCrlf(r: Request)
    requires WellFormed(r)
    ensures Parse(Print(r) + CRLF) == Some(r) <==> CrlfFree(r.body)
  {
    var tail := r.body + CRLF;
    HeadReadsBack(r, tail);
    var s := Print(r.(body := tail));
    assert s == Print(r) + CRLF;
    var n := |s| - |tail|;
    BodyScan(s, n, n, r.(body := ""));
    if CrlfFree(r.body) {
      assert s[n..] == r.body + CRLF + "";
      Cut(s, n, r.body, "");
      SkipLine(s, BODY, n, n, r.(body := ""), r.body);
      assert n + |r.body| + 2 == |s|;
    }
  }

  /** When the body has several lines, the parser keeps the last one that is ended by a line break. */
  lemma BodyIsLastLine(r: Request, a: string, b: string)
    requires WellFormed(r) && r.body == a + CRLF + b && CrlfFree(b) && b != ""
    ensures Parse(Print(r) + CRLF) == Some(r.(body := b))
  {
    var tail := r.body + CRLF;
    HeadReadsBack(r, tail);
    var s := Print(r.(body := tail));
    assert s == Print(r) + CRLF;
    var n := |s| - |tail|;
    var x := n + |a| + 2;
    LastLineAt(s, n, a, b);
    var r' := ToLastLine(s, n, n, r.(body := ""), x);
    hide Scan, CrlfFree;
    SkipLine(s, BODY, x, x, r', b);
    LastIsTaken(s, x, b, r');
  }

  lemma LastLineAt(s: string, n: nat, a: string, b: string)
    requires n <= |s| && s[n..] == a + CRLF + b + CRLF && CrlfFree(b) && b != ""
    ensures var x := n + |a| + 2;
      x + |b| + 2 == |s| && CrlfAt(s, x - 2) && LineAt(s, x, b) && !CrlfAt(s, x)
  {
    var x := n + |a| + 2;
    assert s[n..] == a + CRLF + (b + CRLF);
    Cut(s, n, a, b + CRLF);
    assert s[x..] == b + CRLF + "";
    Cut(s, x, b, "");
    assert !CrlfAt(b, 0);
    assert s[x] == s[x..][0] == b[0] && (|b| > 1 ==> s[x + 1] == s[x..][1] == b[1]);
  }

  /** The scan of a body begins a line behind each line break that no other follows. */
  lemma {:induction false} ToLastLine(s: string, begin: nat, end: nat, r: Request, x: nat) returns (r': Request)
    requires begin <= end && end + 2 <= x < |s| && CrlfAt(s, x - 2) && !CrlfAt(s, x)
    ensures Scan(s, BODY, begin, end, r) == Scan(s, BODY, x, x, r') && r' == r.(body := r'.body)
    decreases x - end
  {
    if CrlfAt(s, end) {
      r' := r.(body := s[begin..end]);
      if end + 2 != x {
        // Line breaks do not overlap.
        if CrlfAt(s, end + 2) {
          if end + 4 != x {
            assert end + 3 != x && end + 5 != x;
            r' := ToLastLine(s, end + 4, end + 4, r', x);
          }
        } else {
          assert end + 3 != x;
          r' := ToLastLine(s, end + 2, end + 2, r', x);
        }
      }
    } else {
      r' := ToLastLine(s, begin, end + 1, r, x);
    }
  }

  lemma LastIsTaken(s: string, x: nat, b: string, r: Request)
    requires LineAt(s, x, b) && x + |b| + 2 == |s|
    ensures Scan(s, BODY, x, x + |b|, r) == Some(r.(body := b))
  {
  }

  // ---- Malformed heads ----

  /** What becomes of a request line with fewer than two spaces: what is missing is the whole line again. */
  lemma ShortRequestLine(r: Request, m: string, u: string)
    requires ' ' !in m && ' ' !in u
    ensures RequestLine(r, m) == Some(r.(method_ := m, uri := m, version := m))
    ensures var line := m + [' '] + u;
      RequestLine(r, line) == Some(r.(method_ := m, uri := u, version := line))
  {
    var line := m + [' '] + u;
    assert line[|m|] == ' ' && line[0..|m|] == m && line[|m| + 1..] == u;
    FindAt(line, ' ', 0, |m|);
    NotFound(m, ' ', 0);
    NotFound(line, ' ', |m| + 1);
    assert m[0..] == m && line[0..] == line;
  }

  lemma NotFound(s: string, c: char, from: nat)
    requires from <= |s| && c !in s[from..]
    ensures Find(s, c, from) == None
  {
    assert forall i :: from <= i < |s| ==> s[i] == s[from..][i - from];
  }

  /** What becomes of a header line, `colon` being the first colon from its begin on, on this line or a later
    one. Only a colon that is the last character of all makes the parser throw. */
  lemma HeaderLineCases(s: string, begin: nat, end: nat, r: Request, colon: nat)
    requires begin <= end <= |s| && begin <= colon < |s| && s[colon] == ':' && ':' !in s[begin..colon]
    ensures TakeLine(s, HEADERS, begin, end, r) ==
      if colon + 1 == |s| then None
      else
        var value := if colon + 2 <= end then s[colon + 2..end] else s[colon + 2..];
        Some(r.(headers := Put(r.headers, s[begin..colon], value)))
  {
    hide Put;
    FindAt(s, ':', begin, colon);
  }

  /** Without any colon behind it, a header line becomes a header of the rest of the request, whose value is taken
    from its second character. */
  lemma HeaderWithoutColon(s: string, begin: nat, end: nat, r: Request)
    requires begin <= end <= |s| && 0 < end && ':' !in s[begin..]
    ensures TakeLine(s, HEADERS, begin, end, r) == Some(r.(headers := Put(r.headers, s[begin..], s[1..end])))
  {
    hide Put;
    NotFound(s, ':', begin);
  }

  // ---- What every parse gives ----

  lemma PartCrlfFree(s: string, begin: nat, end: nat)
    requires begin <= end <= |s| && forall i :: begin <= i < end ==> !CrlfAt(s, i)
    ensures CrlfFree(s[begin..end])
  {
    forall i: nat ensures !CrlfAt(s[begin..end], i) {
      assert i + 2 <= end - begin ==> !CrlfAt(s, begin + i);
    }
  }

  lemma RequestLineFields(r: Request, line: string)
    requires HeadFields(r) && CrlfFree(line) && RequestLine(r, line).Some?
    ensures HeadFields(RequestLine(r, line).value)
  {
    hide Sorted, CrlfAt;
    var pos1 := Find(line, ' ', 0);
    var pos2 := Find(line, ' ', Plus(pos1, 1));
    var begin := Plus(pos1, 1);
    SubstrFields(line, 0, pos1);
    SubstrFields(line, begin, Minus(pos2, begin));
    SubstrFields(line, Plus(pos2, 1), None);
  }

  /** A part of a line without line breaks has none either. */
  lemma SubstrFields(line: string, pos: nat, count: Option<nat>)
    requires CrlfFree(line) && Substr(line, pos, count).Some?
    ensures CrlfFree(Substr(line, pos, count).value)
  {
    var part := Substr(line, pos, count).value;
    forall i: nat ensures !CrlfAt(part, i) { assert !CrlfAt(line, pos + i); }
  }

  lemma HeaderLineFields(s: string, begin: nat, end: nat, r: Request)
    requires begin <= end <= |s| && HeadFields(r) && TakeLine(s, HEADERS, begin, end, r).Some?
    ensures HeadFields(TakeLine(s, HEADERS, begin, end, r).value)
  {
    var pos := Find(s, ':', begin);
    var key := Substr(s, begin, Minus(pos, begin)).value;
    var value := Substr(s, Plus(pos, 2), Minus(Some(end), Plus(pos, 2))).value;
    hide CrlfFree, CrlfAt, Sorted, Find;
    PutIsUpdate(r.headers, key, value, key);
  }

  lemma {:induction false} ScanFields(s: string, part: Part, begin: nat, end: nat, r: Request)
    requires begin <= end <= |s| && HeadFields(r) && forall i :: begin <= i < end ==> !CrlfAt(s, i)
    ensures Scan(s, part, begin, end, r).Some? ==> HeadFields(Scan(s, part, begin, end, r).value)
    decreases |s| - end
  {
    hide HeadFields, RequestLine, CrlfFree;
    if end < |s| && !CrlfAt(s, end) {
      ScanFields(s, part, begin, end + 1, r);
    } else if end < |s| && TakeLine(s, part, begin, end, r).Some? {
      var r' := TakeLine(s, part, begin, end, r).value;
      TakeLineFields(s, part, begin, end, r);
      var part' := if part == REQUEST_LINE then HEADERS else part;
      if CrlfAt(s, end + 2) {
        ScanFields(s, if part' == HEADERS then BODY else part', end + 4, end + 4, r');
      } else {
        ScanFields(s, part', end + 2, end + 2, r');
      }
    }
  }

  lemma TakeLineFields(s: string, part: Part, begin: nat, end: nat, r: Request)
    requires begin <= end <= |s| && HeadFields(r) && forall i :: begin <= i < end ==> !CrlfAt(s, i)
    requires TakeLine(s, part, begin, end, r).Some?
    ensures HeadFields(TakeLine(s, part, begin, end, r).value)
  {
    hide CrlfFree, CrlfAt, Sorted, RequestLine;
    match part
    case REQUEST_LINE =>
      PartCrlfFree(s, begin, end);
      RequestLineFields(r, s[begin..end]);
    case HEADERS => HeaderLineFields(s, begin, end, r);
    case BODY =>
  }

  /** Whatever is parsed, its fields can be told apart; only headers may hold line breaks. */
  lemma ParsedFields(s: string)
    ensures Parse(s).Some? ==> HeadFields(Parse(s).value)
  {
    ScanFields(s, REQUEST_LINE, 0, 0, EMPTY);
  }

  /** A request without line breaks in its headers reads back just when it is well-formed and its body
    empty; with a line break appended, just when it is well-formed and its body has none inside. */
  lemma ReadsBackIff(r: Request)
    requires PlainHeaders(r.headers)
    ensures Parse(Print(r)) == Some(r) <==> WellFormed(r) && r.body == ""
    ensures Parse(Print(r) + CRLF) == Some(r) <==> WellFormed(r) && CrlfFree(r.body)
  {
    hide Parse, Print, HeadFields, PlainHeaders, CrlfFree;
    ParsedFields(Print(r));
    ParsedFields(Print(r) + CRLF);
    if WellFormed(r) {
      RoundTrip(r);
      RoundTripWithCrlf(r);
    }
  }

  const BY_CHANCE := "  \r\nk: \n\r\nk:\r\n\r\nk:\r\n\r\nk:"

  /** With line breaks in a header, a request can read back although it is not well-formed and has a
    body: the colon of the second header line stands just before its line break, and the value is
    taken from the middle of that line break up to the end of the request. */
  lemma ReadsBackByChance()
    ensures var r := Request("", "", "", [Header("k", "\n\r\nk:\r\n\r\nk:")], "k:");
      Parse(Print(r)) == Some(r) && !WellFormed(r)
  {
    hide Scan, Find, Less, TakeLine, Print, CrlfFree, LineAt, CrlfAt, Sorted;
    var s := BY_CHANCE;
    ChancePrinted();
    var first := EMPTY.(headers := [Header("k", "\n")]);
    var second := EMPTY.(headers := [Header("k", "\n\r\nk:\r\n\r\nk:")]);
    ChanceLines();
    FirstLine();
    ChanceHeaders();
    LineStep(s, REQUEST_LINE, 0, "  ", EMPTY);
    LineStep(s, HEADERS, 4, "k: \n", EMPTY);
    LineStep(s, HEADERS, 10, "k:", first);
    LastLine(second);
    NotPlain(second.headers[0]);
  }

  lemma NotPlain(h: Header)
    requires h.value == "\n\r\nk:\r\n\r\nk:"
    ensures !CrlfFree(h.value)
  {
    assert CrlfAt(h.value, 1);
  }

  /** One line of the head is scanned and taken. */
  lemma LineStep(s: string, part: Part, begin: nat, line: string, r: Request)
    requires LineAt(s, begin, line) && part != BODY && TakeLine(s, part, begin, begin + |line|, r).Some?
    ensures var r', next := TakeLine(s, part, begin, begin + |line|, r).value, begin + |line| + 2;
      && next <= |s|
      && Scan(s, part, begin, begin, r)
           == if CrlfAt(s, next) then Scan(s, BODY, next + 2, next + 2, r') else Scan(s, HEADERS, next, next, r')
  {
    hide Scan, TakeLine;
    SkipLine(s, part, begin, begin, r, line);
    LineTaken(s, part, begin, begin + |line|, r);
  }

  lemma ChanceLines()
    ensures var s := BY_CHANCE;
      && LineAt(s, 0, "  ") && LineAt(s, 4, "k: \n") && LineAt(s, 10, "k:")
      && !CrlfAt(s, 4) && !CrlfAt(s, 10) && CrlfAt(s, 14)
  {
  }

  lemma ChancePrinted()
    ensures BY_CHANCE == Print(Request("", "", "", [Header("k", "\n\r\nk:\r\n\r\nk:")], "k:"))
  {
    var h := Header("k", "\n\r\nk:\r\n\r\nk:");
    assert PrintHeaders([]) == "" && PrintHeaders([h]) == PrintHeader(h) + CRLF;
  }

  lemma FirstLine()
    ensures var s := BY_CHANCE; TakeLine(s, REQUEST_LINE, 0, 2, EMPTY) == Some(EMPTY)
  {
    hide RequestLine;
    var s := BY_CHANCE;
    assert s[0..2] == "  " == PrintRequestLine(EMPTY);
    RequestLineReadsBack(EMPTY, EMPTY);
  }

  lemma ChanceHeaders()
    ensures var s := BY_CHANCE;
      && TakeLine(s, HEADERS, 4, 8, EMPTY) == Some(EMPTY.(headers := [Header("k", "\n")]))
      && TakeLine(s, HEADERS, 10, 12, EMPTY.(headers := [Header("k", "\n")]))
           == Some(EMPTY.(headers := [Header("k", "\n\r\nk:\r\n\r\nk:")]))
  {
    hide Find;
    var s := BY_CHANCE;
    FindAt(s, ':', 4, 5);
    FindAt(s, ':', 10, 11);
    PutSame("k", "\n", "\n\r\nk:\r\n\r\nk:");
    ChanceParts();
  }

  lemma ChanceParts()
    ensures var s := BY_CHANCE;
      && |s| == 24 && s[4..5] == "k" && s[5] == ':' && s[7..8] == "\n" && s[10..11] == "k" && s[11] == ':'
      && s[13..] == "\n\r\nk:\r\n\r\nk:"
  {
    var s := BY_CHANCE;
    assert s[4] == 'k' && s[7] == '\n' && s[10] == 'k';
  }

  lemma PutSame(key: string, was: string, value: string)
    ensures Put([Header(key, was)], key, value) == [Header(key, value)]
  {
  }

  lemma LastLine(r: Request)
    ensures var s := BY_CHANCE; Scan(s, BODY, 16, 16, r) == Some(r.(body := "k:"))
  {
    var s := BY_CHANCE;
    SkipLine(s, BODY, 16, 16, r, "k:");
    assert s[16..18] == "k:";
  }

  // ---- The object ----

  class HttpRequest {
    var method_: string
    var uri: string
    var version: string
    var headers: seq<Header>
    var body: string

    function Value(): Request
      reads this
    {
      Request(method_, uri, version, headers, body)
    }

    constructor ()
      ensures Value() == EMPTY
    {
      method_, uri, version, headers, body := "", "", "", [], "";
    }

    method ParseRequestLine(reqLine: string) returns (thrown: bool)
      modifies this
      ensures thrown <==> RequestLine(old(Value()), reqLine) == None
      ensures !thrown ==> RequestLine(old(Value()), reqLine) == Some(Value())
    {
      var pos1 := Find(reqLine, ' ', 0);
      var pos2 := Find(reqLine, ' ', Plus(pos1, 1));
      var m := Substr(reqLine, 0, pos1);
      var u := Substr(reqLine, Plus(pos1, 1), Minus(pos2, Plus(pos1, 1)));
      var v := Substr(reqLine, Plus(pos2, 1), None);
      if m == None || u == None || v == None {
        return true;
      }
      method_, uri, version := m.value, u.value, v.value;
      thrown := false;
    }

    /** `headers[key] = value`. */
    method AddHeader(key: string, value: string)
      requires Sorted(headers)
      modifies `headers
      ensures Sorted(headers) && headers == Put(old(headers), key, value)
    {
      PutIsUpdate(headers, key, value, key);
      headers := Put(headers, key, value);
    }

    /** The parsing constructor; `None` when it throws. */
    static method FromString(sReq: string) returns (req: Option<HttpRequest>)
      ensures req == None <==> Parse(sReq) == None
      ensures req.Some? ==> fresh(req.value) && Parse(sReq) == Some(req.value.Value()) && Sorted(req.value.headers)
    {
      var r := new HttpRequest();
      var part, begin, end := REQUEST_LINE, 0, 0;
      while end < |sReq|
        invariant begin <= end <= |sReq| && fresh(r) && Sorted(r.headers)
        invariant Parse(sReq) == Scan(sReq, part, begin, end, r.Value())
        decreases |sReq| - end
      {
        if CrlfAt(sReq, end) {
          match part {
            case REQUEST_LINE =>
              var thrown := r.ParseRequestLine(sReq[begin..end]);
              if thrown {
                return None;
              }
              part := HEADERS;
            case HEADERS =>
              var pos := Find(sReq, ':', begin);
              var key := Substr(sReq, begin, Minus(pos, begin));
              var value := Substr(sReq, Plus(pos, 2), Minus(Some(end), Plus(pos, 2)));
              if key == None || value == None {
                return None;
              }
              r.AddHeader(key.value, value.value);
            case BODY =>
              r.body := sReq[begin..end];
          }
          if CrlfAt(sReq, end + 2) {
            begin, end := end + 4, end + 4;
            if part == HEADERS {
              part := BODY;
            }
          } else {
            begin, end := end + 2, end + 2;
          }
        } else {
          end := end + 1;
        }
      }
      return Some(r);
    }

    method GetRequest() returns (req: string)
      ensures req == Print(Value())
    {
      req := method_ + " " + uri + " " + version + CRLF;
      for i := 0 to |headers|
        invariant Print(Value()) == req + PrintHeaders(headers[i..]) + CRLF + body
      {
        req := req + headers[i].key + ": " + headers[i].value + CRLF;
      }
      req := req + CRLF;
      req := req + body;
    }
  }
}
