/**
  The generated parsers of request lines and header blocks (ragel_request_line.c).  Their tables are
  a parameter; what is modelled is how they are driven: byte after byte, without ever looking at the
  end of the input, until the automaton accepts or fails.  Only then is the place of a failure
  compared with the end.  So a text that is not decided by its own bytes is read on into whatever
  lies behind it in memory.
  */
module RequestScanner {
  import opened Common

  /** What the handler looks at in a request. `cseq` is missing when the header is absent,
      malformed or out of range. */
  datatype Request = Request(text: seq<Byte>, cseq: Option<nat>, hasContent: bool)

  datatype Protocol = Rtsp | Http | UnknownProtocol

  /** The request line automaton after some bytes: it goes on, has accepted them, or has failed at
      one of them. (The method is scanned once more when the line is read, so that need not be the
      last one.) */
  datatype LineVerdict = LineGoing | LineDone(protocol: Protocol, known: bool, request: Request) | LineFailed(at: nat)

  /** The header automaton after some bytes: it goes on, has accepted them as a whole block, or has
      failed at the last one; then `read` is the number of bytes of the header lines it completed,
      if it completed any, and these are in the request. */
  datatype HeadVerdict = HeadGoing | HeadDone(request: Request) | HeadFailed(read: Option<nat>, request: Request)

  datatype Parsers = Parsers(line: seq<Byte> -> LineVerdict, headers: (Request, seq<Byte>) -> HeadVerdict)

  /** Nothing is decided before the first byte, and no text begins both with a request line and with
      a header block. */
  ghost predicate Automata(p: Parsers) {
    && p.line([]).LineGoing?
    && (forall r :: p.headers(r, []).HeadGoing?)
    && (forall t :: p.line(t).LineFailed? ==> p.line(t).at < |t|)
    && (forall r, t :: BeginsWithLine(p, t) ==> !BeginsWithHeaders(p, r, t))
  }

  predicate BeginsWithLine(p: Parsers, text: seq<Byte>) {
    var n := Stop(LineGoes(p), text, 0);
    n.Some? && p.line(text[..n.value]).LineDone?
  }

  predicate BeginsWithHeaders(p: Parsers, r: Request, text: seq<Byte>) {
    var n := Stop(HeadersGo(p, r), text, 0);
    n.Some? && p.headers(r, text[..n.value]).HeadDone?
  }

  // ---------------------------------------------------------------- where an automaton stops

  /** Where an automaton that goes on after some texts and not after others stops in a text, having
      read n bytes of it. */
  function Stop(going: seq<Byte> -> bool, text: seq<Byte>, n: nat): (k: Option<nat>)
    requires n <= |text|
    ensures k.Some? ==> n <= k.value <= |text| && !going(text[..k.value]) && forall j :: n <= j < k.value ==> going(text[..j])
    ensures k.None? ==> forall j :: n <= j <= |text| ==> going(text[..j])
    decreases |text| - n
  {
    if !going(text[..n]) then Some(n) else if n == |text| then None else Stop(going, text, n + 1)
  }

  /** A text that an automaton stops in decides it, whatever follows. */
  lemma StopStays(going: seq<Byte> -> bool, text: seq<Byte>, more: seq<Byte>)
    ensures Stop(going, text, 0).Some? ==> Stop(going, text + more, 0) == Stop(going, text, 0)
    ensures Stop(going, text, 0).None? && Stop(going, text + more, 0).Some? ==> Stop(going, text + more, 0).value > |text|
  {
    assert forall j :: 0 <= j <= |text| ==> (text + more)[..j] == text[..j];
  }

  function LineGoes(p: Parsers): seq<Byte> -> bool {
    t => p.line(t).LineGoing?
  }

  function HeadersGo(p: Parsers, r: Request): seq<Byte> -> bool {
    t => p.headers(r, t).HeadGoing?
  }

  /** The text contains the end of a request line, or what makes it none. */
  predicate LineDecided(p: Parsers, text: seq<Byte>) {
    Stop(LineGoes(p), text, 0).Some?
  }

  predicate HeadersDecided(p: Parsers, r: Request, text: seq<Byte>) {
    Stop(HeadersGo(p, r), text, 0).Some?
  }

  // ---------------------------------------------------------------- the answers of the parsers

  /** More input is needed, the line is malformed, or a line of `size` bytes was read; or the parser
      has left the memory. */
  datatype Line = NeedLine | BadLine | GoodLine(size: nat, protocol: Protocol, known: bool, request: Request) | StrayLine

  /** The headers are malformed, there are more to come after `size` bytes, or a block of `size`
      bytes was read; or the parser has left the memory. */
  datatype Headers =
    | BadHeaders(request: Request)
    | MoreHeaders(size: nat, request: Request)
    | AllHeaders(size: nat, request: Request)
    | StrayHeaders

  /** ragel_parse_request_line for an input s with these bytes behind it. */
  function ParseLine(p: Parsers, s: seq<Byte>, behind: seq<Byte>): Line {
    var text := s + behind;
    match Stop(LineGoes(p), text, 0)
    case None => StrayLine
    case Some(n) =>
      match p.line(text[..n])
      case LineDone(protocol, known, request) => GoodLine(n, protocol, known, request)
      case LineFailed(at) => if at == |s| then NeedLine else BadLine
      case LineGoing => StrayLine
  }

  /** ragel_read_rtsp_headers; `unset` is what the size of the caller holds if it is never set. */
  function ParseHeaders(p: Parsers, r: Request, s: seq<Byte>, behind: seq<Byte>, unset: nat): Headers {
    var text := s + behind;
    match Stop(HeadersGo(p, r), text, 0)
    case None => StrayHeaders
    case Some(n) =>
      match p.headers(r, text[..n])
      case HeadDone(request) => AllHeaders(n, request)
      case HeadFailed(read, request) =>
        if n == |s| + 1 then MoreHeaders(if read.Some? then read.value else unset, request) else BadHeaders(request)
      case HeadGoing => StrayHeaders
  }

  /** The loop of the request line parser: it does not know where the input ends. */
  method RunLine(p: Parsers, s: seq<Byte>, behind: seq<Byte>) returns (r: Line)
    ensures r == ParseLine(p, s, behind)
  {
    var text := s + behind;
    var n := 0;
    while n < |text| && p.line(text[..n]).LineGoing?
      invariant 0 <= n <= |text| && Stop(LineGoes(p), text, n) == Stop(LineGoes(p), text, 0)
    {
      n := n + 1;
    }
    match p.line(text[..n]) {
      case LineDone(protocol, known, request) => return GoodLine(n, protocol, known, request);
      case LineFailed(at) => return if at == |s| then NeedLine else BadLine;
      case LineGoing => return StrayLine;
    }
  }

  /** The loop of the header parser. */
  method RunHeaders(p: Parsers, r: Request, s: seq<Byte>, behind: seq<Byte>, unset: nat) returns (h: Headers)
    ensures h == ParseHeaders(p, r, s, behind, unset)
  {
    var text := s + behind;
    var n := 0;
    while n < |text| && p.headers(r, text[..n]).HeadGoing?
      invariant 0 <= n <= |text| && Stop(HeadersGo(p, r), text, n) == Stop(HeadersGo(p, r), text, 0)
    {
      n := n + 1;
    }
    match p.headers(r, text[..n]) {
      case HeadDone(request) => return AllHeaders(n, request);
      case HeadFailed(read, request) =>
        return if n == |s| + 1 then MoreHeaders(if read.Some? then read.value else unset, request) else BadHeaders(request);
      case HeadGoing => return StrayHeaders;
    }
  }

  /** An automaton that goes on after every shorter part of a text, and not after its first n bytes,
      stops there. */
  lemma StopsAt(going: seq<Byte> -> bool, text: seq<Byte>, n: nat)
    requires n <= |text| && !going(text[..n]) && forall j :: 0 <= j < n ==> going(text[..j])
    ensures Stop(going, text, 0) == Some(n)
  {
  }

  /** The answer to a request line, from the verdicts of its automaton on the bytes of the input and
      those behind it: the first one that is not to go on decides; a failure means that more input is
      needed if and only if it is at the first byte behind the input. */
  lemma LineAnswer(p: Parsers, s: seq<Byte>, behind: seq<Byte>, n: nat)
    requires n <= |s + behind| && forall j :: 0 <= j < n ==> p.line((s + behind)[..j]).LineGoing?
    ensures match p.line((s + behind)[..n])
            case LineDone(protocol, known, request) => ParseLine(p, s, behind) == GoodLine(n, protocol, known, request)
            case LineFailed(at) => ParseLine(p, s, behind) == if at == |s| then NeedLine else BadLine
            case LineGoing => n == |s + behind| ==> ParseLine(p, s, behind) == StrayLine
  {
    forall j | 0 <= j < n ensures LineGoes(p)((s + behind)[..j]) {
      assert p.line((s + behind)[..j]).LineGoing?;
    }
    if !p.line((s + behind)[..n]).LineGoing? {
      StopsAt(LineGoes(p), s + behind, n);
    }
  }

  /** The same for headers; a failure at the first byte behind the input means that the completed
      header lines are taken, or what the size held before if there are none. */
  lemma HeadersAnswer(p: Parsers, r: Request, s: seq<Byte>, behind: seq<Byte>, unset: nat, n: nat)
    requires n <= |s + behind| && forall j :: 0 <= j < n ==> p.headers(r, (s + behind)[..j]).HeadGoing?
    ensures match p.headers(r, (s + behind)[..n])
            case HeadDone(request) => ParseHeaders(p, r, s, behind, unset) == AllHeaders(n, request)
            case HeadFailed(read, request) =>
              ParseHeaders(p, r, s, behind, unset) ==
              if n != |s| + 1 then BadHeaders(request)
              else MoreHeaders(if read == None then unset else read.value, request)
            case HeadGoing => n == |s + behind| ==> ParseHeaders(p, r, s, behind, unset) == StrayHeaders
  {
    forall j | 0 <= j < n ensures HeadersGo(p, r)((s + behind)[..j]) {
      assert p.headers(r, (s + behind)[..j]).HeadGoing?;
    }
    if !p.headers(r, (s + behind)[..n]).HeadGoing? {
      StopsAt(HeadersGo(p, r), s + behind, n);
    }
  }

  // ---------------------------------------------------------------- decided by its own bytes

  lemma SamePrefix(s: seq<Byte>, more: seq<Byte>, n: nat)
    requires n <= |s|
    ensures (s + more)[..n] == s[..n]
  {
  }

  /** A request line that is all there, or cannot become one, is judged by its own bytes. */
  lemma LineByOwnBytes(p: Parsers, s: seq<Byte>, behind: seq<Byte>)
    requires Automata(p) && LineDecided(p, s)
    ensures ParseLine(p, s, behind) == ParseLine(p, s, [])
    ensures ParseLine(p, s, []).BadLine? || (ParseLine(p, s, []).GoodLine? && 0 < ParseLine(p, s, []).size <= |s|)
  {
    StopStays(LineGoes(p), s, behind);
    StopStays(LineGoes(p), s, []);
    var n := Stop(LineGoes(p), s, 0).value;
    SamePrefix(s, behind, n);
    SamePrefix(s, [], n);
    assert s[..0] == [];
  }

  /** So is a header block. */
  lemma HeadersByOwnBytes(p: Parsers, r: Request, s: seq<Byte>, behind: seq<Byte>, unset: nat)
    requires Automata(p) && HeadersDecided(p, r, s)
    ensures ParseHeaders(p, r, s, behind, unset) == ParseHeaders(p, r, s, [], 0)
    ensures var h := ParseHeaders(p, r, s, [], 0); h.BadHeaders? || (h.AllHeaders? && 0 < h.size <= |s|)
  {
    StopStays(HeadersGo(p, r), s, behind);
    StopStays(HeadersGo(p, r), s, []);
    var n := Stop(HeadersGo(p, r), s, 0).value;
    SamePrefix(s, behind, n);
    SamePrefix(s, [], n);
    assert s[..0] == [];
  }

  /** What is judged by its own bytes is judged alike when more bytes arrive. */
  lemma LineStays(p: Parsers, s: seq<Byte>, more: seq<Byte>)
    requires Automata(p) && LineDecided(p, s)
    ensures LineDecided(p, s + more) && ParseLine(p, s + more, []) == ParseLine(p, s, [])
  {
    StopStays(LineGoes(p), s, more);
    StopStays(LineGoes(p), s + more, []);
    StopStays(LineGoes(p), s, []);
    var n := Stop(LineGoes(p), s, 0).value;
    SamePrefix(s, more, n);
    SamePrefix(s, [], n);
    SamePrefix(s + more, [], n);
  }

  lemma HeadersStay(p: Parsers, r: Request, s: seq<Byte>, more: seq<Byte>)
    requires Automata(p) && HeadersDecided(p, r, s)
    ensures HeadersDecided(p, r, s + more) && ParseHeaders(p, r, s + more, [], 0) == ParseHeaders(p, r, s, [], 0)
  {
    HeadersByOwnBytes(p, r, s, [], 0);
    StopStays(HeadersGo(p, r), s, more);
    StopStays(HeadersGo(p, r), s + more, []);
    StopStays(HeadersGo(p, r), s, []);
    var n := Stop(HeadersGo(p, r), s, 0).value;
    SamePrefix(s, more, n);
    SamePrefix(s, [], n);
    SamePrefix(s + more, [], n);
    assert n <= |s|;
  }

  /** The same memory is not read both as a request line and as a header block. */
  lemma NotBoth(p: Parsers, r: Request, s: seq<Byte>, behind: seq<Byte>, unset: nat)
    requires Automata(p) && ParseLine(p, s, behind).GoodLine?
    ensures !ParseHeaders(p, r, s, behind, unset).AllHeaders?
  {
    assert BeginsWithLine(p, s + behind);
    assert !BeginsWithHeaders(p, r, s + behind);
  }

  lemma SizesPositive(p: Parsers, r: Request, s: seq<Byte>, behind: seq<Byte>, unset: nat)
    requires Automata(p)
    ensures ParseLine(p, s, behind).GoodLine? ==> 0 < ParseLine(p, s, behind).size
    ensures ParseHeaders(p, r, s, behind, unset).AllHeaders? ==> 0 < ParseHeaders(p, r, s, behind, unset).size
  {
    assert (s + behind)[..0] == [];
  }

  // ---------------------------------------------------------------- not decided

  /** Behind any text that is not decided there may be bytes that the automaton fails at later. */
  ghost predicate Fragile(p: Parsers) {
    && (forall s :: !LineDecided(p, s) ==> exists b :: ParseLine(p, s, b).BadLine?)
    && (forall r, s :: !HeadersDecided(p, r, s) ==> exists b :: ParseHeaders(p, r, s, b, 0).BadHeaders?)
  }
}
