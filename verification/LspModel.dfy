/** Framing of language-server messages over a byte stream: one char stands for one byte. */
module LspModel {
  import opened Common

  const SEPARATOR := "\r\n\r\n"
  const CONTENT_LENGTH := "content-length:"

  // ---- encoding ----

  function Decimal(n: nat): string {
    if n < 10 then [Digit(n)] else Decimal(n / 10) + [Digit(n % 10)]
  }

  function Digit(d: nat): char
    requires d < 10
  {
    '0' + d as char
  }

  function Header(body: string): string {
    "Content-Length: " + Decimal(|body|)
  }

  function Encode(body: string): string {
    Header(body) + SEPARATOR + body
  }

  function EncodeAll(bodies: seq<string>): string {
    if bodies == [] then "" else Encode(bodies[0]) + EncodeAll(bodies[1..])
  }

  // ---- bytes.find, bytes.split, bytes.lower ----

  predicate At(s: string, i: nat, w: string) {
    i + |w| <= |s| && forall k | 0 <= k < |w| :: s[i + k] == w[k]
  }

  /** Position of the first occurrence at or after `from`. */
  function Find(s: string, w: string, from: nat): (r: Option<nat>)
    requires from <= |s|
    ensures r.Some? ==> from <= r.value && At(s, r.value, w) && forall i | from <= i < r.value :: !At(s, i, w)
    ensures r.None? ==> forall i | from <= i <= |s| :: !At(s, i, w)
    decreases |s| - from
  {
    if At(s, from, w) then Some(from)
    else if from == |s| then None
    else Find(s, w, from + 1)
  }

  function Lines(header: string): seq<string>
    decreases |header|
  {
    match Find(header, "\r\n", 0)
    case None => [header]
    case Some(i) => [header[..i]] + Lines(header[i + 2..])
  }

  function LowerChar(c: char): char {
    if 'A' <= c <= 'Z' then (c - 'A') + 'a' else c
  }

  function Lower(s: string): string {
    seq(|s|, i requires 0 <= i < |s| => LowerChar(s[i]))
  }

  // ---- int(bytes) ----

  predicate Space(c: char) {
    c == ' ' || '\t' <= c <= '\r'
  }

  function LeftStrip(s: string): string {
    if s != "" && Space(s[0]) then LeftStrip(s[1..]) else s
  }

  function RightStrip(s: string): string
    decreases |s|
  {
    if s != "" && Space(Last(s)) then RightStrip(Front(s)) else s
  }

  function Strip(s: string): string {
    RightStrip(LeftStrip(s))
  }

  predicate IsDigit(c: char) {
    '0' <= c <= '9'
  }

  /** Value of a run of digits, single underscores allowed between them. */
  function Digits(s: string): Option<nat>
    decreases |s|
  {
    if s == "" || !IsDigit(Last(s)) then None
    else
      var d := (Last(s) - '0') as nat;
      var front := Front(s);
      if front == "" then Some(d)
      else
        var more := if Last(front) == '_' then Digits(Front(front)) else Digits(front);
        if more.None? then None else Some(10 * more.value + d)
  }

  function PyInt(s: string): Option<int> {
    var t := Strip(s);
    if t == "" then None
    else if t[0] == '-' then
      var n := Digits(t[1..]);
      if n.None? then None else Some(0 - n.value as int)
    else if t[0] == '+' then Digits(t[1..])
    else Digits(t)
  }

  // ---- one parse ----

  datatype Length = Missing | Bad | Length(value: int)

  predicate IsContentLength(line: string) {
    At(Lower(line), 0, CONTENT_LENGTH)
  }

  /** What follows the first colon of a line that has one. */
  function AfterColon(line: string): string {
    match Find(line, ":", 0)
    case None => ""
    case Some(i) => line[i + 1..]
  }

  /** The last content-length line counts; one that is no number raises. */
  function LengthOf(lines: seq<string>, sofar: Length): Length {
    if lines == [] then sofar
    else if IsContentLength(lines[0]) then
      match PyInt(AfterColon(lines[0]))
      case None => Bad
      case Some(n) => LengthOf(lines[1..], Length(n))
    else LengthOf(lines[1..], sofar)
  }

  /** Where rest[:length] and rest[length:] cut: a negative length counts from the end. */
  function Cut(rest: string, length: int): (c: nat)
    requires length <= |rest|
    ensures c <= |rest|
  {
    if length >= 0 then length else if -length <= |rest| then |rest| + length else 0
  }

  datatype Parsed = NeedMore | Malformed | Message(body: string, rest: string, length: int)

  function TryParse(buf: string): (r: Parsed)
    ensures r.Message? ==> |r.rest| < |buf|
  {
    match Find(buf, SEPARATOR, 0)
    case None => NeedMore
    case Some(i) =>
      var rest := buf[i + 4..];
      match LengthOf(Lines(buf[..i]), Missing)
      case Missing => Malformed
      case Bad => Malformed
      case Length(n) => if |rest| < n then NeedMore else Message(rest[..Cut(rest, n)], rest[Cut(rest, n)..], n)
  }

  // ---- the reader ----

  /** What becomes of a body once json.loads has seen it. */
  datatype Json =
    | Undecodable       // json.loads raises
    | Null              // decodes to None, which ends the round of parsing
    | Unfit             // decodes to a value on which looking up "id" raises, such as a number
    | Answer(id: int)   // an object with this id and a result or an error
    | Other             // anything else: a notification, or a request of the server

  type Decoder = string -> Json

  /** The reader ends with an exception. */
  predicate Fails(j: Json) {
    j.Undecodable? || j.Unfit?
  }

  predicate Delivers(j: Json) {
    j.Answer? || j.Other?
  }

  /** Bodies delivered so far, and the unparsed buffer while the reader is alive. */
  datatype Outcome = Outcome(bodies: seq<string>, tail: Option<string>)

  /** The round of parsing after a read: as long as there is a message that is not null. */
  function Drain(buf: string, decode: Decoder): Outcome
    decreases |buf|
  {
    match TryParse(buf)
    case NeedMore => Outcome([], Some(buf))
    case Malformed => Outcome([], None)
    case Message(body, rest, _) =>
      if Fails(decode(body)) then Outcome([], None)
      else if decode(body) == Null then Outcome([], Some(rest))
      else
        var later := Drain(rest, decode);
        Outcome([body] + later.bodies, later.tail)
  }

  function Feed(o: Outcome, chunk: string, decode: Decoder): Outcome {
    match o.tail
    case None => o
    case Some(buf) =>
      var d := Drain(buf + chunk, decode);
      Outcome(o.bodies + d.bodies, d.tail)
  }

  function FeedAll(o: Outcome, chunks: seq<string>, decode: Decoder): Outcome
    decreases |chunks|
  {
    if chunks == [] then o else FeedAll(Feed(o, chunks[0], decode), chunks[1..], decode)
  }

  function Joined(chunks: seq<string>): string {
    if chunks == [] then "" else chunks[0] + Joined(chunks[1..])
  }

  /** An empty read is the end of the stream, so no chunk is empty. */
  predicate NonEmpty(chunks: seq<string>) {
    forall i | 0 <= i < |chunks| :: chunks[i] != ""
  }

  function Fresh(): Outcome {
    Outcome([], Some(""))
  }
}
