/** The text protocol: answers and events written as a line of words and a payload, and read back. */
module TextProtocol {
  import opened Bytes
  import opened Sequences
  import opened Containers
  import opened Publisher

  // ----- Numbers -----

  const SIZE_LIMIT: nat := 0x1_0000_0000_0000_0000

  function DigitOf(d: nat): char
    requires d < 10
  {
    '0' + d as char
  }

  /** A number as a stream writes it. */
  function NatText(n: nat): (r: string)
    ensures r != [] && forall i :: 0 <= i < |r| ==> IsDigit(r[i])
  {
    if n < 10 then [DigitOf(n)] else NatText(n / 10) + [DigitOf(n % 10)]
  }

  function IntText(i: int): string {
    if i < 0 then ['-'] + NatText(-i) else NatText(i)
  }

  lemma {:induction false} DigitsBack(n: nat)
    ensures Digits(NatText(n)) == Some(n)
  {
    if n >= 10 {
      DigitsBack(n / 10);
      assert NatText(n)[..|NatText(n)| - 1] == NatText(n / 10);
    }
  }

  /** `lexical_cast` to an `int`: a sign, digits, and a value that fits. */
  function IntOf(s: string): Option<int> {
    if s == [] then None
    else
      match Digits(if s[0] == '-' || s[0] == '+' then s[1..] else s)
      case None => None
      case Some(n) =>
        var i: int := if s[0] == '-' then 0 - n else n;
        if -0x8000_0000 <= i < 0x8000_0000 then Some(i) else None
  }

  /** `lexical_cast` to a `size_t`, which takes a minus sign and wraps. */
  function SizeOf(s: string): Option<nat> {
    if s == [] then None
    else
      match Digits(if s[0] == '-' || s[0] == '+' then s[1..] else s)
      case None => None
      case Some(n) =>
        if n >= SIZE_LIMIT then None else Some(if s[0] == '-' then (SIZE_LIMIT - n) % SIZE_LIMIT else n)
  }

  lemma IntBack(i: int)
    requires -0x8000_0000 <= i < 0x8000_0000
    ensures IntOf(IntText(i)) == Some(i)
  {
    hide NatText, Digits;
    var n: nat := if i < 0 then -i else i;
    DigitsBack(n);
    if i < 0 {
      assert IntText(i)[1..] == NatText(n);
    } else {
      assert IsDigit(NatText(n)[0]);
    }
  }

  lemma SizeBack(n: nat)
    requires n < SIZE_LIMIT
    ensures SizeOf(NatText(n)) == Some(n)
  {
    DigitsBack(n);
    assert IsDigit(NatText(n)[0]);
  }

  // ----- Writing -----

  const CRLF: string := ['\r', '\n']

  /** Data of the kinds that are written without loss. */
  predicate Exact(d: Data) {
    match d
    case Null => true
    case Int(n) => -0x8000_0000 <= n < 0x8000_0000
    case Real(_) => false
    case Text(t) => |t| < SIZE_LIMIT
  }

  /** Data as a stream writes it. */
  function Shown(d: Data): string
    requires Exact(d)
  {
    match d
    case Null => "**NULL**"
    case Int(n) => IntText(n)
    case Text(t) => t
  }

  function KindOf(d: Data): string {
    match d
    case Int(_) => "int"
    case Real(_) => "double"
    case Text(_) => "string"
    case Null => "INTERNAL_ERROR"
  }

  datatype Triple = Triple(key: Data, value: Data, metadata: Data)

  const NO_TRIPLE := Triple(Null, Null, Null)

  predicate AllExact(t: Triple) {
    Exact(t.key) && Exact(t.value) && Exact(t.metadata)
  }

  /** A field that is present, under its name. */
  datatype Part = Part(name: string, data: Data)

  predicate PartOk(p: Part) {
    IsFieldName(p.name) && !p.data.Null? && Exact(p.data)
  }

  predicate PartsOk(parts: seq<Part>) {
    forall i :: 0 <= i < |parts| ==> PartOk(parts[i])
  }

  function OnePart(name: string, d: Data): seq<Part> {
    if d.Null? then [] else [Part(name, d)]
  }

  function Parts(t: Triple): seq<Part> {
    OnePart("key", t.key) + OnePart("value", t.value) + OnePart("metadata", t.metadata)
  }

  lemma PartsAreOk(t: Triple)
    requires AllExact(t)
    ensures PartsOk(Parts(t)) && (Parts(t) == [] <==> t == NO_TRIPLE)
  {
  }

  /** The three words that announce a part. */
  function WordsOf(p: Part): seq<string>
    requires PartOk(p)
  {
    [p.name, KindOf(p.data), NatText(|Shown(p.data)|)]
  }

  function Words(parts: seq<Part>): seq<string>
    requires PartsOk(parts)
  {
    if parts == [] then [] else WordsOf(parts[0]) + Words(parts[1..])
  }

  /** The data of the parts, each with a line end. */
  function Payload(parts: seq<Part>): string
    requires PartsOk(parts)
  {
    if parts == [] then [] else Shown(parts[0].data) + CRLF + Payload(parts[1..])
  }

  /** Words, each with a space in front. */
  function Spaced(words: seq<string>): string {
    if words == [] then [] else [' '] + words[0] + Spaced(words[1..])
  }

  /** `SerializeData`; with nothing to say it says nothing, not even the end of the line. */
  function Serialized(t: Triple): string
    requires AllExact(t)
  {
    PartsAreOk(t);
    if t == NO_TRIPLE then [] else Spaced(Words(Parts(t))) + CRLF + Payload(Parts(t))
  }

  /** `MakeDataAnswer`. */
  function DataAnswer(t: Triple): string
    requires AllExact(t)
  {
    "answer" + Spaced(["ok", "data"]) + Serialized(t)
  }

  /** `MakeEventAnswer`. */
  function EventAnswer(name: string, handle: nat, t: Triple): string
    requires AllExact(t)
  {
    "event" + Spaced([NatText(handle), name]) + Serialized(t)
  }

  /** `SendTextEvent`: data that is written as nothing is left out, and the line always ends. */
  function TextEvent(name: string, handle: nat, t: Triple): string
    requires AllExact(t)
  {
    PartsAreOk(WithoutEmpty(t));
    "event" + Spaced([NatText(handle), name] + Words(Parts(WithoutEmpty(t)))) + CRLF + Payload(Parts(WithoutEmpty(t)))
  }

  function NotEmpty(d: Data): Data {
    if d == Text("") then Null else d
  }

  function WithoutEmpty(t: Triple): Triple {
    Triple(NotEmpty(t.key), NotEmpty(t.value), NotEmpty(t.metadata))
  }

  // ----- Reading -----

  predicate IsFieldName(name: string) {
    name == "key" || name == "value" || name == "metadata"
  }

  datatype FieldInfo = FieldInfo(name: string, kind: string, size: nat)

  /** `ExtractFieldSet`: three words a field, and the size of the payload they announce. */
  function FieldSet(words: seq<string>): (r: Result<(seq<FieldInfo>, nat)>)
    ensures r.Ok? ==> r.value.1 == Needed(r.value.0)
  {
    if words == [] then Ok(([], 0))
    else if !IsFieldName(words[0]) then Err("invalid field name")
    else if |words| < 3 then Err("invalid number of parameters")
    else
      match SizeOf(words[2])
      case None => Err("bad lexical cast")
      case Some(size) =>
        match FieldSet(words[3..])
        case Err(error) => Err(error)
        case Ok(rest) => Ok(([FieldInfo(words[0], words[1], size)] + rest.0, size + 2 + rest.1))
  }

  /** `SetTioData`; how text is read as a double is left open. */
  function DataOf(double: string -> Option<real>, kind: string, text: string): Result<Data> {
    if kind == "int" then
      match IntOf(text) case None => Err("bad lexical cast") case Some(i) => Ok(Int(i))
    else if kind == "double" then
      match double(text) case None => Err("bad lexical cast") case Some(x) => Ok(Real(x))
    else if kind == "string" then Ok(Text(text))
    else Err("invalid data type")
  }

  function SetField(t: Triple, name: string, d: Data): Triple {
    if name == "key" then t.(key := d)
    else if name == "value" then t.(value := d)
    else if name == "metadata" then t.(metadata := d)
    else t
  }

  /** How much of the payload the fields take. */
  function Needed(fields: seq<FieldInfo>): nat {
    if fields == [] then 0 else fields[0].size + 2 + Needed(fields[1..])
  }

  /** `ExtractFieldsFromBuffer`: every field takes its size, and two characters are skipped behind it. */
  function Extract(double: string -> Option<real>, fields: seq<FieldInfo>, buffer: string, t: Triple): Result<Triple>
    requires Needed(fields) <= |buffer|
  {
    if fields == [] then Ok(t)
    else
      var f := fields[0];
      match DataOf(double, f.kind, buffer[..f.size])
      case Err(error) => Err(error)
      case Ok(d) => Extract(double, fields[1..], buffer[f.size + 2..], SetField(t, f.name, d))
  }

  /** The words between the spaces; two spaces have an empty word between them. */
  function Split(s: string): (r: seq<string>)
    ensures r != []
  {
    if s == [] then [[]]
    else
      var r := Split(s[1..]);
      if s[0] == ' ' then [[]] + r else [[s[0]] + r[0]] + r[1..]
  }

  datatype AnswerKind = Undefined | AnAnswer | AnEvent

  datatype Answer = Answer(kind: AnswerKind, error: bool, message: string, eventName: string, parameter: string,
                           parameterType: string, fields: seq<FieldInfo>, pending: nat, data: Triple)

  const NO_ANSWER := Answer(Undefined, false, "", "", "", "", [], 0, NO_TRIPLE)

  /** The payload an answer waits for is the one its fields take. */
  predicate Announced(r: Result<Answer>) {
    r.Ok? ==> r.value.pending == Needed(r.value.fields) && r.value.data == NO_TRIPLE
  }

  function WithFields(a: Answer, words: seq<string>): (r: Result<Answer>)
    requires a.data == NO_TRIPLE
    ensures Announced(r)
  {
    match FieldSet(words)
    case Err(error) => Err(error)
    case Ok(found) => Ok(a.(fields := found.0, pending := found.1))
  }

  /** Words, each with a space behind. */
  function Message(words: seq<string>): string {
    if words == [] then [] else words[0] + [' '] + Message(words[1..])
  }

  /** The words of a line that begins with `answer` and a result. */
  function ParseResult(words: seq<string>): (r: Result<Answer>)
    requires |words| >= 2
    ensures Announced(r)
  {
    var a := NO_ANSWER.(kind := AnAnswer, error := words[1] == "error");
    if words[1] != "ok" && words[1] != "error" then Err("invalid line")
    else if words[1] == "error" then Ok(a.(message := Message(words[2..])))
    else if |words| == 2 || words[2] == "" then Ok(a)
    else if words[2] == "data" then WithFields(a, words[3..])
    else if words[2] == "handle" || words[2] == "count" || words[2] == "type" then
      if |words| == 3 then Err("no data") else Ok(a.(parameterType := words[2], parameter := words[3]))
    else Ok(a)
  }

  function ParseEvent(words: seq<string>): (r: Result<Answer>)
    ensures Announced(r)
  {
    var a := NO_ANSWER.(kind := AnEvent, parameterType := "handle");
    if |words| < 2 then Err("no handle value")
    else if |words| < 3 then Err("no data")
    else WithFields(a.(parameter := words[1], eventName := words[2]), words[3..])
  }

  /** `ParseAnswerLine`, on a line with a word behind `answer`, as the source takes for granted. */
  function ParseLine(line: string): (r: Result<Answer>)
    requires Unended(line) != "answer"
    ensures Announced(r)
  {
    if line == [] then Err("empty command line")
    else
      var words := Split(Unended(line));
      if words[0] == "answer" then
        AnswerHasResult(Unended(line));
        ParseResult(words)
      else if words[0] == "event" then ParseEvent(words)
      else Ok(NO_ANSWER)
  }

  function Unended(line: string): string {
    if line != [] && line[|line| - 1] == '\r' then line[..|line| - 1] else line
  }

  lemma {:induction false} SplitOne(s: string)
    requires |Split(s)| == 1
    ensures Split(s)[0] == s
  {
    if s != [] && s[0] != ' ' {
      SplitOne(s[1..]);
    }
  }

  lemma AnswerHasResult(line: string)
    requires line != "answer" && Split(line)[0] == "answer"
    ensures |Split(line)| >= 2
  {
    if |Split(line)| == 1 {
      SplitOne(line);
    }
  }

  // ----- The client -----

  datatype Received = Incomplete | Wrong(error: string) | Got(answer: Answer, rest: string)

  /** Where the first line of a stream ends, if it does. */
  function LineEnd(s: string): (r: Option<nat>)
    ensures r.Some? ==> r.value < |s| && s[r.value] == '\n' && '\n' !in s[..r.value]
    ensures r.None? ==> '\n' !in s
  {
    if s == [] then None
    else if s[0] == '\n' then Some(0)
    else
      match LineEnd(s[1..])
      case None => None
      case Some(n) =>
        assert s[..n + 1] == [s[0]] + s[1..][..n];
        Some(n + 1)
  }

  /** `Receive`: a line, and as many characters behind it as it announces; whatever follows stays in the stream. */
  function Receive(double: string -> Option<real>, s: string): Received {
    match LineEnd(s)
    case None => Incomplete
    case Some(n) =>
      if Unended(s[..n]) == "answer" then Wrong("no result")
      else
        match ParseLine(s[..n])
        case Err(error) => Wrong(error)
        case Ok(a) => ReceiveData(double, a, s[n + 1..])
  }

  function ReceiveData(double: string -> Option<real>, a: Answer, rest: string): Received
    requires a.pending == Needed(a.fields)
  {
    if a.pending == 0 then Got(a, rest)
    else if |rest| < a.pending then Incomplete
    else
      match Extract(double, a.fields, rest[..a.pending], NO_TRIPLE)
      case Err(error) => Wrong(error)
      case Ok(t) => Got(a.(data := t), rest[a.pending..])
  }

  // ----- Words come back -----

  /** A word that neither ends a word nor a line. */
  predicate Clean(w: string) {
    ' ' !in w && '\r' !in w && '\n' !in w
  }

  predicate AllClean(words: seq<string>) {
    forall i :: 0 <= i < |words| ==> Clean(words[i])
  }

  lemma {:induction false} SplitWord(w: string, rest: string)
    requires ' ' !in w
    ensures Split(w + rest) == [w + Split(rest)[0]] + Split(rest)[1..]
  {
    if w == [] {
      assert w + rest == rest && w + Split(rest)[0] == Split(rest)[0];
    } else {
      SplitWord(w[1..], rest);
      assert (w + rest)[1..] == w[1..] + rest;
      assert [w[0]] + (w[1..] + Split(rest)[0]) == w + Split(rest)[0];
    }
  }

  lemma {:induction false} SplitSpaced(w: string, words: seq<string>)
    requires Clean(w) && AllClean(words)
    ensures Split(w + Spaced(words)) == [w] + words
    decreases words
  {
    SplitWord(w, Spaced(words));
    if words == [] {
      assert w + [] == w;
    } else {
      SplitSpaced(words[0], words[1..]);
      assert Spaced(words)[1..] == words[0] + Spaced(words[1..]);
      assert w + [] == w;
      assert words == [words[0]] + words[1..];
    }
  }

  lemma {:induction false} SpacedAppend(a: seq<string>, b: seq<string>)
    ensures Spaced(a + b) == Spaced(a) + Spaced(b)
  {
    if a == [] {
      assert a + b == b;
    } else {
      SpacedAppend(a[1..], b);
      assert (a + b)[1..] == a[1..] + b;
    }
  }

  lemma {:induction false} SpacedHasNoLineEnd(words: seq<string>)
    requires AllClean(words)
    ensures '\n' !in Spaced(words) && '\r' !in Spaced(words)
  {
    if words != [] {
      SpacedHasNoLineEnd(words[1..]);
    }
  }

  lemma NumberIsClean(n: nat)
    ensures Clean(NatText(n))
  {
  }

  lemma {:induction false} NumberIsShort(n: nat)
    ensures |NatText(n)| <= n + 1
  {
    if n >= 10 {
      NumberIsShort(n / 10);
    }
  }

  lemma {:induction false} WordsAreClean(parts: seq<Part>)
    requires PartsOk(parts)
    ensures AllClean(Words(parts))
  {
    hide WordsOf, Clean;
    if parts != [] {
      WordsAreClean(parts[1..]);
      PartIsClean(parts[0]);
    }
  }

  lemma PartIsClean(p: Part)
    requires PartOk(p)
    ensures AllClean(WordsOf(p))
  {
    hide NatText, Shown;
    NumberIsClean(|Shown(p.data)|);
    assert Clean(p.name) && Clean(KindOf(p.data));
  }

  // ----- Fields come back -----

  function InfoOf(p: Part): FieldInfo
    requires PartOk(p)
  {
    FieldInfo(p.name, KindOf(p.data), |Shown(p.data)|)
  }

  function Infos(parts: seq<Part>): seq<FieldInfo>
    requires PartsOk(parts)
  {
    if parts == [] then [] else [InfoOf(parts[0])] + Infos(parts[1..])
  }

  lemma ShownIsShort(d: Data)
    requires Exact(d)
    ensures |Shown(d)| < SIZE_LIMIT
  {
    if d.Int? {
      NumberIsShort(if d.number < 0 then -d.number else d.number);
    }
  }

  /** The words announce the parts, and exactly the payload. */
  lemma {:induction false} FieldSetBack(parts: seq<Part>)
    requires PartsOk(parts)
    ensures FieldSet(Words(parts)) == Ok((Infos(parts), |Payload(parts)|))
  {
    hide NatText, Shown, SizeOf, KindOf;
    if parts != [] {
      FieldSetBack(parts[1..]);
      ShownIsShort(parts[0].data);
      SizeBack(|Shown(parts[0].data)|);
      assert Words(parts)[3..] == Words(parts[1..]);
    }
  }

  function SetAll(t: Triple, parts: seq<Part>): Triple
    decreases parts
  {
    if parts == [] then t else SetAll(SetField(t, parts[0].name, parts[0].data), parts[1..])
  }

  lemma DataBack(double: string -> Option<real>, d: Data)
    requires Exact(d) && !d.Null?
    ensures DataOf(double, KindOf(d), Shown(d)) == Ok(d)
  {
    if d.Int? {
      IntBack(d.number);
    }
  }

  /** Every part is found in the payload, whatever characters it holds. */
  lemma {:induction false} ExtractBack(double: string -> Option<real>, parts: seq<Part>, t: Triple)
    requires PartsOk(parts)
    ensures Needed(Infos(parts)) == |Payload(parts)|
    ensures Extract(double, Infos(parts), Payload(parts), t) == Ok(SetAll(t, parts))
  {
    if parts != [] {
      var p, payload := parts[0], Payload(parts);
      ExtractBack(double, parts[1..], SetField(t, p.name, p.data));
      DataBack(double, p.data);
      assert payload[..|Shown(p.data)|] == Shown(p.data);
      assert payload[|Shown(p.data)| + 2..] == Payload(parts[1..]);
    }
  }

  lemma PartsSetAll(t: Triple)
    ensures SetAll(NO_TRIPLE, Parts(t)) == t
  {
    var k, v, m := OnePart("key", t.key), OnePart("value", t.value), OnePart("metadata", t.metadata);
    SetAllAppend(NO_TRIPLE, k + v, m);
    SetAllAppend(NO_TRIPLE, k, v);
    SetOne(NO_TRIPLE, "key", t.key);
    SetOne(Triple(t.key, Null, Null), "value", t.value);
    SetOne(Triple(t.key, t.value, Null), "metadata", t.metadata);
  }

  lemma SetOne(t: Triple, name: string, d: Data)
    requires IsFieldName(name) && (d.Null? ==> SetField(t, name, d) == t)
    ensures SetAll(t, OnePart(name, d)) == SetField(t, name, d)
  {
    assert !d.Null? ==> [Part(name, d)][1..] == [];
  }

  lemma {:induction false} SetAllAppend(t: Triple, a: seq<Part>, b: seq<Part>)
    ensures SetAll(t, a + b) == SetAll(SetAll(t, a), b)
    decreases a
  {
    if a == [] {
      assert a + b == b;
    } else {
      SetAllAppend(SetField(t, a[0].name, a[0].data), a[1..], b);
      assert (a + b)[1..] == a[1..] + b;
    }
  }

  // ----- Messages come back -----

  /** A line of words, the end of the line, and a payload. */
  function Sent(first: string, words: seq<string>, payload: string): string {
    first + Spaced(words) + CRLF + payload
  }

  lemma LineBack(first: string, words: seq<string>, payload: string, rest: string)
    requires Clean(first) && first != [] && AllClean(words)
    ensures var s, line := Sent(first, words, payload) + rest, first + Spaced(words);
      && LineEnd(s) == Some(|line| + 1) && s[..|line| + 1] == line + ['\r'] && s[|line| + 2..] == payload + rest
      && Unended(line + ['\r']) == line && Split(line) == [first] + words
  {
    var s, line := Sent(first, words, payload) + rest, first + Spaced(words);
    SpacedHasNoLineEnd(words);
    assert s[..|line| + 1] == line + ['\r'] && s[|line| + 1] == '\n' && s[|line| + 2..] == payload + rest;
    assert '\n' !in s[..|line| + 1];
    FirstLineEnd(s, |line| + 1);
    SplitSpaced(first, words);
  }

  lemma {:induction false} FirstLineEnd(s: string, n: nat)
    requires n < |s| && s[n] == '\n' && '\n' !in s[..n]
    ensures LineEnd(s) == Some(n)
  {
    if n > 0 {
      assert s[..n][0] == s[0];
      assert s[1..][..n - 1] == s[..n][1..];
      FirstLineEnd(s[1..], n - 1);
    }
  }

  /** What is received is what the line says, with the data of the payload, and what follows is left alone. */
  lemma PayloadBack(double: string -> Option<real>, a: Answer, t: Triple, rest: string)
    requires AllExact(t) && a.data == NO_TRIPLE
    requires PartsOk(Parts(t)) && a.fields == Infos(Parts(t)) && a.pending == |Payload(Parts(t))|
    ensures a.pending == Needed(a.fields) && ReceiveData(double, a, Payload(Parts(t)) + rest) == Got(a.(data := t), rest)
  {
    var payload := Payload(Parts(t));
    ExtractBack(double, Parts(t), NO_TRIPLE);
    PartsSetAll(t);
    assert (payload + rest)[..|payload|] == payload && (payload + rest)[|payload|..] == rest;
    if payload == [] {
      assert t == NO_TRIPLE;
      assert payload + rest == rest;
    }
  }

  /** The answer that says `t`. */
  function SaysData(a: Answer, t: Triple): Answer
    requires AllExact(t)
  {
    PartsAreOk(t);
    a.(fields := Infos(Parts(t)), pending := |Payload(Parts(t))|, data := t)
  }

  /** The text protocol round trip of an answer. */
  lemma DataAnswerBack(double: string -> Option<real>, t: Triple, rest: string)
    requires AllExact(t) && t != NO_TRIPLE
    ensures Receive(double, DataAnswer(t) + rest) == Got(SaysData(NO_ANSWER.(kind := AnAnswer), t), rest)
  {
    hide Payload, Words, Infos, Spaced, Split, LineEnd, ParseResult, FieldSet, ReceiveData, ParseEvent, Parts;
    PartsAreOk(t);
    var parts := Parts(t);
    var words := ["ok", "data"] + Words(parts);
    WordsAreClean(parts);
    SpacedAppend(["ok", "data"], Words(parts));
    assert DataAnswer(t) == Sent("answer", words, Payload(parts));
    LineBack("answer", words, Payload(parts), rest);
    FieldSetBack(parts);
    var a := SaysData(NO_ANSWER.(kind := AnAnswer), t).(data := NO_TRIPLE);
    DataWords(Words(parts), a.fields, a.pending);
    PayloadBack(double, a, t, rest);
    NotBare("answer", words);
  }

  lemma DataWords(words: seq<string>, fields: seq<FieldInfo>, pending: nat)
    requires FieldSet(words) == Ok((fields, pending))
    ensures ParseResult(["answer"] + (["ok", "data"] + words)) == Ok(NO_ANSWER.(kind := AnAnswer, fields := fields, pending := pending))
  {
    hide FieldSet, Needed;
    assert (["answer"] + (["ok", "data"] + words))[3..] == words;
  }

  lemma NotBare(first: string, words: seq<string>)
    requires words != []
    ensures first + Spaced(words) != first
  {
  }

  lemma EventWords(double: string -> Option<real>, name: string, handle: nat, t: Triple, rest: string)
    requires AllExact(t) && Clean(name) && PartsOk(Parts(t))
    ensures Receive(double, Sent("event", [NatText(handle), name] + Words(Parts(t)), Payload(Parts(t))) + rest)
         == Got(SaysData(NO_ANSWER.(kind := AnEvent, parameterType := "handle", parameter := NatText(handle), eventName := name), t), rest)
  {
    hide Payload, Words, Infos, Spaced, Split, LineEnd, ParseResult, FieldSet, ReceiveData, ParseEvent, Parts, NatText;
    var parts := Parts(t);
    var words := [NatText(handle), name] + Words(parts);
    WordsAreClean(parts);
    NumberIsClean(handle);
    LineBack("event", words, Payload(parts), rest);
    FieldSetBack(parts);
    var a := SaysData(NO_ANSWER.(kind := AnEvent, parameterType := "handle", parameter := NatText(handle), eventName := name), t).(data := NO_TRIPLE);
    EventData(NatText(handle), name, Words(parts), a.fields, a.pending);
    PayloadBack(double, a, t, rest);
    NotAnswer(words);
  }

  lemma EventData(handle: string, name: string, words: seq<string>, fields: seq<FieldInfo>, pending: nat)
    requires FieldSet(words) == Ok((fields, pending))
    ensures ParseEvent(["event"] + ([handle, name] + words))
         == Ok(NO_ANSWER.(kind := AnEvent, parameterType := "handle", parameter := handle, eventName := name, fields := fields, pending := pending))
  {
    hide FieldSet, Needed;
    assert (["event"] + ([handle, name] + words))[3..] == words;
  }

  lemma NotAnswer(words: seq<string>)
    ensures "event" + Spaced(words) != "answer"
  {
    assert ("event" + Spaced(words))[0] == 'e';
  }

  /** The round trip of an event, as `MakeEventAnswer` writes it. */
  lemma EventAnswerBack(double: string -> Option<real>, name: string, handle: nat, t: Triple, rest: string)
    requires AllExact(t) && Clean(name) && t != NO_TRIPLE
    ensures Receive(double, EventAnswer(name, handle, t) + rest)
         == Got(SaysData(NO_ANSWER.(kind := AnEvent, parameterType := "handle", parameter := NatText(handle), eventName := name), t), rest)
  {
    hide Payload, Words, Infos, Spaced, Receive;
    PartsAreOk(t);
    SpacedAppend([NatText(handle), name], Words(Parts(t)));
    assert EventAnswer(name, handle, t) == Sent("event", [NatText(handle), name] + Words(Parts(t)), Payload(Parts(t)));
    EventWords(double, name, handle, t, rest);
  }

  /** As the session writes it, what comes back lacks what was an empty string: it is the same if and only if there was none. */
  lemma TextEventBack(double: string -> Option<real>, name: string, handle: nat, t: Triple, rest: string)
    requires AllExact(t) && Clean(name)
    ensures var r := Receive(double, TextEvent(name, handle, t) + rest);
      && r.Got? && r.rest == rest && r.answer.kind.AnEvent? && r.answer.parameter == NatText(handle) && r.answer.eventName == name
      && r.answer.data == WithoutEmpty(t)
      && (r.answer.data == t <==> t.key != Text("") && t.value != Text("") && t.metadata != Text(""))
  {
    hide Payload, Words, Infos, Spaced, Receive;
    PartsAreOk(WithoutEmpty(t));
    EventWords(double, name, handle, WithoutEmpty(t), rest);
  }

  /**
    An answer can be read whatever follows it if and only if there is something in it: with no key, no value and no
    metadata the line is not ended, and the client waits for more.
    */
  lemma DataAnswerIsReadIff(double: string -> Option<real>, t: Triple)
    requires AllExact(t)
    ensures (forall rest :: Comes(Receive(double, DataAnswer(t) + rest), t, rest)) <==> t != NO_TRIPLE
  {
    hide Receive, DataAnswer, SaysData;
    if t != NO_TRIPLE {
      forall rest ensures Comes(Receive(double, DataAnswer(t) + rest), t, rest) {
        DataAnswerBack(double, t, rest);
        SaysIts(t);
      }
    } else {
      NothingSaid(double);
      assert !Comes(Receive(double, DataAnswer(NO_TRIPLE) + ""), t, "");
    }
  }

  /** The data has come, and what follows is still in the stream. */
  predicate Comes(r: Received, t: Triple, rest: string) {
    r.Got? && r.answer.data == t && r.rest == rest
  }

  lemma SaysIts(t: Triple)
    requires AllExact(t)
    ensures SaysData(NO_ANSWER.(kind := AnAnswer), t).data == t
  {
  }

  lemma NothingSaid(double: string -> Option<real>)
    ensures Receive(double, DataAnswer(NO_TRIPLE) + "") == Incomplete
  {
    hide Spaced;
    SpacedHasNoLineEnd(["ok", "data"]);
    var s := DataAnswer(NO_TRIPLE) + "";
    assert s == "answer" + Spaced(["ok", "data"]);
    assert '\n' !in s;
  }

  // ----- The loops -----

  lemma {:induction false} WordsAppend(a: seq<Part>, b: seq<Part>)
    requires PartsOk(a) && PartsOk(b)
    ensures PartsOk(a + b) && Words(a + b) == Words(a) + Words(b) && Payload(a + b) == Payload(a) + Payload(b)
  {
    hide WordsOf, Shown, PartOk;
    if a == [] {
      assert a + b == b;
    } else {
      WordsAppend(a[1..], b);
      assert (a + b)[1..] == a[1..] + b;
    }
  }

  lemma OneWritten(name: string, d: Data)
    requires IsFieldName(name) && Exact(d)
    ensures PartsOk(OnePart(name, d))
    ensures !d.Null? ==>
      Words(OnePart(name, d)) == [name, KindOf(d), NatText(|Shown(d)|)] && Payload(OnePart(name, d)) == Shown(d) + CRLF
  {
    if !d.Null? {
      assert [Part(name, d)][1..] == [];
    }
  }

  /** The fields of a triple that are present, up to a number of them. */
  function FirstParts(t: Triple, n: nat): seq<Part>
    requires n <= 3
  {
    if n == 0 then [] else FirstParts(t, n - 1) + OnePart(FIELD_NAMES[n - 1], FieldAt(t, n - 1))
  }

  const FIELD_NAMES: seq<string> := ["key", "value", "metadata"]

  function FieldAt(t: Triple, n: nat): Data
    requires n < 3
  {
    if n == 0 then t.key else if n == 1 then t.value else t.metadata
  }

  lemma NextPart(t: Triple, n: nat)
    requires AllExact(t) && n < 3 && PartsOk(FirstParts(t, n))
    ensures PartsOk(FirstParts(t, n + 1)) && Exact(FieldAt(t, n))
    ensures FieldAt(t, n).Null? ==> FirstParts(t, n + 1) == FirstParts(t, n)
    ensures !FieldAt(t, n).Null? ==> var d := FieldAt(t, n);
      && Spaced(Words(FirstParts(t, n + 1)))
      == Spaced(Words(FirstParts(t, n))) + [' '] + FIELD_NAMES[n] + [' '] + KindOf(d) + [' '] + NatText(|Shown(d)|)
      && Payload(FirstParts(t, n + 1)) == Payload(FirstParts(t, n)) + (Shown(d) + CRLF)
  {
    hide Words, Payload, Spaced, Shown, KindOf, NatText;
    var d := FieldAt(t, n);
    var before, one := FirstParts(t, n), OnePart(FIELD_NAMES[n], d);
    OneWritten(FIELD_NAMES[n], d);
    WordsAppend(before, one);
    if !d.Null? {
      SpacedAppend(Words(before), Words(one));
      SpacedThree(FIELD_NAMES[n], KindOf(d), NatText(|Shown(d)|));
      Joined(Spaced(Words(before)), FIELD_NAMES[n], KindOf(d), NatText(|Shown(d)|));
    }
  }

  lemma SpacedThree(a: string, b: string, c: string)
    ensures Spaced([a, b, c]) == [' '] + a + ([' '] + b + ([' '] + c))
  {
    assert [a, b, c][1..] == [b, c] && [b, c][1..] == [c] && [c][1..] == [];
    assert Spaced([c]) == [' '] + c;
  }

  lemma Joined(s: string, a: string, b: string, c: string)
    ensures s + ([' '] + a + ([' '] + b + ([' '] + c))) == s + [' '] + a + [' '] + b + [' '] + c
  {
  }

  /** Announces every field that is present, ends the line, and writes their data. */
  method SerializeData(t: Triple) returns (stream: string)
    requires AllExact(t)
    ensures stream == Serialized(t)
  {
    hide Words, Payload, Spaced, Shown, KindOf, NatText;
    stream := [];
    if t.key.Null? && t.value.Null? && t.metadata.Null? {
      return;
    }
    NoneWritten(t);
    for a := 0 to 3
      invariant PartsOk(FirstParts(t, a)) && stream == Spaced(Words(FirstParts(t, a)))
    {
      NextPart(t, a);
      var data := FieldAt(t, a);
      if !data.Null? {
        stream := stream + [' '] + FIELD_NAMES[a] + [' '] + KindOf(data) + [' '] + NatText(|Shown(data)|);
      }
    }
    stream := stream + CRLF;
    ghost var line := stream;
    for a := 0 to 3
      invariant PartsOk(FirstParts(t, a)) && stream == line + Payload(FirstParts(t, a))
    {
      NextPart(t, a);
      var data := FieldAt(t, a);
      if !data.Null? {
        stream := stream + (Shown(data) + CRLF);
      }
    }
    AllParts(t);
  }

  lemma NoneWritten(t: Triple)
    ensures PartsOk(FirstParts(t, 0)) && Spaced(Words(FirstParts(t, 0))) == [] && Payload(FirstParts(t, 0)) == []
  {
  }

  lemma AllParts(t: Triple)
    ensures FirstParts(t, 3) == Parts(t)
  {
    assert FirstParts(t, 1) == [] + OnePart("key", t.key);
    assert FirstParts(t, 2) == FirstParts(t, 1) + OnePart("value", t.value);
    assert FirstParts(t, 3) == FirstParts(t, 2) + OnePart("metadata", t.metadata);
  }

  /** What has been found so far, and what is found from there on. */
  function FoundBehind(fields: seq<FieldInfo>, total: nat, r: Result<(seq<FieldInfo>, nat)>): Result<(seq<FieldInfo>, nat)> {
    match r
    case Err(error) => Err(error)
    case Ok(found) => Ok((fields + found.0, total + found.1))
  }

  method ExtractFieldSet(words: seq<string>) returns (r: Result<(seq<FieldInfo>, nat)>)
    ensures r == FieldSet(words)
  {
    hide SizeOf, IsFieldName, Needed;
    var fields, totalSize, i := [], 0, 0;
    assert words[0..] == words;
    NothingFound(words);
    while i < |words|
      invariant 0 <= i <= |words|
      invariant FieldSet(words) == FoundBehind(fields, totalSize, FieldSet(words[i..]))
    {
      ghost var rest := words[i..];
      assert |rest| == |words| - i && rest[0] == words[i];
      var name := words[i];
      if !IsFieldName(name) {
        return Err("invalid field name");
      }
      if i + 1 == |words| {
        return Err("invalid number of parameters");
      }
      var kind := words[i + 1];
      if i + 2 == |words| {
        return Err("invalid number of parameters");
      }
      assert rest[1] == kind && rest[2] == words[i + 2] && rest[3..] == words[i + 3..];
      var size := SizeOf(words[i + 2]);
      if size.None? {
        return Err("bad lexical cast");
      }
      FoundOneMore(fields, totalSize, FieldInfo(name, kind, size.value), rest);
      totalSize := totalSize + (size.value + 2);
      fields := fields + [FieldInfo(name, kind, size.value)];
      i := i + 3;
    }
    assert words[i..] == [];
    Unit(fields);
    return Ok((fields, totalSize));
  }

  lemma NothingFound(words: seq<string>)
    ensures FoundBehind([], 0, FieldSet(words)) == FieldSet(words)
  {
    if FieldSet(words).Ok? {
      assert [] + FieldSet(words).value.0 == FieldSet(words).value.0;
    }
  }

  lemma FoundOneMore(fields: seq<FieldInfo>, total: nat, f: FieldInfo, words: seq<string>)
    requires |words| >= 3 && IsFieldName(words[0]) && SizeOf(words[2]) == Some(f.size) && f.name == words[0] && f.kind == words[1]
    ensures FoundBehind(fields, total, FieldSet(words)) == FoundBehind(fields + [f], total + (f.size + 2), FieldSet(words[3..]))
  {
    hide SizeOf, IsFieldName, Needed;
    var r := FieldSet(words[3..]);
    if r.Ok? {
      Assoc(fields, [f], r.value.0);
    }
  }

  method ExtractFieldsFromBuffer(double: string -> Option<real>, fields: seq<FieldInfo>, buffer: string) returns (r: Result<Triple>)
    requires Needed(fields) <= |buffer|
    ensures r == Extract(double, fields, buffer, NO_TRIPLE)
  {
    hide DataOf, SetField;
    var t, p: nat := NO_TRIPLE, 0;
    assert fields[0..] == fields && buffer[0..] == buffer;
    for i := 0 to |fields|
      invariant p <= |buffer| && Needed(fields[i..]) <= |buffer[p..]|
      invariant Extract(double, fields, buffer, NO_TRIPLE) == Extract(double, fields[i..], buffer[p..], t)
    {
      var f := fields[i];
      assert fields[i..][0] == f && fields[i..][1..] == fields[i + 1..];
      assert buffer[p..][..f.size] == buffer[p..p + f.size] && buffer[p..][f.size + 2..] == buffer[p + f.size + 2..];
      var d := DataOf(double, f.kind, buffer[p..p + f.size]);
      if d.Err? {
        return Err(d.error);
      }
      t := SetField(t, f.name, d.value);
      p := p + f.size + 2;
    }
    return Ok(t);
  }
}
